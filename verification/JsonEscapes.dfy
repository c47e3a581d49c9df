/** What escapes in string literals stand for, by section 7 of RFC 8259 (std/json/decode.go:236-378). */
module JsonEscapes {
  import opened Wrappers
  import opened JsonScanner
  import opened JsonGrammar
  import opened JsonUnquote

  const LowerHex: Text := "0123456789abcdef"
  const UpperHex: Text := "0123456789ABCDEF"

  /** The digit of n, in either case. */
  predicate Digit(c: char, n: nat) { n < 16 && (c == LowerHex[n] || c == UpperHex[n]) }

  /** d is x in four hexadecimal digits. */
  predicate Spells(d: Text, x: nat) {
    |d| == 4 && x < 0x10000
    && Digit(d[0], x / 0x1000) && Digit(d[1], x / 0x100 % 0x10) && Digit(d[2], x / 0x10 % 0x10) && Digit(d[3], x % 0x10)
  }

  function Esc(d: Text): Text { ['\\', 'u'] + d }

  /** What the string literal with this text between its quotation marks stands for. */
  function Literal(t: Text, u: Utf8): Option<Text> { UnquoteItem(['"'] + t + ['"'], u) }

  // ----- small steps -----

  lemma LiteralIs(t: Text, u: Utf8)
    ensures Literal(t, u) == Unquote(t, 0, u)
  {
    var item := ['"'] + t + ['"'];
    assert item[1..|item| - 1] == t;
  }

  lemma DigitValue(c: char, n: nat)
    requires Digit(c, n)
    ensures IsHex(c) && HexValue(c) == n
  {
  }

  lemma DigitsAre(d: Text, x: nat)
    requires Spells(d, x)
    ensures IsHex(d[0]) && IsHex(d[1]) && IsHex(d[2]) && IsHex(d[3])
    ensures ((HexValue(d[0]) * 16 + HexValue(d[1])) * 16 + HexValue(d[2])) * 16 + HexValue(d[3]) == x
  {
    hide Digit, IsHex, HexValue;
    DigitValue(d[0], x / 0x1000);
    DigitValue(d[1], x / 0x100 % 0x10);
    DigitValue(d[2], x / 0x10 % 0x10);
    DigitValue(d[3], x % 0x10);
  }

  lemma EscIs(a: Text, d: Text, rest: Text, x: nat)
    requires Spells(d, x)
    ensures GetU4(a + Esc(d) + rest, |a|) == Some(x)
  {
    hide Spells, IsHex, HexValue;
    SpellsFour(d, x);
    DigitsAre(d, x);
    var s, r := a + Esc(d) + rest, |a|;
    assert s[r] == '\\' && s[r + 1] == 'u' && s[r + 2] == d[0] && s[r + 3] == d[1] && s[r + 4] == d[2]
        && s[r + 5] == d[3];
  }

  lemma SpellsFour(d: Text, x: nat)
    requires Spells(d, x)
    ensures |d| == 4
  {
  }

  /** Unquoting does not look back. */
  lemma {:induction false} Shifted(a: Text, s: Text, r: nat, u: Utf8)
    requires Decodes(u) && r <= |s|
    ensures Unquote(a + s, |a| + r, u) == Unquote(s, r, u)
    decreases |s| - r
  {
    hide UnquoteOne, Decodes;
    if r < |s| {
      ShiftedOne(a, s, r, u);
      var one := UnquoteOne(s, r, u);
      if one.Some? && one.value.1 != 0 && r + one.value.1 <= |s| { Shifted(a, s, r + one.value.1, u); }
    }
  }

  lemma ShiftedOne(a: Text, s: Text, r: nat, u: Utf8)
    requires Decodes(u) && r < |s|
    ensures UnquoteOne(a + s, |a| + r, u) == UnquoteOne(s, r, u)
  {
    hide Decodes, GetU4, Advances, Inverse, Local;
    var t, q := a + s, |a| + r;
    assert t[q] == s[r] && (r + 1 < |s| ==> t[q + 1] == s[r + 1]);
    ShiftedU4(a, s, r);
    ShiftedU4(a, s, r + 6);
    if High(s[r]) { ShiftedRune(a, s, r, u); }
  }

  lemma ShiftedU4(a: Text, s: Text, r: nat)
    ensures GetU4(a + s, |a| + r) == GetU4(s, r)
  {
    hide IsHex, HexValue;
    if r + 6 <= |s| { assert forall k :: r <= k < r + 6 ==> (a + s)[|a| + k] == s[k]; }
  }

  lemma ShiftedRune(a: Text, s: Text, r: nat, u: Utf8)
    requires Decodes(u) && r < |s| && High(s[r])
    ensures u.decode(a + s, |a| + r) == u.decode(s, r)
  {
    hide Advances, Inverse, Local;
    var t, q := a + s, |a| + r;
    AdvanceAt(s, r, u);
    AdvanceAt(t, q, u);
    if !Bad(u.decode(s, r)) {
      var n := u.decode(s, r).1;
      assert t[q..q + n] == s[r..r + n];
      LocalAt(s, r, t, q, u);
    } else if !Bad(u.decode(t, q)) {
      var n := u.decode(t, q).1;
      assert t[q..q + n] == s[r..r + n];
      LocalAt(t, q, s, r, u);
    }
  }

  /** What a literal begins with is unquoted by itself. */
  lemma FirstOne(a: Text, rest: Text, out: Text, u: Utf8)
    requires Decodes(u) && a != [] && UnquoteOne(a + rest, 0, u) == Some((out, |a|))
    ensures Literal(a + rest, u) == Behind(out, Literal(rest, u))
  {
    hide Decodes, UnquoteOne, Literal;
    LiteralIs(a + rest, u);
    LiteralIs(rest, u);
    Shifted(a, rest, 0, u);
  }

  lemma EscStarts(a: Text, d: Text, rest: Text)
    requires |d| == 4
    ensures |Esc(d)| == 6
    ensures var s := a + Esc(d) + rest; s[|a|] == '\\' && s[|a| + 1] == 'u'
  {
  }

  // ----- what escapes stand for -----

  /** Four hexadecimal digits, in either case, are the character of that number. */
  lemma FourDigits(d: Text, x: nat, rest: Text, u: Utf8)
    requires Decodes(u) && Spells(d, x) && !(0xD800 <= x < 0xE000)
    ensures Literal(Esc(d) + rest, u) == Behind(u.encode(x), Literal(rest, u))
  {
    hide Decodes, Spells, GetU4, Literal, Esc;
    SpellsFour(d, x);
    EscIs([], d, rest, x);
    EscStarts([], d, rest);
    assert [] + Esc(d) + rest == Esc(d) + rest;
    FirstOne(Esc(d), rest, u.encode(x), u);
  }

  /** A character from U+10000 up is written as the two halves of a surrogate pair. */
  lemma PairIsOneRune(x: nat, hi: Text, lo: Text, rest: Text, u: Utf8)
    requires Decodes(u) && 0x10000 <= x <= 0x10FFFF
    requires Spells(hi, 0xD800 + (x - 0x10000) / 0x400) && Spells(lo, 0xDC00 + (x - 0x10000) % 0x400)
    ensures Literal(Esc(hi) + Esc(lo) + rest, u) == Behind(u.encode(x), Literal(rest, u))
  {
    hide Decodes, Spells, GetU4, Literal, Esc;
    var h, l := 0xD800 + (x - 0x10000) / 0x400, 0xDC00 + (x - 0x10000) % 0x400;
    SpellsFour(hi, h);
    SpellsFour(lo, l);
    EscStarts([], hi, Esc(lo) + rest);
    EscStarts([], lo, rest);
    var t := Esc(hi) + Esc(lo) + rest;
    assert [] + Esc(hi) + (Esc(lo) + rest) == t && |Esc(hi)| == 6 && |Esc(hi) + Esc(lo)| == 12;
    EscIs([], hi, Esc(lo) + rest, h);
    EscIs(Esc(hi), lo, rest, l);
    FirstOne(Esc(hi) + Esc(lo), rest, u.encode(x), u);
  }

  /** What follows the first half of a pair, if it is the second. */
  ghost predicate SecondHalf(rest: Text) {
    exists d, y, tail :: rest == Esc(d) + tail && 0xDC00 <= y < 0xE000 && Spells(d, y)
  }

  lemma SecondHalfIs(rest: Text)
    requires GetU4(rest, 0).Some? && 0xDC00 <= GetU4(rest, 0).value < 0xE000
    ensures SecondHalf(rest)
  {
    var d, tail, y := rest[2..6], rest[6..], GetU4(rest, 0).value;
    assert rest == Esc(d) + tail;
    SpellsIts(d, y);
  }

  lemma SpellsIts(d: Text, y: nat)
    requires |d| == 4 && IsHex(d[0]) && IsHex(d[1]) && IsHex(d[2]) && IsHex(d[3])
    requires y == ((HexValue(d[0]) * 16 + HexValue(d[1])) * 16 + HexValue(d[2])) * 16 + HexValue(d[3])
    ensures Spells(d, y)
  {
    hide IsHex, HexValue, Digit;
    HexDigits(d[0]);
    HexDigits(d[1]);
    HexDigits(d[2]);
    HexDigits(d[3]);
    Base16(HexValue(d[0]), HexValue(d[1]), HexValue(d[2]), HexValue(d[3]));
  }

  lemma Base16(a: nat, b: nat, c: nat, d: nat)
    requires a < 16 && b < 16 && c < 16 && d < 16
    ensures var y := ((a * 16 + b) * 16 + c) * 16 + d;
            && y < 0x10000
            && y / 0x1000 == a && y / 0x100 % 0x10 == b && y / 0x10 % 0x10 == c && y % 0x10 == d
  {
  }

  lemma HexDigits(c: char)
    ensures IsHex(c) ==> Digit(c, HexValue(c)) && HexValue(c) < 16
  {
  }

  /** A half of a pair without the other stands for the replacement character. */
  lemma LoneHalf(d: Text, x: nat, rest: Text, u: Utf8)
    requires Decodes(u) && Spells(d, x) && 0xD800 <= x < 0xE000 && (x < 0xDC00 ==> !SecondHalf(rest))
    ensures Literal(Esc(d) + rest, u) == Behind(u.encode(0xFFFD), Literal(rest, u))
  {
    hide Decodes, Spells, GetU4, Literal, Esc;
    SpellsFour(d, x);
    EscIs([], d, rest, x);
    EscStarts([], d, rest);
    assert [] + Esc(d) + rest == Esc(d) + rest;
    ShiftedU4(Esc(d), rest, 0);
    if GetU4(rest, 0).Some? && 0xDC00 <= GetU4(rest, 0).value < 0xE000 { SecondHalfIs(rest); }
    hide SecondHalf;
    FirstOne(Esc(d), rest, u.encode(0xFFFD), u);
  }

  /** The short escapes, and the number of the character each of them stands for. */
  const Short: map<char, nat> :=
    map['"' := 0x22, '\\' := 0x5C, '/' := 0x2F, 'b' := 0x08, 'f' := 0x0C, 'n' := 0x0A, 'r' := 0x0D, 't' := 0x09]

  /** A short escape is the character of its number, as the long one with these digits is. */
  lemma ShortEscape(c: char, d: Text, rest: Text, u: Utf8)
    requires Decodes(u) && c in Short && Spells(d, Short[c])
    ensures Literal(['\\', c] + rest, u) == Behind([Short[c] as char], Literal(rest, u))
            == Literal(Esc(d) + rest, u)
  {
    hide Spells, GetU4, Literal, Esc;
    assert u.encode(Short[c]) == [Short[c] as char];
    hide Decodes;
    FourDigits(d, Short[c], rest, u);
    FirstOne(['\\', c], rest, [Short[c] as char], u);
  }

  /** Any other character below 0x80 stands for itself, unless it is a control character or has a meaning
      of its own. */
  lemma PlainCharacter(c: char, rest: Text, u: Utf8)
    requires Decodes(u) && 0x20 <= c as int < 0x80 && c != '"' && c != '\\'
    ensures Literal([c] + rest, u) == Behind([c], Literal(rest, u))
  {
    hide Decodes, Literal;
    FirstOne([c], rest, [c], u);
  }

  /** A rune of several bytes stands for itself, bytes that are none for the replacement character. */
  lemma HighBytes(a: Text, rest: Text, u: Utf8)
    requires Decodes(u) && a != [] && High(a[0]) && u.decode(a + rest, 0).1 == |a|
    ensures Literal(a + rest, u) == Behind(if Bad(u.decode(a + rest, 0)) then u.encode(0xFFFD) else a, Literal(rest, u))
  {
    hide Literal, Advances, Local, Inverse;
    var d := u.decode(a + rest, 0);
    if !Bad(d) {
      InverseAt(a + rest, 0, u);
      assert (a + rest)[0..|a|] == a;
    }
    hide Decodes;
    FirstOne(a, rest, if Bad(d) then u.encode(0xFFFD) else a, u);
  }

  /** Nothing else can stand in a literal. */
  lemma NothingElse(c: char, e: char, rest: Text, u: Utf8)
    requires c == '"' || c as int < 0x20 || (c == '\\' && e !in Short && e != 'u' && e != '\'')
    ensures Literal([c] + [e] + rest, u) == None
  {
    hide Literal, GetU4;
    LiteralIs([c] + [e] + rest, u);
  }
}
