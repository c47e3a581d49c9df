/** Unquoting string literals (std/json/decode.go:236-378). What the UTF-8 library does with bytes from
    0x80 up is a parameter, of which only the laws in Decodes are used. */
module JsonUnquote {
  import opened Wrappers
  import opened JsonScanner
  import opened JsonGrammar

  type Rune = nat

  const ReplacementChar: Rune := 0xFFFD

  /** The rune at a position and how many bytes it takes; the bytes of a rune. */
  datatype Utf8 = Utf8(decode: (Text, nat) -> (Rune, nat), encode: Rune -> Text)

  predicate High(c: char) { c >= 0x80 as char }

  /** What decoding answers on bytes that are not UTF-8. */
  predicate Bad(d: (Rune, nat)) { d == (ReplacementChar, 1) }

  /** A rune takes at least one byte, and only bytes from 0x80 up. */
  ghost predicate Advances(u: Utf8) {
    forall s: Text, r: nat :: r < |s| && High(s[r]) ==>
      var n := u.decode(s, r).1; 1 <= n <= |s| - r && forall i :: r <= i < r + n ==> High(s[i])
  }

  /** Encoding gives back the bytes of a rune that was decoded, and a byte below 0x80 stands for itself. */
  ghost predicate Inverse(u: Utf8) {
    && (forall s: Text, r: nat :: r < |s| && High(s[r]) ==>
          var d := u.decode(s, r); Bad(d) || (r + d.1 <= |s| && u.encode(d.0) == s[r..r + d.1]))
    && (forall x: Rune :: x < 0x80 ==> u.encode(x) == [x as char])
  }

  /** The bytes of a rune are decoded alike wherever they stand. */
  ghost predicate Local(u: Utf8) {
    forall s: Text, r: nat, t: Text, q: nat :: r < |s| && High(s[r]) && !Bad(u.decode(s, r)) ==>
      var n := u.decode(s, r).1;
      r + n <= |s| && q + n <= |t| && t[q..q + n] == s[r..r + n] ==> u.decode(t, q) == u.decode(s, r)
  }

  ghost predicate Decodes(u: Utf8) { Advances(u) && Inverse(u) && Local(u) }

  lemma AdvanceAt(s: Text, r: nat, u: Utf8)
    requires Advances(u) && r < |s| && High(s[r])
    ensures var n := u.decode(s, r).1; 1 <= n <= |s| - r && forall i :: r <= i < r + n ==> High(s[i])
  {
  }

  lemma InverseAt(s: Text, r: nat, u: Utf8)
    requires Inverse(u) && r < |s| && High(s[r]) && !Bad(u.decode(s, r))
    ensures var d := u.decode(s, r); r + d.1 <= |s| && u.encode(d.0) == s[r..r + d.1]
  {
  }

  lemma LocalAt(s: Text, r: nat, t: Text, q: nat, u: Utf8)
    requires Local(u) && r < |s| && High(s[r]) && !Bad(u.decode(s, r))
    requires var n := u.decode(s, r).1; r + n <= |s| && q + n <= |t| && t[q..q + n] == s[r..r + n]
    ensures u.decode(t, q) == u.decode(s, r)
  {
  }

  function HexValue(c: char): nat {
    if IsDigit(c) then c as int - '0' as int
    else if 'a' <= c <= 'f' then c as int - 'a' as int + 10
    else if 'A' <= c <= 'F' then c as int - 'A' as int + 10
    else 0
  }

  /** getu4: the value of \\uXXXX at r, if that is what stands there. */
  function GetU4(s: Text, r: nat): Option<Rune> {
    if |s| < r + 6 || s[r] != '\\' || s[r + 1] != 'u' then None
    else if !(IsHex(s[r + 2]) && IsHex(s[r + 3]) && IsHex(s[r + 4]) && IsHex(s[r + 5])) then None
    else Some(((HexValue(s[r + 2]) * 16 + HexValue(s[r + 3])) * 16 + HexValue(s[r + 4])) * 16 + HexValue(s[r + 5]))
  }

  predicate IsSurrogate(r: Rune) { 0xD800 <= r < 0xE000 }

  /** The rune of a surrogate pair, if it is one. */
  function DecodePair(hi: Rune, lo: Option<Rune>): Option<Rune> {
    if 0xD800 <= hi < 0xDC00 && lo.Some? && 0xDC00 <= lo.value < 0xE000 then
      Some((hi - 0xD800) * 0x400 + (lo.value - 0xDC00) + 0x10000)
    else None
  }

  function Escaped(c: char): Option<char> {
    match c
    case 'b' => Some(8 as char)
    case 'f' => Some(12 as char)
    case 'n' => Some(10 as char)
    case 'r' => Some(13 as char)
    case 't' => Some(9 as char)
    case _ => if c in {'"', '\\', '/', '\''} then Some(c) else None
  }

  /** One step at r: what it writes and how far it goes. */
  function UnquoteOne(s: Text, r: nat, u: Utf8): Option<(Text, nat)>
    requires r < |s|
  {
    if s[r] == '\\' then
      if r + 1 == |s| then None
      else if s[r + 1] == 'u' then
        match GetU4(s, r)
        case None => None
        case Some(x) =>
          if !IsSurrogate(x) then Some((u.encode(x), 6))
          else
            match DecodePair(x, GetU4(s, r + 6))
            case Some(y) => Some((u.encode(y), 12))
            case None => Some((u.encode(ReplacementChar), 6))
      else if Escaped(s[r + 1]).Some? then Some(([Escaped(s[r + 1]).value], 2))
      else None
    else if s[r] == '"' || s[r] < ' ' then None
    else if !High(s[r]) then Some(([s[r]], 1))
    else Some((u.encode(u.decode(s, r).0), u.decode(s, r).1))
  }

  /** unquoteBytes without the quotation marks, from r on. */
  function Unquote(s: Text, r: nat, u: Utf8): Option<Text>
    decreases |s| - r
  {
    if r >= |s| then Some([])
    else
      var one := UnquoteOne(s, r, u);
      if one.None? || one.value.1 == 0 || r + one.value.1 > |s| then None
      else Behind(one.value.0, Unquote(s, r + one.value.1, u))
  }

  function Behind(t: Text, rest: Option<Text>): Option<Text> { if rest.None? then None else Some(t + rest.value) }

  /** unquote */
  function UnquoteItem(item: Text, u: Utf8): Option<Text> {
    if |item| < 2 || item[0] != '"' || item[|item| - 1] != '"' then None
    else Unquote(item[1..|item| - 1], 0, u)
  }

  // ----- every string of the grammar can be unquoted -----

  function Body(us: seq<Unit>): Text { if us == [] then [] else UnitText(us[0]) + Body(us[1..]) }

  lemma {:induction false} BodyIs(us: seq<Unit>)
    ensures StrText(us) == Body(us) + ['"']
    decreases |us|
  {
    hide UnitText;
    if us == [] {
      assert StrText(us) == ['"'];
    } else {
      BodyIs(us[1..]);
      assert StrText(us) == UnitText(us[0]) + (Body(us[1..]) + ['"']);
    }
  }

  /** The units still to come at position r. */
  predicate Rest(s: Text, r: nat, us: seq<Unit>) { r <= |s| && s[r..] == Body(us) && StrOk(us) }

  lemma RestMoves(s: Text, r: nat, us: seq<Unit>)
    requires Rest(s, r, us) && us != []
    ensures var n := |UnitText(us[0])|;
            r + n <= |s| && s[r..r + n] == UnitText(us[0]) && Rest(s, r + n, us[1..]) && UnitOk(us[0]) && n > 0
  {
    var n := |UnitText(us[0])|;
    assert s[r..] == UnitText(us[0]) + Body(us[1..]);
    assert s[r..r + n] == s[r..][..n] && s[r + n..] == s[r..][n..];
    assert us[0] in us;
  }

  lemma UnitAt(s: Text, r: nat, us: seq<Unit>)
    requires Rest(s, r, us) && us != []
    ensures r < |s|
    ensures us[0].Plain? ==> s[r] == us[0].c && us[0].c >= ' ' && us[0].c != '"' && us[0].c != '\\'
    ensures us[0].Escape? ==> r + 1 < |s| && s[r] == '\\' && s[r + 1] == us[0].c && IsEscaped(us[0].c)
    ensures us[0].Unicode? ==> s[r] == '\\' && r + 1 < |s| && s[r + 1] == 'u' && GetU4(s, r).Some?
  {
    RestMoves(s, r, us);
    var t := s[r..r + |UnitText(us[0])|];
    assert forall i :: 0 <= i < |t| ==> s[r + i] == t[i];
  }

  lemma SomeRest(s: Text, r: nat, us: seq<Unit>)
    requires Rest(s, r, us) && r < |s|
    ensures us != []
  {
    assert |s[r..]| == |s| - r;
  }

  /** A high byte is a character of its own, so a rune of n bytes takes n characters. */
  lemma {:induction false} HighRest(s: Text, r: nat, us: seq<Unit>, n: nat)
    requires Rest(s, r, us) && r + n <= |s| && forall i :: r <= i < r + n ==> High(s[i])
    ensures n <= |us| && Rest(s, r + n, us[n..])
    decreases n
  {
    if n == 0 {
      assert us[0..] == us;
    } else {
      SomeRest(s, r, us);
      UnitAt(s, r, us);
      RestMoves(s, r, us);
      HighRest(s, r + 1, us[1..], n - 1);
      assert us[1..][n - 1..] == us[n..];
    }
  }

  /** One step succeeds and takes one or more whole characters. */
  lemma OneStep(s: Text, r: nat, us: seq<Unit>, u: Utf8) returns (k: nat)
    requires Decodes(u) && Rest(s, r, us) && us != []
    ensures r < |s| && UnquoteOne(s, r, u).Some?
    ensures var n := UnquoteOne(s, r, u).value.1;
            n > 0 && r + n <= |s| && k <= |us| && Rest(s, r + n, us[k..])
  {
    hide Rest, GetU4, Advances, Inverse, Local;
    UnitAt(s, r, us);
    RestMoves(s, r, us);
    k := 1;
    match us[0]
    case Plain(c) =>
      if High(c) {
        AdvanceAt(s, r, u);
        k := u.decode(s, r).1;
        HighRest(s, r, us, k);
      }
    case Escape(_) =>
    case Unicode(_, _, _, _) =>
      if UnquoteOne(s, r, u).value.1 == 12 {
        k := 2;
        PairRest(s, r, us);
      }
  }

  lemma {:induction false} UnquoteSome(s: Text, r: nat, us: seq<Unit>, u: Utf8)
    requires Decodes(u) && Rest(s, r, us)
    ensures Unquote(s, r, u).Some?
    decreases |s| - r
  {
    hide Rest, UnquoteOne, Decodes;
    if us == [] {
      EmptyRest(s, r);
    } else {
      var k := OneStep(s, r, us, u);
      UnquoteSome(s, r + UnquoteOne(s, r, u).value.1, us[k..], u);
    }
  }

  lemma EmptyRest(s: Text, r: nat)
    requires Rest(s, r, [])
    ensures r >= |s|
  {
    assert s[r..] == [];
  }

  /** The second half of a pair is a unit as well. */
  lemma PairRest(s: Text, r: nat, us: seq<Unit>)
    requires Rest(s, r, us) && us != [] && us[0].Unicode? && GetU4(s, r + 6).Some?
    ensures |us| > 1 && Rest(s, r + 12, us[2..])
  {
    RestMoves(s, r, us);
    var vs := us[1..];
    SomeRest(s, r + 6, vs);
    UnitAt(s, r + 6, vs);
    RestMoves(s, r + 6, vs);
    assert vs[1..] == us[2..];
  }

  /** The decoder's check of unquote never fails on what the scanner has accepted as a string. */
  lemma StringsUnquote(us: seq<Unit>, u: Utf8)
    requires Decodes(u) && StrOk(us)
    ensures UnquoteItem(['"'] + StrText(us), u).Some?
  {
    hide Unquote, Decodes;
    BodyIs(us);
    var item := ['"'] + StrText(us);
    assert item[1..|item| - 1] == Body(us);
    assert Body(us)[0..] == Body(us);
    UnquoteSome(Body(us), 0, us, u);
  }

  // ----- the loops of unquoteBytes -----

  /** Nothing unusual at r: a byte below 0x80 that needs no unquoting, or a well-formed rune. */
  predicate Usual(s: Text, r: nat, u: Utf8)
    requires r < |s|
  {
    s[r] != '\\' && s[r] != '"' && s[r] >= ' ' && (High(s[r]) ==> !Bad(u.decode(s, r)))
  }

  lemma UsualOne(s: Text, r: nat, u: Utf8)
    requires r < |s| && Usual(s, r, u) && Decodes(u)
    ensures var n := if High(s[r]) then u.decode(s, r).1 else 1;
            0 < n && r + n <= |s| && UnquoteOne(s, r, u) == Some((s[r..r + n], n))
  {
    hide Local, GetU4;
    if High(s[r]) {
      var d := u.decode(s, r);
      assert u.encode(d.0) == s[r..r + d.1];
    } else {
      assert s[r..r + 1] == [s[r]];
    }
  }

  lemma BehindBoth(a: Text, b: Text, rest: Option<Text>)
    ensures Behind(a, Behind(b, rest)) == Behind(a + b, rest)
  {
    if rest.Some? { assert a + (b + rest.value) == (a + b) + rest.value; }
  }

  /** What is left to do at r after b has been written. */
  predicate Left(s: Text, b: Text, r: nat, u: Utf8) {
    r <= |s| && Unquote(s, 0, u) == Behind(b, Unquote(s, r, u))
  }

  lemma LeftStart(s: Text, u: Utf8)
    ensures Left(s, [], 0, u)
  {
    hide Unquote;
    var all := Unquote(s, 0, u);
    if all.Some? { assert [] + all.value == all.value; }
  }

  lemma LeftStep(s: Text, b: Text, r: nat, u: Utf8)
    requires Left(s, b, r, u) && r < |s| && UnquoteOne(s, r, u).Some?
    ensures var one := UnquoteOne(s, r, u).value;
            0 < one.1 && r + one.1 <= |s| ==> Left(s, b + one.0, r + one.1, u)
  {
    hide UnquoteOne;
    var one := UnquoteOne(s, r, u).value;
    if 0 < one.1 && r + one.1 <= |s| { BehindBoth(b, one.0, Unquote(s, r + one.1, u)); }
  }

  lemma LeftFails(s: Text, b: Text, r: nat, u: Utf8)
    requires Left(s, b, r, u) && r < |s| && UnquoteOne(s, r, u).None?
    ensures Unquote(s, 0, u) == None
  {
    hide UnquoteOne;
  }

  lemma LeftEnd(s: Text, b: Text, u: Utf8)
    requires Left(s, b, |s|, u)
    ensures Unquote(s, 0, u) == Some(b)
  {
    assert Unquote(s, |s|, u) == Some([]);
    assert b + [] == b;
  }

  lemma GoesOn(s: Text, r: nat, u: Utf8)
    requires r < |s| && Decodes(u) && UnquoteOne(s, r, u).Some?
    ensures var n := UnquoteOne(s, r, u).value.1; 0 < n && r + n <= |s|
  {
    assert forall x: nat :: GetU4(s, x).Some? ==> x + 6 <= |s|;
  }

  /** unquoteBytes: as long as nothing is unusual no buffer is written, and if nothing is, the literal
      itself is the answer. */
  method UnquoteBytes(item: Text, u: Utf8) returns (t: Option<Text>)
    requires Decodes(u)
    ensures t == UnquoteItem(item, u)
  {
    hide Unquote, UnquoteOne, Decodes, Left, Usual;
    if |item| < 2 || item[0] != '"' || item[|item| - 1] != '"' { return None; }
    var s := item[1..|item| - 1];
    var r: nat := 0;
    LeftStart(s, u);
    assert s[..0] == [];
    while r < |s| && Usual(s, r, u)
      invariant r <= |s| && Left(s, s[..r], r, u)
    {
      var n := if High(s[r]) then u.decode(s, r).1 else 1;
      UsualOne(s, r, u);
      LeftStep(s, s[..r], r, u);
      assert s[..r] + s[r..r + n] == s[..r + n];
      r := r + n;
    }
    if r == |s| {
      assert s[..r] == s;
      LeftEnd(s, s, u);
      return Some(s);
    }
    var b := s[..r];
    while r < |s|
      invariant r <= |s| && Left(s, b, r, u)
    {
      var one := UnquoteOne(s, r, u);
      if one.None? {
        LeftFails(s, b, r, u);
        return None;
      }
      GoesOn(s, r, u);
      LeftStep(s, b, r, u);
      b := b + one.value.0;
      r := r + one.value.1;
    }
    LeftEnd(s, b, u);
    t := Some(b);
  }
}
