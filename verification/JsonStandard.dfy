/** The character classes, limits and values of the JSON modules, written out as the standard and the
    source have them: section 2, 6, 7 and 9 of RFC 8259 (std/json/scanner.go:139-150, std/json/decode.go:143-236,
    std/json/encode.go:164-176, 369-410). */
module JsonStandard {
  import opened Wrappers
  import opened JsonScanner
  import opened JsonGrammar
  import opened JsonUnquote
  import opened JsonDecoder
  import opened JsonNumbers
  import opened JsonQuote
  import opened JsonEncode
  import opened JsonEscapes

  /** Section 2: ws; section 6: DIGIT; section 7: HEXDIG, escaped and unescaped characters; and the depth
      that the scanner allows, as section 9 permits. */
  lemma ClassesOfTheStandard(c: char)
    ensures IsSpace(c) <==> c as int in {0x20, 0x09, 0x0A, 0x0D}
    ensures IsDigit(c) <==> c in "0123456789"
    ensures IsHex(c) <==> c in LowerHex || c in UpperHex
    ensures IsEscaped(c) <==> c as int in {0x22, 0x5C, 0x2F, 0x62, 0x66, 0x6E, 0x72, 0x74}
    ensures UnitOk(Plain(c)) <==> c as int >= 0x20 && c as int != 0x22 && c as int != 0x5C
    ensures MaxNestingDepth == 10000
  {
    var digits := "0123456789";
    if IsDigit(c) { assert digits[c as int - 0x30] == c; }
    if 'a' <= c <= 'f' { assert LowerHex[c as int - 0x61 + 10] == c; }
    if 'A' <= c <= 'F' { assert UpperHex[c as int - 0x41 + 10] == c; }
    if IsDigit(c) { assert LowerHex[c as int - 0x30] == c; }
    assert forall d <- LowerHex :: IsHex(d);
    assert forall d <- UpperHex :: IsHex(d);
    assert forall d <- digits :: IsDigit(d);
  }

  // ----- numbers -----

  /** The number that decimal digits stand for, the first digit first. */
  function Positional(t: Text, value: nat): nat
    decreases |t|
  {
    if t == [] then value
    else Positional(t[1..], value * 10 + (if '0' <= t[0] <= '9' then t[0] as int - 0x30 else 0))
  }

  lemma {:induction false} PositionalIs(a: Text, t: Text)
    requires AllDigits(a) && AllDigits(t)
    ensures Positional(t, DigitsValue(a)) == DigitsValue(a + t)
    decreases |t|
  {
    if t == [] {
      assert a + t == a;
    } else {
      var b := a + [t[0]];
      assert b[..|b| - 1] == a && b + t[1..] == a + t;
      PositionalIs(b, t[1..]);
    }
  }

  /** A number without fraction and exponent is the integer its digits stand for, if that is one of 64
      bits; any other number keeps its text. */
  lemma NumberValue(v: Value, u: Utf8)
    requires v.Number? && Ok(v)
    ensures var n := if v.neg then -(Positional(v.whole, 0) as int) else Positional(v.whole, 0);
            ValueOf(v, u) == if v.frac.None? && v.exp.None? && -9223372036854775808 <= n <= 9223372036854775807
                             then DInt(n) else DFloat(ValueText(v))
  {
    AllDigitsOf(v.whole);
    hide DigitsValue, Positional, AllDigits, IntOk;
    var t, sign := ValueText(v), if v.neg then "-" else "";
    if v.frac.Some? || v.exp.Some? {
      var w := sign + v.whole;
      assert t == w + (FracText(v.frac) + ExpText(v.exp));
      assert t[|w|] == if v.frac.Some? then '.' else v.exp.value.e;
      assert t[|w|] in t;
    } else {
      assert t == sign + v.whole;
      WholeValue(v.neg, v.whole);
    }
  }

  lemma WholeValue(neg: bool, whole: Text)
    requires AllDigits(whole) && whole != []
    ensures var n := if neg then -(Positional(whole, 0) as int) else Positional(whole, 0);
            var t := (if neg then "-" else "") + whole;
            && NumberOf(t) == if -9223372036854775808 <= n <= 9223372036854775807 then DInt(n) else DFloat(t)
  {
    var t := (if neg then "-" else "") + whole;
    assert AllDigits([]) && DigitsValue([]) == 0;
    PositionalIs([], whole);
    assert [] + whole == whole;
    NoPoint(neg, whole);
    hide DigitsValue, Positional;
    assert whole[0] in whole;
    if neg { assert t[1..] == whole; } else { assert t == whole; }
  }

  lemma NoPoint(neg: bool, whole: Text)
    requires AllDigits(whole)
    ensures var t := (if neg then "-" else "") + whole; '.' !in t && 'e' !in t && 'E' !in t
  {
  }

  lemma AllDigitsOf(t: Text)
    requires IntOk(t)
    ensures AllDigits(t) && t != []
  {
  }

  // ----- objects -----

  /** The keys and values of the members, in the order in which they stand. */
  function Pairs(ms: Members, u: Utf8): (r: seq<(Text, Decoded)>)
    ensures r != []
  {
    match ms
    case LastMember(m) => [(StringOf(m.key, u), ValueOf(m.value.v, u))]
    case MoreMembers(m, rest) => [(StringOf(m.key, u), ValueOf(m.value.v, u))] + Pairs(rest, u)
  }

  ghost predicate LastOf(ps: seq<(Text, Decoded)>, i: nat) {
    i < |ps| && forall j :: i < j < |ps| ==> ps[j].0 != ps[i].0
  }

  function Entered(ps: seq<(Text, Decoded)>, before: map<Text, Decoded>): map<Text, Decoded>
    decreases |ps|
  {
    if ps == [] then before else Entered(ps[1..], before[ps[0].0 := ps[0].1])
  }

  lemma {:induction false} MembersEntered(ms: Members, before: map<Text, Decoded>, u: Utf8)
    ensures MembersOf(ms, before, u) == Entered(Pairs(ms, u), before)
    decreases ms
  {
    hide StringOf, ValueOf;
    var ps := Pairs(ms, u);
    var mid := before[ps[0].0 := ps[0].1];
    if ms.MoreMembers? {
      MembersEntered(ms.rest, mid, u);
      assert ps[1..] == Pairs(ms.rest, u);
    } else {
      assert ps[1..] == [];
      assert Entered([], mid) == mid;
    }
  }

  lemma {:induction false} EnteredKeys(ps: seq<(Text, Decoded)>, before: map<Text, Decoded>, k: Text)
    ensures k in Entered(ps, before) <==> k in before || exists i :: 0 <= i < |ps| && ps[i].0 == k
    decreases |ps|
  {
    if ps != [] {
      EnteredKeys(ps[1..], before[ps[0].0 := ps[0].1], k);
      if i :| 0 <= i < |ps| - 1 && ps[1..][i].0 == k { assert ps[i + 1].0 == k; }
      if i :| 0 < i < |ps| && ps[i].0 == k { assert ps[1..][i - 1].0 == k; }
    }
  }

  lemma {:induction false} EnteredKeeps(ps: seq<(Text, Decoded)>, before: map<Text, Decoded>, k: Text)
    requires k in before && forall i :: 0 <= i < |ps| ==> ps[i].0 != k
    ensures k in Entered(ps, before) && Entered(ps, before)[k] == before[k]
    decreases |ps|
  {
    if ps != [] { EnteredKeeps(ps[1..], before[ps[0].0 := ps[0].1], k); }
  }

  lemma {:induction false} EnteredLast(ps: seq<(Text, Decoded)>, before: map<Text, Decoded>, i: nat)
    requires LastOf(ps, i)
    ensures ps[i].0 in Entered(ps, before) && Entered(ps, before)[ps[i].0] == ps[i].1
    decreases i
  {
    var mid := before[ps[0].0 := ps[0].1];
    if i == 0 {
      EnteredKeeps(ps[1..], mid, ps[0].0);
    } else {
      assert ps[1..][i - 1] == ps[i];
      EnteredLast(ps[1..], mid, i - 1);
    }
  }

  /** An object has exactly the keys of its members, and for each the value of the last member with it. */
  lemma LastMemberWins(ms: Members, u: Utf8)
    ensures var ps, r := Pairs(ms, u), MembersOf(ms, map[], u);
            && ValueOf(Object(ms), u) == DMap(r)
            && (forall k :: k in r <==> exists i :: 0 <= i < |ps| && ps[i].0 == k)
            && (forall i: nat :: LastOf(ps, i) ==> ps[i].0 in r && r[ps[i].0] == ps[i].1)
  {
    hide StringOf, Entered;
    var ps := Pairs(ms, u);
    MembersEntered(ms, map[], u);
    forall k ensures k in Entered(ps, map[]) <==> exists i :: 0 <= i < |ps| && ps[i].0 == k {
      EnteredKeys(ps, map[], k);
    }
    forall i: nat | LastOf(ps, i) ensures ps[i].0 in Entered(ps, map[]) && Entered(ps, map[])[ps[i].0] == ps[i].1 {
      EnteredLast(ps, map[], i);
    }
  }

  // ----- what the encoder writes -----

  /** A quotation mark, a backslash, and the line feed, carriage return and tab have a letter behind a
      backslash, other control characters four lower-case digits; everything else is written as it is. */
  lemma QuotedAs(c: char)
    requires c as int < 0x100
    ensures var n := c as int;
            UnitText(Quoted(c)) == if n == 0x22 then "\\\"" else if n == 0x5C then "\\\\"
                                   else if n == 0x0A then "\\n" else if n == 0x0D then "\\r" else if n == 0x09
                                     then "\\t"
                                   else if n < 0x20 then "\\u00" + [LowerHex[n / 0x10], LowerHex[n % 0x10]] else [c]
  {
    var n := c as int;
    if n < 0x20 { assert HexDigit(n / 0x10) == LowerHex[n / 0x10] && HexDigit(n % 0x10) == LowerHex[n % 0x10]; }
  }

  /** Keys are compared by the first byte in which they differ; a prefix comes first. */
  lemma {:induction false} OrderOfKeys(a: Text, b: Text)
    ensures Leq(a, b) <==> a <= b || exists i :: 0 <= i < |a| && i < |b| && a[..i] == b[..i] && a[i] < b[i]
    decreases |a|
  {
    if a != [] && b != [] {
      OrderOfKeys(a[1..], b[1..]);
      forall i | 0 < i <= |a| && i <= |b| && a[..i] == b[..i] ensures a[0] == b[0] {
        assert a[..i][0] == a[0] && b[..i][0] == b[0];
      }
      if a[0] == b[0] {
        if i :| 0 <= i < |a| && i < |b| && a[..i] == b[..i] && a[i] < b[i] {
          assert i > 0 && a[1..][..i - 1] == a[..i][1..] == b[..i][1..] == b[1..][..i - 1]
              && a[1..][i - 1] < b[1..][i - 1];
        }
        if i :| 0 <= i < |a| - 1 && i < |b| - 1 && a[1..][..i] == b[1..][..i] && a[1..][i] < b[1..][i] {
          assert a[..i + 1] == [a[0]] + a[1..][..i] && b[..i + 1] == [b[0]] + b[1..][..i] && a[i + 1] < b[i + 1];
        }
        if a <= b { assert a[1..] <= b[1..]; }
        if a[1..] <= b[1..] { assert a == [a[0]] + a[1..] && b == [b[0]] + b[1..]; }
      } else if a[0] < b[0] {
        assert a[..0] == b[..0];
      }
    } else if a == [] {
      assert a <= b;
    }
  }

  /** The keys of an object are written in ascending order, each of them once. */
  lemma {:induction false} KeysAscend(ks: set<Text>)
    ensures var s := Sorted(ks);
            && |s| == |ks| && (forall k :: k in s <==> k in ks)
            && forall i, j :: 0 <= i < j < |s| ==> s[i] != s[j] && Leq(s[i], s[j])
    decreases |ks|
  {
    hide Leq, Sorted;
    SortedAll(ks);
    if ks != {} {
      SortedHead(ks);
      var k := Sorted(ks)[0];
      var rest := Sorted(ks - {k});
      SortedAll(ks - {k});
      KeysAscend(ks - {k});
      forall i, j | 0 <= i < j < |Sorted(ks)|
          ensures Sorted(ks)[i] != Sorted(ks)[j] && Leq(Sorted(ks)[i], Sorted(ks)[j]) {
        assert rest[j - 1] in rest;
      }
    }
  }

  lemma SortedAll(ks: set<Text>)
    ensures |Sorted(ks)| == |ks| && forall k :: k in Sorted(ks) <==> k in ks
  {
  }
}
