/** Writing strings as JSON string literals, and reading them back (std/json/encode.go:347-410). */
module JsonQuote {
  import opened Wrappers
  import opened JsonGrammar
  import opened JsonUnquote

  function HexDigit(n: nat): char
    requires n < 16
  {
    if n < 10 then '0' + n as char else 'a' + (n - 10) as char
  }

  /** Written as it is. Bytes from 0x80 up are not looked at. */
  predicate Safe(c: char) { c >= ' ' && c != '"' && c != '\\' }

  function Quoted(c: char): (u: Unit)
    ensures UnitOk(u)
  {
    if Safe(c) then Plain(c)
    else if c == '"' || c == '\\' then Escape(c)
    else if c == '\n' then Escape('n')
    else if c == '\r' then Escape('r')
    else if c == '\t' then Escape('t')
    else Unicode('0', '0', HexDigit(c as int / 16), HexDigit(c as int % 16))
  }

  function Units(s: Text): (us: seq<Unit>)
    ensures |us| == |s| && StrOk(us) && forall i :: 0 <= i < |s| ==> us[i] == Quoted(s[i])
  {
    if s == [] then [] else [Quoted(s[0])] + Units(s[1..])
  }

  // ----- the loops of encodeString -----

  lemma UnitsAppend(s: Text, t: Text)
    ensures Units(s + t) == Units(s) + Units(t)
  {
  }

  lemma {:induction false} BodyAppend(us: seq<Unit>, vs: seq<Unit>)
    ensures Body(us + vs) == Body(us) + Body(vs)
    decreases |us|
  {
    hide UnitText;
    if us == [] {
      assert us + vs == vs && Body(us) + Body(vs) == Body(vs);
    } else {
      BodyAppend(us[1..], vs);
      assert (us + vs)[0] == us[0] && (us + vs)[1..] == us[1..] + vs;
      assert UnitText(us[0]) + (Body(us[1..]) + Body(vs)) == (UnitText(us[0]) + Body(us[1..])) + Body(vs);
    }
  }

  lemma BodyOne(s: Text, i: nat)
    requires i < |s|
    ensures Body(Units(s[..i + 1])) == Body(Units(s[..i])) + UnitText(Quoted(s[i]))
  {
    hide UnitText, Quoted;
    assert s[..i + 1] == s[..i] + [s[i]];
    UnitsAppend(s[..i], [s[i]]);
    BodyAppend(Units(s[..i]), Units([s[i]]));
    assert Units([s[i]]) == [Quoted(s[i])];
    assert Body([Quoted(s[i])]) == UnitText(Quoted(s[i])) + Body([]);
  }

  lemma SafeText(c: char)
    requires Safe(c)
    ensures UnitText(Quoted(c)) == [c]
  {
  }

  /** Safe bytes are copied as a block. */
  lemma {:induction false} SafeBlock(s: Text, i: nat, j: nat)
    requires i <= j <= |s| && forall k :: i <= k < j ==> Safe(s[k])
    ensures Body(Units(s[..j])) == Body(Units(s[..i])) + s[i..j]
    decreases j
  {
    hide Body, Units, Quoted, UnitText;
    if i == j {
      assert s[i..j] == [];
    } else {
      SafeBlock(s, i, j - 1);
      BodyOne(s, j - 1);
      SafeText(s[j - 1]);
      assert s[i..j] == s[i..j - 1] + [s[j - 1]];
    }
  }

  /** encodeStringSlowPath, from i on; what is before start has been written. */
  method SlowPath(b: Text, from: nat, val: Text) returns (r: Text)
    requires from <= |val| && forall k :: 0 <= k < from ==> Safe(val[k])
    ensures r == b + Body(Units(val[from..]))
  {
    hide Body, Units, Safe, UnitText;
    var start, i := from, from;
    r := b;
    ghost var head := Body(Units(val[..from]));
    assert |Body(Units(val[..from]))| == |head|;
    ghost var done: Text := [];
    assert head + done == head;
    while i < |val|
      invariant from <= start <= i <= |val| && forall k :: start <= k < i ==> Safe(val[k])
      invariant r == b + done && head + done == Body(Units(val[..start]))
    {
      if Safe(val[i]) {
        i := i + 1;
      } else {
        SafeBlock(val, start, i);
        BodyOne(val, i);
        if start < i { r := r + val[start..i]; } else { assert val[start..i] == []; }
        r := r + UnitText(Quoted(val[i]));
        done := done + val[start..i] + UnitText(Quoted(val[i]));
        i := i + 1;
        start := i;
      }
    }
    SafeBlock(val, start, |val|);
    if start < |val| { r := r + val[start..]; } else { assert val[start..] == []; }
    assert head + (done + val[start..]) == (head + done) + val[start..];
    done := done + val[start..];
    assert val[start..|val|] == val[start..] && val[..|val|] == val;
    assert val == val[..from] + val[from..];
    UnitsAppend(val[..from], val[from..]);
    BodyAppend(Units(val[..from]), Units(val[from..]));
    assert done == (head + done)[|head|..] == Body(Units(val[from..]));
  }

  /** encodeString: the whole literal behind b. */
  method EncodeString(b: Text, val: Text) returns (r: Text)
    ensures r == b + ValueText(Str(Units(val)))
  {
    hide Body, Units, Safe, StrText;
    BodyIs(Units(val));
    r := b + ['"'];
    var i: nat := 0;
    while i < |val| && Safe(val[i])
      invariant i <= |val| && r == b + ['"'] + val[..i] && forall k :: 0 <= k < i ==> Safe(val[k])
    {
      r := r + [val[i]];
      i := i + 1;
    }
    SafeBlock(val, 0, i);
    UnitsNone(val);
    if i == |val| {
      assert val[..i] == val && val[0..i] == val;
      return r + ['"'];
    }
    r := SlowPath(r, i, val);
    assert val == val[..i] + val[i..] && val[0..i] == val[..i];
    UnitsAppend(val[..i], val[i..]);
    BodyAppend(Units(val[..i]), Units(val[i..]));
    r := r + ['"'];
  }

  lemma UnitsNone(s: Text)
    ensures Body(Units(s[..0])) == []
  {
  }

  // ----- reading it back -----

  /** The bytes from r on are UTF-8. */
  predicate ValidFrom(s: Text, r: nat, u: Utf8)
    decreases |s| - r
  {
    if r >= |s| then true
    else if !High(s[r]) then ValidFrom(s, r + 1, u)
    else
      var d := u.decode(s, r);
      !Bad(d) && 0 < d.1 && r + d.1 <= |s| && ValidFrom(s, r + d.1, u)
  }

  predicate ValidUtf8(s: Text, u: Utf8) { ValidFrom(s, 0, u) }

  lemma HexBack(c: char)
    requires c < ' '
    ensures HexValue(HexDigit(c as int / 16)) == c as int / 16 && HexValue(HexDigit(c as int % 16)) == c as int % 16
  {
  }

  /** A byte below 0x80 is unquoted to itself. */
  lemma LowBack(t: Text, q: nat, c: char, u: Utf8)
    requires !High(c) && Decodes(u)
    requires q + |UnitText(Quoted(c))| <= |t| && t[q..q + |UnitText(Quoted(c))|] == UnitText(Quoted(c))
    ensures q < |t| && UnquoteOne(t, q, u) == Some(([c], |UnitText(Quoted(c))|))
  {
    hide Advances, Local, Inverse, GetU4, Safe;
    var w := UnitText(Quoted(c));
    assert forall k :: 0 <= k < |w| ==> t[q + k] == w[k];
    match Quoted(c)
    case Plain(_) => assert Safe(c) && t[q] == c && c != '\\' && c != '"' && c >= ' ' by { Plainly(c); }
    case Escape(e) => assert t[q] == '\\' && t[q + 1] == e && e != 'u' && Escaped(e) == Some(c) by { Plainly(c); }
    case Unicode(_, _, _, _) =>
      Plainly(c);
      ControlBack(t, q, c, u);
  }

  lemma Plainly(c: char)
    ensures Quoted(c).Plain? ==> Quoted(c).c == c && Safe(c) && c != '\\' && c != '"' && c >= ' '
    ensures Quoted(c).Escape? ==> Quoted(c).c != 'u' && Escaped(Quoted(c).c) == Some(c)
    ensures Quoted(c).Unicode? ==>
              c < ' ' && Quoted(c) == Unicode('0', '0', HexDigit(c as int / 16), HexDigit(c as int % 16))
  {
  }

  lemma ControlBack(t: Text, q: nat, c: char, u: Utf8)
    requires c < ' ' && q + 6 <= |t|
    requires t[q] == '\\' && t[q + 1] == 'u' && t[q + 2] == '0' && t[q + 3] == '0'
    requires t[q + 4] == HexDigit(c as int / 16) && t[q + 5] == HexDigit(c as int % 16)
    requires Inverse(u)
    ensures GetU4(t, q) == Some(c as nat) && u.encode(c as nat) == [c]
  {
    HexBack(c);
  }

  /** A rune is copied, and decoded to itself. */
  lemma HighBack(s: Text, r: nat, t: Text, q: nat, u: Utf8)
    requires Decodes(u) && r < |s| && High(s[r]) && !Bad(u.decode(s, r))
    requires q <= |t| && t[q..] == Body(Units(s[r..]))
    ensures var n := u.decode(s, r).1;
            && 0 < n && r + n <= |s| && q + n <= |t| && t[q + n..] == Body(Units(s[r + n..]))
            && UnquoteOne(t, q, u) == Some((s[r..r + n], n))
  {
    hide Body, Units, Advances, Inverse, Local, GetU4;
    var n := u.decode(s, r).1;
    AdvanceAt(s, r, u);
    InverseAt(s, r, u);
    var w := s[r..];
    SafeBlock(w, 0, n);
    UnitsNone(w);
    assert w == w[..n] + w[n..] && w[n..] == s[r + n..] && w[0..n] == s[r..r + n];
    UnitsAppend(w[..n], w[n..]);
    BodyAppend(Units(w[..n]), Units(w[n..]));
    assert t[q..] == s[r..r + n] + Body(Units(s[r + n..]));
    assert t[q..q + n] == t[q..][..n] && t[q + n..] == t[q..][n..];
    assert t[q] == t[q..][0];
    LocalAt(s, r, t, q, u);
  }

  lemma {:induction false} Back(s: Text, r: nat, t: Text, q: nat, u: Utf8)
    requires Decodes(u) && r <= |s| && ValidFrom(s, r, u) && q <= |t| && t[q..] == Body(Units(s[r..]))
    ensures Unquote(t, q, u) == Some(s[r..])
    decreases |s| - r
  {
    hide Decodes, UnquoteOne, Body, Units, UnitText, Quoted;
    if r == |s| {
      UnitsNone(s);
      assert s[r..] == s[..0] == [];
      assert |t[q..]| == 0;
    } else {
      var n, m := 1, 1;
      if High(s[r]) {
        n := u.decode(s, r).1;
        m := n;
        HighBack(s, r, t, q, u);
      } else {
        m := |UnitText(Quoted(s[r]))|;
        FirstUnit(s, r, t, q);
        LowBack(t, q, s[r], u);
        assert s[r..r + 1] == [s[r]];
      }
      Back(s, r + n, t, q + m, u);
      assert s[r..] == s[r..r + n] + s[r + n..];
    }
  }

  lemma FirstUnit(s: Text, r: nat, t: Text, q: nat)
    requires r < |s| && q <= |t| && t[q..] == Body(Units(s[r..]))
    ensures var w := UnitText(Quoted(s[r]));
            0 < |w| && q + |w| <= |t| && t[q..q + |w|] == w && t[q + |w|..] == Body(Units(s[r + 1..]))
  {
    var w := UnitText(Quoted(s[r]));
    assert s[r..][1..] == s[r + 1..];
    assert Units(s[r..])[1..] == Units(s[r + 1..]);
    assert t[q..] == w + Body(Units(s[r + 1..]));
    assert t[q..q + |w|] == t[q..][..|w|] && t[q + |w|..] == t[q..][|w|..];
  }

  /** A UTF-8 string is unquoted to itself. */
  lemma StringRoundTrip(s: Text, u: Utf8)
    requires Decodes(u) && ValidUtf8(s, u)
    ensures UnquoteItem(ValueText(Str(Units(s))), u) == Some(s)
  {
    hide Decodes, Unquote, Units, ValidFrom;
    var us := Units(s);
    BodyIs(us);
    var item := ['"'] + StrText(us);
    assert item[1..|item| - 1] == Body(us);
    assert Body(us)[0..] == Body(us) && s[0..] == s;
    Back(s, 0, Body(us), 0, u);
  }
}
