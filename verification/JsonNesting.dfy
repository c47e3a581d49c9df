/** How deep a JSON text is nested can be seen by counting brackets outside strings, so it does not
    depend on how the text is parsed. */
module JsonNesting {
  import opened JsonScanner
  import opened JsonGrammar

  datatype Count = Count(open: int, most: int, quoted: bool, escaped: bool)

  function Counted(n: Count, c: char): Count {
    if n.escaped then n.(escaped := false)
    else if n.quoted then
      if c == '\\' then n.(escaped := true) else if c == '"' then n.(quoted := false) else n
    else if c == '"' then n.(quoted := true)
    else if c == '[' || c == '{' then n.(open := n.open + 1, most := if n.most < n.open + 1 then n.open + 1 else n.most)
    else if c == ']' || c == '}' then n.(open := n.open - 1)
    else n
  }

  function CountAll(n: Count, t: Text): Count
    decreases |t|
  {
    if t == [] then n else CountAll(Counted(n, t[0]), t[1..])
  }

  lemma {:induction false} CountBoth(n: Count, a: Text, b: Text)
    ensures CountAll(n, a + b) == CountAll(CountAll(n, a), b)
    decreases |a|
  {
    hide Counted;
    if a == [] {
      assert a + b == b;
    } else {
      assert (a + b)[0] == a[0] && (a + b)[1..] == a[1..] + b;
      CountBoth(Counted(n, a[0]), a[1..], b);
    }
  }

  lemma CountOne(n: Count, c: char)
    ensures CountAll(n, [c]) == Counted(n, c)
  {
    assert [c][1..] == [];
  }

  predicate Quiet(c: char) { c !in {'"', '\\', '[', ']', '{', '}'} }

  lemma {:induction false} QuietText(n: Count, t: Text)
    requires (forall c <- t :: Quiet(c)) && !n.escaped
    ensures CountAll(n, t) == n
    decreases |t|
  {
    if t != [] {
      assert Quiet(t[0]);
      QuietText(n, t[1..]);
    }
  }

  /** Outside strings. */
  function Outside(open: int, most: int): Count { Count(open, most, false, false) }

  function Deepest(open: int, most: int, d: nat): Count { Outside(open, if most < open + d then open + d else most) }

  lemma NumberQuiet(v: Value)
    requires v.Number? && Ok(v)
    ensures forall c <- ValueText(v) :: Quiet(c)
  {
    assert forall c <- v.whole :: IsDigit(c);
    forall c | c in FracText(v.frac) ensures Quiet(c) {
      assert c == '.' || (v.frac.Some? && c in v.frac.value);
    }
    forall c | c in ExpText(v.exp) ensures Quiet(c) {
      assert v.exp.Some? && (c == v.exp.value.e || c in {'+', '-'} || c in v.exp.value.digits);
    }
    var t := v.whole + (FracText(v.frac) + ExpText(v.exp));
    forall c | c in ValueText(v) ensures Quiet(c) {
      assert c == '-' || c in t;
    }
  }

  lemma UnitCounted(open: int, most: int, u: Unit)
    requires UnitOk(u)
    ensures CountAll(Count(open, most, true, false), UnitText(u)) == Count(open, most, true, false)
  {
    var q, e := Count(open, most, true, false), Count(open, most, true, true);
    match u
    case Plain(c) => CountOne(q, c);
    case Escape(c) =>
      CountOne(e, c);
      assert UnitText(u)[1..] == [c];
    case Unicode(a, b, c, d) =>
      QuietText(q, [a, b, c, d]);
      assert UnitText(u)[1..] == ['u', a, b, c, d];
      assert UnitText(u)[1..][1..] == [a, b, c, d];
  }

  lemma {:induction false} StrCounted(open: int, most: int, us: seq<Unit>)
    requires StrOk(us)
    ensures CountAll(Count(open, most, true, false), StrText(us)) == Outside(open, most)
    decreases |us|
  {
    hide UnitText;
    var q := Count(open, most, true, false);
    if us == [] {
      CountOne(q, '"');
      assert StrText(us) == ['"'];
    } else {
      UnitCounted(open, most, us[0]);
      StrCounted(open, most, us[1..]);
      CountBoth(q, UnitText(us[0]), StrText(us[1..]));
    }
  }

  lemma SpaceCounted(n: Count, ws: Text)
    requires AllSpace(ws) && !n.escaped
    ensures CountAll(n, ws) == n
  {
    forall c | c in ws ensures Quiet(c) { assert IsSpace(c); }
    QuietText(n, ws);
  }

  /** Counting over the text of a value finds its depth and nothing left open. */
  lemma {:induction false} ValueCounted(open: int, most: int, v: Value)
    requires Ok(v) && open <= most
    ensures CountAll(Outside(open, most), ValueText(v)) == Deepest(open, most, Depth(v))
    decreases v, 1
  {
    hide ElemsText, MembersText, StrText, CountAll, ElemsOk, MembersOk, ElemsDepth, MembersDepth, StrOk, FracText,
        ExpText;
    var n := Outside(open, most);
    match v
    case True => QuietText(n, "true");
    case False => QuietText(n, "false");
    case Null => QuietText(n, "null");
    case Number(_, _, _, _) =>
      NumberQuiet(v);
      QuietText(n, ValueText(v));
    case Str(us) =>
      CountOne(n, '"');
      CountBoth(n, "\"", StrText(us));
      StrCounted(open, most, us);
    case EmptyArray(ws) =>
      Bracketed(open, most, '[', ws + "]");
      EmptyCounted(open + 1, Deepest(open, most, 1).most, ws, ']');
    case Array(es) =>
      Bracketed(open, most, '[', ElemsText(es));
      ElemsCounted(open + 1, Deepest(open, most, 1).most, es);
    case EmptyObject(ws) =>
      Bracketed(open, most, '{', ws + "}");
      EmptyCounted(open + 1, Deepest(open, most, 1).most, ws, '}');
    case Object(ms) =>
      Bracketed(open, most, '{', MembersText(ms));
      MembersCounted(open + 1, Deepest(open, most, 1).most, ms);
  }

  lemma Bracketed(open: int, most: int, c: char, t: Text)
    requires c == '[' || c == '{'
    ensures CountAll(Outside(open, most), [c] + t) == CountAll(Outside(open + 1, Deepest(open, most, 1).most), t)
  {
    CountOne(Outside(open, most), c);
    CountBoth(Outside(open, most), [c], t);
  }

  lemma EmptyCounted(open: int, most: int, ws: Text, c: char)
    requires AllSpace(ws) && (c == ']' || c == '}')
    ensures CountAll(Outside(open, most), ws + [c]) == Outside(open - 1, most)
  {
    var n := Outside(open, most);
    SpaceCounted(n, ws);
    CountBoth(n, ws, [c]);
    CountOne(n, c);
  }

  lemma {:induction false} ElemCounted(open: int, most: int, e: Elem)
    requires ElemOk(e) && open <= most
    ensures CountAll(Outside(open, most), ElemText(e)) == Deepest(open, most, Depth(e.v))
    decreases e, 2
  {
    hide ValueText, CountAll, Ok, Depth;
    var n := Outside(open, most);
    SpaceCounted(n, e.before);
    CountBoth(n, e.before, ValueText(e.v) + e.after);
    ValueCounted(open, most, e.v);
    CountBoth(n, ValueText(e.v), e.after);
    SpaceCounted(Deepest(open, most, Depth(e.v)), e.after);
  }

  lemma {:induction false} ElemsCounted(open: int, most: int, es: Elems)
    requires ElemsOk(es) && open <= most
    ensures CountAll(Outside(open, most), ElemsText(es)) == Deepest(open, most, ElemsDepth(es)).(open := open - 1)
    decreases es, 3
  {
    hide ElemText, CountAll, ElemOk, Depth;
    var n, e := Outside(open, most), es.e;
    ElemCounted(open, most, e);
    var n1 := Deepest(open, most, Depth(e.v));
    if es.LastElem? {
      CountBoth(n, ElemText(e), "]");
      CountOne(n1, ']');
    } else {
      CountBoth(n, ElemText(e), "," + ElemsText(es.rest));
      CountBoth(n1, ",", ElemsText(es.rest));
      CountOne(n1, ',');
      ElemsCounted(open, n1.most, es.rest);
    }
  }

  lemma {:induction false} MemberCounted(open: int, most: int, m: Member)
    requires MemberOk(m) && open <= most
    ensures CountAll(Outside(open, most), MemberText(m)) == Deepest(open, most, Depth(m.value.v))
    decreases m, 3
  {
    hide ElemText, CountAll, ElemOk, Depth, StrText, StrOk;
    var n, q := Outside(open, most), Count(open, most, true, false);
    SpaceCounted(n, m.before);
    CountBoth(n, m.before, "\"" + (StrText(m.key) + (m.mid + (":" + ElemText(m.value)))));
    CountBoth(n, "\"", StrText(m.key) + (m.mid + (":" + ElemText(m.value))));
    CountOne(n, '"');
    StrCounted(open, most, m.key);
    CountBoth(q, StrText(m.key), m.mid + (":" + ElemText(m.value)));
    SpaceCounted(n, m.mid);
    CountBoth(n, m.mid, ":" + ElemText(m.value));
    CountBoth(n, ":", ElemText(m.value));
    CountOne(n, ':');
    ElemCounted(open, most, m.value);
  }

  lemma {:induction false} MembersCounted(open: int, most: int, ms: Members)
    requires MembersOk(ms) && open <= most
    ensures CountAll(Outside(open, most), MembersText(ms)) == Deepest(open, most, MembersDepth(ms)).(open := open - 1)
    decreases ms, 4
  {
    hide MemberText, CountAll, MemberOk, Depth;
    var n, m := Outside(open, most), ms.m;
    MemberCounted(open, most, m);
    var n1 := Deepest(open, most, Depth(m.value.v));
    if ms.LastMember? {
      CountBoth(n, MemberText(m), "}");
      CountOne(n1, '}');
    } else {
      CountBoth(n, MemberText(m), "," + MembersText(ms.rest));
      CountBoth(n1, ",", MembersText(ms.rest));
      CountOne(n1, ',');
      MembersCounted(open, n1.most, ms.rest);
    }
  }

  /** The same text is nested alike however it is parsed, also beyond the limit. */
  lemma SameDepth(e: Elem, e': Elem)
    requires ElemOk(e) && ElemOk(e') && ElemText(e) == ElemText(e')
    ensures Depth(e.v) == Depth(e'.v)
  {
    hide ElemText, ElemOk, Depth, CountAll;
    ElemCounted(0, 0, e);
    ElemCounted(0, 0, e');
  }
}
