/** checkValid accepts a byte sequence exactly when it is a JSON text. */
module JsonTheorem {
  import opened JsonScanner
  import opened JsonGrammar
  import opened JsonProof
  import opened JsonTokens

  function InArray(st: seq<Parse>): seq<Parse> { st + [ParseArrayValue] }

  function AtKey(st: seq<Parse>): seq<Parse> { st + [ParseObjectKey] }

  function AtMember(st: seq<Parse>): seq<Parse> { st + [ParseObjectValue] }

  // ----- brackets, commas, colons -----

  lemma OpensArray(st: seq<Parse>, r: Text)
    ensures Accepts(At(BeginValue, st), ['['] + r)
            <==> |st| != MaxNestingDepth && Accepts(At(BeginValueOrEmpty, InArray(st)), r)
  {
    Feed(At(BeginValue, st), '[', r);
    if |st| == MaxNestingDepth { Dead(Next(At(BeginValue, st), '[').0, r); }
  }

  lemma OpensObject(st: seq<Parse>, r: Text)
    ensures Accepts(At(BeginValue, st), ['{'] + r)
            <==> |st| != MaxNestingDepth && Accepts(At(BeginStringOrEmpty, AtKey(st)), r)
  {
    Feed(At(BeginValue, st), '{', r);
    if |st| == MaxNestingDepth { Dead(Next(At(BeginValue, st), '{').0, r); }
  }

  lemma OpensString(step: Step, st: seq<Parse>, r: Text)
    requires step in {BeginValue, BeginString, BeginStringOrEmpty}
    ensures Accepts(At(step, st), ['"'] + r) <==> Accepts(At(InString, st), r)
  {
    Feed(At(step, st), '"', r);
  }

  lemma Comma(st: seq<Parse>, r: Text)
    ensures Accepts(At(EndValue, InArray(st)), [','] + r) <==> Accepts(At(BeginValue, InArray(st)), r)
  {
    Feed(At(EndValue, InArray(st)), ',', r);
  }

  lemma ClosesArray(step: Step, st: seq<Parse>, r: Text)
    requires step.EndValue? || step.BeginValueOrEmpty?
    ensures Accepts(At(step, InArray(st)), [']'] + r) <==> Accepts(At(EndValue, st), r)
  {
    hide Accepts;
    var s := At(step, InArray(st));
    assert s.stack[..|s.stack| - 1] == st;
    Feed(s, ']', r);
    Popped(s, r);
    assert Next(s, ']') == (Pop(s), EndArray);
  }

  lemma Colon(st: seq<Parse>, r: Text)
    ensures Accepts(At(EndValue, AtKey(st)), [':'] + r) <==> Accepts(At(BeginValue, AtMember(st)), r)
  {
    hide Accepts;
    var s := At(EndValue, AtKey(st));
    assert s.stack[..|s.stack| - 1] == st;
    Feed(s, ':', r);
  }

  lemma MemberComma(st: seq<Parse>, r: Text)
    ensures Accepts(At(EndValue, AtMember(st)), [','] + r) <==> Accepts(At(BeginString, AtKey(st)), r)
  {
    hide Accepts;
    var s := At(EndValue, AtMember(st));
    assert s.stack[..|s.stack| - 1] == st;
    Feed(s, ',', r);
  }

  lemma ClosesObject(st: seq<Parse>, r: Text)
    ensures Accepts(At(EndValue, AtMember(st)), ['}'] + r) <==> Accepts(At(EndValue, st), r)
  {
    hide Accepts;
    var s := At(EndValue, AtMember(st));
    assert s.stack[..|s.stack| - 1] == st;
    Feed(s, '}', r);
    Popped(s, r);
    assert Next(s, '}') == (Pop(s), EndObject);
  }

  lemma ClosesEmptyObject(st: seq<Parse>, r: Text)
    ensures Accepts(At(BeginStringOrEmpty, AtKey(st)), ['}'] + r) <==> Accepts(At(EndValue, st), r)
  {
    hide Accepts;
    var s := At(BeginStringOrEmpty, AtKey(st));
    assert s.stack[..|s.stack| - 1] == st;
    var s1 := SetTop(s, ParseObjectValue);
    assert s1.stack[..|s1.stack| - 1] == st;
    Feed(s, '}', r);
    Popped(s1, r);
    assert Next(s, '}') == (Pop(s1), EndObject);
  }

  /** What does not close an empty array is read as a value. */
  lemma FirstElement(st: seq<Parse>, c: char, r: Text)
    requires c != ']' && !IsSpace(c)
    ensures Accepts(At(BeginValueOrEmpty, st), [c] + r) <==> Accepts(At(BeginValue, st), [c] + r)
  {
    hide Accepts;
    Feed(At(BeginValueOrEmpty, st), c, r);
    Feed(At(BeginValue, st), c, r);
    SameBegin(st, c);
  }

  lemma SameBegin(st: seq<Parse>, c: char)
    requires c != ']' && !IsSpace(c)
    ensures Next(At(BeginValueOrEmpty, st), c) == Next(At(BeginValue, st), c)
  {
  }

  lemma FirstMember(st: seq<Parse>, c: char, r: Text)
    requires c != '}' && !IsSpace(c)
    ensures Accepts(At(BeginStringOrEmpty, st), [c] + r) <==> Accepts(At(BeginString, st), [c] + r)
  {
    Feed(At(BeginStringOrEmpty, st), c, r);
    Feed(At(BeginString, st), c, r);
  }

  // ----- a text of the grammar is accepted -----

  lemma FirstByte(v: Value)
    requires Ok(v)
    ensures ValueText(v) != [] && !IsSpace(ValueText(v)[0]) && ValueText(v)[0] != ']'
  {
    hide FracText, ExpText, StrText, ElemsText, MembersText;
    if v.Number? {
      NumberText(v, []);
      assert ValueText(v) + [] == ValueText(v);
      assert v.whole[0] in v.whole && IsDigit(v.whole[0]);
    }
  }

  lemma {:induction false} ValueAccepted(st: seq<Parse>, v: Value, r: Text)
    requires Ok(v) && |st| + Depth(v) <= MaxNestingDepth && Accepts(At(EndValue, st), r)
    ensures Accepts(At(BeginValue, st), ValueText(v) + r)
    decreases v, 1
  {
    hide Accepts, Next, StrText, ElemsText, MembersText, FracText, ExpText;
    match v
    case Number(_, _, _, _) => NumberAccepted(st, v, r);
    case Str(us) =>
      StrAccepted(st, us, r);
      OpensString(BeginValue, st, StrText(us) + r);
      assert ValueText(v) + r == ['"'] + (StrText(us) + r);
    case EmptyArray(ws) =>
      ClosesArray(BeginValueOrEmpty, st, r);
      SkipsSpace(At(BeginValueOrEmpty, InArray(st)), ws, [']'] + r);
      OpensArray(st, ws + ([']'] + r));
      assert ValueText(v) + r == ['['] + (ws + ([']'] + r));
    case Array(es) =>
      ElemsAccepted(st, es, r);
      OpensArray(st, ElemsText(es) + r);
      assert ValueText(v) + r == ['['] + (ElemsText(es) + r);
    case EmptyObject(ws) =>
      ClosesEmptyObject(st, r);
      SkipsSpace(At(BeginStringOrEmpty, AtKey(st)), ws, ['}'] + r);
      OpensObject(st, ws + (['}'] + r));
      assert ValueText(v) + r == ['{'] + (ws + (['}'] + r));
    case Object(ms) =>
      MembersAccepted(st, ms, r);
      OpensObject(st, MembersText(ms) + r);
      assert ValueText(v) + r == ['{'] + (MembersText(ms) + r);
    case True => WordAccepted(st, 't', r);
    case False => WordAccepted(st, 'f', r);
    case Null => WordAccepted(st, 'n', r);
  }

  /** A value with the space around it, in a place where step expects one. */
  lemma {:induction false} ElemAccepted(step: Step, st: seq<Parse>, e: Elem, r: Text)
    requires step in {BeginValue, BeginValueOrEmpty}
    requires ElemOk(e) && |st| + Depth(e.v) <= MaxNestingDepth && Accepts(At(EndValue, st), r)
    ensures Accepts(At(step, st), ElemText(e) + r)
    decreases e, 2
  {
    hide Accepts, Next, ValueText, Ok;
    EndSkips(st, e.after, r);
    var t := e.after + r;
    var x := ValueText(e.v) + t;
    ValueAccepted(st, e.v, t);
    FirstByte(e.v);
    if step.BeginValueOrEmpty? {
      assert x == [x[0]] + x[1..];
      FirstElement(st, x[0], x[1..]);
    }
    SkipsSpace(At(step, st), e.before, x);
    assert ElemText(e) + r == e.before + x;
  }

  lemma {:induction false} ElemsAccepted(st: seq<Parse>, es: Elems, r: Text)
    requires ElemsOk(es) && |st| + 1 + ElemsDepth(es) <= MaxNestingDepth && Accepts(At(EndValue, st), r)
    ensures Accepts(At(BeginValue, InArray(st)), ElemsText(es) + r)
    ensures Accepts(At(BeginValueOrEmpty, InArray(st)), ElemsText(es) + r)
    decreases es, 3
  {
    hide Accepts, Next, ElemText, ElemOk;
    var t;
    match es {
      case LastElem(e) =>
        t := [']'] + r;
        ClosesArray(EndValue, st, r);
        assert ElemsText(es) + r == ElemText(e) + t;
      case MoreElems(e, rest) =>
        t := [','] + (ElemsText(rest) + r);
        ElemsAccepted(st, rest, r);
        Comma(st, ElemsText(rest) + r);
        assert ElemsText(es) + r == ElemText(e) + t;
    }
    ElemAccepted(BeginValue, InArray(st), es.e, t);
    ElemAccepted(BeginValueOrEmpty, InArray(st), es.e, t);
  }

  lemma {:induction false} MemberAccepted(step: Step, st: seq<Parse>, m: Member, r: Text)
    requires step in {BeginString, BeginStringOrEmpty}
    requires MemberOk(m) && |st| + 1 + Depth(m.value.v) <= MaxNestingDepth && Accepts(At(EndValue, AtMember(st)), r)
    ensures Accepts(At(step, AtKey(st)), MemberText(m) + r)
    decreases m, 3
  {
    hide Accepts, Next, ElemText, ElemOk, StrText, StrOk;
    var a := ElemText(m.value) + r;
    ElemAccepted(BeginValue, AtMember(st), m.value, r);
    Colon(st, a);
    var b := m.mid + ([':'] + a);
    EndSkips(AtKey(st), m.mid, [':'] + a);
    StrAccepted(AtKey(st), m.key, b);
    var c := StrText(m.key) + b;
    OpensString(step, AtKey(st), c);
    SkipsSpace(At(step, AtKey(st)), m.before, ['"'] + c);
    MemberSplit(m, r);
  }

  lemma MemberSplit(m: Member, r: Text)
    ensures MemberText(m) + r == m.before + (['"'] + (StrText(m.key) + (m.mid + ([':'] + (ElemText(m.value) + r)))))
  {
    hide StrText, ElemText;
    FiveTexts(m.before, ['"'], StrText(m.key), m.mid, [':'], ElemText(m.value), r);
  }

  lemma FiveTexts(a: Text, b: Text, c: Text, d: Text, e: Text, f: Text, r: Text)
    ensures (a + (b + (c + (d + (e + f))))) + r == a + (b + (c + (d + (e + (f + r)))))
  {
    assert (e + f) + r == e + (f + r);
    assert (d + (e + f)) + r == d + (e + (f + r));
    assert (c + (d + (e + f))) + r == c + (d + (e + (f + r)));
    assert (b + (c + (d + (e + f)))) + r == b + (c + (d + (e + (f + r))));
  }

  lemma {:induction false} MembersAccepted(st: seq<Parse>, ms: Members, r: Text)
    requires MembersOk(ms) && |st| + 1 + MembersDepth(ms) <= MaxNestingDepth && Accepts(At(EndValue, st), r)
    ensures Accepts(At(BeginString, AtKey(st)), MembersText(ms) + r)
    ensures Accepts(At(BeginStringOrEmpty, AtKey(st)), MembersText(ms) + r)
    decreases ms, 4
  {
    hide Accepts, Next, MemberText, MemberOk;
    var t;
    match ms {
      case LastMember(m) =>
        t := ['}'] + r;
        ClosesObject(st, r);
        assert MembersText(ms) + r == MemberText(m) + t;
      case MoreMembers(m, rest) =>
        t := [','] + (MembersText(rest) + r);
        MembersAccepted(st, rest, r);
        MemberComma(st, MembersText(rest) + r);
        assert MembersText(ms) + r == MemberText(m) + t;
    }
    MemberAccepted(BeginString, st, ms.m, t);
    MemberAccepted(BeginStringOrEmpty, st, ms.m, t);
  }

  // ----- what is accepted is a text of the grammar -----

  function Spaces(r: Text): (n: nat)
    ensures n <= |r| && AllSpace(r[..n]) && (n < |r| ==> !IsSpace(r[n]))
  {
    if r != [] && IsSpace(r[0]) then
      var n := Spaces(r[1..]);
      assert r[..n + 1] == [r[0]] + r[1..][..n];
      n + 1
    else 0
  }

  /** Space is skipped up to the next byte, if the end of the input would be an error. */
  lemma SpaceFound(s: Scan, r: Text) returns (ws: Text, t: Text)
    requires Skips(s) && !s.endTop && Accepts(s, r)
    ensures AllSpace(ws) && r == ws + t && t != [] && !IsSpace(t[0]) && Accepts(s, t) && |t| <= |r|
  {
    hide Accepts;
    var n := Spaces(r);
    ws, t := r[..n], r[n..];
    assert r == ws + t;
    SkipsSpace(s, ws, t);
    if t == [] { NotYet(s); }
  }

  lemma NotYet(s: Scan)
    requires Skips(s) && !s.endTop
    ensures !Accepts(s, [])
  {
  }

  predicate BeginsValue(c: char) { c in {'{', '[', '"', '-', 't', 'f', 'n'} || IsDigit(c) }

  lemma ValueByte(st: seq<Parse>, c: char, r: Text)
    requires Accepts(At(BeginValue, st), [c] + r) && !IsSpace(c)
    ensures BeginsValue(c)
  {
    Feed(At(BeginValue, st), c, r);
  }

  /** The bytes an accepted value begins with, for values without parts. */
  lemma ScalarSound(st: seq<Parse>, r: Text) returns (v: Value, r': Text)
    requires r != [] && !IsSpace(r[0]) && r[0] != '{' && r[0] != '[' && Accepts(At(BeginValue, st), r)
    ensures Ok(v) && Depth(v) == 0 && r == ValueText(v) + r' && Accepts(At(EndValue, st), r') && |r'| < |r|
  {
    hide Accepts, Next, StrText, FracText, ExpText;
    var c, t := r[0], r[1..];
    assert r == [c] + t;
    ValueByte(st, c, t);
    OnMark(BeginValue, st, c);
    if c == '"' {
      OpensString(BeginValue, st, t);
      var us;
      us, r' := StrSound(st, t);
      v := Str(us);
      assert r == ValueText(v) + r';
    } else if c == '-' {
      Goes(At(BeginValue, st), c, t, At(Neg, st));
      NeedsDigit(Neg, st, t);
      OnDigit(st, t[0]);
      assert t == [t[0]] + t[1..];
      Goes(At(Neg, st), t[0], t[1..], At(FirstDigit(t[0]), st));
      v, r' := WholeSound(true, st, t);
      assert ['-'] + t == r;
    } else if IsDigit(c) {
      OnDigit(st, c);
      Goes(At(BeginValue, st), c, t, At(FirstDigit(c), st));
      v, r' := WholeSound(false, st, r);
      assert [] + r == r;
    } else {
      OnFirstLetter(st, c);
      Goes(At(BeginValue, st), c, t, At(FirstLetter(c), st));
      v, r' := WordSound(st, c, t);
    }
  }

  lemma {:induction false} ValueSound(st: seq<Parse>, r: Text) returns (ws: Text, v: Value, r': Text)
    requires |st| <= MaxNestingDepth && Accepts(At(BeginValue, st), r)
    ensures AllSpace(ws) && Ok(v) && |st| + Depth(v) <= MaxNestingDepth
    ensures r == ws + (ValueText(v) + r') && Accepts(At(EndValue, st), r') && |r'| < |r|
    decreases |r|, 1
  {
    hide Accepts, Next, ValueText, Ok;
    var t;
    ws, t := SpaceFound(At(BeginValue, st), r);
    assert t == [t[0]] + t[1..];
    if t[0] == '[' {
      OpensArray(st, t[1..]);
      v, r' := ArraySound(st, t[1..]);
    } else if t[0] == '{' {
      OpensObject(st, t[1..]);
      v, r' := ObjectSound(st, t[1..]);
    } else {
      v, r' := ScalarSound(st, t);
    }
  }

  lemma CloserByte(st: seq<Parse>, c: char, r: Text)
    requires !IsSpace(c)
    ensures Accepts(At(EndValue, InArray(st)), [c] + r) ==> c == ',' || c == ']'
    ensures Accepts(At(EndValue, AtMember(st)), [c] + r) ==> c == ',' || c == '}'
    ensures Accepts(At(EndValue, AtKey(st)), [c] + r) ==> c == ':'
  {
    hide Accepts;
    Feed(At(EndValue, InArray(st)), c, r);
    Feed(At(EndValue, AtMember(st)), c, r);
    Feed(At(EndValue, AtKey(st)), c, r);
    assert Next(At(EndValue, InArray(st)), c).1 == ScanError || c == ',' || c == ']';
    assert Next(At(EndValue, AtMember(st)), c).1 == ScanError || c == ',' || c == '}';
    assert Next(At(EndValue, AtKey(st)), c).1 == ScanError || c == ':';
  }

  /** Behind an opening bracket. */
  lemma {:induction false} ArraySound(st: seq<Parse>, r: Text) returns (v: Value, r': Text)
    requires |st| < MaxNestingDepth && Accepts(At(BeginValueOrEmpty, InArray(st)), r)
    ensures Ok(v) && |st| + Depth(v) <= MaxNestingDepth
    ensures ['['] + r == ValueText(v) + r' && Accepts(At(EndValue, st), r') && |r'| < |r|
    decreases |r|, 3
  {
    hide Accepts, Next, ElemsText, ElemsOk;
    var ws, t := SpaceFound(At(BeginValueOrEmpty, InArray(st)), r);
    assert t == [t[0]] + t[1..];
    if t[0] == ']' {
      ClosesArray(BeginValueOrEmpty, st, t[1..]);
      v, r' := EmptyArray(ws), t[1..];
      assert ['['] + r == ValueText(v) + r';
    } else {
      FirstElement(InArray(st), t[0], t[1..]);
      SkipsSpace(At(BeginValue, InArray(st)), ws, t);
      var es;
      es, r' := ElemsSound(st, r);
      v := Array(es);
      assert ['['] + r == ValueText(v) + r';
    }
  }

  lemma {:induction false} ElemsSound(st: seq<Parse>, r: Text) returns (es: Elems, r': Text)
    requires |st| < MaxNestingDepth && Accepts(At(BeginValue, InArray(st)), r)
    ensures ElemsOk(es) && |st| + 1 + ElemsDepth(es) <= MaxNestingDepth
    ensures r == ElemsText(es) + r' && Accepts(At(EndValue, st), r') && |r'| < |r|
    decreases |r|, 2
  {
    hide Accepts, Next, ValueText, Ok, Depth;
    var ws, v, u := ValueSound(InArray(st), r);
    var after, t := SpaceFound(At(EndValue, InArray(st)), u);
    var e, c := Elem(ws, v, after), t[0];
    assert t == [c] + t[1..];
    ElemSplit(e, r, u, t);
    CloserByte(st, c, t[1..]);
    if c == ']' {
      ClosesArray(EndValue, st, t[1..]);
      es, r' := LastElem(e), t[1..];
      assert r == ElemsText(es) + r';
    } else {
      Comma(st, t[1..]);
      var rest;
      rest, r' := ElemsSound(st, t[1..]);
      es := MoreElems(e, rest);
      assert ElemText(e) + ([','] + (ElemsText(rest) + r')) == ElemsText(es) + r';
    }
  }

  lemma ElemSplit(e: Elem, r: Text, u: Text, t: Text)
    requires r == e.before + (ValueText(e.v) + u) && u == e.after + t
    ensures r == ElemText(e) + t
  {
    hide ValueText;
  }

  lemma KeyByte(st: seq<Parse>, c: char, r: Text)
    requires !IsSpace(c) && Accepts(At(BeginString, st), [c] + r)
    ensures c == '"'
  {
    Feed(At(BeginString, st), c, r);
  }

  /** Behind an opening brace. */
  lemma {:induction false} ObjectSound(st: seq<Parse>, r: Text) returns (v: Value, r': Text)
    requires |st| < MaxNestingDepth && Accepts(At(BeginStringOrEmpty, AtKey(st)), r)
    ensures Ok(v) && |st| + Depth(v) <= MaxNestingDepth
    ensures ['{'] + r == ValueText(v) + r' && Accepts(At(EndValue, st), r') && |r'| < |r|
    decreases |r|, 3
  {
    hide Accepts, Next, MembersText, MembersOk;
    var ws, t := SpaceFound(At(BeginStringOrEmpty, AtKey(st)), r);
    assert t == [t[0]] + t[1..];
    if t[0] == '}' {
      ClosesEmptyObject(st, t[1..]);
      v, r' := EmptyObject(ws), t[1..];
      assert ['{'] + r == ValueText(v) + r';
    } else {
      FirstMember(AtKey(st), t[0], t[1..]);
      SkipsSpace(At(BeginString, AtKey(st)), ws, t);
      var ms;
      ms, r' := MembersSound(st, r);
      v := Object(ms);
      assert ['{'] + r == ValueText(v) + r';
    }
  }

  /** A key and the colon behind it. */
  lemma KeySound(st: seq<Parse>, r: Text) returns (before: Text, key: seq<Unit>, mid: Text, r': Text)
    requires Accepts(At(BeginString, AtKey(st)), r)
    ensures AllSpace(before) && StrOk(key) && AllSpace(mid)
    ensures r == before + (['"'] + (StrText(key) + (mid + ([':'] + r')))) && |r'| < |r|
    ensures Accepts(At(BeginValue, AtMember(st)), r')
  {
    hide Accepts, Next, StrText, StrOk;
    var t;
    before, t := SpaceFound(At(BeginString, AtKey(st)), r);
    assert t == [t[0]] + t[1..];
    KeyByte(AtKey(st), t[0], t[1..]);
    OpensString(BeginString, AtKey(st), t[1..]);
    var u, w;
    key, u := StrSound(AtKey(st), t[1..]);
    mid, w := SpaceFound(At(EndValue, AtKey(st)), u);
    assert w == [w[0]] + w[1..];
    CloserByte(st, w[0], w[1..]);
    Colon(st, w[1..]);
    r' := w[1..];
  }

  lemma {:induction false} MembersSound(st: seq<Parse>, r: Text) returns (ms: Members, r': Text)
    requires |st| < MaxNestingDepth && Accepts(At(BeginString, AtKey(st)), r)
    ensures MembersOk(ms) && |st| + 1 + MembersDepth(ms) <= MaxNestingDepth
    ensures r == MembersText(ms) + r' && Accepts(At(EndValue, st), r') && |r'| < |r|
    decreases |r|, 2
  {
    hide Accepts, Next, ValueText, Ok, Depth, StrText, StrOk;
    var before, key, mid, x := KeySound(st, r);
    var ws, v, u := ValueSound(AtMember(st), x);
    var after, t := SpaceFound(At(EndValue, AtMember(st)), u);
    var m, c := Member(before, key, mid, Elem(ws, v, after)), t[0];
    assert t == [c] + t[1..];
    ElemSplit(m.value, x, u, t);
    MemberSplit(m, t);
    assert r == MemberText(m) + t;
    assert ElemOk(m.value);
    assert MemberOk(m);
    CloserByte(st, c, t[1..]);
    if c == '}' {
      ClosesObject(st, t[1..]);
      ms, r' := LastMember(m), t[1..];
      OneMember(m, r');
    } else {
      MemberComma(st, t[1..]);
      var rest;
      rest, r' := MembersSound(st, t[1..]);
      ms := MoreMembers(m, rest);
      MoreThanOne(m, rest, r');
    }
  }

  lemma OneMember(m: Member, r: Text)
    ensures MembersText(LastMember(m)) + r == MemberText(m) + (['}'] + r)
  {
    hide MemberText;
  }

  lemma MoreThanOne(m: Member, rest: Members, r: Text)
    ensures MembersText(MoreMembers(m, rest)) + r == MemberText(m) + ([','] + (MembersText(rest) + r))
  {
    hide MemberText;
    var a, b := MemberText(m), MembersText(rest);
    assert MembersText(MoreMembers(m, rest)) == a + ([','] + b);
    assert (a + ([','] + b)) + r == a + ([','] + (b + r));
  }

  // ----- the whole input -----

  /** checkValid accepts exactly the JSON texts of the grammar, nested at most 10000 deep. */
  lemma AcceptsExactlyJson(data: Text)
    ensures Accepts(Start, data) <==> JsonText(data)
  {
    hide Accepts, Next, ValueText, Ok, Depth;
    if Accepts(Start, data) {
      var ws, v, r := ValueSound([], data);
      EndIsTop(r);
      var e := Elem(ws, v, r);
      assert data == ElemText(e);
    }
    if JsonText(data) {
      var e: Elem :| ElemOk(e) && Depth(e.v) <= MaxNestingDepth && data == ElemText(e);
      EndIsTop([]);
      ElemAccepted(BeginValue, [], e, []);
      assert ElemText(e) + [] == ElemText(e);
    }
  }
}
