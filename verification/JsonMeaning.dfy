/** A JSON text has one meaning: however it is parsed by the grammar, the value is the same. */
module JsonMeaning {
  import opened JsonScanner
  import opened JsonGrammar
  import opened JsonProof
  import opened JsonTheorem
  import opened JsonOpcodes
  import opened JsonUnquote
  import opened JsonDecoder

  lemma {:induction false} SpaceThen(ws: Text, c: char, r: Text, ws': Text, c': char, r': Text)
    requires AllSpace(ws) && AllSpace(ws') && !IsSpace(c) && !IsSpace(c') && ws + ([c] + r) == ws' + ([c'] + r')
    ensures ws == ws' && c == c' && r == r'
    decreases |ws|
  {
    var t, t' := ws + ([c] + r), ws' + ([c'] + r');
    if ws == [] || ws' == [] {
      assert t[0] == t'[0];
      assert ws == [] && ws' == [];
      assert r == t[1..] == t'[1..] == r';
    } else {
      assert ws[0] == t[0] == t'[0] == ws'[0];
      assert ws[1..] + ([c] + r) == t[1..] == t'[1..] == ws'[1..] + ([c'] + r');
      SpaceThen(ws[1..], c, r, ws'[1..], c', r');
      assert ws == [ws[0]] + ws[1..] && ws' == [ws'[0]] + ws'[1..];
    }
  }

  lemma SplitAlike(a: Text, r: Text, a': Text, r': Text)
    requires a + r == a' + r' && |a| == |a'|
    ensures a == a' && r == r'
  {
    assert a == (a + r)[..|a|] && a' == (a' + r')[..|a|];
    assert r == (a + r)[|a|..] && r' == (a' + r')[|a|..];
  }

  /** The scanner finds the end of a literal in the text alone. */
  lemma SameLiteral(st: seq<Parse>, v: Value, r: Text, v': Value, r': Text)
    requires Ok(v) && Depth(v) == 0 && Accepts(At(EndValue, st), r)
    requires Ok(v') && Depth(v') == 0 && Accepts(At(EndValue, st), r')
    requires ValueText(v) + r == ValueText(v') + r'
    ensures ValueText(v) == ValueText(v') && r == r'
  {
    hide Next, Accepts, ValueText, Ok, Depth, While;
    LiteralReads(st, v, r);
    LiteralReads(st, v', r');
    var t, t' := ValueText(v), ValueText(v');
    assert t[0] == (t + r)[0] == (t' + r')[0] == t'[0];
    assert t[1..] + r == (t + r)[1..] == (t' + r')[1..] == t'[1..] + r';
    SplitAlike(t, r, t', r');
  }

  lemma SameKey(st: seq<Parse>, key: seq<Unit>, r: Text, key': seq<Unit>, r': Text)
    requires StrOk(key) && Accepts(At(EndValue, st), r) && StrOk(key') && Accepts(At(EndValue, st), r')
    requires StrText(key) + r == StrText(key') + r'
    ensures StrText(key) == StrText(key') && r == r'
  {
    hide Next, Accepts, StrText, StrOk, While;
    KeyReads(st, key, r);
    KeyReads(st, key', r');
    SplitAlike(StrText(key), r, StrText(key'), r');
  }

  /** Literals with the same text have the same value. */
  lemma LiteralMeans(v: Value, v': Value, u: Utf8)
    requires Ok(v) && Depth(v) == 0 && Ok(v') && Depth(v') == 0 && ValueText(v) == ValueText(v')
    ensures ValueOf(v, u) == ValueOf(v', u)
  {
    hide Ok, NumberOf, UnquoteItem, ValueText;
    FirstByteTells(v);
    FirstByteTells(v');
    if v.Str? {
      StrValue(v.chars);
      StrValue(v'.chars);
    }
  }

  lemma {:induction false} SameValue(st: seq<Parse>, v: Value, r: Text, v': Value, r': Text, u: Utf8)
    requires Ok(v) && |st| + Depth(v) <= MaxNestingDepth && Accepts(At(EndValue, st), r)
    requires Ok(v') && |st| + Depth(v') <= MaxNestingDepth && Accepts(At(EndValue, st), r')
    requires ValueText(v) + r == ValueText(v') + r'
    ensures ValueOf(v, u) == ValueOf(v', u) && r == r'
    decreases v, 1
  {
    hide Next, Accepts, ValueText, Ok, Depth, ElemsText, MembersText, ElemsOk, MembersOk, ElemsOf, MembersOf,
        ElemsDepth, MembersDepth;
    hide StringOf, NumberOf;
    FirstOpcode(v, st);
    FirstOpcode(v', st);
    assert ValueText(v)[0] == (ValueText(v) + r)[0] == (ValueText(v') + r')[0] == ValueText(v')[0];
    if v.EmptyArray? || v.Array? {
      ArrayBegins(v, st, r);
      ArrayBegins(v', st, r');
      if v.EmptyArray? && v'.EmptyArray? {
        SpaceThen(v.ws, ']', r, v'.ws, ']', r');
      } else if v.EmptyArray? {
        NotEmpty(v.ws, r, v'.elems, r');
      } else if v'.EmptyArray? {
        NotEmpty(v'.ws, r', v.elems, r);
      } else {
        SameElems(st, v.elems, r, v'.elems, r', u);
      }
    } else if v.EmptyObject? || v.Object? {
      ObjectBegins(v, st, r);
      ObjectBegins(v', st, r');
      if v.EmptyObject? && v'.EmptyObject? {
        SpaceThen(v.ws, '}', r, v'.ws, '}', r');
      } else if v.EmptyObject? {
        NoMembers(v.ws, r, v'.members, r');
      } else if v'.EmptyObject? {
        NoMembers(v'.ws, r', v.members, r);
      } else {
        SameMembers(st, v.members, r, v'.members, r', map[], u);
      }
    } else {
      DepthOrBracket(v);
      DepthOrBracket(v');
      SameLiteral(st, v, r, v', r');
      LiteralMeans(v, v', u);
    }
  }

  /** An empty array and one with elements never have the same text. */
  lemma NotEmpty(ws: Text, r: Text, es: Elems, r': Text)
    requires AllSpace(ws) && ElemsOk(es)
    ensures ws + ([']'] + r) != ElemsText(es) + r'
  {
    hide ValueText, Ok;
    ElemsSplit(es, r');
    var e := es.e;
    var t, behind := ValueText(e.v), es.e.after + ([Sep(es)] + Tail(es, r'));
    FirstByte(e.v);
    assert t + behind == [t[0]] + (t[1..] + behind);
    if ws + ([']'] + r) == ElemsText(es) + r' {
      SpaceThen(ws, ']', r, e.before, t[0], t[1..] + behind);
    }
  }

  lemma NoMembers(ws: Text, r: Text, ms: Members, r': Text)
    requires AllSpace(ws) && MembersOk(ms)
    ensures ws + (['}'] + r) != MembersText(ms) + r'
  {
    hide ElemText, StrText, MemberText, MTail, StrOk, ElemOk;
    var m, x := ms.m, [MSep(ms)] + MTail(ms, r');
    MemberFirst(ms, r');
    MemberSplit(m, x);
    if ws + (['}'] + r) == MembersText(ms) + r' {
      SpaceThen(ws, '}', r, m.before, '"', StrText(m.key) + (m.mid + ([':'] + (ElemText(m.value) + x))));
    }
  }

  lemma MemberFirst(ms: Members, r: Text)
    ensures MembersText(ms) + r == MemberText(ms.m) + ([MSep(ms)] + MTail(ms, r))
  {
    hide MemberText;
    if ms.LastMember? { OneMember(ms.m, r); } else { MoreThanOne(ms.m, ms.rest, r); }
  }

  lemma {:induction false} SameElem(st: seq<Parse>, e: Elem, c: char, t: Text, e': Elem, c': char, t': Text, u: Utf8)
    requires Ok(e.v) && AllSpace(e.before) && AllSpace(e.after) && |st| + Depth(e.v) <= MaxNestingDepth && !IsSpace(c)
    requires Ok(e'.v) && AllSpace(e'.before) && AllSpace(e'.after) && |st| + Depth(e'.v) <= MaxNestingDepth
             && !IsSpace(c')
    requires Accepts(At(EndValue, st), e.after + ([c] + t)) && Accepts(At(EndValue, st), e'.after + ([c'] + t'))
    requires ElemText(e) + ([c] + t) == ElemText(e') + ([c'] + t')
    ensures ValueOf(e.v, u) == ValueOf(e'.v, u) && c == c' && t == t'
    decreases e, 2
  {
    hide Next, Accepts, ValueText, Ok, Depth, ValueOf;
    var x, x' := e.after + ([c] + t), e'.after + ([c'] + t');
    ElemSplitAgain(e, c, t);
    ElemSplitAgain(e', c', t');
    SameBehindSpace(e.before, e.v, x, e'.before, e'.v, x');
    SameValue(st, e.v, x, e'.v, x', u);
    SpaceThen(e.after, c, t, e'.after, c', t');
  }

  lemma SameBehindSpace(ws: Text, v: Value, x: Text, ws': Text, v': Value, x': Text)
    requires AllSpace(ws) && AllSpace(ws') && Ok(v) && Ok(v') && ws + (ValueText(v) + x) == ws' + (ValueText(v') + x')
    ensures ValueText(v) + x == ValueText(v') + x'
  {
    hide ValueText, Ok;
    FirstByte(v);
    FirstByte(v');
    var t, t' := ValueText(v), ValueText(v');
    assert t + x == [t[0]] + (t[1..] + x) && t' + x' == [t'[0]] + (t'[1..] + x');
    SpaceThen(ws, t[0], t[1..] + x, ws', t'[0], t'[1..] + x');
  }

  lemma {:induction false} SameElems(st: seq<Parse>, es: Elems, r: Text, es': Elems, r': Text, u: Utf8)
    requires ElemsOk(es) && |st| + 1 + ElemsDepth(es) <= MaxNestingDepth && Accepts(At(EndValue, st), r)
    requires ElemsOk(es') && |st| + 1 + ElemsDepth(es') <= MaxNestingDepth && Accepts(At(EndValue, st), r')
    requires ElemsText(es) + r == ElemsText(es') + r'
    ensures ElemsOf(es, u) == ElemsOf(es', u) && r == r'
    decreases es, 3
  {
    hide Next, Accepts, ValueText, Ok, Depth, ElemsText, ElemsOk, ElemsDepth, ValueOf, Tail, Sep;
    ElemTurn(es, BeginValue, st, r);
    ElemTurn(es', BeginValue, st, r');
    ElemsSplit(es, r);
    ElemsSplit(es', r');
    ElemSplitAgain(es.e, Sep(es), Tail(es, r));
    ElemSplitAgain(es'.e, Sep(es'), Tail(es', r'));
    SameElem(InArray(st), es.e, Sep(es), Tail(es, r), es'.e, Sep(es'), Tail(es', r'), u);
    SepTells(es);
    SepTells(es');
    TailIs(es, r);
    TailIs(es', r');
    if es.MoreElems? { SameElems(st, es.rest, r, es'.rest, r', u); }
  }

  lemma SepTells(es: Elems)
    ensures Sep(es) == ']' <==> es.LastElem?
  {
  }

  lemma {:induction false} SameMembers(st: seq<Parse>, ms: Members, r: Text, ms': Members, r': Text, before: map<Text,
                                       Decoded>, u: Utf8)
    requires MembersOk(ms) && |st| + 1 + MembersDepth(ms) <= MaxNestingDepth && Accepts(At(EndValue, st), r)
    requires MembersOk(ms') && |st| + 1 + MembersDepth(ms') <= MaxNestingDepth && Accepts(At(EndValue, st), r')
    requires MembersText(ms) + r == MembersText(ms') + r'
    ensures MembersOf(ms, before, u) == MembersOf(ms', before, u) && r == r'
    decreases ms, 3
  {
    hide Next, Accepts, Ok, Depth, MembersText, MembersOk, MembersDepth, ValueOf, MTail, MSep, StringOf, MemberOk,
        ElemText, StrText;
    MemberTurn(ms, BeginString, st, r);
    MemberTurn(ms', BeginString, st, r');
    SameMember(st, ms.m, MSep(ms), MTail(ms, r), ms'.m, MSep(ms'), MTail(ms', r'), u);
    MSepTells(ms);
    MSepTells(ms');
    MembersOne(ms, u, before, r);
    MembersOne(ms', u, before, r');
    if ms.MoreMembers? {
      SameMembers(st, ms.rest, r, ms'.rest, r', before[StringOf(ms.m.key, u) := ValueOf(ms.m.value.v, u)], u);
    }
  }

  lemma MSepTells(ms: Members)
    ensures MSep(ms) == '}' <==> ms.LastMember?
  {
  }

  lemma {:induction false} SameMember(st: seq<Parse>, m: Member, c: char, t: Text, m': Member, c': char, t': Text,
                                      u: Utf8)
    requires MemberOk(m) && |st| + 1 + Depth(m.value.v) <= MaxNestingDepth
             && Accepts(At(EndValue, AtMember(st)), [c] + t)
    requires MemberOk(m') && |st| + 1 + Depth(m'.value.v) <= MaxNestingDepth
             && Accepts(At(EndValue, AtMember(st)), [c'] + t')
    requires !IsSpace(c) && !IsSpace(c')
    requires m.before + (['"'] + (StrText(m.key) + (m.mid + ([':'] + (ElemText(m.value) + ([c] + t))))))
             == m'.before + (['"'] + (StrText(m'.key) + (m'.mid + ([':'] + (ElemText(m'.value) + ([c'] + t'))))))
    ensures StringOf(m.key, u) == StringOf(m'.key, u) && ValueOf(m.value.v, u) == ValueOf(m'.value.v, u) && c == c'
            && t == t'
    decreases m, 3
  {
    hide Next, Accepts, StrText, ValueText, Ok, Depth, ValueOf, UnquoteItem, ElemText, StrOk;
    MemberReads(m, st, c, t);
    MemberReads(m', st, c', t');
    var x, x' := ElemText(m.value) + ([c] + t), ElemText(m'.value) + ([c'] + t');
    SpaceThen(m.before, '"', StrText(m.key) + (m.mid + ([':'] + x)), m'.before, '"',
              StrText(m'.key) + (m'.mid + ([':'] + x')));
    SameKey(AtKey(st), m.key, m.mid + ([':'] + x), m'.key, m'.mid + ([':'] + x'));
    SpaceThen(m.mid, ':', x, m'.mid, ':', x');
    SameElem(AtMember(st), m.value, c, t, m'.value, c', t', u);
  }

  /** Every way to parse a text gives the same value. */
  lemma OneMeaning(e: Elem, e': Elem, u: Utf8)
    requires ElemOk(e) && Depth(e.v) <= MaxNestingDepth && ElemOk(e') && Depth(e'.v) <= MaxNestingDepth
    requires ElemText(e) == ElemText(e')
    ensures ValueOf(e.v, u) == ValueOf(e'.v, u)
  {
    hide Next, Accepts, ValueText, Ok, Depth, ValueOf;
    TopBegins(e);
    TopBegins(e');
    SameBehindSpace(e.before, e.v, e.after, e'.before, e'.v, e'.after);
    SameValue([], e.v, e.after, e'.v, e'.after, u);
  }

  lemma MeaningOf(e: Elem, u: Utf8)
    requires ElemOk(e) && Depth(e.v) <= MaxNestingDepth
    ensures JsonText(ElemText(e)) && Meaning(ElemText(e), u) == ValueOf(e.v, u)
  {
    hide ValueText, Ok, Depth, ValueOf;
    OneMeaning(e, Parsed(ElemText(e)), u);
  }
}
