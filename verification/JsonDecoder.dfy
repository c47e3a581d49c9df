/** The recursive decoder as it works, and why it never loses track of the scanner
    (std/json/decode.go:20-235). */
module JsonDecoder {
  import opened Wrappers
  import opened JsonScanner
  import opened JsonGrammar
  import opened JsonProof
  import opened JsonTokens
  import opened JsonTheorem
  import opened JsonOpcodes
  import opened JsonUnquote
  import opened JsonNumbers

  /** A decoded value. A float is kept as its text: how that becomes a number is not modelled. */
  datatype Decoded =
    | DUndefined
    | DBool(b: bool)
    | DInt(n: int)
    | DFloat(text: Text)
    | DString(s: Text)
    | DArray(elems: seq<Decoded>)
    | DMap(entries: map<Text, Decoded>)

  // ----- the value of a text -----

  /** A number without fraction and exponent that fits is an integer, everything else is a float. */
  function NumberOf(t: Text): Decoded {
    var n := if '.' in t || 'e' in t || 'E' in t then None else ParseInt(t);
    if n.Some? then DInt(n.value) else DFloat(t)
  }

  function StringOf(us: seq<Unit>, u: Utf8): Text {
    var r := UnquoteItem(['"'] + StrText(us), u);
    if r.Some? then r.value else []
  }

  function ValueOf(v: Value, u: Utf8): Decoded {
    match v
    case True => DBool(true)
    case False => DBool(false)
    case Null => DUndefined
    case Number(_, _, _, _) => NumberOf(ValueText(v))
    case Str(us) => DString(StringOf(us, u))
    case EmptyArray(_) => DArray([])
    case Array(es) => DArray(ElemsOf(es, u))
    case EmptyObject(_) => DMap(map[])
    case Object(ms) => DMap(MembersOf(ms, map[], u))
  }

  function ElemsOf(es: Elems, u: Utf8): seq<Decoded> {
    match es
    case LastElem(e) => [ValueOf(e.v, u)]
    case MoreElems(e, rest) => [ValueOf(e.v, u)] + ElemsOf(rest, u)
  }

  /** A later member with the same key replaces an earlier one. */
  function MembersOf(ms: Members, before: map<Text, Decoded>, u: Utf8): map<Text, Decoded> {
    match ms
    case LastMember(m) => before[StringOf(m.key, u) := ValueOf(m.value.v, u)]
    case MoreMembers(m, rest) => MembersOf(rest, before[StringOf(m.key, u) := ValueOf(m.value.v, u)], u)
  }

  // ----- where the scanner is -----

  /** Behind the closing bracket of an array or object at st. */
  function Closed(st: seq<Parse>): Scan { if st == [] then Scan(EndTop, [], true, false) else At(EndValue, st) }

  lemma ClosedFollows(st: seq<Parse>, r: Text)
    requires Accepts(At(EndValue, st), r)
    ensures Another(Closed(st), r) == Follow(st, r)
  {
    if r != [] {
      assert r == [r[0]] + r[1..];
      AfterValue(st, r[0], r[1..]);
    }
  }

  lemma OnBracket(step: Step, st: seq<Parse>)
    requires step.EndValue? || step.BeginValueOrEmpty?
    ensures Next(At(step, InArray(st)), ']') == (Closed(st), EndArray)
  {
    var s := At(step, InArray(st));
    assert s.stack[..|s.stack| - 1] == st;
  }

  lemma OnComma(st: seq<Parse>)
    ensures Next(At(EndValue, InArray(st)), ',') == (At(BeginValue, InArray(st)), ArrayValue)
  {
  }

  lemma OnBrace(st: seq<Parse>)
    ensures Next(At(EndValue, AtMember(st)), '}') == (Closed(st), EndObject)
    ensures Next(At(BeginStringOrEmpty, AtKey(st)), '}') == (Closed(st), EndObject)
  {
    var s := At(EndValue, AtMember(st));
    assert s.stack[..|s.stack| - 1] == st;
    var k := At(BeginStringOrEmpty, AtKey(st));
    assert k.stack[..|k.stack| - 1] == st;
    var m := SetTop(k, ParseObjectValue);
    assert m.stack == AtMember(st) && m.stack[..|m.stack| - 1] == st;
  }

  lemma OnKeySigns(st: seq<Parse>)
    ensures Next(At(EndValue, AtKey(st)), ':') == (At(BeginValue, AtMember(st)), ObjectKey)
    ensures Next(At(EndValue, AtMember(st)), ',') == (At(BeginString, AtKey(st)), ObjectValue)
  {
    var s := At(EndValue, AtKey(st));
    assert s.stack[..|s.stack| - 1] == st;
    var m := At(EndValue, AtMember(st));
    assert m.stack[..|m.stack| - 1] == st;
  }

  lemma OnOpening(st: seq<Parse>)
    requires |st| < MaxNestingDepth
    ensures Next(At(BeginValue, st), '[') == (At(BeginValueOrEmpty, InArray(st)), BeginArray)
    ensures Next(At(BeginValue, st), '{') == (At(BeginStringOrEmpty, AtKey(st)), BeginObject)
  {
  }

  lemma OnQuote(step: Step, st: seq<Parse>)
    requires step in {BeginValue, BeginString, BeginStringOrEmpty}
    ensures Next(At(step, st), '"') == (At(InString, st), BeginLiteral)
  {
  }

  /** Skipping space: the next byte is the one that counts. */
  lemma Skipped(s: Scan, ws: Text, c: char, r: Text)
    requires Skips(s) && AllSpace(ws) && Next(s, c).1 != SkipSpace
    ensures While(s, ws + ([c] + r), SkipSpace) == Stop(|ws| + 1, Next(s, c).0, Next(s, c).1)
  {
    hide Next, Reads;
    SpaceReads(s, ws);
    WhileReads(s, ws, s, [c] + r, SkipSpace);
  }

  /** What stands behind a value inside an array or object, seen after one byte of it and after the
      space has been skipped. */
  lemma SkippedBehind(st: seq<Parse>, after: Text, c: char, r: Text)
    requires st != [] && AllSpace(after) && !IsSpace(c)
    ensures var f := Follow(st, after + ([c] + r));
            && f.n == 1
            && (after == [] ==>
                 f.s == Next(At(EndValue, st), c).0 && f.op == Next(At(EndValue, st), c).1 && f.op != SkipSpace)
            && (after != [] ==> f.s == At(EndValue, st) && f.op == SkipSpace)
  {
    if after == [] {
      assert after + ([c] + r) == [c] + r;
      NoSkip(st, c);
    } else {
      assert (after + ([c] + r))[0] == after[0];
    }
  }

  lemma NoSkip(st: seq<Parse>, c: char)
    requires st != [] && !IsSpace(c)
    ensures Next(At(EndValue, st), c).1 != SkipSpace
  {
  }

  // ----- literals -----

  /** A literal, its first byte read: all others continue, then it has ended. */
  lemma LiteralReads(st: seq<Parse>, v: Value, rest: Text)
    requires Ok(v) && Depth(v) == 0 && Accepts(At(EndValue, st), rest)
    ensures ValueText(v) != []
    ensures var c := ValueText(v)[0];
            && Next(At(BeginValue, st), c).1 == BeginLiteral
            && While(Next(At(BeginValue, st), c).0, ValueText(v)[1..] + rest, Continue)
               == Follow(st, rest).(n := |ValueText(v)| - 1 + Follow(st, rest).n)
  {
    hide Next, Reads, ValueText, StrText, FracText, ExpText, JsonTokens.Rest;
    match v
    case True => WordLiteral(st, 't', rest);
    case False => WordLiteral(st, 'f', rest);
    case Null => WordLiteral(st, 'n', rest);
    case Number(_, _, _, _) => NumberLiteral(st, v, rest);
    case Str(us) =>
      OnQuote(BeginValue, st);
      StrReads(st, us);
      WhileReads(At(InString, st), StrText(us), At(EndValue, st), rest, Continue);
      LiteralEnds(EndValue, st, rest);
      StrValue(us);
  }

  lemma StrValue(us: seq<Unit>)
    ensures ValueText(Str(us)) == ['"'] + StrText(us) && ValueText(Str(us))[1..] == StrText(us)
  {
    hide StrText;
    assert ValueText(Str(us)) == ['"'] + StrText(us);
  }

  lemma WordLiteral(st: seq<Parse>, c: char, rest: Text)
    requires c in {'t', 'f', 'n'} && Accepts(At(EndValue, st), rest)
    ensures var t := ValueText(WordValue(c));
            && t != [] && t[0] == c && Next(At(BeginValue, st), c).1 == BeginLiteral
            && While(Next(At(BeginValue, st), c).0, t[1..] + rest, Continue)
               == Follow(st, rest).(n := |t| - 1 + Follow(st, rest).n)
  {
    hide Next, Reads, ValueText, JsonTokens.Rest;
    WordText(c);
    OnFirstLetter(st, c);
    WordReads(FirstLetter(c), st);
    WhileReads(At(FirstLetter(c), st), JsonTokens.Rest(FirstLetter(c)), At(EndValue, st), rest, Continue);
    LiteralEnds(EndValue, st, rest);
    assert ValueText(WordValue(c))[1..] == JsonTokens.Rest(FirstLetter(c));
  }

  lemma NumberLiteral(st: seq<Parse>, v: Value, rest: Text)
    requires v.Number? && Ok(v) && Accepts(At(EndValue, st), rest)
    ensures ValueText(v) != []
    ensures var c := ValueText(v)[0];
            && Next(At(BeginValue, st), c).1 == BeginLiteral
            && While(Next(At(BeginValue, st), c).0, ValueText(v)[1..] + rest, Continue)
               == Follow(st, rest).(n := |ValueText(v)| - 1 + Follow(st, rest).n)
  {
    hide Next, Reads, ValueText, FracText, ExpText, Ok;
    var end := WholeReads(st, v);
    var c := v.whole[0];
    var tail := v.whole[1..] + (FracText(v.frac) + ExpText(v.exp));
    OnDigit(st, c);
    OnMark(BeginValue, st, '-');
    NumberText(v, []);
    assert ValueText(v) + [] == ValueText(v);
    assert tail == v.whole[1..] + ((FracText(v.frac) + ExpText(v.exp)) + []);
    LiteralEnds(end, st, rest);
    if v.neg {
      assert ValueText(v) == ['-'] + ([c] + tail);
      ReadsOne(At(Neg, st), c, Continue, At(FirstDigit(c), st));
      ReadsBoth(At(Neg, st), [c], At(FirstDigit(c), st), tail, At(end, st), Continue);
      WhileReads(At(Neg, st), [c] + tail, At(end, st), rest, Continue);
      assert ValueText(v)[1..] == [c] + tail;
    } else {
      assert ValueText(v) == [c] + tail;
      WhileReads(At(FirstDigit(c), st), tail, At(end, st), rest, Continue);
      assert ValueText(v)[1..] == tail;
    }
  }

  /** The first byte tells the literals apart. */
  lemma FirstByteTells(v: Value)
    requires Ok(v) && Depth(v) == 0
    ensures ValueText(v) != []
    ensures var c := ValueText(v)[0];
            && (c == 'n' <==> v.Null?) && (c == 't' <==> v.True?) && (c == 'f' <==> v.False?) && (c == '"' <==> v.Str?)
            && (v.Number? ==> c == '-' || IsDigit(c))
  {
    hide FracText, ExpText, StrText;
    if v.Number? {
      NumberText(v, []);
      assert ValueText(v) + [] == ValueText(v);
      assert v.whole[0] in v.whole && IsDigit(v.whole[0]);
    }
  }

  // ----- the decoder -----

  class Decoder {
    const data: Text
    const u: Utf8
    var off: nat
    var opcode: Op
    var scan: Scan

    constructor (data: Text, u: Utf8)
      ensures this.data == data && this.u == u && off == 0 && scan == Start
    {
      this.data, this.u := data, u;
      off, opcode, scan := 0, Continue, Start;
    }

    /** Processes the next byte, or the end of the input. */
    method ScanNext()
      requires off <= |data|
      modifies this
      ensures var a := Another(old(scan), data[old(off)..]); scan == a.s && opcode == a.op && off == old(off) + a.n
    {
      if off < |data| {
        var n := Next(scan, data[off]);
        scan, opcode := n.0, n.1;
      } else {
        var e := Eof(scan);
        scan, opcode := e.0, e.1;
      }
      off := off + 1;
    }

    /** Processes bytes as long as they answer op. */
    method ScanWhile(op: Op)
      requires off <= |data|
      modifies this
      ensures var w := While(old(scan), data[old(off)..], op); scan == w.s && opcode == w.op && off == old(off) + w.n
    {
      hide Next, Eof;
      ghost var whole := While(scan, data[off..], op);
      while off < |data|
        invariant old(off) <= off <= |data|
        invariant whole == While(scan, data[off..], op).(n := off - old(off) + While(scan, data[off..], op).n)
      {
        assert data[off..][0] == data[off] && data[off..][1..] == data[off + 1..];
        var n := Next(scan, data[off]);
        scan := n.0;
        off := off + 1;
        if n.1 != op {
          opcode := n.1;
          return;
        }
      }
      assert data[off..] == [];
      var e := Eof(scan);
      scan, opcode := e.0, e.1;
      off := |data| + 1;
    }

    /** Skips space up to the byte c. */
    method SkipTo(ghost ws: Text, ghost c: char, ghost r: Text)
      requires off <= |data| && Skips(scan) && AllSpace(ws) && data[off..] == ws + ([c] + r)
               && Next(scan, c).1 != SkipSpace
      modifies this
      ensures (scan, opcode) == Next(old(scan), c)
      ensures 0 < off <= |data| && data[off..] == r && data[off - 1] == c && data[off - 1..] == [c] + r
    {
      hide Next, While;
      Skipped(scan, ws, c, r);
      ghost var o := off;
      ScanWhile(SkipSpace);
      assert data[off..] == data[o..][|ws| + 1..] && data[off - 1] == data[o..][|ws|];
      assert data[off - 1..] == data[o..][|ws|..];
    }

    /** The value behind this one's text is known, and one byte of what follows has been processed. */
    ghost predicate Behind(st: seq<Parse>, rest: Text)
      reads this
    {
      |rest| <= |data| && scan == Follow(st, rest).s && opcode == Follow(st, rest).op && off == |data| - |rest| + 1
      && data[|data| - |rest|..] == rest
    }

    /** Space behind a value or key, then the byte c. */
    method SkipBehind(ghost st: seq<Parse>, ghost after: Text, ghost c: char, ghost r: Text)
      requires Behind(st, after + ([c] + r)) && st != [] && AllSpace(after) && !IsSpace(c)
      modifies this
      ensures (scan, opcode) == Next(At(EndValue, st), c)
      ensures 0 < off <= |data| && data[off..] == r && data[off - 1] == c
    {
      hide Next, While;
      ghost var rest := after + ([c] + r);
      SkippedBehind(st, after, c, r);
      NoSkip(st, c);
      assert data[off - 1..] == rest && data[off..] == rest[1..];
      if opcode == SkipSpace {
        assert rest[1..] == after[1..] + ([c] + r);
        SkipTo(after[1..], c, r);
      } else {
        assert after == [] && rest == [c] + r;
        assert data[off - 1] == data[off - 1..][0];
      }
    }

    /** The opcode of the value's first byte has been read. */
    ghost predicate Begun(v: Value, st: seq<Parse>, rest: Text)
      reads this
    {
      && Ok(v) && |st| + Depth(v) <= MaxNestingDepth && Accepts(At(EndValue, st), rest)
      && 0 < off <= |data| && data[off - 1..] == ValueText(v) + rest && ValueText(v) != []
      && (scan, opcode) == Next(At(BeginValue, st), ValueText(v)[0])
    }

    method Literal(ghost v: Value, ghost st: seq<Parse>, ghost rest: Text) returns (r: Option<Decoded>)
      requires Begun(v, st, rest) && Depth(v) == 0 && Decodes(u)
      modifies this
      ensures r == Some(ValueOf(v, u)) && Behind(st, rest)
    {
      hide Next, While, Ok, ValueText, Accepts, UnquoteItem, StrText, Decodes;
      LiteralReads(st, v, rest);
      FirstByteTells(v);
      ghost var t := ValueText(v);
      var start := off - 1;
      assert data[off..] == data[start..][1..] == t[1..] + rest;
      ScanWhile(Continue);
      assert off == start + |t| + 1;
      var item := data[start..off - 1];
      assert item == data[start..][..|t|] == t;
      assert data[off - 1..] == data[start..][|t|..] == rest;
      if item[0] == 'n' { return Some(DUndefined); }
      if item[0] == 't' || item[0] == 'f' { return Some(DBool(item[0] == 't')); }
      if item[0] == '"' {
        StrOkOf(v);
        StrValue(v.chars);
        StringsUnquote(v.chars, u);
        var s := UnquoteBytes(item, u);
        if s.None? { return None; }
        return Some(DString(s.value));
      }
      if item[0] != '-' && !IsDigit(item[0]) { return None; }
      r := Some(NumberOf(item));
    }

    /** A value whose first byte has been read. None would be the panic "decoder out of sync". */
    method ParseValue(ghost v: Value, ghost st: seq<Parse>, ghost rest: Text) returns (r: Option<Decoded>)
      requires Begun(v, st, rest) && Decodes(u)
      modifies this
      ensures r == Some(ValueOf(v, u)) && Behind(st, rest)
      decreases v, 2
    {
      hide Next, Accepts, ValueText, Ok, Decodes, ElemsOf, MembersOf;
      FirstOpcode(v, st);
      match opcode {
        case BeginArray =>
          var elems := ParseArray(v, st, rest);
          if elems.None? { return None; }
          ClosedFollows(st, rest);
          ScanNext();
          RestAgain(rest);
          r := Some(DArray(elems.value));
        case BeginObject =>
          var entries := ParseObject(v, st, rest);
          if entries.None? { return None; }
          ClosedFollows(st, rest);
          ScanNext();
          RestAgain(rest);
          r := Some(DMap(entries.value));
        case BeginLiteral => r := Literal(v, st, rest);
        case _ => r := None;
      }
    }

    lemma RestAgain(rest: Text)
      requires exists o: nat :: o <= |data| && data[o..] == rest
      ensures |rest| <= |data| && data[|data| - |rest|..] == rest
    {
    }

    /** A value inside an array or object and the space behind it, up to the byte c. */
    method ParseBefore(ghost v: Value, ghost st: seq<Parse>, ghost after: Text, ghost c: char, ghost tail: Text)
      returns (r: Option<Decoded>)
      requires Begun(v, st, after + ([c] + tail)) && Decodes(u) && st != [] && AllSpace(after) && !IsSpace(c)
      modifies this
      ensures r == Some(ValueOf(v, u)) && (scan, opcode) == Next(At(EndValue, st), c)
      ensures 0 < off <= |data| && data[off..] == tail
      decreases v, 3
    {
      hide Next, Accepts, ValueText, Ok, Decodes, ValueOf, Follow, Begun;
      r := ParseValue(v, st, after + ([c] + tail));
      if r.None? { return None; }
      SkipBehind(st, after, c, tail);
    }

    /** The elements of an array whose opening bracket has been read. */
    method ParseArray(ghost v: Value, ghost st: seq<Parse>, ghost rest: Text) returns (r: Option<seq<Decoded>>)
      requires Begun(v, st, rest) && Decodes(u) && (v.EmptyArray? || v.Array?)
      modifies this
      ensures r.Some? && DArray(r.value) == ValueOf(v, u)
      ensures scan == Closed(st) && off <= |data| && data[off..] == rest
      decreases v, 1
    {
      hide Next, Accepts, ValueText, Ok, Decodes, ElemsText, ElemsOk, ElemsDepth, ElemsOf, Sep, Tail;
      ArrayBegins(v, st, rest);
      assert data[off..] == data[off - 1..][1..];
      var arr: seq<Decoded> := [];
      ghost var step, es := BeginValueOrEmpty, if v.Array? then v.elems else LastElem(Elem([], Null, []));
      while true
        invariant off <= |data| && scan == At(step, InArray(st)) && step in {BeginValueOrEmpty, BeginValue}
        invariant v.EmptyArray? ==> step.BeginValueOrEmpty? && arr == [] && data[off..] == v.ws + ([']'] + rest)
        invariant v.Array? ==>
                    && data[off..] == ElemsText(es) + rest && ElemsOk(es)
                      && |st| + 1 + ElemsDepth(es) <= MaxNestingDepth
                    && arr + ElemsOf(es, u) == ElemsOf(v.elems, u) && (es == v.elems || es < v.elems)
        decreases es
      {
        if v.Array? { ElemTurn(es, step, st, rest); } else { OnBracket(BeginValueOrEmpty, st); }
        ghost var e := es.e;
        ghost var behind := e.after + ([Sep(es)] + Tail(es, rest));
        SkipTo(if v.Array? then e.before else v.ws, if v.Array? then ValueText(e.v)[0] else ']',
               if v.Array? then ValueText(e.v)[1..] + behind else rest);
        if opcode == EndArray {
          ElemsNone(v, u);
          return Some(arr);
        }
        assert data[off - 1..] == ValueText(e.v) + behind;
        var o := ParseBefore(e.v, InArray(st), e.after, Sep(es), Tail(es, rest));
        if o.None? { return None; }
        ElemsOne(es, u, arr, o.value);
        TailIs(es, rest);
        arr := arr + [o.value];
        if opcode == EndArray { return Some(arr); }
        if opcode != ArrayValue { return None; }
        step := BeginValue;
        es := es.rest;
      }
    }

    /** A key whose opening quotation mark has been read. */
    method ParseKey(ghost key: seq<Unit>, ghost st: seq<Parse>, ghost rest: Text) returns (r: Option<Text>)
      requires StrOk(key) && Decodes(u) && Accepts(At(EndValue, st), rest) && scan == At(InString, st)
      requires 0 < off <= |data| && data[off - 1] == '"' && data[off..] == StrText(key) + rest
      modifies this
      ensures r == Some(StringOf(key, u)) && Behind(st, rest)
    {
      hide Next, Accepts, StrText, StrOk, Decodes, While, UnquoteItem;
      var start := off - 1;
      ghost var t := data[off..];
      KeyReads(st, key, rest);
      ScanWhile(Continue);
      var item := data[start..off - 1];
      assert data[off - 1..] == t[|StrText(key)|..] == rest;
      assert item == ['"'] + t[..|StrText(key)|] == ['"'] + StrText(key);
      StringsUnquote(key, u);
      r := UnquoteBytes(item, u);
    }

    /** A member up to the byte behind its value. */
    method ParseMember(ghost m: Member, ghost st: seq<Parse>, ghost c: char, ghost tail: Text)
      returns (key: Option<Text>, value: Option<Decoded>)
      requires Decodes(u) && MemberOk(m) && |st| + 1 + Depth(m.value.v) <= MaxNestingDepth && !IsSpace(c)
      requires Accepts(At(EndValue, AtMember(st)), [c] + tail)
      requires scan == At(InString, AtKey(st)) && 0 < off <= |data| && data[off - 1] == '"'
      requires data[off..] == StrText(m.key) + (m.mid + ([':'] + (ElemText(m.value) + ([c] + tail))))
      modifies this
      ensures key == Some(StringOf(m.key, u)) && value == Some(ValueOf(m.value.v, u))
      ensures (scan, opcode) == Next(At(EndValue, AtMember(st)), c) && 0 < off <= |data| && data[off..] == tail
      decreases m, 4
    {
      hide Next, Accepts, StrText, Decodes, ValueText, Ok, ValueOf, StringOf;
      MemberReads(m, st, c, tail);
      ghost var e := m.value;
      ghost var behind := e.after + ([c] + tail);
      value := None;
      key := ParseKey(m.key, AtKey(st), m.mid + ([':'] + (e.before + (ValueText(e.v) + behind))));
      if key.None? { return; }
      SkipBehind(AtKey(st), m.mid, ':', e.before + (ValueText(e.v) + behind));
      if opcode != ObjectKey { return; }
      SkipTo(e.before, ValueText(e.v)[0], ValueText(e.v)[1..] + behind);
      assert data[off - 1..] == ValueText(e.v) + behind;
      value := ParseBefore(e.v, AtMember(st), e.after, c, tail);
    }

    /** The members of an object whose opening brace has been read. */
    method ParseObject(ghost v: Value, ghost st: seq<Parse>, ghost rest: Text) returns (r: Option<map<Text, Decoded>>)
      requires Begun(v, st, rest) && Decodes(u) && (v.EmptyObject? || v.Object?)
      modifies this
      ensures r.Some? && DMap(r.value) == ValueOf(v, u)
      ensures scan == Closed(st) && off <= |data| && data[off..] == rest
      decreases v, 1
    {
      hide Next, Accepts, ValueText, Ok, Decodes, MembersText, MembersOk, MembersDepth, MembersOf, MSep, MTail,
          StringOf, StrText;
      ObjectBegins(v, st, rest);
      assert data[off..] == data[off - 1..][1..];
      var entries: map<Text, Decoded> := map[];
      ghost var step, ms := BeginStringOrEmpty, if v.Object? then v.members
          else LastMember(Member([], [], [], Elem([], Null, [])));
      while true
        invariant off <= |data| && scan == At(step, AtKey(st)) && step in {BeginStringOrEmpty, BeginString}
        invariant v.EmptyObject? ==>
                    step.BeginStringOrEmpty? && entries == map[] && data[off..] == v.ws + (['}'] + rest)
        invariant v.Object? ==>
                    && data[off..] == MembersText(ms) + rest && MembersOk(ms)
                      && |st| + 1 + MembersDepth(ms) <= MaxNestingDepth
                    && MembersOf(ms, entries, u) == MembersOf(v.members, map[], u)
                      && (ms == v.members || ms < v.members)
        decreases ms
      {
        if v.Object? { MemberTurn(ms, step, st, rest); } else { OnBrace(st); }
        ghost var m := ms.m;
        ghost var x := StrText(m.key) + (m.mid + ([':'] + (ElemText(m.value) + ([MSep(ms)] + MTail(ms, rest)))));
        SkipTo(if v.Object? then m.before else v.ws, if v.Object? then '"' else '}', if v.Object? then x else rest);
        if opcode == EndObject {
          MembersNone(v, u);
          return Some(entries);
        }
        if opcode != BeginLiteral { return None; }
        var key, value := ParseMember(m, st, MSep(ms), MTail(ms, rest));
        if key.None? || value.None? { return None; }
        MembersOne(ms, u, entries, rest);
        entries := entries[key.value := value.value];
        if opcode == EndObject { return Some(entries); }
        if opcode != ObjectValue { return None; }
        step := BeginString;
        ms := ms.rest;
      }
    }
  }

  /** The byte behind an element and its space, and what follows it. */
  function Sep(es: Elems): char { if es.LastElem? then ']' else ',' }

  function Tail(es: Elems, rest: Text): Text { if es.LastElem? then rest else ElemsText(es.rest) + rest }

  /** What one turn of the loop over the elements sees. */
  lemma ElemTurn(es: Elems, step: Step, st: seq<Parse>, rest: Text)
    requires ElemsOk(es) && |st| + 1 + ElemsDepth(es) <= MaxNestingDepth && Accepts(At(EndValue, st), rest)
    requires step in {BeginValueOrEmpty, BeginValue}
    ensures var e, behind := es.e, es.e.after + ([Sep(es)] + Tail(es, rest));
            && Ok(e.v) && AllSpace(e.before) && AllSpace(e.after) && |InArray(st)| + Depth(e.v) <= MaxNestingDepth
            && ValueText(e.v) != []
            && var c := ValueText(e.v)[0];
            && ElemsText(es) + rest == e.before + ([c] + (ValueText(e.v)[1..] + behind))
            && [c] + (ValueText(e.v)[1..] + behind) == ValueText(e.v) + behind
            && Next(At(step, InArray(st)), c) == Next(At(BeginValue, InArray(st)), c)
            && Next(At(BeginValue, InArray(st)), c).1 !in {SkipSpace, EndArray}
            && Accepts(At(EndValue, InArray(st)), behind)
    ensures !IsSpace(Sep(es))
    ensures Next(At(EndValue, InArray(st)), Sep(es))
            == if es.LastElem? then (Closed(st), EndArray) else (At(BeginValue, InArray(st)), ArrayValue)
    ensures es.MoreElems? ==> ElemsOk(es.rest) && |st| + 1 + ElemsDepth(es.rest) <= MaxNestingDepth
  {
    hide Next, Accepts, ValueText, Ok, Depth;
    var e, tail := es.e, Tail(es, rest);
    FirstByte(e.v);
    FirstIsNoSpace(InArray(st), e.v);
    var c := ValueText(e.v)[0];
    SameBegin(InArray(st), c);
    OnBracket(EndValue, st);
    OnComma(st);
    if es.LastElem? {
      ClosesArray(EndValue, st, rest);
    } else {
      ElemsAccepted(st, es.rest, rest);
      Comma(st, tail);
    }
    EndSkips(InArray(st), e.after, [Sep(es)] + tail);
    ElemsSplit(es, rest);
    assert ValueText(e.v) == [c] + ValueText(e.v)[1..];
    assert [c] + (ValueText(e.v)[1..] + (e.after + ([Sep(es)] + tail)))
        == ValueText(e.v) + (e.after + ([Sep(es)] + tail));
  }

  lemma ElemsSplit(es: Elems, rest: Text)
    ensures ElemsText(es) + rest == es.e.before + (ValueText(es.e.v) + (es.e.after + ([Sep(es)] + Tail(es, rest))))
  {
    hide ValueText;
    var e := es.e;
    var x := [Sep(es)] + Tail(es, rest);
    assert ElemsText(es) + rest == ElemText(e) + x;
    assert ElemText(e) + x == e.before + (ValueText(e.v) + (e.after + x));
  }

  lemma FirstIsNoSpace(st: seq<Parse>, v: Value)
    requires Ok(v) && |st| + Depth(v) <= MaxNestingDepth
    ensures ValueText(v) != [] && Next(At(BeginValue, st), ValueText(v)[0]).1 !in {SkipSpace, EndArray}
  {
    hide Next, ValueText, Ok;
    FirstOpcode(v, st);
    DepthOrBracket(v);
  }

  lemma DepthOrBracket(v: Value)
    ensures Depth(v) == 0 || v.EmptyArray? || v.Array? || v.EmptyObject? || v.Object?
  {
  }

  lemma TailIs(es: Elems, rest: Text)
    ensures Tail(es, rest) == if es.LastElem? then rest else ElemsText(es.rest) + rest
  {
  }

  lemma ElemsNone(v: Value, u: Utf8)
    ensures v.EmptyArray? ==> ValueOf(v, u) == DArray([])
  {
  }

  lemma ElemsOne(es: Elems, u: Utf8, arr: seq<Decoded>, o: Decoded)
    requires o == ValueOf(es.e.v, u)
    ensures es.LastElem? ==> arr + ElemsOf(es, u) == arr + [o]
    ensures es.MoreElems? ==> arr + ElemsOf(es, u) == arr + [o] + ElemsOf(es.rest, u)
  {
  }

  lemma StrOkOf(v: Value)
    requires v.Str? && Ok(v)
    ensures StrOk(v.chars)
  {
  }

  /** The opcode of the first byte tells arrays, objects and literals apart. */
  lemma FirstOpcode(v: Value, st: seq<Parse>)
    requires Ok(v) && |st| + Depth(v) <= MaxNestingDepth
    ensures ValueText(v) != []
    ensures var op := Next(At(BeginValue, st), ValueText(v)[0]).1;
            && (op == BeginArray <==> v.EmptyArray? || v.Array?)
            && (op == BeginObject <==> v.EmptyObject? || v.Object?)
            && (op == BeginLiteral <==> Depth(v) == 0)
  {
    hide Next, ElemsText, MembersText, StrText, FracText, ExpText, ElemsDepth, MembersDepth;
    match v
    case EmptyArray(_) => OnOpening(st);
    case Array(_) => OnOpening(st);
    case EmptyObject(_) => OnOpening(st);
    case Object(_) => OnOpening(st);
    case Str(_) => OnQuote(BeginValue, st);
    case True => OnFirstLetter(st, 't');
    case False => OnFirstLetter(st, 'f');
    case Null => OnFirstLetter(st, 'n');
    case Number(_, _, _, _) =>
      FirstByteTells(v);
      OnDigitOrMinus(st, ValueText(v)[0]);
  }

  lemma OnDigitOrMinus(st: seq<Parse>, c: char)
    requires c == '-' || IsDigit(c)
    ensures Next(At(BeginValue, st), c).1 == BeginLiteral
  {
  }

  lemma ArrayBegins(v: Value, st: seq<Parse>, rest: Text)
    requires Ok(v) && |st| + Depth(v) <= MaxNestingDepth && (v.EmptyArray? || v.Array?)
    ensures ValueText(v) != [] && ValueText(v)[0] == '['
    ensures Next(At(BeginValue, st), '[') == (At(BeginValueOrEmpty, InArray(st)), BeginArray)
    ensures v.EmptyArray? ==> AllSpace(v.ws) && (ValueText(v) + rest)[1..] == v.ws + ([']'] + rest)
    ensures v.Array? ==> ElemsOk(v.elems) && (ValueText(v) + rest)[1..] == ElemsText(v.elems) + rest
                         && |st| + 1 + ElemsDepth(v.elems) <= MaxNestingDepth
  {
    hide Next, ElemsText, ElemsDepth;
    OnOpening(st);
    if v.EmptyArray? {
      assert ValueText(v) + rest == ['['] + (v.ws + ([']'] + rest));
    } else {
      assert ValueText(v) + rest == ['['] + (ElemsText(v.elems) + rest);
    }
  }

  // ----- objects -----

  lemma KeyReads(st: seq<Parse>, key: seq<Unit>, rest: Text)
    requires StrOk(key) && Accepts(At(EndValue, st), rest)
    ensures While(At(InString, st), StrText(key) + rest, Continue)
            == Follow(st, rest).(n := |StrText(key)| + Follow(st, rest).n)
  {
    hide Next, Reads, StrText;
    StrReads(st, key);
    WhileReads(At(InString, st), StrText(key), At(EndValue, st), rest, Continue);
    LiteralEnds(EndValue, st, rest);
  }

  lemma ObjectBegins(v: Value, st: seq<Parse>, rest: Text)
    requires Ok(v) && |st| + Depth(v) <= MaxNestingDepth && (v.EmptyObject? || v.Object?)
    ensures ValueText(v) != [] && ValueText(v)[0] == '{'
    ensures Next(At(BeginValue, st), '{') == (At(BeginStringOrEmpty, AtKey(st)), BeginObject)
    ensures v.EmptyObject? ==> AllSpace(v.ws) && (ValueText(v) + rest)[1..] == v.ws + (['}'] + rest)
    ensures v.Object? ==> MembersOk(v.members) && (ValueText(v) + rest)[1..] == MembersText(v.members) + rest
                          && |st| + 1 + MembersDepth(v.members) <= MaxNestingDepth
  {
    hide Next, MembersText, MembersDepth;
    OnOpening(st);
    if v.EmptyObject? {
      assert ValueText(v) + rest == ['{'] + (v.ws + (['}'] + rest));
    } else {
      assert ValueText(v) + rest == ['{'] + (MembersText(v.members) + rest);
    }
  }

  function MSep(ms: Members): char { if ms.LastMember? then '}' else ',' }

  function MTail(ms: Members, rest: Text): Text { if ms.LastMember? then rest else MembersText(ms.rest) + rest }

  /** What one turn of the loop over the members sees. */
  lemma MemberTurn(ms: Members, step: Step, st: seq<Parse>, rest: Text)
    requires MembersOk(ms) && |st| + 1 + MembersDepth(ms) <= MaxNestingDepth && Accepts(At(EndValue, st), rest)
    requires step in {BeginStringOrEmpty, BeginString}
    ensures var m, x := ms.m, [MSep(ms)] + MTail(ms, rest);
            && MemberOk(m) && AllSpace(m.before) && |st| + 1 + Depth(m.value.v) <= MaxNestingDepth
            && MembersText(ms) + rest == m.before
              + (['"'] + (StrText(m.key) + (m.mid + ([':'] + (ElemText(m.value) + x)))))
            && Accepts(At(EndValue, AtMember(st)), x)
    ensures Next(At(step, AtKey(st)), '"') == (At(InString, AtKey(st)), BeginLiteral) && !IsSpace(MSep(ms))
    ensures Next(At(EndValue, AtMember(st)), MSep(ms))
            == if ms.LastMember? then (Closed(st), EndObject) else (At(BeginString, AtKey(st)), ObjectValue)
    ensures ms.MoreMembers? ==> MembersOk(ms.rest) && |st| + 1 + MembersDepth(ms.rest) <= MaxNestingDepth
  {
    hide Next, Accepts, ElemText, MemberText, Depth, StrText, MemberOk;
    var m, x := ms.m, [MSep(ms)] + MTail(ms, rest);
    assert AllSpace(m.before) by { SpaceBefore(m); }
    OnQuote(step, AtKey(st));
    OnBrace(st);
    OnKeySigns(st);
    if ms.LastMember? {
      ClosesObject(st, rest);
      OneMember(m, rest);
    } else {
      MembersAccepted(st, ms.rest, rest);
      MemberComma(st, MTail(ms, rest));
      MoreThanOne(m, ms.rest, rest);
    }
    MemberSplit(m, x);
  }

  lemma SpaceBefore(m: Member)
    requires MemberOk(m)
    ensures AllSpace(m.before)
  {
  }

  /** What a member looks like from its key on. */
  lemma MemberReads(m: Member, st: seq<Parse>, c: char, tail: Text)
    requires MemberOk(m) && |st| + 1 + Depth(m.value.v) <= MaxNestingDepth
             && Accepts(At(EndValue, AtMember(st)), [c] + tail)
    ensures var e, x := m.value, m.value.after + ([c] + tail);
            && StrOk(m.key) && AllSpace(m.mid) && AllSpace(e.before) && AllSpace(e.after) && Ok(e.v)
            && ValueText(e.v) != [] && |AtMember(st)| + Depth(e.v) <= MaxNestingDepth
            && ElemText(e) + ([c] + tail) == e.before + (ValueText(e.v) + x)
            && ValueText(e.v) + x == [ValueText(e.v)[0]] + (ValueText(e.v)[1..] + x)
            && Accepts(At(EndValue, AtMember(st)), x)
            && Accepts(At(EndValue, AtKey(st)), m.mid + ([':'] + (e.before + (ValueText(e.v) + x))))
            && Next(At(BeginValue, AtMember(st)), ValueText(e.v)[0]).1 != SkipSpace
    ensures Next(At(EndValue, AtKey(st)), ':') == (At(BeginValue, AtMember(st)), ObjectKey)
  {
    hide Next, Accepts, ValueText, Ok, StrOk, Depth;
    var e := m.value;
    var x := e.after + ([c] + tail);
    EndSkips(AtMember(st), e.after, [c] + tail);
    FirstIsNoSpace(AtMember(st), e.v);
    ElemAccepted(BeginValue, AtMember(st), e, [c] + tail);
    Colon(st, ElemText(e) + ([c] + tail));
    EndSkips(AtKey(st), m.mid, [':'] + (ElemText(e) + ([c] + tail)));
    OnKeySigns(st);
    ElemSplitAgain(e, c, tail);
    assert ValueText(e.v) == [ValueText(e.v)[0]] + ValueText(e.v)[1..];
  }

  lemma ElemSplitAgain(e: Elem, c: char, tail: Text)
    ensures ElemText(e) + ([c] + tail) == e.before + (ValueText(e.v) + (e.after + ([c] + tail)))
  {
    hide ValueText;
    assert (ValueText(e.v) + e.after) + ([c] + tail) == ValueText(e.v) + (e.after + ([c] + tail));
  }

  lemma MembersNone(v: Value, u: Utf8)
    ensures v.EmptyObject? ==> ValueOf(v, u) == DMap(map[])
  {
  }

  lemma MembersOne(ms: Members, u: Utf8, entries: map<Text, Decoded>, rest: Text)
    ensures var more := entries[StringOf(ms.m.key, u) := ValueOf(ms.m.value.v, u)];
            MembersOf(ms, entries, u) == if ms.LastMember? then more else MembersOf(ms.rest, more, u)
    ensures MTail(ms, rest) == if ms.LastMember? then rest else MembersText(ms.rest) + rest
  {
    hide StringOf, ValueOf;
  }

  // ----- the whole input -----

  datatype DecodeResult = Value(value: Decoded) | SyntaxError(offset: nat) | OutOfSync

  ghost function Parsed(data: Text): (e: Elem)
    requires JsonText(data)
    ensures ElemOk(e) && Depth(e.v) <= MaxNestingDepth && data == ElemText(e)
  {
    var e: Elem :| ElemOk(e) && Depth(e.v) <= MaxNestingDepth && data == ElemText(e);
    e
  }

  /** The value a JSON text stands for. */
  ghost function Meaning(data: Text, u: Utf8): Decoded
    requires JsonText(data)
  {
    ValueOf(Parsed(data).v, u)
  }

  /** Decode: first the whole input is checked, then it is decoded. */
  method Decode(data: seq<JsonScanner.byte>, u: Utf8) returns (r: DecodeResult)
    requires Decodes(u)
    ensures r != OutOfSync
    ensures r == if JsonText(data) then Value(Meaning(data, u)) else SyntaxError(Offset(Start, data))
  {
    hide Next, Accepts, ValueText, Decodes, Ok, ValueOf, Offset;
    var scanner := new Scanner();
    var valid := scanner.CheckValid(data);
    AcceptsExactlyJson(data);
    if !valid { return SyntaxError(scanner.err.value); }
    ghost var e := Parsed(data);
    TopBegins(e);
    var d := new Decoder(data, u);
    assert d.data[d.off..] == data;
    d.SkipTo(e.before, ValueText(e.v)[0], ValueText(e.v)[1..] + e.after);
    var v := d.ParseValue(e.v, [], e.after);
    r := if v.None? then OutOfSync else Value(v.value);
  }

  lemma TopBegins(e: Elem)
    requires ElemOk(e) && Depth(e.v) <= MaxNestingDepth
    ensures ValueText(e.v) != []
    ensures ElemText(e) == e.before + ([ValueText(e.v)[0]] + (ValueText(e.v)[1..] + e.after))
    ensures [ValueText(e.v)[0]] + (ValueText(e.v)[1..] + e.after) == ValueText(e.v) + e.after
    ensures Next(At(BeginValue, []), ValueText(e.v)[0]).1 != SkipSpace
    ensures Accepts(At(EndValue, []), e.after) && At(BeginValue, []) == Start
  {
    hide Next, Accepts, ValueText, Ok, Depth;
    FirstIsNoSpace([], e.v);
    EndIsTop(e.after);
    assert ValueText(e.v) == [ValueText(e.v)[0]] + ValueText(e.v)[1..];
  }
}
