/** Which opcodes the scanner answers on the parts of a JSON text; scanNext and scanWhile
    (std/json/decode.go:74-104). */
module JsonOpcodes {
  import opened Wrappers
  import opened JsonScanner
  import opened JsonGrammar
  import opened JsonProof
  import opened JsonTokens

  // ----- several bytes with the same opcode -----

  /** Every byte of t answers op, and the scanner ends in s'. */
  predicate Reads(s: Scan, t: Text, op: Op, s': Scan)
    decreases |t|
  {
    if t == [] then s == s' else Next(s, t[0]).1 == op && Reads(Next(s, t[0]).0, t[1..], op, s')
  }

  lemma {:induction false} ReadsBoth(s: Scan, x: Text, s1: Scan, y: Text, s2: Scan, op: Op)
    requires Reads(s, x, op, s1) && Reads(s1, y, op, s2)
    ensures Reads(s, x + y, op, s2)
    decreases |x|
  {
    hide Next;
    if x == [] {
      assert x + y == y;
    } else {
      assert (x + y)[0] == x[0] && (x + y)[1..] == x[1..] + y;
      ReadsBoth(Next(s, x[0]).0, x[1..], s1, y, s2, op);
    }
  }

  lemma ReadsOne(s: Scan, c: char, op: Op, s': Scan)
    requires Next(s, c) == (s', op)
    ensures Reads(s, [c], op, s')
  {
    hide Next;
    assert [c][1..] == [];
  }

  lemma ReadsNothing(s: Scan, op: Op)
    ensures Reads(s, [], op, s)
  {
  }

  lemma {:induction false} SpaceReads(s: Scan, ws: Text)
    requires Skips(s) && AllSpace(ws)
    ensures Reads(s, ws, SkipSpace, s)
    decreases |ws|
  {
    if ws != [] { SpaceReads(s, ws[1..]); }
  }

  lemma {:induction false} DigitsRead(step: Step, st: seq<Parse>, ds: Text)
    requires step in {State1, Dot0, E0} && AllDigits(ds)
    ensures Reads(At(step, st), ds, Continue, At(step, st))
    decreases |ds|
  {
    hide Next;
    if ds != [] {
      OnDigit(st, ds[0]);
      DigitsRead(step, st, ds[1..]);
    }
  }

  lemma SomeDigitsRead(from: Step, step: Step, st: seq<Parse>, ds: Text)
    requires (from.Dot? && step.Dot0?) || (from.ESign? && step.E0?) || (from.StateE? && step.E0?)
    requires ds != [] && AllDigits(ds)
    ensures Reads(At(from, st), ds, Continue, At(step, st))
  {
    hide Next;
    OnDigit(st, ds[0]);
    DigitsRead(step, st, ds[1..]);
  }

  lemma ExpReads(step: Step, st: seq<Parse>, x: Option<Exp>) returns (end: Step)
    requires step in {State1, State0, Dot0} && (x.Some? ==> ExpOk(x.value))
    ensures CanEnd(end) && Reads(At(step, st), ExpText(x), Continue, At(end, st))
  {
    hide Next, Reads;
    if x.None? {
      end := step;
      ReadsNothing(At(step, st), Continue);
    } else {
      var e := x.value;
      end := E0;
      OnMark(step, st, e.e);
      ReadsOne(At(step, st), e.e, Continue, At(StateE, st));
      if e.sign.Some? {
        OnMark(StateE, st, e.sign.value);
        ReadsOne(At(StateE, st), e.sign.value, Continue, At(ESign, st));
        SomeDigitsRead(ESign, E0, st, e.digits);
        ReadsBoth(At(StateE, st), [e.sign.value], At(ESign, st), e.digits, At(E0, st), Continue);
        ReadsBoth(At(step, st), [e.e], At(StateE, st), [e.sign.value] + e.digits, At(E0, st), Continue);
        assert ExpText(x) == [e.e] + ([e.sign.value] + e.digits);
      } else {
        SomeDigitsRead(StateE, E0, st, e.digits);
        ReadsBoth(At(step, st), [e.e], At(StateE, st), e.digits, At(E0, st), Continue);
        assert ExpText(x) == [e.e] + e.digits;
      }
    }
  }

  lemma FracReads(step: Step, st: seq<Parse>, f: Option<Text>, x: Option<Exp>) returns (end: Step)
    requires step in {State1, State0} && (f.Some? ==> f.value != [] && AllDigits(f.value))
             && (x.Some? ==> ExpOk(x.value))
    ensures CanEnd(end) && Reads(At(step, st), FracText(f) + ExpText(x), Continue, At(end, st))
  {
    hide Next, Reads, ExpText;
    if f.None? {
      end := ExpReads(step, st, x);
      assert FracText(f) + ExpText(x) == ExpText(x);
    } else {
      end := ExpReads(Dot0, st, x);
      OnMark(step, st, '.');
      ReadsOne(At(step, st), '.', Continue, At(Dot, st));
      SomeDigitsRead(Dot, Dot0, st, f.value);
      ReadsBoth(At(Dot, st), f.value, At(Dot0, st), ExpText(x), At(end, st), Continue);
      ReadsBoth(At(step, st), ['.'], At(Dot, st), f.value + ExpText(x), At(end, st), Continue);
      assert FracText(f) + ExpText(x) == ['.'] + (f.value + ExpText(x));
    }
  }

  /** A number behind its first digit. */
  lemma WholeReads(st: seq<Parse>, v: Value) returns (end: Step)
    requires v.Number? && Ok(v)
    ensures CanEnd(end) && v.whole != [] && IsDigit(v.whole[0])
    ensures Reads(At(FirstDigit(v.whole[0]), st), v.whole[1..] + (FracText(v.frac) + ExpText(v.exp)), Continue,
                  At(end, st))
  {
    hide Next, Reads, FracText, ExpText;
    assert v.whole[0] in v.whole;
    var step, tail := FirstDigit(v.whole[0]), FracText(v.frac) + ExpText(v.exp);
    end := FracReads(step, st, v.frac, v.exp);
    if v.whole == "0" {
      assert v.whole[1..] + tail == tail;
    } else {
      DigitsRead(State1, st, v.whole[1..]);
      ReadsBoth(At(State1, st), v.whole[1..], At(State1, st), tail, At(end, st), Continue);
    }
  }

  lemma UnitReads(st: seq<Parse>, u: Unit)
    requires UnitOk(u)
    ensures Reads(At(InString, st), UnitText(u), Continue, At(InString, st))
  {
    hide Next, Reads;
    match u
    case Plain(c) =>
      OnStringByte(st, c);
      ReadsOne(At(InString, st), c, Continue, At(InString, st));
    case Escape(c) =>
      OnStringByte(st, c);
      ReadsOne(At(InString, st), '\\', Continue, At(InStringEsc, st));
      ReadsOne(At(InStringEsc, st), c, Continue, At(InString, st));
      ReadsBoth(At(InString, st), ['\\'], At(InStringEsc, st), [c], At(InString, st), Continue);
      assert UnitText(u) == ['\\'] + [c];
    case Unicode(a, b, c, d) =>
      OnStringByte(st, 'u');
      OnHex(st, a);
      OnHex(st, b);
      OnHex(st, c);
      OnHex(st, d);
      ReadsOne(At(InString, st), '\\', Continue, At(InStringEsc, st));
      ReadsOne(At(InStringEsc, st), 'u', Continue, At(InStringEscU, st));
      ReadsOne(At(InStringEscU, st), a, Continue, At(InStringEscU1, st));
      ReadsOne(At(InStringEscU1, st), b, Continue, At(InStringEscU12, st));
      ReadsOne(At(InStringEscU12, st), c, Continue, At(InStringEscU123, st));
      ReadsOne(At(InStringEscU123, st), d, Continue, At(InString, st));
      ReadsBoth(At(InStringEscU12, st), [c], At(InStringEscU123, st), [d], At(InString, st), Continue);
      ReadsBoth(At(InStringEscU1, st), [b], At(InStringEscU12, st), [c] + [d], At(InString, st), Continue);
      ReadsBoth(At(InStringEscU, st), [a], At(InStringEscU1, st), [b] + ([c] + [d]), At(InString, st), Continue);
      ReadsBoth(At(InStringEsc, st), ['u'], At(InStringEscU, st), [a] + ([b] + ([c] + [d])), At(InString, st),
                Continue);
      ReadsBoth(At(InString, st), ['\\'], At(InStringEsc, st), ['u'] + ([a] + ([b] + ([c] + [d]))), At(InString, st),
                Continue);
      assert UnitText(u) == ['\\'] + (['u'] + ([a] + ([b] + ([c] + [d]))));
  }

  lemma {:induction false} StrReads(st: seq<Parse>, us: seq<Unit>)
    requires StrOk(us)
    ensures Reads(At(InString, st), StrText(us), Continue, At(EndValue, st))
    decreases |us|
  {
    hide Next, Reads, UnitText;
    if us == [] {
      OnStringByte(st, ' ');
      ReadsOne(At(InString, st), '"', Continue, At(EndValue, st));
      assert StrText(us) == ['"'];
    } else {
      UnitReads(st, us[0]);
      StrReads(st, us[1..]);
      ReadsBoth(At(InString, st), UnitText(us[0]), At(InString, st), StrText(us[1..]), At(EndValue, st), Continue);
    }
  }

  lemma {:induction false} WordReads(step: Step, st: seq<Parse>)
    requires InWord(step)
    ensures Reads(At(step, st), Rest(step), Continue, At(EndValue, st))
    decreases |Rest(step)|
  {
    hide Next, Reads, Rest, InWord;
    RestIs(step);
    OnLetterOf(step, st);
    var (c, next) := Wanted(step);
    ReadsOne(At(step, st), c, Continue, At(next, st));
    if next.EndValue? {
      assert Rest(step) == [c];
    } else {
      WordReads(next, st);
      ReadsBoth(At(step, st), [c], At(next, st), Rest(next), At(EndValue, st), Continue);
    }
  }

  // ----- scanning on -----

  /** n bytes have been read, one more than there are when the end of the input was reached. */
  datatype Stop = Stop(n: nat, s: Scan, op: Op)

  function Eof(s: Scan): (Scan, Op) {
    if s.failed then (s, ScanError)
    else if s.endTop then (s, ScanEnd)
    else if Next(s, ' ').0.endTop then (Next(s, ' ').0, ScanEnd)
    else (Next(s, ' ').0.(failed := true), ScanError)
  }

  /** scanNext */
  function Another(s: Scan, r: Text): Stop {
    if r == [] then Stop(1, Eof(s).0, Eof(s).1) else Stop(1, Next(s, r[0]).0, Next(s, r[0]).1)
  }

  /** scanWhile */
  function While(s: Scan, r: Text, op: Op): Stop
    decreases |r|
  {
    if r == [] || Next(s, r[0]).1 != op then Another(s, r)
    else
      var w := While(Next(s, r[0]).0, r[1..], op);
      w.(n := w.n + 1)
  }

  lemma {:induction false} WhileReads(s: Scan, t: Text, s': Scan, r: Text, op: Op)
    requires Reads(s, t, op, s')
    ensures While(s, t + r, op) == While(s', r, op).(n := |t| + While(s', r, op).n)
    decreases |t|
  {
    hide Next, Eof, Another;
    if t == [] {
      assert t + r == r;
    } else {
      assert (t + r)[0] == t[0] && (t + r)[1..] == t[1..] + r;
      WhileReads(Next(s, t[0]).0, t[1..], s', r, op);
    }
  }

  /** What reading one byte behind a complete value does. */
  function Follow(st: seq<Parse>, r: Text): Stop { Another(At(EndValue, st), r) }

  /** Behind a literal the scanner does not continue: it has found out that the value has ended. */
  lemma LiteralEnds(step: Step, st: seq<Parse>, r: Text)
    requires (step.EndValue? || CanEnd(step)) && Accepts(At(EndValue, st), r)
    ensures While(At(step, st), r, Continue) == Follow(st, r)
  {
    if r != [] {
      assert r == [r[0]] + r[1..];
      AfterValue(st, r[0], r[1..]);
      FollowsIs(step, st, r[0]);
      Feed(At(EndValue, st), r[0], r[1..]);
      NotContinue(st, r[0]);
    } else {
      FollowsIs(step, st, ' ');
    }
  }

  lemma FollowsIs(step: Step, st: seq<Parse>, c: char)
    requires (step.EndValue? || CanEnd(step)) && Follows(c)
    ensures Next(At(step, st), c).1 == Next(At(EndValue, st), c).1
    ensures Next(At(EndValue, st), c).1 != ScanError ==> Next(At(step, st), c) == Next(At(EndValue, st), c)
    ensures c == ' ' ==> Next(At(step, st), c) == Next(At(EndValue, st), c)
  {
    hide Next;
    if CanEnd(step) {
      SameAsEnd(step, st, c);
      SpaceBehind(step, st);
    }
  }

  lemma SpaceBehind(step: Step, st: seq<Parse>)
    requires CanEnd(step)
    ensures Next(At(step, st), ' ') == Next(At(EndValue, st), ' ')
  {
  }

  lemma NotContinue(st: seq<Parse>, c: char)
    ensures Next(At(EndValue, st), c).1 != Continue
  {
  }
}
