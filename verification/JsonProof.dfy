/** The scanner accepts exactly the JSON texts. */
module JsonProof {
  import opened Wrappers
  import opened JsonScanner
  import opened JsonGrammar

  function At(step: Step, st: seq<Parse>): Scan { Scan(step, st, false, false) }

  // ----- one byte -----

  lemma Feed(s: Scan, c: char, r: Text)
    ensures Accepts(s, [c] + r) <==> Next(s, c).1 != ScanError && Accepts(Next(s, c).0, r)
  {
    hide Next;
    assert ([c] + r)[1..] == r;
  }

  lemma Dead(s: Scan, r: Text)
    requires s.failed && s.step.StateError?
    ensures !Accepts(s, r)
  {
  }

  /** A byte that leads from one state to another. */
  lemma Goes(s: Scan, c: char, r: Text, s': Scan)
    requires Next(s, c).1 != ScanError && Next(s, c).0 == s'
    ensures Accepts(s, [c] + r) <==> Accepts(s', r)
  {
    hide Next;
    Feed(s, c, r);
  }

  // ----- behind a value -----

  /** Behind the top-level value only space may follow. */
  lemma {:induction false} TopAccepts(r: Text)
    ensures Accepts(Scan(EndTop, [], true, false), r) <==> AllSpace(r)
    decreases |r|
  {
    var s := Scan(EndTop, [], true, false);
    if r != [] {
      Feed(s, r[0], r[1..]);
      assert r == [r[0]] + r[1..];
      if IsSpace(r[0]) {
        TopAccepts(r[1..]);
      } else {
        Dead(Next(s, r[0]).0, r[1..]);
      }
    }
  }

  lemma EndIsTop(r: Text)
    ensures Accepts(At(EndValue, []), r) <==> AllSpace(r)
  {
    TopAccepts(r);
    if r != [] {
      assert Next(At(EndValue, []), r[0]) == Next(Scan(EndTop, [], true, false), r[0]);
    }
  }

  /** What closing a bracket leads to accepts what the end of a value accepts. */
  lemma Popped(s: Scan, r: Text)
    requires s.stack != [] && !s.failed && !s.endTop
    ensures Accepts(Pop(s), r) <==> Accepts(At(EndValue, s.stack[..|s.stack| - 1]), r)
  {
    if |s.stack| == 1 {
      assert s.stack[..0] == [];
      EndIsTop(r);
      TopAccepts(r);
    }
  }

  predicate Skips(s: Scan) {
    s.step in {BeginValue, BeginValueOrEmpty, BeginString, BeginStringOrEmpty} || (s.step.EndValue? && s.stack != [])
  }

  lemma {:induction false} SkipsSpace(s: Scan, ws: Text, r: Text)
    requires Skips(s) && AllSpace(ws)
    ensures Accepts(s, ws + r) <==> Accepts(s, r)
    decreases |ws|
  {
    if ws == [] {
      assert ws + r == r;
    } else {
      assert ws + r == [ws[0]] + (ws[1..] + r);
      Goes(s, ws[0], ws[1..] + r, s);
      SkipsSpace(s, ws[1..], r);
    }
  }

  /** Space behind a value does not matter. */
  lemma EndSkips(st: seq<Parse>, ws: Text, r: Text)
    requires AllSpace(ws)
    ensures Accepts(At(EndValue, st), ws + r) <==> Accepts(At(EndValue, st), r)
  {
    if st == [] {
      EndIsTop(ws + r);
      EndIsTop(r);
      assert AllSpace(r) ==> AllSpace(ws + r);
      if AllSpace(ws + r) {
        forall c | c in r ensures IsSpace(c) { assert c in ws + r; }
      }
    } else {
      SkipsSpace(At(EndValue, st), ws, r);
    }
  }

  predicate Follows(c: char) { IsSpace(c) || c in {',', ':', ']', '}'} }

  /** What can stand behind a value. */
  lemma AfterValue(st: seq<Parse>, c: char, r: Text)
    requires Accepts(At(EndValue, st), [c] + r)
    ensures Follows(c)
  {
    Feed(At(EndValue, st), c, r);
    if !Follows(c) {
      Dead(Next(At(EndValue, st), c).0, r);
    }
  }

  // ----- numbers -----

  /** The states in which a number may end, and the bytes that go on with it. */
  predicate CanEnd(step: Step) { step in {State1, State0, Dot0, E0} }

  predicate GoesOn(step: Step, c: char) {
    match step
    case State1 => IsDigit(c) || c in {'.', 'e', 'E'}
    case State0 => c in {'.', 'e', 'E'}
    case Dot0 => IsDigit(c) || c in {'e', 'E'}
    case _ => IsDigit(c)
  }

  /** Behind its last byte a number is a complete value. */
  lemma NumberEnds(step: Step, st: seq<Parse>, r: Text)
    requires CanEnd(step) && (r != [] ==> !GoesOn(step, r[0]))
    ensures Accepts(At(step, st), r) <==> Accepts(At(EndValue, st), r)
  {
    if r == [] {
      assert Next(At(step, st), ' ').0.endTop == Next(At(EndValue, st), ' ').0.endTop;
    } else {
      SameAsEnd(step, st, r[0]);
    }
  }

  lemma SameAsEnd(step: Step, st: seq<Parse>, c: char)
    requires CanEnd(step) && !GoesOn(step, c)
    ensures var a, b := Next(At(step, st), c), Next(At(EndValue, st), c);
            a.1 == b.1 && (a.0 == b.0 || a.1 == ScanError)
  {
    hide OnEndValue;
    EndForgetsStep(step, st, c);
    assert Next(At(step, st), c) == OnEndValue(At(step, st), c);
  }

  lemma EndForgetsStep(step: Step, st: seq<Parse>, c: char)
    ensures var a, b := OnEndValue(At(step, st), c), OnEndValue(At(EndValue, st), c);
            a.1 == b.1 && (a.0 == b.0 || a.1 == ScanError)
  {
  }

  lemma NumberEndsHere(step: Step, st: seq<Parse>, r: Text)
    requires CanEnd(step) && Accepts(At(EndValue, st), r)
    ensures Accepts(At(step, st), r)
  {
    if r != [] {
      assert r == [r[0]] + r[1..];
      AfterValue(st, r[0], r[1..]);
    }
    NumberEnds(step, st, r);
  }

  /** The state behind the first digit of a number. */
  function FirstDigit(c: char): Step { if c == '0' then State0 else State1 }

  // Where single bytes of a number lead.

  lemma OnDigit(st: seq<Parse>, c: char)
    requires IsDigit(c)
    ensures Next(At(Dot, st), c) == (At(Dot0, st), Continue)
    ensures Next(At(Dot0, st), c) == (At(Dot0, st), Continue)
    ensures Next(At(StateE, st), c) == (At(E0, st), Continue)
    ensures Next(At(ESign, st), c) == (At(E0, st), Continue)
    ensures Next(At(E0, st), c) == (At(E0, st), Continue)
    ensures Next(At(State1, st), c) == (At(State1, st), Continue)
    ensures Next(At(Neg, st), c) == (At(FirstDigit(c), st), Continue)
    ensures Next(At(BeginValue, st), c) == (At(FirstDigit(c), st), BeginLiteral)
  {
  }

  lemma OnMark(step: Step, st: seq<Parse>, c: char)
    ensures step in {State1, State0, Dot0} && c in {'e', 'E'} ==> Next(At(step, st), c) == (At(StateE, st), Continue)
    ensures step in {State1, State0} && c == '.' ==> Next(At(step, st), c) == (At(Dot, st), Continue)
    ensures c in {'+', '-'} ==> Next(At(StateE, st), c) == (At(ESign, st), Continue)
    ensures c == '-' ==> Next(At(BeginValue, st), c) == (At(Neg, st), BeginLiteral)
  {
  }

  /** A digit is needed. */
  lemma NeedsDigit(step: Step, st: seq<Parse>, r: Text)
    requires step in {Neg, Dot, ESign} || (step.StateE? && (r != [] ==> r[0] !in {'+', '-'}))
    requires Accepts(At(step, st), r)
    ensures r != [] && IsDigit(r[0])
  {
  }

  lemma {:induction false} ManyDigits(step: Step, st: seq<Parse>, ds: Text, r: Text)
    requires step in {State1, Dot0, E0} && AllDigits(ds)
    ensures Accepts(At(step, st), ds + r) <==> Accepts(At(step, st), r)
    decreases |ds|
  {
    hide Next, Accepts;
    if ds != [] { OnDigit(st, ds[0]); }
    if ds == [] {
      assert ds + r == r;
    } else {
      assert ds + r == [ds[0]] + (ds[1..] + r);
      Goes(At(step, st), ds[0], ds[1..] + r, At(step, st));
      ManyDigits(step, st, ds[1..], r);
    }
  }

  /** "One or more digits": the first leads from one state to the next, which takes the others. */
  lemma Digits(from: Step, step: Step, st: seq<Parse>, ds: Text, r: Text)
    requires (from.Dot? && step.Dot0?) || (from.ESign? && step.E0?) || (from.StateE? && step.E0?)
    requires ds != [] && AllDigits(ds)
    ensures Accepts(At(from, st), ds + r) <==> Accepts(At(step, st), r)
  {
    hide Next, Accepts;
    OnDigit(st, ds[0]);
    assert ds + r == [ds[0]] + (ds[1..] + r);
    Goes(At(from, st), ds[0], ds[1..] + r, At(step, st));
    ManyDigits(step, st, ds[1..], r);
  }

  lemma ExpAccepted(step: Step, st: seq<Parse>, x: Option<Exp>, r: Text)
    requires step in {State1, State0, Dot0} && (x.Some? ==> ExpOk(x.value)) && Accepts(At(EndValue, st), r)
    ensures Accepts(At(step, st), ExpText(x) + r)
  {
    hide Next, Accepts;
    if x.None? {
      assert ExpText(x) + r == r;
      NumberEndsHere(step, st, r);
    } else {
      var e := x.value;
      OnMark(step, st, e.e);
      if e.sign.Some? { OnMark(StateE, st, e.sign.value); }
      NumberEndsHere(E0, st, r);
      if e.sign.Some? {
        assert ExpText(x) + r == [e.e] + ([e.sign.value] + (e.digits + r));
        Goes(At(step, st), e.e, [e.sign.value] + (e.digits + r), At(StateE, st));
        Goes(At(StateE, st), e.sign.value, e.digits + r, At(ESign, st));
        Digits(ESign, E0, st, e.digits, r);
      } else {
        assert ExpText(x) + r == [e.e] + (e.digits + r);
        Goes(At(step, st), e.e, e.digits + r, At(StateE, st));
        Digits(StateE, E0, st, e.digits, r);
      }
    }
  }

  lemma FracAccepted(step: Step, st: seq<Parse>, f: Option<Text>, x: Option<Exp>, r: Text)
    requires step in {State1, State0} && (f.Some? ==> f.value != [] && AllDigits(f.value))
             && (x.Some? ==> ExpOk(x.value))
    requires Accepts(At(EndValue, st), r)
    ensures Accepts(At(step, st), (FracText(f) + ExpText(x)) + r)
  {
    hide Next, Accepts;
    OnMark(step, st, '.');
    var t := ExpText(x) + r;
    if f.None? {
      ExpAccepted(step, st, x, r);
      assert (FracText(f) + ExpText(x)) + r == t;
    } else {
      ExpAccepted(Dot0, st, x, r);
      assert (FracText(f) + ExpText(x)) + r == ['.'] + (f.value + t);
      Goes(At(step, st), '.', f.value + t, At(Dot, st));
      Digits(Dot, Dot0, st, f.value, t);
    }
  }

  lemma NumberText(v: Value, r: Text)
    requires v.Number? && v.whole != []
    ensures var t := [v.whole[0]] + (v.whole[1..] + ((FracText(v.frac) + ExpText(v.exp)) + r));
            ValueText(v) + r == if v.neg then ['-'] + t else t
  {
    hide FracText, ExpText;
    var w := v.whole;
    var t := FracText(v.frac) + ExpText(v.exp);
    assert w == [w[0]] + w[1..];
    assert (w + t) + r == [w[0]] + (w[1..] + (t + r));
  }

  lemma NumberAccepted(st: seq<Parse>, v: Value, r: Text)
    requires v.Number? && Ok(v) && Accepts(At(EndValue, st), r)
    ensures Accepts(At(BeginValue, st), ValueText(v) + r)
  {
    hide Next, Accepts, FracText, ExpText, ValueText;
    var t := (FracText(v.frac) + ExpText(v.exp)) + r;
    var c, more := v.whole[0], v.whole[1..];
    var step := FirstDigit(c);
    OnDigit(st, c);
    OnMark(BeginValue, st, '-');
    FracAccepted(step, st, v.frac, v.exp, r);
    if v.whole == "0" {
      assert more + t == t;
    } else {
      ManyDigits(State1, st, more, t);
    }
    NumberText(v, r);
    if v.neg { Goes(At(BeginValue, st), '-', [c] + (more + t), At(Neg, st)); }
    Goes(At(if v.neg then Neg else BeginValue, st), c, more + t, At(step, st));
  }

  // ----- numbers, the other way -----

  /** The longest run of digits. */
  function Digits1(r: Text): (n: nat)
    ensures n <= |r| && AllDigits(r[..n]) && (n < |r| ==> !IsDigit(r[n]))
  {
    if r != [] && IsDigit(r[0]) then
      var n := Digits1(r[1..]);
      assert r[..n + 1] == [r[0]] + r[1..][..n];
      n + 1
    else 0
  }

  lemma ExpFound(st: seq<Parse>, r: Text) returns (x: Exp, r': Text)
    requires r != [] && r[0] in {'e', 'E'} && Accepts(At(StateE, st), r[1..])
    ensures ExpOk(x) && r == ExpText(Some(x)) + r' && Accepts(At(EndValue, st), r') && |r'| < |r|
  {
    hide Next, Accepts, ExpText;
    var t := r[1..];
    if t == [] { NeedsDigit(StateE, st, t); }
    if t[0] in {'+', '-'} {
      assert t == [t[0]] + t[1..];
      OnMark(StateE, st, t[0]);
      Goes(At(StateE, st), t[0], t[1..], At(ESign, st));
      var ds;
      ds, r' := DigitsFound(ESign, E0, st, t[1..]);
      x := Exp(r[0], Some(t[0]), ds);
      assert r == [r[0]] + ([t[0]] + (ds + r'));
      ExpTextIs(x, r');
    } else {
      var ds;
      ds, r' := DigitsFound(StateE, E0, st, t);
      x := Exp(r[0], None, ds);
      assert r == [r[0]] + (ds + r');
      ExpTextIs(x, r');
    }
    NumberEnds(E0, st, r');
  }

  lemma ExpTextIs(x: Exp, r: Text)
    ensures ExpText(Some(x)) + r == [x.e] + (if x.sign.Some? then [x.sign.value] + (x.digits + r) else x.digits + r)
  {
    if x.sign.Some? {
      var sign := [x.sign.value];
      assert ExpText(Some(x)) == ([x.e] + sign) + x.digits;
      Regroup([x.e] + sign, x.digits, r);
      Regroup([x.e], sign, x.digits + r);
    } else {
      assert ExpText(Some(x)) == ([x.e] + "") + x.digits && [x.e] + "" == [x.e];
      Regroup([x.e], x.digits, r);
    }
  }

  lemma Regroup(a: Text, b: Text, c: Text)
    ensures (a + b) + c == a + (b + c)
  {
  }

  /** Where at least one digit is needed, all of them. */
  lemma DigitsFound(from: Step, step: Step, st: seq<Parse>, r: Text) returns (ds: Text, r': Text)
    requires (from.Dot? && step.Dot0?) || (from.ESign? && step.E0?)
             || (from.StateE? && step.E0? && (r != [] ==> r[0] !in {'+', '-'}))
    requires Accepts(At(from, st), r)
    ensures ds != [] && AllDigits(ds) && r == ds + r' && (r' != [] ==> !IsDigit(r'[0]))
    ensures Accepts(At(step, st), r')
  {
    hide Next, Accepts;
    NeedsDigit(from, st, r);
    var n := Digits1(r);
    ds, r' := r[..n], r[n..];
    assert r == ds + r';
    Digits(from, step, st, ds, r');
  }

  lemma ExpSound(step: Step, st: seq<Parse>, r: Text) returns (x: Option<Exp>, r': Text)
    requires step in {State1, State0, Dot0} && Accepts(At(step, st), r)
    requires r != [] ==> r[0] in {'e', 'E'} || !GoesOn(step, r[0])
    ensures (x.Some? ==> ExpOk(x.value)) && r == ExpText(x) + r' && Accepts(At(EndValue, st), r') && |r'| <= |r|
  {
    hide Next, Accepts;
    if r != [] && r[0] in {'e', 'E'} {
      assert r == [r[0]] + r[1..];
      OnMark(step, st, r[0]);
      Goes(At(step, st), r[0], r[1..], At(StateE, st));
      var e;
      e, r' := ExpFound(st, r);
      x := Some(e);
    } else {
      NumberEnds(step, st, r);
      x, r' := None, r;
    }
  }

  lemma FracTextIs(ds: Text, x: Text, r: Text)
    ensures (FracText(Some(ds)) + x) + r == ['.'] + (ds + (x + r))
  {
    Regroup(['.'] + ds, x, r);
    Regroup(['.'], ds, x + r);
  }

  lemma FracSound(step: Step, st: seq<Parse>, r: Text) returns (f: Option<Text>, x: Option<Exp>, r': Text)
    requires step in {State1, State0} && Accepts(At(step, st), r) && (step.State1? && r != [] ==> !IsDigit(r[0]))
    ensures (f.Some? ==> f.value != [] && AllDigits(f.value)) && (x.Some? ==> ExpOk(x.value))
    ensures r == (FracText(f) + ExpText(x)) + r' && Accepts(At(EndValue, st), r') && |r'| <= |r|
  {
    hide Next, Accepts, ExpText;
    if r != [] && r[0] == '.' {
      var t := r[1..];
      assert r == [r[0]] + t;
      OnMark(step, st, '.');
      Goes(At(step, st), r[0], t, At(Dot, st));
      var ds, u;
      ds, u := DigitsFound(Dot, Dot0, st, t);
      x, r' := ExpSound(Dot0, st, u);
      f := Some(ds);
      FracTextIs(ds, ExpText(x), r');
    } else {
      x, r' := ExpSound(step, st, r);
      f := None;
      assert FracText(f) + ExpText(x) == ExpText(x);
    }
  }

  /** A number from its first digit on. */
  lemma WholeSound(neg: bool, st: seq<Parse>, r: Text) returns (v: Value, r': Text)
    requires r != [] && IsDigit(r[0]) && Accepts(At(FirstDigit(r[0]), st), r[1..])
    ensures v.Number? && v.neg == neg && Ok(v) && Accepts(At(EndValue, st), r') && |r'| < |r|
    ensures (if neg then ['-'] else []) + r == ValueText(v) + r'
  {
    hide Next, Accepts, FracText, ExpText, ValueText;
    var n := if r[0] == '0' then 0 else Digits1(r[1..]);
    var ds, t := r[1..][..n], r[1..][n..];
    assert r[1..] == ds + t;
    if r[0] != '0' { ManyDigits(State1, st, ds, t); }
    var f, x;
    f, x, r' := FracSound(FirstDigit(r[0]), st, t);
    v := Number(neg, [r[0]] + ds, f, x);
    assert [r[0]] + ds == if r[0] == '0' then "0" else [r[0]] + ds;
    NumberText(v, r');
    assert ([r[0]] + ds)[1..] == ds;
    assert r == [r[0]] + (ds + t);
  }
}
