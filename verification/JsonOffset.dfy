/** The offset of a syntax error: the first byte behind which no JSON text can go on. */
module JsonOffset {
  import opened JsonScanner
  import opened JsonGrammar
  import opened JsonProof
  import opened JsonTokens
  import opened JsonTheorem

  /** The state behind the bytes x. */
  function After(s: Scan, x: Text): Scan
    decreases |x|
  {
    if x == [] then s else After(Next(s, x[0]).0, x[1..])
  }

  lemma {:induction false} AfterIs(s: Scan, x: Text, r: Text)
    requires Valid(s)
    ensures Valid(After(s, x))
    ensures s.failed ==> After(s, x).failed
    ensures Accepts(s, x + r) <==> !After(s, x).failed && Accepts(After(s, x), r)
    decreases |x|
  {
    hide Next, Accepts, Valid;
    if x == [] {
      assert x + r == r;
      if s.failed { ErrorsStick(s, r); }
    } else {
      var n := Next(s, x[0]);
      assert x + r == [x[0]] + (x[1..] + r);
      Feed(s, x[0], x[1..] + r);
      ValidKept(s, x[0]);
      AfterIs(n.0, x[1..], r);
      if n.1 == ScanError { ErrorsAreKept(s, x[0]); }
      if s.failed { ErrorsStick(s, []); }
    }
  }

  // ----- every state without an error can still be completed -----

  function Close(p: Parse): Text {
    match p
    case ParseObjectKey => ":0}"
    case ParseObjectValue => "}"
    case ParseArrayValue => "]"
  }

  /** Closes everything that is open behind a value. */
  function CloseAll(st: seq<Parse>): Text
    decreases |st|
  {
    if st == [] then [] else Close(st[|st| - 1]) + CloseAll(st[..|st| - 1])
  }

  lemma {:induction false} CloseAllAccepted(st: seq<Parse>)
    ensures Accepts(At(EndValue, st), CloseAll(st))
    decreases |st|
  {
    hide Next, Accepts;
    if st == [] {
      EndIsTop([]);
    } else {
      var n := |st| - 1;
      var rest, r := st[..n], CloseAll(st[..n]);
      assert st == rest + [st[n]];
      CloseAllAccepted(rest);
      match st[n] {
        case ParseArrayValue => ClosesArray(EndValue, rest, r);
        case ParseObjectValue => ClosesObject(rest, r);
        case ParseObjectKey =>
          ClosesObject(rest, r);
          ZeroAccepted(AtMember(rest), ['}'] + r);
          Colon(rest, ['0'] + (['}'] + r));
          assert CloseAll(st) == [':'] + (['0'] + (['}'] + r));
      }
    }
  }

  lemma ZeroAccepted(st: seq<Parse>, r: Text)
    requires Accepts(At(EndValue, st), r)
    ensures Accepts(At(BeginValue, st), ['0'] + r)
  {
    hide Next, Accepts;
    NumberEndsHere(State0, st, r);
    OnDigit(st, '0');
    Goes(At(BeginValue, st), '0', r, At(State0, st));
  }

  /** A text that completes a value in progress. */
  function Finish(step: Step): Text {
    match step
    case BeginValue => "0"
    case BeginString => "\"\""
    case InString => "\""
    case InStringEsc => "n\""
    case InStringEscU => "0000\""
    case InStringEscU1 => "000\""
    case InStringEscU12 => "00\""
    case InStringEscU123 => "0\""
    case Neg => "0"
    case Dot => "0"
    case StateE => "0"
    case ESign => "0"
    case _ => if InWord(step) then Rest(step) else ""
  }

  lemma StringCompleted(step: Step, st: seq<Parse>, r: Text)
    requires step in {InString, InStringEsc, InStringEscU, InStringEscU1, InStringEscU12, InStringEscU123}
    requires Accepts(At(EndValue, st), r)
    ensures Accepts(At(step, st), Finish(step) + r)
  {
    hide Next, Accepts;
    OnStringByte(st, 'n');
    OnHex(st, '0');
    var q := ['"'] + r;
    Goes(At(InString, st), '"', r, At(EndValue, st));
    Goes(At(InStringEsc, st), 'n', q, At(InString, st));
    Goes(At(InStringEscU123, st), '0', q, At(InString, st));
    Goes(At(InStringEscU12, st), '0', ['0'] + q, At(InStringEscU123, st));
    Goes(At(InStringEscU1, st), '0', ['0'] + (['0'] + q), At(InStringEscU12, st));
    Goes(At(InStringEscU, st), '0', ['0'] + (['0'] + (['0'] + q)), At(InStringEscU1, st));
    FinishTexts(r);
  }

  lemma FinishTexts(r: Text)
    ensures "\"" + r == ['"'] + r && "n\"" + r == ['n'] + (['"'] + r) && "0\"" + r == ['0'] + (['"'] + r)
    ensures "00\"" + r == ['0'] + (['0'] + (['"'] + r)) && "000\"" + r == ['0'] + (['0'] + (['0'] + (['"'] + r)))
    ensures "0000\"" + r == ['0'] + (['0'] + (['0'] + (['0'] + (['"'] + r))))
  {
  }

  lemma NumberCompleted(step: Step, st: seq<Parse>, r: Text)
    requires InNumber(step) && Accepts(At(EndValue, st), r)
    ensures Accepts(At(step, st), Finish(step) + r)
  {
    hide Next, Accepts;
    OnDigit(st, '0');
    if CanEnd(step) {
      NumberEndsHere(step, st, r);
      assert "" + r == r;
    } else {
      var next := if step.Neg? then State0 else if step.Dot? then Dot0 else E0;
      NumberEndsHere(next, st, r);
      Goes(At(step, st), '0', r, At(next, st));
    }
  }

  /** What can follow in a state without an error. */
  function Completion(s: Scan): Text {
    if s.step.EndTop? then []
    else if s.step.BeginValueOrEmpty? && s.stack != [] then ['0'] + CloseAll(s.stack)
    else if s.step.BeginStringOrEmpty? && s.stack != [] then ['"', '"'] + CloseAll(s.stack)
    else Finish(s.step) + CloseAll(s.stack)
  }

  /** No error so far means that the input can still become a JSON text. */
  lemma CanBeCompleted(s: Scan)
    requires Valid(s) && !s.failed
    ensures Accepts(s, Completion(s))
  {
    hide Next, Accepts, Rest, InWord;
    var st := s.stack;
    var r := CloseAll(st);
    CloseAllAccepted(st);
    if s.step.EndTop? {
      assert s == Scan(EndTop, [], true, false);
      TopAccepts([]);
    } else {
      assert s == At(s.step, st);
      match s.step {
        case BeginValue => ZeroAccepted(st, r);
        case BeginValueOrEmpty =>
          ZeroAccepted(st, r);
          FirstElement(st, '0', r);
        case BeginString => EmptyKey(BeginString, st, r);
        case BeginStringOrEmpty => EmptyKey(BeginStringOrEmpty, st, r);
        case EndValue => assert Finish(EndValue) + r == r by { NoWord(EndValue); }
        case _ =>
          if s.step in {InString, InStringEsc, InStringEscU, InStringEscU1, InStringEscU12, InStringEscU123} {
            StringCompleted(s.step, st, r);
          } else if InNumber(s.step) {
            NumberCompleted(s.step, st, r);
          } else {
            WordLeft(s.step);
            WordRest(s.step, st, r);
          }
      }
    }
  }

  lemma NoWord(step: Step)
    requires step.EndValue?
    ensures Finish(step) == ""
  {
  }

  lemma WordLeft(step: Step)
    requires step !in {InString, InStringEsc, InStringEscU, InStringEscU1, InStringEscU12, InStringEscU123}
             && !InNumber(step)
    requires step !in {BeginValue, BeginValueOrEmpty, BeginString, BeginStringOrEmpty, EndValue, EndTop, StateError}
    ensures InWord(step) && Finish(step) == Rest(step)
  {
  }

  lemma EmptyKey(step: Step, st: seq<Parse>, r: Text)
    requires step in {BeginString, BeginStringOrEmpty} && Accepts(At(EndValue, st), r)
    ensures Accepts(At(step, st), ['"', '"'] + r)
  {
    hide Next, Accepts;
    OnStringByte(st, ' ');
    Goes(At(InString, st), '"', r, At(EndValue, st));
    OpensString(step, st, ['"'] + r);
    assert ['"', '"'] + r == ['"'] + (['"'] + r);
  }

  // ----- the offset -----

  ghost predicate CanBecomeJson(x: Text) { exists r :: JsonText(x + r) }

  lemma ViableIs(x: Text)
    ensures CanBecomeJson(x) <==> !After(Start, x).failed
  {
    hide Next, Accepts, JsonText, After;
    var s := After(Start, x);
    NothingRead();
    if CanBecomeJson(x) {
      var r :| JsonText(x + r);
      AcceptsExactlyJson(x + r);
      AfterIs(Start, x, r);
    }
    if !s.failed {
      var r := Completion(s);
      AfterIs(Start, x, r);
      CanBeCompleted(s);
      AcceptsExactlyJson(x + r);
      assert JsonText(x + r);
    }
  }

  lemma {:induction false} OffsetIs(s: Scan, r: Text)
    requires Valid(s) && !s.failed
    ensures var k := Offset(s, r);
            k <= |r| && if After(s, r).failed then k > 0 && After(s, r[..k]).failed && !After(s, r[..k - 1]).failed
                else k == |r|
    decreases |r|
  {
    hide Next, Valid;
    if r != [] {
      var n := Next(s, r[0]).0;
      ValidKept(s, r[0]);
      if n.failed {
        assert r[..1][1..] == [] && r[..0] == [];
        AfterIs(n, r[1..], []);
      } else {
        OffsetIs(n, r[1..]);
        var k := Offset(n, r[1..]);
        assert r[..k + 1][1..] == r[1..][..k];
        if k > 0 { assert r[..k][1..] == r[1..][..k - 1]; }
      }
    }
  }

  /** checkValid reports the first byte that no JSON text can contain there. If it reports the length
      of the input and the input is still the beginning of a JSON text, the input ends too soon. */
  lemma ErrorOffset(data: Text)
    requires !JsonText(data)
    ensures var k := Offset(Start, data);
            && k <= |data|
            && if CanBecomeJson(data) then k == |data|
               else k > 0 && CanBecomeJson(data[..k - 1]) && !CanBecomeJson(data[..k])
  {
    hide Next, Accepts, JsonText, After, Offset, CanBecomeJson;
    NothingRead();
    OffsetIs(Start, data);
    ViableIs(data);
    var k := Offset(Start, data);
    ViableIs(data[..k]);
    if k > 0 { ViableIs(data[..k - 1]); }
  }
}
