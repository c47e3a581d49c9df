/** The byte-at-a-time JSON scanner (std/json/scanner.go). A byte is written as the character with
    its value. */
module JsonScanner {
  import opened Wrappers

  type byte = c: char | c as int < 256 witness ' '

  /** The state function to be called for the next byte. */
  datatype Step =
    | BeginValueOrEmpty | BeginValue | BeginStringOrEmpty | BeginString | EndValue | EndTop
    | InString | InStringEsc | InStringEscU | InStringEscU1 | InStringEscU12 | InStringEscU123
    | Neg | State1 | State0 | Dot | Dot0 | StateE | ESign | E0
    | StateT | StateTr | StateTru | StateF | StateFa | StateFal | StateFals | StateN | StateNu | StateNul
    | StateError

  datatype Op =
    | Continue | BeginLiteral | BeginObject | ObjectKey | ObjectValue | EndObject
    | BeginArray | ArrayValue | EndArray | SkipSpace | ScanEnd | ScanError

  datatype Parse = ParseObjectKey | ParseObjectValue | ParseArrayValue

  const MaxNestingDepth := 10000

  datatype Scan = Scan(step: Step, stack: seq<Parse>, endTop: bool, failed: bool)

  const Start := Scan(BeginValue, [], false, false)

  predicate IsSpace(c: char) { c == ' ' || c == '\t' || c == '\r' || c == '\n' }

  predicate IsDigit(c: char) { '0' <= c <= '9' }

  predicate IsHex(c: char) { IsDigit(c) || 'a' <= c <= 'f' || 'A' <= c <= 'F' }

  predicate IsEscaped(c: char) { c in {'b', 'f', 'n', 'r', 't', '\\', '/', '"'} }

  // ----- what each state function does -----

  function Fail(s: Scan): (Scan, Op) { (s.(step := StateError, failed := true), ScanError) }

  /** The outermost entry of the stack is first; at the depth limit the scan fails, but the caller
      still returns its own opcode. */
  function Push(s: Scan, p: Parse): Scan {
    if |s.stack| == MaxNestingDepth then Fail(s).0 else s.(stack := s.stack + [p])
  }

  function Pop(s: Scan): Scan
    requires s.stack != []
  {
    var rest := s.stack[..|s.stack| - 1];
    if rest == [] then s.(stack := rest, step := EndTop, endTop := true) else s.(stack := rest, step := EndValue)
  }

  function SetTop(s: Scan, p: Parse): Scan
    requires s.stack != []
  {
    s.(stack := s.stack[..|s.stack| - 1] + [p])
  }

  function Go(s: Scan, step: Step, op: Op): (Scan, Op) { (s.(step := step), op) }

  function OnBeginValue(s: Scan, c: char): (Scan, Op) {
    if IsSpace(c) then (s, SkipSpace)
    else if c == '{' then (Push(s.(step := BeginStringOrEmpty), ParseObjectKey), BeginObject)
    else if c == '[' then (Push(s.(step := BeginValueOrEmpty), ParseArrayValue), BeginArray)
    else if c == '"' then Go(s, InString, BeginLiteral)
    else if c == '-' then Go(s, Neg, BeginLiteral)
    else if c == '0' then Go(s, State0, BeginLiteral)
    else if c == 't' then Go(s, StateT, BeginLiteral)
    else if c == 'f' then Go(s, StateF, BeginLiteral)
    else if c == 'n' then Go(s, StateN, BeginLiteral)
    else if '1' <= c <= '9' then Go(s, State1, BeginLiteral)
    else Fail(s)
  }

  function OnBeginString(s: Scan, c: char): (Scan, Op) {
    if IsSpace(c) then (s, SkipSpace)
    else if c == '"' then Go(s, InString, BeginLiteral)
    else Fail(s)
  }

  /** An error is recorded, but the answer is ScanEnd all the same. */
  function OnEndTop(s: Scan, c: char): (Scan, Op) {
    (if IsSpace(c) then s else Fail(s).0, ScanEnd)
  }

  function OnEndValue(s: Scan, c: char): (Scan, Op) {
    if s.stack == [] then OnEndTop(s.(step := EndTop, endTop := true), c)
    else if IsSpace(c) then Go(s, EndValue, SkipSpace)
    else
      match s.stack[|s.stack| - 1]
      case ParseObjectKey =>
        if c == ':' then Go(SetTop(s, ParseObjectValue), BeginValue, ObjectKey) else Fail(s)
      case ParseObjectValue =>
        if c == ',' then Go(SetTop(s, ParseObjectKey), BeginString, ObjectValue)
        else if c == '}' then (Pop(s), EndObject)
        else Fail(s)
      case ParseArrayValue =>
        if c == ',' then Go(s, BeginValue, ArrayValue)
        else if c == ']' then (Pop(s), EndArray)
        else Fail(s)
  }

  function OnInString(s: Scan, c: char): (Scan, Op) {
    if c == '"' then Go(s, EndValue, Continue)
    else if c == '\\' then Go(s, InStringEsc, Continue)
    else if c < ' ' then Fail(s)
    else (s, Continue)
  }

  function OnEscape(s: Scan, c: char): (Scan, Op) {
    if IsEscaped(c) then Go(s, InString, Continue)
    else if c == 'u' then Go(s, InStringEscU, Continue)
    else Fail(s)
  }

  /** A byte that has to satisfy a condition. */
  function Need(s: Scan, good: bool, next: Step): (Scan, Op) {
    if good then Go(s, next, Continue) else Fail(s)
  }

  function OnState0(s: Scan, c: char): (Scan, Op) {
    if c == '.' then Go(s, Dot, Continue)
    else if c == 'e' || c == 'E' then Go(s, StateE, Continue)
    else OnEndValue(s, c)
  }

  function OnNumber(s: Scan, c: char): (Scan, Op) {
    match s.step
    case Neg => if c == '0' then Go(s, State0, Continue) else Need(s, '1' <= c <= '9', State1)
    case State1 => if IsDigit(c) then Go(s, State1, Continue) else OnState0(s, c)
    case State0 => OnState0(s, c)
    case Dot => Need(s, IsDigit(c), Dot0)
    case Dot0 => if IsDigit(c) then (s, Continue) else if c == 'e' || c == 'E' then Go(s, StateE, Continue)
      else OnEndValue(s, c)
    case StateE => if c == '+' || c == '-' then Go(s, ESign, Continue) else Need(s, IsDigit(c), E0)
    case ESign => Need(s, IsDigit(c), E0)
    case _ => if IsDigit(c) then (s, Continue) else OnEndValue(s, c)
  }

  predicate InNumber(step: Step) { step in {Neg, State1, State0, Dot, Dot0, StateE, ESign, E0} }

  /** The letters of true, false and null behind the first. */
  function OnLetter(s: Scan, c: char): (Scan, Op) {
    match s.step
    case StateT => Need(s, c == 'r', StateTr)
    case StateTr => Need(s, c == 'u', StateTru)
    case StateTru => Need(s, c == 'e', EndValue)
    case StateF => Need(s, c == 'a', StateFa)
    case StateFa => Need(s, c == 'l', StateFal)
    case StateFal => Need(s, c == 's', StateFals)
    case StateFals => Need(s, c == 'e', EndValue)
    case StateN => Need(s, c == 'u', StateNu)
    case StateNu => Need(s, c == 'l', StateNul)
    case _ => Need(s, c == 'l', EndValue)
  }

  /** scan.step(scan, c) */
  function Next(s: Scan, c: char): (Scan, Op) {
    match s.step
    case BeginValueOrEmpty => if c == ']' then OnEndValue(s, c) else OnBeginValue(s, c)
    case BeginValue => OnBeginValue(s, c)
    case BeginStringOrEmpty =>
      if c == '}' && s.stack != [] then OnEndValue(SetTop(s, ParseObjectValue), c) else OnBeginString(s, c)
    case BeginString => OnBeginString(s, c)
    case EndValue => OnEndValue(s, c)
    case EndTop => OnEndTop(s, c)
    case InString => OnInString(s, c)
    case InStringEsc => OnEscape(s, c)
    case InStringEscU => Need(s, IsHex(c), InStringEscU1)
    case InStringEscU1 => Need(s, IsHex(c), InStringEscU12)
    case InStringEscU12 => Need(s, IsHex(c), InStringEscU123)
    case InStringEscU123 => Need(s, IsHex(c), InString)
    case StateError => (s, ScanError)
    case _ => if InNumber(s.step) then OnNumber(s, c) else OnLetter(s, c)
  }

  /** scan.eof() answers ScanEnd. */
  predicate EofOk(s: Scan) { !s.failed && (s.endTop || Next(s, ' ').0.endTop) }

  /** checkValid, started in state s on the bytes r, finds no error. */
  predicate Accepts(s: Scan, r: seq<char>)
    decreases |r|
  {
    if r == [] then EofOk(s) else Next(s, r[0]).1 != ScanError && Accepts(Next(s, r[0]).0, r[1..])
  }

  // ----- errors stick -----

  /** What holds between two bytes: an error has been recorded exactly in the error state, a
      completed top-level value leaves nothing open, and where a key is expected an object is open. */
  predicate Valid(s: Scan) {
    && (s.failed <==> s.step.StateError?)
    && (s.step.EndTop? ==> s.endTop)
    && (s.endTop ==> s.stack == [] && (s.step.EndTop? || s.step.StateError?))
    && (s.step.BeginStringOrEmpty? || s.step.BeginString? ==> s.stack != [] && s.stack[|s.stack| - 1].ParseObjectKey?)
    && (s.step.BeginValueOrEmpty? ==> s.stack != [] && s.stack[|s.stack| - 1].ParseArrayValue?)
    && |s.stack| <= MaxNestingDepth
  }

  lemma EndValueKeeps(s: Scan, c: char)
    requires Valid(s) && !s.failed && !s.endTop
    ensures Valid(OnEndValue(s, c).0)
  {
  }

  lemma ValidKept(s: Scan, c: char)
    requires Valid(s)
    ensures Valid(Next(s, c).0)
  {
    hide OnEndValue;
    if !s.failed && !s.endTop {
      EndValueKeeps(s, c);
      if s.step.BeginStringOrEmpty? {
        EndValueKeeps(SetTop(s, ParseObjectValue).(step := EndValue), c);
        EmptyObjectEnds(s, c);
      }
    }
  }

  lemma EmptyObjectEnds(s: Scan, c: char)
    requires s.step.BeginStringOrEmpty? && s.stack != [] && Valid(s)
    ensures c == '}' ==> Valid(OnEndValue(SetTop(s, ParseObjectValue), c).0)
  {
  }

  /** Once an error is recorded every later step and the end of the input report it. */
  lemma ErrorsStick(s: Scan, r: seq<char>)
    requires Valid(s) && s.failed
    ensures forall c :: Next(s, c) == (s, ScanError)
    ensures !Accepts(s, r)
  {
  }

  /** A step that reports an error has recorded it; one that reports the end of the top-level value,
      or opens an object or array, may have recorded one as well. */
  lemma ErrorsAreRecorded(s: Scan, c: char)
    requires Valid(s) && !s.failed
    ensures Next(s, c).1 == ScanError ==> Next(s, c).0.failed
    ensures Next(s, c).0.failed ==> Next(s, c).1 in {ScanError, ScanEnd, BeginObject, BeginArray}
  {
  }

  /** How many bytes have been read when the error is recorded. */
  function Offset(s: Scan, r: seq<char>): nat
    decreases |r|
  {
    if r == [] then 0 else if Next(s, r[0]).0.failed then 1 else 1 + Offset(Next(s, r[0]).0, r[1..])
  }

  lemma ErrorsAreKept(s: Scan, c: char)
    requires Valid(s) && Next(s, c).1 == ScanError
    ensures Next(s, c).0.failed
  {
    if !s.failed { ErrorsAreRecorded(s, c); }
  }

  lemma NothingRead()
    ensures Valid(Start)
  {
  }

  lemma OneByteRead(s: Scan, data: seq<char>, i: nat)
    requires i < |data| && Valid(s)
    ensures var n := Next(s, data[i]);
            && (Accepts(s, data[i..]) <==> n.1 != ScanError && Accepts(n.0, data[i + 1..]))
            && Offset(s, data[i..]) == (if n.0.failed then 1 else 1 + Offset(n.0, data[i + 1..]))
            && (n.1 == ScanError ==> n.0.failed)
            && (s.failed ==> n.0.failed)
  {
    hide Next;
    assert data[i..][0] == data[i] && data[i..][1..] == data[i + 1..];
    if Next(s, data[i]).1 == ScanError { ErrorsAreKept(s, data[i]); }
    if s.failed { ErrorsStick(s, []); }
  }

  lemma AllRead(s: Scan, r: seq<char>)
    requires r == []
    ensures (Accepts(s, r) <==> EofOk(s)) && Offset(s, r) == 0
  {
  }

  // ----- the scanner as it works -----

  class Scanner {
    var step: Step
    var parseState: seq<Parse>
    var endTop: bool
    var err: Option<nat>       // the offset of the first error
    var bytes: nat

    ghost function St(): Scan
      reads this
    {
      Scan(step, parseState, endTop, err.Some?)
    }

    constructor ()
      ensures St() == Start && bytes == 0
    {
      step, parseState, endTop, err, bytes := BeginValue, [], false, None, 0;
    }

    method Reset()
      modifies this`step, this`parseState, this`endTop, this`err
      ensures St() == Start
    {
      step, parseState, endTop, err := BeginValue, [], false, None;
    }

    method Error() returns (op: Op)
      modifies this`step, this`err
      ensures (St(), op) == Fail(old(St()))
      ensures err == Some(bytes)
    {
      step, err := StateError, Some(bytes);
      op := ScanError;
    }

    method PushParseState(p: Parse)
      modifies this`step, this`parseState, this`err
      ensures St() == Push(old(St()), p)
      ensures old(err).None? && err.Some? ==> err == Some(bytes)
    {
      if |parseState| == MaxNestingDepth {
        var _ := Error();
        return;
      }
      parseState := parseState + [p];
    }

    method PopParseState()
      requires parseState != []
      modifies this`step, this`parseState, this`endTop
      ensures St() == Pop(old(St()))
    {
      parseState := parseState[..|parseState| - 1];
      if parseState == [] {
        step, endTop := EndTop, true;
      } else {
        step := EndValue;
      }
    }

    method StateBeginValue(c: byte) returns (op: Op)
      requires err.None?
      modifies this
      ensures (St(), op) == OnBeginValue(old(St()), c)
      ensures bytes == old(bytes) && (err.Some? ==> err == Some(bytes))
    {
      if IsSpace(c) { return SkipSpace; }
      match c {
        case '{' =>
        step := BeginStringOrEmpty;
        PushParseState(ParseObjectKey);
        return BeginObject;
        case '[' =>
        step := BeginValueOrEmpty;
        PushParseState(ParseArrayValue);
        return BeginArray;
        case '"' => step := InString;
        case '-' => step := Neg;
        case '0' => step := State0;
        case 't' => step := StateT;
        case 'f' => step := StateF;
        case 'n' => step := StateN;
        case _ =>
        if '1' <= c <= '9' {
          step := State1;
        } else {
          op := Error();
          return;
        }
      }
      op := BeginLiteral;
    }

    method StateEndTop(c: byte) returns (op: Op)
      requires err.None?
      modifies this
      ensures (St(), op) == OnEndTop(old(St()), c)
      ensures bytes == old(bytes) && (err.Some? ==> err == Some(bytes))
    {
      if !IsSpace(c) {
        var _ := Error();
      }
      op := ScanEnd;
    }

    method StateEndValue(c: byte) returns (op: Op)
      requires err.None?
      modifies this
      ensures (St(), op) == OnEndValue(old(St()), c)
      ensures bytes == old(bytes) && (err.Some? ==> err == Some(bytes))
    {
      var n := |parseState|;
      if n == 0 {
        step, endTop := EndTop, true;
        op := StateEndTop(c);
        return;
      }
      if IsSpace(c) {
        step := EndValue;
        return SkipSpace;
      }
      match parseState[n - 1] {
        case ParseObjectKey =>
          if c == ':' {
            parseState := parseState[..n - 1] + [ParseObjectValue];
            step := BeginValue;
            return ObjectKey;
          }
        case ParseObjectValue =>
          if c == ',' {
            parseState := parseState[..n - 1] + [ParseObjectKey];
            step := BeginString;
            return ObjectValue;
          }
          if c == '}' {
            PopParseState();
            return EndObject;
          }
        case ParseArrayValue =>
          if c == ',' {
            step := BeginValue;
            return ArrayValue;
          }
          if c == ']' {
            PopParseState();
            return EndArray;
          }
      }
      op := Error();
    }

    method StateBeginString(c: byte) returns (op: Op)
      requires err.None?
      modifies this
      ensures (St(), op) == OnBeginString(old(St()), c)
      ensures bytes == old(bytes) && (err.Some? ==> err == Some(bytes))
    {
      if IsSpace(c) { return SkipSpace; }
      if c == '"' {
        step := InString;
        return BeginLiteral;
      }
      op := Error();
    }

    /** Whatever else the state functions do with one byte. */
    method StateOther(c: byte) returns (op: Op)
      requires err.None? && step != EndValue && step != EndTop && step != BeginValue && step != BeginValueOrEmpty
      requires step.BeginStringOrEmpty? || step.BeginString? ==> parseState != []
      modifies this
      ensures (St(), op) == Next(old(St()), c)
      ensures bytes == old(bytes) && (err.Some? ==> err == Some(bytes))
    {
      op := Continue;
      match step {
        case BeginStringOrEmpty =>
          if c == '}' {
            parseState := parseState[..|parseState| - 1] + [ParseObjectValue];
            op := StateEndValue(c);
          } else {
            op := StateBeginString(c);
          }
        case BeginString => op := StateBeginString(c);
        case InString =>
          if c == '"' { step := EndValue; }
          else if c == '\\' { step := InStringEsc; }
          else if c < ' ' { op := Error(); }
        case InStringEsc =>
          if IsEscaped(c) { step := InString; }
          else if c == 'u' { step := InStringEscU; }
          else { op := Error(); }
        case InStringEscU => if IsHex(c) { step := InStringEscU1; } else { op := Error(); }
        case InStringEscU1 => if IsHex(c) { step := InStringEscU12; } else { op := Error(); }
        case InStringEscU12 => if IsHex(c) { step := InStringEscU123; } else { op := Error(); }
        case InStringEscU123 => if IsHex(c) { step := InString; } else { op := Error(); }
        case Neg | State1 | State0 | Dot | Dot0 | StateE | ESign | E0 => op := StateNumber(c);
        case StateT => op := Letter(c, 'r', StateTr);
        case StateTr => op := Letter(c, 'u', StateTru);
        case StateTru => op := Letter(c, 'e', EndValue);
        case StateF => op := Letter(c, 'a', StateFa);
        case StateFa => op := Letter(c, 'l', StateFal);
        case StateFal => op := Letter(c, 's', StateFals);
        case StateFals => op := Letter(c, 'e', EndValue);
        case StateN => op := Letter(c, 'u', StateNu);
        case StateNu => op := Letter(c, 'l', StateNul);
        case StateNul => op := Letter(c, 'l', EndValue);
        case StateError => op := ScanError;
      }
    }

    method Letter(c: byte, want: char, next: Step) returns (op: Op)
      requires err.None?
      modifies this
      ensures (St(), op) == Need(old(St()), c == want, next)
      ensures bytes == old(bytes) && (err.Some? ==> err == Some(bytes))
    {
      if c == want {
        step := next;
        op := Continue;
      } else {
        op := Error();
      }
    }

    method StateNumber(c: byte) returns (op: Op)
      requires err.None? && InNumber(step)
      modifies this
      ensures (St(), op) == OnNumber(old(St()), c)
      ensures bytes == old(bytes) && (err.Some? ==> err == Some(bytes))
    {
      op := Continue;
      if IsDigit(c) && step == Neg {
        step := if c == '0' then State0 else State1;
      } else if IsDigit(c) && step in {State1, Dot0, E0} {
        // one more digit
      } else if IsDigit(c) && step == Dot {
        step := Dot0;
      } else if IsDigit(c) && step in {StateE, ESign} {
        step := E0;
      } else if c == '.' && step in {State1, State0} {
        step := Dot;
      } else if (c == 'e' || c == 'E') && step in {State1, State0, Dot0} {
        step := StateE;
      } else if (c == '+' || c == '-') && step == StateE {
        step := ESign;
      } else if step in {State1, State0, Dot0, E0} {
        op := StateEndValue(c);
      } else {
        op := Error();
      }
    }

    method StateBeginValueOrEmpty(c: byte) returns (op: Op)
      requires err.None?
      modifies this
      ensures (St(), op) == if c == ']' then OnEndValue(old(St()), c) else OnBeginValue(old(St()), c)
      ensures bytes == old(bytes) && (err.Some? ==> err == Some(bytes))
    {
      if c == ']' {
        op := StateEndValue(c);
      } else {
        op := StateBeginValue(c);
      }
    }

    /** step(scan, c) */
    method DoStep(c: byte) returns (op: Op)
      requires Valid(St())
      modifies this
      ensures (St(), op) == Next(old(St()), c) && Valid(St())
      ensures bytes == old(bytes) && (if old(err).Some? then err == old(err) else err.Some? ==> err == Some(bytes))
    {
      ValidKept(St(), c);
      match step {
        case BeginValueOrEmpty => op := StateBeginValueOrEmpty(c);
        case BeginValue => op := StateBeginValue(c);
        case EndValue => op := StateEndValue(c);
        case EndTop => op := StateEndTop(c);
        case StateError => op := ScanError;
        case _ => op := StateOther(c);
      }
    }

    method Eof() returns (op: Op)
      requires Valid(St())
      modifies this
      ensures op == if EofOk(old(St())) then ScanEnd else ScanError
      ensures op == ScanError ==> err == if old(err).Some? then old(err) else Some(bytes)
      ensures bytes == old(bytes)
    {
      if err.Some? { return ScanError; }
      if endTop { return ScanEnd; }
      var _ := DoStep(' ');
      if endTop { return ScanEnd; }
      if err.None? { err := Some(bytes); }
      op := ScanError;
    }

    method CheckValid(data: seq<byte>) returns (ok: bool)
      modifies this
      ensures ok <==> Accepts(Start, data)
      ensures !ok ==> err == Some(old(bytes) + Offset(Start, data))
    {
      hide Next, EofOk, Accepts, Offset, Valid;
      NothingRead();
      Reset();
      assert data[0..] == data;
      var i := 0;
      while i < |data|
        invariant i <= |data| && bytes == old(bytes) + i && Valid(St())
        invariant Accepts(St(), data[i..]) <==> Accepts(Start, data)
        invariant err.None? ==> i + Offset(St(), data[i..]) == Offset(Start, data)
        invariant err.Some? ==> err == Some(old(bytes) + Offset(Start, data))
      {
        ghost var s := St();
        OneByteRead(s, data, i);
        bytes := bytes + 1;
        var op := DoStep(data[i]);
        if op == ScanError { return false; }
        i := i + 1;
      }
      AllRead(St(), data[i..]);
      var op := Eof();
      ok := op == ScanEnd;
    }
  }
}
