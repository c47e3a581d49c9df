/** Channels between routines (vm/routinevm.go:345-438): send checks a flag before it touches the Go
    channel, close sets the flag and then closes the channel, and all of it interleaves. */
module Channels {
  import opened Wrappers

  type Id = nat
  type Val = int

  /** Where a goroutine is. Checked has found the flag unset and is in the select statement of send. */
  datatype Pc = Idle | Checked(v: Val) | Receiving | InOnce | FlagSet | WaitsForOnce

  /** What a call answered. */
  datatype Answer =
    | Sent(v: Val) | SendOnClosed(v: Val) | Received(v: Val) | GotUndefined | CloseOk | AlreadyClosed | Aborted

  datatype Once = NotYet | RunBy(t: Id) | Done

  datatype State = State(
    capacity: nat, buffer: seq<Val>, flag: bool, closed: bool, once: Once, pcs: seq<Pc>, answers: seq<Answer>)

  datatype Event =
    | Start                       // a new goroutine
    | SendCheck(t: Id, v: Val)
    | SendCommit(t: Id)           // into the buffer
    | Handoff(t: Id, r: Id)       // directly to a receiver that waits
    | SendPanics(t: Id)           // the channel is closed: the panic is recovered
    | RecvBegin(t: Id)
    | RecvTake(t: Id)
    | RecvNothing(t: Id)          // closed and empty
    | CloseBegin(t: Id)
    | CloseFlag(t: Id)
    | CloseChannel(t: Id)
    | CloseLate(t: Id)            // the other close has finished
    | AbortCall(t: Id)

  predicate Is(s: State, t: Id, pc: Pc) { t < |s.pcs| && s.pcs[t] == pc }

  predicate Sends(s: State, t: Id) { t < |s.pcs| && s.pcs[t].Checked? }

  predicate Enabled(s: State, e: Event) {
    match e
    case Start => true
    case SendCheck(t, _) => Is(s, t, Idle)
    case SendCommit(t) => Sends(s, t) && !s.closed && |s.buffer| < s.capacity
    case Handoff(t, r) => Sends(s, t) && Is(s, r, Receiving) && !s.closed && s.buffer == []
    case SendPanics(t) => Sends(s, t) && s.closed
    case RecvBegin(t) => Is(s, t, Idle)
    case RecvTake(t) => Is(s, t, Receiving) && s.buffer != []
    case RecvNothing(t) => Is(s, t, Receiving) && s.buffer == [] && s.closed
    case CloseBegin(t) => Is(s, t, Idle)
    case CloseFlag(t) => Is(s, t, InOnce)
    case CloseChannel(t) => Is(s, t, FlagSet)
    case CloseLate(t) => Is(s, t, WaitsForOnce) && s.once.Done?
    case AbortCall(t) => Sends(s, t) || Is(s, t, Receiving)
  }

  function Go(s: State, t: Id, pc: Pc): State
    requires t < |s.pcs|
  {
    s.(pcs := s.pcs[t := pc])
  }

  function Say(s: State, a: Answer): State { s.(answers := s.answers + [a]) }

  function After(s: State, e: Event): State
    requires Enabled(s, e)
  {
    match e
    case Start => s.(pcs := s.pcs + [Idle])
    case SendCheck(t, v) => if s.flag then Say(s, SendOnClosed(v)) else Go(s, t, Checked(v))
    case SendCommit(t) => Say(Go(s, t, Idle).(buffer := s.buffer + [s.pcs[t].v]), Sent(s.pcs[t].v))
    case Handoff(t, r) => Say(Say(Go(Go(s, t, Idle), r, Idle), Sent(s.pcs[t].v)), Received(s.pcs[t].v))
    case SendPanics(t) => Say(Go(s, t, Idle), SendOnClosed(s.pcs[t].v))
    case RecvBegin(t) => Go(s, t, Receiving)
    case RecvTake(t) => Say(Go(s, t, Idle).(buffer := s.buffer[1..]), Received(s.buffer[0]))
    case RecvNothing(t) => Say(Go(s, t, Idle), GotUndefined)
    case CloseBegin(t) => if s.once.NotYet? then Go(s, t, InOnce).(once := RunBy(t)) else Go(s, t, WaitsForOnce)
    case CloseFlag(t) => Go(s, t, FlagSet).(flag := true)
    case CloseChannel(t) => Say(Go(s, t, Idle).(closed := true, once := Done), CloseOk)
    case CloseLate(t) => Say(Go(s, t, Idle), AlreadyClosed)
    case AbortCall(t) => Say(Go(s, t, Idle), Aborted)
  }

  function Run(s: State, es: seq<Event>): Option<State>
    decreases |es|
  {
    if es == [] then Some(s) else if Enabled(s, es[0]) then Run(After(s, es[0]), es[1..]) else None
  }

  function Begin(capacity: nat): State { State(capacity, [], false, false, NotYet, [], []) }

  // ----- what the answers say -----

  /** The values of the successful sends, in the order they took effect, and of the receives. */
  function SentValues(answers: seq<Answer>): seq<Val>
    decreases |answers|
  {
    if answers == [] then []
    else
      var n := |answers| - 1;
      SentValues(answers[..n]) + (if answers[n].Sent? then [answers[n].v] else [])
  }

  function ReceivedValues(answers: seq<Answer>): seq<Val>
    decreases |answers|
  {
    if answers == [] then []
    else
      var n := |answers| - 1;
      ReceivedValues(answers[..n]) + (if answers[n].Received? then [answers[n].v] else [])
  }

  function Closes(answers: seq<Answer>): nat
    decreases |answers|
  {
    if answers == [] then 0
    else
      var n := |answers| - 1;
      Closes(answers[..n]) + (if answers[n].CloseOk? then 1 else 0)
  }

  lemma OneMore(answers: seq<Answer>, a: Answer)
    ensures SentValues(answers + [a]) == SentValues(answers) + (if a.Sent? then [a.v] else [])
    ensures ReceivedValues(answers + [a]) == ReceivedValues(answers) + (if a.Received? then [a.v] else [])
    ensures Closes(answers + [a]) == Closes(answers) + (if a.CloseOk? then 1 else 0)
  {
    assert (answers + [a])[..|answers|] == answers;
  }

  // ----- what every step keeps -----

  /** Only the goroutine that runs the once has closed or is closing. */
  ghost predicate OnceOk(s: State) {
    && (s.closed ==> s.flag && s.once.Done?)
    && (s.once.NotYet? ==> !s.flag)
    && (s.once.Done? ==> s.closed)
    && (forall t: nat :: t < |s.pcs| ==>
          && (s.pcs[t].InOnce? ==> s.once == RunBy(t) && !s.flag)
            && (s.pcs[t].FlagSet? ==> s.once == RunBy(t) && s.flag)
          && (s.pcs[t].WaitsForOnce? ==> !s.once.NotYet?))
    && (s.once.RunBy? ==> s.once.t < |s.pcs| && (s.pcs[s.once.t].InOnce? || s.pcs[s.once.t].FlagSet?))
  }

  predicate Conserved(s: State) {
    && ReceivedValues(s.answers) + s.buffer == SentValues(s.answers)
    && |s.buffer| <= s.capacity
    && Closes(s.answers) == (if s.closed then 1 else 0)
  }

  ghost predicate Inv(s: State) { OnceOk(s) && Conserved(s) }

  lemma OnceKept(s: State, e: Event)
    requires OnceOk(s) && Enabled(s, e)
    ensures OnceOk(After(s, e))
  {
  }

  lemma CommitKept(s: State, t: Id)
    requires Conserved(s) && Enabled(s, SendCommit(t))
    ensures Conserved(After(s, SendCommit(t)))
  {
    hide SentValues, ReceivedValues, Closes;
    var v, r, b := s.pcs[t].v, ReceivedValues(s.answers), s.buffer;
    OneMore(s.answers, Sent(v));
    assert r + [] == r && r + (b + [v]) == (r + b) + [v];
  }

  lemma HandoffKept(s: State, t: Id, r: Id)
    requires Conserved(s) && Enabled(s, Handoff(t, r))
    ensures Conserved(After(s, Handoff(t, r)))
  {
    hide SentValues, ReceivedValues, Closes;
    var v, got := s.pcs[t].v, ReceivedValues(s.answers);
    OneMore(s.answers, Sent(v));
    OneMore(s.answers + [Sent(v)], Received(v));
    assert got + [] == got && got + [] + [v] + [] == got + [v];
  }

  lemma TakeKept(s: State, t: Id)
    requires Conserved(s) && Enabled(s, RecvTake(t))
    ensures Conserved(After(s, RecvTake(t)))
  {
    hide SentValues, ReceivedValues, Closes;
    var r, b := ReceivedValues(s.answers), s.buffer;
    OneMore(s.answers, Received(b[0]));
    assert r + [b[0]] + b[1..] == r + b;
    assert SentValues(s.answers) + [] == SentValues(s.answers);
  }

  lemma CloseKept(s: State, t: Id)
    requires OnceOk(s) && Conserved(s) && Enabled(s, CloseChannel(t))
    ensures Conserved(After(s, CloseChannel(t)))
  {
    hide SentValues, ReceivedValues, Closes;
    OneMore(s.answers, CloseOk);
    assert SentValues(s.answers) + [] == SentValues(s.answers)
        && ReceivedValues(s.answers) + [] == ReceivedValues(s.answers);
  }

  /** The other answers say nothing about values. */
  lemma QuietKept(s: State, e: Event)
    requires Conserved(s) && Enabled(s, e) && !e.SendCommit? && !e.Handoff? && !e.RecvTake? && !e.CloseChannel?
    ensures Conserved(After(s, e))
  {
    hide SentValues, ReceivedValues, Closes;
    forall x: Answer | !x.Sent? && !x.Received? && !x.CloseOk?
      ensures SentValues(s.answers + [x]) == SentValues(s.answers)
              && ReceivedValues(s.answers + [x]) == ReceivedValues(s.answers)
      ensures Closes(s.answers + [x]) == Closes(s.answers)
    {
      OneMore(s.answers, x);
      assert SentValues(s.answers) + [] == SentValues(s.answers)
          && ReceivedValues(s.answers) + [] == ReceivedValues(s.answers);
    }
  }

  lemma ConservedKept(s: State, e: Event)
    requires OnceOk(s) && Conserved(s) && Enabled(s, e)
    ensures Conserved(After(s, e))
  {
    hide OnceOk, Conserved, Enabled, After;
    match e
    case SendCommit(t) => CommitKept(s, t);
    case Handoff(t, r) => HandoffKept(s, t, r);
    case RecvTake(t) => TakeKept(s, t);
    case CloseChannel(t) => CloseKept(s, t);
    case _ => QuietKept(s, e);
  }

  lemma {:induction false} InvRun(s: State, es: seq<Event>)
    requires Inv(s) && Run(s, es).Some?
    ensures Inv(Run(s, es).value)
    decreases |es|
  {
    hide Enabled, After, OnceOk, Conserved;
    if es != [] {
      OnceKept(s, es[0]);
      ConservedKept(s, es[0]);
      InvRun(After(s, es[0]), es[1..]);
    }
  }

  // ----- the guarantees -----

  /** In every interleaving: what has been received, followed by what is buffered, is exactly what has
      been sent successfully, in the order in which the sends took effect; the buffer never
      overflows; and at most one close succeeds. */
  lemma ValuesAreConserved(capacity: nat, es: seq<Event>)
    requires Run(Begin(capacity), es).Some?
    ensures var s := Run(Begin(capacity), es).value;
            && ReceivedValues(s.answers) + s.buffer == SentValues(s.answers)
            && |s.buffer| <= s.capacity
            && Closes(s.answers) == (if s.closed then 1 else 0)
  {
    hide Run;
    InvRun(Begin(capacity), es);
  }

  lemma {:induction false} StaysClosed(s: State, es: seq<Event>)
    requires s.closed && Run(s, es).Some?
    ensures Run(s, es).value.closed && SentValues(Run(s, es).value.answers) == SentValues(s.answers)
    decreases |es|
  {
    hide SentValues;
    if es != [] {
      ClosedStep(s, es[0]);
      StaysClosed(After(s, es[0]), es[1..]);
    }
  }

  lemma ClosedStep(s: State, e: Event)
    requires s.closed && Enabled(s, e)
    ensures After(s, e).closed && SentValues(After(s, e).answers) == SentValues(s.answers)
  {
    hide SentValues, ReceivedValues, Closes;
    var a := s.answers;
    forall x: Answer | !x.Sent? ensures SentValues(a + [x]) == SentValues(a) {
      OneMore(a, x);
      assert SentValues(a) + [] == SentValues(a);
    }
  }

  /** No send takes effect after the close, not even one that found the flag unset before it. */
  lemma NoSendAfterClose(s: State, es: seq<Event>)
    requires s.closed && Run(s, es).Some?
    ensures SentValues(Run(s, es).value.answers) == SentValues(s.answers)
  {
    StaysClosed(s, es);
  }

  /** A receiver gets undefined only when everything that was ever sent has been received. */
  lemma DrainedBeforeUndefined(capacity: nat, es: seq<Event>, t: Id)
    requires Run(Begin(capacity), es).Some? && Enabled(Run(Begin(capacity), es).value, RecvNothing(t))
    ensures var s := Run(Begin(capacity), es).value; s.closed && ReceivedValues(s.answers) == SentValues(s.answers)
  {
    hide Run;
    ValuesAreConserved(capacity, es);
    var s := Run(Begin(capacity), es).value;
    assert ReceivedValues(s.answers) + [] == ReceivedValues(s.answers);
  }

  lemma BeginOk(capacity: nat)
    ensures Inv(Begin(capacity))
  {
  }

  /** What the refusals say: a send is refused only once a close has set the flag, a receiver is told that
      there is nothing more, and a close that it is late, only once the channel is closed. */
  ghost predicate Meant(s: State) {
    && (SendsRefused(s.answers) ==> s.flag)
    && (GotUndefined in s.answers || AlreadyClosed in s.answers ==> s.closed)
  }

  predicate SendsRefused(answers: seq<Answer>) { exists i :: 0 <= i < |answers| && answers[i].SendOnClosed? }

  lemma MeantKept(s: State, e: Event)
    requires OnceOk(s) && Meant(s) && Enabled(s, e)
    ensures Meant(After(s, e))
  {
    var s' := After(s, e);
    assert forall x :: x in s'.answers ==> x in s.answers || x == s'.answers[|s'.answers| - 1] || e.Handoff?;
  }

  lemma {:induction false} MeantRun(s: State, es: seq<Event>)
    requires OnceOk(s) && Meant(s) && Run(s, es).Some?
    ensures Meant(Run(s, es).value)
    decreases |es|
  {
    hide Enabled, After, OnceOk, Meant;
    if es != [] {
      OnceKept(s, es[0]);
      MeantKept(s, es[0]);
      MeantRun(After(s, es[0]), es[1..]);
    }
  }

  lemma RefusalsAreTrue(capacity: nat, es: seq<Event>)
    requires Run(Begin(capacity), es).Some?
    ensures var s := Run(Begin(capacity), es).value;
            && (SendsRefused(s.answers) ==> s.flag)
            && (GotUndefined in s.answers || AlreadyClosed in s.answers ==> s.closed)
  {
    hide Run;
    BeginOk(capacity);
    MeantRun(Begin(capacity), es);
  }

  /** Once a close has set the flag, no further send gets past its check: whoever is in the middle of a
      send then was there before. */
  lemma {:induction false} NoSendPassesTheFlag(s: State, es: seq<Event>, t: Id)
    requires s.flag && Run(s, es).Some? && Sends(Run(s, es).value, t)
    ensures Sends(s, t) && s.pcs[t] == Run(s, es).value.pcs[t]
    decreases |es|
  {
    if es != [] {
      FlagStep(s, es[0], t);
      hide Enabled, After;
      NoSendPassesTheFlag(After(s, es[0]), es[1..], t);
    }
  }

  lemma FlagStep(s: State, e: Event, t: Id)
    requires s.flag && Enabled(s, e)
    ensures After(s, e).flag && (Sends(After(s, e), t) ==> Sends(s, t) && s.pcs[t] == After(s, e).pcs[t])
  {
  }

  /** A close that came second does not wait for ever: it is refused as soon as the first has
      finished, and until then the first can go on. */
  lemma CloseGoesOn(capacity: nat, es: seq<Event>, t: Id) returns (e: Event)
    requires Run(Begin(capacity), es).Some? && Is(Run(Begin(capacity), es).value, t, WaitsForOnce)
    ensures Enabled(Run(Begin(capacity), es).value, e) && (e.CloseLate? || e.CloseFlag? || e.CloseChannel?)
  {
    hide Run, Conserved;
    BeginOk(capacity);
    InvRun(Begin(capacity), es);
    var s := Run(Begin(capacity), es).value;
    if s.once.Done? {
      e := CloseLate(t);
    } else if s.pcs[s.once.t].InOnce? {
      e := CloseFlag(s.once.t);
    } else {
      e := CloseChannel(s.once.t);
    }
  }

  /** The flag is checked outside the channel: a send can pass the check and then meet the closed
      channel. */
  lemma CheckedThenClosed(v: Val)
    ensures var es := [Start, Start, SendCheck(0, v), CloseBegin(1), CloseFlag(1), CloseChannel(1), SendPanics(0)];
            var r := Run(Begin(1), es);
            r.Some? && r.value.answers == [CloseOk, SendOnClosed(v)] && r.value.buffer == []
  {
    var s1 := Begin(1).(pcs := [Idle, Idle]);
    var s3 := s1.(pcs := [Checked(v), InOnce], once := RunBy(1));
    var s5 := s1.(pcs := [Checked(v), Idle], once := Done, flag := true, closed := true, answers := [CloseOk]);
    CheckedSteps(v, s1, s3);
    ClosedSteps(v, s1, s3, s5);
    var rest := [SendPanics(0)];
    assert Run(s3, [CloseFlag(1), CloseChannel(1)] + rest) == Run(s5, rest);
    assert [CloseFlag(1), CloseChannel(1)] + rest == [CloseFlag(1), CloseChannel(1), SendPanics(0)];
    RunOn(s5, SendPanics(0), [], s5.(pcs := [Idle, Idle], answers := [CloseOk, SendOnClosed(v)]));
  }

  lemma CheckedSteps(v: Val, s1: State, s3: State)
    requires s1 == Begin(1).(pcs := [Idle, Idle]) && s3 == s1.(pcs := [Checked(v), InOnce], once := RunBy(1))
    ensures Run(Begin(1), [Start, Start, SendCheck(0, v), CloseBegin(1), CloseFlag(1), CloseChannel(1), SendPanics(0)])
            == Run(s3, [CloseFlag(1), CloseChannel(1), SendPanics(0)])
  {
    var rest := [CloseFlag(1), CloseChannel(1), SendPanics(0)];
    SendThenClose(v, s1, s3, rest);
    TwoStarts(s1, [SendCheck(0, v), CloseBegin(1)] + rest);
    assert [Start] + ([Start] + ([SendCheck(0, v), CloseBegin(1)] + rest))
        == [Start, Start, SendCheck(0, v), CloseBegin(1), CloseFlag(1), CloseChannel(1), SendPanics(0)];
  }

  lemma TwoStarts(s1: State, rest: seq<Event>)
    requires s1 == Begin(1).(pcs := [Idle, Idle])
    ensures Run(Begin(1), [Start] + ([Start] + rest)) == Run(s1, rest)
  {
    var s0 := Begin(1).(pcs := [Idle]);
    RunOn(s0, Start, rest, s1);
    RunOn(Begin(1), Start, [Start] + rest, s0);
  }

  lemma SendThenClose(v: Val, s1: State, s3: State, rest: seq<Event>)
    requires s1 == Begin(1).(pcs := [Idle, Idle]) && s3 == s1.(pcs := [Checked(v), InOnce], once := RunBy(1))
    ensures Run(s1, [SendCheck(0, v), CloseBegin(1)] + rest) == Run(s3, rest)
  {
    var s2 := s1.(pcs := [Checked(v), Idle]);
    RunOn(s2, CloseBegin(1), rest, s3);
    RunOn(s1, SendCheck(0, v), [CloseBegin(1)] + rest, s2);
    assert [SendCheck(0, v), CloseBegin(1)] + rest == [SendCheck(0, v)] + ([CloseBegin(1)] + rest);
  }

  lemma ClosedSteps(v: Val, s1: State, s3: State, s5: State)
    requires s1 == Begin(1).(pcs := [Idle, Idle]) && s3 == s1.(pcs := [Checked(v), InOnce], once := RunBy(1))
    requires s5 == s1.(pcs := [Checked(v), Idle], once := Done, flag := true, closed := true, answers := [CloseOk])
    ensures Run(s3, [CloseFlag(1), CloseChannel(1)] + [SendPanics(0)]) == Run(s5, [SendPanics(0)])
  {
    var s4 := s1.(pcs := [Checked(v), FlagSet], once := RunBy(1), flag := true);
    RunOn(s4, CloseChannel(1), [SendPanics(0)], s5);
    RunOn(s3, CloseFlag(1), [CloseChannel(1)] + [SendPanics(0)], s4);
    assert [CloseFlag(1), CloseChannel(1)] + [SendPanics(0)] == [CloseFlag(1)] + ([CloseChannel(1)] + [SendPanics(0)]);
  }

  lemma RunOn(s: State, e: Event, es: seq<Event>, s': State)
    requires Enabled(s, e) && After(s, e) == s'
    ensures Run(s, [e] + es) == Run(s', es) && Run(s', []) == Some(s')
  {
    assert ([e] + es)[1..] == es;
  }
}
