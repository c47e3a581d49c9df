/** What the protocol of Abort, addChild, delChild and RunCompiled guarantees over all
    interleavings. */
module AbortProperties {
  import opened Wrappers
  import opened AbortTree

  predicate InProgress(s: State, v: Id) {
    v < |s| && (s[v].abort.WaitsForLock? || s[v].abort.Visiting?)
  }

  // ----- an abort reaches every registered descendant -----

  /** d is v or is reached from v through the maps of children. */
  predicate RegisteredBelow(s: State, v: Id, d: Id)
    decreases d
  {
    d < |s| && (d == v || (s[d].parent.Some? && s[d].parent.value < d && s[d].parent.value < |s|
                           && d in s[s[d].parent.value].children && RegisteredBelow(s, v, s[d].parent.value)))
  }

  ghost predicate NoneBelow(s: State, v: Id) {
    forall u :: 0 <= u < |s| && RegisteredBelow(s, v, u) ==> !InProgress(s, u)
  }

  lemma {:induction false} AbortedBelow(s: State, v: Id, d: Id)
    requires Inv(s) && v < |s| && s[v].Aborting() && RegisteredBelow(s, v, d) && NoneBelow(s, v)
    ensures s[d].Aborting()
    decreases d
  {
    hide Tree, Locks, Kids, Counts;
    if d != v {
      var p := s[d].parent.value;
      AbortedBelow(s, v, p);
      assert Passed(s, p, d);
    }
  }

  /** Where no Abort body is in progress, an aborted machine has only aborted registered
      descendants. */
  lemma AbortReachesDescendants(s: State, v: Id, d: Id)
    requires Reachable(s) && v < |s| && s[v].Aborting() && RegisteredBelow(s, v, d) && NoneBelow(s, v)
    ensures s[d].Aborting()
  {
    hide Reachable, Inv, NoneBelow, RegisteredBelow;
    InvReachable(s);
    AbortedBelow(s, v, d);
  }

  // ----- registration against abort -----

  /** A registration that got past the check of `aborting` may complete after the machine is marked,
      but then the Abort body is still waiting for the lock and has the child before it. */
  lemma LateChildIsPending(s: State, n: Id)
    requires Reachable(s) && Enabled(s, AddInsert(n))
    ensures var p := s[n].pc.p;
            s[p].Aborting() ==> s[p].abort.WaitsForLock?
  {
    hide Reachable, Tree, Locks, Kids, Counts;
    InvReachable(s);
    assert AddOk(s, n);
  }

  /** The children that the Abort body of v turns to in a run. */
  function VisitsOf(es: seq<Event>, v: Id): multiset<Id> {
    if es == [] then multiset{}
    else (if es[0].AbortVisit? && es[0].v == v then multiset{es[0].c} else multiset{}) + VisitsOf(es[1..], v)
  }

  /** One event between taking and giving back the lock. */
  lemma VisitStep(s: State, e: Event, v: Id)
    requires v < |s| && s[v].abort.Visiting? && Enabled(s, e)
    ensures v < |After(s, e)|
    ensures var a, a' := s[v].abort, After(s, e)[v].abort;
            if e.AbortVisit? && e.v == v then
              a'.Visiting? && e.c in a.todo && a'.todo == a.todo - {e.c} && e.c < |After(s, e)|
                  && After(s, e)[e.c].Aborting()
            else if e == AbortUnlock(v) then a'.Over? && a.todo == {}
            else a'.Visiting? && a'.todo == a.todo
  {
  }

  lemma OverStays(s: State, e: Event, v: Id)
    requires v < |s| && s[v].abort.Over? && Enabled(s, e)
    ensures v < |After(s, e)| && After(s, e)[v].abort.Over? && !(e.AbortVisit? && e.v == v)
  {
  }

  lemma {:induction false} NoVisits(s: State, es: seq<Event>, v: Id)
    requires v < |s| && s[v].abort.Over? && Run(s, es).Some?
    ensures VisitsOf(es, v) == multiset{}
    decreases |es|
  {
    hide Enabled, After;
    if es != [] {
      OverStays(s, es[0], v);
      NoVisits(After(s, es[0]), es[1..], v);
    }
  }

  lemma {:induction false} StaysMarkedAll(s: State, es: seq<Event>, v: Id)
    requires v < |s| && s[v].Aborting() && Run(s, es).Some?
    ensures v < |Run(s, es).value| && Run(s, es).value[v].Aborting()
    decreases |es|
  {
    hide Enabled, After;
    if es != [] {
      StaysMarked(s, es[0], v);
      StaysMarkedAll(After(s, es[0]), es[1..], v);
    }
  }

  lemma {:induction false} VisitsRest(s: State, es: seq<Event>, v: Id)
    requires v < |s| && s[v].abort.Visiting? && Run(s, es).Some?
    requires v < |Run(s, es).value| && Run(s, es).value[v].abort.Over?
    ensures VisitsOf(es, v) == multiset(s[v].abort.todo)
    ensures forall c <- s[v].abort.todo :: c < |Run(s, es).value| && Run(s, es).value[c].Aborting()
    decreases |es|
  {
    hide Enabled, After;
    var todo, s' := s[v].abort.todo, After(s, es[0]);
    VisitStep(s, es[0], v);
    if es[0] == AbortUnlock(v) {
      NoVisits(s', es[1..], v);
    } else {
      VisitsRest(s', es[1..], v);
      if es[0].AbortVisit? && es[0].v == v {
        StaysMarkedAll(s', es[1..], es[0].c);
        assert multiset(todo) == multiset{es[0].c} + multiset(todo - {es[0].c});
      }
    }
  }

  /** Between taking the lock and giving it back, whatever else happens, the Abort body turns exactly once
      to each child that was registered when it took the lock and to nothing else; at the end all of them
      are aborting. */
  lemma AbortVisitsAll(s: State, v: Id, es: seq<Event>)
    requires Enabled(s, AbortLock(v)) && Run(After(s, AbortLock(v)), es).Some?
    requires var t := Run(After(s, AbortLock(v)), es).value; v < |t| && t[v].abort.Over?
    ensures VisitsOf(es, v) == multiset(s[v].children)
    ensures var t := Run(After(s, AbortLock(v)), es).value; forall c <- s[v].children :: c < |t| && t[c].Aborting()
  {
    var s' := After(s, AbortLock(v));
    assert s'[v].abort == Visiting(s[v].children, None);
    hide After, Enabled;
    VisitsRest(s', es, v);
  }

  /** The children in the order in which the Abort body of v turns to them. */
  function VisitOrder(es: seq<Event>, v: Id): (cs: seq<Id>)
    ensures multiset(cs) == VisitsOf(es, v)
  {
    if es == [] then []
    else
      var rest := VisitOrder(es[1..], v);
      if es[0].AbortVisit? && es[0].v == v then
        assert multiset([es[0].c] + rest) == multiset{es[0].c} + multiset(rest);
        [es[0].c] + rest
      else rest
  }

  lemma NativeStays(s: State, e: Event, c: Id)
    requires c < |s| && Enabled(s, e)
    ensures c < |After(s, e)| && After(s, e)[c].native == s[c].native
  {
  }

  lemma {:induction false} NativeRun(s: State, es: seq<Event>, c: Id)
    requires c < |s| && Run(s, es).Some?
    ensures c < |Run(s, es).value| && Run(s, es).value[c].native == s[c].native
    decreases |es|
  {
    hide Enabled, After;
    if es != [] {
      NativeStays(s, es[0], c);
      NativeRun(After(s, es[0]), es[1..], c);
    }
  }

  lemma NativesLast(s: State, e: Event)
    requires Enabled(s, e) && e.AbortVisit? && e.v < |s| && s[e.v].abort.Visiting?
    ensures e.c in s[e.v].abort.todo && e.c < |s|
    ensures s[e.c].native ==> forall d <- s[e.v].abort.todo :: d < |s| && s[d].native
  {
  }

  lemma {:induction false} OrderRest(s: State, es: seq<Event>, v: Id)
    requires v < |s| && s[v].abort.Visiting? && Run(s, es).Some?
    requires v < |Run(s, es).value| && Run(s, es).value[v].abort.Over?
    ensures var cs, t := VisitOrder(es, v), Run(s, es).value;
            && (forall i :: 0 <= i < |cs| ==> cs[i] < |t|)
            && forall i, j :: 0 <= i < j < |cs| && t[cs[i]].native ==> t[cs[j]].native
    decreases |es|
  {
    hide Enabled, After;
    var s' := After(s, es[0]);
    VisitStep(s, es[0], v);
    if es[0] == AbortUnlock(v) {
      NoVisits(s', es[1..], v);
      assert multiset(VisitOrder(es, v)) == multiset{} && |VisitOrder(es, v)| == 0;
    } else {
      OrderRest(s', es[1..], v);
      if es[0].AbortVisit? && es[0].v == v {
        NativesLast(s, es[0]);
        OrderFirst(s, es, v);
        assert VisitOrder(es, v) == [es[0].c] + VisitOrder(es[1..], v);
      } else {
        assert VisitOrder(es, v) == VisitOrder(es[1..], v);
      }
    }
  }

  /** The first visit is to a machine, or all are to native calls. */
  lemma OrderFirst(s: State, es: seq<Event>, v: Id)
    requires v < |s| && s[v].abort.Visiting? && Run(s, es).Some? && es != [] && es[0].AbortVisit? && es[0].v == v
    requires v < |Run(s, es).value| && Run(s, es).value[v].abort.Over?
    requires es[0].c < |s| && (s[es[0].c].native ==> forall d <- s[v].abort.todo :: d < |s| && s[d].native)
    ensures var t, rest := Run(s, es).value, VisitOrder(es[1..], v);
            es[0].c < |t| && forall j :: 0 <= j < |rest| && t[es[0].c].native ==> rest[j] < |t| && t[rest[j]].native
  {
    hide Enabled, After;
    var t, rest := Run(s, es).value, VisitOrder(es[1..], v);
    NativeRun(s, es, es[0].c);
    VisitStep(s, es[0], v);
    VisitsRest(After(s, es[0]), es[1..], v);
    forall j | 0 <= j < |rest| && t[es[0].c].native ensures rest[j] < |t| && t[rest[j]].native {
      assert rest[j] in multiset(rest);
      NativeRun(s, es, rest[j]);
    }
  }

  /** Child machines are aborted before native calls are cancelled. */
  lemma MachinesFirst(s: State, v: Id, es: seq<Event>)
    requires Enabled(s, AbortLock(v)) && Run(After(s, AbortLock(v)), es).Some?
    requires var t := Run(After(s, AbortLock(v)), es).value; v < |t| && t[v].abort.Over?
    ensures var cs, t := VisitOrder(es, v), Run(After(s, AbortLock(v)), es).value;
            forall i, j :: 0 <= i < j < |cs| ==>
              cs[i] < |t| && cs[j] < |t| && (t[cs[i]].native ==> t[cs[j]].native)
  {
    var s' := After(s, AbortLock(v));
    assert s'[v].abort.Visiting?;
    hide After, Enabled;
    OrderRest(s', es, v);
  }

  /** A machine marked as aborting can get a new child after that. */
  lemma LateChild()
    ensures var es := [Clone(0, 0, false), AddLock(0, 1), AddLoad(0), AbortCas(0), AddCount(0)];
            var s := Run(Start, es);
            && s.Some? && Enabled(s.value, AddInsert(0)) && s.value[0].Aborting() && s.value[0].children == {}
            && After(s.value, AddInsert(0))[0].children == {1}
  {
    var root, child := Start[0], Node(Some(0), false, Fresh(0), Never, None, {}, 0);
    var held := root.(lock := Some(By(0)));
    var s1 := [root, child];
    var s2 := [held.(pc := Add(0, 1, AddLocked)), child];
    var s3 := [held.(pc := Add(0, 1, AddPassed)), child];
    var s4 := [held.(pc := Add(0, 1, AddPassed), abort := WaitsForLock), child];
    var s5 := [held.(pc := Add(0, 1, AddCounted), abort := WaitsForLock, wg := 1), child.(pc := Registered(0))];
    LateClone(s1, s2, s3);
    LateInsert(s3, s4, s5);
    RunFive(Start, Clone(0, 0, false), AddLock(0, 1), AddLoad(0), AbortCas(0), AddCount(0));
  }

  lemma LateClone(s1: State, s2: State, s3: State)
    requires var root, child := Start[0], Node(Some(0), false, Fresh(0), Never, None, {}, 0);
             var held := root.(lock := Some(By(0)));
             && s1 == [root, child] && s2 == [held.(pc := Add(0, 1, AddLocked)), child]
             && s3 == [held.(pc := Add(0, 1, AddPassed)), child]
    ensures Enabled(Start, Clone(0, 0, false)) && After(Start, Clone(0, 0, false)) == s1
    ensures Enabled(s1, AddLock(0, 1)) && After(s1, AddLock(0, 1)) == s2
    ensures Enabled(s2, AddLoad(0)) && After(s2, AddLoad(0)) == s3
  {
  }

  lemma LateInsert(s3: State, s4: State, s5: State)
    requires var held, child := Start[0].(lock := Some(By(0))), Node(Some(0), false, Fresh(0), Never, None, {}, 0);
             && s3 == [held.(pc := Add(0, 1, AddPassed)), child]
             && s4 == [held.(pc := Add(0, 1, AddPassed), abort := WaitsForLock), child]
             && s5 == [held.(pc := Add(0, 1, AddCounted), abort := WaitsForLock, wg := 1), child.(pc := Registered(0))]
    ensures Enabled(s3, AbortCas(0)) && After(s3, AbortCas(0)) == s4
    ensures Enabled(s4, AddCount(0)) && After(s4, AddCount(0)) == s5
    ensures Enabled(s5, AddInsert(0)) && After(s5, AddInsert(0))[0].children == {1}
  {
  }

  lemma RunFive(s: State, a: Event, b: Event, c: Event, d: Event, e: Event)
    requires Enabled(s, a)
    requires var s1 := After(s, a); Enabled(s1, b) && var s2 := After(s1, b); Enabled(s2, c) && var s3 := After(s2, c);
             Enabled(s3, d) && Enabled(After(s3, d), e)
    ensures Run(s, [a, b, c, d, e]) == Some(After(After(After(After(After(s, a), b), c), d), e))
  {
    hide Enabled, After;
    var s1 := After(s, a);
    var s2 := After(s1, b);
    var s3 := After(s2, c);
    var s4 := After(s3, d);
    RunFirst(s4, e, []);
    RunFirst(s3, d, [e]);
    RunFirst(s2, c, [d, e]);
    RunFirst(s1, b, [c, d, e]);
    RunFirst(s, a, [b, c, d, e]);
  }

  lemma RunFirst(s: State, e: Event, es: seq<Event>)
    requires Enabled(s, e)
    ensures Run(s, [e] + es) == Run(After(s, e), es)
    ensures Run(s, []) == Some(s) && Run(After(s, e), []) == Some(After(s, e))
  {
    hide Enabled, After;
    assert ([e] + es)[1..] == es;
  }

  /** The body holds the lock, or is over. */
  predicate LockTaken(s: State, v: Id) { v < |s| && (s[v].abort.Visiting? || s[v].abort.Over?) }

  lemma ClosedStep(s: State, e: Event, v: Id)
    requires Inv(s) && Enabled(s, e) && LockTaken(s, v)
    ensures LockTaken(After(s, e), v) && After(s, e)[v].children <= s[v].children
  {
    hide Tree, Locks, Kids, Counts;
    if e.AddInsert? { assert AddOk(s, e.n); }
  }

  /** Once the Abort body has had the lock, no run registers another child. */
  lemma {:induction false} NoChildAfterLock(s: State, es: seq<Event>, v: Id)
    requires Reachable(s) && LockTaken(s, v) && Run(s, es).Some?
    ensures LockTaken(Run(s, es).value, v) && Run(s, es).value[v].children <= s[v].children
  {
    hide Reachable, Run;
    InvReachable(s);
    ClosedRun(s, es, v);
  }

  lemma {:induction false} ClosedRun(s: State, es: seq<Event>, v: Id)
    requires Inv(s) && LockTaken(s, v) && Run(s, es).Some?
    ensures LockTaken(Run(s, es).value, v) && Run(s, es).value[v].children <= s[v].children
    decreases |es|
  {
    hide Inv, After, Enabled;
    if es != [] {
      InvKept(s, es[0]);
      ClosedStep(s, es[0], v);
      ClosedRun(After(s, es[0]), es[1..], v);
    }
  }

  // ----- waiting for the subtree -----

  predicate Below(s: State, p: Id, d: Id)
    decreases d
  {
    d < |s| && s[d].parent.Some? && s[d].parent.value < d && (s[d].parent.value == p || Below(s, p, s[d].parent.value))
  }

  /** It has finished, or was never started. */
  predicate Idle(s: State, d: Id) {
    d < |s| && (s[d].pc.Finished? || s[d].pc.Fresh? || s[d].pc.Dropped?)
  }

  /** When RunCompiled has returned, nothing below it runs any more. */
  lemma {:induction false} SubtreeFinished(s: State, p: Id, d: Id)
    requires Reachable(s) && p < |s| && s[p].Left() && Below(s, p, d)
    ensures Idle(s, d)
    decreases d
  {
    hide Reachable, Locks, Kids, Aborts, Live;
    InvReachable(s);
    var q := s[d].parent.value;
    if q != p { SubtreeFinished(s, p, q); }
    assert NodeOk(s, d) && CountOk(s, q);
    NotLive(s, q, d);
  }

  lemma NotLive(s: State, p: Id, c: Id)
    requires c < |s| && s[c].parent == Some(p) && Live(s, p) == {}
    ensures !s[c].Counted()
  {
    assert !s[c].Counted() || c in Live(s, p);
  }

  /** The wait group counts the registered children that have not finished. */
  lemma WaitGroupIsExact(s: State, p: Id)
    requires Reachable(s) && p < |s|
    ensures s[p].wg == |Live(s, p)|
    ensures Enabled(s, WaitOver(p)) <==> s[p].pc.Waiting? && Live(s, p) == {}
  {
    hide Reachable, Tree, Locks, Kids, Aborts, Live;
    InvReachable(s);
    assert CountOk(s, p);
  }

  // ----- locks -----

  /** An Abort body that holds a lock and is inside another one went from a parent to its child. */
  lemma NestedParentToChild(s: State, v: Id)
    requires Reachable(s) && v < |s| && s[v].abort.Visiting? && s[v].abort.inner.Some?
    ensures var c := s[v].abort.inner.value;
            v < c < |s| && s[c].parent == Some(v) && s[v].lock == Some(Aborter)
  {
    hide Reachable, Kids, Counts;
    InvReachable(s);
    var c := s[v].abort.inner.value;
    assert AbortOk(s, v) && NodeOk(s, c) && LockOk(s, v);
  }

  /** What a goroutine does next while it holds a lock, or to get the lock for an Abort body. */
  predicate Critical(e: Event) {
    e.AddLoad? || e.AddCount? || e.AddInsert? || e.AddUnlock? || e.DelRemove? || e.DelUnlock?
    || e.AbortLock? || e.AbortVisit? || e.AbortReturn? || e.AbortUnlock?
  }

  lemma {:induction false} HolderMoves(s: State, p: Id) returns (e: Event)
    requires Inv(s) && p < |s| && s[p].lock.Some?
    ensures Critical(e) && Enabled(s, e)
    decreases |s| - p
  {
    hide Counts;
    assert LockOk(s, p);
    match s[p].lock.value
    case By(n) =>
      assert Holds(s, n, p) && NodeOk(s, n);
      e := CallMoves(s, n, p);
    case Aborter =>
      assert AbortOk(s, p);
      e := BodyMoves(s, p);
  }

  lemma CallMoves(s: State, n: Id, p: Id) returns (e: Event)
    requires p < |s| && Holds(s, n, p) && NodeOk(s, n)
    ensures Critical(e) && Enabled(s, e)
  {
    match s[n].pc
    case Add(_, _, stage) =>
      e := match stage
           case AddLocked => AddLoad(n)
           case AddPassed => AddCount(n)
           case AddCounted => AddInsert(n)
           case _ => AddUnlock(n);
    case Del(stage) => e := if stage.DelLocked? then DelRemove(n) else DelUnlock(n);
  }

  lemma {:induction false} BodyMoves(s: State, v: Id) returns (e: Event)
    requires Inv(s) && v < |s| && s[v].abort.Visiting?
    ensures Critical(e) && Enabled(s, e)
    decreases |s| - v, 0
  {
    hide Counts, Locks, Tree;
    assert AbortOk(s, v);
    if s[v].abort.inner.None? {
      e := NextVisit(s, v);
    } else {
      var c := s[v].abort.inner.value;
      assert NodeOk(s, c) by { InnerIsNode(s, v); }
      if s[c].abort.Over? {
        e := AbortReturn(v);
      } else if s[c].lock.Some? {
        e := HolderMoves(s, c);
      } else {
        FreeLock(s, c);
        e := AbortLock(c);
      }
    }
  }

  lemma InnerIsNode(s: State, v: Id)
    requires Tree(s) && v < |s| && s[v].abort.Visiting? && s[v].abort.inner.Some? && AbortOk(s, v)
    ensures var c := s[v].abort.inner.value; NodeOk(s, c) && v < c
  {
    assert NodeOk(s, s[v].abort.inner.value);
  }

  lemma FreeLock(s: State, c: Id)
    requires Locks(s) && c < |s| && s[c].lock.None?
    ensures !s[c].abort.Visiting?
  {
    assert LockOk(s, c);
  }

  /** A body that is not inside a child's can visit the next child, machines first, or unlock. */
  lemma NextVisit(s: State, v: Id) returns (e: Event)
    requires Kids(s) && v < |s| && s[v].abort.Visiting? && s[v].abort.inner.None? && AbortOk(s, v)
    ensures Critical(e) && Enabled(s, e)
  {
    var todo := s[v].abort.todo;
    forall c | c in todo
      ensures c < |s|
    {
      assert KidOk(s, v, c);
    }
    if todo == {} {
      e := AbortUnlock(v);
    } else if c :| c in todo && !s[c].native {
      e := AbortVisit(v, c);
    } else {
      var c :| c in todo;
      e := AbortVisit(v, c);
    }
  }

  // ----- critical sections come to an end -----

  function StageWork(pc: Pc): nat {
    match pc
    case Add(_, _, stage) =>
      (match stage case AddLocked => 4 case AddPassed => 3 case AddCounted => 2 case _ => 1)
    case Del(stage) => if stage.DelLocked? then 2 else if stage.DelRemoved? then 1 else 0
    case _ => 0
  }

  /** The steps of an Abort body still to come, when it can have at most n children. */
  function BodyWork(a: Abort, n: nat): nat {
    match a
    case Never => 2 * n + 3
    case WaitsForLock => 2 * n + 2
    case Visiting(todo, inner) => 1 + 2 * |todo| + (if inner.Some? then 1 else 0)
    case Over => 0
  }

  function NodeWork(x: Node, n: nat): nat { StageWork(x.pc) + BodyWork(x.abort, n) }

  function Work(s: State, n: nat): nat {
    if s == [] then 0 else NodeWork(s[0], n) + Work(s[1..], n)
  }

  lemma {:induction false} WorkChanged(s: State, i: Id, x: Node, n: nat)
    requires i < |s|
    ensures Work(s[i := x], n) == Work(s, n) - NodeWork(s[i], n) + NodeWork(x, n)
    decreases |s|
  {
    hide NodeWork;
    var s' := s[i := x];
    if i == 0 {
      assert s'[1..] == s[1..];
    } else {
      assert s'[1..] == s[1..][i - 1 := x];
      WorkChanged(s[1..], i - 1, x, n);
    }
  }

  lemma WorkAdding(s: State, e: Event, n: nat)
    requires e.AddLoad? || e.AddCount? || e.AddInsert? || e.AddUnlock?
    requires Inv(s) && Enabled(s, e)
    ensures Work(After(s, e), n) < Work(s, n)
  {
    hide Locks, Kids, Aborts, Counts, Work;
    assert NodeOk(s, e.n);
    var s', m, p, c := After(s, e), e.n, s[e.n].pc.p, s[e.n].pc.c;
    var s1 := s[p := s'[p].(pc := s[p].pc)];
    var s2 := s1[c := s'[c]];
    WorkChanged(s, p, s1[p], n);
    WorkChanged(s1, c, s2[c], n);
    WorkChanged(s2, m, s'[m], n);
    assert s' == s2[m := s'[m]];
  }

  lemma WorkDeleting(s: State, e: Event, n: nat)
    requires e.DelRemove? || e.DelUnlock?
    requires Inv(s) && Enabled(s, e)
    ensures Work(After(s, e), n) < Work(s, n)
  {
    hide Locks, Kids, Aborts, Counts, Work;
    assert NodeOk(s, e.n);
    var s', p := After(s, e), s[e.n].parent.value;
    var s1 := s[p := s'[p]];
    WorkChanged(s, p, s1[p], n);
    WorkChanged(s1, e.n, s'[e.n], n);
    assert s' == s1[e.n := s'[e.n]];
  }

  lemma WorkVisiting(s: State, v: Id, c: Id, n: nat)
    requires Inv(s) && Enabled(s, AbortVisit(v, c))
    ensures Work(After(s, AbortVisit(v, c)), n) < Work(s, n)
  {
    hide Locks, Kids, Aborts, Counts, Tree, Work;
    var s' := After(s, AbortVisit(v, c));
    var s1 := if s[c].Aborting() then s else Cas(s, c);
    WorkChanged(s, c, s1[c], n);
    assert s1 == s[c := s1[c]];
    assert !s[v].abort.Never? && s1[v].abort.Visiting?;
    WorkChanged(s1, v, s'[v], n);
    assert s' == s1[v := s'[v]];
    assert v == c ==> s[c].Aborting();
  }

  lemma WorkLocking(s: State, e: Event, n: nat)
    requires e.AbortLock? || e.AbortReturn? || e.AbortUnlock?
    requires Inv(s) && Enabled(s, e) && |s[e.v].children| <= n
    ensures Work(After(s, e), n) < Work(s, n)
  {
    hide Locks, Kids, Aborts, Counts, Tree, Work;
    var s' := After(s, e);
    WorkChanged(s, e.v, s'[e.v], n);
    assert s' == s[e.v := s'[e.v]];
  }

  lemma {:induction false} FewBelow(ids: set<Id>, n: nat)
    requires forall i <- ids :: i < n
    ensures |ids| <= n
  {
    if n == 0 {
      assert ids == {};
    } else {
      FewBelow(ids - {n - 1}, n - 1);
    }
  }

  lemma WorkShrinks(s: State, e: Event)
    requires Inv(s) && Critical(e) && Enabled(s, e)
    ensures |After(s, e)| == |s| && Work(After(s, e), |s|) < Work(s, |s|)
  {
    hide Tree, Locks, Aborts, Counts, Work, After, Enabled;
    NodesStay(s, e);
    if e.AddLoad? || e.AddCount? || e.AddInsert? || e.AddUnlock? { WorkAdding(s, e, |s|); }
    else if e.DelRemove? || e.DelUnlock? { WorkDeleting(s, e, |s|); }
    else if e.AbortVisit? { WorkVisiting(s, e.v, e.c, |s|); }
    else {
      assert e.v < |s| by { AboutNode(s, e); }
      forall c | c in s[e.v].children ensures c < |s| { assert KidOk(s, e.v, c); }
      FewBelow(s[e.v].children, |s|);
      WorkLocking(s, e, |s|);
    }
  }

  lemma AboutNode(s: State, e: Event)
    requires Enabled(s, e) && (e.AbortLock? || e.AbortReturn? || e.AbortUnlock?)
    ensures e.v < |s|
  {
  }

  /** No lock is held and no Abort body waits for one. */
  ghost predicate Quiet(s: State) {
    forall v :: 0 <= v < |s| ==> s[v].lock.None? && !InProgress(s, v)
  }

  ghost predicate AllCritical(es: seq<Event>) {
    forall i :: 0 <= i < |es| ==> Critical(es[i])
  }

  lemma SomebodyMoves(s: State) returns (e: Event)
    requires Inv(s) && !Quiet(s)
    ensures Critical(e) && Enabled(s, e)
  {
    hide Tree, Kids, Aborts, Counts;
    var v: nat :| v < |s| && !(s[v].lock.None? && !InProgress(s, v));
    if s[v].lock.Some? {
      e := HolderMoves(s, v);
    } else {
      FreeLock(s, v);
      e := AbortLock(v);
    }
  }

  /** No deadlock and no endless abort: whatever the goroutines were doing, at most Work(s, |s|)
      actions inside critical sections lead to a state where all locks are free and every Abort
      that was begun is over, and until then one of these actions can always happen. */
  lemma {:induction false} AbortsComplete(s: State) returns (es: seq<Event>)
    requires Inv(s)
    ensures AllCritical(es) && |es| <= Work(s, |s|)
    ensures Run(s, es).Some? && Quiet(Run(s, es).value) && |Run(s, es).value| == |s|
    decreases Work(s, |s|)
  {
    hide Inv, Quiet, Work, After, Enabled, Critical;
    RunNothing(s);
    if Quiet(s) {
      es := [];
    } else {
      var e := SomebodyMoves(s);
      InvKept(s, e);
      WorkShrinks(s, e);
      var rest := AbortsComplete(After(s, e));
      es := [e] + rest;
      RunFirst(s, e, rest);
    }
  }

  lemma RunNothing(s: State)
    ensures Run(s, []) == Some(s)
  {
  }

  /** No schedule of such actions is longer than that. */
  lemma {:induction false} CriticalRunIsShort(s: State, es: seq<Event>)
    requires Inv(s) && AllCritical(es) && Run(s, es).Some?
    ensures |es| <= Work(s, |s|)
    decreases |es|
  {
    hide Inv, Work, After, Enabled, Critical;
    if es != [] {
      var s1 := After(s, es[0]);
      assert forall i :: 0 <= i < |es[1..]| ==> es[1..][i] == es[i + 1];
      InvKept(s, es[0]);
      WorkShrinks(s, es[0]);
      CriticalRunIsShort(s1, es[1..]);
    }
  }

  /** Every abort that has begun gets through to all descendants registered by then: the pending
      critical sections can run to their ends, and afterwards the whole registered subtree is
      marked. */
  lemma AbortGetsThrough(s: State, v: Id) returns (es: seq<Event>)
    requires Reachable(s) && v < |s| && s[v].Aborting()
    ensures AllCritical(es) && Run(s, es).Some?
    ensures var s' := Run(s, es).value;
            v < |s'| && forall d :: 0 <= d < |s'| && RegisteredBelow(s', v, d) ==> s'[d].Aborting()
  {
    hide Reachable, Inv, Work, Run, RegisteredBelow, AllCritical;
    InvReachable(s);
    es := AbortsComplete(s);
    InvRun(s, es);
    var s' := Run(s, es).value;
    StaysAborting(s, es, v);
    forall d | 0 <= d < |s'| && RegisteredBelow(s', v, d)
      ensures s'[d].Aborting()
    {
      AbortedBelow(s', v, d);
    }
  }

  lemma {:induction false} StaysAborting(s: State, es: seq<Event>, v: Id)
    requires v < |s| && s[v].Aborting() && Run(s, es).Some?
    ensures v < |Run(s, es).value| && Run(s, es).value[v].Aborting()
    decreases |es|
  {
    hide After, Enabled;
    if es != [] {
      StaysMarked(s, es[0], v);
      StaysAborting(After(s, es[0]), es[1..], v);
    }
  }

  /** The flag is never taken back. */
  lemma StaysMarked(s: State, e: Event, v: Id)
    requires v < |s| && s[v].Aborting() && Enabled(s, e)
    ensures v < |After(s, e)| && After(s, e)[v].Aborting()
  {
  }
}
