/** The tree of virtual machines and its locks (vm/vm.go:214-342, vm/routinevm.go:85-135,
    vm/callfunc.go:21-29). Every atomic action of Abort, addChild, delChild and RunCompiled is a
    step of its own, so a run is any interleaving of them. */
module AbortTree {
  import opened Wrappers

  /** Machines and native calls are numbered in the order they are created; 0 is the root. */
  type Id = nat

  /** Who holds a machine's childCtl lock: its own Abort body, or the call that runs in n. */
  datatype Holder = Aborter | By(n: Id)

  /** How far the one Abort body of a machine is. The compare-and-swap lets only one caller in. */
  datatype Abort =
    | Never
    | WaitsForLock
    | Visiting(todo: set<Id>, inner: Option<Id>)   // holds the lock; inner is the child it is in
    | Over

  datatype AddStage = AddLocked | AddPassed | AddRefused | AddCounted | AddInserted

  datatype DelStage = DelLocked | DelRemoved | DelUnlocked

  /** Where the goroutine of a node is. */
  datatype Pc =
    | Fresh(owner: Id)                             // cloned by the node owner, not registered
    | Registered(owner: Id)                        // counted, its goroutine not started
    | Dropped                                   // its registration was refused
    | Body
    | Add(p: Id, c: Id, add: AddStage)          // in p.addChild(c)
    | Waiting                                   // in childCtl.Wait()
    | Returned                                  // RunCompiled has returned
    | Del(del: DelStage)                        // in parent.delChild
    | Finished

  /** native nodes are calls of builtin functions: they have a cancel function instead of a VM. */
  datatype Node = Node(parent: Option<Id>, native: bool, pc: Pc, abort: Abort, lock: Option<Holder>, children: set<Id>,
                       wg: int)
  {
    predicate Aborting() { !abort.Never? }

    /** Added to the parent's wait group and not yet subtracted. */
    predicate Counted() { !pc.Fresh? && !pc.Dropped? && !pc.Finished? }

    predicate Started() { (Counted() && !pc.Registered?) || pc.Finished? }

    predicate Left() { pc.Returned? || pc.Del? || pc.Finished? }
  }

  type State = seq<Node>

  const Start: State := [Node(None, false, Body, Never, None, {}, 0)]

  datatype Event =
    | Clone(n: Id, p: Id, native: bool)
    | AddLock(n: Id, c: Id)
    | AddLoad(n: Id)
    | AddCount(n: Id)
    | AddInsert(n: Id)
    | AddUnlock(n: Id)
    | EndBody(n: Id)
    | WaitOver(n: Id)
    | DelLock(n: Id)
    | DelRemove(n: Id)
    | DelUnlock(n: Id)
    | DelDone(n: Id)
    | AbortCas(v: Id)
    | AbortLock(v: Id)
    | AbortVisit(v: Id, c: Id)
    | AbortReturn(v: Id)
    | AbortUnlock(v: Id)

  /** A machine adds its own children; so does a native call that was given the machine's context. */
  predicate Serves(s: State, n: Id, p: Id) {
    n < |s| && p < |s| && !s[p].native && (n == p || (s[n].native && s[n].parent == Some(p)))
  }

  predicate InAdd(s: State, n: Id, stage: AddStage) {
    n < |s| && s[n].pc.Add? && s[n].pc.add == stage && s[n].pc.p < |s| && s[n].pc.c < |s|
  }

  predicate InDel(s: State, n: Id, stage: DelStage) {
    n < |s| && s[n].pc == Del(stage) && s[n].parent.Some? && s[n].parent.value < |s|
  }

  predicate Visits(s: State, v: Id) { v < |s| && s[v].abort.Visiting? }

  predicate Enabled(s: State, e: Event) {
    match e
    case Clone(n, p, _) => Serves(s, n, p) && s[n].pc.Body?
    case AddLock(n, c) =>
      && n < |s| && s[n].pc.Body? && c < |s| && s[c].pc == Fresh(n)
      && s[c].parent.Some? && s[c].parent.value < |s| && s[s[c].parent.value].lock.None?
    case AddLoad(n) => InAdd(s, n, AddLocked)
    case AddCount(n) => InAdd(s, n, AddPassed)
    case AddInsert(n) => InAdd(s, n, AddCounted)
    case AddUnlock(n) => InAdd(s, n, AddInserted) || InAdd(s, n, AddRefused)
    case EndBody(n) => n < |s| && s[n].pc.Body?
    case WaitOver(n) => n < |s| && s[n].pc.Waiting? && s[n].wg == 0
    case DelLock(n) =>
      && n < |s| && s[n].pc.Returned? && s[n].parent.Some? && s[n].parent.value < |s|
      && s[s[n].parent.value].lock.None?
    case DelRemove(n) => InDel(s, n, DelLocked)
    case DelUnlock(n) => InDel(s, n, DelRemoved)
    case DelDone(n) => InDel(s, n, DelUnlocked)
    case AbortCas(v) => v < |s| && s[v].abort.Never?
    case AbortLock(v) => v < |s| && s[v].abort.WaitsForLock? && s[v].lock.None?
    case AbortVisit(v, c) =>
      && Visits(s, v) && s[v].abort.inner.None? && c in s[v].abort.todo && c < |s|
      && (s[c].native ==> forall d <- s[v].abort.todo :: d < |s| && s[d].native)   // machines first
    case AbortReturn(v) =>
      && Visits(s, v) && s[v].abort.inner.Some?
      && s[v].abort.inner.value < |s| && s[s[v].abort.inner.value].abort.Over?
    case AbortUnlock(v) => Visits(s, v) && s[v].abort.inner.None? && s[v].abort.todo == {}
  }

  function SetPc(s: State, n: Id, pc: Pc): State
    requires n < |s|
  {
    s[n := s[n].(pc := pc)]
  }

  function SetLock(s: State, p: Id, lock: Option<Holder>): State
    requires p < |s|
  {
    s[p := s[p].(lock := lock)]
  }

  function SetAbort(s: State, v: Id, a: Abort): State
    requires v < |s|
  {
    s[v := s[v].(abort := a)]
  }

  /** The first action of Abort; a native call is only cancelled. */
  function Cas(s: State, v: Id): State
    requires v < |s|
  {
    if s[v].native then SetAbort(s, v, Over) else SetAbort(s, v, WaitsForLock)
  }

  function After(s: State, e: Event): State
    requires Enabled(s, e)
  {
    match e
    case Clone(n, p, native) => s + [Node(Some(p), native, Fresh(n), Never, None, {}, 0)]
    case AddLock(n, c) =>
      var p := s[c].parent.value;
      SetPc(SetLock(s, p, Some(By(n))), n, Add(p, c, AddLocked))
    case AddLoad(n) =>
      var pc := s[n].pc;
      SetPc(s, n, pc.(add := if s[pc.p].Aborting() then AddRefused else AddPassed))
    case AddCount(n) =>
      var pc := s[n].pc;
      SetPc(SetPc(s[pc.p := s[pc.p].(wg := s[pc.p].wg + 1)], pc.c, Registered(n)), n, pc.(add := AddCounted))
    case AddInsert(n) =>
      var pc := s[n].pc;
      SetPc(s[pc.p := s[pc.p].(children := s[pc.p].children + {pc.c})], n, pc.(add := AddInserted))
    case AddUnlock(n) =>
      var pc := s[n].pc;
      SetPc(SetPc(SetLock(s, pc.p, None), pc.c, if pc.add.AddInserted? then Body else Dropped), n, Body)
    case EndBody(n) => SetPc(s, n, if s[n].native then Returned else Waiting)
    case WaitOver(n) => SetPc(s, n, Returned)
    case DelLock(n) => SetPc(SetLock(s, s[n].parent.value, Some(By(n))), n, Del(DelLocked))
    case DelRemove(n) =>
      var p := s[n].parent.value;
      SetPc(s[p := s[p].(children := s[p].children - {n})], n, Del(DelRemoved))
    case DelUnlock(n) => SetPc(SetLock(s, s[n].parent.value, None), n, Del(DelUnlocked))
    case DelDone(n) =>
      var p := s[n].parent.value;
      SetPc(s[p := s[p].(wg := s[p].wg - 1)], n, Finished)
    case AbortCas(v) => Cas(s, v)
    case AbortLock(v) => SetAbort(SetLock(s, v, Some(Aborter)), v, Visiting(s[v].children, None))
    case AbortVisit(v, c) =>
      var todo := s[v].abort.todo - {c};
      if s[c].Aborting() then SetAbort(s, v, Visiting(todo, None))
      else SetAbort(Cas(s, c), v, Visiting(todo, if s[c].native then None else Some(c)))
    case AbortReturn(v) => SetAbort(s, v, s[v].abort.(inner := None))
    case AbortUnlock(v) => SetAbort(SetLock(s, v, None), v, Over)
  }

  /** The state after a sequence of events, if each of them can happen when its turn comes. */
  function Run(s: State, es: seq<Event>): Option<State>
    decreases |es|
  {
    if es == [] then Some(s)
    else if Enabled(s, es[0]) then Run(After(s, es[0]), es[1..])
    else None
  }

  ghost predicate Reachable(s: State) {
    exists es :: Run(Start, es) == Some(s)
  }

  // ----- what every step keeps -----

  predicate HasParent(s: State, c: Id, p: Id) { c < |s| && s[c].parent == Some(p) }

  /** n is inside a critical section of p's lock. */
  predicate Holds(s: State, n: Id, p: Id) {
    n < |s| && match s[n].pc
               case Add(q, _, _) => q == p
               case Del(stage) => !stage.DelUnlocked? && s[n].parent == Some(p)
               case _ => false
  }

  /** The pointers between nodes, and that a node with children has been started. */
  ghost predicate Tree(s: State) {
    forall n :: 0 <= n < |s| ==> NodeOk(s, n)
  }

  predicate NodeOk(s: State, n: Id)
    requires n < |s|
  {
    && (s[n].parent.Some? ==> s[n].parent.value < n && !s[s[n].parent.value].native && s[s[n].parent.value].Started())
    && (s[n].native ==> s[n].children == {} && (s[n].abort.Never? || s[n].abort.Over?) && !s[n].pc.Waiting?)
    && match s[n].pc
       case Add(p, c, stage) =>
         && Serves(s, n, p) && HasParent(s, c, p)
         && s[c].pc == if stage.AddCounted? || stage.AddInserted? then Registered(n) else Fresh(n)
       case Fresh(owner) => s[n].parent.Some? && Serves(s, owner, s[n].parent.value)
       case Registered(owner) =>
         owner < |s| && s[owner].pc.Add? && s[owner].pc.c == n
             && (s[owner].pc.add.AddCounted? || s[owner].pc.add.AddInserted?)
       case Del(_) => s[n].parent.Some?
       case _ => true
  }

  ghost predicate Locks(s: State) {
    && (forall n, p :: 0 <= n < |s| && 0 <= p < |s| ==> (Holds(s, n, p) <==> s[p].lock == Some(By(n))))
    && (forall p :: 0 <= p < |s| ==> LockOk(s, p))
  }

  predicate LockOk(s: State, p: Id)
    requires p < |s|
  {
    && (s[p].lock == Some(Aborter) <==> s[p].abort.Visiting?)
    && (s[p].lock.Some? && s[p].lock.value.By? ==> s[p].lock.value.n < |s|)
  }

  /** What the map of children holds. */
  ghost predicate Kids(s: State) {
    forall p, c :: 0 <= p < |s| && c in s[p].children ==> KidOk(s, p, c)
  }

  predicate KidOk(s: State, p: Id, c: Id) {
    HasParent(s, c, p) && s[c].Counted() && s[c].pc != Del(DelRemoved) && s[c].pc != Del(DelUnlocked)
  }

  /** Every child an Abort body has passed is aborting, and all of them once the body is over. A
      registration that got past the check while the machine is being aborted comes before the
      body takes the lock. */
  ghost predicate Aborts(s: State) {
    && (forall v, c :: 0 <= v < |s| && c in s[v].children && Passed(s, v, c) ==> c < |s| && s[c].Aborting())
    && (forall v :: 0 <= v < |s| ==> AbortOk(s, v))
    && (forall n :: 0 <= n < |s| ==> AddOk(s, n))
  }

  predicate Passed(s: State, v: Id, c: Id)
    requires v < |s|
  {
    s[v].abort.Over? || (s[v].abort.Visiting? && c !in s[v].abort.todo)
  }

  predicate AbortOk(s: State, v: Id)
    requires v < |s|
  {
    s[v].abort.Visiting? ==>
      && s[v].abort.todo <= s[v].children
      && (s[v].abort.inner.Some? ==> HasParent(s, s[v].abort.inner.value, v) && s[s[v].abort.inner.value].Aborting())
  }

  predicate AddOk(s: State, n: Id)
    requires n < |s|
  {
    match s[n].pc
    case Add(p, _, stage) =>
      p < |s| && (stage.AddPassed? || stage.AddCounted? || stage.AddInserted?
                  ==> s[p].abort.Never? || s[p].abort.WaitsForLock?)
    case _ => true
  }

  /** The children of p that its wait group still counts. */
  function Live(s: State, p: Id): set<Id> {
    set c | 0 <= c < |s| && HasParent(s, c, p) && s[c].Counted()
  }

  ghost predicate Counts(s: State) {
    forall p :: 0 <= p < |s| ==> CountOk(s, p)
  }

  predicate CountOk(s: State, p: Id)
    requires p < |s|
  {
    s[p].wg == |Live(s, p)| && (s[p].Left() ==> Live(s, p) == {})
  }

  ghost predicate Inv(s: State) { |s| > 0 && Tree(s) && Locks(s) && Kids(s) && Aborts(s) && Counts(s) }

  // ----- each step keeps it -----

  lemma TreeClone(s: State, n: Id, p: Id, native: bool)
    requires Tree(s) && Enabled(s, Clone(n, p, native))
    ensures Tree(After(s, Clone(n, p, native)))
  {
    var s' := After(s, Clone(n, p, native));
    assert NodeOk(s, n);
    forall k | 0 <= k < |s'|
      ensures NodeOk(s', k)
    {
      if k < |s| { assert NodeOk(s, k); }
    }
  }

  lemma TreeAddLock(s: State, n: Id, c: Id)
    requires Tree(s) && Enabled(s, AddLock(n, c))
    ensures Tree(After(s, AddLock(n, c)))
  {
    var s' := After(s, AddLock(n, c));
    assert NodeOk(s, n) && NodeOk(s, c);
    forall k | 0 <= k < |s'|
      ensures NodeOk(s', k)
    {
      if k < |s| { assert NodeOk(s, k); }
    }
  }

  /** What the nodes that a registration touches say about each other. */
  predicate Around(s: State, n: Id, k: Id) {
    && n < |s| && k < |s| && NodeOk(s, n) && NodeOk(s, k)
    && (s[n].pc.Add? ==> s[n].pc.p < |s| && s[n].pc.c < |s| && NodeOk(s, s[n].pc.p) && NodeOk(s, s[n].pc.c))
    && (s[k].pc.Add? ==> s[k].pc.c < |s| && NodeOk(s, s[k].pc.c))
  }

  lemma AroundNodes(s: State, n: Id, k: Id)
    requires Tree(s) && n < |s| && k < |s|
    ensures Around(s, n, k)
  {
    assert NodeOk(s, n) && NodeOk(s, k);
  }

  lemma AddLoadKeeps(s: State, n: Id, k: Id)
    requires InAdd(s, n, AddLocked) && Around(s, n, k)
    ensures NodeOk(After(s, AddLoad(n)), k)
  {
  }

  lemma TreeAddLoad(s: State, n: Id)
    requires Tree(s) && Enabled(s, AddLoad(n))
    ensures Tree(After(s, AddLoad(n)))
  {
    hide NodeOk, Around;
    forall k | 0 <= k < |s|
      ensures NodeOk(After(s, AddLoad(n)), k)
    {
      AroundNodes(s, n, k);
      AddLoadKeeps(s, n, k);
    }
  }

  lemma AddCountKeeps(s: State, n: Id, k: Id)
    requires InAdd(s, n, AddPassed) && Around(s, n, k)
    ensures NodeOk(After(s, AddCount(n)), k)
  {
  }

  lemma TreeAddCount(s: State, n: Id)
    requires Tree(s) && Enabled(s, AddCount(n))
    ensures Tree(After(s, AddCount(n)))
  {
    hide NodeOk, Around;
    forall k | 0 <= k < |s|
      ensures NodeOk(After(s, AddCount(n)), k)
    {
      AroundNodes(s, n, k);
      AddCountKeeps(s, n, k);
    }
  }

  lemma AddInsertKeeps(s: State, n: Id, k: Id)
    requires InAdd(s, n, AddCounted) && Around(s, n, k)
    ensures NodeOk(After(s, AddInsert(n)), k)
  {
  }

  lemma TreeAddInsert(s: State, n: Id)
    requires Tree(s) && Enabled(s, AddInsert(n))
    ensures Tree(After(s, AddInsert(n)))
  {
    hide NodeOk, Around;
    forall k | 0 <= k < |s|
      ensures NodeOk(After(s, AddInsert(n)), k)
    {
      AroundNodes(s, n, k);
      AddInsertKeeps(s, n, k);
    }
  }

  lemma AddDoneKeeps(s: State, n: Id, k: Id)
    requires InAdd(s, n, AddInserted) && Around(s, n, k)
    ensures NodeOk(After(s, AddUnlock(n)), k)
  {
  }

  lemma TreeAddDone(s: State, n: Id)
    requires Tree(s) && InAdd(s, n, AddInserted)
    ensures Tree(After(s, AddUnlock(n)))
  {
    hide NodeOk, Around;
    forall k | 0 <= k < |s|
      ensures NodeOk(After(s, AddUnlock(n)), k)
    {
      AroundNodes(s, n, k);
      AddDoneKeeps(s, n, k);
    }
  }

  lemma AddRefusedKeeps(s: State, n: Id, k: Id)
    requires InAdd(s, n, AddRefused) && Around(s, n, k)
    ensures NodeOk(After(s, AddUnlock(n)), k)
  {
  }

  lemma TreeAddRefused(s: State, n: Id)
    requires Tree(s) && InAdd(s, n, AddRefused)
    ensures Tree(After(s, AddUnlock(n)))
  {
    hide NodeOk, Around;
    forall k | 0 <= k < |s|
      ensures NodeOk(After(s, AddUnlock(n)), k)
    {
      AroundNodes(s, n, k);
      AddRefusedKeeps(s, n, k);
    }
  }

  lemma TreeLeaving(s: State, e: Event)
    requires e.EndBody? || e.WaitOver? || e.DelLock?
    requires Tree(s) && Enabled(s, e)
    ensures Tree(After(s, e))
  {
    var s' := After(s, e);
    assert NodeOk(s, e.n);
    forall k | 0 <= k < |s'|
      ensures NodeOk(s', k)
    {
      if k < |s| { assert NodeOk(s, k); }
    }
  }

  lemma TreeRemove(s: State, e: Event)
    requires e.DelRemove?
    requires Tree(s) && Enabled(s, e)
    ensures Tree(After(s, e))
  {
    var s' := After(s, e);
    assert NodeOk(s, e.n);
    forall k | 0 <= k < |s'|
      ensures NodeOk(s', k)
    {
      if k < |s| { assert NodeOk(s, k); }
    }
  }

  lemma TreeDeleted(s: State, e: Event)
    requires e.DelUnlock? || e.DelDone?
    requires Tree(s) && Enabled(s, e)
    ensures Tree(After(s, e))
  {
    var s' := After(s, e);
    assert NodeOk(s, e.n);
    forall k | 0 <= k < |s'|
      ensures NodeOk(s', k)
    {
      if k < |s| { assert NodeOk(s, k); }
    }
  }

  lemma TreeCas(s: State, e: Event)
    requires e.AbortCas?
    requires Tree(s) && Enabled(s, e)
    ensures Tree(After(s, e))
  {
    var s' := After(s, e);
    forall k | 0 <= k < |s'|
      ensures NodeOk(s', k)
    {
      if k < |s| { assert NodeOk(s, k); }
    }
  }

  lemma TreeVisit(s: State, e: Event)
    requires e.AbortVisit?
    requires Tree(s) && Enabled(s, e)
    ensures Tree(After(s, e))
  {
    var s' := After(s, e);
    forall k | 0 <= k < |s'|
      ensures NodeOk(s', k)
    {
      if k < |s| { assert NodeOk(s, k); }
    }
  }

  lemma TreeAborting(s: State, e: Event)
    requires e.AbortLock? || e.AbortReturn? || e.AbortUnlock?
    requires Tree(s) && Enabled(s, e)
    ensures Tree(After(s, e))
  {
    var s' := After(s, e);
    forall k | 0 <= k < |s'|
      ensures NodeOk(s', k)
    {
      if k < |s| { assert NodeOk(s, k); }
    }
  }

  lemma LockOkKept(s: State, e: Event)
    requires Tree(s) && Locks(s) && Enabled(s, e)
    ensures forall p :: 0 <= p < |After(s, e)| ==> LockOk(After(s, e), p)
  {
    hide Tree, Locks;
    forall p | 0 <= p < |After(s, e)|
      ensures LockOk(After(s, e), p)
    {
      if p < |s| {
        NodeAndLock(s, p);
        if e.AbortCas? || e.AbortLock? || e.AbortVisit? || e.AbortReturn? || e.AbortUnlock? { LockOkAborting(s, e, p); }
        else { CallHasLock(s, e); LockOkOther(s, e, p); }
      }
    }
  }

  lemma NodeAndLock(s: State, p: Id)
    requires Tree(s) && Locks(s) && p < |s|
    ensures NodeOk(s, p) && LockOk(s, p)
  {
  }

  lemma LockOkAborting(s: State, e: Event, p: Id)
    requires e.AbortCas? || e.AbortLock? || e.AbortVisit? || e.AbortReturn? || e.AbortUnlock?
    requires p < |s| && NodeOk(s, p) && LockOk(s, p) && Enabled(s, e)
    ensures LockOk(After(s, e), p)
  {
  }

  /** A call that unlocks has the lock. */
  lemma CallHasLock(s: State, e: Event)
    requires Tree(s) && Locks(s) && Enabled(s, e)
    ensures e.AddUnlock? ==> s[s[e.n].pc.p].lock == Some(By(e.n))
    ensures e.DelUnlock? ==> s[s[e.n].parent.value].lock == Some(By(e.n))
  {
    if e.AddUnlock? { assert Holds(s, e.n, s[e.n].pc.p); }
    if e.DelUnlock? { assert Holds(s, e.n, s[e.n].parent.value); }
  }

  lemma LockOkOther(s: State, e: Event, p: Id)
    requires !(e.AbortCas? || e.AbortLock? || e.AbortVisit? || e.AbortReturn? || e.AbortUnlock?)
    requires p < |s| && NodeOk(s, p) && LockOk(s, p) && Enabled(s, e)
    requires e.AddUnlock? ==> s[s[e.n].pc.p].lock == Some(By(e.n))
    requires e.DelUnlock? ==> s[s[e.n].parent.value].lock == Some(By(e.n))
    ensures LockOk(After(s, e), p)
  {
  }

  lemma LocksAdding(s: State, e: Event)
    requires e.Clone? || e.AddLoad? || e.AddCount? || e.AddInsert?
    requires Tree(s) && Locks(s) && Enabled(s, e)
    ensures Locks(After(s, e))
  {
    var s' := After(s, e);
    LockOkKept(s, e);
    assert NodeOk(s, e.n);
    forall k, q | 0 <= k < |s'| && 0 <= q < |s'|
      ensures Holds(s', k, q) <==> s'[q].lock == Some(By(k))
    {
      if k < |s| { assert NodeOk(s, k); }
      if q < |s| { assert LockOk(s, q); }
      if k < |s| && q < |s| { assert Holds(s, k, q) <==> s[q].lock == Some(By(k)); }
    }
  }

  lemma LocksTaken(s: State, e: Event)
    requires e.AddLock? || e.DelLock?
    requires Tree(s) && Locks(s) && Enabled(s, e)
    ensures Locks(After(s, e))
  {
    var s' := After(s, e);
    LockOkKept(s, e);
    assert NodeOk(s, e.n);
    forall k, q | 0 <= k < |s'| && 0 <= q < |s'|
      ensures Holds(s', k, q) <==> s'[q].lock == Some(By(k))
    {
      if k < |s| { assert NodeOk(s, k); }
      if q < |s| { assert LockOk(s, q); }
      if k < |s| && q < |s| { assert Holds(s, k, q) <==> s[q].lock == Some(By(k)); }
    }
  }

  lemma LocksFreed(s: State, e: Event)
    requires e.AddUnlock? || e.DelUnlock?
    requires Tree(s) && Locks(s) && Enabled(s, e)
    ensures Locks(After(s, e))
  {
    var s' := After(s, e);
    LockOkKept(s, e);
    assert NodeOk(s, e.n);
    forall k, q | 0 <= k < |s'| && 0 <= q < |s'|
      ensures Holds(s', k, q) <==> s'[q].lock == Some(By(k))
    {
      if k < |s| { assert NodeOk(s, k); }
      if q < |s| { assert LockOk(s, q); }
      if q < |s| { assert Holds(s, e.n, q) <==> s[q].lock == Some(By(e.n)); }
      if k < |s| && q < |s| { assert Holds(s, k, q) <==> s[q].lock == Some(By(k)); }
    }
  }

  lemma LocksLeaving(s: State, e: Event)
    requires e.EndBody? || e.WaitOver? || e.DelRemove? || e.DelDone?
    requires Tree(s) && Locks(s) && Enabled(s, e)
    ensures Locks(After(s, e))
  {
    var s' := After(s, e);
    LockOkKept(s, e);
    assert NodeOk(s, e.n);
    forall k, q | 0 <= k < |s'| && 0 <= q < |s'|
      ensures Holds(s', k, q) <==> s'[q].lock == Some(By(k))
    {
      if k < |s| { assert NodeOk(s, k); }
      if q < |s| { assert LockOk(s, q); }
      if k < |s| && q < |s| { assert Holds(s, k, q) <==> s[q].lock == Some(By(k)); }
    }
  }

  lemma LocksAborting(s: State, e: Event)
    requires e.AbortCas? || e.AbortLock? || e.AbortVisit? || e.AbortReturn? || e.AbortUnlock?
    requires Tree(s) && Locks(s) && Enabled(s, e)
    ensures Locks(After(s, e))
  {
    var s' := After(s, e);
    LockOkKept(s, e);
    forall k, q | 0 <= k < |s'| && 0 <= q < |s'|
      ensures Holds(s', k, q) <==> s'[q].lock == Some(By(k))
    {
      if k < |s| { assert NodeOk(s, k); }
      if q < |s| { assert LockOk(s, q); }
      if k < |s| && q < |s| { assert Holds(s, k, q) <==> s[q].lock == Some(By(k)); }
    }
  }

  lemma KidsAdding(s: State, e: Event)
    requires e.Clone? || e.AddLock? || e.AddLoad? || e.AddCount?
    requires Tree(s) && Kids(s) && Enabled(s, e)
    ensures Kids(After(s, e))
  {
    var s' := After(s, e);
    assert NodeOk(s, e.n);
    forall p, c | 0 <= p < |s'| && c in s'[p].children
      ensures KidOk(s', p, c)
    {
      if p < |s| && c in s[p].children { assert KidOk(s, p, c); }
    }
  }

  lemma KidsAdded(s: State, e: Event)
    requires e.AddInsert? || e.AddUnlock?
    requires Tree(s) && Kids(s) && Enabled(s, e)
    ensures Kids(After(s, e))
  {
    var s' := After(s, e);
    assert NodeOk(s, e.n);
    forall p, c | 0 <= p < |s'| && c in s'[p].children
      ensures KidOk(s', p, c)
    {
      if p < |s| && c in s[p].children { assert KidOk(s, p, c); }
    }
  }

  lemma KidsLeaving(s: State, e: Event)
    requires e.EndBody? || e.WaitOver? || e.DelLock? || e.DelUnlock?
    requires Tree(s) && Kids(s) && Enabled(s, e)
    ensures Kids(After(s, e))
  {
    var s' := After(s, e);
    assert NodeOk(s, e.n);
    forall p, c | 0 <= p < |s'| && c in s'[p].children
      ensures KidOk(s', p, c)
    {
      if p < |s| && c in s[p].children { assert KidOk(s, p, c); }
    }
  }

  lemma KidsDeleted(s: State, e: Event)
    requires e.DelRemove? || e.DelDone?
    requires Tree(s) && Kids(s) && Enabled(s, e)
    ensures Kids(After(s, e))
  {
    var s' := After(s, e);
    assert NodeOk(s, e.n);
    forall p, c | 0 <= p < |s'| && c in s'[p].children
      ensures KidOk(s', p, c)
    {
      if p < |s| && c in s[p].children { assert KidOk(s, p, c); }
    }
  }

  lemma KidsAborting(s: State, e: Event)
    requires e.AbortCas? || e.AbortLock? || e.AbortVisit? || e.AbortReturn? || e.AbortUnlock?
    requires Tree(s) && Kids(s) && Enabled(s, e)
    ensures Kids(After(s, e))
  {
    var s' := After(s, e);
    forall p, c | 0 <= p < |s'| && c in s'[p].children
      ensures KidOk(s', p, c)
    {
      if p < |s| && c in s[p].children { assert KidOk(s, p, c); }
    }
  }

  lemma AbortsAdding(s: State, e: Event)
    requires e.Clone? || e.AddLock? || e.AddLoad? || e.AddCount?
    requires Tree(s) && Locks(s) && Kids(s) && Aborts(s) && Enabled(s, e)
    ensures Aborts(After(s, e))
  {
    var s' := After(s, e);
    assert NodeOk(s, e.n);
    forall v, c | 0 <= v < |s'| && c in s'[v].children && Passed(s', v, c)
      ensures c < |s'| && s'[c].Aborting()
    {
      if v < |s| && c in s[v].children { assert KidOk(s, v, c); }
    }
    forall v | 0 <= v < |s'|
      ensures AbortOk(s', v)
    {
      if v < |s| { assert AbortOk(s, v); }
    }
    forall n | 0 <= n < |s'|
      ensures AddOk(s', n)
    {
      if n < |s| { assert AddOk(s, n) && NodeOk(s, n); }
    }
  }

  lemma AbortsAdded(s: State, e: Event)
    requires e.AddInsert? || e.AddUnlock?
    requires Tree(s) && Locks(s) && Kids(s) && Aborts(s) && Enabled(s, e)
    ensures Aborts(After(s, e))
  {
    var s' := After(s, e);
    assert NodeOk(s, e.n);
    assert AddOk(s, e.n);
    forall v, c | 0 <= v < |s'| && c in s'[v].children && Passed(s', v, c)
      ensures c < |s'| && s'[c].Aborting()
    {
      if v < |s| && c in s[v].children { assert KidOk(s, v, c); }
    }
    forall v | 0 <= v < |s'|
      ensures AbortOk(s', v)
    {
      if v < |s| { assert AbortOk(s, v); }
    }
    forall n | 0 <= n < |s'|
      ensures AddOk(s', n)
    {
      if n < |s| { assert AddOk(s, n) && NodeOk(s, n); }
    }
  }

  lemma AbortsLeaving(s: State, e: Event)
    requires e.EndBody? || e.WaitOver? || e.DelLock? || e.DelUnlock?
    requires Tree(s) && Locks(s) && Kids(s) && Aborts(s) && Enabled(s, e)
    ensures Aborts(After(s, e))
  {
    var s' := After(s, e);
    assert NodeOk(s, e.n);
    forall v, c | 0 <= v < |s'| && c in s'[v].children && Passed(s', v, c)
      ensures c < |s'| && s'[c].Aborting()
    {
      if v < |s| && c in s[v].children { assert KidOk(s, v, c); }
    }
    forall v | 0 <= v < |s'|
      ensures AbortOk(s', v)
    {
      if v < |s| { assert AbortOk(s, v); }
    }
    forall n | 0 <= n < |s'|
      ensures AddOk(s', n)
    {
      if n < |s| { assert AddOk(s, n) && NodeOk(s, n); }
    }
  }

  lemma AbortsDeleted(s: State, e: Event)
    requires e.DelRemove? || e.DelDone?
    requires Tree(s) && Locks(s) && Kids(s) && Aborts(s) && Enabled(s, e)
    ensures Aborts(After(s, e))
  {
    var s' := After(s, e);
    assert NodeOk(s, e.n);
    assert e.DelRemove? ==> Holds(s, e.n, s[e.n].parent.value);
    assert LockOk(s, s[e.n].parent.value);
    forall v, c | 0 <= v < |s'| && c in s'[v].children && Passed(s', v, c)
      ensures c < |s'| && s'[c].Aborting()
    {
      if v < |s| && c in s[v].children { assert KidOk(s, v, c); }
    }
    forall v | 0 <= v < |s'|
      ensures AbortOk(s', v)
    {
      if v < |s| { assert AbortOk(s, v); }
    }
    forall n | 0 <= n < |s'|
      ensures AddOk(s', n)
    {
      if n < |s| { assert AddOk(s, n) && NodeOk(s, n); }
    }
  }

  lemma AbortsCas(s: State, e: Event)
    requires e.AbortCas? || e.AbortVisit?
    requires Tree(s) && Locks(s) && Kids(s) && Aborts(s) && Enabled(s, e)
    ensures Aborts(After(s, e))
  {
    var s' := After(s, e);
    assert AbortOk(s, e.v);
    forall v, c | 0 <= v < |s'| && c in s'[v].children && Passed(s', v, c)
      ensures c < |s'| && s'[c].Aborting()
    {
      if v < |s| && c in s[v].children { assert KidOk(s, v, c) && NodeOk(s, v); }
    }
    forall v | 0 <= v < |s'|
      ensures AbortOk(s', v)
    {
      if v < |s| { assert AbortOk(s, v); }
    }
    forall n | 0 <= n < |s'|
      ensures AddOk(s', n)
    {
      if n < |s| { assert AddOk(s, n) && NodeOk(s, n); }
    }
  }

  lemma AbortsLocking(s: State, e: Event)
    requires e.AbortLock? || e.AbortReturn? || e.AbortUnlock?
    requires Tree(s) && Locks(s) && Kids(s) && Aborts(s) && Enabled(s, e)
    ensures Aborts(After(s, e))
  {
    var s' := After(s, e);
    assert AbortOk(s, e.v);
    forall v, c | 0 <= v < |s'| && c in s'[v].children && Passed(s', v, c)
      ensures c < |s'| && s'[c].Aborting()
    {
      if v < |s| && c in s[v].children { assert KidOk(s, v, c); }
    }
    forall v | 0 <= v < |s'|
      ensures AbortOk(s', v)
    {
      if v < |s| { assert AbortOk(s, v); }
    }
    forall n | 0 <= n < |s'|
      ensures AddOk(s', n)
    {
      if n < |s| { assert AddOk(s, n) && NodeOk(s, n); }
      if s[n].pc.Add? { assert Holds(s, n, s[n].pc.p); }
    }
  }

  // ----- the wait groups -----

  /** A step that starts or ends no registration leaves every wait group alone. */
  predicate SameCounted(s: State, s': State) {
    && |s| <= |s'|
    && (forall c :: 0 <= c < |s| ==> s'[c].parent == s[c].parent && s'[c].native == s[c].native)
    && (forall c :: 0 <= c < |s| ==> s'[c].Counted() == s[c].Counted())
    && (forall c :: |s| <= c < |s'| ==> !s'[c].Counted())
  }

  lemma LiveSame(s: State, s': State, p: Id)
    requires SameCounted(s, s')
    ensures Live(s', p) == Live(s, p)
  {
    forall c
      ensures c in Live(s', p) <==> c in Live(s, p)
    {
    }
  }

  lemma AbortsCountNothing(s: State, e: Event)
    requires e.AbortCas? || e.AbortLock? || e.AbortVisit? || e.AbortReturn? || e.AbortUnlock?
    requires Enabled(s, e)
    ensures SameCounted(s, After(s, e))
  {
  }

  lemma SameCountedKept(s: State, e: Event)
    requires Tree(s) && Enabled(s, e) && !e.AddCount? && !e.DelDone?
    ensures SameCounted(s, After(s, e))
  {
    if e.AbortCas? || e.AbortLock? || e.AbortVisit? || e.AbortReturn? || e.AbortUnlock? {
      AbortsCountNothing(s, e);
    } else if e.AddUnlock? {
      assert NodeOk(s, e.n);
    } else {
      OthersCountNothing(s, e);
    }
  }

  lemma OthersCountNothing(s: State, e: Event)
    requires e.Clone? || e.AddLock? || e.AddLoad? || e.AddInsert? || e.EndBody? || e.WaitOver? || e.DelLock?
             || e.DelRemove? || e.DelUnlock?
    requires Enabled(s, e)
    ensures SameCounted(s, After(s, e))
  {
  }

  lemma CountsQuiet(s: State, e: Event)
    requires Tree(s) && Counts(s) && Enabled(s, e) && !e.AddCount? && !e.DelDone?
    ensures Counts(After(s, e))
  {
    var s' := After(s, e);
    SameCountedKept(s, e);
    forall p | 0 <= p < |s'|
      ensures CountOk(s', p)
    {
      LiveSame(s, s', p);
      if p < |s| {
        assert CountOk(s, p) && NodeOk(s, p);
        QuietNode(s, e, p);
      } else {
        NobodyYet(s, p);
      }
    }
  }

  lemma NobodyYet(s: State, p: Id)
    requires Tree(s) && p >= |s|
    ensures Live(s, p) == {}
  {
    forall c
      ensures c !in Live(s, p)
    {
      if 0 <= c < |s| { assert NodeOk(s, c); }
    }
  }

  /** Only the end of a wait, or of a native call, makes a node leave. */
  lemma QuietNode(s: State, e: Event, p: Id)
    requires Tree(s) && Counts(s) && Enabled(s, e) && !e.AddCount? && !e.DelDone? && p < |s|
    ensures After(s, e)[p].wg == s[p].wg
    ensures After(s, e)[p].Left() ==> Live(s, p) == {}
  {
    hide Live;
    assert CountOk(s, p) && NodeOk(s, p);
    if s[p].native { NativeHasNone(s, p); }
    if e.WaitOver? { assert CountOk(s, e.n); }
  }

  lemma NativeHasNone(s: State, p: Id)
    requires Tree(s) && p < |s| && s[p].native
    ensures Live(s, p) == {}
  {
    forall c
      ensures c !in Live(s, p)
    {
      if 0 <= c < |s| { assert NodeOk(s, c); }
    }
  }

  /** A step that starts the registration of c counts it in its parent's group only. */
  lemma LiveGains(s: State, s': State, c: Id, q: Id)
    requires |s| == |s'| && c < |s| && !s[c].Counted() && s'[c].Counted()
    requires forall k :: 0 <= k < |s| ==> s'[k].parent == s[k].parent
    requires forall k :: 0 <= k < |s| && k != c ==> s'[k].Counted() == s[k].Counted()
    ensures Live(s', q) == if s[c].parent == Some(q) then Live(s, q) + {c} else Live(s, q)
    ensures c !in Live(s, q)
  {
  }

  lemma AddCountIs(s: State, n: Id)
    requires Tree(s) && Enabled(s, AddCount(n))
    ensures var s', p, c := After(s, AddCount(n)), s[n].pc.p, s[n].pc.c;
            && |s| == |s'| && c < |s| && p < |s| && s[c].parent == Some(p) && !s[c].Counted() && s'[c].Counted()
            && (forall k :: 0 <= k < |s| ==> s'[k].parent == s[k].parent)
            && (forall k :: 0 <= k < |s| && k != c ==> s'[k].Counted() == s[k].Counted() && s'[k].Left() == s[k].Left())
            && (forall k :: 0 <= k < |s| && k != p ==> s'[k].wg == s[k].wg)
            && s'[p].wg == s[p].wg + 1
            && !s'[c].Left() && p != c
            && (n == p ==> !s'[p].Left()) && (n != p ==> s[n].parent == Some(p) && s[n].Counted())
  {
    assert NodeOk(s, n) && NodeOk(s, s[n].pc.c);
  }

  lemma CountsAddCount(s: State, n: Id)
    requires Tree(s) && Counts(s) && Enabled(s, AddCount(n))
    ensures Counts(After(s, AddCount(n)))
  {
    hide After, Live;
    var s' := After(s, AddCount(n));
    var p, c := s[n].pc.p, s[n].pc.c;
    AddCountIs(s, n);
    forall q | 0 <= q < |s'|
      ensures CountOk(s', q)
    {
      assert CountOk(s, q);
      LiveGains(s, s', c, q);
      if n != p { InLive(s, p, n); }
    }
  }

  lemma InLive(s: State, p: Id, n: Id)
    requires n < |s| && s[n].parent == Some(p) && s[n].Counted()
    ensures n in Live(s, p)
  {
  }

  lemma CountsDelDone(s: State, n: Id)
    requires Tree(s) && Counts(s) && Enabled(s, DelDone(n))
    ensures Counts(After(s, DelDone(n)))
  {
    var s' := After(s, DelDone(n));
    var p := s[n].parent.value;
    assert NodeOk(s, n);
    forall q | 0 <= q < |s'|
      ensures CountOk(s', q)
    {
      assert CountOk(s, q);
      LiveGains(s', s, n, q);
    }
  }

  // ----- the invariant holds in every reachable state -----

  lemma TreeKept(s: State, e: Event)
    requires Tree(s) && Enabled(s, e)
    ensures Tree(After(s, e))
  {
    hide After, Enabled, Tree;
    match e
    case Clone(n, p, native) => TreeClone(s, n, p, native);
    case AddLock(n, c) => TreeAddLock(s, n, c);
    case AddLoad(n) => TreeAddLoad(s, n);
    case AddCount(n) => TreeAddCount(s, n);
    case AddInsert(n) => TreeAddInsert(s, n);
    case AddUnlock(n) => AddUnlockCases(s, n); if InAdd(s, n, AddInserted) {
      TreeAddDone(s, n);
    } else {
      TreeAddRefused(s, n);
    }
    case AbortCas(_) => TreeCas(s, e);
    case AbortVisit(_, _) => TreeVisit(s, e);
    case _ =>
      if e.AbortLock? || e.AbortReturn? || e.AbortUnlock? { TreeAborting(s, e); }
      else if e.DelRemove? { TreeRemove(s, e); }
      else if e.DelUnlock? || e.DelDone? { TreeDeleted(s, e); }
      else { TreeLeaving(s, e); }
  }

  lemma AddUnlockCases(s: State, n: Id)
    requires Enabled(s, AddUnlock(n))
    ensures InAdd(s, n, AddInserted) || InAdd(s, n, AddRefused)
  {
  }

  lemma LocksKept(s: State, e: Event)
    requires Tree(s) && Locks(s) && Enabled(s, e)
    ensures Locks(After(s, e))
  {
    hide After, Enabled, Tree, Locks;
    if e.Clone? || e.AddLoad? || e.AddCount? || e.AddInsert? { LocksAdding(s, e); }
    else if e.AddLock? || e.DelLock? { LocksTaken(s, e); }
    else if e.AddUnlock? || e.DelUnlock? { LocksFreed(s, e); }
    else if e.EndBody? || e.WaitOver? || e.DelRemove? || e.DelDone? { LocksLeaving(s, e); }
    else { LocksAborting(s, e); }
  }

  lemma KidsKept(s: State, e: Event)
    requires Tree(s) && Kids(s) && Enabled(s, e)
    ensures Kids(After(s, e))
  {
    hide After, Enabled, Tree, Kids;
    if e.Clone? || e.AddLock? || e.AddLoad? || e.AddCount? { KidsAdding(s, e); }
    else if e.AddInsert? || e.AddUnlock? { KidsAdded(s, e); }
    else if e.EndBody? || e.WaitOver? || e.DelLock? || e.DelUnlock? { KidsLeaving(s, e); }
    else if e.DelRemove? || e.DelDone? { KidsDeleted(s, e); }
    else { KidsAborting(s, e); }
  }

  lemma AbortsKept(s: State, e: Event)
    requires Tree(s) && Locks(s) && Kids(s) && Aborts(s) && Enabled(s, e)
    ensures Aborts(After(s, e))
  {
    hide After, Enabled, Tree, Locks, Kids, Aborts;
    if e.Clone? || e.AddLock? || e.AddLoad? || e.AddCount? { AbortsAdding(s, e); }
    else if e.AddInsert? || e.AddUnlock? { AbortsAdded(s, e); }
    else if e.EndBody? || e.WaitOver? || e.DelLock? || e.DelUnlock? { AbortsLeaving(s, e); }
    else if e.DelRemove? || e.DelDone? { AbortsDeleted(s, e); }
    else if e.AbortCas? || e.AbortVisit? { AbortsCas(s, e); }
    else { AbortsLocking(s, e); }
  }

  lemma InvKept(s: State, e: Event)
    requires Inv(s) && Enabled(s, e)
    ensures Inv(After(s, e))
  {
    hide Enabled, Tree, Locks, Kids, Aborts, Counts, After;
    TreeKept(s, e);
    LocksKept(s, e);
    KidsKept(s, e);
    AbortsKept(s, e);
    NodesStay(s, e);
    if e.AddCount? { CountsAddCount(s, e.n); }
    else if e.DelDone? { CountsDelDone(s, e.n); }
    else { CountsQuiet(s, e); }
  }

  lemma NodesStay(s: State, e: Event)
    requires Enabled(s, e)
    ensures |After(s, e)| == if e.Clone? then |s| + 1 else |s|
  {
  }

  lemma StartOk()
    ensures Inv(Start)
  {
    assert Live(Start, 0) == {};
  }

  lemma {:induction false} InvRun(s: State, es: seq<Event>)
    requires Inv(s) && Run(s, es).Some?
    ensures Inv(Run(s, es).value)
    decreases |es|
  {
    hide Inv, Enabled, After;
    if es != [] {
      InvKept(s, es[0]);
      InvRun(After(s, es[0]), es[1..]);
    }
  }

  lemma InvReachable(s: State)
    requires Reachable(s)
    ensures Inv(s)
  {
    hide Inv, Run;
    var es :| Run(Start, es) == Some(s);
    StartOk();
    InvRun(Start, es);
  }
}
