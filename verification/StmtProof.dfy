/** Compiled statements do to the local slots what the statements do to the store, leave the
    operand stack as they found it, and jump where they should. */
module StmtProof {
  import opened Wrappers
  import opened Instructions
  import opened Language
  import opened CodeGen
  import opened StackMachine
  import opened ExprProof

  /** Between statements there are no operands: the stack ends with the local slots. */
  ghost predicate InFrame(m: Machine, names: seq<string>, store: Store, st: Stack) {
    Matches(m, names, store, st) && |st| == |m.base| + m.locals
  }

  /** The same when the store may hold variables of inner blocks on top. */
  ghost predicate InFrameTo(m: Machine, names: seq<string>, store: Store, st: Stack) {
    |names| <= |store| && InFrame(m, names, store[..|names|], st)
  }

  /** From (p, st) the machine does what outcome o says: control falls through to q with the names
      `after`, or takes one of the jumps with at least the names `before`, or stops; a statement
      that runs out of fuel keeps the machine busy for at least as many steps. */
  ghost predicate Leads(m: Machine, p: int, st: Stack, o: Outcome, q: int, t: Targets,
                        before: seq<string>, after: seq<string>, fuel: nat) {
    match o
    case Norm(store) => exists n: nat, st' :: Reaches(m, p, st, n, q, st') && InFrame(m, after, store, st')
    case Brk(store) => exists n: nat, st' :: Reaches(m, p, st, n, t.brk, st') && InFrameTo(m, before, store, st')
    case Cont(store) => exists n: nat, st' :: Reaches(m, p, st, n, t.cont, st') && InFrameTo(m, before, store, st')
    case Fall(store) => exists n: nat, st' :: Reaches(m, p, st, n, t.fall, st') && InFrameTo(m, before, store, st')
    case Ret(v) => exists n: nat :: Ends(m, p, st, n, Returned(v))
    case Err(c) => exists n: nat :: Ends(m, p, st, n, Failed(OpError(c)))
    case Timeout => exists n: nat, q', st' :: n >= fuel && Reaches(m, p, st, n, q', st')
  }

  lemma LeadsAfter(m: Machine, p: int, st: Stack, a: nat, p1: int, st1: Stack, o: Outcome, q: int, t: Targets,
                   before: seq<string>, after: seq<string>, fuel: nat, fuel': nat)
    requires Reaches(m, p, st, a, p1, st1) && Leads(m, p1, st1, o, q, t, before, after, fuel)
    requires fuel' <= fuel + a
    ensures Leads(m, p, st, o, q, t, before, after, fuel')
  {
    hide Reaches, Ends, InFrame, InFrameTo;
    match o
    case Norm(store) =>
      var n: nat, st' :| Reaches(m, p1, st1, n, q, st') && InFrame(m, after, store, st');
      Then(m, p, st, a, p1, st1, n, q, st');
    case Brk(store) =>
      var n: nat, st' :| Reaches(m, p1, st1, n, t.brk, st') && InFrameTo(m, before, store, st');
      Then(m, p, st, a, p1, st1, n, t.brk, st');
    case Cont(store) =>
      var n: nat, st' :| Reaches(m, p1, st1, n, t.cont, st') && InFrameTo(m, before, store, st');
      Then(m, p, st, a, p1, st1, n, t.cont, st');
    case Fall(store) =>
      var n: nat, st' :| Reaches(m, p1, st1, n, t.fall, st') && InFrameTo(m, before, store, st');
      Then(m, p, st, a, p1, st1, n, t.fall, st');
    case Ret(v) =>
      var n: nat :| Ends(m, p1, st1, n, Returned(v));
      ThenEnds(m, p, st, a, p1, st1, n, Returned(v));
    case Err(c) =>
      var n: nat :| Ends(m, p1, st1, n, Failed(OpError(c)));
      ThenEnds(m, p, st, a, p1, st1, n, Failed(OpError(c)));
    case Timeout =>
      var n: nat, q', st' :| n >= fuel && Reaches(m, p1, st1, n, q', st');
      Then(m, p, st, a, p1, st1, n, q', st');
  }

  predicate IsPrefix(a: seq<string>, b: seq<string>) {
    |a| <= |b| && b[..|a|] == a
  }

  lemma InFramePrefix(m: Machine, a: seq<string>, b: seq<string>, store: Store, st: Stack)
    requires IsPrefix(a, b) && InFrameTo(m, b, store, st)
    ensures InFrameTo(m, a, store, st)
  {
    forall i | 0 <= i < |a|
      ensures store[..|a|][i].name == a[i] && st[|m.base| + i] == store[..|a|][i].val
    {
      assert store[..|b|][i] == store[i] && b[..|a|][i] == b[i];
    }
  }

  lemma InFrameWhole(m: Machine, names: seq<string>, store: Store, st: Stack)
    requires |store| == |names|
    ensures InFrameTo(m, names, store, st) <==> InFrame(m, names, store, st)
  {
    assert store[..|names|] == store;
  }

  /** What is known about more names is known about fewer. */
  lemma LeadsFewer(m: Machine, p: int, st: Stack, o: Outcome, q: int, t: Targets,
                   before: seq<string>, before': seq<string>, after: seq<string>, fuel: nat)
    requires Leads(m, p, st, o, q, t, before, after, fuel) && IsPrefix(before', before)
    ensures Leads(m, p, st, o, q, t, before', after, fuel)
  {
    hide Reaches, Ends, InFrame, InFrameTo, IsPrefix;
    match o
    case Brk(store) =>
      var n: nat, st' :| Reaches(m, p, st, n, t.brk, st') && InFrameTo(m, before, store, st');
      InFramePrefix(m, before', before, store, st');
    case Cont(store) =>
      var n: nat, st' :| Reaches(m, p, st, n, t.cont, st') && InFrameTo(m, before, store, st');
      InFramePrefix(m, before', before, store, st');
    case Fall(store) =>
      var n: nat, st' :| Reaches(m, p, st, n, t.fall, st') && InFrameTo(m, before, store, st');
      InFramePrefix(m, before', before, store, st');
    case _ =>
  }

  lemma Truncated(m: Machine, names: seq<string>, store: Store, st: Stack)
    requires InFrameTo(m, names, store, st)
    ensures InFrame(m, names, store[..|names|], st) && InFrameTo(m, names, store[..|names|], st)
  {
    assert store[..|names|][..|names|] == store[..|names|];
  }

  /** Leaving a block: its own variables are forgotten. */
  lemma LeadsLeave(m: Machine, p: int, st: Stack, o: Outcome, q: int, t: Targets,
                   names: seq<string>, after: seq<string>, fuel: nat)
    requires Leads(m, p, st, o, q, t, names, after, fuel) && IsPrefix(names, after)
    ensures Leads(m, p, st, Leave(o, |names|), q, t, names, names, fuel)
  {
    hide Reaches, Ends, InFrame;
    match o
    case Norm(store) =>
      var n: nat, st' :| Reaches(m, p, st, n, q, st') && InFrame(m, after, store, st');
      FrameLength(m, after, store, st');
      InFrameWhole(m, after, store, st');
      InFramePrefix(m, names, after, store, st');
    case Brk(store) =>
      var n: nat, st' :| Reaches(m, p, st, n, t.brk, st') && InFrameTo(m, names, store, st');
      Truncated(m, names, store, st');
    case Cont(store) =>
      var n: nat, st' :| Reaches(m, p, st, n, t.cont, st') && InFrameTo(m, names, store, st');
      Truncated(m, names, store, st');
    case Fall(store) =>
      var n: nat, st' :| Reaches(m, p, st, n, t.fall, st') && InFrameTo(m, names, store, st');
      Truncated(m, names, store, st');
    case _ =>
  }

  lemma FrameLength(m: Machine, names: seq<string>, store: Store, st: Stack)
    requires InFrame(m, names, store, st)
    ensures |store| == |names|
  {
  }

  /** A jump behind a statement that has fallen through. */
  lemma LeadsJump(m: Machine, p: int, st: Stack, o: Outcome, q: nat, target: nat, t: Targets,
                  before: seq<string>, after: seq<string>, fuel: nat)
    requires Leads(m, p, st, o, q, t, before, after, fuel)
    requires target < 65536 && At(m.code, q, Jump(OpJump, target))
    ensures Leads(m, p, st, o, target, t, before, after, fuel)
  {
    hide Reaches, Ends, InFrame, InFrameTo, At, Jump;
    if o.Norm? {
      var n: nat, st' :| Reaches(m, p, st, n, q, st') && InFrame(m, after, o.store, st');
      DoJump(m, q, OpJump, target, st');
      Then(m, p, st, n, q, st', 1, target, st');
    }
  }

  /** An evaluation that fails ends the statement. */
  lemma LeadsFailure(m: Machine, p: int, st: Stack, p1: int, r: Res, q: int, t: Targets,
                     before: seq<string>, after: seq<string>, fuel: nat)
    requires r.Fail? && Yields(m, p, st, p1, st, r)
    ensures Leads(m, p, st, Err(r.code), q, t, before, after, fuel)
  {
    hide Reaches, Ends;
  }

  /** Room on the stack for n operands. */
  predicate Room(m: Machine, n: nat) { |m.base| + m.locals + n < m.limit }

  // ----- simple statements -----

  ghost predicate SimplePlaced(m: Machine, sm: Simple, names: seq<string>, p: nat, k: nat) {
    && Fits(m)
    && At(m.code, p, SimpleCode(sm, names, p, k))
    && ConstsAt(m.consts, k, SimpleConsts(sm))
    && Room(m, ExprNeed(Operand(sm)))
    && LocalsAfter(sm, |names|) <= m.locals
  }

  /** The instruction that stores or drops the value on top. */
  lemma StoreStep(m: Machine, p: nat, sm: Simple, names: seq<string>, start: nat, store: Store, st: Stack, v: Value)
    returns (st': Stack)
    requires At(m.code, p, StoreCode(sm, names)) && m.locals <= 256 && LocalsAfter(sm, |names|) <= m.locals
    requires start <= |names| && SimpleOk(sm, names, start)
    requires InFrame(m, names, store, st)
    ensures Reaches(m, p, st + [v], 1, p + |StoreCode(sm, names)|, st')
    ensures InFrame(m, NamesAfter(sm, names), StoreAfter(sm, store, v), st')
  {
    PopPushed(st, v);
    hide Plain, InFrame, At, StoreCode, SimpleOk, Put;
    SimpleTarget(sm, names, start);
    FrameRoom(m, names, store, st);
    StoreLength(sm, names);
    if sm.ExprStmt? {
      st' := st;
    } else {
      var s := if sm.Define? then |names| else Index(names, sm.x);
      st' := st[|m.base| + s := v];
      if sm.Define? { DefineSlot(m, sm.x, names, store, st, v); } else { AssignSlot(m, sm.x, names, store, st, v); }
    }
    StorePlain(m, sm, names, st, v);
    DoPlain(m, p, StoreCode(sm, names), st + [v]);
  }

  lemma SimpleTarget(sm: Simple, names: seq<string>, start: nat)
    requires start <= |names| && SimpleOk(sm, names, start)
    ensures sm.ExprStmt? || sm.Define? || Index(names, sm.x) >= 0
    ensures StoreCode(sm, names)[0] in {OpPop, OpDefineLocal, OpSetLocal}
    ensures |StoreCode(sm, names)| == InstrLen(StoreCode(sm, names)[0])
  {
    hide ExprOk, InstrLen;
    assert InstrLen(OpPop) == 1 && InstrLen(OpDefineLocal) == InstrLen(OpSetLocal) == 2 by { Lengths(); }
  }

  lemma Lengths()
    ensures InstrLen(OpPop) == 1 && InstrLen(OpDefineLocal) == InstrLen(OpSetLocal) == 2
  {
  }

  lemma FrameRoom(m: Machine, names: seq<string>, store: Store, st: Stack)
    requires InFrame(m, names, store, st)
    ensures |m.base| + m.locals == |st| && |names| <= m.locals && |store| == |names|
  {
  }

  lemma StorePlain(m: Machine, sm: Simple, names: seq<string>, st: Stack, v: Value)
    requires |m.base| + m.locals <= |st| && m.locals <= 256 && LocalsAfter(sm, |names|) <= m.locals
             && |names| <= m.locals
    requires sm.ExprStmt? || sm.Define? || Index(names, sm.x) >= 0
    ensures Plain(m, StoreCode(sm, names), st + [v])
            == Goes(if sm.ExprStmt? then st
                    else st[|m.base| + (if sm.Define? then |names| else Index(names, sm.x)) := v])
  {
    hide Plain, Op0, Op1;
    if sm.ExprStmt? {
      PopPlain(m, st, v);
    } else if sm.Define? {
      SlotPlain(m, OpDefineLocal, |names|, st, v);
    } else {
      SlotPlain(m, OpSetLocal, Index(names, sm.x), st, v);
    }
  }

  lemma PopPlain(m: Machine, st: Stack, v: Value)
    requires Floor(m) <= |st|
    ensures Plain(m, Op0(OpPop), st + [v]) == Goes(st)
  {
    PopPushed(st, v);
  }

  lemma SlotPlain(m: Machine, op: byte, s: nat, st: Stack, v: Value)
    requires op == OpSetLocal || op == OpDefineLocal
    requires s < 256 && s < m.locals && |m.base| + m.locals <= |st|
    ensures Plain(m, Op1(op, s), st + [v]) == Goes(st[|m.base| + s := v])
  {
    PopPushed(st, v);
  }

  function StoreAfter(sm: Simple, store: Store, v: Value): Store {
    match sm
    case ExprStmt(_) => store
    case Define(x, _) => store + [Binding(x, v)]
    case _ => Put(store, sm.x, v)
  }

  lemma DefineSlot(m: Machine, x: string, names: seq<string>, store: Store, st: Stack, v: Value)
    requires InFrame(m, names, store, st) && |names| + 1 <= m.locals
    ensures InFrame(m, names + [x], store + [Binding(x, v)], st[|m.base| + |names| := v])
  {
    assert st[|m.base| + |names| := v][..|m.base|] == st[..|m.base|];
  }

  lemma AssignSlot(m: Machine, x: string, names: seq<string>, store: Store, st: Stack, v: Value)
    requires InFrame(m, names, store, st) && Index(names, x) >= 0
    ensures InFrame(m, names, Put(store, x, v), st[|m.base| + Index(names, x) := v])
  {
    FindIsIndex(names, store, x);
    assert st[|m.base| + Index(names, x) := v][..|m.base|] == st[..|m.base|];
  }

  lemma SimpleExec(ops: Objects, sm: Simple, store: Store)
    ensures var r := Eval(ops, Operand(sm), store);
            ExecSimple(ops, sm, store) == if r.Fail? then Err(r.code) else Norm(StoreAfter(sm, store, r.v))
  {
    hide Eval;
    if sm.AssignOp? && AssignToken(sm.tok) { assert Applied(sm.tok) == OpOfAssign(sm.tok); }
  }

  lemma SimpleRuns(m: Machine, sm: Simple, names: seq<string>, start: nat, store: Store, p: nat, k: nat, st: Stack,
                   t: Targets, fuel: nat)
    requires SimplePlaced(m, sm, names, p, k) && start <= |names| && SimpleOk(sm, names, start)
    requires InFrame(m, names, store, st)
    ensures Leads(m, p, st, ExecSimple(m.ops, sm, store), p + SimpleLen(sm), t, names, NamesAfter(sm, names), fuel)
  {
    hide Eval, ExecSimple, StoreAfter, StoreCode, ExprCode, ExprConsts, Reaches, Ends, At, ConstsAt;
    var e := Operand(sm);
    AtSplit(m.code, p, ExprCode(e, names, p, k), StoreCode(sm, names));
    SimpleExec(m.ops, sm, store);
    ExprRuns(m, e, names, store, p, k, st);
    var r := Eval(m.ops, e, store);
    var p1 := p + ExprLen(e);
    StoreLength(sm, names);
    if r.Fail? {
      LeadsFailure(m, p, st, p1, r, p + SimpleLen(sm), t, names, NamesAfter(sm, names), fuel);
    } else {
      var n: nat :| Reaches(m, p, st, n, p1, st + [r.v]);
      var st' := StoreStep(m, p1, sm, names, start, store, st, r.v);
      Then(m, p, st, n, p1, st + [r.v], 1, p + SimpleLen(sm), st');
    }
  }

  lemma StoreLength(sm: Simple, names: seq<string>)
    ensures |StoreCode(sm, names)| == if sm.ExprStmt? then 1 else 2
  {
  }

  ghost predicate InitPlaced(m: Machine, init: Option<Simple>, names: seq<string>, p: nat, k: nat) {
    && Fits(m)
    && At(m.code, p, InitCode(init, names, p, k))
    && ConstsAt(m.consts, k, InitConsts(init))
    && Room(m, InitNeed(init))
    && InitLocals(init, |names|) <= m.locals
  }

  lemma InitRuns(m: Machine, init: Option<Simple>, names: seq<string>, start: nat, store: Store, p: nat, k: nat,
                 st: Stack, t: Targets, fuel: nat)
    requires InitPlaced(m, init, names, p, k) && start <= |names| && InitOk(init, names, start)
    requires InFrame(m, names, store, st)
    ensures Leads(m, p, st, ExecInit(m.ops, init, store), p + InitLen(init), t, names, InitNames(init, names), fuel)
  {
    hide SimpleCode, SimpleConsts, SimpleLen, SimpleOk, ExecSimple, Reaches, Ends, InFrame;
    if init.Some? {
      SimpleRuns(m, init.value, names, start, store, p, k, st, t, fuel);
    } else {
      Stay(m, p, st);
    }
  }

  // ----- statements -----

  ghost predicate StmtPlaced(m: Machine, s: Stmt, names: seq<string>, p: nat, k: nat, t: Targets) {
    && Fits(m)
    && At(m.code, p, StmtCode(s, names, p, k, t))
    && ConstsAt(m.consts, k, StmtConsts(s))
    && Room(m, StmtNeed(s))
    && StmtLocals(s, |names|) <= m.locals
    && t.brk < 65536 && t.cont < 65536 && t.fall < 65536
  }

  ghost predicate StmtsPlaced(m: Machine, ss: Stmts, names: seq<string>, p: nat, k: nat, t: Targets) {
    && Fits(m)
    && At(m.code, p, StmtsCode(ss, names, p, k, t))
    && ConstsAt(m.consts, k, StmtsConsts(ss))
    && Room(m, StmtsNeed(ss))
    && StmtsLocals(ss, |names|) <= m.locals
    && t.brk < 65536 && t.cont < 65536 && t.fall < 65536
  }

  /** The main theorem for statements; StmtsRuns and BlockRuns are the same for lists and blocks. */
  lemma {:induction false} StmtRuns(m: Machine, s: Stmt, names: seq<string>, start: nat, c: Context, store: Store,
                                    p: nat, k: nat, t: Targets, st: Stack, fuel: nat)
    requires StmtPlaced(m, s, names, p, k, t) && start <= |names| && StmtOk(s, names, start, c)
    requires InFrame(m, names, store, st)
    ensures Leads(m, p, st, Exec(m.ops, s, store, fuel), p + StmtLen(s), t, names, NamesIn(s, names), fuel)
    decreases fuel, s, 3
  {
    hide Exec, StmtOk, StmtCode, StmtConsts, StmtNeed, StmtLocals, StmtLen, InFrame, Leads, At, ConstsAt;
    match s
    case SimpleStmt(sm) =>
      SimpleUnfolds(m, s, names, start, c, store, p, k, t, fuel);
      SimpleRuns(m, sm, names, start, store, p, k, st, t, fuel);
    case Block(body) =>
      BlockUnfolds(m, s, names, start, c, store, p, k, t, fuel);
      BlockRuns(m, body, names, c, store, p, k, t, st, fuel);
    case If(_, _, _, _) => IfRuns(m, s, names, start, c, store, p, k, t, st, fuel);
    case For(_, _, _, _) => ForRuns(m, s, names, start, c, store, p, k, t, st, fuel);
    case Switch(_, _, _) => SwitchRuns(m, s, names, start, c, store, p, k, t, st, fuel);
    case Return(_) => ReturnRuns(m, s, names, start, c, store, p, k, t, st, fuel);
    case _ => BranchRuns(m, s, names, store, p, k, t, st, fuel);
  }

  lemma SimpleUnfolds(m: Machine, s: Stmt, names: seq<string>, start: nat, c: Context, store: Store,
                      p: nat, k: nat, t: Targets, fuel: nat)
    requires s.SimpleStmt? && StmtPlaced(m, s, names, p, k, t) && start <= |names| && StmtOk(s, names, start, c)
    ensures SimplePlaced(m, s.sm, names, p, k) && SimpleOk(s.sm, names, start)
    ensures Exec(m.ops, s, store, fuel) == ExecSimple(m.ops, s.sm, store)
    ensures StmtLen(s) == SimpleLen(s.sm)
  {
    hide ExecSimple, SimpleOk, SimpleCode, At, ConstsAt;
  }

  lemma BlockUnfolds(m: Machine, s: Stmt, names: seq<string>, start: nat, c: Context, store: Store,
                     p: nat, k: nat, t: Targets, fuel: nat)
    requires s.Block? && StmtPlaced(m, s, names, p, k, t) && start <= |names| && StmtOk(s, names, start, c)
    ensures StmtsPlaced(m, s.body, names, p, k, t) && StmtsOk(s.body, names, |names|, c)
    ensures Exec(m.ops, s, store, fuel) == ExecBlock(m.ops, s.body, store, fuel)
    ensures StmtLen(s) == StmtsLen(s.body)
  {
    hide ExecBlock, StmtsOk, StmtsCode, StmtsLen, StmtsConsts, StmtsNeed, StmtsLocals, At, ConstsAt;
  }

  lemma BranchRuns(m: Machine, s: Stmt, names: seq<string>, store: Store, p: nat, k: nat, t: Targets, st: Stack,
                   fuel: nat)
    requires s.Break? || s.Continue? || s.Fallthrough?
    requires StmtPlaced(m, s, names, p, k, t) && InFrame(m, names, store, st)
    ensures Leads(m, p, st, Exec(m.ops, s, store, fuel), p + StmtLen(s), t, names, NamesIn(s, names), fuel)
  {
    hide Reaches, Ends, InFrame, Jump, At;
    FrameLength(m, names, store, st);
    InFrameWhole(m, names, store, st);
    DoJump(m, p, OpJump, if s.Break? then t.brk else if s.Continue? then t.cont else t.fall, st);
  }

  lemma ReturnRuns(m: Machine, s: Stmt, names: seq<string>, start: nat, c: Context, store: Store,
                   p: nat, k: nat, t: Targets, st: Stack, fuel: nat)
    requires s.Return? && StmtPlaced(m, s, names, p, k, t) && start <= |names| && StmtOk(s, names, start, c)
    requires InFrame(m, names, store, st)
    ensures Leads(m, p, st, Exec(m.ops, s, store, fuel), p + StmtLen(s), t, names, NamesIn(s, names), fuel)
  {
    hide Reaches, Ends, ExprCode, ExprConsts, ExprNeed, ExprOk, Eval, At, ConstsAt;
    if s.result.None? {
      DoReturn(m, p, 0, st);
    } else {
      var e := s.result.value;
      AtSplit(m.code, p, ExprCode(e, names, p, k), Op1(OpReturn, 1));
      ExprRuns(m, e, names, store, p, k, st);
      var r := Eval(m.ops, e, store);
      if r.Ok? {
        var n: nat :| Reaches(m, p, st, n, p + ExprLen(e), st + [r.v]);
        DoReturn(m, p + ExprLen(e), 1, st + [r.v]);
        PopPushed(st, r.v);
        ThenEnds(m, p, st, n, p + ExprLen(e), st + [r.v], 1, Returned(r.v));
      }
    }
  }

  // ----- lists and blocks -----

  lemma ConsUnfolds(m: Machine, ss: Stmts, names: seq<string>, start: nat, c: Context, p: nat, k: nat, t: Targets)
    requires ss.Cons? && StmtsPlaced(m, ss, names, p, k, t) && start <= |names| && StmtsOk(ss, names, start, c)
    ensures StmtPlaced(m, ss.hd, names, p, k, t) && StmtOk(ss.hd, names, start, c)
    ensures StmtsPlaced(m, ss.tl, NamesIn(ss.hd, names), p + StmtLen(ss.hd), k + |StmtConsts(ss.hd)|, t)
    ensures StmtsOk(ss.tl, NamesIn(ss.hd, names), start, c)
    ensures StmtsLen(ss) == StmtLen(ss.hd) + StmtsLen(ss.tl)
    ensures IsPrefix(names, NamesIn(ss.hd, names))
  {
    hide StmtOk, StmtCode, StmtConsts, StmtNeed, StmtLocals, StmtLen, StmtsOk, StmtsCode, StmtsConsts, StmtsNeed,
        StmtsLocals,
         StmtsLen, At, ConstsAt;
    ConsShape(ss, names, start, c, p, k, t);
    var Cons(s, rest) := ss;
    AtSplit(m.code, p, StmtCode(s, names, p, k, t),
            StmtsCode(rest, NamesIn(s, names), p + StmtLen(s), k + |StmtConsts(s)|, t));
    ConstsSplit(m.consts, k, StmtConsts(s), StmtsConsts(rest));
  }

  lemma {:induction false} StmtsRuns(m: Machine, ss: Stmts, names: seq<string>, start: nat, c: Context, store: Store,
                                     p: nat, k: nat, t: Targets, st: Stack, fuel: nat)
    requires StmtsPlaced(m, ss, names, p, k, t) && start <= |names| && StmtsOk(ss, names, start, c)
    requires InFrame(m, names, store, st)
    ensures Leads(m, p, st, ExecList(m.ops, ss, store, fuel), p + StmtsLen(ss), t, names, StmtsNames(ss, names), fuel)
    decreases fuel, ss, 0
  {
    hide StmtsPlaced, StmtPlaced, StmtsOk, StmtOk, Exec, StmtCode, StmtConsts, StmtLen, Reaches, Ends, InFrame,
        InFrameTo;
    match ss
    case Nil => Stay(m, p, st);
    case Cons(s, rest) =>
      ConsUnfolds(m, ss, names, start, c, p, k, t);
      StmtRuns(m, s, names, start, c, store, p, k, t, st, fuel);
      var o := Exec(m.ops, s, store, fuel);
      if o.Norm? {
        var names1, p1 := NamesIn(s, names), p + StmtLen(s);
        var n: nat, st1 :| Reaches(m, p, st, n, p1, st1) && InFrame(m, names1, o.store, st1);
        StmtsRuns(m, rest, names1, start, c, o.store, p1, k + |StmtConsts(s)|, t, st1, fuel);
        var o1, q, after := ExecList(m.ops, rest, o.store, fuel), p + StmtsLen(ss), StmtsNames(ss, names);
        LeadsFewer(m, p1, st1, o1, q, t, names1, names, after, fuel);
        LeadsAfter(m, p, st, n, p1, st1, o1, q, t, names, after, fuel, fuel);
      }
  }

  lemma {:induction false} BlockRuns(m: Machine, ss: Stmts, names: seq<string>, c: Context, store: Store,
                                     p: nat, k: nat, t: Targets, st: Stack, fuel: nat)
    requires StmtsPlaced(m, ss, names, p, k, t) && StmtsOk(ss, names, |names|, c)
    requires InFrame(m, names, store, st)
    ensures Leads(m, p, st, ExecBlock(m.ops, ss, store, fuel), p + StmtsLen(ss), t, names, names, fuel)
    decreases fuel, ss, 1
  {
    hide StmtsPlaced, StmtsOk, ExecList, StmtsLen, StmtsNames, Leads, InFrame;
    FrameLength(m, names, store, st);
    StmtsRuns(m, ss, names, |names|, c, store, p, k, t, st, fuel);
    LeadsLeave(m, p, st, ExecList(m.ops, ss, store, fuel), p + StmtsLen(ss), t, names, StmtsNames(ss, names), fuel);
  }

  // ----- if -----

  /** A stop does not depend on where control would have gone. */
  lemma LeadsElsewhere(m: Machine, p: int, st: Stack, o: Outcome, q: int, q': int, t: Targets,
                       before: seq<string>, after: seq<string>, after': seq<string>, fuel: nat)
    requires !o.Norm? && Leads(m, p, st, o, q, t, before, after, fuel)
    ensures Leads(m, p, st, o, q', t, before, after', fuel)
  {
    hide Reaches, Ends, InFrame, InFrameTo;
  }

  /** An evaluation followed by JumpFalsy: control goes to pt or to pf with the stack as before. */
  lemma ConditionRuns(m: Machine, e: Expr, names: seq<string>, store: Store, p: nat, k: nat, pf: nat, st: Stack)
    returns (n: nat)
    requires Placed(m, e, names, p, k, |st|) && InFrame(m, names, store, st)
    requires pf < 65536 && At(m.code, p + ExprLen(e), Jump(OpJumpFalsy, pf))
    ensures var r := Eval(m.ops, e, store);
            if r.Fail? then Ends(m, p, st, n, Failed(OpError(r.code)))
            else Reaches(m, p, st, n, if m.ops.falsy(r.v) then pf else p + ExprLen(e) + 3, st)
  {
    hide Eval, Reaches, Ends, Placed, Matches, At, Jump, ExprLen;
    ExprRuns(m, e, names, store, p, k, st);
    var r := Eval(m.ops, e, store);
    if r.Fail? {
      n :| Ends(m, p, st, n, Failed(OpError(r.code)));
    } else {
      var a: nat :| Reaches(m, p, st, a, p + ExprLen(e), st + [r.v]);
      FalsyStep(m, p + ExprLen(e), pf, st, r.v);
      Then(m, p, st, a, p + ExprLen(e), st + [r.v], 1, if m.ops.falsy(r.v) then pf else p + ExprLen(e) + 3, st);
      n := a + 1;
    }
  }

  /** Where the parts of an if are placed. */
  lemma IfParts(m: Machine, s: Stmt, names: seq<string>, start: nat, c: Context, p: nat, k: nat, t: Targets)
    requires s.If? && StmtPlaced(m, s, names, p, k, t) && start <= |names| && StmtOk(s, names, start, c)
    ensures InitPlaced(m, s.init, names, p, k)
    ensures var ns, pc, kc := InitNames(s.init, names), p + InitLen(s.init), k + |InitConsts(s.init)|;
            var pb, kb := pc + ExprLen(s.cond) + 3, kc + |ExprConsts(s.cond)|;
            var pe := pb + StmtsLen(s.body) + (if s.els.Some? then 3 else 0);
            && |ns| == InitLocals(s.init, |names|)
            && Placed(m, s.cond, ns, pc, kc, |m.base| + m.locals)
            && At(m.code, pb - 3, Jump(OpJumpFalsy, pe)) && pe < 65536
            && StmtsPlaced(m, s.body, ns, pb, kb, t)
            && p + StmtLen(s) == pe + (if s.els.Some? then StmtLen(s.els.value) else 0) && p + StmtLen(s) < 65536
            && (s.els.Some? ==>
                  && At(m.code, pe - 3, Jump(OpJump, p + StmtLen(s)))
                  && StmtPlaced(m, s.els.value, ns, pe, kb + |StmtsConsts(s.body)|, t))
  {
    hide InitCode, InitNames, InitLen, InitConsts, InitNeed, InitLocals, InitOk, ExprCode, ExprLen, ExprConsts,
        ExprNeed, ExprOk,
         StmtsLen, StmtsCode, StmtsConsts, StmtsNeed, StmtsLocals, StmtsOk, StmtLen, StmtCode, StmtConsts, StmtNeed,
             StmtLocals,
         StmtOk, Jump, At, ConstsAt;
    IfShape(s, names, p, k, t);
    IfSizes(s, |names|);
    IfOk(s, names, start, c);
    InitCounts(s.init, names);
    AtInside(m.code, p, StmtCode(s, names, p, k, t));
    var ns, pc, kc := InitNames(s.init, names), p + InitLen(s.init), k + |InitConsts(s.init)|;
    var pb, kb := pc + ExprLen(s.cond) + 3, kc + |ExprConsts(s.cond)|;
    var pe := pb + StmtsLen(s.body) + (if s.els.Some? then 3 else 0);
    var ke := kb + |StmtsConsts(s.body)|;
    var a, b, j, d := InitCode(s.init, names, p, k), ExprCode(s.cond, ns, pc, kc), Jump(OpJumpFalsy, pe),
        StmtsCode(s.body, ns, pb, kb, t);
    var e := if s.els.None? then [] else Jump(OpJump, pe + StmtLen(s.els.value)) + StmtCode(s.els.value, ns, pe, ke, t);
    AtSplit(m.code, p, a + b + j + d, e);
    AtSplit(m.code, p, a + b + j, d);
    AtSplit(m.code, p, a + b, j);
    AtSplit(m.code, p, a, b);
    var x := if s.els.Some? then StmtConsts(s.els.value) else [];
    ConstsSplit(m.consts, k, InitConsts(s.init) + ExprConsts(s.cond) + StmtsConsts(s.body), x);
    ConstsSplit(m.consts, k, InitConsts(s.init) + ExprConsts(s.cond), StmtsConsts(s.body));
    ConstsSplit(m.consts, k, InitConsts(s.init), ExprConsts(s.cond));
    if s.els.Some? {
      AtSplit(m.code, pe - 3, Jump(OpJump, pe + StmtLen(s.els.value)), StmtCode(s.els.value, ns, pe, ke, t));
    }
  }

  lemma InitCounts(init: Option<Simple>, names: seq<string>)
    ensures |InitNames(init, names)| == InitLocals(init, |names|)
    ensures IsPrefix(names, InitNames(init, names))
    ensures forall n :: InitLocals(init, n) >= n
  {
  }

  lemma IfExec(ops: Objects, s: Stmt, store: Store, fuel: nat)
    requires s.If?
    ensures var o := ExecInit(ops, s.init, store);
            Exec(ops, s, store, fuel) == if !o.Norm? then o else IfAfter(ops, s, o.store, |store|, fuel)
  {
    hide ExecInit, ExecBlock, Eval;
  }

  /** An if after its init statement. */
  function IfAfter(ops: Objects, s: Stmt, store: Store, n: nat, fuel: nat): Outcome
    requires s.If?
  {
    var r := Eval(ops, s.cond, store);
    if r.Fail? then Err(r.code)
    else if !ops.falsy(r.v) then Leave(ExecBlock(ops, s.body, store, fuel), n)
    else if s.els.Some? then Leave(Exec(ops, s.els.value, store, fuel), n)
    else Leave(Norm(store), n)
  }

  lemma {:induction false} IfRuns(m: Machine, s: Stmt, names: seq<string>, start: nat, c: Context, store: Store,
                                  p: nat, k: nat, t: Targets, st: Stack, fuel: nat)
    requires s.If? && StmtPlaced(m, s, names, p, k, t) && start <= |names| && StmtOk(s, names, start, c)
    requires InFrame(m, names, store, st)
    ensures Leads(m, p, st, Exec(m.ops, s, store, fuel), p + StmtLen(s), t, names, NamesIn(s, names), fuel)
    decreases fuel, s, 2
  {
    hide StmtPlaced, InitPlaced, StmtsPlaced, Placed, StmtOk, InitOk, StmtLen, InitLen, Exec, ExecInit, IfAfter,
        InFrame, Reaches, Ends, InitNames;
    FrameLength(m, names, store, st);
    IfOk(s, names, start, c);
    IfParts(m, s, names, start, c, p, k, t);
    IfExec(m.ops, s, store, fuel);
    var ns, pc, end := InitNames(s.init, names), p + InitLen(s.init), p + StmtLen(s);
    InitRuns(m, s.init, names, |names|, store, p, k, st, t, fuel);
    var o := ExecInit(m.ops, s.init, store);
    if o.Norm? {
      var n: nat, st1 :| Reaches(m, p, st, n, pc, st1) && InFrame(m, ns, o.store, st1);
      IfAfterRuns(m, s, names, start, c, o.store, p, k, t, st1, fuel);
      LeadsAfter(m, p, st, n, pc, st1, IfAfter(m.ops, s, o.store, |names|, fuel), end, t, names, names, fuel, fuel);
    } else {
      LeadsElsewhere(m, p, st, o, pc, end, t, names, ns, names, fuel);
    }
  }

  lemma {:induction false} IfAfterRuns(m: Machine, s: Stmt, names: seq<string>, start: nat, c: Context, store: Store,
                                       p: nat, k: nat, t: Targets, st: Stack, fuel: nat)
    requires s.If? && StmtPlaced(m, s, names, p, k, t) && start <= |names| && StmtOk(s, names, start, c)
    requires InFrame(m, InitNames(s.init, names), store, st)
    ensures Leads(m, p + InitLen(s.init), st, IfAfter(m.ops, s, store, |names|, fuel), p + StmtLen(s), t, names, names,
                  fuel)
    decreases fuel, s, 1
  {
    hide StmtPlaced, InitPlaced, StmtsPlaced, Placed, StmtOk, InitOk, StmtsOk, StmtLen, InitLen, StmtsLen, ExprLen,
         Exec, ExecBlock, Eval, Matches, Reaches, Ends, InitNames, Leads, Leave, At, Jump;
    IfOk(s, names, start, c);
    IfParts(m, s, names, start, c, p, k, t);
    InitCounts(s.init, names);
    var ns, pc, kc := InitNames(s.init, names), p + InitLen(s.init), k + |InitConsts(s.init)|;
    var pb, kb := pc + ExprLen(s.cond) + 3, kc + |ExprConsts(s.cond)|;
    var pe := pb + StmtsLen(s.body) + (if s.els.Some? then 3 else 0);
    var end := p + StmtLen(s);
    var n := ConditionRuns(m, s.cond, ns, store, pc, kc, pe, st);
    var r := Eval(m.ops, s.cond, store);
    if r.Fail? {
      ErrLeads(m, pc, st, n, r.code, end, t, names, names, fuel);
    } else if !m.ops.falsy(r.v) {
      BlockRuns(m, s.body, ns, c, store, pb, kb, t, st, fuel);
      var o := ExecBlock(m.ops, s.body, store, fuel);
      if s.els.Some? {
        LeadsJump(m, pb, st, o, pe - 3, end, t, ns, ns, fuel);
      }
      LeadsFewer(m, pb, st, o, end, t, ns, names, ns, fuel);
      LeadsLeave(m, pb, st, o, end, t, names, ns, fuel);
      LeadsAfter(m, pc, st, n, pb, st, Leave(o, |names|), end, t, names, names, fuel, fuel);
    } else if s.els.Some? {
      StmtRuns(m, s.els.value, ns, |names|, c, store, pe, kb + |StmtsConsts(s.body)|, t, st, fuel);
      var o := Exec(m.ops, s.els.value, store, fuel);
      LeadsFewer(m, pe, st, o, end, t, ns, names, ns, fuel);
      LeadsLeave(m, pe, st, o, end, t, names, ns, fuel);
      LeadsAfter(m, pc, st, n, pe, st, Leave(o, |names|), end, t, names, names, fuel, fuel);
    } else {
      NormLeads(m, pe, st, store, t, names, ns, fuel);
      LeadsLeave(m, pe, st, Norm(store), end, t, names, ns, fuel);
      LeadsAfter(m, pc, st, n, pe, st, Leave(Norm(store), |names|), end, t, names, names, fuel, fuel);
    }
  }

  lemma ErrLeads(m: Machine, p: int, st: Stack, n: nat, code: int, q: int, t: Targets,
                 before: seq<string>, after: seq<string>, fuel: nat)
    requires Ends(m, p, st, n, Failed(OpError(code)))
    ensures Leads(m, p, st, Err(code), q, t, before, after, fuel)
  {
    hide Reaches, Ends;
  }

  lemma NormLeads(m: Machine, p: int, st: Stack, store: Store, t: Targets, before: seq<string>, names: seq<string>,
                  fuel: nat)
    requires InFrame(m, names, store, st)
    ensures Leads(m, p, st, Norm(store), p, t, before, names, fuel)
  {
    hide Reaches, InFrame;
    Stay(m, p, st);
  }

  // ----- for -----

  ghost predicate LoopPlaced(m: Machine, c: Option<Expr>, post: Option<Simple>, body: Stmts, names: seq<string>,
                             p: nat, k: nat, fall: nat) {
    && Fits(m)
    && At(m.code, p, LoopCode(c, post, body, names, p, k, fall))
    && ConstsAt(m.consts, k, OptConsts(c) + StmtsConsts(body) + InitConsts(post))
    && Room(m, OptNeed(c)) && Room(m, StmtsNeed(body)) && Room(m, InitNeed(post))
    && StmtsLocals(body, |names|) <= m.locals && InitLocals(post, |names|) <= m.locals
    && fall < 65536
  }

  lemma LoopParts(m: Machine, c: Option<Expr>, post: Option<Simple>, body: Stmts, names: seq<string>, p: nat, k: nat,
                  fall: nat)
    requires LoopPlaced(m, c, post, body, names, p, k, fall)
    ensures var pb, kb := p + CondLen(c), k + |OptConsts(c)|;
            var pp, end := pb + StmtsLen(body), p + LoopLen(c, post, body);
            && end == pp + InitLen(post) + 3 < 65536
            && At(m.code, p, CondCode(c, names, p, k, end)) && ConstsAt(m.consts, k, OptConsts(c))
            && StmtsPlaced(m, body, names, pb, kb, Targets(end, pp, fall))
            && InitPlaced(m, post, names, pp, kb + |StmtsConsts(body)|)
            && At(m.code, end - 3, Jump(OpJump, p)) && p < 65536
  {
    hide CondCode, StmtsCode, InitCode, OptConsts, StmtsConsts, InitConsts, OptNeed, StmtsNeed, InitNeed,
         StmtsLocals, InitLocals, CondLen, StmtsLen, InitLen, At, ConstsAt, Jump;
    var pb, kb := p + CondLen(c), k + |OptConsts(c)|;
    var pp, end := pb + StmtsLen(body), p + LoopLen(c, post, body);
    var a, b := CondCode(c, names, p, k, end), StmtsCode(body, names, pb, kb, Targets(end, pp, fall));
    var d, j := InitCode(post, names, pp, kb + |StmtsConsts(body)|), Jump(OpJump, p);
    AtInside(m.code, p, LoopCode(c, post, body, names, p, k, fall));
    AtSplit(m.code, p, a + b + d, j);
    AtSplit(m.code, p, a + b, d);
    AtSplit(m.code, p, a, b);
    ConstsSplit(m.consts, k, OptConsts(c) + StmtsConsts(body), InitConsts(post));
    ConstsSplit(m.consts, k, OptConsts(c), StmtsConsts(body));
  }

  /** The condition of a loop, if there is one. */
  lemma LoopConditionRuns(m: Machine, c: Option<Expr>, names: seq<string>, store: Store, p: nat, k: nat, end: nat,
                          st: Stack)
    returns (n: nat)
    requires Fits(m) && At(m.code, p, CondCode(c, names, p, k, end)) && ConstsAt(m.consts, k, OptConsts(c))
    requires Room(m, OptNeed(c)) && OptOk(c, names) && end < 65536 && InFrame(m, names, store, st)
    ensures var r := if c.Some? then Eval(m.ops, c.value, store) else Ok(Bool(true));
            if r.Fail? then Ends(m, p, st, n, Failed(OpError(r.code)))
            else Reaches(m, p, st, n, if c.Some? && m.ops.falsy(r.v) then end else p + CondLen(c), st)
  {
    hide Eval, Reaches, Ends, InFrame, ExprCode, ExprConsts, ExprNeed, ExprOk, At, ConstsAt, Jump;
    if c.None? {
      Stay(m, p, st);
      n := 0;
    } else {
      FrameHeight(m, names, store, st);
      AtSplit(m.code, p, ExprCode(c.value, names, p, k), Jump(OpJumpFalsy, end));
      n := ConditionRuns(m, c.value, names, store, p, k, end, st);
    }
  }

  lemma FrameHeight(m: Machine, names: seq<string>, store: Store, st: Stack)
    requires InFrame(m, names, store, st)
    ensures |st| == |m.base| + m.locals
  {
  }

  /** A block keeps no variables of its own. */
  lemma LeftFrame(m: Machine, names: seq<string>, o: Outcome, st: Stack)
    requires o.Brk? || o.Cont? || o.Norm? || o.Fall?
    requires InFrameTo(m, names, o.store, st) && Leave(o, |names|) == o
    ensures InFrame(m, names, o.store, st)
  {
    assert o.store[..|names|] == o.store;
  }

  lemma LeaveTwice(o: Outcome, n: nat)
    ensures Leave(Leave(o, n), n) == Leave(o, n)
  {
  }

  lemma ForParts(m: Machine, s: Stmt, names: seq<string>, start: nat, c: Context, p: nat, k: nat, t: Targets)
    requires s.For? && StmtPlaced(m, s, names, p, k, t) && start <= |names| && StmtOk(s, names, start, c)
    ensures InitPlaced(m, s.init, names, p, k) && InitOk(s.init, names, |names|)
    ensures var ns := InitNames(s.init, names);
            && LoopPlaced(m, s.forCond, s.post, s.body, ns, p + InitLen(s.init), k + |InitConsts(s.init)|, t.fall)
            && StmtLen(s) == InitLen(s.init) + LoopLen(s.forCond, s.post, s.body)
            && OptOk(s.forCond, ns) && StmtsOk(s.body, ns, |ns|, Context(LoopFrame, c.fallOk))
            && |names| <= |ns| && InitOk(s.post, ns, |names|)
  {
    hide InitCode, LoopCode, InitNames, OptConsts, StmtsConsts, InitConsts, OptNeed, StmtsNeed, InitNeed,
         StmtsLocals, InitLocals, LoopLen, InitLen, InitOk, StmtsOk, OptOk, At, ConstsAt;
    InitCounts(s.init, names);
    var pl, kl := p + InitLen(s.init), k + |InitConsts(s.init)|;
    AtSplit(m.code, p, InitCode(s.init, names, p, k),
            LoopCode(s.forCond, s.post, s.body, InitNames(s.init, names), pl, kl, t.fall));
    var a, b, d := OptConsts(s.forCond), StmtsConsts(s.body), InitConsts(s.post);
    assert InitConsts(s.init) + a + b + d == InitConsts(s.init) + (a + b + d);
    ConstsSplit(m.consts, k, InitConsts(s.init), a + b + d);
  }

  lemma ForExec(ops: Objects, s: Stmt, store: Store, fuel: nat)
    requires s.For?
    ensures var o := ExecInit(ops, s.init, store);
            Exec(ops, s, store, fuel)
            == if !o.Norm? then o else Leave(ExecLoop(ops, s.forCond, s.post, s.body, o.store, fuel), |store|)
  {
    hide ExecInit, ExecLoop, Leave;
  }

  lemma {:induction false} ForRuns(m: Machine, s: Stmt, names: seq<string>, start: nat, c: Context, store: Store,
                                   p: nat, k: nat, t: Targets, st: Stack, fuel: nat)
    requires s.For? && StmtPlaced(m, s, names, p, k, t) && start <= |names| && StmtOk(s, names, start, c)
    requires InFrame(m, names, store, st)
    ensures Leads(m, p, st, Exec(m.ops, s, store, fuel), p + StmtLen(s), t, names, NamesIn(s, names), fuel)
    decreases fuel, s, 2
  {
    hide StmtPlaced, InitPlaced, LoopPlaced, StmtOk, InitOk, StmtsOk, OptOk, StmtLen, InitLen, LoopLen, Exec, ExecInit,
        ExecLoop,
         InFrame, Reaches, Ends, InitNames, Leave;
    FrameLength(m, names, store, st);
    ForParts(m, s, names, start, c, p, k, t);
    InitCounts(s.init, names);
    ForExec(m.ops, s, store, fuel);
    var ns, pl, end := InitNames(s.init, names), p + InitLen(s.init), p + StmtLen(s);
    InitRuns(m, s.init, names, |names|, store, p, k, st, t, fuel);
    var o := ExecInit(m.ops, s.init, store);
    if o.Norm? {
      var n: nat, st1 :| Reaches(m, p, st, n, pl, st1) && InFrame(m, ns, o.store, st1);
      LoopRuns(m, s.forCond, s.post, s.body, ns, |names|, c, o.store, pl, k + |InitConsts(s.init)|, t, st1, fuel);
      var o1 := ExecLoop(m.ops, s.forCond, s.post, s.body, o.store, fuel);
      LeadsFewer(m, pl, st1, o1, end, t, ns, names, ns, fuel);
      LeadsLeave(m, pl, st1, o1, end, t, names, ns, fuel);
      LeadsAfter(m, p, st, n, pl, st1, Leave(o1, |names|), end, t, names, names, fuel, fuel);
    } else {
      LeadsElsewhere(m, p, st, o, pl, end, t, names, ns, names, fuel);
    }
  }

  lemma LoopExec(ops: Objects, c: Option<Expr>, post: Option<Simple>, body: Stmts, store: Store, fuel: nat)
    ensures var r := if c.Some? then Eval(ops, c.value, store) else Ok(Bool(true));
            var o := ExecBlock(ops, body, store, fuel);
            ExecLoop(ops, c, post, body, store, fuel)
            == if r.Fail? then Err(r.code)
               else if c.Some? && ops.falsy(r.v) then Norm(store)
               else AfterRound(ops, c, post, body, o, fuel)
    ensures Leave(ExecBlock(ops, body, store, fuel), |store|) == ExecBlock(ops, body, store, fuel)
  {
    hide Eval, ExecPost, ExecList;
    LeaveTwice(ExecList(ops, body, store, fuel), |store|);
  }

  /** A loop after its body has ended in o. */
  function AfterRound(ops: Objects, c: Option<Expr>, post: Option<Simple>, body: Stmts, o: Outcome,
                      fuel: nat): Outcome {
    if o.Brk? then Norm(o.store)
    else if o.Norm? || o.Cont? then ExecPost(ops, c, post, body, o.store, fuel)
    else o
  }

  lemma {:induction false} LoopRuns(m: Machine, c: Option<Expr>, post: Option<Simple>, body: Stmts, names: seq<string>,
                                    start: nat, ctx: Context, store: Store, p: nat, k: nat, t: Targets, st: Stack,
                                        fuel: nat)
    requires LoopPlaced(m, c, post, body, names, p, k, t.fall)
    requires OptOk(c, names) && StmtsOk(body, names, |names|, Context(LoopFrame, ctx.fallOk))
    requires start <= |names| && InitOk(post, names, start)
    requires InFrame(m, names, store, st)
    ensures Leads(m, p, st, ExecLoop(m.ops, c, post, body, store, fuel), p + LoopLen(c, post, body), t, names, names,
                  fuel)
    decreases fuel, body, 3
  {
    hide InitPlaced, StmtsPlaced, InitOk, StmtsOk, OptOk, StmtsLen, InitLen, CondLen, LoopLen, LoopCode, CondCode,
         OptConsts, OptNeed, StmtsNeed, InitNeed, StmtsLocals, InitLocals, At, ConstsAt, Jump,
         Eval, ExecBlock, ExecLoop, ExecPost, AfterRound, InFrame, Reaches, Ends, Leave, Leads;
    FrameLength(m, names, store, st);
    LoopParts(m, c, post, body, names, p, k, t.fall);
    LoopExec(m.ops, c, post, body, store, fuel);
    var pb, kb := p + CondLen(c), k + |OptConsts(c)|;
    var pp, end := pb + StmtsLen(body), p + LoopLen(c, post, body);
    var n := LoopConditionRuns(m, c, names, store, p, k, end, st);
    var r := if c.Some? then Eval(m.ops, c.value, store) else Ok(Bool(true));
    if r.Fail? {
      ErrLeads(m, p, st, n, r.code, end, t, names, names, fuel);
    } else if c.Some? && m.ops.falsy(r.v) {
      NormLeads(m, end, st, store, t, names, names, fuel);
      LeadsAfter(m, p, st, n, end, st, Norm(store), end, t, names, names, fuel, fuel);
    } else {
      BlockRuns(m, body, names, Context(LoopFrame, ctx.fallOk), store, pb, kb, Targets(end, pp, t.fall), st, fuel);
      var o := ExecBlock(m.ops, body, store, fuel);
      RoundRuns(m, c, post, body, names, start, ctx, o, p, k, t, pb, st, fuel);
      LeadsAfter(m, p, st, n, pb, st, AfterRound(m.ops, c, post, body, o, fuel), end, t, names, names, fuel, fuel);
    }
  }

  /** From the end of the body on. */
  lemma {:induction false} RoundRuns(m: Machine, c: Option<Expr>, post: Option<Simple>, body: Stmts, names: seq<string>,
                                     start: nat, ctx: Context, o: Outcome, p: nat, k: nat, t: Targets, pb: nat,
                                         st: Stack, fuel: nat)
    requires LoopPlaced(m, c, post, body, names, p, k, t.fall)
    requires OptOk(c, names) && StmtsOk(body, names, |names|, Context(LoopFrame, ctx.fallOk))
    requires start <= |names| && InitOk(post, names, start)
    requires Leave(o, |names|) == o
    requires var pp := p + CondLen(c) + StmtsLen(body);
             Leads(m, pb, st, o, pp, Targets(p + LoopLen(c, post, body), pp, t.fall), names, names, fuel)
    ensures Leads(m, pb, st, AfterRound(m.ops, c, post, body, o, fuel), p + LoopLen(c, post, body), t, names, names,
                  fuel)
    decreases fuel, body, 2
  {
    hide LoopPlaced, InitOk, StmtsOk, OptOk, StmtsLen, CondLen, LoopLen, ExecPost, InFrame, InFrameTo, Reaches, Ends,
        Leave;
    var pp, end := p + CondLen(c) + StmtsLen(body), p + LoopLen(c, post, body);
    match o
    case Brk(store) =>
      var n: nat, st1 :| Reaches(m, pb, st, n, end, st1) && InFrameTo(m, names, store, st1);
      LeftFrame(m, names, o, st1);
    case Norm(store) =>
      var n: nat, st1 :| Reaches(m, pb, st, n, pp, st1) && InFrame(m, names, store, st1);
      PostRuns(m, c, post, body, names, start, ctx, store, p, k, t, st1, fuel);
      LeadsAfter(m, pb, st, n, pp, st1, ExecPost(m.ops, c, post, body, store, fuel), end, t, names, names, fuel, fuel);
    case Cont(store) =>
      var n: nat, st1 :| Reaches(m, pb, st, n, pp, st1) && InFrameTo(m, names, store, st1);
      LeftFrame(m, names, o, st1);
      PostRuns(m, c, post, body, names, start, ctx, store, p, k, t, st1, fuel);
      LeadsAfter(m, pb, st, n, pp, st1, ExecPost(m.ops, c, post, body, store, fuel), end, t, names, names, fuel, fuel);
    case _ =>
  }

  lemma {:induction false} PostRuns(m: Machine, c: Option<Expr>, post: Option<Simple>, body: Stmts, names: seq<string>,
                                    start: nat, ctx: Context, store: Store, p: nat, k: nat, t: Targets, st: Stack,
                                        fuel: nat)
    requires LoopPlaced(m, c, post, body, names, p, k, t.fall)
    requires OptOk(c, names) && StmtsOk(body, names, |names|, Context(LoopFrame, ctx.fallOk))
    requires start <= |names| && InitOk(post, names, start)
    requires InFrame(m, names, store, st)
    ensures Leads(m, p + CondLen(c) + StmtsLen(body), st, ExecPost(m.ops, c, post, body, store, fuel),
                  p + LoopLen(c, post, body), t, names, names, fuel)
    decreases fuel, body, 0
  {
    hide LoopPlaced, InitPlaced, StmtsPlaced, InitOk, StmtsOk, OptOk, StmtsLen, InitLen, CondLen, LoopLen,
         ExecInit, ExecLoop, InFrame, Reaches, Ends, Leave, At, Jump, CondCode, OptConsts, ConstsAt, InitNames;
    FrameLength(m, names, store, st);
    LoopParts(m, c, post, body, names, p, k, t.fall);
    InitCounts(post, names);
    var pp, end := p + CondLen(c) + StmtsLen(body), p + LoopLen(c, post, body);
    InitRuns(m, post, names, start, store, pp, k + |OptConsts(c)| + |StmtsConsts(body)|, st, t, fuel);
    var o := ExecInit(m.ops, post, store);
    LeadsLeave(m, pp, st, o, end - 3, t, names, InitNames(post, names), fuel);
    var o1 := Leave(o, |names|);
    if o1.Norm? {
      var n: nat, st1 :| Reaches(m, pp, st, n, end - 3, st1) && InFrame(m, names, o1.store, st1);
      DoJump(m, end - 3, OpJump, p, st1);
      Then(m, pp, st, n, end - 3, st1, 1, p, st1);
      if fuel > 0 {
        LoopRuns(m, c, post, body, names, start, ctx, o1.store, p, k, t, st1, fuel - 1);
        LeadsAfter(m, pp, st, n + 1, p, st1, ExecLoop(m.ops, c, post, body, o1.store, fuel - 1), end, t, names, names,
                   fuel - 1, fuel);
      }
    } else {
      LeadsElsewhere(m, pp, st, o1, end - 3, end, t, names, names, names, fuel);
    }
  }

  // ----- switch -----

  ghost predicate PrePlaced(m: Machine, tag: Option<Expr>, exprs: seq<Expr>, names: seq<string>, p: nat, k: nat,
                            miss: nat) {
    && Fits(m)
    && At(m.code, p, PreCode(tag, exprs, names, p, k, p + PreLen(tag, exprs), miss))
    && ConstsAt(m.consts, k, PreConsts(tag, exprs))
    && Room(m, PreNeed(tag, exprs)) && PreOk(tag, exprs, names)
    && miss < 65536
  }

  /** The comparisons of one case lead to its body, which is placed behind them, or to `miss`. */
  ghost predicate Compares(m: Machine, p: int, st: Stack, n: nat, h: Hit, hit: int, miss: int) {
    match h
    case Error(c) => Ends(m, p, st, n, Failed(OpError(c)))
    case Hit(_) => Reaches(m, p, st, n, hit, st)
    case Miss => Reaches(m, p, st, n, miss, st)
  }

  lemma ComparesAfter(m: Machine, p: int, st: Stack, a: nat, p1: int, n: nat, h: Hit, hit: int, miss: int)
    requires Reaches(m, p, st, a, p1, st) && Compares(m, p1, st, n, h, hit, miss)
    ensures Compares(m, p, st, a + n, h, hit, miss)
  {
    hide Reaches, Ends;
    match h
    case Error(c) => ThenEnds(m, p, st, a, p1, st, n, Failed(OpError(c)));
    case Hit(_) => Then(m, p, st, a, p1, st, n, hit, st);
    case Miss => Then(m, p, st, a, p1, st, n, miss, st);
  }

  lemma MatchOneIs(ops: Objects, tag: Option<Expr>, e: Expr, store: Store)
    ensures MatchOne(ops, tag, e, store) == Eval(ops, Comparison(tag, e), store)
  {
    hide Eval;
  }

  lemma PreShape(tag: Option<Expr>, exprs: seq<Expr>, names: seq<string>, p: nat, k: nat, hit: nat, miss: nat)
    requires exprs != []
    ensures var c := Comparison(tag, exprs[0]);
            var p1, k1 := p + ExprLen(c), k + |ExprConsts(c)|;
            PreCode(tag, exprs, names, p, k, hit, miss)
            == ExprCode(c, names, p, k)
               + (if |exprs| == 1 then Jump(OpJumpFalsy, miss)
                  else Jump(OpJumpFalsy, p1 + 6) + Jump(OpJump, hit)
                       + PreCode(tag, exprs[1..], names, p1 + 6, k1, hit, miss))
  {
    hide ExprCode, ExprLen, ExprConsts, Jump, Comparison;
  }

  lemma PreSizes(tag: Option<Expr>, exprs: seq<Expr>, names: seq<string>)
    requires exprs != []
    ensures var c, rest := Comparison(tag, exprs[0]), exprs[1..];
            && PreLen(tag, exprs) == ExprLen(c) + (if |exprs| == 1 then 3 else 6 + PreLen(tag, rest))
            && PreConsts(tag, exprs) == ExprConsts(c) + PreConsts(tag, rest)
            && ExprNeed(c) <= PreNeed(tag, exprs) && PreNeed(tag, rest) <= PreNeed(tag, exprs)
            && (PreOk(tag, exprs, names) ==> ExprOk(c, names) && PreOk(tag, rest, names))
  {
    hide ExprLen, ExprConsts, ExprNeed, ExprOk, Comparison;
    if |exprs| == 1 { assert exprs[1..] == []; }
  }

  lemma PreParts(m: Machine, tag: Option<Expr>, exprs: seq<Expr>, names: seq<string>, p: nat, k: nat, miss: nat)
    requires exprs != [] && PrePlaced(m, tag, exprs, names, p, k, miss)
    ensures var c := Comparison(tag, exprs[0]);
            var p1, hit := p + ExprLen(c), p + PreLen(tag, exprs);
            && Placed(m, c, names, p, k, |m.base| + m.locals) && hit < 65536 && miss < 65536
            && (|exprs| == 1 ==> At(m.code, p1, Jump(OpJumpFalsy, miss)) && hit == p1 + 3)
            && (|exprs| > 1 ==>
                  && At(m.code, p1, Jump(OpJumpFalsy, p1 + 6)) && At(m.code, p1 + 3, Jump(OpJump, hit))
                  && p1 + 6 < 65536 && hit == p1 + 6 + PreLen(tag, exprs[1..])
                  && PrePlaced(m, tag, exprs[1..], names, p1 + 6, k + |ExprConsts(c)|, miss))
  {
    hide ExprCode, ExprLen, ExprConsts, ExprNeed, ExprOk, PreCode, PreLen, PreConsts, PreNeed, PreOk,
         At, ConstsAt, Jump, Comparison;
    var c := Comparison(tag, exprs[0]);
    var p1, k1, hit := p + ExprLen(c), k + |ExprConsts(c)|, p + PreLen(tag, exprs);
    AtInside(m.code, p, PreCode(tag, exprs, names, p, k, hit, miss));
    PreShape(tag, exprs, names, p, k, hit, miss);
    PreSizes(tag, exprs, names);
    var a := ExprCode(c, names, p, k);
    ConstsSplit(m.consts, k, ExprConsts(c), PreConsts(tag, exprs[1..]));
    if |exprs| == 1 {
      AtSplit(m.code, p, a, Jump(OpJumpFalsy, miss));
    } else {
      var rest := PreCode(tag, exprs[1..], names, p1 + 6, k1, hit, miss);
      AtSplit(m.code, p, a, Jump(OpJumpFalsy, p1 + 6) + Jump(OpJump, hit) + rest);
      AtSplit(m.code, p1, Jump(OpJumpFalsy, p1 + 6) + Jump(OpJump, hit), rest);
      AtSplit(m.code, p1, Jump(OpJumpFalsy, p1 + 6), Jump(OpJump, hit));
    }
  }

  lemma {:induction false} PreRuns(m: Machine, tag: Option<Expr>, exprs: seq<Expr>, names: seq<string>, store: Store,
                                   p: nat, k: nat, miss: nat, st: Stack) returns (n: nat)
    requires exprs != [] && PrePlaced(m, tag, exprs, names, p, k, miss) && InFrame(m, names, store, st)
    ensures Compares(m, p, st, n, MatchExprs(m.ops, tag, exprs, store), p + PreLen(tag, exprs), miss)
    decreases |exprs|
  {
    hide PrePlaced, Placed, ExprLen, PreLen, Eval, MatchOne, InFrame, Reaches, Ends, Jump, At, Comparison;
    FrameHeight(m, names, store, st);
    PreParts(m, tag, exprs, names, p, k, miss);
    MatchOneIs(m.ops, tag, exprs[0], store);
    var c := Comparison(tag, exprs[0]);
    var p1, hit := p + ExprLen(c), p + PreLen(tag, exprs);
    var r := Eval(m.ops, c, store);
    if |exprs| == 1 {
      n := ConditionRuns(m, c, names, store, p, k, miss, st);
      assert exprs[1..] == [];
    } else {
      n := ConditionRuns(m, c, names, store, p, k, p1 + 6, st);
      if r.Ok? && m.ops.falsy(r.v) {
        var n1 := PreRuns(m, tag, exprs[1..], names, store, p1 + 6, k + |ExprConsts(c)|, miss, st);
        ComparesAfter(m, p, st, n, p1 + 6, n1, MatchExprs(m.ops, tag, exprs[1..], store), hit, miss);
        n := n + n1;
      } else if r.Ok? {
        DoJump(m, p1 + 3, OpJump, hit, st);
        Then(m, p, st, n, p1 + 3, st, 1, hit, st);
        n := n + 1;
      }
    }
  }

  ghost predicate CasesPlaced(m: Machine, cl: Clauses, tag: Option<Expr>, names: seq<string>, p: nat, k: nat,
                              end: nat) {
    && Fits(m)
    && At(m.code, p, CasesCode(cl, tag, names, p, k, end))
    && ConstsAt(m.consts, k, CasesConsts(cl, tag))
    && Room(m, CasesNeed(cl, tag))
    && CasesLocals(cl, |names|) <= m.locals
    && end < 65536 && p + CasesLen(cl, tag) <= end
  }

  /** Where the body of case k is, defaults not counted; behind the cases when there is none. */
  function BodyPos(cl: Clauses, tag: Option<Expr>, p: nat, k: nat): nat {
    match cl
    case NoMore => p
    case Default(_, rest) => BodyPos(rest, tag, p, k)
    case Case(exprs, body, rest) =>
      if k == 0 then p + PreLen(tag, exprs)
      else BodyPos(rest, tag, p + PreLen(tag, exprs) + StmtsLen(body) + 3, k - 1)
  }

  lemma {:induction false} FallTargetIsNextBody(cl: Clauses, tag: Option<Expr>, p: nat)
    ensures FallTarget(cl, tag, p) == BodyPos(cl, tag, p, 0)
    ensures FallTarget(cl, tag, p) <= p + CasesLen(cl, tag)
  {
    hide PreLen, StmtsLen;
    if cl.Default? { FallTargetIsNextBody(cl.rest, tag, p); }
  }

  lemma DefaultSkipped(m: Machine, cl: Clauses, tag: Option<Expr>, names: seq<string>, p: nat, k: nat, end: nat,
                       dflt: bool)
    requires cl.Default? && CasesPlaced(m, cl, tag, names, p, k, end) && CasesOk(cl, tag, names, dflt)
    ensures CasesPlaced(m, cl.rest, tag, names, p, k, end) && CasesOk(cl.rest, tag, names, dflt)
    ensures CasesLen(cl, tag) == CasesLen(cl.rest, tag)
  {
    hide At, ConstsAt;
  }

  lemma CaseShape(cl: Clauses, tag: Option<Expr>, names: seq<string>, p: nat, k: nat, end: nat)
    requires cl.Case?
    ensures var pb, kb := p + PreLen(tag, cl.exprs), k + |PreConsts(tag, cl.exprs)|;
            var next := pb + StmtsLen(cl.body) + 3;
            CasesCode(cl, tag, names, p, k, end)
            == PreCode(tag, cl.exprs, names, p, k, pb, next)
               + StmtsCode(cl.body, names, pb, kb, Targets(end, 0, FallTarget(cl.rest, tag, next)))
               + Jump(OpJump, end)
               + CasesCode(cl.rest, tag, names, next, kb + |StmtsConsts(cl.body)|, end)
  {
    hide PreLen, PreConsts, PreCode, StmtsLen, StmtsCode, StmtsConsts, Jump, FallTarget;
  }

  lemma CaseSizes(cl: Clauses, tag: Option<Expr>, names: seq<string>, n: nat, dflt: bool)
    requires cl.Case?
    ensures CasesConsts(cl, tag) == PreConsts(tag, cl.exprs) + StmtsConsts(cl.body) + CasesConsts(cl.rest, tag)
    ensures CasesLen(cl, tag) == PreLen(tag, cl.exprs) + StmtsLen(cl.body) + 3 + CasesLen(cl.rest, tag)
    ensures PreNeed(tag, cl.exprs) <= CasesNeed(cl, tag) && StmtsNeed(cl.body) <= CasesNeed(cl, tag)
    ensures CasesNeed(cl.rest, tag) <= CasesNeed(cl, tag)
    ensures StmtsLocals(cl.body, n) <= CasesLocals(cl, n) && CasesLocals(cl.rest, n) <= CasesLocals(cl, n)
    ensures CasesOk(cl, tag, names, dflt) ==>
              && cl.exprs != [] && PreOk(tag, cl.exprs, names)
              && StmtsOk(cl.body, names, |names|, Context(SwitchFrame, HasCase(cl.rest) || dflt))
              && CasesOk(cl.rest, tag, names, dflt)
  {
    hide PreLen, PreConsts, PreNeed, PreOk, StmtsLen, StmtsConsts, StmtsNeed, StmtsLocals, StmtsOk;
  }

  lemma CaseParts(m: Machine, cl: Clauses, tag: Option<Expr>, names: seq<string>, p: nat, k: nat, end: nat, dflt: bool)
    requires cl.Case? && CasesPlaced(m, cl, tag, names, p, k, end) && CasesOk(cl, tag, names, dflt)
    ensures var pb, kb := p + PreLen(tag, cl.exprs), k + |PreConsts(tag, cl.exprs)|;
            var next := pb + StmtsLen(cl.body) + 3;
            && end < 65536 && cl.exprs != [] && PrePlaced(m, tag, cl.exprs, names, p, k, next)
            && StmtsPlaced(m, cl.body, names, pb, kb, Targets(end, 0, FallTarget(cl.rest, tag, next)))
            && StmtsOk(cl.body, names, |names|, Context(SwitchFrame, HasCase(cl.rest) || dflt))
            && At(m.code, next - 3, Jump(OpJump, end))
            && CasesPlaced(m, cl.rest, tag, names, next, kb + |StmtsConsts(cl.body)|, end)
            && CasesOk(cl.rest, tag, names, dflt)
            && p + CasesLen(cl, tag) == next + CasesLen(cl.rest, tag)
  {
    hide PreLen, PreConsts, PreNeed, PreOk, PreCode, StmtsLen, StmtsConsts, StmtsNeed, StmtsLocals, StmtsOk, StmtsCode,
         CasesLen, CasesConsts, CasesNeed, CasesLocals, CasesOk, CasesCode, Jump, FallTarget, At, ConstsAt;
    CaseShape(cl, tag, names, p, k, end);
    CaseSizes(cl, tag, names, |names|, dflt);
    var pb, kb := p + PreLen(tag, cl.exprs), k + |PreConsts(tag, cl.exprs)|;
    var next := pb + StmtsLen(cl.body) + 3;
    FallTargetIsNextBody(cl.rest, tag, next);
    var a, b := PreCode(tag, cl.exprs, names, p, k, pb, next),
                StmtsCode(cl.body, names, pb, kb, Targets(end, 0, FallTarget(cl.rest, tag, next)));
    var j, d := Jump(OpJump, end), CasesCode(cl.rest, tag, names, next, kb + |StmtsConsts(cl.body)|, end);
    AtSplit(m.code, p, a + b + j, d);
    AtSplit(m.code, p, a + b, j);
    AtSplit(m.code, p, a, b);
    ConstsSplit(m.consts, k, PreConsts(tag, cl.exprs) + StmtsConsts(cl.body), CasesConsts(cl.rest, tag));
    ConstsSplit(m.consts, k, PreConsts(tag, cl.exprs), StmtsConsts(cl.body));
  }

  /** Going through the comparisons finds the case the source finds. */
  lemma {:induction false} FindRuns(m: Machine, cl: Clauses, tag: Option<Expr>, names: seq<string>, dflt: bool,
                                    store: Store,
                                    p: nat, k: nat, end: nat, st: Stack) returns (n: nat)
    requires CasesPlaced(m, cl, tag, names, p, k, end) && CasesOk(cl, tag, names, dflt) && InFrame(m, names, store, st)
    ensures var h := FindCase(m.ops, tag, cl, store);
            Compares(m, p, st, n, h, if h.Hit? then BodyPos(cl, tag, p, h.n) else p, p + CasesLen(cl, tag))
    decreases cl
  {
    hide CasesPlaced, PrePlaced, StmtsPlaced, CasesOk, StmtsOk, CasesLen, PreLen, StmtsLen, MatchExprs, InFrame,
        Reaches, Ends,
         FallTarget, Jump, At;
    match cl
    case NoMore =>
      NoMoreLen(tag);
      Stay(m, p, st);
      n := 0;
    case Default(_, rest) =>
      DefaultSkipped(m, cl, tag, names, p, k, end, dflt);
      n := FindRuns(m, rest, tag, names, dflt, store, p, k, end, st);
    case Case(exprs, body, rest) =>
      CaseParts(m, cl, tag, names, p, k, end, dflt);
      var next := p + PreLen(tag, exprs) + StmtsLen(body) + 3;
      n := PreRuns(m, tag, exprs, names, store, p, k, next, st);
      var h := MatchExprs(m.ops, tag, exprs, store);
      HitIsFirst(m.ops, tag, exprs, store);
      if h == Miss {
        var kr := k + |PreConsts(tag, exprs)| + |StmtsConsts(body)|;
        var n1 := FindRuns(m, rest, tag, names, dflt, store, next, kr, end, st);
        var h1 := FindCase(m.ops, tag, rest, store);
        ComparesAfter(m, p, st, n, next, n1, h1, if h1.Hit? then BodyPos(rest, tag, next, h1.n) else next,
                      p + CasesLen(cl, tag));
        n := n + n1;
      }
  }

  lemma NoMoreLen(tag: Option<Expr>)
    ensures CasesLen(NoMore, tag) == 0
  {
  }

  lemma {:induction false} HitIsFirst(ops: Objects, tag: Option<Expr>, exprs: seq<Expr>, store: Store)
    ensures MatchExprs(ops, tag, exprs, store).Hit? ==> MatchExprs(ops, tag, exprs, store) == Hit(0)
  {
    hide MatchOne;
    if exprs != [] { HitIsFirst(ops, tag, exprs[1..], store); }
  }

  /** Only a fallthrough cares where fallthroughs go. */
  lemma LeadsRetarget(m: Machine, p: int, st: Stack, o: Outcome, q: int, t: Targets, t': Targets,
                      before: seq<string>, after: seq<string>, fuel: nat)
    requires !o.Fall? && t.brk == t'.brk && t.cont == t'.cont && Leads(m, p, st, o, q, t, before, after, fuel)
    ensures Leads(m, p, st, o, q, t', before, after, fuel)
  {
    hide Reaches, Ends, InFrame, InFrameTo;
  }

  predicate NoLonger(o: Outcome, n: nat) {
    (o.Norm? || o.Brk? || o.Cont? || o.Fall?) ==> |o.store| <= n
  }

  lemma BlockNoLonger(ops: Objects, ss: Stmts, store: Store, fuel: nat)
    ensures NoLonger(ExecBlock(ops, ss, store, fuel), |store|)
    ensures Leave(ExecBlock(ops, ss, store, fuel), |store|) == ExecBlock(ops, ss, store, fuel)
  {
    hide ExecList;
    LeaveTwice(ExecList(ops, ss, store, fuel), |store|);
  }

  lemma {:induction false} CasesNoLonger(ops: Objects, cl: Clauses, k: nat, store: Store, fuel: nat)
    ensures NoLonger(ExecCases(ops, cl, k, store, fuel), |store|)
    decreases cl
  {
    hide ExecBlock;
    match cl
    case NoMore =>
    case Default(_, rest) => CasesNoLonger(ops, rest, k, store, fuel);
    case Case(_, body, rest) =>
      if k > 0 {
        CasesNoLonger(ops, rest, k - 1, store, fuel);
      } else {
        BlockNoLonger(ops, body, store, fuel);
        var o := ExecBlock(ops, body, store, fuel);
        if o.Fall? { CasesNoLonger(ops, rest, 0, o.store, fuel); }
      }
  }

  lemma FallSteps(m: Machine, p: int, st: Stack, o: Outcome, q: int, t: Targets, names: seq<string>, fuel: nat)
    returns (n: nat, st1: Stack)
    requires o.Fall? && Leads(m, p, st, o, q, t, names, names, fuel) && NoLonger(o, |names|)
    ensures Reaches(m, p, st, n, t.fall, st1) && InFrame(m, names, o.store, st1)
  {
    hide Reaches, InFrame;
    n, st1 :| Reaches(m, p, st, n, t.fall, st1) && InFrameTo(m, names, o.store, st1);
    InFrameWhole(m, names, o.store, st1);
  }

  lemma {:induction false} CasesRuns(m: Machine, cl: Clauses, i: nat, tag: Option<Expr>, names: seq<string>, dflt: bool,
                                     store: Store, p: nat, k: nat, end: nat, st: Stack, fuel: nat)
    requires CasesPlaced(m, cl, tag, names, p, k, end) && CasesOk(cl, tag, names, dflt) && InFrame(m, names, store, st)
    ensures Leads(m, BodyPos(cl, tag, p, i), st, ExecCases(m.ops, cl, i, store, fuel), end,
                  Targets(end, 0, p + CasesLen(cl, tag)), names, names, fuel)
    decreases fuel, cl, 3
  {
    hide CasesPlaced, PrePlaced, StmtsPlaced, CasesOk, StmtsOk, CasesLen, PreLen, StmtsLen, ExecBlock, InFrame, Reaches,
        Ends,
         FallTarget, Jump, At, Leads;
    match cl
    case NoMore =>
      NoMoreLen(tag);
      FallLeads(m, p, st, store, end, Targets(end, 0, p), names, fuel);
    case Default(_, rest) =>
      DefaultSkipped(m, cl, tag, names, p, k, end, dflt);
      CasesRuns(m, rest, i, tag, names, dflt, store, p, k, end, st, fuel);
    case Case(exprs, body, rest) =>
      CaseParts(m, cl, tag, names, p, k, end, dflt);
      var next := p + PreLen(tag, exprs) + StmtsLen(body) + 3;
      if i > 0 {
        CasesRuns(m, rest, i - 1, tag, names, dflt, store, next,
                  k + |PreConsts(tag, exprs)| + |StmtsConsts(body)|, end, st, fuel);
      } else {
        CaseRuns(m, cl, tag, names, dflt, store, p, k, end, st, fuel);
      }
  }

  lemma FallLeads(m: Machine, p: int, st: Stack, store: Store, q: int, t: Targets, names: seq<string>, fuel: nat)
    requires t.fall == p && InFrame(m, names, store, st)
    ensures Leads(m, p, st, Fall(store), q, t, names, names, fuel)
  {
    hide Reaches, InFrame;
    FrameLength(m, names, store, st);
    InFrameWhole(m, names, store, st);
    Stay(m, p, st);
  }

  lemma {:induction false} CaseRuns(m: Machine, cl: Clauses, tag: Option<Expr>, names: seq<string>, dflt: bool,
                                    store: Store, p: nat, k: nat, end: nat, st: Stack, fuel: nat)
    requires cl.Case? && CasesPlaced(m, cl, tag, names, p, k, end) && CasesOk(cl, tag, names, dflt)
             && InFrame(m, names, store, st)
    ensures Leads(m, p + PreLen(tag, cl.exprs), st, ExecCases(m.ops, cl, 0, store, fuel), end,
                  Targets(end, 0, p + CasesLen(cl, tag)), names, names, fuel)
    decreases fuel, cl, 2
  {
    hide CasesPlaced, PrePlaced, StmtsPlaced, CasesOk, StmtsOk, CasesLen, PreLen, StmtsLen, ExecBlock, InFrame, Reaches,
        Ends,
         FallTarget, Jump, At, Leads, NoLonger;
    CaseParts(m, cl, tag, names, p, k, end, dflt);
    FrameLength(m, names, store, st);
    var pb, kb := p + PreLen(tag, cl.exprs), k + |PreConsts(tag, cl.exprs)|;
    var next := pb + StmtsLen(cl.body) + 3;
    var ti, t := Targets(end, 0, FallTarget(cl.rest, tag, next)), Targets(end, 0, p + CasesLen(cl, tag));
    BlockRuns(m, cl.body, names, Context(SwitchFrame, HasCase(cl.rest) || dflt), store, pb, kb, ti, st, fuel);
    var o := ExecBlock(m.ops, cl.body, store, fuel);
    LeadsJump(m, pb, st, o, next - 3, end, ti, names, names, fuel);
    if o.Fall? {
      BlockNoLonger(m.ops, cl.body, store, fuel);
      var n, st1 := FallSteps(m, pb, st, o, end, ti, names, fuel);
      FallTargetIsNextBody(cl.rest, tag, next);
      CasesRuns(m, cl.rest, 0, tag, names, dflt, o.store, next, kb + |StmtsConsts(cl.body)|, end, st1, fuel);
      LeadsAfter(m, pb, st, n, ti.fall, st1, ExecCases(m.ops, cl.rest, 0, o.store, fuel), end, t, names, names, fuel,
                 fuel);
    } else {
      LeadsRetarget(m, pb, st, o, end, ti, t, names, names, fuel);
    }
  }

  // ----- which outcomes a statement may have -----

  /** A break or a continue needs a loop frame that takes it, a fallthrough somewhere to go. */
  predicate Allowed(o: Outcome, c: Context) {
    && (o.Brk? ==> c.frame != NoFrame)
    && (o.Cont? ==> c.frame == LoopFrame)
    && (o.Fall? ==> c.fallOk)
  }

  lemma {:induction false} StmtAllowed(ops: Objects, s: Stmt, names: seq<string>, start: nat, c: Context, store: Store,
                                       fuel: nat)
    requires start <= |names| && StmtOk(s, names, start, c)
    ensures Allowed(Exec(ops, s, store, fuel), c)
    decreases fuel, s, 1
  {
    hide Eval, ExprOk, SimpleOk;
    match s
    case SimpleStmt(sm) =>
    case Block(body) => StmtsAllowed(ops, body, names, |names|, c, store, fuel);
    case If(init, cond, body, els) =>
      var o, ns := ExecInit(ops, init, store), InitNames(init, names);
      if o.Norm? {
        StmtsAllowed(ops, body, ns, |ns|, c, o.store, fuel);
        if els.Some? { StmtAllowed(ops, els.value, ns, |names|, c, o.store, fuel); }
      }
    case For(init, cond, post, body) =>
      var o, ns := ExecInit(ops, init, store), InitNames(init, names);
      if o.Norm? { LoopAllowed(ops, cond, post, body, ns, c, o.store, fuel); }
    case Switch(init, tag, clauses) =>
      var o, ns := ExecInit(ops, init, store), InitNames(init, names);
      if o.Norm? { SwitchAllowed(ops, tag, clauses, ns, o.store, fuel); }
    case _ =>
  }

  lemma {:induction false} StmtsAllowed(ops: Objects, ss: Stmts, names: seq<string>, start: nat, c: Context,
                                        store: Store, fuel: nat)
    requires start <= |names| && StmtsOk(ss, names, start, c)
    ensures Allowed(ExecList(ops, ss, store, fuel), c) && Allowed(ExecBlock(ops, ss, store, fuel), c)
    decreases fuel, ss, 0
  {
    hide Exec, StmtOk;
    match ss
    case Nil =>
    case Cons(s, rest) =>
      StmtAllowed(ops, s, names, start, c, store, fuel);
      var o := Exec(ops, s, store, fuel);
      if o.Norm? { StmtsAllowed(ops, rest, NamesIn(s, names), start, c, o.store, fuel); }
  }

  lemma {:induction false} LoopAllowed(ops: Objects, cond: Option<Expr>, post: Option<Simple>, body: Stmts,
                                       names: seq<string>,
                                       c: Context, store: Store, fuel: nat)
    requires StmtsOk(body, names, |names|, Context(LoopFrame, c.fallOk))
    ensures Allowed(ExecLoop(ops, cond, post, body, store, fuel), Context(NoFrame, c.fallOk))
    decreases fuel, body, 1
  {
    hide Eval, ExecBlock, StmtsOk;
    StmtsAllowed(ops, body, names, |names|, Context(LoopFrame, c.fallOk), store, fuel);
    var o := ExecBlock(ops, body, store, fuel);
    if o.Norm? || o.Cont? {
      var o1 := Leave(ExecInit(ops, post, o.store), |o.store|);
      if o1.Norm? && fuel > 0 {
        LoopAllowed(ops, cond, post, body, names, c, o1.store, fuel - 1);
      }
    }
  }

  lemma {:induction false} CasesAllowed(ops: Objects, cl: Clauses, i: nat, tag: Option<Expr>, names: seq<string>,
                                        dflt: bool,
                                        store: Store, fuel: nat)
    requires CasesOk(cl, tag, names, dflt)
    ensures Allowed(ExecCases(ops, cl, i, store, fuel), Context(SwitchFrame, true))
    decreases fuel, cl, 0
  {
    hide ExecBlock, StmtsOk, PreOk;
    match cl
    case NoMore =>
    case Default(_, rest) => CasesAllowed(ops, rest, i, tag, names, dflt, store, fuel);
    case Case(_, body, rest) =>
      if i > 0 {
        CasesAllowed(ops, rest, i - 1, tag, names, dflt, store, fuel);
      } else {
        StmtsAllowed(ops, body, names, |names|, Context(SwitchFrame, HasCase(rest) || dflt), store, fuel);
        var o := ExecBlock(ops, body, store, fuel);
        if o.Fall? { CasesAllowed(ops, rest, 0, tag, names, dflt, o.store, fuel); }
      }
  }

  lemma {:induction false} DefaultAllowed(ops: Objects, cl: Clauses, names: seq<string>, store: Store, fuel: nat)
    requires DefaultOk(cl, names)
    ensures Allowed(ExecDefault(ops, cl, store, fuel), Context(SwitchFrame, false))
    ensures NoLonger(ExecDefault(ops, cl, store, fuel), |store|)
    decreases fuel, cl, 0
  {
    hide ExecBlock, StmtsOk;
    match cl
    case NoMore =>
    case Default(body, _) =>
      StmtsAllowed(ops, body, names, |names|, Context(SwitchFrame, false), store, fuel);
      BlockNoLonger(ops, body, store, fuel);
    case Case(_, _, rest) => DefaultAllowed(ops, rest, names, store, fuel);
  }

  lemma {:induction false} SwitchAllowed(ops: Objects, tag: Option<Expr>, cl: Clauses, names: seq<string>, store: Store,
                                         fuel: nat)
    requires CasesOk(cl, tag, names, HasDefault(cl)) && DefaultOk(cl, names)
    ensures Allowed(ExecSwitch(ops, tag, cl, store, fuel), Context(NoFrame, false))
    decreases fuel, cl, 1
  {
    hide FindCase, ExecCases, ExecDefault, CasesOk, DefaultOk, HasDefault;
    var h := FindCase(ops, tag, cl, store);
    var o := Fall(store);
    if h.Hit? {
      o := ExecCases(ops, cl, h.n, store, fuel);
      CasesAllowed(ops, cl, h.n, tag, names, HasDefault(cl), store, fuel);
    }
    if o.Fall? { DefaultAllowed(ops, cl, names, o.store, fuel); }
  }

  // ----- switch, continued -----

  ghost predicate DefaultPlaced(m: Machine, cl: Clauses, names: seq<string>, p: nat, k: nat, end: nat) {
    && Fits(m)
    && At(m.code, p, DefaultCode(cl, names, p, k, end))
    && ConstsAt(m.consts, k, DefaultConsts(cl))
    && Room(m, DefaultNeed(cl))
    && DefaultLocals(cl, |names|) <= m.locals
    && end < 65536
  }

  lemma {:induction false} DefaultRuns(m: Machine, cl: Clauses, names: seq<string>, store: Store,
                                       p: nat, k: nat, end: nat, st: Stack, fuel: nat)
    requires DefaultPlaced(m, cl, names, p, k, end) && DefaultOk(cl, names) && InFrame(m, names, store, st)
    ensures Leads(m, p, st, ExecDefault(m.ops, cl, store, fuel), p + DefaultLen(cl), Targets(end, 0, 0), names, names,
                  fuel)
    decreases fuel, cl, 3
  {
    hide StmtsCode, StmtsConsts, StmtsNeed, StmtsLocals, StmtsOk, StmtsLen, ExecBlock, At, ConstsAt, InFrame, Leads;
    match cl
    case NoMore => NormLeads(m, p, st, store, Targets(end, 0, 0), names, names, fuel);
    case Default(body, _) =>
      BlockRuns(m, body, names, Context(SwitchFrame, false), store, p, k, Targets(end, 0, 0), st, fuel);
    case Case(_, _, rest) => DefaultRuns(m, rest, names, store, p, k, end, st, fuel);
  }

  lemma SwitchParts(m: Machine, s: Stmt, names: seq<string>, start: nat, c: Context, p: nat, k: nat, t: Targets)
    requires s.Switch? && StmtPlaced(m, s, names, p, k, t) && start <= |names| && StmtOk(s, names, start, c)
    ensures InitPlaced(m, s.init, names, p, k) && InitOk(s.init, names, |names|)
    ensures var ns, pc, kc := InitNames(s.init, names), p + InitLen(s.init), k + |InitConsts(s.init)|;
            var pd, end := pc + CasesLen(s.clauses, s.tag), p + StmtLen(s);
            && CasesPlaced(m, s.clauses, s.tag, ns, pc, kc, end)
            && CasesOk(s.clauses, s.tag, ns, HasDefault(s.clauses))
            && DefaultPlaced(m, s.clauses, ns, pd, kc + |CasesConsts(s.clauses, s.tag)|, end)
            && DefaultOk(s.clauses, ns) && end == pd + DefaultLen(s.clauses)
  {
    hide InitCode, InitLen, InitConsts, InitNeed, InitLocals, InitNames, InitOk, CasesCode, CasesLen, CasesConsts,
        CasesNeed,
         CasesLocals, CasesOk, DefaultCode, DefaultLen, DefaultConsts, DefaultNeed, DefaultLocals, DefaultOk,
             HasDefault,
         StmtCode, StmtLen, StmtConsts, StmtNeed, StmtLocals, StmtOk, At, ConstsAt;
    SwitchShape(s, names, p, k, t);
    SwitchSizes(s, names, start, c);
    InitCounts(s.init, names);
    AtInside(m.code, p, StmtCode(s, names, p, k, t));
    var ns, pc, kc := InitNames(s.init, names), p + InitLen(s.init), k + |InitConsts(s.init)|;
    var pd, end := pc + CasesLen(s.clauses, s.tag), p + StmtLen(s);
    var a, b := InitCode(s.init, names, p, k), CasesCode(s.clauses, s.tag, ns, pc, kc, end);
    var d := DefaultCode(s.clauses, ns, pd, kc + |CasesConsts(s.clauses, s.tag)|, end);
    AtSplit(m.code, p, a + b, d);
    AtSplit(m.code, p, a, b);
    ConstsSplit(m.consts, k, InitConsts(s.init) + CasesConsts(s.clauses, s.tag), DefaultConsts(s.clauses));
    ConstsSplit(m.consts, k, InitConsts(s.init), CasesConsts(s.clauses, s.tag));
  }

  lemma SwitchExec(ops: Objects, s: Stmt, store: Store, fuel: nat)
    requires s.Switch?
    ensures var o := ExecInit(ops, s.init, store);
            Exec(ops, s, store, fuel)
            == if !o.Norm? then o else Leave(ExecSwitch(ops, s.tag, s.clauses, o.store, fuel), |store|)
  {
    hide ExecInit, ExecSwitch, Leave;
  }

  lemma {:induction false} SwitchRuns(m: Machine, s: Stmt, names: seq<string>, start: nat, c: Context, store: Store,
                                      p: nat, k: nat, t: Targets, st: Stack, fuel: nat)
    requires s.Switch? && StmtPlaced(m, s, names, p, k, t) && start <= |names| && StmtOk(s, names, start, c)
    requires InFrame(m, names, store, st)
    ensures Leads(m, p, st, Exec(m.ops, s, store, fuel), p + StmtLen(s), t, names, NamesIn(s, names), fuel)
    decreases fuel, s, 2
  {
    hide StmtPlaced, InitPlaced, CasesPlaced, DefaultPlaced, StmtOk, InitOk, CasesOk, DefaultOk, HasDefault, StmtLen,
        InitLen,
         CasesLen, DefaultLen, Exec, ExecInit, ExecSwitch, InFrame, Reaches, Ends, InitNames, Leave;
    FrameLength(m, names, store, st);
    SwitchParts(m, s, names, start, c, p, k, t);
    InitCounts(s.init, names);
    SwitchExec(m.ops, s, store, fuel);
    var ns, pc, end := InitNames(s.init, names), p + InitLen(s.init), p + StmtLen(s);
    InitRuns(m, s.init, names, |names|, store, p, k, st, t, fuel);
    var o := ExecInit(m.ops, s.init, store);
    if o.Norm? {
      var n: nat, st1 :| Reaches(m, p, st, n, pc, st1) && InFrame(m, ns, o.store, st1);
      SwitchAfterRuns(m, s, names, start, c, o.store, p, k, t, st1, fuel);
      var o1 := ExecSwitch(m.ops, s.tag, s.clauses, o.store, fuel);
      LeadsFewer(m, pc, st1, o1, end, t, ns, names, ns, fuel);
      LeadsLeave(m, pc, st1, o1, end, t, names, ns, fuel);
      LeadsAfter(m, p, st, n, pc, st1, Leave(o1, |names|), end, t, names, names, fuel, fuel);
    } else {
      LeadsElsewhere(m, p, st, o, pc, end, t, names, ns, names, fuel);
    }
  }

  /** What the cases make of it, a Miss counting as a fallthrough to the default. */
  function ExecHit(ops: Objects, h: Hit, clauses: Clauses, store: Store, fuel: nat): Outcome
    requires !h.Error?
  {
    if h.Hit? then ExecCases(ops, clauses, h.n, store, fuel) else Fall(store)
  }

  lemma {:induction false} SwitchAfterRuns(m: Machine, s: Stmt, names: seq<string>, start: nat, c: Context,
                                           store: Store,
                                           p: nat, k: nat, t: Targets, st: Stack, fuel: nat)
    requires s.Switch? && StmtPlaced(m, s, names, p, k, t) && start <= |names| && StmtOk(s, names, start, c)
    requires InFrame(m, InitNames(s.init, names), store, st)
    ensures var ns := InitNames(s.init, names);
            Leads(m, p + InitLen(s.init), st, ExecSwitch(m.ops, s.tag, s.clauses, store, fuel), p + StmtLen(s), t, ns,
                  ns, fuel)
    decreases fuel, s, 1
  {
    hide StmtPlaced, InitPlaced, CasesPlaced, DefaultPlaced, StmtOk, InitOk, CasesOk, DefaultOk, HasDefault, StmtLen,
        InitLen,
         CasesLen, DefaultLen, FindCase, ExecCases, ExecDefault, InFrame, Reaches, Ends, InitNames, Leads, NoLonger;
    SwitchParts(m, s, names, start, c, p, k, t);
    var ns, pc, kc := InitNames(s.init, names), p + InitLen(s.init), k + |InitConsts(s.init)|;
    var pd, end := pc + CasesLen(s.clauses, s.tag), p + StmtLen(s);
    var kd, dflt := kc + |CasesConsts(s.clauses, s.tag)|, HasDefault(s.clauses);
    FrameLength(m, ns, store, st);
    var h := FindCase(m.ops, s.tag, s.clauses, store);
    var n := FindRuns(m, s.clauses, s.tag, ns, dflt, store, pc, kc, end, st);
    if h.Error? {
      ErrLeads(m, pc, st, n, h.code, end, t, ns, ns, fuel);
    } else {
      var ti := Targets(end, 0, pd);
      var o := ExecHit(m.ops, h, s.clauses, store, fuel);
      if h.Hit? {
        CasesRuns(m, s.clauses, h.n, s.tag, ns, dflt, store, pc, kc, end, st, fuel);
        LeadsAfter(m, pc, st, n, BodyPos(s.clauses, s.tag, pc, h.n), st, o, end, ti, ns, ns, fuel, fuel);
        CasesNoLonger(m.ops, s.clauses, h.n, store, fuel);
        CasesAllowed(m.ops, s.clauses, h.n, s.tag, ns, dflt, store, fuel);
      } else {
        FallLeads(m, pd, st, store, end, ti, ns, fuel);
        LeadsAfter(m, pc, st, n, pd, st, o, end, ti, ns, ns, fuel, fuel);
        FallNoLonger(store);
      }
      SwitchEndRuns(m, s.clauses, ns, o, pc, st, pd, kd, end, t, fuel);
    }
  }

  lemma FallNoLonger(store: Store)
    ensures NoLonger(Fall(store), |store|)
  {
  }

  /** From the outcome of the cases on: the default body if they fall through, then the end. */
  lemma {:induction false} SwitchEndRuns(m: Machine, cl: Clauses, names: seq<string>, o: Outcome, p: nat, st: Stack,
                                         pd: nat, kd: nat, end: nat, t: Targets, fuel: nat)
    requires DefaultPlaced(m, cl, names, pd, kd, end) && DefaultOk(cl, names) && end == pd + DefaultLen(cl)
    requires Leads(m, p, st, o, end, Targets(end, 0, pd), names, names, fuel)
    requires NoLonger(o, |names|) && Allowed(o, Context(SwitchFrame, true))
    ensures var o1 := if o.Fall? then ExecDefault(m.ops, cl, o.store, fuel) else o;
            Leads(m, p, st, if o1.Brk? then Norm(o1.store) else o1, end, t, names, names, fuel)
    decreases fuel, cl, 4
  {
    hide DefaultPlaced, DefaultOk, DefaultLen, ExecDefault, InFrame, Reaches, Ends, Leads, NoLonger;
    if o.Fall? {
      var n, st1 := FallSteps(m, p, st, o, end, Targets(end, 0, pd), names, fuel);
      FrameLength(m, names, o.store, st1);
      DefaultRuns(m, cl, names, o.store, pd, kd, end, st1, fuel);
      var o1 := ExecDefault(m.ops, cl, o.store, fuel);
      DefaultAllowed(m.ops, cl, names, o.store, fuel);
      LeadsAfter(m, p, st, n, pd, st1, o1, end, Targets(end, 0, 0), names, names, fuel, fuel);
      BreakEnds(m, p, st, o1, end, Targets(end, 0, 0), t, names, fuel);
    } else {
      BreakEnds(m, p, st, o, end, Targets(end, 0, pd), t, names, fuel);
    }
  }

  /** A break has arrived at the end of the switch. */
  lemma BreakEnds(m: Machine, p: int, st: Stack, o: Outcome, end: nat, ti: Targets, t: Targets, names: seq<string>,
                  fuel: nat)
    requires Leads(m, p, st, o, end, ti, names, names, fuel) && ti.brk == end
    requires NoLonger(o, |names|) && !o.Cont? && !o.Fall?
    ensures Leads(m, p, st, if o.Brk? then Norm(o.store) else o, end, t, names, names, fuel)
  {
    hide Reaches, Ends, InFrame;
    if o.Brk? {
      var n: nat, st1 :| Reaches(m, p, st, n, end, st1) && InFrameTo(m, names, o.store, st1);
      InFrameWhole(m, names, o.store, st1);
    }
  }
}
