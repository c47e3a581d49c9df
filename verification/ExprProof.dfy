/** Compiled expressions push exactly their value. */
module ExprProof {
  import opened Instructions
  import opened Language
  import opened CodeGen
  import opened StackMachine

  /** The sizes that two-byte operands and one-byte slots can address. */
  predicate Fits(m: Machine) {
    |m.code| < 65536 && |m.consts| <= 65536 && m.locals <= 256
  }

  /** The live variables sit in the first local slots, in order; below the frame nothing has changed. */
  ghost predicate Matches(m: Machine, names: seq<string>, store: Store, st: Stack) {
    && |names| == |store| && |names| <= m.locals
    && |m.base| + m.locals <= |st|
    && st[..|m.base|] == m.base
    && (forall i :: 0 <= i < |names| ==> store[i].name == names[i])
    && (forall i :: 0 <= i < |names| ==> st[|m.base| + i] == store[i].val)
  }

  lemma {:induction false} FindIsIndex(names: seq<string>, store: Store, x: string)
    requires |names| == |store|
    requires forall i :: 0 <= i < |names| ==> store[i].name == names[i]
    ensures Find(store, x) == Index(names, x)
  {
    if names != [] {
      var n := |names| - 1;
      assert store[n].name == names[n];
      FindIsIndex(names[..n], store[..n], x);
    }
  }

  lemma MatchesPush(m: Machine, names: seq<string>, store: Store, st: Stack, v: Value)
    requires Matches(m, names, store, st)
    ensures Matches(m, names, store, st + [v])
  {
    assert (st + [v])[..|m.base|] == st[..|m.base|];
  }

  lemma MatchesFloor(m: Machine, names: seq<string>, store: Store, st: Stack)
    requires Matches(m, names, store, st)
    ensures Floor(m) <= |st|
  {
  }

  /** Running from (p, st) leaves r on top of under and goes on at q, or fails as r fails. */
  ghost predicate Yields(m: Machine, p: int, st: Stack, q: int, under: Stack, r: Res) {
    match r
    case Ok(v) => exists n: nat :: Reaches(m, p, st, n, q, under + [v])
    case Fail(c) => exists n: nat :: Ends(m, p, st, n, Failed(OpError(c)))
  }

  lemma Chain(m: Machine, p: int, st: Stack, n: nat, p1: int, st1: Stack, q: int, under: Stack, r: Res)
    requires Reaches(m, p, st, n, p1, st1) && Yields(m, p1, st1, q, under, r)
    ensures Yields(m, p, st, q, under, r)
  {
    hide Reaches, Ends;
    match r
    case Ok(v) =>
      var n1: nat :| Reaches(m, p1, st1, n1, q, under + [v]);
      Then(m, p, st, n, p1, st1, n1, q, under + [v]);
    case Fail(c) =>
      var n1: nat :| Ends(m, p1, st1, n1, Failed(OpError(c)));
      ThenEnds(m, p, st, n, p1, st1, n1, Failed(OpError(c)));
  }

  /** An expression that has left v, followed by something that turns under + [v] into r. */
  lemma AfterValue(m: Machine, p: int, st: Stack, p1: int, under: Stack, v: Value, q: int, under': Stack, r: Res)
    requires Yields(m, p, st, p1, under, Ok(v)) && Yields(m, p1, under + [v], q, under', r)
    ensures Yields(m, p, st, q, under', r)
  {
    hide Reaches;
    var n: nat :| Reaches(m, p, st, n, p1, under + [v]);
    Chain(m, p, st, n, p1, under + [v], q, under', r);
  }

  lemma AtInside(code: seq<byte>, p: nat, frag: seq<byte>)
    requires At(code, p, frag)
    ensures p + |frag| <= |code|
  {
  }

  // ----- single instructions -----

  lemma PushStep(m: Machine, p: nat, i: seq<byte>, st: Stack, v: Value)
    requires i != [] && i[0] <= LastOpcode && |i| == InstrLen(i[0]) && At(m.code, p, i)
    requires i[0] != OpReturn && !IsJump(i[0])
    requires Plain(m, i, st) == Goes(st + [v])
    ensures Yields(m, p, st, p + |i|, st, Ok(v))
  {
    hide Plain, Reaches;
    DoPlain(m, p, i, st);
  }

  /** An instruction that replaces the top of the stack by r. */
  lemma ReplaceStep(m: Machine, p: nat, i: seq<byte>, st: Stack, under: Stack, r: Res)
    requires i != [] && i[0] <= LastOpcode && |i| == InstrLen(i[0]) && At(m.code, p, i)
    requires i[0] != OpReturn && !IsJump(i[0])
    requires Plain(m, i, st) == PushRes(m, under, r) && |under| + 1 < m.limit
    ensures Yields(m, p, st, p + |i|, under, r)
  {
    hide Plain, Reaches, Ends;
    DoPlain(m, p, i, st);
  }

  lemma PopPushed(st: Stack, v: Value)
    ensures Pop(st + [v]) == st && Top(st + [v]) == v
  {
  }

  lemma UnaryStep(m: Machine, p: nat, tok: byte, st: Stack, v: Value)
    requires UnaryToken(tok) && At(m.code, p, UnaryCode(tok)) && Floor(m) <= |st| && |st| + 1 < m.limit
    ensures Yields(m, p, st + [v], p + |UnaryCode(tok)|, st, UnaryResult(m.ops, tok, v))
  {
    PopPushed(st, v);
    if tok == TokAdd {
      Stay(m, p, st + [v]);
    } else {
      var i := UnaryCode(tok);
      assert Plain(m, i, st + [v]) == PushRes(m, st, UnaryResult(m.ops, tok, v));
      ReplaceStep(m, p, i, st + [v], st, UnaryResult(m.ops, tok, v));
    }
  }

  lemma BinaryStep(m: Machine, p: nat, tok: byte, st: Stack, l: Value, r: Value)
    requires BinaryToken(tok) && At(m.code, p, BinaryCode(tok)) && Floor(m) <= |st| && |st| + 1 < m.limit
    ensures Yields(m, p, st + [l] + [r], p + |BinaryCode(tok)|, st, BinaryResult(m.ops, tok, l, r))
  {
    PopPushed(st + [l], r);
    PopPushed(st, l);
    var i := BinaryCode(tok);
    assert Plain(m, i, st + [l] + [r]) == PushRes(m, st, BinaryResult(m.ops, tok, l, r));
    ReplaceStep(m, p, i, st + [l] + [r], st, BinaryResult(m.ops, tok, l, r));
  }

  // ----- expressions -----

  /** The code and the constants of e are in place, its names are in scope, there is room. */
  ghost predicate Placed(m: Machine, e: Expr, names: seq<string>, p: nat, k: nat, depth: nat) {
    && Fits(m)
    && At(m.code, p, ExprCode(e, names, p, k))
    && ConstsAt(m.consts, k, ExprConsts(e))
    && ExprOk(e, names)
    && depth + ExprNeed(e) < m.limit
  }

  lemma {:induction false} NeedPositive(e: Expr)
    ensures ExprNeed(e) >= 1
  {
    match e
    case Unary(_, a) => NeedPositive(a);
    case Binary(_, a, _) => NeedPositive(a);
    case Logical(_, a, _) => NeedPositive(a);
    case Cond(c, _, _) => NeedPositive(c);
    case _ =>
  }

  /** Compiled code of an expression pushes exactly one value, the expression's, or stops with the
      expression's error; the rest of the stack and the local variables are as before. */
  lemma {:induction false} ExprRuns(m: Machine, e: Expr, names: seq<string>, store: Store, p: nat, k: nat, st: Stack)
    requires Placed(m, e, names, p, k, |st|) && Matches(m, names, store, st)
    ensures Yields(m, p, st, p + ExprLen(e), st, Eval(m.ops, e, store))
    decreases e, 1
  {
    NeedPositive(e);
    match e
    case Unary(_, _) => UnaryRuns(m, e, names, store, p, k, st);
    case Binary(_, _, _) => BinaryRuns(m, e, names, store, p, k, st);
    case Logical(_, _, _) => LogicalRuns(m, e, names, store, p, k, st);
    case Cond(_, _, _) => CondRuns(m, e, names, store, p, k, st);
    case _ => LeafRuns(m, e, names, store, p, k, st);
  }

  lemma LeafRuns(m: Machine, e: Expr, names: seq<string>, store: Store, p: nat, k: nat, st: Stack)
    requires Placed(m, e, names, p, k, |st|) && Matches(m, names, store, st)
    requires e.Const? || e.BoolLit? || e.UndefinedLit? || e.Ident?
    ensures Yields(m, p, st, p + ExprLen(e), st, Eval(m.ops, e, store))
  {
    hide Yields;
    var i := ExprCode(e, names, p, k);
    match e
    case Const(v) =>
      ConstPlain(m, k, v, st);
      PushStep(m, p, i, st, v);
    case Ident(x) =>
      IdentPlain(m, names, store, st, x);
      PushStep(m, p, i, st, Get(store, x));
    case BoolLit(b) => PushStep(m, p, i, st, Bool(b));
    case UndefinedLit => PushStep(m, p, i, st, Undefined);
  }

  lemma ConstPlain(m: Machine, k: nat, v: Value, st: Stack)
    requires ConstsAt(m.consts, k, [v]) && |m.consts| <= 65536 && |st| + 1 < m.limit
    ensures Plain(m, Op2(OpConstant, k), st) == Goes(st + [v])
  {
    assert m.consts[k] == m.consts[k..k + 1][0];
    WordOfHiLo(k);
  }

  lemma IdentPlain(m: Machine, names: seq<string>, store: Store, st: Stack, x: string)
    requires Matches(m, names, store, st) && m.locals <= 256 && Index(names, x) >= 0 && |st| + 1 < m.limit
    ensures Plain(m, Op1(OpGetLocal, Index(names, x)), st) == Goes(st + [Get(store, x)])
  {
    FindIsIndex(names, store, x);
    var s := Index(names, x);
    assert st[|m.base| + s] == store[s].val;
  }

  lemma UnaryParts(m: Machine, e: Expr, names: seq<string>, p: nat, k: nat, depth: nat)
    requires e.Unary? && Placed(m, e, names, p, k, depth)
    ensures Placed(m, e.e, names, p, k, depth) && UnaryToken(e.tok) && depth + 1 < m.limit
    ensures At(m.code, p + ExprLen(e.e), UnaryCode(e.tok))
    ensures ExprLen(e) == ExprLen(e.e) + |UnaryCode(e.tok)|
  {
    NeedPositive(e.e);
    AtSplit(m.code, p, ExprCode(e.e, names, p, k), UnaryCode(e.tok));
  }

  lemma {:induction false} UnaryRuns(m: Machine, e: Expr, names: seq<string>, store: Store, p: nat, k: nat, st: Stack)
    requires e.Unary? && Placed(m, e, names, p, k, |st|) && Matches(m, names, store, st)
    ensures Yields(m, p, st, p + ExprLen(e), st, Eval(m.ops, e, store))
    decreases e, 0
  {
    hide ExprCode, ExprLen, ExprConsts, ExprNeed, ExprOk, Eval, At, ConstsAt, Placed, Matches, Reaches, Ends, Jump,
        BinaryCode, UnaryCode;
    var Unary(tok, a) := e;
    UnaryParts(m, e, names, p, k, |st|);
    UnaryEval(m.ops, e, store);
    ExprRuns(m, a, names, store, p, k, st);
    var r := Eval(m.ops, a, store);
    if r.Ok? {
      MatchesFloor(m, names, store, st);
      UnaryStep(m, p + ExprLen(a), tok, st, r.v);
      AfterValue(m, p, st, p + ExprLen(a), st, r.v, p + ExprLen(e), st, UnaryResult(m.ops, tok, r.v));
    }
  }

  // One level of the evaluator at a time.

  lemma UnaryEval(ops: Objects, e: Expr, store: Store)
    requires e.Unary?
    ensures var r := Eval(ops, e.e, store);
            Eval(ops, e, store) == if r.Fail? then r else UnaryResult(ops, e.tok, r.v)
  {
  }

  lemma BinaryEval(ops: Objects, e: Expr, store: Store)
    requires e.Binary?
    ensures var l, r := Eval(ops, e.l, store), Eval(ops, e.r, store);
            Eval(ops, e, store) == if l.Fail? then l else if r.Fail? then r else BinaryResult(ops, e.tok, l.v, r.v)
  {
  }

  lemma LogicalEval(ops: Objects, e: Expr, store: Store)
    requires e.Logical?
    ensures var l := Eval(ops, e.l, store);
            Eval(ops, e, store) == if l.Fail? || ops.falsy(l.v) == e.isAnd then l else Eval(ops, e.r, store)
  {
  }

  lemma CondEval(ops: Objects, e: Expr, store: Store)
    requires e.Cond?
    ensures var r := Eval(ops, e.c, store);
            Eval(ops, e, store) == if r.Fail? then r else Eval(ops, if ops.falsy(r.v) then e.f else e.t, store)
  {
  }

  lemma BinaryParts(m: Machine, e: Expr, names: seq<string>, p: nat, k: nat, depth: nat)
    requires e.Binary? && Placed(m, e, names, p, k, depth)
    ensures Placed(m, e.l, names, p, k, depth) && BinaryToken(e.tok) && depth + 1 < m.limit
    ensures Placed(m, e.r, names, p + ExprLen(e.l), k + |ExprConsts(e.l)|, depth + 1)
    ensures At(m.code, p + ExprLen(e.l) + ExprLen(e.r), BinaryCode(e.tok))
    ensures ExprLen(e) == ExprLen(e.l) + ExprLen(e.r) + |BinaryCode(e.tok)|
  {
    hide ExprCode, ExprLen, ExprConsts, ExprNeed, ExprOk, At, ConstsAt, Jump, BinaryCode, UnaryCode;
    BinaryLayout(e, names, p, k);
    BinaryRest(e, names);
    NeedPositive(e.l);
    var a, b := ExprCode(e.l, names, p, k), ExprCode(e.r, names, p + ExprLen(e.l), k + |ExprConsts(e.l)|);
    AtSplit(m.code, p, a + b, BinaryCode(e.tok));
    AtSplit(m.code, p, a, b);
    ConstsSplit(m.consts, k, ExprConsts(e.l), ExprConsts(e.r));
  }

  lemma {:induction false} BinaryRuns(m: Machine, e: Expr, names: seq<string>, store: Store, p: nat, k: nat, st: Stack)
    requires e.Binary? && Placed(m, e, names, p, k, |st|) && Matches(m, names, store, st)
    ensures Yields(m, p, st, p + ExprLen(e), st, Eval(m.ops, e, store))
    decreases e, 0
  {
    hide ExprCode, ExprLen, ExprConsts, ExprNeed, ExprOk, Eval, At, ConstsAt, Placed, Matches, Reaches, Ends, Jump,
        BinaryCode, UnaryCode;
    var Binary(tok, a, b) := e;
    var p1, end := p + ExprLen(a), p + ExprLen(e);
    BinaryParts(m, e, names, p, k, |st|);
    BinaryEval(m.ops, e, store);
    ExprRuns(m, a, names, store, p, k, st);
    var l := Eval(m.ops, a, store);
    if l.Ok? {
      MatchesPush(m, names, store, st, l.v);
      ExprRuns(m, b, names, store, p1, k + |ExprConsts(a)|, st + [l.v]);
      var r := Eval(m.ops, b, store);
      if r.Ok? {
        MatchesFloor(m, names, store, st);
        BinaryStep(m, p1 + ExprLen(b), tok, st, l.v, r.v);
        AfterValue(m, p1, st + [l.v], p1 + ExprLen(b), st + [l.v], r.v, end, st, BinaryResult(m.ops, tok, l.v, r.v));
      }
      AfterValue(m, p, st, p1, st, l.v, end, st, Eval(m.ops, e, store));
    }
  }

  /** The jump of && or || on a value: to the end keeping it, or on to the right operand without it. */
  lemma LogicalStep(m: Machine, p: nat, isAnd: bool, target: nat, st: Stack, v: Value)
    requires Floor(m) <= |st| && target < 65536 && At(m.code, p, Jump(if isAnd then OpAndJump else OpOrJump, target))
    ensures m.ops.falsy(v) == isAnd ==> Reaches(m, p, st + [v], 1, target, st + [v])
    ensures m.ops.falsy(v) != isAnd ==> Reaches(m, p, st + [v], 1, p + 3, st)
  {
    hide Reaches, Ends;
    PopPushed(st, v);
    DoJump(m, p, if isAnd then OpAndJump else OpOrJump, target, st + [v]);
  }

  lemma FalsyStep(m: Machine, p: nat, target: nat, st: Stack, v: Value)
    requires Floor(m) <= |st| && target < 65536 && At(m.code, p, Jump(OpJumpFalsy, target))
    ensures Reaches(m, p, st + [v], 1, if m.ops.falsy(v) then target else p + 3, st)
  {
    hide Reaches, Ends;
    PopPushed(st, v);
    DoJump(m, p, OpJumpFalsy, target, st + [v]);
  }

  lemma LogicalParts(m: Machine, e: Expr, names: seq<string>, p: nat, k: nat, depth: nat)
    requires e.Logical? && Placed(m, e, names, p, k, depth)
    ensures Placed(m, e.l, names, p, k, depth)
    ensures Placed(m, e.r, names, p + ExprLen(e.l) + 3, k + |ExprConsts(e.l)|, depth)
    ensures At(m.code, p + ExprLen(e.l), Jump(if e.isAnd then OpAndJump else OpOrJump, p + ExprLen(e)))
    ensures p + ExprLen(e) < 65536 && ExprLen(e) == ExprLen(e.l) + 3 + ExprLen(e.r)
  {
    hide ExprCode, ExprLen, ExprConsts, ExprNeed, ExprOk, At, ConstsAt, Jump, BinaryCode, UnaryCode;
    LogicalLayout(e, names, p, k);
    LogicalRest(e, names);
    AtInside(m.code, p, ExprCode(e, names, p, k));
    var p1, k1 := p + ExprLen(e.l), k + |ExprConsts(e.l)|;
    var a, b := ExprCode(e.l, names, p, k), ExprCode(e.r, names, p1 + 3, k1);
    var jump := Jump(if e.isAnd then OpAndJump else OpOrJump, p + ExprLen(e));
    AtSplit(m.code, p, a + jump, b);
    AtSplit(m.code, p, a, jump);
    ConstsSplit(m.consts, k, ExprConsts(e.l), ExprConsts(e.r));
  }

  lemma {:induction false} LogicalRuns(m: Machine, e: Expr, names: seq<string>, store: Store, p: nat, k: nat, st: Stack)
    requires e.Logical? && Placed(m, e, names, p, k, |st|) && Matches(m, names, store, st)
    ensures Yields(m, p, st, p + ExprLen(e), st, Eval(m.ops, e, store))
    decreases e, 0
  {
    hide ExprCode, ExprLen, ExprConsts, ExprNeed, ExprOk, Eval, At, ConstsAt, Placed, Matches, Reaches, Ends, Jump,
        BinaryCode, UnaryCode;
    var Logical(isAnd, a, b) := e;
    var p1, k1, end := p + ExprLen(a), k + |ExprConsts(a)|, p + ExprLen(e);
    LogicalParts(m, e, names, p, k, |st|);
    LogicalEval(m.ops, e, store);
    ExprRuns(m, a, names, store, p, k, st);
    var l := Eval(m.ops, a, store);
    if l.Ok? {
      MatchesFloor(m, names, store, st);
      LogicalStep(m, p1, isAnd, end, st, l.v);
      if m.ops.falsy(l.v) != isAnd {
        ExprRuns(m, b, names, store, p1 + 3, k1, st);
        Chain(m, p1, st + [l.v], 1, p1 + 3, st, end, st, Eval(m.ops, b, store));
      }
      AfterValue(m, p, st, p1, st, l.v, end, st, Eval(m.ops, e, store));
    }
  }

  lemma CondParts(m: Machine, e: Expr, names: seq<string>, p: nat, k: nat, depth: nat)
    requires e.Cond? && Placed(m, e, names, p, k, depth)
    ensures var p1, k1 := p + ExprLen(e.c), k + |ExprConsts(e.c)|;
            var pf, kf := p1 + 3 + ExprLen(e.t) + 3, k1 + |ExprConsts(e.t)|;
            && Placed(m, e.c, names, p, k, depth)
            && Placed(m, e.t, names, p1 + 3, k1, depth)
            && Placed(m, e.f, names, pf, kf, depth)
            && At(m.code, p1, Jump(OpJumpFalsy, pf)) && At(m.code, pf - 3, Jump(OpJump, p + ExprLen(e)))
            && pf < 65536 && p + ExprLen(e) < 65536 && p + ExprLen(e) == pf + ExprLen(e.f)
  {
    hide ExprCode, ExprLen, ExprConsts, ExprNeed, ExprOk, At, ConstsAt, Jump, BinaryCode, UnaryCode;
    CondLayout(e, names, p, k);
    CondRest(e, names);
    AtInside(m.code, p, ExprCode(e, names, p, k));
    var p1, k1, end := p + ExprLen(e.c), k + |ExprConsts(e.c)|, p + ExprLen(e);
    var pf, kf := p1 + 3 + ExprLen(e.t) + 3, k1 + |ExprConsts(e.t)|;
    var cc, tc, fc := ExprCode(e.c, names, p, k), ExprCode(e.t, names, p1 + 3, k1), ExprCode(e.f, names, pf, kf);
    AtSplit(m.code, p, cc + Jump(OpJumpFalsy, pf) + tc + Jump(OpJump, end), fc);
    AtSplit(m.code, p, cc + Jump(OpJumpFalsy, pf) + tc, Jump(OpJump, end));
    AtSplit(m.code, p, cc + Jump(OpJumpFalsy, pf), tc);
    AtSplit(m.code, p, cc, Jump(OpJumpFalsy, pf));
    ConstsSplit(m.consts, k, ExprConsts(e.c) + ExprConsts(e.t), ExprConsts(e.f));
    ConstsSplit(m.consts, k, ExprConsts(e.c), ExprConsts(e.t));
  }

  lemma {:induction false} CondRuns(m: Machine, e: Expr, names: seq<string>, store: Store, p: nat, k: nat, st: Stack)
    requires e.Cond? && Placed(m, e, names, p, k, |st|) && Matches(m, names, store, st)
    ensures Yields(m, p, st, p + ExprLen(e), st, Eval(m.ops, e, store))
    decreases e, 0
  {
    hide ExprCode, ExprLen, ExprConsts, ExprNeed, ExprOk, Eval, At, ConstsAt, Placed, Matches, Reaches, Ends, Jump,
        BinaryCode, UnaryCode;
    var Cond(c, t, f) := e;
    var p1, k1, end := p + ExprLen(c), k + |ExprConsts(c)|, p + ExprLen(e);
    var pf, kf := p1 + 3 + ExprLen(t) + 3, k1 + |ExprConsts(t)|;
    CondParts(m, e, names, p, k, |st|);
    CondEval(m.ops, e, store);
    ExprRuns(m, c, names, store, p, k, st);
    var r := Eval(m.ops, c, store);
    if r.Ok? {
      MatchesFloor(m, names, store, st);
      FalsyStep(m, p1, pf, st, r.v);
      if m.ops.falsy(r.v) {
        ExprRuns(m, f, names, store, pf, kf, st);
        Chain(m, p1, st + [r.v], 1, pf, st, end, st, Eval(m.ops, f, store));
      } else {
        ExprRuns(m, t, names, store, p1 + 3, k1, st);
        ThenJump(m, p1 + 3, st, pf - 3, end, Eval(m.ops, t, store));
        Chain(m, p1, st + [r.v], 1, p1 + 3, st, end, st, Eval(m.ops, t, store));
      }
      AfterValue(m, p, st, p1, st, r.v, end, st, Eval(m.ops, e, store));
    }
  }

  /** A value that has been pushed stays when a jump follows. */
  lemma ThenJump(m: Machine, p: int, st: Stack, q: nat, target: nat, r: Res)
    requires Yields(m, p, st, q, st, r) && target < 65536 && At(m.code, q, Jump(OpJump, target))
    ensures Yields(m, p, st, target, st, r)
  {
    hide Reaches, Ends, At;
    if r.Ok? {
      DoJump(m, q, OpJump, target, st + [r.v]);
      AfterValue(m, p, st, q, st, r.v, target, st, r);
    }
  }
}
