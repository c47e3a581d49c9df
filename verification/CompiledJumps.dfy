/** The jumps of compiled code lead to instructions of the same code, so that what is proved of
    optimizeFunc on well-formed code holds of every function the compiler accepts. */
module CompiledJumps {
  import opened Wrappers
  import opened Instructions
  import opened Language
  import opened CodeGen
  import opened StmtProof
  import opened CompilerProof
  import Optimizer
  import OptimizerProof

  // ----- pieces of code -----

  predicate JumpAt(code: seq<byte>, q: nat) { Boundary(code, 0, q) && Whole(code, q) && IsJump(code[q]) }

  /** A position that is a label of the piece placed at p, its end included, or one outside. */
  predicate Within(code: seq<byte>, p: nat, ext: set<nat>, t: nat) {
    t in ext || (p <= t <= p + |code| && Boundary(code, 0, t - p))
  }

  /** A piece of code placed at p, whose jumps stay in it or go to the positions in ext. */
  ghost predicate Lands(code: seq<byte>, p: nat, ext: set<nat>) {
    Streams(code) && forall q: nat :: JumpAt(code, q) ==> Within(code, p, ext, Target(code, q))
  }

  /** Positions of a + b are positions of a, or of b behind a. */
  lemma {:induction false} BoundaryOfBoth(a: seq<byte>, b: seq<byte>, p: nat, q: nat)
    requires p <= |a| && Stream(a, p) && Boundary(a + b, p, q)
    ensures (q <= |a| && Boundary(a, p, q)) || (q >= |a| && Boundary(b, 0, q - |a|))
    decreases |a| - p
  {
    if p == |a| {
      BoundaryBehind(a, b, 0, q);
    } else if p != q {
      assert (a + b)[p] == a[p];
      BoundaryOfBoth(a, b, Next(a, p), q);
    }
  }

  lemma {:induction false} BoundaryBehind(a: seq<byte>, b: seq<byte>, p: nat, q: nat)
    requires p <= |b|
    ensures Boundary(a + b, |a| + p, q) <==> q >= |a| && Boundary(b, p, q - |a|)
    decreases |b| - p
  {
    if |a| + p != q && p < |b| {
      assert (a + b)[|a| + p] == b[p];
      if Whole(b, p) { BoundaryBehind(a, b, Next(b, p), q); }
    }
  }

  lemma {:induction false} BoundaryInFront(a: seq<byte>, b: seq<byte>, p: nat, q: nat)
    requires p <= |a| && Boundary(a, p, q)
    ensures Boundary(a + b, p, q)
    decreases |a| - p
  {
    if p != q {
      assert (a + b)[p] == a[p];
      BoundaryInFront(a, b, Next(a, p), q);
    }
  }

  lemma {:induction false} BoundaryAtEnd(a: seq<byte>, p: nat)
    requires p <= |a| && Stream(a, p)
    ensures Boundary(a, p, |a|)
    decreases |a| - p
  {
    if p != |a| { BoundaryAtEnd(a, Next(a, p)); }
  }

  lemma {:induction false} BoundaryThrough(a: seq<byte>, p: nat, m: nat, q: nat)
    requires p <= |a| && Boundary(a, p, m) && Boundary(a, m, q)
    ensures Boundary(a, p, q)
    decreases |a| - p
  {
    if p != m && p != q { BoundaryThrough(a, Next(a, p), m, q); }
  }

  /** The place between two pieces is a label, and so are those of the second one. */
  lemma LabelBehind(a: seq<byte>, b: seq<byte>, q: nat)
    requires Streams(a) && Boundary(b, 0, q)
    ensures Boundary(a + b, 0, |a| + q)
  {
    BoundaryAtEnd(a, 0);
    BoundaryInFront(a, b, 0, |a|);
    BoundaryBehind(a, b, 0, |a| + q);
    BoundaryThrough(a + b, 0, |a|, |a| + q);
  }

  lemma WithinFront(a: seq<byte>, b: seq<byte>, p: nat, e: set<nat>, e': set<nat>, t: nat)
    requires Within(a, p, e, t)
    ensures Within(a + b, p, e + e', t)
  {
    if t !in e { BoundaryInFront(a, b, 0, t - p); }
  }

  lemma WithinBehind(a: seq<byte>, b: seq<byte>, p: nat, e: set<nat>, e': set<nat>, t: nat)
    requires Streams(a) && Within(b, p + |a|, e', t)
    ensures Within(a + b, p, e + e', t)
  {
    hide Streams;
    if t !in e' { LabelBehind(a, b, t - (p + |a|)); }
  }

  lemma SameInstr(a: seq<byte>, b: seq<byte>, q: nat)
    requires JumpAt(a + b, q) && Streams(a) && Streams(b)
    ensures (JumpAt(a, q) && Target(a, q) == Target(a + b, q))
            || (q >= |a| && JumpAt(b, q - |a|) && Target(b, q - |a|) == Target(a + b, q))
  {
    BoundaryOfBoth(a, b, 0, q);
    if q < |a| && Boundary(a, 0, q) {
      assert (a + b)[q] == a[q];
      BoundaryWhole(a, 0, q);
      assert Whole(a, q);
      assert (a + b)[q + 1] == a[q + 1] && (a + b)[q + 2] == a[q + 2];
    } else {
      var r := q - |a|;
      assert (a + b)[q] == b[r];
      assert Boundary(b, 0, r);
      assert (a + b)[q + 1] == b[r + 1] && (a + b)[q + 2] == b[r + 2];
    }
  }

  lemma Both(a: seq<byte>, e: set<nat>, b: seq<byte>, e': set<nat>, p: nat)
    requires Lands(a, p, e) && Lands(b, p + |a|, e')
    ensures Lands(a + b, p, e + e')
  {
    hide Streams, Within, Boundary;
    Append(a, b);
    forall q: nat | JumpAt(a + b, q) ensures Within(a + b, p, e + e', Target(a + b, q)) {
      SameInstr(a, b, q);
      if JumpAt(a, q) && Target(a, q) == Target(a + b, q) {
        WithinFront(a, b, p, e, e', Target(a, q));
      } else {
        WithinBehind(a, b, p, e, e', Target(b, q - |a|));
      }
    }
  }

  lemma JumpWhole(code: seq<byte>, q: nat)
    requires JumpAt(code, q)
    ensures Whole(code, q) && IsJump(code[q])
  {
  }

  /** Two pieces without jumps to the outside. */
  lemma BothClosed(a: seq<byte>, b: seq<byte>, p: nat)
    requires Lands(a, p, {}) && Lands(b, p + |a|, {})
    ensures Lands(a + b, p, {})
  {
    hide Lands;
    Both(a, {}, b, {}, p);
    var none: set<nat> := {};
    assert none + none == none;
  }

  lemma More(code: seq<byte>, p: nat, e: set<nat>, e': set<nat>)
    requires Lands(code, p, e) && e <= e'
    ensures Lands(code, p, e')
  {
    hide Streams, Boundary;
    forall q: nat | JumpAt(code, q) ensures Within(code, p, e', Target(code, q)) {
      assert Within(code, p, e, Target(code, q));
    }
  }

  /** A label of the piece itself need not be counted as outside. */
  lemma DropLabel(code: seq<byte>, p: nat, e: set<nat>, t: nat)
    requires Lands(code, p, e) && p <= t <= p + |code| && Boundary(code, 0, t - p)
    ensures Lands(code, p, e - {t})
  {
    hide Streams, Boundary;
    forall q: nat | JumpAt(code, q) ensures Within(code, p, e - {t}, Target(code, q)) {
      assert Within(code, p, e, Target(code, q));
    }
  }

  /** ... as when it stands between two parts of the piece. */
  lemma DropBetween(a: seq<byte>, b: seq<byte>, p: nat, e: set<nat>, t: nat)
    requires Lands(a + b, p, e) && Streams(a) && t == p + |a|
    ensures Lands(a + b, p, e - {t})
  {
    hide Lands, Streams;
    assert Boundary(b, 0, 0);
    LabelBehind(a, b, 0);
    DropLabel(a + b, p, e, t);
  }

  lemma DropEnd(code: seq<byte>, p: nat, e: set<nat>)
    requires Lands(code, p, e)
    ensures Lands(code, p, e - {p + |code|})
  {
    BoundaryAtEnd(code, 0);
    DropLabel(code, p, e, p + |code|);
  }

  lemma DropStart(code: seq<byte>, p: nat, e: set<nat>)
    requires Lands(code, p, e)
    ensures Lands(code, p, e - {p})
  {
    hide Lands;
    assert Boundary(code, 0, 0);
    DropLabel(code, p, e, p);
  }

  // ----- single instructions -----

  lemma OneInstr(i: seq<byte>, q: nat)
    requires i != [] && i[0] <= LastOpcode && |i| == InstrLen(i[0]) && JumpAt(i, q)
    ensures q == 0
  {
    assert Next(i, 0) == |i| && !Whole(i, |i|);
    assert Boundary(i, |i|, q) <==> q == |i|;
  }

  lemma NoJump(i: seq<byte>, p: nat)
    requires i == [] || (i[0] <= LastOpcode && |i| == InstrLen(i[0]) && !IsJump(i[0]))
    ensures Lands(i, p, {})
  {
    hide InstrLen, IsJump;
    if i == [] {
      Nothing();
      forall q: nat | JumpAt(i, q) ensures false { JumpWhole(i, q); }
    } else {
      Single(i);
      forall q: nat | JumpAt(i, q) ensures false {
        OneInstr(i, q);
        JumpWhole(i, q);
      }
    }
  }

  lemma OneJump(op: byte, t: nat, p: nat)
    requires IsJump(op) && t < 65536
    ensures Lands(Jump(op, t), p, {t})
  {
    var i := Jump(op, t);
    assert i[0] == op && |i| == InstrLen(op);
    Single(i);
    forall q: nat | JumpAt(i, q) ensures Within(i, p, {t}, Target(i, q)) {
      OneInstr(i, q);
      JumpWhole(i, q);
      WordOfHiLo(t);
    }
  }

  // ----- guarded code -----

  lemma LandsStreams(code: seq<byte>, p: nat, e: set<nat>)
    requires Lands(code, p, e)
    ensures Streams(code)
  {
  }

  lemma Guarded(x: seq<byte>, z: seq<byte>, p: nat, end: nat, e: set<nat>)
    requires Lands(x, p, {}) && Lands(z, p + |x| + 3, e) && end == p + |x| + 3 + |z| && end < 65536
    ensures Lands(x + Jump(OpJumpFalsy, end) + z, p, e)
  {
    hide Lands, Jump;
    var j := Jump(OpJumpFalsy, end);
    OneJump(OpJumpFalsy, end, p + |x|);
    Both(x, {}, j, {end}, p);
    Both(x + j, {} + {end}, z, e, p);
    var ext := {} + {end} + e;
    DropEnd(x + j + z, p, ext);
    More(x + j + z, p, ext - {end}, e);
  }

  lemma GuardedElse(x: seq<byte>, z: seq<byte>, w: seq<byte>, p: nat, els: nat, e: set<nat>)
    requires Lands(x, p, {}) && Lands(z, p + |x| + 3, e) && els == p + |x| + 3 + |z| + 3 && Lands(w, els, e)
             && els + |w| < 65536
    ensures Lands(x + Jump(OpJumpFalsy, els) + z + (Jump(OpJump, els + |w|) + w), p, e)
  {
    hide Lands, Jump, Streams;
    var end := els + |w|;
    var j1, j2 := Jump(OpJumpFalsy, els), Jump(OpJump, end);
    OneJump(OpJumpFalsy, els, p + |x|);
    OneJump(OpJump, end, els - 3);
    Both(x, {}, j1, {els}, p);
    Both(x + j1, {} + {els}, z, e, p);
    Both(x + j1 + z, {} + {els} + e, j2, {end}, p);
    LandsStreams(x + j1 + z + j2, p, {} + {els} + e + {end});
    Both(x + j1 + z + j2, {} + {els} + e + {end}, w, e, p);
    var ext := {} + {els} + e + {end} + e;
    DropBetween(x + j1 + z + j2, w, p, ext, els);
    DropEnd(x + j1 + z + j2 + w, p, ext - {els});
    More(x + j1 + z + j2 + w, p, ext - {els} - {end}, e);
    assert x + j1 + z + j2 + w == x + j1 + z + (j2 + w);
  }

  // ----- expressions -----

  lemma {:induction false} ExprLands(e: Expr, names: seq<string>, p: nat, k: nat)
    requires p + ExprLen(e) < 65536
    ensures Lands(ExprCode(e, names, p, k), p, {})
    decreases e, 1
  {
    hide Lands, ExprCode, ExprLen, ExprConsts;
    match e
    case Unary(_, _) => UnaryLands(e, names, p, k);
    case Binary(_, _, _) => BinaryLands(e, names, p, k);
    case Logical(_, _, _) => LogicalLands(e, names, p, k);
    case Cond(_, _, _) => CondLands(e, names, p, k);
    case _ => LeafLands(e, names, p, k);
  }

  lemma LeafLands(e: Expr, names: seq<string>, p: nat, k: nat)
    requires e.Const? || e.BoolLit? || e.UndefinedLit? || e.Ident?
    ensures Lands(ExprCode(e, names, p, k), p, {})
  {
    hide Lands;
    NoJump(ExprCode(e, names, p, k), p);
  }

  lemma {:induction false} UnaryLands(e: Expr, names: seq<string>, p: nat, k: nat)
    requires e.Unary? && p + ExprLen(e) < 65536
    ensures Lands(ExprCode(e, names, p, k), p, {})
    decreases e, 0
  {
    hide Lands;
    ExprLands(e.e, names, p, k);
    NoJump(UnaryCode(e.tok), p + ExprLen(e.e));
    BothClosed(ExprCode(e.e, names, p, k), UnaryCode(e.tok), p);
  }

  lemma {:induction false} BinaryLands(e: Expr, names: seq<string>, p: nat, k: nat)
    requires e.Binary? && p + ExprLen(e) < 65536
    ensures Lands(ExprCode(e, names, p, k), p, {})
    decreases e, 0
  {
    hide Lands, ExprCode, ExprLen, ExprConsts, BinaryCode;
    BinaryRest(e, names);
    var p1, k1 := p + ExprLen(e.l), k + |ExprConsts(e.l)|;
    ExprLands(e.l, names, p, k);
    ExprLands(e.r, names, p1, k1);
    OperatorLands(e.tok, p1 + ExprLen(e.r));
    ThreeClosed(ExprCode(e.l, names, p, k), ExprCode(e.r, names, p1, k1), BinaryCode(e.tok), p);
    BinaryLayout(e, names, p, k);
  }

  lemma ThreeClosed(x: seq<byte>, y: seq<byte>, z: seq<byte>, p: nat)
    requires Lands(x, p, {}) && Lands(y, p + |x|, {}) && Lands(z, p + |x| + |y|, {})
    ensures Lands(x + y + z, p, {})
  {
    hide Lands;
    BothClosed(x, y, p);
    BothClosed(x + y, z, p);
  }

  lemma OperatorLands(tok: byte, p: nat)
    ensures Lands(BinaryCode(tok), p, {})
  {
    hide Lands;
    NoJump(BinaryCode(tok), p);
  }

  lemma {:induction false} LogicalLands(e: Expr, names: seq<string>, p: nat, k: nat)
    requires e.Logical? && p + ExprLen(e) < 65536
    ensures Lands(ExprCode(e, names, p, k), p, {})
    decreases e, 0
  {
    hide Lands, ExprCode, ExprConsts, Jump;
    LogicalLayout(e, names, p, k);
    var op, p1, k1 := if e.isAnd then OpAndJump else OpOrJump, p + ExprLen(e.l) + 3, k + |ExprConsts(e.l)|;
    var end := p + ExprLen(e);
    var x, j, y := ExprCode(e.l, names, p, k), Jump(op, end), ExprCode(e.r, names, p1, k1);
    ExprLands(e.l, names, p, k);
    ExprLands(e.r, names, p1, k1);
    OneJump(op, end, p + |x|);
    Both(x, {}, j, {end}, p);
    Both(x + j, {} + {end}, y, {}, p);
    DropEnd(x + j + y, p, {} + {end} + {});
    assert ({} + {end} + {}) - {end} == {};
  }

  lemma {:induction false} CondLands(e: Expr, names: seq<string>, p: nat, k: nat)
    requires e.Cond? && p + ExprLen(e) < 65536
    ensures Lands(ExprCode(e, names, p, k), p, {})
    decreases e, 0
  {
    hide Lands, ExprConsts, Streams, Jump;
    var Cond(c, t, f) := e;
    var pt := p + ExprLen(c) + 3;
    var pf, kt, end := pt + ExprLen(t) + 3, k + |ExprConsts(c)|, p + ExprLen(e);
    var x, y, z := ExprCode(c, names, p, k), ExprCode(t, names, pt, kt), ExprCode(f, names, pf, kt + |ExprConsts(t)|);
    ExprLands(c, names, p, k);
    ExprLands(t, names, pt, kt);
    ExprLands(f, names, pf, kt + |ExprConsts(t)|);
    GuardedElse(x, y, z, p, pf, {});
    assert x + Jump(OpJumpFalsy, pf) + y + (Jump(OpJump, end) + z)
        == x + Jump(OpJumpFalsy, pf) + y + Jump(OpJump, end) + z;
  }

  lemma StoreLands(sm: Simple, names: seq<string>, p: nat)
    ensures Lands(StoreCode(sm, names), p, {})
  {
    hide Lands;
    NoJump(StoreCode(sm, names), p);
  }

  lemma SimpleLands(sm: Simple, names: seq<string>, p: nat, k: nat)
    requires p + SimpleLen(sm) < 65536
    ensures Lands(SimpleCode(sm, names, p, k), p, {})
  {
    hide Lands, ExprCode, StoreCode;
    ExprLands(Operand(sm), names, p, k);
    StoreLands(sm, names, p + ExprLen(Operand(sm)));
    BothClosed(ExprCode(Operand(sm), names, p, k), StoreCode(sm, names), p);
  }

  lemma InitLands(init: Option<Simple>, names: seq<string>, p: nat, k: nat)
    requires p + InitLen(init) < 65536
    ensures Lands(InitCode(init, names, p, k), p, {})
  {
    hide Lands, SimpleCode;
    if init.None? { NoJump([], p); } else { SimpleLands(init.value, names, p, k); }
  }

  // ----- the comparisons of a case -----

  lemma {:induction false} PreLands(tag: Option<Expr>, exprs: seq<Expr>, names: seq<string>, p: nat, k: nat, hit: nat,
                                    miss: nat)
    requires p + PreLen(tag, exprs) < 65536 && hit < 65536 && miss < 65536
    ensures Lands(PreCode(tag, exprs, names, p, k, hit, miss), p, {hit, miss})
    decreases |exprs|
  {
    hide Lands, ExprCode, ExprLen, ExprConsts, Comparison, Jump, Streams, PreCode;
    if exprs == [] {
      NoComparisons(tag, names, p, k, hit, miss);
    } else {
      PreShape(tag, exprs, names, p, k, hit, miss);
      PreSizes(tag, exprs, names);
      var c := Comparison(tag, exprs[0]);
      var p1, k1 := p + ExprLen(c), k + |ExprConsts(c)|;
      var x := ExprCode(c, names, p, k);
      ExprLands(c, names, p, k);
      if |exprs| == 1 {
        OneJump(OpJumpFalsy, miss, p1);
        Both(x, {}, Jump(OpJumpFalsy, miss), {miss}, p);
        More(x + Jump(OpJumpFalsy, miss), p, {} + {miss}, {hit, miss});
      } else {
        var rest := PreCode(tag, exprs[1..], names, p1 + 6, k1, hit, miss);
        PreLands(tag, exprs[1..], names, p1 + 6, k1, hit, miss);
        Comparing(x, rest, p, p1 + 6, hit, miss);
      }
    }
  }

  lemma NoComparisons(tag: Option<Expr>, names: seq<string>, p: nat, k: nat, hit: nat, miss: nat)
    ensures Lands(PreCode(tag, [], names, p, k, hit, miss), p, {hit, miss})
  {
    hide Lands;
    NoJump([], p);
    More([], p, {}, {hit, miss});
  }

  /** One comparison, which jumps to the next one or to the body. */
  lemma Comparing(x: seq<byte>, rest: seq<byte>, p: nat, next: nat, hit: nat, miss: nat)
    requires Lands(x, p, {}) && Lands(rest, next, {hit, miss}) && next == p + |x| + 6 && next < 65536 && hit < 65536
    ensures Lands(x + (Jump(OpJumpFalsy, next) + Jump(OpJump, hit) + rest), p, {hit, miss})
  {
    hide Lands, Jump, Streams;
    var j1, j2 := Jump(OpJumpFalsy, next), Jump(OpJump, hit);
    OneJump(OpJumpFalsy, next, p + |x|);
    OneJump(OpJump, hit, p + |x| + 3);
    Both(x, {}, j1, {next}, p);
    Both(x + j1, {} + {next}, j2, {hit}, p);
    LandsStreams(x + j1 + j2, p, {} + {next} + {hit});
    Both(x + j1 + j2, {} + {next} + {hit}, rest, {hit, miss}, p);
    var ext := {} + {next} + {hit} + {hit, miss};
    DropBetween(x + j1 + j2, rest, p, ext, next);
    More(x + j1 + j2 + rest, p, ext - {next}, {hit, miss});
    assert x + j1 + j2 + rest == x + (j1 + j2 + rest);
  }

  // ----- statements -----

  /** Where the jumps out of a statement may go. */
  function Outside(t: Targets, c: Context): set<nat> {
    (if c.frame != NoFrame then {t.brk} else {}) + (if c.frame == LoopFrame then {t.cont} else {})
        + (if c.fallOk then {t.fall} else {})
  }

  predicate Reachable(t: Targets, c: Context) { forall x <- Outside(t, c) :: x < 65536 }

  lemma {:induction false} StmtLands(s: Stmt, names: seq<string>, start: nat, c: Context, p: nat, k: nat, t: Targets)
    requires start <= |names| && StmtOk(s, names, start, c) && p + StmtLen(s) < 65536 && Reachable(t, c)
    ensures Lands(StmtCode(s, names, p, k, t), p, Outside(t, c))
    decreases s, 3
  {
    hide Lands, Reachable, Outside, ExprCode, SimpleCode, StmtsCode, IfCode, LoopCode, InitCode, SwitchCode, StmtsOk,
        InitOk;
    match s
    case SimpleStmt(sm) =>
      SimpleLands(sm, names, p, k);
      More(StmtCode(s, names, p, k, t), p, {}, Outside(t, c));
    case Block(body) => StmtsLands(body, names, |names|, c, p, k, t);
    case If(_, _, _, _) => IfLands(s, names, start, c, p, k, t);
    case For(_, _, _, _) => ForLands(s, names, start, c, p, k, t);
    case Switch(_, _, _) =>
      SwitchLands(s, names, start, c, p, k);
      More(StmtCode(s, names, p, k, t), p, {}, Outside(t, c));
    case _ => ExitLands(s, names, start, c, p, k, t);
  }

  /** Statements that leave the one around them. */
  lemma ExitLands(s: Stmt, names: seq<string>, start: nat, c: Context, p: nat, k: nat, t: Targets)
    requires s.Break? || s.Continue? || s.Fallthrough? || s.Return?
    requires start <= |names| && StmtOk(s, names, start, c) && p + StmtLen(s) < 65536 && Reachable(t, c)
    ensures Lands(StmtCode(s, names, p, k, t), p, Outside(t, c))
  {
    hide Lands, ExprCode, Jump;
    match s
    case Break =>
      assert t.brk in Outside(t, c);
      OneJump(OpJump, t.brk, p);
      More(Jump(OpJump, t.brk), p, {t.brk}, Outside(t, c));
    case Continue =>
      assert t.cont in Outside(t, c);
      OneJump(OpJump, t.cont, p);
      More(Jump(OpJump, t.cont), p, {t.cont}, Outside(t, c));
    case Fallthrough =>
      assert t.fall in Outside(t, c);
      OneJump(OpJump, t.fall, p);
      More(Jump(OpJump, t.fall), p, {t.fall}, Outside(t, c));
    case Return(None) =>
      NoJump(Op1(OpReturn, 0), p);
      More(Op1(OpReturn, 0), p, {}, Outside(t, c));
    case Return(Some(e)) =>
      var x := ExprCode(e, names, p, k);
      ExprLands(e, names, p, k);
      NoJump(Op1(OpReturn, 1), p + |x|);
      BothClosed(x, Op1(OpReturn, 1), p);
      More(x + Op1(OpReturn, 1), p, {}, Outside(t, c));
    case _ =>
  }

  lemma {:induction false} StmtsLands(ss: Stmts, names: seq<string>, start: nat, c: Context, p: nat, k: nat, t: Targets)
    requires start <= |names| && StmtsOk(ss, names, start, c) && p + StmtsLen(ss) < 65536 && Reachable(t, c)
    ensures Lands(StmtsCode(ss, names, p, k, t), p, Outside(t, c))
    decreases ss, 0
  {
    hide Lands, Reachable, Outside, StmtCode, StmtLen, StmtConsts, StmtOk, StmtsOk, StmtsCode, StmtsLen;
    match ss
    case Nil => EmptyLands(names, p, k, t, Outside(t, c));
    case Cons(s, rest) =>
      ConsShape(ss, names, start, c, p, k, t);
      var ns, p1, k1 := NamesIn(s, names), p + StmtLen(s), k + |StmtConsts(s)|;
      var x, y := StmtCode(s, names, p, k, t), StmtsCode(rest, ns, p1, k1, t);
      StmtLands(s, names, start, c, p, k, t);
      StmtsLands(rest, ns, start, c, p1, k1, t);
      Both(x, Outside(t, c), y, Outside(t, c), p);
      assert Outside(t, c) + Outside(t, c) == Outside(t, c);
  }

  lemma EmptyLands(names: seq<string>, p: nat, k: nat, t: Targets, e: set<nat>)
    ensures Lands(StmtsCode(Nil, names, p, k, t), p, e)
  {
    hide Lands;
    NoJump([], p);
    More([], p, {}, e);
  }

  lemma {:induction false} IfLands(s: Stmt, names: seq<string>, start: nat, c: Context, p: nat, k: nat, t: Targets)
    requires s.If? && start <= |names| && StmtOk(s, names, start, c) && p + StmtLen(s) < 65536 && Reachable(t, c)
    ensures Lands(StmtCode(s, names, p, k, t), p, Outside(t, c))
    decreases s, 2
  {
    hide Lands, Reachable, Outside, ExprCode, StmtsCode, StmtCode, InitCode, StmtLen, StmtsLen, InitLen, InitConsts,
        InitNames, ExprLen,
         ExprConsts, StmtsConsts, StmtOk, StmtsOk, InitOk, ExprOk, Jump;
    IfShape(s, names, p, k, t);
    IfSizes(s, |names|);
    IfOk(s, names, start, c);
    var ns := InitNames(s.init, names);
    var pc, kc := p + InitLen(s.init), k + |InitConsts(s.init)|;
    var pb, kb := pc + ExprLen(s.cond) + 3, kc + |ExprConsts(s.cond)|;
    var i, e, z := InitCode(s.init, names, p, k), ExprCode(s.cond, ns, pc, kc), StmtsCode(s.body, ns, pb, kb, t);
    ConditionLands(s.init, s.cond, names, p, k);
    StmtsLands(s.body, ns, |ns|, c, pb, kb, t);
    hide StmtCode;
    if s.els.None? {
      Guarded(i + e, z, p, pb + |z|, Outside(t, c));
      NothingBehind(i + e + Jump(OpJumpFalsy, pb + |z|) + z);
    } else {
      var pe, ke := pb + |z| + 3, kb + |StmtsConsts(s.body)|;
      StmtLands(s.els.value, ns, |names|, c, pe, ke, t);
      GuardedElse(i + e, z, StmtCode(s.els.value, ns, pe, ke, t), p, pe, Outside(t, c));
    }
  }

  lemma NothingBehind(x: seq<byte>)
    ensures x + [] == x
  {
  }

  lemma ConditionLands(init: Option<Simple>, cond: Expr, names: seq<string>, p: nat, k: nat)
    requires p + InitLen(init) + ExprLen(cond) < 65536
    ensures var x := InitCode(init, names, p, k);
            Lands(x + ExprCode(cond, InitNames(init, names), p + |x|, k + |InitConsts(init)|), p, {})
  {
    hide Lands, InitCode, ExprCode, InitNames, InitLen, ExprLen, InitConsts;
    var x := InitCode(init, names, p, k);
    InitLands(init, names, p, k);
    ExprLands(cond, InitNames(init, names), p + |x|, k + |InitConsts(init)|);
    BothClosed(x, ExprCode(cond, InitNames(init, names), p + |x|, k + |InitConsts(init)|), p);
  }

  lemma ForParts(s: Stmt, names: seq<string>, start: nat, c: Context, p: nat, k: nat, t: Targets)
    requires s.For? && start <= |names| && StmtOk(s, names, start, c)
    ensures var ns, pl, kl := InitNames(s.init, names), p + InitLen(s.init), k + |InitConsts(s.init)|;
            && StmtCode(s, names, p, k, t) == InitCode(s.init, names, p, k)
              + LoopCode(s.forCond, s.post, s.body, ns, pl, kl, t.fall)
            && StmtLen(s) == InitLen(s.init) + CondLen(s.forCond) + StmtsLen(s.body) + InitLen(s.post) + 3
            && StmtsOk(s.body, ns, |ns|, Context(LoopFrame, c.fallOk))
  {
    hide InitCode, InitNames, InitLen, InitConsts, LoopCode, StmtsOk, InitOk, CondLen, StmtsLen;
  }

  lemma LoopShape(cond: Option<Expr>, post: Option<Simple>, body: Stmts, names: seq<string>, p: nat, k: nat, fall: nat)
    ensures var pb, kb := p + CondLen(cond), k + |OptConsts(cond)|;
            var pp := pb + StmtsLen(body);
            var end := pp + InitLen(post) + 3;
            LoopCode(cond, post, body, names, p, k, fall)
            == CondCode(cond, names, p, k, end) + StmtsCode(body, names, pb, kb, Targets(end, pp, fall))
               + InitCode(post, names, pp, kb + |StmtsConsts(body)|) + Jump(OpJump, p)
  {
    hide InitCode, InitLen, CondCode, CondLen, StmtsCode, StmtsLen, StmtsConsts, OptConsts, Jump;
  }

  lemma CondCodeLands(cond: Option<Expr>, names: seq<string>, p: nat, k: nat, end: nat)
    requires p + CondLen(cond) < 65536 && end < 65536
    ensures Lands(CondCode(cond, names, p, k, end), p, {end})
  {
    hide Lands, ExprCode, ExprLen, Jump;
    if cond.None? {
      NoJump([], p);
      More([], p, {}, {end});
    } else {
      var x := ExprCode(cond.value, names, p, k);
      ExprLands(cond.value, names, p, k);
      OneJump(OpJumpFalsy, end, p + |x|);
      Both(x, {}, Jump(OpJumpFalsy, end), {end}, p);
      More(x + Jump(OpJumpFalsy, end), p, {} + {end}, {end});
    }
  }

  /** A loop takes the breaks and continues of its body. */
  lemma Looping(x: seq<byte>, y: seq<byte>, z: seq<byte>, p: nat, post: nat, end: nat, e: set<nat>)
    requires Lands(x, p, {end}) && Lands(y, p + |x|, {end, post} + e) && Lands(z, post, {})
    requires post == p + |x| + |y| && end == post + |z| + 3 && end < 65536
    ensures Lands(x + y + z + Jump(OpJump, p), p, e)
  {
    hide Lands, Jump, Streams;
    var j := Jump(OpJump, p);
    OneJump(OpJump, p, post + |z|);
    Both(x, {end}, y, {end, post} + e, p);
    LandsStreams(x + y, p, {end} + ({end, post} + e));
    Both(z, {}, j, {p}, post);
    Both(x + y, {end} + ({end, post} + e), z + j, {} + {p}, p);
    var ext := {end} + ({end, post} + e) + ({} + {p});
    DropBetween(x + y, z + j, p, ext, post);
    DropEnd(x + y + (z + j), p, ext - {post});
    DropStart(x + y + (z + j), p, ext - {post} - {end});
    More(x + y + (z + j), p, ext - {post} - {end} - {p}, e);
    assert x + y + (z + j) == x + y + z + j;
  }

  lemma {:induction false} ForLands(s: Stmt, names: seq<string>, start: nat, c: Context, p: nat, k: nat, t: Targets)
    requires s.For? && start <= |names| && StmtOk(s, names, start, c) && p + StmtLen(s) < 65536 && Reachable(t, c)
    ensures Lands(StmtCode(s, names, p, k, t), p, Outside(t, c))
    decreases s, 2
  {
    hide Lands, StmtsCode, StmtCode, InitCode, StmtLen, StmtsLen, InitLen, InitConsts, InitNames, CondCode, CondLen,
        LoopCode, OptConsts,
         StmtsConsts, StmtOk, StmtsOk, InitOk, Jump, Streams;
    ForParts(s, names, start, c, p, k, t);
    var ns, pl, kl := InitNames(s.init, names), p + InitLen(s.init), k + |InitConsts(s.init)|;
    var pb, kb := pl + CondLen(s.forCond), kl + |OptConsts(s.forCond)|;
    var pp := pb + StmtsLen(s.body);
    var end, kp := pp + InitLen(s.post) + 3, kb + |StmtsConsts(s.body)|;
    LoopShape(s.forCond, s.post, s.body, ns, pl, kl, t.fall);
    InitLands(s.init, names, p, k);
    CondCodeLands(s.forCond, ns, pl, kl, end);
    var inner, fall := Context(LoopFrame, c.fallOk), if c.fallOk then {t.fall} else {};
    assert Outside(Targets(end, pp, t.fall), inner) == {end, pp} + fall;
    assert fall <= Outside(t, c);
    StmtsLands(s.body, ns, |ns|, inner, pb, kb, Targets(end, pp, t.fall));
    InitLands(s.post, ns, pp, kp);
    Looping(CondCode(s.forCond, ns, pl, kl, end), StmtsCode(s.body, ns, pb, kb, Targets(end, pp, t.fall)),
            InitCode(s.post, ns, pp, kp),
            pl, pp, end, fall);
    Both(InitCode(s.init, names, p, k), {}, LoopCode(s.forCond, s.post, s.body, ns, pl, kl, t.fall), fall, p);
    More(StmtCode(s, names, p, k, t), p, {} + fall, Outside(t, c));
  }

  // ----- switches -----

  lemma {:induction false} SwitchLands(s: Stmt, names: seq<string>, start: nat, c: Context, p: nat, k: nat)
    requires s.Switch? && start <= |names| && StmtOk(s, names, start, c) && p + StmtLen(s) < 65536
    ensures Lands(SwitchCode(s, names, p, k), p, {})
    decreases s, 2
  {
    hide Lands, StmtCode, InitCode, StmtLen, InitLen, InitConsts, InitNames, CasesCode, CasesLen, CasesConsts, CasesOk,
        DefaultCode,
         DefaultLen, DefaultOk, HasDefault, StmtOk, InitOk, Streams;
    SwitchSizes(s, names, start, c);
    var cl := s.clauses;
    var ns, pc, kc := InitNames(s.init, names), p + InitLen(s.init), k + |InitConsts(s.init)|;
    var pd := pc + CasesLen(cl, s.tag);
    var end, kd := pd + DefaultLen(cl), kc + |CasesConsts(cl, s.tag)|;
    var x, y, z := InitCode(s.init, names, p, k), CasesCode(cl, s.tag, ns, pc, kc, end),
        DefaultCode(cl, ns, pd, kd, end);
    InitLands(s.init, names, p, k);
    CasesLands(cl, s.tag, ns, HasDefault(cl), pc, kc, end);
    DefaultLands(cl, ns, pd, kd, end);
    Both(x, {}, y, {end}, p);
    Both(x + y, {} + {end}, z, {end}, p);
    DropEnd(x + y + z, p, {} + {end} + {end});
    assert ({} + {end} + {end}) - {end} == {};
  }

  /** A fallthrough goes to a label of the cases that follow, or to their end. */
  lemma {:induction false} FallLands(cl: Clauses, tag: Option<Expr>, names: seq<string>, p: nat, k: nat, end: nat)
    ensures var f := FallTarget(cl, tag, p);
            p <= f <= p + CasesLen(cl, tag) && Boundary(CasesCode(cl, tag, names, p, k, end), 0, f - p)
    decreases cl
  {
    hide Boundary;
    match cl
    case NoMore => StartBoundary([]);
    case Default(_, rest) => FallLands(rest, tag, names, p, k, end);
    case Case(_, _, _) => FallIntoCase(cl, tag, names, p, k, end);
  }

  lemma FallIntoCase(cl: Clauses, tag: Option<Expr>, names: seq<string>, p: nat, k: nat, end: nat)
    requires cl.Case?
    ensures var f := FallTarget(cl, tag, p);
            p <= f <= p + CasesLen(cl, tag) && Boundary(CasesCode(cl, tag, names, p, k, end), 0, f - p)
  {
    hide Streams, PreCode, PreLen, PreConsts, StmtsCode, StmtsLen, StmtsConsts, Jump, Boundary, CasesCode, CasesLen,
        CasesConsts, FallTarget;
    CaseShape(cl, tag, names, p, k, end);
    CaseSizes(cl, tag, names, 0, false);
    FallTargetIs(cl, tag, p);
    var pb, kb := p + PreLen(tag, cl.exprs), k + |PreConsts(tag, cl.exprs)|;
    var next := pb + StmtsLen(cl.body) + 3;
    var x := PreCode(tag, cl.exprs, names, p, k, pb, next);
    var y := StmtsCode(cl.body, names, pb, kb, Targets(end, 0, FallTarget(cl.rest, tag, next)));
    var z := CasesCode(cl.rest, tag, names, next, kb + |StmtsConsts(cl.body)|, end);
    PreStreams(tag, cl.exprs, names, p, k, pb, next);
    StartBoundary(y + (Jump(OpJump, end) + z));
    LabelBehind(x, y + (Jump(OpJump, end) + z), 0);
    assert x + (y + (Jump(OpJump, end) + z)) == x + y + Jump(OpJump, end) + z;
  }

  lemma FallTargetIs(cl: Clauses, tag: Option<Expr>, p: nat)
    requires cl.Case?
    ensures FallTarget(cl, tag, p) == p + PreLen(tag, cl.exprs)
  {
  }

  lemma StartBoundary(code: seq<byte>)
    ensures Boundary(code, 0, 0)
  {
  }

  lemma {:induction false} CasesLands(cl: Clauses, tag: Option<Expr>, names: seq<string>, dflt: bool, p: nat, k: nat,
                                      end: nat)
    requires CasesOk(cl, tag, names, dflt) && p + CasesLen(cl, tag) < 65536 && end < 65536
    ensures Lands(CasesCode(cl, tag, names, p, k, end), p, {end})
    decreases cl, 1
  {
    hide Lands, CasesCode, CasesLen, CasesOk;
    match cl
    case NoMore => NoCases(tag, names, p, k, end);
    case Default(_, rest) =>
      DefaultSkipped(cl, tag, names, dflt, p, k, end);
      CasesLands(rest, tag, names, dflt, p, k, end);
    case Case(_, _, _) => CaseLands(cl, tag, names, dflt, p, k, end);
  }

  lemma NoCases(tag: Option<Expr>, names: seq<string>, p: nat, k: nat, end: nat)
    ensures Lands(CasesCode(NoMore, tag, names, p, k, end), p, {end})
  {
    hide Lands;
    NoJump([], p);
    More([], p, {}, {end});
  }

  lemma DefaultSkipped(cl: Clauses, tag: Option<Expr>, names: seq<string>, dflt: bool, p: nat, k: nat, end: nat)
    requires cl.Default?
    ensures CasesCode(cl, tag, names, p, k, end) == CasesCode(cl.rest, tag, names, p, k, end)
    ensures CasesLen(cl, tag) == CasesLen(cl.rest, tag)
            && CasesOk(cl, tag, names, dflt) == CasesOk(cl.rest, tag, names, dflt)
  {
  }

  lemma {:induction false} CaseLands(cl: Clauses, tag: Option<Expr>, names: seq<string>, dflt: bool, p: nat, k: nat,
                                     end: nat)
    requires cl.Case? && CasesOk(cl, tag, names, dflt) && p + CasesLen(cl, tag) < 65536 && end < 65536
    ensures Lands(CasesCode(cl, tag, names, p, k, end), p, {end})
    decreases cl, 0
  {
    hide Lands, PreCode, PreLen, PreConsts, PreOk, StmtsCode, StmtsLen, StmtsConsts, StmtsOk, FallTarget, Jump, Streams,
        HasCase,
         CasesCode, CasesLen, CasesOk, Boundary, Outside;
    var Case(exprs, body, rest) := cl;
    CaseShape(cl, tag, names, p, k, end);
    CaseSizes(cl, tag, names, 0, dflt);
    var pb, kb := p + PreLen(tag, exprs), k + |PreConsts(tag, exprs)|;
    var next, kn := pb + StmtsLen(body) + 3, kb + |StmtsConsts(body)|;
    var fall := FallTarget(rest, tag, next);
    FallLands(rest, tag, names, next, kn, end);
    PreLands(tag, exprs, names, p, k, pb, next);
    var c, t := Context(SwitchFrame, HasCase(rest) || dflt), Targets(end, 0, fall);
    OutsideCase(t, c);
    StmtsLands(body, names, |names|, c, pb, kb, t);
    More(StmtsCode(body, names, pb, kb, t), pb, Outside(t, c), {end, fall});
    CasesLands(rest, tag, names, dflt, next, kn, end);
    OneCase(PreCode(tag, exprs, names, p, k, pb, next), StmtsCode(body, names, pb, kb, t),
            CasesCode(rest, tag, names, next, kn, end),
            p, pb, next, fall, end);
  }

  lemma OutsideCase(t: Targets, c: Context)
    requires c.frame == SwitchFrame && t.brk < 65536 && t.fall < 65536
    ensures Outside(t, c) <= {t.brk, t.fall} && Reachable(t, c)
  {
  }

  lemma OneCase(x: seq<byte>, y: seq<byte>, z: seq<byte>, p: nat, body: nat, next: nat, fall: nat, end: nat)
    requires Lands(x, p, {body, next}) && Lands(y, body, {end, fall}) && Lands(z, next, {end})
    requires body == p + |x| && next == body + |y| + 3 && end < 65536
    requires next <= fall <= next + |z| && Boundary(z, 0, fall - next)
    ensures Lands(x + y + Jump(OpJump, end) + z, p, {end})
  {
    hide Lands, Jump, Streams, Boundary;
    var j := Jump(OpJump, end);
    OneJump(OpJump, end, body + |y|);
    LandsStreams(x, p, {body, next});
    Both(x, {body, next}, y, {end, fall}, p);
    Both(x + y, {body, next} + {end, fall}, j, {end}, p);
    LandsStreams(x + y + j, p, {body, next} + {end, fall} + {end});
    Both(x + y + j, {body, next} + {end, fall} + {end}, z, {end}, p);
    var ext := {body, next} + {end, fall} + {end} + {end};
    var all := x + y + j + z;
    LabelBehind(x + y + j, z, fall - next);
    DropLabel(all, p, ext, fall);
    DropBetween(x + y + j, z, p, ext - {fall}, next);
    assert all == x + (y + j + z);
    DropBetween(x, y + j + z, p, ext - {fall} - {next}, body);
    More(all, p, ext - {fall} - {next} - {body}, {end});
  }

  lemma {:induction false} DefaultLands(cl: Clauses, names: seq<string>, p: nat, k: nat, end: nat)
    requires DefaultOk(cl, names) && p + DefaultLen(cl) < 65536 && end < 65536
    ensures Lands(DefaultCode(cl, names, p, k, end), p, {end})
    decreases cl, 0
  {
    hide Lands, StmtsCode, StmtsLen, StmtsOk, HasDefault;
    match cl
    case NoMore =>
      NoJump([], p);
      More([], p, {}, {end});
    case Default(body, _) =>
      var c, t := Context(SwitchFrame, false), Targets(end, 0, 0);
      StmtsLands(body, names, |names|, c, p, k, t);
      assert Outside(t, c) == {end};
    case Case(_, _, rest) => DefaultLands(rest, names, p, k, end);
  }

  // ----- function bodies -----

  lemma OutsideNothing()
    ensures Outside(NoTargets, OutsideLoops) == {}
  {
  }

  /** The jumps of a function body all lead to instructions of it, or to its end. */
  lemma BodyJumpsWell(params: seq<string>, body: Stmts, k: nat)
    requires BodyOk(params, body) && StmtsLen(body) < 65536
    ensures Stream(BodyCode(params, body, k), 0) && OptimizerProof.JumpsWell(BodyCode(params, body, k))
  {
    hide StmtsCode, StmtsLen, StmtsOk, Boundary;
    OutsideNothing();
    StmtsLands(body, params, |params|, OutsideLoops, 0, k, NoTargets);
    var code := BodyCode(params, body, k);
    forall q | Boundary(code, 0, q) && Whole(code, q) && IsJump(code[q])
      ensures Target(code, q) == |code| || (Boundary(code, 0, Target(code, q)) && Target(code, q) < |code|)
    {
      assert JumpAt(code, q);
      assert Within(code, 0, {}, Target(code, q));
    }
  }

  /** Compiling a function that the compiler accepts panics exactly when a jump that is kept leads to a
      return that is dropped because it directly follows dead code. */
  lemma CompilingPanicsExactly(params: seq<string>, body: Stmts, k: nat)
    requires BodyOk(params, body) && StmtsLen(body) < 65536
    ensures var code := BodyCode(params, body, k);
            && Stream(code, 0)
            && (FunctionCode(params, body, k).None?
                <==> exists j <- Optimizer.Kept(code) :: OptimizerProof.JumpsToDroppedReturn(code, j))
  {
    hide BodyOk, BodyCode, Optimizer.Optimized, Optimizer.Kept, OptimizerProof.JumpsToDroppedReturn,
        OptimizerProof.JumpsWell;
    BodyJumpsWell(params, body, k);
    OptimizerProof.PanicsExactly(BodyCode(params, body, k));
  }

  /** func(c) { if c { return }; return } */
  function GuardThenReturn(): Stmts {
    Cons(If(None, Ident("c"), Cons(Return(None), Nil), None), Cons(Return(None), Nil))
  }

  lemma BareReturn(names: seq<string>, p: nat, k: nat, t: Targets)
    ensures StmtsCode(Cons(Return(None), Nil), names, p, k, t) == [OpReturn, 0]
            && StmtsLen(Cons(Return(None), Nil)) == 2
    ensures StmtsConsts(Cons(Return(None), Nil)) == []
  {
    hide SwitchCode, LoopCode, SimpleCode, IfCode;
    assert StmtCode(Return(None), names, p, k, t) == [OpReturn, 0];
  }

  lemma LoadsC(p: nat, k: nat)
    ensures ExprCode(Ident("c"), ["c"], p, k) == [OpGetLocal, 0] && ExprLen(Ident("c")) == 2
            && ExprConsts(Ident("c")) == []
  {
    assert Index(["c"], "c") == 0;
  }

  lemma GuardThenReturnCode(k: nat)
    ensures BodyCode(["c"], GuardThenReturn(), k) == OptimizerProof.GuardThenReturn
  {
    hide StmtsCode, StmtCode, StmtLen, StmtsLen, ExprCode, ExprLen, StmtConsts, ExprConsts;
    var s, ret := GuardThenReturn().hd, Cons(Return(None), Nil);
    ConsShape(GuardThenReturn(), ["c"], 0, OutsideLoops, 0, k, NoTargets);
    IfShape(s, ["c"], 0, k, NoTargets);
    IfSizes(s, 1);
    LoadsC(0, k);
    BareReturn(["c"], 5, k, NoTargets);
    BareReturn(["c"], 7, k + |StmtConsts(s)|, NoTargets);
    assert Jump(OpJumpFalsy, 7) == [OpJumpFalsy, 0, 7];
    GuardThenReturnBytes();
  }

  lemma GuardThenReturnBytes()
    ensures [] + [OpGetLocal, 0] + [OpJumpFalsy, 0, 7] + [OpReturn, 0] + [] + [OpReturn, 0]
            == OptimizerProof.GuardThenReturn
  {
  }

  /** The compiler accepts it, and panics. */
  lemma GuardThenReturnPanics(k: nat)
    ensures BodyOk(["c"], GuardThenReturn()) && FunctionCode(["c"], GuardThenReturn(), k) == None
  {
    hide BodyCode, Optimizer.Optimized;
    GuardThenReturnCode(k);
    OptimizerProof.GuardThenReturnPanics();
  }
}
