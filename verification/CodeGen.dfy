/** The bytecode each construct is compiled to, as a function of where it is placed, of the names
    in scope and of where its break, continue and fallthrough jumps go (vm/compiler.go). */
module CodeGen {
  import opened Wrappers
  import opened Instructions
  import opened Language

  // ----- single instructions -----

  function Op0(op: byte): seq<byte> { [op] }

  function Op1(op: byte, a: int): seq<byte> { [op, Lo(a)] }

  function Op2(op: byte, a: int): seq<byte> { [op, Hi(a), Lo(a)] }

  function Jump(op: byte, target: int): (b: seq<byte>)
    ensures |b| == 3
  {
    Op2(op, target)
  }

  // ----- expressions -----

  function ExprLen(e: Expr): nat {
    match e
    case Const(_) => 3
    case BoolLit(_) => 1
    case UndefinedLit => 1
    case Ident(_) => 2
    case Unary(tok, a) => ExprLen(a) + |UnaryCode(tok)|
    case Binary(tok, a, b) => ExprLen(a) + ExprLen(b) + |BinaryCode(tok)|
    case Logical(_, a, b) => ExprLen(a) + 3 + ExprLen(b)
    case Cond(c, t, f) => ExprLen(c) + 3 + ExprLen(t) + 3 + ExprLen(f)
  }

  /** The constants the literals add to the pool, in order. */
  function ExprConsts(e: Expr): seq<Value> {
    match e
    case Const(v) => [v]
    case Unary(_, a) => ExprConsts(a)
    case Binary(_, a, b) => ExprConsts(a) + ExprConsts(b)
    case Logical(_, a, b) => ExprConsts(a) + ExprConsts(b)
    case Cond(c, t, f) => ExprConsts(c) + ExprConsts(t) + ExprConsts(f)
    case _ => []
  }

  function Max(a: nat, b: nat): nat { if a < b then b else a }

  /** How far the operand stack grows while the expression is evaluated, its result included. */
  function ExprNeed(e: Expr): nat {
    match e
    case Unary(_, a) => ExprNeed(a)
    case Binary(_, a, b) => Max(ExprNeed(a), 1 + ExprNeed(b))
    case Logical(_, a, b) => Max(ExprNeed(a), ExprNeed(b))
    case Cond(c, t, f) => Max(ExprNeed(c), Max(ExprNeed(t), ExprNeed(f)))
    case _ => 1
  }

  /** The compiler accepts the expression: its names resolve and its operators exist. */
  predicate ExprOk(e: Expr, names: seq<string>) {
    match e
    case Ident(x) => Index(names, x) >= 0
    case Unary(tok, a) => UnaryToken(tok) && ExprOk(a, names)
    case Binary(tok, a, b) => BinaryToken(tok) && ExprOk(a, names) && ExprOk(b, names)
    case Logical(_, a, b) => ExprOk(a, names) && ExprOk(b, names)
    case Cond(c, t, f) => ExprOk(c, names) && ExprOk(t, names) && ExprOk(f, names)
    case _ => true
  }

  function UnaryCode(tok: byte): seq<byte> {
    if tok == TokNot then Op0(OpLNot)
    else if tok == TokSub then Op0(OpMinus)
    else if tok == TokXor then Op0(OpBComplement)
    else []
  }

  function BinaryCode(tok: byte): seq<byte> {
    if tok == TokEqual then Op0(OpEqual)
    else if tok == TokNotEqual then Op0(OpNotEqual)
    else Op1(OpBinaryOp, tok)
  }

  /** p is where the code is placed, k how many constants the pool holds already. */
  function ExprCode(e: Expr, names: seq<string>, p: nat, k: nat): (code: seq<byte>)
    ensures |code| == ExprLen(e)
  {
    match e
    case Const(_) => Op2(OpConstant, k)
    case BoolLit(b) => Op0(if b then OpTrue else OpFalse)
    case UndefinedLit => Op0(OpNull)
    case Ident(x) => Op1(OpGetLocal, Index(names, x))
    case Unary(tok, a) => ExprCode(a, names, p, k) + UnaryCode(tok)
    case Binary(tok, a, b) =>
      ExprCode(a, names, p, k)
      + ExprCode(b, names, p + ExprLen(a), k + |ExprConsts(a)|)
      + BinaryCode(tok)
    case Logical(isAnd, a, b) =>
      ExprCode(a, names, p, k)
      + Jump(if isAnd then OpAndJump else OpOrJump, p + ExprLen(e))
      + ExprCode(b, names, p + ExprLen(a) + 3, k + |ExprConsts(a)|)
    case Cond(c, t, f) =>
      var pt := p + ExprLen(c) + 3;
      var pf := pt + ExprLen(t) + 3;
      var kt := k + |ExprConsts(c)|;
      ExprCode(c, names, p, k) + Jump(OpJumpFalsy, pf)
      + ExprCode(t, names, pt, kt) + Jump(OpJump, p + ExprLen(e))
      + ExprCode(f, names, pf, kt + |ExprConsts(t)|)
  }

  // One level of an expression's code and sizes at a time.

  lemma BinaryLayout(e: Expr, names: seq<string>, p: nat, k: nat)
    requires e.Binary?
    ensures ExprCode(e, names, p, k)
            == ExprCode(e.l, names, p, k)
               + ExprCode(e.r, names, p + ExprLen(e.l), k + |ExprConsts(e.l)|) + BinaryCode(e.tok)
  {
    hide ExprLen, ExprConsts, ExprNeed, ExprOk;
  }

  lemma BinaryRest(e: Expr, names: seq<string>)
    requires e.Binary?
    ensures ExprConsts(e) == ExprConsts(e.l) + ExprConsts(e.r)
    ensures ExprLen(e) == ExprLen(e.l) + ExprLen(e.r) + |BinaryCode(e.tok)|
    ensures ExprNeed(e.l) <= ExprNeed(e) && 1 + ExprNeed(e.r) <= ExprNeed(e)
    ensures ExprOk(e, names) ==> BinaryToken(e.tok) && ExprOk(e.l, names) && ExprOk(e.r, names)
  {
    hide ExprCode;
  }

  lemma LogicalLayout(e: Expr, names: seq<string>, p: nat, k: nat)
    requires e.Logical?
    ensures ExprCode(e, names, p, k)
            == ExprCode(e.l, names, p, k) + Jump(if e.isAnd then OpAndJump else OpOrJump, p + ExprLen(e))
               + ExprCode(e.r, names, p + ExprLen(e.l) + 3, k + |ExprConsts(e.l)|)
  {
    hide ExprLen, ExprConsts, ExprNeed, ExprOk;
  }

  lemma LogicalRest(e: Expr, names: seq<string>)
    requires e.Logical?
    ensures ExprConsts(e) == ExprConsts(e.l) + ExprConsts(e.r)
    ensures ExprLen(e) == ExprLen(e.l) + 3 + ExprLen(e.r)
    ensures ExprNeed(e.l) <= ExprNeed(e) && ExprNeed(e.r) <= ExprNeed(e)
    ensures ExprOk(e, names) ==> ExprOk(e.l, names) && ExprOk(e.r, names)
  {
    hide ExprCode;
  }

  lemma CondLayout(e: Expr, names: seq<string>, p: nat, k: nat)
    requires e.Cond?
    ensures var p1, k1 := p + ExprLen(e.c), k + |ExprConsts(e.c)|;
            var pf, kf := p1 + 3 + ExprLen(e.t) + 3, k1 + |ExprConsts(e.t)|;
            ExprCode(e, names, p, k)
            == ExprCode(e.c, names, p, k) + Jump(OpJumpFalsy, pf) + ExprCode(e.t, names, p1 + 3, k1)
               + Jump(OpJump, p + ExprLen(e)) + ExprCode(e.f, names, pf, kf)
  {
    hide ExprLen, ExprConsts, ExprNeed, ExprOk;
  }

  lemma CondRest(e: Expr, names: seq<string>)
    requires e.Cond?
    ensures ExprConsts(e) == ExprConsts(e.c) + ExprConsts(e.t) + ExprConsts(e.f)
    ensures ExprLen(e) == ExprLen(e.c) + 3 + ExprLen(e.t) + 3 + ExprLen(e.f)
    ensures ExprNeed(e.c) <= ExprNeed(e) && ExprNeed(e.t) <= ExprNeed(e) && ExprNeed(e.f) <= ExprNeed(e)
    ensures ExprOk(e, names) ==> ExprOk(e.c, names) && ExprOk(e.t, names) && ExprOk(e.f, names)
  {
    hide ExprCode;
  }

  // ----- simple statements -----

  function IncDecExpr(inc: bool, x: string): Expr {
    Binary(if inc then TokAdd else TokSub, Ident(x), Const(Int(1)))
  }

  /** The token += is compiled with, and so on: the operators and their assignment forms are numbered
      alike. */
  function OpOfAssign(tok: byte): byte { if AssignToken(tok) then tok - TokAddAssign + TokAdd else tok }

  /** The expression whose value a simple statement stores or drops. */
  function Operand(sm: Simple): Expr {
    match sm
    case ExprStmt(e) => e
    case Define(_, e) => e
    case Assign(_, e) => e
    case AssignOp(tok, x, e) => Binary(OpOfAssign(tok), Ident(x), e)
    case IncDec(inc, x) => IncDecExpr(inc, x)
  }

  /** For every assignment operator: x op= e means x = x op e, it is accepted when that is, and it is
      compiled to the same code; and x++ and x-- are x = x + 1 and x = x - 1. */
  lemma AssignOpIsAssign(tok: byte, op: byte, x: string, e: Expr)
    requires (tok, op) in {(TokAddAssign, TokAdd), (TokSubAssign, TokSub), (TokMulAssign, TokMul),
                           (TokQuoAssign, TokQuo), (TokRemAssign, TokRem), (TokAndAssign, TokAnd),
                           (TokOrAssign, TokOr), (TokXorAssign, TokXor), (TokShlAssign, TokShl),
                           (TokShrAssign, TokShr), (TokAndNotAssign, TokAndNot)}
    ensures var s, s' := AssignOp(tok, x, e), Assign(x, Binary(op, Ident(x), e));
            && (forall ops, store :: ExecSimple(ops, s, store) == ExecSimple(ops, s', store))
            && (forall names: seq<string>, start: nat :: start <= |names| ==>
                 (SimpleOk(s, names, start) <==> SimpleOk(s', names, start)))
            && (forall names, p, k :: SimpleCode(s, names, p, k) == SimpleCode(s', names, p, k))
    ensures forall inc, ops, store ::
              ExecSimple(ops, IncDec(inc, x), store)
              == ExecSimple(ops, Assign(x, Binary(if inc then TokAdd else TokSub, Ident(x), Const(Int(1)))), store)
    ensures forall inc, names, p, k ::
              SimpleCode(IncDec(inc, x), names, p, k)
              == SimpleCode(Assign(x, Binary(if inc then TokAdd else TokSub, Ident(x), Const(Int(1)))), names, p, k)
  {
    hide Eval, ExprCode, ExprLen, ExprOk, Index, Put;
    assert OpOfAssign(tok) == op && Applied(tok) == op;
  }

  function SimpleLen(sm: Simple): nat { ExprLen(Operand(sm)) + (if sm.ExprStmt? then 1 else 2) }

  function SimpleConsts(sm: Simple): seq<Value> { ExprConsts(Operand(sm)) }

  predicate SimpleOk(sm: Simple, names: seq<string>, start: nat)
    requires start <= |names|
  {
    ExprOk(Operand(sm), names) &&
    match sm
    case ExprStmt(_) => true
    case Define(x, _) => x !in names[start..]      // not redeclared in this block
    case Assign(x, _) => Index(names, x) >= 0
    case AssignOp(tok, x, _) => AssignToken(tok) && Index(names, x) >= 0
    case IncDec(_, x) => Index(names, x) >= 0
  }

  function StoreCode(sm: Simple, names: seq<string>): seq<byte> {
    match sm
    case ExprStmt(_) => Op0(OpPop)
    case Define(_, _) => Op1(OpDefineLocal, |names|)
    case Assign(x, _) => Op1(OpSetLocal, Index(names, x))
    case AssignOp(_, x, _) => Op1(OpSetLocal, Index(names, x))
    case IncDec(_, x) => Op1(OpSetLocal, Index(names, x))
  }

  function SimpleCode(sm: Simple, names: seq<string>, p: nat, k: nat): (code: seq<byte>)
    ensures |code| == SimpleLen(sm)
  {
    ExprCode(Operand(sm), names, p, k) + StoreCode(sm, names)
  }

  function NamesAfter(sm: Simple, names: seq<string>): seq<string> {
    if sm.Define? then names + [sm.x] else names
  }

  function LocalsAfter(sm: Simple, n: nat): nat { if sm.Define? then n + 1 else n }

  // An init or post statement may be absent.

  function InitLen(init: Option<Simple>): nat { if init.None? then 0 else SimpleLen(init.value) }

  function InitConsts(init: Option<Simple>): seq<Value> { if init.None? then [] else SimpleConsts(init.value) }

  function InitNeed(init: Option<Simple>): nat { if init.None? then 0 else ExprNeed(Operand(init.value)) }

  predicate InitOk(init: Option<Simple>, names: seq<string>, start: nat)
    requires start <= |names|
  {
    init.None? || SimpleOk(init.value, names, start)
  }

  function InitCode(init: Option<Simple>, names: seq<string>, p: nat, k: nat): (code: seq<byte>)
    ensures |code| == InitLen(init)
  {
    if init.None? then [] else SimpleCode(init.value, names, p, k)
  }

  function InitNames(init: Option<Simple>, names: seq<string>): (r: seq<string>)
    ensures |names| <= |r| && r[..|names|] == names
  {
    if init.None? then names else NamesAfter(init.value, names)
  }

  function InitLocals(init: Option<Simple>, n: nat): nat { if init.None? then n else LocalsAfter(init.value, n) }

  function OptLen(e: Option<Expr>): nat { if e.None? then 0 else ExprLen(e.value) }

  function OptConsts(e: Option<Expr>): seq<Value> { if e.None? then [] else ExprConsts(e.value) }

  function OptNeed(e: Option<Expr>): nat { if e.None? then 0 else ExprNeed(e.value) }

  predicate OptOk(e: Option<Expr>, names: seq<string>) { e.None? || ExprOk(e.value, names) }

  // ----- case preambles -----

  /** What is evaluated for one expression of a case. */
  function Comparison(tag: Option<Expr>, e: Expr): Expr {
    if tag.Some? then Binary(TokEqual, tag.value, e) else e
  }

  function PreLen(tag: Option<Expr>, exprs: seq<Expr>): nat {
    if exprs == [] then 0
    else ExprLen(Comparison(tag, exprs[0])) + (if |exprs| == 1 then 3 else 6) + PreLen(tag, exprs[1..])
  }

  function PreConsts(tag: Option<Expr>, exprs: seq<Expr>): seq<Value> {
    if exprs == [] then [] else ExprConsts(Comparison(tag, exprs[0])) + PreConsts(tag, exprs[1..])
  }

  function PreNeed(tag: Option<Expr>, exprs: seq<Expr>): nat {
    if exprs == [] then 0 else Max(ExprNeed(Comparison(tag, exprs[0])), PreNeed(tag, exprs[1..]))
  }

  predicate PreOk(tag: Option<Expr>, exprs: seq<Expr>, names: seq<string>) {
    exprs == [] || (ExprOk(Comparison(tag, exprs[0]), names) && PreOk(tag, exprs[1..], names))
  }

  /** All comparisons but the last jump to the body on a hit; the last jumps to `miss` otherwise. */
  function PreCode(tag: Option<Expr>, exprs: seq<Expr>, names: seq<string>, p: nat, k: nat, hit: nat,
                   miss: nat): (code: seq<byte>)
    ensures |code| == PreLen(tag, exprs)
  {
    if exprs == [] then []
    else
      var c := Comparison(tag, exprs[0]);
      var p1 := p + ExprLen(c);
      var k1 := k + |ExprConsts(c)|;
      ExprCode(c, names, p, k)
      + (if |exprs| == 1 then Jump(OpJumpFalsy, miss)
         else Jump(OpJumpFalsy, p1 + 6) + Jump(OpJump, hit) + PreCode(tag, exprs[1..], names, p1 + 6, k1, hit, miss))
  }

  // ----- statements -----

  /** Where the three kinds of jump out of a statement go. */
  datatype Targets = Targets(brk: nat, cont: nat, fall: nat)

  /** Which of them are allowed: what the innermost loop frame is, and whether a fallthrough has
      somewhere to go. A switch pushes a loop frame that takes breaks but no continues. */
  datatype Frame = NoFrame | LoopFrame | SwitchFrame

  datatype Context = Context(frame: Frame, fallOk: bool)

  function StmtLen(s: Stmt): nat
    decreases s, 1
  {
    match s
    case SimpleStmt(sm) => SimpleLen(sm)
    case Block(body) => StmtsLen(body)
    case If(init, c, body, els) =>
      InitLen(init) + ExprLen(c) + 3 + StmtsLen(body) + (if els.Some? then 3 + StmtLen(els.value) else 0)
    case For(init, c, post, body) => InitLen(init) + LoopLen(c, post, body)
    case Switch(init, tag, clauses) => InitLen(init) + CasesLen(clauses, tag) + DefaultLen(clauses)
    case Return(r) => OptLen(r) + 2
    case _ => 3
  }

  /** A loop without its init statement. */
  function LoopLen(c: Option<Expr>, post: Option<Simple>, body: Stmts): nat
    decreases body, 1
  {
    CondLen(c) + StmtsLen(body) + InitLen(post) + 3
  }

  function CondLen(c: Option<Expr>): nat { if c.Some? then ExprLen(c.value) + 3 else 0 }

  function StmtsLen(ss: Stmts): nat
    decreases ss, 0
  {
    match ss
    case Nil => 0
    case Cons(s, rest) => StmtLen(s) + StmtsLen(rest)
  }

  function CasesLen(cl: Clauses, tag: Option<Expr>): nat
    decreases cl, 0
  {
    match cl
    case NoMore => 0
    case Default(_, rest) => CasesLen(rest, tag)
    case Case(exprs, body, rest) => PreLen(tag, exprs) + StmtsLen(body) + 3 + CasesLen(rest, tag)
  }

  function DefaultLen(cl: Clauses): nat
    decreases cl, 0
  {
    match cl
    case NoMore => 0
    case Default(body, _) => StmtsLen(body)
    case Case(_, _, rest) => DefaultLen(rest)
  }

  function StmtConsts(s: Stmt): seq<Value>
    decreases s, 1
  {
    match s
    case SimpleStmt(sm) => SimpleConsts(sm)
    case Block(body) => StmtsConsts(body)
    case If(init, c, body, els) =>
      InitConsts(init) + ExprConsts(c) + StmtsConsts(body) + (if els.Some? then StmtConsts(els.value) else [])
    case For(init, c, post, body) => InitConsts(init) + OptConsts(c) + StmtsConsts(body) + InitConsts(post)
    case Switch(init, tag, clauses) => InitConsts(init) + CasesConsts(clauses, tag) + DefaultConsts(clauses)
    case Return(r) => OptConsts(r)
    case _ => []
  }

  function StmtsConsts(ss: Stmts): seq<Value>
    decreases ss, 0
  {
    match ss
    case Nil => []
    case Cons(s, rest) => StmtConsts(s) + StmtsConsts(rest)
  }

  function CasesConsts(cl: Clauses, tag: Option<Expr>): seq<Value>
    decreases cl, 0
  {
    match cl
    case NoMore => []
    case Default(_, rest) => CasesConsts(rest, tag)
    case Case(exprs, body, rest) => PreConsts(tag, exprs) + StmtsConsts(body) + CasesConsts(rest, tag)
  }

  function DefaultConsts(cl: Clauses): seq<Value>
    decreases cl, 0
  {
    match cl
    case NoMore => []
    case Default(body, _) => StmtsConsts(body)
    case Case(_, _, rest) => DefaultConsts(rest)
  }

  function StmtNeed(s: Stmt): nat
    decreases s, 1
  {
    match s
    case SimpleStmt(sm) => ExprNeed(Operand(sm))
    case Block(body) => StmtsNeed(body)
    case If(init, c, body, els) =>
      Max(Max(InitNeed(init), ExprNeed(c)), Max(StmtsNeed(body), if els.Some? then StmtNeed(els.value) else 0))
    case For(init, c, post, body) => Max(Max(InitNeed(init), OptNeed(c)), Max(StmtsNeed(body), InitNeed(post)))
    case Switch(init, tag, clauses) => Max(InitNeed(init), Max(CasesNeed(clauses, tag), DefaultNeed(clauses)))
    case Return(r) => OptNeed(r)
    case _ => 0
  }

  function StmtsNeed(ss: Stmts): nat
    decreases ss, 0
  {
    match ss
    case Nil => 0
    case Cons(s, rest) => Max(StmtNeed(s), StmtsNeed(rest))
  }

  function CasesNeed(cl: Clauses, tag: Option<Expr>): nat
    decreases cl, 0
  {
    match cl
    case NoMore => 0
    case Default(_, rest) => CasesNeed(rest, tag)
    case Case(exprs, body, rest) => Max(PreNeed(tag, exprs), Max(StmtsNeed(body), CasesNeed(rest, tag)))
  }

  function DefaultNeed(cl: Clauses): nat
    decreases cl, 0
  {
    match cl
    case NoMore => 0
    case Default(body, _) => StmtsNeed(body)
    case Case(_, _, rest) => DefaultNeed(rest)
  }

  /** The number of local slots in use at most, given n in use before (MaxSymbols). */
  function StmtLocals(s: Stmt, n: nat): (m: nat)
    ensures n <= m
    decreases s, 1
  {
    match s
    case SimpleStmt(sm) => LocalsAfter(sm, n)
    case Block(body) => StmtsLocals(body, n)
    case If(init, _, body, els) =>
      var i := InitLocals(init, n);
      Max(StmtsLocals(body, i), if els.Some? then StmtLocals(els.value, i) else i)
    case For(init, _, post, body) =>
      var i := InitLocals(init, n);
      Max(StmtsLocals(body, i), InitLocals(post, i))
    case Switch(init, _, clauses) =>
      var i := InitLocals(init, n);
      Max(CasesLocals(clauses, i), DefaultLocals(clauses, i))
    case _ => n
  }

  function LocalsIn(s: Stmt, n: nat): nat { if s.SimpleStmt? then LocalsAfter(s.sm, n) else n }

  function StmtsLocals(ss: Stmts, n: nat): (m: nat)
    ensures n <= m
    decreases ss, 0
  {
    match ss
    case Nil => n
    case Cons(s, rest) => Max(StmtLocals(s, n), StmtsLocals(rest, LocalsIn(s, n)))
  }

  function CasesLocals(cl: Clauses, n: nat): (m: nat)
    ensures n <= m
    decreases cl, 0
  {
    match cl
    case NoMore => n
    case Default(_, rest) => CasesLocals(rest, n)
    case Case(_, body, rest) => Max(StmtsLocals(body, n), CasesLocals(rest, n))
  }

  function DefaultLocals(cl: Clauses, n: nat): (m: nat)
    ensures n <= m
    decreases cl, 0
  {
    match cl
    case NoMore => n
    case Default(body, _) => StmtsLocals(body, n)
    case Case(_, _, rest) => DefaultLocals(rest, n)
  }

  predicate HasCase(cl: Clauses) {
    match cl
    case NoMore => false
    case Default(_, rest) => HasCase(rest)
    case Case(_, _, _) => true
  }

  predicate HasDefault(cl: Clauses) {
    match cl
    case NoMore => false
    case Default(_, _) => true
    case Case(_, _, rest) => HasDefault(rest)
  }

  function NamesIn(s: Stmt, names: seq<string>): seq<string> {
    if s.SimpleStmt? then NamesAfter(s.sm, names) else names
  }

  function StmtsNames(ss: Stmts, names: seq<string>): (r: seq<string>)
    ensures |names| <= |r| && r[..|names|] == names
  {
    match ss
    case Nil => names
    case Cons(s, rest) =>
      var r := StmtsNames(rest, NamesIn(s, names));
      assert r[..|names|] == r[..|NamesIn(s, names)|][..|names|];
      r
  }

  /** The compiler accepts the statement. start is where the current block's names begin. */
  predicate StmtOk(s: Stmt, names: seq<string>, start: nat, c: Context)
    requires start <= |names|
    decreases s, 1
  {
    match s
    case SimpleStmt(sm) => SimpleOk(sm, names, start)
    case Block(body) => StmtsOk(body, names, |names|, c)
    case If(init, cond, body, els) =>
      && InitOk(init, names, |names|)
      && var ns := InitNames(init, names);
      && ExprOk(cond, ns) && StmtsOk(body, ns, |ns|, c)
      && (els.Some? ==> (els.value.If? || els.value.Block?) && StmtOk(els.value, ns, |names|, c))
    case For(init, cond, post, body) =>
      && InitOk(init, names, |names|)
      && var ns := InitNames(init, names);
      && OptOk(cond, ns) && StmtsOk(body, ns, |ns|, Context(LoopFrame, c.fallOk))
      && InitOk(post, ns, |names|)
    case Switch(init, tag, clauses) =>
      && InitOk(init, names, |names|)
      && var ns := InitNames(init, names);
      && CasesOk(clauses, tag, ns, HasDefault(clauses)) && DefaultOk(clauses, ns)
    case Break => c.frame != NoFrame
    case Continue => c.frame == LoopFrame
    case Fallthrough => c.fallOk
    case Return(r) => OptOk(r, names)
  }

  predicate StmtsOk(ss: Stmts, names: seq<string>, start: nat, c: Context)
    requires start <= |names|
    decreases ss, 0
  {
    match ss
    case Nil => true
    case Cons(s, rest) => StmtOk(s, names, start, c) && StmtsOk(rest, NamesIn(s, names), start, c)
  }

  predicate CasesOk(cl: Clauses, tag: Option<Expr>, names: seq<string>, dflt: bool)
    decreases cl, 0
  {
    match cl
    case NoMore => true
    case Default(_, rest) => CasesOk(rest, tag, names, dflt)
    case Case(exprs, body, rest) =>
      && exprs != [] && PreOk(tag, exprs, names)
      && StmtsOk(body, names, |names|, Context(SwitchFrame, HasCase(rest) || dflt))
      && CasesOk(rest, tag, names, dflt)
  }

  predicate DefaultOk(cl: Clauses, names: seq<string>)
    decreases cl, 0
  {
    match cl
    case NoMore => true
    case Default(body, rest) =>
      !HasDefault(rest) && StmtsOk(body, names, |names|, Context(SwitchFrame, false))
    case Case(_, _, rest) => DefaultOk(rest, names)
  }

  /** Where a fallthrough at the end of the clauses before cl, placed up to p, goes: to the body of
      the next case, or else to the default body. */
  function FallTarget(cl: Clauses, tag: Option<Expr>, p: nat): nat {
    match cl
    case NoMore => p
    case Default(_, rest) => FallTarget(rest, tag, p)
    case Case(exprs, _, _) => p + PreLen(tag, exprs)
  }

  function StmtCode(s: Stmt, names: seq<string>, p: nat, k: nat, t: Targets): (code: seq<byte>)
    ensures |code| == StmtLen(s)
    decreases s, 1
  {
    match s
    case SimpleStmt(sm) => SimpleCode(sm, names, p, k)
    case Block(body) => StmtsCode(body, names, p, k, t)
    case If(_, _, _, _) => IfCode(s, names, p, k, t)
    case For(init, c, post, body) =>
      InitCode(init, names, p, k)
      + LoopCode(c, post, body, InitNames(init, names), p + InitLen(init), k + |InitConsts(init)|, t.fall)
    case Switch(_, _, _) => SwitchCode(s, names, p, k)
    case Break => Jump(OpJump, t.brk)
    case Continue => Jump(OpJump, t.cont)
    case Fallthrough => Jump(OpJump, t.fall)
    case Return(None) => Op1(OpReturn, 0)
    case Return(Some(e)) => ExprCode(e, names, p, k) + Op1(OpReturn, 1)
  }

  function IfCode(s: Stmt, names: seq<string>, p: nat, k: nat, t: Targets): (code: seq<byte>)
    requires s.If?
    ensures |code| == StmtLen(s)
    decreases s, 0
  {
    var If(init, c, body, els) := s;
    var ns := InitNames(init, names);
    var pc, kc := p + InitLen(init), k + |InitConsts(init)|;
    var pb, kb := pc + ExprLen(c) + 3, kc + |ExprConsts(c)|;
    var pe := pb + StmtsLen(body) + (if els.Some? then 3 else 0);
    InitCode(init, names, p, k) + ExprCode(c, ns, pc, kc) + Jump(OpJumpFalsy, pe)
    + StmtsCode(body, ns, pb, kb, t)
    + (if els.None? then []
       else Jump(OpJump, pe + StmtLen(els.value)) + StmtCode(els.value, ns, pe, kb + |StmtsConsts(body)|, t))
  }

  function SwitchCode(s: Stmt, names: seq<string>, p: nat, k: nat): (code: seq<byte>)
    requires s.Switch?
    ensures |code| == StmtLen(s)
    decreases s, 0
  {
    var Switch(init, tag, clauses) := s;
    var ns := InitNames(init, names);
    var pc, kc := p + InitLen(init), k + |InitConsts(init)|;
    var pd := pc + CasesLen(clauses, tag);
    var end := pd + DefaultLen(clauses);
    InitCode(init, names, p, k)
    + CasesCode(clauses, tag, ns, pc, kc, end)
    + DefaultCode(clauses, ns, pd, kc + |CasesConsts(clauses, tag)|, end)
  }

  function StmtsCode(ss: Stmts, names: seq<string>, p: nat, k: nat, t: Targets): (code: seq<byte>)
    ensures |code| == StmtsLen(ss)
    decreases ss, 0
  {
    match ss
    case Nil => []
    case Cons(s, rest) =>
      StmtCode(s, names, p, k, t)
      + StmtsCode(rest, NamesIn(s, names), p + StmtLen(s), k + |StmtConsts(s)|, t)
  }

  /** A loop without its init statement. Its body breaks to the end and continues at the post
      statement. */
  function LoopCode(c: Option<Expr>, post: Option<Simple>, body: Stmts, names: seq<string>, p: nat, k: nat,
                    fall: nat): (code: seq<byte>)
    ensures |code| == LoopLen(c, post, body)
    decreases body, 1
  {
    var pb := p + CondLen(c);
    var pp := pb + StmtsLen(body);
    var end := pp + InitLen(post) + 3;
    var kb := k + |OptConsts(c)|;
    CondCode(c, names, p, k, end)
    + StmtsCode(body, names, pb, kb, Targets(end, pp, fall))
    + InitCode(post, names, pp, kb + |StmtsConsts(body)|)
    + Jump(OpJump, p)
  }

  function CondCode(c: Option<Expr>, names: seq<string>, p: nat, k: nat, end: nat): (code: seq<byte>)
    ensures |code| == CondLen(c)
  {
    if c.Some? then ExprCode(c.value, names, p, k) + Jump(OpJumpFalsy, end) else []
  }

  /** The cases of a switch one after the other, defaults left out. Each case leaves for the end of
      the switch when its body is done. */
  function CasesCode(cl: Clauses, tag: Option<Expr>, names: seq<string>, p: nat, k: nat, end: nat): (code: seq<byte>)
    ensures |code| == CasesLen(cl, tag)
    decreases cl, 0
  {
    match cl
    case NoMore => []
    case Default(_, rest) => CasesCode(rest, tag, names, p, k, end)
    case Case(exprs, body, rest) =>
      var pb := p + PreLen(tag, exprs);
      var next := pb + StmtsLen(body) + 3;
      var kb := k + |PreConsts(tag, exprs)|;
      PreCode(tag, exprs, names, p, k, pb, next)
      + StmtsCode(body, names, pb, kb, Targets(end, 0, FallTarget(rest, tag, next)))
      + Jump(OpJump, end)
      + CasesCode(rest, tag, names, next, kb + |StmtsConsts(body)|, end)
  }

  function DefaultCode(cl: Clauses, names: seq<string>, p: nat, k: nat, end: nat): (code: seq<byte>)
    ensures |code| == DefaultLen(cl)
    decreases cl, 0
  {
    match cl
    case NoMore => []
    case Default(body, _) => StmtsCode(body, names, p, k, Targets(end, 0, 0))
    case Case(_, _, rest) => DefaultCode(rest, names, p, k, end)
  }

  // One level of a list of statements at a time.

  lemma ConsShape(ss: Stmts, names: seq<string>, start: nat, c: Context, p: nat, k: nat, t: Targets)
    requires ss.Cons? && start <= |names|
    ensures var ns := NamesIn(ss.hd, names);
            && StmtsCode(ss, names, p, k, t)
               == StmtCode(ss.hd, names, p, k, t) + StmtsCode(ss.tl, ns, p + StmtLen(ss.hd), k + |StmtConsts(ss.hd)|, t)
            && StmtsLen(ss) == StmtLen(ss.hd) + StmtsLen(ss.tl)
            && StmtsConsts(ss) == StmtConsts(ss.hd) + StmtsConsts(ss.tl)
            && StmtNeed(ss.hd) <= StmtsNeed(ss) && StmtsNeed(ss.tl) <= StmtsNeed(ss)
            && StmtLocals(ss.hd, |names|) <= StmtsLocals(ss, |names|)
              && StmtsLocals(ss.tl, |ns|) <= StmtsLocals(ss, |names|)
            && (StmtsOk(ss, names, start, c) <==> StmtOk(ss.hd, names, start, c) && StmtsOk(ss.tl, ns, start, c))
  {
    hide StmtOk, StmtCode, StmtConsts, StmtNeed, StmtLocals, StmtLen;
    assert LocalsIn(ss.hd, |names|) == |NamesIn(ss.hd, names)|;
  }

  // One level of an if or a switch at a time.

  lemma IfShape(s: Stmt, names: seq<string>, p: nat, k: nat, t: Targets)
    requires s.If?
    ensures var ns, pc, kc := InitNames(s.init, names), p + InitLen(s.init), k + |InitConsts(s.init)|;
            var pb, kb := pc + ExprLen(s.cond) + 3, kc + |ExprConsts(s.cond)|;
            var pe := pb + StmtsLen(s.body) + (if s.els.Some? then 3 else 0);
            StmtCode(s, names, p, k, t)
            == InitCode(s.init, names, p, k) + ExprCode(s.cond, ns, pc, kc) + Jump(OpJumpFalsy, pe)
               + StmtsCode(s.body, ns, pb, kb, t)
               + (if s.els.None? then []
                  else Jump(OpJump, pe + StmtLen(s.els.value))
                       + StmtCode(s.els.value, ns, pe, kb + |StmtsConsts(s.body)|, t))
  {
    hide InitCode, InitNames, InitLen, InitConsts, ExprCode, ExprLen, ExprConsts, StmtsLen, StmtsCode, StmtsConsts,
        StmtLen, Jump;
  }

  lemma IfSizes(s: Stmt, n: nat)
    requires s.If?
    ensures StmtConsts(s) == InitConsts(s.init) + ExprConsts(s.cond) + StmtsConsts(s.body)
                             + (if s.els.Some? then StmtConsts(s.els.value) else [])
    ensures StmtLen(s) == InitLen(s.init) + ExprLen(s.cond) + 3 + StmtsLen(s.body)
                          + (if s.els.Some? then 3 + StmtLen(s.els.value) else 0)
    ensures InitNeed(s.init) <= StmtNeed(s) && ExprNeed(s.cond) <= StmtNeed(s) && StmtsNeed(s.body) <= StmtNeed(s)
    ensures s.els.Some? ==> StmtNeed(s.els.value) <= StmtNeed(s)
    ensures StmtsLocals(s.body, InitLocals(s.init, n)) <= StmtLocals(s, n)
    ensures s.els.Some? ==> StmtLocals(s.els.value, InitLocals(s.init, n)) <= StmtLocals(s, n)
  {
    hide InitLen, InitConsts, InitNeed, InitLocals, ExprLen, ExprConsts, ExprNeed,
         StmtsLen, StmtsConsts, StmtsNeed, StmtsLocals;
  }

  lemma IfOk(s: Stmt, names: seq<string>, start: nat, c: Context)
    requires s.If? && start <= |names| && StmtOk(s, names, start, c)
    ensures var ns := InitNames(s.init, names);
            && InitOk(s.init, names, |names|) && ExprOk(s.cond, ns) && StmtsOk(s.body, ns, |ns|, c)
            && (s.els.Some? ==> (s.els.value.If? || s.els.value.Block?) && StmtOk(s.els.value, ns, |names|, c))
  {
    hide InitOk, ExprOk, StmtsOk;
  }

  lemma SwitchShape(s: Stmt, names: seq<string>, p: nat, k: nat, t: Targets)
    requires s.Switch?
    ensures var ns, pc, kc := InitNames(s.init, names), p + InitLen(s.init), k + |InitConsts(s.init)|;
            var pd := pc + CasesLen(s.clauses, s.tag);
            var end := pd + DefaultLen(s.clauses);
            StmtCode(s, names, p, k, t)
            == InitCode(s.init, names, p, k)
               + CasesCode(s.clauses, s.tag, ns, pc, kc, end)
               + DefaultCode(s.clauses, ns, pd, kc + |CasesConsts(s.clauses, s.tag)|, end)
  {
    hide InitCode, InitNames, InitLen, InitConsts, CasesCode, CasesLen, CasesConsts, DefaultCode, DefaultLen;
  }

  lemma SwitchSizes(s: Stmt, names: seq<string>, start: nat, c: Context)
    requires s.Switch? && start <= |names|
    ensures StmtLen(s) == InitLen(s.init) + CasesLen(s.clauses, s.tag) + DefaultLen(s.clauses)
    ensures StmtConsts(s) == InitConsts(s.init) + CasesConsts(s.clauses, s.tag) + DefaultConsts(s.clauses)
    ensures InitNeed(s.init) <= StmtNeed(s) && CasesNeed(s.clauses, s.tag) <= StmtNeed(s)
            && DefaultNeed(s.clauses) <= StmtNeed(s)
    ensures var n := InitLocals(s.init, |names|);
            n <= StmtLocals(s, |names|)
            && CasesLocals(s.clauses, n) <= StmtLocals(s, |names|)
              && DefaultLocals(s.clauses, n) <= StmtLocals(s, |names|)
    ensures StmtOk(s, names, start, c) ==>
              var ns := InitNames(s.init, names);
              && InitOk(s.init, names, |names|)
              && CasesOk(s.clauses, s.tag, ns, HasDefault(s.clauses)) && DefaultOk(s.clauses, ns)
  {
    hide InitLen, InitConsts, InitNeed, InitLocals, InitNames, InitOk, CasesLen, CasesConsts, CasesNeed, CasesLocals,
        CasesOk,
         DefaultLen, DefaultConsts, DefaultNeed, DefaultLocals, DefaultOk, HasDefault;
  }
}
