/** The statements and expressions of the compiled language that need no heap, no closures and no
    calls, and what they mean at source level (vm/parser/expr.go, vm/parser/stmt.go). */
module Language {
  import opened Wrappers
  import opened Instructions

  datatype Value = Undefined | Bool(b: bool) | Int(n: int) | Str(s: string)

  datatype Res = Ok(v: Value) | Fail(code: int)

  /** The object operations the instructions call. Everything below holds whatever they compute. */
  datatype Objects = Objects(
    binary: (byte, Value, Value) -> Res,
    equals: (Value, Value) -> bool,
    falsy: Value -> bool,
    minus: Value -> Res,
    complement: Value -> Res)

  // Tokens, numbered as in vm/token.
  const TokAdd: byte := 11
  const TokSub: byte := 12
  const TokMul: byte := 13
  const TokQuo: byte := 14
  const TokRem: byte := 15
  const TokAnd: byte := 16
  const TokOr: byte := 17
  const TokXor: byte := 18
  const TokShl: byte := 19
  const TokShr: byte := 20
  const TokAndNot: byte := 21
  const TokAddAssign: byte := 22
  const TokSubAssign: byte := 23
  const TokMulAssign: byte := 24
  const TokQuoAssign: byte := 25
  const TokRemAssign: byte := 26
  const TokAndAssign: byte := 27
  const TokOrAssign: byte := 28
  const TokXorAssign: byte := 29
  const TokShlAssign: byte := 30
  const TokShrAssign: byte := 31
  const TokAndNotAssign: byte := 32
  const TokEqual: byte := 37
  const TokLess: byte := 38
  const TokGreater: byte := 39
  const TokNot: byte := 41
  const TokNotEqual: byte := 42
  const TokLessEq: byte := 43
  const TokGreaterEq: byte := 44

  datatype Expr =
    | Const(v: Value)                              // int, float, string and char literals
    | BoolLit(b: bool)
    | UndefinedLit
    | Ident(x: string)
    | Unary(tok: byte, e: Expr)
    | Binary(tok: byte, l: Expr, r: Expr)
    | Logical(isAnd: bool, l: Expr, r: Expr)       // && and ||
    | Cond(c: Expr, t: Expr, f: Expr)              // c ? t : f

  /** What may stand as the init or post statement of another statement. */
  datatype Simple =
    | ExprStmt(e: Expr)
    | Define(x: string, e: Expr)                   // x := e
    | Assign(x: string, e: Expr)                   // x = e
    | AssignOp(tok: byte, x: string, e: Expr)      // x += e and the like
    | IncDec(inc: bool, x: string)                 // x++ and x--

  datatype Stmt =
    | SimpleStmt(sm: Simple)
    | Block(body: Stmts)
    | If(init: Option<Simple>, cond: Expr, body: Stmts, els: Option<Stmt>)
    | For(init: Option<Simple>, forCond: Option<Expr>, post: Option<Simple>, body: Stmts)
    | Switch(init: Option<Simple>, tag: Option<Expr>, clauses: Clauses)
    | Break
    | Continue
    | Fallthrough
    | Return(result: Option<Expr>)

  datatype Stmts = Nil | Cons(hd: Stmt, tl: Stmts)

  /** The clauses of a switch in the order they are written. */
  datatype Clauses =
    | NoMore
    | Case(exprs: seq<Expr>, body: Stmts, rest: Clauses)
    | Default(body: Stmts, rest: Clauses)

  predicate ArithToken(tok: byte) {
    TokAdd <= tok <= TokAndNot || tok in {TokLess, TokLessEq, TokGreater, TokGreaterEq}
  }

  predicate BinaryToken(tok: byte) { ArithToken(tok) || tok in {TokEqual, TokNotEqual} }

  predicate UnaryToken(tok: byte) { tok in {TokNot, TokSub, TokXor, TokAdd} }

  predicate AssignToken(tok: byte) { TokAddAssign <= tok <= TokAndNotAssign }

  /** The operator that an assignment operator applies: + for +=, and so on. */
  function Applied(tok: byte): byte {
    if tok == TokAddAssign then TokAdd
    else if tok == TokSubAssign then TokSub
    else if tok == TokMulAssign then TokMul
    else if tok == TokQuoAssign then TokQuo
    else if tok == TokRemAssign then TokRem
    else if tok == TokAndAssign then TokAnd
    else if tok == TokOrAssign then TokOr
    else if tok == TokXorAssign then TokXor
    else if tok == TokShlAssign then TokShl
    else if tok == TokShrAssign then TokShr
    else if tok == TokAndNotAssign then TokAndNot
    else tok
  }

  // ----- stores -----

  /** The live variables, oldest first; a block appends its own and drops them on exit. */
  datatype Binding = Binding(name: string, val: Value)

  type Store = seq<Binding>

  /** Where x is bound: its innermost, which is its last, occurrence. -1 when it is not. */
  function Index(names: seq<string>, x: string): (i: int)
    ensures -1 <= i < |names|
    ensures i >= 0 ==> names[i] == x
  {
    if names == [] then -1
    else if names[|names| - 1] == x then |names| - 1
    else Index(names[..|names| - 1], x)
  }

  function Find(store: Store, x: string): (i: int)
    ensures -1 <= i < |store|
    ensures i >= 0 ==> store[i].name == x
  {
    if store == [] then -1
    else if store[|store| - 1].name == x then |store| - 1
    else Find(store[..|store| - 1], x)
  }

  function Get(store: Store, x: string): Value {
    if Find(store, x) < 0 then Undefined else store[Find(store, x)].val
  }

  function Put(store: Store, x: string, v: Value): Store {
    if Find(store, x) < 0 then store else store[Find(store, x) := Binding(x, v)]
  }

  // ----- expressions -----

  function Eval(ops: Objects, e: Expr, store: Store): Res {
    match e
    case Const(v) => Ok(v)
    case BoolLit(b) => Ok(Bool(b))
    case UndefinedLit => Ok(Undefined)
    case Ident(x) => Ok(Get(store, x))
    case Unary(tok, a) =>
      var r := Eval(ops, a, store);
      if r.Fail? then r else UnaryResult(ops, tok, r.v)
    case Binary(tok, a, b) =>
      var l := Eval(ops, a, store);
      if l.Fail? then l else
      var r := Eval(ops, b, store);
      if r.Fail? then r else BinaryResult(ops, tok, l.v, r.v)
    case Logical(isAnd, a, b) =>
      var l := Eval(ops, a, store);
      if l.Fail? || ops.falsy(l.v) == isAnd then l else Eval(ops, b, store)
    case Cond(c, t, f) =>
      var r := Eval(ops, c, store);
      if r.Fail? then r else if ops.falsy(r.v) then Eval(ops, f, store) else Eval(ops, t, store)
  }

  function UnaryResult(ops: Objects, tok: byte, v: Value): Res {
    if tok == TokNot then Ok(Bool(ops.falsy(v)))
    else if tok == TokSub then ops.minus(v)
    else if tok == TokXor then ops.complement(v)
    else Ok(v)
  }

  function BinaryResult(ops: Objects, tok: byte, l: Value, r: Value): Res {
    if tok == TokEqual then Ok(Bool(ops.equals(l, r)))
    else if tok == TokNotEqual then Ok(Bool(!ops.equals(l, r)))
    else ops.binary(tok, l, r)
  }

  // ----- statements -----

  /** How a statement ends. Timeout is the end of the fuel, not of the program. */
  datatype Outcome =
    | Norm(store: Store) | Brk(store: Store) | Cont(store: Store) | Fall(store: Store)
    | Ret(v: Value) | Err(code: int) | Timeout

  function ExecSimple(ops: Objects, sm: Simple, store: Store): Outcome {
    match sm
    case ExprStmt(e) =>
      var r := Eval(ops, e, store);
      if r.Fail? then Err(r.code) else Norm(store)
    case Define(x, e) =>
      var r := Eval(ops, e, store);
      if r.Fail? then Err(r.code) else Norm(store + [Binding(x, r.v)])
    case Assign(x, e) =>
      var r := Eval(ops, e, store);
      if r.Fail? then Err(r.code) else Norm(Put(store, x, r.v))
    case AssignOp(tok, x, e) => ExecAssignOp(ops, tok, x, e, store)
    case IncDec(inc, x) =>
      var r := Eval(ops, Binary(if inc then TokAdd else TokSub, Ident(x), Const(Int(1))), store);
      if r.Fail? then Err(r.code) else Norm(Put(store, x, r.v))
  }

  function ExecAssignOp(ops: Objects, tok: byte, x: string, e: Expr, store: Store): Outcome {
    var r := Eval(ops, Binary(Applied(tok), Ident(x), e), store);
    if r.Fail? then Err(r.code) else Norm(Put(store, x, r.v))
  }

  function ExecInit(ops: Objects, init: Option<Simple>, store: Store): Outcome {
    if init.None? then Norm(store) else ExecSimple(ops, init.value, store)
  }

  /** The variables of a block go out of scope however it is left. */
  function Leave(o: Outcome, n: nat): Outcome {
    match o
    case Norm(store) => if n <= |store| then Norm(store[..n]) else o
    case Brk(store) => if n <= |store| then Brk(store[..n]) else o
    case Cont(store) => if n <= |store| then Cont(store[..n]) else o
    case Fall(store) => if n <= |store| then Fall(store[..n]) else o
    case _ => o
  }

  function Exec(ops: Objects, s: Stmt, store: Store, fuel: nat): Outcome
    decreases fuel, s, 1
  {
    match s
    case SimpleStmt(sm) => ExecSimple(ops, sm, store)
    case Block(body) => ExecBlock(ops, body, store, fuel)
    case If(init, c, body, els) =>
      var o := ExecInit(ops, init, store);
      if !o.Norm? then o else
      var r := Eval(ops, c, o.store);
      if r.Fail? then Err(r.code)
      else if !ops.falsy(r.v) then Leave(ExecBlock(ops, body, o.store, fuel), |store|)
      else if els.Some? then Leave(Exec(ops, els.value, o.store, fuel), |store|)
      else Leave(o, |store|)
    case For(init, c, post, body) =>
      var o := ExecInit(ops, init, store);
      if !o.Norm? then o else Leave(ExecLoop(ops, c, post, body, o.store, fuel), |store|)
    case Switch(init, tag, clauses) =>
      var o := ExecInit(ops, init, store);
      if !o.Norm? then o else Leave(ExecSwitch(ops, tag, clauses, o.store, fuel), |store|)
    case Break => Brk(store)
    case Continue => Cont(store)
    case Fallthrough => Fall(store)
    case Return(None) => Ret(Undefined)
    case Return(Some(e)) =>
      var r := Eval(ops, e, store);
      if r.Fail? then Err(r.code) else Ret(r.v)
  }

  function ExecList(ops: Objects, ss: Stmts, store: Store, fuel: nat): Outcome
    decreases fuel, ss, 0
  {
    match ss
    case Nil => Norm(store)
    case Cons(s, rest) =>
      var o := Exec(ops, s, store, fuel);
      if o.Norm? then ExecList(ops, rest, o.store, fuel) else o
  }

  function ExecBlock(ops: Objects, ss: Stmts, store: Store, fuel: nat): Outcome
    decreases fuel, ss, 1
  {
    Leave(ExecList(ops, ss, store, fuel), |store|)
  }

  /** One round of a loop costs one unit of fuel. What a post statement declares is visible to
      nothing that is compiled before it, so that it is dropped at once. */
  function ExecLoop(ops: Objects, c: Option<Expr>, post: Option<Simple>, body: Stmts, store: Store, fuel: nat): Outcome
    decreases fuel, body, 2
  {
    var r := if c.Some? then Eval(ops, c.value, store) else Ok(Bool(true));
    if r.Fail? then Err(r.code)
    else if c.Some? && ops.falsy(r.v) then Norm(store)
    else
      var o := ExecBlock(ops, body, store, fuel);
      match o
      case Brk(st) => Norm(st)
      case Norm(_) => ExecPost(ops, c, post, body, o.store, fuel)
      case Cont(_) => ExecPost(ops, c, post, body, o.store, fuel)
      case _ => o
  }

  function ExecPost(ops: Objects, c: Option<Expr>, post: Option<Simple>, body: Stmts, store: Store, fuel: nat): Outcome
    decreases fuel, body, 0
  {
    var o := Leave(ExecInit(ops, post, store), |store|);
    if !o.Norm? then o else if fuel == 0 then Timeout else ExecLoop(ops, c, post, body, o.store, fuel - 1)
  }

  // ----- switch -----

  datatype Hit = Miss | Hit(n: nat) | Error(code: int)

  /** The outcome of comparing the expressions of one case, the tag evaluated anew each time. */
  function MatchExprs(ops: Objects, tag: Option<Expr>, exprs: seq<Expr>, store: Store): Hit {
    if exprs == [] then Miss
    else
      var r := MatchOne(ops, tag, exprs[0], store);
      if r.Fail? then Error(r.code)
      else if !ops.falsy(r.v) then Hit(0)
      else MatchExprs(ops, tag, exprs[1..], store)
  }

  function MatchOne(ops: Objects, tag: Option<Expr>, e: Expr, store: Store): Res {
    if tag.Some? then Eval(ops, Binary(TokEqual, tag.value, e), store) else Eval(ops, e, store)
  }

  /** Which of the cases, defaults not counted, matches first. */
  function FindCase(ops: Objects, tag: Option<Expr>, clauses: Clauses, store: Store): Hit {
    match clauses
    case NoMore => Miss
    case Default(_, rest) => FindCase(ops, tag, rest, store)
    case Case(exprs, _, rest) =>
      var h := MatchExprs(ops, tag, exprs, store);
      if h != Miss then h else
      var h' := FindCase(ops, tag, rest, store);
      if h'.Hit? then Hit(h'.n + 1) else h'
  }

  /** From the body of case k on; a fallthrough leads to the next case, the default not being
      one, and falls out behind the last. */
  function ExecCases(ops: Objects, clauses: Clauses, k: nat, store: Store, fuel: nat): Outcome
    decreases fuel, clauses, 0
  {
    match clauses
    case NoMore => Fall(store)
    case Default(_, rest) => ExecCases(ops, rest, k, store, fuel)
    case Case(_, body, rest) =>
      if k > 0 then ExecCases(ops, rest, k - 1, store, fuel)
      else
        var o := ExecBlock(ops, body, store, fuel);
        if o.Fall? then ExecCases(ops, rest, 0, o.store, fuel) else o
  }

  /** The default clause, wherever it is written, comes after all cases. */
  function ExecDefault(ops: Objects, clauses: Clauses, store: Store, fuel: nat): Outcome
    decreases fuel, clauses, 0
  {
    match clauses
    case NoMore => Norm(store)
    case Default(body, _) => ExecBlock(ops, body, store, fuel)
    case Case(_, _, rest) => ExecDefault(ops, rest, store, fuel)
  }

  function ExecSwitch(ops: Objects, tag: Option<Expr>, clauses: Clauses, store: Store, fuel: nat): Outcome
    decreases fuel, clauses, 1
  {
    var h := FindCase(ops, tag, clauses, store);
    if h.Error? then Err(h.code)
    else
      var o := if h.Hit? then ExecCases(ops, clauses, h.n, store, fuel) else Fall(store);
      var o' := if o.Fall? then ExecDefault(ops, clauses, o.store, fuel) else o;
      if o'.Brk? then Norm(o'.store) else o'
  }

  /** A function body: its parameters are its first variables. */
  datatype Result = Returned(v: Value) | Failed(e: Fault)

  datatype Fault = OpError(code: int) | StackOverflow | Truncated | Crash

  function Call(ops: Objects, params: seq<string>, body: Stmts, args: seq<Value>, fuel: nat): Option<Result>
    requires |args| == |params|
  {
    match ExecBlock(ops, body, seq(|params|, i requires 0 <= i < |params| => Binding(params[i], args[i])), fuel)
    case Ret(v) => Some(Returned(v))
    case Err(c) => Some(Failed(OpError(c)))
    case Timeout => None
    case _ => Some(Returned(Undefined))
  }
}
