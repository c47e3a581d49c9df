/** A run that reuses frames ends as a run that calls and returns (vm/vm.go:907-930): if locals are
    written before they are read, and the result of a self call in tail position is what the caller
    returns. */
module TailCallProof {
  import opened Wrappers
  import opened Instructions
  import opened TailCalls

  // ----- the conditions, on the run without reuse -----

  /** What a frame that has called itself at a tail position returns when the call has given v. */
  function Passed(code: seq<byte>, next: nat, rest: seq<Val>, v: Val): Val {
    if next + 1 < |code| && code[next] == OpReturn then if code[next + 1] == 1 then v else Undefined
    else if next + 2 < |code| && code[next + 2] == 1 && rest != [] then Top(rest)
    else Undefined
  }

  /** Behind the call there is a whole return, and it returns v if the call has given v. */
  predicate GivesBack(code: seq<byte>, next: nat, rest: seq<Val>, v: Val)
    requires TailPosition(code, next)
  {
    && Passed(code, next, rest, v) == v
    && if code[next] == OpReturn then next + 1 < |code|
       else next + 2 < |code| && (code[next + 2] == 1 ==> rest != [])
  }

  /** There is a return of the result of the call before it. */
  predicate ReturnsResult(code: seq<byte>, q: nat) {
    Whole(code, q) && InstrAt(code, q) == [OpReturn, 1]
  }

  /** It waits for a call for which its frame can be used again. */
  predicate Spared(p: Prog, t: Act) {
    t.leaving.None? && t.operands != [] && Reuses(p, t, Top(t.operands), t.ip)
  }

  predicate ReturnsTo(p: Prog, below: seq<Act>, v: Val) {
    below != [] && Spared(p, below[|below| - 1]) ==>
      var t := below[|below| - 1]; GivesBack(Code(p, t), t.ip, Pop(t.operands), v)
  }

  /** The current activation is at a return, or making its deferred calls. */
  predicate Leaving(p: Prog, a: Act) {
    a.leaving.Some? || (Whole(Code(p, a), a.ip) && Code(p, a)[a.ip] == OpReturn)
  }

  function Result(p: Prog, a: Act): Val
    requires Leaving(p, a)
  {
    if a.leaving.Some? then a.leaving.value
    else if Code(p, a)[a.ip + 1] != 1 || a.operands == [] then Undefined
    else Top(a.operands)
  }

  predicate ResultOk(p: Prog, s: State) {
    s.Going? && s.acts != [] ==>
      var below, a := s.acts[..|s.acts| - 1], s.acts[|s.acts| - 1];
      Leaving(p, a) && a.defers == [] ==> ReturnsTo(p, below, Result(p, a))
  }

  /** Whenever a self call in tail position that has been made with no deferred calls pending comes back
      with a result, the caller returns this result. */
  ghost predicate Agrees(p: Prog, s: State) { forall n: nat :: ResultOk(p, Turns(p, false, s, n)) }

  /** The run never reads a slot it has not written nor an operand it has not pushed. */
  ghost predicate Proper(p: Prog, s: State) { forall n: nat :: Turns(p, false, s, n) != Stuck }

  ghost predicate Good(p: Prog, s: State) { Proper(p, s) && Agrees(p, s) }

  lemma GoodLater(p: Prog, s: State, n: nat)
    requires Good(p, s)
    ensures Good(p, Turns(p, false, s, n))
  {
    hide Turn, Turns, ResultOk;
    forall k: nat
      ensures Turns(p, false, Turns(p, false, s, n), k) != Stuck
              && ResultOk(p, Turns(p, false, Turns(p, false, s, n), k))
    {
      TurnsBoth(p, false, s, n, k);
    }
  }

  lemma GoodNow(p: Prog, s: State)
    requires Good(p, s)
    ensures s != Stuck && ResultOk(p, s)
    ensures Turn(p, false, s) != Stuck
  {
    hide Turn, ResultOk;
    assert Turns(p, false, s, 0) == s;
    OneTurn(p, false, s);
    assert Turns(p, false, s, 1) != Stuck;
  }

  // ----- how the two runs are related -----

  /** s knows at least what t knows. */
  predicate Covers(s: seq<Slot>, t: seq<Slot>) {
    |s| == |t| && forall i :: 0 <= i < |t| ==> t[i].Unset? || s[i] == t[i]
  }

  /** Operands that a tail call found below its own may be left over in a frame used again. */
  predicate Suffix(s: seq<Val>, t: seq<Val>) { |t| <= |s| && s[|s| - |t|..] == t }

  predicate Like(p: Prog, s: Act, t: Act) {
    && s.fn == t.fn && s.ip == t.ip && s.defers == t.defers && s.leaving == t.leaving
    && |t.locals| == ProtoOf(p, t.fn).numLocals && Covers(s.locals, t.locals) && Suffix(s.operands, t.operands)
  }

  /** The waiting activations of a run without reuse are those of the run with reuse and, in between,
      ones that only pass a result on. */
  predicate Waiting(p: Prog, ss: seq<Act>, ts: seq<Act>)
    decreases |ts|
  {
    if ts == [] then ss == []
    else
      var t, below := ts[|ts| - 1], ts[..|ts| - 1];
      || (Spared(p, t) && Waiting(p, ss, below))
      || (ss != [] && Like(p, ss[|ss| - 1], t) && Waiting(p, ss[..|ss| - 1], below))
  }

  predicate Related(p: Prog, s: State, t: State) {
    match t
    case Going(ts, mem) =>
      && s.Going? && s.mem == mem && s.acts != [] && ts != []
      && Like(p, s.acts[|s.acts| - 1], ts[|ts| - 1]) && Waiting(p, s.acts[..|s.acts| - 1], ts[..|ts| - 1])
    case _ => s == t
  }

  lemma RelatedActs(p: Prog, ss: seq<Act>, s: Act, ts: seq<Act>, t: Act, mem: Memory)
    requires Like(p, s, t) && Waiting(p, ss, ts)
    ensures Related(p, Going(ss + [s], mem), Going(ts + [t], mem))
  {
    hide Like, Waiting;
    assert (ss + [s])[..|ss|] == ss && (ts + [t])[..|ts|] == ts;
  }

  lemma RelatedParts(p: Prog, s: State, t: State)
    requires Related(p, s, t) && t.Going?
    ensures s.Going? && s.mem == t.mem && s.acts != [] && t.acts != []
    ensures var ss, a := s.acts[..|s.acts| - 1], s.acts[|s.acts| - 1];
            var ts, b := t.acts[..|t.acts| - 1], t.acts[|t.acts| - 1];
            s == Going(ss + [a], t.mem) && t == Going(ts + [b], t.mem) && Like(p, a, b) && Waiting(p, ss, ts)
  {
    hide Waiting, Like;
  }

  lemma SameEnd(p: Prog, s: State)
    requires !s.Going?
    ensures Related(p, s, s)
  {
  }

  lemma SparedWaits(p: Prog, ss: seq<Act>, ts: seq<Act>, t: Act)
    requires Waiting(p, ss, ts) && Spared(p, t)
    ensures Waiting(p, ss, ts + [t])
  {
    hide Spared, Like;
    assert (ts + [t])[..|ts|] == ts;
  }

  lemma LikeWaits(p: Prog, ss: seq<Act>, s: Act, ts: seq<Act>, t: Act)
    requires Waiting(p, ss, ts) && Like(p, s, t)
    ensures Waiting(p, ss + [s], ts + [t])
  {
    hide Spared, Like;
    assert (ts + [t])[..|ts|] == ts && (ss + [s])[..|ss|] == ss;
  }

  // ----- operands -----

  lemma SuffixPush(s: seq<Val>, t: seq<Val>, v: Val)
    requires Suffix(s, t)
    ensures Suffix(s + [v], t + [v])
  {
    assert (s + [v])[|s| - |t|..] == s[|s| - |t|..] + [v];
  }

  lemma SuffixTake(s: seq<Val>, t: seq<Val>, n: nat)
    requires Suffix(s, t) && n <= |t|
    ensures |t| <= |s| && Last(s, n) == Last(t, n) && Suffix(Below(s, n), Below(t, n))
  {
    var w := s[|s| - |t|..];
    assert w[|t| - n..] == s[|s| - n..];
    assert s[..|s| - n][|s| - |t|..] == w[..|t| - n];
  }

  lemma SuffixPop(s: seq<Val>, t: seq<Val>)
    requires Suffix(s, t) && t != []
    ensures s != [] && Top(s) == Top(t) && Suffix(Pop(s), Pop(t))
  {
    SuffixTake(s, t, 1);
    assert Last(s, 1)[0] == Top(s) && Last(t, 1)[0] == Top(t);
  }

  lemma SuffixOf(s: seq<Val>)
    ensures Suffix(s, []) && Suffix(s, s)
  {
    assert s[|s|..] == [];
  }

  // ----- instructions that stay in the activation -----

  /** The same outcome, with at least as much known and perhaps operands left over. */
  predicate Alike(x: Outcome, y: Outcome) {
    match y
    case To(locals, o, mem) =>
      x.To? && x.mem == mem && Covers(x.locals, locals) && Suffix(x.operands, o)
    case Fails => x == Fails
    case Missing => true
  }

  lemma LoadAlike(p: Prog, fn: Fn, i: seq<byte>, s: seq<Slot>, t: seq<Slot>, so: seq<Val>, to: seq<Val>, mem: Memory)
    requires i != [] && |i| == InstrLen(i[0]) && Loads(i[0]) && Covers(s, t) && Suffix(so, to)
    ensures Alike(Push(Load(p, fn, i, s, mem), s, so, mem), Push(Load(p, fn, i, t, mem), t, to, mem))
  {
    hide InstrLen, Suffix;
    var l := Load(p, fn, i, t, mem);
    if l.Got? { SuffixPush(so, to, l.v); }
  }

  lemma StoreAlike(fn: Fn, i: seq<byte>, s: seq<Slot>, t: seq<Slot>, so: seq<Val>, to: seq<Val>, mem: Memory)
    requires i != [] && |i| == InstrLen(i[0]) && Stores(i[0]) && Covers(s, t) && Suffix(so, to) && to != []
    ensures so != [] && Alike(Store(fn, i, s, so, mem), Store(fn, i, t, to, mem))
  {
    hide InstrLen, Suffix, Put;
    SuffixPop(so, to);
  }

  lemma OperateAlike(p: Prog, i: seq<byte>, s: seq<Slot>, t: seq<Slot>, so: seq<Val>, to: seq<Val>, mem: Memory)
    requires i != [] && |i| == InstrLen(i[0]) && Operates(i[0]) && Covers(s, t) && Suffix(so, to)
    ensures Alike(Operate(p, i, s, so, mem), Operate(p, i, t, to, mem))
  {
    hide InstrLen, Suffix, Covers, Operands;
    var n := Operands(i);
    if n <= |to| {
      SuffixTake(so, to, n);
      var r := p.operate(i, Last(to, n), mem);
      if r.Some? { SuffixPush(Below(so, n), Below(to, n), r.value.0); }
    }
  }

  lemma SelectAlike(p: Prog, fn: Fn, i: seq<byte>, s: seq<Slot>, t: seq<Slot>, so: seq<Val>, to: seq<Val>, mem: Memory)
    requires i != [] && |i| == InstrLen(i[0]) && Selects(i[0]) && Covers(s, t) && Suffix(so, to)
    ensures Alike(Assign(p, fn, i, s, so, mem), Assign(p, fn, i, t, to, mem))
  {
    hide InstrLen, Suffix, Selectors;
    var n := Selectors(i) + 1;
    if n <= |to| { SuffixTake(so, to, n); }
  }

  lemma CaptureAlike(i: seq<byte>, s: seq<Slot>, t: seq<Slot>, so: seq<Val>, to: seq<Val>, mem: Memory)
    requires i != [] && |i| == InstrLen(i[0]) && i[0] == OpGetLocalPtr && Covers(s, t) && Suffix(so, to)
    ensures Alike(Capture(i, s, so, mem), Capture(i, t, to, mem))
  {
    hide InstrLen, Suffix;
    if i[1] < |t| && !t[i[1]].Unset? {
      SuffixPush(so, to, Pointer(if t[i[1]].Shared? then t[i[1]].cell else |mem.cells|));
    }
  }

  lemma SliceAlike(p: Prog, s: seq<Slot>, t: seq<Slot>, so: seq<Val>, to: seq<Val>, mem: Memory)
    requires Covers(s, t) && Suffix(so, to)
    ensures Alike(TakeSlice(p, s, so, mem), TakeSlice(p, t, to, mem))
  {
    hide Suffix, Covers;
    if 3 <= |to| {
      SuffixTake(so, to, 3);
      var l := Last(to, 3);
      var r := p.slice(l[0], l[1], l[2], mem);
      if r.Slice? { SuffixPush(Below(so, 3), Below(to, 3), r.v); }
    }
  }

  lemma CloseAlike(p: Prog, i: seq<byte>, s: seq<Slot>, t: seq<Slot>, so: seq<Val>, to: seq<Val>, mem: Memory)
    requires i != [] && |i| == InstrLen(i[0]) && i[0] == OpClosure && Covers(s, t) && Suffix(so, to)
    ensures Alike(Close(p, i, s, so, mem), Close(p, i, t, to, mem))
  {
    hide InstrLen, Suffix, Covers, Pointers;
    if Word(i, 1) < |p.consts| && p.consts[Word(i, 1)].Function? && i[3] <= |to| {
      SuffixTake(so, to, i[3]);
      var o := Last(to, i[3]);
      if Pointers(o) {
        SuffixPush(Below(so, i[3]), Below(to, i[3]), Function(Fn(mem.made, p.consts[Word(i, 1)].fn.proto, Cells(o))));
      }
    }
  }

  lemma DropAlike(s: seq<Slot>, t: seq<Slot>, so: seq<Val>, to: seq<Val>, mem: Memory)
    requires Covers(s, t) && Suffix(so, to)
    ensures Alike(Drop(s, so, mem), Drop(t, to, mem))
  {
    hide Suffix, Covers;
    if to != [] { SuffixPop(so, to); }
  }

  /** What an instruction does does not depend on slots that were not written nor on operands left over. */
  lemma PlainAlike(p: Prog, fn: Fn, i: seq<byte>, s: seq<Slot>, t: seq<Slot>, so: seq<Val>, to: seq<Val>, mem: Memory)
    requires i != [] && |i| == InstrLen(i[0]) && Covers(s, t) && Suffix(so, to)
    ensures Alike(Plain(p, fn, i, s, so, mem), Plain(p, fn, i, t, to, mem))
  {
    hide InstrLen, Suffix, Covers, Alike, Load, Push, Store, Operate, Assign, Drop, Capture, TakeSlice, Close;
    AlikeItself();
    if Loads(i[0]) { LoadAlike(p, fn, i, s, t, so, to, mem); }
    else if Stores(i[0]) {
      if to != [] { StoreAlike(fn, i, s, t, so, to, mem); }
    }
    else if Operates(i[0]) { OperateAlike(p, i, s, t, so, to, mem); }
    else if Selects(i[0]) { SelectAlike(p, fn, i, s, t, so, to, mem); }
    else if i[0] == OpPop { DropAlike(s, t, so, to, mem); }
    else if i[0] == OpGetLocalPtr { CaptureAlike(i, s, t, so, to, mem); }
    else if i[0] == OpSliceIndex { SliceAlike(p, s, t, so, to, mem); }
    else if i[0] == OpClosure { CloseAlike(p, i, s, t, so, to, mem); }
  }

  lemma AlikeItself()
    ensures Alike(Fails, Fails) && forall x :: Alike(x, Missing)
  {
  }

  lemma PlainSize(p: Prog, fn: Fn, i: seq<byte>, locals: seq<Slot>, o: seq<Val>, mem: Memory)
    requires i != [] && |i| == InstrLen(i[0])
    ensures var e := Plain(p, fn, i, locals, o, mem); e.To? ==> |e.locals| == |locals|
  {
    hide InstrLen, Put, Load, Pointers, Cells, Destination, Operands, Selectors;
  }

  lemma GoAlike(p: Prog, ss: seq<Act>, s: Act, ts: seq<Act>, t: Act, next: nat, x: Outcome, y: Outcome)
    requires Like(p, s, t) && Waiting(p, ss, ts) && Alike(x, y) && !y.Missing?
    requires y.To? ==> |y.locals| == |t.locals|
    ensures Related(p, Go(p, ss, s, next, x), Go(p, ts, t, next, y))
  {
    hide Waiting, Suffix, Related;
    if y.To? {
      RelatedActs(p, ss, s.(ip := next, locals := x.locals, operands := x.operands),
                  ts, t.(ip := next, locals := y.locals, operands := y.operands), y.mem);
    } else {
      SameEnd(p, Failed);
    }
  }

  // ----- calls -----

  lemma LikeAt(p: Prog, s: Act, t: Act, next: nat, so: seq<Val>, to: seq<Val>)
    requires Like(p, s, t) && Suffix(so, to)
    ensures Like(p, s.(ip := next, operands := so), t.(ip := next, operands := to))
  {
    hide Suffix, Covers;
  }

  lemma LikePushed(p: Prog, s: Act, t: Act, next: nat, so: seq<Val>, to: seq<Val>, v: Val)
    requires Like(p, s, t) && Suffix(so, to)
    ensures Like(p, s.(ip := next, operands := so + [v]), t.(ip := next, operands := to + [v]))
  {
    hide Suffix, Covers;
    SuffixPush(so, to, v);
    LikeAt(p, s, t, next, so + [v], to + [v]);
  }

  lemma LikeItself(p: Prog, fn: Fn, args: seq<Val>)
    ensures Like(p, Enter(p, fn, args), Enter(p, fn, args))
  {
    SuffixOf([]);
  }

  lemma AskAlike(p: Prog, so: seq<Val>, to: seq<Val>, n: nat, spread: bool, mem: Memory)
    requires Suffix(so, to) && !Ask(p, to, n, spread, mem).TooFew?
    ensures var x, y := Ask(p, so, n, spread, mem), Ask(p, to, n, spread, mem);
            && (y.NotArray? ==> x == y)
            && (y.Asked? ==> x.Asked? && x.callee == y.callee && x.args == y.args && Suffix(x.rest, y.rest))
  {
    hide Suffix;
    SuffixTake(so, to, n + 1);
    SuffixTake(so, to, n);
  }

  /** The frame is used again, or one that only passes on is left waiting. */
  lemma ReuseAlike(p: Prog, ss: seq<Act>, s: Act, ts: seq<Act>, t: Act, args: seq<Val>, srest: seq<Val>,
                   trest: seq<Val>,
                   next: nat, mem: Memory)
    requires Like(p, s, t) && Waiting(p, ss, ts) && t.leaving.None? && Reuses(p, t, Function(t.fn), next)
    ensures Related(p, Going(ss + [Reenter(s, args, srest)], mem),
                    Going(ts + [Waits(t, next, trest, Function(t.fn))] + [Enter(p, t.fn, args)], mem))
  {
    hide Suffix, Waiting, Related, TailPosition;
    var t1 := Waits(t, next, trest, Function(t.fn));
    assert Spared(p, t1);
    SparedWaits(p, ss, ts, t1);
    AgainCovers(p, t.fn, s.locals, args);
    SuffixOf(srest);
    RelatedActs(p, ss, Reenter(s, args, srest), ts + [t1], Enter(p, t.fn, args), mem);
  }

  lemma AgainCovers(p: Prog, fn: Fn, locals: seq<Slot>, args: seq<Val>)
    requires |locals| == ProtoOf(p, fn).numLocals
    ensures Covers(Again(locals, args), Fresh(ProtoOf(p, fn), args))
  {
    hide Put;
  }

  lemma EnterAlike(p: Prog, ss: seq<Act>, s: Act, ts: seq<Act>, t: Act, fn: Fn, args: seq<Val>, mem: Memory)
    requires Like(p, s, t) && Waiting(p, ss, ts)
    ensures Related(p, Going(ss + [s] + [Enter(p, fn, args)], mem), Going(ts + [t] + [Enter(p, fn, args)], mem))
  {
    hide Waiting, Related, Like, Enter;
    LikeWaits(p, ss, s, ts, t);
    LikeItself(p, fn, args);
    RelatedActs(p, ss + [s], Enter(p, fn, args), ts + [t], Enter(p, fn, args), mem);
  }

  /** Calls, with and without reuse. */
  lemma CallAlike(p: Prog, ss: seq<Act>, s: Act, ts: seq<Act>, t: Act, callee: Val, args: seq<Val>,
                  srest: seq<Val>, trest: seq<Val>, next: nat, mem: Memory)
    requires Like(p, s, t) && t.leaving.None? && Waiting(p, ss, ts) && Suffix(srest, trest)
    ensures Related(p, Call(p, true, ss, s, callee, args, srest, next, mem),
                    Call(p, false, ts, t, callee, args, trest, next, mem))
  {
    hide Waiting, TailPosition, Related, Suffix, Covers, Enter, Reenter, Arguments;
    SameEnd(p, Failed);
    if Callable(p, callee) {
      if Compiled(p, callee) {
        var r := Arguments(p, ProtoOf(p, callee.fn), args, mem);
        if r.Some? {
          if Reuses(p, t, callee, next) {
            ReuseAlike(p, ss, s, ts, t, r.value.0, srest, trest, next, r.value.1);
          } else {
            LikePushed(p, s, t, next, srest, trest, callee);
            EnterAlike(p, ss, Waits(s, next, srest, callee), ts, Waits(t, next, trest, callee), callee.fn, r.value.0,
                       r.value.1);
          }
        }
      } else {
        var r := p.native(callee, args, mem);
        if r.Some? {
          LikePushed(p, s, t, next, srest, trest, r.value.0);
          RelatedActs(p, ss, s.(ip := next, operands := srest + [r.value.0]),
                      ts, t.(ip := next, operands := trest + [r.value.0]), r.value.1);
        }
      }
    }
  }

  lemma RegisterAlike(p: Prog, ss: seq<Act>, s: Act, ts: seq<Act>, t: Act, callee: Val, args: seq<Val>,
                      srest: seq<Val>, trest: seq<Val>, next: nat, mem: Memory)
    requires Like(p, s, t) && Waiting(p, ss, ts) && Suffix(srest, trest)
    ensures Related(p, Register(p, ss, s, callee, args, srest, next, mem),
                    Register(p, ts, t, callee, args, trest, next, mem))
  {
    hide Waiting, Related, Suffix, Covers;
    SameEnd(p, Failed);
    var ds := t.defers + [Deferred(callee, args)];
    RelatedActs(p, ss, s.(ip := next, operands := srest, defers := ds), ts,
                t.(ip := next, operands := trest, defers := ds), mem);
  }

  lemma StartAlike(p: Prog, ss: seq<Act>, s: Act, ts: seq<Act>, t: Act, callee: Val, args: seq<Val>,
                   srest: seq<Val>, trest: seq<Val>, next: nat, mem: Memory)
    requires Like(p, s, t) && Waiting(p, ss, ts) && Suffix(srest, trest)
    ensures Related(p, Start(p, ss, s, callee, args, srest, next, mem), Start(p, ts, t, callee, args, trest, next, mem))
  {
    hide Waiting, Related, Suffix, Covers;
    SameEnd(p, Failed);
    var r := p.routine(callee, args, mem);
    if r.Some? {
      LikePushed(p, s, t, next, srest, trest, r.value.0);
      RelatedActs(p, ss, s.(ip := next, operands := srest + [r.value.0]),
                  ts, t.(ip := next, operands := trest + [r.value.0]), r.value.1);
    }
  }

  lemma InvokeAlike(p: Prog, ss: seq<Act>, s: Act, ts: seq<Act>, t: Act, i: seq<byte>, next: nat, mem: Memory)
    requires |i| == 3 && Like(p, s, t) && t.leaving.None? && Waiting(p, ss, ts)
    requires Invoke(p, false, ts, t, i, next, mem) != Stuck
    ensures Related(p, Invoke(p, true, ss, s, i, next, mem), Invoke(p, false, ts, t, i, next, mem))
  {
    hide Waiting, Related, Suffix, Covers, Call, Register, Start, Ask, Reuses;
    SameEnd(p, Failed);
    AskAlike(p, s.operands, t.operands, i[1], i[2] == 1, mem);
    var x, y := Ask(p, s.operands, i[1], i[2] == 1, mem), Ask(p, t.operands, i[1], i[2] == 1, mem);
    if y.Asked? {
      if i[0] == OpCall {
        CallAlike(p, ss, s, ts, t, y.callee, y.args, x.rest, y.rest, next, mem);
      } else if i[0] == OpDefer {
        RegisterAlike(p, ss, s, ts, t, y.callee, y.args, x.rest, y.rest, next, mem);
      } else {
        StartAlike(p, ss, s, ts, t, y.callee, y.args, x.rest, y.rest, next, mem);
      }
    }
  }

  lemma JumpAlike(p: Prog, ss: seq<Act>, s: Act, ts: seq<Act>, t: Act, mem: Memory)
    requires Like(p, s, t) && Waiting(p, ss, ts) && Whole(Code(p, t), t.ip) && IsJump(Code(p, t)[t.ip])
    requires Jump(p, ts, t, mem) != Stuck
    ensures Related(p, Jump(p, ss, s, mem), Jump(p, ts, t, mem))
  {
    hide Waiting, Suffix, Covers, Related, InstrLen;
    if t.operands != [] { SuffixPop(s.operands, t.operands); }
    var op, target, next := Code(p, t)[t.ip], Target(Code(p, t), t.ip), Next(Code(p, t), t.ip);
    if op == OpJump {
      RelatedActs(p, ss, s.(ip := target), ts, t.(ip := target), mem);
    } else {
      var jumps := p.falsy(Top(t.operands), mem) == (op != OpOrJump);
      var stays := op != OpJumpFalsy && jumps;
      var ip := if jumps then target else next;
      RelatedActs(p, ss, s.(ip := ip, operands := if stays then s.operands else Pop(s.operands)),
                  ts, t.(ip := ip, operands := if stays then t.operands else Pop(t.operands)), mem);
    }
  }

  // ----- returns -----

  /** A result is passed on through the activations that only exist without reuse. */
  lemma {:induction false} PassedOn(p: Prog, ss: seq<Act>, ts: seq<Act>, v: Val, mem: Memory) returns (k: nat)
    requires Waiting(p, ss, ts) && Good(p, Return(ts, v, mem)) && ReturnsTo(p, ts, v)
    ensures Related(p, Return(ss, v, mem), Turns(p, false, Return(ts, v, mem), k))
    decreases |ts|
  {
    hide Turn, Good, Like, Suffix, Spared, GivesBack;
    GoodNow(p, Return(ts, v, mem));
    k := 0;
    if ts != [] {
      var t, below := ts[|ts| - 1], ts[..|ts| - 1];
      if Spared(p, t) && Waiting(p, ss, below) {
        assert below + [t] == ts;
        var n := SparedTurns(p, below, t, v, mem);
        GoodLater(p, Return(ts, v, mem), n);
        k := PassedOn(p, ss, below, v, mem);
        TurnsBoth(p, false, Return(ts, v, mem), n, k);
        k := n + k;
      } else {
        ReturnAlike(p, ss, ss[|ss| - 1], ts, t, v, mem);
      }
    }
  }

  /** The call has come back with v: a pop perhaps, and a return of v. */
  lemma SparedTurns(p: Prog, below: seq<Act>, t: Act, v: Val, mem: Memory) returns (n: nat)
    requires Spared(p, t) && GivesBack(Code(p, t), t.ip, Pop(t.operands), v) && Good(p, Return(below + [t], v, mem))
    ensures Turns(p, false, Return(below + [t], v, mem), n) == Return(below, v, mem) && ReturnsTo(p, below, v)
  {
    hide Turn, Turns, Good, Return, ReturnsTo, Spared, GivesBack;
    SparedParts(p, t);
    var rest := Pop(t.operands);
    var b := t.(operands := rest + [v]);
    Replaced(below, t, v, mem);
    var s := Going(below + [b], mem);
    n := 1;
    OneTurn(p, false, s);
    if Code(p, t)[t.ip] == OpReturn {
      AtReturn(Code(p, t), t.ip, rest, v);
      Returned(p, below, b, v, mem);
    } else {
      var c := t.(ip := t.ip + 1, operands := rest);
      BehindPop(Code(p, t), t.ip, rest, v);
      PopTurn(p, false, below, b, rest, v, mem);
      GoodLater(p, s, 1);
      OneTurn(p, false, Going(below + [c], mem));
      Returned(p, below, c, v, mem);
      TurnsBoth(p, false, s, 1, 1);
      n := 2;
    }
  }

  lemma SparedParts(p: Prog, t: Act)
    requires Spared(p, t)
    ensures t.leaving.None? && t.operands != [] && t.defers == [] && TailPosition(Code(p, t), t.ip)
  {
  }

  lemma Replaced(below: seq<Act>, t: Act, v: Val, mem: Memory)
    requires t.leaving.None? && t.operands != []
    ensures Return(below + [t], v, mem) == Going(below + [t.(operands := Pop(t.operands) + [v])], mem)
  {
    assert (below + [t])[..|below|] == below;
  }

  lemma AtReturn(code: seq<byte>, q: nat, rest: seq<Val>, v: Val)
    requires TailPosition(code, q) && code[q] == OpReturn && GivesBack(code, q, rest, v)
    ensures Whole(code, q) && (code[q + 1] != 1 ==> v == Undefined)
  {
  }

  lemma BehindPop(code: seq<byte>, q: nat, rest: seq<Val>, v: Val)
    requires TailPosition(code, q) && code[q] != OpReturn && GivesBack(code, q, rest, v)
    ensures code[q] == OpPop && Whole(code, q + 1) && code[q + 1] == OpReturn
    ensures if code[q + 2] == 1 then rest != [] && Top(rest) == v else v == Undefined
  {
  }

  lemma PopTurn(p: Prog, reuse: bool, below: seq<Act>, a: Act, rest: seq<Val>, v: Val, mem: Memory)
    requires a.ip < |Code(p, a)| && Code(p, a)[a.ip] == OpPop && a.operands == rest + [v] && a.leaving.None?
    ensures Turn(p, reuse, Going(below + [a], mem)) == Going(below + [a.(ip := a.ip + 1, operands := rest)], mem)
  {
    hide Invoke, Jump, Turn;
    TurnOf(p, reuse, below, a, mem);
    assert InstrAt(Code(p, a), a.ip) == [OpPop] && Pop(a.operands) == rest;
  }

  /** A return of v with no deferred calls pending. */
  lemma Returned(p: Prog, below: seq<Act>, a: Act, v: Val, mem: Memory)
    requires Good(p, Going(below + [a], mem)) && a.leaving.None? && a.defers == []
    requires Leaving(p, a) && Result(p, a) == v && (Code(p, a)[a.ip + 1] == 1 ==> a.operands != [])
    ensures Turn(p, false, Going(below + [a], mem)) == Return(below, v, mem) && ReturnsTo(p, below, v)
  {
    hide Good, Invoke, Jump, Plain, Return, Turn, ReturnsTo;
    GoodNow(p, Going(below + [a], mem));
    TurnOf(p, false, below, a, mem);
    assert (below + [a])[..|below|] == below;
    assert InstrAt(Code(p, a), a.ip)[1] == Code(p, a)[a.ip + 1];
  }

  lemma ReturnAlike(p: Prog, ss: seq<Act>, s: Act, ts: seq<Act>, t: Act, v: Val, mem: Memory)
    requires ss != [] && ts != [] && s == ss[|ss| - 1] && t == ts[|ts| - 1]
    requires Like(p, s, t) && Waiting(p, ss[..|ss| - 1], ts[..|ts| - 1]) && Return(ts, v, mem) != Stuck
    ensures Related(p, Return(ss, v, mem), Return(ts, v, mem))
  {
    hide Suffix, Covers, Waiting;
    if t.leaving.None? {
      SuffixPop(s.operands, t.operands);
      LikePushed(p, s, t, t.ip, Pop(s.operands), Pop(t.operands), v);
      RelatedActs(p, ss[..|ss| - 1], s.(operands := Pop(s.operands) + [v]),
                  ts[..|ts| - 1], t.(operands := Pop(t.operands) + [v]), mem);
    }
  }

  /** A return, perhaps with deferred calls to make. */
  lemma LeaveAlike(p: Prog, ss: seq<Act>, s: Act, ts: seq<Act>, t: Act, v: Val, mem: Memory) returns (k: nat)
    requires Like(p, s, t) && Waiting(p, ss, ts) && Good(p, Leave(ts, t, v, mem))
             && (t.defers == [] ==> ReturnsTo(p, ts, v))
    ensures Related(p, Leave(ss, s, v, mem), Turns(p, false, Leave(ts, t, v, mem), k))
  {
    hide Waiting, Good, Covers, Return, Turn, ReturnsTo;
    if t.defers == [] {
      k := PassedOn(p, ss, ts, v, mem);
    } else {
      k := 0;
      SuffixOf([]);
      RelatedActs(p, ss, s.(operands := [], leaving := Some(v)), ts, t.(operands := [], leaving := Some(v)), mem);
    }
  }

  lemma NextDeferAlike(p: Prog, ss: seq<Act>, s: Act, ts: seq<Act>, t: Act, mem: Memory) returns (k: nat)
    requires Like(p, s, t) && Waiting(p, ss, ts) && t.leaving.Some? && Good(p, NextDefer(p, ts, t, mem))
    requires t.defers == [] ==> ReturnsTo(p, ts, t.leaving.value)
    ensures Related(p, NextDefer(p, ss, s, mem), Turns(p, false, NextDefer(p, ts, t, mem), k))
  {
    hide Waiting, Good, Covers, Suffix, Return, Turn, Enter, Arguments, Related, ReturnsTo;
    k := 0;
    if t.defers == [] {
      k := PassedOn(p, ss, ts, t.leaving.value, mem);
    } else {
      SameEnd(p, Broken(mem));
      var d, ds := t.defers[|t.defers| - 1], t.defers[..|t.defers| - 1];
      var s1, t1 := s.(defers := ds), t.(defers := ds);
      if Compiled(p, d.callee) {
        var r := Arguments(p, ProtoOf(p, d.callee.fn), d.args, mem);
        if r.Some? { EnterAlike(p, ss, s1, ts, t1, d.callee.fn, r.value.0, r.value.1); }
      } else {
        var r := p.native(d.callee, d.args, mem);
        if r.Some? { RelatedActs(p, ss, s1, ts, t1, r.value.1); }
      }
    }
  }

  // ----- one turn -----

  /** A turn that does not return is one turn on both sides. */
  lemma StaysAlike(p: Prog, ss: seq<Act>, s: Act, ts: seq<Act>, t: Act, mem: Memory)
    requires Like(p, s, t) && Waiting(p, ss, ts) && !Leaving(p, t)
    requires Move(p, false, ts, t, mem) != Stuck
    ensures Related(p, Move(p, true, ss, s, mem), Move(p, false, ts, t, mem))
  {
    hide Waiting, Suffix, Plain, Covers, Related, Invoke, Jump, Go, Ask, Reuses;
    SameEnd(p, Failed);
    SameEnd(p, Suspended(mem));
    if Whole(Code(p, t), t.ip) {
      var i, next := InstrAt(Code(p, t), t.ip), Next(Code(p, t), t.ip);
      if IsJump(i[0]) {
        JumpAlike(p, ss, s, ts, t, mem);
      } else if i[0] in {OpCall, OpDefer, OpRoutine} {
        Operand(Code(p, t), t.ip);
        InvokeAlike(p, ss, s, ts, t, i, next, mem);
      } else if i[0] != OpSuspend {
        PlainAlike(p, t.fn, i, s.locals, t.locals, s.operands, t.operands, mem);
        PlainSize(p, t.fn, i, t.locals, t.operands, mem);
        NotMissing(p, ts, t, next, Plain(p, t.fn, i, t.locals, t.operands, mem));
        GoAlike(p, ss, s, ts, t, next, Plain(p, t.fn, i, s.locals, s.operands, mem),
                Plain(p, t.fn, i, t.locals, t.operands, mem));
      }
    }
  }

  lemma Operand(code: seq<byte>, q: nat)
    requires Whole(code, q) && code[q] in {OpCall, OpDefer, OpRoutine}
    ensures var i := InstrAt(code, q); |i| == 3 && i[1] == code[q + 1] && i[2] == code[q + 2]
  {
  }

  lemma NotMissing(p: Prog, below: seq<Act>, a: Act, next: nat, e: Outcome)
    requires Go(p, below, a, next, e) != Stuck
    ensures !e.Missing?
  {
  }

  /** A turn that returns or makes a deferred call: one turn, and then as many as pass the result on. */
  lemma LeavesAlike(p: Prog, ss: seq<Act>, s: Act, ts: seq<Act>, t: Act, mem: Memory) returns (k: nat)
    requires Like(p, s, t) && Waiting(p, ss, ts) && Leaving(p, t)
    requires Good(p, Move(p, false, ts, t, mem)) && Move(p, false, ts, t, mem) != Stuck
    requires t.defers == [] ==> ReturnsTo(p, ts, Result(p, t))
    ensures Related(p, Move(p, true, ss, s, mem), Turns(p, false, Move(p, false, ts, t, mem), k))
  {
    hide Waiting, Suffix, Plain, Covers, Related, Invoke, Jump, Go, Good, Turn, Turns, Leave, NextDefer, ReturnsTo;
    if t.leaving.Some? {
      k := NextDeferAlike(p, ss, s, ts, t, mem);
    } else {
      var i := InstrAt(Code(p, t), t.ip);
      if t.operands != [] { SuffixPop(s.operands, t.operands); }
      k := LeaveAlike(p, ss, s, ts, t, if i[1] != 1 then Undefined else Top(t.operands), mem);
    }
  }

  /** A turn with reuse is one turn without, or if it returns, one or more. */
  lemma TurnAlike(p: Prog, s: State, t: State) returns (k: nat)
    requires Related(p, s, t) && t.Going? && Good(p, t)
    ensures k > 0 && Related(p, Turn(p, true, s), Turns(p, false, t, k))
  {
    hide Good, Waiting, Turn, Turns, Related, Like, Move, Leaving, Result, ReturnsTo;
    RelatedParts(p, s, t);
    var ss, a := s.acts[..|s.acts| - 1], s.acts[|s.acts| - 1];
    var ts, b := t.acts[..|t.acts| - 1], t.acts[|t.acts| - 1];
    TurnOf(p, true, ss, a, t.mem);
    TurnOf(p, false, ts, b, t.mem);
    OneTurn(p, false, t);
    GoodNow(p, t);
    if Leaving(p, b) {
      GoodLater(p, t, 1);
      k := LeavesAlike(p, ss, a, ts, b, t.mem);
      k := k + 1;
    } else {
      k := 1;
      StaysAlike(p, ss, a, ts, b, t.mem);
    }
  }

  // ----- whole runs -----

  /** The run without reuse is never ahead: it takes at least as many turns to the same place. */
  lemma {:induction false} ReuseSimulates(p: Prog, s: State, t: State, n: nat) returns (m: nat)
    requires Related(p, s, t) && Good(p, t)
    ensures m >= n && Related(p, Turns(p, true, s, n), Turns(p, false, t, m))
    decreases n
  {
    hide Related, Good, Turn;
    m := n;
    if n > 0 {
      if t.Going? {
        var k := TurnAlike(p, s, t);
        GoodLater(p, t, k);
        var l := ReuseSimulates(p, Turn(p, true, s), Turns(p, false, t, k), n - 1);
        TurnsBoth(p, false, t, k, l);
        m := k + l;
      } else {
        EndAlike(p, s, t);
        EndStays(p, true, s, n);
        EndStays(p, false, t, n);
      }
    }
  }

  lemma EndAlike(p: Prog, s: State, t: State)
    requires Related(p, s, t)
    ensures s.Going? == t.Going? && (!t.Going? ==> s == t)
  {
  }

  lemma EnteredAlike(p: Prog, fn: Fn, args: seq<Val>, junk: seq<Slot>, mem: Memory)
    requires |junk| == ProtoOf(p, fn).numLocals
    ensures Related(p, Entered(fn, args, junk, mem), Called(p, fn, args, mem))
  {
    hide Related, Enter, Like;
    EnteredLike(p, fn, args, junk);
    var a, b := Act(fn, 0, Again(junk, args), [], [], None), Enter(p, fn, args);
    assert [] + [a] == [a] && [] + [b] == [b];
    RelatedActs(p, [], a, [], b, mem);
  }

  lemma EnteredLike(p: Prog, fn: Fn, args: seq<Val>, junk: seq<Slot>)
    requires |junk| == ProtoOf(p, fn).numLocals
    ensures Like(p, Act(fn, 0, Again(junk, args), [], [], None), Enter(p, fn, args))
  {
    hide Covers, Suffix, Again, Fresh, ProtoOf;
    AgainCovers(p, fn, junk, args);
    FreshSize(p, fn, args);
    SuffixOf([]);
    var a := Again(junk, args);
    var b := Fresh(ProtoOf(p, fn), args);
    assert Enter(p, fn, args) == Act(fn, 0, b, [], [], None);
  }

  lemma FreshSize(p: Prog, fn: Fn, args: seq<Val>)
    ensures |Fresh(ProtoOf(p, fn), args)| == ProtoOf(p, fn).numLocals
  {
  }

  /** Reusing the frame is a real call and return: with the same result, the same globals, captured
      variables and objects, or the same error, and forever if that is so. It holds whatever the slots
      held before. */
  lemma ReuseIsCall(p: Prog, fn: Fn, args: seq<Val>, junk: seq<Slot>, mem: Memory, e: State)
    requires |junk| == ProtoOf(p, fn).numLocals
    requires Proper(p, Called(p, fn, args, mem)) && Agrees(p, Called(p, fn, args, mem))
    ensures Ends(p, true, Entered(fn, args, junk, mem), e) <==> Ends(p, false, Called(p, fn, args, mem), e)
  {
    hide Turn, Related, Ends, Proper, Agrees;
    var s, t := Entered(fn, args, junk, mem), Called(p, fn, args, mem);
    EnteredAlike(p, fn, args, junk, mem);
    if Ends(p, true, s, e) {
      var n := EndsAt(p, true, s, e);
      var m := ReuseSimulates(p, s, t, n);
      EndAlike(p, e, Turns(p, false, t, m));
      EndsBy(p, false, t, e, m);
    }
    if Ends(p, false, t, e) {
      var n := EndsAt(p, false, t, e);
      var m := ReuseSimulates(p, s, t, n);
      TurnsBoth(p, false, t, n, m - n);
      EndStays(p, false, e, m - n);
      EndAlike(p, Turns(p, true, s, n), e);
      EndsBy(p, true, s, e, n);
    }
  }
}
