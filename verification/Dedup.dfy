/** Removing duplicate constants and rewriting the operands that refer to them
    (vm/bytecode.go:365-497, 607-634). */
module Dedup {
  import opened Instructions
  import opened StreamEdit

  /** A constant by what makes it a duplicate: functions are known by their address, scalars by their
      value, byte strings by their content, frozen module maps by the module's name. Opaque ones
      (native loaders, user types) are never shared. */
  datatype Const =
    | Fn(address: nat)
    | Int(n: int)
    | Str(s: string)
    | Float32(bits: nat)
    | Float64(bits: nat)
    | Char(c: int)
    | Bytes(content: seq<byte>)
    | ModuleMap(name: string)
    | Opaque(id: nat)

  type Pool = seq<Const>

  // ----- the pool -----

  function Position(pool: Pool, c: Const): (k: nat)
    requires c in pool
    ensures k < |pool| && pool[k] == c && c !in pool[..k] && forall j :: 0 <= j < |pool| && pool[j] == c ==> k <= j
  {
    if pool[0] == c then 0
    else
      var k := Position(pool[1..], c);
      assert pool[..k + 1] == [pool[0]] + pool[1..][..k];
      k + 1
  }

  /** The pool without duplicates, in order of first occurrence, and where each constant has gone. */
  function Deduped(pool: Pool): (Pool, seq<nat>) {
    if pool == [] then ([], [])
    else
      var n := |pool| - 1;
      var (kept, index) := Deduped(pool[..n]);
      if !pool[n].Opaque? && pool[n] in kept then (kept, index + [Position(kept, pool[n])])
      else (kept + [pool[n]], index + [|kept|])
  }

  /** Every constant is found again at its new index, which is no larger than the old one. */
  lemma {:induction false} SameConstants(pool: Pool)
    ensures var (kept, index) := Deduped(pool);
            |index| == |pool| && |kept| <= |pool|
            && forall i :: 0 <= i < |pool| ==> index[i] < |kept| && index[i] <= i && kept[index[i]] == pool[i]
    decreases |pool|
  {
    if pool != [] {
      var n := |pool| - 1;
      SameConstants(pool[..n]);
      var (kept, index) := Deduped(pool[..n]);
      assert pool == pool[..n] + [pool[n]];
    }
  }

  predicate NoDuplicates(pool: Pool) {
    forall i, j :: 0 <= i < j < |pool| && pool[i] == pool[j] ==> pool[i].Opaque?
  }

  lemma {:induction false} NoneLeft(pool: Pool)
    ensures NoDuplicates(Deduped(pool).0)
    decreases |pool|
  {
    if pool != [] { NoneLeft(pool[..|pool| - 1]); }
  }

  /** The constants that stay are the first of their kind, in their old order. */
  predicate IsFirst(pool: Pool, i: nat)
    requires i < |pool|
  {
    pool[i].Opaque? || pool[i] !in pool[..i]
  }

  /** A constant stays in the pool if it was in it, and none comes in. */
  lemma {:induction false} KeptIsSame(pool: Pool, c: Const)
    ensures c in Deduped(pool).0 <==> c in pool
    decreases |pool|
  {
    if pool != [] {
      var n := |pool| - 1;
      assert pool == pool[..n] + [pool[n]];
      KeptIsSame(pool[..n], c);
    }
  }

  lemma DedupedLast(pool: Pool)
    requires pool != []
    ensures var c, n := pool[|pool| - 1], |pool| - 1;
            var (kept, index) := Deduped(pool[..n]);
            && |index| == n
            && Deduped(pool) == (if !c.Opaque? && c in pool[..n] then (kept, index + Deduped(pool).1[n..])
                                 else (kept + [c], index + [|kept|]))
  {
    var n := |pool| - 1;
    SameConstants(pool[..n]);
    KeptIsSame(pool[..n], pool[n]);
  }

  lemma {:induction false} PrefixKept(pool: Pool, i: nat)
    requires i <= |pool|
    ensures var (kept, index) := Deduped(pool);
            var (kept0, index0) := Deduped(pool[..i]);
            && |kept0| <= |kept| && kept[..|kept0|] == kept0
            && |index| == |pool| && |index0| == i && index[..i] == index0
    decreases |pool|
  {
    hide Deduped;
    SameConstants(pool);
    SameConstants(pool[..i]);
    if i < |pool| {
      var n := |pool| - 1;
      DedupedLast(pool);
      PrefixKept(pool[..n], i);
      assert pool[..n][..i] == pool[..i];
      SameConstants(pool[..n]);
    } else {
      assert pool[..i] == pool;
    }
  }

  /** A first occurrence goes behind everything kept before it. */
  lemma FirstGoesLast(pool: Pool, i: nat)
    requires i < |pool| && IsFirst(pool, i)
    ensures var index, before := Deduped(pool).1, Deduped(pool[..i]).0;
            |index| == |pool| && index[i] == |before| && |Deduped(pool[..i + 1]).0| == |before| + 1
  {
    hide Deduped;
    PrefixKept(pool, i + 1);
    DedupedLast(pool[..i + 1]);
    assert pool[..i + 1][..i] == pool[..i];
    assert Deduped(pool).1[..i + 1][i] == Deduped(pool).1[i];
  }

  lemma OrderIsKept(pool: Pool, i: nat, j: nat)
    requires i < j < |pool| && IsFirst(pool, i) && IsFirst(pool, j)
    ensures var index := Deduped(pool).1; |index| == |pool| && index[i] < index[j]
  {
    hide Deduped, IsFirst;
    FirstGoesLast(pool, i);
    FirstGoesLast(pool, j);
    PrefixKept(pool[..j], i + 1);
    assert pool[..j][..i + 1] == pool[..i + 1];
  }

  function Identity(n: nat): seq<nat> { seq(n, i requires 0 <= i < n => i) }

  /** A second run changes nothing. */
  lemma {:induction false} Idempotent(pool: Pool)
    requires NoDuplicates(pool)
    ensures Deduped(pool) == (pool, Identity(|pool|))
    decreases |pool|
  {
    if pool != [] {
      var n := |pool| - 1;
      Idempotent(pool[..n]);
      assert pool == pool[..n] + [pool[n]];
      assert Identity(n + 1) == Identity(n) + [n];
      LastIsNew(pool);
    }
  }

  lemma LastIsNew(pool: Pool)
    requires NoDuplicates(pool) && pool != []
    ensures pool[|pool| - 1].Opaque? || pool[|pool| - 1] !in pool[..|pool| - 1]
  {
    var n := |pool| - 1;
    if pool[n] in pool[..n] {
      var k :| 0 <= k < n && pool[..n][k] == pool[n];
      assert pool[k] == pool[n];
    }
  }

  method DedupePool(pool: Pool) returns (kept: Pool, index: seq<nat>)
    ensures (kept, index) == Deduped(pool)
  {
    kept, index := [], [];
    var known: map<Const, nat> := map[];
    for i := 0 to |pool|
      invariant (kept, index) == Deduped(pool[..i])
      invariant forall c <- known :: !c.Opaque? && c in kept && known[c] == Position(kept, c)
      invariant forall c <- kept :: c.Opaque? || c in known
    {
      var c := pool[i];
      assert pool[..i + 1][..i] == pool[..i] && pool[..i + 1][i] == c;
      if c in known {
        index := index + [known[c]];
      } else {
        PositionsStay(kept, c);
        index := index + [|kept|];
        if !c.Opaque? { known := known[c := |kept|]; }
        kept := kept + [c];
      }
    }
    assert pool[..|pool|] == pool;
  }

  lemma PositionsStay(pool: Pool, c: Const)
    ensures forall d <- pool :: Position(pool + [c], d) == Position(pool, d)
    ensures c !in pool ==> Position(pool + [c], c) == |pool|
  {
    forall d | d in pool
      ensures Position(pool + [c], d) == Position(pool, d)
    {
      PositionIs(pool + [c], d, Position(pool, d));
    }
    if c !in pool { PositionIs(pool + [c], c, |pool|); }
  }

  lemma {:induction false} PositionIs(pool: Pool, c: Const, k: nat)
    requires k < |pool| && pool[k] == c && c !in pool[..k]
    ensures c in pool && Position(pool, c) == k
  {
    var p := Position(pool, c);
    forall j | 0 <= j < k ensures pool[j] != c { assert pool[..k][j] == pool[j]; }
  }

  // ----- the instructions -----

  predicate RefersToConstant(op: byte) { op == OpConstant || op == OpClosure }

  /** updateConstIndexes on one instruction: a new index, the number of captured cells as it was. */
  function Updated(index: seq<nat>, i: seq<byte>): seq<byte> {
    if i != [] && RefersToConstant(i[0]) && |i| == InstrLen(i[0]) && Word(i, 1) < |index| then
      [i[0], Hi(index[Word(i, 1)]), Lo(index[Word(i, 1)])] + i[3..]
    else i
  }

  function UpdateBy(index: seq<nat>): Edit { i => Updated(index, i) }

  lemma UpdateKeepsShape(index: seq<nat>)
    ensures KeepsShape(UpdateBy(index))
  {
  }

  /** Every reference to a constant is to one of the pool. */
  ghost predicate RefersInto(code: seq<byte>, size: nat) {
    forall q :: 0 <= q < |code| && Boundary(code, 0, q) && Whole(code, q) && code[q] in {OpConstant, OpClosure}
                ==> Word(code, q + 1) < size
  }

  lemma WordOf(index: seq<nat>, code: seq<byte>, q: nat, out: seq<byte>)
    requires Whole(code, q) && Whole(out, q) && RefersToConstant(code[q]) && out[q] == code[q]
    requires Word(code, q + 1) < |index| && index[Word(code, q + 1)] < 65536
    requires InstrAt(out, q) == Updated(index, InstrAt(code, q))
    ensures Word(out, q + 1) == index[Word(code, q + 1)]
    ensures code[q] == OpClosure ==> out[q + 3] == code[q + 3]
  {
    var i, o := InstrAt(code, q), InstrAt(out, q);
    assert i[1] == code[q + 1] && i[2] == code[q + 2] && o[1] == out[q + 1] && o[2] == out[q + 2];
    HiLo(index[Word(i, 1)]);
    if code[q] == OpClosure { assert i[3] == code[q + 3] && o[3] == out[q + 3]; }
  }

  lemma HiLo(n: nat)
    requires n < 65536
    ensures 256 * Hi(n) + Lo(n) == n
  {
  }

  /** After the rewriting every reference is to the constant it was to before, and the code is
      otherwise the same. */
  lemma SameMeaning(pool: Pool, code: seq<byte>, q: nat)
    requires |pool| <= 65536 && Stream(code, 0) && RefersInto(code, |pool|)
    requires Boundary(code, 0, q) && q < |code|
    ensures var (kept, index) := Deduped(pool);
            var out := Edited(code, 0, UpdateBy(index));
            && |out| == |code| && Boundary(out, 0, q) && Whole(out, q) && Whole(code, q) && out[q] == code[q]
            && (if code[q] == OpConstant || code[q] == OpClosure then
                  && Word(code, q + 1) < |pool| && Word(out, q + 1) < |kept|
                  && kept[Word(out, q + 1)] == pool[Word(code, q + 1)]
                else InstrAt(out, q) == InstrAt(code, q))
            && (code[q] == OpClosure ==> out[q + 3] == code[q + 3])
  {
    hide Stream, Edited, Deduped;
    SameConstants(pool);
    var (kept, index) := Deduped(pool);
    UpdateKeepsShape(index);
    EditedAt([], code, 0, UpdateBy(index), q);
    var out := Edited(code, 0, UpdateBy(index));
    assert [] + out == out;
    if RefersToConstant(code[q]) { WordOf(index, code, q, out); }
  }

  // ----- a second run -----

  lemma WordBack(i: seq<byte>)
    requires |i| >= 3
    ensures [i[0], Hi(Word(i, 1)), Lo(Word(i, 1))] + i[3..] == i
  {
  }

  lemma UpdatedSame(n: nat, i: seq<byte>)
    ensures Updated(Identity(n), i) == i
  {
    if i != [] && RefersToConstant(i[0]) && |i| == InstrLen(i[0]) && Word(i, 1) < n { WordBack(i); }
  }

  /** Where no constant has moved the code stays as it is. */
  lemma NothingMoves(code: seq<byte>, n: nat)
    requires Stream(code, 0)
    ensures Edited(code, 0, UpdateBy(Identity(n))) == code
  {
    hide Stream, Updated, Identity;
    var f := UpdateBy(Identity(n));
    forall q | 0 <= q < |code| && Boundary(code, 0, q)
        ensures Whole(code, q) && f(InstrAt(code, q)) == InstrAt(code, q) {
      WholeAt(code, q);
      UpdatedSame(n, InstrAt(code, q));
    }
    EditedSame([], code, 0, f);
    assert [] + Edited(code, 0, f) == Edited(code, 0, f);
  }

  lemma WholeAt(code: seq<byte>, q: nat)
    requires Stream(code, 0) && Boundary(code, 0, q) && q < |code|
    ensures Whole(code, q)
  {
    BoundaryWhole(code, 0, q);
  }

  /** Running it again on the pool and the code it has made changes neither. */
  lemma SecondRun(pool: Pool, code: seq<byte>)
    requires Stream(code, 0)
    ensures var (kept, index) := Deduped(pool);
            var out := Edited(code, 0, UpdateBy(index));
            && Stream(out, 0) && Deduped(kept).0 == kept
            && Edited(out, 0, UpdateBy(Deduped(kept).1)) == out
  {
    hide Stream, Edited, Deduped;
    var (kept, index) := Deduped(pool);
    var out := Edited(code, 0, UpdateBy(index));
    UpdateKeepsShape(index);
    EditedStream([], code, 0, UpdateBy(index));
    assert [] + out == out;
    NoneLeft(pool);
    Idempotent(kept);
    NothingMoves(out, |kept|);
  }

  // ----- the whole bytecode -----

  class Bytecode {
    var main: seq<byte>
    var constants: Pool
    var code: map<nat, seq<byte>>       // the instructions of the functions, by address

    /** The streams are well formed and refer to the pool; the functions of the pool exist. */
    ghost predicate Valid()
      reads this
    {
      && |constants| <= 65536
      && Stream(main, 0) && RefersInto(main, |constants|)
      && (forall i :: 0 <= i < |constants| && constants[i].Fn? ==> constants[i].address in code)
      && (forall a <- code :: Stream(code[a], 0) && RefersInto(code[a], |constants|))
    }

    /** Each function of the pool is rewritten exactly once, also if the pool had it several times. */
    method RemoveDuplicates()
      requires Valid()
      modifies this
      ensures constants == Deduped(old(constants)).0
      ensures var f := UpdateBy(Deduped(old(constants)).1);
              && main == Edited(old(main), 0, f)
              && code.Keys == old(code).Keys
              && forall a <- code :: code[a] == if Fn(a) in old(constants) then Edited(old(code)[a], 0, f)
                else old(code)[a]
    {
      hide Stream, Deduped, Edited, RefersInto;
      ghost var pool, was := constants, code;
      var kept, index := DedupePool(constants);
      constants := kept;
      main := UpdateConstIndexes(main, index);
      ghost var f := UpdateBy(index);
      NoneLeft(pool);
      for i := 0 to |kept|
        invariant constants == kept && main == Edited(old(main), 0, f) && code.Keys == was.Keys
        invariant forall a <- code :: code[a] == if Fn(a) in kept[..i] then Edited(was[a], 0, f) else was[a]
      {
        assert kept[..i + 1] == kept[..i] + [kept[i]];
        if kept[i].Fn? {
          var a := kept[i].address;
          FnOnce(pool, kept, i);
          var updated := UpdateConstIndexes(code[a], index);
          code := code[a := updated];
        }
      }
      assert kept[..|kept|] == kept;
      forall a ensures Fn(a) in kept <==> Fn(a) in pool { KeptIsSame(pool, Fn(a)); }
    }
  }

  lemma FnOnce(pool: Pool, kept: Pool, i: nat)
    requires kept == Deduped(pool).0 && i < |kept| && kept[i].Fn?
    ensures kept[i] in pool && kept[i] !in kept[..i]
  {
    hide Deduped;
    NoneLeft(pool);
    KeptIsSame(pool, kept[i]);
    forall j | 0 <= j < i ensures kept[j] != kept[i] {}
  }

  method UpdateConstIndexes(code: seq<byte>, index: seq<nat>) returns (out: seq<byte>)
    requires Stream(code, 0)
    ensures out == Edited(code, 0, UpdateBy(index))
  {
    hide Stream, Edited, Whole;
    ghost var f := UpdateBy(index);
    var i: nat := 0;
    out := [];
    while i < |code|
      invariant i <= |code| && Stream(code, i) && |out| == i
      invariant out + Edited(code, i, f) == Edited(code, 0, f)
      decreases |code| - i
    {
      EditedHere(code, i, f);
      var instr := InstrAt(code, i);
      ghost var rest := Edited(code, Next(code, i), f);
      assert out + (f(instr) + rest) == out + f(instr) + rest;
      UpdateKeepsShape(index);
      out := out + Updated(index, instr);
      i := i + |instr|;
    }
    NothingLeft(code, f);
  }

  lemma NothingLeft(code: seq<byte>, f: Edit)
    requires Stream(code, |code|)
    ensures Edited(code, |code|, f) == []
  {
  }
}
