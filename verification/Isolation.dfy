/** Giving a routine its own copy of a closure's captured variables (vm/routinevm.go:225-345).
    Cells hold values; a function is known by its code and the cells it has captured. */
module Isolation {
  import opened Wrappers

  type Cell = nat

  datatype Val = Plain(id: int) | Fun(code: int, free: seq<Cell>)

  type Store = map<Cell, Val>

  type Renaming = map<Cell, Cell>

  // ----- closure graphs -----

  /** Every cell comes behind the cells that the function it holds has captured. */
  ghost predicate Topological(s: Store, order: seq<Cell>) {
    forall k :: 0 <= k < |order| ==> order[k] in s && CapturesBefore(s, order, k)
  }

  ghost predicate CapturesBefore(s: Store, order: seq<Cell>, k: nat)
    requires k < |order|
  {
    order[k] in s && s[order[k]].Fun? ==> forall f <- s[order[k]].free :: f in order[..k]
  }

  ghost predicate AllIn(cells: seq<Cell>, order: seq<Cell>) { forall f <- cells :: f in order }

  /** No cell that can be reached from these holds a function that can reach the cell again. */
  ghost predicate Acyclic(s: Store, free: seq<Cell>) {
    exists order :: Topological(s, order) && AllIn(free, order)
  }

  // ----- the copy -----

  function Rename(free: seq<Cell>, m: Renaming): (r: seq<Cell>)
    ensures |r| == |free|
  {
    seq(|free|, i requires 0 <= i < |free| => if free[i] in m then m[free[i]] else 0)
  }

  /** What the copy of a cell with value v holds. */
  function Image(v: Val, m: Renaming): Val {
    match v
    case Plain(_) => v
    case Fun(code, free) => Fun(code, Rename(free, m))
  }

  predicate Covers(m: Renaming, free: seq<Cell>) { forall f <- free :: f in m }

  predicate Injective(m: Renaming) { forall a <- m, b <- m :: m[a] == m[b] ==> a == b }

  /** The renamed cells are new, different for different cells, and hold the renamed values. */
  ghost predicate Isomorphic(before: Store, after: Store, m: Renaming) {
    && Injective(m)
    && (forall c <- m :: c in before && m[c] in after && m[c] !in before)
    && (forall c <- m :: after[m[c]] == Image(before[c], m))
    && (forall c <- m :: before[c].Fun? ==> Covers(m, before[c].free))
  }

  ghost predicate Unchanged(before: Store, after: Store) {
    forall c <- before :: c in after && after[c] == before[c]
  }

  // ----- which slots share a cell -----

  /** alias[i] is the first slot with the cell of slot i. */
  ghost predicate IsAlias(free: seq<Cell>, alias: seq<nat>) {
    |alias| == |free| && forall i :: 0 <= i < |free| ==> First(free, i, alias[i])
  }

  ghost predicate First(free: seq<Cell>, i: nat, j: nat)
    requires i < |free|
  {
    j <= i && free[j] == free[i] && forall k :: 0 <= k < j ==> free[k] != free[i]
  }

  method Aliases(free: seq<Cell>) returns (alias: seq<nat>)
    ensures IsAlias(free, alias)
  {
    alias := [];
    for i := 0 to |free|
      invariant |alias| == i && forall k :: 0 <= k < i ==> First(free, k, alias[k])
    {
      var j: nat := 0;
      while j < i && free[j] != free[i]
        invariant j <= i && forall k :: 0 <= k < j ==> free[k] != free[i]
      {
        j := j + 1;
      }
      alias := alias + [j];
    }
  }

  // ----- small steps of the proof -----

  lemma RenameMore(free: seq<Cell>, m: Renaming, m': Renaming)
    requires Covers(m, free) && m.Keys <= m'.Keys && forall c <- m :: m'[c] == m[c]
    ensures Rename(free, m') == Rename(free, m) && Covers(m', free)
  {
    forall i | 0 <= i < |free| ensures Rename(free, m')[i] == Rename(free, m)[i] { assert free[i] in m; }
  }

  lemma RenameNext(free: seq<Cell>, i: nat, m: Renaming)
    requires i < |free| && free[i] in m
    ensures Rename(free[..i + 1], m) == Rename(free[..i], m) + [m[free[i]]]
    ensures Covers(m, free[..i]) ==> Covers(m, free[..i + 1])
  {
    assert free[..i + 1] == free[..i] + [free[i]];
  }

  /** Registering a new cell n as the copy of c. */
  lemma OneMoreCell(before: Store, after: Store, m: Renaming, c: Cell, n: Cell)
    requires Unchanged(before, after) && Isomorphic(before, after, m)
    requires c in before && c !in m && n !in after
    requires before[c].Fun? ==> Covers(m, before[c].free)
    ensures Isomorphic(before, after[n := Image(before[c], m)], m[c := n])
    ensures Unchanged(before, after[n := Image(before[c], m)])
  {
    var after', m' := after[n := Image(before[c], m)], m[c := n];
    forall d | d in m'
      ensures after'[m'[d]] == Image(before[d], m') && (before[d].Fun? ==> Covers(m', before[d].free))
    {
      if before[d].Fun? { RenameMore(before[d].free, m, m'); }
    }
  }

  function FirstIn(order: seq<Cell>, c: Cell): (k: nat)
    requires c in order
    ensures k < |order| && order[k] == c && c !in order[..k] && forall j :: 0 <= j < |order| && order[j] == c ==> k <= j
  {
    if order[0] == c then 0
    else
      var k := FirstIn(order[1..], c);
      assert order[..k + 1] == [order[0]] + order[1..][..k];
      k + 1
  }

  lemma CapturedAreBefore(s: Store, order: seq<Cell>, b: nat, c: Cell)
    requires Topological(s, order) && b <= |order| && c in order[..b] && s[c].Fun?
    ensures var k := FirstIn(order, c);
            c in order && k < b && AllIn(s[c].free, order[..k])
  {
    var j :| 0 <= j < b && order[j] == c;
    var k := FirstIn(order, c);
    assert CapturesBefore(s, order, k);
  }

  /** New entries are for cells of the order only, old ones stay. */
  ghost predicate Grown(m: Renaming, m': Renaming, cells: seq<Cell>) {
    && (forall c <- m :: c in m' && m'[c] == m[c])
    && (forall c <- m' :: c in m || c in cells)
  }

  lemma NothingYet(free: seq<Cell>, m: Renaming, cells: seq<Cell>)
    ensures Grown(m, m, cells) && Covers(m, free[..0]) && Rename(free[..0], m) == []
  {
  }

  lemma SlotFacts(s: Store, free: seq<Cell>, alias: seq<nat>, order: seq<Cell>, b: nat, i: nat)
    requires IsAlias(free, alias) && Topological(s, order) && b <= |order| && AllIn(free, order[..b]) && i < |free|
    ensures alias[i] <= i && free[alias[i]] == free[i] && alias[alias[i]] == alias[i]
    ensures free[i] in order[..b] && free[i] in s
    ensures alias[i] == i ==> free[i] !in free[..i]
  {
    assert First(free, i, alias[i]) && First(free, alias[i], alias[alias[i]]);
    assert free[i] in free && free[i] in order[..b];
    var k :| 0 <= k < b && order[..b][k] == free[i];
    assert order[k] in s;
  }

  lemma GrownInside(m: Renaming, m': Renaming, order: seq<Cell>, k: nat, b: nat, c: Cell)
    requires k <= b <= |order| && Grown(m, m', order[..k]) && c !in m && c !in order[..k]
    ensures Grown(m, m', order[..b]) && c !in m'
  {
    forall d | d in order[..k] ensures d in order[..b] {
      var j :| 0 <= j < k && order[..k][j] == d;
      assert order[..b][j] == d;
    }
  }

  lemma GrownTogether(m: Renaming, m0: Renaming, m1: Renaming, m2: Renaming, cells: seq<Cell>, c: Cell, n: Cell)
    requires Grown(m, m0, cells) && Grown(m0, m1, cells) && m2 == m1[c := n] && c !in m1 && c in cells
    ensures Grown(m, m2, cells) && m0.Keys <= m2.Keys && forall d <- m0 :: m2[d] == m0[d]
  {
  }

  lemma SimpleImage(v: Val, m: Renaming)
    requires v.Plain? || v.free == []
    ensures Image(v, m) == v && (v.Fun? ==> Covers(m, v.free))
  {
  }

  // ----- the algorithm -----

  class Spawner {
    var store: Store
    var next: Cell                        // an address that is not in use, nor any above it
    var seen: Option<Renaming>            // shared by the recursive calls once it exists
    ghost const before: Store
    ghost var copies: Renaming            // all copies made so far

    ghost predicate Valid()
      reads this
    {
      && Unchanged(before, store) && Isomorphic(before, store, copies)
      && (forall c <- store :: c < next)
      && (seen.Some? ==> seen.value == copies)
    }

    constructor (store: Store, next: Cell)
      requires forall c <- store :: c < next
      ensures Valid() && before == store == this.store && copies == map[] && seen.None?
    {
      this.store, this.next, seen, before, copies := store, next, None, store, map[];
    }

    method StartSharing()
      requires Valid() && copies == map[]
      modifies this`seen
      ensures Valid() && seen.Some?
    {
      seen := Some(map[]);
    }

    method Load(c: Cell) returns (v: Val)
      requires Valid() && c in before
      ensures v == before[c]
    {
      v := store[c];
    }

    /** A fresh cell for the copy of c, entered in seen if that exists. */
    method NewCell(v: Val, c: Cell) returns (n: Cell)
      requires Valid() && c in before && c !in copies
      requires v == Image(before[c], copies) && (before[c].Fun? ==> Covers(copies, before[c].free))
      modifies this
      ensures Valid() && copies == old(copies)[c := n] && seen.Some? == old(seen).Some?
    {
      OneMoreCell(before, store, copies, c, next);
      n := next;
      store := store[n := v];
      next := next + 1;
      copies := copies[c := n];
      if seen.Some? { seen := Some(seen.value[c := n]); }
    }

    /** The copies made for the canonical slots before slot i. */
    method Register(free: seq<Cell>, alias: seq<nat>, newCells: seq<Cell>, i: nat) returns (m: Renaming)
      requires i <= |free| == |newCells| && IsAlias(free, alias)
      requires (forall j :: 0 <= j < i ==> free[j] in copies && (alias[j] == j ==> newCells[j] == copies[free[j]]))
      requires forall c <- copies :: c in free[..i]
      ensures m == copies
    {
      m := map[];
      for k := 0 to i
        invariant forall c <- m :: c in copies && m[c] == copies[c]
        invariant forall j :: 0 <= j < k ==> free[j] in m
      {
        assert First(free, k, alias[k]);
        if alias[k] == k { m := m[free[k] := newCells[k]]; }
      }
      assert m.Keys == copies.Keys;
    }

    /** isolateClosureFreeRec: the captured cells of a function, copied. */
    method Rec(free: seq<Cell>, ghost order: seq<Cell>, ghost b: nat) returns (newFree: seq<Cell>)
      requires Valid() && Topological(before, order) && b <= |order| && AllIn(free, order[..b])
      requires seen.None? ==> copies == map[]
      modifies this
      ensures Valid() && Grown(old(copies), copies, order[..b])
      ensures Covers(copies, free) && newFree == Rename(free, copies)
      ensures old(seen).Some? ==> seen.Some?
      decreases b
    {
      hide Isomorphic, Unchanged, Topological, AllIn, IsAlias, Rename, Covers, Grown;
      var alias := Aliases(free);
      var newCells: seq<Cell> := seq(|free|, _ => 0);
      newFree := [];
      NothingYet(free, copies, order[..b]);
      for i := 0 to |free|
        invariant Valid() && Grown(old(copies), copies, order[..b]) && (old(seen).Some? ==> seen.Some?)
        invariant Covers(copies, free[..i]) && newFree == Rename(free[..i], copies)
        invariant |newCells| == |free| == |alias|
        invariant forall j :: 0 <= j < i ==> free[j] in copies && (alias[j] == j ==> newCells[j] == copies[free[j]])
        invariant seen.None? ==> forall c <- copies :: c in free[..i]
      {
        var fv, canon := free[i], alias[i];
        SlotFacts(before, free, alias, order, b, i);
        assert free[..i + 1] == free[..i] + [fv];
        if canon < i {
          newFree := newFree + [newCells[canon]];
          RenameNext(free, i, copies);
        } else if seen.Some? && fv in seen.value {
          newCells := newCells[i := seen.value[fv]];
          newFree := newFree + [seen.value[fv]];
          RenameNext(free, i, copies);
        } else {
          assert fv !in copies;
          ghost var c0 := copies;
          var val := Load(fv);
          if val.Fun? && val.free != [] {
            if seen.None? {
              var m := Register(free, alias, newCells, i);
              seen := Some(m);
            }
            CapturedAreBefore(before, order, b, fv);
            ghost var k := FirstIn(order, fv);
            var inner := Rec(val.free, order, k);
            val := Fun(val.code, inner);
            GrownInside(c0, copies, order, k, b, fv);
          } else {
            NothingYet(free, c0, order[..b]);
            SimpleImage(val, copies);
          }
          ghost var c1 := copies;
          var n := NewCell(val, fv);
          GrownTogether(old(copies), c0, c1, copies, order[..b], fv, n);
          RenameMore(free[..i], c0, copies);
          newCells := newCells[i := n];
          newFree := newFree + [n];
          RenameNext(free, i, copies);
        }
      }
      assert free[..|free|] == free;
    }
  }

  // ----- the whole copy -----

  /** Two stores, a function's captured cells before and their copies: the copy uses new cells only,
      shares a cell exactly where the original does, at every level, and holds the same values. */
  ghost predicate IsolatedCopy(before: Store, free: seq<Cell>, after: Store, newFree: seq<Cell>) {
    exists m: Renaming :: Isomorphic(before, after, m) && Covers(m, free) && newFree == Rename(free, m)
  }

  method Isolate(store: Store, next: Cell, code: int, free: seq<Cell>) returns (after: Store, copy: Val)
    requires (forall c <- store :: c < next) && Acyclic(store, free)
    ensures Unchanged(store, after)
    ensures copy.Fun? && copy.code == code && IsolatedCopy(store, free, after, copy.free)
  {
    hide Topological, Isomorphic, Acyclic, Covers, Rename, AllIn;
    if free == [] {
      NoCells(store);
      return store, Fun(code, []);
    }
    var nested := false;
    for i := 0 to |free| {
      CellsExist(store, free, i);
      var v := store[free[i]];
      nested := nested || (v.Fun? && v.free != []);
    }
    NothingCopied(store);
    var s := new Spawner(store, next);
    if nested { s.StartSharing(); }
    ghost var order := Order(store, free);
    assert order[..|order|] == order;
    var newFree := s.Rec(free, order, |order|);
    assert Isomorphic(store, s.store, s.copies);
    after, copy := s.store, Fun(code, newFree);
  }

  ghost function Order(s: Store, free: seq<Cell>): (order: seq<Cell>)
    requires Acyclic(s, free)
    ensures Topological(s, order) && AllIn(free, order)
  {
    var order :| Topological(s, order) && AllIn(free, order);
    order
  }

  lemma NothingCopied(s: Store)
    ensures Isomorphic(s, s, map[]) && Unchanged(s, s)
  {
  }

  lemma NoCells(s: Store)
    ensures IsolatedCopy(s, [], s, [])
  {
    NothingCopied(s);
    assert Covers(map[], []) && Rename([], map[]) == [];
  }

  lemma CellsExist(s: Store, free: seq<Cell>, i: nat)
    requires Acyclic(s, free) && i < |free|
    ensures free[i] in s
  {
    var order :| Topological(s, order) && AllIn(free, order);
    assert free[i] in free && free[i] in order;
    var k :| 0 <= k < |order| && order[k] == free[i];
  }

  // ----- what isolation means -----

  /** The cells that can be reached in n steps. */
  ghost predicate Reaches(s: Store, free: seq<Cell>, c: Cell, n: nat)
    decreases n
  {
    c in free || (n > 0 && exists d :: d in s && s[d].Fun? && c in s[d].free && Reaches(s, free, d, n - 1))
  }

  /** The routine can reach no cell that existed before. */
  lemma {:induction false} NothingShared(before: Store, free: seq<Cell>, after: Store, newFree: seq<Cell>, c: Cell,
                                         n: nat)
    requires IsolatedCopy(before, free, after, newFree) && Reaches(after, newFree, c, n)
    ensures c !in before && c in after
  {
    var m: Renaming :| Isomorphic(before, after, m) && Covers(m, free) && newFree == Rename(free, m);
    var d := ReachedIsCopy(before, after, m, free, c, n);
  }

  lemma {:induction false} ReachedIsCopy(before: Store, after: Store, m: Renaming, free: seq<Cell>, c: Cell, n: nat)
      returns (d: Cell)
    requires Isomorphic(before, after, m) && Covers(m, free) && Reaches(after, Rename(free, m), c, n)
    ensures d in m && m[d] == c
    decreases n
  {
    if c in Rename(free, m) {
      d := RenamedFrom(free, m, c);
    } else {
      var e :| e in after && after[e].Fun? && c in after[e].free && Reaches(after, Rename(free, m), e, n - 1);
      var e0 := ReachedIsCopy(before, after, m, free, e, n - 1);
      assert after[m[e0]] == Image(before[e0], m);
      d := RenamedFrom(before[e0].free, m, c);
    }
  }

  lemma RenamedFrom(free: seq<Cell>, m: Renaming, c: Cell) returns (d: Cell)
    requires Covers(m, free) && c in Rename(free, m)
    ensures d in free && d in m && m[d] == c
  {
    var i :| 0 <= i < |free| && Rename(free, m)[i] == c;
    d := free[i];
  }

  /** Two captured slots share a cell in the copy exactly when they did in the original. */
  lemma SharingIsKept(before: Store, free: seq<Cell>, after: Store, newFree: seq<Cell>, i: nat, j: nat)
    requires IsolatedCopy(before, free, after, newFree) && i < |free| && j < |free|
    ensures |newFree| == |free| && (newFree[i] == newFree[j] <==> free[i] == free[j])
  {
    var m: Renaming :| Isomorphic(before, after, m) && Covers(m, free) && newFree == Rename(free, m);
    assert free[i] in m && free[j] in m;
  }

  /** Also between a function and one that its cell i holds. */
  lemma NestedSharingIsKept(before: Store, free: seq<Cell>, after: Store, newFree: seq<Cell>, i: nat, j: nat, k: nat)
    requires IsolatedCopy(before, free, after, newFree) && i < |free| && j < |free|
    requires free[i] in before && before[free[i]].Fun? && k < |before[free[i]].free|
    ensures |newFree| == |free| && newFree[i] in after
    ensures var inner := after[newFree[i]];
            && inner.Fun? && inner.code == before[free[i]].code && |inner.free| == |before[free[i]].free|
            && (inner.free[k] == newFree[j] <==> before[free[i]].free[k] == free[j])
  {
    var m: Renaming :| Isomorphic(before, after, m) && Covers(m, free) && newFree == Rename(free, m);
    assert free[i] in m && free[j] in m;
    assert after[m[free[i]]] == Image(before[free[i]], m);
    assert before[free[i]].free[k] in m;
  }

  // ----- when the recursion ends -----

  /** The cells in the order isolateClosureFreeRec enters them in seen, if it gets by with this depth
      of recursion. A cell is entered after the function it holds has been copied. */
  function Visit(s: Store, free: seq<Cell>, i: nat, seen: seq<Cell>, depth: nat): Option<seq<Cell>>
    requires i <= |free|
    decreases depth, |free| - i
  {
    if i == |free| then Some(seen)
    else if free[i] in seen then Visit(s, free, i + 1, seen, depth)
    else if free[i] !in s || s[free[i]].Plain? then Visit(s, free, i + 1, seen + [free[i]], depth)
    else if depth == 0 then None
    else
      match Visit(s, s[free[i]].free, 0, seen, depth - 1)
      case None => None
      case Some(inside) => Visit(s, free, i + 1, inside + [free[i]], depth)
  }

  /** No dangling pointers. */
  ghost predicate ClosedStore(s: Store, free: seq<Cell>) {
    (forall f <- free :: f in s) && forall c <- s :: s[c].Fun? ==> forall f <- s[c].free :: f in s
  }

  lemma TopologicalMore(s: Store, order: seq<Cell>, c: Cell)
    requires Topological(s, order) && c in s && (s[c].Fun? ==> AllIn(s[c].free, order))
    ensures Topological(s, order + [c])
  {
    var order' := order + [c];
    forall k | 0 <= k < |order'|
      ensures order'[k] in s && CapturesBefore(s, order', k)
    {
      assert order'[..k] == order[..k];
      if k == |order| { assert order[..k] == order; } else { assert CapturesBefore(s, order, k); }
    }
  }

  /** What the recursion has entered is in topological order. */
  lemma {:induction false} VisitSorts(s: Store, free: seq<Cell>, i: nat, seen: seq<Cell>, depth: nat)
    requires ClosedStore(s, free) && i <= |free| && Topological(s, seen) && Visit(s, free, i, seen, depth).Some?
    ensures var r := Visit(s, free, i, seen, depth).value;
            Topological(s, r) && AllIn(seen, r) && AllIn(free[i..], r)
    decreases depth, |free| - i
  {
    hide Topological, ClosedStore;
    if i < |free| {
      var c := free[i];
      assert free[i..] == [c] + free[i + 1..];
      InClosed(s, free, i);
      if c in seen {
        VisitSorts(s, free, i + 1, seen, depth);
      } else if s[c].Plain? {
        TopologicalMore(s, seen, c);
        VisitSorts(s, free, i + 1, seen + [c], depth);
      } else {
        VisitSorts(s, s[c].free, 0, seen, depth - 1);
        var inside := Visit(s, s[c].free, 0, seen, depth - 1).value;
        assert s[c].free[0..] == s[c].free;
        TopologicalMore(s, inside, c);
        VisitSorts(s, free, i + 1, inside + [c], depth);
      }
    }
  }

  lemma InClosed(s: Store, free: seq<Cell>, i: nat)
    requires ClosedStore(s, free) && i < |free|
    ensures free[i] in s && (s[free[i]].Fun? ==> ClosedStore(s, s[free[i]].free))
  {
    assert free[i] in free;
  }

  lemma {:induction false} VisitEnds(s: Store, free: seq<Cell>, i: nat, seen: seq<Cell>, depth: nat, order: seq<Cell>,
                                     b: nat)
    requires Topological(s, order) && b <= |order| && AllIn(free, order[..b]) && i <= |free| && depth >= b
    ensures Visit(s, free, i, seen, depth).Some?
    decreases depth, |free| - i
  {
    hide Topological;
    if i < |free| {
      var c := free[i];
      assert c in free && c in order[..b];
      if c in seen {
        VisitEnds(s, free, i + 1, seen, depth, order, b);
      } else if c !in s || s[c].Plain? {
        VisitEnds(s, free, i + 1, seen + [c], depth, order, b);
      } else {
        CapturedAreBefore(s, order, b, c);
        VisitEnds(s, s[c].free, 0, seen, depth - 1, order, FirstIn(order, c));
        VisitEnds(s, free, i + 1, Visit(s, s[c].free, 0, seen, depth - 1).value + [c], depth, order, b);
      }
    }
  }

  /** The copying ends exactly for acyclic closures; a function that has captured the variable it is
      stored in sends it into endless recursion. */
  lemma EndsIffAcyclic(s: Store, free: seq<Cell>)
    requires ClosedStore(s, free)
    ensures (exists depth :: Visit(s, free, 0, [], depth).Some?) <==> Acyclic(s, free)
  {
    hide Topological, ClosedStore;
    if exists depth :: Visit(s, free, 0, [], depth).Some? {
      var depth :| Visit(s, free, 0, [], depth).Some?;
      EmptyOrder(s);
      VisitSorts(s, free, 0, [], depth);
      assert free[0..] == free;
      assert AllIn(free, Visit(s, free, 0, [], depth).value);
    }
    if Acyclic(s, free) {
      var order :| Topological(s, order) && AllIn(free, order);
      assert order[..|order|] == order;
      VisitEnds(s, free, 0, [], |order|, order, |order|);
      assert Visit(s, free, 0, [], |order|).Some?;
    }
  }

  lemma EmptyOrder(s: Store)
    ensures Topological(s, [])
  {
  }

  lemma RecursiveClosure(s: Store, c: Cell, code: int)
    requires c in s && s[c] == Fun(code, [c])
    ensures forall depth :: Visit(s, [c], 0, [], depth).None?
  {
    forall depth: nat
      ensures Visit(s, [c], 0, [], depth).None?
    {
      NeverEnds(s, c, code, depth);
    }
  }

  lemma {:induction false} NeverEnds(s: Store, c: Cell, code: int, depth: nat)
    requires c in s && s[c] == Fun(code, [c])
    ensures Visit(s, [c], 0, [], depth).None?
  {
    if depth > 0 { NeverEnds(s, c, code, depth - 1); }
  }
}
