/** Arrays and maps as a heap graph, and when two of them are the same as far as a program can see. */
module Containers {
  type Addr = nat

  /** Leaves are all objects without elements; what their Equals does is a parameter. Nil is what
      indexing a Go map with a missing key gives. */
  datatype Obj = Nil | Leaf(id: int) | Ref(a: Addr)

  datatype Container =
    | Array(elems: seq<Obj>, frozen: bool)
    | Map(entries: map<string, Obj>, frozen: bool)

  type Heap = map<Addr, Container>

  type LeafEquals = (int, Obj) -> bool

  function Lookup(m: map<string, Obj>, k: string): Obj { if k in m then m[k] else Nil }

  predicate InHeap(h: Heap, x: Obj) { x.Ref? ==> x.a in h }

  predicate ElemsIn(h: Heap, c: Container) {
    match c
    case Array(es, _) => forall i :: 0 <= i < |es| ==> es[i] != Nil && InHeap(h, es[i])
    case Map(m, _) => forall k <- m :: m[k] != Nil && InHeap(h, m[k])
  }

  ghost predicate Closed(h: Heap) { forall a <- h :: ElemsIn(h, h[a]) }

  // ----- bisimilarity -----

  type Relation = set<(Addr, Addr)>

  predicate Matches(same: LeafEquals, r: Relation, x: Obj, y: Obj) {
    match x
    case Nil => false
    case Leaf(id) => same(id, y)
    case Ref(a) => y.Ref? && (a, y.a) in r
  }

  /** Equal kinds and sizes, and elements that match pairwise. */
  ghost predicate Expanded(h: Heap, same: LeafEquals, r: Relation, a: Addr, b: Addr) {
    a in h && b in h &&
    match (h[a], h[b])
    case (Array(es, _), Array(fs, _)) =>
      |es| == |fs| && forall i :: 0 <= i < |es| ==> Matches(same, r, es[i], fs[i])
    case (Map(m, _), Map(n, _)) =>
      |m| == |n| && forall k <- m :: Matches(same, r, m[k], Lookup(n, k))
    case _ => false
  }

  ghost predicate Bisimulation(h: Heap, same: LeafEquals, r: Relation) {
    forall p <- r :: Expanded(h, same, r, p.0, p.1)
  }

  ghost predicate Bisimilar(h: Heap, same: LeafEquals, x: Obj, y: Obj) {
    exists r :: Bisimulation(h, same, r) && Matches(same, r, x, y)
  }

  lemma MatchesMore(same: LeafEquals, r: Relation, r': Relation, x: Obj, y: Obj)
    requires Matches(same, r, x, y) && r <= r'
    ensures Matches(same, r', x, y)
  {
  }

  lemma ExpandedMore(h: Heap, same: LeafEquals, r: Relation, r': Relation, a: Addr, b: Addr)
    requires Expanded(h, same, r, a, b) && r <= r'
    ensures Expanded(h, same, r', a, b)
  {
  }

  // ----- the same by finite observation -----

  /** No path of at most n indices and keys tells x and y apart. */
  ghost predicate Agree(h: Heap, same: LeafEquals, x: Obj, y: Obj, n: nat)
    decreases n
  {
    match x
    case Nil => false
    case Leaf(id) => same(id, y)
    case Ref(a) =>
      y.Ref? && a in h && y.a in h &&
      match (h[a], h[y.a])
      case (Array(es, _), Array(fs, _)) =>
        |es| == |fs| && (n > 0 ==> forall i :: 0 <= i < |es| ==> Agree(h, same, es[i], fs[i], n - 1))
      case (Map(m, _), Map(o, _)) =>
        |m| == |o| && (n > 0 ==> forall k <- m :: Agree(h, same, m[k], Lookup(o, k), n - 1))
      case _ => false
  }

  lemma {:induction false} BisimilarAgree(h: Heap, same: LeafEquals, r: Relation, x: Obj, y: Obj, n: nat)
    requires Bisimulation(h, same, r) && Matches(same, r, x, y)
    ensures Agree(h, same, x, y, n)
    decreases n
  {
    if x.Ref? {
      var p := (x.a, y.a);
      assert Expanded(h, same, r, p.0, p.1);
      if n > 0 {
        match (h[x.a], h[y.a])
        case (Array(es, _), Array(fs, _)) =>
          forall i | 0 <= i < |es| ensures Agree(h, same, es[i], fs[i], n - 1) {
            BisimilarAgree(h, same, r, es[i], fs[i], n - 1);
          }
        case (Map(m, _), Map(o, _)) =>
          forall k | k in m ensures Agree(h, same, m[k], Lookup(o, k), n - 1) {
            BisimilarAgree(h, same, r, m[k], Lookup(o, k), n - 1);
          }
      }
    }
  }

  /** The pairs that no finite path tells apart. */
  ghost function Same(h: Heap, same: LeafEquals): Relation {
    set a <- h, b <- h | (forall n: nat :: Agree(h, same, Ref(a), Ref(b), n)) :: (a, b)
  }

  lemma AgreeMatches(h: Heap, same: LeafEquals, x: Obj, y: Obj)
    requires forall n: nat :: Agree(h, same, x, y, n)
    ensures Matches(same, Same(h, same), x, y)
  {
    assert Agree(h, same, x, y, 0);
  }

  lemma SameIsBisimulation(h: Heap, same: LeafEquals)
    ensures Bisimulation(h, same, Same(h, same))
  {
    var r := Same(h, same);
    forall p | p in r
      ensures Expanded(h, same, r, p.0, p.1)
    {
      SameExpanded(h, same, p.0, p.1);
    }
  }

  lemma SameExpanded(h: Heap, same: LeafEquals, a: Addr, b: Addr)
    requires a in h && b in h && forall n: nat :: Agree(h, same, Ref(a), Ref(b), n)
    ensures Expanded(h, same, Same(h, same), a, b)
  {
    hide Same;
    assert Agree(h, same, Ref(a), Ref(b), 0);
    match (h[a], h[b])
    case (Array(es, _), Array(fs, _)) =>
      forall i | 0 <= i < |es| ensures Matches(same, Same(h, same), es[i], fs[i]) {
        forall n: nat ensures Agree(h, same, es[i], fs[i], n) { assert Agree(h, same, Ref(a), Ref(b), n + 1); }
        AgreeMatches(h, same, es[i], fs[i]);
      }
    case (Map(m, _), Map(o, _)) =>
      forall k | k in m ensures Matches(same, Same(h, same), m[k], Lookup(o, k)) {
        forall n: nat ensures Agree(h, same, m[k], Lookup(o, k), n) { assert Agree(h, same, Ref(a), Ref(b), n + 1); }
        AgreeMatches(h, same, m[k], Lookup(o, k));
      }
  }

  ghost predicate Indistinguishable(h: Heap, same: LeafEquals, x: Obj, y: Obj) {
    forall n: nat :: Agree(h, same, x, y, n)
  }

  /** Two objects are bisimilar exactly when no finite path of indices and keys leads to a difference
      in kind, size, keys or leaves. */
  lemma BisimilarIffIndistinguishable(h: Heap, same: LeafEquals, x: Obj, y: Obj)
    ensures Bisimilar(h, same, x, y) <==> Indistinguishable(h, same, x, y)
  {
    hide Bisimilar, Indistinguishable;
    if Bisimilar(h, same, x, y) { NoPathTells(h, same, x, y); }
    if Indistinguishable(h, same, x, y) { NoPathIsEnough(h, same, x, y); }
  }

  lemma NoPathTells(h: Heap, same: LeafEquals, x: Obj, y: Obj)
    requires Bisimilar(h, same, x, y)
    ensures Indistinguishable(h, same, x, y)
  {
    hide Bisimulation;
    var r :| Bisimulation(h, same, r) && Matches(same, r, x, y);
    forall n: nat ensures Agree(h, same, x, y, n) { BisimilarAgree(h, same, r, x, y, n); }
  }

  lemma NoPathIsEnough(h: Heap, same: LeafEquals, x: Obj, y: Obj)
    requires Indistinguishable(h, same, x, y)
    ensures Bisimilar(h, same, x, y)
  {
    hide Same;
    SameIsBisimulation(h, same);
    AgreeMatches(h, same, x, y);
    BisimilarBy(h, same, Same(h, same), x, y);
  }

  lemma BisimilarBy(h: Heap, same: LeafEquals, r: Relation, x: Obj, y: Obj)
    requires Bisimulation(h, same, r) && Matches(same, r, x, y)
    ensures Bisimilar(h, same, x, y)
  {
  }

  /** A map of the same size that has the keys of another has no others. */
  lemma SubsetOfSameSize(a: set<string>, b: set<string>)
    requires a <= b && |a| == |b|
    ensures a == b
  {
    assert b == a + (b - a);
    assert |b| == |a| + |b - a|;
  }
}
