/** Cycle-safe Equals of arrays and maps (vm/objects.go:327-359, 1413-1445, 1757-1769). */
module Equality {
  import opened Containers

  // ----- why a difference in an element is a difference of the containers -----

  /** Elements of bisimilar arrays are bisimilar, and so are entries of bisimilar maps. */
  lemma ElementTells(h: Heap, same: LeafEquals, a: Addr, b: Addr, i: nat)
    requires a in h && b in h && h[a].Array? && h[b].Array? && |h[a].elems| == |h[b].elems| && i < |h[a].elems|
    ensures Bisimilar(h, same, Ref(a), Ref(b)) ==> Bisimilar(h, same, h[a].elems[i], h[b].elems[i])
  {
    if Bisimilar(h, same, Ref(a), Ref(b)) {
      var r :| Bisimulation(h, same, r) && Matches(same, r, Ref(a), Ref(b));
      var p := (a, b);
      assert p in r && Expanded(h, same, r, p.0, p.1);
      BisimilarBy(h, same, r, h[a].elems[i], h[b].elems[i]);
    }
  }

  lemma EntryTells(h: Heap, same: LeafEquals, a: Addr, b: Addr, k: string)
    requires a in h && b in h && h[a].Map? && h[b].Map? && k in h[a].entries
    ensures Bisimilar(h, same, Ref(a), Ref(b)) ==> Bisimilar(h, same, h[a].entries[k], Lookup(h[b].entries, k))
  {
    if Bisimilar(h, same, Ref(a), Ref(b)) {
      var r :| Bisimulation(h, same, r) && Matches(same, r, Ref(a), Ref(b));
      var p := (a, b);
      assert p in r && Expanded(h, same, r, p.0, p.1);
      BisimilarBy(h, same, r, h[a].entries[k], Lookup(h[b].entries, k));
    }
  }

  /** They have the same kind and size. */
  lemma ShapeTells(h: Heap, same: LeafEquals, a: Addr, b: Addr)
    requires a in h && b in h
    ensures Bisimilar(h, same, Ref(a), Ref(b)) ==>
              && h[a].Array? == h[b].Array?
              && (h[a].Array? ==> |h[a].elems| == |h[b].elems|)
              && (h[a].Map? ==> |h[a].entries| == |h[b].entries|)
  {
    if Bisimilar(h, same, Ref(a), Ref(b)) {
      var r :| Bisimulation(h, same, r) && Matches(same, r, Ref(a), Ref(b));
      var p := (a, b);
      assert p in r && Expanded(h, same, r, p.0, p.1);
    }
  }

  lemma KindTells(h: Heap, same: LeafEquals, x: Obj, y: Obj)
    ensures Bisimilar(h, same, x, y) ==> !x.Nil? && (x.Leaf? ==> same(x.id, y)) && (x.Ref? ==> y.Ref?)
  {
  }

  ghost function Pairs(h: Heap): Relation { set a <- h, b <- h :: (a, b) }

  /** The pairs added to the visited set so far have matching elements, except those still open. */
  ghost predicate Explored(h: Heap, same: LeafEquals, before: Relation, vis: Relation) {
    before <= vis <= Pairs(h) && forall p <- vis :: p in before || Expanded(h, same, vis, p.0, p.1)
  }

  lemma ExploredThrough(h: Heap, same: LeafEquals, a: Relation, b: Relation, c: Relation)
    requires Explored(h, same, a, b) && Explored(h, same, b, c)
    ensures Explored(h, same, a, c)
  {
    forall p | p in c && p !in a
      ensures Expanded(h, same, c, p.0, p.1)
    {
      if p in b { ExpandedMore(h, same, b, c, p.0, p.1); }
    }
  }

  lemma ExploredClose(h: Heap, same: LeafEquals, before: Relation, vis: Relation, a: Addr, b: Addr)
    requires Explored(h, same, before + {(a, b)}, vis) && Expanded(h, same, vis, a, b)
    ensures Explored(h, same, before, vis)
  {
  }

  /** One call of Equals: the visited map is shared by all the recursive calls. */
  class Comparer {
    const h: Heap
    const same: LeafEquals
    var vis: Relation

    constructor (h: Heap, same: LeafEquals)
      ensures this.h == h && this.same == same && vis == {}
    {
      this.h, this.same, vis := h, same, {};
    }

    method EqualsElem(x: Obj, y: Obj) returns (eq: bool)
      requires Closed(h) && InHeap(h, x) && InHeap(h, y) && vis <= Pairs(h) && x != Nil
      modifies this
      ensures old(vis) <= vis <= Pairs(h)
      ensures eq ==> Matches(same, vis, x, y) && Explored(h, same, old(vis), vis)
      ensures !eq ==> !Bisimilar(h, same, x, y)
      decreases Pairs(h) - vis, 2
    {
      hide Bisimilar, Explored, Closed;
      if x.Leaf? {
        eq := same(x.id, y);
        if !eq { KindTells(h, same, x, y); }
        Unchanged(h, same, vis);
      } else if h[x.a].Array? {
        eq := ArrayEquals(x.a, y);
      } else {
        eq := MapEquals(x.a, y);
      }
    }

    method ArrayEquals(a: Addr, y: Obj) returns (eq: bool)
      requires Closed(h) && a in h && h[a].Array? && InHeap(h, y) && vis <= Pairs(h)
      modifies this
      ensures old(vis) <= vis <= Pairs(h)
      ensures eq ==> Matches(same, vis, Ref(a), y) && Explored(h, same, old(vis), vis)
      ensures !eq ==> !Bisimilar(h, same, Ref(a), y)
      decreases Pairs(h) - vis, 1
    {
      hide Bisimilar, Explored, Expanded, Closed;
      if !y.Ref? { KindTells(h, same, Ref(a), y); return false; }
      var b := y.a;
      if !h[b].Array? { ShapeTells(h, same, a, b); return false; }
      if (a, b) in vis { Unchanged(h, same, vis); return true; }
      ghost var before := vis;
      vis := vis + {(a, b)};
      var es, fs := h[a].elems, h[b].elems;
      if |es| != |fs| { ShapeTells(h, same, a, b); return false; }
      Elements(h, a);
      Elements(h, b);
      Unchanged(h, same, vis);
      var i := 0;
      while i < |es|
        invariant i <= |es|
        invariant before + {(a, b)} <= vis <= Pairs(h)
        invariant Explored(h, same, before + {(a, b)}, vis)
        invariant forall j :: 0 <= j < i ==> Matches(same, vis, es[j], fs[j])
      {
        ghost var v := vis;
        eq := EqualsElem(es[i], fs[i]);
        if !eq { ElementTells(h, same, a, b, i); return false; }
        ExploredThrough(h, same, before + {(a, b)}, v, vis);
        forall j | 0 <= j < i ensures Matches(same, vis, es[j], fs[j]) { MatchesMore(same, v, vis, es[j], fs[j]); }
        i := i + 1;
      }
      ArrayExpanded(h, same, vis, a, b);
      ExploredClose(h, same, before, vis, a, b);
      eq := true;
    }

    /** The entries are compared in whatever order the map is ranged over. */
    method MapEquals(a: Addr, y: Obj) returns (eq: bool)
      requires Closed(h) && a in h && h[a].Map? && InHeap(h, y) && vis <= Pairs(h)
      modifies this
      ensures old(vis) <= vis <= Pairs(h)
      ensures eq ==> Matches(same, vis, Ref(a), y) && Explored(h, same, old(vis), vis)
      ensures !eq ==> !Bisimilar(h, same, Ref(a), y)
      decreases Pairs(h) - vis, 1
    {
      hide Bisimilar, Explored, Expanded, Closed;
      if !y.Ref? { KindTells(h, same, Ref(a), y); return false; }
      var b := y.a;
      if !h[b].Map? { ShapeTells(h, same, a, b); return false; }
      if (a, b) in vis { Unchanged(h, same, vis); return true; }
      ghost var before := vis;
      vis := vis + {(a, b)};
      var m, n := h[a].entries, h[b].entries;
      if |m| != |n| { ShapeTells(h, same, a, b); return false; }
      Elements(h, a);
      Elements(h, b);
      Unchanged(h, same, vis);
      var todo := m.Keys;
      while todo != {}
        invariant todo <= m.Keys
        invariant before + {(a, b)} <= vis <= Pairs(h)
        invariant Explored(h, same, before + {(a, b)}, vis)
        invariant forall k <- m :: k in todo || Matches(same, vis, m[k], Lookup(n, k))
        decreases |todo|
      {
        var k :| k in todo;
        ghost var v := vis;
        eq := EqualsElem(m[k], Lookup(n, k));
        if !eq { EntryTells(h, same, a, b, k); return false; }
        ExploredThrough(h, same, before + {(a, b)}, v, vis);
        forall l | l in m && l !in todo ensures Matches(same, vis, m[l], Lookup(n, l)) {
          MatchesMore(same, v, vis, m[l], Lookup(n, l));
        }
        todo := todo - {k};
      }
      MapExpanded(h, same, vis, a, b);
      ExploredClose(h, same, before, vis, a, b);
      eq := true;
    }
  }

  lemma Unchanged(h: Heap, same: LeafEquals, vis: Relation)
    requires vis <= Pairs(h)
    ensures Explored(h, same, vis, vis)
  {
  }

  lemma Elements(h: Heap, a: Addr)
    requires Closed(h) && a in h
    ensures h[a].Array? ==> forall i :: 0 <= i < |h[a].elems| ==> h[a].elems[i] != Nil && InHeap(h, h[a].elems[i])
    ensures h[a].Map? ==> forall k <- h[a].entries :: h[a].entries[k] != Nil && InHeap(h, h[a].entries[k])
  {
    assert ElemsIn(h, h[a]);
  }

  lemma ArrayExpanded(h: Heap, same: LeafEquals, vis: Relation, a: Addr, b: Addr)
    requires a in h && b in h && h[a].Array? && h[b].Array? && |h[a].elems| == |h[b].elems|
    requires forall i :: 0 <= i < |h[a].elems| ==> Matches(same, vis, h[a].elems[i], h[b].elems[i])
    ensures Expanded(h, same, vis, a, b)
  {
  }

  lemma MapExpanded(h: Heap, same: LeafEquals, vis: Relation, a: Addr, b: Addr)
    requires a in h && b in h && h[a].Map? && h[b].Map? && |h[a].entries| == |h[b].entries|
    requires forall k <- h[a].entries :: Matches(same, vis, h[a].entries[k], Lookup(h[b].entries, k))
    ensures Expanded(h, same, vis, a, b)
  {
  }

  /** Equals terminates and answers whether the two graphs are bisimilar, whatever order maps are
      ranged over in. */
  method Equals(h: Heap, same: LeafEquals, x: Obj, y: Obj) returns (eq: bool)
    requires Closed(h) && InHeap(h, x) && InHeap(h, y) && x != Nil
    ensures eq <==> Bisimilar(h, same, x, y)
  {
    hide Bisimilar, Expanded, Closed;
    var c := new Comparer(h, same);
    eq := c.EqualsElem(x, y);
    if eq {
      assert Bisimulation(h, same, c.vis);
      BisimilarBy(h, same, c.vis, x, y);
    }
  }
}
