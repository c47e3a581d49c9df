/** Copy of arrays and maps, cycles and sharing included (vm/objects.go:296-316, 1376-1402, 1773-1783). */
module Copying {
  import opened Wrappers
  import opened Containers

  type Memo = map<Addr, Addr>

  predicate Known(m: Memo, x: Obj) { x.Ref? ==> x.a in m }

  function ImageObj(m: Memo, x: Obj): Obj {
    match x
    case Ref(a) => Ref(if a in m then m[a] else a)
    case _ => x
  }

  function ImageSeq(m: Memo, es: seq<Obj>): (r: seq<Obj>)
    ensures |r| == |es|
  {
    seq(|es|, i requires 0 <= i < |es| => ImageObj(m, es[i]))
  }

  function ImageMap(m: Memo, es: map<string, Obj>): map<string, Obj> { map k <- es :: ImageObj(m, es[k]) }

  /** The copy is never frozen. */
  function Image(m: Memo, c: Container): Container {
    match c
    case Array(es, _) => Array(ImageSeq(m, es), false)
    case Map(es, _) => Map(ImageMap(m, es), false)
  }

  predicate Covers(m: Memo, c: Container) {
    match c
    case Array(es, _) => forall i :: 0 <= i < |es| ==> Known(m, es[i])
    case Map(es, _) => forall k <- es :: Known(m, es[k])
  }

  predicate Injective(m: Memo) { forall a <- m, b <- m :: m[a] == m[b] ==> a == b }

  /** The copies registered so far are new containers, one for each original. */
  ghost predicate Fresh(before: Heap, h: Heap, m: Memo) {
    Injective(m) && forall a <- m :: a in before && m[a] in h && m[a] !in before
  }

  /** The copies whose elements have all been filled in: all but those still being worked on. */
  ghost predicate Filled(before: Heap, h: Heap, m: Memo, open: set<Addr>) {
    forall a <- m :: a in open || Complete(before, h, m, a)
  }

  ghost predicate Complete(before: Heap, h: Heap, m: Memo, a: Addr) {
    a in m && a in before && m[a] in h && h[m[a]] == Image(m, before[a]) && Covers(m, before[a])
  }

  ghost predicate Unchanged(before: Heap, h: Heap) { forall a <- before :: a in h && h[a] == before[a] }

  /** x and its copy y: every container that can be reached has exactly one copy. */
  ghost predicate GraphCopy(before: Heap, x: Obj, h: Heap, y: Obj) {
    exists m: Memo :: Fresh(before, h, m) && Filled(before, h, m, {}) && Known(m, x) && y == ImageObj(m, x)
  }

  // ----- small steps of the proof -----

  ghost predicate Extends(m: Memo, m': Memo) { forall a <- m :: a in m' && m'[a] == m[a] }

  lemma ImageMore(m: Memo, m': Memo, c: Container)
    requires Covers(m, c) && Extends(m, m')
    ensures Image(m', c) == Image(m, c) && Covers(m', c)
  {
    match c
    case Array(es, _) =>
      forall i | 0 <= i < |es| ensures ImageObj(m', es[i]) == ImageObj(m, es[i]) && Known(m', es[i]) {
        assert Known(m, es[i]);
      }
    case Map(es, _) =>
      forall k | k in es ensures ImageObj(m', es[k]) == ImageObj(m, es[k]) && Known(m', es[k]) {
        assert Known(m, es[k]);
      }
  }

  lemma FilledMore(before: Heap, h: Heap, m: Memo, open: set<Addr>, m': Memo, h': Heap, a: Addr, c: Addr)
    requires Fresh(before, h, m) && Filled(before, h, m, open)
    requires a in before && a !in m && c !in h && m' == m[a := c] && Unchanged(before, h)
    requires h'.Keys == h.Keys + {c} && forall d <- h :: h'[d] == h[d]
    ensures Fresh(before, h', m') && Filled(before, h', m', open + {a}) && Unchanged(before, h')
  {
    forall b | b in m' && b !in open + {a} ensures Complete(before, h', m', b) {
      assert Complete(before, h, m, b);
      ImageMore(m, m', before[b]);
    }
  }

  /** Writing to the copy of a, which is being worked on, touches no other copy and no original. */
  lemma WriteOpen(before: Heap, h: Heap, m: Memo, open: set<Addr>, a: Addr, v: Container)
    requires Fresh(before, h, m) && Filled(before, h, m, open) && Unchanged(before, h) && a in m && a in open
    ensures var h' := h[m[a] := v];
            Fresh(before, h', m) && Filled(before, h', m, open) && Unchanged(before, h')
  {
    var h' := h[m[a] := v];
    forall b | b in m && b !in open ensures Complete(before, h', m, b) {
      assert Complete(before, h, m, b);
    }
  }

  lemma CloseOne(before: Heap, h: Heap, m: Memo, open: set<Addr>, a: Addr)
    requires Filled(before, h, m, open + {a}) && Complete(before, h, m, a)
    ensures Filled(before, h, m, open)
  {
  }

  lemma ArrayComplete(before: Heap, h: Heap, m: Memo, a: Addr)
    requires a in m && a in before && m[a] in h && before[a].Array?
    requires forall i :: 0 <= i < |before[a].elems| ==> Known(m, before[a].elems[i])
    requires h[m[a]] == Array(ImageSeq(m, before[a].elems), false)
    ensures Complete(before, h, m, a)
  {
  }

  lemma MapComplete(before: Heap, h: Heap, m: Memo, a: Addr)
    requires a in m && a in before && m[a] in h && before[a].Map?
    requires forall k <- before[a].entries :: Known(m, before[a].entries[k])
    requires h[m[a]] == Map(ImageMap(m, before[a].entries), false)
    ensures Complete(before, h, m, a)
  {
  }

  lemma KnownMore(m: Memo, m': Memo, x: Obj)
    requires Known(m, x) && Extends(m, m')
    ensures Known(m', x) && ImageObj(m', x) == ImageObj(m, x)
  {
  }

  lemma ImageSeqMore(m: Memo, m': Memo, es: seq<Obj>, i: nat)
    requires i <= |es| && Extends(m, m') && forall j :: 0 <= j < i ==> Known(m, es[j])
    ensures ImageSeq(m', es[..i]) == ImageSeq(m, es[..i]) && forall j :: 0 <= j < i ==> Known(m', es[j])
  {
    forall j | 0 <= j < i ensures Known(m', es[j]) && ImageObj(m', es[j]) == ImageObj(m, es[j]) {
      KnownMore(m, m', es[j]);
    }
  }

  lemma ImageSeqNext(m: Memo, es: seq<Obj>, i: nat)
    requires i < |es|
    ensures ImageSeq(m, es[..i + 1]) == ImageSeq(m, es[..i]) + [ImageObj(m, es[i])]
  {
  }

  /** The entries of m for the keys done. */
  function Part(m: Memo, es: map<string, Obj>, done: set<string>): map<string, Obj>
    requires done <= es.Keys
  {
    map k <- done :: ImageObj(m, es[k])
  }

  lemma PartMore(m: Memo, m': Memo, es: map<string, Obj>, done: set<string>)
    requires done <= es.Keys && Extends(m, m') && forall k <- done :: Known(m, es[k])
    ensures Part(m', es, done) == Part(m, es, done) && forall k <- done :: Known(m', es[k])
  {
    forall k | k in done ensures Known(m', es[k]) && ImageObj(m', es[k]) == ImageObj(m, es[k]) {
      KnownMore(m, m', es[k]);
    }
  }

  lemma ExtendsThrough(a: Memo, b: Memo, c: Memo)
    requires Extends(a, b) && Extends(b, c)
    ensures Extends(a, c) && a.Keys <= c.Keys
  {
  }

  // ----- the algorithm -----

  class Copier {
    var h: Heap
    var next: Addr
    var memo: Memo
    ghost const before: Heap

    ghost predicate Valid(open: set<Addr>)
      reads this
    {
      && Unchanged(before, h) && Fresh(before, h, memo) && Filled(before, h, memo, open)
      && (forall a <- h :: a < next) && Closed(before)
    }

    constructor (h: Heap, next: Addr)
      requires Closed(h) && forall a <- h :: a < next
      ensures Valid({}) && before == h && memo == map[]
    {
      this.h, this.next, memo, before := h, next, map[], h;
    }

    /** Nothing that existed has changed, except that copies may have been added. */
    twostate predicate OnlyAdds()
      reads this
    {
      Extends(old(memo), memo) && forall a <- old(h) :: a in h && h[a] == old(h)[a]
    }

    /** A new container, registered as the copy of a before its elements are copied. */
    method Register(a: Addr, v: Container, ghost open: set<Addr>) returns (c: Addr)
      requires Valid(open) && a in before && a !in memo
      modifies this
      ensures Valid(open + {a}) && OnlyAdds() && memo == old(memo)[a := c] && h == old(h)[c := v] && c !in old(h)
    {
      c := next;
      FilledMore(before, h, memo, open, memo[a := c], h[c := v], a, c);
      h := h[c := v];
      memo := memo[a := c];
      next := next + 1;
    }

    method Write(c: Addr, v: Container, ghost a: Addr, ghost open: set<Addr>)
      requires Valid(open) && a in memo && memo[a] == c && a in open
      modifies this`h
      ensures Valid(open) && h == old(h)[c := v]
    {
      WriteOpen(before, h, memo, open, a, v);
      h := h[c := v];
    }

    method CopyElem(x: Obj, ghost open: set<Addr>) returns (y: Obj)
      requires Valid(open) && InHeap(before, x)
      modifies this
      ensures Valid(open) && OnlyAdds() && Known(memo, x) && y == ImageObj(memo, x)
      decreases before.Keys - memo.Keys, 2
    {
      hide Unchanged, Fresh, Filled, Closed;
      if !x.Ref? { return x; }
      if x.a in memo { return Ref(memo[x.a]); }
      var v := Load(x.a, open);
      if v.Array? {
        y := CopyArray(x.a, open);
      } else {
        y := CopyMap(x.a, open);
      }
    }

    method Load(a: Addr, ghost open: set<Addr>) returns (v: Container)
      requires Valid(open) && a in before
      ensures v == before[a] && ElemsIn(before, v)
    {
      v := h[a];
    }

    method CopyArray(a: Addr, ghost open: set<Addr>) returns (y: Obj)
      requires Valid(open) && a in before && before[a].Array? && a !in memo
      modifies this
      ensures Valid(open) && OnlyAdds() && a in memo && y == Ref(memo[a])
      decreases before.Keys - memo.Keys, 1
    {
      hide Unchanged, Fresh, Filled, Closed, ImageSeq, Extends;
      var v := Load(a, open);
      var snap := v.elems;
      var n := |snap|;
      var c := Register(a, Array(seq(n, _ => Nil), false), open);
      ghost var m0 := memo;
      Registered(old(memo), a, c);
      NoElements(memo, snap);
      for i := 0 to n
        invariant Valid(open + {a}) && Extends(m0, memo) && m0.Keys <= memo.Keys
                  && (forall d <- old(h) :: d in h && h[d] == old(h)[d])
        invariant forall j :: 0 <= j < i ==> Known(memo, snap[j])
        invariant c in h && h[c].Array? && !h[c].frozen && |h[c].elems| == n
                  && h[c].elems[..i] == ImageSeq(memo, snap[..i])
      {
        ghost var m1 := memo;
        ExtendsKeeps(m0, memo, a);
        var e := CopyElem(snap[i], open + {a});
        ImageSeqMore(m1, memo, snap, i);
        ImageSeqNext(memo, snap, i);
        ExtendsThrough(m0, m1, memo);
        ExtendsKeeps(m0, memo, a);
        Write(c, Array(h[c].elems[i := e], false), a, open + {a});
        assert h[c].elems[..i + 1] == h[c].elems[..i] + [e];
      }
      assert snap[..n] == snap && h[c].elems[..n] == h[c].elems;
      ExtendsKeeps(m0, memo, a);
      ArrayComplete(before, h, memo, a);
      CloseOne(before, h, memo, open, a);
      ExtendsThrough(old(memo), m0, memo);
      ExtendsKeeps(m0, memo, a);
      y := Ref(c);
    }

    /** One entry of the map at a, whose copy c has the entries in done. */
    method CopyEntry(a: Addr, c: Addr, k: string, x: Obj, ghost done: set<string>, ghost open: set<Addr>)
      requires Valid(open) && a in open && a in memo && memo[a] == c && a in before && before[a].Map?
      requires k in before[a].entries && before[a].entries[k] == x && InHeap(before, x)
               && done <= before[a].entries.Keys
      requires forall l <- done :: Known(memo, before[a].entries[l])
      requires c in h && h[c] == Map(Part(memo, before[a].entries, done), false)
      modifies this
      ensures Valid(open) && Extends(old(memo), memo) && forall d <- old(h) :: d in h && (d == c || h[d] == old(h)[d])
      ensures forall l <- done + {k} :: Known(memo, before[a].entries[l])
      ensures c in h && h[c] == Map(Part(memo, before[a].entries, done + {k}), false)
      decreases before.Keys - memo.Keys, 3
    {
      hide Unchanged, Fresh, Filled, Closed, Part, Extends;
      ghost var es := before[a].entries;
      ghost var m1 := memo;
      var y := CopyElem(x, open);
      ExtendsKeeps(m1, memo, a);
      PartMore(m1, memo, es, done);
      PartNext(memo, es, done, k);
      Write(c, Map(h[c].entries[k := y], false), a, open);
    }

    /** The entries are copied in whatever order the map is ranged over. */
    method CopyMap(a: Addr, ghost open: set<Addr>) returns (y: Obj)
      requires Valid(open) && a in before && before[a].Map? && a !in memo
      modifies this
      ensures Valid(open) && OnlyAdds() && a in memo && y == Ref(memo[a])
      decreases before.Keys - memo.Keys, 1
    {
      hide Unchanged, Fresh, Filled, Closed, Part, Extends;
      var v := Load(a, open);
      var snap := v.entries;
      var c := Register(a, Map(map[], false), open);
      ghost var m0 := memo;
      Registered(old(memo), a, c);
      NoEntries(memo, snap);
      var todo := snap.Keys;
      ghost var done: set<string> := {};
      while todo != {}
        invariant todo + done == snap.Keys && todo !! done
        invariant Valid(open + {a}) && Extends(m0, memo) && (forall d <- old(h) :: d in h && h[d] == old(h)[d])
        invariant forall k <- done :: Known(memo, snap[k])
        invariant c in h && h[c] == Map(Part(memo, snap, done), false)
        decreases |todo|
      {
        var k :| k in todo;
        ghost var m1 := memo;
        ExtendsKeeps(m0, memo, a);
        ExtendsThrough(m0, m0, memo);
        CopyEntry(a, c, k, snap[k], done, open + {a});
        ExtendsThrough(m0, m1, memo);
        todo, done := todo - {k}, done + {k};
      }
      WholePart(memo, snap);
      ExtendsKeeps(m0, memo, a);
      MapComplete(before, h, memo, a);
      CloseOne(before, h, memo, open, a);
      ExtendsThrough(old(memo), m0, memo);
      y := Ref(c);
    }
  }

  lemma Registered(m: Memo, a: Addr, c: Addr)
    requires a !in m
    ensures Extends(m, m[a := c]) && Extends(m[a := c], m[a := c])
  {
  }

  lemma ExtendsKeeps(m: Memo, m': Memo, a: Addr)
    requires Extends(m, m') && a in m
    ensures a in m' && m'[a] == m[a]
  {
  }

  lemma NoElements(m: Memo, es: seq<Obj>)
    ensures ImageSeq(m, es[..0]) == []
  {
  }

  lemma NoEntries(m: Memo, es: map<string, Obj>)
    ensures Part(m, es, {}) == map[]
  {
  }

  lemma PartNext(m: Memo, es: map<string, Obj>, done: set<string>, k: string)
    requires done <= es.Keys && k in es
    ensures Part(m, es, done + {k}) == Part(m, es, done)[k := ImageObj(m, es[k])]
  {
  }

  lemma WholePart(m: Memo, es: map<string, Obj>)
    ensures Part(m, es, es.Keys) == ImageMap(m, es)
  {
  }

  /** Copy terminates and leaves the original as it was. */
  method Copy(h: Heap, next: Addr, x: Obj) returns (h': Heap, y: Obj)
    requires Closed(h) && InHeap(h, x) && forall a <- h :: a < next
    ensures Unchanged(h, h') && GraphCopy(h, x, h', y)
  {
    hide Unchanged, Fresh, Filled, Closed;
    var c := new Copier(h, next);
    y := c.CopyElem(x, {});
    h' := c.h;
  }

  // ----- what a copy is worth -----

  /** Every leaf accepts itself. */
  ghost predicate Reflexive(same: LeafEquals) { forall id :: same(id, Leaf(id)) }

  lemma CopyMatches(before: Heap, h: Heap, same: LeafEquals, m: Memo, r: Relation, x: Obj)
    requires Reflexive(same) && Known(m, x) && x != Nil && r == (set a <- m :: (a, m[a]))
    ensures Matches(same, r, x, ImageObj(m, x))
  {
    if x.Ref? { assert (x.a, m[x.a]) in r; }
  }

  lemma CopyExpanded(before: Heap, h: Heap, same: LeafEquals, m: Memo, r: Relation, a: Addr)
    requires Closed(before) && Unchanged(before, h) && Reflexive(same) && Complete(before, h, m, a)
    requires r == (set b <- m :: (b, m[b]))
    ensures Expanded(h, same, r, a, m[a])
  {
    assert ElemsIn(before, before[a]);
    match before[a]
    case Array(es, _) =>
      forall i | 0 <= i < |es| ensures Matches(same, r, es[i], ImageSeq(m, es)[i]) {
        CopyMatches(before, h, same, m, r, es[i]);
      }
    case Map(es, _) =>
      assert ImageMap(m, es).Keys == es.Keys;
      MapSizes(es, ImageMap(m, es));
      forall k | k in es ensures Matches(same, r, es[k], Lookup(ImageMap(m, es), k)) {
        CopyMatches(before, h, same, m, r, es[k]);
      }
  }

  lemma MapSizes(a: map<string, Obj>, b: map<string, Obj>)
    requires a.Keys == b.Keys
    ensures |a| == |b|
  {
    assert |a| == |a.Keys| && |b| == |b.Keys|;
  }

  /** The copy cannot be told from the original: if leaves equal themselves, Equals holds between
      them, however the graph is shared and however it is cyclic. */
  lemma CopyIsEqual(before: Heap, x: Obj, h: Heap, y: Obj, same: LeafEquals)
    requires Closed(before) && Unchanged(before, h) && GraphCopy(before, x, h, y) && x != Nil && Reflexive(same)
    ensures Bisimilar(h, same, x, y)
  {
    hide Closed, Unchanged, Expanded, Complete;
    var m: Memo :| Fresh(before, h, m) && Filled(before, h, m, {}) && Known(m, x) && y == ImageObj(m, x);
    var r: Relation := set a <- m :: (a, m[a]);
    forall p | p in r ensures Expanded(h, same, r, p.0, p.1) { CopyExpanded(before, h, same, m, r, p.0); }
    CopyMatches(before, h, same, m, r, x);
    BisimilarBy(h, same, r, x, y);
  }

  /** What can be reached in n steps. */
  ghost predicate Reaches(h: Heap, x: Obj, a: Addr, n: nat)
    decreases n
  {
    x == Ref(a) || (n > 0 && exists b :: b in h && Holds(h[b], a) && Reaches(h, x, b, n - 1))
  }

  predicate Holds(c: Container, a: Addr) {
    match c
    case Array(es, _) => Ref(a) in es
    case Map(es, _) => Ref(a) in es.Values
  }

  /** The copy is made of new, unfrozen containers only. */
  lemma {:induction false} CopyIsNew(before: Heap, x: Obj, h: Heap, y: Obj, a: Addr, n: nat)
    requires GraphCopy(before, x, h, y) && Reaches(h, y, a, n)
    ensures a !in before && a in h && !h[a].frozen
  {
    hide Reaches;
    var m: Memo :| Fresh(before, h, m) && Filled(before, h, m, {}) && Known(m, x) && y == ImageObj(m, x);
    var b := ReachedIsCopy(before, x, h, m, a, n);
    assert Complete(before, h, m, b);
  }

  lemma {:induction false} ReachedIsCopy(before: Heap, x: Obj, h: Heap, m: Memo, a: Addr, n: nat) returns (b: Addr)
    requires Fresh(before, h, m) && Filled(before, h, m, {}) && Known(m, x) && Reaches(h, ImageObj(m, x), a, n)
    ensures b in m && m[b] == a
    decreases n
  {
    if ImageObj(m, x) == Ref(a) {
      b := x.a;
    } else {
      var c :| c in h && Holds(h[c], a) && Reaches(h, ImageObj(m, x), c, n - 1);
      var d := ReachedIsCopy(before, x, h, m, c, n - 1);
      assert Complete(before, h, m, d);
      b := HeldFrom(before[d], m, a);
    }
  }

  lemma HeldFrom(c: Container, m: Memo, a: Addr) returns (b: Addr)
    requires Covers(m, c) && Holds(Image(m, c), a)
    ensures b in m && m[b] == a
  {
    match c
    case Array(es, _) =>
      var i :| 0 <= i < |es| && ImageSeq(m, es)[i] == Ref(a);
      assert Known(m, es[i]);
      b := es[i].a;
    case Map(es, _) =>
      var k :| k in es && ImageMap(m, es)[k] == Ref(a);
      assert Known(m, es[k]);
      b := es[k].a;
  }

  // ----- sharing -----

  datatype Selector = Index(i: nat) | Key(k: string)

  /** What a path of indices and keys leads to. */
  function Follow(h: Heap, x: Obj, path: seq<Selector>): Option<Obj>
    decreases |path|
  {
    if path == [] then Some(x)
    else if !x.Ref? || x.a !in h then None
    else
      match (h[x.a], path[0])
      case (Array(es, _), Index(i)) => if i < |es| then Follow(h, es[i], path[1..]) else None
      case (Map(es, _), Key(k)) => if k in es then Follow(h, es[k], path[1..]) else None
      case _ => None
  }

  /** Both paths lead to one and the same container. */
  predicate Meet(h: Heap, x: Obj, p: seq<Selector>, q: seq<Selector>) {
    Follow(h, x, p).Some? && Follow(h, x, p).value.Ref? && Follow(h, x, p) == Follow(h, x, q)
  }

  /** A path leads in the copy to the copy of what it leads to in the original. */
  lemma {:induction false} FollowCopy(before: Heap, h: Heap, m: Memo, x: Obj, path: seq<Selector>)
    requires Filled(before, h, m, {}) && Known(m, x)
    ensures Follow(h, ImageObj(m, x), path)
            == match Follow(before, x, path)
               case None => None
               case Some(o) => Some(ImageObj(m, o))
    ensures Follow(before, x, path).Some? ==> Known(m, Follow(before, x, path).value)
    decreases |path|
  {
    if path != [] && x.Ref? {
      assert Complete(before, h, m, x.a);
      match (before[x.a], path[0])
      case (Array(es, _), Index(i)) =>
        if i < |es| { FollowCopy(before, h, m, es[i], path[1..]); }
      case (Map(es, _), Key(k)) =>
        if k in es { FollowCopy(before, h, m, es[k], path[1..]); }
      case _ =>
    }
  }

  /** The copy has exactly the sharing of the original, cycles included: two paths from the copy meet in
      one container if and only if they do from the original. */
  lemma CopySharing(before: Heap, x: Obj, h: Heap, y: Obj, p: seq<Selector>, q: seq<Selector>)
    requires GraphCopy(before, x, h, y)
    ensures Meet(h, y, p, q) <==> Meet(before, x, p, q)
  {
    hide Follow, Filled;
    var m: Memo :| Fresh(before, h, m) && Filled(before, h, m, {}) && Known(m, x) && y == ImageObj(m, x);
    FollowCopy(before, h, m, x, p);
    FollowCopy(before, h, m, x, q);
  }
}
