/** The JSON encoder: what it writes for a heap of arrays and maps, that it refuses exactly the cyclic
    and the unsupported values, and that what it writes is decoded to the value it was given
    (std/json/encode.go:137-188, 266-346). */
module JsonEncode {
  import opened Wrappers
  import C = Containers
  import opened JsonGrammar
  import opened JsonNumbers
  import opened JsonDecoder
  import opened JsonQuote

  /** What a leaf object is. Unsupported are the types the encoder reports as such. */
  datatype Scalar = Undefined | Bool(b: bool) | Int(n: int64) | String(s: Text) | Unsupported

  type Scalars = int -> Scalar

  // ----- the value of an object -----

  function Got(o: Option<Decoded>): Decoded { if o.Some? then o.value else DUndefined }

  function ScalarValue(s: Scalar): Option<Decoded> {
    match s
    case Undefined => Some(DUndefined)
    case Bool(b) => Some(DBool(b))
    case Int(n) => Some(DInt(n))
    case String(t) => Some(DString(t))
    case Unsupported => None
  }

  /** x as a tree of at most n levels of arrays and maps. */
  ghost function Unfold(h: C.Heap, kinds: Scalars, x: C.Obj, n: nat): Option<Decoded>
    decreases n
  {
    match x
    case Nil => None
    case Leaf(id) => ScalarValue(kinds(id))
    case Ref(a) =>
      if n == 0 || a !in h then None
      else
        match h[a]
        case Array(es, _) =>
          if forall i :: 0 <= i < |es| ==> Unfold(h, kinds, es[i], n - 1).Some?
          then Some(DArray(seq(|es|, i requires 0 <= i < |es| => Got(Unfold(h, kinds, es[i], n - 1)))))
          else None
        case Map(m, _) =>
          if forall k <- m :: Unfold(h, kinds, m[k], n - 1).Some?
          then Some(DMap(map k | k in m :: Got(Unfold(h, kinds, m[k], n - 1))))
          else None
  }

  lemma {:induction false} UnfoldMore(h: C.Heap, kinds: Scalars, x: C.Obj, n: nat, n': nat)
    requires n <= n' && Unfold(h, kinds, x, n).Some?
    ensures Unfold(h, kinds, x, n') == Unfold(h, kinds, x, n)
    decreases n
  {
    if x.Ref? {
      match h[x.a]
      case Array(es, _) =>
        forall i | 0 <= i < |es| ensures Unfold(h, kinds, es[i], n' - 1) == Unfold(h, kinds, es[i], n - 1) {
          UnfoldMore(h, kinds, es[i], n - 1, n' - 1);
        }
        assert Unfold(h, kinds, x, n').value.elems == Unfold(h, kinds, x, n).value.elems;
      case Map(m, _) =>
        forall k | k in m ensures Unfold(h, kinds, m[k], n' - 1) == Unfold(h, kinds, m[k], n - 1) {
          UnfoldMore(h, kinds, m[k], n - 1, n' - 1);
        }
        assert Unfold(h, kinds, x, n').value.entries == Unfold(h, kinds, x, n).value.entries;
    }
  }

  /** One level of an array or map. */
  lemma Level(h: C.Heap, kinds: Scalars, a: C.Addr, m: nat, n: nat)
    requires Unfold(h, kinds, C.Ref(a), m).Some?
    ensures m > 0 && a in h
    ensures var v := Unfold(h, kinds, C.Ref(a), m).value;
            && (h[a].Array? ==>
                  && v.DArray? && |v.elems| == |h[a].elems|
                  && (forall i :: 0 <= i < |v.elems| ==> Unfold(h, kinds, h[a].elems[i], m - 1) == Some(v.elems[i]))
                  && (Unfold(h, kinds, C.Ref(a), n).Some?
                      <==> n > 0 && forall i :: 0 <= i < |v.elems| ==> Unfold(h, kinds, h[a].elems[i], n - 1).Some?))
            && (h[a].Map? ==>
                  && v.DMap? && v.entries.Keys == h[a].entries.Keys
                  && (forall k <- v.entries :: Unfold(h, kinds, h[a].entries[k], m - 1) == Some(v.entries[k]))
                  && (Unfold(h, kinds, C.Ref(a), n).Some?
                      <==> n > 0 && forall k <- v.entries :: Unfold(h, kinds, h[a].entries[k], n - 1).Some?))
  {
  }

  // ----- the text of a value -----

  /** No floats, and integers of 64 bits. */
  ghost predicate Exact(v: Decoded) {
    match v
    case DInt(n) => Int64(n)
    case DFloat(_) => false
    case DArray(es) => forall i :: 0 <= i < |es| ==> Exact(es[i])
    case DMap(m) => forall k <- m :: Exact(m[k])
    case _ => true
  }

  /** Bytewise order, as in sort.Strings. */
  predicate Leq(a: Text, b: Text) {
    if a == [] then true
    else if b == [] then false
    else a[0] < b[0] || (a[0] == b[0] && Leq(a[1..], b[1..]))
  }

  lemma {:induction false} LeqTotal(a: Text, b: Text)
    ensures Leq(a, b) || Leq(b, a)
    ensures Leq(a, b) && Leq(b, a) ==> a == b
    decreases |a|
  {
    if a != [] && b != [] {
      LeqTotal(a[1..], b[1..]);
      assert a == [a[0]] + a[1..] && b == [b[0]] + b[1..];
    }
  }

  lemma {:induction false} LeqTransitive(a: Text, b: Text, c: Text)
    requires Leq(a, b) && Leq(b, c)
    ensures Leq(a, c)
    decreases |a|
  {
    if a != [] && a[0] == b[0] == c[0] { LeqTransitive(a[1..], b[1..], c[1..]); }
  }

  ghost predicate IsLeast(ks: set<Text>, k: Text) { k in ks && forall l <- ks :: Leq(k, l) }

  lemma {:induction false} HasLeast(ks: set<Text>) returns (k: Text)
    requires ks != {}
    ensures IsLeast(ks, k)
    decreases |ks|
  {
    hide Leq;
    k :| k in ks;
    var rest := ks - {k};
    if rest == {} {
      LeqTotal(k, k);
      assert ks == {k};
    } else {
      var l := HasLeast(rest);
      LeqTotal(k, l);
      LeqTotal(k, k);
      forall j | j in ks ensures Leq(k, l) ==> Leq(k, j) {
        if j != k && Leq(k, l) { LeqTransitive(k, l, j); }
      }
      if !Leq(k, l) { k := l; }
    }
  }

  lemma LeastExists(ks: set<Text>)
    requires ks != {}
    ensures exists k :: IsLeast(ks, k)
  {
    var k := HasLeast(ks);
  }

  lemma LeastUnique(ks: set<Text>, k: Text, l: Text)
    requires IsLeast(ks, k) && IsLeast(ks, l)
    ensures k == l
  {
    hide Leq;
    LeqTotal(k, l);
  }

  /** The keys in order. */
  ghost function Sorted(ks: set<Text>): (s: seq<Text>)
    ensures |s| == |ks| && forall k :: k in s <==> k in ks
    decreases |ks|
  {
    if ks == {} then []
    else
      LeastExists(ks);
      var k :| IsLeast(ks, k);
      [k] + Sorted(ks - {k})
  }

  lemma SortedHead(ks: set<Text>)
    requires ks != {}
    ensures Sorted(ks) != [] && IsLeast(ks, Sorted(ks)[0])
            && Sorted(ks) == [Sorted(ks)[0]] + Sorted(ks - {Sorted(ks)[0]})
  {
    hide Leq;
  }

  lemma SortedBy(ks: set<Text>, k: Text)
    requires IsLeast(ks, k)
    ensures Sorted(ks) == [k] + Sorted(ks - {k})
  {
    hide Leq, Sorted;
    SortedHead(ks);
    LeastUnique(ks, k, Sorted(ks)[0]);
  }

  /** The tree, in the sense of the grammar, that is written for v. */
  ghost function TreeOf(v: Decoded): Value
    requires Exact(v)
    decreases v, 1
  {
    match v
    case DBool(b) => if b then True else False
    case DInt(n) => Number(n < 0, Decimal(if n < 0 then -n else n), None, None)
    case DString(s) => Str(Units(s))
    case DArray(es) => if es == [] then EmptyArray([]) else Array(ElemsTree(v, 0))
    case DMap(m) => if m == map[] then EmptyObject([]) else Object(MembersTree(v, Sorted(m.Keys)))
    case _ => Null
  }

  ghost function ElemsTree(v: Decoded, i: nat): Elems
    requires Exact(v) && v.DArray? && i < |v.elems|
    decreases v, 0, |v.elems| - i
  {
    var e := Elem([], TreeOf(v.elems[i]), []);
    if i + 1 == |v.elems| then LastElem(e) else MoreElems(e, ElemsTree(v, i + 1))
  }

  ghost function MembersTree(v: Decoded, keys: seq<Text>): Members
    requires Exact(v) && v.DMap? && keys != [] && forall k <- keys :: k in v.entries
    decreases v, 0, |keys|
  {
    var m := Member([], Units(keys[0]), [], Elem([], TreeOf(v.entries[keys[0]]), []));
    if |keys| == 1 then LastMember(m) else MoreMembers(m, MembersTree(v, keys[1..]))
  }

  /** What the encoder writes for v. */
  ghost function TextOf(v: Decoded): Text
    requires Exact(v)
  {
    ValueText(TreeOf(v))
  }

  // ----- texts joined by commas -----

  function Joined(ts: seq<Text>): Text {
    if ts == [] then [] else if |ts| == 1 then ts[0] else ts[0] + ([','] + Joined(ts[1..]))
  }

  lemma {:induction false} JoinedMore(ts: seq<Text>, t: Text)
    ensures Joined(ts + [t]) == if ts == [] then t else Joined(ts) + ([','] + t)
    decreases |ts|
  {
    var us := ts + [t];
    if |ts| == 1 {
      assert us[1..] == [t];
    } else if |ts| > 1 {
      JoinedMore(ts[1..], t);
      assert us[1..] == ts[1..] + [t];
      assert ts[0] + ([','] + (Joined(ts[1..]) + ([','] + t))) == (ts[0] + ([','] + Joined(ts[1..]))) + ([','] + t);
    }
  }

  ghost function ElemItems(v: Decoded, i: nat): (ts: seq<Text>)
    requires Exact(v) && v.DArray? && i <= |v.elems|
    ensures |ts| == |v.elems| - i
    decreases |v.elems| - i
  {
    if i == |v.elems| then [] else [TextOf(v.elems[i])] + ElemItems(v, i + 1)
  }

  lemma {:induction false} ElemsJoined(v: Decoded, i: nat)
    requires Exact(v) && v.DArray? && i < |v.elems|
    ensures ElemsText(ElemsTree(v, i)) == Joined(ElemItems(v, i)) + "]"
    decreases |v.elems| - i
  {
    hide ValueText, TreeOf, Exact;
    ExactElem(v, i);
    var e := Elem([], TreeOf(v.elems[i]), []);
    var t := TextOf(v.elems[i]);
    assert ElemText(e) == t;
    if i + 1 == |v.elems| {
      assert ElemItems(v, i) == [t];
    } else {
      ElemsJoined(v, i + 1);
      assert ElemItems(v, i)[1..] == ElemItems(v, i + 1);
      assert t + ([','] + (Joined(ElemItems(v, i + 1)) + "]")) == (t + ([','] + Joined(ElemItems(v, i + 1)))) + "]";
    }
  }

  lemma ExactElem(v: Decoded, i: nat)
    requires Exact(v) && v.DArray? && i < |v.elems|
    ensures Exact(v.elems[i])
  {
  }

  ghost function Entry(k: Text, v: Decoded): Text
    requires Exact(v)
  {
    ValueText(Str(Units(k))) + (":" + TextOf(v))
  }

  ghost function MemberItems(v: Decoded, keys: seq<Text>): (ts: seq<Text>)
    requires Exact(v) && v.DMap? && forall k <- keys :: k in v.entries
    ensures |ts| == |keys|
    decreases |keys|
  {
    if keys == [] then [] else [Entry(keys[0], v.entries[keys[0]])] + MemberItems(v, keys[1..])
  }

  lemma {:induction false} MembersJoined(v: Decoded, keys: seq<Text>)
    requires Exact(v) && v.DMap? && keys != [] && forall k <- keys :: k in v.entries
    ensures MembersText(MembersTree(v, keys)) == Joined(MemberItems(v, keys)) + "}"
    decreases |keys|
  {
    hide ValueText, TreeOf, StrText, Units, Exact;
    var k := keys[0];
    assert k in keys;
    ExactEntry(v, k);
    var m := Member([], Units(k), [], Elem([], TreeOf(v.entries[k]), []));
    var t := Entry(k, v.entries[k]);
    assert MemberText(m) == t by {
      StrValue(Units(k));
      assert ['"'] + (StrText(Units(k)) + ([':'] + TextOf(v.entries[k])))
          == (['"'] + StrText(Units(k))) + ([':'] + TextOf(v.entries[k]));
      assert ElemText(m.value) == TextOf(v.entries[k]);
    }
    if |keys| == 1 {
      assert MemberItems(v, keys) == [t];
    } else {
      MembersJoined(v, keys[1..]);
      assert MemberItems(v, keys)[1..] == MemberItems(v, keys[1..]);
      var rest := Joined(MemberItems(v, keys[1..]));
      assert t + ([','] + (rest + "}")) == (t + ([','] + rest)) + "}";
    }
  }

  lemma ExactEntry(v: Decoded, k: Text)
    requires Exact(v) && v.DMap? && k in v.entries
    ensures Exact(v.entries[k])
  {
  }

  // ----- why an error is right -----

  predicate Element(h: C.Heap, a: C.Addr, x: C.Obj) {
    a in h &&
    match h[a]
    case Array(es, _) => x in es
    case Map(m, _) => x in m.Values
  }

  /** Each container of the path is an element of the one before. */
  predicate Chain(h: C.Heap, p: seq<C.Addr>) { forall i :: 0 < i < |p| ==> Element(h, p[i - 1], C.Ref(p[i])) }

  /** From x, reached by path, w leads on to a container that is on the way already. */
  predicate Loops(h: C.Heap, x: C.Obj, path: seq<C.Addr>, w: seq<C.Addr>) {
    w != [] && x == C.Ref(w[0]) && Chain(h, path + w) && w[|w| - 1] in (path + w)[..|path + w| - 1]
  }

  /** From x, w leads to a leaf the encoder does not know. */
  predicate Finds(h: C.Heap, kinds: Scalars, x: C.Obj, w: seq<C.Addr>, id: int) {
    kinds(id).Unsupported? && Chain(h, w)
    && (if w == [] then x == C.Leaf(id) else x == C.Ref(w[0]) && Element(h, w[|w| - 1], C.Leaf(id)))
  }

  /** A container that has a value has elements with a value, of one level less. */
  lemma Inner(h: C.Heap, kinds: Scalars, a: C.Addr, x: C.Obj, n: nat)
    requires Element(h, a, x) && Unfold(h, kinds, C.Ref(a), n).Some?
    ensures n > 0 && Unfold(h, kinds, x, n - 1).Some?
  {
    match h[a]
    case Array(es, _) =>
    case Map(m, _) =>
      var k :| k in m && m[k] == x;
  }

  lemma {:induction false} InnerPath(h: C.Heap, kinds: Scalars, p: seq<C.Addr>, i: nat, j: nat, n: nat)
    requires Chain(h, p) && i <= j < |p| && Unfold(h, kinds, C.Ref(p[i]), n).Some?
    ensures n >= j - i && Unfold(h, kinds, C.Ref(p[j]), n - (j - i)).Some?
    decreases j
  {
    hide Unfold, Element;
    if i < j {
      InnerPath(h, kinds, p, i, j - 1, n);
      Inner(h, kinds, p[j - 1], C.Ref(p[j]), n - (j - 1 - i));
    }
  }

  lemma {:induction false} NeverBack(h: C.Heap, kinds: Scalars, p: seq<C.Addr>, i: nat, j: nat, n: nat)
    requires Chain(h, p) && i < j < |p| && p[i] == p[j]
    ensures Unfold(h, kinds, C.Ref(p[i]), n).None?
    decreases n
  {
    hide Unfold, Chain;
    if Unfold(h, kinds, C.Ref(p[i]), n).Some? {
      InnerPath(h, kinds, p, i, j, n);
      NeverBack(h, kinds, p, i, j, n - (j - i));
    }
  }

  /** A value that leads into a cycle is no tree of any depth. */
  lemma CyclesHaveNoValue(h: C.Heap, kinds: Scalars, x: C.Obj, w: seq<C.Addr>, n: nat)
    requires Loops(h, x, [], w)
    ensures Unfold(h, kinds, x, n).None?
  {
    hide Unfold, Chain, Element;
    assert [] + w == w;
    var i :| 0 <= i < |w| - 1 && w[i] == w[|w| - 1];
    if Unfold(h, kinds, x, n).Some? {
      InnerPath(h, kinds, w, 0, i, n);
      NeverBack(h, kinds, w, i, |w| - 1, n - i);
    }
  }

  lemma UnknownHasNoValue(h: C.Heap, kinds: Scalars, x: C.Obj, w: seq<C.Addr>, id: int, n: nat)
    requires Finds(h, kinds, x, w, id)
    ensures Unfold(h, kinds, x, n).None?
  {
    hide Element, Chain;
    if Unfold(h, kinds, x, n).Some? && w != [] {
      InnerPath(h, kinds, w, 0, |w| - 1, n);
      Inner(h, kinds, w[|w| - 1], C.Leaf(id), n - (|w| - 1));
    }
  }

  lemma {:induction false} UnfoldExact(h: C.Heap, kinds: Scalars, x: C.Obj, n: nat)
    requires Unfold(h, kinds, x, n).Some?
    ensures Exact(Unfold(h, kinds, x, n).value)
    decreases n
  {
    if x.Ref? {
      match h[x.a]
      case Array(es, _) =>
        forall i | 0 <= i < |es| ensures Exact(Got(Unfold(h, kinds, es[i], n - 1))) {
          UnfoldExact(h, kinds, es[i], n - 1);
        }
      case Map(m, _) =>
        forall k | k in m ensures Exact(Got(Unfold(h, kinds, m[k], n - 1))) { UnfoldExact(h, kinds, m[k], n - 1); }
    }
  }

  // ----- the encoder -----

  datatype Encoding = Encoded(text: Text) | Cyclic | UnsupportedType

  /** sort.Strings on the keys of a map. */
  method SortKeys(ks: set<Text>) returns (keys: seq<Text>)
    ensures keys == Sorted(ks)
  {
    hide Leq, Sorted, IsLeast;
    var todo := ks;
    keys := [];
    SortedNone();
    while todo != {}
      invariant Sorted(ks) == keys + Sorted(todo)
      decreases |todo|
    {
      var k := Least(todo);
      SortedBy(todo, k);
      keys := keys + [k];
      todo := todo - {k};
    }
  }

  lemma SortedNone()
    ensures Sorted({}) == []
  {
  }

  method Least(ks: set<Text>) returns (k: Text)
    requires ks != {}
    ensures IsLeast(ks, k)
  {
    hide Leq;
    k :| k in ks;
    var todo := ks - {k};
    LeqTotal(k, k);
    while todo != {}
      invariant todo <= ks && k in ks && k !in todo && forall l <- ks :: l in todo || Leq(k, l)
      decreases |todo|
    {
      var l :| l in todo;
      todo := todo - {l};
      LeqTotal(k, l);
      LeqTotal(l, l);
      if !Leq(k, l) {
        forall j | j in ks && j !in todo ensures Leq(l, j) {
          if j != l { LeqTransitive(l, k, j); }
        }
        k := l;
      }
    }
  }

  class Encoder {
    const h: C.Heap
    const kinds: Scalars
    var visited: set<C.Addr>

    constructor (h: C.Heap, kinds: Scalars)
      ensures this.h == h && this.kinds == kinds && visited == {}
    {
      this.h, this.kinds, visited := h, kinds, {};
    }

    /** path is the way from the root, of the containers that have been entered and not left. */
    ghost predicate OnTheWay(path: seq<C.Addr>)
      reads this
    {
      visited == (set a | a in path) && visited <= h.Keys && Chain(h, path) && C.Closed(h)
    }

    method EncodeObject(x: C.Obj, ghost path: seq<C.Addr>) returns (r: Encoding, ghost n: nat, ghost w: seq<C.Addr>)
      requires OnTheWay(path) && Follows(h, path, x)
      modifies this
      ensures visited == old(visited)
      ensures Right(h, kinds, r, x, path, n, w)
      decreases h.Keys - visited, 0
    {
      hide C.Closed, Loops, Finds, Element, IsText, Chain;
      n, w := 0, [];
      if x.Leaf? {
        r := EncodeScalar(x.id);
        FindsItself(h, kinds, x.id);
        return;
      }
      PathOn(h, path, x);
      if x.a in visited {
        r, w := Cyclic, [x.a];
        LoopsHere(h, x, path);
        return;
      }
      ghost var before := visited;
      visited := visited + {x.a};
      assert visited == set a | a in path + [x.a];
      if h[x.a].Array? {
        r, n, w := EncodeArray(x.a, path);
      } else {
        r, n, w := EncodeMap(x.a, path);
      }
      visited := visited - {x.a};
      assert visited == before;
    }

    method EncodeScalar(id: int) returns (r: Encoding)
      ensures kinds(id).Unsupported? ==> r.UnsupportedType?
      ensures !kinds(id).Unsupported? ==> r.Encoded? && IsText(h, kinds, C.Leaf(id), 0, r.text)
    {
      hide AppendInt, StrText, Units, Decimal;
      match kinds(id) {
        case Undefined => r := Encoded("null");
        case Bool(b) => r := Encoded(if b then "true" else "false");
        case Int(n) =>
          r := Encoded(AppendInt(n));
          IntText(n);
        case String(s) =>
          var t := EncodeString([], s);
          assert [] + ValueText(Str(Units(s))) == ValueText(Str(Units(s)));
          r := Encoded(t);
        case Unsupported => r := UnsupportedType;
      }
    }

    method EncodeArray(a: C.Addr, ghost path: seq<C.Addr>) returns (r: Encoding, ghost n: nat, ghost w: seq<C.Addr>)
      requires OnTheWay(path + [a]) && a in h && h[a].Array?
      modifies this
      ensures visited == old(visited)
      ensures Right(h, kinds, r, C.Ref(a), path, n, w)
      decreases h.Keys - visited, 1
    {
      hide C.Closed, Right, IsText, Joined, Chain, Texts, Follows;
      var es := h[a].elems;
      var b: Text := "[";
      ghost var ts: seq<Text> := [];
      n, w := 0, [];
      JoinedNone();
      TextsNone(h, kinds, es);
      assert "[" + [] + [] == "[";
      var i := 0;
      while i < |es|
        invariant i <= |es| && visited == old(visited)
        invariant |ts| == i && Texts(h, kinds, es, n, ts)
        invariant b == "[" + Joined(ts) + (if 0 < i < |es| then "," else [])
      {
        InsideArray(h, a, path, i);
        ghost var m;
        r, m, w := EncodeObject(es[i], path + [a]);
        RightOutwards(h, kinds, r, a, es[i], path, m, w);
        if !r.Encoded? { return r, 0, [a] + w; }
        ghost var before := b;
        b := b + r.text;
        if i < |es| - 1 { b := b + ","; }
        ArrayTurn(h, kinds, es, n, ts, m, r.text, before);
        n := if n < m then m else n;
        ts := ts + [r.text];
        i := i + 1;
      }
      assert b == "[" + Joined(ts);
      ArrayText(h, kinds, a, n, ts);
      r := Encoded(b + "]");
      n := n + 1;
      RightText(h, kinds, C.Ref(a), path, n, w, b + "]");
    }

    method EncodeMap(a: C.Addr, ghost path: seq<C.Addr>) returns (r: Encoding, ghost n: nat, ghost w: seq<C.Addr>)
      requires OnTheWay(path + [a]) && a in h && h[a].Map?
      modifies this
      ensures visited == old(visited)
      ensures Right(h, kinds, r, C.Ref(a), path, n, w)
      decreases h.Keys - visited, 1
    {
      hide C.Closed, Right, IsText, Joined, Chain, Sorted, ValueText, Units, Entries, Follows;
      var m := h[a].entries;
      var keys := SortKeys(m.Keys);
      var b: Text := "{";
      ghost var es: seq<Text> := [];
      n, w := 0, [];
      JoinedNone();
      EntriesNone(h, kinds, m, keys);
      assert "{" + [] + [] == "{";
      var i := 0;
      while i < |keys|
        invariant i <= |keys| && visited == old(visited) && |es| == i && Entries(h, kinds, m, keys, n, es)
        invariant b == "{" + Joined(es) + (if 0 < i < |keys| then "," else [])
      {
        var k := keys[i];
        assert k in m;
        InsideMap(h, a, path, k);
        ghost var before := b;
        b := EncodeString(b, k);
        b := b + ":";
        ghost var l;
        r, l, w := EncodeObject(m[k], path + [a]);
        RightOutwards(h, kinds, r, a, m[k], path, l, w);
        if !r.Encoded? { return r, 0, [a] + w; }
        b := b + r.text;
        if i < |keys| - 1 { b := b + ","; }
        MapTurn(h, kinds, m, keys, n, es, l, r.text, before);
        n := if n < l then l else n;
        es := es + [ValueText(Str(Units(k))) + ([':'] + r.text)];
        i := i + 1;
      }
      assert b == "{" + Joined(es);
      MapText(h, kinds, a, n, es);
      r := Encoded(b + "}");
      n := n + 1;
      RightText(h, kinds, C.Ref(a), path, n, w, b + "}");
    }
  }

  // ----- what the loops need -----

  predicate Follows(h: C.Heap, path: seq<C.Addr>, x: C.Obj) {
    (path != [] ==> Element(h, path[|path| - 1], x)) && C.InHeap(h, x) && x != C.Nil
  }

  ghost predicate IsText(h: C.Heap, kinds: Scalars, x: C.Obj, n: nat, t: Text) {
    var v := Unfold(h, kinds, x, n); v.Some? && Exact(v.value) && t == TextOf(v.value)
  }

  /** What an answer means; n and w, levels and a path, prove it. */
  ghost predicate Right(h: C.Heap, kinds: Scalars, r: Encoding, x: C.Obj, path: seq<C.Addr>, n: nat, w: seq<C.Addr>) {
    match r
    case Encoded(t) => IsText(h, kinds, x, n, t)
    case Cyclic => Loops(h, x, path, w)
    case UnsupportedType => exists id :: Finds(h, kinds, x, w, id)
  }

  lemma RightText(h: C.Heap, kinds: Scalars, x: C.Obj, path: seq<C.Addr>, n: nat, w: seq<C.Addr>, t: Text)
    requires IsText(h, kinds, x, n, t)
    ensures Right(h, kinds, Encoded(t), x, path, n, w)
  {
  }

  lemma FindsItself(h: C.Heap, kinds: Scalars, id: int)
    ensures kinds(id).Unsupported? ==> Finds(h, kinds, C.Leaf(id), [], id)
  {
  }

  lemma LoopsHere(h: C.Heap, x: C.Obj, path: seq<C.Addr>)
    requires x.Ref? && x.a in path && Chain(h, path + [x.a])
    ensures Loops(h, x, path, [x.a])
  {
    var p := path + [x.a];
    assert p[..|p| - 1] == path;
  }

  lemma PathOn(h: C.Heap, path: seq<C.Addr>, x: C.Obj)
    requires Chain(h, path) && Follows(h, path, x) && x.Ref?
    ensures Chain(h, path + [x.a])
  {
  }

  lemma InsideArray(h: C.Heap, a: C.Addr, path: seq<C.Addr>, i: nat)
    requires C.Closed(h) && a in h && h[a].Array? && i < |h[a].elems|
    ensures Follows(h, path + [a], h[a].elems[i])
  {
    assert C.ElemsIn(h, h[a]);
  }

  lemma InsideMap(h: C.Heap, a: C.Addr, path: seq<C.Addr>, k: string)
    requires C.Closed(h) && a in h && h[a].Map? && k in h[a].entries
    ensures Follows(h, path + [a], h[a].entries[k])
  {
    assert C.ElemsIn(h, h[a]);
  }

  /** An error of an element is an error of the container. */
  lemma RightOutwards(h: C.Heap, kinds: Scalars, r: Encoding, a: C.Addr, x: C.Obj, path: seq<C.Addr>, n: nat,
                      w: seq<C.Addr>)
    requires Right(h, kinds, r, x, path + [a], n, w) && Follows(h, path + [a], x)
    ensures r.Encoded? ==> IsText(h, kinds, x, n, r.text)
    ensures !r.Encoded? ==> Right(h, kinds, r, C.Ref(a), path, 0, [a] + w)
  {
    hide Element, IsText;
    assert (path + [a]) + w == path + ([a] + w);
    if r.UnsupportedType? {
      var id :| Finds(h, kinds, x, w, id);
      assert Finds(h, kinds, C.Ref(a), [a] + w, id);
    }
  }

  lemma JoinedNone()
    ensures Joined([]) == []
  {
  }

  lemma EntryAppended(b: Text, key: Text, t: Text)
    ensures b + key + ":" + t == b + (key + ([':'] + t))
  {
    assert (b + key) + (":" + t) == b + (key + (":" + t));
  }

  /** The text of one more item behind the text so far. */
  lemma Appended(open: Text, before: Text, t: Text, first: bool, more: bool)
    requires first ==> before == []
    ensures var b := open + before + (if first then [] else [',']);
            b + t + (if more then [','] else []) == open + (if first then t else before + ([','] + t))
                + (if more then [','] else [])
  {
    if first { assert open + before + [] == open; } else { assert (before + [',']) + t == before + ([','] + t); }
  }

  /** ts are the texts of the first elements. */
  ghost predicate Texts(h: C.Heap, kinds: Scalars, es: seq<C.Obj>, n: nat, ts: seq<Text>) {
    |ts| <= |es| && forall j :: 0 <= j < |ts| ==> IsText(h, kinds, es[j], n, ts[j])
  }

  lemma TextsNone(h: C.Heap, kinds: Scalars, es: seq<C.Obj>)
    ensures Texts(h, kinds, es, 0, [])
  {
  }

  lemma TextsMore(h: C.Heap, kinds: Scalars, es: seq<C.Obj>, n: nat, ts: seq<Text>, m: nat, t: Text)
    requires Texts(h, kinds, es, n, ts) && |ts| < |es| && IsText(h, kinds, es[|ts|], m, t)
    ensures Texts(h, kinds, es, if n < m then m else n, ts + [t])
  {
    hide Unfold, Exact, TextOf;
    var l := if n < m then m else n;
    UnfoldMore(h, kinds, es[|ts|], m, l);
    forall j | 0 <= j < |ts| ensures IsText(h, kinds, es[j], l, ts[j]) { UnfoldMore(h, kinds, es[j], n, l); }
  }

  /** One turn of the loop over the elements of an array. */
  lemma ArrayTurn(h: C.Heap, kinds: Scalars, es: seq<C.Obj>, n: nat, ts: seq<Text>, m: nat, t: Text, before: Text)
    requires Texts(h, kinds, es, n, ts) && |ts| < |es| && IsText(h, kinds, es[|ts|], m, t)
    requires before == "[" + Joined(ts) + (if 0 < |ts| then "," else [])
    ensures Texts(h, kinds, es, if n < m then m else n, ts + [t])
    ensures var more := |ts| + 1 < |es|;
            before + t + (if more then "," else []) == "[" + Joined(ts + [t]) + (if more then "," else [])
  {
    hide Texts, IsText, Joined;
    TextsMore(h, kinds, es, n, ts, m, t);
    JoinedNone();
    JoinedMore(ts, t);
    Appended("[", Joined(ts), t, ts == [], |ts| + 1 < |es|);
  }

  /** One turn of the loop over the keys of a map. */
  lemma MapTurn(h: C.Heap, kinds: Scalars, m: map<string, C.Obj>, keys: seq<Text>, n: nat, es: seq<Text>, l: nat,
                t: Text, before: Text)
    requires Entries(h, kinds, m, keys, n, es) && |es| < |keys| && keys[|es|] in m
             && IsText(h, kinds, m[keys[|es|]], l, t)
    requires before == "{" + Joined(es) + (if 0 < |es| then "," else [])
    ensures var key, more := ValueText(Str(Units(keys[|es|]))), |es| + 1 < |keys|;
            && Entries(h, kinds, m, keys, if n < l then l else n, es + [key + ([':'] + t)])
            && before + key + ":" + t + (if more then "," else [])
               == "{" + Joined(es + [key + ([':'] + t)]) + (if more then "," else [])
  {
    hide Entries, IsText, Joined, ValueText, Units;
    var key := ValueText(Str(Units(keys[|es|])));
    var e := key + ([':'] + t);
    EntriesMore(h, kinds, m, keys, n, es, l, t);
    JoinedNone();
    JoinedMore(es, e);
    EntryAppended(before, key, t);
    Appended("{", Joined(es), e, es == [], |es| + 1 < |keys|);
  }

  /** es are the texts of the first members. */
  ghost predicate Entries(h: C.Heap, kinds: Scalars, m: map<string, C.Obj>, keys: seq<Text>, n: nat, es: seq<Text>) {
    |es| <= |keys| && forall j :: 0 <= j < |es| ==> keys[j] in m && IsEntry(h, kinds, keys[j], m[keys[j]], n, es[j])
  }

  ghost predicate IsEntry(h: C.Heap, kinds: Scalars, k: Text, x: C.Obj, n: nat, e: Text) {
    var v := Unfold(h, kinds, x, n); v.Some? && Exact(v.value) && e == Entry(k, v.value)
  }

  lemma EntriesNone(h: C.Heap, kinds: Scalars, m: map<string, C.Obj>, keys: seq<Text>)
    ensures Entries(h, kinds, m, keys, 0, [])
  {
  }

  lemma EntriesMore(h: C.Heap, kinds: Scalars, m: map<string, C.Obj>, keys: seq<Text>, n: nat, es: seq<Text>, l: nat,
                    t: Text)
    requires Entries(h, kinds, m, keys, n, es) && |es| < |keys| && keys[|es|] in m
    requires IsText(h, kinds, m[keys[|es|]], l, t)
    ensures var k := keys[|es|];
            Entries(h, kinds, m, keys, if n < l then l else n, es + [ValueText(Str(Units(k))) + ([':'] + t)])
  {
    hide Unfold, Exact, TextOf, ValueText, Units;
    var top := if n < l then l else n;
    var k := keys[|es|];
    UnfoldMore(h, kinds, m[k], l, top);
    forall j | 0 <= j < |es| ensures IsEntry(h, kinds, keys[j], m[keys[j]], top, es[j]) {
      UnfoldMore(h, kinds, m[keys[j]], n, top);
    }
    assert IsEntry(h, kinds, k, m[k], top, ValueText(Str(Units(k))) + ([':'] + t));
  }

  lemma IntText(n: int)
    requires Int64(n)
    ensures AppendInt(n) == TextOf(DInt(n))
  {
    hide Decimal;
    var d := Decimal(if n < 0 then -n else n);
    assert d + ([] + []) == d;
  }

  lemma {:induction false} ElemItemsAre(v: Decoded, i: nat, ts: seq<Text>)
    requires Exact(v) && v.DArray? && |ts| == |v.elems| && i <= |ts|
    requires forall j :: 0 <= j < |ts| ==> Exact(v.elems[j]) && ts[j] == TextOf(v.elems[j])
    ensures ElemItems(v, i) == ts[i..]
    decreases |ts| - i
  {
    hide Exact, TextOf;
    if i < |ts| { ElemItemsAre(v, i + 1, ts); }
  }

  lemma {:induction false} MemberItemsAre(v: Decoded, keys: seq<Text>, ts: seq<Text>)
    requires Exact(v) && v.DMap? && |ts| == |keys| && forall k <- keys :: k in v.entries
    requires forall j :: 0 <= j < |ts| ==> Exact(v.entries[keys[j]]) && ts[j] == Entry(keys[j], v.entries[keys[j]])
    ensures MemberItems(v, keys) == ts
    decreases |ts|
  {
    hide Exact, Entry;
    if keys != [] {
      MemberItemsAre(v, keys[1..], ts[1..]);
      assert ts == [ts[0]] + ts[1..];
    }
  }

  lemma ArrayText(h: C.Heap, kinds: Scalars, a: C.Addr, n: nat, ts: seq<Text>)
    requires a in h && h[a].Array? && |ts| == |h[a].elems| && Texts(h, kinds, h[a].elems, n, ts)
    ensures IsText(h, kinds, C.Ref(a), n + 1, "[" + Joined(ts) + "]")
  {
    hide Joined, ElemsText, ElemsTree, TextOf, Exact, ElemItems, Unfold;
    ArrayValue(h, kinds, a, n, ts);
    var v := Unfold(h, kinds, C.Ref(a), n + 1).value;
    UnfoldExact(h, kinds, C.Ref(a), n + 1);
    ElemItemsAre(v, 0, ts);
    assert ts[0..] == ts;
    if ts != [] { ElemsJoined(v, 0); } else { JoinedNone(); }
    ArrayTextOf(v);
    assert "[" + (Joined(ts) + "]") == "[" + Joined(ts) + "]";
  }

  lemma ArrayValue(h: C.Heap, kinds: Scalars, a: C.Addr, n: nat, ts: seq<Text>)
    requires a in h && h[a].Array? && |ts| == |h[a].elems| && Texts(h, kinds, h[a].elems, n, ts)
    ensures var v := Unfold(h, kinds, C.Ref(a), n + 1);
            && v.Some? && v.value.DArray? && |v.value.elems| == |ts|
            && forall j :: 0 <= j < |ts| ==> Exact(v.value.elems[j]) && ts[j] == TextOf(v.value.elems[j])
  {
    hide Exact, TextOf;
    var es := h[a].elems;
    forall i | 0 <= i < |es| ensures Unfold(h, kinds, es[i], n).Some? { assert IsText(h, kinds, es[i], n, ts[i]); }
    var v := Unfold(h, kinds, C.Ref(a), n + 1).value;
    forall j | 0 <= j < |ts| ensures Exact(v.elems[j]) && ts[j] == TextOf(v.elems[j]) {
      assert IsText(h, kinds, es[j], n, ts[j]);
    }
  }

  lemma ArrayTextOf(v: Decoded)
    requires Exact(v) && v.DArray?
    ensures TextOf(v) == if v.elems == [] then "[]" else "[" + ElemsText(ElemsTree(v, 0))
  {
    hide ElemsText, ElemsTree;
    assert "[" + ([] + "]") == "[]";
  }

  lemma MapText(h: C.Heap, kinds: Scalars, a: C.Addr, n: nat, es: seq<Text>)
    requires a in h && h[a].Map? && Entries(h, kinds, h[a].entries, Sorted(h[a].entries.Keys), n, es)
    requires |es| == |Sorted(h[a].entries.Keys)|
    ensures IsText(h, kinds, C.Ref(a), n + 1, "{" + Joined(es) + "}")
  {
    hide Joined, MembersText, MembersTree, TextOf, Exact, Entry, Sorted, MemberItems, ValueText, Unfold, Entries;
    var keys := Sorted(h[a].entries.Keys);
    MapValue(h, kinds, a, n, es);
    var v := Unfold(h, kinds, C.Ref(a), n + 1).value;
    UnfoldExact(h, kinds, C.Ref(a), n + 1);
    MemberItemsAre(v, keys, es);
    MapItems(v);
  }

  lemma MapValue(h: C.Heap, kinds: Scalars, a: C.Addr, n: nat, es: seq<Text>)
    requires a in h && h[a].Map? && Entries(h, kinds, h[a].entries, Sorted(h[a].entries.Keys), n, es)
    requires |es| == |Sorted(h[a].entries.Keys)|
    ensures var keys, v := Sorted(h[a].entries.Keys), Unfold(h, kinds, C.Ref(a), n + 1);
            && v.Some? && v.value.DMap? && v.value.entries.Keys == h[a].entries.Keys
            && forall j :: 0 <= j < |es| ==>
                 Exact(v.value.entries[keys[j]]) && es[j] == Entry(keys[j], v.value.entries[keys[j]])
  {
    hide Exact, Entry, Sorted;
    var m := h[a].entries;
    var keys := Sorted(m.Keys);
    forall k | k in m ensures Unfold(h, kinds, m[k], n).Some? {
      var j :| 0 <= j < |keys| && keys[j] == k;
      assert IsEntry(h, kinds, keys[j], m[keys[j]], n, es[j]);
    }
    var v := Unfold(h, kinds, C.Ref(a), n + 1).value;
    forall j | 0 <= j < |es| ensures Exact(v.entries[keys[j]]) && es[j] == Entry(keys[j], v.entries[keys[j]]) {
      assert IsEntry(h, kinds, keys[j], m[keys[j]], n, es[j]);
    }
  }

  lemma MapItems(v: Decoded)
    requires Exact(v) && v.DMap?
    ensures TextOf(v) == "{" + Joined(MemberItems(v, Sorted(v.entries.Keys))) + "}"
  {
    hide Joined, MembersText, MembersTree, TextOf, Exact, Entry, Sorted;
    var keys := Sorted(v.entries.Keys);
    var t := Joined(MemberItems(v, keys));
    MapTextOf(v);
    if keys == [] {
      JoinedNone();
      assert "{" + t + "}" == "{}";
    } else {
      MembersJoined(v, keys);
      assert "{" + (t + "}") == "{" + t + "}";
    }
  }

  lemma TreeOfMap(v: Decoded)
    requires Exact(v) && v.DMap?
    ensures var keys := Sorted(v.entries.Keys);
            TreeOf(v) == if keys == [] then EmptyObject([]) else Object(MembersTree(v, keys))
  {
    hide MembersTree, Exact;
    assert v.entries == map[] <==> v.entries.Keys == {};
  }

  lemma MapTextOf(v: Decoded)
    requires Exact(v) && v.DMap?
    ensures var keys := Sorted(v.entries.Keys);
            && (keys == [] ==> TextOf(v) == "{}")
            && (keys != [] ==> TextOf(v) == "{" + MembersText(MembersTree(v, keys)))
  {
    hide MembersText, MembersTree, Sorted, Exact, TreeOf;
    TreeOfMap(v);
    assert "{" + ([] + "}") == "{}";
  }

  /** Encode answers with the text of the value exactly when the object has one, and otherwise says
      truly what is in the way. */
  method Encode(h: C.Heap, kinds: Scalars, x: C.Obj) returns (r: Encoding)
    requires C.Closed(h) && C.InHeap(h, x) && x != C.Nil
    ensures r.Encoded? <==> exists n :: Unfold(h, kinds, x, n).Some?
    ensures forall n :: Unfold(h, kinds, x, n).Some? ==> IsText(h, kinds, x, n, if r.Encoded? then r.text else [])
    ensures r.Cyclic? ==> exists w :: Loops(h, x, [], w)
    ensures r.UnsupportedType? ==> exists w, id :: Finds(h, kinds, x, w, id)
  {
    hide C.Closed, Loops, Finds, Unfold, Exact, TextOf, Element;
    var e := new Encoder(h, kinds);
    ghost var m, w;
    r, m, w := e.EncodeObject(x, []);
    if r.Encoded? {
      assert Unfold(h, kinds, x, m).Some?;
      forall n | Unfold(h, kinds, x, n).Some? ensures IsText(h, kinds, x, n, r.text) {
        UnfoldMore(h, kinds, x, m, if m < n then n else m);
        UnfoldMore(h, kinds, x, n, if m < n then n else m);
      }
    } else {
      forall n ensures Unfold(h, kinds, x, n).None? {
        if r.Cyclic? {
          CyclesHaveNoValue(h, kinds, x, w, n);
        } else {
          var id :| Finds(h, kinds, x, w, id);
          UnknownHasNoValue(h, kinds, x, w, id, n);
        }
      }
    }
  }

  // ----- equal objects -----

  /** The leaves that compare equal are of one kind and value. */
  ghost predicate Agrees(same: C.LeafEquals, kinds: Scalars) {
    forall id, y :: same(id, y) ==> y.Leaf? && kinds(id) == kinds(y.id)
  }

  /** Two containers whose elements have the same values have the same value. */
  lemma SameUnfold(h: C.Heap, kinds: Scalars, a: C.Addr, b: C.Addr, n: nat)
    requires a in h && b in h && n > 0 && Unfold(h, kinds, C.Ref(a), n).Some?
    requires match (h[a], h[b])
             case (Array(es, _), Array(fs, _)) =>
               |es| == |fs| && forall i ::
                 0 <= i < |es| ==> Unfold(h, kinds, fs[i], n - 1) == Unfold(h, kinds, es[i], n - 1)
             case (Map(m, _), Map(o, _)) =>
               m.Keys == o.Keys && forall k <- m :: Unfold(h, kinds, o[k], n - 1) == Unfold(h, kinds, m[k], n - 1)
             case _ => false
    ensures Unfold(h, kinds, C.Ref(b), n) == Unfold(h, kinds, C.Ref(a), n)
  {
    var v := Unfold(h, kinds, C.Ref(a), n).value;
    if h[a].Array? {
      assert Unfold(h, kinds, C.Ref(b), n).value.elems == v.elems;
    } else {
      assert Unfold(h, kinds, C.Ref(b), n).value.entries == v.entries;
    }
  }

  /** What agreement to n levels says of the elements. */
  lemma AgreeBelow(h: C.Heap, kinds: Scalars, same: C.LeafEquals, a: C.Addr, b: C.Addr, n: nat)
    requires Agrees(same, kinds) && n > 0 && C.Agree(h, same, C.Ref(a), C.Ref(b), n)
    ensures a in h && b in h
    ensures match (h[a], h[b])
            case (Array(es, _), Array(fs, _)) =>
              |es| == |fs| && forall i :: 0 <= i < |es| ==> C.Agree(h, same, es[i], fs[i], n - 1)
            case (Map(m, _), Map(o, _)) =>
              m.Keys == o.Keys && forall k <- m :: C.Agree(h, same, m[k], o[k], n - 1)
            case _ => false
  {
    match (h[a], h[b])
    case (Array(_, _), Array(_, _)) =>
    case (Map(m, _), Map(o, _)) =>
      forall k | k in m ensures k in o {
        assert C.Agree(h, same, m[k], C.Lookup(o, k), n - 1);
      }
      C.SubsetOfSameSize(m.Keys, o.Keys);
  }

  lemma {:induction false} EqualUnfold(h: C.Heap, kinds: Scalars, same: C.LeafEquals, x: C.Obj, y: C.Obj, n: nat)
    requires Agrees(same, kinds) && C.Agree(h, same, x, y, n) && Unfold(h, kinds, x, n).Some?
    ensures Unfold(h, kinds, y, n) == Unfold(h, kinds, x, n)
    decreases n, 1
  {
    if x.Ref? {
      EqualContainers(h, kinds, same, x.a, y.a, n);
    }
  }

  lemma {:induction false} EqualContainers(h: C.Heap, kinds: Scalars, same: C.LeafEquals, a: C.Addr, b: C.Addr, n: nat)
    requires Agrees(same, kinds) && C.Agree(h, same, C.Ref(a), C.Ref(b), n) && Unfold(h, kinds, C.Ref(a), n).Some?
    ensures Unfold(h, kinds, C.Ref(b), n) == Unfold(h, kinds, C.Ref(a), n)
    decreases n, 0
  {
    hide Agrees, C.Agree, Unfold;
    Level(h, kinds, a, n, n);
    AgreeBelow(h, kinds, same, a, b, n);
    match (h[a], h[b])
    case (Array(es, _), Array(fs, _)) =>
      forall i | 0 <= i < |es| ensures Unfold(h, kinds, fs[i], n - 1) == Unfold(h, kinds, es[i], n - 1) {
        EqualUnfold(h, kinds, same, es[i], fs[i], n - 1);
      }
      SameUnfold(h, kinds, a, b, n);
    case (Map(m, _), Map(o, _)) =>
      forall k | k in m ensures Unfold(h, kinds, o[k], n - 1) == Unfold(h, kinds, m[k], n - 1) {
        EqualUnfold(h, kinds, same, m[k], o[k], n - 1);
      }
      SameUnfold(h, kinds, a, b, n);
  }

  /** Objects that compare equal are written alike, however their entries are stored and shared. */
  lemma EqualTexts(h: C.Heap, kinds: Scalars, same: C.LeafEquals, x: C.Obj, y: C.Obj, n: nat, t: Text)
    requires Agrees(same, kinds) && C.Bisimilar(h, same, x, y) && IsText(h, kinds, x, n, t)
    ensures IsText(h, kinds, y, n, t)
  {
    hide Agrees, Exact, TextOf, Unfold;
    var r :| C.Bisimulation(h, same, r) && C.Matches(same, r, x, y);
    C.BisimilarAgree(h, same, r, x, y, n);
    EqualUnfold(h, kinds, same, x, y, n);
  }
}
