/** What the JSON encoder writes, the decoder reads back (std/json/encode.go, std/json/decode.go). */
module JsonRoundTrip {
  import C = Containers
  import opened JsonScanner
  import opened JsonGrammar
  import opened JsonUnquote
  import opened JsonNumbers
  import opened JsonDecoder
  import opened JsonMeaning
  import opened JsonNesting
  import opened JsonQuote
  import opened JsonEncode

  /** All strings and keys are UTF-8. */
  ghost predicate Readable(v: Decoded, u: Utf8) {
    match v
    case DString(s) => ValidUtf8(s, u)
    case DArray(es) => forall i :: 0 <= i < |es| ==> Readable(es[i], u)
    case DMap(m) => forall k <- m :: ValidUtf8(k, u) && Readable(m[k], u)
    case _ => true
  }

  // ----- the tree of a value is well formed -----

  lemma {:induction false} TreeOk(v: Decoded)
    requires Exact(v)
    ensures Ok(TreeOf(v))
    decreases v, 1
  {
    hide Exact, ElemsTree, MembersTree, Sorted, TreeOf, Ok, ElemsOk, MembersOk;
    match v
    case DArray(es) =>
      if es != [] { ElemsTreeOk(v, 0); }
      ArrayOk(v);
    case DMap(m) =>
      if m != map[] { MembersTreeOk(v, Sorted(m.Keys)); }
      MapOk(v);
    case _ => LeafOk(v);
  }

  lemma ArrayOk(v: Decoded)
    requires Exact(v) && v.DArray? && (v.elems != [] ==> ElemsOk(ElemsTree(v, 0)))
    ensures Ok(TreeOf(v))
  {
    hide Exact, ElemsTree, ElemsOk;
  }

  lemma MapOk(v: Decoded)
    requires Exact(v) && v.DMap? && (v.entries != map[] ==> MembersOk(MembersTree(v, Sorted(v.entries.Keys))))
    ensures Ok(TreeOf(v))
  {
    hide Exact, MembersTree, MembersOk, Sorted, TreeOf;
    TreeOfMap(v);
  }

  lemma LeafOk(v: Decoded)
    requires Exact(v) && !v.DArray? && !v.DMap?
    ensures Ok(TreeOf(v))
  {
    hide Units, Decimal;
    if v.DInt? { DecimalIs(if v.n < 0 then -v.n else v.n); }
  }

  lemma {:induction false} ElemsTreeOk(v: Decoded, i: nat)
    requires Exact(v) && v.DArray? && i < |v.elems|
    ensures ElemsOk(ElemsTree(v, i))
    decreases v, 0, |v.elems| - i
  {
    hide Exact, TreeOf, Ok;
    ExactElem(v, i);
    TreeOk(v.elems[i]);
    if i + 1 < |v.elems| { ElemsTreeOk(v, i + 1); }
  }

  lemma {:induction false} MembersTreeOk(v: Decoded, keys: seq<Text>)
    requires Exact(v) && v.DMap? && keys != [] && forall k <- keys :: k in v.entries
    ensures MembersOk(MembersTree(v, keys))
    decreases v, 0, |keys|
  {
    hide Exact, TreeOf, Ok, Units;
    var k := keys[0];
    assert k in keys;
    ExactEntry(v, k);
    TreeOk(v.entries[k]);
    assert MemberOk(Member([], Units(k), [], Elem([], TreeOf(v.entries[k]), [])));
    if |keys| > 1 { MembersTreeOk(v, keys[1..]); }
  }

  // ----- and stands for the value -----

  lemma {:induction false} TreeMeans(v: Decoded, u: Utf8)
    requires Exact(v) && Readable(v, u) && Decodes(u)
    ensures ValueOf(TreeOf(v), u) == v
    decreases v, 1
  {
    hide Exact, Readable, Decodes, TreeOf, ValueOf, ElemsTree, MembersTree, Sorted, ElemsOf, MembersOf, NumberOf,
        TextOf, StringOf;
    match v
    case DInt(n) =>
      ExactInt(v);
      IntTree(n, u);
      IntMeans(n);
    case DString(s) =>
      ReadableString(v, u);
      StringTree(s, u);
      StringMeans(s, u);
    case DArray(es) =>
      ArrayTree(v, u);
      if es != [] { ElemsTreeMeans(v, 0, u); }
      assert es[0..] == es;
    case DMap(m) =>
      MapTree(v, u);
      if m != map[] {
        MembersTreeMeans(v, Sorted(m.Keys), map[], u);
        Everything(v);
      }
    case _ =>
      NoFloat(v);
      WordTree(v, u);
  }

  lemma WordTree(v: Decoded, u: Utf8)
    requires v.DUndefined? || v.DBool?
    ensures ValueOf(TreeOf(v), u) == v
  {
  }

  lemma IntTree(n: int, u: Utf8)
    requires Int64(n)
    ensures ValueOf(TreeOf(DInt(n)), u) == NumberOf(TextOf(DInt(n)))
  {
    hide NumberOf, Decimal, ValueText;
  }

  lemma StringTree(s: Text, u: Utf8)
    ensures ValueOf(TreeOf(DString(s)), u) == DString(StringOf(Units(s), u))
  {
    hide Units, StringOf;
  }

  lemma ArrayTree(v: Decoded, u: Utf8)
    requires Exact(v) && v.DArray?
    ensures ValueOf(TreeOf(v), u) == DArray(if v.elems == [] then [] else ElemsOf(ElemsTree(v, 0), u))
  {
    hide ElemsTree, ElemsOf, Exact;
  }

  lemma MapTree(v: Decoded, u: Utf8)
    requires Exact(v) && v.DMap?
    ensures var keys := Sorted(v.entries.Keys);
            ValueOf(TreeOf(v), u)
            == DMap(if v.entries == map[] then map[] else MembersOf(MembersTree(v, keys), map[], u))
  {
    hide MembersTree, MembersOf, Sorted, Exact;
  }

  lemma ExactInt(v: Decoded)
    requires Exact(v) && v.DInt?
    ensures Int64(v.n)
  {
  }

  lemma NoFloat(v: Decoded)
    requires Exact(v)
    ensures !v.DFloat?
  {
  }

  lemma ReadableString(v: Decoded, u: Utf8)
    requires Readable(v, u) && v.DString?
    ensures ValidUtf8(v.s, u)
  {
  }

  lemma IntMeans(n: int)
    requires Int64(n)
    ensures NumberOf(TextOf(DInt(n))) == DInt(n)
  {
    hide AppendInt, ParseInt, TextOf;
    IntText(n);
    IntRoundTrip(n);
  }

  lemma StringMeans(s: Text, u: Utf8)
    requires Decodes(u) && ValidUtf8(s, u)
    ensures StringOf(Units(s), u) == s
  {
    hide UnquoteItem, Units, StrText, ValidUtf8, Decodes;
    StringRoundTrip(s, u);
    StrValue(Units(s));
  }

  lemma {:induction false} ElemsTreeMeans(v: Decoded, i: nat, u: Utf8)
    requires Exact(v) && Readable(v, u) && Decodes(u) && v.DArray? && i < |v.elems|
    ensures ElemsOf(ElemsTree(v, i), u) == v.elems[i..]
    decreases v, 0, |v.elems| - i
  {
    hide Exact, Readable, Decodes, TreeOf, ValueOf;
    ExactElem(v, i);
    ReadableElem(v, i, u);
    TreeMeans(v.elems[i], u);
    if i + 1 < |v.elems| { ElemsTreeMeans(v, i + 1, u); }
    assert v.elems[i..] == [v.elems[i]] + v.elems[i + 1..];
  }

  lemma ReadableElem(v: Decoded, i: nat, u: Utf8)
    requires Readable(v, u) && v.DArray? && i < |v.elems|
    ensures Readable(v.elems[i], u)
  {
  }

  lemma ReadableEntry(v: Decoded, k: Text, u: Utf8)
    requires Readable(v, u) && v.DMap? && k in v.entries
    ensures ValidUtf8(k, u) && Readable(v.entries[k], u)
  {
  }

  /** before with the entries of the given keys. */
  ghost function With(before: map<Text, Decoded>, v: Decoded, keys: seq<Text>): map<Text, Decoded>
    requires v.DMap? && forall k <- keys :: k in v.entries
  {
    before + map k | k in keys :: v.entries[k]
  }

  lemma WithFirst(before: map<Text, Decoded>, v: Decoded, keys: seq<Text>)
    requires v.DMap? && keys != [] && forall k <- keys :: k in v.entries
    ensures keys[0] in v.entries
    ensures With(before[keys[0] := v.entries[keys[0]]], v, keys[1..]) == With(before, v, keys)
  {
    assert keys == [keys[0]] + keys[1..];
  }

  lemma {:induction false} MembersTreeMeans(v: Decoded, keys: seq<Text>, before: map<Text, Decoded>, u: Utf8)
    requires Exact(v) && Readable(v, u) && Decodes(u) && v.DMap? && keys != [] && forall k <- keys :: k in v.entries
    ensures MembersOf(MembersTree(v, keys), before, u) == With(before, v, keys)
    decreases v, 0, |keys|
  {
    hide Exact, Readable, Decodes, TreeOf, ValueOf, Units, StringOf, With, ValidUtf8;
    var k := keys[0];
    WithFirst(before, v, keys);
    ExactEntry(v, k);
    ReadableEntry(v, k, u);
    TreeMeans(v.entries[k], u);
    StringMeans(k, u);
    var more := before[k := v.entries[k]];
    if |keys| > 1 {
      MembersTreeMeans(v, keys[1..], more, u);
    } else {
      WithNone(more, v);
      assert keys[1..] == [];
    }
  }

  lemma WithNone(before: map<Text, Decoded>, v: Decoded)
    requires v.DMap?
    ensures With(before, v, []) == before
  {
  }

  lemma Everything(v: Decoded)
    requires v.DMap?
    ensures With(map[], v, Sorted(v.entries.Keys)) == v.entries
  {
  }

  // ----- nesting -----

  /** The levels of the heap are the nesting of the text. */
  lemma {:induction false} Nesting(h: C.Heap, kinds: Scalars, x: C.Obj, m: nat, n: nat)
    requires Unfold(h, kinds, x, m).Some? && Exact(Unfold(h, kinds, x, m).value)
    ensures Unfold(h, kinds, x, n).Some? <==> Depth(TreeOf(Unfold(h, kinds, x, m).value)) <= n
    decreases m
  {
    hide Exact, TreeOf, Depth, Unfold;
    if x.Ref? {
      Level(h, kinds, x.a, m, n);
      if h[x.a].Array? { ArrayLevels(h, kinds, x.a, m, n); } else { MapLevels(h, kinds, x.a, m, n); }
    } else {
      Flat(h, kinds, x, m, n);
    }
  }

  lemma Flat(h: C.Heap, kinds: Scalars, x: C.Obj, m: nat, n: nat)
    requires !x.Ref? && Unfold(h, kinds, x, m).Some? && Exact(Unfold(h, kinds, x, m).value)
    ensures Unfold(h, kinds, x, n).Some? && Depth(TreeOf(Unfold(h, kinds, x, m).value)) == 0
  {
    hide Units, Decimal;
  }

  lemma {:induction false} ArrayLevels(h: C.Heap, kinds: Scalars, a: C.Addr, m: nat, n: nat)
    requires Unfold(h, kinds, C.Ref(a), m).Some? && Exact(Unfold(h, kinds, C.Ref(a), m).value) && m > 0 && a in h
             && h[a].Array?
    ensures Unfold(h, kinds, C.Ref(a), n).Some? <==> Depth(TreeOf(Unfold(h, kinds, C.Ref(a), m).value)) <= n
    decreases m, 0
  {
    hide Exact, TreeOf, Depth, Unfold;
    Level(h, kinds, a, m, n);
    var es, v := h[a].elems, Unfold(h, kinds, C.Ref(a), m).value;
    if n > 0 {
      forall i | 0 <= i < |es|
        ensures Exact(v.elems[i]) && (Unfold(h, kinds, es[i], n - 1).Some? <==> Depth(TreeOf(v.elems[i])) <= n - 1)
      {
        ExactElem(v, i);
        Nesting(h, kinds, es[i], m - 1, n - 1);
      }
    }
    ArrayNesting(v, n);
  }

  lemma {:induction false} MapLevels(h: C.Heap, kinds: Scalars, a: C.Addr, m: nat, n: nat)
    requires Unfold(h, kinds, C.Ref(a), m).Some? && Exact(Unfold(h, kinds, C.Ref(a), m).value) && m > 0 && a in h
             && h[a].Map?
    ensures Unfold(h, kinds, C.Ref(a), n).Some? <==> Depth(TreeOf(Unfold(h, kinds, C.Ref(a), m).value)) <= n
    decreases m, 0
  {
    hide Exact, TreeOf, Depth, Unfold;
    Level(h, kinds, a, m, n);
    var es, v := h[a].entries, Unfold(h, kinds, C.Ref(a), m).value;
    if n > 0 {
      forall k | k in es
        ensures Exact(v.entries[k]) && (Unfold(h, kinds, es[k], n - 1).Some? <==> Depth(TreeOf(v.entries[k])) <= n - 1)
      {
        ExactEntry(v, k);
        Nesting(h, kinds, es[k], m - 1, n - 1);
      }
    }
    MapNesting(v, n);
  }

  ghost predicate ElemsWithin(v: Decoded, i: nat, d: nat)
    requires v.DArray?
  {
    forall j :: i <= j < |v.elems| ==> Exact(v.elems[j]) && Depth(TreeOf(v.elems[j])) <= d
  }

  lemma {:induction false} ElemsNesting(v: Decoded, i: nat, d: nat)
    requires Exact(v) && v.DArray? && i < |v.elems|
    ensures ElemsDepth(ElemsTree(v, i)) <= d <==> ElemsWithin(v, i, d)
    decreases |v.elems| - i
  {
    hide Exact, TreeOf, Depth;
    ExactElem(v, i);
    if i + 1 < |v.elems| {
      ElemsNesting(v, i + 1, d);
      assert ElemsWithin(v, i, d) <==> Depth(TreeOf(v.elems[i])) <= d && ElemsWithin(v, i + 1, d);
    }
  }

  lemma ArrayNesting(v: Decoded, n: nat)
    requires Exact(v) && v.DArray?
    ensures Depth(TreeOf(v)) <= n <==> n > 0 && ElemsWithin(v, 0, n - 1)
  {
    hide Exact, ElemsTree, ElemsDepth, ElemsWithin;
    if v.elems != [] {
      if n > 0 { ElemsNesting(v, 0, n - 1); }
    } else {
      NothingWithin(v);
    }
  }

  lemma NothingWithin(v: Decoded)
    requires v.DArray? && v.elems == []
    ensures forall d :: ElemsWithin(v, 0, d)
  {
  }

  ghost predicate EntriesWithin(v: Decoded, keys: seq<Text>, d: nat)
    requires v.DMap?
  {
    forall k <- keys :: k in v.entries && Exact(v.entries[k]) && Depth(TreeOf(v.entries[k])) <= d
  }

  lemma {:induction false} MembersNesting(v: Decoded, keys: seq<Text>, d: nat)
    requires Exact(v) && v.DMap? && keys != [] && forall k <- keys :: k in v.entries
    ensures MembersDepth(MembersTree(v, keys)) <= d <==> EntriesWithin(v, keys, d)
    decreases |keys|
  {
    hide Exact, TreeOf, Depth, Units;
    assert keys[0] in keys;
    ExactEntry(v, keys[0]);
    if |keys| > 1 {
      MembersNesting(v, keys[1..], d);
      assert keys == [keys[0]] + keys[1..];
      assert EntriesWithin(v, keys, d) <==> Depth(TreeOf(v.entries[keys[0]])) <= d && EntriesWithin(v, keys[1..], d);
    }
  }

  lemma MapNesting(v: Decoded, n: nat)
    requires Exact(v) && v.DMap?
    ensures Depth(TreeOf(v)) <= n
            <==> n > 0 && forall k <- v.entries :: Exact(v.entries[k]) && Depth(TreeOf(v.entries[k])) <= n - 1
  {
    hide Exact, MembersTree, MembersDepth, Sorted;
    var keys := Sorted(v.entries.Keys);
    if v.entries != map[] {
      if n > 0 { MembersNesting(v, keys, n - 1); }
    }
  }

  // ----- the theorem -----

  /** The text of a value stands for the value. */
  lemma TextMeans(v: Decoded, u: Utf8)
    requires Exact(v) && Readable(v, u) && Decodes(u) && Depth(TreeOf(v)) <= MaxNestingDepth
    ensures JsonText(TextOf(v)) && Meaning(TextOf(v), u) == v
  {
    hide Exact, Readable, Decodes, TreeOf, ValueText, Depth, Ok, ValueOf, Meaning, JsonText;
    TreeOk(v);
    TreeMeans(v, u);
    var e := Elem([], TreeOf(v), []);
    assert ElemText(e) == TextOf(v);
    MeaningOf(e, u);
  }

  /** If it is nested too deep, the text is not accepted. */
  lemma TooDeep(v: Decoded)
    requires Exact(v) && Depth(TreeOf(v)) > MaxNestingDepth
    ensures !JsonText(TextOf(v))
  {
    hide Exact, TreeOf, ValueText, Depth, Ok;
    TreeOk(v);
    var e := Elem([], TreeOf(v), []);
    assert ElemText(e) == TextOf(v);
    if JsonText(TextOf(v)) { SameDepth(e, Parsed(TextOf(v))); }
  }

  /** Decoding what was encoded gives the value back exactly when it has at most MaxNestingDepth levels
      of arrays and maps; otherwise decoding refuses the text. */
  lemma RoundTrip(h: C.Heap, kinds: Scalars, x: C.Obj, t: Text, m: nat, u: Utf8)
    requires IsText(h, kinds, x, m, t) && Readable(Unfold(h, kinds, x, m).value, u) && Decodes(u)
    ensures JsonText(t) <==> Unfold(h, kinds, x, MaxNestingDepth).Some?
    ensures JsonText(t) ==> Meaning(t, u) == Unfold(h, kinds, x, m).value
  {
    hide Exact, Readable, Decodes, TreeOf, Depth, Unfold, Meaning, JsonText;
    var v := Unfold(h, kinds, x, m).value;
    Nesting(h, kinds, x, m, MaxNestingDepth);
    if Depth(TreeOf(v)) <= MaxNestingDepth { TextMeans(v, u); } else { TooDeep(v); }
  }
}
