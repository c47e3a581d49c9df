/** Constants on file: SizeOfObject, MarshalObject and UnmarshalObject (vm/encoding.go:97-825) over the
    codec of vm/codec/encoding.go. */
module ObjectCodec {
  import opened Wrappers
  import opened Instructions
  import opened Varint

  type Bytes = seq<byte>

  // ----- the fields of flat objects -----

  /** How one field is written. Booleans are numbers here, and floats are their bits. */
  datatype Kind =
    | KByte | KBool | KInt(width: nat) | KUint(width: nat) | KVarint | KBytes | KStrings | KIntMap | KNoFree

  /** A field as it is written: the entries of a map in the order they are ranged over. */
  datatype Field =
    | Num(n: int)
    | Str(bytes: Bytes)
    | Strs(strings: seq<Bytes>)
    | Ints(entries: seq<(int, int)>)
    | NoFree

  /** A field as it is read. */
  datatype FieldValue = Plain(f: Field) | IntMap(m: map<int, int>)

  const CodeArray: byte := 9
  const CodeMap: byte := 10
  const CodeError: byte := 15

  /** The fields of each type code; None for the codes that are not flat or that nothing has. */
  function Schema(code: byte): Option<seq<Kind>> {
    match code
    case 1 => Some([])                                                    // undefined
    case 2 => Some([KBool])                                               // bool
    case 3 => Some([KBytes])                                              // bytes
    case 4 => Some([KInt(4)])                                             // char
    case 5 => Some([KInt(8)])                                             // int
    case 6 => Some([KUint(8)])                                            // float64
    case 7 => Some([KBytes])                                              // string
    case 14 => Some([KBytes, KVarint, KVarint, KBool, KIntMap, KNoFree])  // compiled function
    case 16 => Some([KUint(4)])                                           // float32
    case 17 => Some([KByte])                                              // byte
    case 18 => Some([KByte])                                              // int8, by its bits
    case 19 => Some([KByte])                                              // uint8
    case 20 => Some([KInt(2)])                                            // int16
    case 21 => Some([KUint(2)])                                           // uint16
    case 22 => Some([KUint(4)])                                           // uint
    case 23 => Some([KUint(8)])                                           // uint64
    case 25 => Some([KInt(4)])                                            // int32
    case 104 => Some([KBytes])                                            // builtin function
    case 105 => Some([KInt(8), KInt(8), KInt(8)])                         // range
    // user type
    case 106 => Some([KBytes, KByte, KStrings, KStrings, KStrings, KStrings, KBool, KVarint, KBytes, KBytes])
    case _ => None
  }

  // ----- encoding -----

  /** What stands behind every list and map. */
  const Terminator: Bytes := [1, 1, 1, 1]

  function Zig64(n: int): nat { ZigZag(n, MaxUint64) }

  function StrCode(s: Bytes): Bytes { Uvarint(|s|) + s }

  function StrsCode(ss: seq<Bytes>): Bytes { if ss == [] then Terminator else StrCode(ss[0]) + StrsCode(ss[1..]) }

  function IntsCode(es: seq<(int, int)>): Bytes {
    if es == [] then Terminator else Uvarint(Zig64(es[0].0)) + (Uvarint(Zig64(es[0].1)) + IntsCode(es[1..]))
  }

  predicate WidthOk(k: Kind) {
    match k
    case KInt(w) => w in {2, 4, 8}
    case KUint(w) => w in {2, 4, 8}
    case _ => true
  }

  /** Values within the range of their Go types, and nothing longer than an address space. */
  predicate FieldOk(k: Kind, f: Field) {
    WidthOk(k) &&
    match k
    case KByte => f.Num? && 0 <= f.n < 0x100
    case KBool => f.Num? && 0 <= f.n <= 1
    case KInt(w) => f.Num? && Fits(f.n, Pow256(w) / 2)
    case KUint(w) => f.Num? && 0 <= f.n < Pow256(w)
    case KVarint => f.Num? && Fits(f.n, MaxUint64 / 2)
    case KBytes => f.Str? && |f.bytes| < MaxUint64
    case KStrings => f.Strs? && |f.strings| < MaxUint64 && forall s <- f.strings :: |s| < MaxUint64
    case KIntMap =>
      f.Ints? && |f.entries| < MaxUint64
      && forall e <- f.entries :: Fits(e.0, MaxUint64 / 2) && Fits(e.1, MaxUint64 / 2)
    case KNoFree => f.NoFree?
  }

  function FieldCode(k: Kind, f: Field): Bytes
    requires FieldOk(k, f)
  {
    match k
    case KByte => [f.n]
    case KBool => [f.n]
    case KInt(w) => Le(ZigZag(f.n, Pow256(w)), w)
    case KUint(w) => Le(f.n, w)
    case KVarint => Uvarint(Zig64(f.n))
    case KBytes => StrCode(f.bytes)
    case KStrings => Uvarint(|f.strings|) + StrsCode(f.strings)
    case KIntMap => Uvarint(|f.entries|) + IntsCode(f.entries)
    case KNoFree => Uvarint(0) + Terminator
  }

  /** A map filled entry by entry. */
  function AsMap<K, V>(es: seq<(K, V)>): map<K, V> {
    if es == [] then map[] else AsMap(es[..|es| - 1])[es[|es| - 1].0 := es[|es| - 1].1]
  }

  function FieldMeaning(f: Field): FieldValue { if f.Ints? then IntMap(AsMap(f.entries)) else Plain(f) }

  // ----- decoding -----

  function ReadBytes(b: Bytes, n: nat): (r: Result<Bytes>)
    requires n <= |b|
    ensures r.Ok? ==> n < r.end <= |b|
  {
    match ReadUvarint(b, n, 0, 0)
    case Ok(m, len) => if m > |b| || |b| - m < len then TooSmall else Ok(m + len, b[m..m + len])
    case TooSmall => TooSmall
    case Overflow => Overflow
  }

  function ReadInt(b: Bytes, n: nat): (r: Result<int>)
    requires n <= |b|
    ensures r.Ok? ==> n < r.end
  {
    match ReadUvarint(b, n, 0, 0)
    case Ok(m, z) => Ok(m, UnZigZag(z, MaxUint64))
    case TooSmall => TooSmall
    case Overflow => Overflow
  }

  function ReadStrs(b: Bytes, n: nat, count: nat, done: seq<Bytes>): (r: Result<seq<Bytes>>)
    ensures r.Ok? ==> n < r.end
    decreases count
  {
    if n > |b| then TooSmall
    else if count == 0 then Ok(n + 4, done)
    else
      match ReadBytes(b, n)
      case Ok(m, s) => ReadStrs(b, m, count - 1, done + [s])
      case TooSmall => TooSmall
      case Overflow => Overflow
  }

  function ReadInts(b: Bytes, n: nat, count: nat, done: map<int, int>): (r: Result<map<int, int>>)
    ensures r.Ok? ==> n < r.end
    decreases count
  {
    if n > |b| then TooSmall
    else if count == 0 then Ok(n + 4, done)
    else
      match ReadInt(b, n)
      case TooSmall => TooSmall
      case Overflow => Overflow
      case Ok(m, k) =>
        if m > |b| then TooSmall
        else
          match ReadInt(b, m)
          case Ok(l, v) => ReadInts(b, l, count - 1, done[k := v])
          case TooSmall => TooSmall
          case Overflow => Overflow
  }

  function ReadField(b: Bytes, n: nat, k: Kind): (r: Result<FieldValue>)
    ensures r.Ok? ==> n <= r.end
  {
    if n > |b| then TooSmall
    else
      match k
      case KByte => if n == |b| then TooSmall else Ok(n + 1, Plain(Num(b[n])))
      case KBool => if n == |b| then TooSmall else Ok(n + 1, Plain(Num(if b[n] == 1 then 1 else 0)))
      case KInt(w) => if |b| - n < w then TooSmall else Ok(n + w, Plain(Num(UnZigZag(LeValue(b[n..n + w]), Pow256(w)))))
      case KUint(w) => if |b| - n < w then TooSmall else Ok(n + w, Plain(Num(LeValue(b[n..n + w]))))
      case KVarint =>
        (match ReadInt(b, n)
         case Ok(m, v) => Ok(m, Plain(Num(v)))
         case TooSmall => TooSmall
         case Overflow => Overflow)
      case KBytes =>
        (match ReadBytes(b, n)
         case Ok(m, s) => Ok(m, Plain(Str(s)))
         case TooSmall => TooSmall
         case Overflow => Overflow)
      case KStrings => ReadStrings(b, n)
      case KIntMap => ReadIntMap(b, n)
      case KNoFree => ReadNoFree(b, n)
  }

  function ReadStrings(b: Bytes, n: nat): (r: Result<FieldValue>)
    requires n <= |b|
    ensures r.Ok? ==> n < r.end
  {
    match ReadUvarint(b, n, 0, 0)
    case TooSmall => TooSmall
    case Overflow => Overflow
    case Ok(m, count) =>
      if m > |b| || count > |b| - m then TooSmall
      else
        match ReadStrs(b, m, count, [])
        case Ok(l, ss) => Ok(l, Plain(Strs(ss)))
        case TooSmall => TooSmall
        case Overflow => Overflow
  }

  function ReadIntMap(b: Bytes, n: nat): (r: Result<FieldValue>)
    requires n <= |b|
    ensures r.Ok? ==> n < r.end
  {
    match ReadUvarint(b, n, 0, 0)
    case TooSmall => TooSmall
    case Overflow => Overflow
    case Ok(m, count) =>
      match ReadInts(b, m, count, map[])
      case Ok(l, es) => Ok(l, IntMap(es))
      case TooSmall => TooSmall
      case Overflow => Overflow
  }

  /** A list of captured cells; only the empty one is modelled. */
  function ReadNoFree(b: Bytes, n: nat): (r: Result<FieldValue>)
    requires n <= |b|
    ensures r.Ok? ==> n < r.end
  {
    match ReadUvarint(b, n, 0, 0)
    case TooSmall => TooSmall
    case Overflow => Overflow
    case Ok(m, count) => if count == 0 then Ok(m + 4, Plain(NoFree)) else TooSmall
  }

  // ----- every field is read back -----

  lemma BytesRead(b: Bytes, n: nat, s: Bytes)
    requires |s| < MaxUint64 && At(b, n, StrCode(s))
    ensures n <= |b| && ReadBytes(b, n) == Ok(n + |StrCode(s)|, s) && n + |StrCode(s)| <= |b|
  {
    hide Uvarint, ReadUvarint;
    AtParts(b, n, Uvarint(|s|), s);
    UvarintRoundTrip(b, n, |s|);
  }

  lemma IntRead(b: Bytes, n: nat, v: int)
    requires Fits(v, MaxUint64 / 2) && At(b, n, Uvarint(Zig64(v)))
    ensures n <= |b| && ReadInt(b, n) == Ok(n + |Uvarint(Zig64(v))|, v) && n + |Uvarint(Zig64(v))| <= |b|
  {
    hide Uvarint, ReadUvarint, ZigZag, UnZigZag;
    ZigZagRoundTrip(v, MaxUint64 / 2);
    UvarintRoundTrip(b, n, Zig64(v));
  }

  lemma {:induction false} StrsRead(b: Bytes, n: nat, ss: seq<Bytes>, done: seq<Bytes>)
    requires At(b, n, StrsCode(ss)) && forall s <- ss :: |s| < MaxUint64
    ensures ReadStrs(b, n, |ss|, done) == Ok(n + |StrsCode(ss)|, done + ss)
    decreases |ss|
  {
    hide ReadBytes, StrCode, At;
    if ss == [] {
      assert done + ss == done;
      AtInside(b, n, StrsCode(ss));
    } else {
      AtParts(b, n, StrCode(ss[0]), StrsCode(ss[1..]));
      BytesRead(b, n, ss[0]);
      StrsRead(b, n + |StrCode(ss[0])|, ss[1..], done + [ss[0]]);
      assert done + [ss[0]] + ss[1..] == done + ss;
    }
  }

  lemma AtInside(b: Bytes, n: nat, bs: Bytes)
    requires At(b, n, bs)
    ensures n + |bs| <= |b|
  {
  }

  lemma AsMapNext<K, V>(es: seq<(K, V)>, e: (K, V))
    ensures AsMap(es + [e]) == AsMap(es)[e.0 := e.1]
  {
    assert (es + [e])[..|es|] == es;
  }

  lemma {:induction false} IntsRead(b: Bytes, n: nat, es: seq<(int, int)>, before: seq<(int, int)>)
    requires At(b, n, IntsCode(es)) && forall e <- es :: Fits(e.0, MaxUint64 / 2) && Fits(e.1, MaxUint64 / 2)
    ensures ReadInts(b, n, |es|, AsMap(before)) == Ok(n + |IntsCode(es)|, AsMap(before + es))
    decreases |es|
  {
    hide ReadInt, Uvarint, Zig64, At, AsMap;
    if es == [] {
      assert before + es == before;
      AtInside(b, n, IntsCode(es));
    } else {
      var e, k, v := es[0], Uvarint(Zig64(es[0].0)), Uvarint(Zig64(es[0].1));
      AtParts(b, n, k, v + IntsCode(es[1..]));
      AtParts(b, n + |k|, v, IntsCode(es[1..]));
      IntRead(b, n, e.0);
      IntRead(b, n + |k|, e.1);
      AsMapNext(before, e);
      IntsRead(b, n + |k| + |v|, es[1..], before + [e]);
      assert before + [e] + es[1..] == before + es;
    }
  }

  lemma FixedRead(b: Bytes, n: nat, v: nat, w: nat)
    requires v < Pow256(w) && At(b, n, Le(v, w))
    ensures n + w <= |b| && LeValue(b[n..n + w]) == v
  {
    hide Le, LeValue, Pow256;
    LeRoundTrip(v, w);
  }

  lemma ZigFits(n: int, w: nat)
    requires w in {2, 4, 8} && Fits(n, Pow256(w) / 2)
    ensures ZigZag(n, Pow256(w)) < Pow256(w) && UnZigZag(ZigZag(n, Pow256(w)), Pow256(w)) == n
  {
    hide ZigZag, UnZigZag;
    Widths256();
    ZigZagRoundTrip(n, Pow256(w) / 2);
  }

  lemma NumberRead(b: Bytes, n: nat, k: Kind, f: Field)
    requires FieldOk(k, f) && At(b, n, FieldCode(k, f)) && (k.KByte? || k.KBool? || k.KInt? || k.KUint? || k.KVarint?)
    ensures ReadField(b, n, k) == Ok(n + |FieldCode(k, f)|, Plain(f))
    ensures n + |FieldCode(k, f)| <= |b|
  {
    hide Le, LeValue, Pow256, ZigZag, UnZigZag, Uvarint, ReadUvarint, ReadInt;
    match k
    case KByte => AtFirst(b, n, [f.n]);
    case KBool => AtFirst(b, n, [f.n]);
    case KInt(w) =>
      ZigFits(f.n, w);
      FixedRead(b, n, ZigZag(f.n, Pow256(w)), w);
    case KUint(w) => FixedRead(b, n, f.n, w);
    case KVarint => IntRead(b, n, f.n);
  }

  lemma ListRead(b: Bytes, n: nat, k: Kind, f: Field)
    requires FieldOk(k, f) && At(b, n, FieldCode(k, f)) && (k.KBytes? || k.KStrings? || k.KIntMap? || k.KNoFree?)
    ensures ReadField(b, n, k) == Ok(n + |FieldCode(k, f)|, FieldMeaning(f))
    ensures n + |FieldCode(k, f)| <= |b|
  {
    hide Uvarint, ReadUvarint, ReadBytes, ReadStrs, ReadInts, StrsCode, IntsCode, StrCode;
    AtInside(b, n, FieldCode(k, f));
    match k
    case KBytes => BytesRead(b, n, f.bytes);
    case KStrings =>
      var ss, u := f.strings, Uvarint(|f.strings|);
      AtParts(b, n, u, StrsCode(ss));
      UvarintRoundTrip(b, n, |ss|);
      StrsRead(b, n + |u|, ss, []);
      ManyBytes(ss);
      AtInside(b, n + |u|, StrsCode(ss));
      assert [] + ss == ss;
    case KIntMap =>
      var es, u := f.entries, Uvarint(|f.entries|);
      AtParts(b, n, u, IntsCode(es));
      UvarintRoundTrip(b, n, |es|);
      IntsRead(b, n + |u|, es, []);
      assert [] + es == es;
    case KNoFree =>
      AtParts(b, n, Uvarint(0), Terminator);
      UvarintRoundTrip(b, n, 0);
  }

  /** Every element takes at least one byte, so the guard against absurd counts does not apply. */
  lemma {:induction false} ManyBytes(ss: seq<Bytes>)
    ensures |ss| + 4 <= |StrsCode(ss)|
    decreases |ss|
  {
    if ss != [] { ManyBytes(ss[1..]); }
  }

  lemma FieldRead(b: Bytes, n: nat, k: Kind, f: Field)
    requires FieldOk(k, f) && At(b, n, FieldCode(k, f))
    ensures ReadField(b, n, k) == Ok(n + |FieldCode(k, f)|, FieldMeaning(f))
    ensures n + |FieldCode(k, f)| <= |b|
  {
    hide FieldCode, ReadField, At;
    if k.KByte? || k.KBool? || k.KInt? || k.KUint? || k.KVarint? {
      NumberRead(b, n, k, f);
    } else {
      ListRead(b, n, k, f);
    }
  }

  // ----- objects -----

  datatype Obj =
    | Nil
    | Flat(code: byte, fields: seq<Field>)
    | Array(frozen: bool, elems: seq<Obj>)
    | Map(frozen: bool, modName: Bytes, entries: seq<Entry>)     // in the order they are written
    | Error(value: Obj)

  datatype Entry = Entry(key: Bytes, value: Obj)

  /** An object as a program sees it. */
  datatype Val =
    | VNil
    | VFlat(code: byte, fields: seq<FieldValue>)
    | VArray(frozen: bool, elems: seq<Val>)
    | VMap(frozen: bool, modName: Bytes, entries: map<Bytes, Val>)
    | VError(value: Val)

  predicate FieldsOk(ks: seq<Kind>, fs: seq<Field>) {
    |ks| == |fs| && forall i :: 0 <= i < |ks| ==> FieldOk(ks[i], fs[i])
  }

  predicate Serialisable(o: Obj) {
    match o
    case Nil => true
    case Flat(code, fields) => Schema(code).Some? && FieldsOk(Schema(code).value, fields)
    case Array(_, es) => |es| < MaxUint64 && forall e <- es :: Serialisable(e)
    case Map(_, name, es) =>
      |name| < MaxUint64 && |es| < MaxUint64 && forall e <- es :: |e.key| < MaxUint64 && Serialisable(e.value)
    case Error(v) => Serialisable(v)
  }

  function FieldsCode(ks: seq<Kind>, fs: seq<Field>): Bytes
    requires FieldsOk(ks, fs)
  {
    if ks == [] then [] else FieldCode(ks[0], fs[0]) + FieldsCode(ks[1..], fs[1..])
  }

  function Bit(b: bool): byte { if b then 1 else 0 }

  function Code(o: Obj): (bs: Bytes)
    requires Serialisable(o)
    ensures |bs| > 0
    decreases o, 1
  {
    match o
    case Nil => [0]
    case Flat(code, fields) => [code] + FieldsCode(Schema(code).value, fields)
    case Array(frozen, es) => [CodeArray] + ([Bit(frozen)] + (Uvarint(|es|) + ElemsCode(es)))
    case Map(frozen, name, es) => [CodeMap] + ([Bit(frozen)] + (StrCode(name) + (Uvarint(|es|) + EntriesCode(es))))
    case Error(v) => [CodeError] + Code(v)
  }

  function ElemsCode(es: seq<Obj>): Bytes
    requires forall e <- es :: Serialisable(e)
    decreases es, 0
  {
    if es == [] then Terminator else Code(es[0]) + ElemsCode(es[1..])
  }

  function EntriesCode(es: seq<Entry>): Bytes
    requires forall e <- es :: |e.key| < MaxUint64 && Serialisable(e.value)
    decreases es, 0
  {
    if es == [] then Terminator else StrCode(es[0].key) + (Code(es[0].value) + EntriesCode(es[1..]))
  }

  // ----- sizes -----

  /** SizeOfObject adds up sizes without writing anything. */
  function Size(o: Obj): nat
    requires Serialisable(o)
    decreases o, 1
  {
    match o
    case Nil => 1
    case Flat(code, fields) => 1 + FieldsSize(Schema(code).value, fields)
    case Array(_, es) => 1 + 1 + (4 + |Uvarint(|es|)| + ElemsSize(es))
    case Map(_, name, es) => 1 + 1 + StrSize(name) + (4 + |Uvarint(|es|)| + EntriesSize(es))
    case Error(v) => 1 + Size(v)
  }

  function StrSize(s: Bytes): nat { |s| + |Uvarint(|s|)| }

  function FieldSize(k: Kind, f: Field): nat
    requires FieldOk(k, f)
  {
    match k
    case KByte => 1
    case KBool => 1
    case KInt(w) => w
    case KUint(w) => w
    case KVarint => |Uvarint(Zig64(f.n))|
    case KBytes => StrSize(f.bytes)
    case KStrings => 4 + |Uvarint(|f.strings|)| + StrsSize(f.strings)
    case KIntMap => 4 + |Uvarint(|f.entries|)| + IntsSize(f.entries)
    case KNoFree => 4 + |Uvarint(0)|
  }

  function StrsSize(ss: seq<Bytes>): nat { if ss == [] then 0 else StrSize(ss[0]) + StrsSize(ss[1..]) }

  function IntsSize(es: seq<(int, int)>): nat {
    if es == [] then 0 else |Uvarint(Zig64(es[0].0))| + |Uvarint(Zig64(es[0].1))| + IntsSize(es[1..])
  }

  function FieldsSize(ks: seq<Kind>, fs: seq<Field>): nat
    requires FieldsOk(ks, fs)
  {
    if ks == [] then 0 else FieldSize(ks[0], fs[0]) + FieldsSize(ks[1..], fs[1..])
  }

  function ElemsSize(es: seq<Obj>): nat
    requires forall e <- es :: Serialisable(e)
    decreases es, 0
  {
    if es == [] then 0 else Size(es[0]) + ElemsSize(es[1..])
  }

  function EntriesSize(es: seq<Entry>): nat
    requires forall e <- es :: |e.key| < MaxUint64 && Serialisable(e.value)
    decreases es, 0
  {
    if es == [] then 0 else StrSize(es[0].key) + Size(es[0].value) + EntriesSize(es[1..])
  }

  lemma {:induction false} StrsSizeOk(ss: seq<Bytes>)
    ensures |StrsCode(ss)| == 4 + StrsSize(ss)
    decreases |ss|
  {
    if ss != [] { StrsSizeOk(ss[1..]); }
  }

  lemma {:induction false} IntsSizeOk(es: seq<(int, int)>)
    ensures |IntsCode(es)| == 4 + IntsSize(es)
    decreases |es|
  {
    hide Zig64;
    if es != [] { IntsSizeOk(es[1..]); }
  }

  lemma {:induction false} FieldsSizeOk(ks: seq<Kind>, fs: seq<Field>)
    requires FieldsOk(ks, fs)
    ensures |FieldsCode(ks, fs)| == FieldsSize(ks, fs)
    decreases |ks|
  {
    hide StrsCode, IntsCode, StrsSize, IntsSize, ZigZag, Uvarint;
    if ks != [] {
      FieldsSizeOk(ks[1..], fs[1..]);
      if ks[0].KStrings? { StrsSizeOk(fs[0].strings); }
      if ks[0].KIntMap? { IntsSizeOk(fs[0].entries); }
    }
  }

  /** MarshalObject writes exactly as many bytes as SizeOfObject has announced. */
  lemma {:induction false} SizeIsExact(o: Obj)
    requires Serialisable(o)
    ensures |Code(o)| == Size(o)
    decreases o, 1
  {
    hide FieldsCode, FieldsSize, Uvarint, Schema;
    match o
    case Nil =>
    case Flat(code, fields) => FieldsSizeOk(Schema(code).value, fields);
    case Array(_, es) => ElemsSizeOk(es);
    case Map(_, _, es) => EntriesSizeOk(es);
    case Error(v) => SizeIsExact(v);
  }

  lemma {:induction false} ElemsSizeOk(es: seq<Obj>)
    requires forall e <- es :: Serialisable(e)
    ensures |ElemsCode(es)| == 4 + ElemsSize(es)
    decreases es, 0
  {
    hide Code, Size, Serialisable;
    if es != [] {
      SizeIsExact(es[0]);
      ElemsSizeOk(es[1..]);
    }
  }

  lemma {:induction false} EntriesSizeOk(es: seq<Entry>)
    requires forall e <- es :: |e.key| < MaxUint64 && Serialisable(e.value)
    ensures |EntriesCode(es)| == 4 + EntriesSize(es)
    decreases es, 0
  {
    hide Code, Size, Serialisable, Uvarint;
    if es != [] {
      SizeIsExact(es[0].value);
      EntriesSizeOk(es[1..]);
    }
  }

  // ----- what is read -----

  function FieldMeanings(fs: seq<Field>): seq<FieldValue> {
    if fs == [] then [] else [FieldMeaning(fs[0])] + FieldMeanings(fs[1..])
  }

  function Meaning(o: Obj): Val
    decreases o, 1
  {
    match o
    case Nil => VNil
    case Flat(code, fields) => VFlat(code, FieldMeanings(fields))
    case Array(frozen, es) => VArray(frozen, Meanings(es))
    case Map(frozen, name, es) => VMap(frozen, name, AsMap(EntryMeanings(es)))
    case Error(v) => VError(Meaning(v))
  }

  function Meanings(es: seq<Obj>): seq<Val>
    decreases es, 0
  {
    if es == [] then [] else [Meaning(es[0])] + Meanings(es[1..])
  }

  function EntryMeanings(es: seq<Entry>): seq<(Bytes, Val)>
    decreases es, 0
  {
    if es == [] then [] else [(es[0].key, Meaning(es[0].value))] + EntryMeanings(es[1..])
  }

  function ReadFields(b: Bytes, n: nat, ks: seq<Kind>, done: seq<FieldValue>): (r: Result<seq<FieldValue>>)
    ensures r.Ok? ==> n <= r.end
    decreases |ks|
  {
    if ks == [] then Ok(n, done)
    else
      match ReadField(b, n, ks[0])
      case Ok(m, f) => ReadFields(b, m, ks[1..], done + [f])
      case TooSmall => TooSmall
      case Overflow => Overflow
  }

  function Left(b: Bytes, n: nat): nat { if n <= |b| then |b| - n else 0 }

  /** UnmarshalObject. An unknown type code and a buffer that ends are both errors. */
  function Read(b: Bytes, n: nat): (r: Result<Val>)
    ensures r.Ok? ==> n < |b| && n < r.end
    decreases Left(b, n), 1
  {
    if n >= |b| then TooSmall
    else if b[n] == 0 then Ok(n + 1, VNil)
    else if b[n] == CodeArray then ReadArray(b, n + 1)
    else if b[n] == CodeMap then ReadMap(b, n + 1)
    else if b[n] == CodeError then
      match Read(b, n + 1)
      case Ok(m, v) => Ok(m, VError(v))
      case TooSmall => TooSmall
      case Overflow => Overflow
    else ReadFlat(b, n + 1, b[n])
  }

  function ReadFlat(b: Bytes, n: nat, code: byte): (r: Result<Val>)
    ensures r.Ok? ==> n <= r.end
  {
    match Schema(code)
    case None => TooSmall
    case Some(ks) =>
      match ReadFields(b, n, ks, [])
      case Ok(m, fs) => Ok(m, VFlat(code, fs))
      case TooSmall => TooSmall
      case Overflow => Overflow
  }

  function ReadArray(b: Bytes, n: nat): (r: Result<Val>)
    ensures r.Ok? ==> n < r.end
    decreases Left(b, n), 0
  {
    if n >= |b| then TooSmall
    else
      match ReadUvarint(b, n + 1, 0, 0)
      case TooSmall => TooSmall
      case Overflow => Overflow
      case Ok(m, count) =>
        if m > |b| || count > |b| - m then TooSmall
        else
          match ReadElems(b, m, count, [])
          case Ok(l, vs) => Ok(l, VArray(b[n] == 1, vs))
          case TooSmall => TooSmall
          case Overflow => Overflow
  }

  function ReadElems(b: Bytes, n: nat, count: nat, done: seq<Val>): (r: Result<seq<Val>>)
    ensures r.Ok? ==> n < r.end
    decreases Left(b, n), 2
  {
    if count == 0 then Ok(n + 4, done)
    else
      match Read(b, n)
      case Ok(m, v) => ReadElems(b, m, count - 1, done + [v])
      case TooSmall => TooSmall
      case Overflow => Overflow
  }

  function ReadMap(b: Bytes, n: nat): (r: Result<Val>)
    ensures r.Ok? ==> n < r.end
    decreases Left(b, n), 0
  {
    if n >= |b| then TooSmall
    else
      match ReadBytes(b, n + 1)
      case TooSmall => TooSmall
      case Overflow => Overflow
      case Ok(m, name) =>
        if m > |b| then TooSmall
        else
          match ReadUvarint(b, m, 0, 0)
          case TooSmall => TooSmall
          case Overflow => Overflow
          case Ok(l, count) =>
            match ReadEntries(b, l, count, map[])
            case Ok(j, es) => Ok(j, VMap(b[n] == 1, name, es))
            case TooSmall => TooSmall
            case Overflow => Overflow
  }

  function ReadEntries(b: Bytes, n: nat, count: nat, done: map<Bytes, Val>): (r: Result<map<Bytes, Val>>)
    ensures r.Ok? ==> n < r.end
    decreases Left(b, n), 2
  {
    if n > |b| then TooSmall
    else if count == 0 then Ok(n + 4, done)
    else
      match ReadBytes(b, n)
      case TooSmall => TooSmall
      case Overflow => Overflow
      case Ok(m, k) =>
        match Read(b, m)
        case Ok(l, v) => ReadEntries(b, l, count - 1, done[k := v])
        case TooSmall => TooSmall
        case Overflow => Overflow
  }

  // ----- the round trip -----

  lemma {:induction false} FieldsRead(b: Bytes, n: nat, ks: seq<Kind>, fs: seq<Field>, done: seq<FieldValue>)
    requires FieldsOk(ks, fs) && At(b, n, FieldsCode(ks, fs))
    ensures ReadFields(b, n, ks, done) == Ok(n + |FieldsCode(ks, fs)|, done + FieldMeanings(fs))
    decreases |ks|
  {
    hide ReadField, FieldCode, FieldMeaning, At;
    if ks == [] {
      assert done + [] == done;
    } else {
      AtParts(b, n, FieldCode(ks[0], fs[0]), FieldsCode(ks[1..], fs[1..]));
      FieldRead(b, n, ks[0], fs[0]);
      FieldsRead(b, n + |FieldCode(ks[0], fs[0])|, ks[1..], fs[1..], done + [FieldMeaning(fs[0])]);
      assert done + [FieldMeaning(fs[0])] + FieldMeanings(fs[1..]) == done + FieldMeanings(fs);
    }
  }

  /** UnmarshalObject, at the offset where the object was written, gives back the object and the
      offset behind it. */
  lemma {:induction false} ObjectRead(b: Bytes, n: nat, o: Obj)
    requires Serialisable(o) && At(b, n, Code(o))
    ensures Read(b, n) == Ok(n + |Code(o)|, Meaning(o))
    decreases o, 1
  {
    hide Code, Read, Meaning, At;
    match o
    case Nil => NilRead(b, n);
    case Flat(_, _) => FlatRead(b, n, o);
    case Array(_, es) =>
      ArrayParts(b, n, o);
      ElemsRead(b, n + 2 + |Uvarint(|es|)|, es, []);
      ArrayRead(b, n, o);
    case Map(_, name, es) =>
      MapParts(b, n, o);
      EntriesRead(b, n + 2 + |StrCode(name)| + |Uvarint(|es|)|, es, []);
      MapRead(b, n, o);
    case Error(v) =>
      ErrorParts(b, n, o);
      ObjectRead(b, n + 1, v);
      ErrorRead(b, n, o);
  }

  lemma NilRead(b: Bytes, n: nat)
    requires At(b, n, Code(Nil))
    ensures Read(b, n) == Ok(n + |Code(Nil)|, Meaning(Nil))
  {
    AtFirst(b, n, [0]);
  }

  lemma FlatRead(b: Bytes, n: nat, o: Obj)
    requires o.Flat? && Serialisable(o) && At(b, n, Code(o))
    ensures Read(b, n) == Ok(n + |Code(o)|, Meaning(o))
  {
    hide FieldsCode, ReadFields, FieldMeanings, FieldsOk;
    FlatCodes(o.code);
    var ks := Schema(o.code).value;
    AtFirst(b, n, Code(o));
    AtParts(b, n, [o.code], FieldsCode(ks, o.fields));
    FieldsRead(b, n + 1, ks, o.fields, []);
    assert [] + FieldMeanings(o.fields) == FieldMeanings(o.fields);
  }

  lemma FlatCodes(code: byte)
    requires Schema(code).Some?
    ensures code !in {0, CodeArray, CodeMap, CodeError}
  {
  }

  lemma ErrorParts(b: Bytes, n: nat, o: Obj)
    requires o.Error? && Serialisable(o) && At(b, n, Code(o))
    ensures n < |b| && b[n] == CodeError && At(b, n + 1, Code(o.value))
  {
    AtFirst(b, n, Code(o));
    AtParts(b, n, [CodeError], Code(o.value));
  }

  lemma ErrorRead(b: Bytes, n: nat, o: Obj)
    requires o.Error? && Serialisable(o) && n < |b| && b[n] == CodeError
    requires Read(b, n + 1) == Ok(n + 1 + |Code(o.value)|, Meaning(o.value))
    ensures Read(b, n) == Ok(n + |Code(o)|, Meaning(o))
  {
  }

  lemma ArrayParts(b: Bytes, n: nat, o: Obj)
    requires o.Array? && Serialisable(o) && At(b, n, Code(o))
    ensures n + 2 <= |b|
    ensures b[n] == CodeArray && b[n + 1] == Bit(o.frozen)
    ensures At(b, n + 2, Uvarint(|o.elems|)) && At(b, n + 2 + |Uvarint(|o.elems|)|, ElemsCode(o.elems))
  {
    hide Uvarint, ElemsCode, At;
    AtFirst(b, n, Code(o));
    AtParts(b, n, [CodeArray], [Bit(o.frozen)] + (Uvarint(|o.elems|) + ElemsCode(o.elems)));
    AtFirst(b, n + 1, [Bit(o.frozen)] + (Uvarint(|o.elems|) + ElemsCode(o.elems)));
    AtParts(b, n + 1, [Bit(o.frozen)], Uvarint(|o.elems|) + ElemsCode(o.elems));
    AtParts(b, n + 2, Uvarint(|o.elems|), ElemsCode(o.elems));
    AtInside(b, n + 2, Uvarint(|o.elems|));
  }

  lemma ArrayRead(b: Bytes, n: nat, o: Obj)
    requires o.Array? && Serialisable(o) && n + 2 <= |b| && b[n] == CodeArray && b[n + 1] == Bit(o.frozen)
    requires At(b, n + 2, Uvarint(|o.elems|)) && At(b, n + 2 + |Uvarint(|o.elems|)|, ElemsCode(o.elems))
    requires var m := n + 2 + |Uvarint(|o.elems|)|;
             ReadElems(b, m, |o.elems|, []) == Ok(m + |ElemsCode(o.elems)|, [] + Meanings(o.elems))
    ensures Read(b, n) == Ok(n + |Code(o)|, Meaning(o))
  {
    hide Uvarint, ElemsCode, At, ReadUvarint, ReadElems, Meanings;
    UvarintRoundTrip(b, n + 2, |o.elems|);
    ManyElems(o.elems);
    AtInside(b, n + 2 + |Uvarint(|o.elems|)|, ElemsCode(o.elems));
    assert [] + Meanings(o.elems) == Meanings(o.elems);
  }

  lemma {:induction false} ManyElems(es: seq<Obj>)
    requires forall e <- es :: Serialisable(e)
    ensures |es| + 4 <= |ElemsCode(es)|
    decreases |es|
  {
    hide Code, Serialisable;
    if es != [] { ManyElems(es[1..]); }
  }

  lemma {:induction false} ElemsRead(b: Bytes, n: nat, es: seq<Obj>, done: seq<Val>)
    requires (forall e <- es :: Serialisable(e)) && At(b, n, ElemsCode(es))
    ensures ReadElems(b, n, |es|, done) == Ok(n + |ElemsCode(es)|, done + Meanings(es))
    decreases es, 0
  {
    hide Code, Read, Meaning, Serialisable, At;
    if es == [] {
      assert done + [] == done;
    } else {
      AtParts(b, n, Code(es[0]), ElemsCode(es[1..]));
      ObjectRead(b, n, es[0]);
      ElemsRead(b, n + |Code(es[0])|, es[1..], done + [Meaning(es[0])]);
      assert done + [Meaning(es[0])] + Meanings(es[1..]) == done + Meanings(es);
    }
  }

  lemma MapParts(b: Bytes, n: nat, o: Obj)
    requires o.Map? && Serialisable(o) && At(b, n, Code(o))
    ensures n + 2 <= |b|
    ensures b[n] == CodeMap && b[n + 1] == Bit(o.frozen)
    ensures var m := n + 2 + |StrCode(o.modName)|;
            && At(b, n + 2, StrCode(o.modName)) && At(b, m, Uvarint(|o.entries|))
            && At(b, m + |Uvarint(|o.entries|)|, EntriesCode(o.entries))
  {
    hide Uvarint, EntriesCode, StrCode, At;
    var x := Uvarint(|o.entries|) + EntriesCode(o.entries);
    var y := StrCode(o.modName) + x;
    AtFirst(b, n, Code(o));
    AtParts(b, n, [CodeMap], [Bit(o.frozen)] + y);
    AtFirst(b, n + 1, [Bit(o.frozen)] + y);
    AtParts(b, n + 1, [Bit(o.frozen)], y);
    AtParts(b, n + 2, StrCode(o.modName), x);
    AtParts(b, n + 2 + |StrCode(o.modName)|, Uvarint(|o.entries|), EntriesCode(o.entries));
    AtInside(b, n + 2, StrCode(o.modName));
  }

  lemma MapRead(b: Bytes, n: nat, o: Obj)
    requires o.Map? && Serialisable(o) && n + 2 <= |b| && b[n] == CodeMap && b[n + 1] == Bit(o.frozen)
    requires At(b, n + 2, StrCode(o.modName)) && At(b, n + 2 + |StrCode(o.modName)|, Uvarint(|o.entries|))
    requires var m := n + 2 + |StrCode(o.modName)| + |Uvarint(|o.entries|)|;
             ReadEntries(b, m, |o.entries|, AsMap([]))
             == Ok(m + |EntriesCode(o.entries)|, AsMap([] + EntryMeanings(o.entries)))
    ensures Read(b, n) == Ok(n + |Code(o)|, Meaning(o))
  {
    hide Uvarint, EntriesCode, StrCode, At, ReadUvarint, ReadBytes, ReadEntries, EntryMeanings;
    BytesRead(b, n + 2, o.modName);
    AtInside(b, n + 2 + |StrCode(o.modName)|, Uvarint(|o.entries|));
    UvarintRoundTrip(b, n + 2 + |StrCode(o.modName)|, |o.entries|);
    assert [] + EntryMeanings(o.entries) == EntryMeanings(o.entries);
  }

  lemma {:induction false} EntriesRead(b: Bytes, n: nat, es: seq<Entry>, before: seq<(Bytes, Val)>)
    requires (forall e <- es :: |e.key| < MaxUint64 && Serialisable(e.value)) && At(b, n, EntriesCode(es))
    ensures ReadEntries(b, n, |es|, AsMap(before))
            == Ok(n + |EntriesCode(es)|, AsMap(before + EntryMeanings(es)))
    decreases es, 0
  {
    hide Code, Read, Meaning, Serialisable, At, StrCode, ReadBytes, AsMap;
    AtInside(b, n, EntriesCode(es));
    if es == [] {
      assert before + [] == before;
    } else {
      var k, v, rest := StrCode(es[0].key), Code(es[0].value), EntriesCode(es[1..]);
      var e := (es[0].key, Meaning(es[0].value));
      AtParts(b, n, k, v + rest);
      AtParts(b, n + |k|, v, rest);
      BytesRead(b, n, es[0].key);
      ObjectRead(b, n + |k|, es[0].value);
      AsMapNext(before, e);
      EntriesRead(b, n + |k| + |v|, es[1..], before + [e]);
      assert before + [e] + EntryMeanings(es[1..]) == before + EntryMeanings(es);
    }
  }

  // ----- the order of map entries -----

  /** es lists the entries of m in some order, each once. */
  predicate Lists<K(==), V(==)>(es: seq<(K, V)>, m: map<K, V>) {
    && (forall e <- es :: e.0 in m && m[e.0] == e.1)
    && (forall k <- m :: exists e <- es :: e.0 == k)
  }

  lemma {:induction false} AsMapKeys<K, V>(es: seq<(K, V)>, k: K)
    ensures k in AsMap(es) <==> exists e <- es :: e.0 == k
    decreases |es|
  {
    if es != [] {
      var n := |es| - 1;
      assert es == es[..n] + [es[n]];
      AsMapKeys(es[..n], k);
    }
  }

  lemma {:induction false} AsMapValues<K, V>(es: seq<(K, V)>, m: map<K, V>, k: K)
    requires (forall e <- es :: e.0 in m && m[e.0] == e.1) && k in AsMap(es)
    ensures k in m && AsMap(es)[k] == m[k]
    decreases |es|
  {
    var n := |es| - 1;
    assert es[n] in es;
    if k != es[n].0 {
      forall e | e in es[..n] ensures e.0 in m && m[e.0] == e.1 { assert e in es; }
      AsMapValues(es[..n], m, k);
    }
  }

  /** Whatever order the entries of a map are written in, reading gives the map. */
  lemma AnyOrder<K, V>(es: seq<(K, V)>, m: map<K, V>)
    requires Lists(es, m)
    ensures AsMap(es) == m
  {
    forall k | k in AsMap(es)
      ensures k in m && AsMap(es)[k] == m[k]
    {
      AsMapValues(es, m, k);
    }
    forall k | k in m
      ensures k in AsMap(es)
    {
      AsMapKeys(es, k);
    }
    assert AsMap(es).Keys == m.Keys;
  }

  // ----- writing -----

  method MarshalString(n: nat, b: array<byte>, s: Bytes) returns (end: nat)
    requires n + |StrCode(s)| <= b.Length
    modifies b
    ensures end == n + |StrCode(s)| && b[..] == Put(old(b[..]), n, StrCode(s))
  {
    hide Uvarint;
    PutTwice(b[..], n, Uvarint(|s|), s);
    var m := MarshalUint(n, b, |s|);
    end := MarshalRaw(m, b, s);
  }

  /** copy(b[n:], s) */
  method MarshalRaw(n: nat, b: array<byte>, s: Bytes) returns (end: nat)
    requires n + |s| <= b.Length
    modifies b
    ensures end == n + |s| && b[..] == Put(old(b[..]), n, s)
  {
    hide Put;
    PutNothing(b[..], n);
    assert s[..0] == [];
    for i := 0 to |s|
      invariant b[..] == Put(old(b[..]), n, s[..i])
    {
      PutTwice(old(b[..]), n, s[..i], [s[i]]);
      assert s[..i + 1] == s[..i] + [s[i]];
      var _ := MarshalByte(n + i, b, s[i]);
    }
    assert s[..|s|] == s;
    end := n + |s|;
  }

  method MarshalStrings(n: nat, b: array<byte>, ss: seq<Bytes>) returns (end: nat)
    requires n + |StrsCode(ss)| <= b.Length
    modifies b
    ensures end == n + |StrsCode(ss)| && b[..] == Put(old(b[..]), n, StrsCode(ss))
    decreases |ss|
  {
    hide StrCode, Put;
    if ss == [] {
      end := MarshalRaw(n, b, Terminator);
    } else {
      PutTwice(b[..], n, StrCode(ss[0]), StrsCode(ss[1..]));
      var m := MarshalString(n, b, ss[0]);
      end := MarshalStrings(m, b, ss[1..]);
    }
  }

  method MarshalInts(n: nat, b: array<byte>, es: seq<(int, int)>) returns (end: nat)
    requires n + |IntsCode(es)| <= b.Length
    modifies b
    ensures end == n + |IntsCode(es)| && b[..] == Put(old(b[..]), n, IntsCode(es))
    decreases |es|
  {
    hide Uvarint, Zig64, Put;
    if es == [] {
      end := MarshalRaw(n, b, Terminator);
    } else {
      var k, v, rest := Zig64(es[0].0), Zig64(es[0].1), es[1..];
      PutTwice(b[..], n, Uvarint(k), Uvarint(v) + IntsCode(rest));
      var m := MarshalUint(n, b, k);
      PutTwice(b[..], m, Uvarint(v), IntsCode(rest));
      var l := MarshalUint(m, b, v);
      end := MarshalInts(l, b, rest);
    }
  }

  method MarshalField(n: nat, b: array<byte>, k: Kind, f: Field) returns (end: nat)
    requires FieldOk(k, f) && n + |FieldCode(k, f)| <= b.Length
    modifies b
    ensures end == n + |FieldCode(k, f)| && b[..] == Put(old(b[..]), n, FieldCode(k, f))
  {
    hide Uvarint, Zig64, Put, StrCode, StrsCode, IntsCode, Le, ZigZag, Pow256;
    match k {
      case KByte => end := MarshalByte(n, b, f.n);
      case KBool => end := MarshalByte(n, b, f.n);
      case KInt(w) => end := MarshalFixed(n, b, ZigZag(f.n, Pow256(w)), w);
      case KUint(w) => end := MarshalFixed(n, b, f.n, w);
      case KVarint => end := MarshalUint(n, b, Zig64(f.n));
      case KBytes => end := MarshalString(n, b, f.bytes);
      case KStrings =>
        PutTwice(b[..], n, Uvarint(|f.strings|), StrsCode(f.strings));
        var m := MarshalUint(n, b, |f.strings|);
        end := MarshalStrings(m, b, f.strings);
      case KIntMap =>
        PutTwice(b[..], n, Uvarint(|f.entries|), IntsCode(f.entries));
        var m := MarshalUint(n, b, |f.entries|);
        end := MarshalInts(m, b, f.entries);
      case KNoFree =>
        PutTwice(b[..], n, Uvarint(0), Terminator);
        var m := MarshalUint(n, b, 0);
        end := MarshalRaw(m, b, Terminator);
    }
  }

  method MarshalFields(n: nat, b: array<byte>, ks: seq<Kind>, fs: seq<Field>) returns (end: nat)
    requires FieldsOk(ks, fs) && n + |FieldsCode(ks, fs)| <= b.Length
    modifies b
    ensures end == n + |FieldsCode(ks, fs)| && b[..] == Put(old(b[..]), n, FieldsCode(ks, fs))
    decreases |ks|
  {
    hide FieldCode, Put, FieldOk;
    if ks == [] {
      PutNothing(b[..], n);
      end := n;
    } else {
      PutTwice(b[..], n, FieldCode(ks[0], fs[0]), FieldsCode(ks[1..], fs[1..]));
      var m := MarshalField(n, b, ks[0], fs[0]);
      end := MarshalFields(m, b, ks[1..], fs[1..]);
    }
  }

  /** MarshalObject: the object is written at offset n, nothing else in the buffer changes. */
  method MarshalObject(n: nat, b: array<byte>, o: Obj) returns (end: nat)
    requires Serialisable(o) && n + |Code(o)| <= b.Length
    modifies b
    ensures end == n + |Code(o)| && b[..] == Put(old(b[..]), n, Code(o))
    decreases o, 1
  {
    hide FieldsCode, Put, ElemsCode, EntriesCode, Uvarint, StrCode, FieldsOk, Schema;
    match o {
      case Nil => end := MarshalByte(n, b, 0);
      case Flat(code, fields) =>
        PutTwice(b[..], n, [code], FieldsCode(Schema(code).value, fields));
        var m := MarshalByte(n, b, code);
        end := MarshalFields(m, b, Schema(code).value, fields);
      case Array(frozen, es) =>
        PutTwice(b[..], n, [CodeArray], [Bit(frozen)] + (Uvarint(|es|) + ElemsCode(es)));
        var m := MarshalByte(n, b, CodeArray);
        PutTwice(b[..], m, [Bit(frozen)], Uvarint(|es|) + ElemsCode(es));
        m := MarshalByte(m, b, Bit(frozen));
        PutTwice(b[..], m, Uvarint(|es|), ElemsCode(es));
        m := MarshalUint(m, b, |es|);
        end := MarshalElems(m, b, es);
      case Map(frozen, name, es) =>
        var rest := Uvarint(|es|) + EntriesCode(es);
        PutTwice(b[..], n, [CodeMap], [Bit(frozen)] + (StrCode(name) + rest));
        var m := MarshalByte(n, b, CodeMap);
        PutTwice(b[..], m, [Bit(frozen)], StrCode(name) + rest);
        m := MarshalByte(m, b, Bit(frozen));
        PutTwice(b[..], m, StrCode(name), rest);
        m := MarshalString(m, b, name);
        PutTwice(b[..], m, Uvarint(|es|), EntriesCode(es));
        m := MarshalUint(m, b, |es|);
        end := MarshalEntries(m, b, es);
      case Error(v) =>
        PutTwice(b[..], n, [CodeError], Code(v));
        var m := MarshalByte(n, b, CodeError);
        end := MarshalObject(m, b, v);
    }
  }

  method MarshalElems(n: nat, b: array<byte>, es: seq<Obj>) returns (end: nat)
    requires (forall e <- es :: Serialisable(e)) && n + |ElemsCode(es)| <= b.Length
    modifies b
    ensures end == n + |ElemsCode(es)| && b[..] == Put(old(b[..]), n, ElemsCode(es))
    decreases es, 0
  {
    hide Put, Code, Serialisable;
    if es == [] {
      end := MarshalRaw(n, b, Terminator);
    } else {
      PutTwice(b[..], n, Code(es[0]), ElemsCode(es[1..]));
      var m := MarshalObject(n, b, es[0]);
      end := MarshalElems(m, b, es[1..]);
    }
  }

  method MarshalEntries(n: nat, b: array<byte>, es: seq<Entry>) returns (end: nat)
    requires (forall e <- es :: |e.key| < MaxUint64 && Serialisable(e.value)) && n + |EntriesCode(es)| <= b.Length
    modifies b
    ensures end == n + |EntriesCode(es)| && b[..] == Put(old(b[..]), n, EntriesCode(es))
    decreases es, 0
  {
    hide Put, Code, Serialisable, StrCode;
    if es == [] {
      end := MarshalRaw(n, b, Terminator);
    } else {
      PutTwice(b[..], n, StrCode(es[0].key), Code(es[0].value) + EntriesCode(es[1..]));
      var m := MarshalString(n, b, es[0].key);
      PutTwice(b[..], m, Code(es[0].value), EntriesCode(es[1..]));
      m := MarshalObject(m, b, es[0].value);
      end := MarshalEntries(m, b, es[1..]);
    }
  }

  /** Writing an object at any offset of a buffer with room for its announced size, and reading it
      there again. */
  lemma WriteThenRead(b: Bytes, n: nat, o: Obj)
    requires Serialisable(o) && n + Size(o) <= |b|
    ensures |Code(o)| == Size(o)
    ensures Read(Put(b, n, Code(o)), n) == Ok(n + Size(o), Meaning(o))
  {
    hide Put, Code, Read, Meaning, Serialisable, Size;
    SizeIsExact(o);
    PutIsAt(b, n, Code(o));
    ObjectRead(Put(b, n, Code(o)), n, o);
  }
}
