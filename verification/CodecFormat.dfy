/** The bytes of integers, texts and lists on file, written out (vm/encoding.go:20-44, 97-470,
    vm/codec/encoding.go:41-58, 102-116, 356-420, 455-470, 563-655). */
module CodecFormat {
  import opened Wrappers
  import opened Instructions
  import opened Varint
  import opened ObjectCodec

  // ----- integers -----

  /** Byte i of a varint holds bits 7i to 7i + 6, and its top bit says that another byte follows; there are
      no more bytes than needed. */
  lemma {:induction false} UvarintBytes(v: nat, i: nat)
    requires i < |Uvarint(v)|
    ensures Uvarint(v)[i] == v / Pow(i) % 0x80 + (if i + 1 < |Uvarint(v)| then 0x80 else 0)
    ensures v < Pow(|Uvarint(v)|) && (|Uvarint(v)| > 1 ==> v >= Pow(|Uvarint(v)| - 1))
    decreases v
  {
    if v >= 0x80 {
      var w := v / 0x80;
      UvarintBytes(w, if i == 0 then 0 else i - 1);
      if i > 0 { Twice(v, 0x80, Pow(i - 1)); }
      var n := |Uvarint(w)|;
      assert |Uvarint(v)| == n + 1;
      if n > 1 { assert Pow(n) == 0x80 * Pow(n - 1); }
    }
  }

  lemma Twice(v: nat, a: nat, b: nat)
    requires a > 0 && b > 0
    ensures a * b > 0 && v / a / b == v / (a * b)
  {
    var q, r := v / a / b, v / a % b;
    var s := v % a;
    assert v == a * (b * q + r) + s;
    Expand(a, b, q, r);
    assert 0 <= a * r + s < a * b by { Smaller(a, b, r, s); }
    Quotient(v, a * b, q, a * r + s);
  }

  lemma Expand(a: nat, b: nat, q: nat, r: nat)
    ensures a * (b * q + r) == (a * b) * q + a * r
  {
  }

  lemma Smaller(a: nat, b: nat, r: nat, s: nat)
    requires r < b && s < a
    ensures a * r + s < a * b
  {
    assert a * (r + 1) <= a * b;
  }

  lemma Quotient(v: nat, d: nat, q: nat, r: nat)
    requires d > 0 && r < d && v == d * q + r
    ensures v / d == q
  {
    var e := v / d - q;
    assert v == d * (v / d) + v % d;
    assert d * e == r - v % d;
    Multiples(e, d);
  }

  /** Byte i of a number of fixed width holds bits 8i to 8i + 7. */
  lemma {:induction false} LeBytes(v: nat, w: nat, i: nat)
    requires i < w
    ensures Le(v, w)[i] == v / Pow256(i) % 0x100
    decreases w
  {
    if i > 0 {
      LeBytes(v / 0x100, w - 1, i - 1);
      Twice(v, 0x100, Pow256(i - 1));
    }
  }

  /** Signed numbers alternate: 0, -1, 1, -2, 2 and so on. */
  function Alternating(n: int): nat { if n < 0 then -2 * n - 1 else 2 * n }

  // ----- type codes -----

  lemma OneField(code: byte, k: Kind, f: Field)
    requires Schema(code) == Some([k])
    ensures Serialisable(Flat(code, [f])) <==> FieldOk(k, f)
    ensures FieldOk(k, f) ==> Code(Flat(code, [f])) == [code] + FieldCode(k, f)
  {
    hide FieldCode, Schema;
    OneOk(k, f);
    hide FieldOk;
    if FieldOk(k, f) {
      assert FieldsCode([k], [f]) == FieldCode(k, f) + FieldsCode([k][1..], [f][1..]);
      assert FieldsCode([k][1..], [f][1..]) == [];
    }
  }

  lemma OneOk(k: Kind, f: Field)
    ensures FieldsOk([k], [f]) <==> FieldOk(k, f)
  {
    hide FieldOk;
    if FieldsOk([k], [f]) { assert FieldOk([k][0], [f][0]); }
  }

  /** int, int32, char, int16: all numbers of 64, 32, 32 and 16 bits, and which bytes they are. */
  lemma SignedNumbers(n: int)
    ensures var o := Flat(5, [Num(n)]);
            && (Serialisable(o) <==> -9223372036854775808 <= n <= 9223372036854775807)
            && (Serialisable(o) ==> Code(o) == [5] + Le(Alternating(n), 8))
    ensures var o := Flat(25, [Num(n)]);
            && (Serialisable(o) <==> -2147483648 <= n <= 2147483647)
            && (Serialisable(o) ==> Code(o) == [25] + Le(Alternating(n), 4))
    ensures var o := Flat(4, [Num(n)]);
            && (Serialisable(o) <==> -2147483648 <= n <= 2147483647)
            && (Serialisable(o) ==> Code(o) == [4] + Le(Alternating(n), 4))
    ensures var o := Flat(20, [Num(n)]);
            && (Serialisable(o) <==> -32768 <= n <= 32767)
            && (Serialisable(o) ==> Code(o) == [20] + Le(Alternating(n), 2))
  {
    OneField(5, KInt(8), Num(n));
    OneField(25, KInt(4), Num(n));
    OneField(4, KInt(4), Num(n));
    OneField(20, KInt(2), Num(n));
    hide Le, Code, Serialisable, ZigZag, Pow256;
    Widths256();
    SignedField(n, 8);
    SignedField(n, 4);
    SignedField(n, 2);
  }

  lemma SignedField(n: int, w: nat)
    requires w in {2, 4, 8}
    ensures FieldOk(KInt(w), Num(n)) <==> -(Pow256(w) / 2) <= n < Pow256(w) / 2
    ensures FieldOk(KInt(w), Num(n)) ==> FieldCode(KInt(w), Num(n)) == Le(Alternating(n), w)
  {
    hide Le, Pow256, ZigZag;
    Widths256();
    if Fits(n, Pow256(w) / 2) { ZigZagRoundTrip(n, Pow256(w) / 2); }
  }

  /** uint64, the bits of a float64; uint, the bits of a float32; uint16. */
  lemma UnsignedNumbers(n: int)
    ensures forall c: byte :: c == 23 || c == 6 ==>
              var o := Flat(c, [Num(n)]);
              && (Serialisable(o) <==> 0 <= n <= 18446744073709551615)
              && (Serialisable(o) ==> Code(o) == [c] + Le(n, 8))
    ensures forall c: byte :: c == 22 || c == 16 ==>
              var o := Flat(c, [Num(n)]);
              && (Serialisable(o) <==> 0 <= n <= 4294967295)
              && (Serialisable(o) ==> Code(o) == [c] + Le(n, 4))
    ensures var o := Flat(21, [Num(n)]);
            && (Serialisable(o) <==> 0 <= n <= 65535)
            && (Serialisable(o) ==> Code(o) == [21] + Le(n, 2))
  {
    hide Le, Code, Serialisable, Pow256;
    Widths256();
    UnsignedOf(23, n, 8);
    UnsignedOf(6, n, 8);
    UnsignedOf(22, n, 4);
    UnsignedOf(16, n, 4);
    UnsignedOf(21, n, 2);
  }

  /** byte, int8 by its bits, uint8; bool. */
  lemma SingleBytes(n: int)
    ensures forall c: byte :: 17 <= c <= 19 ==>
              var o := Flat(c, [Num(n)]);
              && (Serialisable(o) <==> 0 <= n <= 255)
              && (Serialisable(o) ==> Code(o) == [c, n])
    ensures var o := Flat(2, [Num(n)]);
            && (Serialisable(o) <==> n == 0 || n == 1)
            && (Serialisable(o) ==> Code(o) == [2, n])
  {
    hide Code, Serialisable;
    OneField(17, KByte, Num(n));
    OneField(18, KByte, Num(n));
    OneField(19, KByte, Num(n));
    OneField(2, KBool, Num(n));
  }

  lemma UnsignedOf(c: byte, n: int, w: nat)
    requires Schema(c) == Some([KUint(w)]) && w in {2, 4, 8}
    ensures Serialisable(Flat(c, [Num(n)])) <==> 0 <= n < Pow256(w)
    ensures 0 <= n < Pow256(w) ==> Code(Flat(c, [Num(n)])) == [c] + Le(n, w)
  {
    OneField(c, KUint(w), Num(n));
    hide Le, Code, Serialisable, Pow256;
  }

  /** bytes, string, the name of a builtin function: the length and the bytes. */
  lemma Texts(c: byte, s: Bytes)
    requires c in {3, 7, 104}
    ensures Serialisable(Flat(c, [Str(s)])) <==> |s| <= 18446744073709551615
    ensures |s| <= 18446744073709551615 ==> Code(Flat(c, [Str(s)])) == [c] + (Uvarint(|s|) + s)
  {
    hide Code, Serialisable, Uvarint, Schema, FieldOk, FieldCode;
    TextSchema(c);
    OneField(c, KBytes, Str(s));
    TextField(s);
  }

  lemma TextSchema(c: byte)
    requires c in {3, 7, 104}
    ensures Schema(c) == Some([KBytes])
  {
  }

  lemma TextField(s: Bytes)
    ensures FieldOk(KBytes, Str(s)) <==> |s| <= 18446744073709551615
    ensures FieldOk(KBytes, Str(s)) ==> FieldCode(KBytes, Str(s)) == Uvarint(|s|) + s
  {
    hide Uvarint;
  }

  /** What the codes of the elements are, one behind the other. */
  function Concatenated(es: seq<Obj>): Bytes
    requires forall e <- es :: Serialisable(e)
  {
    if es == [] then [] else Code(es[0]) + Concatenated(es[1..])
  }

  lemma {:induction false} ElemsConcatenated(es: seq<Obj>)
    requires forall e <- es :: Serialisable(e)
    ensures ElemsCode(es) == Concatenated(es) + [1, 1, 1, 1]
    decreases |es|
  {
    hide Code, Serialisable;
    if es != [] {
      ElemsConcatenated(es[1..]);
      assert Code(es[0]) + (Concatenated(es[1..]) + [1, 1, 1, 1]) == Code(es[0]) + Concatenated(es[1..]) + [1, 1, 1, 1];
    }
  }

  /** An array with its mark, the number of its elements, these and four bytes 1. */
  lemma Arrays(frozen: bool, es: seq<Obj>)
    requires |es| < MaxUint64 && forall e <- es :: Serialisable(e)
    ensures Serialisable(Array(frozen, es))
    ensures Code(Array(frozen, es)) == [9, if frozen then 1 else 0] + Uvarint(|es|) + Concatenated(es) + [1, 1, 1, 1]
  {
    hide Uvarint, Concatenated, ElemsCode, Serialisable, Code;
    ElemsConcatenated(es);
    ArrayCode(frozen, es);
    Flatten(Bit(frozen), Uvarint(|es|), Concatenated(es));
  }

  lemma ArrayCode(frozen: bool, es: seq<Obj>)
    requires |es| < MaxUint64 && forall e <- es :: Serialisable(e)
    ensures Serialisable(Array(frozen, es))
    ensures Code(Array(frozen, es)) == [9] + ([Bit(frozen)] + (Uvarint(|es|) + ElemsCode(es)))
  {
    ArraySerialisable(frozen, es);
    hide Uvarint, ElemsCode, EntriesCode, FieldsCode, StrCode, Serialisable, Schema;
  }

  lemma ArraySerialisable(frozen: bool, es: seq<Obj>)
    requires |es| < MaxUint64 && forall e <- es :: Serialisable(e)
    ensures Serialisable(Array(frozen, es))
  {
  }

  lemma Flatten(bit: byte, u: Bytes, c: Bytes)
    ensures [9] + ([bit] + (u + (c + [1, 1, 1, 1]))) == [9, bit] + u + c + [1, 1, 1, 1]
  {
  }

  /** A missing object, undefined, and an error with its value. */
  lemma Others(o: Obj)
    requires Serialisable(o)
    ensures Code(Nil) == [0] && Serialisable(Flat(1, [])) && Code(Flat(1, [])) == [1]
    ensures Serialisable(Error(o)) && Code(Error(o)) == [15] + Code(o)
  {
    assert FieldsCode([], []) == [];
  }

  // ----- objects of several fields -----

  function BoolByte(b: bool): Bytes { if b then [1] else [0] }

  function VarintOf(n: int): Bytes { Uvarint(Alternating(n)) }

  lemma VarintField(n: int)
    requires Fits(n, MaxUint64 / 2)
    ensures FieldOk(KVarint, Num(n)) && FieldCode(KVarint, Num(n)) == VarintOf(n)
  {
    hide Uvarint;
    ZigZagRoundTrip(n, MaxUint64 / 2);
  }

  lemma {:induction false} FieldsAppend(ks: seq<Kind>, fs: seq<Field>, k: Kind, f: Field)
    requires FieldsOk(ks, fs) && FieldOk(k, f)
    ensures FieldsOk(ks + [k], fs + [f]) && FieldsCode(ks + [k], fs + [f]) == FieldsCode(ks, fs) + FieldCode(k, f)
    decreases |ks|
  {
    hide FieldOk, FieldCode;
    if ks == [] {
      assert [k][1..] == [] && [f][1..] == [];
      assert [] + [k] == [k] && [] + [f] == [f];
      assert FieldsCode([k], [f]) == FieldCode(k, f) + FieldsCode([k][1..], [f][1..]);
      assert FieldsCode([k], [f]) == FieldCode(k, f) == FieldsCode([], []) + FieldCode(k, f);
    } else {
      var ks', fs' := ks + [k], fs + [f];
      assert ks'[1..] == ks[1..] + [k] && fs'[1..] == fs[1..] + [f];
      forall i | 0 <= i < |ks'| ensures FieldOk(ks'[i], fs'[i]) {}
      FieldsAppend(ks[1..], fs[1..], k, f);
      assert FieldCode(ks[0], fs[0]) + (FieldsCode(ks[1..], fs[1..]) + FieldCode(k, f))
             == FieldCode(ks[0], fs[0]) + FieldsCode(ks[1..], fs[1..]) + FieldCode(k, f);
    }
  }

  lemma ThreeFields(a: Kind, b: Kind, c: Kind, x: Field, y: Field, z: Field)
    requires FieldOk(a, x) && FieldOk(b, y) && FieldOk(c, z)
    ensures FieldsOk([a, b, c], [x, y, z])
    ensures FieldsCode([a, b, c], [x, y, z]) == FieldCode(a, x) + FieldCode(b, y) + FieldCode(c, z)
  {
    hide FieldOk, FieldCode, FieldsCode, FieldsOk;
    NoFields();
    FieldsAppend([], [], a, x);
    assert [] + [a] == [a] && [] + [x] == [x];
    FieldsAppend([a], [x], b, y);
    assert [a] + [b] == [a, b] && [x] + [y] == [x, y];
    FieldsAppend([a, b], [x, y], c, z);
    assert [a, b] + [c] == [a, b, c] && [x, y] + [z] == [x, y, z];
    assert [] + FieldCode(a, x) == FieldCode(a, x);
  }

  lemma SixFields(ks: seq<Kind>, fs: seq<Field>)
    requires |ks| == |fs| == 6 && forall i :: 0 <= i < 6 ==> FieldOk(ks[i], fs[i])
    ensures FieldsOk(ks, fs)
    ensures FieldsCode(ks, fs)
            == FieldCode(ks[0], fs[0]) + FieldCode(ks[1], fs[1]) + FieldCode(ks[2], fs[2]) + FieldCode(ks[3], fs[3])
               + FieldCode(ks[4], fs[4]) + FieldCode(ks[5], fs[5])
  {
    hide FieldOk, FieldCode, FieldsCode, FieldsOk;
    ThreeFields(ks[0], ks[1], ks[2], fs[0], fs[1], fs[2]);
    assert [ks[0], ks[1], ks[2]] == ks[..3] && [fs[0], fs[1], fs[2]] == fs[..3];
    FieldsAppend(ks[..3], fs[..3], ks[3], fs[3]);
    assert ks[..3] + [ks[3]] == ks[..4] && fs[..3] + [fs[3]] == fs[..4];
    FieldsAppend(ks[..4], fs[..4], ks[4], fs[4]);
    assert ks[..4] + [ks[4]] == ks[..5] && fs[..4] + [fs[4]] == fs[..5];
    FieldsAppend(ks[..5], fs[..5], ks[5], fs[5]);
    assert ks[..5] + [ks[5]] == ks && fs[..5] + [fs[5]] == fs;
  }

  /** A compiled function: its instructions, the numbers of its locals and parameters, whether it is
      variadic, its source map and no captured cells. */
  lemma Functions(insts: Bytes, locals: int, params: int, varArgs: bool, sourceMap: seq<(int, int)>)
    requires |insts| < MaxUint64 && Fits(locals, MaxUint64 / 2) && Fits(params, MaxUint64 / 2)
    requires FieldOk(KIntMap, Ints(sourceMap))
    ensures var o := Flat(14, [Str(insts), Num(locals), Num(params), Num(if varArgs then 1 else 0), Ints(sourceMap),
                               NoFree]);
            && Serialisable(o)
            && Code(o) == [14] + ((Uvarint(|insts|) + insts) + VarintOf(locals) + VarintOf(params) + BoolByte(varArgs)
                                  + (Uvarint(|sourceMap|) + IntsCode(sourceMap)) + (Uvarint(0) + [1, 1, 1, 1]))
  {
    hide Uvarint, IntsCode, FieldsCode, FieldsOk, VarintOf, Serialisable, Code, FieldOk, FieldCode, Schema, BoolByte;
    var v := Num(if varArgs then 1 else 0);
    var ks := [KBytes, KVarint, KVarint, KBool, KIntMap, KNoFree];
    var fs := [Str(insts), Num(locals), Num(params), v, Ints(sourceMap), NoFree];
    VarintField(locals);
    VarintField(params);
    TextField(insts);
    BoolField(varArgs);
    LastTwo(sourceMap);
    FunctionSchema();
    SixFields(ks, fs);
    ByFields(14, ks, fs);
  }

  lemma BoolField(b: bool)
    ensures FieldOk(KBool, Num(if b then 1 else 0)) && FieldCode(KBool, Num(if b then 1 else 0)) == BoolByte(b)
  {
  }

  lemma NoFields()
    ensures FieldsOk([], []) && FieldsCode([], []) == []
  {
  }

  lemma LastTwo(sourceMap: seq<(int, int)>)
    requires FieldOk(KIntMap, Ints(sourceMap))
    ensures FieldCode(KIntMap, Ints(sourceMap)) == Uvarint(|sourceMap|) + IntsCode(sourceMap)
    ensures FieldOk(KNoFree, NoFree) && FieldCode(KNoFree, NoFree) == Uvarint(0) + [1, 1, 1, 1]
  {
    hide Uvarint, IntsCode;
  }

  lemma FunctionSchema()
    ensures Schema(14) == Some([KBytes, KVarint, KVarint, KBool, KIntMap, KNoFree])
  {
  }

  lemma ByFields(code: byte, ks: seq<Kind>, fs: seq<Field>)
    requires Schema(code) == Some(ks) && FieldsOk(ks, fs)
    ensures Serialisable(Flat(code, fs)) && Code(Flat(code, fs)) == [code] + FieldsCode(ks, fs)
  {
    hide FieldsOk, FieldsCode, Schema;
  }

  /** A range: its start, stop and step. */
  lemma Ranges(start: int, stop: int, step: int)
    requires Fits(start, MaxUint64 / 2) && Fits(stop, MaxUint64 / 2) && Fits(step, MaxUint64 / 2)
    ensures var o := Flat(105, [Num(start), Num(stop), Num(step)]);
            && Serialisable(o)
            && Code(o) == [105] + (Le(Alternating(start), 8) + Le(Alternating(stop), 8) + Le(Alternating(step), 8))
  {
    Widths256();
    SignedField(start, 8);
    SignedField(stop, 8);
    SignedField(step, 8);
    hide Le, FieldOk, FieldCode, FieldsCode, FieldsOk, Pow256, Schema, Serialisable, Code;
    RangeSchema();
    ThreeFields(KInt(8), KInt(8), KInt(8), Num(start), Num(stop), Num(step));
    ByFields(105, [KInt(8), KInt(8), KInt(8)], [Num(start), Num(stop), Num(step)]);
  }

  lemma RangeSchema()
    ensures Schema(105) == Some([KInt(8), KInt(8), KInt(8)])
  {
  }

  /** The fields of a user type: its name and kind, the names and types of its fields, then of its
      parameters, whether it is variadic, how many parameters it has, and its result and underlying type. */
  lemma UserTypeFields()
    ensures Schema(106) == Some([KBytes, KByte, KStrings, KStrings, KStrings, KStrings, KBool, KVarint, KBytes, KBytes])
  {
  }

  /** A map entry is its key and its value; behind the last one stand four bytes 1. */
  function EntriesText(es: seq<Entry>): Bytes
    requires forall e <- es :: |e.key| < MaxUint64 && Serialisable(e.value)
  {
    if es == [] then [] else Uvarint(|es[0].key|) + es[0].key + Code(es[0].value) + EntriesText(es[1..])
  }

  lemma {:induction false} EntriesConcatenated(es: seq<Entry>)
    requires forall e <- es :: |e.key| < MaxUint64 && Serialisable(e.value)
    ensures EntriesCode(es) == EntriesText(es) + [1, 1, 1, 1]
    decreases |es|
  {
    hide Code, Serialisable, Uvarint;
    if es != [] {
      EntriesConcatenated(es[1..]);
      var k, v, t := Uvarint(|es[0].key|) + es[0].key, Code(es[0].value), EntriesText(es[1..]);
      EntryRegroup(k, v, t);
    }
  }

  lemma EntryRegroup(k: Bytes, v: Bytes, t: Bytes)
    ensures k + (v + (t + [1, 1, 1, 1])) == k + v + t + [1, 1, 1, 1]
  {
  }
}
