/** Variable-length and fixed-width integers, zigzag (vm/codec/encoding.go:339-612, 768-780), with the
    64-bit arithmetic written out. */
module Varint {
  import opened Instructions

  const MaxUint64 := 0x1_0000_0000_0000_0000
  const MaxVarintLen := 10

  datatype Result<T> = Ok(end: nat, value: T) | TooSmall | Overflow

  // ----- zigzag -----

  /** The value of a signed integer of the given modulus whose bits are those of t. */
  function Signed(t: int, m: nat): int
    requires m > 0
  {
    var u := t % m;
    if u < m / 2 then u else u - m
  }

  /** encodeZigZag and the conversion to unsigned: shift left with wrap-around, and complement when
      the number is negative. */
  function ZigZag(t: int, m: nat): nat
    requires m > 0
  {
    var shifted := Signed(2 * t, m);
    (if t < 0 then -shifted - 1 else shifted) % m
  }

  /** decodeZigZag and the conversion to signed. */
  function UnZigZag(z: nat, m: nat): int
    requires m > 0
  {
    if z % 2 == 1 then Signed(m - 1 - z / 2, m) else Signed(z / 2, m)
  }

  predicate Fits(t: int, half: int) { -half <= t < half }

  lemma ModIs(u: int, m: nat, q: int, r: int)
    requires 0 <= r < m && u == q * m + r
    ensures u % m == r
  {
    var d := u / m - q;
    assert u == (u / m) * m + u % m;
    assert d * m == r - u % m;
    Multiples(d, m);
  }

  lemma Multiples(d: int, m: int)
    requires m > 0
    ensures d > 0 ==> d * m >= m
    ensures d < 0 ==> d * m <= 0 - m
  {
  }

  lemma SignedIs(t: int, half: int)
    requires half > 0 && -2 * half <= t < 2 * half
    ensures Signed(t, 2 * half) == if t >= half then t - 2 * half else if t < -half then t + 2 * half else t
  {
    ModIs(t, 2 * half, if t < 0 then -1 else 0, if t < 0 then t + 2 * half else t);
  }

  /** The round trip over the whole range of 2 * half numbers, the least one included. */
  lemma ZigZagRoundTrip(t: int, half: int)
    requires half > 0 && Fits(t, half)
    ensures ZigZag(t, 2 * half) == (if t < 0 then -2 * t - 1 else 2 * t) < 2 * half
    ensures UnZigZag(ZigZag(t, 2 * half), 2 * half) == t
  {
    hide Signed;
    var m := 2 * half;
    var z := if t < 0 then -2 * t - 1 else 2 * t;
    SignedIs(2 * t, half);
    var e := if t < 0 then -Signed(2 * t, m) - 1 else Signed(2 * t, m);
    ModIs(e, m, if e < 0 then -1 else 0, if e < 0 then e + m else e);
    if t < 0 {
      assert z == 2 * (-t - 1) + 1 && z % 2 == 1 && z / 2 == -t - 1;
      var u := m - 1 - z / 2;
      SignedIs(u, half);
    } else {
      assert z % 2 == 0 && z / 2 == t;
      SignedIs(t, half);
    }
  }

  // ----- varints -----

  /** Seven bits a byte, the low ones first; the top bit says that more follow. */
  function Uvarint(v: nat): (bs: seq<byte>)
    ensures |bs| > 0
  {
    if v < 0x80 then [v] else [v % 0x80 + 0x80] + Uvarint(v / 0x80)
  }

  function Pow(i: nat): (p: nat)
    ensures p > 0
  {
    if i == 0 then 1 else 0x80 * Pow(i - 1)
  }

  /** UnmarshalUint from its byte i on, x being what the bytes before amount to. */
  function ReadUvarint(b: seq<byte>, n: nat, i: nat, x: nat): (r: Result<nat>)
    requires n <= |b|
    ensures r.Ok? ==> n < r.end <= |b|
    decreases |b| - n
  {
    if n == |b| then TooSmall
    else if i == MaxVarintLen then Overflow
    else if b[n] < 0x80 then
      if i == MaxVarintLen - 1 && b[n] > 1 then Overflow else Ok(n + 1, (x + b[n] * Pow(i)) % MaxUint64)
    else ReadUvarint(b, n + 1, i + 1, (x + (b[n] % 0x80) * Pow(i)) % MaxUint64)
  }

  /** There are bytes bs at n. */
  predicate At(b: seq<byte>, n: nat, bs: seq<byte>) { n + |bs| <= |b| && b[n..n + |bs|] == bs }

  lemma AtFirst(b: seq<byte>, n: nat, bs: seq<byte>)
    requires At(b, n, bs) && |bs| > 0
    ensures n < |b| && b[n] == bs[0] && At(b, n + 1, bs[1..])
  {
    assert b[n..n + |bs|][0] == b[n];
    assert b[n + 1..n + 1 + |bs[1..]|] == b[n..n + |bs|][1..];
  }

  lemma AtParts(b: seq<byte>, n: nat, x: seq<byte>, y: seq<byte>)
    requires At(b, n, x + y)
    ensures At(b, n, x) && At(b, n + |x|, y)
  {
    var c := b[n..n + |x + y|];
    assert c[..|x|] == x && c[|x|..] == y;
    assert b[n..n + |x|] == c[..|x|] && b[n + |x|..n + |x| + |y|] == c[|x|..];
  }

  lemma SplitSeven(v: nat, p: nat)
    ensures v * p == (v % 0x80) * p + (v / 0x80) * (0x80 * p)
  {
    assert v == v % 0x80 + 0x80 * (v / 0x80);
    Distribute(v % 0x80, v / 0x80, p);
  }

  lemma Distribute(a: nat, b: nat, p: nat)
    ensures (a + 0x80 * b) * p == a * p + b * (0x80 * p)
  {
  }

  /** Fewer than 2^64 / 128^i: at most ten bytes in all, and the tenth at most 1. */
  lemma LastByte(v: nat, x: nat)
    requires x + v * Pow(9) < MaxUint64
    ensures v <= 1
  {
    assert Pow(9) == 0x8000_0000_0000_0000 by { PowNine(); }
  }

  lemma PowNine()
    ensures Pow(9) == 0x8000_0000_0000_0000
  {
    assert Pow(1) == 0x80;
    assert Pow(2) == 0x4000;
    assert Pow(3) == 0x20_0000;
    assert Pow(4) == 0x1000_0000;
    assert Pow(5) == 0x8_0000_0000;
    assert Pow(6) == 0x400_0000_0000;
    assert Pow(7) == 0x2_0000_0000_0000;
    assert Pow(8) == 0x100_0000_0000_0000;
  }

  lemma ReadLast(b: seq<byte>, n: nat, v: nat, i: nat, x: nat)
    requires n < |b| && b[n] == v < 0x80 && i < MaxVarintLen && (i == MaxVarintLen - 1 ==> v <= 1)
    requires x + v * Pow(i) < MaxUint64
    ensures ReadUvarint(b, n, i, x) == Ok(n + 1, x + v * Pow(i))
  {
    hide Pow;
    ModIs(x + v * Pow(i), MaxUint64, 0, x + v * Pow(i));
  }

  lemma ReadMore(b: seq<byte>, n: nat, low: nat, i: nat, x: nat)
    requires n < |b| && low < 0x80 && b[n] == low + 0x80 && i < MaxVarintLen
    requires x + low * Pow(i) < MaxUint64
    ensures ReadUvarint(b, n, i, x) == ReadUvarint(b, n + 1, i + 1, x + low * Pow(i))
  {
    hide Pow;
    assert b[n] % 0x80 == low;
    ModIs(x + low * Pow(i), MaxUint64, 0, x + low * Pow(i));
  }

  lemma {:induction false} UvarintRead(b: seq<byte>, n: nat, v: nat, i: nat, x: nat)
    requires At(b, n, Uvarint(v)) && i < MaxVarintLen && x + v * Pow(i) < MaxUint64
    ensures ReadUvarint(b, n, i, x) == Ok(n + |Uvarint(v)|, x + v * Pow(i))
    decreases v
  {
    hide Pow, ReadUvarint, At;
    AtFirst(b, n, Uvarint(v));
    if i == MaxVarintLen - 1 { LastByte(v, x); }
    if v < 0x80 {
      ReadLast(b, n, v, i, x);
    } else {
      var low, high, p := v % 0x80, v / 0x80, Pow(i);
      SplitSeven(v, p);
      NextPow(i);
      Products(low, high, p, x, v);
      assert Uvarint(v)[1..] == Uvarint(high);
      ReadMore(b, n, low, i, x);
      UvarintRead(b, n + 1, high, i + 1, x + low * p);
    }
  }

  lemma Products(low: nat, high: nat, p: nat, x: nat, v: nat)
    requires v * p == low * p + high * (0x80 * p)
    ensures x + low * p + high * (0x80 * p) == x + v * p && x + low * p <= x + v * p
  {
  }

  lemma NextPow(i: nat)
    ensures Pow(i + 1) == 0x80 * Pow(i)
  {
  }

  /** Every unsigned 64-bit number is read back, and the offset behind it. */
  lemma UvarintRoundTrip(b: seq<byte>, n: nat, v: nat)
    requires v < MaxUint64 && At(b, n, Uvarint(v))
    ensures n <= |b| && ReadUvarint(b, n, 0, 0) == Ok(n + |Uvarint(v)|, v)
  {
    assert Pow(0) == 1;
    UvarintRead(b, n, v, 0, 0);
  }

  // ----- writing into a buffer -----

  function Put(b: seq<byte>, n: nat, bs: seq<byte>): (r: seq<byte>)
    requires n + |bs| <= |b|
    ensures |r| == |b|
  {
    b[..n] + bs + b[n + |bs|..]
  }

  lemma PutIsAt(b: seq<byte>, n: nat, bs: seq<byte>)
    requires n + |bs| <= |b|
    ensures At(Put(b, n, bs), n, bs)
  {
  }

  lemma PutTwice(b: seq<byte>, n: nat, x: seq<byte>, y: seq<byte>)
    requires n + |x| + |y| <= |b|
    ensures Put(Put(b, n, x), n + |x|, y) == Put(b, n, x + y)
  {
    var c := Put(b, n, x);
    assert c[..n + |x|] == b[..n] + x && c[n + |x| + |y|..] == b[n + |x + y|..];
  }

  method SizeUint(v: nat) returns (s: nat)
    ensures s == |Uvarint(v)|
  {
    var i, w := 0, v;
    while w >= 0x80
      invariant i + |Uvarint(w)| == |Uvarint(v)|
    {
      w, i := w / 0x80, i + 1;
    }
    s := i + 1;
  }

  method MarshalByte(n: nat, b: array<byte>, x: byte) returns (end: nat)
    requires n < b.Length
    modifies b
    ensures end == n + 1 && b[..] == Put(old(b[..]), n, [x])
  {
    b[n] := x;
    end := n + 1;
  }

  method MarshalUint(n: nat, b: array<byte>, v: nat) returns (end: nat)
    requires n + |Uvarint(v)| <= b.Length
    modifies b
    ensures end == n + |Uvarint(v)| && b[..] == Put(old(b[..]), n, Uvarint(v))
  {
    hide Uvarint, Put;
    var i, w := n, v;
    ghost var done: seq<byte> := [];
    PutNothing(b[..], n);
    while w >= 0x80
      invariant Uvarint(v) == done + Uvarint(w) && i == n + |done|
      invariant n + |done| <= b.Length && b[..] == Put(old(b[..]), n, done)
    {
      UvarintMore(w);
      PutTwice(old(b[..]), n, done, [w % 0x80 + 0x80]);
      i := MarshalByte(i, b, w % 0x80 + 0x80);
      done := done + [w % 0x80 + 0x80];
      w := w / 0x80;
    }
    UvarintLast(w);
    PutTwice(old(b[..]), n, done, [w]);
    end := MarshalByte(i, b, w);
  }

  lemma PutNothing(b: seq<byte>, n: nat)
    requires n <= |b|
    ensures Put(b, n, []) == b
  {
  }

  lemma UvarintMore(v: nat)
    requires v >= 0x80
    ensures Uvarint(v) == [v % 0x80 + 0x80] + Uvarint(v / 0x80)
  {
  }

  lemma UvarintLast(v: nat)
    requires v < 0x80
    ensures Uvarint(v) == [v]
  {
  }

  method UnmarshalUint(n: nat, b: seq<byte>) returns (r: Result<nat>)
    requires n <= |b|
    ensures r == ReadUvarint(b, n, 0, 0)
  {
    var x: nat, i: nat, p: nat := 0, 0, 1;
    while n + i < |b|
      invariant n + i <= |b| && p == Pow(i)
      invariant ReadUvarint(b, n, 0, 0) == ReadUvarint(b, n + i, i, x)
    {
      var c := b[n + i];
      if i == MaxVarintLen { return Overflow; }
      if c < 0x80 {
        if i == MaxVarintLen - 1 && c > 1 { return Overflow; }
        return Ok(n + i + 1, (x + c * p) % MaxUint64);
      }
      x := (x + (c % 0x80) * p) % MaxUint64;
      i, p := i + 1, 0x80 * p;
    }
    r := TooSmall;
  }

  // ----- fixed width, least significant byte first -----

  function Le(v: nat, w: nat): (bs: seq<byte>)
    ensures |bs| == w
  {
    if w == 0 then [] else [v % 0x100] + Le(v / 0x100, w - 1)
  }

  function Pow256(w: nat): (p: nat)
    ensures p > 0
  {
    if w == 0 then 1 else 0x100 * Pow256(w - 1)
  }

  function LeValue(bs: seq<byte>): nat { if bs == [] then 0 else bs[0] + 0x100 * LeValue(bs[1..]) }

  lemma {:induction false} LeRoundTrip(v: nat, w: nat)
    requires v < Pow256(w)
    ensures LeValue(Le(v, w)) == v
    decreases w
  {
    if w > 0 {
      LeRoundTrip(v / 0x100, w - 1);
      assert Le(v, w)[1..] == Le(v / 0x100, w - 1);
    }
  }

  lemma Widths256()
    ensures Pow256(1) == 0x100 && Pow256(2) == 0x1_0000 && Pow256(4) == 0x1_0000_0000 && Pow256(8) == MaxUint64
  {
    assert Pow256(3) == 0x100_0000;
    assert Pow256(5) == 0x100_0000_0000;
    assert Pow256(6) == 0x1_0000_0000_0000;
    assert Pow256(7) == 0x100_0000_0000_0000;
  }

  method MarshalFixed(n: nat, b: array<byte>, v: nat, w: nat) returns (end: nat)
    requires n + w <= b.Length
    modifies b
    ensures end == n + w && b[..] == Put(old(b[..]), n, Le(v, w))
  {
    hide Put;
    var u := v;
    ghost var done: seq<byte> := [];
    PutNothing(b[..], n);
    for i := 0 to w
      invariant Le(v, w) == done + Le(u, w - i) && |done| == i
      invariant b[..] == Put(old(b[..]), n, done)
    {
      PutTwice(old(b[..]), n, done, [u % 0x100]);
      var _ := MarshalByte(n + i, b, u % 0x100);
      done := done + [u % 0x100];
      u := u / 0x100;
    }
    assert done + Le(u, 0) == done;
    end := n + w;
  }
}
