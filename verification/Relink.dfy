/** Builtin functions are referred to by index in memory and by name on file (vm/bytecode.go:42-159,
    295-348). */
module Relink {
  import opened Wrappers
  import opened Instructions
  import opened StreamEdit
  import opened Varint
  import opened ObjectCodec

  type Names = seq<Bytes>

  predicate Unique(names: Names) {
    forall i, j :: 0 <= i < |names| && 0 <= j < |names| && names[i] == names[j] ==> i == j
  }

  /** What a table of new indices makes of one instruction. */
  function Patched(remap: seq<byte>, i: seq<byte>): seq<byte>
    requires |remap| == 256
  {
    if |i| == 2 && i[0] == OpGetBuiltin then [OpGetBuiltin, remap[i[1]]] else i
  }

  function PatchBy(remap: seq<byte>): Edit
    requires |remap| == 256
  {
    i => Patched(remap, i)
  }

  /** The instruction at i, in place. */
  method PatchOne(insts: array<byte>, i: nat, remap: seq<byte>)
    requires |remap| == 256 && Whole(insts[..], i)
    modifies insts
    ensures insts[..] == old(insts[..i]) + Patched(remap, InstrAt(old(insts[..]), i)) + old(insts[Next(insts[..], i)..])
  {
    ghost var was := insts[..];
    assert was[i] == insts[i];
    if insts[i] == OpGetBuiltin {
      assert InstrAt(was, i) == [OpGetBuiltin, insts[i + 1]];
      insts[i + 1] := remap[insts[i + 1]];
    } else {
      assert was == was[..i] + InstrAt(was, i) + was[Next(was, i)..];
    }
  }

  /** patchBuiltinIndices, in place. */
  method PatchBuiltinIndices(insts: array<byte>, remap: seq<byte>)
    requires |remap| == 256 && Stream(insts[..], 0)
    modifies insts
    ensures insts[..] == Edited(old(insts[..]), 0, PatchBy(remap))
  {
    hide Edited, Patched, Whole, InstrAt, Next;
    ghost var was, f := insts[..], PatchBy(remap);
    ghost var done: seq<byte> := [];
    var i: nat := 0;
    while i < insts.Length
      invariant i <= insts.Length && Stream(was, i)
      invariant |done| == i && done + Edited(was, i, f) == Edited(was, 0, f)
      invariant insts[..] == done + was[i..]
      decreases insts.Length - i
    {
      EditedHere(was, i, f);
      SameFrom(insts[..], done, was, i);
      var op := insts[i];
      PatchOne(insts, i, remap);
      Advance(done, was, i, f, remap);
      done := done + f(InstrAt(was, i));
      i := i + InstrLen(op);
    }
    EndOfStream(was, f);
    assert was[i..] == [];
  }

  lemma SameFrom(now: seq<byte>, done: seq<byte>, was: seq<byte>, i: nat)
    requires i < |was| && Whole(was, i) && |done| == i && now == done + was[i..]
    ensures Whole(now, i) && Next(now, i) == Next(was, i) && InstrAt(now, i) == InstrAt(was, i) && now[i] == was[i]
    ensures now[..i] == done && now[Next(was, i)..] == was[Next(was, i)..]
  {
    assert now[i] == was[i];
    var j := Next(was, i);
    assert now[i..j] == was[i..j];
  }

  lemma Advance(done: seq<byte>, was: seq<byte>, i: nat, f: Edit, remap: seq<byte>)
    requires |remap| == 256 && f == PatchBy(remap) && Whole(was, i) && Stream(was, Next(was, i))
    requires Edited(was, i, f) == f(InstrAt(was, i)) + Edited(was, Next(was, i), f)
    requires Stream(was, i)
    ensures f(InstrAt(was, i)) == Patched(remap, InstrAt(was, i)) && |f(InstrAt(was, i))| == InstrLen(was[i])
    ensures Next(was, i) == i + InstrLen(was[i])
    ensures done + f(InstrAt(was, i)) + Edited(was, Next(was, i), f) == done + Edited(was, i, f)
  {
    hide Edited;
  }

  lemma EndOfStream(code: seq<byte>, f: Edit)
    requires Stream(code, |code|)
    ensures Edited(code, |code|, f) == []
  {
  }

  // ----- which builtins a stream uses -----

  function Used(code: seq<byte>, p: nat): set<byte>
    requires Stream(code, p)
    decreases |code| - p
  {
    if p == |code| then {}
    else (if code[p] == OpGetBuiltin then {code[p + 1]} else {}) + Used(code, Next(code, p))
  }

  method CollectBuiltinIndices(code: seq<byte>) returns (used: set<byte>)
    requires Stream(code, 0)
    ensures used == Used(code, 0)
  {
    used := {};
    var i: nat := 0;
    while i < |code|
      invariant i <= |code| && Stream(code, i) && used + Used(code, i) == Used(code, 0)
      decreases |code| - i
    {
      if code[i] == OpGetBuiltin { used := used + {code[i + 1]}; }
      i := i + InstrLen(code[i]);
    }
  }

  lemma {:induction false} UsedAt(code: seq<byte>, p: nat, q: nat)
    requires Stream(code, p) && Boundary(code, p, q) && q < |code| && code[q] == OpGetBuiltin
    ensures q + 1 < |code| && code[q + 1] in Used(code, p)
    decreases |code| - p
  {
    if p != q { UsedAt(code, Next(code, p), q); }
  }

  lemma {:induction false} UsedSomewhere(code: seq<byte>, p: nat, b: byte) returns (q: nat)
    requires Stream(code, p) && b in Used(code, p)
    ensures Boundary(code, p, q) && q + 1 < |code| && code[q] == OpGetBuiltin && code[q + 1] == b
    decreases |code| - p
  {
    if code[p] == OpGetBuiltin && code[p + 1] == b { q := p; } else { q := UsedSomewhere(code, Next(code, p), b); }
  }

  /** The indices collected are exactly the operands of OpGetBuiltin. */
  lemma UsedExactly(code: seq<byte>, b: byte)
    requires Stream(code, 0)
    ensures b in Used(code, 0)
            <==> exists q: nat :: Boundary(code, 0, q) && q + 1 < |code| && code[q] == OpGetBuiltin && code[q + 1] == b
  {
    if b in Used(code, 0) { var q := UsedSomewhere(code, 0, b); }
    if q: nat :| Boundary(code, 0, q) && q + 1 < |code| && code[q] == OpGetBuiltin && code[q + 1] == b {
      UsedAt(code, 0, q);
    }
  }

  // ----- the name table -----

  predicate Listed(writer: Names, indices: seq<byte>) { forall k :: 0 <= k < |indices| ==> indices[k] < |writer| }

  function EntriesText(writer: Names, indices: seq<byte>): Bytes
    requires Listed(writer, indices)
  {
    if indices == [] then [] else [indices[0]] + (StrCode(writer[indices[0]]) + EntriesText(writer, indices[1..]))
  }

  function TableText(writer: Names, indices: seq<byte>): Bytes
    requires Listed(writer, indices)
  {
    Uvarint(Zig64(|indices|)) + EntriesText(writer, indices)
  }

  /** The current index of a name; the last one if there are several. */
  function Find(names: Names, name: Bytes): (r: Option<nat>)
    ensures r.Some? ==> r.value < |names| && names[r.value] == name
    ensures r.None? ==> name !in names
  {
    if names == [] then None
    else if names[|names| - 1] == name then Some(|names| - 1)
    else
      var r := Find(names[..|names| - 1], name);
      assert names == names[..|names| - 1] + [names[|names| - 1]];
      r
  }

  datatype Table = Loaded(end: nat, remap: seq<byte>) | UnknownBuiltin | Malformed

  function Identity(): (r: seq<byte>)
    ensures |r| == 256 && forall i :: 0 <= i < 256 ==> r[i] == i
  {
    seq(256, i requires 0 <= i < 256 => i)
  }

  function ReadEntries(b: Bytes, n: nat, count: nat, reader: Names, remap: seq<byte>): (r: Table)
    requires |remap| == 256
    ensures r.Loaded? ==> |r.remap| == 256
    decreases count
  {
    if count == 0 then Loaded(n, remap)
    else if n >= |b| then Malformed
    else
      match ReadBytes(b, n + 1)
      case TooSmall => Malformed
      case Overflow => Malformed
      case Ok(m, name) =>
        match Find(reader, name)
        case None => UnknownBuiltin
        case Some(i) => ReadEntries(b, m, count - 1, reader, remap[b[n] := Lo(i)])
  }

  /** unmarshalBuiltinNameTable; the result is used as byte(remap[old]). */
  function ReadTable(b: Bytes, n: nat, reader: Names): (r: Table)
    ensures r.Loaded? ==> |r.remap| == 256
  {
    if n > |b| then Malformed
    else
      match ReadInt(b, n)
      case TooSmall => Malformed
      case Overflow => Malformed
      case Ok(m, count) => if count < 0 || count > 256 then Malformed else ReadEntries(b, m, count, reader, Identity())
  }

  // ----- loading -----

  predicate Sensible(writer: Names, reader: Names, indices: seq<byte>) {
    && |writer| <= 256 && |reader| <= 256 && Unique(reader) && |indices| <= 256
    && Listed(writer, indices) && forall k :: 0 <= k < |indices| ==> |writer[indices[k]]| < MaxUint64
  }

  predicate AllKnown(writer: Names, reader: Names, indices: seq<byte>)
    requires Listed(writer, indices)
  {
    forall k :: 0 <= k < |indices| ==> writer[indices[k]] in reader
  }

  /** Where a name has gone. */
  predicate Relinked(writer: Names, reader: Names, i: byte, remap: seq<byte>) {
    |remap| == 256 && i < |writer| && remap[i] < |reader| && reader[remap[i]] == writer[i]
  }

  /** What reading the entries of the table does: it fails exactly when a name is unknown, and
      otherwise sends every listed index to the place of the same name. */
  lemma {:induction false} EntriesLoad(b: Bytes, n: nat, writer: Names, reader: Names, indices: seq<byte>,
                                       remap: seq<byte>)
    requires Sensible(writer, reader, indices) && At(b, n, EntriesText(writer, indices)) && |remap| == 256
    ensures var r := ReadEntries(b, n, |indices|, reader, remap);
            if AllKnown(writer, reader, indices) then
              && r.Loaded? && r.end == n + |EntriesText(writer, indices)|
              && (forall i: byte ::
                   i in indices || Relinked(writer, reader, i, remap) ==> Relinked(writer, reader, i, r.remap))
            else r == UnknownBuiltin
    decreases |indices|
  {
    hide StrCode, ReadBytes, At;
    if indices != [] {
      var i, rest := indices[0], indices[1..];
      var name := StrCode(writer[i]);
      FirstEntry(b, n, writer, indices);
      BytesRead(b, n + 1, writer[i]);
      match Find(reader, writer[i])
      case None =>
      case Some(j) =>
        EntriesLoad(b, n + 1 + |name|, writer, reader, rest, remap[i := Lo(j)]);
        assert AllKnown(writer, reader, indices) <==> AllKnown(writer, reader, rest) by {
          KnownFirst(writer, reader, indices);
        }
        assert indices == [i] + rest;
        assert Relinked(writer, reader, i, remap[i := Lo(j)]);
    }
  }

  lemma KnownFirst(writer: Names, reader: Names, indices: seq<byte>)
    requires Listed(writer, indices) && indices != []
    ensures AllKnown(writer, reader, indices)
            <==> writer[indices[0]] in reader && AllKnown(writer, reader, indices[1..])
  {
    if AllKnown(writer, reader, indices[1..]) && writer[indices[0]] in reader {
      forall k | 0 <= k < |indices| ensures writer[indices[k]] in reader {
        if k > 0 { assert indices[1..][k - 1] == indices[k]; }
      }
    }
  }

  lemma FirstEntry(b: Bytes, n: nat, writer: Names, indices: seq<byte>)
    requires Listed(writer, indices) && indices != [] && At(b, n, EntriesText(writer, indices))
    ensures var i, name := indices[0], StrCode(writer[indices[0]]);
            && n < |b| && b[n] == i && At(b, n + 1, name) && At(b, n + 1 + |name|, EntriesText(writer, indices[1..]))
  {
    hide StrCode, At;
    var i, name, rest := indices[0], StrCode(writer[indices[0]]), EntriesText(writer, indices[1..]);
    assert EntriesText(writer, indices) == [i] + (name + rest);
    AtFirst(b, n, [i] + (name + rest));
    AtParts(b, n, [i], name + rest);
    AtParts(b, n + 1, name, rest);
  }

  lemma TableLoads(b: Bytes, n: nat, writer: Names, reader: Names, indices: seq<byte>)
    requires Sensible(writer, reader, indices) && At(b, n, TableText(writer, indices))
    ensures var r := ReadTable(b, n, reader);
            if AllKnown(writer, reader, indices) then
              && r.Loaded? && r.end == n + |TableText(writer, indices)|
              && forall i <- indices :: Relinked(writer, reader, i, r.remap)
            else r == UnknownBuiltin
  {
    hide Uvarint, Zig64, ReadInt, EntriesText, ReadEntries, Relinked, At, Identity;
    var u := Uvarint(Zig64(|indices|));
    AtParts(b, n, u, EntriesText(writer, indices));
    IntRead(b, n, |indices|);
    EntriesLoad(b, n + |u|, writer, reader, indices, Identity());
  }

  /** Loading: if every builtin that is used exists, each reference in the stream is to the builtin of
      the same name afterwards and no other byte has changed, however old and new indices overlap;
      otherwise loading fails. */
  lemma RelinkingKeepsNames(b: Bytes, n: nat, writer: Names, reader: Names, indices: seq<byte>, code: seq<byte>, q: nat)
    requires Sensible(writer, reader, indices) && At(b, n, TableText(writer, indices))
    requires Stream(code, 0) && (forall i <- Used(code, 0) :: i in indices)
    requires Boundary(code, 0, q) && q < |code|
    ensures ReadTable(b, n, reader).Loaded? <==> AllKnown(writer, reader, indices)
    ensures ReadTable(b, n, reader).Loaded? ==>
              var out := Edited(code, 0, PatchBy(ReadTable(b, n, reader).remap));
              && |out| == |code| && Boundary(out, 0, q) && Whole(out, q) && Whole(code, q) && out[q] == code[q]
              && (code[q] != OpGetBuiltin ==> InstrAt(out, q) == InstrAt(code, q))
              && (code[q] == OpGetBuiltin ==>
                    code[q + 1] < |writer| && out[q + 1] < |reader| && reader[out[q + 1]] == writer[code[q + 1]])
  {
    hide ReadTable, TableText, At, Stream, Used, Edited, Patched, Relinked, Whole, InstrAt, Boundary;
    TableLoads(b, n, writer, reader, indices);
    if ReadTable(b, n, reader).Loaded? {
      var remap := ReadTable(b, n, reader).remap;
      var f := PatchBy(remap);
      PatchKeepsShape(remap);
      EditedAt([], code, 0, f, q);
      var out := Edited(code, 0, f);
      assert [] + out == out;
      if code[q] == OpGetBuiltin {
        UsedAt(code, 0, q);
        Moved(writer, reader, code, out, q, remap);
      } else {
        Untouched(code, q, remap);
      }
    }
  }

  lemma Untouched(code: seq<byte>, q: nat, remap: seq<byte>)
    requires |remap| == 256 && Whole(code, q) && code[q] != OpGetBuiltin
    ensures Patched(remap, InstrAt(code, q)) == InstrAt(code, q)
  {
  }

  lemma Moved(writer: Names, reader: Names, code: seq<byte>, out: seq<byte>, q: nat, remap: seq<byte>)
    requires |remap| == 256 && Whole(code, q) && Whole(out, q) && code[q] == out[q] == OpGetBuiltin
    requires InstrAt(out, q) == Patched(remap, InstrAt(code, q)) && Relinked(writer, reader, code[q + 1], remap)
    ensures code[q + 1] < |writer| && out[q + 1] < |reader| && reader[out[q + 1]] == writer[code[q + 1]]
  {
    assert out[q + 1] == InstrAt(out, q)[1] && code[q + 1] == InstrAt(code, q)[1];
  }

  lemma PatchKeepsShape(remap: seq<byte>)
    requires |remap| == 256
    ensures KeepsShape(PatchBy(remap))
  {
  }
}
