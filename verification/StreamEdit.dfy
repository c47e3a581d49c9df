/** Rewriting the instructions of a stream one by one, each to one of the same opcode and length. */
module StreamEdit {
  import opened Instructions

  type Edit = seq<byte> -> seq<byte>

  ghost predicate KeepsShape(f: Edit) {
    forall i: seq<byte> :: i != [] ==> |f(i)| == |i| && f(i)[0] == i[0]
  }

  function Edited(code: seq<byte>, p: nat, f: Edit): seq<byte>
    requires Stream(code, p)
    decreases |code| - p
  {
    if p == |code| then [] else f(InstrAt(code, p)) + Edited(code, Next(code, p), f)
  }

  lemma EditedHere(code: seq<byte>, p: nat, f: Edit)
    requires Stream(code, p) && p < |code|
    ensures Whole(code, p) && Stream(code, Next(code, p))
    ensures Edited(code, p, f) == f(InstrAt(code, p)) + Edited(code, Next(code, p), f)
  {
  }

  /** A rewritten stream behind other code: the same boundaries, and at each of them the rewritten
      instruction. */
  lemma {:induction false} EditedAt(pre: seq<byte>, code: seq<byte>, p: nat, f: Edit, q: nat)
    requires Stream(code, p) && KeepsShape(f) && |pre| == p && Boundary(code, p, q) && q < |code|
    ensures var out := pre + Edited(code, p, f);
            && |out| == |code| && Whole(code, q) && Whole(out, q) && out[q] == code[q]
            && Boundary(out, p, q) && InstrAt(out, q) == f(InstrAt(code, q))
    decreases |code| - p
  {
    var i, rest := f(InstrAt(code, p)), Edited(code, Next(code, p), f);
    var out := pre + Edited(code, p, f);
    EditedHere(code, p, f);
    assert out == (pre + i) + rest;
    assert |i| == InstrLen(code[p]) && out[p] == i[0] == code[p];
    EditedLength(code, Next(code, p), f);
    assert Whole(out, p) && Next(out, p) == Next(code, p);
    if p == q {
      assert out[p..p + |i|] == i;
    } else {
      EditedAt(pre + i, code, Next(code, p), f, q);
    }
  }

  lemma {:induction false} EditedLength(code: seq<byte>, p: nat, f: Edit)
    requires Stream(code, p) && KeepsShape(f)
    ensures |Edited(code, p, f)| == |code| - p
    decreases |code| - p
  {
    if p < |code| { EditedLength(code, Next(code, p), f); }
  }

  lemma {:induction false} EditedStream(pre: seq<byte>, code: seq<byte>, p: nat, f: Edit)
    requires Stream(code, p) && KeepsShape(f) && |pre| == p
    ensures Stream(pre + Edited(code, p, f), p)
    decreases |code| - p
  {
    hide Edited, KeepsShape;
    EditedLength(code, p, f);
    if p < |code| {
      var i, next := f(InstrAt(code, p)), Next(code, p);
      EditedHere(code, p, f);
      EditedAt(pre, code, p, f, p);
      assert pre + Edited(code, p, f) == (pre + i) + Edited(code, next, f);
      EditedLength(code, next, f);
      EditedStream(pre + i, code, next, f);
    }
  }

  /** Where the edit changes nothing nothing changes. */
  lemma {:induction false} EditedSame(pre: seq<byte>, code: seq<byte>, p: nat, f: Edit)
    requires Stream(code, p) && pre == code[..p]
    requires forall q ::
               p <= q < |code| && Boundary(code, p, q) ==> Whole(code, q) && f(InstrAt(code, q)) == InstrAt(code, q)
    ensures pre + Edited(code, p, f) == code
    decreases |code| - p
  {
    if p < |code| {
      var n := Next(code, p);
      assert Boundary(code, p, p);
      assert code[..n] == code[..p] + InstrAt(code, p);
      forall q | n <= q < |code| && Boundary(code, n, q)
        ensures Whole(code, q) && f(InstrAt(code, q)) == InstrAt(code, q)
      {
        assert Boundary(code, p, q);
      }
      EditedSame(code[..n], code, n, f);
      assert pre + Edited(code, p, f) == code[..n] + Edited(code, n, f);
    }
  }
}
