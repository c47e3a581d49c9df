/** Opcodes, instruction encoding and decoding (vm/parser/opcodes.go, vm/instructions.go),
    and the shape of the VM's dispatch loop with the meaning of single instructions left open. */
module Instructions {

  type byte = x: int | 0 <= x < 256

  /** Operands are one or two bytes wide. */
  type width = w: int | 1 <= w <= 2 witness 1

  const OpConstant: byte := 0
  const OpBComplement: byte := 1
  const OpPop: byte := 2
  const OpTrue: byte := 3
  const OpFalse: byte := 4
  const OpEqual: byte := 5
  const OpNotEqual: byte := 6
  const OpMinus: byte := 7
  const OpLNot: byte := 8
  const OpJumpFalsy: byte := 9
  const OpAndJump: byte := 10
  const OpOrJump: byte := 11
  const OpJump: byte := 12
  const OpNull: byte := 13
  const OpReturn: byte := 20
  const OpGetLocal: byte := 24
  const OpSetLocal: byte := 25
  const OpDefineLocal: byte := 26
  const OpGetBuiltin: byte := 33
  const OpClosure: byte := 34
  const OpBinaryOp: byte := 39
  const LastOpcode: byte := 42

  /** The operand widths of an opcode, as the table OpcodeOperands lists them. */
  function Widths(op: byte): seq<width> {
    if op in {0, 9, 10, 11, 12, 14, 15, 21, 22} then [2]
    else if op in {23, 34} then [2, 1]
    else if op in {19, 27, 32, 41, 42} then [1, 1]
    else if op in {20, 24, 25, 26, 28, 29, 30, 31, 33, 39} then [1]
    else []
  }

  function Sum(ws: seq<width>): (n: nat)
    ensures |ws| <= n
  {
    if ws == [] then 0 else ws[0] + Sum(ws[1..])
  }

  /** Length of a whole instruction: the opcode byte and its operands. */
  function InstrLen(op: byte): (n: nat)
    ensures 1 <= n <= 4
    ensures n == 1 + Sum(Widths(op))
  {
    assert Sum([2, 1]) == 2 + Sum([1]) == 3 by { assert [2, 1][1..] == [1]; }
    assert Sum([1, 1]) == 1 + Sum([1]) == 2 by { assert [1, 1][1..] == [1]; }
    if op in {0, 9, 10, 11, 12, 14, 15, 21, 22} then 3
    else if op in {23, 34} then 4
    else if op in {19, 27, 32, 41, 42} then 3
    else if op in {20, 24, 25, 26, 28, 29, 30, 31, 33, 39} then 2
    else 1
  }

  function Hi(n: int): byte { (n / 256) % 256 }

  function Lo(n: int): byte { n % 256 }

  /** A two-byte big-endian operand. */
  function Word(code: seq<byte>, p: int): (n: int)
    requires 0 <= p && p + 1 < |code|
    ensures 0 <= n < 65536
  {
    256 * (code[p] as int) + code[p + 1] as int
  }

  lemma WordOfHiLo(n: nat)
    requires n < 65536
    ensures 256 * Hi(n) + Lo(n) == n
  {
  }

  /** The operands an instruction with these widths is encoded to; a value wider than its
      operand is truncated, as byte(o) and uint16(o) truncate. */
  function EncodeOperand(w: width, n: int): (b: seq<byte>)
    ensures |b| == w
  {
    if w == 1 then [Lo(n)] else [Hi(n), Lo(n)]
  }

  function EncodeOperands(ws: seq<width>, operands: seq<int>): (b: seq<byte>)
    requires |operands| == |ws|
    ensures |b| == Sum(ws)
  {
    if ws == [] then []
    else EncodeOperand(ws[0], operands[0]) + EncodeOperands(ws[1..], operands[1..])
  }

  function Encode(op: byte, operands: seq<int>): (b: seq<byte>)
    requires |operands| == |Widths(op)|
    ensures |b| == InstrLen(op)
  {
    [op] + EncodeOperands(Widths(op), operands)
  }

  function DecodeOperand(w: width, b: seq<byte>, offset: nat): int
    requires offset + w <= |b|
  {
    if w == 1 then b[offset] else Word(b, offset)
  }

  /** What ReadOperands reads for these widths from an offset on. */
  function DecodeOperands(ws: seq<width>, b: seq<byte>, offset: nat): (operands: seq<int>)
    requires offset + Sum(ws) <= |b|
    ensures |operands| == |ws|
  {
    if ws == [] then []
    else [DecodeOperand(ws[0], b, offset)] + DecodeOperands(ws[1..], b, offset + ws[0])
  }

  function Limit(w: width): int { if w == 1 then 256 else 65536 }

  /** Decoding an encoding gives every operand modulo its width. */
  lemma {:induction false} DecodeTruncates(ws: seq<width>, operands: seq<int>, head: seq<byte>, tail: seq<byte>, i: nat)
    requires |operands| == |ws| && i < |ws|
    ensures DecodeOperands(ws, head + EncodeOperands(ws, operands) + tail, |head|)[i] == operands[i] % Limit(ws[i])
  {
    var first, rest := EncodeOperand(ws[0], operands[0]), EncodeOperands(ws[1..], operands[1..]);
    var b := head + (first + rest) + tail;
    if i == 0 {
      assert b[|head|] == first[0];
      if ws[0] == 2 { assert b[|head| + 1] == first[1]; }
    } else {
      assert b == (head + first) + rest + tail;
      DecodeTruncates(ws[1..], operands[1..], head + first, tail, i - 1);
    }
  }

  /** ReadOperands undoes MakeInstruction exactly for operands that fit their width. */
  lemma DecodeEncode(ws: seq<width>, operands: seq<int>, tail: seq<byte>)
    requires |operands| == |ws|
    ensures DecodeOperands(ws, EncodeOperands(ws, operands) + tail, 0) == operands
            <==> forall i :: 0 <= i < |ws| ==> 0 <= operands[i] < Limit(ws[i])
  {
    var d := DecodeOperands(ws, EncodeOperands(ws, operands) + tail, 0);
    forall i | 0 <= i < |ws| ensures d[i] == operands[i] % Limit(ws[i]) {
      assert [] + EncodeOperands(ws, operands) + tail == EncodeOperands(ws, operands) + tail;
      DecodeTruncates(ws, operands, [], tail, i);
    }
    assert d == operands <==> forall i :: 0 <= i < |ws| ==> d[i] == operands[i];
  }

  /** Encoding what was decoded gives the bytes back. */
  lemma {:induction false} EncodeDecode(ws: seq<width>, b: seq<byte>, offset: nat)
    requires offset + Sum(ws) <= |b|
    ensures EncodeOperands(ws, DecodeOperands(ws, b, offset)) == b[offset..offset + Sum(ws)]
  {
    if ws != [] {
      EncodeDecode(ws[1..], b, offset + ws[0]);
      var n := DecodeOperand(ws[0], b, offset);
      if ws[0] == 2 { assert Hi(n) == b[offset] && Lo(n) == b[offset + 1]; }
      assert EncodeOperand(ws[0], n) == b[offset..offset + ws[0]];
      assert b[offset..offset + Sum(ws)] == b[offset..offset + ws[0]] + b[offset + ws[0]..offset + Sum(ws)];
    }
  }

  lemma EncodeFirst(ws: seq<width>, operands: seq<int>, i: nat, done: seq<byte>)
    requires |operands| == |ws| && i < |ws|
    ensures done + EncodeOperands(ws[i..], operands[i..])
            == (done + EncodeOperand(ws[i], operands[i])) + EncodeOperands(ws[i + 1..], operands[i + 1..])
    ensures Sum(ws[i..]) == ws[i] + Sum(ws[i + 1..])
  {
    assert ws[i..][1..] == ws[i + 1..] && operands[i..][1..] == operands[i + 1..];
    var first, rest := EncodeOperand(ws[i], operands[i]), EncodeOperands(ws[i + 1..], operands[i + 1..]);
    assert done + (first + rest) == (done + first) + rest;
  }

  lemma DecodeFirst(ws: seq<width>, i: nat, b: seq<byte>, offset: nat, done: seq<int>)
    requires i < |ws| && offset + Sum(ws[i..]) <= |b|
    ensures Sum(ws[i..]) == ws[i] + Sum(ws[i + 1..])
    ensures done + DecodeOperands(ws[i..], b, offset)
            == (done + [DecodeOperand(ws[i], b, offset)]) + DecodeOperands(ws[i + 1..], b, offset + ws[i])
  {
    assert ws[i..][1..] == ws[i + 1..];
    var first, rest := DecodeOperand(ws[i], b, offset), DecodeOperands(ws[i + 1..], b, offset + ws[i]);
    assert done + ([first] + rest) == (done + [first]) + rest;
  }

  /** MakeInstruction: allocates the bytes and fills them operand by operand. */
  method MakeInstruction(op: byte, operands: seq<int>) returns (instruction: seq<byte>)
    requires |operands| == |Widths(op)|
    ensures instruction == Encode(op, operands)
  {
    var ws := Widths(op);
    var buffer := new byte[InstrLen(op)];
    buffer[0] := op;
    var offset: nat := 1;
    for i := 0 to |operands|
      invariant offset + Sum(ws[i..]) == buffer.Length
      invariant buffer[..offset] + EncodeOperands(ws[i..], operands[i..]) == Encode(op, operands)
    {
      EncodeFirst(ws, operands, i, buffer[..offset]);
      ghost var before := buffer[..offset];
      if ws[i] == 1 {
        buffer[offset] := Lo(operands[i]);
      } else {
        buffer[offset], buffer[offset + 1] := Hi(operands[i]), Lo(operands[i]);
      }
      offset := offset + ws[i];
      assert buffer[..offset] == before + EncodeOperand(ws[i], operands[i]);
    }
    instruction := buffer[..];
    assert instruction == buffer[..offset];
  }

  /** ReadOperands: reads operands at increasing offsets and says how many bytes they took. */
  method ReadOperands(ws: seq<width>, ins: seq<byte>) returns (operands: seq<int>, offset: nat)
    requires |ins| >= Sum(ws)
    ensures operands == DecodeOperands(ws, ins, 0) && offset == Sum(ws)
  {
    operands, offset := [], 0;
    for i := 0 to |ws|
      invariant offset + Sum(ws[i..]) == Sum(ws)
      invariant operands + DecodeOperands(ws[i..], ins, offset) == DecodeOperands(ws, ins, 0)
    {
      DecodeFirst(ws, i, ins, offset, operands);
      if ws[i] == 1 {
        operands := operands + [ins[offset]];
      } else {
        operands := operands + [Word(ins, offset)];
      }
      offset := offset + ws[i];
    }
  }

  // ----- instruction streams -----

  /** There is a whole, known instruction at p. */
  predicate Whole(code: seq<byte>, p: int) {
    0 <= p < |code| && code[p] <= LastOpcode && p + InstrLen(code[p]) <= |code|
  }

  function Next(code: seq<byte>, p: int): (q: int)
    requires Whole(code, p)
    ensures p < q <= |code|
  {
    p + InstrLen(code[p])
  }

  /** From p on, the bytes are a sequence of whole instructions. */
  predicate Stream(code: seq<byte>, p: int)
    decreases |code| - p
  {
    p == |code| || (Whole(code, p) && Stream(code, Next(code, p)))
  }

  /** Walking from p instruction by instruction one arrives at q. */
  predicate Boundary(code: seq<byte>, p: int, q: int)
    decreases |code| - p
  {
    p == q || (Whole(code, p) && Boundary(code, Next(code, p), q))
  }

  function InstrAt(code: seq<byte>, p: int): (i: seq<byte>)
    requires Whole(code, p)
    ensures |i| == InstrLen(code[p]) && i[0] == code[p]
  {
    code[p..Next(code, p)]
  }

  lemma BoundaryStep(code: seq<byte>, p: int, q: int)
    requires Boundary(code, p, q) && Whole(code, q)
    ensures Boundary(code, p, Next(code, q))
    decreases |code| - p
  {
    if p != q { BoundaryStep(code, Next(code, p), q); }
  }

  lemma BoundaryWhole(code: seq<byte>, p: int, q: int)
    requires Boundary(code, p, q) && Stream(code, p)
    ensures Stream(code, q) && p <= q <= |code|
    decreases |code| - p
  {
    if p != q { BoundaryWhole(code, Next(code, p), q); }
    else if p != |code| {}
    else {}
  }

  predicate IsJump(op: byte) {
    op in {OpJump, OpJumpFalsy, OpAndJump, OpOrJump}
  }

  function Target(code: seq<byte>, p: int): int
    requires Whole(code, p) && IsJump(code[p])
  {
    Word(code, p + 1)
  }

  // ----- running -----

  /** What one instruction does to the machine state apart from moving the instruction pointer. */
  datatype Effect<S, R> = Goes(s: S) | Stops(r: R)

  datatype Branch<S, R> = Taken(s: S) | NotTaken(s: S) | Faults(r: R)

  /** The meaning of everything but control flow. S is the whole machine state, R a final result. */
  datatype Meaning<!S, !R> = Meaning(
    plain: (seq<byte>, S) -> Effect<S, R>,
    test: (byte, S) -> Branch<S, R>,
    ret: (byte, S) -> R,
    truncated: R)

  datatype Status<S, R> = Running(ip: int, s: S) | Halted(r: R)

  /** One turn of the dispatch loop (vm/vm.go:409): the full instruction is validated first. */
  function Step<S, R>(m: Meaning<S, R>, code: seq<byte>, ip: int, s: S): Status<S, R> {
    if !Whole(code, ip) then Halted(m.truncated)
    else if code[ip] == OpReturn then Halted(m.ret(code[ip + 1], s))
    else if code[ip] == OpJump then Running(Target(code, ip), s)
    else if IsJump(code[ip]) then
      match m.test(code[ip], s)
      case Taken(s') => Running(Target(code, ip), s')
      case NotTaken(s') => Running(Next(code, ip), s')
      case Faults(r) => Halted(r)
    else
      match m.plain(InstrAt(code, ip), s)
      case Goes(s') => Running(Next(code, ip), s')
      case Stops(r) => Halted(r)
  }

  function RunN<S, R>(m: Meaning<S, R>, code: seq<byte>, c: Status<S, R>, n: nat): Status<S, R>
    decreases n
  {
    if n == 0 || c.Halted? then c
    else RunN(m, code, Step(m, code, c.ip, c.s), n - 1)
  }

  lemma {:induction false} RunAdd<S, R>(m: Meaning<S, R>, code: seq<byte>, c: Status<S, R>, a: nat, b: nat)
    ensures RunN(m, code, c, a + b) == RunN(m, code, RunN(m, code, c, a), b)
    decreases a
  {
    if a != 0 && c.Running? {
      RunAdd(m, code, Step(m, code, c.ip, c.s), a - 1, b);
    }
  }

  lemma HaltedStays<S, R>(m: Meaning<S, R>, code: seq<byte>, c: Status<S, R>, a: nat, b: nat)
    requires RunN(m, code, c, a).Halted? && a <= b
    ensures RunN(m, code, c, b) == RunN(m, code, c, a)
  {
    RunAdd(m, code, c, a, b - a);
  }
}
