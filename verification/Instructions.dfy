/**
 Opcodes and the disassembler of libevmasm/Instruction.h and Instruction.cpp.
 */
module Instructions {
  import opened Bytes

  const ADD: Byte := 0x01
  const POP: Byte := 0x50
  const MSTORE: Byte := 0x52
  const JUMPDEST: Byte := 0x5b
  const PUSH1: Byte := 0x60
  const PUSH21: Byte := 0x74
  const PUSH32: Byte := 0x7f
  const DUP2: Byte := 0x81
  const INVALID: Byte := 0xfe

  predicate IsPush(op: Byte) {
    PUSH1 <= op <= PUSH32
  }

  /** The `additional` column of the instruction table: only pushes carry data. */
  function Additional(op: Byte): (n: nat)
    ensures n <= 32
  {
    if IsPush(op) then op - PUSH1 + 1 else 0
  }

  /** `pushInstruction`, whose range assertion is the caller's duty here. */
  function PushOp(width: nat): (op: Byte)
    requires 1 <= width <= 32
    ensures IsPush(op) && Additional(op) == width
  {
    PUSH1 + width - 1
  }

  /** An instruction together with the number it pushes (0 if it pushes none). */
  datatype Instr = Instr(op: Byte, value: nat)

  /** The number of bytes the instruction at the front of `code` occupies. */
  function FirstLength(code: seq<Byte>): (n: nat)
    requires code != []
    ensures 1 <= n <= |code|
  {
    1 + if Additional(code[0]) <= |code| - 1 then Additional(code[0]) else |code| - 1
  }

  /** What `eachInstruction` reports first; data cut off by the end of the code
      is padded with zeros on the right. */
  function First(code: seq<Byte>): Instr
    requires code != []
  {
    var n := FirstLength(code);
    Instr(code[0], FromBigEndian(code[1..n]) * Pow256(Additional(code[0]) + 1 - n))
  }

  /** Everything `eachInstruction` reports, in order. */
  function Disassemble(code: seq<Byte>): seq<Instr> {
    if code == [] then [] else [First(code)] + Disassemble(code[FirstLength(code)..])
  }

  /** `p` is the position of an instruction, not of push data: the walk of
      section 9.4.3 of the Ethereum Yellow Paper. */
  predicate IsBoundary(code: seq<Byte>, p: nat) {
    code != [] && (p == 0 || (p >= FirstLength(code) && IsBoundary(code[FirstLength(code)..], p - FirstLength(code))))
  }

  /** A position the machine accepts as the target of a jump. */
  predicate IsJumpDestination(code: seq<Byte>, p: nat) {
    p < |code| && IsBoundary(code, p) && code[p] == JUMPDEST
  }

  /** The nested loops of `eachInstruction`, which shift data bytes in one at a time. */
  method EachInstruction(mem: seq<Byte>) returns (reported: seq<Instr>)
    ensures reported == Disassemble(mem)
  {
    hide FirstLength, First, Disassemble, FromBigEndian, Pow256;
    reported := [];
    var it := 0;
    assert mem[0..] == mem;
    while it < |mem|
      invariant 0 <= it <= |mem|
      invariant reported + Disassemble(mem[it..]) == Disassemble(mem)
    {
      var instr, start := mem[it], it;
      var additional, data := Additional(instr), 0;
      assert FromBigEndian(mem[start + 1..start + 1]) == 0 by { FromNothing(mem[start + 1..start + 1]); }
      while additional > 0 && it + 1 < |mem|
        invariant start <= it < |mem| && additional >= 0
        invariant it - start + additional == Additional(instr)
        invariant data == FromBigEndian(mem[start + 1..it + 1])
        decreases additional
      {
        ShiftIn(mem, start + 1, it + 1);
        it := it + 1;
        data := data * 256 + mem[it];
        additional := additional - 1;
      }
      data := data * Pow256(additional);
      ReportedFirst(mem, start, it + 1);
      reported := reported + [Instr(instr, data)];
      it := it + 1;
    }
    assert mem[it..] == [];
    assert Disassemble([]) == [] by { NothingToReport(); }
  }

  lemma FromNothing(s: seq<Byte>)
    requires s == []
    ensures FromBigEndian(s) == 0
  {
  }

  lemma NothingToReport()
    ensures Disassemble([]) == []
  {
  }

  lemma ShiftIn(mem: seq<Byte>, from: nat, to: nat)
    requires from <= to < |mem|
    ensures FromBigEndian(mem[from..to + 1]) == FromBigEndian(mem[from..to]) * 256 + mem[to]
  {
    assert mem[from..to + 1][..to - from] == mem[from..to];
  }

  lemma ReportedFirst(mem: seq<Byte>, start: nat, end: nat)
    requires start < end <= |mem| && end - start - 1 <= Additional(mem[start])
    requires end - start - 1 == Additional(mem[start]) || end == |mem|
    ensures Disassemble(mem[start..]) ==
            [Instr(mem[start], FromBigEndian(mem[start +
                1..end]) * Pow256(Additional(mem[start]) - (end - start - 1)))] +
            Disassemble(mem[end..])
  {
    hide FromBigEndian, Pow256;
    var rest := mem[start..];
    assert FirstLength(rest) == end - start;
    assert rest[1..end - start] == mem[start + 1..end];
    assert rest[end - start..] == mem[end..];
  }

  // ---------------------------------------------------------------- encoding

  function InstrBytes(i: Instr): (s: seq<Byte>)
    ensures |s| == 1 + Additional(i.op)
  {
    [i.op] + ToBigEndian(i.value, Additional(i.op))
  }

  function CodeOf(instrs: seq<Instr>): seq<Byte> {
    if instrs == [] then [] else InstrBytes(instrs[0]) + CodeOf(instrs[1..])
  }

  /** The value fits the instruction's data bytes. */
  predicate Fits(i: Instr) {
    i.value < Pow256(Additional(i.op))
  }

  predicate AllFit(instrs: seq<Instr>) {
    forall k :: 0 <= k < |instrs| ==> Fits(instrs[k])
  }

  lemma CodeOfOne(i: Instr)
    ensures CodeOf([i]) == InstrBytes(i)
  {
    assert [i][1..] == [];
  }

  lemma {:induction false} CodeOfConcat(xs: seq<Instr>, ys: seq<Instr>)
    ensures CodeOf(xs + ys) == CodeOf(xs) + CodeOf(ys)
  {
    if xs == [] {
      assert xs + ys == ys;
    } else {
      assert (xs + ys)[1..] == xs[1..] + ys;
      CodeOfConcat(xs[1..], ys);
    }
  }

  lemma FirstOfInstr(i: Instr, rest: seq<Byte>)
    requires Fits(i)
    ensures var code := InstrBytes(i) + rest;
            FirstLength(code) == |InstrBytes(i)| && First(code) == i && code[FirstLength(code)..] == rest
  {
    var code := InstrBytes(i) + rest;
    var n := Additional(i.op);
    assert code[1..n + 1] == ToBigEndian(i.value, n);
    FromToBigEndianFits(i.value, n);
    assert Pow256(0) == 1;
  }

  lemma CodeOfFirst(instrs: seq<Instr>, rest: seq<Byte>)
    requires instrs != []
    ensures CodeOf(instrs) + rest == InstrBytes(instrs[0]) + (CodeOf(instrs[1..]) + rest)
  {
    hide InstrBytes;
  }

  lemma ConsConcat<T>(s: seq<T>, t: seq<T>)
    requires s != []
    ensures [s[0]] + (s[1..] + t) == s + t
  {
  }

  lemma DisassembleCons(i: Instr, rest: seq<Byte>)
    requires Fits(i)
    ensures Disassemble(InstrBytes(i) + rest) == [i] + Disassemble(rest)
  {
    FirstOfInstr(i, rest);
  }

  /** The disassembler reads emitted instructions back, whatever follows them. */
  lemma {:induction false} DisassembleCode(instrs: seq<Instr>, rest: seq<Byte>)
    requires AllFit(instrs)
    ensures Disassemble(CodeOf(instrs) + rest) == instrs + Disassemble(rest)
  {
    hide Disassemble, InstrBytes, Fits;
    if instrs == [] {
      assert CodeOf(instrs) + rest == rest;
      assert instrs + Disassemble(rest) == Disassemble(rest);
    } else {
      hide CodeOf;
      var tail := CodeOf(instrs[1..]) + rest;
      CodeOfFirst(instrs, rest);
      DisassembleCons(instrs[0], tail);
      DisassembleCode(instrs[1..], rest);
      ConsConcat(instrs, Disassemble(rest));
    }
  }

  /** Every instruction of emitted code starts at a boundary. */
  lemma {:induction false} BoundaryAfter(instrs: seq<Instr>, rest: seq<Byte>)
    requires AllFit(instrs) && rest != []
    ensures IsBoundary(CodeOf(instrs) + rest, |CodeOf(instrs)|)
  {
    var code := CodeOf(instrs) + rest;
    if instrs == [] {
      assert IsBoundary(code, 0);
    } else {
      var tail := CodeOf(instrs[1..]) + rest;
      FirstOfInstr(instrs[0], tail);
      assert code == InstrBytes(instrs[0]) + tail;
      BoundaryAfter(instrs[1..], rest);
    }
  }
}
