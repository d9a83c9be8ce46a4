/**
 What holds of every successfully assembled program: it disassembles to the
 items it was made from, its jumps land on jump destinations, and its
 references point at what they name.
 */
module AssemblyTheorems {
  import opened Wrappers
  import opened Bytes
  import opened Instructions
  import opened AssemblyModel
  import opened Assembler

  // ---------------------------------------------------------------- parts of the layout

  lemma LaidCode(e: Env, operands: seq<nat>, out: Assembled)
    requires Laid(e, operands, out)
    ensures |operands| == |e.asm.items| && GoodWidths(e)
    ensures forall i :: 0 <= i < |e.asm.items| ==> Emittable(e, i)
    ensures out.linked.bytecode == Code(e, operands, |operands|) + Trailer(e)
    ensures |Code(e, operands, |operands|)| == CodeSize(e)
  {
    hide Code, Trailer, Emittable, TagTable, Resolved;
    CodeLength(e, operands, |operands|);
  }

  lemma LaidTags(e: Env, operands: seq<nat>, out: Assembled)
    requires Laid(e, operands, out)
    ensures TagTable(e, out.tagPositions, |e.asm.items|)
    ensures |operands| == |e.asm.items|
    ensures forall i :: 0 <= i < |e.asm.items| && e.asm.items[i].PushTag? ==>
      TagResolved(e, out.tagPositions, operands, i)
  {
    hide Code, Trailer, Emittable, TagTable, TagTarget;
  }

  // ---------------------------------------------------------------- disassembly

  /** The instructions item `i` ends up as: a number too large for its hole is
      cut to the hole's capacity. */
  function FinalInstrs(e: Env, operands: seq<nat>, i: nat): seq<Instr>
    requires i < |e.asm.items| == |operands|
  {
    ItemInstrs(e, i, operands[i] % Pow256(HoleWidth(e, i)))
  }

  function Expansion(e: Env, operands: seq<nat>, n: nat): seq<Instr>
    requires n <= |e.asm.items| == |operands|
  {
    if n == 0 then [] else Expansion(e, operands, n - 1) + FinalInstrs(e, operands, n - 1)
  }

  /** No operation is itself a push: operands come only from push items. */
  predicate NoRawPush(a: Assembly) {
    forall i :: 0 <= i < |a.items| && a.items[i].Operation? ==> !IsPush(a.items[i].op)
  }

  predicate NoRawPushBefore(a: Assembly, n: int) {
    forall i :: 0 <= i < n <= |a.items| && a.items[i].Operation? ==> !IsPush(a.items[i].op)
  }

  lemma ToBigEndianMod(v: nat, width: nat)
    ensures ToBigEndian(v, width) == ToBigEndian(v % Pow256(width), width)
  {
    FromToBigEndian(v, width);
    ToFromBigEndian(ToBigEndian(v, width));
  }

  lemma {:induction false} StoreAllFits(offsets: seq<nat>)
    requires forall k :: 0 <= k < |offsets| ==> 1 <= BytesRequired(offsets[k]) <= 32
    ensures AllFit(StoreAll(offsets))
  {
    if offsets != [] {
      StoreAllFits(offsets[1..]);
      BytesRequiredExact(offsets[0], BytesRequired(offsets[0]));
    }
  }

  /** Every item becomes instructions whose values fit their data bytes. */
  lemma PieceIsInstructions(e: Env, i: nat, operand: nat)
    requires i < |e.asm.items| && GoodWidths(e) && Emittable(e, i)
    requires e.asm.items[i].Operation? ==> !IsPush(e.asm.items[i].op)
    ensures var instrs := ItemInstrs(e, i, operand % Pow256(HoleWidth(e, i)));
            AllFit(instrs) && PieceBytes(e, i, operand) == CodeOf(instrs)
  {
    var reduced := operand % Pow256(HoleWidth(e, i));
    var instrs := ItemInstrs(e, i, reduced);
    var item := e.asm.items[i];
    if item.AssignImmutable? {
      if OffsetsAt(e, i) != [] {
        StoreAllFits(OffsetsAt(e, i));
      }
    } else {
      CodeOfOne(instrs[0]);
      if KindOf(item) != Plain {
        HolePiece(e, i, operand);
        ToBigEndianMod(operand, HoleWidth(e, i));
      } else if item.Push? {
        PushWidth(item.data);
        BytesRequiredExact(item.data, Max(1, BytesRequired(item.data)));
      } else if item.PushSubSize? {
        BytesRequiredExact(SubSize(e, item.id), Max(1, BytesRequired(SubSize(e, item.id))));
      } else if item.PushString? {
        FromBigEndianBound(Padded(e.asm.strings[item.hash]));
      }
    }
  }

  lemma AllFitConcat(xs: seq<Instr>, ys: seq<Instr>)
    requires AllFit(xs) && AllFit(ys)
    ensures AllFit(xs + ys)
  {
  }

  lemma {:induction false} CodeIsExpansion(e: Env, operands: seq<nat>, n: nat)
    requires n <= |e.asm.items| == |operands| && GoodWidths(e) && NoRawPushBefore(e.asm, n)
    requires forall i :: 0 <= i < |operands| ==> Emittable(e, i)
    ensures AllFit(Expansion(e, operands, n)) && Code(e, operands, n) == CodeOf(Expansion(e, operands, n))
  {
    hide PieceBytes, ItemInstrs, Emittable, HoleWidth, AllFit;
    if n == 0 {
      assert AllFit(Expansion(e, operands, n)) by { NothingFits(); }
    } else {
      CodeIsExpansion(e, operands, n - 1);
      PieceIsInstructions(e, n - 1, operands[n - 1]);
      CodeOfConcat(Expansion(e, operands, n - 1), FinalInstrs(e, operands, n - 1));
      AllFitConcat(Expansion(e, operands, n - 1), FinalInstrs(e, operands, n - 1));
    }
  }

  lemma NothingFits()
    ensures AllFit([])
  {
  }

  /** Disassembling an assembled program gives back the instructions of its
      items, in order, before whatever its trailer reads as. */
  lemma AssembledDisassembles(e: Env, operands: seq<nat>, out: Assembled)
    requires Laid(e, operands, out) && NoRawPush(e.asm)
    ensures Disassemble(out.linked.bytecode) == Expansion(e, operands, |operands|) + Disassemble(Trailer(e))
    ensures CodeSize(e) <= |out.linked.bytecode|
    ensures Disassemble(out.linked.bytecode[..CodeSize(e)]) == Expansion(e, operands, |operands|)
  {
    hide Disassemble, Expansion, Code, Trailer, Emittable, TagTable, Resolved, AllFit;
    CodeIsExpansion(e, operands, |operands|);
    CodeLength(e, operands, |operands|);
    var instrs := Expansion(e, operands, |operands|);
    DisassembleCode(instrs, Trailer(e));
    DisassembleCode(instrs, []);
    assert out.linked.bytecode[..CodeSize(e)] == CodeOf(instrs) + [];
    NothingToReport();
  }

  // ---------------------------------------------------------------- exactly when code disassembles

  /** The data bytes that operations which are pushes lack in the code. */
  function MissingBytes(items: seq<Item>, n: nat): nat
    requires n <= |items|
  {
    if n == 0 then 0
    else MissingBytes(items, n - 1) + (if items[n - 1].Operation? then Additional(items[n - 1].op) else 0)
  }

  lemma {:induction false} NothingMissing(a: Assembly, n: nat)
    requires n <= |a.items| && MissingBytes(a.items, n) == 0
    ensures NoRawPushBefore(a, n)
  {
    if n > 0 {
      NothingMissing(a, n - 1);
    }
  }

  lemma FinalSize(e: Env, operands: seq<nat>, i: nat)
    requires i < |e.asm.items| == |operands| && GoodWidths(e) && Emittable(e, i)
    ensures var item := e.asm.items[i];
            |CodeOf(FinalInstrs(e, operands, i))| ==
            |PieceBytes(e, i, operands[i])| + (if item.Operation? then Additional(item.op) else 0)
  {
    hide ItemInstrs, Emittable, PieceBytes;
    var item := e.asm.items[i];
    if item.Operation? {
      CodeOfOne(Instr(item.op, 0));
      OperationInstrs(e, i, operands[i]);
    } else {
      PieceIsInstructions(e, i, operands[i]);
    }
  }

  lemma OperationInstrs(e: Env, i: nat, operand: nat)
    requires i < |e.asm.items| && e.asm.items[i].Operation?
    ensures forall x: nat :: ItemInstrs(e, i, x) == [Instr(e.asm.items[i].op, 0)]
    ensures PieceBytes(e, i, operand) == [e.asm.items[i].op]
  {
  }

  lemma {:induction false} ExpansionSize(e: Env, operands: seq<nat>, n: nat)
    requires n <= |e.asm.items| == |operands| && GoodWidths(e)
    requires forall i :: 0 <= i < |operands| ==> Emittable(e, i)
    ensures |CodeOf(Expansion(e, operands, n))| == |Code(e, operands, n)| + MissingBytes(e.asm.items, n)
  {
    hide FinalInstrs, PieceBytes, Emittable;
    if n > 0 {
      ExpansionSize(e, operands, n - 1);
      FinalSize(e, operands, n - 1);
      CodeOfConcat(Expansion(e, operands, n - 1), FinalInstrs(e, operands, n - 1));
    }
  }

  lemma {:induction false} TimesPower(v: nat, width: nat, k: nat)
    ensures ToBigEndian(v * Pow256(k), width + k) == ToBigEndian(v, width) + Zeros(k)
  {
    if k == 0 {
      assert v * Pow256(0) == v;
    } else {
      TimesPower(v, width, k - 1);
      DivModUnique(v * Pow256(k), v * Pow256(k - 1), 0, 256);
      assert Zeros(k) == Zeros(k - 1) + [0];
    }
  }

  lemma FirstPadded(code: seq<Byte>)
    requires code != []
    ensures InstrBytes(First(code)) == code[..FirstLength(code)] + Zeros(1 + Additional(code[0]) - FirstLength(code))
  {
    var n := FirstLength(code);
    ToFromBigEndian(code[1..n]);
    TimesPower(FromBigEndian(code[1..n]), n - 1, Additional(code[0]) + 1 - n);
    assert code[..n] == [code[0]] + code[1..n];
  }

  /** Assembling what was disassembled adds at most the zeros that the last
      instruction was padded with. */
  ghost predicate GoesBack(code: seq<Byte>) {
    var instrs := Disassemble(code);
    var all := CodeOf(instrs);
    |all| >= |code| && all == code + Zeros(|all| - |code|) &&
    (|all| > |code| ==> instrs != [] && |all| - |code| <= Additional(instrs[|instrs| - 1].op))
  }

  lemma {:induction false} PaddedBack(code: seq<Byte>)
    ensures GoesBack(code)
  {
    if code == [] {
      NoZeros(code);
    } else if FirstLength(code) == |code| {
      LastPadded(code);
    } else {
      PaddedBack(code[FirstLength(code)..]);
      FirstWhole(code);
    }
  }

  lemma LastPadded(code: seq<Byte>)
    requires code != [] && FirstLength(code) == |code|
    ensures GoesBack(code)
  {
    hide First, InstrBytes, Disassemble, CodeOf, FirstLength;
    FirstPadded(code);
    FirstOp(code);
    DisassembleStep(code);
    NothingToReport();
    assert code[|code|..] == [] && code[..|code|] == code;
    assert Disassemble(code) == [First(code)];
    CodeOfOne(First(code));
  }

  lemma FirstWhole(code: seq<Byte>)
    requires code != [] && FirstLength(code) < |code| && GoesBack(code[FirstLength(code)..])
    ensures GoesBack(code)
  {
    hide First, InstrBytes, Disassemble, CodeOf, FirstLength, Zeros;
    var n := FirstLength(code);
    var rest := code[n..];
    FirstPadded(code);
    DisassembleStep(code);
    NoZeros(code[..n]);
    var instrs := Disassemble(rest);
    CodeOfStep([First(code)] + instrs);
    assert ([First(code)] + instrs)[1..] == instrs;
    Reassociate(code[..n], rest, Zeros(|CodeOf(instrs)| - |rest|));
    assert code == code[..n] + rest;
    if instrs != [] {
      LastOfConcat([First(code)], instrs);
    }
  }

  lemma DisassembleStep(code: seq<Byte>)
    requires code != []
    ensures Disassemble(code) == [First(code)] + Disassemble(code[FirstLength(code)..])
    ensures code[FirstLength(code)..] != [] ==> FirstLength(code) == 1 + Additional(code[0])
  {
  }

  lemma CodeOfStep(instrs: seq<Instr>)
    requires instrs != []
    ensures CodeOf(instrs) == InstrBytes(instrs[0]) + CodeOf(instrs[1..])
  {
  }

  lemma NoZeros(s: seq<Byte>)
    ensures s + Zeros(0) == s
  {
  }

  lemma FirstOp(code: seq<Byte>)
    requires code != []
    ensures First(code).op == code[0]
  {
  }

  /** Bytes that end in themselves shifted, with zeros shifted in, start with zero. */
  lemma {:induction false} ShiftsAreZero(s: seq<Byte>, t: nat, i: nat)
    requires 0 < t <= |s| && s == s[t..] + Zeros(t) && i < |s|
    ensures s[i] == 0
    decreases |s| - i
  {
    assert s[i] == (s[t..] + Zeros(t))[i];
    if i + t < |s| {
      ShiftsAreZero(s, t, i + t);
    }
  }

  lemma {:induction false} StoresEnd(offsets: seq<nat>)
    requires offsets != []
    ensures StoreAll(offsets) != [] && StoreAll(offsets)[|StoreAll(offsets)| - 1] == Instr(MSTORE, 0)
  {
    if |offsets| > 1 {
      StoresEnd(offsets[1..]);
    }
  }

  /** An item ends in an instruction without data, or is a single instruction. */
  lemma LastInstr(e: Env, operands: seq<nat>, i: nat)
    requires i < |e.asm.items| == |operands| && Emittable(e, i)
    ensures var instrs := FinalInstrs(e, operands, i);
            instrs != [] && (|instrs| == 1 || Additional(instrs[|instrs| - 1].op) == 0)
  {
    if e.asm.items[i].AssignImmutable? && OffsetsAt(e, i) != [] {
      StoresEnd(OffsetsAt(e, i));
    }
  }

  /** Code that disassembles to its items lacks no data before the last item. */
  lemma NothingMissingBefore(e: Env, operands: seq<nat>, n: nat)
    requires 0 < n == |e.asm.items| == |operands| && GoodWidths(e)
    requires forall i :: 0 <= i < |operands| ==> Emittable(e, i)
    requires Disassemble(Code(e, operands, n)) == Expansion(e, operands, n)
    ensures MissingBytes(e.asm.items, n - 1) == 0
  {
    hide FinalInstrs, PieceBytes, Emittable, Disassemble, CodeOf;
    var code, last := Code(e, operands, n), FinalInstrs(e, operands, n - 1);
    var all, t := CodeOf(Expansion(e, operands, n)), MissingBytes(e.asm.items, n);
    PaddedBack(code);
    ExpansionSize(e, operands, n);
    LastInstr(e, operands, n - 1);
    if e.asm.items[n - 1].Operation? {
      OperationInstrs(e, n - 1, operands[n - 1]);
      OperationLast(e, operands, n - 1);
    } else if t > 0 {
      CodeOfConcat(Expansion(e, operands, n - 1), last);
      CodeOfOne(last[0]);
      SamePiece(e, operands, n - 1);
      assert last == [last[0]];
      Reassociate(Code(e, operands, n - 1), CodeOf(last), Zeros(t));
      NoShift(CodeOf(Expansion(e, operands, n - 1)), Code(e, operands, n - 1), CodeOf(last), t);
    }
  }

  lemma NoShift(long: seq<Byte>, short: seq<Byte>, x: seq<Byte>, t: nat)
    requires x != [] && x[0] != 0 && t <= |x|
    requires |long| == |short| + t && long + x == short + (x + Zeros(t))
    ensures t == 0
  {
    var whole := long + x;
    assert whole[|long|..] == x && (short + (x + Zeros(t)))[|short| + t..] == x[t..] + Zeros(t);
    if t > 0 {
      ShiftsAreZero(x, t, 0);
    }
  }

  lemma OperationLast(e: Env, operands: seq<nat>, i: nat)
    requires i < |e.asm.items| == |operands| && e.asm.items[i].Operation?
    ensures FinalInstrs(e, operands, i) == [Instr(e.asm.items[i].op, 0)]
  {
  }

  lemma SamePiece(e: Env, operands: seq<nat>, i: nat)
    requires i < |e.asm.items| == |operands| && GoodWidths(e) && Emittable(e, i)
    requires e.asm.items[i].Operation? ==> !IsPush(e.asm.items[i].op)
    ensures PieceBytes(e, i, operands[i]) == CodeOf(FinalInstrs(e, operands, i))
  {
    hide ItemInstrs, PieceBytes, Emittable;
    PieceIsInstructions(e, i, operands[i]);
  }

  lemma OnePush(op: Byte)
    ensures Disassemble([op]) == [Instr(op, 0)]
  {
    assert [op][1..] == [];
  }

  /** The code disassembles to its items if and only if no operation but the
      last item is itself a push. */
  lemma DisassemblesExactly(e: Env, operands: seq<nat>, out: Assembled)
    requires Laid(e, operands, out)
    ensures CodeSize(e) <= |out.linked.bytecode| && |operands| == |e.asm.items|
    ensures Disassemble(out.linked.bytecode[..CodeSize(e)]) == Expansion(e, operands, |operands|)
       <==> NoRawPushBefore(e.asm, |e.asm.items| - 1)
  {
    hide Laid, Disassemble, Code, Emittable, FinalInstrs, AllFit, NoRawPushBefore, Trailer;
    LaidCode(e, operands, out);
    var n, code := |operands|, Code(e, operands, |operands|);
    assert out.linked.bytecode[..CodeSize(e)] == code;
    if n == 0 {
      NoItems(e, operands);
      NothingToReport();
    } else {
      if NoRawPushBefore(e.asm, n - 1) {
        LastMayPush(e, operands);
      }
      if Disassemble(code) == Expansion(e, operands, n) {
        NothingMissingBefore(e, operands, n);
        NothingMissing(e.asm, n - 1);
      }
    }
  }

  lemma NoItems(e: Env, operands: seq<nat>)
    requires |e.asm.items| == |operands| == 0
    ensures Code(e, operands, 0) == [] && Expansion(e, operands, 0) == [] && NoRawPushBefore(e.asm, -1)
  {
  }

  lemma LastMayPush(e: Env, operands: seq<nat>)
    requires 0 < |e.asm.items| == |operands| && GoodWidths(e) && NoRawPushBefore(e.asm, |operands| - 1)
    requires forall i :: 0 <= i < |operands| ==> Emittable(e, i)
    ensures Disassemble(Code(e, operands, |operands|)) == Expansion(e, operands, |operands|)
  {
    hide FinalInstrs, PieceBytes, Emittable, Disassemble, AllFit;
    var n := |operands| - 1;
    CodeIsExpansion(e, operands, n);
    if e.asm.items[n].Operation? {
      OperationInstrs(e, n, operands[n]);
      OperationLast(e, operands, n);
      OnePush(e.asm.items[n].op);
      DisassembleCode(Expansion(e, operands, n), [e.asm.items[n].op]);
    } else {
      CodeIsExpansion(e, operands, n + 1);
      DisassembleCode(Expansion(e, operands, n + 1), []);
      NothingToReport();
      assert Code(e, operands, n + 1) + [] == Code(e, operands, n + 1);
    }
  }

  /** Where something follows the code, the whole object disassembles to the
      items and what follows if and only if no operation at all is a push. */
  lemma ObjectDisassemblesExactly(e: Env, operands: seq<nat>, out: Assembled)
    requires Laid(e, operands, out) && Marker(e) != []
    ensures |operands| == |e.asm.items|
    ensures Disassemble(out.linked.bytecode) == Expansion(e, operands, |operands|) + Disassemble(Trailer(e))
       <==> NoRawPush(e.asm)
  {
    hide Laid, Disassemble, Code, Emittable, FinalInstrs, AllFit, Trailer;
    LaidCode(e, operands, out);
    if NoRawPush(e.asm) {
      AssembledDisassembles(e, operands, out);
    }
    if Disassemble(out.linked.bytecode) == Expansion(e, operands, |operands|) + Disassemble(Trailer(e)) {
      TrailerStarts(e);
      NothingMissingAtAll(e, operands, Trailer(e));
      NothingMissing(e.asm, |operands|);
    }
  }

  lemma TrailerStarts(e: Env)
    requires Marker(e) != []
    ensures Trailer(e) != [] && Trailer(e)[0] == INVALID
  {
  }

  lemma LastOfConcat(xs: seq<Instr>, ys: seq<Instr>)
    requires ys != []
    ensures (xs + ys)[|xs + ys| - 1] == ys[|ys| - 1]
  {
  }

  lemma {:induction false} CodeOfLast(instrs: seq<Instr>)
    requires instrs != []
    ensures |CodeOf(instrs)| >= 1 + Additional(instrs[|instrs| - 1].op)
  {
    if |instrs| > 1 {
      CodeOfLast(instrs[1..]);
    }
  }

  lemma NothingMissingAtAll(e: Env, operands: seq<nat>, trailer: seq<Byte>)
    requires |e.asm.items| == |operands| && GoodWidths(e) && trailer != [] && trailer[0] != 0
    requires forall i :: 0 <= i < |operands| ==> Emittable(e, i)
    requires Disassemble(Code(e, operands, |operands|) + trailer) ==
      Expansion(e, operands, |operands|) + Disassemble(trailer)
    ensures MissingBytes(e.asm.items, |operands|) == 0
  {
    hide Disassemble, CodeOf, Code, Expansion, MissingBytes, Emittable;
    var code, t := Code(e, operands, |operands|), MissingBytes(e.asm.items, |operands|);
    var own, after := Expansion(e, operands, |operands|), Disassemble(trailer);
    PaddedBack(code + trailer);
    PaddedBack(trailer);
    ExpansionSize(e, operands, |operands|);
    CodeOfConcat(own, after);
    NonEmptyReport(trailer);
    LastOfConcat(own, after);
    CodeOfLast(after);
    var x := CodeOf(after);
    ZerosAdd(|x| - |trailer|, t);
    Reassociate(trailer, Zeros(|x| - |trailer|), Zeros(t));
    Reassociate(code, trailer, Zeros(|x| - |trailer| + t));
    NoShift(CodeOf(own), code, x, t);
  }

  lemma ZerosAdd(m: nat, n: nat)
    ensures Zeros(m + n) == Zeros(m) + Zeros(n)
  {
  }

  lemma NonEmptyReport(code: seq<Byte>)
    requires code != []
    ensures Disassemble(code) != []
  {
  }

  // ---------------------------------------------------------------- jumps

  lemma {:induction false} CodeSplits(e: Env, operands: seq<nat>, n: nat, i: nat)
    requires i < n <= |e.asm.items| == |operands|
    ensures Code(e, operands, i) + PieceBytes(e, i, operands[i]) <= Code(e, operands, n)
    decreases n
  {
    hide PieceBytes;
    if i < n - 1 {
      CodeSplits(e, operands, n - 1, i);
    }
  }

  /** Item `i` starts at its offset, and that is an instruction boundary. */
  lemma ItemAt(e: Env, operands: seq<nat>, out: Assembled, i: nat)
    requires Laid(e, operands, out) && NoRawPushBefore(e.asm, i) && i < |e.asm.items|
    ensures var code, piece := out.linked.bytecode, PieceBytes(e, i, operands[i]);
            && Offset(e, i) + |piece| <= |code| && code[Offset(e, i)..Offset(e, i) + |piece|] == piece
            && |piece| >= 1 && IsBoundary(code, Offset(e, i))
  {
    hide Laid, Code, Trailer, Emittable, PieceBytes, Expansion, AllFit, IsBoundary, Offset;
    LaidCode(e, operands, out);
    NonEmptyPiece(e, i, operands[i]);
    var code, piece, before := out.linked.bytecode, PieceBytes(e, i, operands[i]), Code(e, operands, i);
    CodeSplits(e, operands, |operands|, i);
    CodeLength(e, operands, i);
    CodeIsExpansion(e, operands, i);
    var rest := code[|before|..];
    assert code == before + rest;
    assert rest[..|piece|] == piece;
    BoundaryAfter(Expansion(e, operands, i), rest);
  }

  /** The byte after a push is never a boundary. */
  lemma {:induction false} NoBoundaryInside(code: seq<Byte>, p: nat)
    requires IsBoundary(code, p) && p + 1 < |code| && IsBoundary(code, p + 1)
    ensures !IsPush(code[p])
  {
    if p > 0 {
      NoBoundaryInside(code[FirstLength(code)..], p - FirstLength(code));
    }
  }

  predicate AllAtBoundaries(e: Env, code: seq<Byte>) {
    forall i :: 0 <= i < |e.asm.items| ==> IsBoundary(code, Offset(e, i))
  }

  /** All items start at instruction boundaries if and only if no operation but
      the last item is itself a push: a push swallows what follows it. */
  lemma BoundariesExact(e: Env, operands: seq<nat>, out: Assembled)
    requires Laid(e, operands, out)
    ensures AllAtBoundaries(e, out.linked.bytecode) <==> NoRawPushBefore(e.asm, |e.asm.items| - 1)
  {
    hide Laid, IsBoundary, Offset, PieceBytes;
    var items, code := e.asm.items, out.linked.bytecode;
    if AllAtBoundaries(e, code) {
      forall i | 0 <= i < |items| - 1 && items[i].Operation? ensures !IsPush(items[i].op) {
        BoundaryAtNext(e, operands, out, i);
      }
    }
    if NoRawPushBefore(e.asm, |items| - 1) {
      forall i: nat | 0 <= i < |items| ensures IsBoundary(code, Offset(e, i)) {
        ItemAt(e, operands, out, i);
      }
    }
  }

  lemma BoundaryAtNext(e: Env, operands: seq<nat>, out: Assembled, i: nat)
    requires Laid(e, operands, out) && i + 1 < |e.asm.items| && e.asm.items[i].Operation?
    requires IsBoundary(out.linked.bytecode, Offset(e, i)) && IsBoundary(out.linked.bytecode, Offset(e, i + 1))
    ensures !IsPush(e.asm.items[i].op)
  {
    hide Laid, IsBoundary, Code, Trailer, Emittable;
    LaidCode(e, operands, out);
    var code := out.linked.bytecode;
    CodeSplits(e, operands, |operands|, i);
    CodeSplits(e, operands, |operands|, i + 1);
    CodeLength(e, operands, i);
    CodeLength(e, operands, i + 1);
    NonEmptyPiece(e, i + 1, operands[i + 1]);
    var p, piece := Offset(e, i), [e.asm.items[i].op];
    assert Offset(e, i + 1) == p + 1;
    assert (Code(e, operands, i) + piece)[p] == e.asm.items[i].op;
    NoBoundaryInside(code, p);
  }

  lemma NonEmptyPiece(e: Env, i: nat, operand: nat)
    requires i < |e.asm.items| && Emittable(e, i)
    ensures |PieceBytes(e, i, operand)| >= 1
  {
    hide InstrBytes;
    if e.asm.items[i].AssignImmutable? {
    } else {
      CodeOfOne(ItemInstrs(e, i, operand)[0]);
    }
  }

  /** A tag is pushed in full, never cut. */
  lemma TagOperandFits(e: Env, operands: seq<nat>, out: Assembled, i: nat)
    requires Laid(e, operands, out) && i < |e.asm.items| && e.asm.items[i].PushTag?
    ensures FinalInstrs(e, operands, i) == [Instr(PushOp(e.tagWidth), operands[i])]
  {
    hide Laid, Code, Trailer, Emittable, TagTable, TagTarget, BytesRequired, Pow256;
    LaidCode(e, operands, out);
    LaidTags(e, operands, out);
    assert TagResolved(e, out.tagPositions, operands, i);
    BytesRequiredExact(operands[i], e.tagWidth);
    DivModUnique(operands[i], 0, operands[i], Pow256(e.tagWidth));
  }

  lemma TagPiece(e: Env, i: nat, operand: nat)
    requires i < |e.asm.items| && e.asm.items[i].Tag?
    ensures PieceBytes(e, i, operand) == [JUMPDEST]
  {
    CodeOfOne(Instr(JUMPDEST, 0));
  }

  /** No operation before the definition of the tag is itself a push. */
  predicate Unswallowed(a: Assembly, tag: nat) {
    forall i :: 0 <= i < |a.items| && a.items[i].Tag? && a.items[i].data == tag ==> NoRawPushBefore(a, i)
  }

  /** The position of a tag that was defined is a jump destination. */
  lemma DefinedTagIsDestination(e: Env, operands: seq<nat>, out: Assembled, tag: nat)
    requires Laid(e, operands, out) && Unswallowed(e.asm, tag)
    requires 0 < tag < |out.tagPositions| && out.tagPositions[tag].Some?
    ensures IsJumpDestination(out.linked.bytecode, out.tagPositions[tag].value)
  {
    hide Laid, TagTable, Offset, PieceBytes, IsBoundary;
    LaidTags(e, operands, out);
    var i := TagOwner(e, out.tagPositions, tag);
    ItemAt(e, operands, out, i);
    TagPiece(e, i, operands[i]);
    assert out.linked.bytecode[Offset(e, i)..Offset(e, i) + 1][0] == JUMPDEST;
  }

  /** A position is a boundary if and only if the code before it disassembles
      without an instruction that lacks data. */
  lemma {:induction false} BoundaryExactly(code: seq<Byte>, p: nat)
    requires p < |code|
    ensures IsBoundary(code, p) <==> |CodeOf(Disassemble(code[..p]))| == p
  {
    hide First, InstrBytes;
    if p == 0 {
      NothingToReport();
    } else {
      var n, before := FirstLength(code), code[..p];
      DisassembleStep(before);
      var rest := Disassemble(before[FirstLength(before)..]);
      CodeOfStep([First(before)] + rest);
      FirstOp(before);
      assert ([First(before)] + rest)[1..] == rest;
      if n <= p {
        BoundaryExactly(code[n..], p - n);
        assert before[n..] == code[n..][..p - n];
      }
    }
  }

  /** A tag is a jump destination if and only if the code before it disassembles
      without an instruction that lacks data. */
  lemma TagIsDestinationExactly(e: Env, operands: seq<nat>, out: Assembled, i: nat)
    requires Laid(e, operands, out) && i < |e.asm.items| && e.asm.items[i].Tag?
    ensures |operands| == |e.asm.items|
    ensures IsJumpDestination(out.linked.bytecode, Offset(e, i)) <==>
      |CodeOf(Disassemble(Code(e, operands, i)))| == Offset(e, i)
  {
    hide Laid, Trailer, Emittable, IsBoundary, Disassemble, CodeOf;
    LaidCode(e, operands, out);
    CodeSplits(e, operands, |operands|, i);
    CodeLength(e, operands, i);
    TagPiece(e, i, operands[i]);
    hide Code, Offset, PieceBytes;
    var code, before := out.linked.bytecode, Code(e, operands, i);
    assert before + [JUMPDEST] <= code;
    assert code[..|before|] == before && code[|before|] == (before + [JUMPDEST])[|before|];
    BoundaryExactly(code, |before|);
  }

  /** Every jump to a tag of the assembly itself has a valid target. */
  lemma OwnJumpIsValid(e: Env, operands: seq<nat>, out: Assembled, i: nat)
    requires Laid(e, operands, out)
    requires i < |e.asm.items| && e.asm.items[i].PushTag? && Unswallowed(e.asm, TagId(e.asm.items[i].data))
    requires TagSub(e.asm.items[i].data) == OWN && TagId(e.asm.items[i].data) != 0
    ensures FinalInstrs(e, operands, i) == [Instr(PushOp(e.tagWidth), operands[i])]
    ensures IsJumpDestination(out.linked.bytecode, operands[i])
  {
    TagOperandFits(e, operands, out, i);
    hide Code, Trailer, Emittable, TagTable, IsJumpDestination, TagSub, TagId, FinalInstrs, Unswallowed;
    DefinedTagIsDestination(e, operands, out, TagId(e.asm.items[i].data));
  }

  /** Every pushed tag of a direct sub-assembly is a valid target in the code of
      that sub-assembly. */
  lemma ForeignJumpIsValid(a: Assembly, e: Env, width: nat, operands: seq<nat>, out: Assembled, i: nat)
    requires Correct(a, out) && Prepared(a, out.subs, e, width) && Laid(e, operands, out)
    requires i < |a.items| && a.items[i].PushTag?
    requires TagSub(a.items[i].data) != OWN && TagId(a.items[i].data) != 0
    ensures TagSub(a.items[i].data) < |a.subs| == |out.subs|
    ensures FinalInstrs(e, operands, i) == [Instr(PushOp(e.tagWidth), operands[i])]
    ensures Unswallowed(a.subs[TagSub(a.items[i].data)], TagId(a.items[i].data)) ==>
              IsJumpDestination(out.subs[TagSub(a.items[i].data)].linked.bytecode, operands[i])
  {
    TagOperandFits(e, operands, out, i);
    var k, tag := TagSub(a.items[i].data), TagId(a.items[i].data);
    assert TagTarget(e, out.tagPositions, a.items[i].data) == Some(operands[i]);
    var sub := out.subs[k];
    assert Correct(a.subs[k], sub);
    if Unswallowed(a.subs[k], tag) {
      SubTagIsDestination(a.subs[k], sub, tag);
    }
  }

  lemma SubTagIsDestination(a: Assembly, out: Assembled, tag: nat)
    requires Correct(a, out) && Unswallowed(a, tag)
    requires 0 < tag < |out.tagPositions| && out.tagPositions[tag].Some?
    ensures IsJumpDestination(out.linked.bytecode, out.tagPositions[tag].value)
  {
    hide Laid, IsJumpDestination;
    var e, width, operands :| Prepared(a, out.subs, e, width) && Laid(e, operands, out);
    DefinedTagIsDestination(e, operands, out, tag);
  }

  /** Tag 0 is pushed as the position of the first item that is not a tag, which
      is a valid target only if that item is a bare JUMPDEST operation. */
  lemma ErrorTagIsNoDestination(e: Env, operands: seq<nat>, out: Assembled, i: nat)
    requires Laid(e, operands, out)
    requires i < |e.asm.items| && e.asm.items[i].PushTag?
    requires TagSub(e.asm.items[i].data) == OWN && TagId(e.asm.items[i].data) == 0
    ensures var first := FirstNonTag(e.asm.items, |e.asm.items|);
            && first <= i && operands[i] == Offset(e, first)
            && (IsJumpDestination(out.linked.bytecode, operands[i]) <==> e.asm.items[first] == Operation(JUMPDEST))
  {
    hide Laid, Code, Trailer, Emittable, TagSub, TagId, Offset, PieceBytes, TagTable, IsBoundary;
    var first := FirstNonTag(e.asm.items, |e.asm.items|);
    LaidCode(e, operands, out);
    ErrorTagPosition(e, operands, out, i);
    OnlyTagsBefore(e.asm.items, |e.asm.items|);
    ItemAt(e, operands, out, first);
    FirstByte(e, first, operands[first]);
    var piece := PieceBytes(e, first, operands[first]);
    assert out.linked.bytecode[Offset(e, first)..Offset(e, first) + |piece|][0] == piece[0];
  }

  lemma {:induction false} OnlyTagsBefore(items: seq<Item>, n: nat)
    requires n <= |items|
    ensures forall j :: 0 <= j < FirstNonTag(items, n) ==> items[j].Tag?
  {
    if n > 0 {
      OnlyTagsBefore(items, n - 1);
    }
  }

  lemma ErrorTagPosition(e: Env, operands: seq<nat>, out: Assembled, i: nat)
    requires Laid(e, operands, out) && i < |e.asm.items| && e.asm.items[i].PushTag?
    requires TagSub(e.asm.items[i].data) == OWN && TagId(e.asm.items[i].data) == 0
    ensures |operands| == |e.asm.items|
    ensures var first := FirstNonTag(e.asm.items, |e.asm.items|); first <= i && operands[i] == Offset(e, first)
  {
    hide Laid, TagSub, TagId, Offset;
    LaidTags(e, operands, out);
    FirstNonTagIsFirst(e.asm.items, |e.asm.items|, i);
    assert TagResolved(e, out.tagPositions, operands, i);
  }

  lemma {:induction false} FirstNonTagIsFirst(items: seq<Item>, n: nat, i: nat)
    requires i < n <= |items| && !items[i].Tag?
    ensures FirstNonTag(items, n) <= i
    decreases n
  {
    if i < n - 1 {
      FirstNonTagIsFirst(items, n - 1, i);
    }
  }

  lemma FirstByte(e: Env, i: nat, operand: nat)
    requires i < |e.asm.items| && GoodWidths(e) && Emittable(e, i) && !e.asm.items[i].Tag?
    ensures PieceBytes(e, i, operand) != []
    ensures PieceBytes(e, i, operand)[0] == JUMPDEST <==> e.asm.items[i] == Operation(JUMPDEST)
  {
    var item := e.asm.items[i];
    if item.AssignImmutable? {
      var instrs := ItemInstrs(e, i, operand);
      assert instrs[0].op != JUMPDEST;
    } else {
      CodeOfOne(ItemInstrs(e, i, operand)[0]);
      if item.Push? {
        PushWidth(item.data);
      }
    }
  }
}
