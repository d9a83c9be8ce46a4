/**
 Immutables: the code that an AssignImmutable expands to, run on a copy of the
 runtime code in memory, makes every read of that immutable push its value.
 */
module Immutables {
  import opened Wrappers
  import opened Bytes
  import opened Instructions
  import opened AssemblyModel
  import opened Assembler
  import opened AssemblyTheorems

  // ---------------------------------------------------------------- running the expansion

  /** The top of the stack comes first. */
  datatype Machine = Machine(stack: seq<nat>, memory: seq<Byte>)

  /** The instructions an assignment uses; None on stack underflow and on a
      store beyond the memory. */
  function Step(i: Instr, m: Machine): Option<Machine> {
    var s := m.stack;
    if IsPush(i.op) then Some(m.(stack := [i.value] + s))
    else if i.op == DUP2 && |s| >= 2 then Some(m.(stack := [s[1]] + s))
    else if i.op == ADD && |s| >= 2 then Some(m.(stack := [(s[0] + s[1]) % TWO_256] + s[2..]))
    else if i.op == POP && |s| >= 1 then Some(m.(stack := s[1..]))
    else if i.op == MSTORE && |s| >= 2 && s[0] + 32 <= |m.memory| then
      Some(Machine(s[2..], Patch(m.memory, s[0], ToBigEndian(s[1], 32))))
    else None
  }

  function Run(instrs: seq<Instr>, m: Machine): Option<Machine> {
    if instrs == [] then Some(m)
    else match Step(instrs[0], m)
      case None => None
      case Some(next) => Run(instrs[1..], next)
  }

  lemma {:induction false} RunConcat(xs: seq<Instr>, ys: seq<Instr>, m: Machine)
    ensures Run(xs + ys, m) == match Run(xs, m) case None => None case Some(next) => Run(ys, next)
  {
    if xs == [] {
      assert xs + ys == ys;
    } else {
      assert (xs + ys)[1..] == xs[1..] + ys;
      match Step(xs[0], m)
      case None =>
      case Some(next) => RunConcat(xs[1..], ys, next);
    }
  }

  predicate StoresFit(memory: seq<Byte>, base: nat, offsets: seq<nat>) {
    forall k :: 0 <= k < |offsets| ==> base + offsets[k] + 32 <= |memory|
  }

  /** `value` stored at base + offset for every offset. */
  function StoreEach(memory: seq<Byte>, base: nat, value: nat, offsets: seq<nat>): (r: seq<Byte>)
    requires StoresFit(memory, base, offsets)
    ensures |r| == |memory|
    decreases |offsets|
  {
    if offsets == [] then memory
    else StoreEach(Patch(memory, base + offsets[0], ToBigEndian(value, 32)), base, value, offsets[1..])
  }

  lemma StoreOneRuns(offset: nat, more: bool, base: nat, value: nat, rest: seq<nat>, memory: seq<Byte>)
    requires base + offset + 32 <= |memory| <= TWO_256 && 1 <= BytesRequired(offset) <= 32
    ensures Run(StoreOne(offset, more), Machine([base, value] + rest, memory)) ==
            Some(Machine(if more then [base, value] + rest
                else rest, Patch(memory, base + offset, ToBigEndian(value, 32))))
  {
    hide ToBigEndian, BytesRequired;
    var kept := if more then [base, value] + rest else rest;
    var start := Machine([base, value] + kept, memory);
    if more {
      var m0 := Machine([base, value] + rest, memory);
      var m1 := Machine([value] + ([base, value] + rest), memory);
      assert Step(Instr(DUP2, 0), m0) == Some(m1);
      assert [base] + m1.stack == start.stack;
      assert Step(Instr(DUP2, 0), m1) == Some(start);
      RunTwo(Instr(DUP2, 0), Instr(DUP2, 0), m0, m1, start);
    }
    var push := PushAny(BytesRequired(offset), offset);
    var m2 := Machine([offset, base, value] + kept, memory);
    var m3 := Machine([base + offset, value] + kept, memory);
    var end := Machine(kept, Patch(memory, base + offset, ToBigEndian(value, 32)));
    assert Step(push, start) == Some(m2) by {
      assert [offset] + ([base, value] + kept) == [offset, base, value] + kept;
    }
    assert Step(Instr(ADD, 0), m2) == Some(m3) by {
      assert ([offset, base, value] + kept)[2..] == [value] + kept;
      assert [base + offset] + ([value] + kept) == [base + offset, value] + kept;
    }
    assert Step(Instr(MSTORE, 0), m3) == Some(end);
    RunThree(push, Instr(ADD, 0), Instr(MSTORE, 0), start, m2, m3, end);
    if more {
      RunConcat([Instr(DUP2, 0), Instr(DUP2, 0)], [push, Instr(ADD, 0), Instr(MSTORE, 0)],
          Machine([base, value] + rest, memory));
    } else {
      assert StoreOne(offset, more) == [push, Instr(ADD, 0), Instr(MSTORE, 0)];
    }
  }

  lemma RunTwo(x: Instr, y: Instr, a: Machine, b: Machine, c: Machine)
    requires Step(x, a) == Some(b) && Step(y, b) == Some(c)
    ensures Run([x, y], a) == Some(c)
  {
    hide Step;
    assert [x, y][1..] == [y];
    assert Run([y], b) == Some(c) by {
      assert [y][1..] == [];
      assert Run([], c) == Some(c);
    }
  }

  lemma RunThree(x: Instr, y: Instr, z: Instr, a: Machine, b: Machine, c: Machine, d: Machine)
    requires Step(x, a) == Some(b) && Step(y, b) == Some(c) && Step(z, c) == Some(d)
    ensures Run([x, y, z], a) == Some(d)
  {
    hide Step;
    RunTwo(y, z, b, c, d);
    assert [x, y, z][1..] == [y, z];
  }

  /** With the base of the copied code on top and the value below it, the
      expansion removes exactly these two words and fills every offset. */
  lemma {:induction false} AssignmentRuns(offsets: seq<nat>, base: nat, value: nat, rest: seq<nat>, memory: seq<Byte>)
    requires |memory| <= TWO_256
    requires forall k :: 0 <= k < |offsets| ==>
      base + offsets[k] + 32 <= |memory| && 1 <= BytesRequired(offsets[k]) <= 32
    ensures Run(AssignInstrs(offsets), Machine([base, value] + rest, memory)) ==
            Some(Machine(rest, StoreEach(memory, base, value, offsets)))
  {
    hide StoreOne, BytesRequired, ToBigEndian;
    var start := Machine([base, value] + rest, memory);
    if offsets == [] {
      var middle := Machine([value] + rest, memory);
      assert start.stack[1..] == [value] + rest && middle.stack[1..] == rest;
      RunTwo(Instr(POP, 0), Instr(POP, 0), start, middle, Machine(rest, memory));
    } else {
      var one := StoreOne(offsets[0], |offsets| > 1);
      var stored := Patch(memory, base + offsets[0], ToBigEndian(value, 32));
      StoreOneRuns(offsets[0], |offsets| > 1, base, value, rest, memory);
      RunConcat(one, StoreAll(offsets[1..]), start);
      if |offsets| > 1 {
        AssignmentRuns(offsets[1..], base, value, rest, stored);
      }
    }
  }

  // ---------------------------------------------------------------- the patched runtime code

  /** The bytes of item `i` with the immutables in `values` filled in. */
  function PieceWith(e: Env, operands: seq<nat>, values: map<U256, nat>, i: nat): seq<Byte>
    requires i < |e.asm.items| == |operands|
  {
    match e.asm.items[i]
    case PushImmutable(id) => [PUSH32] + ToBigEndian(if id in values then values[id] else 0, 32)
    case _ => PieceBytes(e, i, operands[i])
  }

  function CodeWith(e: Env, operands: seq<nat>, values: map<U256, nat>, n: nat): seq<Byte>
    requires n <= |e.asm.items| == |operands|
  {
    if n == 0 then [] else CodeWith(e, operands, values, n - 1) + PieceWith(e, operands, values, n - 1)
  }

  function InstrsWith(e: Env, operands: seq<nat>, values: map<U256, nat>, i: nat): seq<Instr>
    requires i < |e.asm.items| == |operands|
  {
    match e.asm.items[i]
    case PushImmutable(id) => [Instr(PUSH32, if id in values then values[id] else 0)]
    case _ => FinalInstrs(e, operands, i)
  }

  /** The program in which every read of an immutable in `values` pushes its value. */
  function ExpansionWith(e: Env, operands: seq<nat>, values: map<U256, nat>, n: nat): seq<Instr>
    requires n <= |e.asm.items| == |operands|
  {
    if n == 0 then [] else ExpansionWith(e, operands, values, n - 1) + InstrsWith(e, operands, values, n - 1)
  }

  lemma PieceWithSize(e: Env, operands: seq<nat>, values: map<U256, nat>, i: nat)
    requires i < |e.asm.items| == |operands|
    ensures |PieceWith(e, operands, values, i)| == |PieceBytes(e, i, 0)|
    ensures values == map[] ==> PieceWith(e, operands, values, i) == PieceBytes(e, i, operands[i])
  {
    if e.asm.items[i].PushImmutable? {
      CodeOfOne(Instr(PUSH32, 0));
    } else {
      PieceSize(e, i, operands[i]);
    }
  }

  lemma {:induction false} CodeWithSize(e: Env, operands: seq<nat>, values: map<U256, nat>, n: nat)
    requires n <= |e.asm.items| == |operands|
    ensures |CodeWith(e, operands, values, n)| == Offset(e, n)
    ensures values == map[] ==> CodeWith(e, operands, values, n) == Code(e, operands, n)
  {
    hide PieceWith, PieceBytes;
    if n > 0 {
      CodeWithSize(e, operands, values, n - 1);
      PieceWithSize(e, operands, values, n - 1);
    }
  }

  /** The places recorded for `id` by the first `n` items. */
  function ReadsOf(e: Env, id: U256, n: nat): seq<nat>
    requires n <= |e.asm.items|
  {
    var known := ImmutableReads(e, n);
    if id in known then known[id] else []
  }

  lemma ReadsStep(e: Env, id: U256, n: nat)
    requires n < |e.asm.items|
    ensures ReadsOf(e, id, n + 1) ==
      ReadsOf(e, id, n) + (if e.asm.items[n] == PushImmutable(id) then [Offset(e, n) + 1] else [])
  {
    hide Offset;
  }

  lemma {:induction false} ReadsInBounds(e: Env, id: U256, n: nat)
    requires n <= |e.asm.items|
    ensures forall k :: 0 <= k < |ReadsOf(e, id, n)| ==>
      1 <= ReadsOf(e, id, n)[k] && ReadsOf(e, id, n)[k] + 32 <= Offset(e, n)
  {
    hide PieceBytes, ReadsOf;
    if n == 0 {
      assert ReadsOf(e, id, 0) == [] by { NoReads(e, id); }
    } else {
      ReadsInBounds(e, id, n - 1);
      ReadsStep(e, id, n - 1);
      if e.asm.items[n - 1].PushImmutable? {
        ReadPiece(e, n - 1);
      }
    }
  }

  lemma NoReads(e: Env, id: U256)
    ensures ReadsOf(e, id, 0) == []
  {
  }

  lemma ReadPiece(e: Env, i: nat)
    requires i < |e.asm.items| && e.asm.items[i].PushImmutable?
    ensures |PieceBytes(e, i, 0)| == 33
  {
    CodeOfOne(Instr(PUSH32, 0));
  }

  /** The windows of one immutable are at least 33 bytes apart. */
  lemma {:induction false} ReadsApart(e: Env, id: U256, n: nat)
    requires n <= |e.asm.items|
    ensures var reads_ := ReadsOf(e, id, n); forall j, k :: 0 <= j < k < |reads_| ==> reads_[j] + 33 <= reads_[k]
  {
    hide ReadsOf, Offset;
    if n == 0 {
      NoReads(e, id);
    } else {
      ReadsApart(e, id, n - 1);
      ReadsInBounds(e, id, n - 1);
      ReadsStep(e, id, n - 1);
    }
  }

  lemma {:induction false} StoreEachAppend(memory: seq<Byte>, base: nat, value: nat, offsets: seq<nat>, last: nat)
    requires base + last + 32 <= |memory| && StoresFit(memory, base, offsets)
    ensures StoreEach(memory, base, value, offsets + [last]) ==
            Patch(StoreEach(memory, base, value, offsets), base + last, ToBigEndian(value, 32))
    decreases |offsets|
  {
    hide ToBigEndian;
    if offsets == [] {
      assert [last][1..] == [] && offsets + [last] == [last];
    } else {
      assert (offsets + [last])[1..] == offsets[1..] + [last];
      StoreEachAppend(Patch(memory, base + offsets[0], ToBigEndian(value, 32)), base, value, offsets[1..], last);
    }
  }

  /** Filling the recorded places of `id` in a copy of the code substitutes the
      value for every read of `id` and changes no other byte. */
  lemma {:induction false} StoreEachSubstitutes(e: Env, operands: seq<nat>, values: map<U256, nat>, id: U256,
      value: nat, n: nat,
                                                prefix: seq<Byte>, suffix: seq<Byte>)
    requires n <= |e.asm.items| == |operands|
    ensures StoresFit(prefix + CodeWith(e, operands, values, n) + suffix, |prefix|, ReadsOf(e, id, n))
    ensures StoreEach(prefix + CodeWith(e, operands, values, n) + suffix, |prefix|, value, ReadsOf(e, id, n)) ==
            prefix + CodeWith(e, operands, values[id := value], n) + suffix
  {
    hide PieceWith, ReadsOf, Offset, ToBigEndian, CodeWith, StoreEach, StoresFit;
    var now := values[id := value];
    var memory := prefix + CodeWith(e, operands, values, n) + suffix;
    assert StoresFit(memory, |prefix|, ReadsOf(e, id, n)) by { ReadsFit(e, operands, values, id, n, prefix, suffix); }
    if n == 0 {
      NoReads(e, id);
      NoCodeWith(e, operands, values);
      NoCodeWith(e, operands, now);
      NoStores(memory, |prefix|, value);
    } else {
      var piece, before := PieceWith(e, operands, values, n - 1), CodeWith(e, operands, values, n - 1);
      var done := prefix + CodeWith(e, operands, now, n - 1);
      CodeWithStep(e, operands, values, n - 1, prefix, suffix);
      CodeWithStep(e, operands, now, n - 1, prefix, suffix);
      StoreEachSubstitutes(e, operands, values, id, value, n - 1, prefix, piece + suffix);
      ReadsStep(e, id, n - 1);
      if e.asm.items[n - 1] == PushImmutable(id) {
        CodeWithSize(e, operands, now, n - 1);
        SubstituteLast(e, operands, values, id, value, n - 1, memory, |prefix|, ReadsOf(e, id, n - 1), done, suffix);
      } else {
        SameElsewhere(e, operands, values, id, value, n - 1);
        assert ReadsOf(e, id, n) == ReadsOf(e, id, n - 1);
      }
    }
  }

  lemma ReadsFit(e: Env, operands: seq<nat>, values: map<U256, nat>, id: U256, n: nat, prefix: seq<Byte>,
      suffix: seq<Byte>)
    requires n <= |e.asm.items| == |operands|
    ensures StoresFit(prefix + CodeWith(e, operands, values, n) + suffix, |prefix|, ReadsOf(e, id, n))
  {
    hide CodeWith, ReadsOf, Offset;
    CodeWithSize(e, operands, values, n);
    ReadsInBounds(e, id, n);
  }

  lemma SubstituteLast(e: Env, operands: seq<nat>, values: map<U256, nat>, id: U256, value: nat, i: nat,
                       memory: seq<Byte>, base: nat, offsets: seq<nat>, done: seq<Byte>, suffix: seq<Byte>)
    requires i < |e.asm.items| == |operands| && e.asm.items[i] == PushImmutable(id)
    requires StoresFit(memory, base, offsets) && |done| == base + Offset(e, i)
    requires StoreEach(memory, base, value, offsets) == done + (PieceWith(e, operands, values, i) + suffix)
    ensures StoresFit(memory, base, offsets + [Offset(e, i) + 1])
    ensures StoreEach(memory, base, value, offsets + [Offset(e, i) + 1]) ==
            done + (PieceWith(e, operands, values[id := value], i) + suffix)
  {
    hide PieceWith, Offset, ToBigEndian, StoreEach;
    PatchRead(e, operands, values, id, value, i, done, suffix);
    StoreEachAppend(memory, base, value, offsets, Offset(e, i) + 1);
  }

  lemma NoCodeWith(e: Env, operands: seq<nat>, values: map<U256, nat>)
    requires |e.asm.items| == |operands|
    ensures CodeWith(e, operands, values, 0) == []
  {
  }

  lemma NoStores(memory: seq<Byte>, base: nat, value: nat)
    ensures StoreEach(memory, base, value, []) == memory
  {
  }

  lemma CodeWithStep(e: Env, operands: seq<nat>, values: map<U256, nat>, i: nat, prefix: seq<Byte>, suffix: seq<Byte>)
    requires i < |e.asm.items| == |operands|
    ensures prefix + CodeWith(e, operands, values, i + 1) + suffix ==
            prefix + CodeWith(e, operands, values, i) + (PieceWith(e, operands, values, i) + suffix)
  {
    hide PieceWith;
  }

  lemma SameElsewhere(e: Env, operands: seq<nat>, values: map<U256, nat>, id: U256, value: nat, i: nat)
    requires i < |e.asm.items| == |operands| && e.asm.items[i] != PushImmutable(id)
    ensures PieceWith(e, operands, values[id := value], i) == PieceWith(e, operands, values, i)
  {
    hide PieceBytes;
  }

  lemma PatchRead(e: Env, operands: seq<nat>, values: map<U256, nat>, id: U256, value: nat, i: nat, front: seq<Byte>,
      suffix: seq<Byte>)
    requires i < |e.asm.items| == |operands| && e.asm.items[i] == PushImmutable(id)
    ensures |PieceWith(e, operands, values, i)| == 33
    ensures Patch(front + (PieceWith(e, operands, values, i) + suffix), |front| + 1, ToBigEndian(value, 32)) ==
            front + (PieceWith(e, operands, values[id := value], i) + suffix)
  {
    hide ToBigEndian;
  }

  lemma {:induction false} CodeWithIsExpansion(e: Env, operands: seq<nat>, values: map<U256, nat>, n: nat)
    requires n <= |e.asm.items| == |operands| && GoodWidths(e) && NoRawPushBefore(e.asm, n)
    requires forall i :: 0 <= i < |operands| ==> Emittable(e, i)
    requires forall id :: id in values ==> values[id] < TWO_256
    ensures AllFit(ExpansionWith(e, operands, values, n))
    ensures CodeWith(e, operands, values, n) == CodeOf(ExpansionWith(e, operands, values, n))
  {
    hide PieceWith, InstrsWith, Emittable, AllFit;
    if n == 0 {
      NothingFits();
    } else {
      CodeWithIsExpansion(e, operands, values, n - 1);
      PieceWithIsInstrs(e, operands, values, n - 1);
      CodeOfConcat(ExpansionWith(e, operands, values, n - 1), InstrsWith(e, operands, values, n - 1));
      AllFitConcat(ExpansionWith(e, operands, values, n - 1), InstrsWith(e, operands, values, n - 1));
    }
  }

  lemma PieceWithIsInstrs(e: Env, operands: seq<nat>, values: map<U256, nat>, i: nat)
    requires i < |e.asm.items| == |operands| && GoodWidths(e) && Emittable(e, i)
    requires e.asm.items[i].Operation? ==> !IsPush(e.asm.items[i].op)
    requires forall id :: id in values ==> values[id] < TWO_256
    ensures AllFit(InstrsWith(e, operands, values, i))
    ensures PieceWith(e, operands, values, i) == CodeOf(InstrsWith(e, operands, values, i))
  {
    hide PieceBytes, ItemInstrs, Emittable, HoleWidth, Pow256;
    WordCapacity();
    Pow256Positive(32);
    if e.asm.items[i].PushImmutable? {
      CodeOfOne(InstrsWith(e, operands, values, i)[0]);
    } else {
      PieceIsInstructions(e, i, operands[i]);
    }
  }

  // ---------------------------------------------------------------- the whole story

  /** `memory` holds, at `base`, the runtime code with `values` filled in. */
  predicate HoldsRuntime(memory: seq<Byte>, base: nat, e: Env, operands: seq<nat>, values: map<U256, nat>)
    requires |operands| == |e.asm.items|
  {
    && base + TotalSize(e) <= |memory|
    && memory[base..base + TotalSize(e)] == CodeWith(e, operands, values, |operands|) + Trailer(e)
  }

  /** The constructor assembly `c` has the runtime assembly `e` as the sub that
      reads immutables. Running the first assignment of an immutable with the
      base of the copied runtime code and a value on the stack leaves the stack
      two words shorter and the copied code with the value filled in: it now
      disassembles to the runtime items with every read of the immutable pushing
      the value, if no operation but the last item is itself a push. Nothing
      outside the copy changes. */
  lemma AssignmentPatchesRuntime(c: Env, cOperands: seq<nat>, cOut: Assembled, i: nat,
                                 e: Env, operands: seq<nat>, out: Assembled, values: map<U256, nat>,
                                 base: nat, value: nat, rest: seq<nat>, memory: seq<Byte>)
    requires Laid(c, cOperands, cOut) && Laid(e, operands, out)
    requires c.refs == out.linked.immutableReferences
    requires i < |c.asm.items| && c.asm.items[i].AssignImmutable? && c.asm.items[i].hash !in AssignedIds(c.asm.items, i)
    requires c.asm.items[i].hash in c.refs
    requires value < TWO_256 && |memory| <= TWO_256 && forall id :: id in values ==> values[id] < TWO_256
    requires |operands| == |e.asm.items| && HoldsRuntime(memory, base, e, operands, values)
    ensures var id := c.asm.items[i].hash;
            var now := values[id := value];
            exists memory' ::
              && Run(ItemInstrs(c, i, 0), Machine([base, value] + rest, memory)) == Some(Machine(rest, memory'))
              && |memory'| == |memory| && memory'[..base] == memory[..base]
              && memory'[base + TotalSize(e)..] == memory[base + TotalSize(e)..]
              && HoldsRuntime(memory', base, e, operands, now)
              && (NoRawPushBefore(e.asm, |operands| - 1) ==>
                    Disassemble(memory'[base..base + CodeSize(e)]) == ExpansionWith(e, operands, now, |operands|))
  {
    hide Laid, Code, CodeWith, ExpansionWith, Trailer, ReadsOf, Emittable, StoreEach, AssignInstrs, Offset, Run;
    hide AssignedIds, NoRawPushBefore, BytesRequired, ItemInstrs;
    var id, n := c.asm.items[i].hash, |operands|;
    LaidCode(e, operands, out);
    LaidReads(c, cOperands, cOut, i, e, operands, out);
    var now := values[id := value];
    var prefix, suffix := memory[..base], memory[base + TotalSize(e)..];
    CopyOf(memory, base, e, operands, values);
    StoreEachSubstitutes(e, operands, values, id, value, n, prefix, Trailer(e) + suffix);
    var memory' := prefix + CodeWith(e, operands, now, n) + (Trailer(e) + suffix);
    AssignmentRuns(ReadsOf(e, id, n), base, value, rest, memory);
    CodeWithSize(e, operands, now, n);
    CopyAt(prefix, CodeWith(e, operands, now, n), Trailer(e), suffix);
    if NoRawPushBefore(e.asm, n - 1) {
      PatchedDisassembles(e, operands, now);
    }
    assert Run(ItemInstrs(c, i, 0), Machine([base, value] + rest, memory)) == Some(Machine(rest, memory'));
  }

  lemma CopyOf(memory: seq<Byte>, base: nat, e: Env, operands: seq<nat>, values: map<U256, nat>)
    requires |operands| == |e.asm.items| && HoldsRuntime(memory, base, e, operands, values)
    ensures memory == memory[..base] + CodeWith(e, operands, values, |operands|) +
      (Trailer(e) + memory[base + TotalSize(e)..])
  {
    hide CodeWith, Trailer, TotalSize;
    assert memory == memory[..base] + memory[base..base + TotalSize(e)] + memory[base + TotalSize(e)..];
  }

  lemma CopyAt(prefix: seq<Byte>, code: seq<Byte>, trailer: seq<Byte>, suffix: seq<Byte>)
    ensures var memory, base := prefix + code + (trailer + suffix), |prefix|;
            && memory[..base] == prefix && memory[base + |code| + |trailer|..] == suffix
            && memory[base..base + |code|] == code && memory[base..base + |code| + |trailer|] == code + trailer
  {
  }

  lemma PatchedDisassembles(e: Env, operands: seq<nat>, values: map<U256, nat>)
    requires |operands| == |e.asm.items| && GoodWidths(e) && NoRawPushBefore(e.asm, |operands| - 1)
    requires forall i :: 0 <= i < |operands| ==> Emittable(e, i)
    requires forall id :: id in values ==> values[id] < TWO_256
    ensures Disassemble(CodeWith(e, operands, values, |operands|)) == ExpansionWith(e, operands, values, |operands|)
  {
    hide PieceWith, InstrsWith, Disassemble, Emittable, AllFit;
    var n := |operands|;
    if n > 0 && e.asm.items[n - 1].Operation? {
      var op := e.asm.items[n - 1].op;
      CodeWithIsExpansion(e, operands, values, n - 1);
      OperationWith(e, operands, values, n - 1);
      OnePush(op);
      DisassembleCode(ExpansionWith(e, operands, values, n - 1), [op]);
    } else {
      var instrs := ExpansionWith(e, operands, values, n);
      CodeWithIsExpansion(e, operands, values, n);
      DisassembleCode(instrs, []);
      NothingToReport();
      assert CodeOf(instrs) + [] == CodeOf(instrs);
    }
  }

  lemma OperationWith(e: Env, operands: seq<nat>, values: map<U256, nat>, i: nat)
    requires i < |e.asm.items| == |operands| && e.asm.items[i].Operation?
    ensures PieceWith(e, operands, values, i) == [e.asm.items[i].op]
    ensures InstrsWith(e, operands, values, i) == [Instr(e.asm.items[i].op, 0)]
  {
  }

  lemma RecordedReads(e: Env, operands: seq<nat>, out: Assembled)
    requires Laid(e, operands, out)
    ensures out.linked.immutableReferences == ImmutableReads(e, |e.asm.items|)
  {
    hide Code, Trailer, Emittable, TagTable, Resolved, AllLinks, ImmutableReads;
  }

  lemma LaidReads(c: Env, cOperands: seq<nat>, cOut: Assembled, i: nat, e: Env, operands: seq<nat>, out: Assembled)
    requires Laid(c, cOperands, cOut) && Laid(e, operands, out)
    requires c.refs == out.linked.immutableReferences
    requires i < |c.asm.items| && c.asm.items[i].AssignImmutable? && c.asm.items[i].hash !in AssignedIds(c.asm.items, i)
    requires c.asm.items[i].hash in c.refs
    ensures ItemInstrs(c, i, 0) == AssignInstrs(ReadsOf(e, c.asm.items[i].hash, |e.asm.items|))
    ensures forall k :: 0 <= k < |ReadsOf(e, c.asm.items[i].hash, |e.asm.items|)| ==>
              1 <= BytesRequired(ReadsOf(e, c.asm.items[i].hash, |e.asm.items|)[k]) <= 32
  {
    hide Laid, ImmutableReads, AssignInstrs, BytesRequired, AssignedIds;
    LaidCode(c, cOperands, cOut);
    assert Emittable(c, i);
    RecordedReads(e, operands, out);
    assert OffsetsAt(c, i) == ReadsOf(e, c.asm.items[i].hash, |e.asm.items|);
  }
}
