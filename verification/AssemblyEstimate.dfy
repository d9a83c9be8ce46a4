/**
 How good the size estimate is: item by item and for whole assemblies, the
 estimate is the size of the code and a slack that is known exactly.
 */
module AssemblyEstimate {
  import opened Bytes
  import opened Instructions
  import opened AssemblyModel
  import opened Assembler
  import opened AssemblyTheorems

  // ---------------------------------------------------------------- one item

  /** The bytes of the offsets, without the instructions around them. */
  function WidthSum(offsets: seq<nat>): nat {
    if offsets == [] then 0 else BytesRequired(offsets[0]) + WidthSum(offsets[1..])
  }

  /** An assignment is one PUSH, ADD and MSTORE per offset, and two DUP2 but for the last. */
  lemma {:induction false} AssignmentSize(offsets: seq<nat>)
    requires forall k :: 0 <= k < |offsets| ==> 1 <= BytesRequired(offsets[k]) <= 32
    ensures |CodeOf(AssignInstrs(offsets))| == if offsets == [] then 2 else 5 * |offsets| - 2 + WidthSum(offsets)
  {
    if offsets == [] {
      PlainCode(POP, POP);
    } else {
      StoresSize(offsets);
    }
  }

  lemma {:induction false} StoresSize(offsets: seq<nat>)
    requires offsets != [] && forall k :: 0 <= k < |offsets| ==> 1 <= BytesRequired(offsets[k]) <= 32
    ensures |CodeOf(StoreAll(offsets))| == 5 * |offsets| - 2 + WidthSum(offsets)
  {
    hide StoreOne, CodeOf;
    var one, rest := StoreOne(offsets[0], |offsets| > 1), StoreAll(offsets[1..]);
    StoreOneSize(offsets[0], |offsets| > 1);
    CodeOfConcat(one, rest);
    if |offsets| > 1 {
      StoresSize(offsets[1..]);
    } else {
      NoCode();
    }
  }

  lemma NoCode()
    ensures CodeOf([]) == []
  {
  }

  lemma StoreOneSize(offset: nat, more: bool)
    requires 1 <= BytesRequired(offset) <= 32
    ensures |CodeOf(StoreOne(offset, more))| == 3 + BytesRequired(offset) + if more then 2 else 0
  {
    StoreOneCode(offset, more);
  }

  /** The reads of an immutable that the estimate of its assignments counts. */
  function Reads(refs: map<U256, seq<nat>>, id: U256): nat {
    if id in refs then |refs[id]| else 0
  }

  /** By how much the estimate exceeds the bytes of item `i`; not at all for most items,
      and by -1 for an assignment of an immutable that nobody reads. */
  function Slack(e: Env, width: nat, i: nat): int
    requires i < |e.asm.items|
  {
    match e.asm.items[i]
    case PushTag(_) => width - e.tagWidth
    case PushData(_) => width - e.refWidth
    case PushSub(_) => width - e.refWidth
    case PushProgramSize => 4 - e.refWidth
    case PushSubSize(id) => 4 - Max(1, BytesRequired(SubSize(e, id)))
    case AssignImmutable(id) =>
      if OffsetsAt(e, i) == [] then 35 * Reads(e.refs, id) - 1
      else 30 * Reads(e.refs, id) + 3 - WidthSum(e.refs[id])
    case _ => 0
  }

  lemma PieceEstimate(e: Env, width: nat, i: nat)
    requires GoodWidths(e) && i < |e.asm.items| && Emittable(e, i)
    ensures ItemEstimate(e.asm.items[i], e.refs, width) == |PieceBytes(e, i, 0)| + Slack(e, width, i)
  {
    var item := e.asm.items[i];
    if item.AssignImmutable? {
      AssignmentSize(OffsetsAt(e, i));
    } else if |ItemInstrs(e, i, 0)| == 1 {
      CodeOfOne(ItemInstrs(e, i, 0)[0]);
      if item.Push? {
        PushWidth(item.data);
      }
    }
  }

  // ---------------------------------------------------------------- the whole assembly

  function SlackSum(e: Env, width: nat, n: nat): int
    requires n <= |e.asm.items|
  {
    if n == 0 then 0 else SlackSum(e, width, n - 1) + Slack(e, width, n - 1)
  }

  lemma {:induction false} ItemsEstimateIsCode(e: Env, width: nat, n: nat)
    requires GoodWidths(e) && n <= |e.asm.items| && forall i :: 0 <= i < n ==> Emittable(e, i)
    ensures ItemsEstimate(e.asm.items, e.refs, width, n) == Offset(e, n) + SlackSum(e, width, n)
  {
    hide PieceBytes, ItemEstimate, Emittable, Slack;
    if n > 0 {
      ItemsEstimateIsCode(e, width, n - 1);
      PieceEstimate(e, width, n - 1);
    }
  }

  /** All data objects one after the other, whether referenced or not. */
  function AllData(data: seq<DataItem>): seq<Byte> {
    if data == [] then [] else AllData(data[..|data| - 1]) + data[|data| - 1].bytes
  }

  lemma {:induction false} DataEstimateIsSize(data: seq<DataItem>, k: nat)
    requires k <= |data|
    ensures DataEstimate(data, k) == |AllData(data[..k])|
  {
    if k > 0 {
      DataEstimateIsSize(data, k - 1);
      assert data[..k][..k - 1] == data[..k - 1];
    }
  }

  /** The estimate is one byte for the marker, all data, the code and the slack. */
  lemma EstimateIsCode(e: Env, width: nat)
    requires GoodWidths(e) && forall i :: 0 <= i < |e.asm.items| ==> Emittable(e, i)
    ensures EstimateAt(e.asm, e.refs, width) ==
            1 + |AllData(e.asm.data)| + CodeSize(e) + SlackSum(e, width, |e.asm.items|)
  {
    hide Emittable, ItemsEstimate, DataEstimate, Offset, SlackSum, AllData;
    ItemsEstimateIsCode(e, width, |e.asm.items|);
    DataEstimateIsSize(e.asm.data, |e.asm.data|);
    assert e.asm.data[..|e.asm.data|] == e.asm.data;
  }

  /** Items whose size is known before anything else is. */
  predicate ExactItem(item: Item) {
    item.Operation? || item.Tag? || item.Push? || item.PushString? || item.PushTag? || item.PushLibraryAddress? ||
    item.PushDeployTimeAddress? || item.PushImmutable?
  }

  function TagPushes(items: seq<Item>, n: nat): nat
    requires n <= |items|
  {
    if n == 0 then 0 else TagPushes(items, n - 1) + if items[n - 1].PushTag? then 1 else 0
  }

  lemma {:induction false} ExactSlack(e: Env, width: nat, n: nat)
    requires n <= |e.asm.items| && forall i :: 0 <= i < n ==> ExactItem(e.asm.items[i])
    ensures SlackSum(e, width, n) == TagPushes(e.asm.items, n) * (width - e.tagWidth)
  {
    if n > 0 {
      ExactSlack(e, width, n - 1);
      Distribute(TagPushes(e.asm.items, n - 1), width - e.tagWidth);
    }
  }

  lemma Distribute(n: nat, d: int)
    ensures (n + 1) * d == n * d + d
  {
  }

  /** For assemblies made of such items, the estimate at the width that tags get is exact. */
  lemma ExactEstimate(e: Env)
    requires GoodWidths(e) && forall i :: 0 <= i < |e.asm.items| ==> Emittable(e, i) && ExactItem(e.asm.items[i])
    ensures EstimateAt(e.asm, e.refs, e.tagWidth) == 1 + |AllData(e.asm.data)| + CodeSize(e)
  {
    hide Emittable, ExactItem, EstimateAt, CodeSize, AllData, SlackSum, TagPushes;
    EstimateIsCode(e, e.tagWidth);
    ExactSlack(e, e.tagWidth, |e.asm.items|);
  }

  // ---------------------------------------------------------------- the widths of references

  function AllSubs(subs: seq<Assembled>): seq<Byte> {
    if subs == [] then [] else AllSubs(subs[..|subs| - 1]) + subs[|subs| - 1].linked.bytecode
  }

  lemma {:induction false} SubSizesIsSize(subs: seq<Assembled>, k: nat)
    requires k <= |subs|
    ensures SubSizes(subs, k) == |AllSubs(subs[..k])|
  {
    if k > 0 {
      SubSizesIsSize(subs, k - 1);
      assert subs[..k][..k - 1] == subs[..k - 1];
    }
  }

  /** The widths that tags and references get in a finished object, by the bytes
      that are really there. */
  lemma WidthsOfObject(a: Assembly, subs: seq<Assembled>, e: Env, width: nat, operands: seq<nat>, out: Assembled)
    requires Prepared(a, subs, e, width) && Laid(e, operands, out)
    ensures var size := 1 + |AllData(a.data)| + CodeSize(e) + SlackSum(e, width, |a.items|);
            size >= 0 && e.tagWidth == BytesRequired(size) <= width &&
            e.refWidth == BytesRequired(size + 1 + |a.auxiliary| + |AllSubs(subs)|)
  {
    hide Laid, Emittable, EstimateAt, CodeSize, AllData, AllSubs, SlackSum, SubSizes, BytesRequired, StartsAbove;
    hide ReadBySubs, Code, Trailer;
    LaidCode(e, operands, out);
    EstimateIsCode(e, width);
    SubSizesIsSize(subs, |subs|);
    assert subs[..|subs|] == subs;
  }

  // ---------------------------------------------------------------- the bytes of one item

  /** PUSHn and a number, as bytes. */
  function PushInNumbers(width: nat, value: nat): seq<Byte>
    requires 1 <= width <= 32
  {
    [0x5f + width] + ToBigEndian(value, width)
  }

  lemma PushedInNumbers(width: nat, value: nat)
    requires 1 <= width <= 32
    ensures CodeOf([PushAny(width, value)]) == PushInNumbers(width, value)
  {
    CodeOfOne(PushAny(width, value));
  }

  /** The bytes of an item, in the numbers the virtual machine reads. */
  lemma PieceInNumbers(e: Env, i: nat, operand: nat)
    requires GoodWidths(e) && i < |e.asm.items| && Emittable(e, i)
    ensures var item, piece := e.asm.items[i], PieceBytes(e, i, operand);
            match item
            case Operation(op) => piece == [op]
            case Tag(_) => piece == [0x5b]
            case Push(data) => (PushWidth(data); piece == PushInNumbers(Max(1, BytesRequired(data)), data))
            case PushString(h) => piece == [0x7f] + Padded(e.asm.strings[h])
            case PushTag(_) => piece == PushInNumbers(e.tagWidth, operand)
            case PushSubSize(id) =>
              piece == PushInNumbers(Max(1, BytesRequired(SubSize(e, id))), SubSize(e, id))
            case PushLibraryAddress(_) => piece == [0x74] + Zeros(21)
            case PushDeployTimeAddress => piece == [0x74] + Zeros(21)
            case PushImmutable(_) => piece == [0x7f] + Zeros(32)
            case AssignImmutable(_) => OffsetsAt(e, i) == [] ==> piece == [0x50, 0x50]
            case UndefinedItem => false
            case _ => piece == PushInNumbers(e.refWidth, operand)
  {
    hide CodeOf, ToBigEndian, BytesRequired, FromBigEndian;
    match e.asm.items[i]
    case Operation(_) =>
    case Tag(_) => CodeOfOne(Instr(JUMPDEST, 0));
    case Push(data) =>
      PushWidth(data);
      PushedInNumbers(Max(1, BytesRequired(data)), data);
    case PushString(h) => StringInNumbers(Padded(e.asm.strings[h]));
    case PushTag(_) => PushedInNumbers(e.tagWidth, operand);
    case PushSubSize(id) => PushedInNumbers(Max(1, BytesRequired(SubSize(e, id))), SubSize(e, id));
    case PushLibraryAddress(_) =>
      CodeOfOne(Instr(PUSH21, 0));
      ToBigEndianZero(21);
    case PushDeployTimeAddress =>
      CodeOfOne(Instr(PUSH21, 0));
      ToBigEndianZero(21);
    case PushImmutable(_) =>
      CodeOfOne(Instr(PUSH32, 0));
      ToBigEndianZero(32);
    case AssignImmutable(_) => PlainCode(POP, POP);
    case _ => PushedInNumbers(e.refWidth, operand);
  }

  lemma StringInNumbers(padded: seq<Byte>)
    requires |padded| == 32
    ensures CodeOf([Instr(PUSH32, FromBigEndian(padded))]) == [0x7f] + padded
  {
    CodeOfOne(Instr(PUSH32, FromBigEndian(padded)));
    ToFromBigEndian(padded);
  }

  /** An assignment at one offset, and the first of several: DUP2 DUP2 PUSHn ADD MSTORE. */
  lemma StoreInNumbers(offset: nat, more: bool)
    requires 1 <= BytesRequired(offset) <= 32
    ensures CodeOf(StoreOne(offset, more)) ==
            (if more then [0x81, 0x81] else []) + PushInNumbers(BytesRequired(offset), offset) + [0x01, 0x52]
  {
    hide CodeOf;
    StoreOneCode(offset, more);
    var dups: seq<Byte> := if more then [0x81, 0x81] else [];
    var number := ToBigEndian(offset, BytesRequired(offset));
    assert dups + ([0x5f + BytesRequired(offset)] + number) == dups + [0x5f + BytesRequired(offset)] + number;
  }
}
