/**
 `Assembly::assemble` of libevmasm/Assembly.cpp: estimate the width of a tag,
 emit every item with a hole for each number not known yet, then append the
 sub-assemblies and the data and patch the holes.
 */
module Assembler {
  import opened Wrappers
  import opened Bytes
  import opened Instructions
  import opened AssemblyModel

  datatype TagHole = TagHole(pos: nat, sub: nat, tag: nat)
  datatype DataHole = DataHole(hash: U256, pos: nat)
  datatype SubHole = SubHole(id: nat, pos: nat)

  /** The multimaps `tagRef`, `dataRef`, `subRef` and the vector `sizeRef`. */
  datatype Holes = Holes(tags: seq<TagHole>, data: seq<DataHole>, subs: seq<SubHole>, sizes: seq<nat>)

  /** `unassigned` are the immutables read by a sub-assembly and not assigned so far. */
  datatype Names = Names(
    links: map<nat, string>,
    immutableReads: map<U256, seq<nat>>,
    unassigned: map<U256, seq<nat>>)

  /** The local variables of `assemble` while it emits. */
  datatype Emission = Emission(bytecode: seq<Byte>, positions: seq<Option<nat>>, holes: Holes, names: Names)

  // ---------------------------------------------------------------- code and holes

  lemma PieceSize(e: Env, i: nat, operand: nat)
    requires i < |e.asm.items|
    ensures |PieceBytes(e, i, operand)| == |PieceBytes(e, i, 0)|
  {
    var item := e.asm.items[i];
    if KindOf(item) != Plain {
      CodeOfOne(ItemInstrs(e, i, operand)[0]);
      CodeOfOne(ItemInstrs(e, i, 0)[0]);
    }
  }

  lemma {:induction false} CodeLength(e: Env, operands: seq<nat>, n: nat)
    requires n <= |e.asm.items| == |operands|
    ensures |Code(e, operands, n)| == Offset(e, n)
  {
    hide PieceBytes;
    if n > 0 {
      CodeLength(e, operands, n - 1);
      PieceSize(e, n - 1, operands[n - 1]);
    }
  }

  lemma {:induction false} OffsetMonotone(e: Env, i: nat, n: nat)
    requires i <= n <= |e.asm.items|
    ensures Offset(e, i) <= Offset(e, n)
    decreases n
  {
    hide PieceBytes;
    if i < n {
      OffsetMonotone(e, i, n - 1);
    }
  }

  function HoleWidth(e: Env, i: nat): nat
    requires i < |e.asm.items|
  {
    if e.asm.items[i].PushTag? then e.tagWidth else e.refWidth
  }

  predicate GoodWidths(e: Env) {
    1 <= e.tagWidth <= 32 && 1 <= e.refWidth <= 32
  }

  lemma HolePiece(e: Env, i: nat, operand: nat)
    requires i < |e.asm.items| && KindOf(e.asm.items[i]) != Plain && GoodWidths(e)
    ensures PieceBytes(e, i, operand) == [PushOp(HoleWidth(e, i))] + ToBigEndian(operand, HoleWidth(e, i))
  {
    CodeOfOne(ItemInstrs(e, i, operand)[0]);
  }

  lemma HoleInBounds(e: Env, i: nat, n: nat)
    requires i < n <= |e.asm.items| && KindOf(e.asm.items[i]) != Plain && GoodWidths(e)
    ensures Offset(e, i) + 1 + HoleWidth(e, i) <= Offset(e, n)
  {
    HolePiece(e, i, 0);
    hide PieceBytes;
    OffsetMonotone(e, i + 1, n);
  }

  /** Writing a number into the hole of item `i` changes the operand of item `i`
      and nothing else. */
  lemma {:induction false} PatchHole(e: Env, operands: seq<nat>, n: nat, i: nat, v: nat)
    requires i < n <= |e.asm.items| == |operands| && KindOf(e.asm.items[i]) != Plain && GoodWidths(e)
    ensures |Code(e, operands, n)| == Offset(e, n)
    ensures Offset(e, i) + 1 + HoleWidth(e, i) <= Offset(e, n)
    ensures Patch(Code(e, operands, n), Offset(e, i) + 1, ToBigEndian(v, HoleWidth(e, i))) ==
            Code(e, operands[i := v], n)
    decreases n
  {
    hide PieceBytes, Patch, HoleWidth, ToBigEndian, Offset;
    HoleInBounds(e, i, n);
    CodeLength(e, operands, n);
    CodeLength(e, operands, n - 1);
    var before, window := Code(e, operands, n - 1), ToBigEndian(v, HoleWidth(e, i));
    if i < n - 1 {
      PatchHole(e, operands, n - 1, i, v);
      PatchLeft(before, PieceBytes(e, n - 1, operands[n - 1]), Offset(e, i) + 1, window);
    } else {
      CodePrefix(e, operands, operands[i := v], n - 1);
      PatchPiece(e, i, operands[i], v);
      PatchRight(before, PieceBytes(e, i, operands[i]), 1, window);
    }
  }

  lemma PatchPiece(e: Env, i: nat, old_: nat, v: nat)
    requires i < |e.asm.items| && KindOf(e.asm.items[i]) != Plain && GoodWidths(e)
    ensures |PieceBytes(e, i, old_)| == 1 + HoleWidth(e, i)
    ensures Patch(PieceBytes(e, i, old_), 1, ToBigEndian(v, HoleWidth(e, i))) == PieceBytes(e, i, v)
  {
    hide PieceBytes, ToBigEndian;
    HolePiece(e, i, v);
    HolePiece(e, i, old_);
  }

  lemma {:induction false} CodePrefix(e: Env, xs: seq<nat>, ys: seq<nat>, n: nat)
    requires n <= |e.asm.items| == |xs| == |ys| && xs[..n] == ys[..n]
    ensures Code(e, xs, n) == Code(e, ys, n)
  {
    if n > 0 {
      assert xs[..n - 1] == xs[..n][..n - 1] && xs[n - 1] == xs[..n][n - 1] && ys[n - 1] == ys[..n][n - 1];
      CodePrefix(e, xs, ys, n - 1);
    }
  }

  /** The same when something already follows the code. */
  lemma PatchHoleBefore(e: Env, operands: seq<nat>, i: nat, v: nat, trailer: seq<Byte>)
    requires i < |e.asm.items| == |operands| && KindOf(e.asm.items[i]) != Plain && GoodWidths(e)
    ensures Offset(e, i) + 1 + HoleWidth(e, i) <= CodeSize(e) == |Code(e, operands, |operands|)|
    ensures Patch(Code(e, operands, |operands|) + trailer, Offset(e, i) + 1, ToBigEndian(v, HoleWidth(e, i))) ==
            Code(e, operands[i := v], |operands|) + trailer
  {
    hide PieceBytes, Code;
    PatchHole(e, operands, |operands|, i, v);
    var code, pos, window := Code(e, operands, |operands|), Offset(e, i) + 1, ToBigEndian(v, HoleWidth(e, i));
    PatchLeft(code, trailer, pos, window);
  }

  // ---------------------------------------------------------------- emitting

  /** The holes the first `n` items leave, in the order in which they are recorded. */
  function TagHoles(e: Env, n: nat): seq<TagHole>
    requires n <= |e.asm.items|
  {
    if n == 0 then []
    else TagHoles(e, n - 1) + match e.asm.items[n - 1] {
      case PushTag(data) => [TagHole(Offset(e, n - 1) + 1, TagSub(data), TagId(data))]
      case _ => []
    }
  }

  function DataHoles(e: Env, n: nat): seq<DataHole>
    requires n <= |e.asm.items|
  {
    if n == 0 then []
    else DataHoles(e, n - 1) + match e.asm.items[n - 1] {
      case PushData(hash) => [DataHole(hash, Offset(e, n - 1) + 1)]
      case _ => []
    }
  }

  function SizeHoles(e: Env, n: nat): seq<nat>
    requires n <= |e.asm.items|
  {
    if n == 0 then []
    else SizeHoles(e, n - 1) + match e.asm.items[n - 1] {
      case PushProgramSize => [Offset(e, n - 1) + 1]
      case _ => []
    }
  }

  /** A multimap: sorted by id, equal ids in the order of their insertion. */
  function SubHoles(e: Env, n: nat): seq<SubHole>
    requires n <= |e.asm.items|
  {
    if n == 0 then []
    else match e.asm.items[n - 1]
      case PushSub(id) => InsertHole(SubHoles(e, n - 1), SubHole(id, Offset(e, n - 1) + 1))
      case _ => SubHoles(e, n - 1)
  }

  function InsertHole(holes: seq<SubHole>, hole: SubHole): seq<SubHole> {
    InsertAt(holes, InsertionPoint(HoleIds(holes), hole.id), hole)
  }

  function HoleIds(holes: seq<SubHole>): (ids: seq<nat>)
    ensures |ids| == |holes|
  {
    seq(|holes|, k requires 0 <= k < |holes| => holes[k].id)
  }

  predicate HolesAt(e: Env, holes: Holes, n: nat)
    requires n <= |e.asm.items|
  {
    holes == Holes(TagHoles(e, n), DataHoles(e, n), SubHoles(e, n), SizeHoles(e, n))
  }

  predicate UnassignedAt(e: Env, unassigned: map<U256, seq<nat>>, n: nat)
    requires n <= |e.asm.items|
  {
    unassigned == map id | id in e.refs && id !in AssignedIds(e.asm.items, n) :: e.refs[id]
  }

  predicate NamesAt(e: Env, names: Names, n: nat)
    requires n <= |e.asm.items|
  {
    && names.links == OwnLinks(e, n)
    && names.immutableReads == ImmutableReads(e, n)
    && UnassignedAt(e, names.unassigned, n)
  }

  ghost predicate EmissionAt(e: Env, m: Emission, n: nat) {
    && n <= |e.asm.items|
    && m.bytecode == Code(e, Zeros(|e.asm.items|), n)
    && TagTable(e, m.positions, n)
    && HolesAt(e, m.holes, n)
    && NamesAt(e, m.names, n)
    && forall i :: 0 <= i < n ==> Emittable(e, i)
  }

  /** The two loops of the PushString case. */
  method EmitString(s: seq<Byte>) returns (code: seq<Byte>)
    ensures code == [PUSH32] + Padded(s)
  {
    code := [PUSH32];
    var ii, j := 0, 0;
    while j < |s|
      invariant 0 <= j <= |s| && j <= 32 && ii == j
      invariant code == [PUSH32] + s[..j]
    {
      ii := ii + 1;
      if ii > 32 {
        break;
      }
      code := code + [s[j]];
      j := j + 1;
    }
    ghost var kept := if |s| >= 32 then s[..32] else s;
    assert code == [PUSH32] + kept && (ii == |kept| || (ii == 33 && |kept| == 32));
    while ii < 32
      invariant |kept| <= ii <= 33 && (ii == 33 ==> |kept| == 32)
      invariant code == [PUSH32] + kept + seq(if ii == 33 then 0 else ii - |kept|, _ => 0)
    {
      ii := ii + 1;
      code := code + [0];
    }
    assert Padded(s) == kept + seq(32 - |kept|, _ => 0);
  }

  /** The loop of the AssignImmutable case. */
  method EmitAssignment(offsets: seq<nat>) returns (r: Result<seq<Byte>>)
    ensures r.Ok? ==> r.value == CodeOf(AssignInstrs(offsets))
    ensures r.Ok? <==> forall k :: 0 <= k < |offsets| ==> 1 <= BytesRequired(offsets[k]) <= 32
    ensures r.Err? ==> r.error == WidthOutOfRange
  {
    hide CodeOf, StoreAll, StoreOne, ToBigEndian;
    var code: seq<Byte> := [];
    assert offsets[0..] == offsets;
    for i := 0 to |offsets|
      invariant code + CodeOf(StoreAll(offsets[i..])) == CodeOf(StoreAll(offsets))
      invariant forall k :: 0 <= k < i ==> 1 <= BytesRequired(offsets[k]) <= 32
    {
      var one: seq<Byte> := [];
      if i != |offsets| - 1 {
        one := one + [DUP2, DUP2];
      }
      var width := CountBytes(offsets[i]);
      if !(1 <= width <= 32) {
        return Err(WidthOutOfRange);
      }
      one := one + [PushOp(width)] + ToBigEndian(offsets[i], width);
      one := one + [ADD, MSTORE];
      StoreStep(offsets, i);
      assert code + (one + CodeOf(StoreAll(offsets[i + 1..]))) == code + one + CodeOf(StoreAll(offsets[i + 1..]));
      code := code + one;
    }
    StoreNone(offsets[|offsets|..]);
    if offsets == [] {
      code := code + [POP, POP];
      PlainCode(POP, POP);
    }
    return Ok(code);
  }

  lemma StoreNone(offsets: seq<nat>)
    requires offsets == []
    ensures CodeOf(StoreAll(offsets)) == []
  {
  }

  lemma StoreStep(offsets: seq<nat>, i: nat)
    requires i < |offsets| && 1 <= BytesRequired(offsets[i]) <= 32
    ensures CodeOf(StoreAll(offsets[i..])) ==
            (if i != |offsets| - 1 then [DUP2, DUP2] else []) + [PushOp(BytesRequired(offsets[i]))] +
            ToBigEndian(offsets[i], BytesRequired(offsets[i])) + [ADD, MSTORE] +
            CodeOf(StoreAll(offsets[i + 1..]))
  {
    hide CodeOf, StoreOne;
    var rest := offsets[i..];
    assert rest[1..] == offsets[i + 1..];
    StoreOneCode(offsets[i], i != |offsets| - 1);
    CodeOfConcat(StoreOne(rest[0], |rest| > 1), StoreAll(rest[1..]));
  }

  lemma PlainCode(x: Byte, y: Byte)
    requires !IsPush(x) && !IsPush(y)
    ensures CodeOf([Instr(x, 0), Instr(y, 0)]) == [x, y]
  {
    assert [Instr(x, 0), Instr(y, 0)] == [Instr(x, 0)] + [Instr(y, 0)];
    CodeOfConcat([Instr(x, 0)], [Instr(y, 0)]);
    CodeOfOne(Instr(x, 0));
    CodeOfOne(Instr(y, 0));
  }

  lemma StoreOneCode(offset: nat, more: bool)
    requires 1 <= BytesRequired(offset) <= 32
    ensures CodeOf(StoreOne(offset, more)) ==
            (if more then [DUP2, DUP2] else []) + [PushOp(BytesRequired(offset))] +
            ToBigEndian(offset, BytesRequired(offset)) + [ADD, MSTORE]
  {
    hide CodeOf;
    var dups := if more then [Instr(DUP2, 0), Instr(DUP2, 0)] else [];
    var push, store := Instr(PushOp(BytesRequired(offset)), offset), [Instr(ADD, 0), Instr(MSTORE, 0)];
    assert StoreOne(offset, more) == (dups + [push]) + store;
    CodeOfConcat(dups + [push], store);
    CodeOfConcat(dups, [push]);
    CodeOfOne(push);
    PlainCode(DUP2, DUP2);
    PlainCode(ADD, MSTORE);
    CodeOfNone();
  }

  lemma CodeOfNone()
    ensures CodeOf([]) == []
  {
  }

  /** The bytes the big switch pushes for item `n`, with zeros in the holes. */
  method EmitBytes(e: Env, n: nat, unassigned: map<U256, seq<nat>>) returns (r: Result<seq<Byte>>)
    requires n < |e.asm.items| && GoodWidths(e) && UnassignedAt(e, unassigned, n)
    ensures r.Ok? ==> r.value == PieceBytes(e, n, 0)
    ensures r.Ok? <==> Emittable(e, n)
    ensures r.Err? ==> r.error == BadItem || r.error == WidthOutOfRange || r.error == BadSub
  {
    hide CodeOf, AssignInstrs, BytesRequired, ToBigEndian, FromBigEndian;
    ghost var instrs := ItemInstrs(e, n, 0);
    if |instrs| == 1 {
      CodeOfOne(instrs[0]);
    }
    match e.asm.items[n] {
      case UndefinedItem =>
        return Err(BadItem);
      case Operation(op) =>
        return Ok([op]);
      case Push(data) =>
        var width := CountBytes(data);
        PushWidth(data);
        return Ok([PushOp(Max(1, width))] + ToBigEndian(data, Max(1, width)));
      case PushString(h) =>
        if h !in e.asm.strings {
          return Err(BadItem);
        }
        var code := EmitString(e.asm.strings[h]);
        ToFromBigEndian(Padded(e.asm.strings[h]));
        return Ok(code);
      case PushTag(_) =>
        return Ok([PushOp(e.tagWidth)] + ToBigEndian(0, e.tagWidth));
      case PushSub(id) =>
        if id >= TWO_64 {
          return Err(BadSub);
        }
        return Ok([PushOp(e.refWidth)] + ToBigEndian(0, e.refWidth));
      case PushSubSize(id) =>
        if id >= TWO_64 {
          return Err(BadSub);
        }
        var sub := SubById(e.subs, e.asm.subPaths, id);
        if sub == None {
          return Err(BadSub);
        }
        var size := |sub.value.linked.bytecode|;
        var width := CountBytes(size);
        if width > 32 {
          return Err(WidthOutOfRange);
        }
        return Ok([PushOp(Max(1, width))] + ToBigEndian(size, Max(1, width)));
      case PushProgramSize =>
        return Ok([PushOp(e.refWidth)] + ToBigEndian(0, e.refWidth));
      case Tag(_) =>
        return Ok([JUMPDEST]);
      case PushData(_) =>
        return Ok([PushOp(e.refWidth)] + ToBigEndian(0, e.refWidth));
      case PushLibraryAddress(h) =>
        if h !in e.asm.libraries {
          return Err(BadItem);
        }
        return Ok([PUSH21] + ToBigEndian(0, 21));
      case PushDeployTimeAddress =>
        return Ok([PUSH21] + ToBigEndian(0, 21));
      case PushImmutable(h) =>
        if h !in e.asm.immutables {
          return Err(BadItem);
        }
        return Ok([PUSH32] + ToBigEndian(0, 32));
      case AssignImmutable(id) =>
        var offsets := if id in unassigned then unassigned[id] else [];
        r := EmitAssignment(offsets);
    }
  }

  lemma PushWidth(data: U256)
    ensures Max(1, BytesRequired(data)) <= 32
  {
    WordCapacity();
    BytesRequiredExact(data, 32);
  }

  /** The tags of the assembly cannot be placed. */
  ghost predicate NoTagTable(e: Env) {
    forall q :: !TagTable(e, q, |e.asm.items|)
  }

  lemma DuplicateTag(e: Env, positions: seq<Option<nat>>, n: nat)
    requires n < |e.asm.items| && e.asm.items[n].Tag? && TagTable(e, positions, n)
    requires 0 < e.asm.items[n].data < |positions| && positions[e.asm.items[n].data] != None
    ensures NoTagTable(e)
  {
    hide Offset;
    var t := e.asm.items[n].data;
    var i :| 0 <= i < n && e.asm.items[i].Tag? && e.asm.items[i].data == t;
    TagMoves(e, i);
    OffsetMonotone(e, i + 1, n);
    forall q ensures !TagTable(e, q, |e.asm.items|) {
    }
  }

  lemma TagMoves(e: Env, i: nat)
    requires i < |e.asm.items| && e.asm.items[i].Tag?
    ensures Offset(e, i + 1) == Offset(e, i) + 1
  {
    CodeOfOne(Instr(JUMPDEST, 0));
  }

  /** Tag 0 and, for a tag, its own entry. */
  method PlaceTag(e: Env, positions: seq<Option<nat>>, n: nat, here: nat) returns (r: Result<seq<Option<nat>>>)
    requires n < |e.asm.items| && TagTable(e, positions, n) && here == Offset(e, n)
    requires e.asm.items[n].Tag? ==> e.asm.items[n].data < TWO_64
    ensures r.Ok? ==> TagTable(e, r.value, n + 1)
    ensures r.Err? ==> r.error == BadTag && NoTagTable(e)
  {
    hide Offset;
    var item := e.asm.items[n];
    if !item.Tag? {
      return Ok(if positions[0] == None then positions[0 := Some(here)] else positions);
    }
    if item.data == 0 || TagSub(item.data) != OWN || here >= 0xffff_ffff {
      return Err(BadTag);
    }
    if item.data >= |positions| || positions[item.data] != None {
      if item.data < |positions| {
        DuplicateTag(e, positions, n);
      }
      return Err(BadTag);
    }
    var placed := positions[item.data := Some(here)];
    forall t | 0 < t < |placed| && placed[t].Some?
      ensures exists i :: 0 <= i < n + 1 && e.asm.items[i].Tag? && e.asm.items[i].data == t
    {
      if t == item.data {
        assert 0 <= n < n + 1 && e.asm.items[n].Tag? && e.asm.items[n].data == t;
      } else {
        var i :| 0 <= i < n && e.asm.items[i].Tag? && e.asm.items[i].data == t;
        assert 0 <= i < n + 1;
      }
    }
    return Ok(placed);
  }

  /** The hole the item at `here` leaves, if any. */
  method RecordHole(e: Env, holes: Holes, n: nat, here: nat) returns (r: Holes)
    requires n < |e.asm.items| && HolesAt(e, holes, n) && here == Offset(e, n)
    ensures HolesAt(e, r, n + 1)
  {
    hide InsertHole, Offset, TagSub, TagId;
    r := holes;
    match e.asm.items[n] {
      case PushTag(data) => r := r.(tags := r.tags + [TagHole(here + 1, TagSub(data), TagId(data))]);
      case PushData(hash) => r := r.(data := r.data + [DataHole(hash, here + 1)]);
      case PushSub(id) => r := r.(subs := InsertHole(r.subs, SubHole(id, here + 1)));
      case PushProgramSize => r := r.(sizes := r.sizes + [here + 1]);
      case _ =>
    }
  }

  /** The library or immutable the item at `here` refers to, if any. */
  method RecordName(e: Env, names: Names, n: nat, here: nat) returns (r: Names)
    requires n < |e.asm.items| && NamesAt(e, names, n) && here == Offset(e, n) && Emittable(e, n)
    ensures NamesAt(e, r, n + 1)
  {
    hide AssignedIds, Offset;
    AssignedStep(e.asm.items, n);
    r := names;
    match e.asm.items[n] {
      case PushLibraryAddress(h) =>
        r := r.(links := r.links[here + 1 := e.asm.libraries[h]]);
      case PushImmutable(id) =>
        var before := if id in r.immutableReads then r.immutableReads[id] else [];
        r := r.(immutableReads := r.immutableReads[id := before + [here + 1]]);
      case AssignImmutable(id) =>
        r := r.(unassigned := r.unassigned - {id});
      case _ =>
    }
  }

  /** One iteration of the main loop. */
  method EmitItem(e: Env, m: Emission, n: nat) returns (r: Result<Emission>)
    requires GoodWidths(e) && EmissionAt(e, m, n) && n < |e.asm.items|
    requires e.asm.items[n].Tag? ==> e.asm.items[n].data < TWO_64
    ensures r.Ok? ==> EmissionAt(e, r.value, n + 1)
    ensures r.Err? ==> r.error in {BadTag, BadItem, WidthOutOfRange, BadSub} && (NoTagTable(e) || !Emittable(e, n))
  {
    CodeLength(e, Zeros(|e.asm.items|), n);
    var here := |m.bytecode|;
    var positions :- PlaceTag(e, m.positions, n, here);
    var code :- EmitBytes(e, n, m.names.unassigned);
    var holes := RecordHole(e, m.holes, n, here);
    var names := RecordName(e, m.names, n, here);
    hide PieceBytes, Emittable, TagTable, HolesAt, NamesAt, Offset;
    return Ok(Emission(m.bytecode + code, positions, holes, names));
  }

  lemma AssignedStep(items: seq<Item>, n: nat)
    requires n < |items|
    ensures AssignedIds(items, n + 1) ==
            AssignedIds(items, n) + (if items[n].AssignImmutable? then {items[n].hash} else {})
  {
  }

  /** The main loop. */
  method Emit(e: Env) returns (r: Result<Emission>)
    requires GoodWidths(e)
    requires forall i :: 0 <= i < |e.asm.items| && e.asm.items[i].Tag? ==> e.asm.items[i].data < TWO_64
    ensures r.Ok? ==> EmissionAt(e, r.value, |e.asm.items|)
    ensures r.Err? ==> r.error in {BadTag, BadItem, WidthOutOfRange, BadSub} && NoLayout(e)
  {
    hide Laid, EmissionAt, NoTagTable, Emittable, NoLayout;
    EmissionStarts(e);
    var m := Emission([], seq(e.asm.usedTags, _ => None), Holes([], [], [], []), Names(map[], map[], e.refs));
    for n := 0 to |e.asm.items|
      invariant EmissionAt(e, m, n)
    {
      var next := EmitItem(e, m, n);
      if next.Err? {
        FailsToEmit(e, n);
        return Err(next.error);
      }
      m := next.value;
    }
    return Ok(m);
  }

  lemma EmissionStarts(e: Env)
    ensures EmissionAt(e,
      Emission([], seq(e.asm.usedTags, _ => None), Holes([], [], [], []), Names(map[], map[], e.refs)), 0)
  {
  }

  /** No object meets the description: assembling has to fail. */
  ghost predicate NoLayout(e: Env) {
    forall operands, out :: !Laid(e, operands, out)
  }

  lemma FailsToEmit(e: Env, n: nat)
    requires n < |e.asm.items| && (NoTagTable(e) || !Emittable(e, n))
    ensures NoLayout(e)
  {
    hide Code, Trailer, Emittable, TagTable, Resolved, AllLinks, SubOrder, ImmutableReads;
  }

  // ---------------------------------------------------------------- which item left which hole

  predicate TagHoleFor(e: Env, i: nat, hole: TagHole) {
    i < |e.asm.items| && e.asm.items[i].PushTag? &&
    hole == TagHole(Offset(e, i) + 1, TagSub(e.asm.items[i].data), TagId(e.asm.items[i].data))
  }

  predicate DataHoleFor(e: Env, i: nat, hole: DataHole) {
    i < |e.asm.items| && e.asm.items[i].PushData? && hole == DataHole(e.asm.items[i].hash, Offset(e, i) + 1)
  }

  predicate SizeHoleFor(e: Env, i: nat, hole: nat) {
    i < |e.asm.items| && e.asm.items[i].PushProgramSize? && hole == Offset(e, i) + 1
  }

  predicate SubHoleFor(e: Env, i: nat, hole: SubHole) {
    i < |e.asm.items| && e.asm.items[i].PushSub? && hole == SubHole(e.asm.items[i].id, Offset(e, i) + 1)
  }

  lemma {:induction false} TagHolesMatch(e: Env, n: nat)
    requires n <= |e.asm.items|
    ensures var idx, holes := Indices(e.asm.items, TagRef, n), TagHoles(e, n);
            |idx| == |holes| && forall k :: 0 <= k < |idx| ==> TagHoleFor(e, idx[k], holes[k])
  {
    hide Offset, TagSub, TagId;
    if n > 0 {
      TagHolesMatch(e, n - 1);
    }
  }

  lemma {:induction false} DataHolesMatch(e: Env, n: nat)
    requires n <= |e.asm.items|
    ensures var idx, holes := Indices(e.asm.items, DataRef, n), DataHoles(e, n);
            |idx| == |holes| && forall k :: 0 <= k < |idx| ==> DataHoleFor(e, idx[k], holes[k])
  {
    hide Offset;
    if n > 0 {
      DataHolesMatch(e, n - 1);
    }
  }

  lemma {:induction false} SizeHolesMatch(e: Env, n: nat)
    requires n <= |e.asm.items|
    ensures var idx, holes := Indices(e.asm.items, SizeRef, n), SizeHoles(e, n);
            |idx| == |holes| && forall k :: 0 <= k < |idx| ==> SizeHoleFor(e, idx[k], holes[k])
  {
    hide Offset;
    if n > 0 {
      SizeHolesMatch(e, n - 1);
    }
  }

  lemma {:induction false} SubHolesMatch(e: Env, n: nat)
    requires n <= |e.asm.items|
    ensures var order, holes := SubOrder(e.asm.items, n), SubHoles(e, n);
            |order| == |holes| && forall k :: 0 <= k < |order| ==> SubHoleFor(e, order[k], holes[k])
  {
    hide Offset, InsertionPoint;
    if n > 0 {
      SubHolesMatch(e, n - 1);
      var item := e.asm.items[n - 1];
      if item.PushSub? {
        var order, holes := SubOrder(e.asm.items, n - 1), SubHoles(e, n - 1);
        assert HoleIds(holes) == SubIds(e.asm.items, order);
        var p := InsertionPoint(HoleIds(holes), item.id);
        assert SubHoles(e, n) == InsertAt(holes, p, SubHole(item.id, Offset(e, n - 1) + 1));
      }
    }
  }

  lemma {:induction false} IndicesComplete(items: seq<Item>, kind: Kind, n: nat, i: nat)
    requires i < n <= |items| && KindOf(items[i]) == kind
    ensures i in Indices(items, kind, n)
    decreases n
  {
    if i < n - 1 {
      IndicesComplete(items, kind, n - 1, i);
    }
  }

  predicate Distinct(s: seq<nat>) {
    forall j, k :: 0 <= j < k < |s| ==> s[j] != s[k]
  }

  lemma InsertDistinct(s: seq<nat>, p: nat, x: nat)
    requires Distinct(s) && p <= |s| && x !in s
    ensures Distinct(InsertAt(s, p, x))
  {
  }

  /** Every PushSub has exactly one place in the order. */
  lemma {:induction false} SubOrderDistinct(items: seq<Item>, n: nat)
    requires n <= |items|
    ensures Distinct(SubOrder(items, n))
  {
    hide Distinct, InsertionPoint;
    if n == 0 {
      assert Distinct([]) by { NoneDistinct(); }
    } else {
      SubOrderDistinct(items, n - 1);
      if items[n - 1].PushSub? {
        var before := SubOrder(items, n - 1);
        InsertDistinct(before, InsertionPoint(SubIds(items, before), items[n - 1].id), n - 1);
      }
    }
  }

  lemma NoneDistinct()
    ensures Distinct([])
  {
  }

  lemma {:induction false} SubOrderComplete(items: seq<Item>, n: nat, i: nat)
    requires i < n <= |items| && items[i].PushSub?
    ensures i in SubOrder(items, n)
    decreases n
  {
    var order := SubOrder(items, n - 1);
    if i < n - 1 {
      SubOrderComplete(items, n - 1, i);
      if items[n - 1].PushSub? {
        var p := InsertionPoint(SubIds(items, order), items[n - 1].id);
        assert order == order[..p] + order[p..];
      }
    }
  }

  // ---------------------------------------------------------------- patching

  predicate TagResolved(e: Env, positions: seq<Option<nat>>, operands: seq<nat>, i: nat)
    requires i < |e.asm.items| == |operands| && e.asm.items[i].PushTag?
  {
    TagTarget(e, positions, e.asm.items[i].data) == Some(operands[i]) && BytesRequired(operands[i]) <= e.tagWidth
  }

  /** Filling in the tags, with the four assertions of that loop. */
  method PatchTags(e: Env, bytecode: seq<Byte>, positions: seq<Option<nat>>, holes: seq<TagHole>,
                   ghost operands: seq<nat>, ghost trailer: seq<Byte>)
    returns (r: Result<seq<Byte>>, ghost patched: seq<nat>)
    requires GoodWidths(e) && |operands| == |e.asm.items| && holes == TagHoles(e, |operands|)
    requires bytecode == Code(e, operands, |operands|) + trailer
    ensures |patched| == |operands|
    ensures forall i :: 0 <= i < |operands| && !e.asm.items[i].PushTag? ==> patched[i] == operands[i]
    ensures r.Ok? ==> r.value == Code(e, patched, |patched|) + trailer
    ensures r.Ok? ==> forall i :: 0 <= i < |operands| && e.asm.items[i].PushTag? ==>
      TagResolved(e, positions, patched, i)
    ensures r.Err? ==> (r.error == BadTagReference || r.error == TagTooLarge) && SomeTagFails(e, positions)
    ensures r == Err(TagTooLarge) ==> SomeTagTooLarge(e, positions)
  {
    hide Code, Offset, TagSub, TagId, PieceBytes;
    ghost var idx := Indices(e.asm.items, TagRef, |operands|);
    TagHolesMatch(e, |operands|);
    var bytes := bytecode;
    patched := operands;
    for k := 0 to |holes|
      invariant |patched| == |operands| && bytes == Code(e, patched, |patched|) + trailer
      invariant forall i :: 0 <= i < |operands| && !e.asm.items[i].PushTag? ==> patched[i] == operands[i]
      invariant forall j :: 0 <= j < k ==> TagResolved(e, positions, patched, idx[j])
    {
      ghost var i := idx[k];
      assert TagHoleFor(e, i, holes[k]);
      if holes[k].sub != OWN && holes[k].sub >= |e.subs| {
        assert TagFails(e, positions, i);
        return Err(BadTagReference), patched;
      }
      var table := if holes[k].sub == OWN then positions else e.subs[holes[k].sub].tagPositions;
      if holes[k].tag >= |table| || table[holes[k].tag] == None {
        assert TagFails(e, positions, i);
        return Err(BadTagReference), patched;
      }
      var pos := table[holes[k].tag].value;
      var width := CountBytes(pos);
      if width > e.tagWidth {
        assert TagOverflows(e, positions, i) && TagFails(e, positions, i);
        return Err(TagTooLarge), patched;
      }
      PatchHoleBefore(e, patched, i, pos, trailer);
      bytes := StoreBigEndian(bytes, holes[k].pos, e.tagWidth, pos);
      patched := patched[i := pos];
    }
    forall i | 0 <= i < |operands| && e.asm.items[i].PushTag?
      ensures TagResolved(e, positions, patched, i)
    {
      IndicesComplete(e.asm.items, TagRef, |operands|, i);
    }
    return Ok(bytes), patched;
  }

  /** Filling in the size of the finished program. */
  method PatchSizes(e: Env, bytecode: seq<Byte>, holes: seq<nat>, ghost operands: seq<nat>, ghost trailer: seq<Byte>)
    returns (bytes: seq<Byte>, ghost patched: seq<nat>)
    requires GoodWidths(e) && |operands| == |e.asm.items| && holes == SizeHoles(e, |operands|)
    requires bytecode == Code(e, operands, |operands|) + trailer
    ensures |patched| == |operands| && bytes == Code(e, patched, |patched|) + trailer && |bytes| == |bytecode|
    ensures forall i :: 0 <= i < |operands| ==>
              patched[i] == if e.asm.items[i].PushProgramSize? then |bytecode| else operands[i]
  {
    hide Code, Offset, PieceBytes;
    ghost var idx := Indices(e.asm.items, SizeRef, |operands|);
    SizeHolesMatch(e, |operands|);
    bytes := bytecode;
    patched := operands;
    for k := 0 to |holes|
      invariant |patched| == |operands| && bytes == Code(e, patched, |patched|) + trailer && |bytes| == |bytecode|
      invariant forall i :: 0 <= i < |operands| && !e.asm.items[i].PushProgramSize? ==> patched[i] == operands[i]
      invariant forall j :: 0 <= j < k ==> patched[idx[j]] == |bytecode|
    {
      assert SizeHoleFor(e, idx[k], holes[k]);
      PatchHoleBefore(e, patched, idx[k], |bytecode|, trailer);
      bytes := StoreBigEndian(bytes, holes[k], e.refWidth, |bytes|);
      patched := patched[idx[k] := |bytecode|];
    }
    forall i | 0 <= i < |operands| && e.asm.items[i].PushProgramSize?
      ensures patched[i] == |bytecode|
    {
      IndicesComplete(e.asm.items, SizeRef, |operands|, i);
    }
  }

  ghost predicate SubsResolved(e: Env, operands: seq<nat>, k: nat)
    requires k <= |SubOrder(e.asm.items, |e.asm.items|)| && |operands| == |e.asm.items|
  {
    forall j :: 0 <= j < k ==> operands[SubOrder(e.asm.items, |e.asm.items|)[j]] == SubOffset(e, j)
  }

  lemma NoSubCopies(e: Env)
    ensures SubCopies(e, 0) == [] && AllLinks(e, 0) == OwnLinks(e, |e.asm.items|)
  {
  }

  lemma SubCopyStep(e: Env, k: nat, sub: Assembled)
    requires k < |SubOrder(e.asm.items, |e.asm.items|)|
    requires SubById(e.subs, e.asm.subPaths, e.asm.items[SubOrder(e.asm.items, |e.asm.items|)[k]].id) == Some(sub)
    ensures SubCopies(e, k + 1) == SubCopies(e, k) + sub.linked.bytecode
    ensures AllLinks(e, k + 1) == AllLinks(e, k) + Shifted(sub.linked.linkReferences, SubOffset(e, k))
  {
  }

  /** A PushSub that names no sub-assembly. */
  predicate SubFails(e: Env, i: nat) {
    i < |e.asm.items| && e.asm.items[i].PushSub? && SubById(e.subs, e.asm.subPaths, e.asm.items[i].id) == None
  }

  /** Appending one copy of a sub-assembly per reference and filling in where it starts. */
  method AppendSubs(e: Env, bytecode: seq<Byte>, links: map<nat, string>, holes: seq<SubHole>, ghost operands: seq<nat>)
    returns (r: Result<(seq<Byte>, map<nat, string>)>, ghost patched: seq<nat>)
    requires GoodWidths(e) && |operands| == |e.asm.items| && holes == SubHoles(e, |operands|)
    requires bytecode == Code(e, operands, |operands|) + Marker(e)
    requires links == OwnLinks(e, |operands|)
    ensures |patched| == |operands|
    ensures forall i :: 0 <= i < |operands| && !e.asm.items[i].PushSub? ==> patched[i] == operands[i]
    ensures r.Ok? ==> r.value.0 == Code(e, patched, |patched|) + (Marker(e) + AllSubCopies(e))
    ensures r.Ok? ==> r.value.1 == AllLinks(e, |SubOrder(e.asm.items, |e.asm.items|)|)
    ensures r.Ok? ==> SubsResolved(e, patched, |SubOrder(e.asm.items, |e.asm.items|)|)
    ensures r.Ok? ==> forall i :: 0 <= i < |operands| && e.asm.items[i].PushSub? ==>
                        SubById(e.subs, e.asm.subPaths, e.asm.items[i].id).Some?
    ensures r.Err? ==> r.error == BadSub && exists i :: 0 <= i < |operands| && SubFails(e, i)
  {
    NoSubCopies(e);
    hide Code, Offset, PieceBytes, OwnLinks, Marker, Shifted, SubOrder, SubHoles, SubById, SubCopies, AllLinks;
    ghost var order := SubOrder(e.asm.items, |operands|);
    SubHolesMatch(e, |operands|);
    SubOrderDistinct(e.asm.items, |operands|);
    var bytes, names := bytecode, links;
    patched := operands;
    assert bytes == Code(e, patched, |patched|) + (Marker(e) + SubCopies(e, 0));
    for k := 0 to |holes|
      invariant |patched| == |operands| && bytes == Code(e, patched, |patched|) + (Marker(e) + SubCopies(e, k))
      invariant names == AllLinks(e, k)
      invariant forall i :: 0 <= i < |operands| && !e.asm.items[i].PushSub? ==> patched[i] == operands[i]
      invariant SubsResolved(e, patched, k)
      invariant forall j :: 0 <= j < k ==> SubById(e.subs, e.asm.subPaths, e.asm.items[order[j]].id).Some?
    {
      ghost var i, trailer := order[k], Marker(e) + SubCopies(e, k);
      assert SubHoleFor(e, i, holes[k]);
      PatchHoleBefore(e, patched, i, SubOffset(e, k), trailer);
      assert |bytes| == SubOffset(e, k);
      bytes := StoreBigEndian(bytes, holes[k].pos, e.refWidth, |bytes|);
      patched := patched[i := SubOffset(e, k)];
      var sub := SubById(e.subs, e.asm.subPaths, holes[k].id);
      if sub == None {
        assert SubFails(e, i);
        return Err(BadSub), patched;
      }
      SubCopyStep(e, k, sub.value);
      names := names + Shifted(sub.value.linked.linkReferences, |bytes|);
      ghost var code, copy := Code(e, patched, |patched|), sub.value.linked.bytecode;
      assert code + trailer + copy == code + (Marker(e) + (SubCopies(e, k) + copy));
      bytes := bytes + sub.value.linked.bytecode;
    }
    forall i | 0 <= i < |operands| && e.asm.items[i].PushSub?
      ensures SubById(e.subs, e.asm.subPaths, e.asm.items[i].id).Some?
    {
      SubOrderComplete(e.asm.items, |operands|, i);
    }
    return Ok((bytes, names)), patched;
  }

  ghost predicate DataResolved(e: Env, operands: seq<nat>, k: nat)
    requires k <= |e.asm.data| && |operands| == |e.asm.items|
  {
    forall i, j :: 0 <= i < |operands| && 0 <= j < k && e.asm.items[i] == PushData(e.asm.data[j].hash) ==>
      operands[i] == DataOffset(e, j)
  }

  /** Filling in the place of one data object wherever it is referred to. */
  method PatchData(e: Env, bytecode: seq<Byte>, hash: U256, holes: seq<DataHole>, ghost operands: seq<nat>,
      ghost trailer: seq<Byte>)
    returns (bytes: seq<Byte>, referenced: bool, ghost patched: seq<nat>)
    requires GoodWidths(e) && |operands| == |e.asm.items| && holes == DataHoles(e, |operands|)
    requires bytecode == Code(e, operands, |operands|) + trailer
    ensures |patched| == |operands| && bytes == Code(e, patched, |patched|) + trailer
    ensures forall i :: 0 <= i < |operands| ==>
              patched[i] == if e.asm.items[i] == PushData(hash) then |bytecode| else operands[i]
    ensures referenced <==> IsReferenced(e.asm.items, hash)
  {
    hide Code, Offset, PieceBytes;
    ghost var idx := Indices(e.asm.items, DataRef, |operands|);
    DataHolesMatch(e, |operands|);
    bytes, referenced := bytecode, false;
    patched := operands;
    for k := 0 to |holes|
      invariant |patched| == |operands| && bytes == Code(e, patched, |patched|) + trailer && |bytes| == |bytecode|
      invariant forall i :: 0 <= i < |operands| && e.asm.items[i] != PushData(hash) ==> patched[i] == operands[i]
      invariant forall j :: 0 <= j < k && e.asm.items[idx[j]] == PushData(hash) ==> patched[idx[j]] == |bytecode|
      invariant referenced <==> exists j :: 0 <= j < k && e.asm.items[idx[j]] == PushData(hash)
    {
      assert DataHoleFor(e, idx[k], holes[k]);
      if holes[k].hash == hash {
        referenced := true;
        PatchHoleBefore(e, patched, idx[k], |bytecode|, trailer);
        bytes := StoreBigEndian(bytes, holes[k].pos, e.refWidth, |bytes|);
        patched := patched[idx[k] := |bytecode|];
      }
    }
    forall i | 0 <= i < |operands| && e.asm.items[i] == PushData(hash)
      ensures patched[i] == |bytecode| && referenced
    {
      IndicesComplete(e.asm.items, DataRef, |operands|, i);
      var j :| 0 <= j < |idx| && idx[j] == i;
      assert e.asm.items[idx[j]] == PushData(hash);
    }
  }

  /** Appending the data objects that are referred to. */
  method AppendData(e: Env, bytecode: seq<Byte>, holes: seq<DataHole>, ghost operands: seq<nat>)
    returns (bytes: seq<Byte>, ghost patched: seq<nat>)
    requires GoodWidths(e) && WellFormed(e.asm) && |operands| == |e.asm.items| && holes == DataHoles(e, |operands|)
    requires bytecode == Code(e, operands, |operands|) + (Marker(e) + AllSubCopies(e))
    ensures |patched| == |operands|
    ensures bytes == Code(e, patched, |patched|) + (Marker(e) + AllSubCopies(e) + DataBytes(e, |e.asm.data|))
    ensures forall i :: 0 <= i < |operands| && !e.asm.items[i].PushData? ==> patched[i] == operands[i]
    ensures DataResolved(e, patched, |e.asm.data|)
    ensures |bytes| == |bytecode| + |DataBytes(e, |e.asm.data|)|
    ensures forall i :: 0 <= i < |operands| && e.asm.items[i].PushData? && !KnownData(e.asm, e.asm.items[i].hash) ==>
              patched[i] == operands[i]
  {
    hide Code, Offset, PieceBytes, Marker, AllSubCopies, IsReferenced;
    ghost var front := Marker(e) + AllSubCopies(e);
    bytes := bytecode;
    patched := operands;
    assert front == front + DataBytes(e, 0);
    for k := 0 to |e.asm.data|
      invariant |patched| == |operands| && bytes == Code(e, patched, |patched|) + (front + DataBytes(e, k))
      invariant forall i :: 0 <= i < |operands| && !e.asm.items[i].PushData? ==> patched[i] == operands[i]
      invariant DataResolved(e, patched, k)
      invariant forall i ::
        0 <= i < |operands| && e.asm.items[i].PushData? && !KnownData(e.asm, e.asm.items[i].hash) ==>
        patched[i] == operands[i]
    {
      CodeLength(e, patched, |patched|);
      assert |bytes| == DataOffset(e, k);
      var referenced: bool;
      ghost var before := patched;
      bytes, referenced, patched := PatchData(e, bytes, e.asm.data[k].hash, holes, patched, front + DataBytes(e, k));
      if referenced {
        bytes := bytes + e.asm.data[k].bytes;
      }
      assert front + DataBytes(e, k + 1) ==
             front + DataBytes(e, k) + (if referenced then e.asm.data[k].bytes else []);
      assert bytes == Code(e, patched, |patched|) + (front + DataBytes(e, k + 1));
    }
    CodeLength(e, operands, |operands|);
    CodeLength(e, patched, |patched|);
  }

  // ---------------------------------------------------------------- the size estimate

  lemma {:induction false} EstimateLinear(items: seq<Item>, refs: map<U256, seq<nat>>, width: nat, n: nat)
    requires n <= |items|
    ensures ItemsEstimate(items, refs, width, n) <= ItemsEstimate(items, refs, 0, n) + n * width
  {
    if n > 0 {
      EstimateLinear(items, refs, width, n - 1);
      assert ItemEstimate(items[n - 1], refs, width) <= ItemEstimate(items[n - 1], refs, 0) + width;
      assert (n - 1) * width + width == n * width;
    }
  }

  /** A wide enough tag always fits the estimate made with it. */
  lemma SearchEnds(a: Assembly, refs: map<U256, seq<nat>>, width: nat)
    requires width >= EstimateAt(a, refs, 0) && width >= |a.items|
    ensures BytesRequired(EstimateAt(a, refs, width)) <= width
  {
    EstimateLinear(a.items, refs, width, |a.items|);
    MulMonotone(|a.items|, width, width);
    Pow256Exceeds(width);
    BytesRequiredExact(EstimateAt(a, refs, width), width);
  }

  /** One pass of the estimate over the data and the items. */
  method EstimateOnce(a: Assembly, refs: map<U256, seq<nat>>, width: nat) returns (ret: nat)
    ensures ret == EstimateAt(a, refs, width)
  {
    hide ItemEstimate;
    ret := 1;
    for k := 0 to |a.data|
      invariant ret == 1 + DataEstimate(a.data, k)
    {
      ret := ret + |a.data[k].bytes|;
    }
    for n := 0 to |a.items|
      invariant ret == 1 + DataEstimate(a.data, |a.data|) + ItemsEstimate(a.items, refs, width, n)
    {
      ret := ret + ItemEstimate(a.items[n], refs, width);
    }
  }

  /** `Assembly::bytesRequired`: the first width from `start` on that fits its
      own estimate. There is one for every assembly and every start. */
  method EstimateSize(a: Assembly, refs: map<U256, seq<nat>>, start: nat) returns (estimate: nat, width: nat)
    ensures width >= start
    ensures estimate == EstimateAt(a, refs, width) && BytesRequired(estimate) <= width
    ensures forall w :: start <= w < width ==> BytesRequired(EstimateAt(a, refs, w)) > w
  {
    hide EstimateAt, BytesRequired;
    var tagSize := start;
    while true
      invariant tagSize >= start
      invariant forall w :: start <= w < tagSize ==> BytesRequired(EstimateAt(a, refs, w)) > w
      decreases Max(EstimateAt(a, refs, 0), |a.items|) + start - tagSize
    {
      var ret := EstimateOnce(a, refs, tagSize);
      var width' := CountBytes(ret);
      if width' <= tagSize {
        return ret, tagSize;
      }
      if tagSize >= Max(EstimateAt(a, refs, 0), |a.items|) {
        SearchEnds(a, refs, tagSize);
      }
      tagSize := tagSize + 1;
    }
  }

  /** At most one of the first `n` subs reads immutables. */
  predicate OneReader(subs: seq<Assembled>, n: nat) {
    forall j, k :: 0 <= j < k < n <= |subs| ==>
      subs[j].linked.immutableReferences == map[] || subs[k].linked.immutableReferences == map[]
  }

  /** The first loop of `assemble`: the immutables the subs read, and the start
      of the width search. */
  method InspectSubs(subs: seq<Assembled>) returns (r: Result<(map<U256, seq<nat>>, nat)>)
    ensures r.Ok? ==> ReadBySubs(subs, r.value.0) && StartsAbove(subs, r.value.1)
    ensures r.Ok? ==> forall w: nat :: StartsAbove(subs, w) ==> w >= r.value.1
    ensures r.Ok? <==> OneReader(subs, |subs|)
    ensures r.Err? ==> r.error == SeveralSubsReadImmutables
  {
    var subTagSize, refs: map<U256, seq<nat>> := 1, map[];
    for k := 0 to |subs|
      invariant ReadBySubs(subs[..k], refs) && StartsAbove(subs[..k], subTagSize)
      invariant OneReader(subs, k)
      invariant refs != map[] ==> exists j :: 0 <= j < k && subs[j].linked.immutableReferences != map[]
      invariant forall w: nat :: StartsAbove(subs[..k], w) ==> w >= subTagSize
    {
      ghost var refs0 := refs;
      if subs[k].linked.immutableReferences != map[] {
        if refs != map[] {
          return Err(SeveralSubsReadImmutables);
        }
        refs := subs[k].linked.immutableReferences;
      }
      assert forall j :: 0 <= j < |subs[..k]| ==> subs[..k][j] == subs[j] == subs[..k + 1][j];
      assert subs[..k + 1][k] == subs[k];
      var positions := subs[k].tagPositions;
      ghost var before := subTagSize;
      ghost var seen := subs[..k + 1];
      forall w: nat | StartsAbove(seen, w) ensures StartsAbove(subs[..k], w) {
        assert forall j :: 0 <= j < k ==> seen[j] == subs[..k][j];
      }
      for t := 0 to |positions|
        invariant before <= subTagSize
        invariant forall w: nat :: StartsAbove(seen, w) ==> w >= subTagSize
        invariant forall s :: 0 <= s < t && positions[s].Some? ==> positions[s].value <= subTagSize
      {
        assert seen[k].tagPositions[t] == positions[t];
        if positions[t].Some? && positions[t].value > subTagSize {
          subTagSize := positions[t].value;
        }
      }
    }
    assert subs[..|subs|] == subs;
    return Ok((refs, subTagSize));
  }

  // ---------------------------------------------------------------- the estimate is sound

  lemma {:induction false} StoreAllSize(offsets: seq<nat>)
    requires forall k :: 0 <= k < |offsets| ==> 1 <= BytesRequired(offsets[k]) <= 8
    ensures |CodeOf(StoreAll(offsets))| <= 13 * |offsets|
  {
    hide StoreOne;
    if offsets != [] {
      var one, rest := StoreOne(offsets[0], |offsets| > 1), StoreAll(offsets[1..]);
      StoreOneCode(offsets[0], |offsets| > 1);
      StoreAllSize(offsets[1..]);
      CodeOfConcat(one, rest);
    }
  }

  /** `AssemblyItem::bytesRequired` bounds the bytes of an item exactly when the
      item is one of those listed in ItemCovered. */
  lemma PieceCovered(e: Env, width: nat, i: nat)
    requires GoodWidths(e) && OffsetsAreWords(e.refs) && i < |e.asm.items| && Emittable(e, i)
    ensures |PieceBytes(e, i, 0)| <= ItemEstimate(e.asm.items[i], e.refs, width) <==> ItemCovered(e, width, i)
  {
    var item := e.asm.items[i];
    if item.AssignImmutable? {
      var offsets := OffsetsAt(e, i);
      if offsets == [] {
        PlainCode(POP, POP);
      } else {
        StoreAllSize(offsets);
      }
    } else if |ItemInstrs(e, i, 0)| == 1 {
      CodeOfOne(ItemInstrs(e, i, 0)[0]);
      if item.Push? {
        PushWidth(item.data);
      }
    }
  }

  lemma {:induction false} CodeCovered(e: Env, width: nat, n: nat)
    requires GoodWidths(e) && EstimateCovers(e, width)
    requires n <= |e.asm.items| && forall i :: 0 <= i < n ==> Emittable(e, i)
    ensures Offset(e, n) <= ItemsEstimate(e.asm.items, e.refs, width, n)
  {
    hide PieceBytes, ItemEstimate, Emittable, ItemCovered, OffsetsAreWords;
    if n > 0 {
      CodeCovered(e, width, n - 1);
      PieceCovered(e, width, n - 1);
    }
  }

  lemma {:induction false} EstimateHasItem(items: seq<Item>, refs: map<U256, seq<nat>>, width: nat, n: nat, i: nat)
    requires i < n <= |items|
    ensures ItemsEstimate(items, refs, width, n) >= ItemEstimate(items[i], refs, width)
    decreases n
  {
    hide ItemEstimate;
    if i < n - 1 {
      EstimateHasItem(items, refs, width, n - 1, i);
    }
  }

  /** A tag of a sub-assembly always fits: the search started at its position,
      so the estimate counted at least that many bytes for this very item. */
  lemma ForeignTagFits(a: Assembly, subs: seq<Assembled>, e: Env, width: nat, positions: seq<Option<nat>>, i: nat)
    requires Prepared(a, subs, e, width) && i < |a.items| && a.items[i].PushTag? && TagSub(a.items[i].data) != OWN
    requires TagTarget(e, positions, a.items[i].data).Some?
    ensures BytesRequired(TagTarget(e, positions, a.items[i].data).value) <= e.tagWidth
  {
    hide TagSub, TagId, ItemsEstimate;
    var target := TagTarget(e, positions, a.items[i].data).value;
    assert target <= width;
    EstimateHasItem(a.items, e.refs, width, |a.items|, i);
    BytesRequiredMonotone(target, EstimateAt(a, e.refs, width));
  }

  /** A tag of the assembly itself fits whenever the estimate covers the code. */
  lemma OwnTagFits(a: Assembly, subs: seq<Assembled>, e: Env, width: nat, positions: seq<Option<nat>>, i: nat)
    requires Prepared(a, subs, e, width) && GoodWidths(e) && EstimateCovers(e, width)
    requires forall j :: 0 <= j < |a.items| ==> Emittable(e, j)
    requires TagTable(e, positions, |a.items|)
    requires i < |a.items| && a.items[i].PushTag? && TagSub(a.items[i].data) == OWN
    requires TagTarget(e, positions, a.items[i].data).Some?
    ensures BytesRequired(TagTarget(e, positions, a.items[i].data).value) <= e.tagWidth
  {
    hide TagSub, TagId, ItemsEstimate, Emittable, EstimateCovers, Offset;
    var target := TagTarget(e, positions, a.items[i].data).value;
    var at := TagOwner(e, positions, TagId(a.items[i].data));
    OffsetMonotone(e, at, |a.items|);
    CodeCovered(e, width, |a.items|);
    BytesRequiredMonotone(target, EstimateAt(a, e.refs, width));
  }

  /** The item a position in the table belongs to. */
  lemma TagOwner(e: Env, positions: seq<Option<nat>>, tag: nat) returns (i: nat)
    requires TagTable(e, positions, |e.asm.items|) && tag < |positions| && positions[tag].Some?
    ensures i < |e.asm.items| && positions[tag].value == Offset(e, i)
    ensures if tag == 0 then !e.asm.items[i].Tag? else e.asm.items[i].Tag? && e.asm.items[i].data == tag
  {
    hide Offset;
    if tag == 0 {
      i := FirstNonTag(e.asm.items, |e.asm.items|);
    } else {
      i :| 0 <= i < |e.asm.items| && e.asm.items[i].Tag? && e.asm.items[i].data == tag;
    }
  }

  // ---------------------------------------------------------------- assemble

  /** Each patching pass leaves the holes of the other kinds alone. */
  lemma EachPatchLasts(e: Env, positions: seq<Option<nat>>, subs: seq<nat>, tags: seq<nat>, data: seq<nat>,
      sizes: seq<nat>)
    requires |e.asm.items| == |subs| == |tags| == |data| == |sizes|
    requires SubsResolved(e, subs, |SubOrder(e.asm.items, |e.asm.items|)|)
    requires forall i :: 0 <= i < |tags| && !e.asm.items[i].PushTag? ==> tags[i] == subs[i]
    requires forall i :: 0 <= i < |tags| && e.asm.items[i].PushTag? ==> TagResolved(e, positions, tags, i)
    requires forall i :: 0 <= i < |data| && !e.asm.items[i].PushData? ==> data[i] == tags[i]
    requires DataResolved(e, data, |e.asm.data|)
    requires forall i :: 0 <= i < |data| && e.asm.items[i].PushData? ==> tags[i] == 0
    requires forall i :: 0 <= i < |data| && e.asm.items[i].PushData? && !KnownData(e.asm, e.asm.items[i].hash) ==>
      data[i] == tags[i]
    requires forall i :: 0 <= i < |sizes| ==>
      sizes[i] == if e.asm.items[i].PushProgramSize? then TotalSize(e) else data[i]
    ensures Resolved(e, positions, sizes)
  {
    hide TagTarget, TotalSize, DataOffset, SubOffset, SubOrder;
    forall i | 0 <= i < |sizes| && e.asm.items[i].PushTag?
      ensures TagResolved(e, positions, sizes, i)
    {
      assert TagResolved(e, positions, tags, i);
    }
    var order := SubOrder(e.asm.items, |e.asm.items|);
    forall k | 0 <= k < |order|
      ensures sizes[order[k]] == SubOffset(e, k)
    {
      assert e.asm.items[order[k]].PushSub?;
    }
  }

  /** Some PushTag refers to no position, or to one that does not fit. */
  ghost predicate SomeTagFails(e: Env, positions: seq<Option<nat>>) {
    exists i :: 0 <= i < |e.asm.items| && e.asm.items[i].PushTag? && TagFails(e, positions, i)
  }

  predicate TagFails(e: Env, positions: seq<Option<nat>>, i: nat)
    requires i < |e.asm.items| && e.asm.items[i].PushTag?
  {
    TagTarget(e, positions, e.asm.items[i].data) == None || TagOverflows(e, positions, i)
  }

  ghost predicate SomeTagTooLarge(e: Env, positions: seq<Option<nat>>) {
    exists i :: 0 <= i < |e.asm.items| && e.asm.items[i].PushTag? && TagOverflows(e, positions, i)
  }

  predicate TagOverflows(e: Env, positions: seq<Option<nat>>, i: nat)
    requires i < |e.asm.items| && e.asm.items[i].PushTag?
  {
    var target := TagTarget(e, positions, e.asm.items[i].data);
    target.Some? && BytesRequired(target.value) > e.tagWidth
  }

  /** The furthest position that the first `n` items push of the assembly's own tags. */
  function Furthest(e: Env, positions: seq<Option<nat>>, n: nat): nat
    requires n <= |e.asm.items|
  {
    if n == 0 then 0
    else
      var before := Furthest(e, positions, n - 1);
      if e.asm.items[n - 1].PushTag? && TagSub(e.asm.items[n - 1].data) == OWN then
        match TagTarget(e, positions, e.asm.items[n - 1].data)
        case None => before
        case Some(target) => if before < target then target else before
      else before
  }

  predicate PushesOwn(e: Env, positions: seq<Option<nat>>, i: nat) {
    i < |e.asm.items| && e.asm.items[i].PushTag? && TagSub(e.asm.items[i].data) == OWN &&
    TagTarget(e, positions, e.asm.items[i].data).Some?
  }

  lemma {:induction false} FurthestIsLargest(e: Env, positions: seq<Option<nat>>, n: nat, i: nat)
    requires i < n <= |e.asm.items| && PushesOwn(e, positions, i)
    ensures TagTarget(e, positions, e.asm.items[i].data).value <= Furthest(e, positions, n)
    decreases n
  {
    hide TagSub, TagTarget;
    if i < n - 1 {
      FurthestIsLargest(e, positions, n - 1, i);
    }
  }

  /** It is zero or the target of some item. */
  lemma {:induction false} FurthestIsPushed(e: Env, positions: seq<Option<nat>>, n: nat)
    requires n <= |e.asm.items|
    ensures Furthest(e, positions, n) == 0 || exists i ::
              0 <= i < n && PushesOwn(e, positions, i) &&
              TagTarget(e, positions, e.asm.items[i].data) == Some(Furthest(e, positions, n))
  {
    hide TagSub, TagTarget;
    if n > 0 {
      FurthestIsPushed(e, positions, n - 1);
      if PushesOwn(e, positions, n - 1) {
        assert TagTarget(e, positions, e.asm.items[n - 1].data).Some?;
      }
    }
  }

  /** "Tag too large for reserved space" fires if and only if the furthest of the
      assembly's own tags does not fit: those of sub-assemblies always do. */
  lemma TagTooLargeExactly(a: Assembly, subs: seq<Assembled>, e: Env, width: nat, positions: seq<Option<nat>>)
    requires Prepared(a, subs, e, width)
    ensures SomeTagTooLarge(e, positions) <==> Furthest(e, positions, |a.items|) >= Pow256(e.tagWidth)
  {
    hide TagSub, TagTarget, Furthest, BytesRequired, Pow256;
    var furthest := Furthest(e, positions, |a.items|);
    if SomeTagTooLarge(e, positions) {
      var i :| 0 <= i < |a.items| && a.items[i].PushTag? && TagOverflows(e, positions, i);
      if TagSub(a.items[i].data) != OWN {
        ForeignTagFits(a, subs, e, width, positions, i);
      }
      FurthestIsLargest(e, positions, |a.items|, i);
      BytesRequiredExact(TagTarget(e, positions, a.items[i].data).value, e.tagWidth);
    }
    if furthest >= Pow256(e.tagWidth) {
      FurthestIsPushed(e, positions, |a.items|);
      Pow256Positive(e.tagWidth);
      var i :| 0 <= i < |a.items| && PushesOwn(e, positions, i) &&
          TagTarget(e, positions, a.items[i].data) == Some(furthest);
      BytesRequiredExact(furthest, e.tagWidth);
      assert TagOverflows(e, positions, i);
    }
  }

  lemma Pow256Positive(n: nat)
    ensures Pow256(n) > 0
  {
  }

  /** It cannot fire where the estimate covers the code. */
  lemma NoTagOverflows(a: Assembly, subs: seq<Assembled>, e: Env, width: nat, positions: seq<Option<nat>>)
    requires Prepared(a, subs, e, width) && GoodWidths(e) && EstimateCovers(e, width)
    requires TagTable(e, positions, |a.items|) && forall j :: 0 <= j < |a.items| ==> Emittable(e, j)
    ensures Furthest(e, positions, |a.items|) < Pow256(e.tagWidth) && !SomeTagTooLarge(e, positions)
  {
    hide TagSub, TagTarget, Emittable, TagTable, EstimateCovers, Prepared, Furthest, BytesRequired, Pow256;
    PreparedFor(a, subs, e, width);
    var furthest := Furthest(e, positions, |a.items|);
    FurthestIsPushed(e, positions, |a.items|);
    Pow256Positive(e.tagWidth);
    if furthest > 0 {
      var i :| 0 <= i < |a.items| && PushesOwn(e, positions, i) &&
          TagTarget(e, positions, a.items[i].data) == Some(furthest);
      OwnTagFits(a, subs, e, width, positions, i);
      BytesRequiredExact(furthest, e.tagWidth);
    }
    TagTooLargeExactly(a, subs, e, width, positions);
  }

  lemma PreparedFor(a: Assembly, subs: seq<Assembled>, e: Env, width: nat)
    requires Prepared(a, subs, e, width)
    ensures e.asm == a
  {
  }

  /** Appending and patching, from the end of the main loop on. */
  method PatchAll(e: Env, bytecode: seq<Byte>, positions: seq<Option<nat>>, links: map<nat, string>, holes: Holes)
    returns (r: Result<(seq<Byte>, map<nat, string>)>, ghost operands: seq<nat>)
    requires GoodWidths(e) && WellFormed(e.asm) && HolesAt(e, holes, |e.asm.items|)
    requires bytecode == Code(e, Zeros(|e.asm.items|), |e.asm.items|) + Marker(e)
    requires links == OwnLinks(e, |e.asm.items|)
    ensures |operands| == |e.asm.items|
    ensures r.Ok? ==> r.value.0 == Code(e, operands, |operands|) + Trailer(e) && Resolved(e, positions, operands)
    ensures r.Ok? ==> r.value.1 == AllLinks(e, |SubOrder(e.asm.items, |e.asm.items|)|)
    ensures r.Ok? ==> forall i :: 0 <= i < |e.asm.items| && e.asm.items[i].PushSub? ==>
                        SubById(e.subs, e.asm.subPaths, e.asm.items[i].id).Some?
    ensures r.Err? ==> SomeTagFails(e, positions) || exists i :: 0 <= i < |e.asm.items| && SubFails(e, i)
    ensures r == Err(TagTooLarge) ==> SomeTagTooLarge(e, positions)
    ensures r != Err(ImmutablesNeverAssigned)
  {
    hide Code, PieceBytes, HolesAt, OwnLinks, AllLinks, TagTarget, WellFormed, SubById, SubOrder, Resolved, TagResolved;
    hide SubsResolved, DataResolved, Marker, SubCopies, DataBytes, Offset, SomeTagFails, SubFails, KnownData;
    HolesOf(e, holes);
    operands := Zeros(|e.asm.items|);
    var appended, o1 := AppendSubs(e, bytecode, links, holes.subs, operands);
    if appended.Err? {
      return Err(appended.error), operands;
    }
    var tagged, o2 := PatchTags(e, appended.value.0, positions, holes.tags, o1, Marker(e) + AllSubCopies(e));
    if tagged.Err? {
      return Err(tagged.error), operands;
    }
    var filled, o3 := AppendData(e, tagged.value, holes.data, o2);
    TrailerFollows(e, o3);
    var sized, o4 := PatchSizes(e, filled + e.asm.auxiliary, holes.sizes, o3, Trailer(e));
    EachPatchLasts(e, positions, o1, o2, o3, o4);
    return Ok((sized, appended.value.1)), o4;
  }

  lemma TrailerFollows(e: Env, operands: seq<nat>)
    requires |operands| == |e.asm.items|
    ensures Code(e, operands, |operands|) + (Marker(e) + AllSubCopies(e) + DataBytes(e, |e.asm.data|)) +
      e.asm.auxiliary ==
            Code(e, operands, |operands|) + Trailer(e)
    ensures |Code(e, operands, |operands|) + Trailer(e)| == TotalSize(e)
  {
    hide Code, Marker, AllSubCopies, DataBytes;
    CodeLength(e, operands, |operands|);
  }

  predicate AllAssigned(e: Env) {
    forall id :: id in e.refs ==> id in AssignedIds(e.asm.items, |e.asm.items|)
  }

  lemma UnassignedEmpty(e: Env, unassigned: map<U256, seq<nat>>)
    requires UnassignedAt(e, unassigned, |e.asm.items|)
    ensures unassigned == map[] <==> AllAssigned(e)
  {
    hide AssignedIds;
    if id :| id in unassigned {
      assert !AllAssigned(e);
    } else {
      forall id | id in e.refs
        ensures id in AssignedIds(e.asm.items, |e.asm.items|)
      {
        assert id !in unassigned;
      }
      assert unassigned == map[];
    }
  }

  lemma NeverAssigned(e: Env)
    requires !AllAssigned(e)
    ensures NoLayout(e)
  {
    hide Code, Trailer, Emittable, TagTable, Resolved, AllLinks, SubOrder, ImmutableReads, AssignedIds;
  }

  lemma TagTableIncludes(e: Env, p: seq<Option<nat>>, q: seq<Option<nat>>, t: nat)
    requires TagTable(e, p, |e.asm.items|) && TagTable(e, q, |e.asm.items|) && t < |p|
    ensures |q| == |p| && (p[t].Some? ==> q[t] == p[t])
  {
    hide Offset;
    if 0 < t && p[t].Some? {
      var i :| 0 <= i < |e.asm.items| && e.asm.items[i].Tag? && e.asm.items[i].data == t;
    }
  }

  /** The items determine the table of tag positions. */
  lemma TagTableUnique(e: Env, p: seq<Option<nat>>, q: seq<Option<nat>>)
    requires TagTable(e, p, |e.asm.items|) && TagTable(e, q, |e.asm.items|)
    ensures p == q
  {
    assert |p| == |q|;
    hide TagTable;
    forall t | 0 <= t < |p| ensures p[t] == q[t] {
      TagTableIncludes(e, p, q, t);
      TagTableIncludes(e, q, p, t);
    }
  }

  lemma FailsToPatch(e: Env, positions: seq<Option<nat>>)
    requires TagTable(e, positions, |e.asm.items|)
    requires SomeTagFails(e, positions) || exists i :: 0 <= i < |e.asm.items| && SubFails(e, i)
    ensures NoLayout(e)
  {
    forall operands, out | Laid(e, operands, out) ensures false {
      TagTableUnique(e, out.tagPositions, positions);
      LaidTagsFit(e, operands, out);
      hide Code, Trailer, Emittable, TagTable, Resolved, AllLinks, SubOrder, ImmutableReads, AssignedIds, SubById;
    }
  }

  lemma LaidTagsFit(e: Env, operands: seq<nat>, out: Assembled)
    requires Laid(e, operands, out)
    ensures !SomeTagFails(e, out.tagPositions)
  {
    hide Code, Trailer, Emittable, TagTable, AllLinks, SubOrder, ImmutableReads, AssignedIds, TagTarget;
  }

  /** The part of `assemble` after the main loop. */
  method Finish(e: Env, m: Emission) returns (r: Result<Assembled>, ghost operands: seq<nat>)
    requires GoodWidths(e) && WellFormed(e.asm) && EmissionAt(e, m, |e.asm.items|)
    ensures r.Ok? ==> Laid(e, operands, r.value)
    ensures r.Err? ==> NoLayout(e)
    ensures r == Err(TagTooLarge) ==> SomeTagTooLarge(e, m.positions)
    ensures r == Err(ImmutablesNeverAssigned) <==> !AllAssigned(e)
  {
    hide Code, PieceBytes, Emittable, TagTable, HolesAt, OwnLinks, AllLinks, ImmutableReads, UnassignedAt, AssignedIds;
    hide WellFormed, SubById, SubOrder, Resolved, SomeTagTooLarge, Trailer, SomeTagFails, SubFails, NoLayout;
    UnassignedEmpty(e, m.names.unassigned);
    if m.names.unassigned != map[] {
      NeverAssigned(e);
      return Err(ImmutablesNeverAssigned), [];
    }
    var bytes := m.bytecode;
    if e.asm.subs != [] || e.asm.data != [] || e.asm.auxiliary != [] {
      bytes := bytes + [INVALID];
    }
    assert bytes == Code(e, Zeros(|e.asm.items|), |e.asm.items|) + Marker(e);
    var patched;
    patched, operands := PatchAll(e, bytes, m.positions, m.names.links, m.holes);
    if patched.Err? {
      FailsToPatch(e, m.positions);
      return Err(patched.error), operands;
    }
    r := Ok(Assembled(LinkerObject(patched.value.0, patched.value.1, m.names.immutableReads), m.positions, e.subs));
  }

  lemma HolesOf(e: Env, holes: Holes)
    requires HolesAt(e, holes, |e.asm.items|)
    ensures holes == Holes(TagHoles(e, |e.asm.items|), DataHoles(e, |e.asm.items|), SubHoles(e, |e.asm.items|),
      SizeHoles(e, |e.asm.items|))
  {
  }

  /** `assemble` once all sub-assemblies are assembled: it gives an object that
      meets the description, and fails exactly where there is none. */
  method AssembleOne(a: Assembly, subs: seq<Assembled>) returns (r: Result<Assembled>)
    requires WellFormed(a)
    ensures r.Ok? ==> CorrectOne(a, subs, r.value)
    ensures r.Err? ==> forall out :: !CorrectOne(a, subs, out)
    ensures r == Err(TagTooLarge) ==> exists e, width, positions :: TagsOverflow(a, subs, e, width, positions)
    ensures r == Err(ImmutablesNeverAssigned) ==> exists e, width :: Prepared(a, subs, e, width) && !AllAssigned(e)
  {
    hide EmissionAt, ReadBySubs, StartsAbove, EstimateAt, EstimateCovers, Laid, SubSizes, SomeTagTooLarge, TagTable,
        Emittable;
    hide AllAssigned, NoLayout;
    if a.invalid {
      return Err(InvalidAssembly);
    }
    var inspected := InspectSubs(subs);
    if inspected.Err? {
      return Err(inspected.error);
    }
    var (refs, subTagSize) := inspected.value;
    if (exists i :: 0 <= i < |a.items| && a.items[i].AssignImmutable?) &&
       (exists i :: 0 <= i < |a.items| && a.items[i].PushImmutable?) {
      return Err(PushesAndAssignsImmutables);
    }
    var estimate, width := EstimateSize(a, refs, subTagSize);
    WiderStarts(subs, subTagSize, width);
    var bytesPerTag := CountBytes(estimate);
    var total := SumSubs(subs, estimate + 1 + |a.auxiliary|);
    var bytesPerDataRef := CountBytes(total);
    var e := Env(a, subs, refs, bytesPerTag, bytesPerDataRef);
    assert Prepared(a, subs, e, width);
    if !GoodWidths(e) {
      BadWidths(e);
      NothingCorrect(a, subs, e, width);
      return Err(WidthOutOfRange);
    }
    var emitted := Emit(e);
    if emitted.Err? {
      NothingCorrect(a, subs, e, width);
      return Err(emitted.error);
    }
    ghost var operands;
    r, operands := Finish(e, emitted.value);
    if r.Err? {
      NothingCorrect(a, subs, e, width);
    }
    if r == Err(TagTooLarge) {
      EmittedAll(e, emitted.value);
      TagTooLargeExactly(a, subs, e, width, emitted.value.positions);
      OverflowIsUncovered(a, subs, e, width, emitted.value.positions);
    }
  }

  /** The furthest of the assembly's own tags does not fit, and so the estimate
      does not cover all items. */
  ghost predicate TagsOverflow(a: Assembly, subs: seq<Assembled>, e: Env, width: nat, positions: seq<Option<nat>>) {
    Prepared(a, subs, e, width) && TagTable(e, positions, |a.items|) &&
    Furthest(e, positions, |a.items|) >= Pow256(e.tagWidth) && !EstimateCovers(e, width)
  }

  lemma OverflowIsUncovered(a: Assembly, subs: seq<Assembled>, e: Env, width: nat, positions: seq<Option<nat>>)
    requires Prepared(a, subs, e, width) && GoodWidths(e) && TagTable(e, positions, |a.items|)
    requires forall j :: 0 <= j < |a.items| ==> Emittable(e, j)
    requires Furthest(e, positions, |a.items|) >= Pow256(e.tagWidth)
    ensures TagsOverflow(a, subs, e, width, positions)
  {
    hide Prepared, TagTable, Furthest, EstimateCovers, Emittable;
    if EstimateCovers(e, width) {
      NoTagOverflows(a, subs, e, width, positions);
    }
  }

  lemma BadWidths(e: Env)
    requires !GoodWidths(e)
    ensures NoLayout(e)
  {
    hide Code, Trailer, Emittable, TagTable, Resolved, AllLinks, SubOrder, ImmutableReads, AssignedIds;
  }

  /** The environment of `assemble` is determined by the assembly and its subs. */
  lemma PreparedUnique(a: Assembly, subs: seq<Assembled>, e: Env, width: nat, f: Env, other: nat)
    requires Prepared(a, subs, e, width) && Prepared(a, subs, f, other)
    ensures e == f && width == other
  {
    hide EstimateAt, BytesRequired, StartsAbove;
    assert e.refs == f.refs;
    StartsPositive(subs, width);
    StartsPositive(subs, other);
  }

  lemma StartsPositive(subs: seq<Assembled>, width: nat)
    requires StartsAbove(subs, width)
    ensures width >= 1
  {
  }

  lemma NothingCorrect(a: Assembly, subs: seq<Assembled>, e: Env, width: nat)
    requires Prepared(a, subs, e, width) && NoLayout(e)
    ensures forall out :: !CorrectOne(a, subs, out)
  {
    hide Laid, Prepared, Admissible;
    forall out | CorrectOne(a, subs, out) ensures false {
      var f, other, operands :| Prepared(a, subs, f, other) && Laid(f, operands, out);
      PreparedUnique(a, subs, e, width, f, other);
    }
  }

  lemma EmittedAll(e: Env, m: Emission)
    requires EmissionAt(e, m, |e.asm.items|)
    ensures TagTable(e, m.positions, |e.asm.items|)
    ensures forall i :: 0 <= i < |e.asm.items| ==> Emittable(e, i)
  {
  }

  lemma WiderStarts(subs: seq<Assembled>, start: nat, width: nat)
    requires StartsAbove(subs, start) && start <= width
    ensures StartsAbove(subs, width)
  {
  }

  method SumSubs(subs: seq<Assembled>, start: nat) returns (total: nat)
    ensures total == start + SubSizes(subs, |subs|)
  {
    total := start;
    for k := 0 to |subs|
      invariant total == start + SubSizes(subs, k)
    {
      total := total + |subs[k].linked.bytecode|;
    }
  }

  /** `Assembly::assemble` on a tree of assemblies: it gives a tree in which every
      assembly is laid out as module AssemblyModel describes, and fails exactly
      where there is none. */
  method Assemble(a: Assembly) returns (r: Result<Assembled>)
    requires WellFormed(a)
    ensures r.Ok? ==> Correct(a, r.value)
    ensures r.Err? ==> forall out :: !Correct(a, out)
  {
    hide Correct, CorrectOne;
    if a.invalid {
      InvalidFails(a);
      return Err(InvalidAssembly);
    }
    var subs: seq<Assembled> := [];
    for k := 0 to |a.subs|
      invariant |subs| == k
      invariant forall j :: 0 <= j < k ==> Correct(a.subs[j], subs[j])
    {
      var sub := Assemble(a.subs[k]);
      if sub.Err? {
        SubFailsTree(a, k);
        return sub;
      }
      subs := subs + [sub.value];
    }
    r := AssembleOne(a, subs);
    if r.Ok? {
      TreeIsCorrect(a, subs, r.value);
    } else {
      TreeFails(a, subs);
    }
  }

  lemma InvalidFails(a: Assembly)
    requires a.invalid
    ensures forall out :: !Correct(a, out)
  {
  }

  lemma SubFailsTree(a: Assembly, k: nat)
    requires k < |a.subs| && forall out :: !Correct(a.subs[k], out)
    ensures forall out :: !Correct(a, out)
  {
    hide CorrectOne;
    forall out | Correct(a, out) ensures false {
      SubIsCorrect(a, out, k);
    }
  }

  lemma SubIsCorrect(a: Assembly, out: Assembled, k: nat)
    requires Correct(a, out) && k < |a.subs|
    ensures |out.subs| == |a.subs| && Correct(a.subs[k], out.subs[k])
  {
    hide CorrectOne;
  }

  lemma TreeIsCorrect(a: Assembly, subs: seq<Assembled>, out: Assembled)
    requires |subs| == |a.subs| && forall k :: 0 <= k < |subs| ==> Correct(a.subs[k], subs[k])
    requires CorrectOne(a, subs, out)
    ensures Correct(a, out)
  {
    assert out.subs == subs;
  }

  lemma TreeFails(a: Assembly, subs: seq<Assembled>)
    requires |subs| == |a.subs| && forall k :: 0 <= k < |subs| ==> Correct(a.subs[k], subs[k])
    requires WellFormed(a) && forall out :: !CorrectOne(a, subs, out)
    ensures forall out :: !Correct(a, out)
  {
    hide CorrectOne;
    forall out | Correct(a, out) ensures CorrectOne(a, subs, out) {
      SubsAreUnique(a, subs, out);
    }
  }

  lemma SubsAreUnique(a: Assembly, subs: seq<Assembled>, out: Assembled)
    requires |subs| == |a.subs| && (forall k :: 0 <= k < |subs| ==> Correct(a.subs[k], subs[k])) && Correct(a, out)
    ensures subs == out.subs
  {
    hide CorrectOne;
    forall k | 0 <= k < |subs| ensures subs[k] == out.subs[k] {
      CorrectIsUnique(a.subs[k], subs[k], out.subs[k]);
    }
  }

  // ---------------------------------------------------------------- the description has one solution

  /** Only the operands of references show in the code. */
  lemma {:induction false} CodeAgrees(e: Env, xs: seq<nat>, ys: seq<nat>, n: nat)
    requires n <= |e.asm.items| == |xs| == |ys|
    requires forall i :: 0 <= i < n && KindOf(e.asm.items[i]) != Plain ==> xs[i] == ys[i]
    ensures Code(e, xs, n) == Code(e, ys, n)
  {
    hide PieceBytes;
    if n > 0 {
      CodeAgrees(e, xs, ys, n - 1);
      PlainPiece(e, n - 1, xs[n - 1], ys[n - 1]);
    }
  }

  lemma PlainPiece(e: Env, i: nat, x: nat, y: nat)
    requires i < |e.asm.items| && (KindOf(e.asm.items[i]) != Plain ==> x == y)
    ensures PieceBytes(e, i, x) == PieceBytes(e, i, y)
  {
    hide CodeOf;
  }

  lemma OperandsAgree(e: Env, positions: seq<Option<nat>>, xs: seq<nat>, ys: seq<nat>, i: nat)
    requires i < |e.asm.items| == |xs| == |ys| && Resolved(e, positions, xs) && Resolved(e, positions, ys)
    requires KindOf(e.asm.items[i]) != Plain
    ensures xs[i] == ys[i]
  {
    hide TagTarget, SubOffset, DataOffset, TotalSize, BytesRequired;
    var item := e.asm.items[i];
    if item.PushSub? {
      SubOrderComplete(e.asm.items, |e.asm.items|, i);
      hide SubOrder;
      var k :| 0 <= k < |SubOrder(e.asm.items, |e.asm.items|)| && SubOrder(e.asm.items, |e.asm.items|)[k] == i;
    } else if item.PushData? && KnownData(e.asm, item.hash) {
      var k :| 0 <= k < |e.asm.data| && e.asm.data[k].hash == item.hash;
      assert item == PushData(e.asm.data[k].hash);
    }
  }

  lemma LaidIsUnique(e: Env, xs: seq<nat>, x: Assembled, ys: seq<nat>, y: Assembled)
    requires Laid(e, xs, x) && Laid(e, ys, y)
    ensures x == y
  {
    TagTableUnique(e, x.tagPositions, y.tagPositions);
    hide Emittable, TagTable, AllLinks, ImmutableReads, AssignedIds, Trailer, Code, SubOrder;
    forall i | 0 <= i < |xs| && KindOf(e.asm.items[i]) != Plain ensures xs[i] == ys[i] {
      OperandsAgree(e, x.tagPositions, xs, ys, i);
    }
    hide Resolved;
    CodeAgrees(e, xs, ys, |xs|);
  }

  /** There is at most one correct result for an assembly. */
  lemma {:induction false} CorrectIsUnique(a: Assembly, x: Assembled, y: Assembled)
    requires Correct(a, x) && Correct(a, y)
    ensures x == y
    decreases a
  {
    forall k | 0 <= k < |a.subs| ensures x.subs[k] == y.subs[k] {
      CorrectIsUnique(a.subs[k], x.subs[k], y.subs[k]);
    }
    assert x.subs == y.subs;
    hide Laid, Prepared, Admissible;
    var e, width, xs :| Prepared(a, x.subs, e, width) && Laid(e, xs, x);
    var f, other, ys :| Prepared(a, y.subs, f, other) && Laid(f, ys, y);
    PreparedUnique(a, x.subs, e, width, f, other);
    LaidIsUnique(e, xs, x, ys, y);
  }
}
