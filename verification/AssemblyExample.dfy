/**
 A small tree of assemblies for which the description of module AssemblyModel is
 worked out by hand: a constructor that assigns an immutable, refers to its
 runtime code, to a tag in it and to data.
 */
module AssemblyExample {
  import opened Wrappers
  import opened Bytes
  import opened Instructions
  import opened AssemblyModel
  import opened Assembler
  import opened AssemblyTheorems
  import opened AssemblyPlacement
  import opened AssemblyEstimate
  import opened Immutables

  /** The object a setting, operands and tag positions describe. */
  ghost function ObjectOf(e: Env, operands: seq<nat>, positions: seq<Option<nat>>): Assembled
    requires |operands| == |e.asm.items|
  {
    Assembled(
      LinkerObject(Code(e, operands, |operands|) + Trailer(e), AllLinks(e, |Order(e)|), ImmutableReads(e, |operands|)),
      positions, e.subs)
  }

  lemma ObjectIsLaid(e: Env, operands: seq<nat>, positions: seq<Option<nat>>)
    requires |operands| == |e.asm.items| && GoodWidths(e)
    requires forall i :: 0 <= i < |e.asm.items| ==> Emittable(e, i) && !SubFails(e, i)
    requires TagTable(e, positions, |e.asm.items|) && Resolved(e, positions, operands) && AllAssigned(e)
    ensures Laid(e, operands, ObjectOf(e, operands, positions))
  {
    hide Emittable, TagTable, Resolved, Code, Trailer, AllLinks, ImmutableReads, SubOrder, AssignedIds, SubById;
    forall i | 0 <= i < |e.asm.items| && e.asm.items[i].PushSub?
      ensures SubById(e.subs, e.asm.subPaths, e.asm.items[i].id).Some?
    {
      assert !SubFails(e, i);
    }
  }

  // ---------------------------------------------------------------- the runtime code

  const RUNTIME := Assembly(false, 2, [PushImmutable(7), Tag(1)], [], [], [], map[], map[], map[7 := "x"], [])
  const RUNTIME_SETTING := Env(RUNTIME, [], map[], 1, 1)
  const RUNTIME_TAGS: seq<Option<nat>> := [Some(0), Some(33)]

  ghost function Runtime(): Assembled {
    ObjectOf(RUNTIME_SETTING, [0, 0], RUNTIME_TAGS)
  }

  lemma RuntimePieces()
    ensures Offset(RUNTIME_SETTING, 0) == 0 && Offset(RUNTIME_SETTING, 1) == 33 && CodeSize(RUNTIME_SETTING) == 34
    ensures Order(RUNTIME_SETTING) == [] && ImmutableReads(RUNTIME_SETTING, 2) == map[7 := [1]]
  {
    hide CodeOf;
    ReadPiece(RUNTIME_SETTING, 0);
    TagPiece(RUNTIME_SETTING, 1, 0);
    assert SubOrder(RUNTIME.items, 1) == [];
    var none: seq<nat> := [];
    assert none + [1] == [1] && ImmutableReads(RUNTIME_SETTING, 0) == map[];
    assert ImmutableReads(RUNTIME_SETTING, 1) == map[7 := [1]];
  }

  lemma RuntimeIsLaid()
    ensures Laid(RUNTIME_SETTING, [0, 0], Runtime())
  {
    hide Offset, PieceBytes, SubOrder;
    RuntimePieces();
    FirstNonTagIsFirst(RUNTIME.items, 2, 0);
    assert RUNTIME.items[1] == Tag(1);
    ObjectIsLaid(RUNTIME_SETTING, [0, 0], RUNTIME_TAGS);
  }

  lemma RuntimeFacts()
    ensures |Runtime().linked.bytecode| == 34 && Runtime().linked.immutableReferences == map[7 := [1]]
    ensures Runtime().tagPositions == RUNTIME_TAGS
  {
    hide Offset, ImmutableReads, PieceBytes, Code, SubOrder;
    RuntimePieces();
    CodeLength(RUNTIME_SETTING, [0, 0], 2);
    NoSubCopies(RUNTIME_SETTING);
    assert Trailer(RUNTIME_SETTING) == [];
  }

  lemma RuntimePrepared()
    ensures Prepared(RUNTIME, [], RUNTIME_SETTING, 1)
  {
    assert ItemsEstimate(RUNTIME.items, map[], 1, 1) == 33;
    assert EstimateAt(RUNTIME, map[], 1) == 35;
    assert BytesRequired(35) == 1 && BytesRequired(36) == 1;
  }

  lemma RuntimeIsCorrect()
    ensures Correct(RUNTIME, Runtime())
  {
    hide Prepared, Laid, Code, Trailer, AllLinks, ImmutableReads;
    RuntimePrepared();
    RuntimeIsLaid();
  }

  // ---------------------------------------------------------------- the constructor

  const CONSTRUCTOR := Assembly(
    false, 1, [AssignImmutable(7), PushSub(0), PushTag(0x1_0000_0000_0000_0001), PushData(9)],
    [DataItem(9, [1, 2, 3])], [], [RUNTIME], map[], map[], map[], [])
  const OPERANDS: seq<nat> := [0, 11, 33, 45]

  ghost function Setting(): Env {
    Env(CONSTRUCTOR, [Runtime()], map[7 := [1]], 1, 1)
  }

  ghost function Constructor(): Assembled {
    ObjectOf(Setting(), OPERANDS, [Some(0)])
  }

  lemma AssignPiece()
    ensures OffsetsAt(Setting(), 0) == [1] && |PieceBytes(Setting(), 0, 0)| == 4
  {
    hide Runtime;
    assert BytesRequired(1) == 1;
    assert [1][1..] == [];
    StoreOneCode(1, false);
    assert StoreAll([1]) == StoreOne(1, false) + StoreAll([]);
    assert StoreAll([1]) == StoreOne(1, false);
  }

  lemma ConstructorPieces()
    ensures Offset(Setting(), 0) == 0 && CodeSize(Setting()) == 10
    ensures Order(Setting()) == [1]
  {
    hide Runtime, PieceBytes;
    AssignPiece();
    HolePiece(Setting(), 1, 0);
    HolePiece(Setting(), 2, 0);
    HolePiece(Setting(), 3, 0);
    assert Offset(Setting(), 1) == 4 && Offset(Setting(), 2) == 6 && Offset(Setting(), 3) == 8;
    var items := CONSTRUCTOR.items;
    assert SubOrder(items, 1) == [] && SubIds(items, []) == [];
    assert SubOrder(items, 2) == [1] && SubOrder(items, 3) == [1];
  }

  lemma ConstructorPlaces()
    ensures Order(Setting()) == [1]
    ensures SubOffset(Setting(), 0) == 11 && DataOffset(Setting(), 0) == 45
  {
    hide Offset, SubOrder;
    ConstructorPieces();
    RuntimeFacts();
    hide Runtime;
    assert SubBytes(Setting(), 0) == Runtime().linked.bytecode;
    assert |SubCopies(Setting(), 1)| == 34;
  }

  lemma ConstructorResolved()
    ensures Resolved(Setting(), [Some(0)], OPERANDS)
  {
    hide Offset, SubOrder, SubOffset, DataOffset, BytesRequired;
    ConstructorPlaces();
    RuntimeFacts();
    hide Runtime;
    SmallNumber();
    assert TagTarget(Setting(), [Some(0)], 0x1_0000_0000_0000_0001) == Some(33);
    assert CONSTRUCTOR.items[3] == PushData(CONSTRUCTOR.data[0].hash);
  }

  lemma SmallNumber()
    ensures BytesRequired(33) == 1 && BytesRequired(1) == 1
  {
  }

  lemma ConstructorIsLaid()
    ensures Laid(Setting(), OPERANDS, Constructor())
  {
    hide Offset, Runtime, Resolved, PieceBytes, BytesRequired, SubOrder;
    ConstructorPieces();
    ConstructorResolved();
    AssignPiece();
    SmallNumber();
    FirstNonTagIsFirst(CONSTRUCTOR.items, 4, 0);
    assert CONSTRUCTOR.items[0] == AssignImmutable(7);
    ObjectIsLaid(Setting(), OPERANDS, [Some(0)]);
  }

  lemma ConstructorPrepared()
    ensures Prepared(CONSTRUCTOR, [Runtime()], Setting(), 33)
  {
    RuntimeFacts();
    hide Runtime;
    var items, refs := CONSTRUCTOR.items, Setting().refs;
    assert ItemsEstimate(items, refs, 33, 1) == 36 && ItemsEstimate(items, refs, 33, 2) == 70;
    assert ItemsEstimate(items, refs, 33, 3) == 104 && DataEstimate(CONSTRUCTOR.data, 1) == 3;
    assert EstimateAt(CONSTRUCTOR, refs, 33) == 142;
    assert SubSizes([Runtime()], 1) == 34;
    assert BytesRequired(142) == 1 && BytesRequired(177) == 1;
    assert RUNTIME_TAGS[1] == Some(33);
  }

  lemma OneByteNumber(n: nat)
    requires 1 <= n < 256
    ensures BytesRequired(n) == 1 && ToBigEndian(n, 1) == [n] && PushInNumbers(1, n) == [0x60, n]
  {
    assert ToBigEndian(n / 256, 0) == [];
  }

  lemma RuntimeBytes()
    ensures Runtime().linked.bytecode == [0x7f] + Zeros(32) + [0x5b]
  {
    hide PieceBytes;
    PieceInNumbers(RUNTIME_SETTING, 0, 0);
    PieceInNumbers(RUNTIME_SETTING, 1, 0);
    RuntimePieces();
    NoSubCopies(RUNTIME_SETTING);
    assert Trailer(RUNTIME_SETTING) == [];
    assert Code(RUNTIME_SETTING, [0, 0], 1) == [0x7f] + Zeros(32);
  }

  lemma AssignBytes()
    ensures PieceBytes(Setting(), 0, 0) == [0x60, 1, 0x01, 0x52]
  {
    hide Runtime;
    AssignPiece();
    OneByteNumber(1);
    StoreInNumbers(1, false);
    assert StoreAll([1]) == StoreOne(1, false) + StoreAll([1][1..]);
    assert StoreAll([1]) == StoreOne(1, false);
  }

  lemma ConstructorCode()
    ensures Code(Setting(), OPERANDS, 4) == [0x60, 1, 0x01, 0x52, 0x60, 11, 0x60, 33, 0x60, 45]
  {
    hide Runtime, PieceBytes, PushInNumbers;
    AssignBytes();
    OneByteNumber(11);
    OneByteNumber(33);
    OneByteNumber(45);
    PieceInNumbers(Setting(), 1, 11);
    PieceInNumbers(Setting(), 2, 33);
    PieceInNumbers(Setting(), 3, 45);
    assert Code(Setting(), OPERANDS, 1) == [0x60, 1, 0x01, 0x52];
    assert Code(Setting(), OPERANDS, 2) == [0x60, 1, 0x01, 0x52, 0x60, 11];
    assert Code(Setting(), OPERANDS, 3) == [0x60, 1, 0x01, 0x52, 0x60, 11, 0x60, 33];
  }

  lemma ConstructorTrailer()
    ensures Trailer(Setting()) == [0xfe] + ([0x7f] + Zeros(32) + [0x5b]) + [1, 2, 3]
  {
    RuntimeBytes();
    ConstructorPieces();
    hide Runtime, SubOrder;
    assert SubBytes(Setting(), 0) == Runtime().linked.bytecode;
    assert SubCopies(Setting(), 1) == Runtime().linked.bytecode;
    assert CONSTRUCTOR.items[3] == PushData(CONSTRUCTOR.data[0].hash);
    assert DataBytes(Setting(), 1) == [1, 2, 3];
  }

  /** The object, byte by byte: PUSH1 1 ADD MSTORE, PUSH1 11, PUSH1 33, PUSH1 45, INVALID, the
      runtime code (PUSH32 0 JUMPDEST) at 11, in it the tag at 33, and the data at 45. */
  lemma ConstructorBytes()
    ensures Constructor().linked.bytecode ==
            [0x60, 1, 0x01, 0x52, 0x60, 11, 0x60, 33, 0x60, 45] +
            ([0xfe] + ([0x7f] + Zeros(32) + [0x5b]) + [1, 2, 3])
  {
    hide Runtime, Code, Trailer, Zeros;
    ConstructorCode();
    ConstructorTrailer();
  }

  /** Both objects meet the description. */
  lemma ObjectIsCorrect()
    ensures WellFormed(CONSTRUCTOR) && NoRawPush(CONSTRUCTOR) && NoRawPush(RUNTIME)
    ensures Prepared(CONSTRUCTOR, [Runtime()], Setting(), 33) && Laid(Setting(), OPERANDS, Constructor())
    ensures Correct(CONSTRUCTOR, Constructor())
  {
    hide Prepared, Laid, CorrectOne, Constructor, Setting, Runtime;
    RuntimeIsCorrect();
    ConstructorPrepared();
    ConstructorIsLaid();
    ConstructorIsCorrectOne();
  }

  lemma ConstructorIsCorrectOne()
    ensures CorrectOne(CONSTRUCTOR, [Runtime()], Constructor()) && Constructor().subs == [Runtime()]
  {
    hide Prepared, Laid, Code, Trailer, AllLinks, ImmutableReads, Runtime;
    ConstructorPrepared();
    ConstructorIsLaid();
  }

  lemma RuntimeInMemory()
    ensures HoldsRuntime(Runtime().linked.bytecode, 0, RUNTIME_SETTING, [0, 0], map[])
    ensures TotalSize(RUNTIME_SETTING) == 34
  {
    hide Offset, PieceBytes, Code, CodeWith, SubOrder, ImmutableReads;
    RuntimePieces();
    RuntimeFacts();
    CodeWithSize(RUNTIME_SETTING, [0, 0], map[], 2);
    CodeLength(RUNTIME_SETTING, [0, 0], 2);
    hide Trailer;
    var memory := Runtime().linked.bytecode;
    assert memory[0..34] == memory;
  }

  lemma RuntimeWith(value: nat)
    requires value < TWO_256
    ensures ExpansionWith(RUNTIME_SETTING, [0, 0], map[7 := value], 2) == [Instr(PUSH32, value), Instr(JUMPDEST, 0)]
  {
    assert ExpansionWith(RUNTIME_SETTING, [0, 0], map[7 := value], 1) == [Instr(PUSH32, value)];
  }

  lemma SettingFacts()
    ensures Setting().asm == CONSTRUCTOR && Setting().refs == map[7 := [1]]
    ensures 7 !in AssignedIds(CONSTRUCTOR.items, 0)
  {
  }

  /** Running the assignment on a copy of the runtime code at address 0 makes it
      push the value. */
  lemma AssignmentRunsHere(value: nat)
    requires value < TWO_256
    ensures exists memory: seq<Byte> ::
              |memory| == 34 &&
              Run(ItemInstrs(Setting(), 0, 0), Machine([0, value], Runtime().linked.bytecode)) ==
                  Some(Machine([], memory)) &&
              Disassemble(memory) == [Instr(PUSH32, value), Instr(JUMPDEST, 0)]
  {
    hide Laid, Run, ItemInstrs, Disassemble, Offset, HoldsRuntime, ExpansionWith, Runtime, Setting, Constructor,
        AssignedIds;
    hide ImmutableReads, SubOrder;
    RuntimeIsLaid();
    RuntimeFacts();
    RuntimePieces();
    ConstructorIsLaid();
    RuntimeInMemory();
    RuntimeWith(value);
    SettingFacts();
    var before := Runtime().linked.bytecode;
    var none: map<U256, nat> := map[];
    assert none[7 := value] == map[7 := value];
    AssignmentPatchesRuntime(
      Setting(), OPERANDS, Constructor(), 0, RUNTIME_SETTING, [0, 0], Runtime(), none, 0, value, [], before);
    assert [0, value] + [] == [0, value];
    var memory :|
      |memory| == 34 && Run(ItemInstrs(Setting(), 0, 0), Machine([0, value], before)) == Some(Machine([], memory)) &&
      Disassemble(memory[0..34]) == [Instr(PUSH32, value), Instr(JUMPDEST, 0)];
    assert memory[0..34] == memory;
  }
}
