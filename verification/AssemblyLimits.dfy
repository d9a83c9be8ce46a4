/**
 Assemblies at which promises one might expect of the assembler fail: an
 estimate that is too small, a jump target inside push data, and a reference
 that does not fit the room reserved for it.
 */
module AssemblyLimits {
  import opened Wrappers
  import opened Bytes
  import opened Instructions
  import opened AssemblyModel
  import opened Assembler
  import opened AssemblyTheorems
  import opened AssemblyPlacement
  import opened AssemblyExample

  // ---------------------------------------------------------------- an estimate that is too small

  /** 130 assignments of an immutable that nobody reads, then a tag and a reference to it. */
  function Assignments(): (items: seq<Item>)
    ensures |items| == 130 && forall i :: 0 <= i < 130 ==> items[i] == AssignImmutable(7)
  {
    seq(130, _ => AssignImmutable(7))
  }

  const CROWDED := Assembly(false, 2, Assignments() + [PushTag(1), Tag(1)], [], [], [], map[], map[], map[], [])
  const CROWD := Env(CROWDED, [], map[], 1, 1)
  const CROWD_TAGS: seq<Option<nat>> := [Some(0), Some(262)]

  lemma AssignmentPiece(i: nat)
    requires i < 130
    ensures CROWDED.items[i] == AssignImmutable(7) && OffsetsAt(CROWD, i) == [] && |PieceBytes(CROWD, i, 0)| == 2
  {
    PlainCode(POP, POP);
  }

  lemma {:induction false} CrowdOffsets(n: nat)
    requires n <= 130
    ensures Offset(CROWD, n) == 2 * n && ItemsEstimate(CROWDED.items, map[], 1, n) == n
  {
    hide PieceBytes;
    if n > 0 {
      CrowdOffsets(n - 1);
      AssignmentPiece(n - 1);
    }
  }

  lemma CrowdSizes()
    ensures Offset(CROWD, 130) == 260 && Offset(CROWD, 131) == 262 && CodeSize(CROWD) == 263
    ensures EstimateAt(CROWDED, map[], 1) == 134
  {
    hide PieceBytes;
    CrowdOffsets(130);
    HolePiece(CROWD, 130, 0);
    TagPiece(CROWD, 131, 0);
    assert ItemsEstimate(CROWDED.items, map[], 1, 131) == 132;
  }

  lemma CrowdPrepared()
    ensures Prepared(CROWDED, [], CROWD, 1)
  {
    hide EstimateAt;
    CrowdSizes();
    assert BytesRequired(134) == 1 && BytesRequired(135) == 1;
  }

  lemma CrowdTagTable()
    ensures TagTable(CROWD, CROWD_TAGS, 132)
  {
    hide Offset, PieceBytes;
    CrowdSizes();
    CrowdOffsets(0);
    FirstNonTagIsFirst(CROWDED.items, 132, 0);
    assert CROWDED.items[131] == Tag(1);
  }

  lemma CrowdEmittable(i: nat)
    requires i < 132
    ensures Emittable(CROWD, i)
  {
    if i < 130 {
      AssignmentPiece(i);
    }
  }

  /** Each assignment is estimated at one byte and takes two. The estimate of 134
      leaves one byte per tag, the tag is at 262, and assembling fails although
      every item could be emitted: "Tag too large for reserved space". */
  lemma EstimateCanFallShort()
    ensures WellFormed(CROWDED) && Prepared(CROWDED, [], CROWD, 1)
    ensures EstimateAt(CROWDED, map[], 1) == 134 && CodeSize(CROWD) == 263
    ensures TagTable(CROWD, CROWD_TAGS, 132) && SomeTagTooLarge(CROWD, CROWD_TAGS)
    ensures AllAssigned(CROWD) && forall i :: 0 <= i < 132 ==> Emittable(CROWD, i)
    ensures forall out :: !Correct(CROWDED, out)
  {
    CrowdSizes();
    CrowdPrepared();
    CrowdTagTable();
    hide Prepared, TagTable, EstimateAt, Emittable, CorrectOne, Offset;
    forall i | 0 <= i < 132 ensures Emittable(CROWD, i) {
      CrowdEmittable(i);
    }
    assert BytesRequired(262) == 2;
    assert TagTarget(CROWD, CROWD_TAGS, 1) == Some(262);
    assert CROWDED.items[130] == PushTag(1);
    assert TagOverflows(CROWD, CROWD_TAGS, 130) && TagFails(CROWD, CROWD_TAGS, 130);
    FailsToPatch(CROWD, CROWD_TAGS);
    NothingCorrect(CROWDED, [], CROWD, 1);
  }

  // ---------------------------------------------------------------- a jump target inside push data

  /** A push as an operation, right before a tag. */
  const SWALLOWING := Assembly(false, 2, [Operation(PUSH1), Tag(1), PushTag(1)], [], [], [], map[], map[], map[], [])
  const SWALLOW := Env(SWALLOWING, [], map[], 1, 1)

  lemma SwallowPieces()
    ensures Offset(SWALLOW, 0) == 0 && Offset(SWALLOW, 1) == 1 && Offset(SWALLOW, 2) == 2 && Offset(SWALLOW, 3) == 4
    ensures Code(SWALLOW, [0, 0, 1], 3) == [PUSH1, JUMPDEST, PUSH1, 1]
  {
    hide CodeOf, ToBigEndian;
    TagPiece(SWALLOW, 1, 0);
    HolePiece(SWALLOW, 2, 0);
    HolePiece(SWALLOW, 2, 1);
    OneByteWord();
    assert Code(SWALLOW, [0, 0, 1], 1) == [PUSH1];
    assert Code(SWALLOW, [0, 0, 1], 2) == [PUSH1, JUMPDEST];
  }

  lemma OneByteWord()
    ensures ToBigEndian(1, 1) == [1] && BytesRequired(1) == 1
  {
  }

  lemma SwallowTable()
    ensures TagTable(SWALLOW, [Some(0), Some(1)], 3)
  {
    hide Offset, PieceBytes;
    SwallowPieces();
    FirstNonTagIsFirst(SWALLOWING.items, 3, 0);
    assert SWALLOWING.items[1] == Tag(1);
  }

  lemma SwallowTags()
    ensures TagTable(SWALLOW, [Some(0), Some(1)], 3)
    ensures Resolved(SWALLOW, [Some(0), Some(1)], [0, 0, 1])
  {
    hide Offset, PieceBytes, BytesRequired, TagTable;
    SwallowTable();
    SwallowPieces();
    OneByteWord();
    assert TagTarget(SWALLOW, [Some(0), Some(1)], 1) == Some(1);
    assert SubOrder(SWALLOWING.items, 1) == [] && SubOrder(SWALLOWING.items, 2) == [];
  }

  lemma SwallowPrepared()
    ensures Prepared(SWALLOWING, [], SWALLOW, 1)
  {
    assert ItemsEstimate(SWALLOWING.items, map[], 1, 1) == 1 && ItemsEstimate(SWALLOWING.items, map[], 1, 2) == 2;
    assert EstimateAt(SWALLOWING, map[], 1) == 5;
    assert BytesRequired(5) == 1 && BytesRequired(6) == 1;
  }

  lemma SwallowIsLaid()
    ensures Laid(SWALLOW, [0, 0, 1], ObjectOf(SWALLOW, [0, 0, 1], [Some(0), Some(1)]))
  {
    hide TagTable, Resolved, Offset, Code, SubOrder;
    SwallowTags();
    ObjectIsLaid(SWALLOW, [0, 0, 1], [Some(0), Some(1)]);
  }

  lemma InsidePush()
    ensures !IsJumpDestination([PUSH1, JUMPDEST, PUSH1, 1], 1)
  {
    assert FirstLength([PUSH1, JUMPDEST, PUSH1, 1]) == 2;
  }

  /** The object is assembled, pushes position 1, and this is no destination. */
  lemma RawPushSwallowsTarget()
    ensures var out := ObjectOf(SWALLOW, [0, 0, 1], [Some(0), Some(1)]);
            Correct(SWALLOWING, out) && Laid(SWALLOW, [0, 0, 1], out) &&
            out.linked.bytecode == [PUSH1, JUMPDEST, PUSH1, 1] && !IsJumpDestination(out.linked.bytecode, 1)
  {
    hide Correct, Offset, Code, Laid, AllLinks, ImmutableReads, IsJumpDestination;
    SwallowPieces();
    SwallowIsCorrect();
    SwallowIsLaid();
    InsidePush();
    assert Trailer(SWALLOW) == [];
  }

  lemma SwallowIsCorrect()
    ensures Correct(SWALLOWING, ObjectOf(SWALLOW, [0, 0, 1], [Some(0), Some(1)]))
  {
    hide Prepared, Code, Trailer, Laid, AllLinks, ImmutableReads;
    SwallowPrepared();
    SwallowIsLaid();
  }

  // ---------------------------------------------------------------- a reference that is cut

  /** A sub-assembly of 101 bytes whose copies are pushed four times. */
  const PAYLOAD := Assembly(false, 1, [], [], Zeros(100), [], map[], map[], map[], [])
  const PAYLOAD_SETTING := Env(PAYLOAD, [], map[], 1, 1)
  const COPYING := Assembly(false, 1, [PushSub(0), PushSub(0), PushSub(0), PushSub(0)], [], [], [PAYLOAD], map[],
      map[], map[], [])
  const POSITIONS: seq<nat> := [9, 110, 211, 312]

  ghost function Payload(): Assembled {
    ObjectOf(PAYLOAD_SETTING, [], [None])
  }

  ghost function Copy(): Env {
    Env(COPYING, [Payload()], map[], 1, 1)
  }

  lemma PayloadPrepared()
    ensures Prepared(PAYLOAD, [], PAYLOAD_SETTING, 1)
  {
    assert EstimateAt(PAYLOAD, map[], 1) == 1;
    assert BytesRequired(1) == 1 && BytesRequired(102) == 1;
  }

  lemma PayloadIsCorrect()
    ensures Correct(PAYLOAD, Payload())
    ensures |Payload().linked.bytecode| == 101 && Payload().tagPositions == [None] &&
      Payload().linked.immutableReferences == map[]
  {
    hide Prepared;
    PayloadPrepared();
    ObjectIsLaid(PAYLOAD_SETTING, [], [None]);
    hide Laid;
  }

  lemma CopyPieces()
    ensures forall i, x: nat :: 0 <= i < 4 ==> |PieceBytes(Copy(), i, x)| == 2
    ensures CodeSize(Copy()) == 8
  {
    forall i, x: nat | 0 <= i < 4 ensures |PieceBytes(Copy(), i, x)| == 2 {
      HolePiece(Copy(), i, x);
    }
    hide PieceBytes;
    assert Offset(Copy(), 1) == 2 && Offset(Copy(), 2) == 4 && Offset(Copy(), 3) == 6;
  }

  lemma CopyOrder()
    ensures Order(Copy()) == [0, 1, 2, 3]
  {
    hide SubOrder;
    var items := COPYING.items;
    NoOrder(items);
    OrderStep(items, 0, []);
    OrderStep(items, 1, [0]);
    OrderStep(items, 2, [0, 1]);
    OrderStep(items, 3, [0, 1, 2]);
  }

  lemma NoOrder(items: seq<Item>)
    ensures SubOrder(items, 0) == []
  {
  }

  /** A further reference to the same sub comes last. */
  lemma OrderStep(items: seq<Item>, n: nat, order: seq<nat>)
    requires n < |items| && SubOrder(items, n) == order && items[n] == PushSub(0)
    requires forall k :: 0 <= k < |order| ==> items[order[k]] == PushSub(0)
    ensures SubOrder(items, n + 1) == order + [n]
  {
    assert SubIds(items, order) == seq(|order|, _ => 0);
    InsertLast(|order|);
  }

  lemma {:induction false} InsertLast(n: nat)
    ensures InsertionPoint(seq(n, _ => 0), 0) == n
  {
    if n > 0 {
      InsertLast(n - 1);
      assert seq(n, _ => 0)[1..] == seq(n - 1, _ => 0);
      assert seq(n, _ => 0)[..n - 1] == seq(n - 1, _ => 0);
    }
  }

  lemma CopyPlaces()
    ensures Order(Copy()) == [0, 1, 2, 3]
    ensures forall k :: 0 <= k < 4 ==> SubOffset(Copy(), k) == POSITIONS[k]
  {
    hide Offset;
    PayloadIsCorrect();
    CopyPieces();
    CopyOrder();
    hide Payload, SubOrder, Correct;
    assert |SubCopies(Copy(), 1)| == 101 && |SubCopies(Copy(), 2)| == 202 && |SubCopies(Copy(), 3)| == 303;
  }

  lemma CopyPrepared()
    ensures Prepared(COPYING, [Payload()], Copy(), 1)
    ensures EstimateCovers(Copy(), 1)
  {
    PayloadIsCorrect();
    hide Payload, Correct;
    var items := COPYING.items;
    assert ItemsEstimate(items, map[], 1, 1) == 2 && ItemsEstimate(items, map[], 1, 2) == 4 &&
        ItemsEstimate(items, map[], 1, 3) == 6;
    assert EstimateAt(COPYING, map[], 1) == 9;
    assert SubSizes([Payload()], 1) == 101;
    assert BytesRequired(9) == 1 && BytesRequired(111) == 1;
  }

  lemma CopyIsLaid()
    ensures Laid(Copy(), POSITIONS, ObjectOf(Copy(), POSITIONS, [Some(0)]))
  {
    CopyPlaces();
    CopyOrder();
    hide Payload, SubOrder, SubOffset, Offset;
    FirstNonTagIsFirst(COPYING.items, 4, 0);
    NoOffset();
    ObjectIsLaid(Copy(), POSITIONS, [Some(0)]);
  }

  lemma NoOffset()
    ensures Offset(Copy(), 0) == 0
  {
  }

  lemma CopyIsCorrect()
    ensures Correct(COPYING, ObjectOf(Copy(), POSITIONS, [Some(0)]))
  {
    hide Payload, Laid, Prepared, Code, Trailer, AllLinks, ImmutableReads;
    PayloadIsCorrect();
    CopyPrepared();
    CopyIsLaid();
    var out := ObjectOf(Copy(), POSITIONS, [Some(0)]);
    assert out.subs == [Payload()];
    NotImmutable();
    assert CorrectOne(COPYING, [Payload()], out);
  }

  lemma NotImmutable()
    ensures Admissible(COPYING, [Payload()])
  {
    hide Payload;
  }

  lemma TooManyCopies()
    ensures !CopiesCounted(Copy())
  {
    PayloadIsCorrect();
    CopyOrder();
    CopyPlaces();
    hide Payload, SubOrder, Correct;
    assert |SubCopies(Copy(), 4)| == |SubCopies(Copy(), 3)| + 101;
    assert SubSizes([Payload()], 1) == 101;
  }

  lemma FourthOperand()
    ensures FinalInstrs(Copy(), POSITIONS, 3) == [Instr(PUSH1, 56)]
  {
    hide Payload;
    assert Pow256(1) == 256;
  }

  /** The reservation counts the sub once, so one byte is kept for each
      reference. The fourth copy starts at 312 and is referred to as 56, although
      the estimate covers every item. */
  lemma FourthCopyIsCut()
    ensures var out := ObjectOf(Copy(), POSITIONS, [Some(0)]);
            Correct(COPYING, out) && Laid(Copy(), POSITIONS, out) && EstimateCovers(Copy(), 1) &&
                !CopiesCounted(Copy()) &&
            POSITIONS[3] == 312 && FinalInstrs(Copy(), POSITIONS, 3) == [Instr(PUSH1, 56)]
  {
    hide Payload, Laid, Prepared, EstimateCovers, Correct, FinalInstrs, ObjectOf;
    CopyPrepared();
    CopyIsLaid();
    CopyIsCorrect();
    FourthOperand();
    TooManyCopies();
  }
}
