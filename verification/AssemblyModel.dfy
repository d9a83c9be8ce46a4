/**
 Assembly items, assemblies and the layout of assembled code, after
 libevmasm/AssemblyItem.cpp, Assembly.h and LinkerObject.cpp.

 The layout is described from the outside: where each item starts, which
 instructions it stands for and which number each reference has to push.
 Module Assembler shows that emitting holes and patching them produces it.
 */
module AssemblyModel {
  import opened Wrappers
  import opened Bytes
  import opened Instructions

  type U256 = n: nat | n < TWO_256
  type Positive = n: nat | n >= 1 witness 1

  /** The ways assembling can fail; ImmutablesNeverAssigned is error 1284. */
  datatype Error =
    | InvalidAssembly
    | SeveralSubsReadImmutables
    | PushesAndAssignsImmutables
    | WidthOutOfRange
    | BadItem
    | BadTag
    | BadTagReference
    | TagTooLarge
    | BadSub
    | ImmutablesNeverAssigned

  datatype Result<+T> = Ok(value: T) | Err(error: Error) {
    predicate IsFailure() { Err? }
    function PropagateFailure<U>(): Result<U> requires Err? { Err(error) }
    function Extract(): T requires Ok? { value }
  }

  datatype Item =
    | UndefinedItem
    | Operation(op: Byte)
    | Push(data: U256)
    | PushString(hash: U256)
    | PushTag(data: U256)
    | PushSub(id: U256)
    | PushSubSize(id: U256)
    | PushProgramSize
    | Tag(data: U256)
    | PushData(hash: U256)
    | PushLibraryAddress(hash: U256)
    | PushDeployTimeAddress
    | PushImmutable(hash: U256)
    | AssignImmutable(hash: U256)

  datatype DataItem = DataItem(hash: U256, bytes: seq<Byte>)

  /** A path through nested sub-assemblies and the object id standing for it. */
  datatype SubPath = SubPath(path: seq<nat>, id: nat)

  /** `data` lists the map `m_data` in key order, `subPaths` the map `m_subPaths`. */
  datatype Assembly = Assembly(
    invalid: bool,
    usedTags: Positive,
    items: seq<Item>,
    data: seq<DataItem>,
    auxiliary: seq<Byte>,
    subs: seq<Assembly>,
    strings: map<U256, seq<Byte>>,
    libraries: map<U256, string>,
    immutables: map<U256, string>,
    subPaths: seq<SubPath>)

  /** `immutableReferences` keeps the recorded offsets; the names are those of
      `Assembly.immutables`. */
  datatype LinkerObject = LinkerObject(
    bytecode: seq<Byte>,
    linkReferences: map<nat, string>,
    immutableReferences: map<U256, seq<nat>>)

  /** An assembled tree: the object, the tag positions, and the assembled subs. */
  datatype Assembled = Assembled(linked: LinkerObject, tagPositions: seq<Option<nat>>, subs: seq<Assembled>)

  /** What the containers of the original guarantee by construction: map keys
      are distinct, and tags are numbered below 2^64. */
  predicate WellFormed(a: Assembly) {
    && (forall j, k :: 0 <= j < k < |a.data| ==> a.data[j].hash != a.data[k].hash)
    && (forall i :: 0 <= i < |a.items| && a.items[i].Tag? ==> a.items[i].data < TWO_64)
    && (forall k :: 0 <= k < |a.subs| ==> WellFormed(a.subs[k]))
  }

  // ---------------------------------------------------------------- tags and subs

  /** `splitForeignPushTag`: the sub id is 2^64 - 1 for a tag of the assembly itself. */
  const OWN: nat := TWO_64 - 1

  function TagSub(data: U256): (sub: nat)
    ensures data < TWO_64 ==> sub == OWN
  {
    (data / TWO_64 - 1) % TWO_64
  }

  function TagId(data: U256): nat {
    data % TWO_64
  }

  /** `setPushTagSubIdAndTag`. */
  function ForeignTag(sub: nat, tag: nat): U256
    requires sub < TWO_64 && tag < TWO_64
  {
    if sub == OWN then tag else (sub + 1) * TWO_64 + tag
  }

  /** Marking a tag as belonging to a sub-assembly loses neither number. */
  lemma ForeignTagSplits(sub: nat, tag: nat)
    requires sub < TWO_64 && tag < TWO_64
    ensures TagSub(ForeignTag(sub, tag)) == sub && TagId(ForeignTag(sub, tag)) == tag
  {
    if sub != OWN {
      DivModUnique(ForeignTag(sub, tag), sub + 1, tag, TWO_64);
    }
  }

  function FindPath(subPaths: seq<SubPath>, id: nat): Option<seq<nat>> {
    if subPaths == [] then None
    else if subPaths[0].id == id then Some(subPaths[0].path)
    else FindPath(subPaths[1..], id)
  }

  function Walk(subs: seq<Assembled>, path: seq<nat>): Option<Assembled>
    requires path != []
    decreases path
  {
    if path[0] >= |subs| then None
    else if |path| == 1 then Some(subs[path[0]])
    else Walk(subs[path[0]].subs, path[1..])
  }

  /** `subAssemblyById`; None where one of its assertions fails. */
  function SubById(subs: seq<Assembled>, subPaths: seq<SubPath>, id: nat): Option<Assembled> {
    if id < |subs| then Some(subs[id])
    else match FindPath(subPaths, id)
      case None => None
      case Some(path) => if path == [] then None else Walk(subs, path)
  }

  // ---------------------------------------------------------------- items as instructions

  /** Everything fixed before the first byte is emitted. `refs` are the offsets
      of the immutables the sub-assemblies read, by id. */
  datatype Env = Env(
    asm: Assembly,
    subs: seq<Assembled>,
    refs: map<U256, seq<nat>>,
    tagWidth: nat,
    refWidth: nat)

  datatype Kind = TagRef | SubRef | DataRef | SizeRef | Plain

  function KindOf(item: Item): Kind {
    match item
    case PushTag(_) => TagRef
    case PushSub(_) => SubRef
    case PushData(_) => DataRef
    case PushProgramSize => SizeRef
    case _ => Plain
  }

  function PushAny(width: nat, value: nat): Instr {
    if 1 <= width <= 32 then Instr(PushOp(width), value) else Instr(INVALID, 0)
  }

  /** A string cut to 32 bytes and padded with zeros on the right. */
  function Padded(s: seq<Byte>): (r: seq<Byte>)
    ensures |r| == 32 && forall k :: 0 <= k < 32 ==> r[k] == if k < |s| then s[k] else 0
  {
    if |s| >= 32 then s[..32] else s + seq(32 - |s|, _ => 0)
  }

  /** The ids assigned by the first `n` items. */
  function AssignedIds(items: seq<Item>, n: nat): set<U256>
    requires n <= |items|
  {
    set i | 0 <= i < n && items[i].AssignImmutable? :: items[i].hash
  }

  /** The offsets the assignment at `i` fills: all of them the first time an id
      is assigned, none after that. */
  function OffsetsAt(e: Env, i: nat): seq<nat>
    requires i < |e.asm.items| && e.asm.items[i].AssignImmutable?
  {
    var id := e.asm.items[i].hash;
    if id in AssignedIds(e.asm.items, i) || id !in e.refs then [] else e.refs[id]
  }

  /** Storing the second stack word at base + offset, keeping both words for
      later if there are `more` offsets to come. */
  function StoreOne(offset: nat, more: bool): seq<Instr> {
    (if more then [Instr(DUP2, 0), Instr(DUP2, 0)] else []) +
    [PushAny(BytesRequired(offset), offset), Instr(ADD, 0), Instr(MSTORE, 0)]
  }

  function StoreAll(offsets: seq<nat>): seq<Instr> {
    if offsets == [] then [] else StoreOne(offsets[0], |offsets| > 1) + StoreAll(offsets[1..])
  }

  function AssignInstrs(offsets: seq<nat>): seq<Instr> {
    if offsets == [] then [Instr(POP, 0), Instr(POP, 0)] else StoreAll(offsets)
  }

  function SubSize(e: Env, id: nat): nat {
    match SubById(e.subs, e.asm.subPaths, id)
    case None => 0
    case Some(sub) => |sub.linked.bytecode|
  }

  /** The instructions item `i` stands for, `operand` being the number that a
      reference has to push. */
  function ItemInstrs(e: Env, i: nat, operand: nat): seq<Instr>
    requires i < |e.asm.items|
  {
    match e.asm.items[i]
    case UndefinedItem => []
    case Operation(op) => [Instr(op, 0)]
    case Push(data) => [PushAny(Max(1, BytesRequired(data)), data)]
    case PushString(h) => [Instr(PUSH32, if h in e.asm.strings then FromBigEndian(Padded(e.asm.strings[h])) else 0)]
    case PushTag(_) => [PushAny(e.tagWidth, operand)]
    case PushSub(_) => [PushAny(e.refWidth, operand)]
    case PushSubSize(id) => [PushAny(Max(1, BytesRequired(SubSize(e, id))), SubSize(e, id))]
    case PushProgramSize => [PushAny(e.refWidth, operand)]
    case Tag(_) => [Instr(JUMPDEST, 0)]
    case PushData(_) => [PushAny(e.refWidth, operand)]
    case PushLibraryAddress(_) => [Instr(PUSH21, 0)]
    case PushDeployTimeAddress => [Instr(PUSH21, 0)]
    case PushImmutable(_) => [Instr(PUSH32, 0)]
    case AssignImmutable(_) => AssignInstrs(OffsetsAt(e, i))
  }

  /** The bytes of item `i`: an operation is one byte, even if it is a push. */
  function PieceBytes(e: Env, i: nat, operand: nat): seq<Byte>
    requires i < |e.asm.items|
  {
    if e.asm.items[i].Operation? then [e.asm.items[i].op] else CodeOf(ItemInstrs(e, i, operand))
  }

  /** The bytes of the first `n` items. */
  function Code(e: Env, operands: seq<nat>, n: nat): seq<Byte>
    requires n <= |e.asm.items| == |operands|
  {
    if n == 0 then [] else Code(e, operands, n - 1) + PieceBytes(e, n - 1, operands[n - 1])
  }

  /** The position of item `n`, which no operand influences. */
  function Offset(e: Env, n: nat): nat
    requires n <= |e.asm.items|
  {
    if n == 0 then 0 else Offset(e, n - 1) + |PieceBytes(e, n - 1, 0)|
  }

  function CodeSize(e: Env): nat {
    Offset(e, |e.asm.items|)
  }

  // ---------------------------------------------------------------- what follows the code

  function Marker(e: Env): seq<Byte> {
    if e.asm.subs != [] || e.asm.data != [] || e.asm.auxiliary != [] then [INVALID] else []
  }

  /** The indices below `n` of the items of one kind, in order. */
  function Indices(items: seq<Item>, kind: Kind, n: nat): seq<nat>
    requires n <= |items|
  {
    if n == 0 then []
    else Indices(items, kind, n - 1) + (if KindOf(items[n - 1]) == kind then [n - 1] else [])
  }

  /** Where a multimap with these keys puts a new entry: after all keys not above it. */
  function InsertionPoint(keys: seq<nat>, key: nat): (p: nat)
    ensures p <= |keys|
  {
    if keys == [] then 0
    else if keys[0] <= key then 1 + InsertionPoint(keys[1..], key)
    else 0
  }

  function InsertAt<T>(s: seq<T>, p: nat, x: T): seq<T>
    requires p <= |s|
  {
    s[..p] + [x] + s[p..]
  }

  /** The item indices of the PushSub items below `n`, ordered by id, then by position. */
  function SubOrder(items: seq<Item>, n: nat): (order: seq<nat>)
    requires n <= |items|
    ensures forall k :: 0 <= k < |order| ==> order[k] < n && items[order[k]].PushSub?
  {
    if n == 0 then []
    else
      var order := SubOrder(items, n - 1);
      if items[n - 1].PushSub? then
        InsertAt(order, InsertionPoint(SubIds(items, order), items[n - 1].id), n - 1)
      else order
  }

  function SubIds(items: seq<Item>, order: seq<nat>): (ids: seq<nat>)
    requires forall k :: 0 <= k < |order| ==> order[k] < |items| && items[order[k]].PushSub?
    ensures |ids| == |order|
  {
    seq(|order|, k requires 0 <= k < |order| => items[order[k]].id)
  }

  function SubBytes(e: Env, id: nat): seq<Byte> {
    match SubById(e.subs, e.asm.subPaths, id)
    case None => []
    case Some(sub) => sub.linked.bytecode
  }

  /** One copy of a sub-assembly per PushSub. */
  function SubCopies(e: Env, k: nat): seq<Byte>
    requires k <= |SubOrder(e.asm.items, |e.asm.items|)|
  {
    if k == 0 then []
    else SubCopies(e, k - 1) + SubBytes(e, e.asm.items[SubOrder(e.asm.items, |e.asm.items|)[k - 1]].id)
  }

  function SubOffset(e: Env, k: nat): nat
    requires k <= |SubOrder(e.asm.items, |e.asm.items|)|
  {
    CodeSize(e) + |Marker(e)| + |SubCopies(e, k)|
  }

  function AllSubCopies(e: Env): seq<Byte> {
    SubCopies(e, |SubOrder(e.asm.items, |e.asm.items|)|)
  }

  predicate IsReferenced(items: seq<Item>, hash: U256) {
    exists i :: 0 <= i < |items| && items[i] == PushData(hash)
  }

  /** The data objects that some item refers to, among the first `k`. */
  function DataBytes(e: Env, k: nat): seq<Byte>
    requires k <= |e.asm.data|
  {
    if k == 0 then []
    else
      var item := e.asm.data[k - 1];
      DataBytes(e, k - 1) + (if IsReferenced(e.asm.items, item.hash) then item.bytes else [])
  }

  function DataOffset(e: Env, k: nat): nat
    requires k <= |e.asm.data|
  {
    CodeSize(e) + |Marker(e)| + |AllSubCopies(e)| + |DataBytes(e, k)|
  }

  function Trailer(e: Env): seq<Byte> {
    Marker(e) + AllSubCopies(e) + DataBytes(e, |e.asm.data|) + e.asm.auxiliary
  }

  function TotalSize(e: Env): nat {
    CodeSize(e) + |Trailer(e)|
  }

  // ---------------------------------------------------------------- tag positions

  /** The first item that is not a tag, or `n` if there is none below `n`. */
  function FirstNonTag(items: seq<Item>, n: nat): (i: nat)
    requires n <= |items|
    ensures i <= n && (i < n ==> !items[i].Tag?)
  {
    if n == 0 then 0
    else
      var i := FirstNonTag(items, n - 1);
      if i < n - 1 then i else if items[n - 1].Tag? then n else n - 1
  }

  /** The table of tag positions after the first `n` items: tag 0 is the first
      item that is not a tag, every other tag is the place of its only definition. */
  ghost predicate TagTable(e: Env, positions: seq<Option<nat>>, n: nat)
    requires n <= |e.asm.items|
  {
    var items := e.asm.items;
    && |positions| == e.asm.usedTags
    && positions[0] == (var i := FirstNonTag(items, n); if i < n then Some(Offset(e, i)) else None)
    && (forall i :: 0 <= i < n && items[i].Tag? ==>
          0 < items[i].data < e.asm.usedTags && positions[items[i].data] == Some(Offset(e, i)) &&
              Offset(e, i) < 0xffff_ffff)
    && (forall t :: 0 < t < |positions| && positions[t].Some? ==>
          exists i :: 0 <= i < n && items[i].Tag? && items[i].data == t)
  }

  /** The position a PushTag has to push; None where assembling it fails. */
  function TagTarget(e: Env, positions: seq<Option<nat>>, data: U256): Option<nat> {
    var table :=
      if TagSub(data) == OWN then positions
      else if TagSub(data) < |e.subs| then e.subs[TagSub(data)].tagPositions
      else [];
    if TagId(data) < |table| then table[TagId(data)] else None
  }

  // ---------------------------------------------------------------- the finished object

  predicate KnownData(a: Assembly, hash: U256) {
    exists k :: 0 <= k < |a.data| && a.data[k].hash == hash
  }

  /** The operand of every reference is the position it refers to; references to
      unknown data stay zero. */
  ghost predicate Resolved(e: Env, positions: seq<Option<nat>>, operands: seq<nat>)
    requires |operands| == |e.asm.items|
  {
    var items := e.asm.items;
    var order := SubOrder(items, |items|);
    && (forall i :: 0 <= i < |items| && items[i].PushTag? ==>
          TagTarget(e, positions, items[i].data) == Some(operands[i]) && BytesRequired(operands[i]) <= e.tagWidth)
    && (forall k :: 0 <= k < |order| ==> operands[order[k]] == SubOffset(e, k))
    && (forall i, k :: 0 <= i < |items| && 0 <= k < |e.asm.data| && items[i] == PushData(e.asm.data[k].hash) ==>
          operands[i] == DataOffset(e, k))
    && (forall i :: 0 <= i < |items| && items[i].PushData? && !KnownData(e.asm, items[i].hash) ==> operands[i] == 0)
    && (forall i :: 0 <= i < |items| && items[i].PushProgramSize? ==> operands[i] == TotalSize(e))
  }

  /** Items for which no lookup and no assertion fails. */
  predicate Emittable(e: Env, i: nat)
    requires i < |e.asm.items|
  {
    match e.asm.items[i]
    case UndefinedItem => false
    case PushString(h) => h in e.asm.strings
    case PushSub(id) => id < TWO_64
    case PushSubSize(id) => id < TWO_64 && SubById(e.subs, e.asm.subPaths, id).Some? &&
        BytesRequired(SubSize(e, id)) <= 32
    case PushLibraryAddress(h) => h in e.asm.libraries
    case PushImmutable(h) => h in e.asm.immutables
    case AssignImmutable(_) => forall k :: 0 <= k < |OffsetsAt(e, i)| ==> 1 <= BytesRequired(OffsetsAt(e, i)[k]) <= 32
    case _ => true
  }

  /** The link references of the code itself. */
  function OwnLinks(e: Env, n: nat): map<nat, string>
    requires n <= |e.asm.items|
  {
    if n == 0 then map[]
    else
      var links := OwnLinks(e, n - 1);
      match e.asm.items[n - 1]
      case PushLibraryAddress(h) =>
        if h in e.asm.libraries then links[Offset(e, n - 1) + 1 := e.asm.libraries[h]] else links
      case _ => links
  }

  function ShiftedKeys(links: map<nat, string>, delta: nat): set<nat> {
    set k | k in links :: k + delta
  }

  function Shifted(links: map<nat, string>, delta: nat): map<nat, string> {
    map p | p in ShiftedKeys(links, delta) :: links[p - delta]
  }

  function SubLinks(e: Env, id: nat): map<nat, string> {
    match SubById(e.subs, e.asm.subPaths, id)
    case None => map[]
    case Some(sub) => sub.linked.linkReferences
  }

  /** ... together with those of the first `k` copies, each shifted to its place. */
  function AllLinks(e: Env, k: nat): map<nat, string>
    requires k <= |SubOrder(e.asm.items, |e.asm.items|)|
  {
    if k == 0 then OwnLinks(e, |e.asm.items|)
    else
      AllLinks(e, k - 1) +
      Shifted(SubLinks(e, e.asm.items[SubOrder(e.asm.items, |e.asm.items|)[k - 1]].id), SubOffset(e, k - 1))
  }

  /** The places where the first `n` items read each immutable. */
  function ImmutableReads(e: Env, n: nat): map<U256, seq<nat>>
    requires n <= |e.asm.items|
  {
    if n == 0 then map[]
    else
      var before := ImmutableReads(e, n - 1);
      match e.asm.items[n - 1]
      case PushImmutable(id) => before[id := (if id in before then before[id] else []) + [Offset(e, n - 1) + 1]]
      case _ => before
  }

  /** `out` is what assembling `e.asm` has to produce. */
  ghost predicate Laid(e: Env, operands: seq<nat>, out: Assembled) {
    var items := e.asm.items;
    && |operands| == |items|
    && out.subs == e.subs
    && 1 <= e.tagWidth <= 32 && 1 <= e.refWidth <= 32
    && (forall i :: 0 <= i < |items| ==> Emittable(e, i))
    && (forall i :: 0 <= i < |items| && items[i].PushSub? ==> SubById(e.subs, e.asm.subPaths, items[i].id).Some?)
    && TagTable(e, out.tagPositions, |items|)
    && Resolved(e, out.tagPositions, operands)
    && out.linked.bytecode == Code(e, operands, |items|) + Trailer(e)
    && out.linked.linkReferences == AllLinks(e, |SubOrder(items, |items|)|)
    && out.linked.immutableReferences == ImmutableReads(e, |items|)
    && (forall id :: id in e.refs ==> id in AssignedIds(items, |items|))
  }

  // ---------------------------------------------------------------- the size estimate

  /** `AssemblyItem::bytesRequired`; the occurrences of an assigned immutable
      have been counted by then. */
  function ItemEstimate(item: Item, refs: map<U256, seq<nat>>, width: nat): nat {
    match item
    case UndefinedItem => 0
    case Operation(_) => 1
    case Tag(_) => 1
    case PushString(_) => 1 + 32
    case Push(data) => 1 + Max(1, BytesRequired(data))
    case PushSubSize(_) => 1 + 4
    case PushProgramSize => 1 + 4
    case PushTag(_) => 1 + width
    case PushData(_) => 1 + width
    case PushSub(_) => 1 + width
    case PushLibraryAddress(_) => 1 + 21
    case PushDeployTimeAddress => 1 + 21
    case PushImmutable(_) => 1 + 32
    case AssignImmutable(id) => 1 + (3 + 32) * (if id in refs then |refs[id]| else 0)
  }

  function ItemsEstimate(items: seq<Item>, refs: map<U256, seq<nat>>, width: nat, n: nat): nat
    requires n <= |items|
  {
    if n == 0 then 0 else ItemsEstimate(items, refs, width, n - 1) + ItemEstimate(items[n - 1], refs, width)
  }

  function DataEstimate(data: seq<DataItem>, k: nat): nat
    requires k <= |data|
  {
    if k == 0 then 0 else DataEstimate(data, k - 1) + |data[k - 1].bytes|
  }

  /** The size the code is estimated at if a tag takes `width` bytes. */
  function EstimateAt(a: Assembly, refs: map<U256, seq<nat>>, width: nat): nat {
    1 + DataEstimate(a.data, |a.data|) + ItemsEstimate(a.items, refs, width, |a.items|)
  }

  function SubSizes(subs: seq<Assembled>, k: nat): nat
    requires k <= |subs|
  {
    if k == 0 then 0 else SubSizes(subs, k - 1) + |subs[k - 1].linked.bytecode|
  }

  /** The largest position of a tag in a sub-assembly, and at least 1: where the
      search for the tag width starts. */
  ghost predicate StartsAbove(subs: seq<Assembled>, start: nat) {
    && 1 <= start
    && forall k, t :: 0 <= k < |subs| && 0 <= t < |subs[k].tagPositions| && subs[k].tagPositions[t].Some? ==>
         subs[k].tagPositions[t].value <= start
  }

  /** The immutables read by the sub-assemblies; at most one of them may read any. */
  predicate ReadBySubs(subs: seq<Assembled>, refs: map<U256, seq<nat>>) {
    && (forall k :: 0 <= k < |subs| && subs[k].linked.immutableReferences != map[] ==>
       refs == subs[k].linked.immutableReferences)
    && ((forall k :: 0 <= k < |subs| ==> subs[k].linked.immutableReferences == map[]) ==> refs == map[])
  }

  /** `e` is the environment `assemble` works in, `width` the tag width at which
      its search stopped: the first that fits its own estimate. */
  ghost predicate Prepared(a: Assembly, subs: seq<Assembled>, e: Env, width: nat) {
    var estimate := EstimateAt(a, e.refs, width);
    && e.asm == a && e.subs == subs
    && StartsAbove(subs, width)
    && ReadBySubs(subs, e.refs)
    && BytesRequired(estimate) <= width
    && (forall w :: 1 <= w < width && StartsAbove(subs, w) ==> BytesRequired(EstimateAt(a, e.refs, w)) > w)
    && e.tagWidth == BytesRequired(estimate)
    && e.refWidth == BytesRequired(estimate + 1 + |a.auxiliary| + SubSizes(subs, |subs|))
  }

  /** The items whose estimate is the upper bound it is meant to be: sizes and
      offsets take no more bytes than were set aside for them, and an assigned
      immutable is read somewhere. */
  predicate ItemCovered(e: Env, width: nat, i: nat)
    requires i < |e.asm.items|
  {
    match e.asm.items[i]
    case PushTag(_) => e.tagWidth <= width
    case PushData(_) => e.refWidth <= width
    case PushSub(_) => e.refWidth <= width
    case PushProgramSize => e.refWidth <= 4
    case PushSubSize(id) => BytesRequired(SubSize(e, id)) <= 4
    case AssignImmutable(id) => id in e.refs && e.refs[id] != []
    case _ => true
  }

  /** Recorded offsets are machine words. */
  predicate OffsetsAreWords(refs: map<U256, seq<nat>>) {
    forall id, k :: id in refs && 0 <= k < |refs[id]| ==> BytesRequired(refs[id][k]) <= 8
  }

  predicate EstimateCovers(e: Env, width: nat) {
    OffsetsAreWords(e.refs) && forall i :: 0 <= i < |e.asm.items| ==> ItemCovered(e, width, i)
  }

  /** The checks before anything is emitted: the assembly is not marked invalid,
      at most one sub reads immutables, and none are both read and assigned. */
  predicate Admissible(a: Assembly, subs: seq<Assembled>) {
    && !a.invalid
    && (forall j, k :: 0 <= j < k < |subs| ==>
          subs[j].linked.immutableReferences == map[] || subs[k].linked.immutableReferences == map[])
    && !((exists i :: 0 <= i < |a.items| && a.items[i].AssignImmutable?) &&
         (exists i :: 0 <= i < |a.items| && a.items[i].PushImmutable?))
  }

  /** `out` is what assembling `a` has to give when its subs became `subs`. */
  ghost predicate CorrectOne(a: Assembly, subs: seq<Assembled>, out: Assembled) {
    Admissible(a, subs) && exists e, width, operands :: Prepared(a, subs, e, width) && Laid(e, operands, out)
  }

  /** The whole tree is assembled as it should be. */
  ghost predicate Correct(a: Assembly, out: Assembled)
    decreases a
  {
    && |out.subs| == |a.subs|
    && (forall k :: 0 <= k < |a.subs| ==> Correct(a.subs[k], out.subs[k]))
    && CorrectOne(a, out.subs, out)
  }
}
