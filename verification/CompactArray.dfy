/**
 The encoder generated for storage arrays that pack several items into a slot
 (`abiEncodingFunctionCompactStorageArray`): a loop over full slots and a spill
 that together emit what encoding the unpacked elements would.
 */
module CompactArray {
  import opened Bytes
  import opened AbiTypes
  import opened AbiDecoder
  import opened AbiEncoder
  import StorageLayout

  /** `storageBytes` of a value type. */
  function ItemBytes(kind: Kind): nat {
    match kind
    case UInt(bits) => bits / 8
    case SInt(bits) => bits / 8
    case FixedBytes(length) => length
    case Bool => 1
    case Enum(_) => 1
  }

  /** Several items fit a slot. */
  predicate Packs(kind: Kind) {
    1 <= ItemBytes(kind) <= 16
  }

  function ItemsPerSlot(kind: Kind): (k: nat)
    requires Packs(kind)
    ensures 2 <= k <= 32
  {
    32 / ItemBytes(kind)
  }

  /** `cleanupFromStorageFunction` on the low `ItemBytes(kind)` bytes. */
  function FromStorage(kind: Kind, low: nat): (w: nat)
    requires Packs(kind) && low < Pow256(ItemBytes(kind)) <= TWO_256
  {
    match kind
    case SInt(_) => if 2 * low < Pow256(ItemBytes(kind)) then low else low + (TWO_256 - Pow256(ItemBytes(kind)))
    case FixedBytes(length) => low * Pow256(32 - length)
    case _ => low
  }

  /** `extractFromStorageValue` for the item at byte `j * ItemBytes(kind)`. */
  function Extract(kind: Kind, slotValue: nat, j: nat): (w: nat)
    requires Packs(kind)
  {
    WordCapacity();
    Pow256Monotone(ItemBytes(kind), 32);
    FromStorage(kind, slotValue / Pow256(j * ItemBytes(kind)) % Pow256(ItemBytes(kind)))
  }

  /** What is encoded of that item: the cleaned word. */
  function Element(kind: Kind, slotValue: nat, j: nat): (w: nat)
    requires Packs(kind)
  {
    ExtractFits(kind, slotValue, j);
    Cleaned(kind, Extract(kind, slotValue, j))
  }

  /** Element `i`: in slot `i / k` from byte `(i % k) * ItemBytes(kind)` on. */
  function Item(storage: nat -> nat, kind: Kind, area: nat, i: nat): nat
    requires Packs(kind)
  {
    hide Add, ItemsPerSlot, Element;
    Element(kind, storage(Add(area, i / ItemsPerSlot(kind))), i % ItemsPerSlot(kind))
  }

  function Items(storage: nat -> nat, kind: Kind, area: nat, length: nat): (vs: seq<Value>)
    requires Packs(kind)
    ensures |vs| == length && forall i :: 0 <= i < length ==> vs[i] == WordValue(Item(storage, kind, area, i))
  {
    seq(length, i requires 0 <= i < length => WordValue(Item(storage, kind, area, i)))
  }

  /** The array as a type of the ABI. */
  function ArrayOf(kind: Kind, dynamic: bool, length: nat): Type {
    if dynamic then DynamicArray(Word(kind)) else StaticArray(Word(kind), length)
  }

  /** The elements are values of the type. */
  predicate Typed(storage: nat -> nat, kind: Kind, area: nat, length: nat)
    requires Packs(kind)
  {
    HaveTypes(Repeat(Word(kind), length), Items(storage, kind, area, length))
  }

  /** Enums in storage are in range; the generated code panics at any other. */
  predicate EnumsValid(storage: nat -> nat, kind: Kind, area: nat, length: nat)
    requires Packs(kind)
  {
    kind.Enum? ==> forall i :: 0 <= i < length ==> Item(storage, kind, area, i) < kind.members
  }

  // ---------------------------------------------------------------- what storage can hold

  lemma ExtractFits(kind: Kind, slotValue: nat, j: nat)
    requires Packs(kind)
    ensures Extract(kind, slotValue, j) < TWO_256 && Cleaned(kind, Extract(kind, slotValue, j)) >= 0
  {
    var n := ItemBytes(kind);
    WordCapacity();
    Pow256Monotone(n, 32);
    var low := slotValue / Pow256(j * n) % Pow256(n);
    if kind.FixedBytes? {
      Pow256Add(n, 32 - n);
      ShiftedInRange(low, Pow256(n), Pow256(32 - n));
    }
    hide Pow256, Pow2;
    if !kind.Enum? {
      CleanedInRange(kind, FromStorage(kind, low));
    }
  }

  /** Whatever is in a slot, what is encoded of it is in range, but for enums. */
  lemma ElementInRange(kind: Kind, slotValue: nat, j: nat)
    requires Packs(kind) && (kind.Enum? ==> Element(kind, slotValue, j) < kind.members)
    ensures InRange(kind, Element(kind, slotValue, j))
  {
    hide Extract;
    ExtractFits(kind, slotValue, j);
    CleanedInRange(kind, Extract(kind, slotValue, j));
  }

  lemma AlwaysTyped(storage: nat -> nat, kind: Kind, area: nat, length: nat)
    requires Packs(kind) && EnumsValid(storage, kind, area, length)
    ensures Typed(storage, kind, area, length)
  {
    hide Item, InRange, EnumsValid;
    forall i | 0 <= i < length ensures InRange(kind, Item(storage, kind, area, i)) {
      ItemInRange(storage, kind, area, length, i);
    }
    var ts, vs := Repeat(Word(kind), length), Items(storage, kind, area, length);
    forall i | 0 <= i < length ensures HasType(ts[i], vs[i]) {
      TypedWord(kind, Item(storage, kind, area, i));
    }
  }

  lemma TypedWord(kind: Kind, w: nat)
    requires InRange(kind, w)
    ensures HasType(Word(kind), WordValue(w))
  {
  }

  lemma ItemInRange(storage: nat -> nat, kind: Kind, area: nat, length: nat, i: nat)
    requires Packs(kind) && EnumsValid(storage, kind, area, length) && i < length
    ensures InRange(kind, Item(storage, kind, area, i))
  {
    hide Element, Add, ItemsPerSlot, InRange;
    assert kind.Enum? ==> Item(storage, kind, area, i) < kind.members;
    ElementInRange(kind, storage(Add(area, i / ItemsPerSlot(kind))), i % ItemsPerSlot(kind));
  }

  lemma ShiftedInRange(low: nat, a: nat, b: nat)
    requires low < a && b > 0
    ensures low * b < a * b && low * b % b == 0
  {
    MulMonotone(low + 1, a, b);
    DivModUnique(low * b, low, 0, b);
  }

  // ---------------------------------------------------------------- packed storage

  /** Value types as Solidity has them: integers of whole bytes, enums of up to 256 members. */
  predicate Storable(kind: Kind) {
    Packs(kind) &&
    match kind
    case UInt(bits) => bits % 8 == 0
    case SInt(bits) => bits % 8 == 0
    case Enum(members) => members <= 256
    case _ => true
  }

  /** The bytes that storage keeps of a word: the low ones, or the high ones of FixedBytes. */
  function Kept(kind: Kind, w: nat): (low: nat)
    requires Packs(kind)
  {
    hide Pow256;
    if kind.FixedBytes? then w / Pow256(32 - ItemBytes(kind)) else w % Pow256(ItemBytes(kind))
  }

  /** The value of the lowest bit of item `j`, where items have `n` bytes. */
  function Place(n: nat, j: nat): (p: nat)
    ensures p >= 1
  {
    Pow256(j * n)
  }

  /** A slot that holds `ws` from its lowest byte on. */
  function Packed(kind: Kind, ws: seq<nat>): (slotValue: nat)
    requires Packs(kind)
  {
    if ws == [] then 0
    else
      var j := |ws| - 1;
      Packed(kind, ws[..j]) + Kept(kind, ws[j]) * Place(ItemBytes(kind), j)
  }

  predicate AllInRange(kind: Kind, ws: seq<nat>) {
    forall i :: 0 <= i < |ws| ==> InRange(kind, ws[i])
  }

  /** The slot holds the words from `first` on, as many as fit, whatever else is in it. */
  predicate SlotHolds(slotValue: nat, kind: Kind, ws: seq<nat>, first: nat)
    requires Packs(kind) && first < |ws|
  {
    var n := if first + ItemsPerSlot(kind) <= |ws| then ItemsPerSlot(kind) else |ws| - first;
    slotValue % Place(ItemBytes(kind), n) == Packed(kind, ws[first..first + n])
  }

  /** The storage from `area` on holds the array `ws`, each slot as many words as fit. */
  ghost predicate StoresWords(storage: nat -> nat, kind: Kind, area: nat, ws: seq<nat>)
    requires Packs(kind)
  {
    forall q: nat :: q * ItemsPerSlot(kind) < |ws| ==>
      SlotHolds(storage(Add(area, q)), kind, ws, q * ItemsPerSlot(kind))
  }

  ghost predicate StoresArray(storage: nat -> nat, kind: Kind, area: nat, ws: seq<nat>) {
    Storable(kind) && AllInRange(kind, ws) && StoresWords(storage, kind, area, ws)
  }

  function Words(ws: seq<nat>): (vs: seq<Value>)
    ensures |vs| == |ws| && forall i :: 0 <= i < |ws| ==> vs[i] == WordValue(ws[i])
  {
    seq(|ws|, i requires 0 <= i < |ws| => WordValue(ws[i]))
  }

  lemma DivTimes(w: nat, p: nat)
    requires p > 0 && w % p == 0
    ensures w / p * p == w
  {
    assert w == p * (w / p) + w % p;
  }

  lemma DivBelow(w: nat, p: nat, b: nat)
    requires p > 0 && w < b * p
    ensures w / p < b
  {
    assert w == p * (w / p) + w % p;
    if w / p >= b {
      MulMonotone(b, w / p, p);
    }
  }

  /** Storing keeps enough of a word in range to get it back. */
  lemma KeptBack(kind: Kind, w: nat)
    requires Storable(kind) && InRange(kind, w)
    ensures Kept(kind, w) < Pow256(ItemBytes(kind)) <= TWO_256
    ensures FromStorage(kind, Kept(kind, w)) == w
  {
    var n := ItemBytes(kind);
    WordCapacity();
    Pow256Monotone(n, 32);
    match kind
    case FixedBytes(length) =>
      Pow256Add(length, 32 - length);
      hide Pow256;
      DivTimes(w, Pow256(32 - length));
      DivBelow(w, Pow256(32 - length), Pow256(length));
    case SInt(bits) => KeptSigned(bits, w);
    case UInt(bits) =>
      Pow2Pow256(n);
      hide Pow256, Pow2;
      assert bits == 8 * n;
      DivModUnique(w, 0, w, Pow256(n));
    case _ =>
      OneByte();
      hide Pow256;
      DivModUnique(w, 0, w, 256);
  }

  lemma OneByte()
    ensures Pow256(1) == 256
  {
    assert Pow256(0) == 1;
  }

  lemma KeptSigned(bits: nat, w: nat)
    requires Storable(SInt(bits)) && InRange(SInt(bits), w)
    ensures var p := Pow256(bits / 8);
            p <= TWO_256 && w % p < p && w == if 2 * (w % p) < p then w % p else w % p + (TWO_256 - p)
  {
    Pow2Pow256(bits / 8);
    WordCapacity();
    Pow256Monotone(bits / 8, 32);
    Pow2Divides(bits);
    hide Pow256, Pow2;
    CleanedSame(SInt(bits), w);
  }

  lemma DigitFits(low: nat, d: nat, p: nat, b: nat)
    requires low < p && d < b
    ensures low + d * p < b * p
  {
    MulMonotone(d + 1, b, p);
  }

  lemma NextPlace(n: nat, j: nat)
    ensures Place(n, j + 1) == Pow256(n) * Place(n, j)
  {
    hide Pow256;
    assert (j + 1) * n == n + j * n;
    Pow256Add(n, j * n);
  }

  lemma {:induction false} PackedFits(kind: Kind, ws: seq<nat>)
    requires Storable(kind) && AllInRange(kind, ws)
    ensures Packed(kind, ws) < Place(ItemBytes(kind), |ws|)
  {
    hide Pow256, Kept, InRange, ItemBytes, Place;
    if ws != [] {
      var j := |ws| - 1;
      PackedFits(kind, ws[..j]);
      KeptBack(kind, ws[j]);
      NextPlace(ItemBytes(kind), j);
      DigitFits(Packed(kind, ws[..j]), Kept(kind, ws[j]), Place(ItemBytes(kind), j), Pow256(ItemBytes(kind)));
    }
  }

  predicate Apart(p: nat, b: nat, r: nat, power: nat) {
    power == r * (b * p)
  }

  /** Digits below the top are those of the rest. */
  lemma DigitBelow(low: nat, top: nat, p: nat, b: nat, r: nat, power: nat)
    requires p > 0 && b > 0 && Apart(p, b, r, power)
    ensures (low + top * power) / p % b == low / p % b
  {
    var d := low / p;
    assert low == d * p + low % p;
    Regroup(top, p, b, r);
    DivModUnique(low + top * power, d + top * r * b, low % p, p);
    assert d == d / b * b + d % b;
    DivModUnique(d + (top * r) * b, d / b + top * r, d % b, b);
  }

  lemma Regroup(top: nat, p: nat, b: nat, r: nat)
    ensures top * (r * (b * p)) == (top * r * b) * p
  {
    assert r * (b * p) == (r * b) * p;
    assert top * ((r * b) * p) == (top * (r * b)) * p;
  }

  lemma DigitOfRemainder(v: nat, p: nat, b: nat, r: nat, power: nat)
    requires p > 0 && b > 0 && power > 0 && Apart(p, b, r, power)
    ensures v % power / p % b == v / p % b
  {
    hide Apart;
    assert v == v % power + v / power * power;
    DigitBelow(v % power, v / power, p, b, r, power);
  }

  lemma FirstPlace(n: nat)
    ensures Place(n, 0) == 1
  {
  }

  lemma ApartNext(p: nat, b: nat, r: nat, power: nat)
    requires Apart(p, b, r, power)
    ensures Apart(p, b, b * r, b * power)
  {
    assert b * (r * (b * p)) == (b * r) * (b * p);
  }

  lemma {:induction false} PlacesApart(n: nat, i: nat, j: nat)
    requires i < j
    ensures Apart(Place(n, i), Pow256(n), Place(n, j - i - 1), Place(n, j))
    decreases j
  {
    hide Place, Pow256;
    if j == i + 1 {
      FirstPlace(n);
      NextPlace(n, i);
    } else {
      hide Apart;
      PlacesApart(n, i, j - 1);
      NextPlace(n, j - i - 2);
      NextPlace(n, j - 1);
      ApartNext(Place(n, i), Pow256(n), Place(n, j - i - 2), Place(n, j - 1));
    }
  }

  /** Item `i` of the packed words is what was kept of word `i`. */
  lemma {:induction false} PackedAt(kind: Kind, ws: seq<nat>, i: nat)
    requires Storable(kind) && AllInRange(kind, ws) && i < |ws|
    ensures Packed(kind, ws) / Place(ItemBytes(kind), i) % Pow256(ItemBytes(kind)) == Kept(kind, ws[i])
  {
    hide Pow256, Kept, InRange, ItemBytes, Apart, Place;
    var j, n := |ws| - 1, ItemBytes(kind);
    var low := Packed(kind, ws[..j]);
    KeptBack(kind, ws[j]);
    if i == j {
      PackedFits(kind, ws[..j]);
      DivModUnique(Packed(kind, ws), Kept(kind, ws[j]), low, Place(n, i));
      DivModUnique(Kept(kind, ws[j]), 0, Kept(kind, ws[j]), Pow256(n));
    } else {
      PackedAt(kind, ws[..j], i);
      PlacesApart(n, i, j);
      DigitBelow(low, Kept(kind, ws[j]), Place(n, i), Pow256(n), Place(n, j - i - 1), Place(n, j));
    }
  }

  /** What is encoded of a slot that holds the words `ws` are these words. */
  lemma PackedElement(kind: Kind, slotValue: nat, ws: seq<nat>, i: nat)
    requires Storable(kind) && AllInRange(kind, ws) && i < |ws|
    requires slotValue % Place(ItemBytes(kind), |ws|) == Packed(kind, ws)
    ensures Element(kind, slotValue, i) == ws[i]
  {
    var n := ItemBytes(kind);
    ElementOf(kind, slotValue, i, ws[i]);
    hide *;
    PlacesApart(n, i, |ws|);
    DigitOfRemainder(slotValue, Place(n, i), Pow256(n), Place(n, |ws| - i - 1), Place(n, |ws|));
    PackedAt(kind, ws, i);
  }

  lemma ElementOf(kind: Kind, slotValue: nat, i: nat, w: nat)
    requires Storable(kind) && InRange(kind, w)
    ensures slotValue / Place(ItemBytes(kind), i) % Pow256(ItemBytes(kind)) == Kept(kind, w) ==>
              Element(kind, slotValue, i) == w
  {
    hide Pow256, Kept, ItemBytes, FromStorage;
    KeptBack(kind, w);
    CleanedSame(kind, w);
  }

  lemma InSlot(slotValue: nat, kind: Kind, ws: seq<nat>, first: nat, j: nat)
    requires Storable(kind) && AllInRange(kind, ws)
    requires j < ItemsPerSlot(kind) && first + j < |ws| && SlotHolds(slotValue, kind, ws, first)
    ensures Element(kind, slotValue, j) == ws[first + j]
  {
    hide InRange, Packed, Element, ItemBytes, Pow256, Place, ItemsPerSlot;
    var n := if first + ItemsPerSlot(kind) <= |ws| then ItemsPerSlot(kind) else |ws| - first;
    PackedElement(kind, slotValue, ws[first..first + n], j);
  }

  lemma SlotStored(storage: nat -> nat, kind: Kind, area: nat, ws: seq<nat>, q: nat, first: nat)
    requires Packs(kind) && StoresWords(storage, kind, area, ws)
    requires first == q * ItemsPerSlot(kind) && first < |ws|
    ensures SlotHolds(storage(Add(area, q)), kind, ws, first)
  {
    hide SlotHolds, Add, ItemsPerSlot;
  }

  lemma PackedItem(storage: nat -> nat, kind: Kind, area: nat, ws: seq<nat>, i: nat)
    requires Storable(kind) && AllInRange(kind, ws) && StoresWords(storage, kind, area, ws) && i < |ws|
    ensures Item(storage, kind, area, i) == ws[i]
  {
    hide InRange, SlotHolds, Element, ItemsPerSlot, ItemBytes, StoresWords, AllInRange, Add;
    var k := ItemsPerSlot(kind);
    SpillSize(i, k);
    SlotStored(storage, kind, area, ws, i / k, i / k * k);
    InSlot(storage(Add(area, i / k)), kind, ws, i / k * k, i % k);
  }

  /** Storage that holds the words `ws`, packed, has these words as items, and no enum
      out of range. */
  lemma PackedItems(storage: nat -> nat, kind: Kind, area: nat, ws: seq<nat>)
    requires StoresArray(storage, kind, area, ws)
    ensures Packs(kind) && Items(storage, kind, area, |ws|) == Words(ws) && EnumsValid(storage, kind, area, |ws|)
  {
    hide Item, StoresWords;
    forall i | 0 <= i < |ws|
      ensures Item(storage, kind, area, i) == ws[i]
    {
      PackedItem(storage, kind, area, ws, i);
    }
  }

  // ---------------------------------------------------------------- one item

  lemma WordHeadSizes(kind: Kind, n: nat, i: nat)
    requires i <= n
    ensures HeadSizes(Repeat(Word(kind), n), i) == 32 * i
  {
    RepeatedHeads(Word(kind), n, i);
  }

  lemma WordsSize(kind: Kind, vs: seq<Value>)
    requires HaveTypes(Repeat(Word(kind), |vs|), vs)
    ensures |TupleEncoding(Repeat(Word(kind), |vs|), vs)| == 32 * |vs|
    ensures AllStatic(Repeat(Word(kind), |vs|))
  {
    StaticEnd(Word(kind), vs);
    WordHeadSizes(kind, |vs|, |vs|);
  }

  method EmitItem(m: Memory, ghost before: seq<Byte>, ghost kind: Kind, ghost vs: seq<Value>, ghost start: nat,
      ghost i: nat, pos: nat, w: nat)
    requires i < |vs| && vs[i] == WordValue(w) && pos == start + 32 * i
    requires start + 32 * |vs| <= |before| == |m.data|
    requires Progress(before, m.data, Repeat(Word(kind), |vs|), vs, i, start)
    modifies m
    ensures |m.data| == |before| && Progress(before, m.data, Repeat(Word(kind), |vs|), vs, i + 1, start)
  {
    hide Holds, Patch, HeadSizes, TupleEncoding, Heads, Tails;
    ghost var ts, now := Repeat(Word(kind), |vs|), m.data;
    WordHeadSizes(kind, |vs|, i);
    WordsSize(kind, vs);
    m.MStore(pos, w);
    PatchWrites(now, pos, ToBigEndian(w, 32));
    StaticStep(before, now, m.data, ts, vs, i, start);
  }

  lemma ItemOfSlot(storage: nat -> nat, kind: Kind, area: nat, q: nat, j: nat)
    requires Packs(kind) && j < ItemsPerSlot(kind)
    ensures Item(storage, kind, area, q * ItemsPerSlot(kind) + j) == Element(kind, storage(Add(area, q)), j)
  {
    DivModUnique(q * ItemsPerSlot(kind) + j, q, j, ItemsPerSlot(kind));
  }

  // ---------------------------------------------------------------- the slots

  /** The slots `area`, `area + 1`, ... as addresses. */
  function SlotsFrom(area: nat, n: nat): (s: seq<nat>)
    ensures |s| == n && forall j :: 0 <= j < n ==> s[j] == Add(area, j)
  {
    seq(n, j requires 0 <= j < n => Add(area, j))
  }

  lemma NextSlot(area: nat, q: nat)
    ensures Add(Add(area, q), 1) == Add(area, q + 1)
    ensures SlotsFrom(area, q) + [Add(area, q)] == SlotsFrom(area, q + 1)
  {
  }

  /** The loop over all full slots. */
  method FullSlots(m: Memory, storage: nat -> nat, kind: Kind, area: nat, length: nat, start: nat)
    returns (q: nat, itemCounter: nat, pos: nat, srcPtr: nat, loads: seq<nat>)
    requires Packs(kind) && Typed(storage, kind, area, length) && area < TWO_256
    requires start + 32 * length <= |m.data|
    modifies m
    ensures q == length / ItemsPerSlot(kind) && itemCounter == q * ItemsPerSlot(kind) <= length
    ensures pos == start + 32 * itemCounter && srcPtr == Add(area, q) && loads == SlotsFrom(area, q)
    ensures |m.data| == |old(m.data)|
    ensures Progress(old(m.data), m.data, Repeat(Word(kind), length), Items(storage, kind, area, length), itemCounter,
      start)
  {
    hide Progress, Item, Element, Add, HaveTypes, ItemsPerSlot;
    ghost var before, vs := m.data, Items(storage, kind, area, length);
    var k := ItemsPerSlot(kind);
    WordHeadSizes(kind, length, length);
    AddZero(area);
    ProgressStarts(before, Repeat(Word(kind), length), vs, start);
    q, itemCounter, pos, srcPtr, loads := 0, 0, start, area, [];
    while itemCounter + (k - 1) < length
      invariant itemCounter == q * k <= length && pos == start + 32 * itemCounter
      invariant srcPtr == Add(area, q) && loads == SlotsFrom(area, q)
      invariant |m.data| == |before| && Progress(before, m.data, Repeat(Word(kind), length), vs, itemCounter, start)
    {
      pos := EmitSlot(m, before, storage, kind, area, length, start, q, itemCounter, pos, storage(srcPtr), k);
      NextSlot(area, q);
      loads := loads + [srcPtr];
      srcPtr := Add(srcPtr, 1);
      itemCounter := itemCounter + k;
      q := q + 1;
    }
    DivModUnique(length, q, length - itemCounter, k);
  }

  lemma AddZero(area: nat)
    requires area < TWO_256
    ensures Add(area, 0) == area && SlotsFrom(area, 0) == []
  {
  }

  /** The first `count` items of slot `q`. */
  method EmitSlot(
    m: Memory, ghost before: seq<Byte>, ghost storage: nat -> nat, kind: Kind, ghost area: nat, ghost length: nat,
    ghost start: nat, ghost q: nat, ghost done: nat, first: nat, slotValue: nat, count: nat)
    returns (pos: nat)
    requires Packs(kind) && slotValue == storage(Add(area, q)) && count <= ItemsPerSlot(kind)
    requires done == q * ItemsPerSlot(kind) && done + count <= length && first == start + 32 * done
    requires start + 32 * length <= |before| == |m.data|
    requires Progress(before, m.data, Repeat(Word(kind), length), Items(storage, kind, area, length), done, start)
    modifies m
    ensures pos == first + 32 * count && |m.data| == |before|
    ensures Progress(before, m.data, Repeat(Word(kind), length), Items(storage, kind, area, length), done + count,
      start)
  {
    hide Progress, Item, Element, Add, ItemsPerSlot;
    ghost var vs := Items(storage, kind, area, length);
    pos := first;
    for j := 0 to count
      invariant pos == first + 32 * j && |m.data| == |before|
      invariant Progress(before, m.data, Repeat(Word(kind), length), vs, done + j, start)
    {
      ItemOfSlot(storage, kind, area, q, j);
      EmitItem(m, before, kind, vs, start, done + j, pos, Element(kind, slotValue, j));
      pos := pos + 32;
    }
  }

  /** The items of the last slot, each behind its own range check. */
  method Spill(
    m: Memory, ghost before: seq<Byte>, ghost storage: nat -> nat, kind: Kind, ghost area: nat, dynamic: bool,
        length: nat,
    ghost start: nat, ghost q: nat, first: nat, slotValue: nat, done: nat)
    returns (pos: nat)
    requires Packs(kind) && slotValue == storage(Add(area, q))
    requires q == length / ItemsPerSlot(kind) && done == q * ItemsPerSlot(kind) <= length && first == start + 32 * done
    requires start + 32 * length <= |before| == |m.data|
    requires Progress(before, m.data, Repeat(Word(kind), length), Items(storage, kind, area, length), done, start)
    modifies m
    ensures pos == start + 32 * length && |m.data| == |before|
    ensures Progress(before, m.data, Repeat(Word(kind), length), Items(storage, kind, area, length), length, start)
  {
    hide Progress, Item, Element, Add, ItemsPerSlot;
    ghost var vs := Items(storage, kind, area, length);
    var k := ItemsPerSlot(kind);
    var spill := length % k;
    SpillSize(length, k);
    var itemCounter := done;
    pos := first;
    for j := 0 to k
      invariant itemCounter == done + (if j < spill then j else spill)
      invariant pos == start + 32 * itemCounter && |m.data| == |before|
      invariant Progress(before, m.data, Repeat(Word(kind), length), vs, itemCounter, start)
    {
      var inRange := if dynamic then itemCounter < length else j < spill;
      if inRange {
        ItemOfSlot(storage, kind, area, q, j);
        EmitItem(m, before, kind, vs, start, itemCounter, pos, Element(kind, slotValue, j));
        pos := pos + 32;
        itemCounter := itemCounter + 1;
      }
    }
  }

  lemma SpillSize(length: nat, k: nat)
    requires k > 0
    ensures length == length / k * k + length % k && 0 <= length % k < k
  {
    assert length == k * (length / k) + length % k;
  }

  /** `abiEncodingFunctionCompactStorageArray`: it writes exactly the encoding of
      the words that storage holds in packed form, and a static array's slots are
      read once each. */
  method EncodeCompact(m: Memory, storage: nat -> nat, kind: Kind, area: nat, dynamic: bool, length: nat, pos: nat)
    returns (end: nat, loads: seq<nat>)
    requires Packs(kind) && EnumsValid(storage, kind, area, length) && area < TWO_256
    requires pos + 32 + 32 * length <= |m.data|
    modifies m
    ensures HasType(ArrayOf(kind, dynamic, length), Elements(Items(storage, kind, area, length)))
    ensures var bs := Encoding(ArrayOf(kind, dynamic, length), Elements(Items(storage, kind, area, length)));
            Encoded(old(m.data), m.data, pos, bs, true) && end == pos + |bs|
    ensures forall ws | |ws| == length && StoresArray(storage, kind, area, ws) ::
              HasType(ArrayOf(kind, dynamic, length), Elements(Words(ws))) &&
              Encoded(old(m.data), m.data, pos, Encoding(ArrayOf(kind, dynamic, length), Elements(Words(ws))), true)
    ensures loads == SlotsFrom(area, |loads|)
    ensures |loads| == if dynamic then length / ItemsPerSlot(kind) + 1
      else (length + ItemsPerSlot(kind) - 1) / ItemsPerSlot(kind)
  {
    hide Progress, Item, Element, Add, ItemsPerSlot, Encoding, Written, Patch;
    AlwaysTyped(storage, kind, area, length);
    ghost var vs := Items(storage, kind, area, length);
    ghost var before := m.data;
    var start := pos;
    if dynamic {
      m.MStore(pos, length);
      start := pos + 32;
    }
    ghost var mid := m.data;
    var k := ItemsPerSlot(kind);
    var q, itemCounter, at, srcPtr := 0, 0, start, area;
    loads := [];
    SpillSize(length, k);
    if dynamic || length >= k {
      q, itemCounter, at, srcPtr, loads := FullSlots(m, storage, kind, area, length, start);
    } else {
      AddZero(area);
      WordHeadSizes(kind, length, length);
      ProgressStarts(mid, Repeat(Word(kind), length), vs, start);
      DivModUnique(length, 0, length, k);
    }
    CeilingDiv(length, k);
    if dynamic || length % k != 0 {
      NextSlot(area, q);
      loads := loads + [srcPtr];
      at := Spill(m, mid, storage, kind, area, dynamic, length, start, q, at, storage(srcPtr), itemCounter);
    }
    end := at;
    ProgressEnds(mid, m.data, Repeat(Word(kind), length), vs, start);
    CompactEncoded(before, mid, m.data, kind, dynamic, vs, pos);
    hide StoresArray, Encoded;
    forall ws | |ws| == length && StoresArray(storage, kind, area, ws)
      ensures Words(ws) == vs
    {
      PackedItems(storage, kind, area, ws);
    }
  }

  lemma CeilingDiv(n: nat, k: nat)
    requires k > 0
    ensures (n + k - 1) / k == if n % k == 0 then n / k else n / k + 1
  {
    SpillSize(n, k);
    if n % k == 0 {
      DivModUnique(n + k - 1, n / k, k - 1, k);
    } else {
      DivModUnique(n + k - 1, n / k + 1, n % k - 1, k);
    }
  }

  lemma CompactEncoded(before: seq<Byte>, mid: seq<Byte>, after: seq<Byte>, kind: Kind, dynamic: bool, vs: seq<Value>,
      pos: nat)
    requires HaveTypes(Repeat(Word(kind), |vs|), vs) && pos + 32 + 32 * |vs| <= |before|
    requires mid == if dynamic then Patch(before, pos, ToBigEndian(|vs|, 32)) else before
    requires Encoded(mid, after, if dynamic then pos + 32
      else pos, TupleEncoding(Repeat(Word(kind), |vs|), vs), AllStatic(Repeat(Word(kind), |vs|)))
    ensures HasType(ArrayOf(kind, dynamic, |vs|), Elements(vs))
    ensures var bs := Encoding(ArrayOf(kind, dynamic, |vs|), Elements(vs));
            Encoded(before, after, pos, bs, true) && |bs| == (if dynamic then 32 else 0) + 32 * |vs|
  {
    hide Patch, Written, TupleEncoding;
    var t, v, contents := ArrayOf(kind, dynamic, |vs|), Elements(vs), TupleEncoding(Repeat(Word(kind), |vs|), vs);
    WordsSize(kind, vs);
    IsTyped(kind, dynamic, vs);
    if dynamic {
      var word := ToBigEndian(|vs|, 32);
      ArrayEncoding(Word(kind), v);
      LengthThenElements(before, mid, after, pos, |vs|, contents);
      PatchTwice(before, pos, word, contents);
    } else {
      StaticEncoding(kind, vs);
    }
  }

  lemma IsTyped(kind: Kind, dynamic: bool, vs: seq<Value>)
    requires HaveTypes(Repeat(Word(kind), |vs|), vs)
    ensures HasType(ArrayOf(kind, dynamic, |vs|), Elements(vs))
  {
    forall i | 0 <= i < |vs| ensures HasType(Word(kind), vs[i]) {
      assert HasType(Repeat(Word(kind), |vs|)[i], vs[i]);
    }
  }

  lemma StaticEncoding(kind: Kind, vs: seq<Value>)
    requires HaveTypes(Repeat(Word(kind), |vs|), vs)
    requires HasType(StaticArray(Word(kind), |vs|), Elements(vs))
    ensures Encoding(StaticArray(Word(kind), |vs|), Elements(vs)) == TupleEncoding(Repeat(Word(kind), |vs|), vs)
  {
  }

  /** A static array's encoder reads exactly the slots the array occupies. */
  lemma SlotsReadAreStorageSize(kind: Kind, length: nat)
    requires Packs(kind) && length >= 1
    ensures StorageLayout.StorageSize(StorageLayout.StaticArray(StorageLayout.Value(ItemBytes(kind)), length))
         == (length + ItemsPerSlot(kind) - 1) / ItemsPerSlot(kind)
  {
    CeilingDiv(length, ItemsPerSlot(kind));
    SpillSize(length, ItemsPerSlot(kind));
  }
}
