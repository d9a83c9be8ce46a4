/**
 Storage layout, after `StorageOffsets::computeOffsets` and the storage sizes of
 libsolidity/ast/Types.cpp: greedy packing that is safe, optimal and stable
 under appending, and an upper bound that keeps every assertion from firing.
 */
module StorageLayout {
  import opened Wrappers
  import Bytes

  const SLOTS: nat := Bytes.TWO_256

  /** `Value` are the value types by their number of bytes; mappings and
      dynamically sized arrays are a `Pointer` to one slot; types for which
      `canBeStored` is false are `Unstorable`. */
  datatype SType =
    | Value(bytes: nat)
    | Pointer
    | StaticArray(base: SType, length: nat)
    | Struct(members: seq<SType>)
    | Unstorable

  /** Value types have between 1 and 32 bytes, array lengths are at least 1,
      array elements and struct members can be stored. */
  predicate WellFormed(t: SType) {
    match t
    case Value(bytes) => 1 <= bytes <= 32
    case Pointer => true
    case StaticArray(base, length) => length >= 1 && !base.Unstorable? && WellFormed(base)
    case Struct(members) => forall i :: 0 <= i < |members| ==> !members[i].Unstorable? && WellFormed(members[i])
    case Unstorable => true
  }

  function Max(a: nat, b: nat): nat {
    if a < b then b else a
  }

  function StorageBytes(t: SType): nat {
    if t.Value? then t.bytes else 32
  }

  /** Where the next variable could go: a slot and a byte in it. */
  datatype Cursor = Cursor(slot: nat, byte: nat)

  /** The place of a variable: the cursor, or the next slot if it would overflow. */
  function Fit(c: Cursor, bytes: nat): Cursor {
    if c.byte + bytes > 32 then Cursor(c.slot + 1, 0) else c
  }

  function Past(c: Cursor, bytes: nat, size: nat): Cursor {
    if size == 1 && c.byte + bytes <= 32 then Cursor(c.slot, c.byte + bytes) else Cursor(c.slot + size, 0)
  }

  /** The cursor after the first `i` variables. */
  function After(types: seq<SType>, i: nat): Cursor
    requires i <= |types|
    decreases types, i
  {
    if i == 0 then Cursor(0, 0)
    else if types[i - 1].Unstorable? then After(types, i - 1)
    else Past(Fit(After(types, i - 1), StorageBytes(types[i - 1])), StorageBytes(types[i - 1]),
        StorageSize(types[i - 1]))
  }

  function SlotsOf(c: Cursor): nat {
    if c.byte > 0 then c.slot + 1 else c.slot
  }

  /** `storageSize`, without the assertions. */
  function StorageSize(t: SType): nat
    decreases t, 0
  {
    match t
    case Value(_) => 1
    case Pointer => 1
    case StaticArray(base, length) =>
      Max(1, if StorageBytes(base) == 0 then 1
             else if StorageBytes(base) < 32 then (length + (32 / StorageBytes(base) - 1)) / (32 / StorageBytes(base))
             else length * StorageSize(base))
    case Struct(members) => Max(1, SlotsOf(After(members, |members|)))
    case Unstorable => 1
  }

  /** The place of variable `i`. */
  function Place(types: seq<SType>, i: nat): Cursor
    requires i < |types|
  {
    Fit(After(types, i), StorageBytes(types[i]))
  }

  /** The loop of `computeOffsets`; None where "Object too large for storage" fires. */
  datatype Offsets = Offsets(places: map<nat, Cursor>, size: nat)

  method ComputeOffsets(types: seq<SType>) returns (r: Option<Offsets>)
    ensures r.None? <==> SlotsOf(After(types, |types|)) >= SLOTS
    ensures r.Some? ==> r.value.size == SlotsOf(After(types, |types|))
    ensures r.Some? ==> r.value.places == map i | 0 <= i < |types| && !types[i].Unstorable? :: Place(types, i)
  {
    hide StorageSize;
    var slotOffset: nat, byteOffset: nat := 0, 0;
    var offsets: map<nat, Cursor> := map[];
    for i := 0 to |types|
      invariant Cursor(slotOffset, byteOffset) == After(types, i)
      invariant offsets == map k | 0 <= k < i && !types[k].Unstorable? :: Place(types, k)
    {
      if !types[i].Unstorable? {
        if byteOffset + StorageBytes(types[i]) > 32 {
          slotOffset := slotOffset + 1;
          byteOffset := 0;
        }
        if slotOffset >= SLOTS {
          assert Cursor(slotOffset, byteOffset) == Place(types, i);
          CursorGrows(types, i + 1, |types|);
          return None;
        }
        offsets := offsets[i := Cursor(slotOffset, byteOffset)];
        if StorageSize(types[i]) == 1 && byteOffset + StorageBytes(types[i]) <= 32 {
          byteOffset := byteOffset + StorageBytes(types[i]);
        } else {
          slotOffset := slotOffset + StorageSize(types[i]);
          byteOffset := 0;
        }
      }
    }
    if byteOffset > 0 {
      slotOffset := slotOffset + 1;
    }
    if slotOffset >= SLOTS {
      return None;
    }
    return Some(Offsets(offsets, slotOffset));
  }

  lemma {:induction false} CursorGrows(types: seq<SType>, i: nat, n: nat)
    requires i <= n <= |types|
    ensures After(types, i).slot <= After(types, n).slot
    decreases n
  {
    hide StorageSize;
    if i < n {
      CursorGrows(types, i, n - 1);
    }
  }

  // ---------------------------------------------------------------- safety

  /** A layout in units of bytes: variable `i` starts at `start[i]`. */
  function Extent(t: SType): nat {
    if StorageSize(t) == 1 then StorageBytes(t) else 32 * StorageSize(t)
  }

  /** What any layout of these variables in this order has to obey: a variable
      of one slot stays within one slot, a larger one starts at a slot, and none
      begins before an earlier one has ended. */
  predicate ValidLayout(types: seq<SType>, start: seq<nat>) {
    && |start| == |types|
    && (forall i :: 0 <= i < |types| && !types[i].Unstorable? ==>
          if StorageSize(types[i]) == 1 then start[i] % 32 + StorageBytes(types[i]) <= 32 else start[i] % 32 == 0)
    && (forall i, j :: 0 <= i < j < |types| && !types[i].Unstorable? && !types[j].Unstorable? ==>
          start[i] + Extent(types[i]) <= start[j])
  }

  /** `slots` slots hold the whole layout. */
  predicate HeldBy(types: seq<SType>, start: seq<nat>, slots: nat)
    requires |start| == |types|
  {
    forall i :: 0 <= i < |types| && !types[i].Unstorable? ==> start[i] + Extent(types[i]) <= 32 * slots
  }

  function Address(c: Cursor): nat {
    32 * c.slot + c.byte
  }

  function Starts(types: seq<SType>): (s: seq<nat>)
    ensures |s| == |types|
  {
    seq(|types|, i requires 0 <= i < |types| => Address(Place(types, i)))
  }

  /** Only types of 32 bytes take more than one slot. */
  lemma {:induction false} SizeFacts(t: SType)
    requires WellFormed(t)
    ensures StorageSize(t) >= 1 && 1 <= StorageBytes(t) <= 32
    ensures StorageSize(t) > 1 ==> StorageBytes(t) == 32
  {
  }

  lemma {:induction false} CursorInSlot(types: seq<SType>, i: nat)
    requires i <= |types| && forall k :: 0 <= k < |types| ==> WellFormed(types[k])
    ensures After(types, i).byte <= 32
  {
    hide StorageSize;
    if i > 0 {
      CursorInSlot(types, i - 1);
    }
  }

  /** One step of the packing: the variable ends where the cursor goes. */
  lemma StepEnds(types: seq<SType>, i: nat)
    requires i < |types| && !types[i].Unstorable? && forall k :: 0 <= k < |types| ==> WellFormed(types[k])
    ensures Address(After(types, i)) <= Address(Place(types, i))
    ensures Address(Place(types, i)) + Extent(types[i]) == Address(After(types, i + 1))
    ensures if StorageSize(types[i]) == 1 then Place(types, i).byte + StorageBytes(types[i]) <= 32
      else Place(types, i).byte == 0
  {
    CursorInSlot(types, i);
    SizeFacts(types[i]);
    hide StorageSize, WellFormed;
  }

  lemma {:induction false} AddressGrows(types: seq<SType>, i: nat, n: nat)
    requires i <= n <= |types| && forall k :: 0 <= k < |types| ==> WellFormed(types[k])
    ensures Address(After(types, i)) <= Address(After(types, n))
    decreases n
  {
    hide StorageSize, WellFormed, Address, Extent, Place;
    if i < n {
      AddressGrows(types, i, n - 1);
      if !types[n - 1].Unstorable? {
        StepEnds(types, n - 1);
      }
    }
  }

  lemma StartsWell(types: seq<SType>, i: nat)
    requires i < |types| && !types[i].Unstorable? && forall k :: 0 <= k < |types| ==> WellFormed(types[k])
    ensures var s := Address(Place(types, i));
            if StorageSize(types[i]) == 1 then s % 32 + StorageBytes(types[i]) <= 32 else s % 32 == 0
  {
    hide StorageSize, WellFormed, Extent, Place, Address, StorageBytes, After;
    StepEnds(types, i);
    SizeFacts(types[i]);
    ByteInSlot(Place(types, i));
  }

  lemma ByteInSlot(c: Cursor)
    requires c.byte < 32
    ensures Address(c) % 32 == c.byte
  {
  }

  lemma EndsInside(types: seq<SType>, i: nat)
    requires i < |types| && !types[i].Unstorable? && forall k :: 0 <= k < |types| ==> WellFormed(types[k])
    ensures Address(Place(types, i)) + Extent(types[i]) <= 32 * SlotsOf(After(types, |types|))
  {
    hide StorageSize, WellFormed, Extent, Place, After;
    StepEnds(types, i);
    AddressGrows(types, i + 1, |types|);
    CursorInSlot(types, |types|);
  }

  lemma NoOverlap(types: seq<SType>, i: nat, j: nat)
    requires i < j < |types| && !types[i].Unstorable? && !types[j].Unstorable?
    requires forall k :: 0 <= k < |types| ==> WellFormed(types[k])
    ensures Address(Place(types, i)) + Extent(types[i]) <= Address(Place(types, j))
  {
    hide StorageSize, WellFormed, Extent, Place, After, Address;
    StepEnds(types, i);
    AddressGrows(types, i + 1, j);
    StepEnds(types, j);
  }

  /** Packing never lets two variables overlap, never splits a small one across
      slots, starts large ones at a slot, and reports a size that covers them all. */
  lemma PackingIsSafe(types: seq<SType>)
    requires forall k :: 0 <= k < |types| ==> WellFormed(types[k])
    ensures ValidLayout(types, Starts(types))
    ensures HeldBy(types, Starts(types), SlotsOf(After(types, |types|)))
  {
    hide StorageSize, WellFormed, Extent, Place, After, Address, StorageBytes, SlotsOf;
    forall i | 0 <= i < |types| && !types[i].Unstorable?
      ensures var s := Starts(types)[i];
              if StorageSize(types[i]) == 1 then s % 32 + StorageBytes(types[i]) <= 32 else s % 32 == 0
      ensures Starts(types)[i] + Extent(types[i]) <= 32 * SlotsOf(After(types, |types|))
    {
      StartsWell(types, i);
      EndsInside(types, i);
    }
    forall i, j | 0 <= i < j < |types| && !types[i].Unstorable? && !types[j].Unstorable?
      ensures Starts(types)[i] + Extent(types[i]) <= Starts(types)[j]
    {
      NoOverlap(types, i, j);
    }
  }

  // ---------------------------------------------------------------- optimality

  /** The address by which the first `i` variables of a layout have ended. */
  function LatestEnd(types: seq<SType>, start: seq<nat>, i: nat): nat
    requires i <= |types| == |start|
  {
    if i == 0 then 0
    else if types[i - 1].Unstorable? then LatestEnd(types, start, i - 1)
    else Max(LatestEnd(types, start, i - 1), start[i - 1] + Extent(types[i - 1]))
  }

  lemma {:induction false} EndsBefore(types: seq<SType>, start: seq<nat>, i: nat, bound: nat)
    requires i <= |types| == |start|
    requires forall k :: 0 <= k < i && !types[k].Unstorable? ==> start[k] + Extent(types[k]) <= bound
    ensures LatestEnd(types, start, i) <= bound
  {
    hide Extent;
    if i > 0 {
      EndsBefore(types, start, i - 1, bound);
    }
  }

  /** A variable that does not fit the current slot cannot start in it anywhere. */
  lemma CannotStartEarlier(c: Cursor, bytes: nat, single: bool, s: nat)
    requires c.byte <= 32 && 1 <= bytes <= 32 && (!single ==> bytes == 32)
    requires Address(c) <= s
    requires if single then s % 32 + bytes <= 32 else s % 32 == 0
    ensures Address(Fit(c, bytes)) <= s
  {
  }

  /** Greedy packing stays ahead of every valid layout at every variable. */
  lemma {:induction false} StaysAhead(types: seq<SType>, start: seq<nat>, i: nat)
    requires forall k :: 0 <= k < |types| ==> WellFormed(types[k])
    requires ValidLayout(types, start) && i <= |types|
    ensures Address(After(types, i)) <= LatestEnd(types, start, i)
    ensures i < |types| && !types[i].Unstorable? ==> Starts(types)[i] <= start[i]
  {
    hide StorageSize, WellFormed, StorageBytes, Extent, Place, Address;
    if i == 0 {
      assert Address(After(types, 0)) == 0 by { NothingPlaced(types); }
    } else {
      StaysAhead(types, start, i - 1);
      if !types[i - 1].Unstorable? {
        StepEnds(types, i - 1);
      }
    }
    if i < |types| && !types[i].Unstorable? {
      NoEarlierStart(types, start, i);
    }
  }

  lemma NothingPlaced(types: seq<SType>)
    ensures Address(After(types, 0)) == 0
  {
  }

  lemma NoEarlierStart(types: seq<SType>, start: seq<nat>, i: nat)
    requires forall k :: 0 <= k < |types| ==> WellFormed(types[k])
    requires ValidLayout(types, start) && i < |types| && !types[i].Unstorable?
    requires Address(After(types, i)) <= LatestEnd(types, start, i)
    ensures Address(Place(types, i)) <= start[i]
  {
    hide StorageSize, WellFormed, StorageBytes, Extent, Address, Fit, After;
    EndsBefore(types, start, i, start[i]);
    CursorInSlot(types, i);
    SizeFacts(types[i]);
    CannotStartEarlier(After(types, i), StorageBytes(types[i]), StorageSize(types[i]) == 1, start[i]);
  }

  /** Hence no layout of the same variables in the same order uses fewer slots. */
  lemma PackingIsOptimal(types: seq<SType>, start: seq<nat>, slots: nat)
    requires forall k :: 0 <= k < |types| ==> WellFormed(types[k])
    requires ValidLayout(types, start) && HeldBy(types, start, slots)
    ensures SlotsOf(After(types, |types|)) <= slots
  {
    hide StorageSize, WellFormed, Extent, After, LatestEnd;
    StaysAhead(types, start, |types|);
    EndsBefore(types, start, |types|, 32 * slots);
    CursorInSlot(types, |types|);
  }

  // ---------------------------------------------------------------- stability

  /** Appending variables moves none of those before them. */
  lemma {:induction false} AppendingIsStable(types: seq<SType>, more: seq<SType>, i: nat)
    requires i <= |types|
    ensures After(types + more, i) == After(types, i)
    ensures i < |types| ==> Place(types + more, i) == Place(types, i)
  {
    hide StorageSize;
    if i > 0 {
      AppendingIsStable(types, more, i - 1);
    }
  }

  // ---------------------------------------------------------------- the upper bound

  /** `storageSizeUpperBound`. */
  function UpperBound(t: SType): nat {
    match t
    case StaticArray(base, length) => length * UpperBound(base)
    case Struct(members) => 1 + UpperBounds(members, |members|)
    case _ => 1
  }

  function UpperBounds(types: seq<SType>, n: nat): nat
    requires n <= |types|
    decreases types, n
  {
    if n == 0 then 0 else UpperBounds(types, n - 1) + UpperBound(types[n - 1])
  }

  /** `storageSize` with its assertions: None where "too large for storage" fires. */
  function CheckedSize(t: SType): Option<nat>
    decreases t, 0
  {
    match t
    case StaticArray(base, length) =>
      if 0 < StorageBytes(base) < 32 then
        var size := (length + (32 / StorageBytes(base) - 1)) / (32 / StorageBytes(base));
        if size < SLOTS then Some(Max(1, size)) else None
      else if StorageBytes(base) == 0 then Some(1)
      else
        var inner := CheckedSize(base);
        if inner.Some? && length * inner.value < SLOTS then Some(Max(1, length * inner.value)) else None
    case Struct(members) =>
      if AllChecked(members, |members|) && SlotsOf(After(members, |members|)) < SLOTS then
        Some(Max(1, SlotsOf(After(members, |members|))))
      else None
    case _ => Some(1)
  }

  predicate AllChecked(types: seq<SType>, n: nat)
    requires n <= |types|
    decreases types, n
  {
    n == 0 || (AllChecked(types, n - 1) && (types[n - 1].Unstorable? || CheckedSize(types[n - 1]).Some?))
  }

  /** `validForLocation` for storage. */
  predicate ValidForStorage(t: SType) {
    match t
    case StaticArray(base, length) => (base.StaticArray? ==> ValidForStorage(base)) && UpperBound(t) < SLOTS
    case Struct(members) =>
      (forall i :: 0 <= i < |members| && (members[i].StaticArray? || members[i].Struct?) ==>
          ValidForStorage(members[i])) &&
      UpperBound(t) < SLOTS
    case _ => true
  }

  lemma CeilingBelow(length: nat, perSlot: nat)
    requires perSlot >= 1
    ensures (length + (perSlot - 1)) / perSlot <= length
  {
    var quotient := (length + (perSlot - 1)) / perSlot;
    if length == 0 {
      assert quotient == 0;
    } else if quotient > length {
      assert (length - 1) * (perSlot - 1) >= 0;
      TimesMonotone(length + 1, quotient, perSlot);
    }
  }

  lemma TimesMonotone(a: nat, b: nat, d: nat)
    requires a <= b
    ensures a * d <= b * d && d * a <= d * b
  {
  }

  lemma ArrayWithinBound(base: SType, length: nat)
    requires length >= 1 && 1 <= StorageSize(base) <= UpperBound(base)
    ensures StorageSize(StaticArray(base, length)) <= length * UpperBound(base)
  {
    hide UpperBound;
    TimesMonotone(StorageSize(base), UpperBound(base), length);
    TimesMonotone(1, UpperBound(base), length);
    if 0 < StorageBytes(base) < 32 {
      CeilingBelow(length, 32 / StorageBytes(base));
    }
  }

  lemma {:induction false} BoundPositive(t: SType)
    requires WellFormed(t)
    ensures UpperBound(t) >= 1
    decreases t
  {
    if t.StaticArray? {
      BoundPositive(t.base);
      assert t.length * UpperBound(t.base) >= UpperBound(t.base);
    }
  }

  /** A type never takes more slots than its upper bound. */
  lemma {:induction false} SizeWithinBound(t: SType)
    requires WellFormed(t)
    ensures StorageSize(t) <= UpperBound(t)
    decreases t, 0
  {
    match t
    case StaticArray(base, length) =>
      SizeWithinBound(base);
      SizeFacts(base);
      ArrayWithinBound(base, length);
    case Struct(members) =>
      MembersWithinBound(members, |members|);
    case _ =>
  }

  lemma {:induction false} MembersWithinBound(types: seq<SType>, n: nat)
    requires n <= |types| && forall k :: 0 <= k < |types| ==> WellFormed(types[k])
    ensures SlotsOf(After(types, n)) <= UpperBounds(types, n)
    ensures After(types, n).byte <= 32
    decreases types, n
  {
    if n > 0 {
      MembersWithinBound(types, n - 1);
      SizeWithinBound(types[n - 1]);
      SizeFacts(types[n - 1]);
      BoundPositive(types[n - 1]);
      hide StorageSize, WellFormed, UpperBound;
    }
  }

  lemma {:induction false} BoundsGrow(types: seq<SType>, i: nat, n: nat)
    requires i < n <= |types|
    ensures UpperBound(types[i]) <= UpperBounds(types, n)
    decreases n
  {
    hide UpperBound;
    if i < n - 1 {
      BoundsGrow(types, i, n - 1);
    }
  }

  /** A type whose upper bound fits storage trips none of the assertions, at any
      depth, and its size is the plain one. */
  lemma {:induction false} BoundedIsChecked(t: SType)
    requires WellFormed(t) && UpperBound(t) < SLOTS
    ensures CheckedSize(t) == Some(StorageSize(t))
    decreases t, 0
  {
    hide StorageSize, CheckedSize;
    SizeWithinBound(t);
    match t
    case StaticArray(base, length) =>
      TimesMonotone(1, length, UpperBound(base));
      BoundedIsChecked(base);
      ArrayChecked(base, length);
    case Struct(members) =>
      MembersChecked(members, |members|, UpperBounds(members, |members|));
      StructChecked(members);
    case _ =>
      OneSlotChecked(t);
  }

  lemma ArrayChecked(base: SType, length: nat)
    requires WellFormed(StaticArray(base, length)) && CheckedSize(base) == Some(StorageSize(base))
    requires StorageSize(StaticArray(base, length)) < SLOTS
    ensures CheckedSize(StaticArray(base, length)) == Some(StorageSize(StaticArray(base, length)))
  {
    var inner := StorageSize(base);
    assert StorageBytes(base) == 32 ==> StorageSize(StaticArray(base, length)) == Max(1, length * inner);
  }

  lemma StructChecked(members: seq<SType>)
    requires AllChecked(members, |members|) && StorageSize(Struct(members)) < SLOTS
    ensures CheckedSize(Struct(members)) == Some(StorageSize(Struct(members)))
  {
  }

  lemma OneSlotChecked(t: SType)
    requires !t.StaticArray? && !t.Struct?
    ensures CheckedSize(t) == Some(StorageSize(t))
  {
  }

  lemma {:induction false} MembersChecked(types: seq<SType>, n: nat, bound: nat)
    requires n <= |types| && forall k :: 0 <= k < |types| ==> WellFormed(types[k])
    requires bound == UpperBounds(types, |types|) < SLOTS
    ensures AllChecked(types, n)
    decreases types, n
  {
    if n > 0 {
      MembersChecked(types, n - 1, bound);
      BoundsGrow(types, n - 1, |types|);
      BoundedIsChecked(types[n - 1]);
    }
  }

  /** Every reference type accepted for storage can be laid out. */
  lemma AcceptedIsChecked(t: SType)
    requires WellFormed(t) && ValidForStorage(t)
    ensures CheckedSize(t) == Some(StorageSize(t))
  {
    BoundedIsChecked(t);
  }

  // ---------------------------------------------------------------- arrays are packed like structs

  function Copies(base: SType, n: nat): (types: seq<SType>)
    ensures |types| == n && forall i :: 0 <= i < n ==> types[i] == base
  {
    seq(n, _ => base)
  }

  lemma NextAfter(types: seq<SType>, i: nat)
    requires i < |types| && !types[i].Unstorable?
    ensures var t := types[i];
            After(types, i + 1) == Past(Fit(After(types, i), StorageBytes(t)), StorageBytes(t), StorageSize(t))
  {
    hide StorageSize, StorageBytes;
  }

  /** The place behind `i` neighbours of `bytes` bytes: `j` of them in a last slot that is not empty. */
  predicate InRow(c: Cursor, i: nat, bytes: nat) {
    1 <= bytes <= 32 && 1 <= c.byte / bytes <= 32 / bytes && c.byte % bytes == 0 &&
    i == c.slot * (32 / bytes) + c.byte / bytes
  }

  lemma RowStarts(bytes: nat)
    requires 1 <= bytes <= 32
    ensures InRow(Past(Fit(Cursor(0, 0), bytes), bytes, 1), 1, bytes)
  {
    Bytes.DivModUnique(bytes, 1, 0, bytes);
    Bytes.MulMonotone(1, 32 / bytes, bytes);
    AtLeastOne(bytes);
  }

  lemma AtLeastOne(bytes: nat)
    requires 1 <= bytes <= 32
    ensures 32 / bytes >= 1 && 32 / bytes * bytes <= 32 < (32 / bytes + 1) * bytes
  {
    assert 32 == bytes * (32 / bytes) + 32 % bytes;
  }

  lemma RowGrows(c: Cursor, i: nat, bytes: nat)
    requires InRow(c, i, bytes)
    ensures InRow(Past(Fit(c, bytes), bytes, 1), i + 1, bytes)
  {
    var j, k := c.byte / bytes, 32 / bytes;
    AtLeastOne(bytes);
    assert c.byte == j * bytes;
    Bytes.DivModUnique(bytes, 1, 0, bytes);
    Bytes.DivModUnique(c.byte + bytes, j + 1, 0, bytes);
    if j < k {
      Bytes.MulMonotone(j + 1, k, bytes);
    } else {
      assert j == k;
    }
  }

  lemma {:induction false} CopiesInRow(base: SType, n: nat, i: nat)
    requires 1 <= i <= n && WellFormed(base) && !base.Unstorable? && StorageSize(base) == 1
    ensures InRow(After(Copies(base, n), i), i, StorageBytes(base))
  {
    NextAfter(Copies(base, n), i - 1);
    if i == 1 {
      NothingBefore(Copies(base, n));
      RowStarts(StorageBytes(base));
    } else {
      CopiesInRow(base, n, i - 1);
      RowGrows(After(Copies(base, n), i - 1), i - 1, StorageBytes(base));
    }
  }

  lemma NothingBefore(types: seq<SType>)
    ensures After(types, 0) == Cursor(0, 0)
  {
  }

  lemma {:induction false} CopiesInSlots(base: SType, n: nat, i: nat)
    requires i <= n && WellFormed(base) && !base.Unstorable? && StorageSize(base) > 1
    ensures After(Copies(base, n), i) == Cursor(i * StorageSize(base), 0)
  {
    if i == 0 {
      NothingBefore(Copies(base, n));
    } else {
      NextAfter(Copies(base, n), i - 1);
      CopiesInSlots(base, n, i - 1);
      assert (i - 1) * StorageSize(base) + StorageSize(base) == i * StorageSize(base);
    }
  }

  lemma RowSlots(c: Cursor, n: nat, bytes: nat)
    requires InRow(c, n, bytes)
    ensures SlotsOf(c) == (n + (32 / bytes - 1)) / (32 / bytes)
    ensures bytes == 32 ==> SlotsOf(c) == n
  {
    var j, k := c.byte / bytes, 32 / bytes;
    Bytes.DivModUnique(n + (k - 1), c.slot + 1, j - 1, k);
    assert c.byte == j * bytes;
    Bytes.MulMonotone(1, j, bytes);
  }

  /** An array takes as many slots as its elements do one after the other. */
  lemma ArrayIsPacked(base: SType, n: nat)
    requires n >= 1 && WellFormed(base) && !base.Unstorable?
    ensures StorageSize(StaticArray(base, n)) == StorageSize(Struct(Copies(base, n)))
  {
    SizeFacts(base);
    if StorageSize(base) == 1 {
      CopiesInRow(base, n, n);
      RowSlots(After(Copies(base, n), n), n, StorageBytes(base));
    } else {
      CopiesInSlots(base, n, n);
    }
  }
}
