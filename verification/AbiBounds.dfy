/**
 What the bounds checks of the generated decoders achieve. A tuple decoder that
 is told where the data ends depends on no byte beyond if and only if its types
 hold no array of dynamically encoded elements with a head word that no check
 covers.
 */
module AbiBounds {
  import opened Wrappers
  import opened Bytes
  import opened AbiTypes
  import opened AbiDecoder

  const TWO_32: nat := 0x1_0000_0000
  const TWO_254: nat := TWO_256 / 4

  /** All head words are checked: arrays of dynamically encoded elements are
      static and have a single element, whose head word is at their start. */
  predicate Checked(t: Type) {
    match t
    case StaticArray(base, length) => !IsDynamic(base) || (length == 1 && Checked(base))
    case DynamicArray(base) => !IsDynamic(base)
    case Struct(members) => forall i :: 0 <= i < |members| ==> Checked(members[i])
    case _ => true
  }

  /** The sizes of all parts fit the original's 32-bit numbers. */
  predicate SizesFit(t: Type) {
    EncodedSize(t) < TWO_32 &&
    match t
    case StaticArray(base, _) => SizesFit(base)
    case DynamicArray(base) => SizesFit(base)
    case Struct(members) => AllSizesFit(members)
    case _ => true
  }

  predicate AllSizesFit(ts: seq<Type>)
    decreases ts
  {
    HeadSizes(ts, |ts|) < TWO_32 && forall i :: 0 <= i < |ts| ==> SizesFit(ts[i])
  }

  function ByteAt(data: seq<Byte>, i: nat): Byte {
    if i < |data| then data[i] else 0
  }

  /** The same bytes before `end`. */
  predicate Agree(d: seq<Byte>, e: seq<Byte>, end: nat) {
    forall i :: 0 <= i < end ==> ByteAt(d, i) == ByteAt(e, i)
  }

  /** Data and ends far from where addresses wrap. */
  predicate Moderate(d: seq<Byte>, e: seq<Byte>, end: nat) {
    end <= TWO_254 && |d| <= TWO_254 && |e| <= TWO_254 && Agree(d, e, end)
  }

  // ---------------------------------------------------------------- decoding stays inside

  lemma SliceAgrees(d: seq<Byte>, e: seq<Byte>, end: nat, offset: nat, n: nat)
    requires Agree(d, e, end) && offset + n <= end
    ensures Slice(d, offset, n) == Slice(e, offset, n)
  {
    forall k | 0 <= k < n ensures Slice(d, offset, n)[k] == Slice(e, offset, n)[k] {
      assert ByteAt(d, offset + k) == ByteAt(e, offset + k);
    }
  }

  /** `n` bytes at `offset` lie before the end, or beyond all data and, where
      the addresses wrap, before the end again. */
  predicate Clear(offset: nat, n: nat, end: nat) {
    offset + n <= end || (TWO_254 <= offset < TWO_256 && offset + n <= TWO_256 + end)
  }

  lemma ClearPart(offset: nat, n: nat, end: nat, i: nat, m: nat)
    requires Clear(offset, n, end) && i + m <= n < TWO_254 && end <= TWO_254
    ensures Clear(Add(offset, i), m, end)
  {
  }

  lemma LoadAgrees(d: seq<Byte>, e: seq<Byte>, end: nat, offset: nat)
    requires Moderate(d, e, end) && Clear(offset, 32, end)
    ensures Load(d, offset) == Load(e, offset)
    ensures offset >= TWO_254 ==> Load(d, offset) == 0
  {
    if offset + 32 <= end {
      SliceAgrees(d, e, end, offset, 32);
    } else {
      LoadBeyond(d, offset);
      LoadBeyond(e, offset);
    }
  }

  lemma LoadBeyond(d: seq<Byte>, offset: nat)
    requires |d| <= offset
    ensures Load(d, offset) == 0
  {
    assert Slice(d, offset, 32) == Zeros(32);
    ToBigEndianZero(32);
    FromToBigEndianFits(0, 32);
  }

  /** Where `Decode` is called: anywhere for dynamically encoded types. */
  predicate Callable(t: Type, offset: nat, end: nat) {
    offset < TWO_256 && Checked(t) && SizesFit(t) && (!IsDynamic(t) ==> Clear(offset, EncodedSize(t), end))
  }

  lemma {:induction false} StaticIsChecked(t: Type)
    requires !IsDynamic(t)
    ensures Checked(t)
  {
    match t
    case Struct(members) =>
      forall i | 0 <= i < |members| ensures Checked(members[i]) {
        StaticIsChecked(members[i]);
      }
    case _ =>
  }

  /** A position that passes the first check of arrays. */
  lemma StartClear(offset: nat, end: nat)
    requires offset < TWO_256 && end <= TWO_254 && Slt(Add(offset, 0x1f), end)
    ensures Clear(offset, 32, end)
  {
  }

  /** Decoding depends only on the bytes before the end. */
  lemma {:induction false} DecodeStaysInside(t: Type, d: seq<Byte>, e: seq<Byte>, offset: nat, end: nat)
    requires Callable(t, offset, end) && Moderate(d, e, end)
    ensures Decode(t, d, offset, end) == Decode(t, e, offset, end)
    decreases t, 0
  {
    match t
    case Word(_) => LoadAgrees(d, e, end, offset);
    case ByteArray => BytesStayInside(d, e, offset, end);
    case StaticArray(base, length) =>
      if !IsDynamic(base) {
        SizesMultipleOf32(base);
        RoundExact(length, EncodedSize(base));
        ElementsStayInside(base, d, e, offset, length, length, end);
        hide DecodeElements;
      } else if Slt(Add(offset, 0x1f), end) {
        OneElementStaysInside(base, d, e, offset, end);
        hide DecodeElements;
      }
    case DynamicArray(base) => ArrayStaysInside(base, d, e, offset, end);
    case Struct(members) => TupleStaysInside(members, d, e, offset, end);
  }

  lemma BytesStayInside(d: seq<Byte>, e: seq<Byte>, offset: nat, end: nat)
    requires offset < TWO_256 && Moderate(d, e, end)
    ensures Decode(ByteArray, d, offset, end) == Decode(ByteArray, e, offset, end)
  {
    hide Load, Agree, Slt;
    if Slt(Add(offset, 0x1f), end) {
      StartClear(offset, end);
      LoadAgrees(d, e, end, offset);
      var length := Load(d, offset);
      if offset < TWO_254 && offset + 32 + length <= end {
        SliceAgrees(d, e, end, offset + 32, length);
      }
    }
  }

  lemma {:induction false} ArrayStaysInside(base: Type, d: seq<Byte>, e: seq<Byte>, offset: nat, end: nat)
    requires SizesFit(base) && !IsDynamic(base) && offset < TWO_256 && Moderate(d, e, end)
    ensures Decode(DynamicArray(base), d, offset, end) == Decode(DynamicArray(base), e, offset, end)
    decreases base, TWO_64, 2
  {
    hide Load, Agree, DecodeElements, Slt, Checked;
    if Slt(Add(offset, 0x1f), end) {
      StartClear(offset, end);
      LoadAgrees(d, e, end, offset);
      var length := Load(d, offset);
      if length < TWO_64 {
        ProductFits(length, HeadSize(base));
        if offset >= TWO_254 {
          NoElements(base, d, e, Add(offset, 0x20), end);
        } else if offset + 32 + length * HeadSize(base) <= end {
          ElementsStayInside(base, d, e, offset + 32, length, length, end);
        }
      }
    }
  }

  lemma NoElements(base: Type, d: seq<Byte>, e: seq<Byte>, offset: nat, end: nat)
    ensures DecodeElements(base, d, offset, 0, end) == DecodeElements(base, e, offset, 0, end)
  {
  }

  lemma ProductFits(n: nat, size: nat)
    requires n < TWO_64 && size < TWO_32
    ensures n * size < TWO_254
  {
    MulMonotone(n, TWO_64, size);
  }

  lemma {:induction false} SourceWraps(base: Type, offset: nat, k: nat)
    requires offset < TWO_256
    ensures Source(base, offset, k) == Add(offset, k * HeadSize(base))
  {
    hide HeadSize, Add;
    if k == 0 {
      assert 0 * HeadSize(base) == 0;
    } else {
      assert (k - 1) * HeadSize(base) + HeadSize(base) == k * HeadSize(base);
      SourceWraps(base, offset, k - 1);
      AddTwice(offset, (k - 1) * HeadSize(base), HeadSize(base));
    }
  }

  lemma AddTwice(a: nat, b: nat, c: nat)
    ensures Add(Add(a, b), c) == Add(a, b + c)
  {
  }

  lemma {:induction false} ElementsStayInside(base: Type, d: seq<Byte>, e: seq<Byte>, offset: nat, k: nat, n: nat,
      end: nat)
    requires SizesFit(base) && !IsDynamic(base) && offset < TWO_256 && Moderate(d, e, end)
    requires k <= n && n * HeadSize(base) < TWO_254 && Clear(offset, n * HeadSize(base), end)
    ensures DecodeElements(base, d, offset, k, end) == DecodeElements(base, e, offset, k, end)
    decreases base, k + 1, 1
  {
    hide Load, Moderate, Decode, EncodedSize, SizesFit, Clear, Checked, HeadSize, Add, Source;
    if k > 0 {
      ElementsStayInside(base, d, e, offset, k - 1, n, end);
      ElementStaysInside(base, d, e, offset, k - 1, n, end);
    }
  }

  lemma {:induction false} ElementStaysInside(base: Type, d: seq<Byte>, e: seq<Byte>, offset: nat, k: nat, n: nat,
      end: nat)
    requires SizesFit(base) && !IsDynamic(base) && offset < TWO_256 && Moderate(d, e, end)
    requires k < n && n * HeadSize(base) < TWO_254 && Clear(offset, n * HeadSize(base), end)
    ensures Decode(base, d, Source(base, offset, k), end) == Decode(base, e, Source(base, offset, k), end)
    decreases base, k + 1, 0
  {
    hide Load, Moderate, Decode, EncodedSize, SizesFit, Clear, Checked, IsDynamic, HeadSize, Add, Source;
    SourceWraps(base, offset, k);
    ModerateEnd(d, e, end);
    ElementClear(offset, n, HeadSize(base), end, k);
    StaticIsChecked(base);
    StaticHeadSize(base);
    DecodeStaysInside(base, d, e, Add(offset, k * HeadSize(base)), end);
  }

  lemma ModerateEnd(d: seq<Byte>, e: seq<Byte>, end: nat)
    requires Moderate(d, e, end)
    ensures end <= TWO_254
  {
  }

  lemma StaticHeadSize(t: Type)
    requires !IsDynamic(t)
    ensures HeadSize(t) == EncodedSize(t)
  {
  }

  lemma ElementClear(offset: nat, n: nat, size: nat, end: nat, k: nat)
    requires k < n && n * size < TWO_254 && end <= TWO_254 && Clear(offset, n * size, end)
    ensures Clear(Add(offset, k * size), size, end)
  {
    MulMonotone(k + 1, n, size);
    assert k * size + size == (k + 1) * size;
    ClearPart(offset, n * size, end, k * size, size);
  }

  lemma {:induction false} OneElementStaysInside(base: Type, d: seq<Byte>, e: seq<Byte>, offset: nat, end: nat)
    requires SizesFit(base) && IsDynamic(base) && Checked(base) && offset < TWO_256 && Moderate(d, e, end)
    requires Slt(Add(offset, 0x1f), end)
    ensures DecodeElements(base, d, offset, 1, end) == DecodeElements(base, e, offset, 1, end)
    decreases base, 1, 0
  {
    hide Load, Agree, Decode, SizesFit, Slt, Checked;
    StartClear(offset, end);
    LoadAgrees(d, e, end, offset);
    NoElements(base, d, e, offset, end);
    assert Source(base, offset, 0) == offset;
    DecodeStaysInside(base, d, e, Add(offset, Load(d, offset)), end);
  }

  predicate AllChecked(ts: seq<Type>) {
    forall i :: 0 <= i < |ts| ==> Checked(ts[i])
  }

  lemma {:induction false} HeadSizesGrow(ts: seq<Type>, i: nat, n: nat)
    requires i <= n <= |ts|
    ensures HeadSizes(ts, i) <= HeadSizes(ts, n)
    decreases n
  {
    hide HeadSize;
    if i < n {
      HeadSizesGrow(ts, i, n - 1);
    }
  }

  lemma HeadsClear(start: nat, size: nat, end: nat)
    requires start < TWO_256 && end <= TWO_254 && size < TWO_32 && !Slt(Sub(end, start), size)
    ensures Clear(start, size, end)
  {
  }

  /** The same for the generated tuple decoder, wherever it starts. */
  lemma {:induction false} TupleStaysInside(ts: seq<Type>, d: seq<Byte>, e: seq<Byte>, start: nat, end: nat)
    requires AllChecked(ts) && AllSizesFit(ts) && start < TWO_256 && Moderate(d, e, end)
    ensures DecodeTuple(ts, d, start, end) == DecodeTuple(ts, e, start, end)
    decreases ts, |ts| + 1
  {
    hide Agree, HeadSizes, DecodeMembers, Slt, Checked;
    if !Slt(Sub(end, start), HeadSizes(ts, |ts|)) {
      HeadsClear(start, HeadSizes(ts, |ts|), end);
      MembersStayInside(ts, d, e, start, end, |ts|);
    }
  }

  lemma {:induction false} MembersStayInside(ts: seq<Type>, d: seq<Byte>, e: seq<Byte>, start: nat, end: nat, n: nat)
    requires AllChecked(ts) && AllSizesFit(ts) && start < TWO_256 && Moderate(d, e, end) && n <= |ts|
    requires Clear(start, HeadSizes(ts, |ts|), end)
    ensures DecodeMembers(ts, d, start, end, n) == DecodeMembers(ts, e, start, end, n)
    decreases ts, n
  {
    hide Agree, Load, Decode, SizesFit, EncodedSize, Clear, Checked;
    if n > 0 {
      MembersStayInside(ts, d, e, start, end, n - 1);
      HeadSizesGrow(ts, n, |ts|);
      var t, pos := ts[n - 1], HeadSizes(ts, n - 1);
      ClearPart(start, HeadSizes(ts, |ts|), end, pos, HeadSize(t));
      if IsDynamic(t) {
        LoadAgrees(d, e, end, Add(start, pos));
        DecodeStaysInside(t, d, e, Add(start, Load(d, Add(start, pos))), end);
      } else {
        DecodeStaysInside(t, d, e, Add(start, pos), end);
      }
    }
  }

  // ---------------------------------------------------------------- zeros decode

  function Larger(a: nat, b: nat): nat {
    if a < b then b else a
  }

  /** How many zeros a value of the type can be decoded from. */
  function Room(t: Type): nat
    decreases t, 0
  {
    match t
    case StaticArray(base, _) => Larger(EncodedSize(t), if IsDynamic(base) then Room(base) else 0)
    case Struct(members) => Larger(HeadSizes(members, |members|), MemberRoom(members, |members|))
    case _ => 32
  }

  function MemberRoom(ts: seq<Type>, n: nat): nat
    requires n <= |ts|
    decreases ts, n
  {
    if n == 0 then 0 else Larger(MemberRoom(ts, n - 1), if IsDynamic(ts[n - 1]) then Room(ts[n - 1]) else 0)
  }

  lemma {:induction false} RoomFits(t: Type)
    requires SizesFit(t)
    ensures Room(t) < TWO_32
    decreases t, 0
  {
    match t
    case StaticArray(base, _) => RoomFits(base);
    case Struct(members) => MemberRoomFits(members, |members|);
    case _ =>
  }

  lemma {:induction false} MemberRoomFits(ts: seq<Type>, n: nat)
    requires AllSizesFit(ts) && n <= |ts|
    ensures MemberRoom(ts, n) < TWO_32
    decreases ts, n
  {
    if n > 0 {
      MemberRoomFits(ts, n - 1);
      RoomFits(ts[n - 1]);
    }
  }

  lemma {:induction false} MemberRoomCovers(ts: seq<Type>, i: nat, n: nat)
    requires i < n <= |ts| && IsDynamic(ts[i])
    ensures Room(ts[i]) <= MemberRoom(ts, n)
    decreases n
  {
    hide Room;
    if i < n - 1 {
      MemberRoomCovers(ts, i, n - 1);
    }
  }

  lemma {:induction false} NoMemberRoom(ts: seq<Type>, n: nat)
    requires AllStatic(ts) && n <= |ts|
    ensures MemberRoom(ts, n) == 0
  {
    if n > 0 {
      NoMemberRoom(ts, n - 1);
    }
  }

  lemma StaticRoom(t: Type)
    requires !IsDynamic(t)
    ensures Room(t) == EncodedSize(t)
  {
    if t.Struct? {
      NoMemberRoom(t.members, |t.members|);
      StaticHeads(t.members, |t.members|);
    }
  }

  /** Zero is a value of every kind of word in the type. */
  predicate AdmitsZero(t: Type) {
    match t
    case Word(kind) => InRange(kind, 0)
    case ByteArray => true
    case StaticArray(base, _) => AdmitsZero(base)
    case DynamicArray(base) => AdmitsZero(base)
    case Struct(members) => forall i :: 0 <= i < |members| ==> AdmitsZero(members[i])
  }

  predicate ZeroOn(data: seq<Byte>, q: nat, n: nat) {
    forall i :: q <= i < q + n ==> ByteAt(data, i) == 0
  }

  lemma LoadZero(data: seq<Byte>, q: nat)
    requires ZeroOn(data, q, 32)
    ensures Load(data, q) == 0
  {
    forall k | 0 <= k < 32 ensures Slice(data, q, 32)[k] == 0 {
      assert ByteAt(data, q + k) == 0;
    }
    assert Slice(data, q, 32) == Zeros(32);
    ToBigEndianZero(32);
    FromToBigEndianFits(0, 32);
  }

  lemma ZeroPart(data: seq<Byte>, q: nat, n: nat, i: nat, m: nat)
    requires ZeroOn(data, q, n) && i + m <= n
    ensures ZeroOn(data, q + i, m)
  {
  }

  predicate Decodable(t: Type) {
    WellFormed(t) && AdmitsZero(t) && SizesFit(t)
  }

  /** Enough zeros are a value of every type. */
  lemma {:induction false} ZeroDecodes(t: Type, data: seq<Byte>, q: nat, end: nat)
    requires Decodable(t) && ZeroOn(data, q, Room(t)) && q + Room(t) <= end <= TWO_254
    ensures Decode(t, data, q, end).Some?
    decreases t, 0
  {
    match t
    case Word(_) => LoadZero(data, q);
    case ByteArray => LoadZero(data, q);
    case StaticArray(base, length) => ZeroArray(base, length, data, q, end);
    case DynamicArray(base) =>
      LoadZero(data, q);
      NothingAvailable(base, data, q + 0x20, end);
    case Struct(members) =>
      MembersDecodable(members);
      ZeroMembers(members, data, q, end, |members|);
  }

  lemma MembersDecodable(members: seq<Type>)
    requires Decodable(Struct(members))
    ensures AllDecodable(members)
  {
    assert AllSizesFit(members);
    forall i | 0 <= i < |members| ensures Decodable(members[i]) {
      assert SizesFit(members[i]);
    }
  }

  lemma NothingAvailable(base: Type, data: seq<Byte>, offset: nat, end: nat)
    requires offset <= end <= TWO_254
    ensures DecodeAvailable(base, data, offset, 0, end) == Some(Elements([]))
  {
    assert 0 * HeadSize(base) == 0;
  }

  lemma {:induction false} ZeroArray(base: Type, length: nat, data: seq<Byte>, q: nat, end: nat)
    requires Decodable(StaticArray(base, length))
    requires ZeroOn(data, q, Room(StaticArray(base, length))) && q + Room(StaticArray(base, length)) <= end <= TWO_254
    ensures Decode(StaticArray(base, length), data, q, end).Some?
    decreases base, length + 1, 2
  {
    ArraySizes(base, length);
    ZeroElements(base, length, data, q, end, length);
    hide DecodeElements, EncodedSize, Room, ZeroOn;
  }

  lemma ArraySizes(base: Type, length: nat)
    requires Decodable(StaticArray(base, length))
    ensures 1 <= length && length * 32 <= length * HeadSize(base) <= EncodedSize(StaticArray(base, length)) < TWO_32
    ensures EncodedSize(StaticArray(base, length)) <= Room(StaticArray(base, length)) < TWO_32
  {
    RoomFits(StaticArray(base, length));
    SizesMultipleOf32(base);
    RoundExact(length, HeadSize(base));
    MulMonotone(32, HeadSize(base), length);
  }

  lemma {:induction false} ZeroElements(base: Type, length: nat, data: seq<Byte>, q: nat, end: nat, k: nat)
    requires Decodable(StaticArray(base, length)) && k <= length
    requires ZeroOn(data, q, Room(StaticArray(base, length))) && q + Room(StaticArray(base, length)) <= end <= TWO_254
    ensures DecodeElements(base, data, q, k, end).Some?
    decreases base, k + 1, 1
  {
    hide Decode, Load, ZeroOn, EncodedSize, Decodable, Room, Source;
    if k > 0 {
      ZeroElements(base, length, data, q, end, k - 1);
      ZeroElement(base, length, data, q, end, k - 1);
    }
  }

  lemma {:induction false} ZeroElement(base: Type, length: nat, data: seq<Byte>, q: nat, end: nat, k: nat)
    requires Decodable(StaticArray(base, length)) && k < length
    requires ZeroOn(data, q, Room(StaticArray(base, length))) && q + Room(StaticArray(base, length)) <= end <= TWO_254
    ensures var at := Source(base, q, k);
            if IsDynamic(base) then Load(data, at) == 0 && Decode(base, data, Add(q, 0), end).Some?
            else Decode(base, data, at, end).Some?
    decreases base, k + 1, 0
  {
    hide Decode, Load, ZeroOn, EncodedSize, HeadSize, Room, Source, Decodable, IsDynamic;
    var all, at := Room(StaticArray(base, length)), k * HeadSize(base);
    ArraySizes(base, length);
    ArrayParts(base, length);
    SourceWraps(base, q, k);
    ElementFits(k, length, HeadSize(base));
    if IsDynamic(base) {
      ZeroPart(data, q, all, at, 32);
      LoadZero(data, q + at);
      ZeroPart(data, q, all, 0, Room(base));
      ZeroDecodes(base, data, q, end);
    } else {
      ZeroPart(data, q, all, at, Room(base));
      ZeroDecodes(base, data, q + at, end);
    }
  }

  lemma ArrayParts(base: Type, length: nat)
    requires Decodable(StaticArray(base, length))
    ensures Decodable(base) && HeadSize(base) >= 32
    ensures IsDynamic(base) ==> Room(base) <= Room(StaticArray(base, length))
    ensures !IsDynamic(base) ==> Room(base) == HeadSize(base)
  {
    SizesMultipleOf32(base);
    if !IsDynamic(base) {
      StaticRoom(base);
    }
  }

  lemma ElementFits(k: nat, n: nat, size: nat)
    requires k < n
    ensures k * size + size <= n * size
  {
    MulMonotone(k + 1, n, size);
  }

  predicate AllDecodable(ts: seq<Type>) {
    AllSizesFit(ts) && forall i :: 0 <= i < |ts| ==> Decodable(ts[i])
  }

  lemma {:induction false} ZeroMembers(ts: seq<Type>, data: seq<Byte>, q: nat, end: nat, n: nat)
    requires AllDecodable(ts) && n <= |ts|
    requires ZeroOn(data, q, Larger(HeadSizes(ts, |ts|), MemberRoom(ts, |ts|)))
    requires q + Larger(HeadSizes(ts, |ts|), MemberRoom(ts, |ts|)) <= end <= TWO_254
    ensures DecodeMembers(ts, data, q, end, n).Some?
    decreases ts, n
  {
    hide Decode, Load, ZeroOn, EncodedSize, Decodable, Room, SizesFit, MemberRoom;
    if n > 0 {
      ZeroMembers(ts, data, q, end, n - 1);
      HeadSizesGrow(ts, n, |ts|);
      var t, pos, all := ts[n - 1], HeadSizes(ts, n - 1), Larger(HeadSizes(ts, |ts|), MemberRoom(ts, |ts|));
      if IsDynamic(t) {
        ZeroPart(data, q, all, pos, 32);
        LoadZero(data, q + pos);
        MemberRoomCovers(ts, n - 1, |ts|);
        ZeroPart(data, q, all, 0, Room(t));
        ZeroDecodes(t, data, q, end);
      } else {
        StaticRoom(t);
        ZeroPart(data, q, all, pos, Room(t));
        ZeroDecodes(t, data, q + pos, end);
      }
    }
  }
}
