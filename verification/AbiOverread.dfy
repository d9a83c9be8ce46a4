/**
 The other half of module AbiBounds: for every tuple of types with an unchecked
 head word there are data on which a byte beyond the end decides whether the
 generated decoder reverts.
 */
module AbiOverread {
  import opened Wrappers
  import opened Bytes
  import opened AbiTypes
  import opened AbiDecoder
  import opened AbiBounds

  const TWO_34: nat := 4 * TWO_32

  /** The depth of nesting of a type. */
  function Levels(t: Type): nat
    decreases t, 0
  {
    match t
    case StaticArray(base, _) => 1 + Levels(base)
    case DynamicArray(base) => 1 + Levels(base)
    case Struct(members) => 1 + MostLevels(members, |members|)
    case _ => 1
  }

  function MostLevels(ts: seq<Type>, n: nat): nat
    requires n <= |ts|
    decreases ts, n
  {
    if n == 0 then 0 else Larger(MostLevels(ts, n - 1), Levels(ts[n - 1]))
  }

  lemma {:induction false} LevelsBelow(ts: seq<Type>, i: nat, n: nat)
    requires i < n <= |ts|
    ensures Levels(ts[i]) <= MostLevels(ts, n)
    decreases n
  {
    hide Levels;
    if i < n - 1 {
      LevelsBelow(ts, i, n - 1);
    }
  }

  lemma {:induction false} UncheckedIsDynamic(t: Type)
    requires !Checked(t)
    ensures IsDynamic(t)
  {
    if !IsDynamic(t) {
      StaticIsChecked(t);
    }
  }

  // ---------------------------------------------------------------- pieces of data

  lemma PrefixKeeps(prefix: seq<Byte>, rest: seq<Byte>, q: nat, bs: seq<Byte>)
    requires Holds(prefix, q, bs)
    ensures Holds(prefix + rest, q, bs)
  {
    assert (prefix + rest)[q..q + |bs|] == prefix[q..q + |bs|];
  }

  lemma PrefixZero(prefix: seq<Byte>, rest: seq<Byte>, z: nat, n: nat)
    requires ZeroOn(prefix, z, n) && z + n <= |prefix|
    ensures ZeroOn(prefix + rest, z, n)
  {
    forall i | z <= i < z + n ensures ByteAt(prefix + rest, i) == 0 {
      assert ByteAt(prefix, i) == 0;
    }
  }

  /** `n` words of the same value. */
  function Words(v: nat, n: nat): (s: seq<Byte>)
    ensures |s| == 32 * n
  {
    if n == 0 then [] else ToBigEndian(v, 32) + Words(v, n - 1)
  }

  lemma {:induction false} WordAt(prefix: seq<Byte>, v: nat, n: nat, k: nat)
    requires k < n && v < TWO_256
    ensures Load(prefix + Words(v, n), |prefix| + 32 * k) == v
    decreases k
  {
    hide ToBigEndian, Load, Holds;
    if k == 0 {
      HoldsConcat(prefix, ToBigEndian(v, 32));
      PrefixKeeps(prefix + ToBigEndian(v, 32), Words(v, n - 1), |prefix|, ToBigEndian(v, 32));
      assert prefix + Words(v, n) == prefix + ToBigEndian(v, 32) + Words(v, n - 1);
      LoadWord(prefix + Words(v, n), |prefix|, v);
    } else {
      WordAt(prefix + ToBigEndian(v, 32), v, n - 1, k - 1);
      assert prefix + ToBigEndian(v, 32) + Words(v, n - 1) == prefix + Words(v, n);
    }
  }

  /** No dynamically encoded value starts at the end. */
  lemma EndFails(t: Type, data: seq<Byte>, end: nat)
    requires IsDynamic(t) && WellFormed(t) && SizesFit(t) && end <= TWO_254
    ensures Decode(t, data, end, end) == None
  {
    if t.Struct? {
      SizesMultipleOf32(t);
      AtLeastOneHead(t.members);
    }
  }

  lemma AtLeastOneHead(ts: seq<Type>)
    requires ts != [] && WellFormed(ts[0])
    ensures HeadSizes(ts, |ts|) >= 32
  {
    SizesMultipleOf32(ts[0]);
    assert HeadSizes(ts, 1) == HeadSizes(ts, 0) + HeadSize(ts[0]);
    HeadSizesGrow(ts, 1, |ts|);
  }

  // ---------------------------------------------------------------- the arrays

  /** The distance from `from` to `to` as a word. */
  function Distance(from: nat, to: nat): (v: nat)
    requires from < TWO_256 && to < TWO_256
    ensures v < TWO_256 && Add(from, v) == to
  {
    if from <= to then to - from else to + (TWO_256 - from)
  }

  /** A block of zeros that any value can be decoded from. */
  predicate Block(data: seq<Byte>, z: nat) {
    z + TWO_32 <= |data| && ZeroOn(data, z, TWO_32)
  }

  lemma BlockDecodes(t: Type, prefix: seq<Byte>, rest: seq<Byte>, z: nat, end: nat)
    requires Decodable(t) && Block(prefix, z) && |prefix| <= end <= TWO_254
    ensures Decode(t, prefix + rest, z, end).Some?
  {
    hide ZeroOn, Decode, Room, Decodable;
    PrefixZero(prefix, rest, z, TWO_32);
    RoomBelow(t);
    ZeroPart(prefix + rest, z, TWO_32, 0, Room(t));
    ZeroDecodes(t, prefix + rest, z, end);
  }

  lemma RoomBelow(t: Type)
    requires Decodable(t)
    ensures Room(t) < TWO_32
  {
    RoomFits(t);
  }

  lemma OneElement(base: Type, data: seq<Byte>, offset: nat, end: nat)
    requires IsDynamic(base)
    ensures var v := Decode(base, data, Add(offset, Load(data, offset)), end);
            DecodeElements(base, data, offset, 1, end) == if v.None? then None else Some([v.value])
  {
    hide Decode, Load, Add;
    assert Source(base, offset, 0) == offset;
    var none: seq<Value> := [];
    assert DecodeElements(base, data, offset, 0, end) == Some(none);
    var v := Decode(base, data, Add(offset, Load(data, offset)), end);
    if v.Some? {
      assert none + [v.value] == [v.value];
    }
  }

  lemma DynamicDecodes(base: Type, data: seq<Byte>, q: nat, end: nat)
    requires IsDynamic(base) && Load(data, q) == 1 && end == q + 32 <= TWO_254
    ensures Decode(DynamicArray(base), data, q, end).Some? <==> DecodeElements(base, data, end, 1, end).Some?
  {
    hide DecodeElements, Load;
  }

  lemma TwoWords(prefix: seq<Byte>, u: nat, v: nat)
    requires u < TWO_256 && v < TWO_256
    ensures var data := prefix + ToBigEndian(u, 32) + ToBigEndian(v, 32);
            Load(data, |prefix|) == u && Load(data, |prefix| + 32) == v
  {
    hide ToBigEndian, Load, Holds;
    var data := prefix + ToBigEndian(u, 32) + ToBigEndian(v, 32);
    HoldsConcat(prefix, ToBigEndian(u, 32));
    PrefixKeeps(prefix + ToBigEndian(u, 32), ToBigEndian(v, 32), |prefix|, ToBigEndian(u, 32));
    LoadWord(data, |prefix|, u);
    HoldsConcat(prefix + ToBigEndian(u, 32), ToBigEndian(v, 32));
    LoadWord(data, |prefix| + 32, v);
  }

  /** A dynamic array of one element, cut off before its head word. */
  lemma DynamicSpot(base: Type, prefix: seq<Byte>, v: nat)
    requires IsDynamic(base) && v < TWO_256 && |prefix| + 64 <= TWO_254
    ensures var data, end := prefix + ToBigEndian(1, 32) + ToBigEndian(v, 32), |prefix| + 32;
            Decode(DynamicArray(base), data, |prefix|, end).Some? <==> Decode(base, data, Add(end, v), end).Some?
  {
    hide DecodeElements, Load, ToBigEndian, Decode, Add;
    var data, end := prefix + ToBigEndian(1, 32) + ToBigEndian(v, 32), |prefix| + 32;
    TwoWords(prefix, 1, v);
    DynamicDecodes(base, data, |prefix|, end);
    OneElement(base, data, end, end);
  }

  /** The elements of a static array all of whose head words are `v`. */
  lemma {:induction false} SameHeads(base: Type, prefix: seq<Byte>, v: nat, n: nat, k: nat, end: nat)
    requires IsDynamic(base) && v < TWO_256 && k <= n && |prefix| + 32 * n < TWO_256
    requires Decode(base, prefix + Words(v, n), Add(|prefix|, v), end).Some?
    ensures DecodeElements(base, prefix + Words(v, n), |prefix|, k, end).Some?
  {
    hide Decode, Load, Words, Add;
    if k > 0 {
      SameHeads(base, prefix, v, n, k - 1, end);
      HeadPlace(base, |prefix|, k - 1);
      WordAt(prefix, v, n, k - 1);
    }
  }

  lemma HeadPlace(base: Type, offset: nat, k: nat)
    requires IsDynamic(base) && offset + 32 * k < TWO_256
    ensures Source(base, offset, k) == offset + 32 * k
  {
    SourceWraps(base, offset, k);
  }

  /** The second head word leads to the end. */
  lemma SecondHeadFails(base: Type, prefix: seq<Byte>, v: nat, n: nat, end: nat)
    requires IsDynamic(base) && WellFormed(base) && SizesFit(base) && v < TWO_256 && n >= 2
    requires end == |prefix| + 32 <= TWO_254
    ensures DecodeElements(base, prefix + ToBigEndian(v, 32) + Words(32, n - 1), |prefix|, n, end) == None
  {
    hide Decode, Load, Words, ToBigEndian, Add;
    var data := prefix + ToBigEndian(v, 32) + Words(32, n - 1);
    HeadPlace(base, |prefix|, 1);
    WordAt(prefix + ToBigEndian(v, 32), 32, n - 1, 0);
    EndFails(base, data, end);
    AddSmall(|prefix|);
    assert DecodeElements(base, data, |prefix|, 2, end) == None;
    StaysNone(base, data, |prefix|, 2, n, end);
  }

  lemma AddSmall(a: nat)
    requires a + 32 <= TWO_254
    ensures Add(a, 32) == a + 32
  {
  }

  lemma StaticDecodes(base: Type, n: nat, data: seq<Byte>, q: nat, end: nat)
    requires IsDynamic(base) && n < TWO_64 && end == q + 32 <= TWO_254
    ensures Decode(StaticArray(base, n), data, q, end).Some? <==> DecodeElements(base, data, q, n, end).Some?
  {
    hide DecodeElements;
  }

  // ---------------------------------------------------------------- data that overread

  /** After `prefix` and `w`, the continuations `x` and `y` decide: with one of them
      a value is decoded, with the other the decoder reverts. */
  ghost predicate Decides(t: Type, prefix: seq<Byte>, w: seq<Byte>, x: seq<Byte>, y: seq<Byte>) {
    Decode(t, prefix + w + x, |prefix|, |prefix| + |w|).Some? &&
    Decode(t, prefix + w + y, |prefix|, |prefix| + |w|) == None
  }

  lemma DynamicOverreads(base: Type, prefix: seq<Byte>, z: nat) returns (w: seq<Byte>, x: seq<Byte>, y: seq<Byte>)
    requires Decodable(base) && IsDynamic(base) && Block(prefix, z) && |prefix| + TWO_34 <= TWO_254
    ensures |w| == |x| == |y| == 32 && Decides(DynamicArray(base), prefix, w, x, y)
  {
    hide Decode, ToBigEndian, Block;
    var end := |prefix| + 32;
    BlockBefore(prefix, z);
    w, x, y := ToBigEndian(1, 32), ToBigEndian(Distance(end, z), 32), ToBigEndian(0, 32);
    DynamicSpot(base, prefix, Distance(end, z));
    Reassociate(prefix, w, x);
    BlockDecodes(base, prefix, w + x, z, end);
    DynamicSpot(base, prefix, 0);
    DecodableFacts(base);
    EndFails(base, prefix + w + y, end);
  }

  lemma BlockBefore(data: seq<Byte>, z: nat)
    requires Block(data, z)
    ensures z < |data|
  {
  }

  lemma DecodableFacts(t: Type)
    requires Decodable(t)
    ensures WellFormed(t) && SizesFit(t)
  {
  }

  lemma StaticOverreads(base: Type, n: nat, prefix: seq<Byte>, z: nat)
    returns (w: seq<Byte>, x: seq<Byte>, y: seq<Byte>)
    requires Decodable(StaticArray(base, n)) && IsDynamic(base) && n >= 2 && Block(prefix, z) &&
      |prefix| + TWO_34 <= TWO_254
    ensures |w| == 32 && |x| == |y| <= TWO_32 && Decides(StaticArray(base, n), prefix, w, x, y)
  {
    hide Decode, ToBigEndian, Words, Decodable, Block, EncodedSize, HeadSize, Room;
    ArraySizes(base, n);
    ArrayParts(base, n);
    BlockBefore(prefix, z);
    DecodableFacts(base);
    var v := Distance(|prefix|, z);
    w, x, y := ToBigEndian(v, 32), Words(v, n - 1), Words(32, n - 1);
    StaticGood(base, n, prefix, z, v);
    StaticBad(base, n, prefix, v);
  }

  lemma StaticGood(base: Type, n: nat, prefix: seq<Byte>, z: nat, v: nat)
    requires Decodable(base) && IsDynamic(base) && 2 <= n && 32 * n < TWO_32 && Block(prefix, z) &&
      |prefix| + TWO_34 <= TWO_254
    requires v < TWO_256 && Add(|prefix|, v) == z
    ensures Decode(StaticArray(base, n), prefix + ToBigEndian(v, 32) + Words(v, n - 1), |prefix|, |prefix| + 32).Some?
  {
    hide Decode, ToBigEndian, Words, DecodeElements, Decodable, Block, Add;
    var end := |prefix| + 32;
    WordsStart(v, n);
    Reassociate(prefix, ToBigEndian(v, 32), Words(v, n - 1));
    BlockDecodes(base, prefix, Words(v, n), z, end);
    SameHeads(base, prefix, v, n, n, end);
    StaticDecodes(base, n, prefix + Words(v, n), |prefix|, end);
  }

  lemma StaticBad(base: Type, n: nat, prefix: seq<Byte>, v: nat)
    requires WellFormed(base) && SizesFit(base) && IsDynamic(base) && 2 <= n && 32 * n < TWO_32 &&
      |prefix| + TWO_34 <= TWO_254 && v < TWO_256
    ensures var data := prefix + ToBigEndian(v, 32) + Words(32, n - 1);
            Decode(StaticArray(base, n), data, |prefix|, |prefix| + 32) == None
  {
    hide Decode, ToBigEndian, Words, DecodeElements, WellFormed, SizesFit;
    SecondHeadFails(base, prefix, v, n, |prefix| + 32);
    StaticDecodes(base, n, prefix + ToBigEndian(v, 32) + Words(32, n - 1), |prefix|, |prefix| + 32);
  }

  lemma WordsStart(v: nat, n: nat)
    requires n > 0
    ensures Words(v, n) == ToBigEndian(v, 32) + Words(v, n - 1)
  {
  }

  /** A static array of one element, which is put right behind its head word. */
  lemma SingleDecodes(base: Type, prefix: seq<Byte>, rest: seq<Byte>, end: nat)
    requires IsDynamic(base) && |prefix| + 32 <= end <= TWO_254
    ensures var data := prefix + ToBigEndian(32, 32) + rest;
            Decode(StaticArray(base, 1), data, |prefix|, end).Some? <==> Decode(base, data, |prefix| + 32, end).Some?
  {
    var data := prefix + ToBigEndian(32, 32) + rest;
    HeadThen(prefix, 32, rest);
    OneElement(base, data, |prefix|, end);
    AddSmall(|prefix|);
    hide DecodeElements, Load, ToBigEndian;
  }

  lemma HeadThen(prefix: seq<Byte>, v: nat, rest: seq<Byte>)
    requires v < TWO_256
    ensures Load(prefix + ToBigEndian(v, 32) + rest, |prefix|) == v
  {
    hide ToBigEndian, Load, Holds;
    HoldsConcat(prefix, ToBigEndian(v, 32));
    PrefixKeeps(prefix + ToBigEndian(v, 32), rest, |prefix|, ToBigEndian(v, 32));
    LoadWord(prefix + ToBigEndian(v, 32) + rest, |prefix|, v);
  }

  // ---------------------------------------------------------------- tuples

  /** The heads of a tuple whose member `i` follows a block of zeros behind the
      heads, and whose other members are zeros: in the heads if they are
      statically encoded, else in that block. */
  function Signposts(ts: seq<Type>, i: nat, n: nat): (s: seq<Byte>)
    requires n <= |ts|
    ensures |s| == HeadSizes(ts, n)
  {
    if n == 0 then []
    else Signposts(ts, i, n - 1) + Signpost(ts, i, n - 1)
  }

  function Signpost(ts: seq<Type>, i: nat, j: nat): (s: seq<Byte>)
    requires j < |ts|
    ensures |s| == HeadSize(ts[j])
  {
    if IsDynamic(ts[j]) then ToBigEndian(HeadSizes(ts, |ts|) + (if j == i then TWO_32 else 0), 32)
    else Zeros(HeadSize(ts[j]))
  }

  lemma {:induction false} SignpostsGrow(ts: seq<Type>, i: nat, j: nat, n: nat)
    requires j <= n <= |ts|
    ensures Signposts(ts, i, j) <= Signposts(ts, i, n)
    decreases n
  {
    hide Signpost;
    if j < n {
      SignpostsGrow(ts, i, j, n - 1);
    }
  }

  /** The data of such a tuple: `before` is everything up to member `i`. */
  function Before(ts: seq<Type>, i: nat, prefix: seq<Byte>): (s: seq<Byte>)
    ensures |s| == |prefix| + HeadSizes(ts, |ts|) + TWO_32
  {
    prefix + Signposts(ts, i, |ts|) + Zeros(TWO_32)
  }

  lemma SignpostAt(ts: seq<Type>, i: nat, j: nat, prefix: seq<Byte>, rest: seq<Byte>)
    requires j < |ts|
    ensures Holds(Before(ts, i, prefix) + rest, |prefix| + HeadSizes(ts, j), Signpost(ts, i, j))
  {
    hide Signpost, Holds, HeadSizes;
    var heads, part := Signposts(ts, i, |ts|), Signpost(ts, i, j);
    HoldsConcat(Signposts(ts, i, j), part);
    SignpostsGrow(ts, i, j + 1, |ts|);
    PrefixHolds(heads, Signposts(ts, i, j + 1));
    HoldsPart(heads, 0, Signposts(ts, i, j + 1), HeadSizes(ts, j), part);
    HoldsConcat(prefix, heads);
    HoldsPart(prefix + heads, |prefix|, heads, HeadSizes(ts, j), part);
    PrefixKeeps(prefix + heads, Zeros(TWO_32), |prefix| + HeadSizes(ts, j), part);
    PrefixKeeps(Before(ts, i, prefix), rest, |prefix| + HeadSizes(ts, j), part);
  }

  lemma HeldZeros(data: seq<Byte>, q: nat, n: nat)
    requires Holds(data, q, Zeros(n))
    ensures ZeroOn(data, q, n)
  {
    forall i | q <= i < q + n ensures ByteAt(data, i) == 0 {
      assert data[q..q + n][i - q] == data[i];
    }
  }

  lemma BlockBehind(front: seq<Byte>)
    ensures Block(front + Zeros(TWO_32), |front|)
  {
    hide Holds, ZeroOn, Zeros;
    HoldsConcat(front, Zeros(TWO_32));
    HeldZeros(front + Zeros(TWO_32), |front|, TWO_32);
  }

  lemma BlockBehindHeads(ts: seq<Type>, i: nat, prefix: seq<Byte>)
    ensures Block(Before(ts, i, prefix), |prefix| + HeadSizes(ts, |ts|))
  {
    hide Block, Signposts, HeadSizes, Zeros;
    var heads := Signposts(ts, i, |ts|);
    assert |prefix + heads| == |prefix| + HeadSizes(ts, |ts|);
    BlockBehind(prefix + heads);
  }

  /** Where the decoder looks for member `j`. */
  function MemberOffset(ts: seq<Type>, data: seq<Byte>, start: nat, j: nat): nat
    requires j < |ts|
  {
    if IsDynamic(ts[j]) then Load(data, Add(start, HeadSizes(ts, j))) else HeadSizes(ts, j)
  }

  lemma {:induction false} OtherMember(ts: seq<Type>, i: nat, j: nat, prefix: seq<Byte>, rest: seq<Byte>, end: nat)
    requires AllDecodable(ts) && j < |ts| && j != i
    requires |Before(ts, i, prefix)| <= end <= TWO_254
    ensures var data := Before(ts, i, prefix) + rest;
            MemberOffset(ts, data, |prefix|, j) < TWO_64 &&
            Decode(ts[j], data, Add(|prefix|, MemberOffset(ts, data, |prefix|, j)), end).Some?
  {
    hide Holds, ZeroOn, Signposts, Decode, Before, Load, SizesFit, Room, EncodedSize;
    var data := Before(ts, i, prefix) + rest;
    SignpostAt(ts, i, j, prefix, rest);
    HeadSizesGrow(ts, j + 1, |ts|);
    if IsDynamic(ts[j]) {
      LoadWord(data, |prefix| + HeadSizes(ts, j), HeadSizes(ts, |ts|));
      BlockBehindHeads(ts, i, prefix);
      BlockDecodes(ts[j], Before(ts, i, prefix), rest, |prefix| + HeadSizes(ts, |ts|), end);
    } else {
      StaticRoom(ts[j]);
      HeldZeros(data, |prefix| + HeadSizes(ts, j), HeadSize(ts[j]));
      ZeroDecodes(ts[j], data, |prefix| + HeadSizes(ts, j), end);
    }
  }

  lemma ThisMember(ts: seq<Type>, i: nat, prefix: seq<Byte>, rest: seq<Byte>)
    requires AllDecodable(ts) && i < |ts| && IsDynamic(ts[i]) && |Before(ts, i, prefix)| <= TWO_254
    ensures var data := Before(ts, i, prefix) + rest;
            MemberOffset(ts, data, |prefix|, i) == HeadSizes(ts, |ts|) + TWO_32 < TWO_64 &&
            Add(|prefix|, MemberOffset(ts, data, |prefix|, i)) == |Before(ts, i, prefix)|
  {
    hide Holds, Signposts, Before, Load, SizesFit, Decodable;
    SignpostAt(ts, i, i, prefix, rest);
    HeadSizesGrow(ts, i + 1, |ts|);
    LoadWord(Before(ts, i, prefix) + rest, |prefix| + HeadSizes(ts, i), HeadSizes(ts, |ts|) + TWO_32);
  }

  /** The tuple decodes if and only if member `i` does. */
  lemma {:induction false} MembersFollow(ts: seq<Type>, i: nat, prefix: seq<Byte>, rest: seq<Byte>, end: nat, n: nat)
    requires AllDecodable(ts) && i < |ts| && IsDynamic(ts[i]) && n <= |ts|
    requires |Before(ts, i, prefix)| <= end <= TWO_254
    ensures var data := Before(ts, i, prefix) + rest;
            DecodeMembers(ts, data, |prefix|, end, n).Some? <==>
            n <= i || Decode(ts[i], data, |Before(ts, i, prefix)|, end).Some?
  {
    hide Decode, Before, Load, AllDecodable, HeadSizes, Add;
    if n > 0 {
      MembersFollow(ts, i, prefix, rest, end, n - 1);
      if n - 1 == i {
        ThisMember(ts, i, prefix, rest);
      } else {
        OtherMember(ts, i, n - 1, prefix, rest, end);
      }
      MemberStep(ts, Before(ts, i, prefix) + rest, |prefix|, end, n);
    }
  }

  lemma MemberStep(ts: seq<Type>, data: seq<Byte>, start: nat, end: nat, n: nat)
    requires 0 < n <= |ts|
    ensures DecodeMembers(ts, data, start, end, n).Some? <==>
            DecodeMembers(ts, data, start, end, n - 1).Some? &&
            (IsDynamic(ts[n - 1]) ==> MemberOffset(ts, data, start, n - 1) < TWO_64) &&
            Decode(ts[n - 1], data, Add(start, MemberOffset(ts, data, start, n - 1)), end).Some?
  {
    hide Decode, Load, HeadSizes, Add;
  }

  lemma TupleFollows(ts: seq<Type>, i: nat, prefix: seq<Byte>, rest: seq<Byte>, end: nat)
    requires AllDecodable(ts) && i < |ts| && IsDynamic(ts[i])
    requires |Before(ts, i, prefix)| <= end <= TWO_254
    ensures var data := Before(ts, i, prefix) + rest;
            DecodeTuple(ts, data, |prefix|, end).Some? <==> Decode(ts[i], data, |Before(ts, i, prefix)|, end).Some?
  {
    hide Decode, DecodeMembers, Signposts, SizesFit, Decodable;
    MembersFollow(ts, i, prefix, rest, end, |ts|);
  }

  // ---------------------------------------------------------------- all unchecked types

  /** Where the unchecked head word is. */
  lemma UncheckedParts(t: Type)
    requires !Checked(t) && Decodable(t)
    ensures match t
            case StaticArray(base, n) => IsDynamic(base) && n >= 1 && (n == 1 ==> !Checked(base) && Decodable(base))
            case DynamicArray(base) => IsDynamic(base) && Decodable(base)
            case Struct(members) => !AllChecked(members) && AllDecodable(members)
            case _ => false
  {
    match t
    case Struct(members) => MembersDecodable(members);
    case _ =>
  }

  lemma LevelsSpan(t: Type)
    ensures Levels(t) >= 1 && Levels(t) * TWO_34 >= TWO_34
  {
    MulMonotone(1, Levels(t), TWO_34);
  }

  /** For every type with an unchecked head word there are such data. */
  lemma {:induction false} Overreads(t: Type, prefix: seq<Byte>, z: nat)
    returns (w: seq<Byte>, x: seq<Byte>, y: seq<Byte>)
    requires !Checked(t) && Decodable(t) && Block(prefix, z) && |prefix| + Levels(t) * TWO_34 <= TWO_254
    ensures |w| <= Levels(t) * TWO_34 && |x| == |y| <= TWO_32 && Decides(t, prefix, w, x, y)
    decreases t, 0
  {
    hide Checked, Decodable, Block, Decides, IsDynamic;
    UncheckedParts(t);
    LevelsSpan(t);
    match t
    case StaticArray(base, n) =>
      if n == 1 {
        w, x, y := SingleOverreads(base, prefix, z);
      } else {
        w, x, y := StaticOverreads(base, n, prefix, z);
      }
    case DynamicArray(base) =>
      w, x, y := DynamicOverreads(base, prefix, z);
    case Struct(members) =>
      w, x, y := TupleOverreads(members, prefix);
      StructDecides(members, prefix, w, x, y);
  }

  lemma StructDecides(ts: seq<Type>, prefix: seq<Byte>, w: seq<Byte>, x: seq<Byte>, y: seq<Byte>)
    requires DecodeTuple(ts, prefix + w + x, |prefix|, |prefix| + |w|).Some?
    requires DecodeTuple(ts, prefix + w + y, |prefix|, |prefix| + |w|) == None
    ensures Decides(Struct(ts), prefix, w, x, y)
  {
    hide DecodeTuple;
  }

  lemma {:induction false} SingleOverreads(base: Type, prefix: seq<Byte>, z: nat)
    returns (w: seq<Byte>, x: seq<Byte>, y: seq<Byte>)
    requires !Checked(base) && Decodable(base) && Block(prefix, z) && |prefix| + (1 + Levels(base)) * TWO_34 <= TWO_254
    ensures |w| <= (1 + Levels(base)) * TWO_34 && |x| == |y| <= TWO_32 && Decides(StaticArray(base, 1), prefix, w, x, y)
    decreases base, 1
  {
    hide Decode, ToBigEndian, Checked, Decodable, ZeroOn, Levels;
    UncheckedIsDynamic(base);
    var head := ToBigEndian(32, 32);
    PrefixZero(prefix, head, z, TWO_32);
    var inner;
    inner, x, y := Overreads(base, prefix + head, z);
    w := head + inner;
    Reassociate(prefix, head, inner);
    Reassociate(prefix + head, inner, x);
    Reassociate(prefix + head, inner, y);
    SingleDecodes(base, prefix, inner + x, |prefix| + |w|);
    SingleDecodes(base, prefix, inner + y, |prefix| + |w|);
  }

  /** ... and for every tuple with such a type. */
  lemma {:induction false} TupleOverreads(ts: seq<Type>, prefix: seq<Byte>)
    returns (w: seq<Byte>, x: seq<Byte>, y: seq<Byte>)
    requires !AllChecked(ts) && AllDecodable(ts) && |prefix| + (1 + MostLevels(ts, |ts|)) * TWO_34 <= TWO_254
    ensures |w| <= (1 + MostLevels(ts, |ts|)) * TWO_34 && |x| == |y| <= TWO_32
    ensures DecodeTuple(ts, prefix + w + x, |prefix|, |prefix| + |w|).Some?
    ensures DecodeTuple(ts, prefix + w + y, |prefix|, |prefix| + |w|) == None
    decreases ts, |ts| + 1
  {
    hide Decode, Checked, Decodable, Levels, DecodeTuple, Signposts, SizesFit;
    var i :| 0 <= i < |ts| && !Checked(ts[i]);
    UncheckedIsDynamic(ts[i]);
    LevelsBelow(ts, i, |ts|);
    var before := Before(ts, i, prefix);
    BlockBehindHeads(ts, i, prefix);
    var inner;
    inner, x, y := Overreads(ts[i], before, |prefix| + HeadSizes(ts, |ts|));
    w := Signposts(ts, i, |ts|) + Zeros(TWO_32) + inner;
    assert prefix + w == before + inner;
    Reassociate(before, inner, x);
    Reassociate(before, inner, y);
    TupleFollows(ts, i, prefix, inner + x, |prefix| + |w|);
    TupleFollows(ts, i, prefix, inner + y, |prefix| + |w|);
  }

  // ---------------------------------------------------------------- the exact condition

  /** Bytes beyond the end never matter to the generated tuple decoder. */
  ghost predicate StaysInside(ts: seq<Type>) {
    forall d, e, start: nat, end: nat :: start < TWO_256 && Moderate(d, e, end) ==>
      DecodeTuple(ts, d, start, end) == DecodeTuple(ts, e, start, end)
  }

  /** They never do if and only if all head words are checked. */
  lemma StaysInsideExactly(ts: seq<Type>)
    requires AllDecodable(ts) && MostLevels(ts, |ts|) < TWO_64
    ensures StaysInside(ts) <==> AllChecked(ts)
  {
    hide DecodeTuple, Moderate, AllDecodable, Checked;
    if AllChecked(ts) {
      forall d, e, start: nat, end: nat | start < TWO_256 && Moderate(d, e, end)
        ensures DecodeTuple(ts, d, start, end) == DecodeTuple(ts, e, start, end)
      {
        SizesOfDecodable(ts);
        TupleStaysInside(ts, d, e, start, end);
      }
    } else {
      LevelsSmall(MostLevels(ts, |ts|));
      var w, x, y := TupleOverreads(ts, []);
      SameBefore(w, x, y);
      assert [] + w == w;
    }
  }

  lemma SizesOfDecodable(ts: seq<Type>)
    requires AllDecodable(ts)
    ensures AllSizesFit(ts)
  {
  }

  lemma LevelsSmall(n: nat)
    requires n < TWO_64
    ensures (1 + n) * TWO_34 + TWO_32 <= TWO_254
  {
    MulMonotone(1 + n, TWO_64, TWO_34);
  }

  lemma SameBefore(w: seq<Byte>, x: seq<Byte>, y: seq<Byte>)
    requires |w| + |x| <= TWO_254 && |x| == |y|
    ensures Moderate(w + x, w + y, |w|)
  {
  }

  // ---------------------------------------------------------------- 96 bytes that overread

  const TWO_BYTE_ARRAYS := [StaticArray(ByteArray, 2)]

  /** The word for "32 bytes back". */
  const BACK: nat := TWO_256 - 32

  /** Where the array starts, the head word of its first element, and `x` beyond
      the 64 bytes that belong to the data. */
  function Sample(x: nat): (data: seq<Byte>)
    ensures |data| == 96
  {
    ToBigEndian(32, 32) + ToBigEndian(BACK, 32) + ToBigEndian(x, 32)
  }

  lemma SampleWords(x: nat)
    requires x < TWO_256
    ensures Load(Sample(x), 0) == 32 && Load(Sample(x), 32) == BACK && Load(Sample(x), 64) == x
  {
    hide ToBigEndian, Load;
    var a, b, c := ToBigEndian(32, 32), ToBigEndian(BACK, 32), ToBigEndian(x, 32);
    TwoWords(a, BACK, x);
    HeadThen([], 32, b + c);
    Reassociate(a, b, c);
    assert [] + a + (b + c) == a + (b + c);
  }

  /** The bytes at the start are a byte array of 32 bytes ... */
  lemma SampleFirst(x: nat)
    requires x < TWO_256
    ensures Decode(ByteArray, Sample(x), 0, 64).Some? && Decode(ByteArray, Sample(x), 64, 64) == None
  {
    hide Load, Sample;
    SampleWords(x);
  }

  /** ... which the first head word leads to; the second decides. */
  lemma SampleElements(x: nat)
    requires x < TWO_256
    ensures DecodeElements(ByteArray, Sample(x), 32, 2, 64).Some? <==>
      Decode(ByteArray, Sample(x), Add(32, x), 64).Some?
  {
    hide Load, Sample, Decode, Add;
    SampleWords(x);
    SampleFirst(x);
    OneElement(ByteArray, Sample(x), 32, 64);
    BackToStart();
    HeadPlace(ByteArray, 32, 1);
  }

  lemma BackToStart()
    ensures Add(32, BACK) == 0 && Add(32, 32) == 64
  {
  }

  lemma SampleTuple(x: nat)
    requires x < TWO_256
    ensures DecodeTuple(TWO_BYTE_ARRAYS, Sample(x), 0, 64).Some? <==>
      DecodeElements(ByteArray, Sample(x), 32, 2, 64).Some?
  {
    hide Load, Sample, DecodeElements;
    SampleWords(x);
    StaticDecodes(ByteArray, 2, Sample(x), 32, 64);
    hide Decode;
    assert HeadSizes(TWO_BYTE_ARRAYS, 0) == 0 && HeadSizes(TWO_BYTE_ARRAYS, 1) == 32;
    MemberStep(TWO_BYTE_ARRAYS, Sample(x), 0, 64, 1);
    assert DecodeMembers(TWO_BYTE_ARRAYS, Sample(x), 0, 64, 0).Some?;
  }

  /** Two byte arrays in a static array, in 64 bytes of data: the tuple decoder
      returns values if the word behind these bytes is 2^256 - 32, and reverts if
      it is 32. A static array of a single byte array is safe. */
  lemma HeadsAreUnchecked()
    ensures Agree(Sample(BACK), Sample(32), 64)
    ensures DecodeTuple(TWO_BYTE_ARRAYS, Sample(BACK), 0, 64).Some?
    ensures DecodeTuple(TWO_BYTE_ARRAYS, Sample(32), 0, 64) == None
    ensures !StaysInside(TWO_BYTE_ARRAYS) && StaysInside([StaticArray(ByteArray, 1)])
  {
    SampleAgrees();
    SingleIsSafe();
    hide Sample, DecodeTuple, Decode, Add, Agree;
    BackToStart();
    SampleTuple(BACK);
    SampleElements(BACK);
    SampleFirst(BACK);
    SampleTuple(32);
    SampleElements(32);
    SampleFirst(32);
    assert Moderate(Sample(BACK), Sample(32), 64);
  }

  lemma SampleAgrees()
    ensures Agree(Sample(BACK), Sample(32), 64)
  {
    SameBefore(ToBigEndian(32, 32) + ToBigEndian(BACK, 32), ToBigEndian(BACK, 32), ToBigEndian(32, 32));
  }

  lemma SingleIsSafe()
    ensures StaysInside([StaticArray(ByteArray, 1)])
  {
    hide StaysInside;
    var one := [StaticArray(ByteArray, 1)];
    assert HeadSizes(one, 1) == 32 && MostLevels(one, 1) == 2;
    StaysInsideExactly(one);
  }
}
