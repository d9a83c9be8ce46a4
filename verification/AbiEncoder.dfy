/**
 The encoders that libsolidity/codegen/ABIFunctions.cpp generates, writing to a
 byte memory, and the proof that they write the encoding of module AbiTypes.
 Values come from outside this memory; `raw` are the values with dirty
 higher-order bits and `vs` what cleanup makes of them. `beyond` stands for the
 bytes that follow a byte array where it is stored, which the copy loop reads too.
 */
module AbiEncoder {
  import opened Wrappers
  import opened Bytes
  import opened AbiTypes
  import opened AbiDecoder

  // ---------------------------------------------------------------- what writing does

  lemma PatchHolds(d: seq<Byte>, pos: nat, bs: seq<Byte>)
    requires pos + |bs| <= |d|
    ensures Holds(Patch(d, pos, bs), pos, bs)
  {
  }

  lemma PatchKeeps(d: seq<Byte>, pos: nat, bs: seq<Byte>, q: nat, kept: seq<Byte>)
    requires pos + |bs| <= |d| && Holds(d, q, kept) && (q + |kept| <= pos || pos + |bs| <= q)
    ensures Holds(Patch(d, pos, bs), q, kept)
  {
    var e := Patch(d, pos, bs);
    assert e[q..q + |kept|] == d[q..q + |kept|];
  }

  lemma PatchTwice(d: seq<Byte>, pos: nat, a: seq<Byte>, b: seq<Byte>)
    requires pos + |a| + |b| <= |d|
    ensures Patch(Patch(d, pos, a), pos + |a|, b) == Patch(d, pos, a + b)
  {
  }

  /** `after` holds `bs` at `pos` and differs from `before` only from there on. */
  predicate Written(before: seq<Byte>, after: seq<Byte>, pos: nat, bs: seq<Byte>) {
    |after| == |before| && Holds(after, pos, bs) && after[..pos] == before[..pos]
  }

  lemma WrittenKeeps(before: seq<Byte>, after: seq<Byte>, pos: nat, bs: seq<Byte>, q: nat, kept: seq<Byte>)
    requires Written(before, after, pos, bs) && Holds(before, q, kept) && q + |kept| <= pos
    ensures Holds(after, q, kept)
  {
    assert after[q..q + |kept|] == after[..pos][q..q + |kept|];
    assert before[q..q + |kept|] == before[..pos][q..q + |kept|];
  }

  lemma WrittenPrefix(before: seq<Byte>, after: seq<Byte>, pos: nat, bs: seq<Byte>, q: nat)
    requires Written(before, after, pos, bs) && q <= pos
    ensures after[..q] == before[..q]
  {
    assert after[..q] == after[..pos][..q];
    assert before[..q] == before[..pos][..q];
  }

  lemma PatchWrites(d: seq<Byte>, pos: nat, bs: seq<Byte>)
    requires pos + |bs| <= |d|
    ensures Written(d, Patch(d, pos, bs), pos, bs)
  {
    PatchHolds(d, pos, bs);
  }

  /** What `Encode` did: it wrote the encoding and, where this is statically
      encoded, touched nothing else. Byte arrays clobber what follows them. */
  predicate Encoded(before: seq<Byte>, after: seq<Byte>, pos: nat, bs: seq<Byte>, exact: bool) {
    Written(before, after, pos, bs) && (exact ==> after == Patch(before, pos, bs))
  }

  // ---------------------------------------------------------------- tuples, element by element

  /** The first `i` elements of a tuple are written. */
  ghost predicate Progress(before: seq<Byte>, now: seq<Byte>, ts: seq<Type>, vs: seq<Value>, i: nat, start: nat) {
    HaveTypes(ts, vs) && i <= |ts| &&
    |now| == |before| && start <= |now| && now[..start] == before[..start] &&
    Holds(now, start, Heads(ts, vs, i)) &&
    Holds(now, start + HeadSizes(ts, |ts|), Tails(ts, vs, i)) &&
    (AllStatic(ts) ==> now == Patch(before, start, Heads(ts, vs, i)))
  }

  lemma ProgressStarts(before: seq<Byte>, ts: seq<Type>, vs: seq<Value>, start: nat)
    requires HaveTypes(ts, vs) && start + HeadSizes(ts, |ts|) <= |before|
    ensures Progress(before, before, ts, vs, 0, start)
  {
  }

  lemma {:induction false} StaticStep(before: seq<Byte>, now: seq<Byte>, next: seq<Byte>, ts: seq<Type>,
      vs: seq<Value>, i: nat, start: nat)
    requires i < |ts| && Progress(before, now, ts, vs, i, start) && !IsDynamic(ts[i])
    requires start + |TupleEncoding(ts, vs)| <= |before|
    requires Encoded(now, next, start + HeadSizes(ts, i), Encoding(ts[i], vs[i]), true)
    ensures Progress(before, next, ts, vs, i + 1, start)
  {
    hide HasType, Encoding, TailStart, IsDynamic, Holds, Patch, HeadSize, TupleEncoding;
    var at, bs := start + HeadSizes(ts, i), Encoding(ts[i], vs[i]);
    StaticSize(ts[i], vs[i]);
    HeadsSize(ts, vs, i);
    HeadStep(ts, vs, i);
    WrittenPrefix(now, next, at, bs, start);
    WrittenKeeps(now, next, at, bs, start, Heads(ts, vs, i));
    HoldsJoin(next, start, Heads(ts, vs, i), bs);
    HoldsRange(now, start + HeadSizes(ts, |ts|), Tails(ts, vs, i));
    PatchKeeps(now, at, bs, start + HeadSizes(ts, |ts|), Tails(ts, vs, i));
    assert Tails(ts, vs, i + 1) == Tails(ts, vs, i);
    if AllStatic(ts) {
      assert now == Patch(before, start, Heads(ts, vs, i)) && next == Patch(now, at, bs);
      PatchTwice(before, start, Heads(ts, vs, i), bs);
      assert Heads(ts, vs, i + 1) == Heads(ts, vs, i) + bs;
      assert next == Patch(before, start, Heads(ts, vs, i + 1));
    }
  }

  lemma {:induction false} HeadStep(ts: seq<Type>, vs: seq<Value>, i: nat)
    requires HaveTypes(ts, vs) && i < |ts|
    ensures HeadSizes(ts, i + 1) == HeadSizes(ts, i) + HeadSize(ts[i]) <= HeadSizes(ts, |ts|)
    ensures HeadSizes(ts, |ts|) <= |TupleEncoding(ts, vs)|
    ensures IsDynamic(ts[i]) ==> HeadSize(ts[i]) == 32
    ensures !IsDynamic(ts[i]) ==> HeadSize(ts[i]) == EncodedSize(ts[i])
  {
    hide HasType, TupleEncoding, IsDynamic, Tails;
    HeadsGrow(ts, vs, i + 1, |ts|);
    TupleSize(ts, vs);
  }

  lemma HoldsRange(d: seq<Byte>, q: nat, bs: seq<Byte>)
    requires Holds(d, q, bs)
    ensures q + |bs| <= |d|
  {
  }

  lemma {:induction false} DynamicStep(
    before: seq<Byte>, now: seq<Byte>, next: seq<Byte>, ts: seq<Type>, vs: seq<Value>, i: nat, start: nat)
    requires i < |ts| && Progress(before, now, ts, vs, i, start) && IsDynamic(ts[i])
    requires start + |TupleEncoding(ts, vs)| <= |before|
    requires start + HeadSizes(ts, i) + 32 <= |now|
    requires Written(
               Patch(now, start + HeadSizes(ts, i), ToBigEndian(TailStart(ts, vs, i), 32)), next,
               start + TailStart(ts, vs, i), Encoding(ts[i], vs[i]))
    ensures Progress(before, next, ts, vs, i + 1, start)
  {
    hide HasType, Encoding, IsDynamic, Holds, Patch, HeadSize, TupleEncoding, Written;
    var at, word, bs := start + HeadSizes(ts, i), ToBigEndian(TailStart(ts, vs, i), 32), Encoding(ts[i], vs[i]);
    var mid, tail := Patch(now, at, word), start + TailStart(ts, vs, i);
    HeadsSize(ts, vs, i);
    HeadStep(ts, vs, i);
    PatchWrites(now, at, word);
    WrittenPrefix(now, mid, at, word, start);
    WrittenPrefix(mid, next, tail, bs, start);
    WrittenKeeps(now, mid, at, word, start, Heads(ts, vs, i));
    WrittenSize(now, mid, at, word);
    WrittenSize(mid, next, tail, bs);
    HoldsJoin(mid, start, Heads(ts, vs, i), word);
    WrittenKeeps(mid, next, tail, bs, start, Heads(ts, vs, i) + word);
    PatchKeeps(now, at, word, start + HeadSizes(ts, |ts|), Tails(ts, vs, i));
    WrittenKeeps(mid, next, tail, bs, start + HeadSizes(ts, |ts|), Tails(ts, vs, i));
    HoldsJoin(next, start + HeadSizes(ts, |ts|), Tails(ts, vs, i), bs);
  }

  lemma WrittenSize(before: seq<Byte>, after: seq<Byte>, pos: nat, bs: seq<Byte>)
    requires Written(before, after, pos, bs)
    ensures |after| == |before| && Holds(after, pos, bs)
  {
  }

  lemma {:induction false} ProgressEnds(before: seq<Byte>, now: seq<Byte>, ts: seq<Type>, vs: seq<Value>, start: nat)
    requires Progress(before, now, ts, vs, |ts|, start)
    ensures Encoded(before, now, start, TupleEncoding(ts, vs), AllStatic(ts))
    ensures TailStart(ts, vs, |ts|) == |TupleEncoding(ts, vs)|
  {
    hide HasType, Heads, IsDynamic, Tails, Holds, Patch;
    HeadsSize(ts, vs, |ts|);
    HoldsJoin(now, start, Heads(ts, vs, |ts|), Tails(ts, vs, |ts|));
    if AllStatic(ts) {
      StaticTails(ts, vs, |ts|);
      assert TupleEncoding(ts, vs) == Heads(ts, vs, |ts|);
    }
  }

  /** Where the next element goes, and that there is room for it. */
  lemma {:induction false} RoomForElement(ts: seq<Type>, vs: seq<Value>, i: nat)
    requires HaveTypes(ts, vs) && i < |ts|
    ensures IsDynamic(ts[i]) ==>
              HeadSizes(ts, i) + 32 <= |TupleEncoding(ts, vs)| &&
              TailStart(ts, vs, i) + |Encoding(ts[i], vs[i])| == TailStart(ts, vs, i + 1) <= |TupleEncoding(ts, vs)|
    ensures !IsDynamic(ts[i]) ==>
              HeadSizes(ts, i) + |Encoding(ts[i], vs[i])| == HeadSizes(ts, i + 1) <= |TupleEncoding(ts, vs)| &&
              TailStart(ts, vs, i + 1) == TailStart(ts, vs, i)
  {
    hide HasType, Encoding, TupleEncoding, IsDynamic, HeadSize;
    HeadStep(ts, vs, i);
    PositionsInside(ts, vs, i + 1);
    if !IsDynamic(ts[i]) {
      StaticSize(ts[i], vs[i]);
    }
  }

  // ---------------------------------------------------------------- the generated encoders

  class Memory {
    var data: seq<Byte>

    constructor (bytes: seq<Byte>)
      ensures data == bytes
    {
      data := bytes;
    }

    method MStore(pos: nat, w: nat)
      requires pos + 32 <= |data|
      modifies this
      ensures data == Patch(old(data), pos, ToBigEndian(w, 32))
    {
      data := StoreBigEndian(data, pos, 32, w);
    }

    /** `copy_memory_to_memory`: whole words, then the end is cleared. */
    method CopyToMemory(bytes: seq<Byte>, beyond: seq<Byte>, dst: nat)
      requires |beyond| == 32 && dst + |bytes| + 32 <= |data|
      modifies this
      ensures Written(old(data), data, dst, bytes + Zeros(RoundUp(|bytes|) - |bytes|))
    {
      hide Patch, ToBigEndian, FromBigEndian;
      ghost var before := data;
      var source := bytes + beyond;
      var i := 0;
      ProgressCopied(before, dst);
      while i < |bytes|
        invariant i % 32 == 0 && i < |bytes| + 32
        invariant Written(before, data, dst, source[..i])
      {
        ghost var now := data;
        ToFromBigEndian(source[i..i + 32]);
        MStore(dst + i, FromBigEndian(source[i..i + 32]));
        WordCopied(before, now, data, dst, source, i);
        i := i + 32;
      }
      ghost var now := data;
      if i > |bytes| {
        MStore(dst + |bytes|, 0);
        EndCleared(before, now, data, dst, bytes, source, i);
      } else {
        assert source[..i] == bytes + Zeros(RoundUp(|bytes|) - |bytes|);
      }
    }

    /** `abiEncodingFunctionMemoryByteArray`. */
    method EncodeBytes(bytes: seq<Byte>, pos: nat, beyond: seq<Byte>) returns (end: nat)
      requires |beyond| == 32 && pos + 32 + RoundUp(|bytes|) + 32 <= |data|
      modifies this
      ensures Written(old(data), data, pos, Encoding(ByteArray, BytesValue(bytes)))
      ensures end == pos + |Encoding(ByteArray, BytesValue(bytes))|
    {
      hide Patch, ToBigEndian, Holds, Written;
      ghost var before := data;
      MStore(pos, |bytes|);
      ghost var mid := data;
      CopyToMemory(bytes, beyond, pos + 32);
      BytesEncoded(before, mid, data, pos, bytes);
      end := pos + 32 + RoundUp(|bytes|);
    }

    /** `tupleEncoder` and, for a struct, `abiEncodingFunctionStruct`. */
    method EncodeTuple(ts: seq<Type>, raw: seq<Value>, ghost vs: seq<Value>, headStart: nat, beyond: seq<Byte>)
      returns (tail: nat)
      requires CleanAll(ts, raw, vs) && HaveTypes(ts, vs) && |beyond| == 32 &&
        headStart + |TupleEncoding(ts, vs)| + 32 <= |data|
      modifies this
      ensures Encoded(old(data), data, headStart, TupleEncoding(ts, vs), AllStatic(ts))
      ensures tail == headStart + |TupleEncoding(ts, vs)|
      decreases vs, 2
    {
      hide HasType, Encoding, TupleEncoding, IsDynamic, Holds, Patch, HeadSize, HeadSizes, Progress, Encoded, Written,
          TailStart, AllStatic, CleansTo;
      ghost var before := data;
      tail := headStart + HeadSizes(ts, |ts|);
      StartOfTuple(ts, vs);
      ProgressStarts(before, ts, vs, headStart);
      var headPos, i := 0, 0;
      while i < |ts|
        invariant 0 <= i <= |ts|
        invariant headPos == HeadSizes(ts, i) && tail == headStart + TailStart(ts, vs, i)
        invariant |data| == |before| && Progress(before, data, ts, vs, i, headStart)
      {
        ghost var now := data;
        RoomForElement(ts, vs, i);
        HeadStep(ts, vs, i);
        if IsDynamic(ts[i]) {
          MStore(headStart + headPos, tail - headStart);
          tail := Encode(ts[i], raw[i], vs[i], tail, beyond);
          EncodedSaysWritten(Patch(now, headStart + headPos, ToBigEndian(TailStart(ts, vs, i), 32)), data,
              headStart + TailStart(ts, vs, i), Encoding(ts[i], vs[i]), false);
          DynamicStep(before, now, data, ts, vs, i, headStart);
        } else {
          var _ := Encode(ts[i], raw[i], vs[i], headStart + headPos, beyond);
          EncodedSaysWritten(now, data, headStart + headPos, Encoding(ts[i], vs[i]), true);
          StaticStep(before, now, data, ts, vs, i, headStart);
        }
        headPos := headPos + HeadSize(ts[i]);
        i := i + 1;
      }
      ProgressEnds(before, data, ts, vs, headStart);
    }

    /** `abiEncodingFunctionSimpleArray` after the length is stored. */
    method EncodeArray(base: Type, raw: seq<Value>, ghost vs: seq<Value>, pos: nat, beyond: seq<Byte>)
      returns (end: nat)
      requires CleanAll(Repeat(base, |vs|), raw, vs) && HaveTypes(Repeat(base, |vs|), vs) && |beyond| == 32
      requires pos + |TupleEncoding(Repeat(base, |vs|), vs)| + 32 <= |data|
      modifies this
      ensures Encoded(old(data), data, pos, TupleEncoding(Repeat(base, |vs|), vs), !IsDynamic(base))
      ensures end == pos + |TupleEncoding(Repeat(base, |vs|), vs)|
      decreases vs, 3
    {
      if IsDynamic(base) {
        end := EncodeWithTail(base, raw, vs, pos, beyond);
      } else {
        end := EncodeInSequence(base, raw, vs, pos, beyond);
      }
    }

    /** Its loop for dynamically encoded elements. */
    method EncodeWithTail(base: Type, raw: seq<Value>, ghost vs: seq<Value>, start: nat, beyond: seq<Byte>)
      returns (end: nat)
      requires CleanAll(Repeat(base, |vs|), raw, vs) && HaveTypes(Repeat(base, |vs|), vs) && |beyond| == 32 &&
        IsDynamic(base)
      requires start + |TupleEncoding(Repeat(base, |vs|), vs)| + 32 <= |data|
      modifies this
      ensures Written(old(data), data, start, TupleEncoding(Repeat(base, |vs|), vs))
      ensures end == start + |TupleEncoding(Repeat(base, |vs|), vs)|
      decreases vs, 2
    {
      hide HasType, Encoding, TupleEncoding, IsDynamic, Holds, Patch, HeadSize, HeadSizes, Progress, Written,
          TailStart, Encoded, CleansTo;
      hide AllStatic, Repeat, ToBigEndian;
      ghost var ts := Repeat(base, |vs|);
      ghost var before := data;
      StartOfTuple(ts, vs);
      ProgressStarts(before, ts, vs, start);
      WordHeads(base, |vs|);
      var pos, headStart, tail, i := start, start, start + |raw| * 0x20, 0;
      while i < |raw|
        invariant 0 <= i <= |vs|
        invariant pos == start + HeadSizes(ts, i) && tail == start + TailStart(ts, vs, i)
        invariant |data| == |before| && Progress(before, data, ts, vs, i, start)
      {
        ghost var now := data;
        RoomForElement(ts, vs, i);
        HeadStep(ts, vs, i);
        MStore(pos, tail - headStart);
        tail := EncodeUpdatedPos(base, raw[i], vs[i], tail, beyond);
        EncodedSaysWritten(Patch(now, pos, ToBigEndian(TailStart(ts, vs, i), 32)), data, start + TailStart(ts, vs, i),
            Encoding(base, vs[i]), false);
        DynamicStep(before, now, data, ts, vs, i, start);
        pos := pos + 0x20;
        i := i + 1;
      }
      ProgressEnds(before, data, ts, vs, start);
      EncodedSaysWritten(before, data, start, TupleEncoding(ts, vs), AllStatic(ts));
      end := tail;
    }

    /** Its loop for statically encoded elements. */
    method EncodeInSequence(base: Type, raw: seq<Value>, ghost vs: seq<Value>, start: nat, beyond: seq<Byte>)
      returns (end: nat)
      requires CleanAll(Repeat(base, |vs|), raw, vs) && HaveTypes(Repeat(base, |vs|), vs) && |beyond| == 32 &&
        !IsDynamic(base)
      requires start + |TupleEncoding(Repeat(base, |vs|), vs)| + 32 <= |data|
      modifies this
      ensures Encoded(old(data), data, start, TupleEncoding(Repeat(base, |vs|), vs), true)
      ensures end == start + |TupleEncoding(Repeat(base, |vs|), vs)|
      decreases vs, 2
    {
      hide HasType, Encoding, TupleEncoding, IsDynamic, Holds, Patch, HeadSize, HeadSizes, Progress, Written,
          TailStart, AllStatic, Encoded, CleansTo;
      ghost var ts := Repeat(base, |vs|);
      ghost var before := data;
      StartOfTuple(ts, vs);
      ProgressStarts(before, ts, vs, start);
      var pos, i := start, 0;
      while i < |raw|
        invariant 0 <= i <= |vs| && pos == start + HeadSizes(ts, i)
        invariant |data| == |before| && Progress(before, data, ts, vs, i, start)
      {
        ghost var now, at := data, pos;
        RoomForElement(ts, vs, i);
        pos := EncodeUpdatedPos(base, raw[i], vs[i], pos, beyond);
        EncodedSaysWritten(now, data, at, Encoding(base, vs[i]), true);
        StaticStep(before, now, data, ts, vs, i, start);
        i := i + 1;
      }
      StaticEnd(base, vs);
      ProgressEnds(before, data, ts, vs, start);
      end := pos;
    }

    /** `abiEncodeAndReturnUpdatedPosFunction`. */
    method EncodeUpdatedPos(t: Type, raw: Value, ghost v: Value, pos: nat, beyond: seq<Byte>) returns (updatedPos: nat)
      requires CleansTo(t, raw, v) && HasType(t, v) && |beyond| == 32 && pos + |Encoding(t, v)| + 32 <= |data|
      modifies this
      ensures Encoded(old(data), data, pos, Encoding(t, v), !IsDynamic(t))
      ensures updatedPos == pos + |Encoding(t, v)|
      decreases v, 1
    {
      hide HasType, Encoding, Encoded, CleansTo;
      updatedPos := Encode(t, raw, v, pos, beyond);
      if !IsDynamic(t) {
        StaticSize(t, v);
        updatedPos := pos + EncodedSize(t);
      }
    }

    /** `abiEncodingFunction`; `end` is returned for dynamically encoded types only. */
    method Encode(t: Type, raw: Value, ghost v: Value, pos: nat, beyond: seq<Byte>) returns (end: nat)
      requires CleansTo(t, raw, v) && HasType(t, v) && |beyond| == 32 && pos + |Encoding(t, v)| + 32 <= |data|
      modifies this
      ensures Encoded(old(data), data, pos, Encoding(t, v), !IsDynamic(t))
      ensures IsDynamic(t) ==> end == pos + |Encoding(t, v)|
      decreases v, 0
    {
      hide Holds, Patch, Written;
      ghost var before := data;
      end := pos;
      match t
      case Word(kind) =>
        PatchWrites(data, pos, ToBigEndian(v.word, 32));
        MStore(pos, Cleaned(kind, raw.word));
      case ByteArray =>
        end := EncodeBytes(raw.bytes, pos, beyond);
      case StaticArray(base, length) =>
        assert Encoding(t, v) == TupleEncoding(Repeat(base, |v.elems|), v.elems);
        end := EncodeArray(base, raw.elems, v.elems, pos, beyond);
      case DynamicArray(base) =>
        ArrayEncoding(base, v);
        MStore(pos, |raw.elems|);
        ghost var mid := data;
        end := EncodeArray(base, raw.elems, v.elems, pos + 0x20, beyond);
        LengthThenElements(before, mid, data, pos, |v.elems|, TupleEncoding(Repeat(base, |v.elems|), v.elems));
      case Struct(members) =>
        assert Encoding(t, v) == TupleEncoding(members, v.elems);
        end := EncodeTuple(members, raw.elems, v.elems, pos, beyond);
    }
  }

  // ---------------------------------------------------------------- steps of the encoders

  lemma ProgressCopied(before: seq<Byte>, dst: nat)
    requires dst <= |before|
    ensures Written(before, before, dst, [])
  {
  }

  lemma WordCopied(before: seq<Byte>, now: seq<Byte>, next: seq<Byte>, dst: nat, source: seq<Byte>, i: nat)
    requires i + 32 <= |source| && Written(before, now, dst, source[..i]) && dst + i + 32 <= |now|
    requires next == Patch(now, dst + i, source[i..i + 32])
    ensures Written(before, next, dst, source[..i + 32])
  {
    hide Holds, Patch;
    PatchWrites(now, dst + i, source[i..i + 32]);
    WrittenPrefix(now, next, dst + i, source[i..i + 32], dst);
    WrittenKeeps(now, next, dst + i, source[i..i + 32], dst, source[..i]);
    HoldsJoin(next, dst, source[..i], source[i..i + 32]);
    assert source[..i + 32] == source[..i] + source[i..i + 32];
  }

  lemma EndCleared(before: seq<Byte>, now: seq<Byte>, next: seq<Byte>, dst: nat, bytes: seq<Byte>, source: seq<Byte>,
      i: nat)
    requires bytes <= source && |bytes| < i < |bytes| + 32 && i <= |source| && i % 32 == 0
    requires Written(before, now, dst, source[..i]) && dst + |bytes| + 32 <= |now|
    requires next == Patch(now, dst + |bytes|, ToBigEndian(0, 32))
    ensures Written(before, next, dst, bytes + Zeros(RoundUp(|bytes|) - |bytes|))
  {
    hide Holds, Patch;
    var zeros, padding := ToBigEndian(0, 32), Zeros(RoundUp(|bytes|) - |bytes|);
    HoldsConcat(bytes, source[|bytes|..i]);
    assert source[..i] == bytes + source[|bytes|..i];
    HoldsPart(now, dst, source[..i], 0, bytes);
    PatchWrites(now, dst + |bytes|, zeros);
    WrittenPrefix(now, next, dst + |bytes|, zeros, dst);
    WrittenKeeps(now, next, dst + |bytes|, zeros, dst, bytes);
    ToBigEndianZero(32);
    HoldsConcat(padding, Zeros(32 - |padding|));
    assert zeros == padding + Zeros(32 - |padding|);
    HoldsPart(next, dst + |bytes|, zeros, 0, padding);
    HoldsJoin(next, dst, bytes, padding);
  }

  lemma BytesEncoded(before: seq<Byte>, mid: seq<Byte>, after: seq<Byte>, pos: nat, bytes: seq<Byte>)
    requires pos + 32 <= |before| && mid == Patch(before, pos, ToBigEndian(|bytes|, 32))
    requires Written(mid, after, pos + 32, bytes + Zeros(RoundUp(|bytes|) - |bytes|))
    ensures Written(before, after, pos, Encoding(ByteArray, BytesValue(bytes)))
  {
    hide Holds, Patch, Encoding, Written, ToBigEndian;
    var contents := bytes + Zeros(RoundUp(|bytes|) - |bytes|);
    LengthThenElements(before, mid, after, pos, |bytes|, contents);
    BytesEncoding(bytes);
  }

  lemma BytesEncoding(bytes: seq<Byte>)
    ensures Encoding(ByteArray, BytesValue(bytes)) ==
      ToBigEndian(|bytes|, 32) + (bytes + Zeros(RoundUp(|bytes|) - |bytes|))
  {
  }

  lemma LengthThenElements(before: seq<Byte>, mid: seq<Byte>, after: seq<Byte>, pos: nat, length: nat,
      contents: seq<Byte>)
    requires pos + 32 <= |before| && mid == Patch(before, pos, ToBigEndian(length, 32))
    requires Written(mid, after, pos + 32, contents)
    ensures Written(before, after, pos, ToBigEndian(length, 32) + contents)
  {
    hide Holds, Patch;
    var word := ToBigEndian(length, 32);
    PatchWrites(before, pos, word);
    WrittenPrefix(mid, after, pos + 32, contents, pos);
    WrittenKeeps(mid, after, pos + 32, contents, pos, word);
    HoldsJoin(after, pos, word, contents);
  }

  lemma EncodedSaysWritten(before: seq<Byte>, after: seq<Byte>, pos: nat, bs: seq<Byte>, exact: bool)
    requires Encoded(before, after, pos, bs, exact)
    ensures Written(before, after, pos, bs) && |after| == |before|
  {
  }

  lemma StartOfTuple(ts: seq<Type>, vs: seq<Value>)
    requires HaveTypes(ts, vs)
    ensures HeadSizes(ts, 0) == 0 && TailStart(ts, vs, 0) == HeadSizes(ts, |ts|) <= |TupleEncoding(ts, vs)|
  {
    hide HasType, TupleEncoding;
    TupleSize(ts, vs);
  }

  lemma WordHeads(base: Type, n: nat)
    requires IsDynamic(base)
    ensures HeadSizes(Repeat(base, n), n) == n * 0x20
  {
    RepeatedHeads(base, n, n);
  }

  lemma StaticEnd(base: Type, vs: seq<Value>)
    requires HaveTypes(Repeat(base, |vs|), vs) && !IsDynamic(base)
    ensures HeadSizes(Repeat(base, |vs|), |vs|) == |TupleEncoding(Repeat(base, |vs|), vs)|
    ensures AllStatic(Repeat(base, |vs|))
  {
    hide HasType;
    TupleSize(Repeat(base, |vs|), vs);
    StaticTails(Repeat(base, |vs|), vs, |vs|);
  }

  // ---------------------------------------------------------------- round trips

  /** Running the generated decoder on the region the generated encoder wrote
      gives the cleaned values back. */
  method EncodeThenDecode(m: Memory, ts: seq<Type>, raw: seq<Value>, headStart: nat, beyond: seq<Byte>)
    returns (r: Option<seq<Value>>)
    requires AllShaped(ts, raw) && AllWellFormed(ts) && |beyond| == 32
    requires var size := |TupleEncoding(ts, CleanValues(ts, raw))|;
             size < TWO_64 && headStart + size + 32 <= |m.data| < TWO_255
    modifies m
    ensures r == Some(CleanValues(ts, raw))
    ensures |m.data| == |old(m.data)| && m.data[..headStart] == old(m.data)[..headStart]
  {
    hide HasType, TupleEncoding, Decode, CleansTo, CleanValues, Shaped;
    ghost var vs := CleanValues(ts, raw);
    var tail := m.EncodeTuple(ts, raw, vs, headStart, beyond);
    TupleDecodeUndoesEncoding(ts, vs, m.data, headStart, tail);
    r := DecodeTuple(ts, m.data, headStart, tail);
  }

  /** Different values never have the same encoding. */
  lemma EncodingIsInjective(ts: seq<Type>, vs: seq<Value>, ws: seq<Value>)
    requires HaveTypes(ts, vs) && HaveTypes(ts, ws) && AllWellFormed(ts)
    requires TupleEncoding(ts, vs) == TupleEncoding(ts, ws) && |TupleEncoding(ts, vs)| < TWO_64
    ensures vs == ws
  {
    hide HasType, TupleEncoding, DecodeTuple;
    var data := TupleEncoding(ts, vs);
    TupleDecodeUndoesEncoding(ts, vs, data, 0, |data|);
    TupleDecodeUndoesEncoding(ts, ws, data, 0, |data|);
  }
}
