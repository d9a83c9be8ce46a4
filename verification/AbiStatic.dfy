/**
 Tuples of statically encoded types: the generated decoder accepts exactly the
 encodings, so it returns values if and only if the data are their encoding.
 */
module AbiStatic {
  import opened Wrappers
  import opened Bytes
  import opened AbiTypes
  import opened AbiDecoder

  lemma LoadIsEncoding(data: seq<Byte>, q: nat)
    requires q + 32 <= |data|
    ensures Holds(data, q, ToBigEndian(Load(data, q), 32))
  {
    ToFromBigEndian(data[q..q + 32]);
  }

  /** Element `j` is found in the data where its head is. */
  predicate ElementHeld(ts: seq<Type>, vs: seq<Value>, data: seq<Byte>, start: nat, j: nat)
    requires HaveTypes(ts, vs) && j < |ts|
  {
    Holds(data, start + HeadSizes(ts, j), Encoding(ts[j], vs[j]))
  }

  /** Element by element, the heads are found in the data. */
  lemma {:induction false} HeadsHeld(ts: seq<Type>, vs: seq<Value>, data: seq<Byte>, start: nat, n: nat)
    requires HaveTypes(ts, vs) && AllStatic(ts) && n <= |ts| && start <= |data|
    requires forall j :: 0 <= j < n ==> ElementHeld(ts, vs, data, start, j)
    ensures Holds(data, start, Heads(ts, vs, n))
  {
    hide HasType, Encoding, TailStart, HeadSizes, IsDynamic, Holds;
    if n == 0 {
      HoldsNothing(data, start);
    } else {
      HeadsHeld(ts, vs, data, start, n - 1);
      HeadsSize(ts, vs, n - 1);
      assert ElementHeld(ts, vs, data, start, n - 1);
      HoldsJoin(data, start, Heads(ts, vs, n - 1), Encoding(ts[n - 1], vs[n - 1]));
    }
  }

  lemma HoldsNothing(data: seq<Byte>, q: nat)
    requires q <= |data|
    ensures Holds(data, q, [])
  {
  }

  lemma TupleHeld(ts: seq<Type>, vs: seq<Value>, data: seq<Byte>, start: nat)
    requires HaveTypes(ts, vs) && AllStatic(ts) && start <= |data|
    requires forall j :: 0 <= j < |ts| ==> ElementHeld(ts, vs, data, start, j)
    ensures Holds(data, start, TupleEncoding(ts, vs))
  {
    hide HasType, Encoding, Heads, Holds, ElementHeld;
    HeadsHeld(ts, vs, data, start, |ts|);
    StaticTails(ts, vs, |ts|);
    assert TupleEncoding(ts, vs) == Heads(ts, vs, |ts|);
  }

  /** The members of a decoded tuple were decoded where they should be. */
  lemma {:induction false} MembersSplit(ts: seq<Type>, data: seq<Byte>, start: nat, end: nat, n: nat, j: nat)
    requires j < n <= |ts| && AllStatic(ts) && DecodeMembers(ts, data, start, end, n).Some?
    ensures var vs := DecodeMembers(ts, data, start, end, n).value;
            |vs| == n && Decode(ts[j], data, Add(start, HeadSizes(ts, j)), end) == Some(vs[j])
    decreases n
  {
    hide Decode, Load, IsDynamic, HeadSizes;
    MembersTyped(ts, data, start, end, n - 1);
    if j < n - 1 {
      MembersSplit(ts, data, start, end, n - 1, j);
    }
  }

  lemma {:induction false} ElementsSplit(base: Type, data: seq<Byte>, offset: nat, k: nat, end: nat, j: nat)
    requires j < k && !IsDynamic(base) && DecodeElements(base, data, offset, k, end).Some?
    ensures var vs := DecodeElements(base, data, offset, k, end).value;
            |vs| == k && Decode(base, data, Source(base, offset, j), end) == Some(vs[j])
    decreases k
  {
    hide Decode, Load, IsDynamic, Source;
    ElementsTyped(base, data, offset, k - 1, end);
    if j < k - 1 {
      ElementsSplit(base, data, offset, k - 1, end, j);
    }
  }

  lemma {:induction false} HeadsInside(ts: seq<Type>, j: nat, n: nat)
    requires j < n <= |ts| && AllStatic(ts)
    ensures HeadSizes(ts, j) + EncodedSize(ts[j]) <= HeadSizes(ts, n)
    decreases n
  {
    hide EncodedSize;
    if j < n - 1 {
      HeadsInside(ts, j, n - 1);
    }
  }

  /** A decoded static value is what the data encode. */
  lemma {:induction false} DecodedIsEncoded(t: Type, data: seq<Byte>, q: nat, end: nat)
    requires !IsDynamic(t) && q + EncodedSize(t) <= |data| < TWO_255 && Decode(t, data, q, end).Some?
    ensures var v := Decode(t, data, q, end).value; HasType(t, v) && Holds(data, q, Encoding(t, v))
    decreases t, 0
  {
    DecodedIsTyped(t, data, q, end);
    match t
    case Word(_) => LoadIsEncoding(data, q);
    case StaticArray(base, length) => ArrayIsEncoded(base, length, data, q, end);
    case Struct(members) =>
      StaticHeads(members, |members|);
      MembersAreEncoded(members, data, q, end);
  }

  lemma {:induction false} ArrayIsEncoded(base: Type, length: nat, data: seq<Byte>, q: nat, end: nat)
    requires !IsDynamic(base) && q + EncodedSize(StaticArray(base, length)) <= |data| < TWO_255
    requires Decode(StaticArray(base, length), data, q, end).Some?
    ensures var v := Decode(StaticArray(base, length), data, q, end).value;
            HasType(StaticArray(base, length), v) && Holds(data, q, Encoding(StaticArray(base, length), v))
    decreases base, 2
  {
    DecodedIsTyped(StaticArray(base, length), data, q, end);
    SizesMultipleOf32(base);
    RoundExact(length, EncodedSize(base));
    var v := Decode(StaticArray(base, length), data, q, end).value;
    assert DecodeElements(base, data, q, length, end) == Some(v.elems);
    hide Decode, DecodeElements, Holds;
    ElementsAreEncoded(base, length, data, q, end);
  }

  lemma {:induction false} ElementsAreEncoded(base: Type, length: nat, data: seq<Byte>, q: nat, end: nat)
    requires !IsDynamic(base) && q + length * EncodedSize(base) <= |data| < TWO_255
    requires DecodeElements(base, data, q, length, end).Some?
    ensures var vs := DecodeElements(base, data, q, length, end).value;
            HaveTypes(Repeat(base, length), vs) && Holds(data, q, TupleEncoding(Repeat(base, length), vs))
    decreases base, 1
  {
    hide Decode, DecodeElements, HasType, Holds, HeadSizes, EncodedSize, Encoding, TupleEncoding, Source;
    var ts, vs := Repeat(base, length), DecodeElements(base, data, q, length, end).value;
    ElementsTyped(base, data, q, length, end);
    RepeatedHeads(base, length, length);
    forall j | 0 <= j < length ensures ElementHeld(ts, vs, data, q, j) {
      ElementsSplit(base, data, q, length, end, j);
      HeadsInside(ts, j, length);
      SourceStays(base, q, length, j);
      DecodedIsEncoded(base, data, q + HeadSizes(ts, j), end);
    }
    TupleHeld(ts, vs, data, q);
  }

  lemma {:induction false} MembersAreEncoded(ts: seq<Type>, data: seq<Byte>, start: nat, end: nat)
    requires AllStatic(ts) && start + HeadSizes(ts, |ts|) <= |data| < TWO_255
    requires DecodeTuple(ts, data, start, end).Some?
    ensures HaveTypes(ts, DecodeTuple(ts, data, start, end).value)
    ensures Holds(data, start, TupleEncoding(ts, DecodeTuple(ts, data, start, end).value))
    decreases ts, 1
  {
    hide Decode, HasType, Holds, HeadSizes, EncodedSize, Encoding, TupleEncoding, IsDynamic;
    var vs := DecodeTuple(ts, data, start, end).value;
    MembersTyped(ts, data, start, end, |ts|);
    forall j | 0 <= j < |ts| ensures ElementHeld(ts, vs, data, start, j) {
      MembersSplit(ts, data, start, end, |ts|, j);
      HeadsInside(ts, j, |ts|);
      DecodedIsEncoded(ts[j], data, start + HeadSizes(ts, j), end);
    }
    TupleHeld(ts, vs, data, start);
  }

  /** For tuples of statically encoded types the generated decoder returns `vs` if
      and only if there is room for the tuple and its bytes are the encoding of
      `vs`. So it reverts exactly on data that encode no values. */
  lemma DecodesExactly(ts: seq<Type>, vs: seq<Value>, data: seq<Byte>, start: nat, end: nat)
    requires AllStatic(ts) && AllWellFormed(ts) && HeadSizes(ts, |ts|) < TWO_64
    requires start <= end <= |data| < TWO_255
    ensures DecodeTuple(ts, data, start, end) == Some(vs) <==>
            start + HeadSizes(ts, |ts|) <= end && HaveTypes(ts, vs) && Holds(data, start, TupleEncoding(ts, vs))
  {
    hide Decode, DecodeMembers, HasType, Holds, HeadSizes, WellFormed, IsDynamic, TupleEncoding;
    if DecodeTuple(ts, data, start, end) == Some(vs) {
      MembersAreEncoded(ts, data, start, end);
    }
    if start + HeadSizes(ts, |ts|) <= end && HaveTypes(ts, vs) && Holds(data, start, TupleEncoding(ts, vs)) {
      TupleSize(ts, vs);
      StaticTails(ts, vs, |ts|);
      TupleDecodeUndoesEncoding(ts, vs, data, start, end);
    }
  }
}
