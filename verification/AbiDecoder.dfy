/**
 The decoders that libsolidity/codegen/ABIFunctions.cpp generates, with their
 256-bit arithmetic and every check that can revert, and the proof that they
 undo the encoding.
 */
module AbiDecoder {
  import opened Wrappers
  import opened Bytes
  import opened AbiTypes

  // ---------------------------------------------------------------- the machine's arithmetic

  const TWO_255: nat := TWO_256 / 2

  function Add(a: nat, b: nat): (r: nat)
    ensures r < TWO_256 && (a + b < TWO_256 ==> r == a + b)
  {
    (a + b) % TWO_256
  }

  function Sub(a: nat, b: nat): (r: nat)
    ensures r < TWO_256 && (b <= a < TWO_256 ==> r == a - b)
  {
    (a - b) % TWO_256
  }

  function Mul(a: nat, b: nat): (r: nat)
    ensures r < TWO_256 && (a * b < TWO_256 ==> r == a * b)
  {
    DivModUnique(a * b, a * b / TWO_256, a * b % TWO_256, TWO_256);
    (a * b) % TWO_256
  }

  function Signed(a: nat): int {
    if a < TWO_255 then a else a - TWO_256
  }

  /** Signed comparison. */
  predicate Slt(a: nat, b: nat) {
    Signed(a) < Signed(b)
  }

  /** `n` bytes from `offset` on, reading zeros beyond the end. */
  function Slice(data: seq<Byte>, offset: nat, n: nat): (s: seq<Byte>)
    ensures |s| == n
    ensures offset + n <= |data| ==> s == data[offset..offset + n]
  {
    seq(n, k requires 0 <= k < n => if offset + k < |data| then data[offset + k] else 0)
  }

  function Load(data: seq<Byte>, offset: nat): (w: nat)
    ensures w < TWO_256
  {
    WordCapacity();
    FromBigEndianBound(Slice(data, offset, 32));
    FromBigEndian(Slice(data, offset, 32))
  }

  // ---------------------------------------------------------------- the generated decoders

  /** `abiDecodingFunction`: None where the generated code reverts. */
  function Decode(t: Type, data: seq<Byte>, offset: nat, end: nat): Option<Value>
    decreases t, 0
  {
    match t
    case Word(kind) =>
      var w := Load(data, offset);
      if InRange(kind, w) then Some(WordValue(w)) else None
    case ByteArray =>
      if !Slt(Add(offset, 0x1f), end) then None
      else DecodeBytes(data, Add(offset, 0x20), Load(data, offset), end)
    case StaticArray(base, length) =>
      if !Slt(Add(offset, 0x1f), end) then None
      else DecodeAvailable(base, data, offset, length, end)
    case DynamicArray(base) =>
      if !Slt(Add(offset, 0x1f), end) then None
      else DecodeAvailable(base, data, Add(offset, 0x20), Load(data, offset), end)
    case Struct(members) =>
      match DecodeTuple(members, data, offset, end)
      case None => None
      case Some(vs) => Some(Elements(vs))
  }

  /** `abiDecodingFunctionByteArrayAvailableLength`; the first check is the one
      of the allocation size. */
  function DecodeBytes(data: seq<Byte>, src: nat, length: nat, end: nat): Option<Value> {
    if length >= TWO_64 then None
    else if Add(src, length) > end then None
    else Some(BytesValue(Slice(data, src, length)))
  }

  /** `abiDecodingFunctionArrayAvailableLength`. */
  function DecodeAvailable(base: Type, data: seq<Byte>, offset: nat, length: nat, end: nat): Option<Value>
    decreases base, length, 2
  {
    if length >= TWO_64 then None
    else if !IsDynamic(base) && Add(offset, Mul(length, HeadSize(base))) > end then None
    else
      match DecodeElements(base, data, offset, length, end)
      case None => None
      case Some(vs) => Some(Elements(vs))
  }

  /** The position of the source pointer in iteration `k`. */
  function Source(base: Type, offset: nat, k: nat): nat {
    if k == 0 then offset else Add(Source(base, offset, k - 1), HeadSize(base))
  }

  /** The values of the first `k` iterations of the element loop. */
  function DecodeElements(base: Type, data: seq<Byte>, offset: nat, k: nat, end: nat): Option<seq<Value>>
    decreases base, k, 1
  {
    if k == 0 then Some([])
    else
      match DecodeElements(base, data, offset, k - 1, end)
      case None => None
      case Some(vs) =>
        var src := Source(base, offset, k - 1);
        match Decode(base, data, if IsDynamic(base) then Add(offset, Load(data, src)) else src, end)
        case None => None
        case Some(v) => Some(vs + [v])
  }

  /** `tupleDecoder` and `abiDecodingFunctionStruct`. */
  function DecodeTuple(ts: seq<Type>, data: seq<Byte>, headStart: nat, end: nat): Option<seq<Value>>
    decreases ts, |ts| + 1
  {
    if Slt(Sub(end, headStart), HeadSizes(ts, |ts|)) then None
    else DecodeMembers(ts, data, headStart, end, |ts|)
  }

  function DecodeMembers(ts: seq<Type>, data: seq<Byte>, headStart: nat, end: nat, n: nat): Option<seq<Value>>
    requires n <= |ts|
    decreases ts, n
  {
    if n == 0 then Some([])
    else
      match DecodeMembers(ts, data, headStart, end, n - 1)
      case None => None
      case Some(vs) =>
        var t, pos := ts[n - 1], HeadSizes(ts, n - 1);
        var offset := if IsDynamic(t) then Load(data, Add(headStart, pos)) else pos;
        if IsDynamic(t) && offset >= TWO_64 then None
        else
          match Decode(t, data, Add(headStart, offset), end)
          case None => None
          case Some(v) => Some(vs + [v])
  }

  /** The element loop itself, with its moving source pointer. */
  method DecodeElementLoop(base: Type, data: seq<Byte>, offset: nat, length: nat, end: nat)
    returns (r: Option<seq<Value>>)
    ensures r == DecodeElements(base, data, offset, length, end)
  {
    hide Decode, IsDynamic, HeadSize, Load;
    var decoded: seq<Value> := [];
    var src, i := offset, 0;
    while i < length
      invariant 0 <= i <= length && src == Source(base, offset, i)
      invariant DecodeElements(base, data, offset, i, end) == Some(decoded)
    {
      var elementPos := if IsDynamic(base) then Add(offset, Load(data, src)) else src;
      var v := Decode(base, data, elementPos, end);
      if v == None {
        StaysNone(base, data, offset, i + 1, length, end);
        return None;
      }
      decoded := decoded + [v.value];
      src := Add(src, HeadSize(base));
      i := i + 1;
    }
    return Some(decoded);
  }

  lemma {:induction false} StaysNone(base: Type, data: seq<Byte>, offset: nat, i: nat, n: nat, end: nat)
    requires i <= n && DecodeElements(base, data, offset, i, end) == None
    ensures DecodeElements(base, data, offset, n, end) == None
    decreases n
  {
    hide Decode;
    if i < n {
      StaysNone(base, data, offset, i, n - 1, end);
    }
  }

  // ---------------------------------------------------------------- decoding is safe

  /** Whatever the input, a value that comes out has the type asked for. */
  lemma {:induction false} DecodedIsTyped(t: Type, data: seq<Byte>, offset: nat, end: nat)
    ensures var r := Decode(t, data, offset, end); r.Some? ==> HasType(t, r.value)
    decreases t, 0
  {
    match t
    case Word(_) =>
    case ByteArray =>
    case StaticArray(base, length) => ElementsTyped(base, data, offset, length, end);
    case DynamicArray(base) =>
      var length := Load(data, offset);
      ElementsTyped(base, data, Add(offset, 0x20), length, end);
    case Struct(members) => MembersTyped(members, data, offset, end, |members|);
  }

  lemma {:induction false} ElementsTyped(base: Type, data: seq<Byte>, offset: nat, k: nat, end: nat)
    ensures var r := DecodeElements(base, data, offset, k, end);
            r.Some? ==> |r.value| == k && forall i :: 0 <= i < k ==> HasType(base, r.value[i])
    decreases base, k, 1
  {
    hide HasType, Load, HeadSize;
    if k > 0 {
      ElementsTyped(base, data, offset, k - 1, end);
      var src := Source(base, offset, k - 1);
      DecodedIsTyped(base, data, if IsDynamic(base) then Add(offset, Load(data, src)) else src, end);
      hide Decode;
    }
  }

  lemma {:induction false} MembersTyped(ts: seq<Type>, data: seq<Byte>, headStart: nat, end: nat, n: nat)
    requires n <= |ts|
    ensures var r := DecodeMembers(ts, data, headStart, end, n);
            r.Some? ==> |r.value| == n && forall i :: 0 <= i < n ==> HasType(ts[i], r.value[i])
    decreases ts, n
  {
    hide HasType, Load, HeadSizes;
    if n > 0 {
      MembersTyped(ts, data, headStart, end, n - 1);
      var t, pos := ts[n - 1], HeadSizes(ts, n - 1);
      var offset := if IsDynamic(t) then Load(data, Add(headStart, pos)) else pos;
      DecodedIsTyped(t, data, Add(headStart, offset), end);
      hide Decode;
    }
  }

  // ---------------------------------------------------------------- decoding undoes encoding

  /** `bs` is found in `data` at `offset`. */
  predicate Holds(data: seq<Byte>, offset: nat, bs: seq<Byte>) {
    offset + |bs| <= |data| && data[offset..offset + |bs|] == bs
  }

  lemma HoldsPart(data: seq<Byte>, offset: nat, bs: seq<Byte>, i: nat, part: seq<Byte>)
    requires Holds(data, offset, bs) && Holds(bs, i, part)
    ensures Holds(data, offset + i, part)
  {
    forall k | 0 <= k < |part| ensures data[offset + i + k] == part[k] {
      assert part[k] == bs[i..i + |part|][k] == bs[i + k] == data[offset..offset + |bs|][i + k];
    }
  }

  lemma HoldsConcat(a: seq<Byte>, b: seq<Byte>)
    ensures Holds(a + b, 0, a) && Holds(a + b, |a|, b)
  {
  }

  lemma HoldsJoin(d: seq<Byte>, q: nat, a: seq<Byte>, b: seq<Byte>)
    requires Holds(d, q, a) && Holds(d, q + |a|, b)
    ensures Holds(d, q, a + b)
  {
    assert d[q..q + |a + b|] == d[q..q + |a|] + d[q + |a|..q + |a| + |b|];
  }

  lemma PrefixHolds(a: seq<Byte>, b: seq<Byte>)
    requires b <= a
    ensures Holds(a, 0, b)
  {
  }

  lemma LoadWord(data: seq<Byte>, offset: nat, w: nat)
    requires w < TWO_256 && Holds(data, offset, ToBigEndian(w, 32))
    ensures Load(data, offset) == w
  {
    WordCapacity();
    FromToBigEndianFits(w, 32);
  }

  lemma NextHead(ts: seq<Type>, vs: seq<Value>, i: nat)
    requires HaveTypes(ts, vs) && i < |ts|
    ensures var part := if IsDynamic(ts[i]) then ToBigEndian(TailStart(ts, vs, i), 32) else Encoding(ts[i], vs[i]);
            Heads(ts, vs, i + 1) == Heads(ts, vs, i) + part
  {
    hide HasType, Encoding, TailStart, IsDynamic, ToBigEndian;
  }

  /** Where the parts of a tuple's element are found in its encoding. */
  lemma {:induction false} ElementInHeads(ts: seq<Type>, vs: seq<Value>, i: nat)
    requires HaveTypes(ts, vs) && i < |ts|
    ensures var part := if IsDynamic(ts[i]) then ToBigEndian(TailStart(ts, vs, i), 32) else Encoding(ts[i], vs[i]);
            Holds(TupleEncoding(ts, vs), HeadSizes(ts, i), part)
  {
    hide HasType, Encoding, TailStart, Holds, IsDynamic, ToBigEndian, Heads, Tails, HeadSizes;
    var part := if IsDynamic(ts[i]) then ToBigEndian(TailStart(ts, vs, i), 32) else Encoding(ts[i], vs[i]);
    HeadsSize(ts, vs, i);
    NextHead(ts, vs, i);
    HoldsConcat(Heads(ts, vs, i), part);
    HeadsGrow(ts, vs, i + 1, |ts|);
    PrefixHolds(Heads(ts, vs, |ts|), Heads(ts, vs, i + 1));
    HoldsPart(Heads(ts, vs, |ts|), 0, Heads(ts, vs, i + 1), HeadSizes(ts, i), part);
    HoldsConcat(Heads(ts, vs, |ts|), Tails(ts, vs, |ts|));
    HoldsPart(TupleEncoding(ts, vs), 0, Heads(ts, vs, |ts|), HeadSizes(ts, i), part);
  }

  lemma {:induction false} ElementInTails(ts: seq<Type>, vs: seq<Value>, i: nat)
    requires HaveTypes(ts, vs) && i < |ts| && IsDynamic(ts[i])
    ensures Holds(TupleEncoding(ts, vs), TailStart(ts, vs, i), Encoding(ts[i], vs[i]))
  {
    hide HasType, Encoding, Heads, Holds, IsDynamic;
    HeadsSize(ts, vs, |ts|);
    HoldsConcat(Tails(ts, vs, i), Encoding(ts[i], vs[i]));
    TailsGrow(ts, vs, i + 1, |ts|);
    PrefixHolds(Tails(ts, vs, |ts|), Tails(ts, vs, i + 1));
    HoldsPart(Tails(ts, vs, |ts|), 0, Tails(ts, vs, i + 1), |Tails(ts, vs, i)|, Encoding(ts[i], vs[i]));
    HoldsConcat(Heads(ts, vs, |ts|), Tails(ts, vs, |ts|));
    HoldsPart(TupleEncoding(ts, vs), HeadSizes(ts, |ts|), Tails(ts, vs, |ts|), |Tails(ts, vs, i)|,
        Encoding(ts[i], vs[i]));
  }

  predicate AllWellFormed(ts: seq<Type>) {
    forall i :: 0 <= i < |ts| ==> WellFormed(ts[i])
  }

  /** `encoded` lies at `offset`, before `end`, and no address wraps. */
  predicate Readable(data: seq<Byte>, offset: nat, end: nat, encoded: seq<Byte>) {
    Holds(data, offset, encoded) && offset + |encoded| <= end < TWO_255 && |encoded| < TWO_64
  }

  lemma ReadablePart(data: seq<Byte>, offset: nat, end: nat, bs: seq<Byte>, i: nat, part: seq<Byte>)
    requires Readable(data, offset, end, bs) && Holds(bs, i, part)
    ensures Readable(data, offset + i, end, part)
  {
    HoldsPart(data, offset, bs, i, part);
  }

  lemma PositionsInside(ts: seq<Type>, vs: seq<Value>, i: nat)
    requires HaveTypes(ts, vs) && i <= |ts|
    ensures HeadSizes(ts, i) <= |TupleEncoding(ts, vs)| && TailStart(ts, vs, i) <= |TupleEncoding(ts, vs)|
  {
    hide HasType, TupleEncoding, Tails;
    TupleSize(ts, vs);
    TailsGrow(ts, vs, i, |ts|);
    HeadsGrow(ts, vs, i, |ts|);
  }

  /** The head word of a dynamically encoded element. */
  lemma HeadWordReads(ts: seq<Type>, vs: seq<Value>, i: nat, data: seq<Byte>, start: nat, end: nat)
    requires HaveTypes(ts, vs) && i < |ts| && IsDynamic(ts[i])
    requires Readable(data, start, end, TupleEncoding(ts, vs))
    ensures Load(data, start + HeadSizes(ts, i)) == TailStart(ts, vs, i)
  {
    hide HasType, Encoding, TailStart, TupleEncoding, Load, Holds, IsDynamic, HeadSizes;
    PositionsInside(ts, vs, i);
    ElementInHeads(ts, vs, i);
    HoldsPart(data, start, TupleEncoding(ts, vs), HeadSizes(ts, i), ToBigEndian(TailStart(ts, vs, i), 32));
    LoadWord(data, start + HeadSizes(ts, i), TailStart(ts, vs, i));
  }

  /** Where the encoding of element `i` starts. */
  function ElementStart(ts: seq<Type>, vs: seq<Value>, i: nat): nat
    requires HaveTypes(ts, vs) && i < |ts|
  {
    if IsDynamic(ts[i]) then TailStart(ts, vs, i) else HeadSizes(ts, i)
  }

  lemma ElementIsReadable(ts: seq<Type>, vs: seq<Value>, i: nat, data: seq<Byte>, start: nat, end: nat)
    requires HaveTypes(ts, vs) && i < |ts| && Readable(data, start, end, TupleEncoding(ts, vs))
    ensures Readable(data, start + ElementStart(ts, vs, i), end, Encoding(ts[i], vs[i]))
  {
    hide HasType, Encoding, TailStart, TupleEncoding, Holds, IsDynamic, HeadSizes, Readable;
    if IsDynamic(ts[i]) {
      ElementInTails(ts, vs, i);
    } else {
      ElementInHeads(ts, vs, i);
    }
    ReadablePart(data, start, end, TupleEncoding(ts, vs), ElementStart(ts, vs, i), Encoding(ts[i], vs[i]));
  }

  /** Decoding an element of an encoded tuple where the decoders look for it. */
  lemma {:induction false} ElementDecodes(ts: seq<Type>, vs: seq<Value>, i: nat, data: seq<Byte>, start: nat, end: nat)
    requires HaveTypes(ts, vs) && AllWellFormed(ts) && i < |ts|
    requires Readable(data, start, end, TupleEncoding(ts, vs))
    ensures start + HeadSizes(ts, i) < TWO_255
    ensures IsDynamic(ts[i]) ==> Load(data, start + HeadSizes(ts, i)) == TailStart(ts, vs, i)
    ensures TailStart(ts, vs, i) < TWO_64
    ensures Decode(ts[i], data, start + ElementStart(ts, vs, i), end) == Some(vs[i])
    decreases vs, 0
  {
    hide HasType, Encoding, TailStart, TupleEncoding, Decode, Load, Holds, IsDynamic, HeadSizes, Readable, WellFormed,
        ElementStart;
    PositionsInside(ts, vs, i);
    ReadableFacts(data, start, end, TupleEncoding(ts, vs));
    if IsDynamic(ts[i]) {
      HeadWordReads(ts, vs, i, data, start, end);
    }
    ElementIsReadable(ts, vs, i, data, start, end);
    DecodeUndoesEncoding(ts[i], vs[i], data, start + ElementStart(ts, vs, i), end);
  }

  lemma {:induction false} MembersDecode(ts: seq<Type>, vs: seq<Value>, n: nat, data: seq<Byte>, start: nat, end: nat)
    requires HaveTypes(ts, vs) && AllWellFormed(ts) && n <= |ts|
    requires Readable(data, start, end, TupleEncoding(ts, vs))
    ensures DecodeMembers(ts, data, start, end, n) == Some(vs[..n])
    decreases vs, 1, n
  {
    hide HasType, Decode, Load, TailStart, HeadSizes, TupleEncoding, Holds;
    if n > 0 {
      MembersDecode(ts, vs, n - 1, data, start, end);
      ElementDecodes(ts, vs, n - 1, data, start, end);
      assert vs[..n] == vs[..n - 1] + [vs[n - 1]];
    }
  }

  /** The generated tuple decoder returns the values a tuple encoding was made
      of: it never reverts on one. */
  lemma {:induction false} TupleDecodeUndoesEncoding(ts: seq<Type>, vs: seq<Value>, data: seq<Byte>, start: nat,
      end: nat)
    requires HaveTypes(ts, vs) && AllWellFormed(ts)
    requires Readable(data, start, end, TupleEncoding(ts, vs))
    ensures DecodeTuple(ts, data, start, end) == Some(vs)
    decreases vs, 2
  {
    hide HasType, TupleEncoding, Holds, HeadSizes, DecodeMembers;
    TupleSize(ts, vs);
    MembersDecode(ts, vs, |ts|, data, start, end);
    assert vs[..|ts|] == vs;
  }

  lemma {:induction false} SourceStays(t: Type, start: nat, n: nat, k: nat)
    requires k <= n && start + HeadSizes(Repeat(t, n), k) < TWO_256
    ensures Source(t, start, k) == start + HeadSizes(Repeat(t, n), k)
  {
    hide HeadSize;
    if k > 0 {
      SourceStays(t, start, n, k - 1);
    }
  }

  lemma {:induction false} ElementsDecode(t: Type, vs: seq<Value>, k: nat, data: seq<Byte>, start: nat, end: nat)
    requires HaveTypes(Repeat(t, |vs|), vs) && WellFormed(t) && k <= |vs|
    requires Readable(data, start, end, TupleEncoding(Repeat(t, |vs|), vs))
    ensures DecodeElements(t, data, start, k, end) == Some(vs[..k])
    decreases vs, 1, k
  {
    hide HasType, Decode, Load, TailStart, HeadSize, HeadSizes, Source, TupleEncoding, Holds, WellFormed;
    if k > 0 {
      var ts := Repeat(t, |vs|);
      ElementsDecode(t, vs, k - 1, data, start, end);
      ElementDecodes(ts, vs, k - 1, data, start, end);
      SourceStays(t, start, |vs|, k - 1);
      assert vs[..k] == vs[..k - 1] + [vs[k - 1]];
    }
  }

  lemma {:induction false} AvailableDecodes(t: Type, vs: seq<Value>, data: seq<Byte>, start: nat, end: nat)
    requires HaveTypes(Repeat(t, |vs|), vs) && WellFormed(t)
    requires Readable(data, start, end, TupleEncoding(Repeat(t, |vs|), vs))
    ensures DecodeAvailable(t, data, start, |vs|, end) == Some(Elements(vs))
    decreases vs, 2
  {
    hide HasType, TupleEncoding, Holds, HeadSizes, Decode, DecodeElements;
    var ts := Repeat(t, |vs|);
    ElementsDecode(t, vs, |vs|, data, start, end);
    assert vs[..|vs|] == vs;
    LengthFits(t, vs);
    PositionsInside(ts, vs, |vs|);
  }

  /** The decoder generated for a type undoes its encoding. */
  lemma {:induction false} DecodeUndoesEncoding(t: Type, v: Value, data: seq<Byte>, offset: nat, end: nat)
    requires HasType(t, v) && WellFormed(t)
    requires Readable(data, offset, end, Encoding(t, v))
    ensures Decode(t, data, offset, end) == Some(v)
    decreases v
  {
    match t
    case Word(_) =>
      LoadWord(data, offset, v.word);
    case ByteArray =>
      BytesDecode(v, data, offset, end);
    case StaticArray(base, length) =>
      var ts := Repeat(base, length);
      assert Encoding(t, v) == TupleEncoding(ts, v.elems);
      AvailableDecodes(base, v.elems, data, offset, end);
      TupleSize(ts, v.elems);
      RepeatedHeads(base, length, length);
      SizesMultipleOf32(base);
      MulMonotone(1, length, HeadSize(base));
    case DynamicArray(base) =>
      ArrayDecodes(base, v, data, offset, end);
    case Struct(members) =>
      assert Encoding(t, v) == TupleEncoding(members, v.elems);
      TupleDecodeUndoesEncoding(members, v.elems, data, offset, end);
  }

  lemma BytesDecode(v: Value, data: seq<Byte>, offset: nat, end: nat)
    requires HasType(ByteArray, v)
    requires Readable(data, offset, end, Encoding(ByteArray, v))
    ensures Decode(ByteArray, data, offset, end) == Some(v)
  {
    hide Holds, Load, Readable;
    var word := ToBigEndian(|v.bytes|, 32);
    var padding := Zeros(RoundUp(|v.bytes|) - |v.bytes|);
    var all := Encoding(ByteArray, v);
    assert all == word + (v.bytes + padding);
    HoldsConcat(word, v.bytes + padding);
    HoldsConcat(v.bytes, padding);
    HoldsPart(all, 32, v.bytes + padding, 0, v.bytes);
    ReadablePart(data, offset, end, all, 0, word);
    ReadablePart(data, offset, end, all, 32, v.bytes);
    ReadableFacts(data, offset, end, all);
    ReadableFacts(data, offset, end, word);
    ReadableFacts(data, offset + 32, end, v.bytes);
    LoadWord(data, offset, |v.bytes|);
  }

  lemma ReadableFacts(data: seq<Byte>, offset: nat, end: nat, bs: seq<Byte>)
    requires Readable(data, offset, end, bs)
    ensures offset + |bs| <= end < TWO_255 && |bs| < TWO_64
    ensures Holds(data, offset, bs) && Slice(data, offset, |bs|) == bs
  {
  }

  lemma {:induction false} ArrayDecodes(base: Type, v: Value, data: seq<Byte>, offset: nat, end: nat)
    requires HasType(DynamicArray(base), v) && WellFormed(base)
    requires Readable(data, offset, end, Encoding(DynamicArray(base), v))
    ensures Decode(DynamicArray(base), data, offset, end) == Some(v)
    decreases v.elems, 3
  {
    hide Holds, Load, Readable, TupleEncoding;
    var word, elements := ToBigEndian(|v.elems|, 32), TupleEncoding(Repeat(base, |v.elems|), v.elems);
    var all := Encoding(DynamicArray(base), v);
    ArrayEncoding(base, v);
    HoldsConcat(word, elements);
    ReadablePart(data, offset, end, all, 0, word);
    ReadablePart(data, offset, end, all, 32, elements);
    ReadableFacts(data, offset, end, word);
    ReadableFacts(data, offset, end, all);
    ArrayLengthFits(base, v, data, offset + 32, end);
    LoadWord(data, offset, |v.elems|);
    AvailableDecodes(base, v.elems, data, offset + 32, end);
  }

  lemma ArrayEncoding(base: Type, v: Value)
    requires HasType(DynamicArray(base), v)
    ensures HaveTypes(Repeat(base, |v.elems|), v.elems)
    ensures Encoding(DynamicArray(base), v) ==
      ToBigEndian(|v.elems|, 32) + TupleEncoding(Repeat(base, |v.elems|), v.elems)
  {
  }

  lemma LengthFits(base: Type, vs: seq<Value>)
    requires HaveTypes(Repeat(base, |vs|), vs) && WellFormed(base)
    ensures |vs| * 32 <= |vs| * HeadSize(base) ==
      HeadSizes(Repeat(base, |vs|), |vs|) <= |TupleEncoding(Repeat(base, |vs|), vs)|
  {
    hide HasType, TupleEncoding, HeadSizes, WellFormed, Tails;
    TupleSize(Repeat(base, |vs|), vs);
    RepeatedHeads(base, |vs|, |vs|);
    SizesMultipleOf32(base);
    MulMonotone(32, HeadSize(base), |vs|);
  }

  lemma ArrayLengthFits(base: Type, v: Value, data: seq<Byte>, start: nat, end: nat)
    requires HasType(DynamicArray(base), v) && WellFormed(base)
    requires HaveTypes(Repeat(base, |v.elems|), v.elems) &&
      Readable(data, start, end, TupleEncoding(Repeat(base, |v.elems|), v.elems))
    ensures |v.elems| < TWO_64
  {
    hide Encoding, TupleEncoding, Holds, WellFormed, HeadSizes, HeadSize;
    LengthFits(base, v.elems);
  }

  // ---------------------------------------------------------------- data laid out in another way

  /** Member `i` of the tuple is encoded where its head says, wherever that is. */
  predicate Placed(ts: seq<Type>, vs: seq<Value>, i: nat, data: seq<Byte>, start: nat, end: nat)
    requires HaveTypes(ts, vs) && i < |ts|
  {
    var at := if IsDynamic(ts[i]) then Load(data, start + HeadSizes(ts, i)) else HeadSizes(ts, i);
    at < TWO_64 && Readable(data, start + at, end, Encoding(ts[i], vs[i]))
  }

  lemma {:induction false} PlacedMembersDecode(ts: seq<Type>, vs: seq<Value>, n: nat, data: seq<Byte>, start: nat,
      end: nat)
    requires HaveTypes(ts, vs) && AllWellFormed(ts) && n <= |ts|
    requires start + HeadSizes(ts, |ts|) <= end < TWO_255
    requires forall i :: 0 <= i < n ==> Placed(ts, vs, i, data, start, end)
    ensures DecodeMembers(ts, data, start, end, n) == Some(vs[..n])
  {
    hide HasType, Encoding, Decode, Load, Readable, IsDynamic, WellFormed, HeadSizes;
    if n > 0 {
      PlacedMembersDecode(ts, vs, n - 1, data, start, end);
      HeadsIncrease(ts, n - 1, |ts|);
      PlacedIsReadable(ts, vs, n - 1, data, start, end);
      assert vs[..n] == vs[..n - 1] + [vs[n - 1]];
    }
  }

  lemma PlacedIsReadable(ts: seq<Type>, vs: seq<Value>, i: nat, data: seq<Byte>, start: nat, end: nat)
    requires HaveTypes(ts, vs) && AllWellFormed(ts) && i < |ts| && Placed(ts, vs, i, data, start, end)
    ensures var at := if IsDynamic(ts[i]) then Load(data, start + HeadSizes(ts, i)) else HeadSizes(ts, i);
            at < TWO_64 && start + at < TWO_255 && Decode(ts[i], data, start + at, end) == Some(vs[i])
  {
    hide HasType, Encoding, Decode, Load, IsDynamic, WellFormed, HeadSizes, Holds;
    var at := if IsDynamic(ts[i]) then Load(data, start + HeadSizes(ts, i)) else HeadSizes(ts, i);
    DecodeUndoesEncoding(ts[i], vs[i], data, start + at, end);
  }

  lemma {:induction false} HeadsIncrease(ts: seq<Type>, i: nat, n: nat)
    requires i <= n <= |ts|
    ensures HeadSizes(ts, i) <= HeadSizes(ts, n)
    decreases n
  {
    hide HeadSize;
    if i < n {
      HeadsIncrease(ts, i, n - 1);
    }
  }

  /** The tuple decoder follows the offsets in the heads: tails may come in any order,
      overlap, or lie apart. */
  lemma PlacedDecodes(ts: seq<Type>, vs: seq<Value>, data: seq<Byte>, start: nat, end: nat)
    requires HaveTypes(ts, vs) && AllWellFormed(ts)
    requires start + HeadSizes(ts, |ts|) <= end < TWO_255
    requires forall i :: 0 <= i < |ts| ==> Placed(ts, vs, i, data, start, end)
    ensures DecodeTuple(ts, data, start, end) == Some(vs)
  {
    hide HasType, Placed, HeadSizes, DecodeMembers, WellFormed;
    PlacedMembersDecode(ts, vs, |ts|, data, start, end);
    assert vs[..|ts|] == vs;
  }
}
