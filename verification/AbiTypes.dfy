/**
 The types and values of the ABI and their encoding as defined in "Formal
 Specification of the Encoding" of the Solidity Contract ABI Specification.
 Modules AbiEncoder and AbiDecoder model the code that
 libsolidity/codegen/ABIFunctions.cpp generates.
 */
module AbiTypes {
  import opened Bytes

  function Pow2(n: nat): (p: nat)
    ensures p >= 1
  {
    if n == 0 then 1 else 2 * Pow2(n - 1)
  }

  /** Value types; addresses and contracts are UInt(168), token ids UInt(80),
      external functions FixedBytes(25). */
  datatype Kind = UInt(bits: nat) | SInt(bits: nat) | FixedBytes(length: nat) | Bool | Enum(members: nat)

  datatype Type =
    | Word(kind: Kind)
    | ByteArray
    | StaticArray(base: Type, length: nat)
    | DynamicArray(base: Type)
    | Struct(members: seq<Type>)

  datatype Value = WordValue(word: nat) | BytesValue(bytes: seq<Byte>) | Elements(elems: seq<Value>)

  /** The words a validator lets pass, which are those cleanup leaves alone. */
  predicate InRange(kind: Kind, w: nat) {
    w < TWO_256 &&
    match kind
    case UInt(bits) => w < Pow2(bits)
    case SInt(bits) => w < Pow2(bits) / 2 || w + Pow2(bits) / 2 >= TWO_256
    case FixedBytes(length) => length >= 32 || w % Pow256(32 - length) == 0
    case Bool => w <= 1
    case Enum(members) => w < members
  }

  /** Array lengths are at least 1 and structs are not empty. */
  predicate WellFormed(t: Type) {
    match t
    case StaticArray(base, length) => length >= 1 && WellFormed(base)
    case DynamicArray(base) => WellFormed(base)
    case Struct(members) => members != [] && forall i :: 0 <= i < |members| ==> WellFormed(members[i])
    case _ => true
  }

  predicate HasType(t: Type, v: Value)
    decreases v
  {
    match (t, v)
    case (Word(kind), WordValue(w)) => InRange(kind, w)
    case (ByteArray, BytesValue(_)) => true
    case (StaticArray(base, length), Elements(es)) =>
      |es| == length && forall i :: 0 <= i < |es| ==> HasType(base, es[i])
    case (DynamicArray(base), Elements(es)) => forall i :: 0 <= i < |es| ==> HasType(base, es[i])
    case (Struct(members), Elements(es)) =>
      |es| == |members| && forall i :: 0 <= i < |es| ==> HasType(members[i], es[i])
    case _ => false
  }

  predicate HaveTypes(ts: seq<Type>, vs: seq<Value>) {
    |ts| == |vs| && forall i :: 0 <= i < |ts| ==> HasType(ts[i], vs[i])
  }

  // ---------------------------------------------------------------- cleanup

  /** The word that `cleanupFunction` makes of `w`: higher-order bits are cleared or
      filled with the sign. Enums out of range make the generated code panic. */
  function Cleaned(kind: Kind, w: nat): int {
    match kind
    case UInt(bits) => w % Pow2(bits)
    case SInt(bits) =>
      if 2 * (w % Pow2(bits)) < Pow2(bits) then w % Pow2(bits) else w % Pow2(bits) + (TWO_256 - Pow2(bits))
    case FixedBytes(length) => if length >= 32 then w else w - w % Pow256(32 - length)
    case Bool => if w == 0 then 0 else 1
    case Enum(_) => w
  }

  predicate Cleanable(kind: Kind, w: nat) {
    w < TWO_256 &&
    match kind
    case SInt(bits) => bits >= 1
    case Enum(members) => w < members
    case _ => true
  }

  /** `v` is what the cleanup of the words in `raw` gives. */
  predicate CleansTo(t: Type, raw: Value, v: Value)
    decreases v
  {
    match t
    case Word(kind) => raw.WordValue? && v.WordValue? && Cleanable(kind, raw.word) && v.word == Cleaned(kind, raw.word)
    case ByteArray => raw.BytesValue? && v == raw
    case StaticArray(base, length) =>
      raw.Elements? && v.Elements? && |raw.elems| == |v.elems| == length &&
      forall i :: 0 <= i < |v.elems| ==> CleansTo(base, raw.elems[i], v.elems[i])
    case DynamicArray(base) =>
      raw.Elements? && v.Elements? && |raw.elems| == |v.elems| &&
      forall i :: 0 <= i < |v.elems| ==> CleansTo(base, raw.elems[i], v.elems[i])
    case Struct(members) =>
      raw.Elements? && v.Elements? && |raw.elems| == |v.elems| == |members| &&
      forall i :: 0 <= i < |v.elems| ==> CleansTo(members[i], raw.elems[i], v.elems[i])
  }

  predicate CleanAll(ts: seq<Type>, raw: seq<Value>, vs: seq<Value>) {
    |ts| == |raw| == |vs| && forall i :: 0 <= i < |ts| ==> CleansTo(ts[i], raw[i], vs[i])
  }

  lemma FourBits(m: nat)
    ensures Pow2(m + 4) == 16 * Pow2(m)
  {
    assert Pow2(m + 4) == 2 * Pow2(m + 3) == 4 * Pow2(m + 2) == 8 * Pow2(m + 1);
  }

  lemma {:induction false} Pow2Pow256(n: nat)
    ensures Pow2(8 * n) == Pow256(n)
  {
    if n > 0 {
      Pow2Pow256(n - 1);
      FourBits(8 * n - 8);
      FourBits(8 * n - 4);
      hide Pow2;
    }
  }

  lemma {:induction false} Pow2Add(m: nat, n: nat)
    ensures Pow2(m + n) == Pow2(m) * Pow2(n)
  {
    if m > 0 {
      Pow2Add(m - 1, n);
      assert 2 * (Pow2(m - 1) * Pow2(n)) == (2 * Pow2(m - 1)) * Pow2(n);
    }
  }

  /** A power of two divides the number of words. */
  lemma Pow2Divides(bits: nat)
    requires 1 <= bits <= 256
    ensures Pow2(bits) * Pow2(256 - bits) == TWO_256 && Pow2(bits) % 2 == 0 && Pow2(bits) <= TWO_256
  {
    hide Pow2, Pow256;
    WordCapacity();
    Pow2Pow256(32);
    Pow2Add(bits, 256 - bits);
    Pow2Even(bits);
    MulMonotone(1, Pow2(256 - bits), Pow2(bits));
  }

  lemma Pow2Even(bits: nat)
    requires bits >= 1
    ensures Pow2(bits) % 2 == 0
  {
  }

  lemma Pow2Large(bits: nat)
    requires bits > 256
    ensures Pow2(bits) >= 2 * TWO_256
  {
    hide Pow2, Pow256;
    Pow2Divides(256);
    Pow2Add(256, bits - 256);
    Pow2Even(bits - 256);
    NoBits();
    MulMonotone(2, Pow2(bits - 256), Pow2(256));
  }

  lemma NoBits()
    ensures Pow2(0) == 1
  {
  }

  lemma RemainderBelow(w: nat, p: nat)
    requires p > 0
    ensures 0 <= w % p < p && w % p <= w
  {
    assert w == p * (w / p) + w % p;
  }

  lemma MultipleLeft(w: nat, p: nat)
    requires p > 0
    ensures (w - w % p) % p == 0
  {
    DivModUnique(w - w % p, w / p, 0, p);
  }

  /** Cleanup gives a word in range ... */
  lemma CleanedInRange(kind: Kind, w: nat)
    requires Cleanable(kind, w)
    ensures Cleaned(kind, w) >= 0 && InRange(kind, Cleaned(kind, w))
  {
    hide Pow2, Pow256;
    match kind
    case UInt(bits) => RemainderBelow(w, Pow2(bits));
    case SInt(bits) =>
      if bits <= 256 {
        Pow2Divides(bits);
        RemainderBelow(w, Pow2(bits));
      } else {
        Pow2Large(bits);
        DivModUnique(w, 0, w, Pow2(bits));
      }
    case FixedBytes(length) =>
      if length < 32 {
        Pow256Monotone(0, 32 - length);
        PowerOfZero();
        RemainderBelow(w, Pow256(32 - length));
        MultipleLeft(w, Pow256(32 - length));
      }
    case _ =>
  }

  lemma PowerOfZero()
    ensures Pow256(0) == 1
  {
  }

  lemma MultipleDivides(q: int, p: nat, v: int)
    requires p > 0 && v == q * p
    ensures v % p == 0
  {
    DivModUnique(v, q, 0, p);
  }

  lemma SignKeeps(w: nat, p: nat, q: nat)
    requires p > 0 && p * q == TWO_256
    ensures (w - w % p) % p == 0 && (w - (w % p + (TWO_256 - p))) % p == 0
  {
    assert w - w % p == w / p * p;
    assert (w / p + 1 - q) * p == w / p * p + p - q * p;
    MultipleDivides(w / p, p, w - w % p);
    MultipleDivides(w / p + 1 - q, p, w - (w % p + (TWO_256 - p)));
  }

  /** The cleaned word agrees with the word in the bits that the type has. */
  predicate KeepsBits(kind: Kind, w: nat) {
    match kind
    case UInt(bits) => (w - Cleaned(kind, w)) % Pow2(bits) == 0
    case SInt(bits) => (w - Cleaned(kind, w)) % Pow2(bits) == 0
    case FixedBytes(length) => length < 32 ==> Cleaned(kind, w) / Pow256(32 - length) == w / Pow256(32 - length)
    case Bool => Cleaned(kind, w) == 0 <==> w == 0
    case Enum(_) => Cleaned(kind, w) == w
  }

  lemma UnsignedKeeps(bits: nat, w: nat)
    ensures KeepsBits(UInt(bits), w)
  {
    hide Pow2;
    assert w - w % Pow2(bits) == w / Pow2(bits) * Pow2(bits);
    MultipleDivides(w / Pow2(bits), Pow2(bits), w - w % Pow2(bits));
  }

  lemma SignedKeeps(bits: nat, w: nat)
    requires 1 <= bits && w < TWO_256
    ensures KeepsBits(SInt(bits), w)
  {
    hide Pow2;
    if bits <= 256 {
      Pow2Divides(bits);
      SignKeeps(w, Pow2(bits), Pow2(256 - bits));
    } else {
      Pow2Large(bits);
      DivModUnique(w, 0, w, Pow2(bits));
    }
  }

  lemma BytesKeep(length: nat, w: nat)
    requires length < 32
    ensures KeepsBits(FixedBytes(length), w)
  {
    hide Pow256;
    var p := Pow256(32 - length);
    assert w - w % p == w / p * p;
    DivModUnique(w - w % p, w / p, 0, p);
  }

  lemma CleanedKeeps(kind: Kind, w: nat)
    requires Cleanable(kind, w)
    ensures KeepsBits(kind, w)
  {
    match kind
    case UInt(bits) =>
      hide KeepsBits;
      UnsignedKeeps(bits, w);
    case SInt(bits) =>
      hide KeepsBits;
      SignedKeeps(bits, w);
    case FixedBytes(length) =>
      if length < 32 {
        hide KeepsBits;
        BytesKeep(length, w);
      }
    case _ =>
  }

  /** ... and leaves words in range alone. */
  lemma CleanedSame(kind: Kind, w: nat)
    requires Cleanable(kind, w) && InRange(kind, w)
    ensures Cleaned(kind, w) == w
  {
    hide Pow2, Pow256;
    match kind
    case UInt(bits) => DivModUnique(w, 0, w, Pow2(bits));
    case SInt(bits) =>
      var p := Pow2(bits);
      if w < p / 2 {
        DivModUnique(w, 0, w, p);
      } else if bits > 256 {
        Pow2Large(bits);
        DivModUnique(w, 0, w, p);
      } else {
        Pow2Divides(bits);
        var q := Pow2(256 - bits);
        assert (q - 1) * p == TWO_256 - p;
        DivModUnique(w, q - 1, w - (TWO_256 - p), p);
      }
    case _ =>
  }

  /** Cleaned values are typed. */
  lemma {:induction false} CleanIsTyped(t: Type, raw: Value, v: Value)
    requires CleansTo(t, raw, v)
    ensures HasType(t, v)
    decreases v
  {
    match t
    case Word(kind) => CleanedInRange(kind, raw.word);
    case ByteArray =>
    case StaticArray(base, length) =>
      forall i | 0 <= i < |v.elems| ensures HasType(base, v.elems[i]) {
        CleanIsTyped(base, raw.elems[i], v.elems[i]);
      }
    case DynamicArray(base) =>
      forall i | 0 <= i < |v.elems| ensures HasType(base, v.elems[i]) {
        CleanIsTyped(base, raw.elems[i], v.elems[i]);
      }
    case Struct(members) =>
      forall i | 0 <= i < |v.elems| ensures HasType(members[i], v.elems[i]) {
        CleanIsTyped(members[i], raw.elems[i], v.elems[i]);
      }
  }

  /** Typed values are what their own cleanup gives. */
  lemma {:induction false} TypedIsClean(t: Type, v: Value)
    requires HasType(t, v)
    ensures CleansTo(t, v, v)
    decreases v
  {
    match t
    case Word(kind) =>
      if kind.SInt? && kind.bits == 0 {
        NoBits();
      }
      CleanedSame(kind, v.word);
    case ByteArray =>
    case StaticArray(base, length) =>
      forall i | 0 <= i < |v.elems| ensures CleansTo(base, v.elems[i], v.elems[i]) {
        TypedIsClean(base, v.elems[i]);
      }
    case DynamicArray(base) =>
      forall i | 0 <= i < |v.elems| ensures CleansTo(base, v.elems[i], v.elems[i]) {
        TypedIsClean(base, v.elems[i]);
      }
    case Struct(members) =>
      forall i | 0 <= i < |v.elems| ensures CleansTo(members[i], v.elems[i], v.elems[i]) {
        TypedIsClean(members[i], v.elems[i]);
      }
  }

  lemma CleanAreTyped(ts: seq<Type>, raw: seq<Value>, vs: seq<Value>)
    requires CleanAll(ts, raw, vs)
    ensures HaveTypes(ts, vs)
  {
    hide CleansTo, HasType;
    forall i | 0 <= i < |ts| ensures HasType(ts[i], vs[i]) {
      CleanIsTyped(ts[i], raw[i], vs[i]);
    }
  }

  /** A value of the shape of the type whose words can be cleaned: any, but for
      enums out of range. */
  predicate Shaped(t: Type, raw: Value)
    decreases raw
  {
    match t
    case Word(kind) => raw.WordValue? && Cleanable(kind, raw.word)
    case ByteArray => raw.BytesValue?
    case StaticArray(base, length) =>
      raw.Elements? && |raw.elems| == length && forall i :: 0 <= i < length ==> Shaped(base, raw.elems[i])
    case DynamicArray(base) => raw.Elements? && forall i :: 0 <= i < |raw.elems| ==> Shaped(base, raw.elems[i])
    case Struct(members) =>
      raw.Elements? && |raw.elems| == |members| && forall i :: 0 <= i < |members| ==> Shaped(members[i], raw.elems[i])
  }

  predicate AllShaped(ts: seq<Type>, raw: seq<Value>) {
    |ts| == |raw| && forall i :: 0 <= i < |ts| ==> Shaped(ts[i], raw[i])
  }

  /** The cleaned value. */
  function CleanValue(t: Type, raw: Value): (v: Value)
    requires Shaped(t, raw)
    ensures CleansTo(t, raw, v)
    decreases raw, 0
  {
    match t
    case Word(kind) =>
      CleanedInRange(kind, raw.word);
      WordValue(Cleaned(kind, raw.word))
    case ByteArray => raw
    case StaticArray(base, length) => Elements(CleanUpTo(Repeat(base, length), raw.elems, length))
    case DynamicArray(base) => Elements(CleanUpTo(Repeat(base, |raw.elems|), raw.elems, |raw.elems|))
    case Struct(members) => Elements(CleanUpTo(members, raw.elems, |members|))
  }

  function CleanUpTo(ts: seq<Type>, raw: seq<Value>, n: nat): (vs: seq<Value>)
    requires n <= |ts| == |raw| && forall i :: 0 <= i < n ==> Shaped(ts[i], raw[i])
    ensures |vs| == n && forall i :: 0 <= i < n ==> CleansTo(ts[i], raw[i], vs[i])
    decreases raw, n
  {
    if n == 0 then [] else CleanUpTo(ts, raw, n - 1) + [CleanValue(ts[n - 1], raw[n - 1])]
  }

  /** The cleaned values of a tuple, which are typed. */
  function CleanValues(ts: seq<Type>, raw: seq<Value>): (vs: seq<Value>)
    requires AllShaped(ts, raw)
    ensures CleanAll(ts, raw, vs) && HaveTypes(ts, vs)
  {
    var vs := CleanUpTo(ts, raw, |ts|);
    CleanAreTyped(ts, raw, vs);
    vs
  }

  lemma {:induction false} CleanIsUnique(t: Type, raw: Value, v: Value, u: Value)
    requires CleansTo(t, raw, v) && CleansTo(t, raw, u)
    ensures v == u
    decreases v
  {
    if v.Elements? {
      forall i | 0 <= i < |v.elems| ensures v.elems[i] == u.elems[i] {
        var part := if t.Struct? then t.members[i] else t.base;
        CleanIsUnique(part, raw.elems[i], v.elems[i], u.elems[i]);
      }
      assert v.elems == u.elems;
    }
  }

  lemma {:induction false} CleanHasShape(t: Type, raw: Value, v: Value)
    requires CleansTo(t, raw, v)
    ensures Shaped(t, raw)
    decreases v
  {
    if v.Elements? {
      forall i | 0 <= i < |v.elems| ensures Shaped(if t.Struct? then t.members[i] else t.base, raw.elems[i]) {
        CleanHasShape(if t.Struct? then t.members[i] else t.base, raw.elems[i], v.elems[i]);
      }
    }
  }

  /** Values in range can be cleaned and stay what they are. */
  lemma TypedStays(ts: seq<Type>, vs: seq<Value>)
    requires HaveTypes(ts, vs)
    ensures AllShaped(ts, vs) && CleanValues(ts, vs) == vs
  {
    hide HasType, CleansTo, Shaped, CleanValues;
    forall i | 0 <= i < |ts| ensures CleansTo(ts[i], vs[i], vs[i]) && Shaped(ts[i], vs[i]) {
      TypedIsClean(ts[i], vs[i]);
      CleanHasShape(ts[i], vs[i], vs[i]);
    }
    var clean := CleanValues(ts, vs);
    forall i | 0 <= i < |ts| ensures clean[i] == vs[i] {
      CleanIsUnique(ts[i], vs[i], clean[i], vs[i]);
    }
  }

  // ---------------------------------------------------------------- sizes

  /** `isDynamicallyEncoded`. */
  predicate IsDynamic(t: Type) {
    match t
    case Word(_) => false
    case ByteArray => true
    case StaticArray(base, _) => IsDynamic(base)
    case DynamicArray(_) => true
    case Struct(members) => exists i :: 0 <= i < |members| && IsDynamic(members[i])
  }

  /** `calldataEncodedSize(true)`, meant for statically encoded types. */
  function EncodedSize(t: Type): nat
    decreases t, 0
  {
    match t
    case StaticArray(base, length) => (length * (if IsDynamic(base) then 32 else EncodedSize(base)) + 31) / 32 * 32
    case Struct(members) => MembersSize(members, |members|)
    case _ => 32
  }

  function MembersSize(ts: seq<Type>, n: nat): nat
    requires n <= |ts|
    decreases ts, n
  {
    if n == 0 then 0 else MembersSize(ts, n - 1) + EncodedSize(ts[n - 1])
  }

  /** `calldataHeadSize`. */
  function HeadSize(t: Type): nat {
    if IsDynamic(t) then 32 else EncodedSize(t)
  }

  /** `headSize`, and the running `headPos` of the generators. */
  function HeadSizes(ts: seq<Type>, n: nat): nat
    requires n <= |ts|
  {
    if n == 0 then 0 else HeadSizes(ts, n - 1) + HeadSize(ts[n - 1])
  }

  // ---------------------------------------------------------------- the encoding

  /** Rounding up to a multiple of 32. */
  function RoundUp(n: nat): (r: nat)
    ensures n <= r < n + 32 && r % 32 == 0
  {
    (n + 31) / 32 * 32
  }

  function Repeat(t: Type, n: nat): (ts: seq<Type>)
    ensures |ts| == n && forall i :: 0 <= i < n ==> ts[i] == t
  {
    seq(n, _ => t)
  }

  function Encoding(t: Type, v: Value): seq<Byte>
    requires HasType(t, v)
    decreases v
  {
    match t
    case Word(_) => ToBigEndian(v.word, 32)
    case ByteArray => ToBigEndian(|v.bytes|, 32) + v.bytes + Zeros(RoundUp(|v.bytes|) - |v.bytes|)
    case StaticArray(base, length) =>
      Heads(Repeat(base, length), v.elems, length) + Tails(Repeat(base, length), v.elems, length)
    case DynamicArray(base) =>
      ToBigEndian(|v.elems|, 32) +
      (Heads(Repeat(base, |v.elems|), v.elems, |v.elems|) + Tails(Repeat(base, |v.elems|), v.elems, |v.elems|))
    case Struct(members) => Heads(members, v.elems, |members|) + Tails(members, v.elems, |members|)
  }

  /** The head parts of the first `n` elements: the element itself if it is
      statically encoded, else the distance from the start of the heads to its tail. */
  function Heads(ts: seq<Type>, vs: seq<Value>, n: nat): seq<Byte>
    requires HaveTypes(ts, vs) && n <= |ts|
    decreases vs, n, 1
  {
    if n == 0 then []
    else
      Heads(ts, vs, n - 1) +
      (if IsDynamic(ts[n - 1]) then ToBigEndian(TailStart(ts, vs, n - 1), 32) else Encoding(ts[n - 1], vs[n - 1]))
  }

  function Tails(ts: seq<Type>, vs: seq<Value>, n: nat): seq<Byte>
    requires HaveTypes(ts, vs) && n <= |ts|
    decreases vs, n, 0
  {
    if n == 0 then []
    else Tails(ts, vs, n - 1) + (if IsDynamic(ts[n - 1]) then Encoding(ts[n - 1], vs[n - 1]) else [])
  }

  function TailStart(ts: seq<Type>, vs: seq<Value>, i: nat): nat
    requires HaveTypes(ts, vs) && i <= |ts|
    decreases vs, i, 1
  {
    HeadSizes(ts, |ts|) + |Tails(ts, vs, i)|
  }

  /** The encoding of a tuple. */
  function TupleEncoding(ts: seq<Type>, vs: seq<Value>): seq<Byte>
    requires HaveTypes(ts, vs)
  {
    Heads(ts, vs, |ts|) + Tails(ts, vs, |ts|)
  }

  // ---------------------------------------------------------------- sizes of encodings

  lemma ArraySizeAtLeast(length: nat, size: nat)
    requires length >= 1 && size >= 32
    ensures (length * size + 31) / 32 * 32 >= 32
  {
    MulMonotone(1, length, size);
  }

  lemma {:induction false} SizesMultipleOf32(t: Type)
    ensures EncodedSize(t) % 32 == 0
    ensures WellFormed(t) ==> EncodedSize(t) >= 32
    decreases t, 0
  {
    match t
    case StaticArray(base, length) =>
      SizesMultipleOf32(base);
      if WellFormed(t) {
        ArraySizeAtLeast(length, HeadSize(base));
      }
    case Struct(members) => MembersMultipleOf32(members, |members|);
    case _ =>
  }

  lemma {:induction false} MembersMultipleOf32(ts: seq<Type>, n: nat)
    requires n <= |ts|
    ensures MembersSize(ts, n) % 32 == 0
    ensures n > 0 && (forall i :: 0 <= i < |ts| ==> WellFormed(ts[i])) ==> MembersSize(ts, n) >= 32
    decreases ts, n
  {
    if n > 0 {
      MembersMultipleOf32(ts, n - 1);
      SizesMultipleOf32(ts[n - 1]);
    }
  }

  lemma {:induction false} RepeatedHeads(t: Type, n: nat, i: nat)
    requires i <= n
    ensures HeadSizes(Repeat(t, n), i) == i * HeadSize(t)
  {
    hide HeadSize;
    if i > 0 {
      RepeatedHeads(t, n, i - 1);
      assert (i - 1) * HeadSize(t) + HeadSize(t) == i * HeadSize(t);
    }
  }

  predicate AllStatic(ts: seq<Type>) {
    forall i :: 0 <= i < |ts| ==> !IsDynamic(ts[i])
  }

  lemma {:induction false} StaticHeads(ts: seq<Type>, n: nat)
    requires AllStatic(ts) && n <= |ts|
    ensures HeadSizes(ts, n) == MembersSize(ts, n)
  {
    if n > 0 {
      StaticHeads(ts, n - 1);
    }
  }

  lemma {:induction false} StaticTails(ts: seq<Type>, vs: seq<Value>, n: nat)
    requires HaveTypes(ts, vs) && AllStatic(ts) && n <= |ts|
    ensures Tails(ts, vs, n) == []
  {
    hide HasType, Encoding;
    if n > 0 {
      StaticTails(ts, vs, n - 1);
    }
  }

  /** A statically encoded value occupies exactly `calldataEncodedSize(true)` bytes. */
  lemma {:induction false} StaticSize(t: Type, v: Value)
    requires HasType(t, v) && !IsDynamic(t)
    ensures |Encoding(t, v)| == EncodedSize(t)
    decreases v
  {
    match t
    case Word(_) =>
    case StaticArray(base, length) =>
      var ts := Repeat(base, length);
      HeadsSize(ts, v.elems, length);
      StaticTails(ts, v.elems, length);
      RepeatedHeads(base, length, length);
      SizesMultipleOf32(base);
      RoundExact(length, EncodedSize(base));
    case Struct(members) =>
      HeadsSize(members, v.elems, |members|);
      StaticTails(members, v.elems, |members|);
      StaticHeads(members, |members|);
  }

  lemma RoundExact(n: nat, size: nat)
    requires size % 32 == 0
    ensures (n * size + 31) / 32 * 32 == n * size
  {
    var k := size / 32;
    assert size == 32 * k;
    assert n * size == 32 * (n * k);
  }

  lemma {:induction false} HeadsSize(ts: seq<Type>, vs: seq<Value>, n: nat)
    requires HaveTypes(ts, vs) && n <= |ts|
    ensures |Heads(ts, vs, n)| == HeadSizes(ts, n)
    decreases vs, n
  {
    hide HasType, Encoding;
    if n > 0 {
      HeadsSize(ts, vs, n - 1);
      if !IsDynamic(ts[n - 1]) {
        StaticSize(ts[n - 1], vs[n - 1]);
      }
    }
  }

  lemma {:induction false} TailsGrow(ts: seq<Type>, vs: seq<Value>, i: nat, n: nat)
    requires HaveTypes(ts, vs) && i <= n <= |ts|
    ensures Tails(ts, vs, i) <= Tails(ts, vs, n)
    decreases n
  {
    hide HasType, Encoding;
    if i < n {
      TailsGrow(ts, vs, i, n - 1);
    }
  }

  lemma {:induction false} HeadsGrow(ts: seq<Type>, vs: seq<Value>, i: nat, n: nat)
    requires HaveTypes(ts, vs) && i <= n <= |ts|
    ensures Heads(ts, vs, i) <= Heads(ts, vs, n)
    ensures HeadSizes(ts, i) <= HeadSizes(ts, n)
    decreases n
  {
    hide HasType, Encoding, TailStart;
    if i < n {
      HeadsGrow(ts, vs, i, n - 1);
    }
  }

  lemma TupleSize(ts: seq<Type>, vs: seq<Value>)
    requires HaveTypes(ts, vs)
    ensures |TupleEncoding(ts, vs)| == HeadSizes(ts, |ts|) + |Tails(ts, vs, |ts|)|
  {
    HeadsSize(ts, vs, |ts|);
  }
}
