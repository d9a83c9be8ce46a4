/**
 Encodings worked out by hand: the first call is the example of "Use of Dynamic
 Types" in the Solidity Contract ABI Specification, the second has arrays in arrays.
 */
module AbiExample {
  import opened Bytes
  import opened AbiTypes
  import opened AbiDecoder

  /** 32-byte words one after the other. */
  function WordsOf(ws: seq<nat>): (s: seq<Byte>)
    ensures |s| == 32 * |ws|
  {
    if ws == [] then [] else WordsOf(ws[..|ws| - 1]) + ToBigEndian(ws[|ws| - 1], 32)
  }

  lemma WordsSnoc(ws: seq<nat>, w: nat)
    ensures WordsOf(ws + [w]) == WordsOf(ws) + ToBigEndian(w, 32)
  {
    assert (ws + [w])[..|ws|] == ws;
  }

  lemma {:induction false} WordsConcat(a: seq<nat>, b: seq<nat>)
    ensures WordsOf(a + b) == WordsOf(a) + WordsOf(b)
  {
    if b == [] {
      assert a + b == a;
    } else {
      var n := |b| - 1;
      WordsConcat(a, b[..n]);
      WordsSnoc(a + b[..n], b[n]);
      WordsSnoc(b[..n], b[n]);
      assert b == b[..n] + [b[n]];
      assert a + b == a + b[..n] + [b[n]];
    }
  }

  /** The number 0x123 as a word, byte by byte. */
  lemma WordInBytes()
    ensures ToBigEndian(0x123, 32) == Zeros(30) + [0x01, 0x23]
  {
    ToBigEndianZero(30);
    assert ToBigEndian(0x123, 32) == ToBigEndian(0x123 / 256, 31) + [0x23];
  }

  const NUMBER := Word(UInt(256))
  const SMALL := Word(UInt(32))
  const NUMBERS := DynamicArray(NUMBER)

  lemma Ranges()
    ensures Pow2(32) == 0x1_0000_0000 && Pow2(256) == TWO_256
    ensures Pow256(22) == 0x1_0000_0000_0000_0000_0000_0000_0000_0000_0000_0000_0000
  {
    Pow2Pow256(4);
    Pow2Pow256(32);
    WordCapacity();
    Pow256Add(8, 8);
    Pow256Add(16, 6);
  }

  // ---------------------------------------------------------------- arrays of numbers

  function Values(ws: seq<nat>): (vs: seq<Value>)
    ensures |vs| == |ws| && forall i :: 0 <= i < |ws| ==> vs[i] == WordValue(ws[i])
  {
    seq(|ws|, i requires 0 <= i < |ws| => WordValue(ws[i]))
  }

  lemma {:induction false} WordHeads(kind: Kind, ws: seq<nat>, n: nat)
    requires n <= |ws| && HaveTypes(Repeat(Word(kind), |ws|), Values(ws))
    ensures Heads(Repeat(Word(kind), |ws|), Values(ws), n) == WordsOf(ws[..n])
    ensures Tails(Repeat(Word(kind), |ws|), Values(ws), n) == []
  {
    hide InRange;
    if n > 0 {
      WordHeads(kind, ws, n - 1);
      WordsSnoc(ws[..n - 1], ws[n - 1]);
      assert ws[..n] == ws[..n - 1] + [ws[n - 1]];
    }
  }

  lemma WordsTyped(kind: Kind, ws: seq<nat>)
    requires forall i :: 0 <= i < |ws| ==> InRange(kind, ws[i])
    ensures HaveTypes(Repeat(Word(kind), |ws|), Values(ws))
    ensures HasType(DynamicArray(Word(kind)), Elements(Values(ws)))
  {
    hide InRange;
  }

  lemma WordTuple(kind: Kind, ws: seq<nat>)
    requires HaveTypes(Repeat(Word(kind), |ws|), Values(ws))
    ensures TupleEncoding(Repeat(Word(kind), |ws|), Values(ws)) == WordsOf(ws)
  {
    hide HaveTypes, HasType, Heads, Tails, WordsOf, Values, Repeat, ToBigEndian, Encoding;
    WordHeads(kind, ws, |ws|);
    assert ws[..|ws|] == ws;
  }

  lemma ArrayOfWords(kind: Kind, ws: seq<nat>)
    requires forall i :: 0 <= i < |ws| ==> InRange(kind, ws[i])
    ensures var t, v := DynamicArray(Word(kind)), Elements(Values(ws));
            HasType(t, v) && Encoding(t, v) == WordsOf([|ws|] + ws)
  {
    WordsTyped(kind, ws);
    OneWord(|ws|);
    hide InRange, TupleEncoding, HasType, Encoding, WordsOf, ToBigEndian;
    ArrayEncoding(Word(kind), Elements(Values(ws)));
    WordTuple(kind, ws);
    WordsConcat([|ws|], ws);
  }

  lemma OneWord(w: nat)
    ensures WordsOf([w]) == ToBigEndian(w, 32)
  {
    WordsSnoc([], w);
    assert [] + [w] == [w];
  }

  // ---------------------------------------------------------------- f(uint256,uint32[],bytes10,bytes)

  const F_TYPES: seq<Type> := [NUMBER, DynamicArray(SMALL), Word(FixedBytes(10)), ByteArray]
  const GREETING: seq<Byte> := [0x48, 0x65, 0x6c, 0x6c, 0x6f, 0x2c, 0x20, 0x77, 0x6f, 0x72, 0x6c, 0x64, 0x21]
  const TEN: nat := 0x31323334353637383930_00000000000000000000000000000000000000000000
  const F_VALUES: seq<Value> := [
    WordValue(0x123), Elements(Values([0x456, 0x789])), WordValue(TEN), BytesValue(GREETING)]

  lemma FTyped()
    ensures HaveTypes(F_TYPES, F_VALUES)
  {
    Ranges();
    hide Pow2, Pow256;
    ArrayOfWords(UInt(32), [0x456, 0x789]);
    assert TEN % 0x1_0000_0000_0000_0000_0000_0000_0000_0000_0000_0000_0000 == 0;
  }

  lemma FHeadSizes()
    ensures |F_TYPES| == |F_VALUES| == 4
    ensures HeadSizes(F_TYPES, 0) == 0 && HeadSizes(F_TYPES, 1) == 32 && HeadSizes(F_TYPES, 2) == 64
    ensures HeadSizes(F_TYPES, 3) == 96 && HeadSizes(F_TYPES, 4) == 128
    ensures !IsDynamic(F_TYPES[0]) && IsDynamic(F_TYPES[1]) && !IsDynamic(F_TYPES[2]) && IsDynamic(F_TYPES[3])
  {
  }

  lemma FStaticParts()
    requires HaveTypes(F_TYPES, F_VALUES)
    ensures Encoding(F_TYPES[0], F_VALUES[0]) == WordsOf([0x123])
    ensures Encoding(F_TYPES[2], F_VALUES[2]) == WordsOf([TEN])
  {
    OneWord(0x123);
    OneWord(TEN);
    hide WordsOf, ToBigEndian, HasType, TEN;
  }

  lemma FParts()
    requires HaveTypes(F_TYPES, F_VALUES)
    ensures Encoding(F_TYPES[0], F_VALUES[0]) == WordsOf([0x123])
    ensures Encoding(F_TYPES[1], F_VALUES[1]) == WordsOf([2, 0x456, 0x789])
    ensures Encoding(F_TYPES[2], F_VALUES[2]) == WordsOf([TEN])
    ensures Encoding(F_TYPES[3], F_VALUES[3]) == WordsOf([13]) + (GREETING + Zeros(19))
  {
    FStaticParts();
    Ranges();
    OneWord(13);
    hide WordsOf, ToBigEndian, Pow2, Pow256, TEN;
    ArrayOfWords(UInt(32), [0x456, 0x789]);
    assert [2] + [0x456, 0x789] == [2, 0x456, 0x789];
  }

  lemma FTails()
    requires HaveTypes(F_TYPES, F_VALUES)
    ensures Tails(F_TYPES, F_VALUES, 1) == [] && Tails(F_TYPES, F_VALUES, 2) == WordsOf([2, 0x456, 0x789])
    ensures Tails(F_TYPES, F_VALUES, 3) == WordsOf([2, 0x456, 0x789])
    ensures Tails(F_TYPES, F_VALUES, 4) == WordsOf([2, 0x456, 0x789]) + (WordsOf([13]) + (GREETING + Zeros(19)))
  {
    FHeadSizes();
    FParts();
    hide WordsOf, Encoding, HaveTypes, HasType, IsDynamic, GREETING;
  }

  lemma NextWord(ts: seq<Type>, vs: seq<Value>, n: nat, ws: seq<nat>, w: nat)
    requires HaveTypes(ts, vs) && n < |ts| && Heads(ts, vs, n) == WordsOf(ws)
    requires if IsDynamic(ts[n]) then HeadSizes(ts, |ts|) + |Tails(ts, vs, n)| == w
             else Encoding(ts[n], vs[n]) == WordsOf([w])
    ensures Heads(ts, vs, n + 1) == WordsOf(ws + [w])
  {
    hide HaveTypes, HasType, Encoding, IsDynamic, Tails, WordsOf, ToBigEndian, HeadSizes;
    WordsSnoc(ws, w);
    OneWord(w);
  }

  lemma FHeadFacts()
    requires HaveTypes(F_TYPES, F_VALUES)
    ensures |F_TYPES| == |F_VALUES| == 4 && HeadSizes(F_TYPES, 4) == 128
    ensures !IsDynamic(F_TYPES[0]) && IsDynamic(F_TYPES[1]) && !IsDynamic(F_TYPES[2]) && IsDynamic(F_TYPES[3])
    ensures |Tails(F_TYPES, F_VALUES, 1)| == 0 && |Tails(F_TYPES, F_VALUES, 3)| == 96
    ensures Encoding(F_TYPES[0], F_VALUES[0]) == WordsOf([0x123]) && Encoding(F_TYPES[2], F_VALUES[2]) == WordsOf([TEN])
    ensures Heads(F_TYPES, F_VALUES, 0) == WordsOf([])
  {
    FHeadSizes();
    FParts();
    FTails();
  }

  lemma FirstHeads()
    requires HaveTypes(F_TYPES, F_VALUES)
    ensures Heads(F_TYPES, F_VALUES, 2) == WordsOf([0x123, 0x80])
  {
    FHeadFacts();
    hide Encoding, HaveTypes, HasType, IsDynamic, Tails, Heads, HeadSizes, GREETING, WordsOf, TEN;
    hide F_TYPES, F_VALUES, ToBigEndian, TailStart, NUMBER, SMALL;
    NextWord(F_TYPES, F_VALUES, 0, [], 0x123);
    assert [] + [0x123] == [0x123];
    NextWord(F_TYPES, F_VALUES, 1, [0x123], 0x80);
    assert [0x123] + [0x80] == [0x123, 0x80];
  }

  lemma ThreeHeads()
    requires HaveTypes(F_TYPES, F_VALUES)
    ensures Heads(F_TYPES, F_VALUES, 3) == WordsOf([0x123, 0x80, TEN])
  {
    FHeadFacts();
    hide Encoding, HaveTypes, HasType, IsDynamic, Tails, Heads, HeadSizes, GREETING, WordsOf, TEN;
    hide F_TYPES, F_VALUES, ToBigEndian, TailStart, NUMBER, SMALL;
    FirstHeads();
    NextWord(F_TYPES, F_VALUES, 2, [0x123, 0x80], TEN);
    assert [0x123, 0x80] + [TEN] == [0x123, 0x80, TEN];
  }

  lemma FHeads()
    requires HaveTypes(F_TYPES, F_VALUES)
    ensures Heads(F_TYPES, F_VALUES, 4) == WordsOf([0x123, 0x80, TEN, 0xe0])
  {
    FHeadFacts();
    hide Encoding, HaveTypes, HasType, IsDynamic, Tails, Heads, HeadSizes, GREETING, WordsOf, TEN;
    hide F_TYPES, F_VALUES, ToBigEndian, TailStart, NUMBER, SMALL;
    ThreeHeads();
    NextWord(F_TYPES, F_VALUES, 3, [0x123, 0x80, TEN], 0xe0);
    assert [0x123, 0x80, TEN] + [0xe0] == [0x123, 0x80, TEN, 0xe0];
  }

  /** The arguments (0x123, [0x456, 0x789], "1234567890", "Hello, world!"). */
  lemma FEncoding()
    ensures HaveTypes(F_TYPES, F_VALUES)
    ensures TupleEncoding(F_TYPES, F_VALUES) ==
            WordsOf([0x123, 0x80, TEN, 0xe0]) +
            (WordsOf([2, 0x456, 0x789]) + (WordsOf([13]) + (GREETING + Zeros(19))))
  {
    FTyped();
    FHeads();
    FTails();
    hide WordsOf, Heads, Tails, HaveTypes;
  }

  // ---------------------------------------------------------------- arrays in arrays

  const ROWS: seq<Value> := [Elements(Values([1, 2])), Elements(Values([3]))]
  const TWO_ARRAYS: seq<Type> := Repeat(NUMBERS, 2)

  lemma RowParts()
    ensures HaveTypes(TWO_ARRAYS, ROWS) && HasType(DynamicArray(NUMBERS), Elements(ROWS))
    ensures Encoding(NUMBERS, ROWS[0]) == WordsOf([2, 1, 2]) && Encoding(NUMBERS, ROWS[1]) == WordsOf([1, 3])
  {
    Ranges();
    hide Pow2, Pow256, WordsOf, Encoding;
    ArrayOfWords(UInt(256), [1, 2]);
    ArrayOfWords(UInt(256), [3]);
    assert [2] + [1, 2] == [2, 1, 2] && [1] + [3] == [1, 3];
  }

  lemma NextTail(ts: seq<Type>, vs: seq<Value>, n: nat)
    requires HaveTypes(ts, vs) && n < |ts| && IsDynamic(ts[n])
    ensures Tails(ts, vs, n + 1) == Tails(ts, vs, n) + Encoding(ts[n], vs[n])
  {
    hide Encoding, HasType;
  }

  lemma NoHeads(ts: seq<Type>, vs: seq<Value>)
    requires HaveTypes(ts, vs)
    ensures Heads(ts, vs, 0) == WordsOf([]) && Tails(ts, vs, 0) == []
  {
    hide HasType;
  }

  lemma RowTails()
    requires HaveTypes(TWO_ARRAYS, ROWS)
    ensures |TWO_ARRAYS| == |ROWS| == 2 && IsDynamic(TWO_ARRAYS[0]) && IsDynamic(TWO_ARRAYS[1])
    ensures HeadSizes(TWO_ARRAYS, 2) == 64
    ensures |Tails(TWO_ARRAYS, ROWS, 0)| == 0 && |Tails(TWO_ARRAYS, ROWS, 1)| == 96
    ensures Tails(TWO_ARRAYS, ROWS, 2) == WordsOf([2, 1, 2]) + WordsOf([1, 3])
  {
    RowParts();
    RepeatedHeads(NUMBERS, 2, 2);
    NoHeads(TWO_ARRAYS, ROWS);
    hide Encoding, WordsOf, HasType, HaveTypes, Tails, Heads, ROWS, HeadSizes;
    NextTail(TWO_ARRAYS, ROWS, 0);
    NextTail(TWO_ARRAYS, ROWS, 1);
    assert [] + WordsOf([2, 1, 2]) == WordsOf([2, 1, 2]);
  }

  lemma RowHeads()
    requires HaveTypes(TWO_ARRAYS, ROWS)
    ensures Heads(TWO_ARRAYS, ROWS, 2) == WordsOf([0x40, 0xa0])
  {
    RowTails();
    NoHeads(TWO_ARRAYS, ROWS);
    hide WordsOf, Tails, Heads, HasType, HaveTypes, IsDynamic, HeadSizes, Encoding, ROWS, TWO_ARRAYS, ToBigEndian;
    NextWord(TWO_ARRAYS, ROWS, 0, [], 0x40);
    assert [] + [0x40] == [0x40];
    NextWord(TWO_ARRAYS, ROWS, 1, [0x40], 0xa0);
    assert [0x40] + [0xa0] == [0x40, 0xa0];
  }

  /** The array [[1, 2], [3]]: offsets count from behind the length. */
  lemma RowsEncoding()
    ensures HasType(DynamicArray(NUMBERS), Elements(ROWS))
    ensures Encoding(DynamicArray(NUMBERS), Elements(ROWS)) ==
            WordsOf([2]) + (WordsOf([0x40, 0xa0]) + (WordsOf([2, 1, 2]) + WordsOf([1, 3])))
  {
    RowParts();
    RowTails();
    RowHeads();
    OneWord(2);
    hide WordsOf, Tails, Heads, HasType, HaveTypes, IsDynamic, HeadSizes, Encoding, ROWS, ToBigEndian, Repeat;
    ArrayEncoding(NUMBERS, Elements(ROWS));
  }
}
