/**
 BLAKE2b as in libsolutil/Blake2bRef.cpp, against RFC 7693: a buffered hash
 whose state depends only on the bytes absorbed so far, and whose digest is the
 one of section 3.3, however the message is cut into updates.
 */
module Blake2bSpec {
  type Byte = bv8
  type Word = bv64
  type U64 = n: nat | n < 0x1_0000_0000_0000_0000

  const TWO_64: nat := 0x1_0000_0000_0000_0000
  const TWO_128: nat := 0x1_0000_0000_0000_0000_0000_0000_0000_0000

  const IV: seq<Word> := [
    0x6a09e667f3bcc908, 0xbb67ae8584caa73b, 0x3c6ef372fe94f82b, 0xa54ff53a5f1d36f1,
    0x510e527fade682d1, 0x9b05688c2b3e6c1f, 0x1f83d9abfb41bd6b, 0x5be0cd19137e2179]

  /** The message schedule of section 2.7. */
  const SIGMA: seq<seq<nat>> := [
    [ 0,  1,  2,  3,  4,  5,  6,  7,  8,  9, 10, 11, 12, 13, 14, 15],
    [14, 10,  4,  8,  9, 15, 13,  6,  1, 12,  0,  2, 11,  7,  5,  3],
    [11,  8, 12,  0,  5,  2, 15, 13, 10, 14,  3,  6,  7,  1,  9,  4],
    [ 7,  9,  3,  1, 13, 12, 11, 14,  2,  6,  5, 10,  4,  0, 15,  8],
    [ 9,  0,  5,  7,  2,  4, 10, 15, 14,  1, 11, 12,  6,  8,  3, 13],
    [ 2, 12,  6, 10,  0, 11,  8,  3,  4, 13,  7,  5, 15, 14,  1,  9],
    [12,  5,  1, 15, 14, 13,  4, 10,  0,  7,  6,  3,  9,  2,  8, 11],
    [13, 11,  7, 14, 12,  1,  3,  9,  5,  0, 15,  4,  8,  6,  2, 10],
    [ 6, 15, 14,  9, 11,  3,  0,  8, 12,  2, 13,  7,  1,  4, 10,  5],
    [10,  2,  8,  4,  7,  6,  1,  5, 15, 11,  9, 14,  3, 12, 13,  0]]

  /** `rotr64`; `c` is an unsigned of 32 bits. */
  function Rotr(w: Word, c: bv32): Word
    requires 0 < c < 64
  {
    (w >> c) | (w << (64 - c))
  }

  /** The mixing function G of section 3.1, on the four words it touches. */
  datatype Four = Four(a: Word, b: Word, c: Word, d: Word)

  function Plus(a: Word, b: Word): Word {
    a + b
  }

  function Xor(a: Word, b: Word): Word {
    a ^ b
  }

  function Mix(q: Four, x: Word, y: Word): Four {
    var a1 := Plus(Plus(q.a, q.b), x);
    var d1 := Rotr(Xor(q.d, a1), 32);
    var c1 := Plus(q.c, d1);
    var b1 := Rotr(Xor(q.b, c1), 24);
    var a2 := Plus(Plus(a1, b1), y);
    var d2 := Rotr(Xor(d1, a2), 16);
    var c2 := Plus(c1, d2);
    Four(a2, Rotr(Xor(b1, c2), 63), c2, d2)
  }

  /** A working vector of 16 words. */
  type Vector = v: seq<Word> | |v| == 16 witness seq(16, _ => 0)

  function Put(v: Vector, a: nat, b: nat, c: nat, d: nat, q: Four): Vector
    requires a < 16 && b < 16 && c < 16 && d < 16
  {
    v[a := q.a][b := q.b][c := q.c][d := q.d]
  }

  function G(v: Vector, a: nat, b: nat, c: nat, d: nat, x: Word, y: Word): Vector
    requires a < 16 && b < 16 && c < 16 && d < 16
  {
    Put(v, a, b, c, d, Mix(Four(v[a], v[b], v[c], v[d]), x, y))
  }

  /** The columns and diagonals mixed in a round, in order. */
  const LANES: seq<(nat, nat, nat, nat)> := [
    (0, 4, 8, 12), (1, 5, 9, 13), (2, 6, 10, 14), (3, 7, 11, 15),
    (0, 5, 10, 15), (1, 6, 11, 12), (2, 7, 8, 13), (3, 4, 9, 14)]

  predicate Lane(l: (nat, nat, nat, nat)) {
    l.0 < 16 && l.1 < 16 && l.2 < 16 && l.3 < 16
  }

  lemma LanesInRange(i: nat)
    requires i < 8
    ensures Lane(LANES[i])
  {
  }

  lemma SigmaInRange(r: nat, k: nat)
    requires r < 10 && k < 16
    ensures |SIGMA[r]| == 16 && SIGMA[r][k] < 16
  {
  }

  /** The first `i` mixings of the round whose schedule is row `row`. */
  function HalfRound(v: Vector, m: Vector, row: nat, i: nat): Vector
    requires row < 10 && i <= 8
  {
    if i == 0 then v
    else
      LanesInRange(i - 1);
      SigmaInRange(row, 2 * i - 2);
      SigmaInRange(row, 2 * i - 1);
      var l := LANES[i - 1];
      G(HalfRound(v, m, row, i - 1), l.0, l.1, l.2, l.3, m[SIGMA[row][2 * i - 2]], m[SIGMA[row][2 * i - 1]])
  }

  /** The first `r` of the twelve rounds; round i uses row i mod 10. */
  function Rounds(v: Vector, m: Vector, r: nat): Vector
    requires r <= 12
  {
    if r == 0 then v else HalfRound(Rounds(v, m, r - 1), m, (r - 1) % 10, 8)
  }

  function LoadWord(p: seq<Byte>): Word
    requires |p| == 8
  {
    (p[0] as Word) | (p[1] as Word << 8) | (p[2] as Word << 16) | (p[3] as Word << 24) |
    (p[4] as Word << 32) | (p[5] as Word << 40) | (p[6] as Word << 48) | (p[7] as Word << 56)
  }

  function StoreWord(w: Word): (p: seq<Byte>)
    ensures |p| == 8
  {
    [ (w & 0xff) as Byte, ((w >> 8) & 0xff) as Byte, ((w >> 16) & 0xff) as Byte, ((w >> 24) & 0xff) as Byte,
      ((w >> 32) & 0xff) as Byte, ((w >> 40) & 0xff) as Byte, ((w >> 48) & 0xff) as Byte, ((w >> 56) & 0xff) as Byte ]
  }

  type Block = b: seq<Byte> | |b| == 128 witness seq(128, _ => 0)
  type State8 = h: seq<Word> | |h| == 8 witness seq(8, _ => 0)

  function BlockWords(b: Block): Vector {
    seq(16, i requires 0 <= i < 16 => LoadWord(b[8 * i..8 * i + 8]))
  }

  function WordOf(n: U64): Word {
    n as Word
  }

  /** The initial vector of section 3.2. */
  function StartVector(h: State8, t0: U64, t1: U64, last: bool): Vector {
    h + SecondHalf(t0, t1, last)
  }

  function SecondHalf(t0: U64, t1: U64, last: bool): (s: seq<Word>)
    ensures |s| == 8
  {
    hide Xor, WordOf;
    [IV[0], IV[1], IV[2], IV[3], Xor(IV[4], WordOf(t0)), Xor(IV[5], WordOf(t1)),
     if last then Xor(IV[6], 0xffff_ffff_ffff_ffff) else IV[6], IV[7]]
  }

  function Fold(h: State8, v: Vector): State8 {
    seq(8, i requires 0 <= i < 8 => h[i] ^ v[i] ^ v[i + 8])
  }

  /** The compression function F of section 3.2. */
  function F(h: State8, block: Block, t: nat, last: bool): State8 {
    var v := StartVector(h, t % TWO_64, t / TWO_64 % TWO_64, last);
    Fold(h, Rounds(v, BlockWords(block), 12))
  }

  // ---------------------------------------------------------------- section 3.3

  function Zeros(n: nat): (z: seq<Byte>)
    ensures |z| == n
  {
    seq(n, _ => 0)
  }

  /** The number of blocks before the last one. */
  function FullBlocks(n: nat): (k: nat)
    ensures n > 0 ==> 128 * k < n <= 128 * k + 128
    ensures n == 0 ==> k == 0
  {
    if n == 0 then 0 else (n - 1) / 128
  }

  /** The state after the first `k` blocks, none of them the last. */
  function Chain(h: State8, data: seq<Byte>, k: nat): State8
    requires 128 * k <= |data|
  {
    hide F;
    if k == 0 then h else F(Chain(h, data, k - 1), data[128 * (k - 1)..128 * k], 128 * k, false)
  }

  function LastBlock(data: seq<Byte>): Block {
    var rest := data[128 * FullBlocks(|data|)..];
    rest + Zeros(128 - |rest|)
  }

  function WordsToBytes(h: seq<Word>): (s: seq<Byte>)
    ensures |s| == 8 * |h|
  {
    if h == [] then [] else StoreWord(h[0]) + WordsToBytes(h[1..])
  }

  type Small = n: nat | n <= 64

  function ByteOf(n: Small): Byte {
    n as Byte
  }

  function FirstWord(nn: Byte, kk: Byte): Word {
    IV[0] ^ 0x01010000 ^ (kk as Word << 8) ^ (nn as Word)
  }

  function InitialState(outlen: Small, keylen: Small): State8 {
    IV[0 := FirstWord(ByteOf(outlen), ByteOf(keylen))]
  }

  /** The data that is hashed: the key, if any, padded to a block of its own,
      followed by the message. */
  function KeyedData(key: seq<Byte>, message: seq<Byte>): seq<Byte>
    requires |key| <= 64
  {
    (if key == [] then [] else key + Zeros(128 - |key|)) + message
  }

  function FinalState(h: State8, data: seq<Byte>): State8 {
    F(Chain(h, data, FullBlocks(|data|)), LastBlock(data), |data|, true)
  }

  function Digest(outlen: nat, key: seq<Byte>, message: seq<Byte>): (d: seq<Byte>)
    requires 1 <= outlen <= 64 && |key| <= 64
    ensures |d| == outlen
  {
    hide F;
    WordsToBytes(FinalState(InitialState(outlen, |key|), KeyedData(key, message)))[..outlen]
  }
}

module Blake2b {
  import opened Wrappers
  import opened Blake2bSpec

  const ONES: Word := 0xffff_ffff_ffff_ffff

  /** The twelve rows of `blake2b_sigma`. */
  const SCHEDULE: seq<seq<nat>> := SIGMA + [
    [ 0,  1,  2,  3,  4,  5,  6,  7,  8,  9, 10, 11, 12, 13, 14, 15],
    [14, 10,  4,  8,  9, 15, 13,  6,  1, 12,  0,  2, 11,  7,  5,  3]]

  lemma ScheduleRow(r: nat)
    requires r < 12
    ensures |SCHEDULE| == 12 && SCHEDULE[r] == SIGMA[r % 10]
  {
  }

  /** The macro G, statement by statement. */
  method MixInPlace(v: array<Word>, a: nat, b: nat, c: nat, d: nat, x: Word, y: Word)
    requires v.Length == 16 && a < 16 && b < 16 && c < 16 && d < 16
    requires a != b && a != c && a != d && b != c && b != d && c != d
    modifies v
    ensures v[..] == G(old(v[..]), a, b, c, d, x, y)
  {
    hide Mix;
    ghost var start := v[..];
    var q := MixWords(v[a], v[b], v[c], v[d], x, y);
    v[a] := q.a;
    v[b] := q.b;
    v[c] := q.c;
    v[d] := q.d;
    assert v[..] == Put(start, a, b, c, d, q);
  }

  method MixWords(a0: Word, b0: Word, c0: Word, d0: Word, x: Word, y: Word) returns (q: Four)
    ensures q == Mix(Four(a0, b0, c0, d0), x, y)
  {
    hide Rotr, Plus, Xor;
    var a, b, c, d := a0, b0, c0, d0;
    a := Plus(Plus(a, b), x);
    d := Rotr(Xor(d, a), 32);
    c := Plus(c, d);
    b := Rotr(Xor(b, c), 24);
    a := Plus(Plus(a, b), y);
    d := Rotr(Xor(d, a), 16);
    c := Plus(c, d);
    b := Rotr(Xor(b, c), 63);
    q := Four(a, b, c, d);
  }

  lemma LaneDistinct(i: nat)
    requires i < 8
    ensures var l := LANES[i];
            Lane(l) && l.0 != l.1 && l.0 != l.2 && l.0 != l.3 && l.1 != l.2 && l.1 != l.3 && l.2 != l.3
  {
  }

  /** The macro ROUND. */
  method RoundInPlace(v: array<Word>, m: Vector, r: nat)
    requires v.Length == 16 && r < 12
    modifies v
    ensures v[..] == HalfRound(old(v[..]), m, r % 10, 8)
  {
    hide G;
    ScheduleRow(r);
    for i := 0 to 8
      invariant v[..] == HalfRound(old(v[..]), m, r % 10, i)
    {
      LaneDistinct(i);
      SigmaInRange(r % 10, 2 * i);
      SigmaInRange(r % 10, 2 * i + 1);
      var l := LANES[i];
      MixInPlace(v, l.0, l.1, l.2, l.3, m[SCHEDULE[r][2 * i]], m[SCHEDULE[r][2 * i + 1]]);
    }
  }

  method LoadBlock(block: Block) returns (words: Vector)
    ensures words == BlockWords(block)
  {
    hide LoadWord;
    var m := new Word[16];
    for i := 0 to 16
      invariant forall k :: 0 <= k < i ==> m[k] == LoadWord(block[8 * k..8 * k + 8])
    {
      m[i] := LoadWord(block[8 * i..8 * i + 8]);
    }
    words := m[..];
    WordsOfBlock(block, words);
  }

  lemma XorZero(w: Word)
    ensures Xor(w, 0) == w
  {
  }

  lemma LoadedVector(v: seq<Word>, h: State8, t0: U64, t1: U64, f0: Word)
    requires f0 == 0 || f0 == ONES
    requires |v| == 16 && v[..8] == h
    requires v[8] == IV[0] && v[9] == IV[1] && v[10] == IV[2] && v[11] == IV[3]
    requires v[12] == Xor(IV[4], WordOf(t0)) && v[13] == Xor(IV[5], WordOf(t1))
    requires v[14] == Xor(IV[6], f0) && v[15] == IV[7]
    ensures v == StartVector(h, t0, t1, f0 != 0)
  {
    XorZero(IV[6]);
    hide Xor, WordOf, IV;
    assert v[8..] == SecondHalf(t0, t1, f0 != 0);
    assert v == v[..8] + v[8..];
  }

  lemma InitialWords()
    ensures |IV| == 8 && forall f :: f == 0 ==> Xor(IV[7], f) == IV[7]
  {
  }

  method LoadVector(h: State8, t0: U64, t1: U64, f0: Word, f1: Word) returns (v: array<Word>)
    requires f0 == 0 || f0 == ONES
    requires f1 == 0
    ensures v.Length == 16 && fresh(v) && v[..] == StartVector(h, t0, t1, f0 != 0)
  {
    InitialWords();
    hide WordOf, Xor, StartVector, IV;
    v := new Word[16];
    for i := 0 to 8
      invariant forall k :: 0 <= k < i ==> v[k] == h[k]
    {
      v[i] := h[i];
    }
    v[8], v[9], v[10], v[11] := IV[0], IV[1], IV[2], IV[3];
    v[12] := Xor(IV[4], WordOf(t0));
    v[13] := Xor(IV[5], WordOf(t1));
    v[14] := Xor(IV[6], f0);
    v[15] := Xor(IV[7], f1);
    assert v[..8] == h;
    LoadedVector(v[..], h, t0, t1, f0);
  }

  /** `blake2b_compress` without the write back to the state. */
  method Compressed(h: State8, t0: U64, t1: U64, f0: Word, f1: Word, block: Block) returns (r: State8)
    requires f0 == 0 || f0 == ONES
    requires f1 == 0
    ensures r == F(h, block, t0 + TWO_64 * t1, f0 != 0)
  {
    hide HalfRound, F, Rounds, BlockWords, StartVector;
    var words := LoadBlock(block);
    var v := LoadVector(h, t0, t1, f0, f1);
    ghost var start := v[..];
    NoRounds(start, words);
    for r := 0 to 12
      invariant v[..] == Rounds(start, words, r)
    {
      RoundInPlace(v, words, r);
      NextRound(start, words, r);
    }
    var mixed := v[..];
    r := seq(8, i requires 0 <= i < 8 => h[i] ^ mixed[i] ^ mixed[i + 8]);
    SplitCounter(h, block, t0, t1, f0 != 0);
    assert r == Fold(h, mixed);
  }

  lemma WordsOfBlock(block: Block, words: Vector)
    requires forall k :: 0 <= k < 16 ==> words[k] == LoadWord(block[8 * k..8 * k + 8])
    ensures words == BlockWords(block)
  {
    hide LoadWord;
  }

  lemma NoRounds(v: Vector, m: Vector)
    ensures Rounds(v, m, 0) == v
  {
  }

  lemma NextRound(v: Vector, m: Vector, r: nat)
    requires r < 12
    ensures Rounds(v, m, r + 1) == HalfRound(Rounds(v, m, r), m, r % 10, 8)
  {
    hide HalfRound;
  }

  lemma SplitCounter(h: State8, block: Block, t0: U64, t1: U64, last: bool)
    ensures F(h, block, t0 + TWO_64 * t1, last) == Fold(h, Rounds(StartVector(h, t0, t1, last), BlockWords(block), 12))
  {
    hide Fold, Rounds, StartVector, BlockWords;
    assert (t0 + TWO_64 * t1) % TWO_64 == t0 && (t0 + TWO_64 * t1) / TWO_64 == t1;
  }

  // ---------------------------------------------------------------- streaming

  lemma {:induction false} ChainPrefix(h: State8, data: seq<Byte>, more: seq<Byte>, k: nat)
    requires 128 * k <= |data|
    ensures Chain(h, data + more, k) == Chain(h, data, k)
  {
    hide F;
    if k > 0 {
      ChainPrefix(h, data, more, k - 1);
      assert (data + more)[128 * (k - 1)..128 * k] == data[128 * (k - 1)..128 * k];
    }
  }

  /** Only the counter modulo 2^128 reaches the compression function. */
  lemma CounterWraps(h: State8, block: Block, t: nat, last: bool)
    ensures F(h, block, t % TWO_128, last) == F(h, block, t, last)
  {
    hide Fold, Rounds, StartVector, BlockWords;
    CounterDigits(t);
  }

  lemma CounterDigits(t: nat)
    ensures t % TWO_128 % TWO_64 == t % TWO_64
    ensures t % TWO_128 / TWO_64 == t / TWO_64 % TWO_64
  {
    var low, high := t % TWO_64, t / TWO_64;
    assert t == high * TWO_64 + low;
    var mid, top := high % TWO_64, high / TWO_64;
    assert t == top * TWO_128 + (mid * TWO_64 + low);
    assert t % TWO_128 == mid * TWO_64 + low;
  }

  /** `buf` with `bytes` copied to position `at`. */
  method CopyInto(buf: array<Byte>, at: nat, bytes: seq<Byte>)
    requires at + |bytes| <= buf.Length
    modifies buf
    ensures buf[..at] == old(buf[..at]) && buf[at..at + |bytes|] == bytes
    ensures buf[at + |bytes|..] == old(buf[at + |bytes|..])
  {
    for i := 0 to |bytes|
      invariant buf[..at] == old(buf[..at]) && buf[at..at + i] == bytes[..i]
      invariant buf[at + i..] == old(buf[at + i..])
    {
      buf[at + i] := bytes[i];
      assert buf[at..at + i + 1] == buf[at..at + i] + [bytes[i]];
      assert buf[at + i + 1..] == old(buf[at + i..])[1..];
    }
  }

  class Context {
    var h: State8
    var t0: U64
    var t1: U64
    var f0: Word
    var f1: Word
    const buf: array<Byte>
    var buflen: nat
    var outlen: nat

    /** What the context was started with and everything fed to it since. */
    ghost var start: State8
    ghost var absorbed: seq<Byte>

    constructor ()
      ensures fresh(buf) && buf.Length == 128
    {
      h, t0, t1, f0, f1 := IV, 0, 0, 0, 0;
      buf := new Byte[128];
      buflen, outlen := 0, 0;
      start, absorbed := IV, [];
    }

    /** The counter as one number. */
    ghost function Counter(): nat
      reads this
    {
      t0 + TWO_64 * t1
    }

    /** The whole state is a function of `start` and `absorbed`: all complete
        blocks but the last have been compressed, the rest is in the buffer. */
    ghost predicate Absorbing()
      reads this, buf
    {
      var k := FullBlocks(|absorbed|);
      && buf.Length == 128 && f0 == 0 && f1 == 0
      && buflen == |absorbed| - 128 * k <= 128
      && buf[..buflen] == absorbed[128 * k..]
      && h == Chain(start, absorbed, k)
      && Counter() == 128 * k % TWO_128
    }

    /** `blake2b_increment_counter`: adding with a carry into the second word. */
    method IncrementCounter(inc: U64)
      modifies this`t0, this`t1
      ensures Counter() == (old(Counter()) + inc) % TWO_128
    {
      var sum := t0 + inc;
      t0 := sum % TWO_64;
      var carry := if t0 < inc then 1 else 0;
      t1 := (t1 + carry) % TWO_64;
      assert carry == sum / TWO_64;
    }

    method Compress(block: Block)
      requires f0 == 0 || f0 == ONES
      requires f1 == 0
      modifies this`h
      ensures h == F(old(h), block, Counter(), f0 != 0)
    {
      hide F;
      h := Compressed(h, t0, t1, f0, f1, block);
    }

    /** One full block that is not the last. */
    method AbsorbBlock(block: Block, ghost data: seq<Byte>, ghost k: nat)
      requires f0 == 0 && f1 == 0 && 128 * (k + 1) <= |data| && block == data[128 * k..128 * (k + 1)]
      requires h == Chain(start, data, k) && Counter() == 128 * k % TWO_128
      modifies this`h, this`t0, this`t1
      ensures h == Chain(start, data, k + 1) && Counter() == 128 * (k + 1) % TWO_128
    {
      hide F;
      IncrementCounter(128);
      CounterAdds(128 * k, 128);
      CounterWraps(h, block, 128 * (k + 1), false);
      Compress(block);
    }

    /** The branch of `blake2b_update` for input that overflows the buffer:
        compress until at most one block is left over. */
    method Overflow(input: seq<Byte>) returns (rest: seq<Byte>)
      requires Absorbing() && |input| > 128 - buflen
      modifies this`h, this`t0, this`t1, this`buflen, buf
      ensures var data, k := absorbed + input, FullBlocks(|absorbed| + |input|);
              && rest == data[128 * k..] && h == Chain(start, data, k) && Counter() == 128 * k % TWO_128
      ensures buflen == 0
    {
      hide F, Chain, FullBlocks;
      ghost var data, k := absorbed + input, FullBlocks(|absorbed|);
      var fill := 128 - buflen;
      assert data[128 * k..] == buf[..buflen] + input;
      ChainPrefix(start, absorbed, input, k);
      NextBlock(data, k, buf[..buflen], input);
      FillBuffer(input[..fill]);
      AbsorbBlock(buf[..], data, k);
      rest := AbsorbBlocks(input[fill..], data, k + 1);
    }

    /** Completing the block in the buffer. */
    method FillBuffer(input: seq<Byte>)
      requires buf.Length == 128 && buflen <= 128 && |input| == 128 - buflen
      modifies this`buflen, buf
      ensures buf[..] == old(buf[..buflen]) + input && buflen == 0
    {
      CopyInto(buf, buflen, input);
      assert buf[..] == buf[..buflen] + buf[buflen..];
      buflen := 0;
    }

    /** The loop over the full blocks of the input. */
    method AbsorbBlocks(input: seq<Byte>, ghost data: seq<Byte>, ghost k0: nat) returns (rest: seq<Byte>)
      requires f0 == 0 && f1 == 0 && 128 * k0 < |data| && input == data[128 * k0..]
      requires h == Chain(start, data, k0) && Counter() == 128 * k0 % TWO_128
      modifies this`h, this`t0, this`t1
      ensures var k := FullBlocks(|data|);
              rest == data[128 * k..] && h == Chain(start, data, k) && Counter() == 128 * k % TWO_128
    {
      hide F, Chain;
      ghost var k: nat := k0;
      rest := input;
      while |rest| > 128
        invariant 128 * k < |data| && rest == data[128 * k..]
        invariant h == Chain(start, data, k) && Counter() == 128 * k % TWO_128
      {
        NextBlock(data, k, [], rest);
        AbsorbBlock(rest[..128], data, k);
        rest, k := rest[128..], k + 1;
      }
      LastBlockIndex(|data|, k);
    }

    /** `blake2b_update`. */
    method Update(input: seq<Byte>)
      requires Absorbing()
      modifies this, buf
      ensures Absorbing() && f0 == 0 && start == old(start) && outlen == old(outlen)
      ensures absorbed == old(absorbed) + input
    {
      hide F, Chain, FullBlocks;
      if |input| > 0 {
        ghost var data, k := absorbed + input, FullBlocks(|absorbed| + |input|);
        var rest := input;
        if |input| > 128 - buflen {
          rest := Overflow(input);
          assert buf[..buflen] + rest == rest;
        } else {
          StaysHeld(start, absorbed, input);
          assert buf[..buflen] + rest == data[128 * k..];
        }
        Hold(rest, data, k);
      } else {
        assert absorbed + input == absorbed;
      }
    }

    /** Keeping what is left over in the buffer. */
    method Hold(rest: seq<Byte>, ghost data: seq<Byte>, ghost k: nat)
      requires buf.Length == 128 && f0 == 0 && f1 == 0 && buflen <= 128
      requires k == FullBlocks(|data|) && buf[..buflen] + rest == data[128 * k..]
      requires h == Chain(start, data, k) && Counter() == 128 * k % TWO_128
      modifies this`buflen, this`absorbed, buf
      ensures Absorbing() && absorbed == data
    {
      hide F, Chain;
      assert |buf[..buflen] + rest| == |data| - 128 * k;
      AppendToBuffer(rest);
      absorbed := data;
    }

    method AppendToBuffer(bytes: seq<Byte>)
      requires buf.Length == 128 && buflen + |bytes| <= 128
      modifies this`buflen, buf
      ensures buflen == old(buflen) + |bytes| && buf[..buflen] == old(buf[..buflen]) + bytes
    {
      CopyInto(buf, buflen, bytes);
      assert buf[..buflen + |bytes|] == buf[..buflen] + buf[buflen..buflen + |bytes|];
      buflen := buflen + |bytes|;
    }

    /** Padding and compressing the last block. */
    method Close()
      requires Absorbing()
      modifies this`h, this`t0, this`t1, this`f0, buf
      ensures h == FinalState(start, absorbed) && f0 == ONES
    {
      hide F, Chain, Zeros, FullBlocks;
      IncrementCounter(buflen);
      CounterAdds(128 * FullBlocks(|absorbed|), buflen);
      f0 := ONES;
      ghost var held := buf[..buflen];
      CopyInto(buf, buflen, Zeros(128 - buflen));
      assert buf[..] == held + Zeros(128 - buflen);
      assert buf[..] == LastBlock(absorbed);
      CounterWraps(h, buf[..], |absorbed|, true);
      Compress(buf[..]);
    }

    /** `blake2b_final`; None stands for the return value -1. A second call
        fails and changes nothing. */
    method Final(outSize: nat) returns (digest: Option<seq<Byte>>)
      requires buf.Length == 128 && (f0 == 0 ==> Absorbing()) && outlen <= 64
      modifies this, buf
      ensures outSize < old(outlen) || old(f0) != 0 ==>
                digest == None && unchanged(this) && unchanged(buf)
      ensures outSize >= old(outlen) && old(f0) == 0 ==>
                digest == Some(WordsToBytes(FinalState(old(start), old(absorbed)))[..old(outlen)]) && f0 != 0
      ensures outlen == old(outlen)
    {
      hide FinalState, WordsToBytes;
      if outSize < outlen {
        return None;
      }
      if f0 != 0 {
        return None;
      }
      Close();
      digest := Some(WordsToBytes(h)[..outlen]);
    }

    /** `blake2b_init_param` with the parameter block that `blake2b_init` and
        `blake2b_init_key` build: sequential mode, no salt, no personalisation. */
    method InitParam(nn: Small, kk: Small)
      requires buf.Length == 128
      modifies this
      ensures Absorbing() && f0 == 0 && absorbed == [] && start == InitialState(nn, kk) && outlen == nn
    {
      hide ByteOf, InitialState, F;
      var param: seq<Byte> := [ByteOf(nn), ByteOf(kk), 1, 1] + Zeros(60);
      h := XorParameters(param);
      ParameterBlock(nn, kk, param, h);
      t0, t1, f0, f1, buflen := 0, 0, 0, 0, 0;
      outlen := nn;
      start, absorbed := h, [];
      assert buf[..0] == absorbed[0..];
    }

    /** `blake2b_init`; false stands for -1. */
    method Init(nn: nat) returns (ok: bool)
      requires buf.Length == 128
      modifies this
      ensures ok <==> 1 <= nn <= 64
      ensures ok ==> Absorbing() && f0 == 0 && outlen == nn
      ensures ok ==> absorbed == KeyedData([], []) && start == InitialState(nn, 0)
    {
      hide InitialState, Absorbing, Zeros;
      if nn == 0 || nn > 64 {
        return false;
      }
      InitParam(nn, 0);
      return true;
    }

    /** `blake2b_init_key`: the padded key is the first block. */
    method InitKey(nn: nat, key: seq<Byte>) returns (ok: bool)
      requires buf.Length == 128
      modifies this, buf
      ensures ok <==> 1 <= nn <= 64 && 1 <= |key| <= 64
      ensures ok ==> Absorbing() && f0 == 0 && outlen == nn
      ensures ok ==> absorbed == KeyedData(key, []) && start == InitialState(nn, |key|)
    {
      hide InitialState, Absorbing, Zeros;
      if nn == 0 || nn > 64 {
        return false;
      }
      if |key| == 0 || |key| > 64 {
        return false;
      }
      InitParam(nn, |key|);
      var block := key + Zeros(128 - |key|);
      Update(block);
      assert block == KeyedData(key, []);
      return true;
    }
  }

  /** The loop of `blake2b_init_param`: the IV xored with the parameter block. */
  method XorParameters(param: seq<Byte>) returns (h: State8)
    requires |param| == 64
    ensures forall k :: 0 <= k < 8 ==> h[k] == IV[k] ^ LoadWord(param[8 * k..8 * k + 8])
  {
    hide LoadWord;
    h := IV;
    for i := 0 to 8
      invariant forall k :: 0 <= k < 8 ==> h[k] == if k < i then IV[k] ^ LoadWord(param[8 * k..8 * k + 8]) else IV[k]
    {
      h := h[i := h[i] ^ LoadWord(param[8 * i..8 * i + 8])];
    }
  }

  /** The buffer and the front of the input make up the next block. */
  lemma NextBlock(data: seq<Byte>, k: nat, held: seq<Byte>, input: seq<Byte>)
    requires 128 * k <= |data| && data[128 * k..] == held + input && |held| <= 128 < |held| + |input|
    ensures 128 * (k + 1) < |data|
    ensures data[128 * k..128 * (k + 1)] == held + input[..128 - |held|]
    ensures data[128 * (k + 1)..] == input[128 - |held|..]
  {
    assert data[128 * k..128 * (k + 1)] == data[128 * k..][..128];
    assert data[128 * (k + 1)..] == data[128 * k..][128..];
  }

  lemma ParameterBlock(nn: Small, kk: Small, param: seq<Byte>, h: State8)
    requires param == [ByteOf(nn), ByteOf(kk), 1, 1] + Zeros(60)
    requires forall k :: 0 <= k < 8 ==> h[k] == IV[k] ^ LoadWord(param[8 * k..8 * k + 8])
    ensures h == InitialState(nn, kk)
  {
    hide LoadWord, ByteOf, FirstWord;
    assert h[0] == IV[0] ^ LoadWord(param[8 * 0..8 * 0 + 8]);
    assert param[8 * 0..8 * 0 + 8] == [ByteOf(nn), ByteOf(kk), 1, 1, 0, 0, 0, 0];
    FirstParameterWord(ByteOf(nn), ByteOf(kk));
    forall k | 1 <= k < 8
      ensures h[k] == IV[k]
    {
      assert param[8 * k..8 * k + 8] == [0, 0, 0, 0, 0, 0, 0, 0];
      ZeroParameterWord(IV[k]);
    }
    assert h == InitialState(nn, kk);
  }

  lemma FirstParameterWord(nn: Byte, kk: Byte)
    ensures IV[0] ^ LoadWord([nn, kk, 1, 1, 0, 0, 0, 0]) == FirstWord(nn, kk)
  {
  }

  lemma ZeroParameterWord(w: Word)
    ensures w ^ LoadWord([0, 0, 0, 0, 0, 0, 0, 0]) == w
  {
  }

  /** `blake2b_raw`: the one-shot hash; None stands for -1. */
  method Hash(nn: nat, key: seq<Byte>, message: seq<Byte>) returns (digest: Option<seq<Byte>>)
    ensures digest == if 1 <= nn <= 64 && |key| <= 64 then Some(Digest(nn, key, message)) else None
  {
    digest := HashPieces(nn, key, [message]);
    assert Join([message]) == message;
  }

  function Join(pieces: seq<seq<Byte>>): seq<Byte> {
    if pieces == [] then [] else Join(pieces[..|pieces| - 1]) + pieces[|pieces| - 1]
  }

  /** However a message is cut into updates, the digest is that of section 3.3
      for the whole message. */
  method HashPieces(nn: nat, key: seq<Byte>, pieces: seq<seq<Byte>>) returns (digest: Option<seq<Byte>>)
    ensures digest == if 1 <= nn <= 64 && |key| <= 64 then Some(Digest(nn, key, Join(pieces))) else None
  {
    hide FinalState, WordsToBytes, InitialState, Context.Absorbing, Zeros;
    if nn == 0 || nn > 64 {
      return None;
    }
    if |key| > 64 {
      return None;
    }
    var context := new Context();
    var ok;
    if |key| > 0 {
      ok := context.InitKey(nn, key);
    } else {
      ok := context.Init(nn);
    }
    for i := 0 to |pieces|
      invariant context.Absorbing() && context.f0 == 0 && context.outlen == nn && fresh(context) && fresh(context.buf)
      invariant context.absorbed == KeyedData(key, Join(pieces[..i]))
      invariant context.start == InitialState(nn, |key|)
    {
      assert pieces[..i + 1][..i] == pieces[..i];
      context.Update(pieces[i]);
    }
    assert pieces[..|pieces|] == pieces;
    digest := context.Final(nn);
  }

  lemma CounterAdds(t: nat, inc: nat)
    ensures (t % TWO_128 + inc) % TWO_128 == (t + inc) % TWO_128
  {
    var q := t / TWO_128;
    assert t == q * TWO_128 + t % TWO_128;
  }

  lemma TailAppend(s: seq<Byte>, t: seq<Byte>, i: nat)
    requires i <= |s|
    ensures (s + t)[i..] == s[i..] + t
  {
  }

  /** Input that fits the buffer completes no block. */
  lemma StaysHeld(h: State8, absorbed: seq<Byte>, input: seq<Byte>)
    requires |input| > 0 && 128 * FullBlocks(|absorbed|) <= |absorbed|
    requires |absorbed| + |input| <= 128 * FullBlocks(|absorbed|) + 128
    ensures var k, data := FullBlocks(|absorbed|), absorbed + input;
            FullBlocks(|absorbed| + |input|) == k && Chain(h, data, k) == Chain(h, absorbed, k) &&
            data[128 * k..] == absorbed[128 * k..] + input
  {
    hide Chain, FullBlocks;
    LastBlockIndex(|absorbed| + |input|, FullBlocks(|absorbed|));
    ChainPrefix(h, absorbed, input, FullBlocks(|absorbed|));
    TailAppend(absorbed, input, 128 * FullBlocks(|absorbed|));
  }

  lemma LastBlockIndex(n: nat, k: nat)
    requires 128 * k < n <= 128 * k + 128
    ensures k == FullBlocks(n)
  {
  }
}
