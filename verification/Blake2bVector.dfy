/**
 The test vector of Appendix A of RFC 7693: the working vectors of its trace, one
 lemma per round, and the digest of the message "abc".
 */
module Blake2bVector {
  import opened Blake2bSpec

  // ---------------------------------------------------------------- one mixing of known words

  predicate Sum(a: Word, b: Word, r: Word) {
    a + b == r
  }

  predicate Turn32(a: Word, b: Word, r: Word) {
    ((a ^ b) >> 32) | ((a ^ b) << 32) == r
  }

  predicate Turn24(a: Word, b: Word, r: Word) {
    ((a ^ b) >> 24) | ((a ^ b) << 40) == r
  }

  predicate Turn16(a: Word, b: Word, r: Word) {
    ((a ^ b) >> 16) | ((a ^ b) << 48) == r
  }

  predicate Turn63(a: Word, b: Word, r: Word) {
    ((a ^ b) >> 63) | ((a ^ b) << 1) == r
  }

  lemma SumIs(a: Word, b: Word, r: Word)
    requires Sum(a, b, r)
    ensures Plus(a, b) == r
  {
  }

  lemma Turn32Is(a: Word, b: Word, r: Word)
    requires Turn32(a, b, r)
    ensures Rotr(Xor(a, b), 32) == r
  {
  }

  lemma Turn24Is(a: Word, b: Word, r: Word)
    requires Turn24(a, b, r)
    ensures Rotr(Xor(a, b), 24) == r
  {
  }

  lemma Turn16Is(a: Word, b: Word, r: Word)
    requires Turn16(a, b, r)
    ensures Rotr(Xor(a, b), 16) == r
  {
  }

  lemma Turn63Is(a: Word, b: Word, r: Word)
    requires Turn63(a, b, r)
    ensures Rotr(Xor(a, b), 63) == r
  {
  }

  /** The words after the first half of a mixing; `s` is the sum it starts with. */
  function Middle(s: Word, b: Word, c: Word, d: Word, x: Word): Four {
    var a1 := s + x;
    var d1 := ((d ^ a1) >> 32) | ((d ^ a1) << 32);
    var c1 := c + d1;
    Four(a1, ((b ^ c1) >> 24) | ((b ^ c1) << 40), c1, d1)
  }

  /** The steps of a mixing from `q` by way of `m` to `r`. */
  predicate MixesTo(q: Four, x: Word, y: Word, s: Word, m: Four, t: Word, r: Four) {
    Sum(q.a, q.b, s) && Sum(s, x, m.a) && Turn32(q.d, m.a, m.d) && Sum(q.c, m.d, m.c) && Turn24(q.b, m.c, m.b) &&
    Sum(m.a, m.b, t) && Sum(t, y, r.a) && Turn16(m.d, r.a, r.d) && Sum(m.c, r.d, r.c) && Turn63(m.b, r.c, r.b)
  }

  lemma MixesToMix(q: Four, x: Word, y: Word, s: Word, m: Four, t: Word, r: Four)
    requires MixesTo(q, x, y, s, m, t, r)
    ensures Mix(q, x, y) == r
  {
    hide Plus, Xor, Rotr, Sum, Turn32, Turn24, Turn16, Turn63;
    SumIs(q.a, q.b, s);
    SumIs(s, x, m.a);
    Turn32Is(q.d, m.a, m.d);
    SumIs(q.c, m.d, m.c);
    Turn24Is(q.b, m.c, m.b);
    SumIs(m.a, m.b, t);
    SumIs(t, y, r.a);
    Turn16Is(m.d, r.a, r.d);
    SumIs(m.c, r.d, r.c);
    Turn63Is(m.b, r.c, r.b);
  }

  /** A mixing whose words are all known, so that the solver computes it. */
  predicate Known(a: Word, b: Word, c: Word, d: Word, x: Word, y: Word, r: Four) {
    var s := Plus(a, b);
    var m := Middle(s, b, c, d, x);
    MixesTo(Four(a, b, c, d), x, y, s, m, Plus(m.a, m.b), r)
  }

  lemma KnownMix(a: Word, b: Word, c: Word, d: Word, x: Word, y: Word, r: Four)
    requires Known(a, b, c, d, x, y, r)
    ensures Mix(Four(a, b, c, d), x, y) == r
  {
    hide MixesTo, Middle, Mix, Plus;
    var s := Plus(a, b);
    var m := Middle(s, b, c, d, x);
    MixesToMix(Four(a, b, c, d), x, y, s, m, Plus(m.a, m.b), r);
  }

  // ---------------------------------------------------------------- one round

  type Fours = u: seq<Four> | |u| == 4 witness seq(4, _ => Four(0, 0, 0, 0))

  function Part(q: Four, i: nat): Word {
    match i
    case 0 => q.a
    case 1 => q.b
    case 2 => q.c
    case _ => q.d
  }

  /** The vector whose columns are the elements of `u` ... */
  function Columns(u: Fours): Vector {
    seq(16, k requires 0 <= k < 16 => Part(u[k % 4], k / 4))
  }

  /** ... and the one whose diagonals they are. */
  function Diagonals(u: Fours): Vector {
    seq(16, k requires 0 <= k < 16 => Part(u[(k + 4 - k / 4) % 4], k / 4))
  }

  /** Diagonal `d` of the vector with columns `u`. */
  function Slant(u: Fours, d: nat): Four
    requires d < 4
  {
    Four(u[d].a, u[(d + 1) % 4].b, u[(d + 2) % 4].c, u[(d + 3) % 4].d)
  }

  function Slants(u: Fours): (w: Fours)
    ensures w[0] == Slant(u, 0) && w[1] == Slant(u, 1) && w[2] == Slant(u, 2) && w[3] == Slant(u, 3)
  {
    hide Slant;
    seq(4, d requires 0 <= d < 4 => Slant(u, d))
  }

  lemma SlantPart(u: Fours, d: nat, r: nat)
    requires d < 4 && r < 4
    ensures Part(Slant(u, d), r) == Part(u[(d + r) % 4], r)
  {
  }

  lemma Turning(k: nat)
    requires k < 16
    ensures ((k + 4 - k / 4) % 4 + k / 4) % 4 == k % 4
  {
  }

  lemma WordAt(u: Fours, k: nat)
    requires k < 16
    ensures Columns(u)[k] == Part(u[k % 4], k / 4) && Diagonals(u)[k] == Part(u[(k + 4 - k / 4) % 4], k / 4)
  {
    hide Part;
  }

  lemma SlantedAt(u: Fours, w: Fours, k: nat)
    requires k < 16 && forall d: nat :: d < 4 ==> w[d] == Slant(u, d)
    ensures Columns(u)[k] == Diagonals(w)[k]
  {
    hide Part, Slant, Columns, Diagonals;
    Turning(k);
    SlantPart(u, (k + 4 - k / 4) % 4, k / 4);
    WordAt(u, k);
    WordAt(w, k);
  }

  lemma SlantedSame(u: Fours, w: Fours)
    requires w[0] == Slant(u, 0) && w[1] == Slant(u, 1) && w[2] == Slant(u, 2) && w[3] == Slant(u, 3)
    ensures Columns(u) == Diagonals(w)
  {
    hide Slant, Columns, Diagonals;
    forall k: nat | k < 16
      ensures Columns(u)[k] == Diagonals(w)[k]
    {
      SlantedAt(u, w, k);
    }
  }

  lemma ColumnOf(u: Fours, i: nat)
    requires i < 4
    ensures LANES[i] == (i, i + 4, i + 8, i + 12)
    ensures var v := Columns(u); Four(v[i], v[i + 4], v[i + 8], v[i + 12]) == u[i]
  {
  }

  lemma DiagonalLane(i: nat)
    requires i < 4
    ensures LANES[i + 4] == (i, 4 + (i + 1) % 4, 8 + (i + 2) % 4, 12 + (i + 3) % 4)
  {
  }

  lemma DiagonalAt(u: Fours, i: nat, r: nat)
    requires i < 4 && r < 4
    ensures Diagonals(u)[4 * r + (i + r) % 4] == Part(u[i], r)
  {
    hide Diagonals, Part;
    WordAt(u, 4 * r + (i + r) % 4);
    assert ((i + r) % 4 + 4 - r) % 4 == i;
  }

  lemma DiagonalOf(u: Fours, i: nat)
    requires i < 4
    ensures var v := Diagonals(u);
            Four(v[i], v[4 + (i + 1) % 4], v[8 + (i + 2) % 4], v[12 + (i + 3) % 4]) == u[i]
  {
    hide Diagonals;
    DiagonalAt(u, i, 0);
    DiagonalAt(u, i, 1);
    DiagonalAt(u, i, 2);
    DiagonalAt(u, i, 3);
  }

  lemma PutAt(v: Vector, a: nat, b: nat, c: nat, d: nat, q: Four, k: nat)
    requires a < b < c < d < 16 && k < 16
    ensures Put(v, a, b, c, d, q)[k] ==
            if k == a then q.a else if k == b then q.b else if k == c then q.c else if k == d then q.d else v[k]
  {
  }

  lemma PutColumn(u: Fours, i: nat, q: Four)
    requires i < 4
    ensures Put(Columns(u), i, i + 4, i + 8, i + 12, q) == Columns(u[i := q])
  {
    hide Put;
    var x := Put(Columns(u), i, i + 4, i + 8, i + 12, q);
    var y := Columns(u[i := q]);
    forall k: nat | k < 16
      ensures x[k] == y[k]
    {
      PutAt(Columns(u), i, i + 4, i + 8, i + 12, q, k);
    }
  }

  lemma PutDiagonal(u: Fours, i: nat, q: Four)
    requires i < 4
    ensures Put(Diagonals(u), i, 4 + (i + 1) % 4, 8 + (i + 2) % 4, 12 + (i + 3) % 4, q) == Diagonals(u[i := q])
  {
    hide Put, Diagonals, Part;
    var x := Put(Diagonals(u), i, 4 + (i + 1) % 4, 8 + (i + 2) % 4, 12 + (i + 3) % 4, q);
    var y := Diagonals(u[i := q]);
    forall k: nat | k < 16
      ensures x[k] == y[k]
    {
      DiagonalPutAt(u, i, q, k);
    }
  }

  lemma DiagonalPutAt(u: Fours, i: nat, q: Four, k: nat)
    requires i < 4 && k < 16
    ensures Put(Diagonals(u), i, 4 + (i + 1) % 4, 8 + (i + 2) % 4, 12 + (i + 3) % 4, q)[k] == Diagonals(u[i := q])[k]
  {
    hide Put, Diagonals;
    PutAt(Diagonals(u), i, 4 + (i + 1) % 4, 8 + (i + 2) % 4, 12 + (i + 3) % 4, q, k);
    WordAt(u, k);
    WordAt(u[i := q], k);
  }

  /** Mixing `i` of the round that uses row `row` takes `p` to `q`. */
  predicate Mixes(m: Vector, p: Four, q: Four, row: nat, i: nat)
    requires row < 10 && i < 8
  {
    SigmaInRange(row, 2 * i);
    SigmaInRange(row, 2 * i + 1);
    Mix(p, m[SIGMA[row][2 * i]], m[SIGMA[row][2 * i + 1]]) == q
  }

  lemma OneMixing(m: Vector, v: Vector, x: Vector, q: Four, r: Four, row: nat, i: nat)
    requires row < 10 && i < 8 && HalfRound(v, m, row, i) == x && Mixes(m, q, r, row, i)
    requires Lane(LANES[i]) && Four(x[LANES[i].0], x[LANES[i].1], x[LANES[i].2], x[LANES[i].3]) == q
    ensures HalfRound(v, m, row, i + 1) == Put(x, LANES[i].0, LANES[i].1, LANES[i].2, LANES[i].3, r)
  {
    hide Mix, Put, LANES, SIGMA, Lane;
  }

  lemma ColumnStep(m: Vector, v: Vector, u: Fours, q: Four, row: nat, i: nat)
    requires row < 10 && i < 4 && HalfRound(v, m, row, i) == Columns(u) && Mixes(m, u[i], q, row, i)
    ensures HalfRound(v, m, row, i + 1) == Columns(u[i := q])
  {
    hide Mixes, Put, HalfRound, Columns, LANES;
    ColumnOf(u, i);
    OneMixing(m, v, Columns(u), u[i], q, row, i);
    PutColumn(u, i, q);
  }

  lemma DiagonalStep(m: Vector, v: Vector, u: Fours, q: Four, row: nat, i: nat)
    requires row < 10 && i < 4 && HalfRound(v, m, row, i + 4) == Diagonals(u) && Mixes(m, u[i], q, row, i + 4)
    ensures HalfRound(v, m, row, i + 5) == Diagonals(u[i := q])
  {
    hide Mixes, Put, HalfRound, Diagonals, LANES;
    DiagonalLane(i);
    DiagonalOf(u, i);
    OneMixing(m, v, Diagonals(u), u[i], q, row, i + 4);
    PutDiagonal(u, i, q);
  }

  /** The columns of a round take the columns `u` to `w` ... */
  lemma ColumnsOf(m: Vector, v: Vector, u: Fours, w: Fours, row: nat)
    requires row < 10 && HalfRound(v, m, row, 0) == Columns(u)
    requires Mixes(m, u[0], w[0], row, 0) && Mixes(m, u[1], w[1], row, 1)
    requires Mixes(m, u[2], w[2], row, 2) && Mixes(m, u[3], w[3], row, 3)
    ensures HalfRound(v, m, row, 4) == Columns(w)
  {
    hide Mixes, HalfRound, Columns;
    var a := u[0 := w[0]];
    var b := a[1 := w[1]];
    var c := b[2 := w[2]];
    ColumnStep(m, v, u, w[0], row, 0);
    ColumnStep(m, v, a, w[1], row, 1);
    ColumnStep(m, v, b, w[2], row, 2);
    ColumnStep(m, v, c, w[3], row, 3);
    assert c[3 := w[3]] == w;
  }

  /** ... and then the diagonals `x` to `y`. */
  lemma DiagonalsOf(m: Vector, v: Vector, x: Fours, y: Fours, row: nat)
    requires row < 10 && HalfRound(v, m, row, 4) == Diagonals(x)
    requires Mixes(m, x[0], y[0], row, 4) && Mixes(m, x[1], y[1], row, 5)
    requires Mixes(m, x[2], y[2], row, 6) && Mixes(m, x[3], y[3], row, 7)
    ensures HalfRound(v, m, row, 8) == Diagonals(y)
  {
    hide Mixes, HalfRound, Diagonals;
    var a := x[0 := y[0]];
    var b := a[1 := y[1]];
    var c := b[2 := y[2]];
    DiagonalStep(m, v, x, y[0], row, 0);
    DiagonalStep(m, v, a, y[1], row, 1);
    DiagonalStep(m, v, b, y[2], row, 2);
    DiagonalStep(m, v, c, y[3], row, 3);
    assert c[3 := y[3]] == y;
  }

  /** A round on a vector with columns `u`, whose columns are then `w` and at last `z`. */
  lemma RoundOf(m: Vector, u: Fours, w: Fours, z: Fours, row: nat)
    requires row < 10
    requires Mixes(m, u[0], w[0], row, 0) && Mixes(m, u[1], w[1], row, 1)
    requires Mixes(m, u[2], w[2], row, 2) && Mixes(m, u[3], w[3], row, 3)
    requires Mixes(m, Slant(w, 0), Slant(z, 0), row, 4) && Mixes(m, Slant(w, 1), Slant(z, 1), row, 5)
    requires Mixes(m, Slant(w, 2), Slant(z, 2), row, 6) && Mixes(m, Slant(w, 3), Slant(z, 3), row, 7)
    ensures HalfRound(Columns(u), m, row, 8) == Columns(z)
  {
    NoMixing(m, Columns(u), row);
    hide Mixes, HalfRound, Columns, Diagonals, Slant;
    var v := Columns(u);
    ColumnsOf(m, v, u, w, row);
    SlantedSame(w, Slants(w));
    DiagonalsOf(m, v, Slants(w), Slants(z), row);
    SlantedSame(z, Slants(z));
  }

  lemma NoMixing(m: Vector, v: Vector, row: nat)
    requires row < 10
    ensures HalfRound(v, m, row, 0) == v
  {
  }

  /** A mixing of known words. */
  lemma MixedWith(m: Vector, row: nat, i: nat, a: Word, b: Word, c: Word, d: Word, x: Word, y: Word, r: Four)
    requires row < 10 && i < 8 && Adds(m, row, 2 * i, x) && Adds(m, row, 2 * i + 1, y)
    requires Known(a, b, c, d, x, y, r)
    ensures Mixes(m, Four(a, b, c, d), r, row, i)
  {
    hide Known, Mix, SIGMA;
    KnownMix(a, b, c, d, x, y, r);
  }

  /** `x` is the word of `m` that stands at place `k` of row `row`. */
  predicate Adds(m: Vector, row: nat, k: nat, x: Word)
    requires row < 10 && k < 16
  {
    SigmaInRange(row, k);
    m[SIGMA[row][k]] == x
  }

  // ---------------------------------------------------------------- the message "abc"

  /** The words of the padded message. */
  const MESSAGE: Vector := [0x636261, 0, 0, 0, 0, 0, 0, 0, 0, 0, 0, 0, 0, 0, 0, 0]

  /** Where the first word of the message, the only one that is not 0, comes in row `row`. */
  const FIRST: seq<nat> := [0, 10, 3, 13, 1, 4, 8, 9, 6, 15]

  lemma FirstAt(row: nat, k: nat)
    requires row < 10 && k < 16
    ensures |SIGMA| == 10 && |SIGMA[row]| == 16 && (SIGMA[row][k] == 0 <==> k == FIRST[row])
  {
    assert k == 0 || k == 1 || k == 2 || k == 3 || k == 4 || k == 5 || k == 6 || k == 7 ||
           k == 8 || k == 9 || k == 10 || k == 11 || k == 12 || k == 13 || k == 14 || k == 15;
  }

  lemma MessageAt(j: nat)
    requires j < 16
    ensures MESSAGE[j] == if j == 0 then 0x636261 else 0
  {
  }

  /** The word that stands at place `k` of row `row`. */
  function Added(row: nat, k: nat): Word
    requires row < 10
  {
    if k == FIRST[row] then 0x636261 else 0
  }

  lemma AddedIsMessage(row: nat, k: nat)
    requires row < 10 && k < 16
    ensures Adds(MESSAGE, row, k, Added(row, k))
  {
    hide SIGMA, MESSAGE, FIRST;
    SigmaInRange(row, k);
    FirstAt(row, k);
    MessageAt(SIGMA[row][k]);
  }

  /** A mixing of the trace. */
  lemma Mixed(row: nat, i: nat, a: Word, b: Word, c: Word, d: Word, x: Word, y: Word, r: Four)
    requires row < 10 && i < 8 && x == Added(row, 2 * i) && y == Added(row, 2 * i + 1)
    requires Known(a, b, c, d, x, y, r)
    ensures Mixes(MESSAGE, Four(a, b, c, d), r, row, i)
  {
    hide Known, Adds, MESSAGE, FIRST, Added, Mixes;
    AddedIsMessage(row, 2 * i);
    AddedIsMessage(row, 2 * i + 1);
    MixedWith(MESSAGE, row, i, a, b, c, d, x, y, r);
  }

  // ---------------------------------------------------------------- the trace

  const V0: Fours := [
    Four(0x6a09e667f2bdc948, 0x510e527fade682d1, 0x6a09e667f3bcc908, 0x510e527fade682d2),
    Four(0xbb67ae8584caa73b, 0x9b05688c2b3e6c1f, 0xbb67ae8584caa73b, 0x9b05688c2b3e6c1f),
    Four(0x3c6ef372fe94f82b, 0x1f83d9abfb41bd6b, 0x3c6ef372fe94f82b, 0xe07c265404be4294),
    Four(0xa54ff53a5f1d36f1, 0x5be0cd19137e2179, 0xa54ff53a5f1d36f1, 0x5be0cd19137e2179)]

  const V1: Fours := [
    Four(0x86b7c1568029bb79, 0x44ee6039bd86a9f7, 0xbec3ae837eac4887, 0xe02d0975b8d37a83),
    Four(0xc12cbcc809ff59f3, 0xa447c850aa694a7e, 0x6267fc79df9d6ad1, 0x1c7b754f08b7d193),
    Four(0xc6a5214cc0eaca8e, 0xde080f1bb1c0f84b, 0xfa87b01273fa6dbe, 0x8f885a76b6e578fe),
    Four(0x0c87cd524c14cc5d, 0x595cb8a9a1aca66c, 0x521a715c63e08d8a, 0x2318a24e2140fc64)]

  const V2: Fours := [
    Four(0x53281e83806010f2, 0xbaabdbb2f386d9ae, 0x224e6a3369224f96, 0x92a3aaaa6d952b7f),
    Four(0x3594b403f81b4393, 0xca5425aec65a10a8, 0x500e125e58a92923, 0xc5fdf71090fae853),
    Four(0x8cd63c7462de0dff, 0xc6a22e2ff0f7aa48, 0xe9e4ad0d0e1a0d48, 0x2a8a40f15a462dd0),
    Four(0x85f693f3da53f974, 0xc6a56a51cb89c595, 0x85df9dc143c59a74, 0x572d17effdd37358)]

  const V3: Fours := [
    Four(0x60ed96aa7ad41725, 0xda0a61bcde4267ea, 0xa1677e19f37fd5da, 0xc804ebab11c99fa9),
    Four(0xe46a743c71800b9d, 0xb1dd230754d7bdee, 0x22bdce6976b08c51, 0x8e0cec959c715793),
    Four(0x1a04b543a01f156b, 0x25a1422779e06d14, 0xf1de8696bec11bf1, 0x7c45557fae0d4d89),
    Four(0xa2f8716e775c4877, 0xe6823ae4c3ff58a5, 0xa0ebd586a4a1d2c8, 0x716343f52fdd265e)]

  const V4: Fours := [
    Four(0xbb2a77d3a8382351, 0x8a03c4cb7e97590a, 0xa9c9a8f17b1fc614, 0x086092cfb858437e),
    Four(0x45eb47971f23b103, 0x24192e49ebf54ea0, 0x55908187977514a0, 0x5c4be2156dbeecf9),
    Four(0x98be297f6e45c684, 0x4f82c9401cb32d7a, 0x5b44273e66b19d27, 0x2efede99ed4eff16),
    Four(0xa36077dee3370b89, 0x8ccd013726420dc4, 0xb6d5c9fca2579327, 0x3e7b5f234cd1f804)]

  const V5: Fours := [
    Four(0xc79c15b3d423b099, 0x0f6d9eeed157da2a, 0xb2240b59e6d567d3, 0xb97d2d439e4df63d),
    Four(0x2da2224e8da97556, 0x6fe66467af88c0a9, 0x2643c2370e49ebfd, 0xc718e755294c9111),
    Four(0x77d2b26df1c45c55, 0x4eb0b76284c7aafb, 0x79e02eef20cdb1ae, 0x1f0893f2772bb373),
    Four(0x8934eb09a3456052, 0x299c8e725d954697, 0x64b3eed7bb602f39, 0x1205ea4a7859807d)]

  const V6: Fours := [
    Four(0xe58f97d6385baee4, 0x7127cd48c76a7708, 0x41cca9073c8c4d0d, 0x8733794f07ac1500),
    Four(0x7640aa9764da137a, 0x9e472af0be3db3f6, 0x5c7912bc10df3b4b, 0xc67a6be42335aa6f),
    Four(0xdeb4c7c23efe287e, 0x0f244c62ddf71788, 0xa2c3abbd37510ee2, 0xacb22b28681e4c82),
    Four(0x70f6f41c8783c9f6, 0x219828aa83880842, 0xcb5668cc2a9f7859, 0xdb2161604cbc9828)]

  const V7: Fours := [
    Four(0x6e2d286eeadedc81, 0x819415b56220c459, 0x04d769b3fcb048db, 0x92aac307cf2c0afc),
    Four(0xbcf02c0787e86358, 0xb63c479a6a769f02, 0xb78a9a33e9bff4dd, 0x30aaccc4f06dafaa),
    Four(0x57d56a56dd015edf, 0x258e55e0ec1f362a, 0x5777272ae1e930c0, 0x483893cc094f8863),
    Four(0x55d899d40a5d0d0a, 0x3a3b4ec60e19dfdc, 0x5a387849e578dbf6, 0xe03c6cc89c26bf92)]

  const V8: Fours := [
    Four(0xffc83ece76024d01, 0x81937da314a50838, 0xa3c2d35e4f685c10, 0x3841def6f4c9848a),
    Four(0x1be7bffb8c5cc5f9, 0xe1179523a2541963, 0xa53d3f73aa619624, 0x98662c85fba726d4),
    Four(0xa35a18cbac4c65b7, 0x3a1fad7106232b8f, 0x30bbcc0285a22f65, 0x7762439bd5a851bd),
    Four(0xb7c2c7e6d88c285f, 0x1c7ede92ab8b9c46, 0xbcefbb6a81539e5d, 0xb0b9f0d443d1a889)]

  const V9: Fours := [
    Four(0x753a70a1e8faeadd, 0x58540ee1b1aebc47, 0x316cc9ebeefad8fc, 0x88ed6c4f3bd7a537),
    Four(0x6b0d43ca2c25d629, 0x63c5b9b80d294cb9, 0x4a466bcd021526a4, 0x19ae688ddf67f026),
    Four(0xf8343ba8b94f8c0b, 0x490870ecad27debd, 0x5da7f7638cec5669, 0x4d8707aab40f7e6d),
    Four(0xbc7d062b0db5cf35, 0xb2a90ddf667287fe, 0xd9c8826727d306fc, 0xfd3f572687fea4f1)]

  const V10: Fours := [
    Four(0xe630c747ccd59c4f, 0x2d04185eac2a8cba, 0x6dd4fbc1de60165d, 0x2c6b25593d717852),
    Four(0xbc713d41127571ca, 0x5f311b88904056ec, 0xb3b0b51de3c86270, 0x37e8ca471beaa5f8),
    Four(0x46db183025025078, 0x40bd313009201aab, 0x900aee2f233b08e5, 0x2cfc1bac10ef4457),
    Four(0x6727e81260610140, 0x0099d4f82a2a1eab, 0xa07199d87ad058d8, 0x01369ec18746e775)]

  const V11: Fours := [
    Four(0xe801f73b9768c760, 0xf4f1be86690b3c34, 0x35ba354a9c7df448, 0x61b5c0a41d491399),
    Four(0x35c6d22320be511d, 0x3cc88735d1475e4b, 0x4929cbe45679d73e, 0xb5c333457e12844a),
    Four(0x306f27584f65495e, 0x5dac67921ff76949, 0x733d1a17248f39db, 0xbd696be010d0d889),
    Four(0xb51776adf569a77b, 0x1cdb9d31ad70cc4e, 0x92d57b736f5f170a, 0x02231e1a917fe0bd)]

  const V12: Fours := [
    Four(0x12ef8a641ec4f6d6, 0xf42c16519ad5afa7, 0x75ab709bd3dcbf24, 0x885bef040ef6aa0b),
    Four(0xbced5de977c9faf5, 0xaa5ac1888e10467e, 0xee7ce1f345947aa4, 0xa4939a417bfb78a3),
    Four(0x733ca476c5148639, 0x217d930aa51787f3, 0xf8960d6c2faf5f5e, 0x646cbb7af6dce980),
    Four(0x97df596b0610f6fc, 0x906a6ff19e573942, 0xe332538a36b6d246, 0xe813a23c60af3b82)]

  const W1: Fours := [
    Four(0xf0c9aa0f86491dea, 0xb7defc3d0277e11f, 0xee5e0f39647a9fff, 0x7772fc2886a76c5f),
    Four(0x63b7dedf4a4e5ad3, 0xed49c30cd311d50e, 0x7bee264bf3cdadfe, 0x254ef880a19a8726),
    Four(0xbe50eb454e0a93d7, 0xa056671704b00d71, 0xb2752dadd66bd8f9, 0x789d43381c47f584),
    Four(0x949804b0483ead14, 0x75e6432fc4661b06, 0xa99463cb37905929, 0xa25ef57d7da312ee)]

  const W2: Fours := [
    Four(0x7d7ebc91065eb487, 0xa2a2bb290a6fa0ac, 0xe089c6944d999f41, 0x9c62f81da3622dd5),
    Four(0x2985dbd3b522b163, 0x48daa2180cca574f, 0x607c07b706df2755, 0x4134955aae31cc2d),
    Four(0x83dcc7c95110e507, 0x25804d5986d6e07f, 0x4defb1cc1d0e5211, 0x8f1947927dee7a35),
    Four(0xd5f7d943ae7a12d4, 0x47dc958f84e67b9c, 0x53fd198002cb9dc5, 0x3561197657eee886)]

  const W3: Fours := [
    Four(0x224d9730ddde8c9b, 0x1161e9566cec8636, 0x1cc968515f81e2e0, 0xdc073c3e56ef42ae),
    Four(0xe430476788c41ef0, 0x956fe864884ac584, 0xaef099868dce0a96, 0x3052cabffb0fb2d1),
    Four(0x4f163fda2e4243bf, 0x4dfeb83fd06a086b, 0x5d62892a32598f4d, 0x69ea4685aa4d57b0),
    Four(0x41dd8960f0de029d, 0x78c811fddf5c5824, 0xc92583e5a4ae6f86, 0xeb3719d34531eb68)]

  const W4: Fours := [
    Four(0x6b864497a655fb47, 0xc4b99c558f3684e9, 0xd2d2821a8aa43e4c, 0xe88b2359a43154a6),
    Four(0xc1fd6110ffa75065, 0x065b83216e96ed93, 0xa898085d8e04f013, 0x2bb39bdbff08e7ec),
    Four(0x817908f78a142cfa, 0xf2d93929736e5b04, 0x38bf8d18c9a387f9, 0x8eee368bc701c9f4),
    Four(0xce1577a72bc1ce7b, 0x2795f81cfb8f7633, 0xd750375d8da19646, 0x21ddda93f0e5d3d8)]

  const W5: Fours := [
    Four(0x3e5bab618a5fbc72, 0x475dcc427f3fcd87, 0x5a8388e35cb33b75, 0x1222a0cc9444c711),
    Four(0x9be6aa793ad3a7c9, 0xbb2d4d7552ba222d, 0xec74922286e7b930, 0x303dfd40b9230c9c),
    Four(0xc5252a4d03f65b2f, 0xcdcfc26e59d1d349, 0x3a03d6ba54158e95, 0x7709a29326a5c548),
    Four(0x1fe21186bd238be3, 0x8bc33bc025ae3c8e, 0xaa550590a17d6cd1, 0xadd65a4af0cfb375)]

  const W6: Fours := [
    Four(0xf4e55384dc924147, 0xb7b58d9367a4043d, 0xc601582b84c4b49a, 0xd8a6cfd32f7ab2e6),
    Four(0xf015d00b613578c6, 0x02ca058bf3799684, 0x53e84b90ddbf8985, 0x1925e46b74e53ba5),
    Four(0x648495058cae3d2f, 0xb9668b8ebf3fa717, 0x42b26ef24a2100f5, 0xc70d65404fc75525),
    Four(0x54567270ac75c4ea, 0x292f756a3507a223, 0x35134241b118cf10, 0x57dc2cd554e40ca1)]

  const W7: Fours := [
    Four(0xd0d5bb6a10dae2b5, 0x860aa9f111072cea, 0x391b02b399972abc, 0xfee428bf8b86c15e),
    Four(0xf5d2174aff6cf2cd, 0x90ee681d04ce182a, 0xa93d75cc5e322748, 0x4ca1f5f07a552d91),
    Four(0x39337b3da7e963ab, 0x7e1ec202f5042fa8, 0x74550619f0763471, 0x5ca64dd877b9e682),
    Four(0x588d5ef9a0a6492f, 0x04d72048395b53ff, 0x4795d2168937df08, 0x34881f3a14e9e908)]

  const W8: Fours := [
    Four(0x2c42e52d8c060ff2, 0x8ffac8c5ec5cb0e6, 0x7b7cc36bc928376b, 0xf2d1af914f0bf16d),
    Four(0xa357b3b1736ec0a1, 0x1355530d9510b6da, 0x3981e9894b87e52a, 0x7fc4a1651e4130e8),
    Four(0xd916516a31320b04, 0x56af9e7816abf9be, 0x70e55e0e63448924, 0x58ff19794c000469),
    Four(0x41d37d7ecbfc6541, 0x1c460b4a606cc880, 0xbf9c914183b31c1b, 0xe113c5832e0abbd3)]

  const W9: Fours := [
    Four(0xa9126c152d800655, 0x4165a65ac9e3c45b, 0x87047c8ec6295331, 0x64d2d77cbda6949a),
    Four(0xac1632ba715ebf08, 0xdfe2d8cd3101f453, 0x40e7b1fdda2d2585, 0xc6927901cb3215c7),
    Four(0x7c1849df4e91206f, 0x41aa56fe49862d7f, 0x3e4ba8ddb8e29996, 0xa5c81bdf8924e48a),
    Four(0x94aaf312690f9253, 0x13e3a2c50cfad099, 0x49989dfa62e90301, 0xc4fe53007c9d0df7)]

  const W10: Fours := [
    Four(0xc0df0f0e596ec5a9, 0xb4014455ff7c2ca0, 0xa9502da0417b08d5, 0xd66561a10d1d1c0d),
    Four(0x87ca07d5e3d64cb6, 0x65bf544e084bb313, 0x0a28a074aea2f05d, 0xd9b961e2d51134aa),
    Four(0xd11bc20e8ef44efc, 0x3478342ab05ecf87, 0x15e30f6c705383f7, 0xe5c30363d6ab824f),
    Four(0x0df3ea89aaa44e12, 0x88274463ca98e874, 0xdade744ed33782e5, 0x0d3efe25194b38bd)]

  const W11: Fours := [
    Four(0xfdd2c6435d5a301b, 0x2ca29c4d619bafa1, 0x7ccca8ba533b7361, 0xcae4b9c0357b6205),
    Four(0x6e446afbc3efad36, 0xfcd5d76a6de20047, 0xacc8f98717c8e4a3, 0x3fb8d71b07b5efa5),
    Four(0x46d963ee934efeea, 0x8b7f1e6cfc2a0039, 0x7afe95b81b3993db, 0xac2678144c9a382a),
    Four(0x5523c5b930d1aeb6, 0xadbdc7977150b805, 0x3bbceb651eeed2c9, 0x8d7d58ee3d275626)]

  const W12: Fours := [
    Four(0xac495068076fe1c4, 0x5198d8d539a3fbce, 0xe799f6cc9a2a23d7, 0x94a2b1744065ba29),
    Four(0xf3ae6a427a75e234, 0xb8eacc53aead98b1, 0x5d6a76c05f26fe94, 0x88297fb94160bd39),
    Four(0x83933b99d54089ee, 0x55b2599798b3a4a1, 0x5fae8064a9ba0517, 0x6ce4fc1f51b7e632),
    Four(0x31db95ba436e4db7, 0xb20b2179d2dcd8c6, 0x06ed116649fdb58d, 0x4072027e06ce90be)]

  lemma Round1()
    ensures HalfRound(Columns(V0), MESSAGE, 0, 8) == Columns(V1)
  {
    hide HalfRound, Columns, Mixes;
    Mixed(0, 0, 0x6a09e667f2bdc948, 0x510e527fade682d1, 0x6a09e667f3bcc908, 0x510e527fade682d2, 0x636261, 0,
      Four(0xf0c9aa0f86491dea, 0xb7defc3d0277e11f, 0xee5e0f39647a9fff, 0x7772fc2886a76c5f));
    Mixed(0, 1, 0xbb67ae8584caa73b, 0x9b05688c2b3e6c1f, 0xbb67ae8584caa73b, 0x9b05688c2b3e6c1f, 0, 0,
      Four(0x63b7dedf4a4e5ad3, 0xed49c30cd311d50e, 0x7bee264bf3cdadfe, 0x254ef880a19a8726));
    Mixed(0, 2, 0x3c6ef372fe94f82b, 0x1f83d9abfb41bd6b, 0x3c6ef372fe94f82b, 0xe07c265404be4294, 0, 0,
      Four(0xbe50eb454e0a93d7, 0xa056671704b00d71, 0xb2752dadd66bd8f9, 0x789d43381c47f584));
    Mixed(0, 3, 0xa54ff53a5f1d36f1, 0x5be0cd19137e2179, 0xa54ff53a5f1d36f1, 0x5be0cd19137e2179, 0, 0,
      Four(0x949804b0483ead14, 0x75e6432fc4661b06, 0xa99463cb37905929, 0xa25ef57d7da312ee));
    Mixed(0, 4, 0xf0c9aa0f86491dea, 0xed49c30cd311d50e, 0xb2752dadd66bd8f9, 0xa25ef57d7da312ee, 0, 0,
      Four(0x86b7c1568029bb79, 0xa447c850aa694a7e, 0xfa87b01273fa6dbe, 0x2318a24e2140fc64));
    Mixed(0, 5, 0x63b7dedf4a4e5ad3, 0xa056671704b00d71, 0xa99463cb37905929, 0x7772fc2886a76c5f, 0, 0,
      Four(0xc12cbcc809ff59f3, 0xde080f1bb1c0f84b, 0x521a715c63e08d8a, 0xe02d0975b8d37a83));
    Mixed(0, 6, 0xbe50eb454e0a93d7, 0x75e6432fc4661b06, 0xee5e0f39647a9fff, 0x254ef880a19a8726, 0, 0,
      Four(0xc6a5214cc0eaca8e, 0x595cb8a9a1aca66c, 0xbec3ae837eac4887, 0x1c7b754f08b7d193));
    Mixed(0, 7, 0x949804b0483ead14, 0xb7defc3d0277e11f, 0x7bee264bf3cdadfe, 0x789d43381c47f584, 0, 0,
      Four(0x0c87cd524c14cc5d, 0x44ee6039bd86a9f7, 0x6267fc79df9d6ad1, 0x8f885a76b6e578fe));
    RoundOf(MESSAGE, V0, W1, V1, 0);
  }

  lemma Round2()
    ensures HalfRound(Columns(V1), MESSAGE, 1, 8) == Columns(V2)
  {
    hide HalfRound, Columns, Mixes;
    Mixed(1, 0, 0x86b7c1568029bb79, 0x44ee6039bd86a9f7, 0xbec3ae837eac4887, 0xe02d0975b8d37a83, 0, 0,
      Four(0x7d7ebc91065eb487, 0xa2a2bb290a6fa0ac, 0xe089c6944d999f41, 0x9c62f81da3622dd5));
    Mixed(1, 1, 0xc12cbcc809ff59f3, 0xa447c850aa694a7e, 0x6267fc79df9d6ad1, 0x1c7b754f08b7d193, 0, 0,
      Four(0x2985dbd3b522b163, 0x48daa2180cca574f, 0x607c07b706df2755, 0x4134955aae31cc2d));
    Mixed(1, 2, 0xc6a5214cc0eaca8e, 0xde080f1bb1c0f84b, 0xfa87b01273fa6dbe, 0x8f885a76b6e578fe, 0, 0,
      Four(0x83dcc7c95110e507, 0x25804d5986d6e07f, 0x4defb1cc1d0e5211, 0x8f1947927dee7a35));
    Mixed(1, 3, 0x0c87cd524c14cc5d, 0x595cb8a9a1aca66c, 0x521a715c63e08d8a, 0x2318a24e2140fc64, 0, 0,
      Four(0xd5f7d943ae7a12d4, 0x47dc958f84e67b9c, 0x53fd198002cb9dc5, 0x3561197657eee886));
    Mixed(1, 4, 0x7d7ebc91065eb487, 0x48daa2180cca574f, 0x4defb1cc1d0e5211, 0x3561197657eee886, 0, 0,
      Four(0x53281e83806010f2, 0xca5425aec65a10a8, 0xe9e4ad0d0e1a0d48, 0x572d17effdd37358));
    Mixed(1, 5, 0x2985dbd3b522b163, 0x25804d5986d6e07f, 0x53fd198002cb9dc5, 0x9c62f81da3622dd5, 0x636261, 0,
      Four(0x3594b403f81b4393, 0xc6a22e2ff0f7aa48, 0x85df9dc143c59a74, 0x92a3aaaa6d952b7f));
    Mixed(1, 6, 0x83dcc7c95110e507, 0x47dc958f84e67b9c, 0xe089c6944d999f41, 0x4134955aae31cc2d, 0, 0,
      Four(0x8cd63c7462de0dff, 0xc6a56a51cb89c595, 0x224e6a3369224f96, 0xc5fdf71090fae853));
    Mixed(1, 7, 0xd5f7d943ae7a12d4, 0xa2a2bb290a6fa0ac, 0x607c07b706df2755, 0x8f1947927dee7a35, 0, 0,
      Four(0x85f693f3da53f974, 0xbaabdbb2f386d9ae, 0x500e125e58a92923, 0x2a8a40f15a462dd0));
    RoundOf(MESSAGE, V1, W2, V2, 1);
  }

  lemma Round3()
    ensures HalfRound(Columns(V2), MESSAGE, 2, 8) == Columns(V3)
  {
    hide HalfRound, Columns, Mixes;
    Mixed(2, 0, 0x53281e83806010f2, 0xbaabdbb2f386d9ae, 0x224e6a3369224f96, 0x92a3aaaa6d952b7f, 0, 0,
      Four(0x224d9730ddde8c9b, 0x1161e9566cec8636, 0x1cc968515f81e2e0, 0xdc073c3e56ef42ae));
    Mixed(2, 1, 0x3594b403f81b4393, 0xca5425aec65a10a8, 0x500e125e58a92923, 0xc5fdf71090fae853, 0, 0x636261,
      Four(0xe430476788c41ef0, 0x956fe864884ac584, 0xaef099868dce0a96, 0x3052cabffb0fb2d1));
    Mixed(2, 2, 0x8cd63c7462de0dff, 0xc6a22e2ff0f7aa48, 0xe9e4ad0d0e1a0d48, 0x2a8a40f15a462dd0, 0, 0,
      Four(0x4f163fda2e4243bf, 0x4dfeb83fd06a086b, 0x5d62892a32598f4d, 0x69ea4685aa4d57b0));
    Mixed(2, 3, 0x85f693f3da53f974, 0xc6a56a51cb89c595, 0x85df9dc143c59a74, 0x572d17effdd37358, 0, 0,
      Four(0x41dd8960f0de029d, 0x78c811fddf5c5824, 0xc92583e5a4ae6f86, 0xeb3719d34531eb68));
    Mixed(2, 4, 0x224d9730ddde8c9b, 0x956fe864884ac584, 0x5d62892a32598f4d, 0xeb3719d34531eb68, 0, 0,
      Four(0x60ed96aa7ad41725, 0xb1dd230754d7bdee, 0xf1de8696bec11bf1, 0x716343f52fdd265e));
    Mixed(2, 5, 0xe430476788c41ef0, 0x4dfeb83fd06a086b, 0xc92583e5a4ae6f86, 0xdc073c3e56ef42ae, 0, 0,
      Four(0xe46a743c71800b9d, 0x25a1422779e06d14, 0xa0ebd586a4a1d2c8, 0xc804ebab11c99fa9));
    Mixed(2, 6, 0x4f163fda2e4243bf, 0x78c811fddf5c5824, 0x1cc968515f81e2e0, 0x3052cabffb0fb2d1, 0, 0,
      Four(0x1a04b543a01f156b, 0xe6823ae4c3ff58a5, 0xa1677e19f37fd5da, 0x8e0cec959c715793));
    Mixed(2, 7, 0x41dd8960f0de029d, 0x1161e9566cec8636, 0xaef099868dce0a96, 0x69ea4685aa4d57b0, 0, 0,
      Four(0xa2f8716e775c4877, 0xda0a61bcde4267ea, 0x22bdce6976b08c51, 0x7c45557fae0d4d89));
    RoundOf(MESSAGE, V2, W3, V3, 2);
  }

  lemma Round4()
    ensures HalfRound(Columns(V3), MESSAGE, 3, 8) == Columns(V4)
  {
    hide HalfRound, Columns, Mixes;
    Mixed(3, 0, 0x60ed96aa7ad41725, 0xda0a61bcde4267ea, 0xa1677e19f37fd5da, 0xc804ebab11c99fa9, 0, 0,
      Four(0x6b864497a655fb47, 0xc4b99c558f3684e9, 0xd2d2821a8aa43e4c, 0xe88b2359a43154a6));
    Mixed(3, 1, 0xe46a743c71800b9d, 0xb1dd230754d7bdee, 0x22bdce6976b08c51, 0x8e0cec959c715793, 0, 0,
      Four(0xc1fd6110ffa75065, 0x065b83216e96ed93, 0xa898085d8e04f013, 0x2bb39bdbff08e7ec));
    Mixed(3, 2, 0x1a04b543a01f156b, 0x25a1422779e06d14, 0xf1de8696bec11bf1, 0x7c45557fae0d4d89, 0, 0,
      Four(0x817908f78a142cfa, 0xf2d93929736e5b04, 0x38bf8d18c9a387f9, 0x8eee368bc701c9f4));
    Mixed(3, 3, 0xa2f8716e775c4877, 0xe6823ae4c3ff58a5, 0xa0ebd586a4a1d2c8, 0x716343f52fdd265e, 0, 0,
      Four(0xce1577a72bc1ce7b, 0x2795f81cfb8f7633, 0xd750375d8da19646, 0x21ddda93f0e5d3d8));
    Mixed(3, 4, 0x6b864497a655fb47, 0x065b83216e96ed93, 0x38bf8d18c9a387f9, 0x21ddda93f0e5d3d8, 0, 0,
      Four(0xbb2a77d3a8382351, 0x24192e49ebf54ea0, 0x5b44273e66b19d27, 0x3e7b5f234cd1f804));
    Mixed(3, 5, 0xc1fd6110ffa75065, 0xf2d93929736e5b04, 0xd750375d8da19646, 0xe88b2359a43154a6, 0, 0,
      Four(0x45eb47971f23b103, 0x4f82c9401cb32d7a, 0xb6d5c9fca2579327, 0x086092cfb858437e));
    Mixed(3, 6, 0x817908f78a142cfa, 0x2795f81cfb8f7633, 0xd2d2821a8aa43e4c, 0x2bb39bdbff08e7ec, 0, 0x636261,
      Four(0x98be297f6e45c684, 0x8ccd013726420dc4, 0xa9c9a8f17b1fc614, 0x5c4be2156dbeecf9));
    Mixed(3, 7, 0xce1577a72bc1ce7b, 0xc4b99c558f3684e9, 0xa898085d8e04f013, 0x8eee368bc701c9f4, 0, 0,
      Four(0xa36077dee3370b89, 0x8a03c4cb7e97590a, 0x55908187977514a0, 0x2efede99ed4eff16));
    RoundOf(MESSAGE, V3, W4, V4, 3);
  }

  lemma Round5()
    ensures HalfRound(Columns(V4), MESSAGE, 4, 8) == Columns(V5)
  {
    hide HalfRound, Columns, Mixes;
    Mixed(4, 0, 0xbb2a77d3a8382351, 0x8a03c4cb7e97590a, 0xa9c9a8f17b1fc614, 0x086092cfb858437e, 0, 0x636261,
      Four(0x3e5bab618a5fbc72, 0x475dcc427f3fcd87, 0x5a8388e35cb33b75, 0x1222a0cc9444c711));
    Mixed(4, 1, 0x45eb47971f23b103, 0x24192e49ebf54ea0, 0x55908187977514a0, 0x5c4be2156dbeecf9, 0, 0,
      Four(0x9be6aa793ad3a7c9, 0xbb2d4d7552ba222d, 0xec74922286e7b930, 0x303dfd40b9230c9c));
    Mixed(4, 2, 0x98be297f6e45c684, 0x4f82c9401cb32d7a, 0x5b44273e66b19d27, 0x2efede99ed4eff16, 0, 0,
      Four(0xc5252a4d03f65b2f, 0xcdcfc26e59d1d349, 0x3a03d6ba54158e95, 0x7709a29326a5c548));
    Mixed(4, 3, 0xa36077dee3370b89, 0x8ccd013726420dc4, 0xb6d5c9fca2579327, 0x3e7b5f234cd1f804, 0, 0,
      Four(0x1fe21186bd238be3, 0x8bc33bc025ae3c8e, 0xaa550590a17d6cd1, 0xadd65a4af0cfb375));
    Mixed(4, 4, 0x3e5bab618a5fbc72, 0xbb2d4d7552ba222d, 0x3a03d6ba54158e95, 0xadd65a4af0cfb375, 0, 0,
      Four(0xc79c15b3d423b099, 0x6fe66467af88c0a9, 0x79e02eef20cdb1ae, 0x1205ea4a7859807d));
    Mixed(4, 5, 0x9be6aa793ad3a7c9, 0xcdcfc26e59d1d349, 0xaa550590a17d6cd1, 0x1222a0cc9444c711, 0, 0,
      Four(0x2da2224e8da97556, 0x4eb0b76284c7aafb, 0x64b3eed7bb602f39, 0xb97d2d439e4df63d));
    Mixed(4, 6, 0xc5252a4d03f65b2f, 0x8bc33bc025ae3c8e, 0x5a8388e35cb33b75, 0x303dfd40b9230c9c, 0, 0,
      Four(0x77d2b26df1c45c55, 0x299c8e725d954697, 0xb2240b59e6d567d3, 0xc718e755294c9111));
    Mixed(4, 7, 0x1fe21186bd238be3, 0x475dcc427f3fcd87, 0xec74922286e7b930, 0x7709a29326a5c548, 0, 0,
      Four(0x8934eb09a3456052, 0x0f6d9eeed157da2a, 0x2643c2370e49ebfd, 0x1f0893f2772bb373));
    RoundOf(MESSAGE, V4, W5, V5, 4);
  }

  lemma Round6()
    ensures HalfRound(Columns(V5), MESSAGE, 5, 8) == Columns(V6)
  {
    hide HalfRound, Columns, Mixes;
    Mixed(5, 0, 0xc79c15b3d423b099, 0x0f6d9eeed157da2a, 0xb2240b59e6d567d3, 0xb97d2d439e4df63d, 0, 0,
      Four(0xf4e55384dc924147, 0xb7b58d9367a4043d, 0xc601582b84c4b49a, 0xd8a6cfd32f7ab2e6));
    Mixed(5, 1, 0x2da2224e8da97556, 0x6fe66467af88c0a9, 0x2643c2370e49ebfd, 0xc718e755294c9111, 0, 0,
      Four(0xf015d00b613578c6, 0x02ca058bf3799684, 0x53e84b90ddbf8985, 0x1925e46b74e53ba5));
    Mixed(5, 2, 0x77d2b26df1c45c55, 0x4eb0b76284c7aafb, 0x79e02eef20cdb1ae, 0x1f0893f2772bb373, 0x636261, 0,
      Four(0x648495058cae3d2f, 0xb9668b8ebf3fa717, 0x42b26ef24a2100f5, 0xc70d65404fc75525));
    Mixed(5, 3, 0x8934eb09a3456052, 0x299c8e725d954697, 0x64b3eed7bb602f39, 0x1205ea4a7859807d, 0, 0,
      Four(0x54567270ac75c4ea, 0x292f756a3507a223, 0x35134241b118cf10, 0x57dc2cd554e40ca1));
    Mixed(5, 4, 0xf4e55384dc924147, 0x02ca058bf3799684, 0x42b26ef24a2100f5, 0x57dc2cd554e40ca1, 0, 0,
      Four(0xe58f97d6385baee4, 0x9e472af0be3db3f6, 0xa2c3abbd37510ee2, 0xdb2161604cbc9828));
    Mixed(5, 5, 0xf015d00b613578c6, 0xb9668b8ebf3fa717, 0x35134241b118cf10, 0xd8a6cfd32f7ab2e6, 0, 0,
      Four(0x7640aa9764da137a, 0x0f244c62ddf71788, 0xcb5668cc2a9f7859, 0x8733794f07ac1500));
    Mixed(5, 6, 0x648495058cae3d2f, 0x292f756a3507a223, 0xc601582b84c4b49a, 0x1925e46b74e53ba5, 0, 0,
      Four(0xdeb4c7c23efe287e, 0x219828aa83880842, 0x41cca9073c8c4d0d, 0xc67a6be42335aa6f));
    Mixed(5, 7, 0x54567270ac75c4ea, 0xb7b58d9367a4043d, 0x53e84b90ddbf8985, 0xc70d65404fc75525, 0, 0,
      Four(0x70f6f41c8783c9f6, 0x7127cd48c76a7708, 0x5c7912bc10df3b4b, 0xacb22b28681e4c82));
    RoundOf(MESSAGE, V5, W6, V6, 5);
  }

  lemma Round7()
    ensures HalfRound(Columns(V6), MESSAGE, 6, 8) == Columns(V7)
  {
    hide HalfRound, Columns, Mixes;
    Mixed(6, 0, 0xe58f97d6385baee4, 0x7127cd48c76a7708, 0x41cca9073c8c4d0d, 0x8733794f07ac1500, 0, 0,
      Four(0xd0d5bb6a10dae2b5, 0x860aa9f111072cea, 0x391b02b399972abc, 0xfee428bf8b86c15e));
    Mixed(6, 1, 0x7640aa9764da137a, 0x9e472af0be3db3f6, 0x5c7912bc10df3b4b, 0xc67a6be42335aa6f, 0, 0,
      Four(0xf5d2174aff6cf2cd, 0x90ee681d04ce182a, 0xa93d75cc5e322748, 0x4ca1f5f07a552d91));
    Mixed(6, 2, 0xdeb4c7c23efe287e, 0x0f244c62ddf71788, 0xa2c3abbd37510ee2, 0xacb22b28681e4c82, 0, 0,
      Four(0x39337b3da7e963ab, 0x7e1ec202f5042fa8, 0x74550619f0763471, 0x5ca64dd877b9e682));
    Mixed(6, 3, 0x70f6f41c8783c9f6, 0x219828aa83880842, 0xcb5668cc2a9f7859, 0xdb2161604cbc9828, 0, 0,
      Four(0x588d5ef9a0a6492f, 0x04d72048395b53ff, 0x4795d2168937df08, 0x34881f3a14e9e908));
    Mixed(6, 4, 0xd0d5bb6a10dae2b5, 0x90ee681d04ce182a, 0x74550619f0763471, 0x34881f3a14e9e908, 0x636261, 0,
      Four(0x6e2d286eeadedc81, 0xb63c479a6a769f02, 0x5777272ae1e930c0, 0xe03c6cc89c26bf92));
    Mixed(6, 5, 0xf5d2174aff6cf2cd, 0x7e1ec202f5042fa8, 0x4795d2168937df08, 0xfee428bf8b86c15e, 0, 0,
      Four(0xbcf02c0787e86358, 0x258e55e0ec1f362a, 0x5a387849e578dbf6, 0x92aac307cf2c0afc));
    Mixed(6, 6, 0x39337b3da7e963ab, 0x04d72048395b53ff, 0x391b02b399972abc, 0x4ca1f5f07a552d91, 0, 0,
      Four(0x57d56a56dd015edf, 0x3a3b4ec60e19dfdc, 0x04d769b3fcb048db, 0x30aaccc4f06dafaa));
    Mixed(6, 7, 0x588d5ef9a0a6492f, 0x860aa9f111072cea, 0xa93d75cc5e322748, 0x5ca64dd877b9e682, 0, 0,
      Four(0x55d899d40a5d0d0a, 0x819415b56220c459, 0xb78a9a33e9bff4dd, 0x483893cc094f8863));
    RoundOf(MESSAGE, V6, W7, V7, 6);
  }

  lemma Round8()
    ensures HalfRound(Columns(V7), MESSAGE, 7, 8) == Columns(V8)
  {
    hide HalfRound, Columns, Mixes;
    Mixed(7, 0, 0x6e2d286eeadedc81, 0x819415b56220c459, 0x04d769b3fcb048db, 0x92aac307cf2c0afc, 0, 0,
      Four(0x2c42e52d8c060ff2, 0x8ffac8c5ec5cb0e6, 0x7b7cc36bc928376b, 0xf2d1af914f0bf16d));
    Mixed(7, 1, 0xbcf02c0787e86358, 0xb63c479a6a769f02, 0xb78a9a33e9bff4dd, 0x30aaccc4f06dafaa, 0, 0,
      Four(0xa357b3b1736ec0a1, 0x1355530d9510b6da, 0x3981e9894b87e52a, 0x7fc4a1651e4130e8));
    Mixed(7, 2, 0x57d56a56dd015edf, 0x258e55e0ec1f362a, 0x5777272ae1e930c0, 0x483893cc094f8863, 0, 0,
      Four(0xd916516a31320b04, 0x56af9e7816abf9be, 0x70e55e0e63448924, 0x58ff19794c000469));
    Mixed(7, 3, 0x55d899d40a5d0d0a, 0x3a3b4ec60e19dfdc, 0x5a387849e578dbf6, 0xe03c6cc89c26bf92, 0, 0,
      Four(0x41d37d7ecbfc6541, 0x1c460b4a606cc880, 0xbf9c914183b31c1b, 0xe113c5832e0abbd3));
    Mixed(7, 4, 0x2c42e52d8c060ff2, 0x1355530d9510b6da, 0x70e55e0e63448924, 0xe113c5832e0abbd3, 0, 0x636261,
      Four(0xffc83ece76024d01, 0xe1179523a2541963, 0x30bbcc0285a22f65, 0xb0b9f0d443d1a889));
    Mixed(7, 5, 0xa357b3b1736ec0a1, 0x56af9e7816abf9be, 0xbf9c914183b31c1b, 0xf2d1af914f0bf16d, 0, 0,
      Four(0x1be7bffb8c5cc5f9, 0x3a1fad7106232b8f, 0xbcefbb6a81539e5d, 0x3841def6f4c9848a));
    Mixed(7, 6, 0xd916516a31320b04, 0x1c460b4a606cc880, 0x7b7cc36bc928376b, 0x7fc4a1651e4130e8, 0, 0,
      Four(0xa35a18cbac4c65b7, 0x1c7ede92ab8b9c46, 0xa3c2d35e4f685c10, 0x98662c85fba726d4));
    Mixed(7, 7, 0x41d37d7ecbfc6541, 0x8ffac8c5ec5cb0e6, 0x3981e9894b87e52a, 0x58ff19794c000469, 0, 0,
      Four(0xb7c2c7e6d88c285f, 0x81937da314a50838, 0xa53d3f73aa619624, 0x7762439bd5a851bd));
    RoundOf(MESSAGE, V7, W8, V8, 7);
  }

  lemma Round9()
    ensures HalfRound(Columns(V8), MESSAGE, 8, 8) == Columns(V9)
  {
    hide HalfRound, Columns, Mixes;
    Mixed(8, 0, 0xffc83ece76024d01, 0x81937da314a50838, 0xa3c2d35e4f685c10, 0x3841def6f4c9848a, 0, 0,
      Four(0xa9126c152d800655, 0x4165a65ac9e3c45b, 0x87047c8ec6295331, 0x64d2d77cbda6949a));
    Mixed(8, 1, 0x1be7bffb8c5cc5f9, 0xe1179523a2541963, 0xa53d3f73aa619624, 0x98662c85fba726d4, 0, 0,
      Four(0xac1632ba715ebf08, 0xdfe2d8cd3101f453, 0x40e7b1fdda2d2585, 0xc6927901cb3215c7));
    Mixed(8, 2, 0xa35a18cbac4c65b7, 0x3a1fad7106232b8f, 0x30bbcc0285a22f65, 0x7762439bd5a851bd, 0, 0,
      Four(0x7c1849df4e91206f, 0x41aa56fe49862d7f, 0x3e4ba8ddb8e29996, 0xa5c81bdf8924e48a));
    Mixed(8, 3, 0xb7c2c7e6d88c285f, 0x1c7ede92ab8b9c46, 0xbcefbb6a81539e5d, 0xb0b9f0d443d1a889, 0x636261, 0,
      Four(0x94aaf312690f9253, 0x13e3a2c50cfad099, 0x49989dfa62e90301, 0xc4fe53007c9d0df7));
    Mixed(8, 4, 0xa9126c152d800655, 0xdfe2d8cd3101f453, 0x3e4ba8ddb8e29996, 0xc4fe53007c9d0df7, 0, 0,
      Four(0x753a70a1e8faeadd, 0x63c5b9b80d294cb9, 0x5da7f7638cec5669, 0xfd3f572687fea4f1));
    Mixed(8, 5, 0xac1632ba715ebf08, 0x41aa56fe49862d7f, 0x49989dfa62e90301, 0x64d2d77cbda6949a, 0, 0,
      Four(0x6b0d43ca2c25d629, 0x490870ecad27debd, 0xd9c8826727d306fc, 0x88ed6c4f3bd7a537));
    Mixed(8, 6, 0x7c1849df4e91206f, 0x13e3a2c50cfad099, 0x87047c8ec6295331, 0xc6927901cb3215c7, 0, 0,
      Four(0xf8343ba8b94f8c0b, 0xb2a90ddf667287fe, 0x316cc9ebeefad8fc, 0x19ae688ddf67f026));
    Mixed(8, 7, 0x94aaf312690f9253, 0x4165a65ac9e3c45b, 0x40e7b1fdda2d2585, 0xa5c81bdf8924e48a, 0, 0,
      Four(0xbc7d062b0db5cf35, 0x58540ee1b1aebc47, 0x4a466bcd021526a4, 0x4d8707aab40f7e6d));
    RoundOf(MESSAGE, V8, W9, V9, 8);
  }

  lemma Round10()
    ensures HalfRound(Columns(V9), MESSAGE, 9, 8) == Columns(V10)
  {
    hide HalfRound, Columns, Mixes;
    Mixed(9, 0, 0x753a70a1e8faeadd, 0x58540ee1b1aebc47, 0x316cc9ebeefad8fc, 0x88ed6c4f3bd7a537, 0, 0,
      Four(0xc0df0f0e596ec5a9, 0xb4014455ff7c2ca0, 0xa9502da0417b08d5, 0xd66561a10d1d1c0d));
    Mixed(9, 1, 0x6b0d43ca2c25d629, 0x63c5b9b80d294cb9, 0x4a466bcd021526a4, 0x19ae688ddf67f026, 0, 0,
      Four(0x87ca07d5e3d64cb6, 0x65bf544e084bb313, 0x0a28a074aea2f05d, 0xd9b961e2d51134aa));
    Mixed(9, 2, 0xf8343ba8b94f8c0b, 0x490870ecad27debd, 0x5da7f7638cec5669, 0x4d8707aab40f7e6d, 0, 0,
      Four(0xd11bc20e8ef44efc, 0x3478342ab05ecf87, 0x15e30f6c705383f7, 0xe5c30363d6ab824f));
    Mixed(9, 3, 0xbc7d062b0db5cf35, 0xb2a90ddf667287fe, 0xd9c8826727d306fc, 0xfd3f572687fea4f1, 0, 0,
      Four(0x0df3ea89aaa44e12, 0x88274463ca98e874, 0xdade744ed33782e5, 0x0d3efe25194b38bd));
    Mixed(9, 4, 0xc0df0f0e596ec5a9, 0x65bf544e084bb313, 0x15e30f6c705383f7, 0x0d3efe25194b38bd, 0, 0,
      Four(0xe630c747ccd59c4f, 0x5f311b88904056ec, 0x900aee2f233b08e5, 0x01369ec18746e775));
    Mixed(9, 5, 0x87ca07d5e3d64cb6, 0x3478342ab05ecf87, 0xdade744ed33782e5, 0xd66561a10d1d1c0d, 0, 0,
      Four(0xbc713d41127571ca, 0x40bd313009201aab, 0xa07199d87ad058d8, 0x2c6b25593d717852));
    Mixed(9, 6, 0xd11bc20e8ef44efc, 0x88274463ca98e874, 0xa9502da0417b08d5, 0xd9b961e2d51134aa, 0, 0,
      Four(0x46db183025025078, 0x0099d4f82a2a1eab, 0x6dd4fbc1de60165d, 0x37e8ca471beaa5f8));
    Mixed(9, 7, 0x0df3ea89aaa44e12, 0xb4014455ff7c2ca0, 0x0a28a074aea2f05d, 0xe5c30363d6ab824f, 0, 0x636261,
      Four(0x6727e81260610140, 0x2d04185eac2a8cba, 0xb3b0b51de3c86270, 0x2cfc1bac10ef4457));
    RoundOf(MESSAGE, V9, W10, V10, 9);
  }

  lemma Round11()
    ensures HalfRound(Columns(V10), MESSAGE, 0, 8) == Columns(V11)
  {
    hide HalfRound, Columns, Mixes;
    Mixed(0, 0, 0xe630c747ccd59c4f, 0x2d04185eac2a8cba, 0x6dd4fbc1de60165d, 0x2c6b25593d717852, 0x636261, 0,
      Four(0xfdd2c6435d5a301b, 0x2ca29c4d619bafa1, 0x7ccca8ba533b7361, 0xcae4b9c0357b6205));
    Mixed(0, 1, 0xbc713d41127571ca, 0x5f311b88904056ec, 0xb3b0b51de3c86270, 0x37e8ca471beaa5f8, 0, 0,
      Four(0x6e446afbc3efad36, 0xfcd5d76a6de20047, 0xacc8f98717c8e4a3, 0x3fb8d71b07b5efa5));
    Mixed(0, 2, 0x46db183025025078, 0x40bd313009201aab, 0x900aee2f233b08e5, 0x2cfc1bac10ef4457, 0, 0,
      Four(0x46d963ee934efeea, 0x8b7f1e6cfc2a0039, 0x7afe95b81b3993db, 0xac2678144c9a382a));
    Mixed(0, 3, 0x6727e81260610140, 0x0099d4f82a2a1eab, 0xa07199d87ad058d8, 0x01369ec18746e775, 0, 0,
      Four(0x5523c5b930d1aeb6, 0xadbdc7977150b805, 0x3bbceb651eeed2c9, 0x8d7d58ee3d275626));
    Mixed(0, 4, 0xfdd2c6435d5a301b, 0xfcd5d76a6de20047, 0x7afe95b81b3993db, 0x8d7d58ee3d275626, 0, 0,
      Four(0xe801f73b9768c760, 0x3cc88735d1475e4b, 0x733d1a17248f39db, 0x02231e1a917fe0bd));
    Mixed(0, 5, 0x6e446afbc3efad36, 0x8b7f1e6cfc2a0039, 0x3bbceb651eeed2c9, 0xcae4b9c0357b6205, 0, 0,
      Four(0x35c6d22320be511d, 0x5dac67921ff76949, 0x92d57b736f5f170a, 0x61b5c0a41d491399));
    Mixed(0, 6, 0x46d963ee934efeea, 0xadbdc7977150b805, 0x7ccca8ba533b7361, 0x3fb8d71b07b5efa5, 0, 0,
      Four(0x306f27584f65495e, 0x1cdb9d31ad70cc4e, 0x35ba354a9c7df448, 0xb5c333457e12844a));
    Mixed(0, 7, 0x5523c5b930d1aeb6, 0x2ca29c4d619bafa1, 0xacc8f98717c8e4a3, 0xac2678144c9a382a, 0, 0,
      Four(0xb51776adf569a77b, 0xf4f1be86690b3c34, 0x4929cbe45679d73e, 0xbd696be010d0d889));
    RoundOf(MESSAGE, V10, W11, V11, 0);
  }

  lemma Round12()
    ensures HalfRound(Columns(V11), MESSAGE, 1, 8) == Columns(V12)
  {
    hide HalfRound, Columns, Mixes;
    Mixed(1, 0, 0xe801f73b9768c760, 0xf4f1be86690b3c34, 0x35ba354a9c7df448, 0x61b5c0a41d491399, 0, 0,
      Four(0xac495068076fe1c4, 0x5198d8d539a3fbce, 0xe799f6cc9a2a23d7, 0x94a2b1744065ba29));
    Mixed(1, 1, 0x35c6d22320be511d, 0x3cc88735d1475e4b, 0x4929cbe45679d73e, 0xb5c333457e12844a, 0, 0,
      Four(0xf3ae6a427a75e234, 0xb8eacc53aead98b1, 0x5d6a76c05f26fe94, 0x88297fb94160bd39));
    Mixed(1, 2, 0x306f27584f65495e, 0x5dac67921ff76949, 0x733d1a17248f39db, 0xbd696be010d0d889, 0, 0,
      Four(0x83933b99d54089ee, 0x55b2599798b3a4a1, 0x5fae8064a9ba0517, 0x6ce4fc1f51b7e632));
    Mixed(1, 3, 0xb51776adf569a77b, 0x1cdb9d31ad70cc4e, 0x92d57b736f5f170a, 0x02231e1a917fe0bd, 0, 0,
      Four(0x31db95ba436e4db7, 0xb20b2179d2dcd8c6, 0x06ed116649fdb58d, 0x4072027e06ce90be));
    Mixed(1, 4, 0xac495068076fe1c4, 0xb8eacc53aead98b1, 0x5fae8064a9ba0517, 0x4072027e06ce90be, 0, 0,
      Four(0x12ef8a641ec4f6d6, 0xaa5ac1888e10467e, 0xf8960d6c2faf5f5e, 0xe813a23c60af3b82));
    Mixed(1, 5, 0xf3ae6a427a75e234, 0x55b2599798b3a4a1, 0x06ed116649fdb58d, 0x94a2b1744065ba29, 0x636261, 0,
      Four(0xbced5de977c9faf5, 0x217d930aa51787f3, 0xe332538a36b6d246, 0x885bef040ef6aa0b));
    Mixed(1, 6, 0x83933b99d54089ee, 0xb20b2179d2dcd8c6, 0xe799f6cc9a2a23d7, 0x88297fb94160bd39, 0, 0,
      Four(0x733ca476c5148639, 0x906a6ff19e573942, 0x75ab709bd3dcbf24, 0xa4939a417bfb78a3));
    Mixed(1, 7, 0x31db95ba436e4db7, 0x5198d8d539a3fbce, 0x5d6a76c05f26fe94, 0x6ce4fc1f51b7e632, 0, 0,
      Four(0x97df596b0610f6fc, 0xf42c16519ad5afa7, 0xee7ce1f345947aa4, 0x646cbb7af6dce980));
    RoundOf(MESSAGE, V11, W12, V12, 1);
  }

  // ---------------------------------------------------------------- the digest

  lemma OneRound(m: Vector, v: Vector, r: nat, row: nat, u: Vector, w: Vector)
    requires r < 12 && row == r % 10
    requires Rounds(v, m, r) == u && HalfRound(u, m, row, 8) == w
    ensures Rounds(v, m, r + 1) == w
  {
    hide HalfRound;
  }

  lemma NoRound(m: Vector, v: Vector)
    ensures Rounds(v, m, 0) == v
  {
  }

  lemma AllRounds()
    ensures Rounds(Columns(V0), MESSAGE, 12) == Columns(V12)
  {
    hide Rounds, HalfRound, Columns, MESSAGE;
    var v := Columns(V0);
    NoRound(MESSAGE, v);
    Round1();
    OneRound(MESSAGE, v, 0, 0, Columns(V0), Columns(V1));
    Round2();
    OneRound(MESSAGE, v, 1, 1, Columns(V1), Columns(V2));
    Round3();
    OneRound(MESSAGE, v, 2, 2, Columns(V2), Columns(V3));
    Round4();
    OneRound(MESSAGE, v, 3, 3, Columns(V3), Columns(V4));
    Round5();
    OneRound(MESSAGE, v, 4, 4, Columns(V4), Columns(V5));
    Round6();
    OneRound(MESSAGE, v, 5, 5, Columns(V5), Columns(V6));
    Round7();
    OneRound(MESSAGE, v, 6, 6, Columns(V6), Columns(V7));
    Round8();
    OneRound(MESSAGE, v, 7, 7, Columns(V7), Columns(V8));
    Round9();
    OneRound(MESSAGE, v, 8, 8, Columns(V8), Columns(V9));
    Round10();
    OneRound(MESSAGE, v, 9, 9, Columns(V9), Columns(V10));
    Round11();
    OneRound(MESSAGE, v, 10, 0, Columns(V10), Columns(V11));
    Round12();
    OneRound(MESSAGE, v, 11, 1, Columns(V11), Columns(V12));
  }

  const ABC: seq<Byte> := [0x61, 0x62, 0x63]

  lemma PaddedAbc(k: nat)
    requires k < 128
    ensures LastBlock(ABC)[k] == if k < 3 then ABC[k] else 0
  {
  }

  lemma FirstWordIs(p: seq<Byte>)
    requires |p| == 8 && p[0] == 0x61 && p[1] == 0x62 && p[2] == 0x63
    requires p[3] == 0 && p[4] == 0 && p[5] == 0 && p[6] == 0 && p[7] == 0
    ensures LoadWord(p) == 0x636261
  {
  }

  lemma ZeroWordIs(p: seq<Byte>)
    requires |p| == 8 && forall i :: 0 <= i < 8 ==> p[i] == 0
    ensures LoadWord(p) == 0
  {
    assert p[0] == 0 && p[1] == 0 && p[2] == 0 && p[3] == 0 && p[4] == 0 && p[5] == 0 && p[6] == 0 && p[7] == 0;
  }

  lemma PaddedWord(j: nat)
    requires j < 16
    ensures BlockWords(LastBlock(ABC))[j] == MESSAGE[j]
  {
    hide LoadWord, LastBlock;
    var b := LastBlock(ABC);
    var p := b[8 * j..8 * j + 8];
    forall i: nat | i < 8
      ensures p[i] == if j == 0 && i < 3 then ABC[i] else 0
    {
      PaddedAbc(8 * j + i);
    }
    MessageAt(j);
    if j == 0 {
      FirstWordIs(p);
    } else {
      ZeroWordIs(p);
    }
  }

  lemma PaddedWords()
    ensures BlockWords(LastBlock(ABC)) == MESSAGE
  {
    hide BlockWords, LastBlock, MESSAGE;
    forall j: nat | j < 16
      ensures BlockWords(LastBlock(ABC))[j] == MESSAGE[j]
    {
      PaddedWord(j);
    }
  }

  /** The chained state after the last block. */
  const STATE: State8 := [
    0x0d4d1c983fa580ba, 0xe9f6129fb697276a, 0xb7c45a68142f214c, 0xd1a2ffdb6fbb124b,
    0x2d79ab2a39c5877d, 0x95cc3345ded552c2, 0x5a92f1dba88ad318, 0x239900d4ed8623b9]

  const DIGEST: seq<Byte> := 
    [0xba, 0x80, 0xa5, 0x3f, 0x98, 0x1c, 0x4d, 0x0d, 0x6a, 0x27, 0x97, 0xb6, 0x9f, 0x12, 0xf6, 0xe9] +
    [0x4c, 0x21, 0x2f, 0x14, 0x68, 0x5a, 0xc4, 0xb7, 0x4b, 0x12, 0xbb, 0x6f, 0xdb, 0xff, 0xa2, 0xd1] +
    [0x7d, 0x87, 0xc5, 0x39, 0x2a, 0xab, 0x79, 0x2d, 0xc2, 0x52, 0xd5, 0xde, 0x45, 0x33, 0xcc, 0x95] +
    [0x18, 0xd3, 0x8a, 0xa8, 0xdb, 0xf1, 0x92, 0x5a, 0xb9, 0x23, 0x86, 0xed, 0xd4, 0x00, 0x99, 0x23]

  lemma Start()
    ensures StartVector(InitialState(64, 0), 3, 0, true) == Columns(V0)
  {
  }

  const LAST: Vector := [
    0x12ef8a641ec4f6d6, 0xbced5de977c9faf5, 0x733ca476c5148639, 0x97df596b0610f6fc,
    0xf42c16519ad5afa7, 0xaa5ac1888e10467e, 0x217d930aa51787f3, 0x906a6ff19e573942,
    0x75ab709bd3dcbf24, 0xee7ce1f345947aa4, 0xf8960d6c2faf5f5e, 0xe332538a36b6d246,
    0x885bef040ef6aa0b, 0xa4939a417bfb78a3, 0x646cbb7af6dce980, 0xe813a23c60af3b82]

  lemma LastIs()
    ensures Columns(V12) == LAST
  {
  }

  lemma InitialIs()
    ensures InitialState(64, 0) == [
    0x6a09e667f2bdc948, 0xbb67ae8584caa73b, 0x3c6ef372fe94f82b, 0xa54ff53a5f1d36f1,
    0x510e527fade682d1, 0x9b05688c2b3e6c1f, 0x1f83d9abfb41bd6b, 0x5be0cd19137e2179]
  {
  }

  lemma FoldedAt(k: nat)
    requires k < 8
    ensures Fold(InitialState(64, 0), LAST)[k] == STATE[k]
  {
    hide InitialState;
    InitialIs();
    assert k == 0 || k == 1 || k == 2 || k == 3 || k == 4 || k == 5 || k == 6 || k == 7;
  }

  lemma Folded()
    ensures Fold(InitialState(64, 0), Columns(V12)) == STATE
  {
    LastIs();
    hide InitialState, Columns, LAST, STATE;
    forall k: nat | k < 8
      ensures Fold(InitialState(64, 0), LAST)[k] == STATE[k]
    {
      FoldedAt(k);
    }
  }

  /** Byte `k` of the words is byte `k % 8` of word `k / 8`. */
  lemma {:induction false} ByteAt(h: seq<Word>, k: nat)
    requires k < 8 * |h|
    ensures WordsToBytes(h)[k] == StoreWord(h[k / 8])[k % 8]
  {
    hide StoreWord;
    if k >= 8 {
      ByteAt(h[1..], k - 8);
    }
  }

  lemma StoredWords()
    ensures StoreWord(STATE[0]) == [0xba, 0x80, 0xa5, 0x3f, 0x98, 0x1c, 0x4d, 0x0d] &&
            StoreWord(STATE[1]) == [0x6a, 0x27, 0x97, 0xb6, 0x9f, 0x12, 0xf6, 0xe9] &&
            StoreWord(STATE[2]) == [0x4c, 0x21, 0x2f, 0x14, 0x68, 0x5a, 0xc4, 0xb7] &&
            StoreWord(STATE[3]) == [0x4b, 0x12, 0xbb, 0x6f, 0xdb, 0xff, 0xa2, 0xd1] &&
            StoreWord(STATE[4]) == [0x7d, 0x87, 0xc5, 0x39, 0x2a, 0xab, 0x79, 0x2d] &&
            StoreWord(STATE[5]) == [0xc2, 0x52, 0xd5, 0xde, 0x45, 0x33, 0xcc, 0x95] &&
            StoreWord(STATE[6]) == [0x18, 0xd3, 0x8a, 0xa8, 0xdb, 0xf1, 0x92, 0x5a] &&
            StoreWord(STATE[7]) == [0xb9, 0x23, 0x86, 0xed, 0xd4, 0x00, 0x99, 0x23]
  {
  }

  lemma LowWords(j: nat, i: nat)
    requires j < 4 && i < 8
    ensures StoreWord(STATE[j])[i] == DIGEST[8 * j + i]
  {
    hide StoreWord, STATE;
    StoredWords();
    assert j == 0 || j == 1 || j == 2 || j == 3;
    assert i == 0 || i == 1 || i == 2 || i == 3 || i == 4 || i == 5 || i == 6 || i == 7;
  }

  lemma HighWords(j: nat, i: nat)
    requires 4 <= j < 8 && i < 8
    ensures StoreWord(STATE[j])[i] == DIGEST[8 * j + i]
  {
    hide StoreWord, STATE;
    StoredWords();
    assert j == 4 || j == 5 || j == 6 || j == 7;
    assert i == 0 || i == 1 || i == 2 || i == 3 || i == 4 || i == 5 || i == 6 || i == 7;
  }

  lemma StoredAt(j: nat, i: nat)
    requires j < 8 && i < 8
    ensures StoreWord(STATE[j])[i] == DIGEST[8 * j + i]
  {
    hide StoreWord, STATE, DIGEST;
    if j < 4 {
      LowWords(j, i);
    } else {
      HighWords(j, i);
    }
  }

  lemma DigestAt(k: nat)
    requires k < 64
    ensures WordsToBytes(STATE)[k] == DIGEST[k]
  {
    hide StoreWord, WordsToBytes, STATE;
    ByteAt(STATE, k);
    StoredAt(k / 8, k % 8);
  }

  lemma StateBytes()
    ensures WordsToBytes(STATE) == DIGEST
  {
    hide WordsToBytes, STATE;
    forall k: nat | k < 64
      ensures WordsToBytes(STATE)[k] == DIGEST[k]
    {
      DigestAt(k);
    }
  }

  lemma FinalOf(h: State8, data: seq<Byte>, v: Vector)
    requires 0 < |data| <= 128
    requires StartVector(h, |data|, 0, true) == v
    ensures FinalState(h, data) == Fold(h, Rounds(v, BlockWords(LastBlock(data)), 12))
  {
    hide StartVector, Fold, Rounds, BlockWords, LastBlock;
  }

  lemma NoKey(message: seq<Byte>)
    ensures KeyedData([], message) == message
  {
  }

  lemma DigestIs(message: seq<Byte>, h: State8)
    requires FinalState(InitialState(64, 0), KeyedData([], message)) == h
    ensures Digest(64, [], message) == WordsToBytes(h)
  {
    hide FinalState, InitialState, KeyedData, WordsToBytes;
    assert WordsToBytes(h)[..64] == WordsToBytes(h);
  }

  /** The digest of "abc" is the one printed in the appendix. */
  lemma DigestOfAbc()
    ensures Digest(64, [], ABC) == DIGEST
  {
    Start();
    Folded();
    AllRounds();
    PaddedWords();
    StateBytes();
    hide StartVector, InitialState, Columns, V0, V12, STATE, MESSAGE, Fold, Rounds, WordsToBytes, Digest;
    hide BlockWords, LastBlock, FinalState, KeyedData, DIGEST;
    NoKey(ABC);
    FinalOf(InitialState(64, 0), ABC, Columns(V0));
    DigestIs(ABC, STATE);
  }
}
