/**
 Byte strings and big-endian numbers, as libsolutil/CommonData.h handles them:
 `toBigEndian` fills a window of any width (dropping what does not fit),
 `fromBigEndian` reads one back, and `bytesRequired` counts significant bytes.
 */
module Bytes {

  type Byte = b: int | 0 <= b < 256

  const TWO_64: nat := 0x1_0000_0000_0000_0000
  const TWO_256: nat :=
    0x1_0000_0000_0000_0000_0000_0000_0000_0000_0000_0000_0000_0000_0000_0000_0000_0000

  /** 256 to the power of `n`: the number of values a window of `n` bytes can hold. */
  function Pow256(n: nat): (p: nat)
    ensures p >= 1
  {
    if n == 0 then 1 else 256 * Pow256(n - 1)
  }

  /** The low `width` bytes of `v`, most significant first. */
  function ToBigEndian(v: nat, width: nat): (s: seq<Byte>)
    ensures |s| == width
  {
    if width == 0 then [] else ToBigEndian(v / 256, width - 1) + [v % 256]
  }

  function FromBigEndian(s: seq<Byte>): nat {
    if s == [] then 0 else FromBigEndian(s[..|s| - 1]) * 256 + s[|s| - 1]
  }

  /** The number of significant bytes of `v`; 0 for 0. */
  function BytesRequired(v: nat): nat {
    if v == 0 then 0 else 1 + BytesRequired(v / 256)
  }

  function Max(a: int, b: int): int {
    if a < b then b else a
  }

  function Zeros(n: nat): (z: seq<Byte>)
    ensures |z| == n
  {
    seq(n, _ => 0)
  }

  /** `bytes` with the window at `pos` overwritten by `window`. */
  function Patch(bytes: seq<Byte>, pos: nat, window: seq<Byte>): (r: seq<Byte>)
    requires pos + |window| <= |bytes|
    ensures |r| == |bytes|
  {
    bytes[..pos] + window + bytes[pos + |window|..]
  }

  lemma Reassociate(a: seq<Byte>, b: seq<Byte>, c: seq<Byte>)
    ensures a + (b + c) == a + b + c
  {
  }

  lemma PatchLeft(a: seq<Byte>, b: seq<Byte>, pos: nat, window: seq<Byte>)
    requires pos + |window| <= |a|
    ensures Patch(a + b, pos, window) == Patch(a, pos, window) + b
  {
    assert (a + b)[pos + |window|..] == a[pos + |window|..] + b;
  }

  lemma PatchRight(a: seq<Byte>, b: seq<Byte>, pos: nat, window: seq<Byte>)
    requires pos + |window| <= |b|
    ensures Patch(a + b, |a| + pos, window) == a + Patch(b, pos, window)
  {
    assert (a + b)[..|a| + pos] == a + b[..pos];
  }

  // ---------------------------------------------------------------- arithmetic

  lemma MulMonotone(a: int, b: int, d: int)
    requires a <= b && d >= 0
    ensures a * d <= b * d
  {
  }

  lemma QuotientBound(v: int, q: int, d: int)
    requires d > 0 && q * d <= v < (q + 1) * d
    ensures v / d == q
  {
    var q' := v / d;
    if q' < q {
      MulMonotone(q' + 1, q, d);
    } else if q < q' {
      MulMonotone(q + 1, q', d);
    }
  }

  lemma DivModUnique(v: int, q: int, r: int, d: int)
    requires d > 0 && v == q * d + r && 0 <= r < d
    ensures v / d == q && v % d == r
  {
    QuotientBound(v, q, d);
  }

  lemma ModTimes(v: nat, p: nat)
    requires p >= 1
    ensures (v / 256) % p * 256 + v % 256 == v % (256 * p)
  {
    var q := (v / 256) / p;
    var r := (v / 256) % p * 256 + v % 256;
    assert v / 256 == q * p + (v / 256) % p;
    assert v == q * (256 * p) + r;
    DivModUnique(v, q, r, 256 * p);
  }

  lemma EvenPow256(n: nat)
    requires n >= 1
    ensures Pow256(n) % 2 == 0
  {
    assert Pow256(n) == 256 * Pow256(n - 1);
  }

  lemma {:induction false} Pow256Monotone(m: nat, n: nat)
    requires m <= n
    ensures Pow256(m) <= Pow256(n)
  {
    if m < n {
      Pow256Monotone(m, n - 1);
    }
  }

  lemma {:induction false} Pow256Add(m: nat, n: nat)
    ensures Pow256(m + n) == Pow256(m) * Pow256(n)
  {
    if m > 0 {
      Pow256Add(m - 1, n);
      assert 256 * (Pow256(m - 1) * Pow256(n)) == (256 * Pow256(m - 1)) * Pow256(n);
    }
  }

  /** The capacities of a machine word and of a stack word. */
  lemma WordCapacity()
    ensures Pow256(8) == TWO_64 && Pow256(32) == TWO_256
  {
    assert Pow256(2) == 0x1_0000;
    Pow256Add(2, 2);
    Pow256Add(4, 4);
    Pow256Add(8, 8);
    Pow256Add(16, 16);
  }

  lemma {:induction false} Pow256Exceeds(n: nat)
    ensures Pow256(n) > n * n + n
  {
    if n > 0 {
      Pow256Exceeds(n - 1);
      var k := n - 1;
      assert 256 * (k * k + k + 1) > (k + 1) * (k + 1) + (k + 1);
    }
  }

  // ---------------------------------------------------------------- round trips

  /** Reading back a window yields the number modulo the window's capacity. */
  lemma {:induction false} FromToBigEndian(v: nat, width: nat)
    ensures FromBigEndian(ToBigEndian(v, width)) == v % Pow256(width)
  {
    if width > 0 {
      var high := ToBigEndian(v / 256, width - 1);
      assert ToBigEndian(v, width)[..width - 1] == high;
      FromToBigEndian(v / 256, width - 1);
      ModTimes(v, Pow256(width - 1));
    }
  }

  /** ... and a number that fits its window is read back unchanged. */
  lemma FromToBigEndianFits(v: nat, width: nat)
    requires v < Pow256(width)
    ensures FromBigEndian(ToBigEndian(v, width)) == v
  {
    FromToBigEndian(v, width);
    DivModUnique(v, 0, v, Pow256(width));
  }

  lemma {:induction false} FromBigEndianBound(s: seq<Byte>)
    ensures FromBigEndian(s) < Pow256(|s|)
  {
    if s != [] {
      FromBigEndianBound(s[..|s| - 1]);
    }
  }

  lemma {:induction false} ToFromBigEndian(s: seq<Byte>)
    ensures ToBigEndian(FromBigEndian(s), |s|) == s
  {
    if s != [] {
      var high, low := s[..|s| - 1], s[|s| - 1];
      ToFromBigEndian(high);
      DivModUnique(FromBigEndian(s), FromBigEndian(high), low, 256);
      assert s == high + [low];
    }
  }

  lemma {:induction false} ToBigEndianZero(width: nat)
    ensures ToBigEndian(0, width) == seq(width, _ => 0)
  {
    if width > 0 {
      ToBigEndianZero(width - 1);
    }
  }

  /** `bytesRequired` is exact: a window holds `v` iff it has at least that many bytes. */
  lemma {:induction false} BytesRequiredExact(v: nat, width: nat)
    ensures BytesRequired(v) <= width <==> v < Pow256(width)
  {
    if v == 0 {
    } else if width == 0 {
    } else {
      BytesRequiredExact(v / 256, width - 1);
      assert v < 256 * Pow256(width - 1) <==> v / 256 < Pow256(width - 1);
    }
  }

  lemma BytesRequiredMonotone(u: nat, v: nat)
    requires u <= v
    ensures BytesRequired(u) <= BytesRequired(v)
  {
    BytesRequiredExact(v, BytesRequired(v));
    BytesRequiredExact(u, BytesRequired(v));
  }

  // ---------------------------------------------------------------- the loops

  /** The shifting loop of `util::bytesRequired`. */
  method CountBytes(v: nat) returns (n: nat)
    ensures n == BytesRequired(v)
  {
    var rest := v;
    n := 0;
    while rest != 0
      invariant n + BytesRequired(rest) == BytesRequired(v)
      decreases rest
    {
      n, rest := n + 1, rest / 256;
    }
  }

  /** The loop of `toBigEndian` on a reference into a byte vector: fills the
      window from its last byte backwards. */
  method StoreBigEndian(bytes: seq<Byte>, pos: nat, width: nat, v: nat) returns (r: seq<Byte>)
    requires pos + width <= |bytes|
    ensures r == Patch(bytes, pos, ToBigEndian(v, width))
  {
    r := bytes;
    var rest, i := v, width;
    while i != 0
      invariant 0 <= i <= width
      invariant |r| == |bytes|
      invariant r[..pos + i] == bytes[..pos + i]
      invariant r[pos + width..] == bytes[pos + width..]
      invariant ToBigEndian(rest, i) + r[pos + i..pos + width] == ToBigEndian(v, width)
    {
      ghost var before := r;
      assert ToBigEndian(rest, i) == ToBigEndian(rest / 256, i - 1) + [rest % 256];
      r := r[pos + i - 1 := rest % 256];
      assert r[pos + i - 1..pos + width] == [rest % 256] + before[pos + i..pos + width];
      rest, i := rest / 256, i - 1;
    }
    assert r == r[..pos] + r[pos..pos + width] + r[pos + width..];
  }
}
