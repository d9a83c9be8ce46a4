/**
 The types of number literals, after `RationalNumberType` of
 libsolidity/ast/Types.cpp: the narrowest integer type, and the fixed-point
 type with as many digits as are needed or possible.
 */
module RationalTypes {
  import opened Wrappers
  import opened Bytes

  /** A fraction with a positive denominator; it need not be reduced, so that the
      source's `denominator() != 1` reads as `num % den != 0`. */
  datatype Rational = Rational(num: int, den: nat)

  datatype IntegerType = IntegerType(bits: nat, signed: bool)
  datatype FixedPointType = FixedPointType(bits: nat, digits: nat, signed: bool)

  function Pow10(n: nat): (p: nat)
    ensures p >= 1
  {
    if n == 0 then 1 else 10 * Pow10(n - 1)
  }

  /** `a` times 10 to the `d`. */
  function Scaled(a: nat, d: nat): nat {
    if d == 0 then a else Scaled(a, d - 1) * 10
  }

  lemma {:induction false} ScaledIsProduct(a: nat, d: nat)
    ensures Scaled(a, d) == a * Pow10(d)
    ensures Scaled(a, d) >= a
  {
    if d > 0 {
      ScaledIsProduct(a, d - 1);
      assert a * Pow10(d - 1) * 10 == a * (10 * Pow10(d - 1));
    }
  }

  function Abs(x: int): nat {
    if x < 0 then -x else x
  }

  function Quotient(n: nat, d: nat): (q: nat)
    requires d > 0
    ensures q * d <= n < (q + 1) * d
  {
    assert n == d * (n / d) + n % d;
    n / d
  }

  /** Division that truncates toward zero. */
  function Truncate(n: int, d: nat): int
    requires d > 0
  {
    if n < 0 then 0 - Quotient(-n, d) else Quotient(n, d)
  }

  /** `x` is a value of the integer type of `bytes` bytes. */
  predicate Fits(signed: bool, bytes: nat, x: int) {
    if signed then -(Pow256(bytes) as int) <= 2 * x < Pow256(bytes) else 0 <= x < Pow256(bytes)
  }

  /** Fits this many bytes and no fewer, at least one. */
  predicate Narrowest(signed: bool, bits: nat, x: int) {
    bits % 8 == 0 && 8 <= bits <= 256 && Fits(signed, bits / 8, x) &&
    forall n: nat :: 1 <= n < bits / 8 ==> !Fits(signed, n, x)
  }

  // ---------------------------------------------------------------- bits needed

  /** The width computed for a value or, with a sign, for its magnitude less one shifted left. */
  function BitsFor(v: nat): nat {
    Max(BytesRequired(v), 1) * 8
  }

  /** What the computed width means. */
  lemma BitsForBytes(v: nat, n: nat)
    requires n >= 1
    ensures BitsFor(v) <= 8 * n <==> v < Pow256(n)
  {
    BytesRequiredExact(v, n);
  }

  lemma UnsignedNarrowest(v: nat)
    requires v < TWO_256
    ensures Narrowest(false, BitsFor(v), v)
  {
    hide Pow256, BytesRequired;
    WordCapacity();
    BitsForBytes(v, 32);
    BitsForBytes(v, BitsFor(v) / 8);
    forall n: nat | 1 <= n < BitsFor(v) / 8 ensures !Fits(false, n, v) {
      BitsForBytes(v, n);
    }
  }

  lemma SignedNarrowest(m: nat)
    requires 1 <= m && 2 * m <= TWO_256
    ensures Narrowest(true, BitsFor(2 * (m - 1)), 0 - m)
  {
    hide Pow256, BytesRequired, BitsFor;
    var v := 2 * (m - 1);
    WordCapacity();
    BitsForBytes(v, 32);
    BitsForMultiple(v);
    BitsForBytes(v, BitsFor(v) / 8);
    EvenPow256(BitsFor(v) / 8);
    var x: int := 0 - m;
    forall n: nat | 1 <= n < BitsFor(v) / 8 ensures !Fits(true, n, x) {
      BitsForBytes(v, n);
      EvenPow256(n);
    }
  }

  lemma BitsForMultiple(v: nat)
    ensures BitsFor(v) % 8 == 0 && BitsFor(v) >= 8
  {
  }

  // ---------------------------------------------------------------- integers

  /** `integerType`. */
  function IntegerTypeOf(x: int): Option<IntegerType> {
    var value := if x < 0 then (-x - 1) * 2 else x;
    if value >= TWO_256 then None else Some(IntegerType(BitsFor(value), x < 0))
  }

  /** There is no type exactly for the integers out of range; otherwise it is
      the narrowest of its sign. */
  lemma IntegerTypeIsNarrowest(x: int)
    ensures IntegerTypeOf(x).None? <==> x >= TWO_256 || 2 * x < -(TWO_256 as int)
    ensures IntegerTypeOf(x).Some? ==>
              var t := IntegerTypeOf(x).value; t.signed == (x < 0) && Narrowest(t.signed, t.bits, x)
  {
    hide Narrowest, BitsFor;
    if 0 <= x < TWO_256 {
      UnsignedNarrowest(x);
    } else if x < 0 && 2 * x >= -(TWO_256 as int) {
      SignedNarrowest(-x);
    }
  }

  // ---------------------------------------------------------------- fixed point

  function Limit(negative: bool): nat {
    if negative then TWO_256 / 2 else TWO_256 - 1
  }

  /** The largest numerator in range. */
  function Bound(r: Rational): nat {
    Limit(r.num < 0) * r.den
  }

  /** Whether one more decimal digit is taken after `d`. */
  predicate TakesDigit(a: nat, den: nat, bound: nat, d: nat)
    requires den > 0
  {
    Scaled(a, d) * 10 <= bound && Scaled(a, d) % den != 0 && d < 80
  }

  /** The digits at which the loop stops, starting from `d`. */
  function DigitsFrom(a: nat, den: nat, bound: nat, d: nat): nat
    requires den > 0
    decreases 80 - d
  {
    if TakesDigit(a, den, bound, d) then DigitsFrom(a, den, bound, d + 1) else d
  }

  /** The magnitude that needs as many bits as the value `v` of the given sign. */
  function ForBits(negative: bool, v: nat): nat {
    if negative && v != 0 then (v - 1) * 2 else v
  }

  function FixedPointTypeOf(r: Rational): Option<FixedPointType>
    requires r.den > 0
  {
    var d := DigitsFrom(Abs(r.num), r.den, Bound(r), 0);
    if Scaled(Abs(r.num), d) > Bound(r) then None
    else
      var v := ForBits(r.num < 0, Quotient(Scaled(Abs(r.num), d), r.den));
      if v >= TWO_256 then None else Some(FixedPointType(BitsFor(v), d, r.num < 0))
  }

  /** `fixedPointType`. */
  method ComputeFixedPointType(r: Rational) returns (t: Option<FixedPointType>)
    requires r.den > 0
    ensures t == FixedPointTypeOf(r)
  {
    hide BitsFor, Bound, Quotient;
    var negative := r.num < 0;
    var value, digits := Abs(r.num), 0;
    var bound := Bound(r);
    while value * 10 <= bound && value % r.den != 0 && digits < 80
      invariant 0 <= digits <= 80 && value == Scaled(Abs(r.num), digits)
      invariant DigitsFrom(Abs(r.num), r.den, bound, 0) == DigitsFrom(Abs(r.num), r.den, bound, digits)
      decreases 80 - digits
    {
      value := value * 10;
      digits := digits + 1;
    }
    if value > bound {
      return None;
    }
    var v := Quotient(value, r.den);
    if negative && v != 0 {
      v := (v - 1) * 2;
    }
    if v >= TWO_256 {
      return None;
    }
    t := Some(FixedPointType(BitsFor(v), digits, negative));
  }

  /** Why the loop stopped at `d`: the value is exact, or there are 80 digits, or
      one more digit leaves the range; no earlier number of digits is exact. */
  predicate DigitsJustified(a: nat, den: nat, bound: nat, d: nat)
    requires den > 0
  {
    d <= 80 &&
    (Scaled(a, d) % den == 0 || d == 80 || Scaled(a, d + 1) > bound) &&
    forall k: nat :: k < d ==> Scaled(a, k) % den != 0
  }

  lemma {:induction false} DigitsAreJustified(a: nat, den: nat, bound: nat, d: nat)
    requires den > 0 && d <= 80 && (forall k: nat :: k < d ==> Scaled(a, k) % den != 0)
    requires d > 0 ==> Scaled(a, d) <= bound
    ensures DigitsJustified(a, den, bound, DigitsFrom(a, den, bound, d))
    ensures DigitsFrom(a, den, bound, d) > 0 ==> Scaled(a, DigitsFrom(a, den, bound, d)) <= bound
    decreases 80 - d
  {
    if TakesDigit(a, den, bound, d) {
      DigitsAreJustified(a, den, bound, d + 1);
    }
  }

  /** The scaled literal, truncated toward zero. */
  function Shifted(r: Rational, digits: nat): int
    requires r.den > 0
  {
    Truncate(r.num * Pow10(digits), r.den)
  }

  lemma ShiftedMagnitude(r: Rational, digits: nat)
    requires r.den > 0
    ensures Shifted(r, digits) ==
      if r.num < 0 then 0 - Quotient(Scaled(Abs(r.num), digits), r.den) else Quotient(Scaled(Abs(r.num), digits), r.den)
  {
    hide Quotient, Pow10, Scaled;
    ScaledIsProduct(Abs(r.num), digits);
    SignOfProduct(r.num, Pow10(digits));
  }

  lemma SignOfProduct(x: int, p: nat)
    requires p >= 1
    ensures x < 0 ==> x * p == 0 - Abs(x) * p < 0
    ensures x >= 0 ==> x * p == Abs(x) * p >= 0
  {
  }

  /** The value is in range without any digits. */
  predicate InLimit(r: Rational) {
    Abs(r.num) <= Bound(r)
  }

  lemma InLimitStays(r: Rational)
    requires r.den > 0
    ensures Scaled(Abs(r.num), DigitsFrom(Abs(r.num), r.den, Bound(r), 0)) <= Bound(r) <==> InLimit(r)
  {
    hide Bound, TakesDigit;
    DigitsAreJustified(Abs(r.num), r.den, Bound(r), 0);
    ScaledIsProduct(Abs(r.num), DigitsFrom(Abs(r.num), r.den, Bound(r), 0));
  }

  lemma QuotientInLimit(n: nat, den: nat, limit: nat)
    requires den > 0 && n <= limit * den
    ensures Quotient(n, den) <= limit
  {
    var q := Quotient(n, den);
    if q > limit {
      MulMonotone(limit + 1, q, den);
      assert false;
    }
  }

  /** A literal has a fixed-point type if and only if it is in range. */
  lemma FixedPointTypeExists(r: Rational)
    requires r.den > 0
    ensures FixedPointTypeOf(r).Some? <==> InLimit(r)
  {
    hide InLimit, DigitsFrom, BitsFor, Scaled, Quotient;
    var n := Scaled(Abs(r.num), DigitsFrom(Abs(r.num), r.den, Bound(r), 0));
    InLimitStays(r);
    if n <= Bound(r) {
      QuotientInLimit(n, r.den, Limit(r.num < 0));
    }
  }

  /** The type chosen: its digits are justified, the truncated scaled value fits
      and fits no narrower type. */
  lemma FixedPointTypeIsNarrowest(r: Rational)
    requires r.den > 0 && FixedPointTypeOf(r).Some?
    ensures var t := FixedPointTypeOf(r).value;
            t.signed == (r.num < 0) &&
            DigitsJustified(Abs(r.num), r.den, Bound(r), t.digits) &&
            Narrowest(t.signed, t.bits, Shifted(r, t.digits))
  {
    hide DigitsFrom, BitsFor, Scaled, Narrowest, Shifted, DigitsJustified, Quotient;
    var d := DigitsFrom(Abs(r.num), r.den, Bound(r), 0);
    var n := Scaled(Abs(r.num), d);
    DigitsAreJustified(Abs(r.num), r.den, Bound(r), 0);
    QuotientInLimit(n, r.den, Limit(r.num < 0));
    ShiftedMagnitude(r, d);
    var v := Quotient(n, r.den);
    if r.num >= 0 {
      UnsignedNarrowest(v);
    } else if v > 0 {
      SignedNarrowest(v);
    } else {
      ZeroNarrowest();
    }
  }

  lemma ZeroNarrowest()
    ensures Narrowest(true, BitsFor(0), 0)
  {
    assert Pow256(1) == 256;
  }

  // ---------------------------------------------------------------- the literal's value

  /** `literalValue`; None where an assertion fires. */
  function LiteralValue(r: Rational): Option<nat>
    requires r.den > 0
  {
    var isFractional := r.num % r.den != 0;
    if isFractional && FixedPointTypeOf(r).None? then None
    else
      var shifted := Shifted(r, if isFractional then FixedPointTypeOf(r).value.digits else 0);
      if shifted >= TWO_256 || 2 * shifted < -(TWO_256 as int) then None
      else Some(shifted % TWO_256)
  }

  /** A word read as a number, in two's complement if `signed`. */
  function Meaning(signed: bool, w: nat): int {
    if signed && 2 * w >= TWO_256 then w - TWO_256 else w
  }

  /** For every fractional literal in range the word stands for the value times
      10 to the digits of its type, truncated toward zero. */
  lemma LiteralRepresents(r: Rational)
    requires r.den > 0 && r.num % r.den != 0 && FixedPointTypeOf(r).Some?
    ensures var t := FixedPointTypeOf(r).value;
            LiteralValue(r).Some? &&
            Meaning(t.signed, LiteralValue(r).value) == Shifted(r, t.digits)
  {
    hide FixedPointTypeOf, Shifted, DigitsJustified;
    var t := FixedPointTypeOf(r).value;
    FixedPointTypeIsNarrowest(r);
    WordCapacity();
    Pow256Monotone(t.bits / 8, 32);
    hide Pow256;
  }

  /** Truncation loses less than one unit, toward zero. */
  lemma ShiftedIsTruncation(r: Rational, digits: nat)
    requires r.den > 0
    ensures var x := Shifted(r, digits);
            Abs(x) * r.den <= Abs(r.num) * Pow10(digits) < (Abs(x) + 1) * r.den && (x > 0 ==> r.num > 0) &&
                (x < 0 ==> r.num < 0)
  {
    hide Quotient, Pow10, Scaled, Shifted;
    ShiftedMagnitude(r, digits);
    ScaledIsProduct(Abs(r.num), digits);
    ZeroQuotient(digits, r.den);
  }

  lemma {:induction false} ZeroQuotient(digits: nat, den: nat)
    requires den > 0
    ensures Scaled(0, digits) == 0 && Quotient(0, den) == 0
  {
    if digits > 0 {
      ZeroQuotient(digits - 1, den);
    }
  }

  /** For integers the word stands for the integer itself. */
  lemma IntegerLiteral(x: int)
    ensures LiteralValue(Rational(x, 1)).Some? <==> IntegerTypeOf(x).Some?
    ensures IntegerTypeOf(x).Some? ==> Meaning(x < 0, LiteralValue(Rational(x, 1)).value) == x
  {
    hide FixedPointTypeOf, Shifted;
    IntegerTypeIsNarrowest(x);
    ShiftedMagnitude(Rational(x, 1), 0);
    assert x % 1 == 0;
  }
}
