/** Finite binary64 numbers, and the conversion Go performs in `float64(i)` for an
    int64 `i`: round to the nearest double, ties to an even significand
    (section 4.3.1 of IEEE 754-2019). NaN and the infinities are left out. */
module Float64 {

  const TWO_52: int := 0x10_0000_0000_0000
  const TWO_53: int := 0x20_0000_0000_0000
  const TWO_63: int := 0x8000_0000_0000_0000

  function Pow2(n: nat): (p: nat)
    ensures p >= 1
  {
    if n == 0 then 1 else 2 * Pow2(n - 1)
  }

  /** x == m * 2^e with a 53-bit significand and a positive exponent. */
  ghost predicate IsScaledUp(x: real, m: int, e: nat) {
    -TWO_53 < m < TWO_53 && e <= 971 && x == (m * Pow2(e)) as real
  }

  /** x == m * 2^-e with a 53-bit significand. */
  ghost predicate IsScaledDown(x: real, m: int, e: nat) {
    -TWO_53 < m < TWO_53 && e <= 1074 && x * Pow2(e) as real == m as real
  }

  /** The finite doubles. */
  ghost predicate IsDouble(x: real) {
    || (exists m, e :: IsScaledUp(x, m, e))
    || (exists m, e :: IsScaledDown(x, m, e))
  }

  predicate IsInt64(i: int) {
    -TWO_63 <= i < TWO_63
  }

  /** `x == math.Trunc(x)`. */
  predicate IsIntegral(x: real) {
    x == x.Floor as real
  }

  /** The distance between neighbouring doubles in the binade of n, for n >= 2^53; 1 below. */
  function Ulp(n: nat): (s: nat)
    ensures s >= 1
  {
    if n < TWO_53 then 1 else 2 * Ulp(n / 2)
  }

  function UlpExponent(n: nat): nat {
    if n < TWO_53 then 0 else 1 + UlpExponent(n / 2)
  }

  function RoundNat(n: nat): nat {
    var s := Ulp(n);
    var q, r := n / s, n % s;
    if 2 * r < s || (2 * r == s && q % 2 == 0) then q * s else (q + 1) * s
  }

  /** `float64(i)` for an int64. */
  function FromInt64(i: int): real {
    if i >= 0 then RoundNat(i) as real else -(RoundNat(-i) as real)
  }

  lemma {:induction false} UlpIsPow2(n: nat)
    ensures Ulp(n) == Pow2(UlpExponent(n))
  {
    if n >= TWO_53 {
      UlpIsPow2(n / 2);
    }
  }

  lemma {:induction false} UlpExponentBound(n: nat, k: nat)
    requires n < TWO_53 * Pow2(k)
    ensures UlpExponent(n) <= k
  {
    if n >= TWO_53 {
      UlpExponentBound(n / 2, k - 1);
    }
  }

  /** Within its binade n has a 53-bit quotient. */
  lemma {:induction false} UlpBinade(n: nat)
    ensures n < TWO_53 * Ulp(n)
    ensures n >= TWO_52 ==> TWO_52 * Ulp(n) <= n
  {
    if n >= TWO_53 {
      UlpBinade(n / 2);
    }
  }

  lemma {:induction false} UlpGrowth(a: nat, b: nat)
    requires a <= b
    ensures Ulp(a) == Ulp(b) || 2 * Ulp(a) <= Ulp(b)
  {
    if b >= TWO_53 {
      if a >= TWO_53 {
        UlpGrowth(a / 2, b / 2);
      } else {
        assert Ulp(b / 2) >= 1;
      }
    }
  }

  lemma MulMonotone(a: int, b: int, s: nat)
    requires a <= b
    ensures a * s <= b * s
  {
  }

  /** n as a significand, a spacing and a remainder, with the rounded value in those terms. */
  lemma Split(n: nat) returns (q: nat, s: nat, r: nat)
    ensures s == Ulp(n) && n == q * s + r && r < s
    ensures RoundNat(n) == if 2 * r < s || (2 * r == s && q % 2 == 0) then q * s else q * s + s
  {
    s := Ulp(n);
    q, r := n / s, n % s;
    assert (q + 1) * s == q * s + s;
  }

  /** A quotient by s is determined by the range its multiple falls in. */
  lemma QuotientBounds(n: nat, q: nat, s: nat, r: nat, lo: nat, hi: nat)
    requires n == q * s + r && r < s
    requires lo * s <= n < hi * s
    ensures lo <= q < hi
    ensures lo * s <= q * s && q * s + s <= hi * s
  {
    assert (q + 1) * s == q * s + s;
    if q < lo {
      MulMonotone(q + 1, lo, s);
      assert false;
    }
    if q >= hi {
      MulMonotone(hi, q, s);
      assert false;
    }
    MulMonotone(lo, q, s);
    MulMonotone(q + 1, hi, s);
  }

  /** Conversion is exact on the safe integers. */
  lemma RoundNatExact(n: nat)
    requires n <= TWO_53
    ensures RoundNat(n) == n
  {
    if n == TWO_53 {
      assert Ulp(TWO_52) == 1;
      assert Ulp(TWO_53) == 2 * Ulp(TWO_53 / 2);
    }
  }

  lemma RoundNatBinade(n: nat)
    requires n >= TWO_52
    ensures TWO_52 * Ulp(n) <= RoundNat(n) <= TWO_53 * Ulp(n)
  {
    var q, s, r := Split(n);
    UlpBinade(n);
    QuotientBounds(n, q, s, r, TWO_52, TWO_53);
  }

  lemma RoundWithSameSpacing(a: nat, qa: nat, ra: nat, b: nat, qb: nat, rb: nat, s: nat)
    requires a <= b && a == qa * s + ra && b == qb * s + rb && ra < s && rb < s
    ensures (qa == qb && ra <= rb) || qa * s + s <= qb * s
  {
    assert (qb + 1) * s == qb * s + s;
    if qa > qb {
      MulMonotone(qb + 1, qa, s);
      assert false;
    }
    if qa < qb {
      MulMonotone(qa + 1, qb, s);
      assert (qa + 1) * s == qa * s + s;
    }
  }

  /** Rounding preserves order. */
  lemma RoundNatMonotone(a: nat, b: nat)
    requires a <= b
    ensures RoundNat(a) <= RoundNat(b)
  {
    UlpGrowth(a, b);
    if Ulp(b) == Ulp(a) {
      var qa, s, ra := Split(a);
      var qb, _, rb := Split(b);
      RoundWithSameSpacing(a, qa, ra, b, qb, rb, s);
    } else {
      assert b >= TWO_53;
      RoundNatBinade(b);
      if a >= TWO_52 {
        RoundNatBinade(a);
      } else {
        RoundNatExact(a);
      }
    }
  }

  lemma FromInt64Monotone(a: int, b: int)
    requires a <= b
    ensures FromInt64(a) <= FromInt64(b)
  {
    if a >= 0 {
      RoundNatMonotone(a, b);
    } else if b < 0 {
      RoundNatMonotone(-b, -a);
    } else {
      assert RoundNat(-a) as real >= 0.0;
    }
  }

  lemma FromInt64Exact(i: int)
    requires -TWO_53 <= i <= TWO_53
    ensures FromInt64(i) == i as real
  {
    RoundNatExact(if i >= 0 then i else -i);
  }

  /** The rounded value has a 53-bit significand. */
  lemma RoundNatSignificand(n: nat) returns (m: nat, e: nat)
    requires n <= TWO_63
    ensures m < TWO_53 && e <= 12 && RoundNat(n) == m * Pow2(e)
  {
    assert Pow2(11) == 2048 by {
      assert Pow2(4) == 16 && Pow2(8) == 256;
    }
    UlpExponentBound(n, 11);
    UlpIsPow2(n);
    UlpBinade(n);
    var q, s, r := Split(n);
    QuotientBounds(n, q, s, r, 0, TWO_53);
    e := UlpExponent(n);
    if RoundNat(n) == q * s {
      m := q;
    } else if q + 1 < TWO_53 {
      m := q + 1;
      assert m * s == q * s + s;
    } else {
      m, e := TWO_52, e + 1;
      assert Pow2(e) == 2 * s;
      assert q == TWO_53 - 1;
    }
  }

  /** The result of the conversion is itself a double. */
  lemma FromInt64IsDouble(i: int)
    requires IsInt64(i)
    ensures IsDouble(FromInt64(i))
  {
    var m, e := RoundNatSignificand(if i >= 0 then i else -i);
    var signed := if i >= 0 then m as int else -m;
    assert signed * Pow2(e) == if i >= 0 then m * Pow2(e) else -(m * Pow2(e));
    assert IsScaledUp(FromInt64(i), signed, e);
  }

  lemma {:induction false} Pow2Splits(a: nat, b: nat)
    ensures Pow2(a + b) == Pow2(a) * Pow2(b)
  {
    if a > 0 {
      Pow2Splits(a - 1, b);
      assert Pow2(a + b) == 2 * Pow2(a - 1 + b);
    }
  }

  lemma RealMulMonotone(a: real, b: real, c: real)
    requires a <= b && 0.0 <= c
    ensures c * a <= c * b
  {
  }

  /** A scaled-up double with too small an exponent lies below the binade of 2^k. */
  lemma SmallExponentBound(m: int, e: nat, k: nat)
    requires m < TWO_53 && e < k
    ensures m * Pow2(e) < TWO_52 * Pow2(k)
  {
    Pow2Splits(k - 1 - e, e);
    assert k - 1 - e + e == k - 1;
    MulMonotone(1, Pow2(k - 1 - e), Pow2(e));
    MulMonotone(m, TWO_53 - 1, Pow2(e));
    assert Pow2(k) == 2 * Pow2(k - 1);
  }

  lemma ScaledUpIsMultiple(m: int, e: nat, k: nat) returns (c: int)
    requires e >= k
    ensures m * Pow2(e) == c * Pow2(k)
  {
    Pow2Splits(e - k, k);
    assert e - k + k == e;
    c := m * Pow2(e - k);
  }

  lemma ScaledDownIsSmall(x: real, m: int, e: nat)
    requires IsScaledDown(x, m, e)
    ensures x < TWO_53 as real
  {
    if x >= TWO_53 as real {
      RealMulMonotone(1.0, Pow2(e) as real, x);
      assert false;
    }
  }

  /** Above 2^53 a double is a whole multiple of the spacing of its binade. */
  lemma DoublesAreMultiples(x: real, k: nat) returns (c: int)
    requires IsDouble(x) && k >= 1
    requires x >= (TWO_52 * Pow2(k)) as real
    ensures x == (c * Pow2(k)) as real
  {
    assert Pow2(k) == 2 * Pow2(k - 1);
    if m: int, e: nat :| IsScaledUp(x, m, e) {
      if e < k {
        SmallExponentBound(m, e, k);
      }
      c := ScaledUpIsMultiple(m, e, k);
    } else {
      var m: int, e: nat :| IsScaledDown(x, m, e);
      ScaledDownIsSmall(x, m, e);
      assert false;
    }
  }

  function Distance(x: real, y: real): real {
    if x <= y then y - x else x - y
  }

  /** The rounded value is no farther from n than either neighbour, and all else lies outside them. */
  lemma NeighboursAreNearest(n: nat, low: nat, s: nat, r: nat, rounded: nat, x: real)
    requires n == low + r && r < s
    requires (rounded == low && 2 * r <= s) || (rounded == low + s && 2 * r >= s)
    requires x <= low as real || x >= (low + s) as real
    ensures Distance(rounded as real, n as real) <= Distance(x, n as real)
  {
  }

  /** No double lies strictly between the neighbours q * s and q * s + s of n. */
  lemma NothingBetween(n: nat, q: nat, s: nat, r: nat, x: real)
    requires n > TWO_53 && IsDouble(x) && s == Ulp(n) && n == q * s + r && r < s
    ensures x <= (q * s) as real || x >= (q * s + s) as real
  {
    UlpBinade(n);
    UlpIsPow2(n);
    QuotientBounds(n, q, s, r, TWO_52, TWO_53);
    MulMonotone(TWO_52, q, s);
    if x >= (TWO_52 * s) as real {
      var c := DoublesAreMultiples(x, UlpExponent(n));
      if c <= q {
        MulMonotone(c, q, s);
      } else {
        MulMonotone(q + 1, c, s);
        assert (q + 1) * s == q * s + s;
      }
    }
  }

  /** No double is nearer to n than the one the conversion picks. */
  lemma RoundNatNearest(n: nat, x: real)
    requires IsDouble(x)
    ensures Distance(RoundNat(n) as real, n as real) <= Distance(x, n as real)
  {
    if n <= TWO_53 {
      RoundNatExact(n);
    } else {
      var q, s, r := Split(n);
      NothingBetween(n, q, s, r, x);
      NeighboursAreNearest(n, q * s, s, r, RoundNat(n), x);
    }
  }

  lemma ScaledUpIsIntegral(x: real, m: int, e: nat)
    requires IsScaledUp(x, m, e)
    ensures IsIntegral(x)
  {
    var n := m * Pow2(e);
    assert x == n as real;
  }

  /** Half of 2^53 bounds what is scaled down at least once. */
  lemma ScaledDownIsBounded(x: real, p: real)
    requires x * p <= TWO_53 as real && p >= 2.0
    ensures x <= TWO_52 as real
  {
    if x > TWO_52 as real {
      RealMulMonotone(2.0, p, x);
    }
  }

  lemma FractionIsSmall(x: real, m: int, e: nat)
    requires IsScaledDown(x, m, e) && !IsIntegral(x)
    ensures -(TWO_52 as real) < x < TWO_52 as real
  {
    assert e == 0 ==> x == m as real;
    if e > 0 {
      assert Pow2(e) == 2 * Pow2(e - 1);
      var p := Pow2(e) as real;
      assert (-x) * p == -(x * p);
      ScaledDownIsBounded(x, p);
      ScaledDownIsBounded(-x, p);
      assert IsIntegral(TWO_52 as real) && IsIntegral(-(TWO_52 as real));
    }
  }

  /** A double with a fraction is below 2^52 in magnitude. */
  lemma FractionsAreSmall(x: real)
    requires IsDouble(x) && !IsIntegral(x)
    ensures -(TWO_52 as real) < x < TWO_52 as real
  {
    if m: int, e: nat :| IsScaledUp(x, m, e) {
      ScaledUpIsIntegral(x, m, e);
    } else {
      var m: int, e: nat :| IsScaledDown(x, m, e);
      FractionIsSmall(x, m, e);
    }
  }

  lemma NegationIsDouble(x: real)
    requires IsDouble(x)
    ensures IsDouble(-x)
  {
    if m: int, e: nat :| IsScaledUp(x, m, e) {
      assert (-m) * Pow2(e) == -(m * Pow2(e));
      assert IsScaledUp(-x, -m, e);
    } else {
      var m: int, e: nat :| IsScaledDown(x, m, e);
      assert (-x) * Pow2(e) as real == -(x * Pow2(e) as real);
      assert IsScaledDown(-x, -m, e);
    }
  }

  /** The conversion of an int64 picks a nearest double. */
  lemma FromInt64Nearest(i: int, x: real)
    requires IsDouble(x)
    ensures Distance(FromInt64(i), i as real) <= Distance(x, i as real)
  {
    if i >= 0 {
      RoundNatNearest(i, x);
    } else {
      NegationIsDouble(x);
      RoundNatNearest(-i, -x);
    }
  }

  /** Two doubles are equally near only halfway between neighbours, and then an even multiple is picked. */
  lemma HalfwayPicksEven(n: nat, q: nat, s: nat, r: nat, rounded: nat, x: real) returns (c: nat)
    requires n == q * s + r && r < s
    requires rounded == if 2 * r < s || (2 * r == s && q % 2 == 0) then q * s else q * s + s
    requires x <= (q * s) as real || x >= (q * s + s) as real
    requires x != rounded as real && Distance(x, n as real) == Distance(rounded as real, n as real)
    ensures q <= c <= q + 1 && c % 2 == 0 && rounded == c * s
  {
    assert (q + 1) * s == q * s + s;
    assert 2 * r == s;
    c := if q % 2 == 0 then q else q + 1;
  }

  lemma RoundNatTiesToEven(n: nat, x: real) returns (c: nat)
    requires IsDouble(x) && x != RoundNat(n) as real
    requires Distance(x, n as real) == Distance(RoundNat(n) as real, n as real)
    ensures TWO_52 <= c <= TWO_53 && c % 2 == 0 && RoundNat(n) == c * Ulp(n)
  {
    if n <= TWO_53 {
      RoundNatExact(n);
      assert false;
    } else {
      var q, s, r := Split(n);
      NothingBetween(n, q, s, r, x);
      UlpBinade(n);
      QuotientBounds(n, q, s, r, TWO_52, TWO_53);
      c := HalfwayPicksEven(n, q, s, r, RoundNat(n), x);
    }
  }

  /** When another double is just as near, the conversion picks the one with the even 53-bit significand. */
  lemma FromInt64TiesToEven(i: int, x: real) returns (c: int)
    requires IsDouble(x) && x != FromInt64(i) && Distance(x, i as real) == Distance(FromInt64(i), i as real)
    ensures var n := if i >= 0 then i else -i;
            FromInt64(i) == (c * Ulp(n)) as real && c % 2 == 0 && (TWO_52 <= c <= TWO_53 || -TWO_53 <= c <= -TWO_52)
  {
    if i >= 0 {
      c := RoundNatTiesToEven(i, x);
    } else {
      NegationIsDouble(x);
      var d := RoundNatTiesToEven(-i, -x);
      c := -d;
      assert c * Ulp(-i) == -(d * Ulp(-i));
    }
  }
}
