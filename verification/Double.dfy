/** Rounding of positive reals to binary64, round-half-to-even, with an unbounded
    exponent (IEEE 754-2019, section 4.3.1; overflow and subnormals lie outside the
    amounts considered here). */
module Double {
  const TWO52: real := 4503599627370496.0
  const TWO53: real := 9007199254740992.0

  /** Products with a power of two are written through this function, so that the
      solver compares them by name and sees an expanded product only in the lemmas
      that need one. */
  function Scale(a: real, u: real): real {
    a * u
  }

  lemma ScaleLess(a: real, b: real, u: real)
    requires u > 0.0
    ensures a < b <==> Scale(a, u) < Scale(b, u)
  {
    if a < b { assert (b - a) * u > 0.0; }
    if b < a { assert (a - b) * u > 0.0; }
  }

  lemma ScaleMinus(a: real, b: real, u: real)
    ensures Scale(a - b, u) == Scale(a, u) - Scale(b, u)
  {
  }

  lemma ScaleTwice(a: real, b: real, u: real)
    ensures Scale(a, Scale(b, u)) == Scale(a * b, u)
  {
  }

  /** Scaling keeps the order of distances. */
  lemma ScaleDistance(s: real, k: real, d: real, u: real)
    requires u > 0.0 && -d <= s - k <= d
    ensures -Scale(d, u) <= Scale(s, u) - Scale(k, u) <= Scale(d, u)
  {
    ScaleLess(s, k - d, u);
    ScaleLess(k + d, s, u);
    assert Scale(k + d, u) == Scale(k, u) + Scale(d, u);
    ScaleMinus(k, d, u);
  }

  // ----- powers of two -----------------------------------------------------------------

  function Pow2(e: int): (r: real)
    ensures r > 0.0
    decreases if e < 0 then -e else e
  {
    if e == 0 then 1.0 else if e > 0 then 2.0 * Pow2(e - 1) else Pow2(e + 1) / 2.0
  }

  lemma Pow2Step(e: int)
    ensures Pow2(e + 1) == 2.0 * Pow2(e)
  {
  }

  lemma {:induction false} Pow2Monotone(e: int, f: int)
    requires e <= f
    ensures Pow2(e) <= Pow2(f)
    decreases f - e
  {
    if e < f {
      Pow2Step(f - 1);
      Pow2Monotone(e, f - 1);
    }
  }

  lemma SmallPowers()
    ensures Pow2(-1) == 0.5 && Pow2(-6) == 1.0 / 64.0 && Pow2(-7) == 1.0 / 128.0 && Pow2(-8) == 1.0 / 256.0
  {
    assert Pow2(-2) == 0.25;
    assert Pow2(-4) == 1.0 / 16.0;
  }

  // ----- exponents ---------------------------------------------------------------------

  /** x has a 53-bit significand at exponent e. */
  ghost predicate InBinade(x: real, e: int) {
    Scale(TWO52, Pow2(e)) <= x < Scale(TWO53, Pow2(e))
  }

  lemma InBinadeZero(x: real)
    requires TWO52 <= x < TWO53
    ensures InBinade(x, 0)
  {
  }

  lemma DoubledBinade(x: real, e: int)
    ensures InBinade(2.0 * x, e + 1) <==> InBinade(x, e)
  {
    Pow2Step(e);
    assert Scale(TWO52, Pow2(e + 1)) == 2.0 * Scale(TWO52, Pow2(e));
    assert Scale(TWO53, Pow2(e + 1)) == 2.0 * Scale(TWO53, Pow2(e));
  }

  lemma {:induction false} LargeExponent(x: real, n: nat)
    requires TWO52 <= x && x.Floor <= n
    ensures exists e :: InBinade(x, e)
    decreases n
  {
    if x < TWO53 {
      InBinadeZero(x);
    } else {
      LargeExponent(x / 2.0, n - 1);
      var e :| InBinade(x / 2.0, e);
      DoubledBinade(x / 2.0, e);
      assert InBinade(x, e + 1);
    }
  }

  lemma {:induction false} SmallExponent(x: real, y: real, k: nat)
    requires 0.0 < x < TWO53 && TWO52 <= y == Scale(x, Pow2(k))
    ensures exists e :: InBinade(x, e)
    decreases k
  {
    if TWO52 <= x {
      InBinadeZero(x);
    } else {
      assert k > 0;
      Pow2Step(k - 1);
      ScaleTwice(x, 2.0, Pow2(k - 1));
      assert Scale(x, Pow2(k)) == Scale(2.0 * x, Pow2(k - 1));
      SmallExponent(2.0 * x, y, k - 1);
      var e :| InBinade(2.0 * x, e);
      DoubledBinade(x, e - 1);
      assert InBinade(x, e - 1);
    }
  }

  lemma {:induction false} Pow2Grows(k: nat)
    ensures Pow2(k) >= k as real + 1.0
  {
    if k > 0 { Pow2Grows(k - 1); }
  }

  lemma Archimedes(x: real) returns (k: nat)
    requires x > 0.0
    ensures TWO52 <= Scale(x, Pow2(k))
  {
    var q := TWO52 / x;
    assert Scale(q, x) == TWO52;
    k := q.Floor;
    Pow2Grows(k);
    ScaleLess(q, Pow2(k), x);
    assert Scale(Pow2(k), x) == Scale(x, Pow2(k));
  }

  lemma ExponentExists(x: real)
    requires x > 0.0
    ensures exists e :: InBinade(x, e)
  {
    if TWO52 <= x {
      LargeExponent(x, x.Floor);
    } else {
      var k := Archimedes(x);
      SmallExponent(x, Scale(x, Pow2(k)), k);
    }
  }

  lemma BinadesInOrder(e: int, f: int)
    requires e < f
    ensures Scale(TWO53, Pow2(e)) <= Scale(TWO52, Pow2(f))
  {
    Pow2Step(e);
    ScaleTwice(TWO52, 2.0, Pow2(e));
    Pow2Monotone(e + 1, f);
    assert Scale(TWO52, Pow2(e + 1)) <= Scale(TWO52, Pow2(f));
  }

  lemma BinadeBelow(x: real, e: int, f: int)
    requires InBinade(x, e) && x < Scale(TWO53, Pow2(f))
    ensures e <= f
  {
    if f < e { BinadesInOrder(f, e); }
  }

  /** The exponent of a positive real; by BinadeUnique there is only one. */
  ghost function Exponent(x: real): (e: int)
    requires x > 0.0
    ensures InBinade(x, e)
  {
    ExponentExists(x);
    var e :| InBinade(x, e);
    e
  }

  lemma BinadeUnique(x: real, e: int)
    requires x > 0.0 && InBinade(x, e)
    ensures e == Exponent(x)
  {
    BinadeBelow(x, e, Exponent(x));
    BinadeBelow(x, Exponent(x), e);
  }

  // ----- rounding --------------------------------------------------------------------

  /** Unit in the last place. */
  ghost function Ulp(x: real): (u: real)
    requires x > 0.0
    ensures u > 0.0
  {
    Pow2(Exponent(x))
  }

  /** Below 2^(53+e) the unit in the last place is at most 2^e. */
  lemma UlpBelow(x: real, e: int)
    requires 0.0 < x < Scale(TWO53, Pow2(e))
    ensures Ulp(x) <= Pow2(e)
  {
    BinadeBelow(x, Exponent(x), e);
    Pow2Monotone(Exponent(x), e);
  }

  lemma Quotient(x: real, u: real) returns (s: real)
    requires u > 0.0 && Scale(TWO52, u) <= x < Scale(TWO53, u)
    ensures Scale(s, u) == x && TWO52 <= s < TWO53
  {
    s := x / u;
    ScaleLess(s, TWO52, u);
    ScaleLess(s, TWO53, u);
  }

  lemma SignificandExists(x: real)
    requires x > 0.0
    ensures exists s: real :: TWO52 <= s < TWO53 && Scale(s, Ulp(x)) == x
  {
    var s := Quotient(x, Ulp(x));
  }

  /** x counted in units in the last place. */
  ghost function Significand(x: real): (s: real)
    requires x > 0.0
    ensures Scale(s, Ulp(x)) == x && TWO52 <= s < TWO53
  {
    SignificandExists(x);
    var s: real :| TWO52 <= s < TWO53 && Scale(s, Ulp(x)) == x;
    s
  }

  /** Nearest integer, ties to even. */
  function HalfEven(s: real): (k: int)
    ensures -0.5 <= s - k as real <= 0.5
  {
    var f := s.Floor;
    if s - f as real < 0.5 then f
    else if s - f as real > 0.5 then f + 1
    else if f % 2 == 0 then f else f + 1
  }

  ghost function Rounded(x: real): real
    requires x >= 0.0
  {
    if x == 0.0 then 0.0 else Scale(HalfEven(Significand(x)) as real, Ulp(x))
  }

  /** At most half a unit in the last place. */
  lemma RoundedError(x: real)
    requires x > 0.0
    ensures -Ulp(x) / 2.0 <= x - Rounded(x) <= Ulp(x) / 2.0
    ensures Rounded(x) > 0.0
  {
    var s := Significand(x);
    ScaleDistance(s, HalfEven(s) as real, 0.5, Ulp(x));
    ScaleLess(0.0, HalfEven(s) as real, Ulp(x));
  }

  /** Hence a relative error of at most 2^-53. */
  lemma RelativeError(x: real)
    requires x > 0.0
    ensures -x <= (x - Rounded(x)) * TWO53 <= x
  {
    RoundedError(x);
    assert Scale(TWO52, Ulp(x)) <= x;
  }

  lemma HalfEvenIs(s: real, k: int)
    requires -0.5 < s - k as real < 0.5 || (k % 2 == 0 && -0.5 <= s - k as real <= 0.5)
    ensures HalfEven(s) == k
  {
    var f := s.Floor;
    assert (f - k) as real == f as real - k as real;
    assert f == k || f == k - 1;
  }

  /** The value of Rounded once the exponent and the nearest significand are known. */
  lemma RoundedIs(x: real, e: int, u: real, k: int)
    requires x > 0.0 && InBinade(x, e) && u == Pow2(e)
    requires
      || -0.5 * u < x - Scale(k as real, u) < 0.5 * u
      || (k % 2 == 0 && -0.5 * u <= x - Scale(k as real, u) <= 0.5 * u)
    ensures Rounded(x) == Scale(k as real, u)
  {
    BinadeUnique(x, e);
    var s, kr := Significand(x), k as real;
    assert Scale(0.5, u) == 0.5 * u;
    assert Scale(kr + 0.5, u) == Scale(kr, u) + Scale(0.5, u);
    ScaleMinus(kr, 0.5, u);
    ScaleLess(kr - 0.5, s, u);
    ScaleLess(s, kr + 0.5, u);
    ScaleLess(s, kr - 0.5, u);
    ScaleLess(kr + 0.5, s, u);
    HalfEvenIs(s, k);
  }

  lemma ScaleInjective(a: real, b: real, u: real)
    requires u > 0.0 && Scale(a, u) == Scale(b, u)
    ensures a == b
  {
    ScaleLess(a, b, u);
    ScaleLess(b, a, u);
  }

  lemma ScaleDoubled(a: real, u: real)
    ensures Scale(a, 2.0 * u) == 2.0 * Scale(a, u)
  {
  }

  lemma UlpTwice(x: real)
    requires x > 0.0
    ensures Ulp(2.0 * x) == 2.0 * Ulp(x)
  {
    DoubledBinade(x, Exponent(x));
    BinadeUnique(2.0 * x, Exponent(x) + 1);
    Pow2Step(Exponent(x));
  }

  /** Doubling commutes with rounding. */
  lemma RoundedTwice(x: real)
    requires x > 0.0
    ensures Rounded(2.0 * x) == 2.0 * Rounded(x)
  {
    UlpTwice(x);
    ScaleDoubled(Significand(x), Ulp(x));
    ScaleInjective(Significand(x), Significand(2.0 * x), Ulp(2.0 * x));
    ScaleDoubled(HalfEven(Significand(x)) as real, Ulp(x));
  }

  lemma SmallProduct(k: real, bound: real, u: real)
    requires k <= bound && 0.0 < u <= 1.0 && bound > 0.0
    ensures Scale(k, u) <= bound
  {
    ScaleLess(bound, k, u);
    assert Scale(bound, u) == Scale(u, bound);
    ScaleLess(1.0, u, bound);
  }

  /** Below 2^53 nothing is rounded past it. */
  lemma RoundedBelow(x: real)
    requires 0.0 < x < TWO53
    ensures Rounded(x) <= TWO53
  {
    var k := HalfEven(Significand(x));
    assert k as real < 9007199254740993.0;
    assert k <= 9007199254740992;
    UlpBelow(x, 0);
    SmallProduct(k as real, TWO53, Ulp(x));
  }

  /** From 2^52 on only integers are left, from 2^53 on only even ones. */
  lemma MultipleBeyond(x: real, e: nat) returns (j: int)
    requires e <= 1 && x >= if e == 0 then TWO52 else TWO53
    ensures Rounded(x) == Scale(j as real, Pow2(e))
  {
    var f := Exponent(x);
    assert Scale(TWO52, Pow2(e)) == if e == 0 then TWO52 else TWO53;
    if f < e {
      BinadesInOrder(f, e);
      assert false;
    }
    j := FinerMultiple(HalfEven(Significand(x)), e, f - e);
  }

  // ----- correct rounding ------------------------------------------------------------

  function Abs(x: real): real { if x < 0.0 then -x else x }

  lemma NearestInteger(s: real, k: int, j: int)
    requires -0.5 <= s - k as real <= 0.5
    ensures Abs(s - k as real) <= Abs(s - j as real)
  {
    if j > k {
      assert j as real >= k as real + 1.0;
    } else if j < k {
      assert j as real <= k as real - 1.0;
    }
  }

  lemma ScaleNearer(s: real, k: real, j: real, u: real)
    requires u > 0.0 && Abs(s - k) <= Abs(s - j)
    ensures Abs(Scale(s, u) - Scale(k, u)) <= Abs(Scale(s, u) - Scale(j, u))
  {
    ScaleMinus(s, k, u);
    ScaleMinus(s, j, u);
    ScaleMinus(0.0, s - k, u);
    ScaleMinus(0.0, s - j, u);
    ScaleLess(Abs(s - j), Abs(s - k), u);
    ScaleLess(s - k, 0.0, u);
    ScaleLess(s - j, 0.0, u);
  }

  lemma NearestMultiple(x: real, j: int)
    requires x > 0.0
    ensures Abs(x - Rounded(x)) <= Abs(x - Scale(j as real, Ulp(x)))
  {
    var s := Significand(x);
    NearestInteger(s, HalfEven(s), j);
    ScaleNearer(s, HalfEven(s) as real, j as real, Ulp(x));
  }

  lemma BelowIsFarther(x: real, w: real, lo: real)
    requires w <= lo <= x
    ensures Abs(x - lo) <= Abs(x - w)
  {
  }

  /** A multiple of 2^(f+k) is a multiple of 2^f. */
  lemma {:induction false} FinerMultiple(m: int, f: int, k: nat) returns (j: int)
    ensures Scale(j as real, Pow2(f)) == Scale(m as real, Pow2(f + k))
    decreases k
  {
    if k == 0 {
      j := m;
    } else {
      j := FinerMultiple(2 * m, f, k - 1);
      Pow2Step(f + k - 1);
      ScaleTwice(m as real, 2.0, Pow2(f + k - 1));
      assert (2 * m) as real == m as real * 2.0;
    }
  }

  lemma CoarserExponent(m: int, e: int, f: int)
    requires e < f && m < 9007199254740992
    ensures Scale(m as real, Pow2(e)) <= Scale(TWO52, Pow2(f))
  {
    ScaleLess(m as real, TWO53, Pow2(e));
    BinadesInOrder(e, f);
  }

  /** Rounded(x) is a nearest binary64 value: no 53-bit significand with any exponent
      is closer to x. */
  lemma RoundedIsNearest(x: real, m: int, e: int)
    requires x > 0.0 && -9007199254740992 < m < 9007199254740992
    ensures Abs(x - Rounded(x)) <= Abs(x - Scale(m as real, Pow2(e)))
  {
    var f := Exponent(x);
    if e >= f {
      var j := FinerMultiple(m, f, e - f);
      NearestMultiple(x, j);
    } else {
      CoarserExponent(m, e, f);
      NearestMultiple(x, 4503599627370496);
      BelowIsFarther(x, Scale(m as real, Pow2(e)), Scale(TWO52, Pow2(f)));
    }
  }

  /** And on a tie the significand is even. */
  lemma TiesToEven(x: real, k: int)
    requires x > 0.0 && x == Scale(k as real + 0.5, Ulp(x))
    ensures exists j: int :: j % 2 == 0 && Rounded(x) == Scale(j as real, Ulp(x))
  {
    var s := Significand(x);
    ScaleInjective(s, k as real + 0.5, Ulp(x));
    assert s.Floor == k;
    var j := HalfEven(s);
    assert j % 2 == 0 && Rounded(x) == Scale(j as real, Ulp(x));
  }
}
