/** The arithmetic of parseAmountToMinor: a decimal worth `cents` hundredths becomes the
    binary64 number nearest cents/100, is multiplied by 100 in binary64, and is rounded
    to an integer. When is the integer the one the user wrote? */
module MinorUnits {
  import opened Double

  /** 2^45 major units, in minor units: the first amount the chain may get wrong is
      above this one. */
  const FIRST: int := 3518437208883200

  /** Math.round: to the nearest integer, ties upwards. */
  function MathRound(x: real): int {
    (x + 0.5).Floor
  }

  /** Number(text): the binary64 number nearest the decimal. */
  ghost function Major(cents: nat): (v: real)
    ensures v >= 0.0
  {
    if cents > 0 then RoundedError(cents as real / 100.0); Rounded(cents as real / 100.0) else 0.0
  }

  /** The binary64 product Number(text) * 100. */
  ghost function Product(cents: nat): (p: real)
    ensures p >= 0.0
  {
    if Major(cents) > 0.0 then RoundedError(Major(cents) * 100.0); Rounded(Major(cents) * 100.0) else 0.0
  }

  /** Math.round(Number(text) * 100). */
  ghost function Minor(cents: nat): int {
    MathRound(Product(cents))
  }

  /** The amounts the chain converts exactly. Past 2^53 it is exact on twice what it is
      exact on. */
  predicate Exact(cents: nat) {
    if cents < FIRST then true
    else if cents < 4503599627370496 then !(50 < cents * 28 % 100 < 68)
    else if cents < 2 * FIRST then true
    else if cents < 9007199254740992 then
      var r := cents * 64 % 100;
      r < 32 || r > 68 || ((r == 32 || r == 68) && cents % 2 == 0)
    else cents % 2 == 0 && Exact(cents / 2)
  }

  lemma MajorPositive(cents: nat)
    requires cents > 0
    ensures Major(cents) > 0.0
  {
    RoundedError(cents as real / 100.0);
  }

  // ----- below 2^45 major units ----------------------------------------------------------

  lemma BelowFirst(cents: nat)
    requires 0 < cents < FIRST
    ensures Minor(cents) == cents
  {
    var x := cents as real / 100.0;
    MajorPositive(cents);
    SmallPowers();
    RoundedError(x);
    UlpBelow(x, -8);
    var p := Major(cents) * 100.0;
    RoundedError(p);
    UlpBelow(p, -1);
  }

  // ----- above it: the quotient and the remainder decide --------------------------------

  /** From 2^45 to 2^46 major units the last place of Number(text) is worth 1/128, and
      q is the nearest number of 128ths: `off` cents/128 are lost. */
  lemma In128ths(cents: nat, q: int, off: int)
    requires FIRST <= cents < 2 * FIRST
    requires 128 * cents == 100 * q + off && -50 < off < 50
    ensures Major(cents) * 100.0 == cents as real - off as real / 128.0
  {
    SmallPowers();
    RoundedIs(cents as real / 100.0, -7, 1.0 / 128.0, q);
  }

  /** From 2^46 major units to 2^53 minor units it is worth 1/64. */
  lemma In64ths(cents: nat, q: int, off: int)
    requires 2 * FIRST <= cents < 9007199254740992
    requires 64 * cents == 100 * q + off && -50 < off < 50
    ensures Major(cents) * 100.0 == cents as real - off as real / 64.0
  {
    SmallPowers();
    RoundedIs(cents as real / 100.0, -6, 1.0 / 64.0, q);
  }

  /** A multiple of four is never half-way between two multiples of 100. */
  lemma NearestHundred(m: int) returns (q: int, off: int)
    ensures 4 * m == 100 * q + off && -50 < off < 50
  {
    q, off := m / 25, 4 * (m % 25);
    if off >= 50 {
      q, off := q + 1, off - 100;
    }
  }

  lemma RemainderIs(n: int, q: int, off: int)
    requires n == 100 * q + off && -50 < off < 50
    ensures off == if n % 100 < 50 then n % 100 else n % 100 - 100
  {
    var r := n % 100;
    assert n == 100 * (n / 100) + r;
    assert off - r == 100 * (n / 100 - q);
  }

  lemma InHalfBinade(p: real)
    requires 2251799813685248.0 <= p < 4503599627370496.0
    ensures InBinade(p, -1) && Pow2(-1) == 0.5
  {
    SmallPowers();
  }

  /** The integer nearest 2 * (cents - off/128), ties to even. */
  function NearestHalves(cents: int, off: int): int {
    if off < -32 then 2 * cents + 1 else if off > 32 then 2 * cents - 1 else 2 * cents
  }

  lemma NearestHalvesClose(cents: int, off: int, k: int)
    requires -50 < off < 50 && k == NearestHalves(cents, off)
    ensures
      var d := -(off as real) / 128.0 + cents as real - k as real / 2.0;
      -0.25 < d < 0.25 || (k % 2 == 0 && -0.25 <= d <= 0.25)
  {
  }

  /** The product, counted in halves. */
  lemma ProductInHalves(cents: nat, off: int)
    requires FIRST <= cents < 4503599627370496 && -50 < off < 50
    requires Major(cents) * 100.0 == cents as real - off as real / 128.0
    ensures Product(cents) == NearestHalves(cents, off) as real / 2.0
  {
    var p, k := Major(cents) * 100.0, NearestHalves(cents, off);
    InHalfBinade(p);
    NearestHalvesClose(cents, off, k);
    assert Scale(k as real, 0.5) == k as real / 2.0;
    RoundedIs(p, -1, 0.5, k);
  }

  lemma RoundHalves(n: int, k: int)
    requires 2 * n - 1 <= k <= 2 * n + 1
    ensures MathRound(k as real / 2.0) == if k == 2 * n + 1 then n + 1 else n
  {
  }

  /** Below 2^52 minor units the product keeps halves, and Math.round lifts a half. */
  lemma Halves(cents: nat) returns (off: int)
    requires FIRST <= cents < 4503599627370496
    ensures Minor(cents) == if off < -32 then cents + 1 else cents
    ensures off == if cents * 28 % 100 < 50 then cents * 28 % 100 else cents * 28 % 100 - 100
  {
    var q;
    q, off := NearestHundred(7 * cents);
    RemainderIs(cents * 28, q, off);
    In128ths(cents, cents + q, off);
    ProductInHalves(cents, off);
    RoundHalves(cents, NearestHalves(cents, off));
  }

  lemma InUnitBinade(p: real)
    requires TWO52 <= p < TWO53
    ensures InBinade(p, 0) && Pow2(0) == 1.0
  {
  }

  lemma CloseToUnit(cents: nat, off: int)
    requires 4503599627370496 <= cents < 2 * FIRST && -50 < off < 50
    requires cents == 4503599627370496 ==> off <= 0
    requires Major(cents) * 100.0 == cents as real - off as real / 128.0
    ensures Product(cents) == cents as real
  {
    var p := Major(cents) * 100.0;
    InUnitBinade(p);
    assert Scale(cents as real, 1.0) == cents as real;
    RoundedIs(p, 0, 1.0, cents);
  }

  lemma AtTwo52(q: int, off: int)
    requires 4503599627370496 * 28 == 100 * q + off && -50 < off < 50
    ensures off == -12
  {
    assert off + 12 == 100 * (1261007895663739 - q);
  }

  /** From 2^52 on the product is an integer; its error is still below one half. */
  lemma Units(cents: nat)
    requires 4503599627370496 <= cents < 2 * FIRST
    ensures Minor(cents) == cents
  {
    var q, off := NearestHundred(7 * cents);
    In128ths(cents, cents + q, off);
    if cents == 4503599627370496 { AtTwo52(q, off); }
    CloseToUnit(cents, off);
    RoundInteger(cents);
  }

  /** The integer nearest cents - off/64, ties to even. */
  function NearestUnit(cents: int, off: int): int {
    if off < -32 || (off == -32 && cents % 2 == 1) then cents + 1
    else if off > 32 || (off == 32 && cents % 2 == 1) then cents - 1
    else cents
  }

  lemma NearestUnitClose(cents: int, off: int, u: real)
    requires -50 < off < 50 && u == 1.0
    ensures
      var d := -(off as real) / 64.0 + (cents - NearestUnit(cents, off)) as real * u;
      -0.5 < d < 0.5 || (NearestUnit(cents, off) % 2 == 0 && -0.5 <= d <= 0.5)
  {
  }

  lemma ProductInUnits(cents: nat, off: int)
    requires 2 * FIRST <= cents < 9007199254740992 && -50 < off < 50
    requires Major(cents) * 100.0 == cents as real - off as real / 64.0
    ensures Product(cents) == NearestUnit(cents, off) as real
  {
    NearestUnitClose(cents, off, 1.0);
    InUnitBinade(Major(cents) * 100.0);
    RoundedIs(Major(cents) * 100.0, 0, 1.0, NearestUnit(cents, off));
  }

  lemma RoundInteger(k: int)
    ensures MathRound(k as real) == k
  {
  }

  /** Beyond 2^46 major units the error can exceed one half. */
  lemma CoarseUnits(cents: nat) returns (off: int)
    requires 2 * FIRST <= cents < 9007199254740992
    ensures Minor(cents) == NearestUnit(cents, off)
    ensures off == if cents * 64 % 100 < 50 then cents * 64 % 100 else cents * 64 % 100 - 100
  {
    var q;
    q, off := NearestHundred(16 * cents);
    RemainderIs(cents * 64, q, off);
    In64ths(cents, q, off);
    ProductInUnits(cents, off);
    RoundInteger(NearestUnit(cents, off));
  }

  // ----- beyond 2^53 minor units -----------------------------------------------------------

  lemma MathRoundWithin(x: real, n: int)
    requires x <= n as real
    ensures MathRound(x) <= n
  {
  }

  lemma TwiceNeverOdd(p: real) returns (j: int)
    requires p >= TWO53
    ensures MathRound(Rounded(p)) == 2 * j
  {
    j := MultipleBeyond(p, 1);
    TwiceInteger(j);
    RoundInteger(2 * j);
  }

  lemma RoundBelow53(p: real)
    requires 0.0 < p < TWO53
    ensures MathRound(Rounded(p)) <= 9007199254740992
  {
    RoundedBelow(p);
    MathRoundWithin(Rounded(p), 9007199254740992);
  }

  lemma RoundNotOdd(p: real, n: int)
    requires p > 0.0 && n > 9007199254740992 && n % 2 == 1
    ensures MathRound(Rounded(p)) != n
  {
    if p < TWO53 {
      RoundBelow53(p);
    } else {
      var j := TwiceNeverOdd(p);
    }
  }

  /** Past 2^53 the product is a multiple of two, so no odd amount comes back. */
  lemma OddNeverExact(cents: nat)
    requires cents > 9007199254740992 && cents % 2 == 1
    ensures Minor(cents) != cents
  {
    MajorPositive(cents);
    RoundNotOdd(Major(cents) * 100.0, cents);
  }

  lemma TwiceInteger(j: int)
    ensures Scale(j as real, Pow2(1)) == (2 * j) as real
  {
    assert Pow2(1) == 2.0;
  }

  lemma TwiceMajor(cents: nat)
    requires cents > 0
    ensures Major(2 * cents) == 2.0 * Major(cents)
  {
    TwiceReal(cents);
    RoundedTwice(cents as real / 100.0);
  }

  lemma TwiceReal(n: int)
    ensures (2 * n) as real / 100.0 == 2.0 * (n as real / 100.0)
  {
    assert (2 * n) as real == 2.0 * n as real;
  }

  lemma TwiceTimes(v: real)
    requires v > 0.0
    ensures Rounded((2.0 * v) * 100.0) == 2.0 * Rounded(v * 100.0)
  {
    assert (2.0 * v) * 100.0 == 2.0 * (v * 100.0);
    RoundedTwice(v * 100.0);
  }

  lemma TwiceProduct(cents: nat)
    requires cents > 0
    ensures Product(2 * cents) == 2.0 * Product(cents)
  {
    MajorPositive(cents);
    TwiceMajor(cents);
    TwiceTimes(Major(cents));
  }

  lemma LargeProduct(cents: nat)
    requires cents >= 9007199254740992
    ensures Major(cents) * 100.0 >= TWO52
  {
    MajorPositive(cents);
    RelativeError(cents as real / 100.0);
  }

  lemma ProductWhole(cents: nat) returns (k: int)
    requires cents >= 4503599627370496
    ensures Product(cents) == k as real
  {
    MajorPositive(cents);
    if cents < 2 * FIRST {
      var q, off := NearestHundred(7 * cents);
      In128ths(cents, cents + q, off);
      if cents == 4503599627370496 { AtTwo52(q, off); }
      CloseToUnit(cents, off);
      k := cents;
    } else if cents < 9007199254740992 {
      var q, off := NearestHundred(16 * cents);
      In64ths(cents, q, off);
      ProductInUnits(cents, off);
      k := NearestUnit(cents, off);
    } else {
      LargeProduct(cents);
      k := MultipleBeyond(Major(cents) * 100.0, 0);
      assert Scale(k as real, Pow2(0)) == k as real;
    }
  }

  /** The chain commutes with doubling once the product is an integer. */
  lemma MinorTwice(cents: nat)
    requires cents >= 4503599627370496
    ensures Minor(2 * cents) == 2 * Minor(cents)
  {
    TwiceProduct(cents);
    var k := ProductWhole(cents);
    RoundInteger(k);
    RoundInteger(2 * k);
  }

  /** The chain is exact on precisely the amounts Exact describes; over every amount a
      JavaScript number holds exactly it is never more than one minor unit away. */
  lemma {:induction false} ExactIff(cents: nat)
    ensures Minor(cents) == cents <==> Exact(cents)
    ensures cents < 9007199254740992 ==> cents - 1 <= Minor(cents) <= cents + 1
    decreases cents
  {
    if cents == 0 {
    } else if cents < FIRST {
      BelowFirst(cents);
    } else if cents < 4503599627370496 {
      var off := Halves(cents);
    } else if cents < 2 * FIRST {
      Units(cents);
    } else if cents < 9007199254740992 {
      var off := CoarseUnits(cents);
    } else if cents % 2 == 1 {
      OddNeverExact(cents);
    } else {
      ExactIff(cents / 2);
      MinorTwice(cents / 2);
    }
  }

  lemma HundredRemainder(n: int, q: int, r: int)
    requires n == 100 * q + r && 0 <= r < 100
    ensures n % 100 == r
  {
    assert r - n % 100 == 100 * (n / 100 - q);
  }

  /** The smallest amount the chain gets wrong is 35184372088832.02, read as .03. */
  lemma FirstFailure(cents: nat)
    requires cents <= FIRST + 2
    ensures Minor(cents) == if cents == FIRST + 2 then cents + 1 else cents
  {
    if cents < FIRST {
      ExactIff(cents);
    } else {
      var off := Halves(cents);
      HundredRemainder(cents * 28, 985162418487296, (cents - FIRST) * 28);
    }
  }

  /** No positive amount, however large, is rounded to zero. */
  lemma StaysPositive(cents: nat)
    requires cents > 0
    ensures Minor(cents) > 0
  {
    MajorPositive(cents);
    RelativeError(cents as real / 100.0);
    RelativeError(Major(cents) * 100.0);
  }
}
