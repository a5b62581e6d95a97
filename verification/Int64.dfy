/** Go's int64: two's-complement wrap-around, against which the engine's
    in-memory accumulators are specified. Postgres bigint additions do not wrap
    (they fail outside the range), so the database side uses `InRange`. */
module Int64 {
  const TWO63: int := 0x8000_0000_0000_0000
  const TWO64: int := 0x1_0000_0000_0000_0000
  const MIN: int := -TWO63
  const MAX: int := TWO63 - 1

  type int64 = x: int | -0x8000_0000_0000_0000 <= x <= 0x7FFF_FFFF_FFFF_FFFF

  predicate InRange(x: int) {
    MIN <= x <= MAX
  }

  predicate Congruent(a: int, b: int) {
    (a - b) % TWO64 == 0
  }

  /** The int64 a Go expression with exact value x evaluates to. */
  function Wrap(x: int): (r: int64)
    ensures Congruent(r, x)
    ensures InRange(x) <==> r == x
  {
    (x + TWO63) % TWO64 - TWO63
  }

  lemma WrapQuotient(x: int) returns (k: int)
    ensures Wrap(x) == x - TWO64 * k
  {
    k := (x + TWO63) / TWO64;
  }

  lemma CongruentQuotient(a: int, b: int) returns (k: int)
    requires Congruent(a, b)
    ensures a == b + TWO64 * k
  {
    k := (a - b) / TWO64;
  }

  /** Two values in range that differ by a multiple of 2^64 are equal. */
  lemma SameInRange(a: int, b: int, k: int)
    requires InRange(a) && InRange(b) && a == b + TWO64 * k
    ensures a == b
  {
  }

  /** Wrapping is determined by congruence: any in-range value congruent to x is Wrap(x). */
  lemma WrapUnique(r: int, x: int)
    requires InRange(r) && Congruent(r, x)
    ensures r == Wrap(x)
  {
    var j := CongruentQuotient(r, x);
    var k := WrapQuotient(x);
    SameInRange(r, Wrap(x), j + k);
  }

  lemma WrapZero(x: int)
    ensures Wrap(x) == 0 <==> Congruent(x, 0)
  {
    if Congruent(x, 0) { WrapUnique(0, x); }
  }

  /** Wrapping after every addition is the same as wrapping the exact total once. */
  lemma WrapStep(total: int, x: int)
    ensures Wrap(Wrap(total) + x) == Wrap(total + x)
  {
    var i := WrapQuotient(total);
    var j := WrapQuotient(Wrap(total) + x);
    var k := WrapQuotient(total + x);
    SameInRange(Wrap(Wrap(total) + x), Wrap(total + x), k - i - j);
  }
}
