/** Go's int64: two's-complement arithmetic that wraps silently. */
module Int64 {
  const MAX_INT64: int := 0x7fff_ffff_ffff_ffff
  const MIN_INT64: int := -0x8000_0000_0000_0000
  const TWO_64: int := 0x1_0000_0000_0000_0000

  predicate InRange(x: int) {
    MIN_INT64 <= x <= MAX_INT64
  }

  /** The int64 congruent to `x` modulo 2^64. */
  function Wrap(x: int): (r: int)
    ensures InRange(r)
    ensures InRange(x) ==> r == x
  {
    (x - MIN_INT64) % TWO_64 + MIN_INT64
  }

  function Add64(x: int, y: int): int {
    Wrap(x + y)
  }

  function Sub64(x: int, y: int): int {
    Wrap(x - y)
  }

  function Neg64(x: int): int {
    Wrap(-x)
  }

  lemma WrapShift(x: int, k: int)
    ensures Wrap(x + k * TWO_64) == Wrap(x)
  {
    var y := x - MIN_INT64;
    assert y + k * TWO_64 == (y / TWO_64 + k) * TWO_64 + y % TWO_64;
  }

  /** Wrapping commutes with addition, so a chain of wrapping additions is one wrapped sum. */
  lemma WrapAdd(x: int, y: int)
    ensures Wrap(Wrap(x) + y) == Wrap(x + y)
  {
    var k := -((x - MIN_INT64) / TWO_64);
    assert Wrap(x) == x + k * TWO_64;
    WrapShift(x + y, k);
  }

  lemma WrapSub(x: int, y: int)
    ensures Wrap(x - Wrap(y)) == Wrap(x - y)
  {
    var k := (y - MIN_INT64) / TWO_64;
    assert Wrap(y) == y - k * TWO_64;
    WrapShift(x - y, k);
  }

  lemma AddIsSubOfNeg(x: int, y: int)
    ensures Sub64(x, Neg64(y)) == Add64(x, y)
  {
    WrapSub(x, -y);
  }
}
