/** Types that several of the services share, and Go's 64-bit integers. */
module Basics {
  datatype Option<T> = None | Some(value: T)

  type byte = x: int | 0 <= x < 256

  const MAX_INT64: int := 0x7fff_ffff_ffff_ffff
  const MIN_INT64: int := -0x8000_0000_0000_0000
  const TWO_TO_64: int := 0x1_0000_0000_0000_0000

  predicate FitsInt64(n: int) {
    MIN_INT64 <= n <= MAX_INT64
  }

  type Int64 = x: int | FitsInt64(x)

  /** What is left of a result in 64 bits, two's complement. */
  function Wrap(x: int): Int64 {
    (x - MIN_INT64) % TWO_TO_64 + MIN_INT64
  }

  lemma WrapTwice(x: int, y: int)
    ensures Wrap(Wrap(x) + y) == Wrap(x + y)
  {
    var q := (x - MIN_INT64) / TWO_TO_64;
    assert x == Wrap(x) + q * TWO_TO_64;
    assert (x + y - MIN_INT64) % TWO_TO_64 == (Wrap(x) + y - MIN_INT64) % TWO_TO_64;
  }

  /** Exactly the results that fit are right; one that is too large comes out smaller. */
  lemma WrapIsRight(x: int)
    ensures Wrap(x) == x <==> FitsInt64(x)
    ensures x > MAX_INT64 ==> Wrap(x) < x
  {
  }
}
