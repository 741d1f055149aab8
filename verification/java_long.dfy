/**
 * Java's 64-bit `long` and the one operation of `java.util.concurrent.atomic.AtomicLong`
 * that the greeting code uses, `incrementAndGet`. Arithmetic on `long` wraps around
 * modulo 2^64, so incrementing the largest value gives the smallest one.
 */
module JavaLong {

  const MinLong: int := -0x8000_0000_0000_0000
  const MaxLong: int := 0x7FFF_FFFF_FFFF_FFFF

  /** The number of distinct `long` values. */
  const Modulus: int := 0x1_0000_0000_0000_0000

  /** A value of Java type `long`. */
  type Long = x: int | MinLong <= x <= MaxLong

  /**
   * `AtomicLong.incrementAndGet` read sequentially: the successor of `v` in two's
   * complement, i.e. the one `long` that is congruent to v + 1 modulo 2^64.
   */
  function IncrementAndGet(v: Long): (r: Long)
    ensures (r - v - 1) % Modulus == 0
    ensures v < MaxLong ==> r == v + 1
  {
    if v == MaxLong then MinLong else v + 1
  }

  /**
   * Two successive increments never give back the same value: whatever the
   * starting point, even across the wrap-around, the second id differs from the first.
   */
  lemma IncrementTwiceDiffers(v: Long)
    ensures IncrementAndGet(IncrementAndGet(v)) != IncrementAndGet(v)
  {
  }
}
