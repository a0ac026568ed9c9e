/** Instants, durations and machine integers as the Go runtime gives them. */
module Clock {

  /** An instant in nanoseconds since Go's zero time, so that 0 is the value for which IsZero() is true. */
  type Time = int

  /** A duration in nanoseconds. */
  type Duration = int

  const SECOND: Duration := 1_000_000_000

  function Seconds(n: int): Duration {
    n * 1_000_000_000
  }

  /** Seconds from Go's zero time to the Unix epoch. */
  const EPOCH_SECONDS: int := 62_135_596_800

  /** What a real clock returns: nothing earlier than the Unix epoch. */
  predicate Reading(t: Time) {
    t >= EPOCH_SECONDS * SECOND
  }

  /** Whole seconds since the Unix epoch, rounded down. */
  function Unix(t: Time): int {
    t / 1_000_000_000 - EPOCH_SECONDS
  }

  /**
   * Integer division as Go does it, rounding toward zero. It is spelled out by subtraction, which keeps
   * division by a variable out of every other proof; QuotIsDivision says that nothing else is meant.
   */
  function Quot(a: int, b: int): int
    requires b > 0
    decreases if a < 0 then -a else a
  {
    if a >= b then 1 + Quot(a - b, b)
    else if a <= -b then Quot(a + b, b) - 1
    else 0
  }

  const TWO_63: int := 0x8000_0000_0000_0000
  const TWO_64: int := 0x1_0000_0000_0000_0000

  /** The value an int64 holds after arithmetic that would give n. */
  function Wrap64(n: int): int {
    (n + TWO_63) % TWO_64 - TWO_63
  }

  predicate FitsInt64(n: int) {
    -TWO_63 <= n < TWO_63
  }

  /** What a quotient leaves of the dividend. */
  function Rest(a: int, b: int): int
    requires b > 0
  {
    a - b * Quot(a, b)
  }

  lemma RestStep(a: int, b: int, q: int)
    ensures b * (q + 1) == b * q + b && b * (q - 1) == b * q - b
  {
  }

  /** The quotient leaves a remainder smaller than the divisor, with the sign of the dividend. */
  lemma {:induction false} QuotIsDivision(a: int, b: int)
    requires b > 0
    ensures -b < Rest(a, b) < b && (a >= 0 ==> Rest(a, b) >= 0) && (a <= 0 ==> Rest(a, b) <= 0)
    decreases if a < 0 then -a else a
  {
    if a >= b {
      QuotIsDivision(a - b, b);
      RestStep(a, b, Quot(a - b, b));
    } else if a <= -b {
      QuotIsDivision(a + b, b);
      RestStep(a, b, Quot(a + b, b));
    }
  }

  /** Dividing by a positive number keeps the order. */
  lemma {:induction false} QuotMonotone(a: int, b: int, d: int)
    requires d > 0 && a <= b
    ensures Quot(a, d) <= Quot(b, d)
    decreases (if a < 0 then -a else a) + (if b < 0 then -b else b)
  {
    if a >= d {
      QuotMonotone(a - d, b - d, d);
    } else if b <= -d {
      QuotMonotone(a + d, b + d, d);
    } else {
      QuotSign(a, d);
      QuotSign(b, d);
    }
  }

  lemma {:induction false} QuotSign(a: int, d: int)
    requires d > 0
    ensures a > -d ==> Quot(a, d) >= 0
    ensures a < d ==> Quot(a, d) <= 0
    decreases if a < 0 then -a else a
  {
    if a >= d {
      QuotSign(a - d, d);
    } else if a <= -d {
      QuotSign(a + d, d);
    }
  }

  /** Shifting a natural dividend by k whole divisors shifts the quotient by k. */
  lemma {:induction false} QuotShift(a: int, d: int, k: nat)
    requires d > 0 && a >= 0
    ensures Quot(a + k * d, d) == Quot(a, d) + k
    decreases k
  {
    if k > 0 {
      QuotShift(a, d, k - 1);
      assert a + k * d - d == a + (k - 1) * d;
      assert (k - 1) * d >= 0;
    }
  }

  lemma UnixMonotone(a: Time, b: Time)
    requires a <= b
    ensures Unix(a) <= Unix(b)
  {
  }
}
