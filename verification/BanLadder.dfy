/** Ban lengths: the base TTL doubled per prior strike, capped, in 64-bit nanoseconds. */
module BanLadder {
  import opened Clock
  import opened Policies

  function Doubled(ttl: Duration, maxTTL: Duration, n: nat): Duration
    decreases n
  {
    if n == 0 || ttl >= maxTTL then ttl else Doubled(Wrap64(2 * ttl), maxTTL, n - 1)
  }

  function BanTTL(baseSec: int, maxSec: int, strikes: nat): Duration {
    Min(Doubled(Wrap64(Seconds(baseSec)), Wrap64(Seconds(maxSec)), strikes), Wrap64(Seconds(maxSec)))
  }

  function Min(a: int, b: int): int {
    if a > b then b else a
  }

  function PolicyTTL(p: Policy, strikes: nat): Duration {
    BanTTL(p.banTTLSec, p.banTTLMaxSec, strikes)
  }

  /** The TTL a custom rule asks for; unlike the ladder it is not capped. */
  function RuleTTL(r: Rule, p: Policy): Duration {
    if r.ttlSec > 0 then Wrap64(Seconds(r.ttlSec)) else Wrap64(Seconds(p.banTTLSec))
  }

  method ComputeBanTTL(baseSec: int, maxSec: int, strikes: nat) returns (ttl: Duration)
    ensures ttl == BanTTL(baseSec, maxSec, strikes)
  {
    ttl := Wrap64(Seconds(baseSec));
    var maxTTL := Wrap64(Seconds(maxSec));
    var i := 0;
    while i < strikes && ttl < maxTTL
      invariant i <= strikes
      invariant Doubled(ttl, maxTTL, strikes - i) == Doubled(Wrap64(Seconds(baseSec)), maxTTL, strikes)
    {
      ttl := Wrap64(2 * ttl);
      i := i + 1;
    }
    if ttl > maxTTL {
      ttl := maxTTL;
    }
  }

  // -- What the ladder promises --

  function Pow2(n: nat): int {
    if n == 0 then 1 else 2 * Pow2(n - 1)
  }

  /** The promised length: base times two to the strikes, but never more than the maximum. */
  function Promised(baseSec: int, maxSec: int, strikes: nat): Duration {
    Seconds(Min(baseSec * Pow2(strikes), maxSec))
  }

  /** The first rung of the ladder base, 2·base, 4·base, ... that reaches the maximum. */
  function TopRung(baseSec: int, maxSec: int): int
    requires baseSec > 0
    decreases maxSec - baseSec
  {
    if baseSec >= maxSec then baseSec else TopRung(2 * baseSec, maxSec)
  }

  function TopStrike(baseSec: int, maxSec: int): nat
    requires baseSec > 0
    decreases maxSec - baseSec
  {
    if baseSec >= maxSec then 0 else 1 + TopStrike(2 * baseSec, maxSec)
  }

  /** The whole ladder, up to the rung that is cut back to the maximum, fits in 64 bits. */
  predicate LadderFits(baseSec: int, maxSec: int)
    requires baseSec > 0
  {
    FitsInt64(Seconds(TopRung(baseSec, maxSec)))
  }

  lemma WrapOfFitting(n: int)
    requires FitsInt64(n)
    ensures Wrap64(n) == n
  {
  }

  lemma {:induction false} TopRungReaches(baseSec: int, maxSec: int)
    requires baseSec > 0
    ensures TopRung(baseSec, maxSec) >= baseSec && TopRung(baseSec, maxSec) >= maxSec
    decreases maxSec - baseSec
  {
    if baseSec < maxSec {
      TopRungReaches(2 * baseSec, maxSec);
    }
  }

  lemma {:induction false} Pow2Positive(n: nat)
    ensures Pow2(n) >= 1
  {
    if n > 0 {
      Pow2Positive(n - 1);
    }
  }

  lemma MulAtLeast(a: int, b: int)
    requires a > 0 && b >= 1
    ensures a * b >= a
  {
  }

  lemma {:induction false} DoublingWithoutOverflow(baseSec: int, maxSec: int, n: nat)
    requires baseSec > 0 && LadderFits(baseSec, maxSec)
    ensures Min(Doubled(Seconds(baseSec), Seconds(maxSec), n), Seconds(maxSec)) == Promised(baseSec, maxSec, n)
    decreases n
  {
    TopRungReaches(baseSec, maxSec);
    if n == 0 {
      assert baseSec * Pow2(0) == baseSec;
    } else if baseSec >= maxSec {
      Pow2Positive(n);
      MulAtLeast(baseSec, Pow2(n));
    } else {
      TopRungReaches(2 * baseSec, maxSec);
      WrapOfFitting(2 * Seconds(baseSec));
      assert 2 * Seconds(baseSec) == Seconds(2 * baseSec);
      DoublingWithoutOverflow(2 * baseSec, maxSec, n - 1);
      Pow2Step(baseSec, n);
    }
  }

  lemma Pow2Step(a: int, n: nat)
    requires n > 0
    ensures a * Pow2(n) == 2 * a * Pow2(n - 1)
  {
  }

  lemma {:induction false} DoublingOverflows(baseSec: int, maxSec: int)
    requires 0 < baseSec < maxSec && FitsInt64(Seconds(maxSec)) && !LadderFits(baseSec, maxSec)
    ensures Doubled(Seconds(baseSec), Seconds(maxSec), TopStrike(baseSec, maxSec)) < 0
    decreases maxSec - baseSec
  {
    assert Seconds(2 * baseSec) == 2 * Seconds(baseSec);
    assert TopStrike(baseSec, maxSec) == 1 + TopStrike(2 * baseSec, maxSec);
    if 2 * baseSec >= maxSec {
      assert TopRung(2 * baseSec, maxSec) == 2 * baseSec;
    } else {
      WrapOfFitting(2 * Seconds(baseSec));
      DoublingOverflows(2 * baseSec, maxSec);
    }
  }

  /**
   * The ladder keeps its promise for every number of strikes exactly if it fits in 64 bits. Normalize does not
   * bound the configured maximum, so a large one makes some rung negative and the ban is over as it starts.
   */
  lemma LadderKeepsPromiseIffItFits(baseSec: int, maxSec: int)
    requires 0 < baseSec <= maxSec
    ensures (forall n: nat :: BanTTL(baseSec, maxSec, n) == Promised(baseSec, maxSec, n)) <==> LadderFits(baseSec, maxSec)
  {
    TopRungReaches(baseSec, maxSec);
    if LadderFits(baseSec, maxSec) {
      WrapOfFitting(Seconds(baseSec));
      WrapOfFitting(Seconds(maxSec));
      forall n: nat ensures BanTTL(baseSec, maxSec, n) == Promised(baseSec, maxSec, n) {
        DoublingWithoutOverflow(baseSec, maxSec, n);
      }
    } else {
      var n := TopStrike(baseSec, maxSec);
      TopStrikeReaches(baseSec, maxSec);
      assert Promised(baseSec, maxSec, n) == Seconds(maxSec);
      if FitsInt64(Seconds(maxSec)) {
        WrapOfFitting(Seconds(baseSec));
        WrapOfFitting(Seconds(maxSec));
        DoublingOverflows(baseSec, maxSec);
      }
      assert BanTTL(baseSec, maxSec, n) != Promised(baseSec, maxSec, n);
    }
  }

  lemma {:induction false} TopStrikeReaches(baseSec: int, maxSec: int)
    requires baseSec > 0
    ensures baseSec * Pow2(TopStrike(baseSec, maxSec)) >= maxSec
    decreases maxSec - baseSec
  {
    if baseSec < maxSec {
      TopStrikeReaches(2 * baseSec, maxSec);
      var n := TopStrike(2 * baseSec, maxSec);
      assert baseSec * Pow2(n + 1) == 2 * baseSec * Pow2(n);
    } else {
      assert baseSec * Pow2(0) == baseSec;
    }
  }

  /** More strikes never shorten a ban, and one more strike at most doubles it. */
  lemma LadderClimbs(baseSec: int, maxSec: int, n: nat)
    requires 0 < baseSec <= maxSec && LadderFits(baseSec, maxSec)
    ensures 0 < BanTTL(baseSec, maxSec, n) <= BanTTL(baseSec, maxSec, n + 1) <= 2 * BanTTL(baseSec, maxSec, n)
    ensures BanTTL(baseSec, maxSec, n) <= Seconds(maxSec)
    ensures BanTTL(baseSec, maxSec, 0) == Seconds(baseSec)
  {
    LadderKeepsPromiseIffItFits(baseSec, maxSec);
    Pow2Positive(n);
    MulAtLeast(baseSec, Pow2(n));
    assert baseSec * Pow2(n + 1) == 2 * (baseSec * Pow2(n));
    assert BanTTL(baseSec, maxSec, n) == Promised(baseSec, maxSec, n);
    assert BanTTL(baseSec, maxSec, n + 1) == Promised(baseSec, maxSec, n + 1);
    assert BanTTL(baseSec, maxSec, 0) == Promised(baseSec, maxSec, 0);
    assert baseSec * Pow2(0) == baseSec;
  }

  /** A normalized policy whose ladder does not fit: three strikes give a ban of negative length. */
  lemma LargeMaximumOverflows()
    ensures BanTTL(2_000_000_000, 9_000_000_000, 3) < 0
  {
    var b := Seconds(2_000_000_000);
    var m := Seconds(9_000_000_000);
    assert Wrap64(b) == b && Wrap64(m) == m;
    assert Wrap64(2 * b) == 2 * b && Wrap64(4 * b) == 4 * b;
    assert Wrap64(8 * b) < 0;
    assert Doubled(4 * b, m, 1) == Doubled(Wrap64(8 * b), m, 0);
    assert Doubled(2 * b, m, 2) == Doubled(4 * b, m, 1);
    assert Doubled(b, m, 3) == Doubled(2 * b, m, 2);
  }
}
