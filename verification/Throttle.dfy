/** The token bucket of one relayed connection: its rate bound over every interleaving, and the wait of a lone caller. */
module Throttle {

  /** Instants and durations in seconds, sizes in bytes. */
  datatype Bucket = Bucket(bps: real, burst: real, tokens: real, last: real)

  predicate Proper(b: Bucket) {
    b.bps >= 1.0 && b.burst == b.bps && b.tokens <= b.burst
  }

  function Earned(bps: real, elapsed: real): real {
    bps * elapsed
  }

  lemma EarnedAdds(bps: real, a: real, b: real)
    ensures Earned(bps, a + b) == Earned(bps, a) + Earned(bps, b)
    ensures bps >= 1.0 && a >= 0.0 ==> Earned(bps, a) >= 0.0
  {
  }

  function TokensAt(b: Bucket, now: real): real {
    if b.tokens + Earned(b.bps, now - b.last) > b.burst then b.burst else b.tokens + Earned(b.bps, now - b.last)
  }

  function Refilled(b: Bucket, now: real): Bucket {
    b.(tokens := TokensAt(b, now), last := now)
  }

  /** Looking at the bucket in between changes nothing. */
  lemma RefillComposes(b: Bucket, s: real, t: real)
    requires Proper(b) && b.last <= s <= t
    ensures Refilled(Refilled(b, s), t) == Refilled(b, t)
  {
    EarnedAdds(b.bps, s - b.last, t - s);
    assert (s - b.last) + (t - s) == t - b.last;
    EarnedAdds(b.bps, t - s, 0.0);
  }

  // -- Attempts --

  /** More than the burst is let through at once. */
  predicate Admits(b: Bucket, n: nat) {
    b.tokens >= n as real || n as real > b.burst
  }

  function Attempted(b: Bucket, n: nat, now: real): Bucket {
    if Admits(Refilled(b, now), n) then Refilled(b, now).(tokens := TokensAt(b, now) - n as real) else Refilled(b, now)
  }

  /** Seconds to sleep until the missing tokens are earned, no less than a millisecond and no more than a second. */
  function Wait(missing: real, bps: real): (w: real)
    requires bps >= 1.0
    ensures 0.001 <= w <= 1.0
  {
    var w := missing / bps;
    if w < 0.001 then 0.001 else if w > 1.0 then 1.0 else w
  }

  lemma WaitEarns(missing: real, bps: real)
    requires bps >= 1.0 && missing > 0.0
    ensures Earned(bps, Wait(missing, bps)) >= Earned(bps, 0.001) == bps / 1000.0
    ensures Earned(bps, Wait(missing, bps)) < missing + Earned(bps, 0.001)
  {
    var w := Wait(missing, bps);
    var exact := missing / bps;
    assert bps * exact == missing;
    EarnedAdds(bps, w - 0.001, 0.001);
    if w == 0.001 {
    } else {
      assert w <= exact;
      EarnedAdds(bps, exact - w, w);
    }
  }

  // -- Runs: attempts of any callers, at non-decreasing instants --

  datatype Attempt = Attempt(n: nat, now: real)

  function Run(b: Bucket, run: seq<Attempt>): Bucket {
    if |run| == 0 then b else Attempted(Run(b, run[..|run| - 1]), run[|run| - 1].n, run[|run| - 1].now)
  }

  /** The bytes that passed. */
  function Passed(b: Bucket, run: seq<Attempt>): nat {
    if |run| == 0 then 0
    else
      Passed(b, run[..|run| - 1]) +
      if Admits(Refilled(Run(b, run[..|run| - 1]), run[|run| - 1].now), run[|run| - 1].n) then run[|run| - 1].n else 0
  }

  predicate InTime(from: real, run: seq<Attempt>) {
    && (forall i | 0 <= i < |run| :: from <= run[i].now)
    && (forall i, j | 0 <= i < j < |run| :: run[i].now <= run[j].now)
  }

  lemma AttemptConserves(b: Bucket, n: nat, now: real)
    requires Proper(b) && b.last <= now
    ensures Proper(Attempted(b, n, now)) && Attempted(b, n, now).last == now
    ensures Attempted(b, n, now).bps == b.bps
    ensures Attempted(b, n, now).tokens
         <= b.tokens + Earned(b.bps, now - b.last) - if Admits(Refilled(b, now), n) then n as real else 0.0
  {
  }

  /** Tokens are never made up: what is left is at most what was there, plus what was earned, less what passed. */
  lemma {:induction false} TokensAreConserved(b: Bucket, run: seq<Attempt>)
    requires Proper(b) && InTime(b.last, run)
    ensures Proper(Run(b, run)) && Run(b, run).bps == b.bps
    ensures Run(b, run).last == if |run| == 0 then b.last else run[|run| - 1].now
    ensures Run(b, run).tokens <= b.tokens + Earned(b.bps, Run(b, run).last - b.last) - Passed(b, run) as real
  {
    if |run| == 0 {
      EarnedAdds(b.bps, 0.0, 0.0);
    } else {
      var front, a := run[..|run| - 1], run[|run| - 1];
      TokensAreConserved(b, front);
      AttemptConserves(Run(b, front), a.n, a.now);
      EarnedAdds(b.bps, Run(b, front).last - b.last, a.now - Run(b, front).last);
      assert (Run(b, front).last - b.last) + (a.now - Run(b, front).last) == a.now - b.last;
    }
  }

  /** A bucket looked at earlier makes the same decisions later. */
  lemma {:induction false} LookingIsFree(b: Bucket, s: real, run: seq<Attempt>)
    requires Proper(b) && b.last <= s && InTime(s, run)
    ensures Passed(Refilled(b, s), run) == Passed(b, run)
    ensures |run| > 0 ==> Run(Refilled(b, s), run) == Run(b, run)
  {
    if |run| > 0 {
      var front, a := run[..|run| - 1], run[|run| - 1];
      LookingIsFree(b, s, front);
      if |front| == 0 {
        RefillComposes(b, s, a.now);
      }
    }
  }

  /** Since any instant s the bytes exceed burst + bps · elapsed by no more than the debt the bucket is left with. */
  lemma ExcessIsDebt(b: Bucket, s: real, run: seq<Attempt>)
    requires Proper(b) && b.last <= s && InTime(s, run) && |run| > 0
    ensures Passed(b, run) as real <= b.burst + Earned(b.bps, run[|run| - 1].now - s) + Debt(Run(b, run))
  {
    LookingIsFree(b, s, run);
    TokensAreConserved(Refilled(b, s), run);
  }

  function Debt(b: Bucket): real {
    if b.tokens < 0.0 then -b.tokens else 0.0
  }

  /** An ordinary write leaves no debt: it passes only once every debt has been earned back. */
  lemma OrdinaryWriteLeavesNoDebt(b: Bucket, n: nat, now: real)
    requires n as real <= b.burst && Admits(Refilled(b, now), n)
    ensures Debt(Attempted(b, n, now)) == 0.0
  {
  }

  /**
   * Right after an admission of at most the burst, no more than burst + bps · elapsed bytes have passed since any
   * earlier instant s, whatever other writes, oversized ones among them, came in between.
   */
  lemma RateIsBounded(b: Bucket, s: real, run: seq<Attempt>)
    requires Proper(b) && b.last <= s && InTime(s, run) && |run| > 0
    requires run[|run| - 1].n as real <= b.burst
    requires Admits(Refilled(Run(b, run[..|run| - 1]), run[|run| - 1].now), run[|run| - 1].n)
    ensures Passed(b, run) as real <= b.burst + Earned(b.bps, run[|run| - 1].now - s)
  {
    ExcessIsDebt(b, s, run);
    TokensAreConserved(b, run[..|run| - 1]);
    OrdinaryWriteLeavesNoDebt(Run(b, run[..|run| - 1]), run[|run| - 1].n, run[|run| - 1].now);
  }

  /** The bound needs that last admission: a single write larger than the burst breaks it. */
  lemma OversizedWriteExceedsTheBound(b: Bucket, n: nat)
    requires Proper(b) && n as real > b.burst
    ensures Passed(b, [Attempt(n, b.last)]) as real > b.burst + Earned(b.bps, b.last - b.last)
  {
    assert [Attempt(n, b.last)][..0] == [];
    assert Run(b, [Attempt(n, b.last)][..0]) == b;
    EarnedAdds(b.bps, 0.0, 0.0);
  }

  // -- The bucket in place --

  /** How many sleeps of a millisecond would earn what is missing. */
  function Sleeps(missing: real, bps: real): (k: nat)
    requires bps >= 1.0
    ensures missing > 0.0 ==> k > 0
  {
    if missing <= 0.0 then 0
    else
      assert missing / bps >= 0.0;
      (missing / bps * 1000.0).Floor + 1
  }

  lemma QuotientsApart(before: real, after: real, bps: real)
    requires bps >= 1.0 && after <= before - bps / 1000.0
    ensures after / bps <= before / bps - 0.001
  {
    var x, y := before / bps, after / bps;
    assert bps * x == before && bps * y == after;
    var gap := y - x + 0.001;
    assert bps * gap == bps * y - bps * x + bps * 0.001;
    assert gap > 0.0 ==> bps * gap > 0.0;
  }

  lemma SleepsDecrease(before: real, after: real, bps: real)
    requires bps >= 1.0 && before > 0.0
    requires after <= 0.0 || after <= before - bps / 1000.0
    ensures Sleeps(after, bps) < Sleeps(before, bps)
  {
    if after > 0.0 {
      QuotientsApart(before, after, bps);
    }
  }

  /** What the bucket still lacks for n bytes at an instant. */
  function Missing(b: Bucket, n: nat, now: real): real {
    n as real - TokensAt(b, now)
  }

  lemma SleepMakesProgress(b: Bucket, n: nat, now: real, later: real)
    requires Proper(b) && b.last == now && !Admits(b, n) && later >= now + Wait(n as real - b.tokens, b.bps)
    ensures Missing(b, n, later) <= 0.0 || Missing(b, n, later) <= Missing(b, n, now) - b.bps / 1000.0
    ensures Missing(b, n, now) == n as real - b.tokens > 0.0
  {
    var w := Wait(n as real - b.tokens, b.bps);
    WaitEarns(n as real - b.tokens, b.bps);
    EarnedAdds(b.bps, later - now - w, w);
    assert later - now - w + w == later - now;
    EarnedAdds(b.bps, 0.0, 0.0);
  }

  /** Slept no longer than it took to earn what was missing at the start, give or take the millisecond. */
  predicate Prompt(b: Bucket, n: nat, start: real, now: real) {
    if Missing(b, n, now) > 0.0 then Earned(b.bps, now - start) == Missing(b, n, start) - Missing(b, n, now)
    else Earned(b.bps, now - start) <= (if Missing(b, n, start) > 0.0 then Missing(b, n, start) else 0.0) + Earned(b.bps, 0.001)
  }

  lemma StaysPrompt(b: Bucket, n: nat, start: real, now: real)
    requires Proper(b) && b.last <= start <= now && n as real <= b.burst && Missing(b, n, now) > 0.0 && Prompt(b, n, start, now)
    ensures Prompt(b, n, start, now + Wait(Missing(b, n, now), b.bps))
  {
    var w := Wait(Missing(b, n, now), b.bps);
    WaitEarns(Missing(b, n, now), b.bps);
    EarnedAdds(b.bps, now - start, w);
    EarnedAdds(b.bps, now - b.last, w);
    assert now - start + w == now + w - start && now - b.last + w == now + w - b.last;
    EarnedAdds(b.bps, now - start, 0.0);
  }

  class TokenBucket {
    const bps: real
    const burst: real
    var tokens: real
    var last: real

    function Value(): Bucket
      reads this
    {
      Bucket(bps, burst, tokens, last)
    }

    /** A positive limit; for any other the relay has no bucket at all. */
    constructor (limit: int, now: real)
      requires limit > 0
      ensures Value() == Bucket(limit as real, limit as real, limit as real, now) && Proper(Value())
    {
      bps, burst, tokens, last := limit as real, limit as real, limit as real, now;
    }

    /** One pass under the lock. */
    method TryTake(n: nat, now: real) returns (admitted: bool, wait: real)
      requires Proper(Value()) && last <= now
      modifies this
      ensures Value() == Attempted(old(Value()), n, now) && Proper(Value())
      ensures admitted <==> Admits(Refilled(old(Value()), now), n)
      ensures !admitted ==> wait == Wait(n as real - tokens, bps)
    {
      AttemptConserves(Value(), n, now);
      tokens := tokens + Earned(bps, now - last);
      last := now;
      if tokens > burst {
        tokens := burst;
      }
      wait := 0.0;
      admitted := tokens >= n as real || n as real > burst;
      if admitted {
        tokens := tokens - n as real;
      } else {
        wait := (n as real - tokens) / bps;
        if wait < 0.001 {
          wait := 0.001;
        }
        if wait > 1.0 {
          wait := 1.0;
        }
      }
    }
  }

  /** No positive limit, no bucket: the relay is then not slowed down at all. */
  method NewThrottle(limit: int, now: real) returns (t: TokenBucket?)
    ensures t == null <==> limit <= 0
    ensures t != null ==> fresh(t) && t.Value() == Bucket(limit as real, limit as real, limit as real, now)
  {
    if limit <= 0 {
      return null;
    }
    t := new TokenBucket(limit, now);
  }

  /**
   * A lone caller gets through: it sleeps between the attempts, each sleep may last longer than asked for, and in the
   * end exactly n tokens have been paid, once, at one instant.
   */
  method Take(t: TokenBucket?, n: int, start: real, lag: nat -> real) returns (done: real)
    requires t != null ==> Proper(t.Value()) && t.last <= start
    requires forall k :: lag(k) >= 0.0
    modifies t
    ensures done >= start
    ensures t != null && n > 0 ==> Admits(Refilled(old(t.Value()), done), n) && t.Value() == Attempted(old(t.Value()), n, done)
    ensures t != null && n > 0 && (forall k :: lag(k) == 0.0) ==>
              Prompt(old(t.Value()), n, start, done)
    ensures t != null && n <= 0 ==> t.Value() == old(t.Value())
  {
    done := start;
    if t == null || n <= 0 {
      return;
    }
    ghost var was := t.Value();
    var k := 0;
    EarnedAdds(was.bps, 0.0, 0.001);
    var admitted, wait := t.TryTake(n, done);
    while !admitted
      invariant t.Value() == Attempted(was, n, done) && Proper(t.Value()) && start <= done
      invariant admitted <==> Admits(Refilled(was, done), n)
      invariant !admitted ==> wait == Wait(n as real - t.tokens, t.bps)
      invariant (forall k :: lag(k) == 0.0) ==> Prompt(was, n, start, done)
      decreases Sleeps(Missing(was, n, done), was.bps)
    {
      ghost var before := done;
      SleepMakesProgress(t.Value(), n, done, done + wait + lag(k));
      if forall k :: lag(k) == 0.0 {
        StaysPrompt(was, n, start, done);
      }
      RefillComposes(was, done, done + wait + lag(k));
      done := done + wait + lag(k);
      SleepsDecrease(Missing(was, n, before), Missing(was, n, done), was.bps);
      k := k + 1;
      admitted, wait := t.TryTake(n, done);
    }
  }
}
