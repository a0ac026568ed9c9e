/** Quality scores, the smoothed latency behind them, and retry deadlines. */
module Scoring {
  import opened Clock

  const SCORE_INIT := 10.0
  const SCORE_MAX := 100.0
  const QUALITY_FLOOR := 20.0

  /** Full score for no or negative latency, one point less per 50 ms, never below the floor. */
  function Quality(latencyMS: int): real {
    if latencyMS <= 0 then SCORE_MAX
    else
      var score := SCORE_MAX - (latencyMS as real) / 50.0;
      if score < QUALITY_FLOOR then QUALITY_FLOOR
      else if score > SCORE_MAX then SCORE_MAX
      else score
  }

  /** The moving average 0.7·prev + 0.3·next, cut to an integer; the first reading is taken as it is. */
  function Smooth(prev: int, next: int): int {
    if prev <= 0 then next else Quot(7 * prev + 3 * next, 10)
  }

  function Blend(prev: real, quality: real): real {
    0.7 * prev + 0.3 * quality
  }

  predicate GoodScore(score: real) {
    QUALITY_FLOOR <= score <= SCORE_MAX
  }

  /** A working proxy keeps a score that one failure cannot bring to zero. */
  lemma GoodScoresStayGood(latencyMS: int, prev: real)
    requires GoodScore(prev)
    ensures GoodScore(Quality(latencyMS))
    ensures GoodScore(Blend(prev, Quality(latencyMS)))
    ensures prev - 1.0 > 0.0
  {
  }

  /** Slower is never better: every 50 ms cost one point until the floor is reached. */
  lemma QualityFalls(a: int, b: int)
    requires a <= b
    ensures Quality(a) >= Quality(b)
    ensures 0 <= a && Quality(b) > QUALITY_FLOOR ==> (Quality(a) - Quality(b)) * 50.0 == (b - a) as real
    ensures Quality(b) == QUALITY_FLOOR <==> b >= 4000
  {
  }

  /** The smoothed latency lies between the old and the new reading, three tenths of the way up to a millisecond. */
  lemma SmoothLiesBetween(prev: int, next: int)
    requires prev > 0 && next >= 0
    ensures if prev <= next then prev <= Smooth(prev, next) <= next else next <= Smooth(prev, next) <= prev
    ensures 0 <= 3 * (next - prev) - 10 * (Smooth(prev, next) - prev) < 10
  {
    QuotIsDivision(7 * prev + 3 * next, 10);
  }

  /**
   * Computed in floating point, the average v may fall short of the exact one by a hair, and cutting it then costs one
   * millisecond: readings 3 and 3 give 2. It is never more than that.
   */
  lemma SmoothUpToRounding(prev: int, next: int, v: real)
    requires prev > 0 && next >= 0 && -0.1 < v - (0.7 * prev as real + 0.3 * next as real) < 0.1
    ensures v >= 0.0 && Smooth(prev, next) - 1 <= v.Floor <= Smooth(prev, next)
    ensures if prev <= next then prev - 1 <= v.Floor <= next else next - 1 <= v.Floor <= prev
  {
    SmoothLiesBetween(prev, next);
    QuotIsDivision(7 * prev + 3 * next, 10);
  }

  function WholeSecond(t: Time): Time {
    t - t % 1_000_000_000
  }

  /** When a failed proxy is tested again: five minutes on, fifteen from the second failure. */
  function RetryDue(failCount: int, now: Time): Time {
    WholeSecond(now + if failCount >= 2 then Seconds(900) else Seconds(300))
  }

  /** Deadlines are kept in whole seconds: at most a second before the five or fifteen minutes are over. */
  lemma RetryDueIsOnTime(failCount: int, now: Time)
    ensures Unix(RetryDue(failCount, now)) == Unix(now + Seconds(if failCount >= 2 then 900 else 300))
    ensures -Seconds(1) < RetryDue(failCount, now) - (now + Seconds(if failCount >= 2 then 900 else 300)) <= 0
  {
    var t := now + Seconds(if failCount >= 2 then 900 else 300);
    assert t == 1_000_000_000 * (t / 1_000_000_000) + t % 1_000_000_000;
    assert WholeSecond(t) == 1_000_000_000 * (t / 1_000_000_000);
  }
}
