/** What the ring and the streak mean: the pair's own outcome log. */
module WindowHistory {
  import opened Clock
  import opened Window

  datatype Sample = Sample(at: Time, ok: bool, timedOut: bool)

  type Log = seq<Sample>

  /** Outcomes arrive at non-decreasing clock readings. */
  predicate Ordered(log: Log) {
    && (forall k | 0 <= k < |log| :: Reading(log[k].at))
    && (forall j, k | 0 <= j < k < |log| :: log[j].at <= log[k].at)
  }

  function Last(log: Log): Sample
    requires |log| > 0
  {
    log[|log| - 1]
  }

  /** How many logged outcomes of a kind fall in the slices from lo to hi. */
  function CountIn(log: Log, bucketSec: int, lo: int, hi: int, kind: Kind): int {
    if |log| == 0 then 0
    else
      var s := Last(log);
      CountIn(log[..|log| - 1], bucketSec, lo, hi, kind) +
      if lo <= BucketIndex(s.at, bucketSec) <= hi then Weight(kind, s.ok, s.timedOut) else 0
  }

  /** How many logged outcomes of a kind fall in the last six slices. */
  function CountInWindow(log: Log, bucketSec: int, now: Time, kind: Kind): int {
    CountIn(log, bucketSec, BucketIndex(now, bucketSec) - 5, BucketIndex(now, bucketSec), kind)
  }

  lemma {:induction false} CountSplits(log: Log, bucketSec: int, lo: int, mid: int, hi: int, kind: Kind)
    requires lo <= mid <= hi + 1
    ensures CountIn(log, bucketSec, lo, hi, kind) ==
            CountIn(log, bucketSec, lo, mid - 1, kind) + CountIn(log, bucketSec, mid, hi, kind)
  {
    if |log| > 0 {
      CountSplits(log[..|log| - 1], bucketSec, lo, mid, hi, kind);
    }
  }

  lemma {:induction false} NothingBeyondLast(log: Log, bucketSec: int, lo: int, hi: int, kind: Kind)
    requires Ordered(log)
    requires |log| > 0 ==> lo > BucketIndex(Last(log).at, bucketSec)
    ensures CountIn(log, bucketSec, lo, hi, kind) == 0
  {
    if |log| > 0 {
      var front := log[..|log| - 1];
      if |front| > 0 {
        BucketIndexMonotone(Last(front).at, Last(log).at, bucketSec);
      }
      NothingBeyondLast(front, bucketSec, lo, hi, kind);
    }
  }

  /** The tally of the slices from lo on, one by one, is the count over their range. */
  lemma {:induction false} CountsAddUp(log: Log, bucketSec: int, lo: int, counts: seq<int>, kind: Kind)
    requires forall j | 0 <= j < |counts| :: counts[j] == CountIn(log, bucketSec, lo + j, lo + j, kind)
    ensures Total(counts) == CountIn(log, bucketSec, lo, lo + |counts| - 1, kind)
  {
    var n := |counts|;
    if n == 0 {
      EmptyRange(log, bucketSec, lo, kind);
    } else {
      CountsAddUp(log, bucketSec, lo, counts[..n - 1], kind);
      CountSplits(log, bucketSec, lo, lo + n - 1, lo + n - 1, kind);
    }
  }

  lemma {:induction false} EmptyRange(log: Log, bucketSec: int, lo: int, kind: Kind)
    ensures CountIn(log, bucketSec, lo, lo - 1, kind) == 0
  {
    if |log| > 0 {
      EmptyRange(log[..|log| - 1], bucketSec, lo, kind);
    }
  }

  // -- The ring holds the log of the current window --

  /** Slices that can still be read now or later. */
  predicate Readable(log: Log, bucketSec: int, i: int) {
    |log| > 0 ==> i >= BucketIndex(Last(log).at, bucketSec) - 5
  }

  ghost predicate HoldsLog(r: Ring, log: Log, bucketSec: int) {
    forall i, kind :: Readable(log, bucketSec, i) ==> Slice(r, i, kind) == CountIn(log, bucketSec, i, i, kind)
  }

  lemma RecordedHoldsLog(r: Ring, log: Log, bucketSec: int, s: Sample, staleAfter: Duration)
    requires Reading(s.at) && Ordered(log + [s]) && HoldsLog(r, log, bucketSec)
    ensures HoldsLog(Recorded(r, BucketIndex(s.at, bucketSec), s.at, s.ok, s.timedOut, staleAfter), log + [s], bucketSec)
  {
    forall i, kind | Readable(log + [s], bucketSec, i)
      ensures Slice(Recorded(r, BucketIndex(s.at, bucketSec), s.at, s.ok, s.timedOut, staleAfter), i, kind) ==
              CountIn(log + [s], bucketSec, i, i, kind)
    {
      assert Last(log + [s]) == s;
      SliceBefore(r, log, bucketSec, s, i, kind);
      RecordedHoldsSlice(r, log, bucketSec, s, staleAfter, i, kind);
    }
  }

  lemma OrderedFront(log: Log, s: Sample)
    requires Ordered(log + [s])
    ensures Ordered(log) && (|log| > 0 ==> Last(log).at <= s.at)
  {
    assert (log + [s])[..|log|] == log;
    assert forall k | 0 <= k < |log| :: (log + [s])[k] == log[k];
    assert (log + [s])[|log|] == s;
  }

  lemma CountOneMore(log: Log, s: Sample, bucketSec: int, lo: int, hi: int, kind: Kind)
    ensures CountIn(log + [s], bucketSec, lo, hi, kind) ==
            CountIn(log, bucketSec, lo, hi, kind) +
            if lo <= BucketIndex(s.at, bucketSec) <= hi then Weight(kind, s.ok, s.timedOut) else 0
  {
    assert (log + [s])[..|log + [s]| - 1] == log;
  }

  lemma RecordedHoldsSlice(r: Ring, log: Log, bucketSec: int, s: Sample, staleAfter: Duration, i: int, kind: Kind)
    requires s.at != 0 && i >= BucketIndex(s.at, bucketSec) - 5
    requires Slice(r, i, kind) == CountIn(log, bucketSec, i, i, kind)
    requires i > BucketIndex(s.at, bucketSec) ==> CountIn(log, bucketSec, i, i, kind) == 0
    ensures Slice(Recorded(r, BucketIndex(s.at, bucketSec), s.at, s.ok, s.timedOut, staleAfter), i, kind) ==
            CountIn(log + [s], bucketSec, i, i, kind)
  {
    RecordedSlices(r, BucketIndex(s.at, bucketSec), s.at, s.ok, s.timedOut, staleAfter, i, kind);
    CountOneMore(log, s, bucketSec, i, i, kind);
  }

  lemma SliceBefore(r: Ring, log: Log, bucketSec: int, s: Sample, i: int, kind: Kind)
    requires Ordered(log + [s]) && HoldsLog(r, log, bucketSec)
    requires i >= BucketIndex(s.at, bucketSec) - 5
    ensures Slice(r, i, kind) == CountIn(log, bucketSec, i, i, kind)
    ensures i > BucketIndex(s.at, bucketSec) ==> CountIn(log, bucketSec, i, i, kind) == 0
  {
    OrderedFront(log, s);
    SliceCountsLog(r, log, bucketSec, s.at, i, kind);
    if i > BucketIndex(s.at, bucketSec) {
      if |log| > 0 {
        BucketIndexMonotone(Last(log).at, s.at, bucketSec);
      }
      NothingBeyondLast(log, bucketSec, i, i, kind);
    }
  }

  /** The window sum counts exactly the logged outcomes of the last six slices. */
  lemma SumCountsLog(r: Ring, log: Log, bucketSec: int, now: Time, kind: Kind)
    requires HoldsLog(r, log, bucketSec)
    requires |log| > 0 ==> Last(log).at <= now
    ensures Sum(r, BucketIndex(now, bucketSec), kind) == CountInWindow(log, bucketSec, now, kind)
  {
    var cur := BucketIndex(now, bucketSec);
    var counts := Slices(r, cur, kind);
    forall j | 0 <= j < |counts|
      ensures counts[j] == CountIn(log, bucketSec, cur - 5 + j, cur - 5 + j, kind)
    {
      SliceAt(r, cur, j, kind);
      SliceCountsLog(r, log, bucketSec, now, cur - 5 + j, kind);
    }
    CountsAddUp(log, bucketSec, cur - 5, counts, kind);
  }

  lemma SliceCountsLog(r: Ring, log: Log, bucketSec: int, now: Time, i: int, kind: Kind)
    requires HoldsLog(r, log, bucketSec)
    requires |log| > 0 ==> Last(log).at <= now
    requires i >= BucketIndex(now, bucketSec) - 5
    ensures Slice(r, i, kind) == CountIn(log, bucketSec, i, i, kind)
  {
    if |log| > 0 {
      BucketIndexMonotone(Last(log).at, now, bucketSec);
    }
    assert Readable(log, bucketSec, i);
  }

  /** In seconds: whatever is at most five slices old is in the window, whatever is six slices old or older is not. */
  lemma WindowCoversByAge(at: Time, now: Time, bucketSec: int)
    requires bucketSec > 0 && Reading(at) && at <= now
    ensures now - at <= 5 * bucketSec * SECOND ==> BucketIndex(at, bucketSec) >= BucketIndex(now, bucketSec) - 5
    ensures now - at >= 6 * bucketSec * SECOND ==> BucketIndex(at, bucketSec) < BucketIndex(now, bucketSec) - 5
    ensures BucketIndex(at, bucketSec) <= BucketIndex(now, bucketSec)
  {
    BucketIndexMonotone(at, now, bucketSec);
    assert Unix(at) >= 0 && Unix(now) >= 0;
    if now - at <= 5 * bucketSec * SECOND {
      UnixShift(at, 5 * bucketSec);
      UnixMonotone(now, at + 5 * bucketSec * SECOND);
      QuotMonotone(Unix(now), Unix(at) + 5 * bucketSec, bucketSec);
      QuotShift(Unix(at), bucketSec, 5);
    }
    if now - at >= 6 * bucketSec * SECOND {
      UnixShift(at, 6 * bucketSec);
      UnixMonotone(at + 6 * bucketSec * SECOND, now);
      QuotMonotone(Unix(at) + 6 * bucketSec, Unix(now), bucketSec);
      QuotShift(Unix(at), bucketSec, 6);
    }
  }

  lemma UnixShift(t: Time, seconds: int)
    ensures Unix(t + seconds * SECOND) == Unix(t) + seconds
  {
    assert (t + seconds * 1_000_000_000) / 1_000_000_000 == t / 1_000_000_000 + seconds;
  }

  /** How many logged outcomes of a kind are at most this old. */
  function CountAged(log: Log, now: Time, age: Duration, kind: Kind): int {
    if |log| == 0 then 0
    else
      var s := Last(log);
      CountAged(log[..|log| - 1], now, age, kind) + if now - s.at <= age then Weight(kind, s.ok, s.timedOut) else 0
  }

  /** The window counts every outcome up to five slices old, and nothing as old as six. */
  lemma {:induction false} WindowCountsByAge(log: Log, bucketSec: int, now: Time, young: Duration, bound: Duration, kind: Kind)
    requires bucketSec > 0 && Ordered(log) && (|log| > 0 ==> Last(log).at <= now)
    requires young <= 5 * bucketSec * SECOND && 6 * bucketSec * SECOND <= bound + 1
    ensures CountAged(log, now, young, kind) <= CountInWindow(log, bucketSec, now, kind) <= CountAged(log, now, bound, kind)
  {
    if |log| > 0 {
      var front := log[..|log| - 1];
      WindowCoversByAge(Last(log).at, now, bucketSec);
      WindowCountsByAge(front, bucketSec, now, young, bound, kind);
    }
  }

  // -- The streak is the trailing run of failures --

  /** The last k outcomes are failures, each within the window of the one before it. */
  predicate IsRun(log: Log, k: int, staleAfter: Duration) {
    && 0 <= k <= |log|
    && (forall j | |log| - k <= j < |log| :: !log[j].ok)
    && (forall j | |log| - k < j < |log| :: log[j].at - log[j - 1].at <= staleAfter)
  }

  function RunLength(log: Log, staleAfter: Duration): (n: int)
    ensures 0 <= n <= |log|
  {
    var n := |log|;
    if n == 0 || log[n - 1].ok then 0
    else if n >= 2 && log[n - 1].at - log[n - 2].at > staleAfter then 1
    else 1 + RunLength(log[..n - 1], staleAfter)
  }

  lemma {:induction false} RunLengthIsLongestRun(log: Log, k: int, staleAfter: Duration)
    requires k >= 0
    ensures k <= RunLength(log, staleAfter) <==> IsRun(log, k, staleAfter)
  {
    var n := |log|;
    if n > 0 && k > 0 {
      var front := log[..n - 1];
      RunLengthIsLongestRun(front, k - 1, staleAfter);
      RunLengthIsLongestRun(front, 0, staleAfter);
      RunStep(log, k, staleAfter);
      assert IsRun(front, 0, staleAfter);
    }
  }

  /** A run of k outcomes is a failure that continues a run of k - 1. */
  lemma RunStep(log: Log, k: int, staleAfter: Duration)
    requires 0 < k && 0 < |log|
    ensures IsRun(log, k, staleAfter) <==>
            && !Last(log).ok
            && IsRun(log[..|log| - 1], k - 1, staleAfter)
            && (k >= 2 ==> Last(log).at - log[|log| - 2].at <= staleAfter)
  {
    var n := |log|;
    var front := log[..n - 1];
    if IsRun(log, k, staleAfter) {
      assert forall j | n - k <= j < n - 1 :: front[j] == log[j];
      assert IsRun(front, k - 1, staleAfter);
    }
    if IsRun(front, k - 1, staleAfter) && !log[n - 1].ok && (k >= 2 ==> log[n - 1].at - log[n - 2].at <= staleAfter) {
      assert forall j | n - k <= j < n - 1 :: front[j] == log[j] && !front[j].ok;
      forall j | n - k < j < n ensures log[j].at - log[j - 1].at <= staleAfter {
        if j < n - 1 {
          assert front[j].at - front[j - 1].at <= staleAfter;
        }
      }
      assert IsRun(log, k, staleAfter);
    }
  }

  /** A pair's outcomes since its counters were last empty, and where its streak was last cleared by hand. */
  datatype Hist = Hist(log: Log, from: nat) {
    predicate Valid() {
      from <= |log| && Ordered(log)
    }

    function Streakable(): Log
      requires from <= |log|
    {
      log[from..]
    }

    function Add(s: Sample): Hist {
      Hist(log + [s], from)
    }

    function Clear(): Hist {
      Hist(log, |log|)
    }
  }

  const NO_HISTORY := Hist([], 0)

  ghost predicate HoldsStreak(r: Ring, h: Hist, staleAfter: Duration)
    requires h.Valid()
  {
    && r.lastOutcomeAt == (if |h.log| == 0 then 0 else Last(h.log).at)
    && r.consecFails == RunLength(h.Streakable(), staleAfter)
  }

  /** The counters represent a history: all that later decisions can read is a function of it. */
  ghost predicate Represents(r: Ring, h: Hist, bucketSec: int, staleAfter: Duration) {
    h.Valid() && HoldsLog(r, h.log, bucketSec) && HoldsStreak(r, h, staleAfter)
  }

  lemma EmptyRepresents(bucketSec: int, staleAfter: Duration)
    ensures Represents(EMPTY_RING, NO_HISTORY, bucketSec, staleAfter)
  {
    forall i, kind | Readable([], bucketSec, i)
      ensures Slice(EMPTY_RING, i, kind) == CountIn([], bucketSec, i, i, kind)
    {
      assert EMPTY_RING.buckets[i % 6] == Bucket(0, 0, 0, 0);
    }
  }

  lemma RecordedRepresents(r: Ring, h: Hist, bucketSec: int, s: Sample, staleAfter: Duration)
    requires Represents(r, h, bucketSec, staleAfter)
    requires Reading(s.at) && (|h.log| > 0 ==> Last(h.log).at <= s.at)
    ensures Represents(Recorded(r, BucketIndex(s.at, bucketSec), s.at, s.ok, s.timedOut, staleAfter), h.Add(s), bucketSec, staleAfter)
  {
    assert Ordered(h.log + [s]);
    RecordedHoldsLog(r, h.log, bucketSec, s, staleAfter);
    RecordedHoldsStreak(r, h, s, staleAfter);
  }

  lemma RecordedHoldsStreak(r: Ring, h: Hist, s: Sample, staleAfter: Duration)
    requires h.Valid() && h.Add(s).Valid() && HoldsStreak(r, h, staleAfter)
    ensures NextStreak(r, s.at, s.ok, staleAfter) == RunLength(h.Add(s).Streakable(), staleAfter)
  {
    var tail := h.Streakable();
    var tail' := h.Add(s).Streakable();
    assert tail' == tail + [s];
    assert tail'[..|tail'| - 1] == tail;
    if |tail| > 0 {
      assert tail[|tail| - 1] == Last(h.log);
    }
  }

  lemma ClearedRepresents(r: Ring, h: Hist, bucketSec: int, staleAfter: Duration)
    requires Represents(r, h, bucketSec, staleAfter)
    ensures Represents(StreakCleared(r), h.Clear(), bucketSec, staleAfter)
  {
    forall i, kind | Readable(h.log, bucketSec, i)
      ensures Slice(StreakCleared(r), i, kind) == CountIn(h.log, bucketSec, i, i, kind)
    {
      assert Slice(StreakCleared(r), i, kind) == Slice(r, i, kind);
    }
  }

  /** The reported streak is the longest trailing run, provided the last outcome is itself still recent. */
  lemma ConsecutiveIsLongestRun(r: Ring, h: Hist, now: Time, staleAfter: Duration, k: int)
    requires h.Valid() && HoldsStreak(r, h, staleAfter) && k > 0
    ensures k <= Consecutive(r, now, staleAfter) <==>
            IsRun(h.Streakable(), k, staleAfter) && now - Last(h.log).at <= staleAfter
  {
    RunLengthIsLongestRun(h.Streakable(), k, staleAfter);
  }

  // -- The whole log, replayed --

  function Replay(log: Log, bucketSec: int, staleAfter: Duration): Ring
    requires Ordered(log)
  {
    if |log| == 0 then EMPTY_RING
    else
      var s := Last(log);
      Recorded(Replay(log[..|log| - 1], bucketSec, staleAfter),
               BucketIndex(s.at, bucketSec), s.at, s.ok, s.timedOut, staleAfter)
  }

  lemma {:induction false} ReplayRepresents(log: Log, bucketSec: int, staleAfter: Duration)
    requires Ordered(log)
    ensures Represents(Replay(log, bucketSec, staleAfter), Hist(log, 0), bucketSec, staleAfter)
  {
    if |log| == 0 {
      EmptyRepresents(bucketSec, staleAfter);
    } else {
      var front := log[..|log| - 1];
      ReplayRepresents(front, bucketSec, staleAfter);
      RecordedRepresents(Replay(front, bucketSec, staleAfter), Hist(front, 0), bucketSec, Last(log), staleAfter);
      assert Hist(front, 0).Add(Last(log)) == Hist(log, 0);
    }
  }

  /** Whatever was logged, the ring answers as if it had kept the whole log. */
  lemma RingRefinesLog(log: Log, bucketSec: int, staleAfter: Duration, now: Time, kind: Kind, k: int)
    requires Ordered(log) && k > 0
    requires |log| > 0 ==> Last(log).at <= now
    ensures Sum(Replay(log, bucketSec, staleAfter), BucketIndex(now, bucketSec), kind) ==
            CountInWindow(log, bucketSec, now, kind)
    ensures k <= Consecutive(Replay(log, bucketSec, staleAfter), now, staleAfter) <==>
            IsRun(log, k, staleAfter) && now - Last(log).at <= staleAfter
  {
    var r := Replay(log, bucketSec, staleAfter);
    ReplayRepresents(log, bucketSec, staleAfter);
    SumCountsLog(r, log, bucketSec, now, kind);
    ConsecutiveIsLongestRun(r, Hist(log, 0), now, staleAfter, k);
    assert Hist(log, 0).Streakable() == log;
  }
}
