/** Whom a sweep takes: exactly the pairs that are not out and of which nothing was heard for a while. */
module SweepTargets {
  import opened Clock
  import opened Wrappers
  import opened Window
  import opened WindowHistory
  import opened Policies
  import opened RegistryModel
  import opened RegistryFacts
  import opened RecordHistory
  import opened Recency

  /** The quiet time, in seconds: ten minutes, or two windows if that is longer. */
  function QuietSeconds(p: Policy): int {
    if 2 * p.windowSec > 600 then 2 * p.windowSec else 600
  }

  /** Nothing in the history is later than the pair's last outcome. */
  lemma {:induction false} HistoryIsNoLater(p: Policy, rows: Rows, ss: seq<Step>, start: Time, c: string, a: string)
    requires LegalRun(World(NewReg(p), rows), ss, start)
    ensures |HistoryOf(World(NewReg(p), rows), ss, c, a).log| > 0 ==>
              Last(HistoryOf(World(NewReg(p), rows), ss, c, a).log).at <= LastOnPair(World(NewReg(p), rows), ss, c, a)
  {
    if |ss| > 0 {
      HistoryIsNoLater(p, rows, ss[..|ss| - 1], start, c, a);
    }
  }

  lemma {:induction false} NothingThatYoung(log: Log, now: Time, age: Duration, kind: Kind)
    requires Ordered(log) && (|log| > 0 ==> now - Last(log).at > age)
    ensures CountAged(log, now, age, kind) == 0
  {
    if |log| > 0 {
      NothingThatYoung(log[..|log| - 1], now, age, kind);
    }
  }

  lemma {:induction false} CountIsNatural(log: Log, bucketSec: int, lo: int, hi: int, kind: Kind)
    ensures CountIn(log, bucketSec, lo, hi, kind) >= 0
  {
    if |log| > 0 {
      CountIsNatural(log[..|log| - 1], bucketSec, lo, hi, kind);
    }
  }

  /** After the quiet time nothing is left in the window. */
  lemma QuietWindowIsEmpty(r: Ring, h: Hist, now: Time, p: Policy, kind: Kind)
    requires InRange(p) && Represents(r, h, BucketSec(p), WindowOf(p))
    requires |h.log| > 0 ==> now - Last(h.log).at >= Seconds(QuietSeconds(p))
    ensures Sum(r, BucketIndex(now, BucketSec(p)), kind) == 0
  {
    SumCountsLog(r, h.log, BucketSec(p), now, kind);
    LoggedCountsWindow(h.log, now, p, kind);
    NothingThatYoung(h.log, now, Seconds(if p.windowSec < 6 then 6 else p.windowSec) - 1, kind);
    CountIsNatural(h.log, BucketSec(p), BucketIndex(now, BucketSec(p)) - 5, BucketIndex(now, BucketSec(p)), kind);
  }

  lemma SweepableByAge(e: Entry, h: Hist, last: Time, now: Time, p: Policy)
    requires InRange(p) && Represents(e.counters, h, BucketSec(p), WindowOf(p))
    requires e.lastSeenAt == last && last != 0 && (|h.log| > 0 ==> Last(h.log).at <= last)
    ensures Sweepable(e, now, p) <==> !Banned(e, now) && now - last >= Seconds(QuietSeconds(p))
  {
    assert IdleReset(p) == Seconds(QuietSeconds(p));
    if now - last >= Seconds(QuietSeconds(p)) {
      QuietWindowIsEmpty(e.counters, h, now, p, Okay);
      QuietWindowIsEmpty(e.counters, h, now, p, Failed);
      QuietWindowIsEmpty(e.counters, h, now, p, TimedOut);
    }
  }

  lemma {:induction false} StoredWasHeardOf(p: Policy, rows: Rows, ss: seq<Step>, start: Time, c: string, a: string)
    requires LegalRun(World(NewReg(p), rows), ss, start)
    requires Find(Run(World(NewReg(p), rows), ss).reg, c, a).Some?
    ensures LastOnPair(World(NewReg(p), rows), ss, c, a) != 0
  {
    if |ss| > 0 {
      var w := World(NewReg(p), rows);
      var front, s := ss[..|ss| - 1], ss[|ss| - 1];
      RunKeepsWellFormed(p, rows, front, start);
      EntryStampAfter(Run(w, front), s, c, a);
      if !HearsOfPair(Run(w, front).reg, s, c, a) {
        StoredWasHeardOf(p, rows, front, start, c, a);
      }
    }
  }

  /**
   * In every run from a new registry: a sweep takes a pair exactly if it is not out and its own last outcome is at least
   * ten minutes and two windows old. That its window is empty then need not be asked.
   */
  lemma SweepTakesTheQuiet(p: Policy, rows: Rows, ss: seq<Step>, start: Time, now: Time, c: string, a: string)
    requires LegalRun(World(NewReg(p), rows), ss, start)
    requires Find(Run(World(NewReg(p), rows), ss).reg, c, a).Some?
    ensures Find(SweepIn(Run(World(NewReg(p), rows), ss), now).reg, c, a).None? <==>
              && !Banned(Find(Run(World(NewReg(p), rows), ss).reg, c, a).value, now)
              && now - LastOnPair(World(NewReg(p), rows), ss, c, a) >=
                 Seconds(QuietSeconds(Run(World(NewReg(p), rows), ss).reg.policy))
  {
    var w := World(NewReg(p), rows);
    var u := Run(w, ss);
    RunIsFaithful(p, rows, ss, start, c, a);
    HistoryIsNoLater(p, rows, ss, start, c, a);
    EntryStampIsLastRecord(p, rows, ss, start, c, a);
    StoredWasHeardOf(p, rows, ss, start, c, a);
    SweepableByAge(Find(u.reg, c, a).value, HistoryOf(w, ss, c, a), LastOnPair(w, ss, c, a), now, u.reg.policy);
    SweepPair(u, now, c, a);
  }

  /** A channel goes with its last pair, once nothing was heard on it for longer than the quiet time. */
  lemma SweepTakesEmptyChannels(p: Policy, rows: Rows, ss: seq<Step>, start: Time, now: Time, c: string)
    requires LegalRun(World(NewReg(p), rows), ss, start)
    requires c in Run(World(NewReg(p), rows), ss).reg.chans
    ensures c !in SweepIn(Run(World(NewReg(p), rows), ss), now).reg.chans <==>
              && (forall a :: Find(SweepIn(Run(World(NewReg(p), rows), ss), now).reg, c, a).None?)
              && now - LastOnChannel(World(NewReg(p), rows), ss, c) >
                 Seconds(QuietSeconds(Run(World(NewReg(p), rows), ss).reg.policy))
  {
    var w := World(NewReg(p), rows);
    var u := Run(w, ss);
    ChannelStampIsLastRecord(p, rows, ss, start, c);
    EmptiedChannel(u, now, c);
  }

  lemma EmptiedChannel(u: World, now: Time, c: string)
    requires c in u.reg.chans
    ensures c !in SweepIn(u, now).reg.chans <==>
              && (forall a :: Find(SweepIn(u, now).reg, c, a).None?)
              && now - u.reg.chans[c].lastSeenAt > Seconds(QuietSeconds(u.reg.policy))
  {
    var kept := Kept(u.reg.chans[c], now, u.reg.policy);
    assert IdleReset(u.reg.policy) == Seconds(QuietSeconds(u.reg.policy));
    if c in SweepIn(u, now).reg.chans {
      assert SweepIn(u, now).reg.chans[c] == kept;
      if |kept.entries| > 0 {
        var a :| a in kept.entries;
        assert Find(SweepIn(u, now).reg, c, a).Some?;
      }
    }
  }
}
