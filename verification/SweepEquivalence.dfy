/** Sweeping is unobservable: an entry that Sweep may delete behaves like one that was never there. */
module SweepEquivalence {
  import opened Clock
  import opened Wrappers
  import opened Window
  import opened Policies
  import opened BanLadder
  import opened RegistryModel
  import opened RegistryFacts

  // -- Entries that no later operation can tell apart --

  /** From time t on the streak reads as 0 and a failure starts a new one. */
  predicate StreakOver(r: Ring, t: Time, p: Policy) {
    r.consecFails == 0 || (r.lastOutcomeAt != 0 && t - r.lastOutcomeAt > WindowOf(p))
  }

  predicate StreaksAlike(a: Ring, b: Ring, t: Time, p: Policy) {
    || (a.consecFails == b.consecFails && a.lastOutcomeAt == b.lastOutcomeAt)
    || (StreakOver(a, t, p) && StreakOver(b, t, p))
  }

  /** The rings agree on every slice of the window at t and of every later window. */
  ghost predicate SlicesAlike(a: Ring, b: Ring, idx: int) {
    forall i, kind :: i >= idx - 5 ==> Slice(a, i, kind) == Slice(b, i, kind)
  }

  ghost predicate RingsAlike(a: Ring, b: Ring, t: Time, p: Policy) {
    SlicesAlike(a, b, BucketIndex(t, BucketSec(p))) && StreaksAlike(a, b, t, p)
  }

  /** From time t on the ladder starts over. */
  predicate LadderOver(e: Entry, t: Time, p: Policy) {
    e.strikes == 0 || (e.lastBanAt != 0 && t - e.lastBanAt > IdleReset(p))
  }

  predicate LaddersAlike(a: Entry, b: Entry, t: Time, p: Policy) {
    (a.strikes == b.strikes && a.lastBanAt == b.lastBanAt) || (LadderOver(a, t, p) && LadderOver(b, t, p))
  }

  predicate BansAlike(a: Entry, b: Entry, t: Time) {
    && a.pendingReprobe == b.pendingReprobe
    && (a.bannedUntil == b.bannedUntil || (!Banned(a, t) && !Banned(b, t)))
  }

  /**
   * Enough for no operation at time t or later to tell the entries apart. It is not necessary: under a policy that
   * never looks at the window, say, entries with other slices behave alike too.
   */
  ghost predicate EntriesAlike(a: Entry, b: Entry, t: Time, p: Policy) {
    RingsAlike(a.counters, b.counters, t, p) && LaddersAlike(a, b, t, p) && BansAlike(a, b, t)
  }

  predicate ClearableEntry(e: Entry) {
    e.bannedUntil != 0 || e.pendingReprobe
  }

  function UnbanEntry(e: Entry): Entry {
    if ClearableEntry(e) then Unbanned(e) else e
  }

  /** b remembers no ban that a has forgotten: the swept twin of a. */
  predicate ForgetsNoLess(a: Entry, b: Entry) {
    ClearableEntry(b) ==> ClearableEntry(a)
  }

  lemma AlikeIsTransitive(a: Entry, b: Entry, c: Entry, t: Time, p: Policy)
    requires EntriesAlike(a, b, t, p) && EntriesAlike(b, c, t, p)
    ensures EntriesAlike(a, c, t, p)
  {
    forall i, kind | i >= BucketIndex(t, BucketSec(p)) - 5
      ensures Slice(a.counters, i, kind) == Slice(c.counters, i, kind)
    {
      assert Slice(a.counters, i, kind) == Slice(b.counters, i, kind);
    }
  }

  lemma AlikeStaysAlike(a: Entry, b: Entry, t: Time, later: Time, p: Policy)
    requires EntriesAlike(a, b, t, p) && t <= later
    ensures EntriesAlike(a, b, later, p)
  {
    BucketIndexMonotone(t, later, BucketSec(p));
  }

  // -- Outcomes --

  lemma RecordedSlicesAlike(a: Ring, b: Ring, o: Outcome, now: Time, p: Policy)
    requires now != 0 && SlicesAlike(a, b, BucketIndex(now, BucketSec(p)))
    ensures SlicesAlike(RecordedBy(a, o, now, p), RecordedBy(b, o, now, p), BucketIndex(now, BucketSec(p)))
  {
    var idx := BucketIndex(now, BucketSec(p));
    forall i, kind | i >= idx - 5
      ensures Slice(RecordedBy(a, o, now, p), i, kind) == Slice(RecordedBy(b, o, now, p), i, kind)
    {
      SlicesStayAlike(a, b, idx, now, o.ok, IsTimeout(o), WindowOf(p), i, kind);
    }
  }

  lemma SlicesStayAlike(a: Ring, b: Ring, idx: int, now: Time, ok: bool, timedOut: bool, staleAfter: Duration, i: int, kind: Kind)
    requires now != 0 && i >= idx - 5 && SlicesAlike(a, b, idx)
    ensures Slice(Recorded(a, idx, now, ok, timedOut, staleAfter), i, kind) ==
            Slice(Recorded(b, idx, now, ok, timedOut, staleAfter), i, kind)
  {
    assert Slice(a, i, kind) == Slice(b, i, kind);
    RecordedSlices(a, idx, now, ok, timedOut, staleAfter, i, kind);
    RecordedSlices(b, idx, now, ok, timedOut, staleAfter, i, kind);
    LaterSliceRecorded(a, idx, now, ok, timedOut, staleAfter, i, kind);
    LaterSliceRecorded(b, idx, now, ok, timedOut, staleAfter, i, kind);
  }

  /** A slice after the recorded one survives exactly if it has another slot. */
  lemma LaterSliceRecorded(r: Ring, idx: int, now: Time, ok: bool, timedOut: bool, staleAfter: Duration, i: int, kind: Kind)
    requires now != 0
    ensures i > idx ==>
      Slice(Recorded(r, idx, now, ok, timedOut, staleAfter), i, kind) == if i % 6 == idx % 6 then 0 else Slice(r, i, kind)
  {
  }

  lemma EvidenceAlike(a: Ring, b: Ring, now: Time, p: Policy)
    requires RingsAlike(a, b, now, p)
    ensures EvidenceOf(a, now, p) == EvidenceOf(b, now, p)
  {
    var idx := BucketIndex(now, BucketSec(p));
    assert forall kind :: Slices(a, idx, kind) == Slices(b, idx, kind);
  }

  lemma RecordedAlike(a: Ring, b: Ring, o: Outcome, now: Time, p: Policy)
    requires now != 0 && RingsAlike(a, b, now, p)
    ensures RingsAlike(RecordedBy(a, o, now, p), RecordedBy(b, o, now, p), now, p)
  {
    RecordedSlicesAlike(a, b, o, now, p);
  }

  lemma ObservedAlike(a: Entry, b: Entry, o: Outcome, now: Time, p: Policy)
    requires now != 0 && EntriesAlike(a, b, now, p)
    ensures EntriesAlike(Observed(a, o, now, p), Observed(b, o, now, p), now, p)
  {
    RecordedAlike(a.counters, b.counters, o, now, p);
    assert Observed(a, o, now, p).counters == RecordedBy(a.counters, o, now, p);
    assert Observed(b, o, now, p).counters == RecordedBy(b.counters, o, now, p);
  }

  lemma SentencedAlike(a: Entry, b: Entry, h: Hit, reported: bool, now: Time, p: Policy)
    requires now != 0 && EntriesAlike(a, b, now, p)
    ensures EntriesAlike(Sentenced(a, h, reported, now, p), Sentenced(b, h, reported, now, p), now, p)
    ensures BanOf("", "", Sentenced(a, h, reported, now, p)) == BanOf("", "", Sentenced(b, h, reported, now, p))
  {
    assert StandingStrikes(a, now, p) == StandingStrikes(b, now, p);
  }

  /** The same outcome leaves the entries alike and leads to the same ban. */
  lemma JudgedEntriesAlike(a: Entry, b: Entry, reg: Reg, c: string, o: Outcome, now: Time)
    requires now != 0 && EntriesAlike(a, b, now, reg.policy)
    ensures EntriesAlike(Judged(a, reg, c, o.addr, o, now), Judged(b, reg, c, o.addr, o, now), now, reg.policy)
    ensures NewBan(a, reg, c, o.addr, o, now) == NewBan(b, reg, c, o.addr, o, now)
    ensures ForgetsNoLess(a, b) ==> ForgetsNoLess(Judged(a, reg, c, o.addr, o, now), Judged(b, reg, c, o.addr, o, now))
  {
    var p := reg.policy;
    ObservedAlike(a, b, o, now, p);
    var a', b' := Observed(a, o, now, p), Observed(b, o, now, p);
    EvidenceAlike(a'.counters, b'.counters, now, p);
    assert Banned(a', now) == Banned(b', now);
    var v := Verdict(a', reg, c, o.addr, o, now);
    assert v == Verdict(b', reg, c, o.addr, o, now);
    if v.Some? {
      SentencedAlike(a', b', v.value, o.reported, now, p);
    }
  }

  // -- What Sweep deletes --

  /** Nothing is counted in a slice that has not begun. */
  ghost predicate NoFuture(r: Ring, idx: int) {
    forall i, kind :: i > idx ==> Slice(r, i, kind) == 0
  }

  /** What holds of every entry of a registry whose clock has reached t. */
  ghost predicate Sound(e: Entry, t: Time, p: Policy) {
    && NoFuture(e.counters, BucketIndex(t, BucketSec(p)))
    && e.counters.lastOutcomeAt <= e.lastSeenAt
    && e.lastBanAt <= e.lastSeenAt
    && 0 < e.lastSeenAt <= t
    && (e.strikes > 0 ==> e.lastBanAt != 0)
  }

  /** From the next instant on, a swept entry and a new one are the same: stale streak, empty window, old ladder. */
  lemma SweptIsFresh(e: Entry, now: Time, p: Policy, created: Time)
    requires InRange(p) && Sound(e, now, p) && Sweepable(e, now, p)
    ensures EntriesAlike(e, Fresh(created), now + 1, p)
  {
    var idx := BucketIndex(now, BucketSec(p));
    BucketIndexMonotone(now, now + 1, BucketSec(p));
    forall i, kind | i >= BucketIndex(now + 1, BucketSec(p)) - 5
      ensures Slice(e.counters, i, kind) == Slice(EMPTY_RING, i, kind)
    {
      if i <= idx {
        EmptyWindowSlices(e.counters, idx, i, kind);
      }
      EmptyRingSlices(i, kind);
    }
    assert StreakOver(e.counters, now + 1, p);
    assert LadderOver(e, now + 1, p);
  }

  /** At the very instant of the sweep the two already agree exactly if the ladder is over by then. */
  lemma SweptIsFreshAtOnceIff(e: Entry, now: Time, p: Policy, created: Time)
    requires InRange(p) && Sound(e, now, p) && Sweepable(e, now, p)
    ensures EntriesAlike(e, Fresh(created), now, p) <==> LadderOver(e, now, p)
  {
    var idx := BucketIndex(now, BucketSec(p));
    forall i, kind | i >= idx - 5
      ensures Slice(e.counters, i, kind) == Slice(EMPTY_RING, i, kind)
    {
      if i <= idx {
        EmptyWindowSlices(e.counters, idx, i, kind);
      }
      EmptyRingSlices(i, kind);
    }
    assert StreakOver(e.counters, now, p);
  }

  /**
   * Unban also clears the streak, but only of an entry that has something to clear. If one entry still carries an
   * expired ban and its twin never had one, Unban keeps them alike exactly if the streak is over anyway.
   */
  lemma UnbanOfExpiredKeepsAlikeIff(a: Entry, b: Entry, now: Time, p: Policy)
    requires EntriesAlike(a, b, now, p) && !Banned(a, now) && !Banned(b, now)
    ensures EntriesAlike(Unbanned(a), b, now, p) <==> StreakOver(b.counters, now, p)
  {
    forall i, kind | i >= BucketIndex(now, BucketSec(p)) - 5
      ensures Slice(Unbanned(a).counters, i, kind) == Slice(b.counters, i, kind)
    {
      assert Slice(Unbanned(a).counters, i, kind) == Slice(a.counters, i, kind);
      assert Slice(a.counters, i, kind) == Slice(b.counters, i, kind);
    }
  }

  /** There is nothing to clear, or the pair is out, or its streak is over anyway. */
  predicate SafeToUnban(e: Entry, now: Time, p: Policy) {
    !ClearableEntry(e) || Banned(e, now) || StreakOver(e.counters, now, p)
  }

  lemma UnbannedAlike(a: Entry, b: Entry, now: Time, p: Policy)
    requires EntriesAlike(a, b, now, p)
    ensures EntriesAlike(Unbanned(a), Unbanned(b), now, p)
  {
    forall i, kind | i >= BucketIndex(now, BucketSec(p)) - 5
      ensures Slice(Unbanned(a).counters, i, kind) == Slice(Unbanned(b).counters, i, kind)
    {
      assert Slice(a.counters, i, kind) == Slice(b.counters, i, kind);
      assert Slice(Unbanned(a).counters, i, kind) == Slice(a.counters, i, kind);
      assert Slice(Unbanned(b).counters, i, kind) == Slice(b.counters, i, kind);
    }
  }

  lemma SafeUnbanKeepsAlike(a: Entry, b: Entry, now: Time, p: Policy)
    requires EntriesAlike(a, b, now, p) && ForgetsNoLess(a, b) && SafeToUnban(a, now, p)
    ensures EntriesAlike(UnbanEntry(a), UnbanEntry(b), now, p)
  {
    if ClearableEntry(a) {
      if ClearableEntry(b) {
        UnbannedAlike(a, b, now, p);
      } else {
        UnbanOfExpiredKeepsAlikeIff(a, b, now, p);
      }
    }
  }

  /** So Unban keeps an entry like every twin that sweeping can have left of it exactly if it is safe. */
  lemma UnbanKeepsAllTwinsAlikeIff(e: Entry, now: Time, p: Policy)
    ensures (forall twin | EntriesAlike(e, twin, now, p) && ForgetsNoLess(e, twin) ::
               EntriesAlike(UnbanEntry(e), UnbanEntry(twin), now, p))
            <==> SafeToUnban(e, now, p)
  {
    if SafeToUnban(e, now, p) {
      forall twin | EntriesAlike(e, twin, now, p) && ForgetsNoLess(e, twin)
        ensures EntriesAlike(UnbanEntry(e), UnbanEntry(twin), now, p)
      {
        SafeUnbanKeepsAlike(e, twin, now, p);
      }
    } else {
      var twin := e.(bannedUntil := 0);
      assert EntriesAlike(e, twin, now, p);
      UnbanOfExpiredKeepsAlikeIff(e, twin, now, p);
      assert UnbanEntry(twin) == twin;
    }
  }

  lemma EmptyRingSlices(i: int, kind: Kind)
    ensures Slice(EMPTY_RING, i, kind) == 0
  {
    assert EMPTY_RING.buckets[i % 6] == IDLE;
  }

  // -- Registries --

  ghost predicate PairsAlike(x: Option<Entry>, y: Option<Entry>, t: Time, p: Policy) {
    EntriesAlike(EntryOrFresh(x, 0), EntryOrFresh(y, 0), t, p) && ForgetsNoLess(EntryOrFresh(x, 0), EntryOrFresh(y, 0))
  }

  /** The same settings, and every pair alike; s may be the one that was swept. */
  ghost predicate RegsAlike(r: Reg, s: Reg, t: Time) {
    && r.policy == s.policy && r.allows == s.allows && r.rules == s.rules
    && (forall c, a :: PairsAlike(Find(r, c, a), Find(s, c, a), t, r.policy))
  }

  ghost predicate AllSound(reg: Reg, t: Time) {
    forall c, a :: Find(reg, c, a).Some? ==> Sound(Find(reg, c, a).value, t, reg.policy)
  }

  /** Alike registries give selection the same answers. */
  lemma AlikeAnswers(r: Reg, s: Reg, t: Time, c: string, a: string)
    requires RegsAlike(r, s, t)
    ensures IsBanned(r, c, a, t) == IsBanned(s, c, a, t)
    ensures IsBanned(r, c, a, t) ==> Find(r, c, a).value.bannedUntil == Find(s, c, a).value.bannedUntil
  {
    assert PairsAlike(Find(r, c, a), Find(s, c, a), t, r.policy);
  }

  lemma AlikeBanSets(r: Reg, s: Reg, t: Time, c: string)
    requires RegsAlike(r, s, t) && WellFormed(r) && WellFormed(s)
    ensures BanSetOf(r, c, t) == BanSetOf(s, c, t)
  {
    forall a ensures a in BanSetOf(r, c, t) <==> a in BanSetOf(s, c, t) {
      AlikeAnswers(r, s, t, c, a);
      InBanSet(r, c, a, t);
      InBanSet(s, c, a, t);
    }
    forall a | a in BanSetOf(r, c, t) ensures BanSetOf(r, c, t)[a] == BanSetOf(s, c, t)[a] {
      AlikeAnswers(r, s, t, c, a);
      InBanSet(r, c, a, t);
      InBanSet(s, c, a, t);
    }
  }

  /** The bulk answer is the single answer, for every address. */
  lemma InBanSet(r: Reg, c: string, a: string, t: Time)
    requires WellFormed(r)
    ensures a in BanSetOf(r, c, t) <==> IsBanned(r, c, a, t)
    ensures IsBanned(r, c, a, t) ==> BanSetOf(r, c, t)[a] == Find(r, c, a).value.bannedUntil
  {
  }
}
