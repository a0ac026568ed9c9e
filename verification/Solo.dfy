/** Short histories on one channel, step by step: what the witnesses of the exceptions are made of. */
module Solo {
  import opened Clock
  import opened Wrappers
  import opened Window
  import opened WindowHistory
  import opened Policies
  import opened BanLadder
  import opened RegistryModel
  import opened RegistryFacts
  import opened SweepEquivalence
  import opened SweepRuns

  function EntriesOn(reg: Reg, c: string): map<string, Entry> {
    if c in reg.chans then reg.chans[c].entries else map[]
  }

  /** Nothing but channel "c" with these entries, no allows, no rules. */
  predicate At(w: World, entries: map<string, Entry>, p: Policy) {
    && InRange(p) && p.enabled && w.reg.policy == p && w.reg.allows == map[] && w.reg.rules == []
    && w.reg.chans.Keys <= {"c"} && EntriesOn(w.reg, "c") == entries && "" !in entries
  }

  lemma StartsEmpty(p: Policy, rows: Rows)
    requires InRange(p) && p.enabled
    ensures At(World(NewReg(p), rows), map[], p)
  {
    NormalizeRepairs(p);
  }

  function Failure(a: string, status: int): Outcome {
    Outcome("c", a, false, status, "", false)
  }

  function Fails(a: string, status: int, now: Time): Step {
    Step(now, Record(Failure(a, status)), "", "")
  }

  function EntryAt(entries: map<string, Entry>, a: string, now: Time): Entry {
    if a in entries then entries[a] else Fresh(now)
  }

  lemma FoundAt(reg: Reg, entries: map<string, Entry>)
    requires forall a :: Find(reg, "c", a) == if a in entries then Some(entries[a]) else None
    ensures EntriesOn(reg, "c") == entries
  {
    forall a ensures a in EntriesOn(reg, "c") <==> a in entries {
      assert Find(reg, "c", a).Some? <==> a in EntriesOn(reg, "c");
    }
    forall a | a in entries ensures EntriesOn(reg, "c")[a] == entries[a] {
      assert Find(reg, "c", a) == Some(entries[a]);
    }
  }

  lemma FindAt(w: World, entries: map<string, Entry>, p: Policy, a: string)
    requires At(w, entries, p)
    ensures Find(w.reg, "c", a) == if a in entries then Some(entries[a]) else None
    ensures !Allowed(w.reg, "c", a)
  {
  }

  /** The only channel has room as long as it holds fewer entries than its ceiling. */
  lemma RoomAt(w: World, entries: map<string, Entry>, p: Policy, a: string, status: int, now: Time)
    requires At(w, entries, p) && Reading(now) && a != "" && (a in entries || |entries| < p.maxEntriesPerChan)
    ensures LegalStep(w, Fails(a, status, now))
  {
    if "c" !in w.reg.chans {
      assert w.reg.chans.Keys == {};
      assert |w.reg.chans| == |w.reg.chans.Keys| == 0;
    }
    assert EntriesOn(FetchChannel(w, "c", now, "").reg, "c") == entries;
  }

  lemma FoundAfterFailure(w: World, entries: map<string, Entry>, p: Policy, a: string, status: int, now: Time, x: string)
    requires At(w, entries, p) && Reading(now) && a != "" && LegalStep(w, Fails(a, status, now))
    ensures Find(Apply(w, Fails(a, status, now)).world.reg, "c", x) ==
            if x == a then Some(Judged(EntryAt(entries, a, now), NewReg(p), "c", a, Failure(a, status), now))
            else if x in entries then Some(entries[x]) else None
    ensures Apply(w, Fails(a, status, now)).ban == NewBan(EntryAt(entries, a, now), NewReg(p), "c", a, Failure(a, status), now)
  {
    var s := Fails(a, status, now);
    NormalizeRepairs(p);
    RecordEffect(w, s, "c", x);
    RecordEffect(w, s, "c", a);
    FindAt(w, entries, p, x);
    FindAt(w, entries, p, a);
    JudgedAlike(w.reg, NewReg(p), "c", EntryAt(entries, a, now), Failure(a, status), now);
  }

  lemma FailsAt(w: World, entries: map<string, Entry>, p: Policy, a: string, status: int, now: Time)
    requires At(w, entries, p) && Reading(now) && a != "" && (a in entries || |entries| < p.maxEntriesPerChan)
    ensures LegalStep(w, Fails(a, status, now))
    ensures At(Apply(w, Fails(a, status, now)).world,
               entries[a := Judged(EntryAt(entries, a, now), NewReg(p), "c", a, Failure(a, status), now)], p)
    ensures Apply(w, Fails(a, status, now)).ban == NewBan(EntryAt(entries, a, now), NewReg(p), "c", a, Failure(a, status), now)
  {
    var v, e := Apply(w, Fails(a, status, now)).world, Judged(EntryAt(entries, a, now), NewReg(p), "c", a, Failure(a, status), now);
    RoomAt(w, entries, p, a, status, now);
    forall x ensures Find(v.reg, "c", x) == if x in entries[a := e] then Some(entries[a := e][x]) else None {
      FoundAfterFailure(w, entries, p, a, status, now, x);
    }
    FoundAt(v.reg, entries[a := e]);
    FoundAfterFailure(w, entries, p, a, status, now, a);
    RecordShape(w, Fails(a, status, now));
    FetchedKeys(w, "c", a, now);
  }

  function Sweeps(now: Time): Step {
    Step(now, Sweep, "", "")
  }

  lemma SweepsAt(w: World, e: Entry, p: Policy, now: Time)
    requires At(w, map["a" := e], p) && Reading(now) && Sweepable(e, now, p)
    ensures LegalStep(w, Sweeps(now)) && At(Apply(w, Sweeps(now)).world, map[], p)
  {
    var s := Sweeps(now);
    SettingsAfter(w, s);
    forall x ensures Find(Apply(w, s).world.reg, "c", x) == None {
      FindAfter(w, s, "c", x);
      FindAt(w, map["a" := e], p, x);
    }
    FoundAt(Apply(w, s).world.reg, map[]);
    assert Apply(w, s).world.reg.chans.Keys <= w.reg.chans.Keys;
  }

  function Unbans(now: Time): Step {
    Step(now, Unban("c", "a"), "", "")
  }

  lemma UnbansAt(w: World, e: Entry, p: Policy, now: Time)
    requires At(w, map["a" := e], p) && Reading(now)
    ensures LegalStep(w, Unbans(now)) && At(Apply(w, Unbans(now)).world, map["a" := UnbanEntry(e)], p)
  {
    assert map["a" := e]["a" := Unbanned(e)] == map["a" := Unbanned(e)];
  }

  // -- Whole histories --

  function Empty(p: Policy): World {
    World(NewReg(p), map[])
  }

  /** The history so far, and the state it has led to. */
  ghost predicate Told(p: Policy, ss: seq<Step>, start: Time, entries: map<string, Entry>) {
    LegalRun(Empty(p), ss, start) && At(Run(Empty(p), ss), entries, p)
  }

  function Returns(p: Policy, ss: seq<Step>): seq<Option<Ban>>
    requires forall k | 0 <= k < |ss| :: Reading(ss[k].now)
  {
    Answers(Empty(p), ss)
  }

  lemma NothingTold(p: Policy, start: Time)
    requires InRange(p) && p.enabled
    ensures Told(p, [], start, map[]) && Returns(p, []) == []
  {
    StartsEmpty(p, map[]);
  }

  lemma TellFailure(p: Policy, ss: seq<Step>, start: Time, entries: map<string, Entry>, status: int, now: Time)
    requires Told(p, ss, start, entries) && entries.Keys <= {"a"} && Reading(now) && EndTime(ss, start) <= now
    ensures Told(p, ss + [Fails("a", status, now)], start,
                 map["a" := Judged(EntryAt(entries, "a", now), NewReg(p), "c", "a", Failure("a", status), now)])
    ensures Returns(p, ss + [Fails("a", status, now)]) ==
            Returns(p, ss) + [NewBan(EntryAt(entries, "a", now), NewReg(p), "c", "a", Failure("a", status), now)]
  {
    if "a" !in entries {
      assert entries == map[];
    }
    FailsAt(Run(Empty(p), ss), entries, p, "a", status, now);
    RunOneMore(Empty(p), ss, Fails("a", status, now), start);
    var e := Judged(EntryAt(entries, "a", now), NewReg(p), "c", "a", Failure("a", status), now);
    assert entries["a" := e] == map["a" := e];
  }

  lemma TellSweep(p: Policy, ss: seq<Step>, start: Time, e: Entry, now: Time)
    requires Told(p, ss, start, map["a" := e]) && Reading(now) && EndTime(ss, start) <= now && Sweepable(e, now, p)
    ensures Told(p, ss + [Sweeps(now)], start, map[]) && Returns(p, ss + [Sweeps(now)]) == Returns(p, ss)
  {
    SweepsAt(Run(Empty(p), ss), e, p, now);
    RunOneMore(Empty(p), ss, Sweeps(now), start);
  }

  lemma TellUnban(p: Policy, ss: seq<Step>, start: Time, e: Entry, now: Time)
    requires Told(p, ss, start, map["a" := e]) && Reading(now) && EndTime(ss, start) <= now
    ensures Told(p, ss + [Unbans(now)], start, map["a" := UnbanEntry(e)]) && Returns(p, ss + [Unbans(now)]) == Returns(p, ss) + [None]
  {
    UnbansAt(Run(Empty(p), ss), e, p, now);
    RunOneMore(Empty(p), ss, Unbans(now), start);
  }

  // -- What one failure does --

  /** A status that bans: the pair is out for the rung of its strikes, and its counters hold one more failure. */
  lemma StatusBans(e: Entry, p: Policy, a: string, status: int, now: Time)
    requires InRange(p) && Reading(now) && BansStatus(p, status) && !Banned(e, now)
    ensures Judged(e, NewReg(p), "c", a, Failure(a, status), now) ==
            Sentenced(Observed(e, Failure(a, status), now, p), Hit(ByStatus(status), None), false, now, p)
    ensures NewBan(e, NewReg(p), "c", a, Failure(a, status), now).Some?
    ensures NewBan(e, NewReg(p), "c", a, Failure(a, status), now).value.until == now + PolicyTTL(p, StandingStrikes(e, now, p))
    ensures NewBan(e, NewReg(p), "c", a, Failure(a, status), now).value.bannedAt == now
  {
    NormalizeRepairs(p);
  }

  /** Nothing but the streak and the listed statuses can ban. */
  predicate StreakOrStatus(p: Policy) {
    InRange(p) && p.consecutiveFails > 0 && p.timeoutFails == 0 && p.failRate == 0.0
  }

  /** A failure without a listed status bans exactly if it completes the streak. */
  lemma StreakBans(e: Entry, p: Policy, a: string, now: Time)
    requires StreakOrStatus(p) && Reading(now) && !Banned(e, now)
    ensures NewBan(e, NewReg(p), "c", a, Failure(a, 0), now).Some? <==>
            NextStreak(e.counters, now, false, WindowOf(p)) >= p.consecutiveFails
    ensures NewBan(e, NewReg(p), "c", a, Failure(a, 0), now).None? ==>
            Judged(e, NewReg(p), "c", a, Failure(a, 0), now) == Observed(e, Failure(a, 0), now, p)
  {
    NormalizeRepairs(p);
    var seen := Observed(e, Failure(a, 0), now, p);
    assert seen.counters == RecordedBy(e.counters, Failure(a, 0), now, p);
    assert Consecutive(seen.counters, now, WindowOf(p)) == NextStreak(e.counters, now, false, WindowOf(p));
  }

  /** A pair that was seen once can be swept when its ban and its idle time are over. */
  lemma SeenOnceIsSweepable(e: Entry, p: Policy, a: string, status: int, at: Time, now: Time)
    requires InRange(p) && Reading(at) && e.counters == RecordedBy(EMPTY_RING, Failure(a, status), at, p)
    requires e.lastSeenAt == at && now - at >= IdleReset(p) && !Banned(e, now)
    ensures Sweepable(e, now, p)
  {
    var idx, cur := BucketIndex(at, BucketSec(p)), BucketIndex(now, BucketSec(p));
    WindowCoversByAge(at, now, BucketSec(p));
    forall i, kind ensures Slice(EMPTY_RING, i, kind) == 0 {
      EmptyRingSlices(i, kind);
    }
    RecordedHasNoFuture(EMPTY_RING, idx, at, false, IsTimeout(Failure(a, status)), WindowOf(p));
    forall kind ensures Sum(e.counters, cur, kind) == 0 {
      var ns := Slices(e.counters, cur, kind);
      forall k | 0 <= k < |ns| ensures ns[k] == 0 {
        assert ns[k] == Slice(e.counters, cur - 5 + k, kind);
      }
      TotalIsZero(ns);
    }
  }

  // -- One policy for the witnesses --

  /** Three failures in a row ban, and so does a 403, for the shipped window and TTLs; nothing else does. */
  predicate Strict(p: Policy) {
    && InRange(p) && p.enabled && !p.reprobeOnExpiry
    && p.windowSec == 300 && p.banTTLSec == 60 && p.banTTLMaxSec == 1800
    && p.consecutiveFails == 3 && p.timeoutFails == 0 && p.failRate == 0.0 && 403 in p.banStatuses
  }

  lemma StrictRungs(p: Policy)
    requires Strict(p)
    ensures PolicyTTL(p, 0) == Seconds(60) && PolicyTTL(p, 1) == Seconds(120)
  {
    assert Doubled(Seconds(60), Seconds(1800), 1) == Doubled(Wrap64(2 * Seconds(60)), Seconds(1800), 0);
  }

  /** What the streak of an entry is, when it last moved, and until when the pair is out. */
  predicate Shows(e: Entry, streak: int, at: Time, until: Time) {
    e.counters.consecFails == streak && e.counters.lastOutcomeAt == at && e.bannedUntil == until && !e.pendingReprobe
  }

  /** The entry after a first failure that bans at once. */
  function BannedOnce(p: Policy, t: Time): Entry
    requires Strict(p) && Reading(t)
  {
    Judged(Fresh(t), NewReg(p), "c", "a", Failure("a", 403), t)
  }

  lemma FirstBan(p: Policy, t: Time)
    requires Strict(p) && Reading(t)
    ensures NewBan(Fresh(t), NewReg(p), "c", "a", Failure("a", 403), t).Some?
    ensures NewBan(Fresh(t), NewReg(p), "c", "a", Failure("a", 403), t).value.until == t + Seconds(60)
    ensures BannedOnce(p, t) ==
            Sentenced(Observed(Fresh(t), Failure("a", 403), t, p), Hit(ByStatus(403), None), false, t, p)
  {
    StrictRungs(p);
    StatusBans(Fresh(t), p, "a", 403, t);
  }

  lemma BannedOnceShows(p: Policy, t: Time)
    requires Strict(p) && Reading(t)
    ensures Shows(BannedOnce(p, t), 1, t, t + Seconds(60)) && BannedOnce(p, t).strikes == 1 && BannedOnce(p, t).lastBanAt == t
    ensures BannedOnce(p, t).lastSeenAt == t && BannedOnce(p, t).counters == RecordedBy(EMPTY_RING, Failure("a", 403), t, p)
  {
    FirstBan(p, t);
    StrictRungs(p);
    assert Observed(Fresh(t), Failure("a", 403), t, p).counters == RecordedBy(EMPTY_RING, Failure("a", 403), t, p);
  }

  lemma BannedOnceIsSweepable(p: Policy, t: Time, u: Time)
    requires Strict(p) && Reading(t) && u >= t + Seconds(600)
    ensures Sweepable(BannedOnce(p, t), u, p)
  {
    BannedOnceShows(p, t);
    SeenOnceIsSweepable(BannedOnce(p, t), p, "a", 403, t, u);
  }

  /** One more failure that does not complete the streak. */
  lemma StreakGrows(p: Policy, e: Entry, now: Time, streak: int, at: Time, until: Time)
    requires Strict(p) && Reading(now) && Shows(e, streak, at, until) && until <= now && at <= now
    ensures Shows(Observed(e, Failure("a", 0), now, p),
                  if at != 0 && now - at > Seconds(300) then 1 else streak + 1, now, until)
    ensures NewBan(e, NewReg(p), "c", "a", Failure("a", 0), now).Some? <==>
            (at == 0 || now - at <= Seconds(300)) && streak + 1 >= 3
    ensures NewBan(e, NewReg(p), "c", "a", Failure("a", 0), now).None? ==>
            Judged(e, NewReg(p), "c", "a", Failure("a", 0), now) == Observed(e, Failure("a", 0), now, p)
  {
    StreakBans(e, p, "a", now);
    assert Observed(e, Failure("a", 0), now, p).counters == RecordedBy(e.counters, Failure("a", 0), now, p);
  }
}
