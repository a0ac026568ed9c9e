/** Whole runs: a registry that is swept and one that is not give the same answers. */
module SweepRuns {
  import opened Clock
  import opened Wrappers
  import opened Window
  import opened Policies
  import opened RegistryModel
  import opened RegistryFacts
  import opened Caps
  import opened SweepEquivalence

  // -- Soundness of every reachable entry --

  lemma NoFutureLater(r: Ring, now: Time, later: Time, p: Policy)
    requires NoFuture(r, BucketIndex(now, BucketSec(p))) && now <= later
    ensures NoFuture(r, BucketIndex(later, BucketSec(p)))
  {
    BucketIndexMonotone(now, later, BucketSec(p));
  }

  lemma RecordedHasNoFuture(r: Ring, idx: int, now: Time, ok: bool, timedOut: bool, staleAfter: Duration)
    requires now != 0 && NoFuture(r, idx)
    ensures NoFuture(Recorded(r, idx, now, ok, timedOut, staleAfter), idx)
  {
    forall i, kind | i > idx
      ensures Slice(Recorded(r, idx, now, ok, timedOut, staleAfter), i, kind) == 0
    {
      LaterSliceRecorded(r, idx, now, ok, timedOut, staleAfter, i, kind);
    }
  }

  lemma FreshIsSound(now: Time, p: Policy)
    requires Reading(now)
    ensures Sound(Fresh(now), now, p)
  {
    forall i, kind ensures Slice(EMPTY_RING, i, kind) == 0 {
      EmptyRingSlices(i, kind);
    }
  }

  lemma ObservedIsSound(e: Entry, o: Outcome, now: Time, p: Policy)
    requires Reading(now) && Sound(e, now, p)
    ensures Sound(Observed(e, o, now, p), now, p)
  {
    RecordedHasNoFuture(e.counters, BucketIndex(now, BucketSec(p)), now, o.ok, IsTimeout(o), WindowOf(p));
    assert Observed(e, o, now, p).counters == RecordedBy(e.counters, o, now, p);
  }

  lemma JudgedIsSound(e: Entry, reg: Reg, c: string, a: string, o: Outcome, now: Time)
    requires Reading(now) && Sound(e, now, reg.policy)
    ensures Sound(Judged(e, reg, c, a, o, now), now, reg.policy)
  {
    ObservedIsSound(e, o, now, reg.policy);
  }

  lemma SoundLater(e: Entry, now: Time, later: Time, p: Policy)
    requires Sound(e, now, p) && now <= later
    ensures Sound(e, later, p)
  {
    NoFutureLater(e.counters, now, later, p);
  }

  lemma ClearedHasNoFuture(r: Ring, idx: int)
    requires NoFuture(r, idx)
    ensures NoFuture(StreakCleared(r), idx)
  {
    forall i, kind | i > idx ensures Slice(StreakCleared(r), i, kind) == 0 {
      assert Slice(StreakCleared(r), i, kind) == Slice(r, i, kind);
    }
  }

  lemma DroppedIsSound(e: Entry, now: Time, p: Policy, q: Policy)
    requires Sound(e, now, p)
    ensures Sound(e.(counters := EMPTY_RING), now, q)
  {
    forall i, kind ensures Slice(EMPTY_RING, i, kind) == 0 {
      EmptyRingSlices(i, kind);
    }
  }

  lemma PairStaysSound(w: World, s: Step, t: Time, c: string, a: string)
    requires WellFormed(w.reg) && LegalStep(w, s) && t <= s.now && AllSound(w.reg, t)
    requires PairAfter(w.reg, s, c, a).Some?
    ensures Sound(PairAfter(w.reg, s, c, a).value, s.now, Apply(w, s).world.reg.policy)
  {
    var e := Find(w.reg, c, a);
    if e.Some? {
      SoundLater(e.value, t, s.now, w.reg.policy);
    }
    match s.event
    case Record(o) =>
      if !Ignored(w.reg, o) && Targets(s, c, a) {
        FreshIsSound(s.now, w.reg.policy);
        JudgedIsSound(EntryBefore(w.reg, s, c, a), w.reg, c, a, o, s.now);
      }
    case SetPolicy(p) => DroppedIsSound(e.value, s.now, w.reg.policy, Normalize(p));
    case Unban(_, _) => ClearedHasNoFuture(e.value.counters, BucketIndex(s.now, BucketSec(w.reg.policy)));
    case _ =>
  }

  lemma StepKeepsSound(w: World, s: Step, t: Time)
    requires WellFormed(w.reg) && LegalStep(w, s) && t <= s.now && AllSound(w.reg, t)
    ensures AllSound(Apply(w, s).world.reg, s.now)
  {
    forall c, a | Find(Apply(w, s).world.reg, c, a).Some?
      ensures Sound(Find(Apply(w, s).world.reg, c, a).value, s.now, Apply(w, s).world.reg.policy)
    {
      FindAfter(w, s, c, a);
      PairStaysSound(w, s, t, c, a);
    }
  }

  /** Every registry reached from a new one, under any policies, is sound. */
  lemma {:induction false} RunFromNewIsSound(p: Policy, rows: Rows, ss: seq<Step>, start: Time)
    requires LegalRun(World(NewReg(p), rows), ss, start)
    ensures WellFormed(Run(World(NewReg(p), rows), ss).reg)
    ensures AllSound(Run(World(NewReg(p), rows), ss).reg, EndTime(ss, start))
  {
    var w := World(NewReg(p), rows);
    NormalizeRepairs(p);
    if |ss| > 0 {
      var front := ss[..|ss| - 1];
      RunFromNewIsSound(p, rows, front, start);
      StepKeepsWellFormed(Run(w, front), ss[|ss| - 1]);
      StepKeepsSound(Run(w, front), ss[|ss| - 1], EndTime(front, start));
    }
  }

  /** Under one policy such a registry also has room, so that it is a place to start comparing from. */
  lemma RunFromNewIsReady(p: Policy, rows: Rows, ss: seq<Step>, start: Time)
    requires LegalRun(World(NewReg(p), rows), ss, start) && FixedPolicy(ss)
    ensures WellFormed(Run(World(NewReg(p), rows), ss).reg) && WithinCaps(Run(World(NewReg(p), rows), ss).reg)
    ensures AllSound(Run(World(NewReg(p), rows), ss).reg, EndTime(ss, start))
  {
    RunFromNewIsSound(p, rows, ss, start);
    RunFromNewKeepsCaps(p, rows, ss, start);
  }

  // -- One step in both registries --

  /** Steps whose effect does not depend on what Sweep may have deleted. */
  predicate Plain(reg: Reg, s: Step) {
    && !s.event.SetPolicy? && !s.event.Sweep?
    && s.dropChannel == "" && s.dropEntry == ""
    && (s.event.Unban? && Find(reg, s.event.channel, s.event.addr).Some? ==>
          SafeToUnban(Find(reg, s.event.channel, s.event.addr).value, s.now, reg.policy))
  }

  lemma FreshWhenever(x: Option<Entry>, y: Option<Entry>, now: Time, t: Time, p: Policy)
    requires PairsAlike(x, y, t, p)
    ensures EntriesAlike(EntryOrFresh(x, now), EntryOrFresh(y, now), t, p)
    ensures ForgetsNoLess(EntryOrFresh(x, now), EntryOrFresh(y, now))
  {
  }

  lemma ReleasedAlike(x: Option<Entry>, y: Option<Entry>, now: Time, p: Policy)
    requires PairsAlike(x, y, now, p)
    ensures PairsAlike(ReleasedPair(x), ReleasedPair(y), now, p)
  {
  }

  lemma PairStaysAlike(r: Reg, q: Reg, s: Step, t: Time, c: string, a: string)
    requires RegsAlike(r, q, t) && t <= s.now && Reading(s.now) && Plain(r, s)
    ensures PairsAlike(PairAfter(r, s, c, a), PairAfter(q, s, c, a), s.now, r.policy)
    ensures s.event.Record? && Targets(s, c, a) ==>
              NewBan(EntryBefore(r, s, c, a), r, c, a, s.event.outcome, s.now) ==
              NewBan(EntryBefore(q, s, c, a), q, c, a, s.event.outcome, s.now)
  {
    var x, y := Find(r, c, a), Find(q, c, a);
    assert PairsAlike(x, y, t, r.policy);
    AlikeStaysAlike(EntryOrFresh(x, 0), EntryOrFresh(y, 0), t, s.now, r.policy);
    assert PairsAlike(x, y, s.now, r.policy);
    match s.event
    case Record(o) =>
      if Targets(s, c, a) {
        FreshWhenever(x, y, s.now, s.now, r.policy);
        JudgedEntriesAlike(EntryBefore(r, s, c, a), EntryBefore(q, s, c, a), r, c, o, s.now);
        JudgedAlike(r, q, c, EntryBefore(q, s, c, a), o, s.now);
      }
    case Allow(_, _) => ReleasedAlike(x, y, s.now, r.policy);
    case Unban(uc, ua) =>
      if uc == c && ua == a && x.Some? {
        SafeUnbanKeepsAlike(x.value, EntryOrFresh(y, 0), s.now, r.policy);
      }
    case _ =>
  }

  function AllowsAfter(allows: map<string, set<string>>, s: Step): map<string, set<string>> {
    match s.event
    case Allow(c, a) => if a == "" then allows else Protected(allows, c, a)
    case Deny(c, a) => if c in allows then allows[c := allows[c] - {a}] else allows
    case _ => allows
  }

  lemma SettingsAfter(w: World, s: Step)
    requires Reading(s.now) && !s.event.SetPolicy?
    ensures Apply(w, s).world.reg.policy == w.reg.policy
    ensures Apply(w, s).world.reg.allows == AllowsAfter(w.reg.allows, s)
    ensures Apply(w, s).world.reg.rules == if s.event.SetRules? then s.event.rules else w.reg.rules
  {
    if s.event.Record? && !Ignored(w.reg, s.event.outcome) {
      RecordShape(w, s);
    }
  }

  lemma SameBan(w: World, v: World, s: Step, t: Time)
    requires WellFormed(w.reg) && WellFormed(v.reg) && LegalStep(w, s) && LegalStep(v, s)
    requires RegsAlike(w.reg, v.reg, t) && t <= s.now && Plain(w.reg, s)
    ensures Apply(w, s).ban == Apply(v, s).ban
  {
    if s.event.Record? && !Ignored(w.reg, s.event.outcome) {
      var (c, a) := Target(s);
      RecordEffect(w, s, c, a);
      RecordEffect(v, s, c, a);
      PairStaysAlike(w.reg, v.reg, s, t, c, a);
    }
  }

  /** The same plain step keeps alike registries alike. */
  lemma StepStaysAlike(w: World, v: World, s: Step, t: Time)
    requires WellFormed(w.reg) && WellFormed(v.reg) && LegalStep(w, s) && LegalStep(v, s)
    requires RegsAlike(w.reg, v.reg, t) && t <= s.now && Plain(w.reg, s)
    ensures RegsAlike(Apply(w, s).world.reg, Apply(v, s).world.reg, s.now)
  {
    SettingsAfter(w, s);
    SettingsAfter(v, s);
    var r, q := Apply(w, s).world.reg, Apply(v, s).world.reg;
    forall c, a ensures PairsAlike(Find(r, c, a), Find(q, c, a), s.now, r.policy) {
      FindAfter(w, s, c, a);
      FindAfter(v, s, c, a);
      PairStaysAlike(w.reg, v.reg, s, t, c, a);
    }
  }

  lemma SweptPairAlike(x: Option<Entry>, y: Option<Entry>, now: Time, p: Policy, t: Time)
    requires InRange(p) && PairsAlike(x, y, t, p) && t <= now
    requires y.Some? && Sound(y.value, now, p) && Sweepable(y.value, now, p)
    ensures PairsAlike(x, None, now + 1, p)
  {
    AlikeStaysAlike(EntryOrFresh(x, 0), y.value, t, now + 1, p);
    SweptIsFresh(y.value, now, p, 0);
    AlikeIsTransitive(EntryOrFresh(x, 0), y.value, Fresh(0), now + 1, p);
  }

  lemma SweepStaysAlike(r: Reg, v: World, now: Time, t: Time)
    requires WellFormed(v.reg) && RegsAlike(r, v.reg, t) && t <= now && AllSound(v.reg, now)
    ensures RegsAlike(r, SweepIn(v, now).reg, now + 1)
  {
    forall c, a ensures PairsAlike(Find(r, c, a), Find(SweepIn(v, now).reg, c, a), now + 1, r.policy) {
      SweepPair(v, now, c, a);
      var x, y := Find(r, c, a), Find(v.reg, c, a);
      assert PairsAlike(x, y, t, r.policy);
      if PairSweepable(v.reg, (c, a), now) {
        SweptPairAlike(x, y, now, r.policy, t);
      } else {
        AlikeStaysAlike(EntryOrFresh(x, 0), EntryOrFresh(y, 0), t, now + 1, r.policy);
      }
    }
  }

  // -- The swept registry never holds more --

  /** If the larger registry has room, so has the smaller one: neither evicts. */
  lemma RoomInBoth(w: World, v: World, s: Step)
    requires WellFormed(w.reg) && WellFormed(v.reg) && WithinCaps(w.reg) && NoMore(v.reg, w.reg)
    requires v.reg.policy == w.reg.policy && LegalStep(w, s) && s.dropChannel == "" && s.dropEntry == ""
    ensures LegalStep(v, s)
  {
    if s.event.Record? && !Ignored(w.reg, s.event.outcome) {
      var (c, a) := Target(s);
      assert !NeedsChannelRoom(w.reg, c);
      FewerThan(v.reg.chans, w.reg.chans, c);
      var f, g := FetchChannel(w, c, s.now, ""), FetchChannel(v, c, s.now, "");
      assert !NeedsEntryRoom(f.reg, c, a);
      if c in v.reg.chans {
        FewerThan(v.reg.chans[c].entries, w.reg.chans[c].entries, a);
      }
      assert !NeedsEntryRoom(g.reg, c, a);
    }
  }

  lemma FetchedKeys(w: World, c: string, a: string, now: Time)
    ensures Fetch(w, c, a, now, "", "").reg.chans.Keys == w.reg.chans.Keys + {c}
    ensures forall k | k in Fetch(w, c, a, now, "", "").reg.chans ::
              AddrsOf(Fetch(w, c, a, now, "", "").reg, k) == AddrsOf(w.reg, k) + if k == c then {a} else {}
  {
  }

  function ChannelsAfter(chans: set<string>, s: Step, ignored: bool): set<string> {
    match s.event
    case Record(_) => if ignored then chans else chans + {Target(s).0}
    case DeleteChannel(c) => chans - {c}
    case _ => chans
  }

  function AddrsAfter(addrs: set<string>, s: Step, ignored: bool, k: string): set<string> {
    match s.event
    case Record(_) => if ignored || k != Target(s).0 then addrs else addrs + {Target(s).1}
    case ResetChannel(c) => if k == c then {} else addrs
    case _ => addrs
  }

  lemma KeysAfterRecord(w: World, s: Step)
    requires LegalStep(w, s) && s.event.Record? && s.dropChannel == "" && s.dropEntry == "" && !Ignored(w.reg, s.event.outcome)
    ensures Apply(w, s).world.reg.chans.Keys == ChannelsAfter(w.reg.chans.Keys, s, false)
    ensures forall k | k in Apply(w, s).world.reg.chans ::
              AddrsOf(Apply(w, s).world.reg, k) == AddrsAfter(AddrsOf(w.reg, k), s, false, k)
  {
    RecordShape(w, s);
    FetchedKeys(w, Target(s).0, Target(s).1, s.now);
  }

  lemma KeysAfterOther(w: World, s: Step)
    requires LegalStep(w, s) && !s.event.SetPolicy? && !s.event.Sweep? && !s.event.Record?
    ensures Apply(w, s).world.reg.chans.Keys == ChannelsAfter(w.reg.chans.Keys, s, false)
    ensures forall k | k in Apply(w, s).world.reg.chans ::
              AddrsOf(Apply(w, s).world.reg, k) == AddrsAfter(AddrsOf(w.reg, k), s, false, k)
  {
  }

  /** What a plain step does to the keys depends only on the keys. */
  lemma KeysAfter(w: World, s: Step)
    requires LegalStep(w, s) && !s.event.SetPolicy? && !s.event.Sweep? && s.dropChannel == "" && s.dropEntry == ""
    ensures Apply(w, s).world.reg.chans.Keys ==
            ChannelsAfter(w.reg.chans.Keys, s, s.event.Record? && Ignored(w.reg, s.event.outcome))
    ensures forall k | k in Apply(w, s).world.reg.chans ::
              AddrsOf(Apply(w, s).world.reg, k) ==
              AddrsAfter(AddrsOf(w.reg, k), s, s.event.Record? && Ignored(w.reg, s.event.outcome), k)
  {
    if !s.event.Record? {
      KeysAfterOther(w, s);
    } else if !Ignored(w.reg, s.event.outcome) {
      KeysAfterRecord(w, s);
    }
  }

  lemma StepKeepsNoMore(w: World, v: World, s: Step)
    requires LegalStep(w, s) && LegalStep(v, s) && NoMore(v.reg, w.reg)
    requires v.reg.policy == w.reg.policy && Plain(w.reg, s)
    ensures NoMore(Apply(v, s).world.reg, Apply(w, s).world.reg)
  {
    KeysAfter(w, s);
    KeysAfter(v, s);
    KeysStayFewer(w.reg, v.reg, Apply(w, s).world.reg, Apply(v, s).world.reg, s, s.event.Record? && Ignored(w.reg, s.event.outcome));
  }

  lemma KeysStayFewer(r: Reg, q: Reg, r': Reg, q': Reg, s: Step, ignored: bool)
    requires NoMore(q, r)
    requires r'.chans.Keys == ChannelsAfter(r.chans.Keys, s, ignored)
    requires q'.chans.Keys == ChannelsAfter(q.chans.Keys, s, ignored)
    requires forall k | k in r'.chans :: AddrsOf(r', k) == AddrsAfter(AddrsOf(r, k), s, ignored, k)
    requires forall k | k in q'.chans :: AddrsOf(q', k) == AddrsAfter(AddrsOf(q, k), s, ignored, k)
    ensures NoMore(q', r')
  {
    forall c | c in q'.chans ensures q'.chans[c].entries.Keys <= r'.chans[c].entries.Keys {
      assert AddrsOf(q, c) <= AddrsOf(r, c);
      assert AddrsOf(q', c) <= AddrsOf(r', c);
    }
  }

  lemma SweepKeepsNoMore(r: Reg, v: World, now: Time)
    requires NoMore(v.reg, r)
    ensures NoMore(SweepIn(v, now).reg, r)
  {
  }

  // -- Runs --

  /** The earliest time of the next step: strictly later than a sweep, otherwise not earlier than the last step. */
  function Ready(ss: seq<Step>, start: Time): Time {
    if |ss| == 0 then start
    else if ss[|ss| - 1].event.Sweep? then ss[|ss| - 1].now + 1
    else ss[|ss| - 1].now
  }

  ghost predicate Spaced(ss: seq<Step>, start: Time) {
    |ss| > 0 ==>
      && Spaced(ss[..|ss| - 1], start)
      && Reading(ss[|ss| - 1].now)
      && Ready(ss[..|ss| - 1], start) <= ss[|ss| - 1].now
  }

  /** The run without its sweeps. */
  function Quiet(ss: seq<Step>): seq<Step> {
    if |ss| == 0 then []
    else if ss[|ss| - 1].event.Sweep? then Quiet(ss[..|ss| - 1])
    else Quiet(ss[..|ss| - 1]) + [ss[|ss| - 1]]
  }

  /** What the steps other than sweeps return. */
  function Answers(w: World, ss: seq<Step>): seq<Option<Ban>>
    requires forall k | 0 <= k < |ss| :: Reading(ss[k].now)
  {
    if |ss| == 0 then []
    else if ss[|ss| - 1].event.Sweep? then Answers(w, ss[..|ss| - 1])
    else Answers(w, ss[..|ss| - 1]) + [Apply(Run(w, ss[..|ss| - 1]), ss[|ss| - 1]).ban]
  }

  /** Below both caps throughout, under one policy, and releasing by hand only what is out. */
  ghost predicate PlainRun(w: World, ss: seq<Step>)
    requires forall k | 0 <= k < |ss| :: Reading(ss[k].now)
  {
    |ss| > 0 ==> PlainRun(w, ss[..|ss| - 1]) && Plain(Run(w, ss[..|ss| - 1]).reg, ss[|ss| - 1])
  }

  ghost predicate Comparable(w: World, v: World, t: Time) {
    && WellFormed(w.reg) && WellFormed(v.reg) && WithinCaps(w.reg)
    && NoMore(v.reg, w.reg) && AllSound(v.reg, t) && RegsAlike(w.reg, v.reg, t)
  }

  lemma AlikeToItself(reg: Reg, t: Time)
    ensures RegsAlike(reg, reg, t)
  {
  }

  lemma SameStep(w: World, v: World, s: Step, t: Time)
    requires Comparable(w, v, t) && t <= s.now && LegalStep(w, s) && Plain(w.reg, s)
    ensures LegalStep(v, s)
    ensures Comparable(Apply(w, s).world, Apply(v, s).world, s.now)
    ensures Apply(w, s).ban == Apply(v, s).ban
  {
    RoomInBoth(w, v, s);
    StepStaysAlike(w, v, s, t);
    SameBan(w, v, s, t);
    StepKeepsNoMore(w, v, s);
    StepKeepsWellFormed(w, s);
    StepKeepsWellFormed(v, s);
    StepKeepsCaps(w, s);
    StepKeepsSound(v, s, t);
  }

  lemma ExtraSweep(w: World, v: World, s: Step, t: Time)
    requires Comparable(w, v, t) && t <= s.now && Reading(s.now) && s.event.Sweep?
    ensures LegalStep(v, s)
    ensures Comparable(w, Apply(v, s).world, s.now + 1)
  {
    StepKeepsWellFormed(v, s);
    StepKeepsSound(v, s, t);
    SoundAtOnce(v.reg, t, s.now);
    SoundAtOnce(Apply(v, s).world.reg, s.now, s.now + 1);
    SweepStaysAlike(w.reg, v, s.now, t);
    SweepKeepsNoMore(w.reg, v, s.now);
  }

  lemma SoundAtOnce(reg: Reg, t: Time, later: Time)
    requires AllSound(reg, t) && t <= later
    ensures AllSound(reg, later)
  {
    forall c, a | Find(reg, c, a).Some? ensures Sound(Find(reg, c, a).value, later, reg.policy) {
      SoundLater(Find(reg, c, a).value, t, later, reg.policy);
    }
  }

  /** What one more step makes of a run. */
  lemma RunOneMore(w: World, front: seq<Step>, s: Step, start: Time)
    requires LegalRun(w, front, start) && Reading(s.now)
    ensures forall k | 0 <= k < |front| + 1 :: Reading((front + [s])[k].now)
    ensures Run(w, front + [s]) == Apply(Run(w, front), s).world
    ensures LegalStep(Run(w, front), s) && EndTime(front, start) <= s.now <==> LegalRun(w, front + [s], start)
    ensures PlainRun(w, front + [s]) <==> PlainRun(w, front) && Plain(Run(w, front).reg, s)
    ensures Answers(w, front + [s]) == Answers(w, front) + if s.event.Sweep? then [] else [Apply(Run(w, front), s).ban]
  {
    assert (front + [s])[..|front|] == front;
  }

  lemma QuietOneMore(front: seq<Step>, s: Step)
    ensures Quiet(front + [s]) == if s.event.Sweep? then Quiet(front) else Quiet(front) + [s]
  {
    assert (front + [s])[..|front|] == front;
  }

  lemma SpacedPrefix(front: seq<Step>, s: Step, start: Time)
    requires Spaced(front + [s], start)
    ensures Spaced(front, start) && Reading(s.now) && EndTime(front, start) <= Ready(front, start) <= s.now
    ensures Ready(front + [s], start) == if s.event.Sweep? then s.now + 1 else s.now
  {
    assert (front + [s])[..|front|] == front;
  }

  lemma LegalPrefix(w: World, front: seq<Step>, s: Step, start: Time)
    requires LegalRun(w, front + [s], start) && PlainRun(w, front + [s])
    ensures LegalRun(w, front, start) && LegalStep(Run(w, front), s) && EndTime(front, start) <= s.now
    ensures PlainRun(w, front)
  {
    assert (front + [s])[..|front|] == front;
  }

  /** Swept or not, the run is legal, ends alike, and has answered the same. */
  ghost predicate SweptAlike(w: World, ss: seq<Step>, start: Time) {
    && LegalRun(w, ss, start) && LegalRun(w, Quiet(ss), start)
    && Comparable(Run(w, Quiet(ss)), Run(w, ss), Ready(ss, start))
    && Answers(w, Quiet(ss)) == Answers(w, ss)
  }

  lemma AfterSweep(w: World, front: seq<Step>, s: Step, start: Time)
    requires SweptAlike(w, front, start) && Spaced(front + [s], start) && s.event.Sweep?
    ensures SweptAlike(w, front + [s], start)
  {
    SpacedPrefix(front, s, start);
    QuietOneMore(front, s);
    ExtraSweep(Run(w, Quiet(front)), Run(w, front), s, Ready(front, start));
    RunOneMore(w, front, s, start);
  }

  lemma AfterStep(w: World, front: seq<Step>, s: Step, start: Time)
    requires SweptAlike(w, front, start) && Spaced(front + [s], start) && !s.event.Sweep?
    requires LegalRun(w, Quiet(front) + [s], start) && PlainRun(w, Quiet(front) + [s])
    ensures SweptAlike(w, front + [s], start)
  {
    SpacedPrefix(front, s, start);
    QuietOneMore(front, s);
    LegalPrefix(w, Quiet(front), s, start);
    RunOneMore(w, Quiet(front), s, start);
    SameStep(Run(w, Quiet(front)), Run(w, front), s, Ready(front, start));
    RunOneMore(w, front, s, start);
  }

  lemma {:induction false} SweptRunIsComparable(w: World, ss: seq<Step>, start: Time)
    requires WellFormed(w.reg) && WithinCaps(w.reg) && AllSound(w.reg, start)
    requires Spaced(ss, start) && LegalRun(w, Quiet(ss), start) && PlainRun(w, Quiet(ss))
    ensures SweptAlike(w, ss, start)
    decreases |ss|
  {
    if |ss| == 0 {
      AlikeToItself(w.reg, start);
    } else {
      var front, s := ss[..|ss| - 1], ss[|ss| - 1];
      assert ss == front + [s];
      SpacedPrefix(front, s, start);
      QuietOneMore(front, s);
      if s.event.Sweep? {
        SweptRunIsComparable(w, front, start);
        AfterSweep(w, front, s, start);
      } else {
        LegalPrefix(w, Quiet(front), s, start);
        SweptRunIsComparable(w, front, start);
        AfterStep(w, front, s, start);
      }
    }
  }

  /**
   * Sweep at any instants: every Record returns the same ban, and at every strictly later instant Banned and BanSet
   * answer the same, as in the run that never sweeps.
   */
  lemma SweepIsUnobservable(w: World, ss: seq<Step>, start: Time, t: Time, c: string, a: string)
    requires WellFormed(w.reg) && WithinCaps(w.reg) && AllSound(w.reg, start)
    requires Spaced(ss, start) && LegalRun(w, Quiet(ss), start) && PlainRun(w, Quiet(ss))
    requires t >= Ready(ss, start)
    ensures LegalRun(w, ss, start)
    ensures Answers(w, ss) == Answers(w, Quiet(ss))
    ensures IsBanned(Run(w, ss).reg, c, a, t) == IsBanned(Run(w, Quiet(ss)).reg, c, a, t)
    ensures BanSetOf(Run(w, ss).reg, c, t) == BanSetOf(Run(w, Quiet(ss)).reg, c, t)
  {
    SweptRunIsComparable(w, ss, start);
    var r, q := Run(w, Quiet(ss)).reg, Run(w, ss).reg;
    RegsAlikeLater(r, q, Ready(ss, start), t);
    AlikeAnswers(r, q, t, c, a);
    AlikeBanSets(r, q, t, c);
  }

  lemma RegsAlikeLater(r: Reg, q: Reg, t: Time, later: Time)
    requires RegsAlike(r, q, t) && t <= later
    ensures RegsAlike(r, q, later)
  {
    forall c, a ensures PairsAlike(Find(r, c, a), Find(q, c, a), later, r.policy) {
      assert PairsAlike(Find(r, c, a), Find(q, c, a), t, r.policy);
      AlikeStaysAlike(EntryOrFresh(Find(r, c, a), 0), EntryOrFresh(Find(q, c, a), 0), t, later, r.policy);
    }
  }
}
