/** Record decides on the pair's own history, although it keeps only a ring, a streak and a few fields. */
module RecordHistory {
  import opened Clock
  import opened Wrappers
  import opened Window
  import opened WindowHistory
  import opened Policies
  import opened RegistryModel
  import opened RegistryFacts

  function SampleOf(o: Outcome, now: Time): Sample {
    Sample(now, o.ok, IsTimeout(o))
  }

  /** How a step changes the history of pair (c, a): outcomes since it was created or its counters were dropped. */
  function HistAfter(reg: Reg, h: Hist, s: Step, c: string, a: string): Hist {
    match s.event
    case Record(o) =>
      if Ignored(reg, o) then h
      else if Targets(s, c, a) then h.Add(SampleOf(o, s.now))
      else if Evicted(reg, TargetChannel(o), o.addr, s.dropChannel, s.dropEntry, c, a) then NO_HISTORY
      else h
    case SetPolicy(p) => if reg.policy.windowSec == Normalize(p).windowSec then h else NO_HISTORY
    case SetRules(_) => h
    case Allow(_, _) => h
    case Deny(_, _) => h
    case Unban(uc, ua) => if uc == c && ua == a && Clearable(reg, c, a) then h.Clear() else h
    case ResetChannel(rc) => if rc == c then NO_HISTORY else h
    case DeleteChannel(rc) => if rc == c then NO_HISTORY else h
    case Sweep => if PairSweepable(reg, (c, a), s.now) then NO_HISTORY else h
  }

  function HistoryOf(w: World, ss: seq<Step>, c: string, a: string): Hist
    requires forall k | 0 <= k < |ss| :: Reading(ss[k].now)
  {
    if |ss| == 0 then NO_HISTORY
    else HistAfter(Run(w, ss[..|ss| - 1]).reg, HistoryOf(w, ss[..|ss| - 1], c, a), ss[|ss| - 1], c, a)
  }

  ghost predicate Faithful(e: Option<Entry>, h: Hist, p: Policy, end: Time) {
    && h.Valid()
    && (|h.log| > 0 ==> Last(h.log).at <= end)
    && (if e.Some? then Represents(e.value.counters, h, BucketSec(p), WindowOf(p)) else h == NO_HISTORY)
  }

  lemma FreshIsFaithful(now: Time, p: Policy, end: Time)
    ensures Faithful(Some(Fresh(now)), NO_HISTORY, p, end)
  {
    EmptyRepresents(BucketSec(p), WindowOf(p));
  }

  /** Judging an outcome adds one sample and does nothing else to the counters. */
  lemma JudgedCounters(e: Entry, reg: Reg, c: string, a: string, o: Outcome, now: Time)
    requires now != 0
    ensures Judged(e, reg, c, a, o, now).counters == RecordedBy(e.counters, o, now, reg.policy)
  {
  }

  lemma RecordIsFaithful(e: Entry, h: Hist, reg: Reg, c: string, a: string, o: Outcome, now: Time, end: Time)
    requires Reading(now) && end <= now && Faithful(Some(e), h, reg.policy, end)
    ensures Faithful(Some(Judged(e, reg, c, a, o, now)), h.Add(SampleOf(o, now)), reg.policy, now)
  {
    JudgedCounters(e, reg, c, a, o, now);
    RecordedRepresents(e.counters, h, BucketSec(reg.policy), SampleOf(o, now), WindowOf(reg.policy));
  }

  lemma RecordStepIsFaithful(w: World, h: Hist, s: Step, c: string, a: string, end: Time)
    requires WellFormed(w.reg) && LegalStep(w, s) && end <= s.now
    requires s.event.Record? && !Ignored(w.reg, s.event.outcome)
    requires Faithful(Find(w.reg, c, a), h, w.reg.policy, end)
    ensures Faithful(PairAfter(w.reg, s, c, a), HistAfter(w.reg, h, s, c, a), w.reg.policy, s.now)
  {
    if Targets(s, c, a) {
      if Find(w.reg, c, a).None? {
        FreshIsFaithful(s.now, w.reg.policy, end);
      }
      RecordIsFaithful(EntryBefore(w.reg, s, c, a), h, w.reg, c, a, s.event.outcome, s.now, end);
    }
  }

  lemma OtherStepIsFaithful(w: World, h: Hist, s: Step, c: string, a: string, end: Time)
    requires WellFormed(w.reg) && LegalStep(w, s) && end <= s.now
    requires !s.event.Record? && !s.event.SetPolicy?
    requires Faithful(Find(w.reg, c, a), h, w.reg.policy, end)
    ensures Faithful(PairAfter(w.reg, s, c, a), HistAfter(w.reg, h, s, c, a), w.reg.policy, s.now)
  {
    if s.event.Unban? && Clearable(w.reg, c, a) {
      ClearedRepresents(Find(w.reg, c, a).value.counters, h, BucketSec(w.reg.policy), WindowOf(w.reg.policy));
    }
  }

  lemma StepIsFaithful(w: World, h: Hist, s: Step, c: string, a: string, end: Time)
    requires WellFormed(w.reg) && LegalStep(w, s) && end <= s.now
    requires Faithful(Find(w.reg, c, a), h, w.reg.policy, end)
    ensures Faithful(Find(Apply(w, s).world.reg, c, a), HistAfter(w.reg, h, s, c, a), Apply(w, s).world.reg.policy, s.now)
  {
    FindAfter(w, s, c, a);
    if s.event.SetPolicy? {
      var p := Normalize(s.event.policy);
      EmptyRepresents(BucketSec(p), WindowOf(p));
    } else {
      StepKeepsPolicy(w, s);
      if s.event.Record? {
        if !Ignored(w.reg, s.event.outcome) {
          RecordStepIsFaithful(w, h, s, c, a, end);
        }
      } else {
        OtherStepIsFaithful(w, h, s, c, a, end);
      }
    }
  }

  lemma {:induction false} RunIsFaithful(p: Policy, rows: Rows, ss: seq<Step>, start: Time, c: string, a: string)
    requires LegalRun(World(NewReg(p), rows), ss, start)
    ensures WellFormed(Run(World(NewReg(p), rows), ss).reg)
    ensures Faithful(Find(Run(World(NewReg(p), rows), ss).reg, c, a),
                     HistoryOf(World(NewReg(p), rows), ss, c, a),
                     Run(World(NewReg(p), rows), ss).reg.policy,
                     EndTime(ss, start))
  {
    var w := World(NewReg(p), rows);
    if |ss| == 0 {
      NormalizeRepairs(p);
    } else {
      var front := ss[..|ss| - 1];
      RunIsFaithful(p, rows, front, start, c, a);
      StepKeepsWellFormed(Run(w, front), ss[|ss| - 1]);
      StepIsFaithful(Run(w, front), HistoryOf(w, front, c, a), ss[|ss| - 1], c, a, EndTime(front, start));
    }
  }

  // -- The decision --

  /** The evidence as the log has it: the trailing run of failures, and the outcomes of the last six slices. */
  function LoggedEvidence(h: Hist, now: Time, p: Policy): Evidence
    requires h.from <= |h.log|
  {
    Evidence(
      RunLength(h.Streakable(), WindowOf(p)),
      CountInWindow(h.log, BucketSec(p), now, Okay),
      CountInWindow(h.log, BucketSec(p), now, Failed),
      CountInWindow(h.log, BucketSec(p), now, TimedOut))
  }

  lemma EvidenceIsLogged(r: Ring, h: Hist, now: Time, p: Policy)
    requires InRange(p) && Represents(r, h, BucketSec(p), WindowOf(p))
    requires |h.log| > 0 && Last(h.log).at == now
    ensures EvidenceOf(r, now, p) == LoggedEvidence(h, now, p)
  {
    SumCountsLog(r, h.log, BucketSec(p), now, Okay);
    SumCountsLog(r, h.log, BucketSec(p), now, Failed);
    SumCountsLog(r, h.log, BucketSec(p), now, TimedOut);
  }

  /** The count of one kind takes in all of the window but its last sixth, and nothing from beyond the window. */
  predicate CountsWindow(n: int, log: Log, now: Time, windowSec: int, kind: Kind) {
    && CountAged(log, now, Seconds(5 * (windowSec / 6)), kind) <= n
    && n <= CountAged(log, now, Seconds(if windowSec < 6 then 6 else windowSec) - 1, kind)
  }

  /** What evidence means in seconds of the configured window. */
  ghost predicate CoversWindow(ev: Evidence, h: Hist, now: Time, windowSec: int)
    requires h.from <= |h.log|
  {
    && CountsWindow(ev.ok, h.log, now, windowSec, Okay)
    && CountsWindow(ev.fail, h.log, now, windowSec, Failed)
    && CountsWindow(ev.timeout, h.log, now, windowSec, TimedOut)
    && forall k | k >= 0 :: k <= ev.streak <==> IsRun(h.Streakable(), k, Seconds(windowSec))
  }

  lemma LoggedCountsWindow(log: Log, now: Time, p: Policy, kind: Kind)
    requires InRange(p) && Ordered(log) && (|log| > 0 ==> Last(log).at <= now)
    ensures CountsWindow(CountInWindow(log, BucketSec(p), now, kind), log, now, p.windowSec, kind)
  {
    WindowCountsByAge(log, BucketSec(p), now, Seconds(5 * (p.windowSec / 6)),
                      Seconds(if p.windowSec < 6 then 6 else p.windowSec) - 1, kind);
  }

  lemma LoggedCoversWindow(h: Hist, now: Time, p: Policy)
    requires InRange(p) && h.Valid() && (|h.log| > 0 ==> Last(h.log).at <= now)
    ensures CoversWindow(LoggedEvidence(h, now, p), h, now, p.windowSec)
  {
    LoggedCountsWindow(h.log, now, p, Okay);
    LoggedCountsWindow(h.log, now, p, Failed);
    LoggedCountsWindow(h.log, now, p, TimedOut);
    forall k | k >= 0
      ensures k <= LoggedEvidence(h, now, p).streak <==> IsRun(h.Streakable(), k, Seconds(p.windowSec))
    {
      RunLengthIsLongestRun(h.Streakable(), k, WindowOf(p));
    }
  }

  /** Already out: banned, and this outcome does not end the probation. */
  predicate StillOut(e: Option<Entry>, o: Outcome, now: Time) {
    e.Some? && Banned(e.value, now) && !(o.ok && e.value.pendingReprobe)
  }

  /** The first condition in code order that the pair's history meets, if any. */
  function HistoryVerdict(reg: Reg, h: Hist, c: string, a: string, e: Option<Entry>, o: Outcome, now: Time): Option<Hit>
    requires h.from <= |h.log|
  {
    if Allowed(reg, c, a) || StillOut(e, o, now) then None
    else Decide(reg.policy, reg.rules, c, o, LoggedEvidence(h, now, reg.policy))
  }

  lemma VerdictIsHistorys(e: Option<Entry>, h: Hist, reg: Reg, c: string, a: string, o: Outcome, now: Time, end: Time)
    requires InRange(reg.policy) && Reading(now) && end <= now && Faithful(e, h, reg.policy, end)
    ensures Verdict(Observed(EntryOrFresh(e, now), o, now, reg.policy), reg, c, a, o, now) ==
            HistoryVerdict(reg, h.Add(SampleOf(o, now)), c, a, e, o, now)
  {
    if e.None? {
      FreshIsFaithful(now, reg.policy, end);
    }
    var before := EntryOrFresh(e, now);
    var seen := Observed(before, o, now, reg.policy);
    RecordedRepresents(before.counters, h, BucketSec(reg.policy), SampleOf(o, now), WindowOf(reg.policy));
    assert seen.counters == RecordedBy(before.counters, o, now, reg.policy);
    EvidenceIsLogged(seen.counters, h.Add(SampleOf(o, now)), now, reg.policy);
    assert Banned(seen, now) == StillOut(e, o, now);
  }

  /**
   * In every run from a new registry, Record returns a ban exactly if the policy is on, the pair is neither allowed
   * nor already out, and the pair's own history, this outcome included, meets some condition; the reason is that of
   * the first condition that holds, in the order of Conditions.
   */
  lemma RecordRefinesHistory(p: Policy, rows: Rows, ss: seq<Step>, start: Time, s: Step) returns (first: nat)
    requires LegalRun(World(NewReg(p), rows), ss + [s], start)
    requires s.event.Record? && s.event.outcome.addr != ""
    ensures LegalRun(World(NewReg(p), rows), ss, start)
    ensures HistoryOf(World(NewReg(p), rows), ss + [s], Target(s).0, Target(s).1).Valid()
    ensures BanMeansHistory(
              Run(World(NewReg(p), rows), ss).reg,
              HistoryOf(World(NewReg(p), rows), ss + [s], Target(s).0, Target(s).1),
              s.event.outcome, s.now, Apply(Run(World(NewReg(p), rows), ss), s).ban, first)
    ensures CoversWindow(
              LoggedEvidence(HistoryOf(World(NewReg(p), rows), ss + [s], Target(s).0, Target(s).1), s.now,
                             Run(World(NewReg(p), rows), ss).reg.policy),
              HistoryOf(World(NewReg(p), rows), ss + [s], Target(s).0, Target(s).1), s.now,
              Run(World(NewReg(p), rows), ss).reg.policy.windowSec)
  {
    var w := World(NewReg(p), rows);
    assert (ss + [s])[..|ss + [s]| - 1] == ss;
    var reg := Run(w, ss).reg;
    var o := s.event.outcome;
    var (c, a) := Target(s);
    var h := HistoryOf(w, ss, c, a);
    RunIsFaithful(p, rows, ss, start, c, a);
    RunIsFaithful(p, rows, ss + [s], start, c, a);
    LoggedCoversWindow(HistoryOf(w, ss + [s], c, a), s.now, reg.policy);
    first := 0;
    if reg.policy.enabled {
      assert HistoryOf(w, ss + [s], c, a) == h.Add(SampleOf(o, s.now));
      RecordEffect(Run(w, ss), s, c, a);
      first := NewBanMeansHistory(Find(reg, c, a), h, reg, o, s.now, EndTime(ss, start));
    }
  }

  lemma NewBanMeansHistory(e: Option<Entry>, h: Hist, reg: Reg, o: Outcome, now: Time, end: Time) returns (first: nat)
    requires InRange(reg.policy) && reg.policy.enabled && Reading(now) && end <= now
    requires e == Find(reg, TargetChannel(o), o.addr) && Faithful(e, h, reg.policy, end)
    requires h.Add(SampleOf(o, now)).Valid()
    ensures BanMeansHistory(reg, h.Add(SampleOf(o, now)), o, now,
                            NewBan(EntryOrFresh(e, now), reg, TargetChannel(o), o.addr, o, now), first)
  {
    var c := TargetChannel(o);
    var h' := h.Add(SampleOf(o, now));
    VerdictIsHistorys(e, h, reg, c, o.addr, o, now, end);
    first := DecideIsFirstCondition(reg.policy, reg.rules, c, o, LoggedEvidence(h', now, reg.policy));
    BanOfVerdict(EntryOrFresh(e, now), reg, c, o.addr, o, now);
    if HistoryVerdict(reg, h', c, o.addr, e, o, now).Some? {
      assert FirstHolds(Conditions(reg.rules), first, reg.policy, c, o, LoggedEvidence(h', now, reg.policy));
    }
  }

  lemma BanOfVerdict(e: Entry, reg: Reg, c: string, a: string, o: Outcome, now: Time)
    requires now != 0
    ensures NewBan(e, reg, c, a, o, now).Some? <==> Verdict(Observed(e, o, now, reg.policy), reg, c, a, o, now).Some?
    ensures NewBan(e, reg, c, a, o, now).Some? ==>
              && NewBan(e, reg, c, a, o, now).value.channel == c
              && NewBan(e, reg, c, a, o, now).value.addr == a
              && NewBan(e, reg, c, a, o, now).value.bannedAt == now
              && NewBan(e, reg, c, a, o, now).value.reason ==
                 Some(Reason(Verdict(Observed(e, o, now, reg.policy), reg, c, a, o, now).value.cause, o.reported))
  {
  }

  /** What Record may answer for an outcome o, given the pair's history with o in it. */
  ghost predicate BanMeansHistory(reg: Reg, h: Hist, o: Outcome, now: Time, ban: Option<Ban>, first: nat)
    requires h.Valid()
  {
    var c := TargetChannel(o);
    var ev := LoggedEvidence(h, now, reg.policy);
    var cs := Conditions(reg.rules);
    && (ban.Some? <==>
          && reg.policy.enabled
          && !Allowed(reg, c, o.addr)
          && !StillOut(Find(reg, c, o.addr), o, now)
          && exists k :: FirstHolds(cs, k, reg.policy, c, o, ev))
    && (ban.Some? ==>
          && FirstHolds(cs, first, reg.policy, c, o, ev)
          && ban.value.reason == Some(Reason(HitOf(cs[first], o).cause, o.reported))
          && ban.value.channel == c && ban.value.addr == o.addr && ban.value.bannedAt == now)
  }

  lemma {:induction false} SomeConditionIsFirst(cs: seq<Condition>, j: nat, p: Policy, c: string, o: Outcome, ev: Evidence) returns (k: nat)
    requires j < |cs| && Holds(cs[j], p, c, o, ev)
    ensures FirstHolds(cs, k, p, c, o, ev)
  {
    k := j;
    if i: nat :| i < j && Holds(cs[i], p, c, o, ev) {
      k := SomeConditionIsFirst(cs, i, p, c, o, ev);
    }
  }

  /** The pair may be banned: the policy is on, and the pair is neither allowed nor out already. */
  predicate Bannable(reg: Reg, o: Outcome, now: Time) {
    && reg.policy.enabled
    && !Allowed(reg, TargetChannel(o), o.addr)
    && !StillOut(Find(reg, TargetChannel(o), o.addr), o, now)
  }

  predicate BannedFor(ban: Option<Ban>, reason: Reason) {
    ban.Some? && ban.value.reason == Some(reason)
  }

  function SureTimeouts(log: Log, now: Time, windowSec: int): int {
    CountAged(log, now, Seconds(5 * (windowSec / 6)), TimedOut)
  }

  function PossibleTimeouts(log: Log, now: Time, windowSec: int): int {
    CountAged(log, now, Seconds(if windowSec < 6 then 6 else windowSec) - 1, TimedOut)
  }

  /**
   * Time-outs in seconds of the configured window: enough of them within five sixths of it ban the pair, and a ban for
   * time-outs means that many within the whole of it.
   */
  lemma TimeoutsBan(p: Policy, rows: Rows, ss: seq<Step>, start: Time, s: Step, reg: Reg, log: Log)
    requires LegalRun(World(NewReg(p), rows), ss + [s], start)
    requires s.event.Record? && s.event.outcome.addr != ""
    requires LegalRun(World(NewReg(p), rows), ss, start) && reg == Run(World(NewReg(p), rows), ss).reg
    requires log == HistoryOf(World(NewReg(p), rows), ss + [s], Target(s).0, Target(s).1).log
    requires reg.policy.timeoutFails > 0
    ensures Bannable(reg, s.event.outcome, s.now) && SureTimeouts(log, s.now, reg.policy.windowSec) >= reg.policy.timeoutFails ==>
              Apply(Run(World(NewReg(p), rows), ss), s).ban.Some?
    ensures BannedFor(Apply(Run(World(NewReg(p), rows), ss), s).ban, Reason(ByTimeouts, s.event.outcome.reported)) ==>
              PossibleTimeouts(log, s.now, reg.policy.windowSec) >= reg.policy.timeoutFails
  {
    var first := RecordRefinesHistory(p, rows, ss, start, s);
    var h := HistoryOf(World(NewReg(p), rows), ss + [s], Target(s).0, Target(s).1);
    TimeoutsDecide(reg, h, s.event.outcome, s.now, Apply(Run(World(NewReg(p), rows), ss), s).ban, first);
  }

  lemma TimeoutsDecide(reg: Reg, h: Hist, o: Outcome, now: Time, ban: Option<Ban>, first: nat)
    requires h.Valid() && BanMeansHistory(reg, h, o, now, ban, first) && reg.policy.timeoutFails > 0
    requires CoversWindow(LoggedEvidence(h, now, reg.policy), h, now, reg.policy.windowSec)
    ensures Bannable(reg, o, now) && SureTimeouts(h.log, now, reg.policy.windowSec) >= reg.policy.timeoutFails ==> ban.Some?
    ensures BannedFor(ban, Reason(ByTimeouts, o.reported)) ==>
              PossibleTimeouts(h.log, now, reg.policy.windowSec) >= reg.policy.timeoutFails
  {
    var ev := LoggedEvidence(h, now, reg.policy);
    var cs := Conditions(reg.rules);
    if ev.timeout >= reg.policy.timeoutFails {
      assert Holds(cs[2], reg.policy, TargetChannel(o), o, ev);
      var k := SomeConditionIsFirst(cs, 2, reg.policy, TargetChannel(o), o, ev);
    }
  }
}
