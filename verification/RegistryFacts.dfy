/** What one step does to one pair: the view of the registry that every later property is proved on. */
module RegistryFacts {
  import opened Clock
  import opened Wrappers
  import opened Window
  import opened Policies
  import opened BanLadder
  import opened RegistryModel

  /** Pair (c, a) is evicted when pair (tc, ta) is fetched. */
  predicate Evicted(reg: Reg, tc: string, ta: string, dropChannel: string, dropEntry: string, c: string, a: string) {
    || (tc !in reg.chans && dropChannel != "" && c == dropChannel)
    || (tc in reg.chans && ta !in reg.chans[tc].entries && dropEntry != "" && c == tc && a == dropEntry)
  }

  function FetchedPair(reg: Reg, tc: string, ta: string, now: Time, dropChannel: string, dropEntry: string, c: string, a: string): Option<Entry> {
    if c == tc && a == ta then Some(EntryOrFresh(Find(reg, c, a), now))
    else if Evicted(reg, tc, ta, dropChannel, dropEntry, c, a) then None
    else Find(reg, c, a)
  }

  function EntryOrFresh(e: Option<Entry>, now: Time): Entry {
    if e.Some? then e.value else Fresh(now)
  }

  lemma FetchPair(w: World, tc: string, ta: string, now: Time, dropChannel: string, dropEntry: string, c: string, a: string)
    requires tc !in w.reg.chans ==> dropEntry == ""
    ensures Find(Fetch(w, tc, ta, now, dropChannel, dropEntry).reg, c, a) ==
            FetchedPair(w.reg, tc, ta, now, dropChannel, dropEntry, c, a)
  {
  }

  /** An eviction from a channel that is still empty does not happen. */
  lemma NoDropFromNewChannel(w: World, c: string, a: string, now: Time, dropChannel: string, dropEntry: string)
    requires InRange(w.reg.policy) && LegalDrops(w, c, a, now, dropChannel, dropEntry) && c !in w.reg.chans
    ensures dropEntry == ""
  {
  }

  function CountersReset(e: Option<Entry>): Option<Entry> {
    if e.Some? then Some(e.value.(counters := EMPTY_RING)) else None
  }

  function ReleasedPair(e: Option<Entry>): Option<Entry> {
    if e.Some? then Some(Released(e.value)) else None
  }

  predicate Targets(s: Step, c: string, a: string) {
    s.event.Record? && c == TargetChannel(s.event.outcome) && a == s.event.outcome.addr
  }

  /** The pair a Record is about. */
  function Target(s: Step): (string, string)
    requires s.event.Record?
  {
    (TargetChannel(s.event.outcome), s.event.outcome.addr)
  }

  /** The entry a Record finds or makes for its own pair. */
  function EntryBefore(reg: Reg, s: Step, c: string, a: string): Entry {
    EntryOrFresh(Find(reg, c, a), s.now)
  }

  /** The entry of pair (c, a) after a step, in terms of its entry before. */
  function PairAfter(reg: Reg, s: Step, c: string, a: string): Option<Entry>
    requires s.now != 0
  {
    match s.event
    case Record(o) =>
      if Ignored(reg, o) then Find(reg, c, a)
      else if Targets(s, c, a) then Some(Judged(EntryBefore(reg, s, c, a), reg, c, a, o, s.now))
      else if Evicted(reg, TargetChannel(o), o.addr, s.dropChannel, s.dropEntry, c, a) then None
      else Find(reg, c, a)
    case SetPolicy(p) => if reg.policy.windowSec == Normalize(p).windowSec then Find(reg, c, a) else CountersReset(Find(reg, c, a))
    case SetRules(_) => Find(reg, c, a)
    case Allow(ac, aa) => if aa != "" && a == aa && (ac == "" || ac == c) then ReleasedPair(Find(reg, c, a)) else Find(reg, c, a)
    case Deny(_, _) => Find(reg, c, a)
    case Unban(uc, ua) => if uc == c && ua == a && Clearable(reg, c, a) then Some(Unbanned(Find(reg, c, a).value)) else Find(reg, c, a)
    case ResetChannel(rc) => if rc == c then None else Find(reg, c, a)
    case DeleteChannel(rc) => if rc == c then None else Find(reg, c, a)
    case Sweep => if PairSweepable(reg, (c, a), s.now) then None else Find(reg, c, a)
  }

  /** Judging reads nothing of the registry but policy, allows and rules, and those survive fetching. */
  lemma JudgedAlike(r: Reg, t: Reg, c: string, e: Entry, o: Outcome, now: Time)
    requires now != 0 && r.policy == t.policy && r.allows == t.allows && r.rules == t.rules
    ensures Judged(e, r, c, o.addr, o, now) == Judged(e, t, c, o.addr, o, now)
    ensures NewBan(e, r, c, o.addr, o, now) == NewBan(e, t, c, o.addr, o, now)
  {
  }

  /** A Record that is not ignored, seen from outside: its ban, its rows, and every pair afterwards. */
  lemma RecordEffect(w: World, s: Step, c: string, a: string)
    requires InRange(w.reg.policy) && LegalStep(w, s) && s.event.Record? && !Ignored(w.reg, s.event.outcome)
    ensures Find(Apply(w, s).world.reg, c, a) == PairAfter(w.reg, s, c, a)
    ensures Targets(s, c, a) ==>
              Apply(w, s).ban == NewBan(EntryBefore(w.reg, s, c, a), w.reg, c, a, s.event.outcome, s.now)
  {
    var o := s.event.outcome;
    var tc := TargetChannel(o);
    if tc !in w.reg.chans {
      NoDropFromNewChannel(w, tc, o.addr, s.now, s.dropChannel, s.dropEntry);
    }
    var f := Fetch(w, tc, o.addr, s.now, s.dropChannel, s.dropEntry);
    FetchPair(w, tc, o.addr, s.now, s.dropChannel, s.dropEntry, c, a);
    FetchPair(w, tc, o.addr, s.now, s.dropChannel, s.dropEntry, tc, o.addr);
    var e := Find(f.reg, tc, o.addr).value;
    JudgedAlike(f.reg, w.reg, tc, e, o, s.now);
    PutPair(f.reg, tc, o.addr, Judged(e, f.reg, tc, o.addr, o, s.now), s.now,
            if Apply(w, s).ban.Some? then s.now else f.reg.chans[tc].lastBanAt, c, a);
  }

  lemma PutPair(reg: Reg, tc: string, ta: string, e: Entry, lastSeenAt: Time, lastBanAt: Time, c: string, a: string)
    requires tc in reg.chans
    ensures Find(Put(reg, tc, ta, e, lastSeenAt, lastBanAt), c, a) == if c == tc && a == ta then Some(e) else Find(reg, c, a)
  {
  }

  lemma PutKeys(reg: Reg, c: string, a: string, e: Entry, lastSeenAt: Time, lastBanAt: Time)
    requires Find(reg, c, a).Some?
    ensures Put(reg, c, a, e, lastSeenAt, lastBanAt).chans.Keys == reg.chans.Keys
    ensures forall k | k in reg.chans :: AddrsOf(Put(reg, c, a, e, lastSeenAt, lastBanAt), k) == AddrsOf(reg, k)
  {
  }

  function AddrsOf(reg: Reg, c: string): set<string> {
    if c in reg.chans then reg.chans[c].entries.Keys else {}
  }

  /** Filing the outcome writes one entry back and changes no key and no setting. */
  lemma RecordShape(w: World, s: Step)
    requires Reading(s.now) && s.event.Record? && !Ignored(w.reg, s.event.outcome)
    ensures Apply(w, s).world.reg.chans.Keys == Fetch(w, Target(s).0, Target(s).1, s.now, s.dropChannel, s.dropEntry).reg.chans.Keys
    ensures forall k | k in Apply(w, s).world.reg.chans ::
              AddrsOf(Apply(w, s).world.reg, k) ==
              AddrsOf(Fetch(w, Target(s).0, Target(s).1, s.now, s.dropChannel, s.dropEntry).reg, k)
    ensures Apply(w, s).world.reg.policy == w.reg.policy
    ensures Apply(w, s).world.reg.allows == w.reg.allows
    ensures Apply(w, s).world.reg.rules == w.reg.rules
  {
    var o := s.event.outcome;
    var tc := TargetChannel(o);
    var f := Fetch(w, tc, o.addr, s.now, s.dropChannel, s.dropEntry);
    PutKeys(f.reg, tc, o.addr, Judged(Find(f.reg, tc, o.addr).value, f.reg, tc, o.addr, o, s.now), s.now,
            if Apply(w, s).ban.Some? then s.now else f.reg.chans[tc].lastBanAt);
  }

  /** The table after filing: the rows that eviction left, and the new ban. */
  lemma RecordRows(w: World, s: Step)
    requires Reading(s.now) && s.event.Record? && !Ignored(w.reg, s.event.outcome)
    ensures Apply(w, s).world.rows ==
            RowsWith(Fetch(w, Target(s).0, Target(s).1, s.now, s.dropChannel, s.dropEntry).rows, Target(s), Apply(w, s).ban)
  {
  }

  function RowsWith(rows: Rows, k: (string, string), ban: Option<Ban>): Rows {
    if ban.Some? then rows[k := ban.value] else rows
  }

  lemma SweepPair(w: World, now: Time, c: string, a: string)
    ensures Find(SweepIn(w, now).reg, c, a) == if PairSweepable(w.reg, (c, a), now) then None else Find(w.reg, c, a)
  {
    if c in w.reg.chans {
      var kept := Kept(w.reg.chans[c], now, w.reg.policy);
      if a in w.reg.chans[c].entries && !Sweepable(w.reg.chans[c].entries[a], now, w.reg.policy) {
        assert a in kept.entries;
        assert |kept.entries| != 0;
      }
    }
  }

  /** One step, one pair. */
  lemma FindAfter(w: World, s: Step, c: string, a: string)
    requires InRange(w.reg.policy) && LegalStep(w, s)
    ensures Find(Apply(w, s).world.reg, c, a) == PairAfter(w.reg, s, c, a)
  {
    match s.event
    case Record(o) =>
      if !Ignored(w.reg, o) {
        RecordEffect(w, s, c, a);
      }
    case SetPolicy(p) =>
    case SetRules(_) =>
    case Allow(_, _) =>
    case Deny(_, _) =>
    case Unban(uc, ua) =>
      if Clearable(w.reg, uc, ua) {
        PutPair(w.reg, uc, ua, Unbanned(Find(w.reg, uc, ua).value), w.reg.chans[uc].lastSeenAt, w.reg.chans[uc].lastBanAt, c, a);
      }
    case ResetChannel(_) =>
    case DeleteChannel(_) =>
    case Sweep => SweepPair(w, s.now, c, a);
  }

  // -- What every step keeps --

  /** The policy in force is usable and the empty name is never a key. */
  predicate WellFormed(reg: Reg) {
    InRange(reg.policy) && "" !in reg.chans && forall c | c in reg.chans :: "" !in reg.chans[c].entries
  }

  lemma FetchKeepsWellFormed(w: World, c: string, a: string, now: Time, dropChannel: string, dropEntry: string)
    requires WellFormed(w.reg) && c != "" && a != "" && LegalDrops(w, c, a, now, dropChannel, dropEntry)
    ensures WellFormed(Fetch(w, c, a, now, dropChannel, dropEntry).reg)
    ensures c in Fetch(w, c, a, now, dropChannel, dropEntry).reg.chans
    ensures Fetch(w, c, a, now, dropChannel, dropEntry).reg.policy == w.reg.policy
  {
    assert WellFormed(FetchChannel(w, c, now, dropChannel).reg);
  }

  lemma RecordKeepsWellFormed(w: World, s: Step)
    requires WellFormed(w.reg) && LegalStep(w, s) && s.event.Record? && !Ignored(w.reg, s.event.outcome)
    ensures WellFormed(Apply(w, s).world.reg)
  {
    var o := s.event.outcome;
    var tc := TargetChannel(o);
    var f := Fetch(w, tc, o.addr, s.now, s.dropChannel, s.dropEntry);
    FetchKeepsWellFormed(w, tc, o.addr, s.now, s.dropChannel, s.dropEntry);
    PutKeepsWellFormed(f.reg, tc, o.addr, Judged(Find(f.reg, tc, o.addr).value, f.reg, tc, o.addr, o, s.now), s.now,
                       if Apply(w, s).ban.Some? then s.now else f.reg.chans[tc].lastBanAt);
  }

  lemma PutKeepsWellFormed(reg: Reg, c: string, a: string, e: Entry, lastSeenAt: Time, lastBanAt: Time)
    requires WellFormed(reg) && c in reg.chans && a != ""
    ensures WellFormed(Put(reg, c, a, e, lastSeenAt, lastBanAt))
  {
  }

  lemma StepKeepsWellFormed(w: World, s: Step)
    requires WellFormed(w.reg) && LegalStep(w, s)
    ensures WellFormed(Apply(w, s).world.reg)
  {
    match s.event
    case Record(o) =>
      if !Ignored(w.reg, o) {
        RecordKeepsWellFormed(w, s);
      }
    case SetPolicy(p) => NormalizeRepairs(p);
    case SetRules(_) =>
    case Allow(_, _) =>
    case Deny(_, _) =>
    case Unban(c, a) =>
      if Clearable(w.reg, c, a) {
        PutKeepsWellFormed(w.reg, c, a, Unbanned(Find(w.reg, c, a).value), w.reg.chans[c].lastSeenAt, w.reg.chans[c].lastBanAt);
      }
    case ResetChannel(_) =>
    case DeleteChannel(_) =>
    case Sweep =>
  }

  /** Nothing but SetPolicy changes the policy. */
  lemma StepKeepsPolicy(w: World, s: Step)
    requires Reading(s.now) && !s.event.SetPolicy?
    ensures Apply(w, s).world.reg.policy == w.reg.policy
  {
  }

  /** A ban is reported for the recorded pair only, and it is the one the entry now carries. */
  lemma BanIsEntrys(w: World, s: Step)
    requires InRange(w.reg.policy) && LegalStep(w, s) && Apply(w, s).ban.Some?
    ensures s.event.Record? && !Ignored(w.reg, s.event.outcome)
    ensures Find(Apply(w, s).world.reg, Target(s).0, Target(s).1).Some?
    ensures Apply(w, s).ban.value ==
            BanOf(Target(s).0, Target(s).1, Find(Apply(w, s).world.reg, Target(s).0, Target(s).1).value)
  {
    var o := s.event.outcome;
    RecordEffect(w, s, TargetChannel(o), o.addr);
  }

  // -- Custom rules --

  lemma {:induction false} RuleHitIsOwnRule(rules: seq<Rule>, channel: string, o: Outcome, ev: Evidence)
    requires FirstRule(rules, channel, o, ev).Some?
    ensures FirstRule(rules, channel, o, ev).value.rule.Some?
    ensures FirstRule(rules, channel, o, ev).value.rule.value in rules
    ensures Matches(FirstRule(rules, channel, o, ev).value.rule.value, o, ev)
  {
    if !(AppliesTo(rules[0], channel) && Matches(rules[0], o, ev)) {
      RuleHitIsOwnRule(rules[1..], channel, o, ev);
    }
  }

  /**
   * A ban that a custom rule gives ends exactly as many seconds after it starts as the rule says, above the maximum of
   * the ladder included; a rule that says nothing gives the base length, whatever the strikes.
   */
  lemma RuleBansLastAsWritten(e: Entry, reg: Reg, c: string, a: string, o: Outcome, now: Time, h: Hit)
    requires now != 0 && InRange(reg.policy)
    requires Verdict(Observed(e, o, now, reg.policy), reg, c, a, o, now) == Some(h) && h.rule.Some?
    ensures h.rule.value in reg.rules && NewBan(e, reg, c, a, o, now).Some?
    ensures h.rule.value.ttlSec > 0 && FitsInt64(Seconds(h.rule.value.ttlSec)) ==>
              LastsSeconds(NewBan(e, reg, c, a, o, now).value, h.rule.value.ttlSec)
    ensures h.rule.value.ttlSec <= 0 && FitsInt64(Seconds(reg.policy.banTTLSec)) ==>
              LastsSeconds(NewBan(e, reg, c, a, o, now).value, reg.policy.banTTLSec)
  {
    var seen := Observed(e, o, now, reg.policy);
    RuleHitIsOwnRule(reg.rules, c, o, EvidenceOf(seen.counters, now, reg.policy));
    if FitsInt64(Seconds(h.rule.value.ttlSec)) {
      WrapOfFitting(Seconds(h.rule.value.ttlSec));
    }
    if FitsInt64(Seconds(reg.policy.banTTLSec)) {
      WrapOfFitting(Seconds(reg.policy.banTTLSec));
    }
  }

  predicate LastsSeconds(b: Ban, seconds: int) {
    b.until == b.bannedAt + Seconds(seconds) && b.ttlSec == seconds
  }
}
