/** The ladder as a function of the pair's own bans: the entry keeps a count and one stamp, and they say how far it has climbed. */
module LadderHistory {
  import opened Clock
  import opened Wrappers
  import opened Policies
  import opened BanLadder
  import opened RegistryModel
  import opened RegistryFacts
  import opened Caps

  /** When pair (c, a) was banned, since its entry was made, read off the steps of a run. */
  function BanTimes(w: World, ss: seq<Step>, c: string, a: string): seq<Time>
    requires forall k | 0 <= k < |ss| :: Reading(ss[k].now)
  {
    if |ss| == 0 then []
    else TimesAfter(Run(w, ss[..|ss| - 1]), BanTimes(w, ss[..|ss| - 1], c, a), ss[|ss| - 1], c, a)
  }

  function TimesAfter(w: World, times: seq<Time>, s: Step, c: string, a: string): seq<Time>
    requires Reading(s.now)
  {
    if Find(Apply(w, s).world.reg, c, a).None? then []
    else if Targets(s, c, a) && Apply(w, s).ban.Some? then times + [s.now]
    else times
  }

  /** Ten minutes, or two windows if that is longer. */
  function QuietTime(p: Policy): Duration {
    Seconds(if 2 * p.windowSec > 600 then 2 * p.windowSec else 600)
  }

  /** How many bans lead up to now without a longer pause than the quiet time between one and the next. */
  function Climbed(times: seq<Time>, now: Time, quiet: Duration): nat {
    if |times| == 0 || now - times[|times| - 1] > quiet then 0
    else 1 + Climbed(times[..|times| - 1], times[|times| - 1], quiet)
  }

  /** The entry's count and stamp sum up the bans. */
  predicate SumsUp(e: Option<Entry>, times: seq<Time>, p: Policy) {
    && (forall k | 0 <= k < |times| :: Reading(times[k]))
    && (e.None? ==> times == [])
    && (e.Some? ==>
          if times == [] then e.value.strikes == 0 && e.value.lastBanAt == 0
          else
            && e.value.lastBanAt == times[|times| - 1]
            && e.value.strikes == 1 + Climbed(times[..|times| - 1], times[|times| - 1], QuietTime(p)))
  }

  /** The strikes that still stand are the bans climbed so far. */
  lemma StandingIsClimbed(e: Entry, times: seq<Time>, now: Time, p: Policy)
    requires SumsUp(Some(e), times, p)
    ensures StandingStrikes(e, now, p) == Climbed(times, now, QuietTime(p))
  {
    assert IdleReset(p) == QuietTime(p);
  }

  lemma RuleMeansByRule(p: Policy, rules: seq<Rule>, channel: string, o: Outcome, ev: Evidence)
    ensures Decide(p, rules, channel, o, ev).Some? ==>
              (Decide(p, rules, channel, o, ev).value.rule.Some? <==> Decide(p, rules, channel, o, ev).value.cause.ByRule?)
  {
    if FirstRule(rules, channel, o, ev).Some? {
      FirstRuleCause(rules, channel, o, ev);
    }
  }

  lemma {:induction false} FirstRuleCause(rules: seq<Rule>, channel: string, o: Outcome, ev: Evidence)
    requires FirstRule(rules, channel, o, ev).Some?
    ensures FirstRule(rules, channel, o, ev).value.rule.Some? && FirstRule(rules, channel, o, ev).value.cause.ByRule?
  {
    if !(AppliesTo(rules[0], channel) && Matches(rules[0], o, ev)) {
      FirstRuleCause(rules[1..], channel, o, ev);
    }
  }

  predicate ByCustomRule(b: Ban) {
    b.reason.Some? && b.reason.value.cause.ByRule?
  }

  /** A ban that no custom rule gave is on the rung that the earlier bans have led to. */
  predicate OnRung(b: Ban, k: nat, now: Time, p: Policy) {
    && b.bannedAt == now && b.strikes == k + 1
    && (!ByCustomRule(b) ==> b.until == now + PolicyTTL(p, k))
  }

  lemma SentencedSumsUp(e: Entry, times: seq<Time>, h: Hit, reported: bool, now: Time, p: Policy)
    requires Reading(now) && SumsUp(Some(e), times, p)
    ensures SumsUp(Some(Sentenced(e, h, reported, now, p)), times + [now], p)
    ensures Sentenced(e, h, reported, now, p).strikes == Climbed(times, now, QuietTime(p)) + 1
    ensures h.rule.None? ==>
              Sentenced(e, h, reported, now, p).bannedUntil == now + PolicyTTL(p, Climbed(times, now, QuietTime(p)))
  {
    StandingIsClimbed(e, times, now, p);
    assert (times + [now])[..|times|] == times;
  }

  lemma ObservedSumsUp(e: Entry, times: seq<Time>, o: Outcome, now: Time, p: Policy)
    requires now != 0 && SumsUp(Some(e), times, p)
    ensures SumsUp(Some(Observed(e, o, now, p)), times, p)
  {
    assert Observed(e, o, now, p).strikes == e.strikes && Observed(e, o, now, p).lastBanAt == e.lastBanAt;
  }

  lemma JudgedSumsUp(e: Entry, times: seq<Time>, reg: Reg, c: string, a: string, o: Outcome, now: Time)
    requires Reading(now) && SumsUp(Some(e), times, reg.policy)
    ensures NewBan(e, reg, c, a, o, now).None? ==> SumsUp(Some(Judged(e, reg, c, a, o, now)), times, reg.policy)
    ensures NewBan(e, reg, c, a, o, now).Some? ==>
              && SumsUp(Some(Judged(e, reg, c, a, o, now)), times + [now], reg.policy)
              && OnRung(NewBan(e, reg, c, a, o, now).value, Climbed(times, now, QuietTime(reg.policy)), now, reg.policy)
  {
    var seen := Observed(e, o, now, reg.policy);
    ObservedSumsUp(e, times, o, now, reg.policy);
    var v := Verdict(seen, reg, c, a, o, now);
    if v.Some? {
      RuleMeansByRule(reg.policy, reg.rules, c, o, EvidenceOf(seen.counters, now, reg.policy));
      SentencedSumsUp(seen, times, v.value, o.reported, now, reg.policy);
    }
  }

  lemma FreshSumsUp(now: Time, p: Policy)
    ensures SumsUp(Some(Fresh(now)), [], p)
  {
  }

  lemma RecordSumsUp(w: World, times: seq<Time>, s: Step, c: string, a: string)
    requires WellFormed(w.reg) && LegalStep(w, s) && Targets(s, c, a) && !Ignored(w.reg, s.event.outcome)
    requires SumsUp(Find(w.reg, c, a), times, w.reg.policy)
    ensures SumsUp(Find(Apply(w, s).world.reg, c, a), TimesAfter(w, times, s, c, a), w.reg.policy)
    ensures Apply(w, s).ban.Some? ==>
              OnRung(Apply(w, s).ban.value, Climbed(times, s.now, QuietTime(w.reg.policy)), s.now, w.reg.policy)
  {
    RecordEffect(w, s, c, a);
    FreshSumsUp(s.now, w.reg.policy);
    JudgedSumsUp(EntryBefore(w.reg, s, c, a), times, w.reg, c, a, s.event.outcome, s.now);
  }

  lemma OtherSumsUp(w: World, times: seq<Time>, s: Step, c: string, a: string)
    requires WellFormed(w.reg) && LegalStep(w, s) && !(Targets(s, c, a) && !Ignored(w.reg, s.event.outcome))
    requires !s.event.SetPolicy? && SumsUp(Find(w.reg, c, a), times, w.reg.policy)
    ensures SumsUp(PairAfter(w.reg, s, c, a), if PairAfter(w.reg, s, c, a).None? then [] else times, w.reg.policy)
  {
  }

  lemma StepSumsUp(w: World, times: seq<Time>, s: Step, c: string, a: string)
    requires WellFormed(w.reg) && LegalStep(w, s) && !s.event.SetPolicy?
    requires SumsUp(Find(w.reg, c, a), times, w.reg.policy)
    ensures SumsUp(Find(Apply(w, s).world.reg, c, a), TimesAfter(w, times, s, c, a), w.reg.policy)
  {
    if Targets(s, c, a) && !Ignored(w.reg, s.event.outcome) {
      RecordSumsUp(w, times, s, c, a);
    } else {
      FindAfter(w, s, c, a);
      OtherSumsUp(w, times, s, c, a);
    }
  }

  lemma {:induction false} RunSumsUp(p: Policy, rows: Rows, ss: seq<Step>, start: Time, c: string, a: string)
    requires LegalRun(World(NewReg(p), rows), ss, start) && FixedPolicy(ss)
    ensures WellFormed(Run(World(NewReg(p), rows), ss).reg)
    ensures Run(World(NewReg(p), rows), ss).reg.policy == Normalize(p)
    ensures SumsUp(Find(Run(World(NewReg(p), rows), ss).reg, c, a), BanTimes(World(NewReg(p), rows), ss, c, a), Normalize(p))
  {
    if |ss| == 0 {
      NormalizeRepairs(p);
    } else {
      var w := World(NewReg(p), rows);
      var front, s := ss[..|ss| - 1], ss[|ss| - 1];
      RunSumsUp(p, rows, front, start, c, a);
      StepSumsUp(Run(w, front), BanTimes(w, front, c, a), s, c, a);
      StepKeepsWellFormed(Run(w, front), s);
      StepKeepsPolicy(Run(w, front), s);
    }
  }

  /**
   * In every run from a new registry under one policy: the next ban of a pair counts its earlier bans up to the last
   * pause of more than ten minutes and two windows, and unless a custom rule gives it, it lasts the base length doubled
   * once for each of them, up to the maximum.
   */
  lemma BanLengthRefinesHistory(p: Policy, rows: Rows, ss: seq<Step>, start: Time, s: Step, k: nat)
    requires LegalRun(World(NewReg(p), rows), ss, start) && FixedPolicy(ss)
    requires LegalStep(Run(World(NewReg(p), rows), ss), s) && s.event.Record?
    requires Apply(Run(World(NewReg(p), rows), ss), s).ban.Some?
    requires k == Climbed(BanTimes(World(NewReg(p), rows), ss, Target(s).0, Target(s).1), s.now, QuietTime(Normalize(p)))
    ensures Apply(Run(World(NewReg(p), rows), ss), s).ban.value.strikes == k + 1
    ensures LadderFits(Normalize(p).banTTLSec, Normalize(p).banTTLMaxSec) &&
            !ByCustomRule(Apply(Run(World(NewReg(p), rows), ss), s).ban.value) ==>
              BanLength(Apply(Run(World(NewReg(p), rows), ss), s).ban.value) ==
              Seconds(Min(Normalize(p).banTTLSec * Pow2(k), Normalize(p).banTTLMaxSec))
  {
    var w := World(NewReg(p), rows);
    RunSumsUp(p, rows, ss, start, Target(s).0, Target(s).1);
    BanIsEntrys(Run(w, ss), s);
    RecordSumsUp(Run(w, ss), BanTimes(w, ss, Target(s).0, Target(s).1), s, Target(s).0, Target(s).1);
    LadderKeepsPromiseIffItFits(Normalize(p).banTTLSec, Normalize(p).banTTLMaxSec);
    assert LadderFits(Normalize(p).banTTLSec, Normalize(p).banTTLMaxSec) ==>
        PolicyTTL(Normalize(p), k) == Promised(Normalize(p).banTTLSec, Normalize(p).banTTLMaxSec, k);
  }

  function BanLength(b: Ban): Duration {
    b.until - b.bannedAt
  }
}
