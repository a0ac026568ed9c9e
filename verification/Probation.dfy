/** How long a ban lasts: to the end of its time, or on probation until something works. */
module Probation {
  import opened Clock
  import opened Wrappers
  import opened Policies
  import opened RegistryModel
  import opened RegistryFacts

  /** A step that lets the ban of pair (c, a) be: it neither lifts it nor forgets the pair. */
  predicate LetsBe(w: World, s: Step, c: string, a: string, probation: bool)
    requires Reading(s.now)
  {
    && !(probation && Targets(s, c, a) && s.event.outcome.ok)
    && !(s.event.Allow? && s.event.addr == a && (s.event.channel == "" || s.event.channel == c))
    && !(s.event.Unban? && s.event.channel == c && s.event.addr == a)
    && Find(Apply(w, s).world.reg, c, a).Some?
  }

  ghost predicate AllLetBe(w: World, ss: seq<Step>, c: string, a: string, probation: bool)
    requires forall k | 0 <= k < |ss| :: Reading(ss[k].now)
  {
    |ss| > 0 ==>
      && AllLetBe(w, ss[..|ss| - 1], c, a, probation)
      && LetsBe(Run(w, ss[..|ss| - 1]), ss[|ss| - 1], c, a, probation)
  }

  /** The pair carries a ban to the given instant, on probation or not. */
  predicate Carries(reg: Reg, c: string, a: string, until: Time, probation: bool) {
    && Find(reg, c, a).Some?
    && Find(reg, c, a).value.bannedUntil == until
    && Find(reg, c, a).value.pendingReprobe == probation
  }

  lemma OutcomeLetsBe(e: Entry, reg: Reg, c: string, a: string, o: Outcome, now: Time)
    requires now != 0 && Banned(e, now) && !(o.ok && e.pendingReprobe)
    ensures Judged(e, reg, c, a, o, now).bannedUntil == e.bannedUntil
    ensures Judged(e, reg, c, a, o, now).pendingReprobe == e.pendingReprobe
    ensures NewBan(e, reg, c, a, o, now).None?
  {
  }

  lemma StepLetsBe(w: World, s: Step, c: string, a: string, until: Time, probation: bool)
    requires WellFormed(w.reg) && LegalStep(w, s) && Carries(w.reg, c, a, until, probation) && until != 0
    requires probation || s.now < until
    requires LetsBe(w, s, c, a, probation)
    ensures Carries(Apply(w, s).world.reg, c, a, until, probation)
  {
    FindAfter(w, s, c, a);
    if Targets(s, c, a) && !Ignored(w.reg, s.event.outcome) {
      OutcomeLetsBe(Find(w.reg, c, a).value, w.reg, c, a, s.event.outcome, s.now);
    }
  }

  lemma {:induction false} RunLetsBe(w: World, ss: seq<Step>, start: Time, c: string, a: string, until: Time, probation: bool)
    requires WellFormed(w.reg) && LegalRun(w, ss, start) && Carries(w.reg, c, a, until, probation) && until != 0
    requires AllLetBe(w, ss, c, a, probation) && (probation || forall k | 0 <= k < |ss| :: ss[k].now < until)
    ensures WellFormed(Run(w, ss).reg) && Carries(Run(w, ss).reg, c, a, until, probation)
  {
    if |ss| > 0 {
      var front, s := ss[..|ss| - 1], ss[|ss| - 1];
      RunLetsBe(w, front, start, c, a, until, probation);
      StepLetsBe(Run(w, front), s, c, a, until, probation);
      StepKeepsWellFormed(Run(w, front), s);
    }
  }

  lemma BanIsCarried(w: World, s: Step)
    requires WellFormed(w.reg) && LegalStep(w, s) && Apply(w, s).ban.Some?
    ensures s.event.Record?
    ensures Carries(Apply(w, s).world.reg, Target(s).0, Target(s).1, Apply(w, s).ban.value.until, w.reg.policy.reprobeOnExpiry)
  {
    BanIsEntrys(w, s);
    var (c, a) := Target(s);
    RecordEffect(w, s, c, a);
    assert Verdict(Observed(EntryBefore(w.reg, s, c, a), s.event.outcome, s.now, w.reg.policy), w.reg, c, a, s.event.outcome, s.now).Some?;
  }

  /**
   * From the ban on, through any steps that neither lift it nor forget the pair: the pair is out exactly until the ban
   * ends, or, if the policy at the time of the ban asks for a new probe, for as long as nothing works; no policy set
   * later changes that, short of switching banning off. Without probation a success does not shorten a ban.
   */
  lemma BanLasts(w: World, s: Step, ss: seq<Step>, c: string, a: string, t: Time)
    requires WellFormed(w.reg) && LegalStep(w, s) && Apply(w, s).ban.Some? && Targets(s, c, a) && Apply(w, s).ban.value.until != 0
    requires LegalRun(Apply(w, s).world, ss, s.now)
    requires AllLetBe(Apply(w, s).world, ss, c, a, w.reg.policy.reprobeOnExpiry)
    requires w.reg.policy.reprobeOnExpiry || forall k | 0 <= k < |ss| :: ss[k].now < Apply(w, s).ban.value.until
    ensures IsBanned(Run(Apply(w, s).world, ss).reg, c, a, t) <==>
              && Run(Apply(w, s).world, ss).reg.policy.enabled
              && (w.reg.policy.reprobeOnExpiry || t < Apply(w, s).ban.value.until)
  {
    BanIsCarried(w, s);
    BanIsEntrys(w, s);
    StepKeepsWellFormed(w, s);
    RunLetsBe(Apply(w, s).world, ss, s.now, c, a, Apply(w, s).ban.value.until, w.reg.policy.reprobeOnExpiry);
  }

  /** On probation the first success puts the pair back, unless that very outcome is itself a reason for a ban. */
  lemma SuccessEndsProbation(w: World, s: Step, c: string, a: string, t: Time)
    requires WellFormed(w.reg) && LegalStep(w, s) && Targets(s, c, a) && !Ignored(w.reg, s.event.outcome)
    requires Find(w.reg, c, a).Some? && Find(w.reg, c, a).value.pendingReprobe && s.event.outcome.ok
    ensures IsBanned(Apply(w, s).world.reg, c, a, t) ==> Apply(w, s).ban.Some?
  {
    RecordEffect(w, s, c, a);
  }
}
