/** The allowlist is absolute: no run ever leaves an allowed pair banned. */
module Allowlist {
  import opened Clock
  import opened Wrappers
  import opened Policies
  import opened RegistryModel
  import opened RegistryFacts

  predicate InRotation(e: Entry) {
    e.bannedUntil == 0 && !e.pendingReprobe
  }

  ghost predicate Protects(reg: Reg) {
    forall c, a :: Allowed(reg, c, a) && Find(reg, c, a).Some? ==> InRotation(Find(reg, c, a).value)
  }

  lemma AllowedAfter(w: World, s: Step, c: string, a: string)
    requires Reading(s.now) && Allowed(Apply(w, s).world.reg, c, a)
    ensures || Allowed(w.reg, c, a)
            || (s.event.Allow? && s.event.addr == a && a != "" && (s.event.channel == "" || s.event.channel == c))
  {
  }

  /** An outcome of an allowed pair in rotation leaves it in rotation, whatever the rules say. */
  lemma JudgedInRotation(e: Entry, reg: Reg, c: string, a: string, o: Outcome, now: Time)
    requires now != 0 && Allowed(reg, c, a) && InRotation(e)
    ensures InRotation(Judged(e, reg, c, a, o, now)) && NewBan(e, reg, c, a, o, now).None?
  {
  }

  lemma StepKeepsPairProtected(w: World, s: Step, c: string, a: string)
    requires InRange(w.reg.policy) && LegalStep(w, s) && Protects(w.reg)
    requires Allowed(Apply(w, s).world.reg, c, a) && Find(Apply(w, s).world.reg, c, a).Some?
    ensures InRotation(Find(Apply(w, s).world.reg, c, a).value)
  {
    FindAfter(w, s, c, a);
    AllowedAfter(w, s, c, a);
    if s.event.Record? && !Ignored(w.reg, s.event.outcome) && Targets(s, c, a) {
      JudgedInRotation(EntryBefore(w.reg, s, c, a), w.reg, c, a, s.event.outcome, s.now);
    }
  }

  lemma StepKeepsProtection(w: World, s: Step)
    requires InRange(w.reg.policy) && LegalStep(w, s) && Protects(w.reg)
    ensures Protects(Apply(w, s).world.reg)
  {
    forall c, a | Allowed(Apply(w, s).world.reg, c, a) && Find(Apply(w, s).world.reg, c, a).Some?
      ensures InRotation(Find(Apply(w, s).world.reg, c, a).value)
    {
      StepKeepsPairProtected(w, s, c, a);
    }
  }

  lemma {:induction false} RunKeepsProtection(w: World, ss: seq<Step>, start: Time)
    requires WellFormed(w.reg) && Protects(w.reg) && LegalRun(w, ss, start)
    ensures WellFormed(Run(w, ss).reg) && Protects(Run(w, ss).reg)
  {
    if |ss| > 0 {
      var front := ss[..|ss| - 1];
      RunKeepsProtection(w, front, start);
      StepKeepsProtection(Run(w, front), ss[|ss| - 1]);
      StepKeepsWellFormed(Run(w, front), ss[|ss| - 1]);
    }
  }

  /**
   * From a new registry on, through any policies, rules, outcomes, allows, releases, sweeps and evictions:
   * a pair that is allowed, on its channel or everywhere, is not banned, now or later, and gets no ban.
   */
  lemma AllowlistIsAbsolute(p: Policy, rows: Rows, ss: seq<Step>, start: Time, c: string, a: string)
    requires LegalRun(World(NewReg(p), rows), ss, start)
    requires Allowed(Run(World(NewReg(p), rows), ss).reg, c, a)
    ensures forall t :: !IsBanned(Run(World(NewReg(p), rows), ss).reg, c, a, t)
    ensures forall s | LegalStep(Run(World(NewReg(p), rows), ss), s) && Targets(s, c, a) ::
              Apply(Run(World(NewReg(p), rows), ss), s).ban.None?
  {
    NormalizeRepairs(p);
    var w := World(NewReg(p), rows);
    RunKeepsProtection(w, ss, start);
    var reg := Run(w, ss).reg;
    forall s | LegalStep(Run(w, ss), s) && Targets(s, c, a)
      ensures Apply(Run(w, ss), s).ban.None?
    {
      if !Ignored(reg, s.event.outcome) {
        RecordEffect(Run(w, ss), s, c, a);
        JudgedInRotation(EntryBefore(reg, s, c, a), reg, c, a, s.event.outcome, s.now);
      }
    }
  }
}
