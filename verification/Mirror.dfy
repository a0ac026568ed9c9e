/** The table mirrors the running bans: what every step does to a row, and which two steps leave one behind. */
module Mirror {
  import opened Clock
  import opened Wrappers
  import opened Window
  import opened Policies
  import opened RegistryModel
  import opened RegistryFacts

  function RowOf(rows: Rows, c: string, a: string): Option<Ban> {
    if (c, a) in rows then Some(rows[(c, a)]) else None
  }

  predicate Running(e: Option<Entry>, t: Time) {
    e.Some? && Live(e.value, t)
  }

  /** An unexpired row is the ban the entry carries, and a running ban has its row. */
  predicate PairMirrored(e: Option<Entry>, row: Option<Ban>, c: string, a: string, t: Time) {
    && ((row.Some? && row.value.until > t) <==> Running(e, t))
    && (Running(e, t) ==> row.value == BanOf(c, a, e.value))
  }

  ghost predicate Mirrored(w: World, t: Time) {
    forall c, a :: PairMirrored(Find(w.reg, c, a), RowOf(w.rows, c, a), c, a, t)
  }

  ghost predicate NoProbation(reg: Reg) {
    && !reg.policy.reprobeOnExpiry
    && (forall c, a :: Find(reg, c, a).Some? ==> !Find(reg, c, a).value.pendingReprobe)
  }

  // -- What one step does to one row --

  function RowAfter(w: World, s: Step, c: string, a: string): Option<Ban>
    requires Reading(s.now)
  {
    var row := RowOf(w.rows, c, a);
    match s.event
    case Record(o) =>
      if Ignored(w.reg, o) then row
      else if Targets(s, c, a) then
        RowFiled(NewBan(EntryBefore(w.reg, s, c, a), w.reg, c, a, o, s.now), row)
      else if Evicted(w.reg, TargetChannel(o), o.addr, s.dropChannel, s.dropEntry, c, a) then None
      else row
    case SetPolicy(_) => row
    case SetRules(_) => row
    case Allow(ac, aa) => if aa != "" && ac == c && aa == a then None else row
    case Deny(_, _) => row
    case Unban(uc, ua) => if uc == c && ua == a && Clearable(w.reg, c, a) then None else row
    case ResetChannel(rc) => if rc == c && rc in w.reg.chans then None else row
    case DeleteChannel(rc) => if rc == c && rc in w.reg.chans then None else row
    case Sweep => if PairSweepable(w.reg, (c, a), s.now) then None else row
  }

  lemma FetchRow(w: World, tc: string, ta: string, now: Time, dropChannel: string, dropEntry: string, c: string, a: string)
    requires tc in w.reg.chans ==> ta !in w.reg.chans[tc].entries ==> dropEntry != ta
    requires tc !in w.reg.chans ==> dropEntry == "" && dropChannel != tc
    ensures RowOf(Fetch(w, tc, ta, now, dropChannel, dropEntry).rows, c, a) ==
            if Evicted(w.reg, tc, ta, dropChannel, dropEntry, c, a) then None else RowOf(w.rows, c, a)
  {
  }

  lemma DropsAreOthers(w: World, c: string, a: string, now: Time, dropChannel: string, dropEntry: string)
    requires WellFormed(w.reg) && LegalDrops(w, c, a, now, dropChannel, dropEntry)
    requires c != "" && a != ""
    ensures c in w.reg.chans ==> a !in w.reg.chans[c].entries ==> dropEntry != a
    ensures c !in w.reg.chans ==> dropEntry == "" && dropChannel != c
  {
    if c !in w.reg.chans {
      NoDropFromNewChannel(w, c, a, now, dropChannel, dropEntry);
    }
  }

  lemma RecordRow(w: World, s: Step, c: string, a: string)
    requires WellFormed(w.reg) && LegalStep(w, s) && s.event.Record? && !Ignored(w.reg, s.event.outcome)
    ensures RowOf(Apply(w, s).world.rows, c, a) == RowAfter(w, s, c, a)
  {
    var (tc, ta) := Target(s);
    DropsAreOthers(w, tc, ta, s.now, s.dropChannel, s.dropEntry);
    FetchRow(w, tc, ta, s.now, s.dropChannel, s.dropEntry, c, a);
    RecordEffect(w, s, tc, ta);
    RecordRows(w, s);
    RowOfUpdated(Fetch(w, tc, ta, s.now, s.dropChannel, s.dropEntry).rows, (tc, ta), Apply(w, s).ban, c, a);
  }

  lemma RowOfUpdated(rows: Rows, k: (string, string), ban: Option<Ban>, c: string, a: string)
    ensures RowOf(RowsWith(rows, k, ban), c, a) == if ban.Some? && k == (c, a) then ban else RowOf(rows, c, a)
  {
  }

  lemma RowIsAfter(w: World, s: Step, c: string, a: string)
    requires WellFormed(w.reg) && LegalStep(w, s)
    ensures RowOf(Apply(w, s).world.rows, c, a) == RowAfter(w, s, c, a)
  {
    if s.event.Record? {
      if !Ignored(w.reg, s.event.outcome) {
        RecordRow(w, s, c, a);
      }
    }
  }

  // -- The mirror over steps --

  /** Allowing an address everywhere while some channel has it banned: its rows stay behind. */
  ghost predicate AllowsBannedEverywhere(w: World, s: Step) {
    && s.event.Allow? && s.event.channel == "" && s.event.addr != ""
    && exists c :: Running(Find(w.reg, c, s.event.addr), s.now)
  }

  /** A success ends the probation of pair (c, a) before its TTL has run out, and does not ban it again. */
  predicate EndsBanEarly(reg: Reg, s: Step, c: string, a: string)
    requires Reading(s.now)
  {
    && s.event.Record? && !Ignored(reg, s.event.outcome) && Targets(s, c, a)
    && s.event.outcome.ok
    && Running(Find(reg, c, a), s.now) && Find(reg, c, a).value.pendingReprobe
    && NewBan(EntryBefore(reg, s, c, a), reg, c, a, s.event.outcome, s.now).None?
  }

  /** The two steps that lift a running ban and forget its row. */
  ghost predicate LeavesRows(w: World, s: Step)
    requires Reading(s.now)
  {
    AllowsBannedEverywhere(w, s) || (s.event.Record? && EndsBanEarly(w.reg, s, Target(s).0, Target(s).1))
  }

  lemma MirroredLater(e: Option<Entry>, row: Option<Ban>, c: string, a: string, t: Time, later: Time)
    requires PairMirrored(e, row, c, a, t) && t <= later
    requires row.Some? ==> later > 0
    ensures PairMirrored(e, row, c, a, later)
  {
  }

  function RowFiled(ban: Option<Ban>, row: Option<Ban>): Option<Ban> {
    if ban.Some? then ban else row
  }

  /** An outcome keeps a pair mirrored, unless it lifts the running ban for good. */
  lemma JudgedIsMirrored(e: Option<Entry>, row: Option<Ban>, reg: Reg, c: string, a: string, o: Outcome, now: Time)
    requires Reading(now) && PairMirrored(e, row, c, a, now)
    ensures PairMirrored(Some(Judged(EntryOrFresh(e, now), reg, c, a, o, now)),
                         RowFiled(NewBan(EntryOrFresh(e, now), reg, c, a, o, now), row), c, a, now)
            <==>
            !(Running(e, now) && o.ok && e.value.pendingReprobe && NewBan(EntryOrFresh(e, now), reg, c, a, o, now).None?)
  {
  }

  /** Pair (c, a) is the one that the step lifts out of its ban while the row stays. */
  predicate PairLeavesRow(w: World, s: Step, c: string, a: string)
    requires Reading(s.now)
  {
    || (s.event.Allow? && s.event.channel == "" && s.event.addr == a && a != "" && Running(Find(w.reg, c, a), s.now))
    || EndsBanEarly(w.reg, s, c, a)
  }

  lemma PairStaysMirroredIff(w: World, s: Step, t: Time, c: string, a: string)
    requires WellFormed(w.reg) && LegalStep(w, s) && t <= s.now && Mirrored(w, t)
    ensures PairMirrored(PairAfter(w.reg, s, c, a), RowAfter(w, s, c, a), c, a, s.now) <==> !PairLeavesRow(w, s, c, a)
  {
    var e, row := Find(w.reg, c, a), RowOf(w.rows, c, a);
    assert PairMirrored(e, row, c, a, t);
    MirroredLater(e, row, c, a, t, s.now);
    if e.Some? {
      assert c != "";
    }
    if s.event.Record? && !Ignored(w.reg, s.event.outcome) && Targets(s, c, a) {
      JudgedIsMirrored(e, row, w.reg, c, a, s.event.outcome, s.now);
    }
  }

  /**
   * Every step keeps the mirror, except the two that lift a running ban and forget its row: allowing an address
   * everywhere while it is banned somewhere, and a success that ends probation early. Those always break it.
   */
  lemma StepKeepsMirrorIff(w: World, s: Step, t: Time)
    requires WellFormed(w.reg) && LegalStep(w, s) && t <= s.now && Mirrored(w, t)
    ensures Mirrored(Apply(w, s).world, s.now) <==> !LeavesRows(w, s)
  {
    var v := Apply(w, s).world;
    forall c, a ensures PairMirrored(Find(v.reg, c, a), RowOf(v.rows, c, a), c, a, s.now) <==> !PairLeavesRow(w, s, c, a) {
      FindAfter(w, s, c, a);
      RowIsAfter(w, s, c, a);
      PairStaysMirroredIff(w, s, t, c, a);
    }
    assert LeavesRows(w, s) <==> exists c, a :: PairLeavesRow(w, s, c, a) by {
      if AllowsBannedEverywhere(w, s) {
        var c :| Running(Find(w.reg, c, s.event.addr), s.now);
        assert PairLeavesRow(w, s, c, s.event.addr);
      }
      if s.event.Record? && EndsBanEarly(w.reg, s, Target(s).0, Target(s).1) {
        assert PairLeavesRow(w, s, Target(s).0, Target(s).1);
      }
    }
  }

  /** With ReprobeOnExpiry off throughout, only the global allow is left as an exception. */
  lemma WithoutProbation(w: World, s: Step)
    requires Reading(s.now) && NoProbation(w.reg)
    ensures LeavesRows(w, s) <==> AllowsBannedEverywhere(w, s)
  {
  }

  lemma StepKeepsNoProbation(w: World, s: Step)
    requires WellFormed(w.reg) && LegalStep(w, s) && NoProbation(w.reg)
    requires s.event.SetPolicy? ==> !s.event.policy.reprobeOnExpiry
    ensures NoProbation(Apply(w, s).world.reg)
  {
    var v := Apply(w, s).world;
    if !s.event.SetPolicy? {
      StepKeepsPolicy(w, s);
    }
    forall c, a | Find(v.reg, c, a).Some? ensures !Find(v.reg, c, a).value.pendingReprobe {
      FindAfter(w, s, c, a);
    }
  }

  lemma StepKeepsKeyed(w: World, s: Step)
    requires WellFormed(w.reg) && LegalStep(w, s) && Keyed(w.rows)
    ensures Keyed(Apply(w, s).world.rows)
  {
    forall k | k in Apply(w, s).world.rows
      ensures Apply(w, s).world.rows[k].channel == k.0 && Apply(w, s).world.rows[k].addr == k.1
      ensures Apply(w, s).world.rows[k].ttlSec ==
              TruncSeconds(Apply(w, s).world.rows[k].until - Apply(w, s).world.rows[k].bannedAt)
    {
      RowIsAfter(w, s, k.0, k.1);
      KeyedRowAfter(w, s, k.0, k.1);
    }
  }

  lemma KeyedRowAfter(w: World, s: Step, c: string, a: string)
    requires Reading(s.now) && Keyed(w.rows) && RowAfter(w, s, c, a).Some?
    ensures RowAfter(w, s, c, a).value.channel == c && RowAfter(w, s, c, a).value.addr == a
    ensures RowAfter(w, s, c, a).value.ttlSec == TruncSeconds(RowAfter(w, s, c, a).value.until - RowAfter(w, s, c, a).value.bannedAt)
  {
  }

  lemma MirrorHoldsLater(w: World, t: Time, later: Time)
    requires Mirrored(w, t) && t <= later && Reading(later)
    ensures Mirrored(w, later)
  {
    forall c, a ensures PairMirrored(Find(w.reg, c, a), RowOf(w.rows, c, a), c, a, later) {
      assert PairMirrored(Find(w.reg, c, a), RowOf(w.rows, c, a), c, a, t);
      MirroredLater(Find(w.reg, c, a), RowOf(w.rows, c, a), c, a, t, later);
    }
  }
}
