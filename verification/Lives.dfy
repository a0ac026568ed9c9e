/** Any number of restarts: the table mirrors the running bans over whole lives of the service. */
module Lives {
  import opened Clock
  import opened Wrappers
  import opened Policies
  import opened RegistryModel
  import opened RegistryFacts
  import opened Allowlist
  import opened Mirror
  import opened Restart

  /** An operation on the running registry, or a restart of the process. */
  datatype Move = Operate(step: Step) | Reboot(boot: Boot)

  function Before(m: Move): Time {
    match m
    case Operate(s) => s.now
    case Reboot(b) => b.loadedAt
  }

  function Past(m: Move): Time {
    match m
    case Operate(s) => s.now
    case Reboot(b) => b.restoredAt
  }

  ghost predicate LegalMove(w: World, m: Move) {
    match m
    case Operate(s) => LegalStep(w, s)
    case Reboot(b) => LegalBoot(w, b)
  }

  /** What Moved asks of a move. */
  predicate Possible(m: Move) {
    match m
    case Operate(s) => Reading(s.now)
    case Reboot(b) => |b.drops| == |b.bans|
  }

  function Moved(w: World, m: Move): World
    requires Possible(m)
  {
    match m
    case Operate(s) => Apply(w, s).world
    case Reboot(b) => BootIn(w, b)
  }

  function Life(w: World, ms: seq<Move>): World
    requires forall k | 0 <= k < |ms| :: Possible(ms[k])
  {
    if |ms| == 0 then w else Moved(Life(w, ms[..|ms| - 1]), ms[|ms| - 1])
  }

  function LifeTime(ms: seq<Move>, start: Time): Time {
    if |ms| == 0 then start else Past(ms[|ms| - 1])
  }

  /** Legal operations and restarts, at non-decreasing clock readings. */
  ghost predicate LegalLife(w: World, ms: seq<Move>, start: Time)
    ensures LegalLife(w, ms, start) ==> forall k | 0 <= k < |ms| :: Possible(ms[k])
  {
    if |ms| == 0 then true
    else
      && LegalLife(w, ms[..|ms| - 1], start)
      && LegalMove(Life(w, ms[..|ms| - 1]), ms[|ms| - 1])
      && LifeTime(ms[..|ms| - 1], start) <= Before(ms[|ms| - 1])
  }

  /** No operation lifts a running ban and forgets its row, and at a restart the running bans fit. */
  ghost predicate Orderly(w: World, m: Move)
    requires Possible(m)
  {
    match m
    case Operate(s) => !LeavesRows(w, s)
    case Reboot(b) => Fit(w.reg, b.restoredAt, b.policy)
  }

  ghost predicate OrderlyLife(w: World, ms: seq<Move>)
    requires forall k | 0 <= k < |ms| :: Possible(ms[k])
  {
    |ms| > 0 ==> OrderlyLife(w, ms[..|ms| - 1]) && Orderly(Life(w, ms[..|ms| - 1]), ms[|ms| - 1])
  }

  /** The registry and its table agree about every running ban. */
  ghost predicate InStep(w: World, t: Time) {
    WellFormed(w.reg) && Keyed(w.rows) && Mirrored(w, t)
  }

  lemma MoveKeepsInStep(w: World, m: Move, t: Time)
    requires InStep(w, t) && LegalMove(w, m) && Possible(m) && t <= Before(m) && Orderly(w, m)
    ensures InStep(Moved(w, m), Past(m))
  {
    match m
    case Operate(s) =>
      StepKeepsMirrorIff(w, s, t);
      StepKeepsKeyed(w, s);
      StepKeepsWellFormed(w, s);
    case Reboot(b) =>
      MirrorHoldsLater(w, t, b.loadedAt);
      BootKeepsMirror(w, b);
  }

  /** In every state such a life reaches, through any number of restarts, the unexpired rows are the running bans. */
  lemma {:induction false} TableMirrorsBans(w: World, ms: seq<Move>, start: Time)
    requires InStep(w, start) && LegalLife(w, ms, start) && OrderlyLife(w, ms)
    ensures InStep(Life(w, ms), LifeTime(ms, start))
  {
    if |ms| > 0 {
      var front := ms[..|ms| - 1];
      TableMirrorsBans(w, front, start);
      MoveKeepsInStep(Life(w, front), ms[|ms| - 1], LifeTime(front, start));
    }
  }

  lemma NewRegistryIsInStep(p: Policy, start: Time)
    ensures InStep(World(NewReg(p), map[]), start) && Protects(NewReg(p))
    ensures !p.reprobeOnExpiry ==> NoProbation(NewReg(p))
  {
    NormalizeRepairs(p);
  }

  // -- The promise as it is made: no probation, no global allow --

  /** ReprobeOnExpiry stays off, nobody is allowed everywhere, and at a restart the running bans fit. */
  ghost predicate Quiet(w: World, m: Move) {
    match m
    case Operate(s) =>
      && (s.event.SetPolicy? ==> !s.event.policy.reprobeOnExpiry)
      && (s.event.Allow? ==> s.event.channel != "")
    case Reboot(b) => !b.policy.reprobeOnExpiry && Fit(w.reg, b.restoredAt, b.policy)
  }

  ghost predicate QuietLife(w: World, ms: seq<Move>)
    requires forall k | 0 <= k < |ms| :: Possible(ms[k])
  {
    |ms| > 0 ==> QuietLife(w, ms[..|ms| - 1]) && Quiet(Life(w, ms[..|ms| - 1]), ms[|ms| - 1])
  }

  lemma QuietMove(w: World, m: Move, t: Time)
    requires InStep(w, t) && NoProbation(w.reg) && LegalMove(w, m) && Possible(m) && t <= Before(m) && Quiet(w, m)
    ensures Orderly(w, m) && NoProbation(Moved(w, m).reg)
  {
    match m
    case Operate(s) =>
      WithoutProbation(w, s);
      StepKeepsNoProbation(w, s);
    case Reboot(b) =>
      MirrorHoldsLater(w, t, b.loadedAt);
      BootKeepsNoProbation(w, b);
  }

  lemma {:induction false} QuietLifeIsOrderly(w: World, ms: seq<Move>, start: Time)
    requires InStep(w, start) && NoProbation(w.reg) && LegalLife(w, ms, start) && QuietLife(w, ms)
    ensures OrderlyLife(w, ms) && NoProbation(Life(w, ms).reg)
  {
    if |ms| > 0 {
      var front := ms[..|ms| - 1];
      QuietLifeIsOrderly(w, front, start);
      TableMirrorsBans(w, front, start);
      QuietMove(Life(w, front), ms[|ms| - 1], LifeTime(front, start));
    }
  }

  /**
   * The whole trip: from a new registry and an empty table through any operations, policies and restarts, and then one
   * more restart b, after which policy p is configured. Banned answers the same for every pair at every later instant.
   */
  lemma RestartIsInvisible(q: Policy, ms: seq<Move>, start: Time, b: Boot, p: Policy, c: string, a: string, later: Time)
    requires !q.reprobeOnExpiry && LegalLife(World(NewReg(q), map[]), ms, start) && QuietLife(World(NewReg(q), map[]), ms)
    requires LegalBoot(Life(World(NewReg(q), map[]), ms), b) && LifeTime(ms, start) <= b.loadedAt && b.restoredAt <= later
    requires Fit(Life(World(NewReg(q), map[]), ms).reg, b.restoredAt, b.policy)
    requires Normalize(p).enabled == Life(World(NewReg(q), map[]), ms).reg.policy.enabled
    ensures IsBanned(Configured(Life(World(NewReg(q), map[]), ms), b, p), c, a, later) ==
            IsBanned(Life(World(NewReg(q), map[]), ms).reg, c, a, later)
    ensures IsBanned(Life(World(NewReg(q), map[]), ms).reg, c, a, later) ==>
              SameBan(Find(Configured(Life(World(NewReg(q), map[]), ms), b, p), c, a).value,
                      Find(Life(World(NewReg(q), map[]), ms).reg, c, a).value)
  {
    var w := World(NewReg(q), map[]);
    NewRegistryIsInStep(q, start);
    QuietLifeIsOrderly(w, ms, start);
    TableMirrorsBans(w, ms, start);
    MirrorHoldsLater(Life(w, ms), LifeTime(ms, start), b.loadedAt);
    RestartIsInvisibleIff(Life(w, ms), b, p, c, a, later);
    RestartKeepsRunningBans(Life(w, ms), b, p, c, a, later);
  }

  // -- The allowlist over restarts --

  /** The restored registry protects the allowlist exactly if no row that is still running is of an allowed pair. */
  lemma BootProtectsIff(w: World, b: Boot)
    requires InStep(w, b.loadedAt) && LegalBoot(w, b) && Fit(w.reg, b.restoredAt, b.policy)
    ensures Protects(BootIn(w, b).reg) <==>
            forall k | k in w.rows && w.rows[k].until > b.restoredAt :: !Allowed(BootIn(w, b).reg, k.0, k.1)
  {
    var reg := BootIn(w, b).reg;
    forall c, a
      ensures Find(reg, c, a).Some? <==> (c, a) in w.rows && w.rows[(c, a)].until > b.restoredAt
      ensures Find(reg, c, a).Some? ==> !InRotation(Find(reg, c, a).value)
    {
      BootPair(w, b, c, a);
      assert PairMirrored(Find(w.reg, c, a), RowOf(w.rows, c, a), c, a, b.loadedAt);
    }
    if !Protects(reg) {
      var c, a :| Allowed(reg, c, a) && Find(reg, c, a).Some?;
      assert (c, a) in w.rows;
    }
    if k :| k in w.rows && w.rows[k].until > b.restoredAt && Allowed(reg, k.0, k.1) {
      assert Find(reg, k.0, k.1).Some?;
    }
  }

  /** A running ban is restored and in force whether or not its pair is allowed. */
  lemma RestoredBanIsInForceEvenIfAllowed(w: World, b: Boot, c: string, a: string)
    requires InStep(w, b.loadedAt) && LegalBoot(w, b) && Fit(w.reg, b.restoredAt, b.policy) && b.policy.enabled
    requires Running(Find(w.reg, c, a), b.restoredAt)
    ensures IsBanned(BootIn(w, b).reg, c, a, b.restoredAt)
    ensures Allowed(BootIn(w, b).reg, c, a) <==> ("" in b.allows && a in b.allows[""]) || (c in b.allows && a in b.allows[c])
  {
    BootPair(w, b, c, a);
  }

  /** The table after an address was allowed everywhere still mirrors the registry as it was before. */
  lemma GlobalAllowKeepsRows(w: World, s: Step, t: Time)
    requires InStep(w, t) && LegalStep(w, s) && t <= s.now && s.event.Allow? && s.event.channel == ""
    ensures InStep(World(w.reg, Apply(w, s).world.rows), s.now)
  {
    StepKeepsKeyed(w, s);
    MirrorHoldsLater(w, t, s.now);
    forall c, a ensures PairMirrored(Find(w.reg, c, a), RowOf(Apply(w, s).world.rows, c, a), c, a, s.now) {
      assert PairMirrored(Find(w.reg, c, a), RowOf(w.rows, c, a), c, a, s.now);
    }
  }

  /**
   * An address that is banned on a channel is allowed everywhere: the ban is lifted, but its row stays, so the next
   * restart bans the allowed address again.
   */
  lemma GlobalAllowDoesNotSurviveRestart(w: World, s: Step, t: Time, b: Boot, c: string)
    requires InStep(w, t) && LegalStep(w, s) && t <= s.now <= b.loadedAt
    requires s.event.Allow? && s.event.channel == "" && s.event.addr != ""
    requires Running(Find(w.reg, c, s.event.addr), b.restoredAt) && b.policy.enabled
    requires LegalBoot(Apply(w, s).world, b) && b.allows == Apply(w, s).world.reg.allows
    requires Fit(w.reg, b.restoredAt, b.policy)
    ensures forall later :: !IsBanned(Apply(w, s).world.reg, c, s.event.addr, later)
    ensures IsBanned(BootIn(Apply(w, s).world, b).reg, c, s.event.addr, b.restoredAt)
    ensures Allowed(BootIn(Apply(w, s).world, b).reg, c, s.event.addr)
  {
    FindAfter(w, s, c, s.event.addr);
    var v := World(w.reg, Apply(w, s).world.rows);
    GlobalAllowKeepsRows(w, s, t);
    MirrorHoldsLater(v, s.now, b.loadedAt);
    assert BootIn(Apply(w, s).world, b) == BootIn(v, b);
    RestoredBanIsInForceEvenIfAllowed(v, b, c, s.event.addr);
  }
}
