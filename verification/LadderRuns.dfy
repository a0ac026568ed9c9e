/** Successive bans of one pair over whole runs: they never overlap, and their length stays far below the cap. */
module LadderRuns {
  import opened Clock
  import opened Wrappers
  import opened Policies
  import opened BanLadder
  import opened RegistryModel
  import opened RegistryFacts

  /** The longest ban such a run can give: the base TTL, or twice the time after which the ladder starts over. */
  function Bound(p: Policy): Duration {
    if Seconds(p.banTTLSec) > 2 * IdleReset(p) then Seconds(p.banTTLSec) else 2 * IdleReset(p)
  }

  predicate Ladder(p: Policy) {
    InRange(p) && !p.reprobeOnExpiry && LadderFits(p.banTTLSec, p.banTTLMaxSec)
  }

  /** One policy, no custom rules, and pair (c, a) does not come back before its ban is over. */
  predicate Undisturbed(w: World, s: Step, c: string, a: string)
    requires Reading(s.now)
  {
    && !s.event.SetPolicy? && !s.event.SetRules?
    && (Find(w.reg, c, a).Some? && Live(Find(w.reg, c, a).value, s.now) ==>
          Find(Apply(w, s).world.reg, c, a).Some? && Live(Find(Apply(w, s).world.reg, c, a).value, s.now))
  }

  predicate UndisturbedRun(w: World, ss: seq<Step>, c: string, a: string)
    requires forall k | 0 <= k < |ss| :: Reading(ss[k].now)
  {
    |ss| > 0 ==> UndisturbedRun(w, ss[..|ss| - 1], c, a) && Undisturbed(Run(w, ss[..|ss| - 1]), ss[|ss| - 1], c, a)
  }

  /** The bans that pair (c, a) was given, oldest first. */
  function BansOf(w: World, ss: seq<Step>, c: string, a: string): seq<Ban>
    requires forall k | 0 <= k < |ss| :: Reading(ss[k].now)
  {
    if |ss| == 0 then []
    else BansOf(w, ss[..|ss| - 1], c, a) + BansAt(Run(w, ss[..|ss| - 1]), ss[|ss| - 1], c, a)
  }

  function BansAt(w: World, s: Step, c: string, a: string): seq<Ban>
    requires Reading(s.now)
  {
    var ban := Apply(w, s).ban;
    if ban.Some? && ban.value.channel == c && ban.value.addr == a then [ban.value] else []
  }

  // -- One entry --

  /** The last ban of an entry ends with its bannedUntil, or is over by time t; and it was within the bound. */
  predicate OnLadder(e: Entry, t: Time, p: Policy) {
    && !e.pendingReprobe
    && (e.strikes > 0 ==>
          && e.lastBanAt != 0
          && (e.lastBanAt + PolicyTTL(p, e.strikes - 1) == e.bannedUntil || e.lastBanAt + PolicyTTL(p, e.strikes - 1) <= t)
          && PolicyTTL(p, e.strikes - 1) <= Bound(p))
  }

  lemma ObservedOnLadder(e: Entry, o: Outcome, now: Time, p: Policy)
    requires now != 0 && OnLadder(e, now, p)
    ensures OnLadder(Observed(e, o, now, p), now, p)
    ensures Observed(e, o, now, p).bannedUntil == e.bannedUntil
  {
  }

  /** A new ban doubles the last one only if that one was at most as long as the reset time. */
  lemma SentencedOnLadder(e: Entry, h: Hit, reported: bool, now: Time, p: Policy)
    requires Ladder(p) && Reading(now) && h.rule == None
    requires OnLadder(e, now, p) && !Live(e, now)
    ensures OnLadder(Sentenced(e, h, reported, now, p), now, p)
    ensures Sentenced(e, h, reported, now, p).bannedUntil - now ==
            PolicyTTL(p, Sentenced(e, h, reported, now, p).strikes - 1)
  {
    var k := StandingStrikes(e, now, p);
    LadderClimbs(p.banTTLSec, p.banTTLMaxSec, 0);
    if k > 0 {
      LadderClimbs(p.banTTLSec, p.banTTLMaxSec, k - 1);
      assert PolicyTTL(p, k - 1) <= now - e.lastBanAt;
      assert e.lastBanAt != 0 ==> now - e.lastBanAt <= IdleReset(p);
    }
    assert PolicyTTL(p, k) <= Bound(p);
  }

  lemma NoRuleNoRuleTTL(p: Policy, channel: string, o: Outcome, ev: Evidence)
    ensures Decide(p, [], channel, o, ev).Some? ==> Decide(p, [], channel, o, ev).value.rule == None
  {
  }

  lemma JudgedOnLadder(e: Entry, reg: Reg, c: string, a: string, o: Outcome, now: Time)
    requires Ladder(reg.policy) && reg.rules == [] && Reading(now)
    requires OnLadder(e, now, reg.policy)
    ensures OnLadder(Judged(e, reg, c, a, o, now), now, reg.policy)
    ensures NewBan(e, reg, c, a, o, now).None? ==> Judged(e, reg, c, a, o, now).bannedUntil == e.bannedUntil
    ensures NewBan(e, reg, c, a, o, now).Some? ==>
              && !Live(e, now)
              && NewBan(e, reg, c, a, o, now).value == BanOf(c, a, Judged(e, reg, c, a, o, now))
              && Judged(e, reg, c, a, o, now).lastBanAt == now
              && Judged(e, reg, c, a, o, now).strikes > 0
              && Judged(e, reg, c, a, o, now).bannedUntil == now + PolicyTTL(reg.policy, Judged(e, reg, c, a, o, now).strikes - 1)
  {
    var p := reg.policy;
    ObservedOnLadder(e, o, now, p);
    var seen := Observed(e, o, now, p);
    var v := Verdict(seen, reg, c, a, o, now);
    if v.Some? {
      NoRuleNoRuleTTL(p, c, o, EvidenceOf(seen.counters, now, p));
      SentencedOnLadder(seen, v.value, o.reported, now, p);
    }
  }

  // -- One pair --

  ghost predicate PairOnLadder(e: Option<Entry>, t: Time, p: Policy) {
    e.Some? ==> OnLadder(e.value, t, p)
  }

  /** The last ban a pair was given is over, or it is the one the entry carries. */
  predicate Follows(bans: seq<Ban>, e: Option<Entry>, t: Time) {
    |bans| > 0 ==>
      || bans[|bans| - 1].until <= t
      || (e.Some? && e.value.bannedUntil == bans[|bans| - 1].until)
  }

  predicate BanWithin(b: Ban, p: Policy) {
    0 < b.until - b.bannedAt <= Bound(p)
  }

  /** Every ban is over when the next one starts, and none is longer than the bound. */
  ghost predicate Apart(bans: seq<Ban>, p: Policy) {
    && (forall i | 0 <= i < |bans| :: BanWithin(bans[i], p))
    && (forall i, j | 0 <= i < j < |bans| :: bans[i].until <= bans[j].bannedAt)
    && (forall i | 0 <= i < |bans| :: exists k: nat :: bans[i].until - bans[i].bannedAt == PolicyTTL(p, k))
  }

  lemma LaterOnLadder(e: Entry, t: Time, later: Time, p: Policy)
    requires OnLadder(e, t, p) && t <= later
    ensures OnLadder(e, later, p)
  {
  }

  ghost predicate LadderWorld(w: World, t: Time, c: string, a: string) {
    && WellFormed(w.reg) && Ladder(w.reg.policy) && w.reg.rules == []
    && PairOnLadder(Find(w.reg, c, a), t, w.reg.policy)
  }

  lemma PairStaysOnLadder(w: World, s: Step, t: Time, c: string, a: string)
    requires LadderWorld(w, t, c, a) && LegalStep(w, s) && t <= s.now && Undisturbed(w, s, c, a)
    ensures PairOnLadder(PairAfter(w.reg, s, c, a), s.now, w.reg.policy)
  {
    FindAfter(w, s, c, a);
    var e := Find(w.reg, c, a);
    assert PairOnLadder(e, t, w.reg.policy);
    if e.Some? {
      LaterOnLadder(e.value, t, s.now, w.reg.policy);
    }
    if s.event.Record? && !Ignored(w.reg, s.event.outcome) && Targets(s, c, a) {
      JudgedOnLadder(EntryBefore(w.reg, s, c, a), w.reg, c, a, s.event.outcome, s.now);
    }
  }

  lemma RulesStayEmpty(w: World, s: Step)
    requires Reading(s.now) && !s.event.SetRules?
    ensures Apply(w, s).world.reg.rules == w.reg.rules
  {
    if s.event.Record? && !Ignored(w.reg, s.event.outcome) {
      RecordShape(w, s);
    }
  }

  lemma StepKeepsLadderWorld(w: World, s: Step, t: Time, c: string, a: string)
    requires LadderWorld(w, t, c, a) && LegalStep(w, s) && t <= s.now && Undisturbed(w, s, c, a)
    ensures LadderWorld(Apply(w, s).world, s.now, c, a)
  {
    StepKeepsWellFormed(w, s);
    StepKeepsPolicy(w, s);
    RulesStayEmpty(w, s);
    FindAfter(w, s, c, a);
    PairStaysOnLadder(w, s, t, c, a);
  }

  /** Without a new ban for the pair, its last ban stays in force until it is over. */
  lemma QuietStepFollows(w: World, s: Step, t: Time, c: string, a: string, bans: seq<Ban>)
    requires LadderWorld(w, t, c, a) && LegalStep(w, s) && t <= s.now && Undisturbed(w, s, c, a)
    requires Follows(bans, Find(w.reg, c, a), t) && BansAt(w, s, c, a) == []
    ensures Follows(bans, Find(Apply(w, s).world.reg, c, a), s.now)
  {
    FindAfter(w, s, c, a);
    if |bans| > 0 && bans[|bans| - 1].until > s.now {
      var e := Find(w.reg, c, a).value;
      assert PairOnLadder(Find(w.reg, c, a), t, w.reg.policy);
      assert Live(e, s.now);
      if s.event.Record? && !Ignored(w.reg, s.event.outcome) && Targets(s, c, a) {
        RecordEffect(w, s, c, a);
        LaterOnLadder(e, t, s.now, w.reg.policy);
        JudgedOnLadder(e, w.reg, c, a, s.event.outcome, s.now);
      }
    }
  }

  /** A new ban comes after the last one is over. */
  lemma BanStepFollows(w: World, s: Step, t: Time, c: string, a: string, bans: seq<Ban>)
    requires LadderWorld(w, t, c, a) && LegalStep(w, s) && t <= s.now
    requires Follows(bans, Find(w.reg, c, a), t) && BansAt(w, s, c, a) != []
    ensures |BansAt(w, s, c, a)| == 1
    ensures BansAt(w, s, c, a)[0].bannedAt == s.now
    ensures BanWithin(BansAt(w, s, c, a)[0], w.reg.policy)
    ensures exists k: nat :: BansAt(w, s, c, a)[0].until - BansAt(w, s, c, a)[0].bannedAt == PolicyTTL(w.reg.policy, k)
    ensures |bans| > 0 ==> bans[|bans| - 1].until <= s.now
    ensures Follows(bans + BansAt(w, s, c, a), Find(Apply(w, s).world.reg, c, a), s.now)
  {
    BanIsEntrys(w, s);
    var o := s.event.outcome;
    assert Targets(s, c, a);
    RecordEffect(w, s, c, a);
    var e := EntryBefore(w.reg, s, c, a);
    assert PairOnLadder(Find(w.reg, c, a), t, w.reg.policy);
    LaterOnLadder(e, t, s.now, w.reg.policy);
    JudgedOnLadder(e, w.reg, c, a, o, s.now);
    var k := Judged(e, w.reg, c, a, o, s.now).strikes - 1;
    LadderClimbs(w.reg.policy.banTTLSec, w.reg.policy.banTTLMaxSec, k);
    assert BansAt(w, s, c, a)[0].until - BansAt(w, s, c, a)[0].bannedAt == PolicyTTL(w.reg.policy, k);
  }

  lemma ApartAppend(bans: seq<Ban>, b: Ban, p: Policy)
    requires Apart(bans, p) && BanWithin(b, p)
    requires exists k: nat :: b.until - b.bannedAt == PolicyTTL(p, k)
    requires |bans| > 0 ==> bans[|bans| - 1].until <= b.bannedAt
    ensures Apart(bans + [b], p)
  {
    var all := bans + [b];
    forall i, j | 0 <= i < j < |all| ensures all[i].until <= all[j].bannedAt {
      if j == |bans| && i < |bans| - 1 {
        assert bans[i].until <= bans[|bans| - 1].bannedAt;
        assert BanWithin(bans[|bans| - 1], p);
      }
    }
  }

  /** One step extends the history of the pair's bans. */
  lemma StepOnLadder(w: World, s: Step, t: Time, c: string, a: string, bans: seq<Ban>)
    requires LadderWorld(w, t, c, a) && LegalStep(w, s) && t <= s.now && Undisturbed(w, s, c, a)
    requires Follows(bans, Find(w.reg, c, a), t) && Apart(bans, w.reg.policy)
    ensures LadderWorld(Apply(w, s).world, s.now, c, a) && Apply(w, s).world.reg.policy == w.reg.policy
    ensures Follows(bans + BansAt(w, s, c, a), Find(Apply(w, s).world.reg, c, a), s.now)
    ensures Apart(bans + BansAt(w, s, c, a), w.reg.policy)
  {
    StepKeepsLadderWorld(w, s, t, c, a);
    StepKeepsPolicy(w, s);
    if BansAt(w, s, c, a) == [] {
      QuietStepFollows(w, s, t, c, a, bans);
      assert bans + [] == bans;
    } else {
      BanStepFollows(w, s, t, c, a, bans);
      ApartAppend(bans, BansAt(w, s, c, a)[0], w.reg.policy);
      assert BansAt(w, s, c, a) == [BansAt(w, s, c, a)[0]];
    }
  }

  lemma {:induction false} RunOnLadder(w: World, ss: seq<Step>, start: Time, c: string, a: string)
    requires LadderWorld(w, start, c, a) && LegalRun(w, ss, start) && UndisturbedRun(w, ss, c, a)
    ensures LadderWorld(Run(w, ss), EndTime(ss, start), c, a) && Run(w, ss).reg.policy == w.reg.policy
    ensures Follows(BansOf(w, ss, c, a), Find(Run(w, ss).reg, c, a), EndTime(ss, start))
    ensures Apart(BansOf(w, ss, c, a), w.reg.policy)
  {
    if |ss| > 0 {
      var front := ss[..|ss| - 1];
      RunOnLadder(w, front, start, c, a);
      StepOnLadder(Run(w, front), ss[|ss| - 1], EndTime(front, start), c, a, BansOf(w, front, c, a));
    }
  }

  /** From a new registry: the bans of a pair lie apart, and none is longer than the bound. */
  lemma SuccessiveBansLieApart(p: Policy, rows: Rows, ss: seq<Step>, start: Time, c: string, a: string)
    requires Ladder(Normalize(p))
    requires LegalRun(World(NewReg(p), rows), ss, start) && UndisturbedRun(World(NewReg(p), rows), ss, c, a)
    ensures Apart(BansOf(World(NewReg(p), rows), ss, c, a), Normalize(p))
  {
    NormalizeRepairs(p);
    RunOnLadder(World(NewReg(p), rows), ss, start, c, a);
  }

  // -- The shipped numbers --

  /** A policy with the shipped window and TTLs. */
  predicate ShippedTTLs(p: Policy) {
    p.windowSec == 300 && p.banTTLSec == 60 && p.banTTLMaxSec == 1800
  }

  lemma {:induction false} Pow2AtLeast32(k: nat)
    requires k >= 5
    ensures Pow2(k) >= 32
    decreases k
  {
    if k == 5 {
      assert Pow2(5) == 2 * Pow2(4) && Pow2(4) == 2 * Pow2(3) && Pow2(3) == 2 * Pow2(2) && Pow2(2) == 2 * Pow2(1);
    } else {
      Pow2AtLeast32(k - 1);
    }
  }

  lemma ShippedLadderFits()
    ensures LadderFits(60, 1800)
  {
    assert TopRung(60, 1800) == TopRung(120, 1800) && TopRung(120, 1800) == TopRung(240, 1800);
    assert TopRung(240, 1800) == TopRung(480, 1800) && TopRung(480, 1800) == TopRung(960, 1800);
    assert TopRung(960, 1800) == TopRung(1920, 1800);
  }

  /** With the shipped numbers the ladder stops at 960 seconds; the configured 1800 are out of reach. */
  lemma ShippedMaximumIsOutOfReach(p: Policy, rows: Rows, ss: seq<Step>, start: Time, c: string, a: string, i: nat)
    requires ShippedTTLs(Normalize(p)) && !p.reprobeOnExpiry
    requires LegalRun(World(NewReg(p), rows), ss, start) && UndisturbedRun(World(NewReg(p), rows), ss, c, a)
    requires i < |BansOf(World(NewReg(p), rows), ss, c, a)|
    ensures BansOf(World(NewReg(p), rows), ss, c, a)[i].until - BansOf(World(NewReg(p), rows), ss, c, a)[i].bannedAt <= Seconds(960)
  {
    NormalizeRepairs(p);
    ShippedLadderFits();
    SuccessiveBansLieApart(p, rows, ss, start, c, a);
    var b := BansOf(World(NewReg(p), rows), ss, c, a)[i];
    assert BanWithin(b, Normalize(p));
    var k: nat :| b.until - b.bannedAt == PolicyTTL(Normalize(p), k);
    RungBelowBound(k);
  }

  lemma RungBelowBound(k: nat)
    requires BanTTL(60, 1800, k) <= Seconds(1200)
    ensures BanTTL(60, 1800, k) <= Seconds(960)
  {
    ShippedLadderFits();
    LadderKeepsPromiseIffItFits(60, 1800);
    assert BanTTL(60, 1800, k) == Promised(60, 1800, k);
    if k >= 5 {
      Pow2AtLeast32(k);
    } else {
      assert Pow2(0) == 1 && Pow2(1) == 2 && Pow2(2) == 4 && Pow2(3) == 8 && Pow2(4) == 16;
    }
  }
}
