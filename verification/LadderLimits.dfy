/** Released by hand, a pair does climb to the top of the ladder. */
module LadderLimits {
  import opened Clock
  import opened Wrappers
  import opened Policies
  import opened BanLadder
  import opened RegistryModel
  import opened RegistryFacts
  import opened SweepEquivalence
  import opened LadderRuns
  import opened Solo

  /** A 403 and a release, k times over. */
  function Offences(k: nat, t: Time): seq<Step> {
    if k == 0 then [] else Offences(k - 1, t) + [Fails("a", 403, t)] + [Unbans(t)]
  }

  /** In rotation, with so many strikes on a ladder that has not started over. */
  predicate Struck(e: Entry, k: nat, t: Time) {
    e.strikes == k && !e.pendingReprobe && e.bannedUntil == 0 && (k > 0 ==> e.lastBanAt == t)
  }

  predicate Banning(p: Policy) {
    InRange(p) && p.enabled && !p.reprobeOnExpiry && 403 in p.banStatuses
  }

  lemma OneOffence(p: Policy, e: Entry, k: nat, t: Time)
    requires Banning(p) && Reading(t) && Struck(e, k, t)
    ensures NewBan(e, NewReg(p), "c", "a", Failure("a", 403), t).Some?
    ensures NewBan(e, NewReg(p), "c", "a", Failure("a", 403), t).value.until == t + PolicyTTL(p, k)
    ensures t + PolicyTTL(p, k) != 0 ==> Struck(UnbanEntry(Judged(e, NewReg(p), "c", "a", Failure("a", 403), t)), k + 1, t)
  {
    StatusBans(e, p, "a", 403, t);
  }

  lemma {:induction false} TellOffences(p: Policy, k: nat, t: Time) returns (entries: map<string, Entry>)
    requires Banning(p) && Reading(t) && LadderFits(p.banTTLSec, p.banTTLMaxSec)
    ensures Told(p, Offences(k, t), t, entries) && entries.Keys <= {"a"} && Struck(EntryAt(entries, "a", t), k, t)
    ensures EndTime(Offences(k, t), t) == t
  {
    if k == 0 {
      NothingTold(p, t);
      entries := map[];
    } else {
      var before := TellOffences(p, k - 1, t);
      var e := EntryAt(before, "a", t);
      OneOffence(p, e, k - 1, t);
      LadderClimbs(p.banTTLSec, p.banTTLMaxSec, k - 1);
      var out := Judged(e, NewReg(p), "c", "a", Failure("a", 403), t);
      TellFailure(p, Offences(k - 1, t), t, before, 403, t);
      TellUnban(p, Offences(k - 1, t) + [Fails("a", 403, t)], t, out, t);
      entries := map["a" := UnbanEntry(out)];
    }
  }

  /** Released by hand each time, a pair climbs the whole ladder: after k releases it is banned for the k-th rung. */
  lemma EarlyReleaseClimbs(p: Policy, k: nat, t: Time)
    requires Banning(p) && Reading(t) && LadderFits(p.banTTLSec, p.banTTLMaxSec)
    ensures LegalRun(Empty(p), Offences(k, t) + [Fails("a", 403, t)], t)
    ensures LastBan(Returns(p, Offences(k, t) + [Fails("a", 403, t)]), t + PolicyTTL(p, k))
  {
    var entries := TellOffences(p, k, t);
    OneOffence(p, EntryAt(entries, "a", t), k, t);
    TellFailure(p, Offences(k, t), t, entries, 403, t);
  }

  predicate LastBan(answers: seq<Option<Ban>>, until: Time) {
    |answers| > 0 && answers[|answers| - 1].Some? && answers[|answers| - 1].value.until == until
  }

  /** With the shipped numbers the fifth release is followed by a ban of 1800 seconds. */
  lemma EarlyReleaseReachesMaximum(p: Policy, t: Time)
    requires Banning(p) && ShippedTTLs(p) && Reading(t)
    ensures LegalRun(Empty(p), Offences(5, t) + [Fails("a", 403, t)], t)
    ensures LastBan(Returns(p, Offences(5, t) + [Fails("a", 403, t)]), t + Seconds(1800))
  {
    ShippedLadderFits();
    LadderKeepsPromiseIffItFits(60, 1800);
    Pow2AtLeast32(5);
    assert BanTTL(60, 1800, 5) == Promised(60, 1800, 5);
    EarlyReleaseClimbs(p, 5, t);
  }
}
