/** A restart: LoadBans, a new registry under whatever policy, Restore. What is kept, and when. */
module Restart {
  import opened Clock
  import opened Wrappers
  import opened Policies
  import opened RegistryModel
  import opened RegistryFacts
  import opened Caps
  import opened Mirror

  /**
   * One start of the process: the rows are loaded at loadedAt and restored at restoredAt into a registry that is new
   * under the given policy; then the stored allows and rules are put in. drops are the victims of the restored bans.
   */
  datatype Boot = Boot(
    policy: Policy, loadedAt: Time, bans: seq<Ban>, restoredAt: Time, drops: seq<(string, string)>,
    allows: map<string, set<string>>, rules: seq<Rule>)

  /** The new registry before anything is restored, and the rows that LoadBans left. */
  function Rebooted(w: World, b: Boot): World {
    World(NewReg(b.policy), Unexpired(w.rows, b.loadedAt))
  }

  function Restored(w: World, b: Boot): World
    requires |b.drops| == |b.bans|
  {
    RestoreAll(Rebooted(w, b), b.bans, b.restoredAt, b.drops)
  }

  function BootIn(w: World, b: Boot): World
    requires |b.drops| == |b.bans|
  {
    World(Restored(w, b).reg.(allows := b.allows, rules := b.rules), Restored(w, b).rows)
  }

  ghost predicate LegalBoot(w: World, b: Boot) {
    && Reading(b.loadedAt) && b.loadedAt <= b.restoredAt
    && Lists(b.bans, Unexpired(w.rows, b.loadedAt))
    && |b.drops| == |b.bans| && LegalRestore(Rebooted(w, b), b.bans, b.restoredAt, b.drops)
  }

  // -- Room --

  function RunningIn(reg: Reg, c: string, t: Time): set<string> {
    if c in reg.chans then set a | a in reg.chans[c].entries && Live(reg.chans[c].entries[a], t) else {}
  }

  function RunningChannels(reg: Reg, t: Time): set<string> {
    set c | c in reg.chans && RunningIn(reg, c, t) != {}
  }

  /** The bans that run at time t fit under the ceilings of a policy. */
  predicate Fit(reg: Reg, t: Time, q: Policy) {
    && |RunningChannels(reg, t)| <= Normalize(q).maxChannels
    && forall c | c in reg.chans :: |RunningIn(reg, c, t)| <= Normalize(q).maxEntriesPerChan
  }

  /** A registry that tracks the pairs with a running ban and no others. */
  function Holding(reg: Reg, t: Time, q: Policy): Reg {
    NewReg(q).(chans := map c | c in RunningChannels(reg, t) :: Channel(map a | a in RunningIn(reg, c, t) :: Fresh(t), t, 0))
  }

  lemma HoldingKeys(reg: Reg, t: Time, q: Policy, c: string)
    ensures |Holding(reg, t, q).chans| == |RunningChannels(reg, t)|
    ensures c in Holding(reg, t, q).chans ==>
              Holding(reg, t, q).chans[c].entries.Keys == RunningIn(reg, c, t)
              && |Holding(reg, t, q).chans[c].entries| == |RunningIn(reg, c, t)|
  {
    var h := Holding(reg, t, q);
    assert h.chans.Keys == RunningChannels(reg, t);
    if c in h.chans {
      assert h.chans[c].entries.Keys == RunningIn(reg, c, t);
    }
  }

  lemma FitIsWithinCaps(reg: Reg, t: Time, q: Policy)
    ensures Fit(reg, t, q) <==> WithinCaps(Holding(reg, t, q))
  {
    var h := Holding(reg, t, q);
    forall c ensures c in h.chans ==> |h.chans[c].entries| == |RunningIn(reg, c, t)| {
      HoldingKeys(reg, t, q, c);
    }
    HoldingKeys(reg, t, q, "");
    NormalizeRepairs(q);
    forall c | c in reg.chans && c !in h.chans ensures |RunningIn(reg, c, t)| == 0 {
    }
  }

  lemma TrackedIffRunning(reg: Reg, t: Time, q: Policy, c: string, a: string)
    ensures Find(Holding(reg, t, q), c, a).Some? <==> Running(Find(reg, c, a), t)
  {
    HoldingKeys(reg, t, q, c);
    assert Running(Find(reg, c, a), t) <==> a in RunningIn(reg, c, t);
    assert c in Holding(reg, t, q).chans <==> c in RunningChannels(reg, t);
  }

  lemma HoldingIsWellFormed(reg: Reg, t: Time, q: Policy)
    requires WellFormed(reg)
    ensures WellFormed(Holding(reg, t, q)) && Holding(reg, t, q).policy == NewReg(q).policy
  {
    NormalizeRepairs(q);
  }

  // -- Restoring with room to spare --

  /** The entry of pair (c, a) after reinstating bans into a new registry. */
  function RestoredPair(bans: seq<Ban>, now: Time, c: string, a: string): Option<Entry> {
    if |bans| == 0 then None
    else
      var b := bans[|bans| - 1];
      if KeyOf(b) == (c, a) && !Skipped(b, now)
      then Some(Reinstated(EntryOrFresh(RestoredPair(bans[..|bans| - 1], now, c, a), now), b))
      else RestoredPair(bans[..|bans| - 1], now, c, a)
  }

  lemma RestoreOnePair(w: World, b: Ban, now: Time, c: string, a: string)
    ensures Find(RestoreOne(w, b, now, "", "").reg, c, a) ==
            if KeyOf(b) == (c, a) && !Skipped(b, now) then Some(Reinstated(EntryOrFresh(Find(w.reg, c, a), now), b))
            else Find(w.reg, c, a)
    ensures RestoreOne(w, b, now, "", "").rows == w.rows
    ensures RestoreOne(w, b, now, "", "").reg.policy == w.reg.policy
  {
    if !Skipped(b, now) {
      FetchPair(w, b.channel, b.addr, now, "", "", c, a);
    }
  }

  /** Restoring a pair that a registry within the ceilings tracks never needs room that this registry did not need. */
  lemma RestoreNeedsNoRoom(ref: Reg, v: World, b: Ban, now: Time, dropChannel: string, dropEntry: string)
    requires WellFormed(ref) && WithinCaps(ref) && v.reg.policy == ref.policy && NoMore(v.reg, ref)
    requires Find(ref, b.channel, b.addr).Some? && LegalDrops(v, b.channel, b.addr, now, dropChannel, dropEntry)
    ensures dropChannel == "" && dropEntry == ""
  {
    FewerThan(v.reg.chans, ref.chans, b.channel);
    assert dropChannel == "";
    if b.channel in v.reg.chans {
      FewerThan(v.reg.chans[b.channel].entries, ref.chans[b.channel].entries, b.addr);
    } else {
      NoDropFromNewChannel(v, b.channel, b.addr, now, dropChannel, dropEntry);
    }
  }

  lemma RestoreKeepsNoMore(ref: Reg, v: World, b: Ban, now: Time)
    requires NoMore(v.reg, ref) && Find(ref, b.channel, b.addr).Some?
    ensures NoMore(RestoreOne(v, b, now, "", "").reg, ref)
  {
  }

  lemma {:induction false} RestoreAllPairs(
    ref: Reg, v: World, bans: seq<Ban>, now: Time, drops: seq<(string, string)>, c: string, a: string)
    requires WellFormed(ref) && WithinCaps(ref)
    requires v.reg.policy == ref.policy && v.reg.chans == map[]
    requires |drops| == |bans| && LegalRestore(v, bans, now, drops)
    requires forall i | 0 <= i < |bans| && !Skipped(bans[i], now) :: Find(ref, bans[i].channel, bans[i].addr).Some?
    ensures Find(RestoreAll(v, bans, now, drops).reg, c, a) == RestoredPair(bans, now, c, a)
    ensures NoMore(RestoreAll(v, bans, now, drops).reg, ref)
    ensures RestoreAll(v, bans, now, drops).rows == v.rows
    ensures RestoreAll(v, bans, now, drops).reg.policy == v.reg.policy
  {
    if |bans| > 0 {
      var n := |bans| - 1;
      RestoreAllPairs(ref, v, bans[..n], now, drops[..n], c, a);
      var u := RestoreAll(v, bans[..n], now, drops[..n]);
      if !Skipped(bans[n], now) {
        RestoreNeedsNoRoom(ref, u, bans[n], now, drops[n].0, drops[n].1);
        RestoreKeepsNoMore(ref, u, bans[n], now);
      }
      RestoreOnePair(u, bans[n], now, c, a);
    }
  }

  /** A pair that is listed once is restored from that row; a pair that is not listed is not restored. */
  lemma {:induction false} RestoredFromRow(bans: seq<Ban>, now: Time, c: string, a: string, i: int)
    requires forall j, k | 0 <= j < k < |bans| :: KeyOf(bans[j]) != KeyOf(bans[k])
    requires -1 <= i < |bans|
    requires forall j | 0 <= j < |bans| :: KeyOf(bans[j]) == (c, a) <==> j == i
    ensures RestoredPair(bans, now, c, a) ==
            if i == -1 || Skipped(bans[i], now) then None else Some(Reinstated(Fresh(now), bans[i]))
  {
    if |bans| > 0 {
      var n := |bans| - 1;
      if i == n {
        RestoredFromRow(bans[..n], now, c, a, -1);
      } else {
        RestoredFromRow(bans[..n], now, c, a, i);
      }
    }
  }

  lemma ListedRow(bans: seq<Ban>, rows: Rows, c: string, a: string) returns (i: int)
    requires Lists(bans, rows) && Keyed(rows)
    ensures -1 <= i < |bans|
    ensures forall j | 0 <= j < |bans| :: KeyOf(bans[j]) == (c, a) <==> j == i
    ensures i == -1 <==> (c, a) !in rows
    ensures i >= 0 ==> bans[i] == rows[(c, a)]
  {
    if (c, a) in rows {
      i :| 0 <= i < |bans| && bans[i] == rows[(c, a)];
    } else {
      i := -1;
    }
  }

  /** A listed ban that is not skipped is running in the registry that wrote the table. */
  lemma ListedIsRunning(w: World, b: Boot, i: nat)
    requires Mirrored(w, b.loadedAt) && LegalBoot(w, b) && i < |b.bans|
    ensures Running(Find(w.reg, b.bans[i].channel, b.bans[i].addr), b.loadedAt)
    ensures !Skipped(b.bans[i], b.restoredAt) ==> Running(Find(w.reg, b.bans[i].channel, b.bans[i].addr), b.restoredAt)
  {
    var c, a := b.bans[i].channel, b.bans[i].addr;
    assert KeyOf(b.bans[i]) in Unexpired(w.rows, b.loadedAt);
    assert PairMirrored(Find(w.reg, c, a), RowOf(w.rows, c, a), c, a, b.loadedAt);
  }

  lemma RestoredFromMirror(w: World, b: Boot, c: string, a: string)
    requires WellFormed(w.reg) && Keyed(w.rows) && Mirrored(w, b.loadedAt) && LegalBoot(w, b)
    ensures RestoredPair(b.bans, b.restoredAt, c, a) ==
            if Running(Find(w.reg, c, a), b.restoredAt)
            then Some(Reinstated(Fresh(b.restoredAt), BanOf(c, a, Find(w.reg, c, a).value)))
            else None
  {
    assert Keyed(Unexpired(w.rows, b.loadedAt));
    var i := ListedRow(b.bans, Unexpired(w.rows, b.loadedAt), c, a);
    RestoredFromRow(b.bans, b.restoredAt, c, a, i);
    assert PairMirrored(Find(w.reg, c, a), RowOf(w.rows, c, a), c, a, b.loadedAt);
    if Running(Find(w.reg, c, a), b.loadedAt) {
      assert c != "";
      assert i >= 0;
    }
  }

  /** With room, every pair is restored exactly if its ban is still running, and no row is lost. */
  lemma BootPair(w: World, b: Boot, c: string, a: string)
    requires WellFormed(w.reg) && Keyed(w.rows) && Mirrored(w, b.loadedAt) && LegalBoot(w, b)
    requires Fit(w.reg, b.restoredAt, b.policy)
    ensures BootIn(w, b).rows == Unexpired(w.rows, b.loadedAt)
    ensures BootIn(w, b).reg.policy == Normalize(b.policy)
    ensures Find(BootIn(w, b).reg, c, a) ==
            if Running(Find(w.reg, c, a), b.restoredAt)
            then Some(Reinstated(Fresh(b.restoredAt), BanOf(c, a, Find(w.reg, c, a).value)))
            else None
  {
    var ref := Holding(w.reg, b.restoredAt, b.policy);
    FitIsWithinCaps(w.reg, b.restoredAt, b.policy);
    HoldingIsWellFormed(w.reg, b.restoredAt, b.policy);
    forall i | 0 <= i < |b.bans| && !Skipped(b.bans[i], b.restoredAt)
      ensures Find(ref, b.bans[i].channel, b.bans[i].addr).Some?
    {
      ListedIsRunning(w, b, i);
      TrackedIffRunning(w.reg, b.restoredAt, b.policy, b.bans[i].channel, b.bans[i].addr);
    }
    RestoreAllPairs(ref, Rebooted(w, b), b.bans, b.restoredAt, b.drops, c, a);
    RestoredFromMirror(w, b, c, a);
  }

  // -- Restoring without room --

  lemma RestoreOneKeepsCaps(w: World, b: Ban, now: Time, dropChannel: string, dropEntry: string)
    requires WellFormed(w.reg) && WithinCaps(w.reg) && b.channel != "" && b.addr != ""
    requires Skipped(b, now) || LegalDrops(w, b.channel, b.addr, now, dropChannel, dropEntry)
    ensures WellFormed(RestoreOne(w, b, now, dropChannel, dropEntry).reg)
    ensures WithinCaps(RestoreOne(w, b, now, dropChannel, dropEntry).reg)
    ensures RestoreOne(w, b, now, dropChannel, dropEntry).reg.policy == w.reg.policy
  {
    if !Skipped(b, now) {
      var f := Fetch(w, b.channel, b.addr, now, dropChannel, dropEntry);
      FetchKeepsCaps(w, b.channel, b.addr, now, dropChannel, dropEntry);
      FetchKeepsWellFormed(w, b.channel, b.addr, now, dropChannel, dropEntry);
      var ch := f.reg.chans[b.channel];
      var lastBanAt := if b.until > ch.lastBanAt then b.bannedAt else ch.lastBanAt;
      PutKeepsCaps(f.reg, b.channel, b.addr, Reinstated(ch.entries[b.addr], b), ch.lastSeenAt, lastBanAt);
      PutKeepsWellFormed(f.reg, b.channel, b.addr, Reinstated(ch.entries[b.addr], b), ch.lastSeenAt, lastBanAt);
    }
  }

  lemma {:induction false} RestoreKeepsCaps(v: World, bans: seq<Ban>, now: Time, drops: seq<(string, string)>)
    requires WellFormed(v.reg) && WithinCaps(v.reg)
    requires |drops| == |bans| && LegalRestore(v, bans, now, drops)
    requires forall i | 0 <= i < |bans| :: bans[i].channel != "" && bans[i].addr != ""
    ensures WellFormed(RestoreAll(v, bans, now, drops).reg) && WithinCaps(RestoreAll(v, bans, now, drops).reg)
    ensures RestoreAll(v, bans, now, drops).reg.policy == v.reg.policy
  {
    if |bans| > 0 {
      var n := |bans| - 1;
      RestoreKeepsCaps(v, bans[..n], now, drops[..n]);
      RestoreOneKeepsCaps(RestoreAll(v, bans[..n], now, drops[..n]), bans[n], now, drops[n].0, drops[n].1);
    }
  }

  lemma BootKeepsWellFormed(w: World, b: Boot)
    requires WellFormed(w.reg) && Mirrored(w, b.loadedAt) && LegalBoot(w, b)
    ensures WellFormed(BootIn(w, b).reg) && WithinCaps(BootIn(w, b).reg) && BootIn(w, b).reg.policy == Normalize(b.policy)
  {
    NormalizeRepairs(b.policy);
    forall i | 0 <= i < |b.bans| ensures b.bans[i].channel != "" && b.bans[i].addr != "" {
      ListedIsRunning(w, b, i);
    }
    RestoreKeepsCaps(Rebooted(w, b), b.bans, b.restoredAt, b.drops);
  }

  /** A registry within the ceilings that has every running ban shows that they fit. */
  lemma KeptBansFit(w: World, reg: Reg, t: Time, q: Policy)
    requires WithinCaps(reg) && reg.policy == Normalize(q)
    requires forall c, a | Running(Find(w.reg, c, a), t) :: Find(reg, c, a).Some?
    ensures Fit(w.reg, t, q)
  {
    var h := Holding(w.reg, t, q);
    forall c | c in h.chans ensures c in reg.chans && h.chans[c].entries.Keys <= reg.chans[c].entries.Keys {
      HoldingKeys(w.reg, t, q, c);
      var a :| a in RunningIn(w.reg, c, t);
      assert Running(Find(w.reg, c, a), t);
      forall b | b in h.chans[c].entries ensures b in reg.chans[c].entries {
        assert Running(Find(w.reg, c, b), t);
      }
    }
    ShrinkingKeepsCaps(reg, h);
    FitIsWithinCaps(w.reg, t, q);
  }

  /** Whatever policy restores: every running ban survives the restart exactly if they fit under its ceilings. */
  lemma AllBansAreKeptIffTheyFit(w: World, b: Boot)
    requires WellFormed(w.reg) && Keyed(w.rows) && Mirrored(w, b.loadedAt) && LegalBoot(w, b)
    ensures (forall c, a | Running(Find(w.reg, c, a), b.restoredAt) :: Running(Find(BootIn(w, b).reg, c, a), b.restoredAt))
            <==> Fit(w.reg, b.restoredAt, b.policy)
  {
    if Fit(w.reg, b.restoredAt, b.policy) {
      forall c, a | Running(Find(w.reg, c, a), b.restoredAt) ensures Running(Find(BootIn(w, b).reg, c, a), b.restoredAt) {
        BootPair(w, b, c, a);
      }
    } else {
      BootKeepsWellFormed(w, b);
      if forall c, a | Running(Find(w.reg, c, a), b.restoredAt) :: Find(BootIn(w, b).reg, c, a).Some? {
        KeptBansFit(w, BootIn(w, b).reg, b.restoredAt, b.policy);
      }
    }
  }

  // -- What a restart keeps --

  /** The table mirrors the bans of the new registry as well: it is ready for the next restart. */
  lemma BootKeepsMirror(w: World, b: Boot)
    requires WellFormed(w.reg) && Keyed(w.rows) && Mirrored(w, b.loadedAt) && LegalBoot(w, b)
    requires Fit(w.reg, b.restoredAt, b.policy)
    ensures Mirrored(BootIn(w, b), b.restoredAt) && Keyed(BootIn(w, b).rows) && WellFormed(BootIn(w, b).reg)
  {
    BootKeepsWellFormed(w, b);
    BootPair(w, b, "", "");
    forall c, a
      ensures PairMirrored(Find(BootIn(w, b).reg, c, a), RowOf(BootIn(w, b).rows, c, a), c, a, b.restoredAt)
    {
      BootPair(w, b, c, a);
      assert PairMirrored(Find(w.reg, c, a), RowOf(w.rows, c, a), c, a, b.loadedAt);
      assert (c, a) in w.rows ==> w.rows[(c, a)].channel == c;
    }
  }

  lemma BootKeepsNoProbation(w: World, b: Boot)
    requires WellFormed(w.reg) && Keyed(w.rows) && Mirrored(w, b.loadedAt) && LegalBoot(w, b)
    requires Fit(w.reg, b.restoredAt, b.policy) && !b.policy.reprobeOnExpiry
    ensures NoProbation(BootIn(w, b).reg)
  {
    BootPair(w, b, "", "");
    forall c, a | Find(BootIn(w, b).reg, c, a).Some? ensures !Find(BootIn(w, b).reg, c, a).value.pendingReprobe {
      BootPair(w, b, c, a);
    }
  }

  /** The same ban, as far as it can be observed. */
  predicate SameBan(x: Entry, y: Entry) {
    x.bannedUntil == y.bannedUntil && x.strikes == y.strikes && x.lastBanAt == y.lastBanAt && x.banReason == y.banReason
  }

  /** The registry once the configured policy has been applied after the restart. */
  function Configured(w: World, b: Boot, p: Policy): Reg
    requires |b.drops| == |b.bans|
  {
    WithPolicy(BootIn(w, b).reg, p)
  }

  lemma ConfiguredPair(reg: Reg, p: Policy, c: string, a: string, t: Time)
    ensures Find(WithPolicy(reg, p), c, a).Some? <==> Find(reg, c, a).Some?
    ensures Find(reg, c, a).Some? ==>
              && SameBan(Find(WithPolicy(reg, p), c, a).value, Find(reg, c, a).value)
              && Find(WithPolicy(reg, p), c, a).value.pendingReprobe == Find(reg, c, a).value.pendingReprobe
    ensures WithPolicy(reg, p).policy == Normalize(p)
  {
  }

  /**
   * Restored under policy q, configured with policy p: at every instant from then on exactly the pairs whose ban is
   * still running are banned, with the same expiry, strikes, start and reason, and no row is lost.
   */
  lemma RestartKeepsRunningBans(w: World, b: Boot, p: Policy, c: string, a: string, later: Time)
    requires WellFormed(w.reg) && Keyed(w.rows) && Mirrored(w, b.loadedAt) && LegalBoot(w, b) && b.restoredAt <= later
    requires Fit(w.reg, b.restoredAt, b.policy)
    ensures BootIn(w, b).rows == Unexpired(w.rows, b.loadedAt)
    ensures IsBanned(Configured(w, b, p), c, a, later) <==> Normalize(p).enabled && Running(Find(w.reg, c, a), later)
    ensures IsBanned(Configured(w, b, p), c, a, later) ==>
              SameBan(Find(Configured(w, b, p), c, a).value, Find(w.reg, c, a).value)
  {
    BootPair(w, b, c, a);
    ConfiguredPair(BootIn(w, b).reg, p, c, a, later);
  }

  /** So a restart changes Banned exactly for the pairs that are out on probation alone, which no row records. */
  lemma RestartIsInvisibleIff(w: World, b: Boot, p: Policy, c: string, a: string, later: Time)
    requires WellFormed(w.reg) && Keyed(w.rows) && Mirrored(w, b.loadedAt) && LegalBoot(w, b) && b.restoredAt <= later
    requires Fit(w.reg, b.restoredAt, b.policy) && Normalize(p).enabled == w.reg.policy.enabled
    ensures (IsBanned(Configured(w, b, p), c, a, later) == IsBanned(w.reg, c, a, later)) <==>
            !(IsBanned(w.reg, c, a, later) && Find(w.reg, c, a).value.pendingReprobe && !Live(Find(w.reg, c, a).value, later))
  {
    RestartKeepsRunningBans(w, b, p, c, a, later);
  }
}
