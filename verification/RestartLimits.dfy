/** Restarting under ceilings that are too low: running bans are lost, and rows with them. */
module RestartLimits {
  import opened Clock
  import opened Wrappers
  import opened Policies
  import opened BanLadder
  import opened RegistryModel
  import opened RegistryFacts
  import opened SweepEquivalence
  import opened SweepRuns
  import opened Mirror
  import opened Restart
  import opened Lives
  import opened Solo
  import opened LadderLimits

  /** Restoring x and then y of one channel that has room for one entry. */
  function OneSlot(q: Policy, t: Time, x: Ban, y: Ban): Boot {
    Boot(q, t, [x, y], t, [("", ""), ("", x.addr)], map[], [])
  }

  lemma RestoredAlone(v: World, x: Ban, t: Time)
    requires v.reg.chans == map[] && !Skipped(x, t) && x.addr != ""
    ensures EntriesOn(RestoreOne(v, x, t, "", "").reg, x.channel) == map[x.addr := Reinstated(Fresh(t), x)]
    ensures RestoreOne(v, x, t, "", "").reg.chans.Keys == {x.channel}
    ensures RestoreOne(v, x, t, "", "").rows == v.rows && RestoreOne(v, x, t, "", "").reg.policy == v.reg.policy
  {
    assert map[][x.addr := Fresh(t)][x.addr := Reinstated(Fresh(t), x)] == map[x.addr := Reinstated(Fresh(t), x)];
  }

  /** The second ban takes the only slot, and the row of the first goes with it. */
  lemma SecondTakesSlot(v: World, x: Ban, y: Ban, t: Time)
    requires InRange(v.reg.policy) && v.reg.policy.maxEntriesPerChan == 1 && v.reg.chans.Keys == {x.channel}
    requires EntriesOn(v.reg, x.channel) == map[x.addr := Reinstated(Fresh(t), x)]
    requires !Skipped(y, t) && x.channel == y.channel && x.addr != y.addr && x.addr != ""
    ensures LegalDrops(v, y.channel, y.addr, t, "", x.addr)
    ensures Find(RestoreOne(v, y, t, "", x.addr).reg, x.channel, x.addr).None?
    ensures (x.channel, x.addr) !in RestoreOne(v, y, t, "", x.addr).rows
  {
    assert |v.reg.chans[x.channel].entries| == |v.reg.chans[x.channel].entries.Keys| == |{x.addr}| == 1;
    assert IsEntryVictim(v.reg.chans[x.channel].entries, x.addr, t);
    FetchPair(v, y.channel, y.addr, t, "", x.addr, x.channel, x.addr);
  }

  lemma OneSlotSteps(v: World, x: Ban, y: Ban, t: Time)
    requires InRange(v.reg.policy) && v.reg.policy.maxEntriesPerChan == 1 && v.reg.chans == map[]
    requires x.channel == y.channel && x.addr != y.addr && x.addr != "" && !Skipped(x, t) && !Skipped(y, t)
    ensures LegalRestore(v, [x, y], t, [("", ""), ("", x.addr)])
    ensures RestoreAll(v, [x, y], t, [("", ""), ("", x.addr)]) == RestoreOne(RestoreOne(v, x, t, "", ""), y, t, "", x.addr)
  {
    var bans, drops := [x, y], [("", ""), ("", x.addr)];
    RestoredAlone(v, x, t);
    FirstIsLegal(v, x, t);
    SecondTakesSlot(RestoreOne(v, x, t, "", ""), x, y, t);
    assert bans[..1] == [x] && [x][..0] == [] && drops[..1] == [("", "")] && drops[..1][..0] == [];
    assert RestoreAll(v, [], t, []) == v && LegalRestore(v, [], t, []);
    assert RestoreAll(v, [x], t, [("", "")]) == RestoreOne(v, x, t, "", "") && LegalRestore(v, [x], t, [("", "")]);
  }

  lemma TwoListed(rows: Rows, x: Ban, y: Ban)
    requires rows == map[KeyOf(x) := x, KeyOf(y) := y] && KeyOf(x) != KeyOf(y)
    ensures Lists([x, y], rows)
  {
    assert rows[KeyOf(x)] == x && rows[KeyOf(y)] == y;
    assert x in [x, y] && y in [x, y];
  }

  lemma OneSlotLosesTheFirst(w: World, q: Policy, t: Time, x: Ban, y: Ban)
    requires Reading(t) && Normalize(q).maxEntriesPerChan == 1
    requires x.channel == y.channel && x.addr != y.addr && x.addr != "" && !Skipped(x, t) && !Skipped(y, t)
    requires Unexpired(w.rows, t) == map[KeyOf(x) := x, KeyOf(y) := y]
    ensures LegalBoot(w, OneSlot(q, t, x, y))
    ensures Find(BootIn(w, OneSlot(q, t, x, y)).reg, x.channel, x.addr).None?
    ensures KeyOf(x) !in BootIn(w, OneSlot(q, t, x, y)).rows
  {
    var v := Rebooted(w, OneSlot(q, t, x, y));
    NormalizeRepairs(q);
    TwoListed(Unexpired(w.rows, t), x, y);
    OneSlotSteps(v, x, y, t);
    RestoredAlone(v, x, t);
    SecondTakesSlot(RestoreOne(v, x, t, "", ""), x, y, t);
  }

  lemma FirstIsLegal(v: World, x: Ban, t: Time)
    requires InRange(v.reg.policy) && v.reg.chans == map[]
    ensures LegalDrops(v, x.channel, x.addr, t, "", "")
  {
  }

  // -- A history that ends there --

  function TwoBans(t: Time): seq<Step> {
    [Fails("a", 403, t)] + [Fails("b", 403, t)]
  }

  lemma BanRow(w: World, entries: map<string, Entry>, p: Policy, a: string, t: Time)
    requires Banning(p) && LadderFits(p.banTTLSec, p.banTTLMaxSec) && Reading(t)
    requires At(w, entries, p) && a != "" && a !in entries && |entries| < p.maxEntriesPerChan
    ensures Apply(w, Fails(a, 403, t)).ban.Some? && Apply(w, Fails(a, 403, t)).ban.value.until > t
    ensures KeyOf(Apply(w, Fails(a, 403, t)).ban.value) == ("c", a)
    ensures Apply(w, Fails(a, 403, t)).world.rows == w.rows[("c", a) := Apply(w, Fails(a, 403, t)).ban.value]
  {
    FailsAt(w, entries, p, a, 403, t);
    StatusBans(Fresh(t), p, a, 403, t);
    LadderClimbs(p.banTTLSec, p.banTTLMaxSec, 0);
    RecordRows(w, Fails(a, 403, t));
  }

  lemma TellTwoBans(p: Policy, t: Time) returns (x: Ban, y: Ban)
    requires Banning(p) && LadderFits(p.banTTLSec, p.banTTLMaxSec) && p.maxEntriesPerChan >= 2 && Reading(t)
    ensures LegalRun(Empty(p), TwoBans(t), t)
    ensures Run(Empty(p), TwoBans(t)).rows == map[KeyOf(x) := x, KeyOf(y) := y]
    ensures KeyOf(x) == ("c", "a") && KeyOf(y) == ("c", "b") && x.until > t && y.until > t
  {
    var w, s1, s2 := Empty(p), Fails("a", 403, t), Fails("b", 403, t);
    StartsEmpty(p, map[]);
    FailsAt(w, map[], p, "a", 403, t);
    BanRow(w, map[], p, "a", t);
    RunOneMore(w, [], s1, t);
    assert [] + [s1] == [s1];
    var e := map["a" := Judged(Fresh(t), NewReg(p), "c", "a", Failure("a", 403), t)];
    assert map[]["a" := e["a"]] == e;
    var v := Apply(w, s1).world;
    assert At(v, e, p);
    assert |e| == |e.Keys| == |{"a"}| == 1;
    FailsAt(v, e, p, "b", 403, t);
    BanRow(v, e, p, "b", t);
    RunOneMore(w, [s1], s2, t);
    x, y := Apply(w, s1).ban.value, Apply(v, s2).ban.value;
    assert map[][("c", "a") := x][("c", "b") := y] == map[("c", "a") := x, ("c", "b") := y];
  }

  /**
   * Two pairs of a channel are banned; the restoring policy has room for one entry per channel. One legal restart later
   * the first is not banned any more, although its ban is still running, and its row is gone.
   */
  lemma OverfullRestartLosesABan(p: Policy, q: Policy, t: Time) returns (b: Boot)
    requires Banning(p) && LadderFits(p.banTTLSec, p.banTTLMaxSec) && p.maxEntriesPerChan >= 2
    requires Reading(t) && Normalize(q).maxEntriesPerChan == 1
    ensures b.policy == q && LegalRun(Empty(p), TwoBans(t), t) && LegalBoot(Run(Empty(p), TwoBans(t)), b)
    ensures Running(Find(Run(Empty(p), TwoBans(t)).reg, "c", "a"), b.restoredAt)
    ensures !IsBanned(BootIn(Run(Empty(p), TwoBans(t)), b).reg, "c", "a", b.restoredAt)
    ensures ("c", "a") in Run(Empty(p), TwoBans(t)).rows && ("c", "a") !in BootIn(Run(Empty(p), TwoBans(t)), b).rows
  {
    var x, y := TellTwoBans(p, t);
    b := OneSlot(q, t, x, y);
    TwoBansAreMirrored(p, t);
    FirstOfTwoIsLost(Run(Empty(p), TwoBans(t)), q, t, x, y);
  }

  lemma FirstOfTwoIsLost(w: World, q: Policy, t: Time, x: Ban, y: Ban)
    requires Reading(t) && Normalize(q).maxEntriesPerChan == 1 && Mirrored(w, t)
    requires x.channel == y.channel != "" && x.addr != y.addr && x.addr != "" && x.until > t && y.until > t
    requires w.rows == map[KeyOf(x) := x, KeyOf(y) := y]
    ensures LegalBoot(w, OneSlot(q, t, x, y)) && Running(Find(w.reg, x.channel, x.addr), t)
    ensures Find(BootIn(w, OneSlot(q, t, x, y)).reg, x.channel, x.addr).None?
    ensures KeyOf(x) in w.rows && KeyOf(x) !in BootIn(w, OneSlot(q, t, x, y)).rows
  {
    assert Unexpired(w.rows, t) == w.rows;
    OneSlotLosesTheFirst(w, q, t, x, y);
    assert PairMirrored(Find(w.reg, x.channel, x.addr), RowOf(w.rows, x.channel, x.addr), x.channel, x.addr, t);
  }

  lemma TwoBansAreMirrored(p: Policy, t: Time)
    requires LegalRun(Empty(p), TwoBans(t), t)
    ensures Mirrored(Run(Empty(p), TwoBans(t)), t)
  {
    var w, s1, s2 := Empty(p), Fails("a", 403, t), Fails("b", 403, t);
    NormalizeRepairs(p);
    NewRegistryIsInStep(p, t);
    LegalPair(w, s1, s2, t);
    FailureKeepsInStep(w, "a", t);
    FailureKeepsInStep(Apply(w, s1).world, "b", t);
  }

  lemma FailureKeepsInStep(w: World, a: string, t: Time)
    requires InStep(w, t) && LegalStep(w, Fails(a, 403, t))
    ensures InStep(Apply(w, Fails(a, 403, t)).world, t)
  {
    MoveKeepsInStep(w, Operate(Fails(a, 403, t)), t);
  }

  lemma LegalPair(w: World, s1: Step, s2: Step, t: Time)
    requires LegalRun(w, [s1] + [s2], t)
    ensures LegalStep(w, s1) && LegalStep(Apply(w, s1).world, s2) && t <= s1.now <= s2.now
    ensures Run(w, [s1] + [s2]) == Apply(Apply(w, s1).world, s2).world
  {
    assert ([s1] + [s2])[..1] == [s1] && [s1][..0] == [];
    assert Run(w, [s1]) == Apply(w, s1).world;
  }

  // -- Rows lost while their bans are still to be restored --

  /**
   * With room for one channel, restoring x of channel d evicts nothing, y of another channel evicts d and every row of
   * it, and z of d comes back without its row: the next restart will forget it.
   */
  function OneChannel(q: Policy, t: Time, x: Ban, y: Ban, z: Ban): Boot {
    Boot(q, t, [x, y, z], t, [("", ""), (x.channel, ""), (y.channel, "")], map[], [])
  }

  lemma NextTakesChannel(v: World, x: Ban, y: Ban, t: Time)
    requires InRange(v.reg.policy) && v.reg.policy.maxChannels == 1 && v.reg.chans.Keys == {x.channel}
    requires !Skipped(y, t) && x.channel != y.channel && x.channel != "" && y.addr != ""
    ensures LegalDrops(v, y.channel, y.addr, t, x.channel, "")
    ensures RestoreOne(v, y, t, x.channel, "").reg.chans.Keys == {y.channel}
    ensures EntriesOn(RestoreOne(v, y, t, x.channel, "").reg, y.channel) == map[y.addr := Reinstated(Fresh(t), y)]
    ensures RestoreOne(v, y, t, x.channel, "").rows == WithoutChannel(v.rows, x.channel)
    ensures RestoreOne(v, y, t, x.channel, "").reg.policy == v.reg.policy
  {
    assert |v.reg.chans| == |v.reg.chans.Keys| == |{x.channel}| == 1;
    assert IsChannelVictim(v.reg.chans, x.channel, t);
    var f := FetchChannel(v, y.channel, t, x.channel);
    assert f.reg.chans == map[y.channel := Channel(map[], t, 0)];
    assert map[][y.addr := Fresh(t)][y.addr := Reinstated(Fresh(t), y)] == map[y.addr := Reinstated(Fresh(t), y)];
  }

  lemma OneChannelSteps(v: World, x: Ban, y: Ban, z: Ban, t: Time)
    requires InRange(v.reg.policy) && v.reg.policy.maxChannels == 1 && v.reg.chans == map[]
    requires !Skipped(x, t) && !Skipped(y, t) && !Skipped(z, t) && x.addr != "" && y.addr != "" && z.addr != ""
    requires x.channel == z.channel != y.channel
    ensures LegalRestore(v, [x, y, z], t, [("", ""), (x.channel, ""), (y.channel, "")])
    ensures EntriesOn(RestoreAll(v, [x, y, z], t, [("", ""), (x.channel, ""), (y.channel, "")]).reg, z.channel)
         == map[z.addr := Reinstated(Fresh(t), z)]
    ensures KeyOf(z) !in RestoreAll(v, [x, y, z], t, [("", ""), (x.channel, ""), (y.channel, "")]).rows
  {
    var bans, drops := [x, y, z], [("", ""), (x.channel, ""), (y.channel, "")];
    RestoredAlone(v, x, t);
    FirstIsLegal(v, x, t);
    var v1 := RestoreOne(v, x, t, "", "");
    NextTakesChannel(v1, x, y, t);
    var v2 := RestoreOne(v1, y, t, x.channel, "");
    NextTakesChannel(v2, y, z, t);
    assert bans[..2] == [x, y] && drops[..2] == [("", ""), (x.channel, "")];
    assert [x, y][..1] == [x] && drops[..2][..1] == [("", "")] && [x][..0] == [] && drops[..2][..1][..0] == [];
    assert RestoreAll(v, [], t, []) == v && LegalRestore(v, [], t, []);
    assert RestoreAll(v, [x], t, [("", "")]) == v1 && LegalRestore(v, [x], t, [("", "")]);
    assert RestoreAll(v, [x, y], t, drops[..2]) == v2 && LegalRestore(v, [x, y], t, drops[..2]);
  }

  lemma ThreeListed(rows: Rows, x: Ban, y: Ban, z: Ban)
    requires rows == map[KeyOf(x) := x, KeyOf(y) := y, KeyOf(z) := z]
    requires x.channel == z.channel != y.channel && x.addr != z.addr
    ensures Lists([x, y, z], rows)
  {
    assert rows[KeyOf(x)] == x && rows[KeyOf(y)] == y && rows[KeyOf(z)] == z;
    assert x in [x, y, z] && y in [x, y, z] && z in [x, y, z];
  }

  lemma RunningWithoutRow(v: World, z: Ban, t: Time)
    requires EntriesOn(v.reg, z.channel) == map[z.addr := Reinstated(Fresh(t), z)]
    requires !Skipped(z, t) && KeyOf(z) !in v.rows
    ensures Running(Find(v.reg, z.channel, z.addr), t) && !Mirrored(v, t)
  {
    assert z.addr in EntriesOn(v.reg, z.channel);
    assert Find(v.reg, z.channel, z.addr) == Some(Reinstated(Fresh(t), z));
    assert !PairMirrored(Find(v.reg, z.channel, z.addr), RowOf(v.rows, z.channel, z.addr), z.channel, z.addr, t);
  }

  /** So the mirror needs the room as well: afterwards a ban is running that no row records. */
  lemma OverfullRestartForgetsARow(w: World, q: Policy, t: Time, x: Ban, y: Ban, z: Ban)
    requires Reading(t) && Normalize(q).maxChannels == 1
    requires !Skipped(x, t) && !Skipped(y, t) && !Skipped(z, t) && x.addr != "" && y.addr != "" && z.addr != ""
    requires x.channel == z.channel != y.channel && x.addr != z.addr
    requires Unexpired(w.rows, t) == map[KeyOf(x) := x, KeyOf(y) := y, KeyOf(z) := z]
    ensures LegalBoot(w, OneChannel(q, t, x, y, z))
    ensures Running(Find(BootIn(w, OneChannel(q, t, x, y, z)).reg, z.channel, z.addr), t)
    ensures KeyOf(z) !in BootIn(w, OneChannel(q, t, x, y, z)).rows
    ensures !Mirrored(BootIn(w, OneChannel(q, t, x, y, z)), t)
  {
    NormalizeRepairs(q);
    ThreeListed(Unexpired(w.rows, t), x, y, z);
    OneChannelSteps(Rebooted(w, OneChannel(q, t, x, y, z)), x, y, z, t);
    RunningWithoutRow(BootIn(w, OneChannel(q, t, x, y, z)), z, t);
  }
}
