/** Memory ceilings, and what eviction may take away. */
module Caps {
  import opened Clock
  import opened Wrappers
  import opened Policies
  import opened RegistryModel
  import opened RegistryFacts
  import opened Sorting

  ghost predicate WithinCaps(reg: Reg) {
    && |reg.chans| <= reg.policy.maxChannels
    && forall c | c in reg.chans :: |reg.chans[c].entries| <= reg.policy.maxEntriesPerChan
  }

  lemma AddKey<K, V>(m: map<K, V>, k: K, v: V)
    ensures |m[k := v]| == if k in m then |m| else |m| + 1
  {
    assert m[k := v].Keys == m.Keys + {k};
    assert |m[k := v]| == |m[k := v].Keys| && |m| == |m.Keys|;
  }

  lemma DropKey<K, V>(m: map<K, V>, k: K)
    ensures |m - {k}| == if k in m then |m| - 1 else |m|
  {
    assert (m - {k}).Keys == m.Keys - {k};
    assert |m - {k}| == |(m - {k}).Keys| && |m| == |m.Keys|;
  }

  lemma FewerKeys<K, V, W>(m: map<K, V>, n: map<K, W>)
    requires m.Keys <= n.Keys
    ensures |m| <= |n|
  {
    SubsetIsNoLarger(m.Keys, n.Keys);
    assert |m| == |m.Keys| && |n| == |n.Keys|;
  }

  /** Every key of q is a key of r. */
  ghost predicate NoMore(q: Reg, r: Reg) {
    && q.chans.Keys <= r.chans.Keys
    && forall c | c in q.chans :: q.chans[c].entries.Keys <= r.chans[c].entries.Keys
  }

  lemma FewerThan<V>(m: map<string, V>, n: map<string, V>, k: string)
    requires m.Keys <= n.Keys
    ensures |m| <= |n|
    ensures k !in m && k in n ==> |m| < |n|
  {
    FewerKeys(m, n);
    if k !in m && k in n {
      FewerKeys(m, n - {k});
      DropKey(n, k);
    }
  }

  lemma FetchChannelKeepsCaps(w: World, c: string, now: Time, drop: string)
    requires WellFormed(w.reg) && WithinCaps(w.reg) && LegalChannelDrop(w.reg, c, now, drop)
    ensures WithinCaps(FetchChannel(w, c, now, drop).reg)
  {
    if c !in w.reg.chans {
      var chans := if drop == "" then w.reg.chans else w.reg.chans - {drop};
      DropKey(w.reg.chans, drop);
      assert |chans| < w.reg.policy.maxChannels;
      AddKey(chans, c, Channel(map[], now, 0));
      var reg := FetchChannel(w, c, now, drop).reg;
      assert reg.chans == chans[c := Channel(map[], now, 0)];
      forall k | k in reg.chans ensures |reg.chans[k].entries| <= reg.policy.maxEntriesPerChan {
        assert k != c ==> reg.chans[k] == w.reg.chans[k];
      }
    }
  }

  lemma FetchEntryKeepsCaps(w: World, c: string, a: string, now: Time, drop: string)
    requires WellFormed(w.reg) && WithinCaps(w.reg) && c in w.reg.chans && LegalEntryDrop(w.reg, c, a, now, drop)
    ensures WithinCaps(FetchEntry(w, c, a, now, drop).reg)
  {
    var entries := w.reg.chans[c].entries;
    if a !in entries {
      DropKey(entries, drop);
      AddKey(if drop == "" then entries else entries - {drop}, a, Fresh(now));
      AddKey(w.reg.chans, c, FetchEntry(w, c, a, now, drop).reg.chans[c]);
    }
  }

  lemma FetchKeepsCaps(w: World, c: string, a: string, now: Time, dropChannel: string, dropEntry: string)
    requires WellFormed(w.reg) && WithinCaps(w.reg) && c != "" && LegalDrops(w, c, a, now, dropChannel, dropEntry)
    ensures WithinCaps(Fetch(w, c, a, now, dropChannel, dropEntry).reg)
  {
    FetchChannelKeepsCaps(w, c, now, dropChannel);
    var f := FetchChannel(w, c, now, dropChannel);
    assert WellFormed(f.reg);
    FetchEntryKeepsCaps(f, c, a, now, dropEntry);
  }

  lemma PutKeepsCaps(reg: Reg, c: string, a: string, e: Entry, lastSeenAt: Time, lastBanAt: Time)
    requires WithinCaps(reg) && Find(reg, c, a).Some?
    ensures WithinCaps(Put(reg, c, a, e, lastSeenAt, lastBanAt))
  {
    AddKey(reg.chans[c].entries, a, e);
    AddKey(reg.chans, c, Channel(reg.chans[c].entries[a := e], lastSeenAt, lastBanAt));
  }

  /** Whatever adds no key stays within the ceilings. */
  lemma ShrinkingKeepsCaps(r: Reg, s: Reg)
    requires WithinCaps(r) && s.policy == r.policy && s.chans.Keys <= r.chans.Keys
    requires forall c | c in s.chans :: s.chans[c].entries.Keys <= r.chans[c].entries.Keys
    ensures WithinCaps(s)
  {
    FewerKeys(s.chans, r.chans);
    forall c | c in s.chans ensures |s.chans[c].entries| <= |r.chans[c].entries| {
      FewerKeys(s.chans[c].entries, r.chans[c].entries);
    }
  }

  lemma RecordKeepsCaps(w: World, s: Step)
    requires WellFormed(w.reg) && WithinCaps(w.reg) && LegalStep(w, s)
    requires s.event.Record? && !Ignored(w.reg, s.event.outcome)
    ensures WithinCaps(Apply(w, s).world.reg)
  {
    var o := s.event.outcome;
    var tc := TargetChannel(o);
    var f := Fetch(w, tc, o.addr, s.now, s.dropChannel, s.dropEntry);
    FetchKeepsCaps(w, tc, o.addr, s.now, s.dropChannel, s.dropEntry);
    PutKeepsCaps(f.reg, tc, o.addr, Judged(Find(f.reg, tc, o.addr).value, f.reg, tc, o.addr, o, s.now), s.now,
                 if Apply(w, s).ban.Some? then s.now else f.reg.chans[tc].lastBanAt);
  }

  /** Nothing but a Record adds a key. */
  lemma OthersShrink(w: World, s: Step)
    requires LegalStep(w, s) && !s.event.SetPolicy? && !s.event.Record?
    ensures Apply(w, s).world.reg.policy == w.reg.policy && Apply(w, s).world.reg.chans.Keys <= w.reg.chans.Keys
    ensures forall c | c in Apply(w, s).world.reg.chans ::
              Apply(w, s).world.reg.chans[c].entries.Keys <= w.reg.chans[c].entries.Keys
  {
  }

  lemma StepKeepsCaps(w: World, s: Step)
    requires WellFormed(w.reg) && WithinCaps(w.reg) && LegalStep(w, s) && !s.event.SetPolicy?
    ensures WithinCaps(Apply(w, s).world.reg)
  {
    if s.event.Record? {
      if !Ignored(w.reg, s.event.outcome) {
        RecordKeepsCaps(w, s);
      }
    } else {
      OthersShrink(w, s);
      ShrinkingKeepsCaps(w.reg, Apply(w, s).world.reg);
    }
  }

  ghost predicate FixedPolicy(ss: seq<Step>) {
    forall k | 0 <= k < |ss| :: !ss[k].event.SetPolicy?
  }

  /** Under a fixed policy no run outgrows the ceilings. */
  lemma {:induction false} RunKeepsCaps(w: World, ss: seq<Step>, start: Time)
    requires WellFormed(w.reg) && WithinCaps(w.reg) && LegalRun(w, ss, start) && FixedPolicy(ss)
    ensures WellFormed(Run(w, ss).reg) && WithinCaps(Run(w, ss).reg) && Run(w, ss).reg.policy == w.reg.policy
  {
    if |ss| > 0 {
      var front := ss[..|ss| - 1];
      RunKeepsCaps(w, front, start);
      StepKeepsCaps(Run(w, front), ss[|ss| - 1]);
      StepKeepsWellFormed(Run(w, front), ss[|ss| - 1]);
      StepKeepsPolicy(Run(w, front), ss[|ss| - 1]);
    }
  }

  lemma RunFromNewKeepsCaps(p: Policy, rows: Rows, ss: seq<Step>, start: Time)
    requires LegalRun(World(NewReg(p), rows), ss, start) && FixedPolicy(ss)
    ensures WithinCaps(Run(World(NewReg(p), rows), ss).reg)
    ensures Run(World(NewReg(p), rows), ss).reg.policy == Normalize(p)
  {
    NormalizeRepairs(p);
    RunKeepsCaps(World(NewReg(p), rows), ss, start);
  }

  /**
   * Record touches one pair. Any other pair keeps its entry, unless it makes room; and a banned pair makes room
   * only if everything that could have made room instead was banned too.
   */
  lemma RecordIsIsolated(w: World, s: Step, c: string, a: string)
    requires WellFormed(w.reg) && LegalStep(w, s) && s.event.Record? && !Targets(s, c, a)
    ensures Find(Apply(w, s).world.reg, c, a) == Find(w.reg, c, a) || Find(Apply(w, s).world.reg, c, a).None?
    ensures Find(Apply(w, s).world.reg, c, a) != Find(w.reg, c, a) ==>
              || (NeedsChannelRoom(w.reg, Target(s).0) && IsChannelVictim(w.reg.chans, c, s.now))
              || (NeedsEntryRoom(w.reg, c, Target(s).1) && IsEntryVictim(w.reg.chans[c].entries, a, s.now))
    ensures Find(w.reg, c, a).Some? && Banned(Find(w.reg, c, a).value, s.now) && Find(Apply(w, s).world.reg, c, a).None? ==>
              || (forall k | k in w.reg.chans :: HasBans(w.reg.chans[k], s.now))
              || (forall b | b in w.reg.chans[c].entries :: Banned(w.reg.chans[c].entries[b], s.now))
  {
    var o := s.event.outcome;
    if !Ignored(w.reg, o) {
      var tc := TargetChannel(o);
      RecordEffect(w, s, c, a);
      if Evicted(w.reg, tc, o.addr, s.dropChannel, s.dropEntry, c, a) {
        if tc !in w.reg.chans {
          assert IsChannelVictim(w.reg.chans, c, s.now);
        } else {
          assert FetchChannel(w, tc, s.now, s.dropChannel) == w;
          assert IsEntryVictim(w.reg.chans[c].entries, a, s.now);
        }
      }
    }
  }
}
