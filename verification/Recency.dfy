/** What the stamps mean that eviction goes by: when a channel, and when a pair, was last heard of. */
module Recency {
  import opened Clock
  import opened Wrappers
  import opened Policies
  import opened RegistryModel
  import opened RegistryFacts

  predicate HearsOfChannel(reg: Reg, s: Step, c: string) {
    s.event.Record? && !Ignored(reg, s.event.outcome) && TargetChannel(s.event.outcome) == c
  }

  predicate HearsOfPair(reg: Reg, s: Step, c: string, a: string) {
    HearsOfChannel(reg, s, c) && s.event.outcome.addr == a
  }

  /** When a run last filed an outcome on channel c, read off its steps; 0 if it never did. */
  function LastOnChannel(w: World, ss: seq<Step>, c: string): Time
    requires forall k | 0 <= k < |ss| :: Reading(ss[k].now)
  {
    if |ss| == 0 then 0
    else if HearsOfChannel(Run(w, ss[..|ss| - 1]).reg, ss[|ss| - 1], c) then ss[|ss| - 1].now
    else LastOnChannel(w, ss[..|ss| - 1], c)
  }

  /** When a run last filed an outcome of pair (c, a). */
  function LastOnPair(w: World, ss: seq<Step>, c: string, a: string): Time
    requires forall k | 0 <= k < |ss| :: Reading(ss[k].now)
  {
    if |ss| == 0 then 0
    else if HearsOfPair(Run(w, ss[..|ss| - 1]).reg, ss[|ss| - 1], c, a) then ss[|ss| - 1].now
    else LastOnPair(w, ss[..|ss| - 1], c, a)
  }

  // -- One step --

  function StampOf(reg: Reg, c: string): Option<Time> {
    if c in reg.chans then Some(reg.chans[c].lastSeenAt) else None
  }

  lemma FetchKeepsStamp(w: World, tc: string, ta: string, now: Time, dropChannel: string, dropEntry: string, c: string)
    requires c != tc && c in Fetch(w, tc, ta, now, dropChannel, dropEntry).reg.chans
    ensures StampOf(Fetch(w, tc, ta, now, dropChannel, dropEntry).reg, c) == StampOf(w.reg, c)
  {
  }

  lemma PutStamp(reg: Reg, tc: string, ta: string, e: Entry, lastSeenAt: Time, lastBanAt: Time, c: string)
    requires tc in reg.chans
    ensures StampOf(Put(reg, tc, ta, e, lastSeenAt, lastBanAt), c) == if c == tc then Some(lastSeenAt) else StampOf(reg, c)
  {
  }

  lemma RecordStamp(w: World, s: Step, c: string)
    requires Reading(s.now) && s.event.Record? && !Ignored(w.reg, s.event.outcome)
    requires c in Apply(w, s).world.reg.chans
    ensures StampOf(Apply(w, s).world.reg, c) == if HearsOfChannel(w.reg, s, c) then Some(s.now) else StampOf(w.reg, c)
  {
    var o := s.event.outcome;
    var tc := TargetChannel(o);
    var f := Fetch(w, tc, o.addr, s.now, s.dropChannel, s.dropEntry);
    PutStamp(f.reg, tc, o.addr, Judged(Find(f.reg, tc, o.addr).value, f.reg, tc, o.addr, o, s.now), s.now,
             if Apply(w, s).ban.Some? then s.now else f.reg.chans[tc].lastBanAt, c);
    if c != tc {
      FetchKeepsStamp(w, tc, o.addr, s.now, s.dropChannel, s.dropEntry, c);
    }
  }

  lemma OtherStamp(w: World, s: Step, c: string)
    requires Reading(s.now) && !s.event.Record?
    requires c in Apply(w, s).world.reg.chans
    ensures StampOf(Apply(w, s).world.reg, c) == StampOf(w.reg, c)
  {
  }

  lemma StampAfter(w: World, s: Step, c: string)
    requires Reading(s.now) && c in Apply(w, s).world.reg.chans
    ensures StampOf(Apply(w, s).world.reg, c) == if HearsOfChannel(w.reg, s, c) then Some(s.now) else StampOf(w.reg, c)
  {
    if s.event.Record? {
      if !Ignored(w.reg, s.event.outcome) {
        RecordStamp(w, s, c);
      }
    } else {
      OtherStamp(w, s, c);
    }
  }

  lemma EntryStampAfter(w: World, s: Step, c: string, a: string)
    requires InRange(w.reg.policy) && LegalStep(w, s) && Find(Apply(w, s).world.reg, c, a).Some?
    ensures HearsOfPair(w.reg, s, c, a) ==> Find(Apply(w, s).world.reg, c, a).value.lastSeenAt == s.now
    ensures !HearsOfPair(w.reg, s, c, a) ==>
              && Find(w.reg, c, a).Some?
              && Find(Apply(w, s).world.reg, c, a).value.lastSeenAt == Find(w.reg, c, a).value.lastSeenAt
  {
    FindAfter(w, s, c, a);
  }

  // -- Whole runs --

  /** In every run from a new registry the stamp of a channel is the time of its last outcome. */
  lemma {:induction false} ChannelStampIsLastRecord(p: Policy, rows: Rows, ss: seq<Step>, start: Time, c: string)
    requires LegalRun(World(NewReg(p), rows), ss, start)
    requires c in Run(World(NewReg(p), rows), ss).reg.chans
    ensures Run(World(NewReg(p), rows), ss).reg.chans[c].lastSeenAt == LastOnChannel(World(NewReg(p), rows), ss, c)
  {
    if |ss| > 0 {
      var w := World(NewReg(p), rows);
      var front, s := ss[..|ss| - 1], ss[|ss| - 1];
      StampAfter(Run(w, front), s, c);
      if !HearsOfChannel(Run(w, front).reg, s, c) {
        ChannelStampIsLastRecord(p, rows, front, start, c);
      }
    }
  }

  lemma {:induction false} RunKeepsWellFormed(p: Policy, rows: Rows, ss: seq<Step>, start: Time)
    requires LegalRun(World(NewReg(p), rows), ss, start)
    ensures WellFormed(Run(World(NewReg(p), rows), ss).reg)
  {
    if |ss| == 0 {
      NormalizeRepairs(p);
    } else {
      var front := ss[..|ss| - 1];
      RunKeepsWellFormed(p, rows, front, start);
      StepKeepsWellFormed(Run(World(NewReg(p), rows), front), ss[|ss| - 1]);
    }
  }

  /** And the stamp of an entry is the time of its pair's last outcome. */
  lemma {:induction false} EntryStampIsLastRecord(p: Policy, rows: Rows, ss: seq<Step>, start: Time, c: string, a: string)
    requires LegalRun(World(NewReg(p), rows), ss, start)
    requires Find(Run(World(NewReg(p), rows), ss).reg, c, a).Some?
    ensures Find(Run(World(NewReg(p), rows), ss).reg, c, a).value.lastSeenAt == LastOnPair(World(NewReg(p), rows), ss, c, a)
  {
    if |ss| > 0 {
      var w := World(NewReg(p), rows);
      var front, s := ss[..|ss| - 1], ss[|ss| - 1];
      RunKeepsWellFormed(p, rows, front, start);
      EntryStampAfter(Run(w, front), s, c, a);
      if !HearsOfPair(Run(w, front).reg, s, c, a) {
        EntryStampIsLastRecord(p, rows, front, start, c, a);
      }
    }
  }

  // -- Eviction, told by the steps of the run --

  /** Channel v goes: it is there, holds bans only if every channel does, and its own last outcome is the oldest of its class. */
  ghost predicate StalestChannel(w: World, ss: seq<Step>, v: string, now: Time)
    requires forall k | 0 <= k < |ss| :: Reading(ss[k].now)
  {
    && v in Run(w, ss).reg.chans
    && (forall c | c in Run(w, ss).reg.chans :: HasBans(Run(w, ss).reg.chans[v], now) ==> HasBans(Run(w, ss).reg.chans[c], now))
    && (forall c | c in Run(w, ss).reg.chans && HasBans(Run(w, ss).reg.chans[c], now) == HasBans(Run(w, ss).reg.chans[v], now) ::
          LastOnChannel(w, ss, v) <= LastOnChannel(w, ss, c))
  }

  /** The same for the entries of channel tc. */
  ghost predicate StalestEntry(w: World, ss: seq<Step>, tc: string, v: string, now: Time)
    requires forall k | 0 <= k < |ss| :: Reading(ss[k].now)
  {
    && Find(Run(w, ss).reg, tc, v).Some?
    && (forall a | Find(Run(w, ss).reg, tc, a).Some? ::
          Banned(Find(Run(w, ss).reg, tc, v).value, now) ==> Banned(Find(Run(w, ss).reg, tc, a).value, now))
    && (forall a | Find(Run(w, ss).reg, tc, a).Some? &&
                   Banned(Find(Run(w, ss).reg, tc, a).value, now) == Banned(Find(Run(w, ss).reg, tc, v).value, now) ::
          LastOnPair(w, ss, tc, v) <= LastOnPair(w, ss, tc, a))
  }

  lemma FetchedChannels(w: World, tc: string, ta: string, now: Time, dropChannel: string, dropEntry: string)
    requires tc !in w.reg.chans && dropChannel != ""
    ensures Fetch(w, tc, ta, now, dropChannel, dropEntry).reg.chans.Keys == w.reg.chans.Keys - {dropChannel} + {tc}
  {
  }

  /** A full registry that hears of a new channel drops exactly one channel, the stalest one told by the run's own steps. */
  lemma EvictedChannelIsStalest(p: Policy, rows: Rows, ss: seq<Step>, start: Time, s: Step)
    requires LegalRun(World(NewReg(p), rows), ss, start) && LegalStep(Run(World(NewReg(p), rows), ss), s)
    requires s.event.Record? && !Ignored(Run(World(NewReg(p), rows), ss).reg, s.event.outcome)
    requires NeedsChannelRoom(Run(World(NewReg(p), rows), ss).reg, Target(s).0)
    ensures StalestChannel(World(NewReg(p), rows), ss, s.dropChannel, s.now)
    ensures Apply(Run(World(NewReg(p), rows), ss), s).world.reg.chans.Keys ==
            Run(World(NewReg(p), rows), ss).reg.chans.Keys - {s.dropChannel} + {Target(s).0}
  {
    var w := World(NewReg(p), rows);
    RunKeepsWellFormed(p, rows, ss, start);
    var u := Run(w, ss);
    assert IsChannelVictim(u.reg.chans, s.dropChannel, s.now);
    RecordShape(u, s);
    FetchedChannels(u, Target(s).0, Target(s).1, s.now, s.dropChannel, s.dropEntry);
    forall c | c in u.reg.chans ensures u.reg.chans[c].lastSeenAt == LastOnChannel(w, ss, c) {
      ChannelStampIsLastRecord(p, rows, ss, start, c);
    }
  }

  lemma FetchedEntries(w: World, tc: string, ta: string, now: Time, dropChannel: string, dropEntry: string)
    requires tc in w.reg.chans && ta !in w.reg.chans[tc].entries && dropEntry != ""
    ensures AddrsOf(Fetch(w, tc, ta, now, dropChannel, dropEntry).reg, tc) == AddrsOf(w.reg, tc) - {dropEntry} + {ta}
  {
  }

  /** A full channel that hears of a new address drops exactly one entry, the stalest one told by the run's own steps. */
  lemma EvictedEntryIsStalest(p: Policy, rows: Rows, ss: seq<Step>, start: Time, s: Step)
    requires LegalRun(World(NewReg(p), rows), ss, start) && LegalStep(Run(World(NewReg(p), rows), ss), s)
    requires s.event.Record? && !Ignored(Run(World(NewReg(p), rows), ss).reg, s.event.outcome)
    requires NeedsEntryRoom(Run(World(NewReg(p), rows), ss).reg, Target(s).0, Target(s).1)
    ensures StalestEntry(World(NewReg(p), rows), ss, Target(s).0, s.dropEntry, s.now)
    ensures AddrsOf(Apply(Run(World(NewReg(p), rows), ss), s).world.reg, Target(s).0) ==
            AddrsOf(Run(World(NewReg(p), rows), ss).reg, Target(s).0) - {s.dropEntry} + {Target(s).1}
  {
    var w := World(NewReg(p), rows);
    RunKeepsWellFormed(p, rows, ss, start);
    var u := Run(w, ss);
    var tc := Target(s).0;
    assert FetchChannel(u, tc, s.now, s.dropChannel) == u;
    assert IsEntryVictim(u.reg.chans[tc].entries, s.dropEntry, s.now);
    RecordShape(u, s);
    FetchedEntries(u, tc, Target(s).1, s.now, s.dropChannel, s.dropEntry);
    forall a | Find(u.reg, tc, a).Some? ensures Find(u.reg, tc, a).value.lastSeenAt == LastOnPair(w, ss, tc, a) {
      EntryStampIsLastRecord(p, rows, ss, start, tc, a);
    }
  }
}
