/** The registry and its table as objects that change in place; every method is proved against the model. */
module Registries {
  import opened Clock
  import opened Wrappers
  import opened Window
  import opened Policies
  import opened BanLadder
  import opened RegistryModel

  /** The table of persisted bans, keyed by channel and address. */
  class SqlStore {
    var rows: Rows

    constructor ()
      ensures rows == map[]
    {
      rows := map[];
    }

    method SaveBan(b: Ban)
      modifies this
      ensures rows == old(rows)[(b.channel, b.addr) := b]
    {
      rows := rows[(b.channel, b.addr) := b];
    }

    method DeleteBan(channel: string, addr: string)
      modifies this
      ensures rows == WithoutPair(old(rows), channel, addr)
    {
      rows := rows - {(channel, addr)};
    }

    method DeleteChannel(channel: string)
      modifies this
      ensures rows == WithoutChannel(old(rows), channel)
    {
      rows := map k | k in rows && k.0 != channel :: rows[k];
    }

    /** Clears out the rows that have expired and returns the others. */
    method LoadBans(now: Time) returns (bans: seq<Ban>)
      requires Keyed(rows)
      modifies this
      ensures rows == Unexpired(old(rows), now)
      ensures Lists(bans, rows)
    {
      rows := map k | k in rows && rows[k].until > now :: rows[k];
      bans := [];
      var todo := rows.Keys;
      while todo != {}
        invariant todo <= rows.Keys
        invariant forall i | 0 <= i < |bans| :: KeyOf(bans[i]) in rows.Keys - todo && rows[KeyOf(bans[i])] == bans[i]
        invariant forall i, j | 0 <= i < j < |bans| :: KeyOf(bans[i]) != KeyOf(bans[j])
        invariant forall k | k in rows.Keys - todo :: rows[k] in bans
        decreases |todo|
      {
        var k :| k in todo;
        var b := rows[k];
        bans := bans + [b.(ttlSec := TruncSeconds(b.until - b.bannedAt))];
        todo := todo - {k};
      }
    }
  }

  /** Names are never empty, so that the empty name can stand for "no victim". */
  predicate NamesNonEmpty(chans: map<string, Channel>) {
    "" !in chans && forall c | c in chans :: "" !in chans[c].entries
  }

  predicate HasAllow(allows: map<string, set<string>>, c: string, a: string) {
    c in allows && a in allows[c]
  }

  function BannedAddrs(ch: Channel, now: Time): set<string> {
    set a | a in ch.entries && Banned(ch.entries[a], now)
  }

  lemma BannedAddrsShow(ch: Channel, now: Time)
    ensures |BannedAddrs(ch, now)| > 0 <==> HasBans(ch, now)
  {
    if HasBans(ch, now) {
      var a :| a in ch.entries && Banned(ch.entries[a], now);
      assert a in BannedAddrs(ch, now);
    }
    if a :| a in BannedAddrs(ch, now) {
      assert a in ch.entries && Banned(ch.entries[a], now);
    }
  }

  /** How many entries of a channel are banned. */
  method ActiveBans(ch: Channel, now: Time) returns (n: nat)
    ensures n == |BannedAddrs(ch, now)|
    ensures n > 0 <==> HasBans(ch, now)
  {
    n := 0;
    var todo := ch.entries.Keys;
    ghost var counted: set<string> := {};
    while todo != {}
      invariant todo <= ch.entries.Keys && n == |counted|
      invariant counted == set a | a in ch.entries && a !in todo && Banned(ch.entries[a], now)
      decreases |todo|
    {
      var a :| a in todo;
      if Banned(ch.entries[a], now) {
        n := n + 1;
        counted := counted + {a};
      }
      todo := todo - {a};
    }
    assert counted == BannedAddrs(ch, now);
    BannedAddrsShow(ch, now);
  }

  /** Scans the channels for the stalest one without bans, and the stalest one with bans as a fallback. */
  method ChooseChannel(chans: map<string, Channel>, now: Time) returns (victim: string)
    requires |chans| > 0 && "" !in chans
    ensures IsChannelVictim(chans, victim, now)
  {
    victim := "";
    var fallback := "";
    var todo := chans.Keys;
    assert todo != {};
    while todo != {}
      invariant todo <= chans.Keys
      invariant victim != "" ==> victim in chans.Keys - todo && !HasBans(chans[victim], now)
      invariant fallback != "" ==> fallback in chans.Keys - todo && HasBans(chans[fallback], now)
      invariant forall c | c in chans.Keys - todo ::
        if HasBans(chans[c], now) then fallback != "" && chans[fallback].lastSeenAt <= chans[c].lastSeenAt
        else victim != "" && chans[victim].lastSeenAt <= chans[c].lastSeenAt
      decreases |todo|
    {
      var name :| name in todo;
      var n := ActiveBans(chans[name], now);
      if n > 0 {
        if fallback == "" || chans[name].lastSeenAt < chans[fallback].lastSeenAt {
          fallback := name;
        }
      } else if victim == "" || chans[name].lastSeenAt < chans[victim].lastSeenAt {
        victim := name;
      }
      todo := todo - {name};
    }
    assert chans.Keys - todo == chans.Keys;
    if victim == "" {
      victim := fallback;
    }
  }

  /** The same scan over the entries of one channel. */
  method ChooseEntry(entries: map<string, Entry>, now: Time) returns (victim: string)
    requires |entries| > 0 && "" !in entries
    ensures IsEntryVictim(entries, victim, now)
  {
    victim := "";
    var fallback := "";
    var todo := entries.Keys;
    assert todo != {};
    while todo != {}
      invariant todo <= entries.Keys
      invariant victim != "" ==> victim in entries.Keys - todo && !Banned(entries[victim], now)
      invariant fallback != "" ==> fallback in entries.Keys - todo && Banned(entries[fallback], now)
      invariant forall a | a in entries.Keys - todo ::
        if Banned(entries[a], now) then fallback != "" && entries[fallback].lastSeenAt <= entries[a].lastSeenAt
        else victim != "" && entries[victim].lastSeenAt <= entries[a].lastSeenAt
      decreases |todo|
    {
      var addr :| addr in todo;
      if Banned(entries[addr], now) {
        if fallback == "" || entries[addr].lastSeenAt < entries[fallback].lastSeenAt {
          fallback := addr;
        }
      } else if victim == "" || entries[addr].lastSeenAt < entries[victim].lastSeenAt {
        victim := addr;
      }
      todo := todo - {addr};
    }
    assert entries.Keys - todo == entries.Keys;
    if victim == "" {
      victim := fallback;
    }
  }

  ghost function Stale(ch: Channel, now: Time, p: Policy): set<string> {
    set a | a in ch.entries && Sweepable(ch.entries[a], now, p)
  }

  ghost function RowsWithout(rows: Rows, c: string, gone: set<string>): Rows {
    map k | k in rows && !(k.0 == c && k.1 in gone) :: rows[k]
  }

  lemma RowsWithoutOneMore(rows: Rows, c: string, gone: set<string>, a: string)
    ensures WithoutPair(RowsWithout(rows, c, gone), c, a) == RowsWithout(rows, c, gone + {a})
  {
  }

  lemma MinusOneMore(entries: map<string, Entry>, gone: set<string>, a: string)
    ensures (entries - gone) - {a} == entries - (gone + {a})
  {
  }

  /** Drops the entries of one channel that carry no live data, and their rows. */
  method SweepChannel(name: string, ch: Channel, now: Time, p: Policy, persist: SqlStore?) returns (kept: Channel)
    modifies persist
    ensures kept == Kept(ch, now, p)
    ensures persist != null ==> persist.rows == RowsWithout(old(persist.rows), name, Stale(ch, now, p))
  {
    var entries := ch.entries;
    var todo := ch.entries.Keys;
    ghost var gone: set<string> := {};
    while todo != {}
      invariant todo <= ch.entries.Keys
      invariant gone <= ch.entries.Keys - todo
      invariant forall a | a in ch.entries.Keys - todo :: a in gone <==> Sweepable(ch.entries[a], now, p)
      invariant entries == ch.entries - gone
      invariant persist != null ==> persist.rows == RowsWithout(old(persist.rows), name, gone)
      decreases |todo|
    {
      var addr :| addr in todo;
      if Sweepable(ch.entries[addr], now, p) {
        MinusOneMore(ch.entries, gone, addr);
        entries := entries - {addr};
        if persist != null {
          RowsWithoutOneMore(old(persist.rows), name, gone, addr);
          persist.DeleteBan(name, addr);
        }
        gone := gone + {addr};
      }
      todo := todo - {addr};
    }
    kept := ch.(entries := entries);
    assert gone == Stale(ch, now, p);
    assert kept.entries == Kept(ch, now, p).entries;
  }

  class Registry {
    var chans: map<string, Channel>
    var policy: Policy
    var allows: map<string, set<string>>
    var rules: seq<Rule>
    const persist: SqlStore?

    function Value(): Reg
      reads this
    {
      Reg(chans, policy, allows, rules)
    }

    /** The registry and its table; a registry without one keeps no rows. */
    function Whole(): World
      reads this, persist
    {
      World(Value(), if persist == null then map[] else persist.rows)
    }

    ghost predicate Valid()
      reads this
    {
      InRange(policy) && NamesNonEmpty(chans)
    }

    /** The present state is w, as far as there is a table to hold its rows. */
    ghost predicate Is(w: World)
      reads this, persist
    {
      Value() == w.reg && (persist != null ==> persist.rows == w.rows)
    }

    constructor (p: Policy, persist: SqlStore?)
      ensures Valid() && Value() == NewReg(p) && this.persist == persist
    {
      chans, policy, allows, rules := map[], Normalize(p), map[], [];
      this.persist := persist;
      new;
      NormalizeRepairs(p);
    }

    /** Fetches or creates a channel, evicting one when over the cap. */
    method ChannelLocked(name: string, now: Time) returns (dropped: string)
      requires Valid() && name != ""
      modifies this, persist
      ensures Valid() && name in chans
      ensures LegalChannelDrop(old(Value()), name, now, dropped)
      ensures Is(FetchChannel(old(Whole()), name, now, dropped))
    {
      dropped := "";
      if name in chans {
        return;
      }
      if |chans| >= policy.maxChannels {
        dropped := ChooseChannel(chans, now);
        if persist != null {
          persist.DeleteChannel(dropped);
        }
        chans := chans - {dropped};
      }
      chans := chans[name := Channel(map[], now, 0)];
    }

    /** Fetches or creates a pair's entry, evicting one within the channel when over the cap. */
    method EntryLocked(name: string, addr: string, now: Time) returns (dropped: string)
      requires Valid() && name in chans && addr != ""
      modifies this, persist
      ensures Valid() && Find(Value(), name, addr).Some?
      ensures LegalEntryDrop(old(Value()), name, addr, now, dropped)
      ensures Is(FetchEntry(old(Whole()), name, addr, now, dropped))
    {
      dropped := "";
      var ch := chans[name];
      if addr in ch.entries {
        return;
      }
      var entries := ch.entries;
      if |entries| >= policy.maxEntriesPerChan {
        dropped := ChooseEntry(entries, now);
        if persist != null {
          persist.DeleteBan(name, dropped);
        }
        entries := entries - {dropped};
      }
      chans := chans[name := ch.(entries := entries[addr := Fresh(now)])];
    }

    /** Whether the pair is to be banned for what its counters now say, and why. */
    method Evaluate(name: string, e: Entry, o: Outcome, now: Time) returns (hit: Option<Hit>)
      ensures hit == Verdict(e, Value(), name, o.addr, o, now)
    {
      if Allowed(Value(), name, o.addr) {
        return None;
      }
      if Banned(e, now) {
        return None;
      }
      var ev := EvidenceOf(e.counters, now, policy);
      if BansStatus(policy, o.status) {
        return Some(Hit(ByStatus(o.status), None));
      }
      if policy.consecutiveFails > 0 && ev.streak >= policy.consecutiveFails {
        return Some(Hit(ByConsecutiveFails, None));
      }
      if policy.timeoutFails > 0 && ev.timeout >= policy.timeoutFails {
        return Some(Hit(ByTimeouts, None));
      }
      if policy.failRate > 0.0 && RateReached(ev, policy.minSamples, policy.failRate) {
        return Some(Hit(ByFailRate, None));
      }
      hit := FindRule(rules, name, o, ev);
    }

    /** Files the outcome in the pair's entry and passes sentence if a rule fires. */
    method Judge(name: string, e: Entry, o: Outcome, now: Time) returns (after: Entry, ban: Option<Ban>)
      requires now != 0
      ensures after == Judged(e, Value(), name, o.addr, o, now)
      ensures ban == NewBan(e, Value(), name, o.addr, o, now)
    {
      after := e.(lastSeenAt := now, counters := RecordedBy(e.counters, o, now, policy));
      if o.ok && after.pendingReprobe {
        after := Released(after);
      }
      assert after == Observed(e, o, now, policy);
      var hit := Evaluate(name, after, o, now);
      if hit.None? {
        return after, None;
      }
      var strikes := after.strikes;
      if after.lastBanAt != 0 && now - after.lastBanAt > IdleReset(policy) {
        strikes := 0;
      }
      var ttl := ComputeBanTTL(policy.banTTLSec, policy.banTTLMaxSec, strikes);
      if hit.value.rule.Some? {
        ttl := RuleTTL(hit.value.rule.value, policy);
      }
      after := after.(strikes := strikes + 1,
                      bannedUntil := now + ttl,
                      banReason := Some(Reason(hit.value.cause, o.reported)),
                      lastBanAt := now,
                      pendingReprobe := policy.reprobeOnExpiry);
      ban := Some(Ban(name, o.addr, after.banReason, now, after.bannedUntil, after.strikes, TruncSeconds(ttl)));
    }

    /** The part of Record that runs under the lock, for an outcome that is not ignored. */
    method RecordLocked(name: string, o: Outcome, now: Time)
      returns (ban: Option<Ban>, dropChannel: string, dropEntry: string)
      requires Valid() && now != 0 && name != "" && o.addr != ""
      modifies this, persist
      ensures Valid()
      ensures LegalDrops(old(Whole()), name, o.addr, now, dropChannel, dropEntry)
      ensures ban == RecordFetched(Fetch(old(Whole()), name, o.addr, now, dropChannel, dropEntry), name, o, now).ban
      ensures Is(RecordFetched(Fetch(old(Whole()), name, o.addr, now, dropChannel, dropEntry), name, o, now).world)
    {
      dropChannel := ChannelLocked(name, now);
      dropEntry := EntryLocked(name, o.addr, now);
      ban := FileOutcome(name, o, now);
    }

    /** Updates the fetched entry and its channel, and saves the ban if there is one. */
    method FileOutcome(name: string, o: Outcome, now: Time) returns (ban: Option<Ban>)
      requires Valid() && now != 0 && Find(Value(), name, o.addr).Some?
      modifies this, persist
      ensures Valid()
      ensures ban == RecordFetched(old(Whole()), name, o, now).ban
      ensures Is(RecordFetched(old(Whole()), name, o, now).world)
    {
      var ch := chans[name];
      var after;
      after, ban := Judge(name, ch.entries[o.addr], o, now);
      chans := chans[name := Channel(ch.entries[o.addr := after], now, if ban.Some? then now else ch.lastBanAt)];
      if ban.Some? && persist != null {
        persist.SaveBan(ban.value);
      }
    }

    method Record(o: Outcome, now: Time) returns (ban: Option<Ban>)
      requires Valid() && Reading(now)
      modifies this, persist
      ensures Valid()
      ensures exists dropChannel, dropEntry ::
        && LegalStep(old(Whole()), Step(now, Event.Record(o), dropChannel, dropEntry))
        && ban == RecordIn(old(Whole()), o, now, dropChannel, dropEntry).ban
        && Is(RecordIn(old(Whole()), o, now, dropChannel, dropEntry).world)
    {
      ghost var was := Whole();
      var dropChannel, dropEntry := "", "";
      if o.addr == "" || !policy.enabled {
        ban := None;
      } else {
        ban, dropChannel, dropEntry := RecordLocked(TargetChannel(o), o, now);
      }
      assert LegalStep(was, Step(now, Event.Record(o), dropChannel, dropEntry));
    }

    /** Reinstates persisted bans; the allowlist is not consulted. */
    method Restore(bans: seq<Ban>, now: Time) returns (n: nat)
      requires Valid() && forall i | 0 <= i < |bans| :: bans[i].addr != ""
      modifies this, persist
      ensures Valid()
      ensures exists drops: seq<(string, string)> ::
        |drops| == |bans| && LegalRestore(old(Whole()), bans, now, drops) && Is(RestoreAll(old(Whole()), bans, now, drops))
      ensures n == |StillRunning(bans, now)|
    {
      n := 0;
      ghost var was := Whole();
      ghost var drops: seq<(string, string)> := [];
      assert Is(RestoreAll(was, bans[..0], now, drops));
      for i := 0 to |bans|
        invariant Valid() && |drops| == i && n == |StillRunning(bans[..i], now)|
        invariant LegalRestore(was, bans[..i], now, drops)
        invariant Is(RestoreAll(was, bans[..i], now, drops))
      {
        ghost var before := RestoreAll(was, bans[..i], now, drops);
        assert bans[..i + 1][..i] == bans[..i];
        var dropChannel, dropEntry := "", "";
        if !(bans[i].until == 0 || bans[i].until <= now) && bans[i].channel != "" {
          ghost var mid := Whole();
          dropChannel, dropEntry := Reinstate(bans[i], now);
          n := n + 1;
          RestoreReadsRegistry(before, mid, bans[i], now, dropChannel, dropEntry);
        }
        ghost var longer := drops + [(dropChannel, dropEntry)];
        assert longer[..i] == drops;
        drops := longer;
      }
      assert bans[..|bans|] == bans;
    }

    /** Puts one persisted ban back in force. */
    method Reinstate(b: Ban, now: Time) returns (dropChannel: string, dropEntry: string)
      requires Valid() && b.addr != "" && !Skipped(b, now)
      modifies this, persist
      ensures Valid()
      ensures LegalDrops(old(Whole()), b.channel, b.addr, now, dropChannel, dropEntry)
      ensures Is(RestoreOne(old(Whole()), b, now, dropChannel, dropEntry))
    {
      dropChannel := ChannelLocked(b.channel, now);
      dropEntry := EntryLocked(b.channel, b.addr, now);
      var ch := chans[b.channel];
      var e := ch.entries[b.addr].(bannedUntil := b.until, banReason := b.reason, strikes := b.strikes, lastBanAt := b.bannedAt);
      chans := chans[b.channel := Channel(ch.entries[b.addr := e], ch.lastSeenAt, if b.until > ch.lastBanAt then b.bannedAt else ch.lastBanAt)];
    }

    /** Puts stored allows back. No ban is lifted for them. */
    method RestoreAllows(items: seq<(string, string)>)
      requires Valid()
      modifies this`allows
      ensures Valid() && Value() == old(Value()).(allows := allows)
      ensures forall c, a :: HasAllow(allows, c, a) <==> HasAllow(old(allows), c, a) || (a != "" && (c, a) in items)
    {
      for i := 0 to |items|
        invariant forall c, a :: HasAllow(allows, c, a) <==> HasAllow(old(allows), c, a) || (a != "" && (c, a) in items[..i])
      {
        var (c, a) := items[i];
        assert items[..i + 1] == items[..i] + [items[i]];
        if a == "" {
          continue;
        }
        allows := Protected(allows, c, a);
      }
      assert items[..|items|] == items;
    }

    /** Replaces the custom rules, in the order in which they are tried. */
    method RestoreRules(items: seq<Rule>)
      requires Valid()
      modifies this`rules
      ensures Valid()
      ensures Value() == old(Value()).(rules := items)
    {
      rules := items;
    }

    /** Selection's question, one pair at a time. */
    method BannedNow(channel: string, addr: string, now: Time) returns (banned: bool)
      ensures banned == IsBanned(Value(), channel, addr, now)
    {
      if channel == "" || addr == "" {
        return false;
      }
      if !policy.enabled {
        return false;
      }
      if channel !in chans {
        return false;
      }
      if addr !in chans[channel].entries {
        return false;
      }
      return Banned(chans[channel].entries[addr], now);
    }

    /** The bulk form of BannedNow: selection trusts it for a whole pick. */
    method BanSet(channel: string, now: Time) returns (out: map<string, Time>)
      ensures out == BanSetOf(Value(), channel, now)
      ensures channel != "" ==> forall a | a != "" :: a in out <==> IsBanned(Value(), channel, a, now)
    {
      out := map[];
      if channel == "" || !policy.enabled || channel !in chans {
        return;
      }
      var entries := chans[channel].entries;
      var todo := entries.Keys;
      while todo != {}
        invariant todo <= entries.Keys
        invariant out == map a | a in entries && a !in todo && Banned(entries[a], now) :: entries[a].bannedUntil
        decreases |todo|
      {
        var a :| a in todo;
        if Banned(entries[a], now) {
          out := out[a := entries[a].bannedUntil];
        }
        todo := todo - {a};
      }
      assert out == BanSetOf(Value(), channel, now);
    }

    /** Hot-applies a policy; a new window length drops every counter, bans are kept. */
    method SetPolicy(p: Policy)
      requires Valid()
      modifies this`policy, this`chans
      ensures Valid()
      ensures Value() == WithPolicy(old(Value()), p)
    {
      var n := Normalize(p);
      NormalizeRepairs(p);
      var windowChanged := policy.windowSec != n.windowSec;
      policy := n;
      if windowChanged {
        var was := chans;
        var todo := chans.Keys;
        while todo != {}
          invariant todo <= was.Keys
          invariant chans == map c | c in was :: if c in todo then was[c] else CountersDropped(was[c])
          invariant NamesNonEmpty(was) && policy == n
          decreases |todo|
        {
          var c :| c in todo;
          chans := chans[c := CountersDropped(chans[c])];
          todo := todo - {c};
        }
        assert chans == WithPolicy(old(Value()), p).chans;
      }
    }

    /** Clears one ban and the streak; the strike ladder is kept. */
    method Unban(channel: string, addr: string) returns (released: bool)
      requires Valid()
      modifies this`chans, persist
      ensures Valid()
      ensures released == Clearable(old(Value()), channel, addr)
      ensures Is(UnbanIn(old(Whole()), channel, addr))
    {
      if channel !in chans || addr !in chans[channel].entries {
        return false;
      }
      var ch := chans[channel];
      var e := ch.entries[addr];
      if e.bannedUntil == 0 && !e.pendingReprobe {
        return false;
      }
      e := Released(e).(counters := StreakCleared(e.counters));
      chans := chans[channel := ch.(entries := ch.entries[addr := e])];
      if persist != null {
        persist.DeleteBan(channel, addr);
      }
      return true;
    }

    method ResetChannel(channel: string) returns (known: bool)
      requires Valid()
      modifies this`chans, persist
      ensures Valid()
      ensures known == (channel in old(chans))
      ensures Is(ResetIn(old(Whole()), channel))
    {
      known := channel in chans;
      if known {
        chans := chans[channel := chans[channel].(entries := map[], lastBanAt := 0)];
        if persist != null {
          persist.DeleteChannel(channel);
        }
      }
    }

    method DeleteChannel(channel: string) returns (known: bool)
      requires Valid()
      modifies this`chans, persist
      ensures Valid()
      ensures known == (channel in old(chans))
      ensures Is(DeleteIn(old(Whole()), channel))
    {
      known := channel in chans;
      if known {
        chans := chans - {channel};
        if persist != null {
          persist.DeleteChannel(channel);
        }
      }
    }

    /** Drops entries that carry no live data, and then channels left empty and idle. */
    method SweepNow(now: Time)
      requires Valid()
      modifies this`chans, persist
      ensures Valid()
      ensures Is(SweepIn(old(Whole()), now))
    {
      ghost var was := Whole();
      var before := chans;
      var todo := chans.Keys;
      while todo != {}
        invariant todo <= before.Keys
        invariant Value().(chans := before) == was.reg
        invariant chans == PartlySwept(before, todo, now, policy)
        invariant persist != null ==> persist.rows == RowsPartlySwept(was, todo, now)
        decreases |todo|
      {
        var name :| name in todo;
        RowsSweptFurther(was, todo, name, now);
        SweptFurther(before, todo, name, now, policy);
        var kept := SweepChannel(name, chans[name], now, policy, persist);
        if |kept.entries| == 0 && now - kept.lastSeenAt > IdleReset(policy) {
          chans := chans - {name};
        } else {
          chans := chans[name := kept];
        }
        todo := todo - {name};
      }
      NothingLeftToSweep(was, now);
    }

    /** Releases an address on every channel that tracks it. */
    method ReleaseEverywhere(addr: string)
      requires NamesNonEmpty(chans)
      modifies this`chans
      ensures NamesNonEmpty(chans)
      ensures chans == map k | k in old(chans) :: ReleasedIn(old(chans)[k], addr)
    {
      var todo := chans.Keys;
      while todo != {}
        invariant todo <= old(chans).Keys
        invariant chans == map k | k in old(chans) :: if k in todo then old(chans)[k] else ReleasedIn(old(chans)[k], addr)
        decreases |todo|
      {
        var c :| c in todo;
        chans := chans[c := ReleasedIn(chans[c], addr)];
        todo := todo - {c};
      }
    }

    /** Protects an address from automatic bans and releases it if it is out. */
    method Allow(channel: string, addr: string)
      requires Valid()
      modifies this`allows, this`chans, persist
      ensures Valid()
      ensures Is(AllowIn(old(Whole()), channel, addr))
    {
      if addr == "" {
        return;
      }
      allows := Protected(allows, channel, addr);
      if channel in chans {
        chans := chans[channel := ReleasedIn(chans[channel], addr)];
      }
      if channel == "" {
        ReleaseEverywhere(addr);
      }
      assert chans == AllowIn(old(Whole()), channel, addr).reg.chans;
      if persist != null {
        persist.DeleteBan(channel, addr);
      }
    }

    method Deny(channel: string, addr: string) returns (known: bool)
      requires Valid()
      modifies this`allows
      ensures Valid()
      ensures known == (channel in old(allows) && addr in old(allows)[channel])
      ensures Value() == DenyIn(old(Value()), channel, addr)
    {
      known := false;
      if channel in allows {
        known := addr in allows[channel];
        allows := allows[channel := allows[channel] - {addr}];
      }
    }
  }

  /** The bans that Restore reinstates. */
  function StillRunning(bans: seq<Ban>, now: Time): seq<Ban> {
    if |bans| == 0 then []
    else
      var rest := StillRunning(bans[..|bans| - 1], now);
      if Skipped(bans[|bans| - 1], now) then rest else rest + [bans[|bans| - 1]]
  }

  /** What Restore does to the registry does not depend on the rows. */
  lemma RestoreReadsRegistry(w: World, v: World, b: Ban, now: Time, dropChannel: string, dropEntry: string)
    requires w.reg == v.reg
    ensures LegalDrops(w, b.channel, b.addr, now, dropChannel, dropEntry) <==>
            LegalDrops(v, b.channel, b.addr, now, dropChannel, dropEntry)
    ensures RestoreOne(w, b, now, dropChannel, dropEntry).reg == RestoreOne(v, b, now, dropChannel, dropEntry).reg
  {
  }

  ghost function PartlySwept(chans: map<string, Channel>, todo: set<string>, now: Time, p: Policy): map<string, Channel> {
    map c | c in chans && (c in todo || !ChannelSweepable(chans[c], now, p)) ::
      if c in todo then chans[c] else Kept(chans[c], now, p)
  }

  ghost function RowsPartlySwept(w: World, todo: set<string>, now: Time): Rows {
    map k | k in w.rows && (k.0 in todo || !PairSweepable(w.reg, k, now)) :: w.rows[k]
  }

  lemma NothingLeftToSweep(w: World, now: Time)
    ensures PartlySwept(w.reg.chans, {}, now, w.reg.policy) == SweepIn(w, now).reg.chans
    ensures RowsPartlySwept(w, {}, now) == SweepIn(w, now).rows
    ensures NamesNonEmpty(w.reg.chans) ==> NamesNonEmpty(SweepIn(w, now).reg.chans)
  {
  }

  lemma SweptFurther(chans: map<string, Channel>, todo: set<string>, c: string, now: Time, p: Policy)
    requires c in todo && c in chans
    ensures c in PartlySwept(chans, todo, now, p) && PartlySwept(chans, todo, now, p)[c] == chans[c]
    ensures PartlySwept(chans, todo - {c}, now, p) ==
            if ChannelSweepable(chans[c], now, p) then PartlySwept(chans, todo, now, p) - {c}
            else PartlySwept(chans, todo, now, p)[c := Kept(chans[c], now, p)]
  {
  }

  lemma RowsSweptFurther(w: World, todo: set<string>, c: string, now: Time)
    requires c in todo && c in w.reg.chans
    ensures RowsWithout(RowsPartlySwept(w, todo, now), c, Stale(w.reg.chans[c], now, w.reg.policy)) ==
            RowsPartlySwept(w, todo - {c}, now)
  {
    forall k | k in w.rows
      ensures (k.0 == c && k.1 in Stale(w.reg.chans[c], now, w.reg.policy)) <==> (k.0 == c && PairSweepable(w.reg, k, now))
    {
    }
  }
}
