/** The in-memory proxy store, updated in place and written back to its snapshot when it has changed. */
module MemoryStores {
  import opened Clock
  import opened Scoring
  import opened PoolModel
  import opened PoolFacts
  import opened Ranking
  import opened Snapshots

  /** The table that holds the last saved snapshot. */
  class SnapshotDb {
    var saved: Snapshot

    constructor ()
      ensures saved == EMPTY_SNAPSHOT
    {
      saved := EMPTY_SNAPSHOT;
    }
  }

  class MemoryStore {
    var pool: Pool
    var dirty: bool
    const persist: SnapshotDb?

    /** A clean store is exactly what its table holds. */
    ghost predicate Valid()
      reads this, persist
    {
      Proper(pool) && (persist != null && !dirty ==> persist.saved == Encode(pool))
    }

    /** A store that keeps no snapshot, or whose snapshot has nothing in it yet. */
    constructor (persist: SnapshotDb?)
      requires persist != null ==> persist.saved == EMPTY_SNAPSHOT
      ensures Valid() && pool == EMPTY_POOL && this.persist == persist
    {
      pool := EMPTY_POOL;
      dirty := false;
      this.persist := persist;
    }

    /** A store opened on a table that an earlier store has written. */
    constructor Load(persist: SnapshotDb, ghost was: Pool)
      requires Proper(was) && persist.saved == Encode(was)
      ensures Valid() && pool == was && this.persist == persist && !dirty
    {
      pool := EMPTY_POOL;
      dirty := false;
      this.persist := persist;
      new;
      LoadRows(persist.saved.rows);
      LoadToggles(persist.saved.toggles);
      SnapshotRoundTrip(was);
    }

    method LoadRows(rows: map<string, SnapRow>)
      requires pool == EMPTY_POOL
      modifies this`pool
      ensures pool == Decode(Snapshot(rows, map[]))
    {
      var todo := rows.Keys;
      assert pool == Decode(Snapshot(RowsBut(rows, todo), map[]));
      while todo != {}
        invariant todo <= rows.Keys
        invariant pool == Decode(Snapshot(RowsBut(rows, todo), map[]))
        decreases |todo|
      {
        var a :| a in todo;
        DecodedFurther(rows, todo, a);
        LoadRow(a, rows[a]);
        todo := todo - {a};
      }
      assert RowsBut(rows, {}) == rows;
    }

    method LoadRow(a: string, r: SnapRow)
      modifies this`pool
      ensures pool == WithRow(old(pool), a, r)
    {
      pool := pool.(proxies := pool.proxies[a := Named(r.proxy, a)]);
      if r.inRaw {
        pool := pool.(raw := pool.raw + {a});
      }
      if r.inScored {
        pool := pool.(scored := pool.scored + {a});
      }
      if WasRetrying(r) {
        pool := pool.(retry := pool.retry[a := RetryDue(r.proxy.failCount, r.proxy.lastCheck)]);
      }
    }

    method LoadToggles(toggles: map<string, bool>)
      requires pool.enabled == pool.disabled == {}
      modifies this`pool
      ensures pool == old(pool).(enabled := (set n | n in toggles && toggles[n]), disabled := (set n | n in toggles && !toggles[n]))
    {
      var enabled, disabled := pool.enabled, pool.disabled;
      var todo := toggles.Keys;
      while todo != {}
        invariant todo <= toggles.Keys
        invariant enabled == set n | n in toggles && n !in todo && toggles[n]
        invariant disabled == set n | n in toggles && n !in todo && !toggles[n]
        decreases |todo|
      {
        var n :| n in todo;
        if toggles[n] {
          enabled, disabled := enabled + {n}, disabled - {n};
        } else {
          disabled, enabled := disabled + {n}, enabled - {n};
        }
        todo := todo - {n};
      }
      pool := pool.(enabled := enabled, disabled := disabled);
    }

    method MarkDirty()
      modifies this`dirty
      ensures dirty == (old(dirty) || persist != null)
    {
      if persist != null {
        dirty := true;
      }
    }

    /** Saves the pool if it has changed; a save that fails leaves the old snapshot and the dirty flag. */
    method FlushSnapshot(saveSucceeds: bool)
      requires Valid()
      modifies this`dirty, persist
      ensures Valid() && pool == old(pool)
      ensures persist != null && (saveSucceeds || !old(dirty)) ==> Decode(persist.saved) == pool && !dirty
      ensures persist != null && !saveSucceeds ==> persist.saved == old(persist.saved) && dirty == old(dirty)
    {
      if persist == null || !dirty {
        if persist != null {
          SnapshotRoundTrip(pool);
        }
        return;
      }
      dirty := false;
      if saveSucceeds {
        persist.saved := Encode(pool);
        SnapshotRoundTrip(pool);
      } else {
        dirty := true;
      }
    }

    method InsertAll(ps: seq<Proxy>, now: Time) returns (added: nat)
      modifies this`pool
      ensures pool == InsertedAll(old(pool), ps, now)
      ensures added == AddedCount(old(pool), ps, now)
    {
      added := 0;
      for i := 0 to |ps|
        invariant pool == InsertedAll(old(pool), ps[..i], now)
        invariant added == AddedCount(old(pool), ps[..i], now)
      {
        assert ps[..i + 1][..i] == ps[..i];
        var p := ps[i];
        if p.addr == "" || p.addr in pool.proxies {
          continue;
        }
        if |pool.raw| >= MAX_RAW && |pool.scored| > 50 {
          continue;
        }
        pool := pool.(proxies := pool.proxies[p.addr := Registered(p, now)], raw := pool.raw + {p.addr});
        added := added + 1;
      }
      assert ps[..|ps|] == ps;
    }

    /** Takes the first n of a listing out of every set. */
    method Remove(addrs: seq<string>, n: nat) returns (ghost gone: set<string>)
      requires n <= |addrs|
      modifies this`pool
      ensures gone == ToSet(addrs[..n])
      ensures pool == Without(old(pool), gone)
    {
      gone := {};
      for i := 0 to n
        invariant gone == ToSet(addrs[..i])
        invariant pool == Without(old(pool), gone)
      {
        var a := addrs[i];
        assert addrs[..i + 1] == addrs[..i] + [a];
        pool := pool.(proxies := pool.proxies - {a}, raw := pool.raw - {a}, retry := pool.retry - {a}, scored := pool.scored - {a});
        gone := gone + {a};
      }
    }

    /** Brings one of the sets down to its cap, lowest rank first. */
    method EvictExcess(all: set<string>, cap: nat, rank: map<string, real>) returns (ghost gone: set<string>)
      requires all <= rank.Keys
      modifies this`pool
      ensures Excess(gone, all, cap, rank)
      ensures pool == Without(old(pool), gone)
    {
      gone := {};
      if |all| > cap {
        var addrs := SortByRank(all, rank);
        gone := Remove(addrs, |all| - cap);
        FirstAreLowest(addrs, |all| - cap, rank);
        assert ToSet(addrs) == all;
      }
    }

    /** Adds untested proxies and drops the oldest untested ones that exceed the cap. */
    method AddRaw(ps: seq<Proxy>, now: Time) returns (added: nat, ghost gone: set<string>)
      requires Valid() && forall i | 0 <= i < |ps| :: Untested(ps[i])
      modifies this
      ensures Valid()
      ensures added == AddedCount(old(pool), ps, now)
      ensures LegalAdd(old(pool), ps, now, gone)
      ensures pool == Without(InsertedAll(old(pool), ps, now), gone)
    {
      AddedIsProper(pool, ps, now);
      added, gone := AddAndEvict(ps, now);
      if added > 0 {
        MarkDirty();
      }
    }

    method AddAndEvict(ps: seq<Proxy>, now: Time) returns (added: nat, ghost gone: set<string>)
      requires Partitioned(InsertedAll(pool, ps, now))
      modifies this`pool
      ensures added == AddedCount(old(pool), ps, now)
      ensures LegalAdd(old(pool), ps, now, gone)
      ensures pool == Without(InsertedAll(old(pool), ps, now), gone)
    {
      added := InsertAll(ps, now);
      gone := EvictExcess(pool.raw, MAX_RAW, AgeRank(pool));
    }

    /** Moves or deletes one address for one verdict. */
    method FileVerdict(addr: string, latencyMS: int, ok: bool, now: Time)
      requires addr in pool.proxies
      modifies this`pool
      ensures pool == Marked(old(pool), addr, latencyMS, ok, now)
    {
      ghost var was := pool;
      var p := pool.proxies[addr];
      var wasLive := p.validated;
      p := p.(lastCheck := now, updatedAt := now, latencyMS := Smooth(p.latencyMS, latencyMS));
      if ok {
        var quality := Quality(p.latencyMS);
        if wasLive {
          p := p.(score := Blend(p.score, quality));
        } else {
          p := p.(score := quality);
        }
        p := p.(validated := true, failCount := 0);
        assert p == Passed(was.proxies[addr], latencyMS, now);
        pool := pool.(proxies := pool.proxies[addr := p], raw := pool.raw - {addr}, retry := pool.retry - {addr},
                      scored := pool.scored + {addr});
        return;
      }
      p := p.(failCount := p.failCount + 1, score := p.score - 1.0);
      if p.score <= 0.0 {
        p := p.(score := 0.0);
      }
      p := p.(validated := false);
      assert p == Failed(was.proxies[addr], latencyMS, now);
      if !wasLive || p.failCount >= FAIL_DELETE_AFTER || p.score <= 0.0 {
        pool := pool.(proxies := pool.proxies - {addr}, raw := pool.raw - {addr}, retry := pool.retry - {addr}, scored := pool.scored - {addr});
      } else {
        pool := pool.(proxies := pool.proxies[addr := p], raw := pool.raw - {addr}, scored := pool.scored - {addr},
                      retry := pool.retry[addr := RetryDue(p.failCount, now)]);
      }
    }

    /** Files the verdict of one check. */
    method MarkValidated(addr: string, latencyMS: int, ok: bool, now: Time) returns (found: bool)
      requires Valid()
      modifies this
      ensures Valid()
      ensures found == (addr in old(pool).proxies)
      ensures pool == Marked(old(pool), addr, latencyMS, ok, now)
    {
      MarkedIsProper(pool, addr, latencyMS, ok, now);
      found := addr in pool.proxies;
      if found {
        FileVerdict(addr, latencyMS, ok, now);
        MarkDirty();
      }
    }

    method DropEverywhere(addr: string)
      modifies this`pool
      ensures pool == Without(old(pool), {addr})
    {
      pool := pool.(proxies := pool.proxies - {addr}, raw := pool.raw - {addr}, retry := pool.retry - {addr}, scored := pool.scored - {addr});
    }

    method Delete(addr: string)
      requires Valid()
      modifies this
      ensures Valid()
      ensures pool == Without(old(pool), {addr})
    {
      WithoutIsProper(pool, {addr});
      DropEverywhere(addr);
      MarkDirty();
    }

    method RemoveRetrying()
      modifies this`pool
      ensures pool == Without(old(pool), old(pool).retry.Keys)
    {
      ghost var was := pool;
      ghost var gone: set<string> := {};
      var todo := pool.retry.Keys;
      NothingGone(was);
      while todo != {}
        invariant todo !! gone && todo + gone == was.retry.Keys
        invariant pool == Without(was, gone)
        decreases |todo|
      {
        var addr :| addr in todo;
        WithoutTwice(was, gone, {addr});
        pool := pool.(proxies := pool.proxies - {addr}, raw := pool.raw - {addr}, retry := pool.retry - {addr}, scored := pool.scored - {addr});
        gone := gone + {addr};
        todo := todo - {addr};
      }
      assert gone == was.retry.Keys;
    }

    /** Deletes every address that waits for a retry. */
    method PurgeRetry() returns (n: nat)
      requires Valid()
      modifies this
      ensures Valid()
      ensures n == |old(pool).retry| && pool.retry == map[]
      ensures pool == Without(old(pool), old(pool).retry.Keys)
    {
      WithoutIsProper(pool, pool.retry.Keys);
      NothingGone(pool);
      n := |pool.retry|;
      assert n == 0 ==> pool.retry.Keys == {};
      RemoveRetrying();
      if n > 0 {
        MarkDirty();
      }
    }

    /** Brings the three sets down to their caps. */
    method Trim() returns (ghost oldest: set<string>, ghost worst: set<string>, ghost latest: set<string>)
      requires Valid()
      modifies this
      ensures Valid()
      ensures Partitioned(old(pool)) && LegalTrim(old(pool), oldest, worst, latest)
      ensures pool == Without(old(pool), oldest + worst + latest)
      ensures |pool.raw| <= MAX_RAW && |pool.scored| <= MAX_VALIDATED && |pool.retry| <= MAX_RETRY
    {
      ghost var was := pool;
      oldest := EvictExcess(pool.raw, MAX_RAW, AgeRank(pool));
      RanksAgree(was, oldest);
      worst := EvictExcess(pool.scored, MAX_VALIDATED, ScoreRank(pool));
      RanksAgree(was, oldest + worst);
      latest := EvictExcess(pool.retry.Keys, MAX_RETRY, DueRank(pool));
      TrimmedInTurn(was, oldest, worst, latest);
      WithoutTwice(was, oldest, worst);
      WithoutTwice(was, oldest + worst, latest);
      TrimmedIsWithinCaps(was, oldest, worst, latest);
      WithoutIsProper(was, oldest + worst + latest);
      MarkDirty();
    }

    method Count() returns (total: nat, validated: nat, untested: nat)
      ensures total == |pool.proxies| && validated == |pool.scored| && untested == |pool.raw|
    {
      return |pool.proxies|, |pool.scored|, |pool.raw|;
    }

    method SetScraperEnabled(name: string, on: bool)
      requires Valid()
      modifies this
      ensures Valid()
      ensures pool == Switched(old(pool), name, on)
    {
      if on {
        pool := pool.(disabled := pool.disabled - {name}, enabled := pool.enabled + {name});
      } else {
        pool := pool.(enabled := pool.enabled - {name}, disabled := pool.disabled + {name});
      }
      MarkDirty();
    }

    method UpdateRegion(addr: string, region: string, now: Time) returns (found: bool)
      requires Valid()
      modifies this
      ensures Valid()
      ensures found == (addr in old(pool).proxies)
      ensures pool == RegionSet(old(pool), addr, region, now)
    {
      RegionIsProper(pool, addr, region, now);
      found := addr in pool.proxies;
      if found {
        SetRegion(addr, region, now);
        MarkDirty();
      }
    }

    method SetRegion(addr: string, region: string, now: Time)
      requires addr in pool.proxies
      modifies this`pool
      ensures pool == RegionSet(old(pool), addr, region, now)
    {
      pool := pool.(proxies := pool.proxies[addr := pool.proxies[addr].(region := region, updatedAt := now)]);
    }
  }
}
