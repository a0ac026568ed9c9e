/** Facts about the pool's operations that hold for every store. */
module PoolFacts {
  import opened Clock
  import opened Scoring
  import opened PoolModel
  import opened Snapshots
  import Sorting

  /** Records sit under their own address, switches exclude each other, and the untested set is within its cap. */
  ghost predicate Tidy(s: Pool) {
    Addressed(s) && Exclusive(s) && |s.raw| <= MAX_RAW && "" !in s.proxies
  }

  /** What holds of every store between calls. */
  ghost predicate Proper(s: Pool) {
    Partitioned(s) && Tidy(s)
  }

  lemma FewerRaw(s: set<string>, t: set<string>)
    ensures |s - t| <= |s|
  {
    assert s == (s - t) + (s * t);
  }

  lemma WithoutIsTidy(s: Pool, gone: set<string>)
    requires Tidy(s)
    ensures Tidy(Without(s, gone))
  {
    FewerRaw(s.raw, gone);
  }

  lemma WithoutIsProper(s: Pool, gone: set<string>)
    requires Proper(s)
    ensures Proper(Without(s, gone))
  {
    WithoutKeepsPartition(s, gone);
    WithoutIsTidy(s, gone);
  }

  lemma MarkedIsTidy(s: Pool, a: string, latencyMS: int, ok: bool, now: Time)
    requires Tidy(s)
    ensures Tidy(Marked(s, a, latencyMS, ok, now))
  {
    FewerRaw(s.raw, {a});
    WithoutIsTidy(s, {a});
  }

  lemma MarkedIsProper(s: Pool, a: string, latencyMS: int, ok: bool, now: Time)
    requires Proper(s)
    ensures Proper(Marked(s, a, latencyMS, ok, now))
  {
    MarkedKeepsPartition(s, a, latencyMS, ok, now);
    MarkedIsTidy(s, a, latencyMS, ok, now);
  }

  lemma RegionIsProper(s: Pool, a: string, region: string, now: Time)
    requires Proper(s)
    ensures Proper(RegionSet(s, a, region, now))
  {
    RegionKeepsPartition(s, a, region, now);
  }

  lemma AddedAndEvictedIsProper(s: Pool, ps: seq<Proxy>, now: Time, gone: set<string>)
    requires Tidy(s) && LegalAdd(s, ps, now, gone)
    ensures Proper(Without(InsertedAll(s, ps, now), gone))
  {
    InsertedAllIsProper(s, ps, now);
    WithoutKeepsPartition(InsertedAll(s, ps, now), gone);
    EvictedCount(InsertedAll(s, ps, now).raw, gone, MAX_RAW, AgeRank(InsertedAll(s, ps, now)));
  }

  /** Whatever eviction chooses, the pool stays proper; and if nothing was added, nothing has changed. */
  lemma AddedIsProper(s: Pool, ps: seq<Proxy>, now: Time)
    requires Proper(s) && forall i | 0 <= i < |ps| :: Untested(ps[i])
    ensures Partitioned(InsertedAll(s, ps, now))
    ensures forall gone | LegalAdd(s, ps, now, gone) ::
              && Proper(Without(InsertedAll(s, ps, now), gone))
              && (AddedCount(s, ps, now) == 0 ==> Without(InsertedAll(s, ps, now), gone) == s)
  {
    InsertedAllKeepsPartition(s, ps, now);
    forall gone | LegalAdd(s, ps, now, gone)
      ensures Proper(Without(InsertedAll(s, ps, now), gone))
      ensures AddedCount(s, ps, now) == 0 ==> Without(InsertedAll(s, ps, now), gone) == s
    {
      AddedAndEvictedIsProper(s, ps, now, gone);
      if AddedCount(s, ps, now) == 0 {
        NothingAddedNothingEvicted(s, ps, now, gone);
      }
    }
  }

  lemma SameExcess(gone: set<string>, all: set<string>, cap: nat, rank: map<string, real>, other: map<string, real>)
    requires all <= rank.Keys && all <= other.Keys && Excess(gone, all, cap, rank)
    requires forall a | a in all :: rank[a] == other[a]
    ensures Excess(gone, all, cap, other)
  {
  }

  // -- Facts about the steps --

  lemma {:induction false} InsertedAllIsProper(s: Pool, ps: seq<Proxy>, now: Time)
    requires Addressed(s) && Exclusive(s) && "" !in s.proxies
    ensures Addressed(InsertedAll(s, ps, now)) && Exclusive(InsertedAll(s, ps, now)) && "" !in InsertedAll(s, ps, now).proxies
  {
    if |ps| > 0 {
      InsertedAllIsProper(s, ps[..|ps| - 1], now);
    }
  }

  lemma {:induction false} NothingAddedNothingChanged(s: Pool, ps: seq<Proxy>, now: Time)
    ensures AddedCount(s, ps, now) == 0 ==> InsertedAll(s, ps, now) == s
  {
    if |ps| > 0 {
      NothingAddedNothingChanged(s, ps[..|ps| - 1], now);
    }
  }

  lemma EvictedCount(all: set<string>, gone: set<string>, cap: nat, rank: map<string, real>)
    requires all <= rank.Keys && Excess(gone, all, cap, rank)
    ensures |all - gone| <= cap
    ensures |all| <= cap ==> gone == {}
  {
    assert all == gone + (all - gone);
    assert |all| == |gone| + |all - gone|;
  }

  /** Evicting from one set leaves the others, and their ranks, as they were. */
  lemma RanksAgree(s: Pool, gone: set<string>)
    requires Partitioned(s)
    ensures forall a | a in s.scored - gone :: a in ScoreRank(Without(s, gone)) && ScoreRank(Without(s, gone))[a] == ScoreRank(s)[a]
    ensures forall a | a in s.retry.Keys - gone :: a in DueRank(Without(s, gone)) && DueRank(Without(s, gone))[a] == DueRank(s)[a]
    ensures (Without(s, gone)).scored <= ScoreRank(Without(s, gone)).Keys
  {
  }

  lemma NothingAddedNothingEvicted(s: Pool, ps: seq<Proxy>, now: Time, gone: set<string>)
    requires |s.raw| <= MAX_RAW && AddedCount(s, ps, now) == 0 && LegalAdd(s, ps, now, gone)
    ensures Without(InsertedAll(s, ps, now), gone) == s
  {
    NothingAddedNothingChanged(s, ps, now);
    EvictedCount(s.raw, gone, MAX_RAW, AgeRank(s));
    NothingGone(s);
  }

  /** The sets do not overlap, so what one eviction takes out does not touch the others. */
  predicate Apart(s: Pool) {
    s.raw !! s.scored && s.raw !! s.retry.Keys && s.scored !! s.retry.Keys
  }

  lemma DisjointStays(s: set<string>, gone: set<string>)
    requires s !! gone
    ensures s - gone == s
  {
  }

  lemma OthersUntouched(s: Pool, oldest: set<string>, worst: set<string>)
    requires Apart(s) && oldest <= s.raw && worst <= s.scored
    ensures Without(s, oldest).scored == s.scored
    ensures Without(Without(s, oldest), worst).retry == s.retry
    ensures DueRank(Without(Without(s, oldest), worst)) == DueRank(s)
  {
    DisjointStays(s.scored, oldest);
    RetryStays(s.retry, oldest);
    RetryStays(s.retry, worst);
  }

  lemma RetryStays(retry: map<string, Time>, gone: set<string>)
    requires retry.Keys !! gone
    ensures retry - gone == retry
  {
  }

  lemma ScoredStays(s: Pool, oldest: set<string>)
    requires Partitioned(s) && oldest <= s.raw
    ensures Apart(s) && Without(s, oldest).scored == s.scored
  {
    DisjointStays(s.scored, oldest);
  }

  /** The three evictions, done one after the other, are the excess of the pool as it was. */
  lemma TrimmedInTurn(s: Pool, oldest: set<string>, worst: set<string>, latest: set<string>)
    requires Partitioned(s)
    requires Excess(oldest, s.raw, MAX_RAW, AgeRank(s))
    requires Without(s, oldest).scored <= ScoreRank(Without(s, oldest)).Keys
    requires Excess(worst, Without(s, oldest).scored, MAX_VALIDATED, ScoreRank(Without(s, oldest)))
    requires Excess(latest, Without(Without(s, oldest), worst).retry.Keys, MAX_RETRY, DueRank(Without(Without(s, oldest), worst)))
    ensures LegalTrim(s, oldest, worst, latest)
  {
    RanksAgree(s, oldest);
    ScoredStays(s, oldest);
    OthersUntouched(s, oldest, worst);
    SameExcess(worst, s.scored, MAX_VALIDATED, ScoreRank(Without(s, oldest)), ScoreRank(s));
  }

  lemma NothingGone(s: Pool)
    ensures Without(s, {}) == s
  {
    assert s.proxies - {} == s.proxies && s.retry - {} == s.retry;
  }

  lemma WithoutTwice(s: Pool, x: set<string>, y: set<string>)
    ensures Without(Without(s, x), y) == Without(s, x + y)
  {
  }

  lemma OnlyOwnGone(s: set<string>, own: set<string>, x: set<string>, y: set<string>)
    requires s !! x && s !! y
    ensures s - (own + x + y) == s - own && s - (x + own + y) == s - own && s - (x + y + own) == s - own
  {
  }

  lemma TrimmedSets(s: Pool, oldest: set<string>, worst: set<string>, latest: set<string>)
    requires Apart(s) && oldest <= s.raw && worst <= s.scored && latest <= s.retry.Keys
    ensures Without(s, oldest + worst + latest).raw == s.raw - oldest
    ensures Without(s, oldest + worst + latest).scored == s.scored - worst
    ensures |Without(s, oldest + worst + latest).retry| == |s.retry.Keys - latest|
  {
    OnlyOwnGone(s.raw, oldest, worst, latest);
    OnlyOwnGone(s.scored, worst, oldest, latest);
    OnlyOwnGone(s.retry.Keys, latest, oldest, worst);
    KeysLeft(s.retry, oldest + worst + latest);
  }

  lemma KeysLeft(m: map<string, Time>, gone: set<string>)
    ensures |m - gone| == |m.Keys - gone|
  {
    assert (m - gone).Keys == m.Keys - gone;
    assert |m - gone| == |(m - gone).Keys|;
  }

  /** A legal trim leaves every set within its cap. */
  lemma TrimmedIsWithinCaps(s: Pool, oldest: set<string>, worst: set<string>, latest: set<string>)
    requires Partitioned(s) && LegalTrim(s, oldest, worst, latest)
    ensures |Without(s, oldest + worst + latest).raw| <= MAX_RAW
    ensures |Without(s, oldest + worst + latest).scored| <= MAX_VALIDATED
    ensures |Without(s, oldest + worst + latest).retry| <= MAX_RETRY
  {
    EvictedCount(s.raw, oldest, MAX_RAW, AgeRank(s));
    EvictedCount(s.scored, worst, MAX_VALIDATED, ScoreRank(s));
    EvictedCount(s.retry.Keys, latest, MAX_RETRY, DueRank(s));
    TrimmedSets(s, oldest, worst, latest);
  }

  // -- What becomes of those offered to the pool --

  /** New addresses are refused: the untested set is full and enough proxies work. */
  predicate Full(s: Pool) {
    |s.raw| >= MAX_RAW && |s.scored| > 50
  }

  lemma OneMoreIsNoFewer(x: set<string>, a: string)
    ensures |x + {a}| >= |x|
  {
    Sorting.SubsetIsNoLarger(x, x + {a});
  }

  /** Whoever is offered is in, unless the pool is full by then. */
  lemma {:induction false} OfferedIsIn(s: Pool, ps: seq<Proxy>, now: Time, p: Proxy)
    requires p in ps && p.addr != ""
    ensures p.addr in InsertedAll(s, ps, now).proxies || Full(InsertedAll(s, ps, now))
    ensures InsertedAll(s, ps, now).scored == s.scored
  {
    var front, last := ps[..|ps| - 1], ps[|ps| - 1];
    var t := InsertedAll(s, front, now);
    ScoredStaysOut(s, ps, now);
    OneMoreIsNoFewer(t.raw, last.addr);
    if p in front {
      OfferedIsIn(s, front, now, p);
    } else {
      assert p == last;
    }
  }

  lemma {:induction false} ScoredStaysOut(s: Pool, ps: seq<Proxy>, now: Time)
    ensures InsertedAll(s, ps, now).scored == s.scored
  {
    if |ps| > 0 {
      ScoredStaysOut(s, ps[..|ps| - 1], now);
    }
  }

  /** Whoever was in is left alone, and whoever is new was offered and is stored as offered. */
  lemma {:induction false} InIsOfferedOrOld(s: Pool, ps: seq<Proxy>, now: Time, a: string)
    ensures a in s.proxies ==> a in InsertedAll(s, ps, now).proxies && InsertedAll(s, ps, now).proxies[a] == s.proxies[a]
    ensures a !in s.proxies && a in InsertedAll(s, ps, now).proxies ==>
              exists p :: p in ps && p.addr == a && InsertedAll(s, ps, now).proxies[a] == Registered(p, now)
  {
    if |ps| > 0 {
      InIsOfferedOrOld(s, ps[..|ps| - 1], now, a);
      assert ps == ps[..|ps| - 1] + [ps[|ps| - 1]];
    }
  }
}
