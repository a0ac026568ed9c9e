/** Submitting a batch of addresses, and the accounting it reports. */
module Submissions {
  import opened Clock
  import opened Scoring
  import opened PoolModel
  import opened PoolFacts
  import opened MemoryStores
  import Sorting

  /** What a submission changed. */
  datatype SubmitResult = SubmitResult(
    parsed: int, added: int, duplicates: int, evicted: int, netGrowth: int, rawAtCap: bool, blocked: int)

  const NOTHING := SubmitResult(0, 0, 0, 0, 0, false, 0)

  /** The caller does not get to declare a proxy healthy. */
  function Unproven(p: Proxy, source: string): Proxy {
    p.(source := Or(p.source, source), protocol := Or(p.protocol, "http"),
       validated := false, score := SCORE_INIT, failCount := 0, latencyMS := 0, lastCheck := 0)
  }

  lemma {:induction false} EveryInsertionCounts(s: Pool, ps: seq<Proxy>, now: Time)
    ensures |InsertedAll(s, ps, now).proxies| == |s.proxies| + AddedCount(s, ps, now)
    ensures AddedCount(s, ps, now) <= |ps|
  {
    if |ps| > 0 {
      var front, p := ps[..|ps| - 1], ps[|ps| - 1];
      EveryInsertionCounts(s, front, now);
      var t := InsertedAll(s, front, now);
      if !Refused(t, p) {
        assert Inserted(t, p, now).proxies.Keys == t.proxies.Keys + {p.addr};
        assert |Inserted(t, p, now).proxies| == |Inserted(t, p, now).proxies.Keys|;
        assert |t.proxies| == |t.proxies.Keys|;
      }
    }
  }

  lemma WhatLeft(m: map<string, Proxy>, x: set<string>, y: set<string>)
    ensures |m| == |(m - x) - y| + |m.Keys - ((m - x) - y).Keys|
  {
    var n := (m - x) - y;
    assert n.Keys <= m.Keys;
    assert m.Keys == n.Keys + (m.Keys - n.Keys);
    assert |m| == |m.Keys| && |n| == |n.Keys|;
  }

  /** The well-formed items, stripped of any verdict; our own listeners are left out. */
  function Prepared(items: seq<Proxy>, source: string, isSelf: string -> bool): (batch: seq<Proxy>)
    ensures forall i | 0 <= i < |batch| :: Untested(batch[i]) && batch[i].addr != "" && !isSelf(batch[i].addr)
  {
    if |items| == 0 then []
    else
      var p := items[|items| - 1];
      Prepared(items[..|items| - 1], source, isSelf) + if p.addr == "" || isSelf(p.addr) then [] else [Unproven(p, source)]
  }

  /** What the country filter lets through. */
  function Unblocked(ps: seq<Proxy>, isBlocked: Proxy -> bool): (kept: seq<Proxy>)
    ensures |kept| <= |ps|
    ensures forall p | p in kept :: p in ps && !isBlocked(p)
  {
    if |ps| == 0 then []
    else Unblocked(ps[..|ps| - 1], isBlocked) + if isBlocked(ps[|ps| - 1]) then [] else [ps[|ps| - 1]]
  }

  // -- What the two filters keep: certain positions, each once and in order --

  /** An ascending listing of exactly the positions below n that are wanted. */
  ghost predicate Lists(at: seq<int>, n: nat, wanted: set<int>) {
    && (forall i, j | 0 <= i < j < |at| :: at[i] < at[j])
    && (forall i | 0 <= i < |at| :: 0 <= at[i] < n && at[i] in wanted)
    && (forall k | 0 <= k < n && k in wanted :: k in at)
  }

  lemma ListsOneMore(at: seq<int>, n: nat, wanted: set<int>)
    requires Lists(at, n, wanted)
    ensures n in wanted ==> Lists(at + [n], n + 1, wanted)
    ensures n !in wanted ==> Lists(at, n + 1, wanted)
  {
    if n in wanted {
      forall k | 0 <= k < n + 1 && k in wanted ensures k in at + [n] {
        assert k < n ==> k in at;
        assert (at + [n])[|at|] == n;
      }
    }
  }

  lemma ListedCount(at: seq<int>, n: nat, wanted: set<int>)
    requires Lists(at, n, wanted) && forall k | k in wanted :: 0 <= k < n
    ensures |at| == |wanted|
  {
    assert Sorting.Distinct(at);
    Sorting.DistinctIsSet(at);
    forall x ensures x in (set y | y in at) <==> x in wanted {
      assert x in wanted ==> 0 <= x < n && x in at;
    }
    assert (set x | x in at) == wanted;
  }

  predicate WellFormed(p: Proxy, isSelf: string -> bool) {
    p.addr != "" && !isSelf(p.addr)
  }

  function WellFormedAt(items: seq<Proxy>, isSelf: string -> bool): set<int> {
    set k | 0 <= k < |items| && WellFormed(items[k], isSelf)
  }

  function UnblockedAt(ps: seq<Proxy>, isBlocked: Proxy -> bool): set<int> {
    set k | 0 <= k < |ps| && !isBlocked(ps[k])
  }

  function BlockedAt(ps: seq<Proxy>, isBlocked: Proxy -> bool): set<int> {
    set k | 0 <= k < |ps| && isBlocked(ps[k])
  }

  /** The batch is the well-formed items, stripped, one for one and in order. */
  ghost predicate StrippedFrom(batch: seq<Proxy>, at: seq<int>, items: seq<Proxy>, source: string, isSelf: string -> bool) {
    && Lists(at, |items|, WellFormedAt(items, isSelf)) && |at| == |batch|
    && forall i | 0 <= i < |batch| :: batch[i] == Unproven(items[at[i]], source)
  }

  /** The kept are the unblocked, one for one and in order. */
  ghost predicate KeptFrom(kept: seq<Proxy>, at: seq<int>, ps: seq<Proxy>, isBlocked: Proxy -> bool) {
    && Lists(at, |ps|, UnblockedAt(ps, isBlocked)) && |at| == |kept|
    && forall i | 0 <= i < |kept| :: kept[i] == ps[at[i]]
  }

  lemma SameListing(at: seq<int>, n: nat, wanted: set<int>, other: set<int>)
    requires Lists(at, n, wanted) && forall k | 0 <= k < n :: k in wanted <==> k in other
    ensures Lists(at, n, other)
  {
  }

  lemma StrippedOneMore(batch: seq<Proxy>, at: seq<int>, items: seq<Proxy>, source: string, isSelf: string -> bool, p: Proxy)
    requires StrippedFrom(batch, at, items, source, isSelf)
    ensures !WellFormed(p, isSelf) ==> StrippedFrom(batch, at, items + [p], source, isSelf)
    ensures WellFormed(p, isSelf) ==>
              StrippedFrom(batch + [Unproven(p, source)], at + [|items|], items + [p], source, isSelf)
  {
    SameListing(at, |items|, WellFormedAt(items, isSelf), WellFormedAt(items + [p], isSelf));
    ListsOneMore(at, |items|, WellFormedAt(items + [p], isSelf));
  }

  lemma {:induction false} PreparedIsExact(items: seq<Proxy>, source: string, isSelf: string -> bool) returns (at: seq<int>)
    ensures StrippedFrom(Prepared(items, source, isSelf), at, items, source, isSelf)
  {
    at := [];
    if |items| > 0 {
      var front, p := items[..|items| - 1], items[|items| - 1];
      at := PreparedIsExact(front, source, isSelf);
      StrippedOneMore(Prepared(front, source, isSelf), at, front, source, isSelf, p);
      assert items == front + [p];
      if WellFormed(p, isSelf) {
        at := at + [|front|];
      }
    }
  }

  lemma KeptOneMore(kept: seq<Proxy>, at: seq<int>, ps: seq<Proxy>, isBlocked: Proxy -> bool, p: Proxy)
    requires KeptFrom(kept, at, ps, isBlocked)
    ensures isBlocked(p) ==> KeptFrom(kept, at, ps + [p], isBlocked)
    ensures !isBlocked(p) ==> KeptFrom(kept + [p], at + [|ps|], ps + [p], isBlocked)
  {
    SameListing(at, |ps|, UnblockedAt(ps, isBlocked), UnblockedAt(ps + [p], isBlocked));
    ListsOneMore(at, |ps|, UnblockedAt(ps + [p], isBlocked));
  }

  lemma {:induction false} UnblockedIsExact(ps: seq<Proxy>, isBlocked: Proxy -> bool) returns (at: seq<int>)
    ensures KeptFrom(Unblocked(ps, isBlocked), at, ps, isBlocked)
  {
    at := [];
    if |ps| > 0 {
      var front, p := ps[..|ps| - 1], ps[|ps| - 1];
      at := UnblockedIsExact(front, isBlocked);
      KeptOneMore(Unblocked(front, isBlocked), at, front, isBlocked, p);
      assert ps == front + [p];
      if !isBlocked(p) {
        at := at + [|front|];
      }
    }
  }

  function Positions(n: nat): (ks: set<int>)
    ensures |ks| == n && forall k :: k in ks <==> 0 <= k < n
  {
    if n == 0 then {} else Positions(n - 1) + {n - 1}
  }

  /** Who is let through, and how many are not. */
  lemma UnblockedAreTheOthers(ps: seq<Proxy>, isBlocked: Proxy -> bool)
    ensures forall p :: p in Unblocked(ps, isBlocked) <==> p in ps && !isBlocked(p)
    ensures |ps| - |Unblocked(ps, isBlocked)| == |BlockedAt(ps, isBlocked)|
  {
    var at := UnblockedIsExact(ps, isBlocked);
    ListedCount(at, |ps|, UnblockedAt(ps, isBlocked));
    assert Positions(|ps|) == UnblockedAt(ps, isBlocked) + BlockedAt(ps, isBlocked);
    forall p | p in ps && !isBlocked(p) ensures p in Unblocked(ps, isBlocked) {
      var k :| 0 <= k < |ps| && ps[k] == p;
      assert k in UnblockedAt(ps, isBlocked);
      var i :| 0 <= i < |at| && at[i] == k;
      assert Unblocked(ps, isBlocked)[i] == p;
    }
  }

  lemma PreparedCount(items: seq<Proxy>, source: string, isSelf: string -> bool)
    ensures |Prepared(items, source, isSelf)| == |WellFormedAt(items, isSelf)|
  {
    var at := PreparedIsExact(items, source, isSelf);
    ListedCount(at, |items|, WellFormedAt(items, isSelf));
  }

  lemma PreparedAreTheWellFormed(items: seq<Proxy>, source: string, isSelf: string -> bool, k: nat)
    requires k < |items| && WellFormed(items[k], isSelf)
    ensures Unproven(items[k], source) in Prepared(items, source, isSelf)
  {
    var at := PreparedIsExact(items, source, isSelf);
    assert k in WellFormedAt(items, isSelf);
    var i :| 0 <= i < |at| && at[i] == k;
    assert Prepared(items, source, isSelf)[i] == Unproven(items[k], source);
  }

  method Prepare(items: seq<Proxy>, source: string, isSelf: string -> bool) returns (batch: seq<Proxy>, own: int)
    ensures batch == Prepared(items, source, isSelf)
  {
    batch, own := [], 0;
    for i := 0 to |items|
      invariant batch == Prepared(items[..i], source, isSelf)
    {
      assert items[..i + 1][..i] == items[..i];
      var p := items[i];
      if p.addr == "" {
        continue;
      }
      if isSelf(p.addr) {
        own := own + 1;
        continue;
      }
      batch := batch + [Unproven(p, source)];
    }
    assert items[..|items|] == items;
  }

  method DropBlocked(ps: seq<Proxy>, isBlocked: Proxy -> bool) returns (kept: seq<Proxy>, blocked: int)
    ensures kept == Unblocked(ps, isBlocked) && blocked == |ps| - |kept| == |BlockedAt(ps, isBlocked)|
    ensures forall p :: p in kept <==> p in ps && !isBlocked(p)
    ensures exists at :: KeptFrom(kept, at, ps, isBlocked)
  {
    kept, blocked := [], 0;
    for i := 0 to |ps|
      invariant kept == Unblocked(ps[..i], isBlocked) && blocked == i - |kept|
    {
      assert ps[..i + 1][..i] == ps[..i];
      if isBlocked(ps[i]) {
        blocked := blocked + 1;
      } else {
        kept := kept + [ps[i]];
      }
    }
    assert ps[..|ps|] == ps;
    UnblockedAreTheOthers(ps, isBlocked);
    ghost var at := UnblockedIsExact(ps, isBlocked);
  }

  /** Some records are gone, and the others are as they were. */
  predicate LeftOf(s: Pool, grown: Pool) {
    forall a | a in s.proxies :: a in grown.proxies && s.proxies[a] == grown.proxies[a]
  }

  /** The insertion makes room among the untested, and then the three sets are trimmed, each of its lowest ranked. */
  ghost predicate TrimmedBy(s: Pool, grown: Pool, gone: set<string>, oldest: set<string>, worst: set<string>, latest: set<string>) {
    && Partitioned(grown) && Excess(gone, grown.raw, MAX_RAW, AgeRank(grown))
    && Partitioned(Without(grown, gone)) && LegalTrim(Without(grown, gone), oldest, worst, latest)
    && s == Without(Without(grown, gone), oldest + worst + latest)
  }

  ghost predicate TrimmedFrom(s: Pool, grown: Pool) {
    exists gone, oldest, worst, latest :: TrimmedBy(s, grown, gone, oldest, worst, latest)
  }

  /** Adds the batch and trims, counting before and after. */
  method AddBetweenCounts(store: MemoryStore, ps: seq<Proxy>, now: Time)
    returns (before: int, added: int, after: int, afterRaw: int)
    requires store.Valid() && forall i | 0 <= i < |ps| :: Untested(ps[i])
    modifies store
    ensures store.Valid()
    ensures before == |old(store.pool).proxies| && after == |store.pool.proxies| && afterRaw == |store.pool.raw|
    ensures added == AddedCount(old(store.pool), ps, now)
    ensures before + added - after == |InsertedAll(old(store.pool), ps, now).proxies.Keys - store.pool.proxies.Keys|
    ensures LeftOf(store.pool, InsertedAll(old(store.pool), ps, now))
    ensures TrimmedFrom(store.pool, InsertedAll(old(store.pool), ps, now))
  {
    ghost var was := store.pool;
    var total, _, _ := store.Count();
    before := total;
    var n, gone := store.AddRaw(ps, now);
    added := n;
    EveryInsertionCounts(was, ps, now);
    var oldest, worst, latest := store.Trim();
    WhatLeft(InsertedAll(was, ps, now).proxies, gone, oldest + worst + latest);
    assert TrimmedBy(store.pool, InsertedAll(was, ps, now), gone, oldest, worst, latest);
    var total', _, raw := store.Count();
    after, afterRaw := total', raw;
  }

  /** What was added is the growth before eviction, and what was evicted is missing afterwards. */
  predicate Accounted(res: SubmitResult, was: Pool, grown: Pool, left: Pool) {
    && res.added == |grown.proxies| - |was.proxies|
    && res.evicted == |grown.proxies.Keys - left.proxies.Keys|
    && res.netGrowth == |left.proxies| - |was.proxies| == res.added - res.evicted
    && LeftOf(left, grown)
  }

  /** Adds what is left of a submission and draws up its account. */
  method FileBatch(store: MemoryStore, ps: seq<Proxy>, parsed: int, blocked: int, now: Time) returns (res: SubmitResult)
    requires store.Valid() && parsed - blocked == |ps| && forall i | 0 <= i < |ps| :: Untested(ps[i])
    modifies store
    ensures store.Valid()
    ensures res.parsed == parsed && res.blocked == blocked
    ensures res.duplicates == |ps| - res.added >= 0
    ensures Accounted(res, old(store.pool), InsertedAll(old(store.pool), ps, now), store.pool)
    ensures TrimmedFrom(store.pool, InsertedAll(old(store.pool), ps, now))
    ensures res.rawAtCap == (|store.pool.raw| >= MAX_RAW)
  {
    EveryInsertionCounts(store.pool, ps, now);
    var beforeTotal, added, afterTotal, afterRaw := AddBetweenCounts(store, ps, now);
    var duplicates := parsed - blocked - added;
    if duplicates < 0 {
      duplicates := 0;
    }
    var evicted := beforeTotal + added - afterTotal;
    res := SubmitResult(parsed, added, duplicates, if evicted > 0 then evicted else 0, afterTotal - beforeTotal,
                        afterRaw >= MAX_RAW, blocked);
  }

  function Batch(items: seq<Proxy>, source: string, isSelf: string -> bool, isBlocked: Proxy -> bool): (batch: seq<Proxy>)
    ensures forall p | p in batch :: Untested(p) && p.addr != "" && !isSelf(p.addr) && !isBlocked(p)
  {
    Unblocked(Prepared(items, Or(source, "external"), isSelf), isBlocked)
  }

  /** What a submitted item becomes, and whether it is to be added: well-formed, not our own listener and not blocked. */
  function Stripped(p: Proxy, source: string): Proxy {
    Unproven(p, Or(source, "external"))
  }

  /** Whatever a submitter claims about health, age or score is overwritten: only what identifies the proxy gets in. */
  lemma ClaimsAreIgnored(p: Proxy, q: Proxy, source: string, now: Time)
    requires p == q.(score := p.score, latencyMS := p.latencyMS, validated := p.validated, lastCheck := p.lastCheck,
                     failCount := p.failCount, createdAt := p.createdAt, updatedAt := p.updatedAt)
    ensures Registered(Stripped(p, source), now) == Registered(Stripped(q, source), now)
    ensures Untested(Registered(Stripped(p, source), now)) && Registered(Stripped(p, source), now).score == 10.0
    ensures Registered(Stripped(p, source), now).addr == p.addr && Registered(Stripped(p, source), now).createdAt == now
  {
  }

  predicate Eligible(p: Proxy, source: string, isSelf: string -> bool, isBlocked: Proxy -> bool) {
    WellFormed(p, isSelf) && !isBlocked(Stripped(p, source))
  }

  lemma BatchIsTheEligible(items: seq<Proxy>, source: string, isSelf: string -> bool, isBlocked: Proxy -> bool)
    ensures forall k | 0 <= k < |items| && Eligible(items[k], source, isSelf, isBlocked) ::
              Stripped(items[k], source) in Batch(items, source, isSelf, isBlocked)
    ensures forall q | q in Batch(items, source, isSelf, isBlocked) ::
              exists k :: 0 <= k < |items| && Eligible(items[k], source, isSelf, isBlocked) && q == Stripped(items[k], source)
  {
    var all := Prepared(items, Or(source, "external"), isSelf);
    UnblockedAreTheOthers(all, isBlocked);
    forall k | 0 <= k < |items| && Eligible(items[k], source, isSelf, isBlocked)
      ensures Stripped(items[k], source) in Batch(items, source, isSelf, isBlocked)
    {
      PreparedAreTheWellFormed(items, Or(source, "external"), isSelf, k);
    }
    var at := PreparedIsExact(items, Or(source, "external"), isSelf);
    forall q | q in Batch(items, source, isSelf, isBlocked)
      ensures exists k :: 0 <= k < |items| && Eligible(items[k], source, isSelf, isBlocked) && q == Stripped(items[k], source)
    {
      var i :| 0 <= i < |all| && all[i] == q;
      assert Eligible(items[at[i]], source, isSelf, isBlocked);
    }
  }

  /** The pool has grown by exactly the eligible items, short of those that were refused because it was full. */
  ghost predicate GrownBy(grown: Pool, was: Pool, items: seq<Proxy>, source: string, isSelf: string -> bool,
                          isBlocked: Proxy -> bool, now: Time)
  {
    && (forall k | 0 <= k < |items| && Eligible(items[k], source, isSelf, isBlocked) ::
          items[k].addr in grown.proxies || Full(grown))
    && (forall a | a in was.proxies :: a in grown.proxies && grown.proxies[a] == was.proxies[a])
    && (forall a | a in grown.proxies && a !in was.proxies ::
          exists k :: 0 <= k < |items| && Eligible(items[k], source, isSelf, isBlocked) && items[k].addr == a
                      && grown.proxies[a] == Registered(Stripped(items[k], source), now))
  }

  lemma BatchGrows(was: Pool, items: seq<Proxy>, source: string, isSelf: string -> bool, isBlocked: Proxy -> bool, now: Time)
    ensures GrownBy(InsertedAll(was, Batch(items, source, isSelf, isBlocked), now), was, items, source, isSelf, isBlocked, now)
  {
    var batch := Batch(items, source, isSelf, isBlocked);
    var grown := InsertedAll(was, batch, now);
    BatchIsTheEligible(items, source, isSelf, isBlocked);
    forall k | 0 <= k < |items| && Eligible(items[k], source, isSelf, isBlocked)
      ensures items[k].addr in grown.proxies || Full(grown)
    {
      OfferedIsIn(was, batch, now, Stripped(items[k], source));
    }
    forall a ensures a in was.proxies ==> a in grown.proxies && grown.proxies[a] == was.proxies[a] {
      InIsOfferedOrOld(was, batch, now, a);
    }
    forall a | a in grown.proxies && a !in was.proxies
      ensures exists k :: 0 <= k < |items| && Eligible(items[k], source, isSelf, isBlocked) && items[k].addr == a
                          && grown.proxies[a] == Registered(Stripped(items[k], source), now)
    {
      InIsOfferedOrOld(was, batch, now, a);
    }
  }

  /** What is left of a submission, how many were well-formed, and how many of those blocked. */
  method Sieve(items: seq<Proxy>, source: string, isSelf: string -> bool, isBlocked: Proxy -> bool)
    returns (kept: seq<Proxy>, parsed: int, blocked: int)
    ensures kept == Batch(items, source, isSelf, isBlocked) && parsed - blocked == |kept|
    ensures parsed == |WellFormedAt(items, isSelf)|
    ensures blocked == |BlockedAt(Prepared(items, Or(source, "external"), isSelf), isBlocked)|
  {
    var toAdd;
    toAdd, blocked := Prepare(items, Or(source, "external"), isSelf);
    PreparedCount(items, Or(source, "external"), isSelf);
    parsed := |toAdd|;
    kept, blocked := DropBlocked(toAdd, isBlocked);
  }

  lemma NothingChanged(s: Pool)
    ensures Accounted(NOTHING, s, s, s)
  {
    assert s.proxies.Keys - s.proxies.Keys == {};
  }

  /**
   * Nothing is lost in the accounts: every parsed item was blocked, added or turned away; and whatever was inserted
   * and is not reflected in the total has left the pool. In between the pool had grown by every eligible item.
   */
  method SubmitRaw(
    store: MemoryStore, items: seq<Proxy>, source: string, isSelf: string -> bool, isBlocked: Proxy -> bool, now: Time)
    returns (res: SubmitResult, ghost grown: Pool)
    requires store.Valid()
    modifies store
    ensures store.Valid()
    ensures res.parsed == res.blocked + res.added + res.duplicates && res.duplicates >= 0
    ensures res.parsed == |WellFormedAt(items, isSelf)|
    ensures res.blocked == |BlockedAt(Prepared(items, Or(source, "external"), isSelf), isBlocked)|
    ensures GrownBy(grown, old(store.pool), items, source, isSelf, isBlocked, now)
    ensures Accounted(res, old(store.pool), grown, store.pool)
    ensures if Batch(items, source, isSelf, isBlocked) == [] then store.pool == old(store.pool) else TrimmedFrom(store.pool, grown)
    ensures Batch(items, source, isSelf, isBlocked) != [] ==> res.rawAtCap == (|store.pool.raw| >= MAX_RAW)
  {
    res := NOTHING;
    grown := InsertedAll(store.pool, Batch(items, source, isSelf, isBlocked), now);
    BatchGrows(store.pool, items, source, isSelf, isBlocked, now);
    NothingChanged(store.pool);
    if |items| == 0 {
      return;
    }
    var kept, parsed, blocked := Sieve(items, source, isSelf, isBlocked);
    if |kept| == 0 {
      res := res.(parsed := parsed, blocked := blocked);
      return;
    }
    res := FileBatch(store, kept, parsed, blocked, now);
  }
}
