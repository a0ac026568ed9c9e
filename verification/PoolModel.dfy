/** The proxy pool as values: untested, scored and retrying addresses, and what each operation makes of them. */
module PoolModel {
  import opened Clock
  import opened Scoring

  const MAX_RAW := 4000
  const MAX_VALIDATED := 2000
  const MAX_RETRY := 1500
  const FAIL_DELETE_AFTER := 2

  datatype Proxy = Proxy(
    addr: string,
    host: string,
    protocol: string,
    source: string,
    family: string,
    region: string,
    score: real,
    latencyMS: int,
    validated: bool,
    lastCheck: Time,
    failCount: int,
    createdAt: Time,
    updatedAt: Time)

  predicate DistinctAddrs(s: seq<Proxy>) {
    forall i, j | 0 <= i < j < |s| :: s[i].addr != s[j].addr
  }

  /** The pool and the explicit on and off switches of the sources. */
  datatype Pool = Pool(
    proxies: map<string, Proxy>,
    raw: set<string>,
    retry: map<string, Time>,
    scored: set<string>,
    enabled: set<string>,
    disabled: set<string>)

  const EMPTY_POOL := Pool(map[], {}, map[], {}, {}, {})

  // -- Invariant --

  predicate Untested(p: Proxy) {
    !p.validated && p.failCount == 0 && p.lastCheck == 0
  }

  /** Every stored address is in exactly one set, and its record says which. */
  ghost predicate Partitioned(s: Pool) {
    && s.proxies.Keys == s.raw + s.scored + s.retry.Keys
    && s.raw !! s.scored && s.raw !! s.retry.Keys && s.scored !! s.retry.Keys
    && (forall a | a in s.proxies :: s.proxies[a].validated <==> a in s.scored)
    && (forall a | a in s.raw :: Untested(s.proxies[a]))
    && (forall a | a in s.scored :: s.proxies[a].failCount == 0 && GoodScore(s.proxies[a].score))
    && (forall a | a in s.retry :: s.proxies[a].failCount == 1 && s.retry[a] == RetryDue(1, s.proxies[a].lastCheck))
  }

  // -- Operations --

  /** Removes addresses from everywhere. */
  function Without(s: Pool, gone: set<string>): Pool {
    s.(proxies := s.proxies - gone, raw := s.raw - gone, retry := s.retry - gone, scored := s.scored - gone)
  }

  function Or(s: string, default: string): string {
    if s == "" then default else s
  }

  /** A new record; the verdict fields are taken as the caller gives them. */
  function Registered(p: Proxy, now: Time): Proxy {
    p.(protocol := Or(p.protocol, "http"),
       score := if p.score == 0.0 then SCORE_INIT else p.score,
       createdAt := now, updatedAt := now)
  }

  /** Malformed or known addresses, and new ones while the raw set is full and enough others work. */
  predicate Refused(s: Pool, p: Proxy) {
    p.addr == "" || p.addr in s.proxies || (|s.raw| >= MAX_RAW && |s.scored| > 50)
  }

  function Inserted(s: Pool, p: Proxy, now: Time): Pool {
    if Refused(s, p) then s
    else s.(proxies := s.proxies[p.addr := Registered(p, now)], raw := s.raw + {p.addr})
  }

  function InsertedAll(s: Pool, ps: seq<Proxy>, now: Time): Pool {
    if |ps| == 0 then s else Inserted(InsertedAll(s, ps[..|ps| - 1], now), ps[|ps| - 1], now)
  }

  function AddedCount(s: Pool, ps: seq<Proxy>, now: Time): nat {
    if |ps| == 0 then 0
    else AddedCount(s, ps[..|ps| - 1], now) + if Refused(InsertedAll(s, ps[..|ps| - 1], now), ps[|ps| - 1]) then 0 else 1
  }

  /** A proxy after one more check. */
  function Checked(p: Proxy, latencyMS: int, now: Time): Proxy {
    p.(lastCheck := now, updatedAt := now, latencyMS := Smooth(p.latencyMS, latencyMS))
  }

  function Passed(p: Proxy, latencyMS: int, now: Time): Proxy {
    var q := Checked(p, latencyMS, now);
    q.(validated := true, failCount := 0,
       score := if p.validated then Blend(p.score, Quality(q.latencyMS)) else Quality(q.latencyMS))
  }

  function Failed(p: Proxy, latencyMS: int, now: Time): Proxy {
    Checked(p, latencyMS, now).(
      validated := false, failCount := p.failCount + 1,
      score := if p.score - 1.0 <= 0.0 then 0.0 else p.score - 1.0)
  }

  /** One failure is forgiven to a proxy that was live; anything else is deleted. */
  predicate Hopeless(p: Proxy) {
    !p.validated || p.failCount + 1 >= FAIL_DELETE_AFTER || p.score - 1.0 <= 0.0
  }

  function Marked(s: Pool, a: string, latencyMS: int, ok: bool, now: Time): Pool {
    if a !in s.proxies then s
    else
      var p := s.proxies[a];
      if ok then
        s.(proxies := s.proxies[a := Passed(p, latencyMS, now)], raw := s.raw - {a}, retry := s.retry - {a},
           scored := s.scored + {a})
      else if Hopeless(p) then Without(s, {a})
      else
        s.(proxies := s.proxies[a := Failed(p, latencyMS, now)], raw := s.raw - {a}, scored := s.scored - {a},
           retry := s.retry[a := RetryDue(p.failCount + 1, now)])
  }

  function RegionSet(s: Pool, a: string, region: string, now: Time): Pool {
    if a in s.proxies then s.(proxies := s.proxies[a := s.proxies[a].(region := region, updatedAt := now)]) else s
  }

  function Switched(s: Pool, name: string, on: bool): Pool {
    if on then s.(disabled := s.disabled - {name}, enabled := s.enabled + {name})
    else s.(enabled := s.enabled - {name}, disabled := s.disabled + {name})
  }

  /** Off wins over on; without a switch the source's own default counts. */
  predicate SourceEnabled(s: Pool, name: string, default: bool) {
    name !in s.disabled && (name in s.enabled || default)
  }

  // -- Trimming --

  /** The first to go: as many as exceed the cap, none ranking after a survivor. */
  ghost predicate Excess(gone: set<string>, all: set<string>, cap: nat, rank: map<string, real>)
    requires all <= rank.Keys
  {
    && gone <= all
    && |gone| == (if |all| > cap then |all| - cap else 0)
    && (forall g, k | g in gone && k in all - gone :: rank[g] <= rank[k])
  }

  function AgeRank(s: Pool): map<string, real> {
    map a | a in s.proxies :: s.proxies[a].createdAt as real
  }

  function ScoreRank(s: Pool): map<string, real> {
    map a | a in s.proxies :: s.proxies[a].score
  }

  /** Due latest first. */
  function DueRank(s: Pool): map<string, real> {
    map a | a in s.retry :: -(s.retry[a] as real)
  }

  /** The oldest untested, the worst scored, and the retries due last, each down to its cap. */
  ghost predicate LegalTrim(s: Pool, oldest: set<string>, worst: set<string>, latest: set<string>)
    requires Partitioned(s)
  {
    && Excess(oldest, s.raw, MAX_RAW, AgeRank(s))
    && Excess(worst, s.scored, MAX_VALIDATED, ScoreRank(s))
    && Excess(latest, s.retry.Keys, MAX_RETRY, DueRank(s))
  }

  /** The oldest untested addresses go if an insertion has filled the untested set over its cap. */
  ghost predicate LegalAdd(s: Pool, ps: seq<Proxy>, now: Time, gone: set<string>) {
    && Partitioned(InsertedAll(s, ps, now))
    && Excess(gone, InsertedAll(s, ps, now).raw, MAX_RAW, AgeRank(InsertedAll(s, ps, now)))
  }

  // -- Every operation keeps the partition --

  lemma WithoutKeepsPartition(s: Pool, gone: set<string>)
    requires Partitioned(s)
    ensures Partitioned(Without(s, gone))
  {
  }

  lemma NewRawKeepsPartition(s: Pool, a: string, p: Proxy)
    requires Partitioned(s) && a !in s.proxies && Untested(p)
    ensures Partitioned(s.(proxies := s.proxies[a := p], raw := s.raw + {a}))
  {
  }

  lemma InsertedKeepsPartition(s: Pool, p: Proxy, now: Time)
    requires Partitioned(s) && Untested(p)
    ensures Partitioned(Inserted(s, p, now))
  {
    if !Refused(s, p) {
      RegisteredIsUntested(p, now);
      NewRawKeepsPartition(s, p.addr, Registered(p, now));
    }
  }

  lemma RegisteredIsUntested(p: Proxy, now: Time)
    requires Untested(p)
    ensures Untested(Registered(p, now))
  {
  }

  lemma {:induction false} InsertedAllKeepsPartition(s: Pool, ps: seq<Proxy>, now: Time)
    requires Partitioned(s) && forall i | 0 <= i < |ps| :: Untested(ps[i])
    ensures Partitioned(InsertedAll(s, ps, now))
  {
    if |ps| > 0 {
      InsertedAllKeepsPartition(s, ps[..|ps| - 1], now);
      InsertedKeepsPartition(InsertedAll(s, ps[..|ps| - 1], now), ps[|ps| - 1], now);
    }
  }

  lemma MarkedKeepsPartition(s: Pool, a: string, latencyMS: int, ok: bool, now: Time)
    requires Partitioned(s)
    ensures Partitioned(Marked(s, a, latencyMS, ok, now))
  {
    if a in s.proxies {
      var p := s.proxies[a];
      if ok {
        GoodScoresStayGood(Passed(p, latencyMS, now).latencyMS, if p.validated then p.score else SCORE_MAX);
      } else if Hopeless(p) {
        WithoutKeepsPartition(s, {a});
      }
    }
  }

  lemma RegionKeepsPartition(s: Pool, a: string, region: string, now: Time)
    requires Partitioned(s)
    ensures Partitioned(RegionSet(s, a, region, now))
  {
  }

  /**
   * A good verdict moves the score of a working proxy three tenths of the way to the quality of its smoothed latency and
   * gives any other proxy that quality outright; a failure that is forgiven costs one point.
   */
  lemma VerdictMovesScore(s: Pool, a: string, latencyMS: int, now: Time)
    requires Partitioned(s) && a in s.proxies
    ensures a in s.scored ==>
              10.0 * (Marked(s, a, latencyMS, true, now).proxies[a].score - s.proxies[a].score) ==
              3.0 * (Quality(Smooth(s.proxies[a].latencyMS, latencyMS)) - s.proxies[a].score)
    ensures a !in s.scored ==>
              Marked(s, a, latencyMS, true, now).proxies[a].score == Quality(Smooth(s.proxies[a].latencyMS, latencyMS))
    ensures a in s.scored ==>
              && a in Marked(s, a, latencyMS, false, now).proxies
              && Marked(s, a, latencyMS, false, now).proxies[a].score == s.proxies[a].score - 1.0
  {
    if a in s.scored {
      GoodScoresStayGood(0, s.proxies[a].score);
    }
  }
}
