/** The Redis backend: five keys and a record per address, moved by the same verdicts. */
module RedisStores {
  import opened Clock
  import opened Scoring
  import opened PoolModel
  import opened Ranking
  import opened TwoStrikes

  /** The sets of the backend; sorted sets map a member to its score. */
  datatype Keys = Keys(
    all: set<string>,
    raw: map<string, int>,
    retry: map<string, int>,
    scored: map<string, real>,
    checked: map<string, int>,
    meta: map<string, Proxy>)

  function Dropped(k: Keys, gone: set<string>): Keys {
    Keys(k.all - gone, k.raw - gone, k.retry - gone, k.scored - gone, k.checked - gone, k.meta - gone)
  }

  function RetryDueUnix(failCount: int, now: Time): int {
    Unix(now + if failCount >= 2 then Seconds(900) else Seconds(300))
  }

  function AtMost(n: nat, limit: nat): nat {
    if n > limit then limit else n
  }

  function Clamped(score: real): real {
    if score < 0.0 then 0.0 else score
  }

  /** The members of a set, in some order. */
  method ListMembers(all: set<string>) returns (members: seq<string>)
    ensures ToSet(members) == all && |members| == |all|
  {
    members := [];
    var todo := all;
    while todo != {}
      invariant todo <= all && |members| + |todo| == |all|
      invariant ToSet(members) == all - todo
      decreases |todo|
    {
      var a :| a in todo;
      ToSetOneMore(members, a);
      members := members + [a];
      todo := todo - {a};
    }
  }

  class RedisStore {
    var keys: Keys

    /** Removes a batch in pipelines of 500. */
    method DeleteMany(addrs: seq<string>)
      modifies this
      ensures keys == Dropped(old(keys), ToSet(addrs))
      ensures FiveKeys(old(keys)) ==> FiveKeys(keys)
    {
      var start := 0;
      ghost var gone: set<string> := {};
      NothingDropped(keys);
      while start < |addrs|
        invariant 0 <= start
        invariant gone == ToSet(addrs[..AtMost(start, |addrs|)])
        invariant keys == Dropped(old(keys), gone)
        decreases |addrs| - start
      {
        var end := AtMost(start + 500, |addrs|);
        for i := start to end
          invariant gone == ToSet(addrs[..i])
          invariant keys == Dropped(old(keys), gone)
        {
          var addr := addrs[i];
          assert addrs[..i + 1] == addrs[..i] + [addr];
          ToSetOneMore(addrs[..i], addr);
          DroppedOneMore(old(keys), gone, addr);
          keys := Dropped(keys, {addr});
          gone := gone + {addr};
        }
        start := start + 500;
      }
      assert addrs[..|addrs|] == addrs;
      if FiveKeys(old(keys)) {
        OperationKeepsFiveKeys(old(keys), Drop(ToSet(addrs)));
      }
    }

    method Delete(addr: string)
      modifies this
      ensures keys == Dropped(old(keys), {addr})
      ensures FiveKeys(old(keys)) ==> FiveKeys(keys)
    {
      if FiveKeys(keys) {
        OperationKeepsFiveKeys(keys, Drop({addr}));
      }
      keys := Keys(keys.all - {addr}, keys.raw - {addr}, keys.retry - {addr}, keys.scored - {addr}, keys.checked - {addr},
                   keys.meta - {addr});
    }

    /** Deletes every address that waits for a retry. */
    method PurgeRetry() returns (n: nat)
      modifies this
      ensures n == |old(keys).retry.Keys|
      ensures keys == Dropped(old(keys), old(keys).retry.Keys)
      ensures FiveKeys(old(keys)) ==> FiveKeys(keys)
    {
      var members := ListMembers(keys.retry.Keys);
      DeleteMany(members);
      return |members|;
    }

    /** Files the verdict of one check; records and set moves go in one pipeline. */
    method MarkValidated(addr: string, latencyMS: int, ok: bool, now: Time) returns (found: bool)
      modifies this
      ensures found == (addr in old(keys).meta)
      ensures keys == KeysMarked(old(keys), addr, latencyMS, ok, now)
      ensures FiveKeys(old(keys)) ==> FiveKeys(keys)
    {
      if FiveKeys(keys) {
        OperationKeepsFiveKeys(keys, Verdict(Mark(addr, latencyMS, ok, now)));
      }
      found := FileVerdict(addr, latencyMS, ok, now);
    }

    /** Moves or deletes one address for one verdict. */
    method FileVerdict(addr: string, latencyMS: int, ok: bool, now: Time) returns (found: bool)
      modifies this
      ensures found == (addr in old(keys).meta)
      ensures keys == KeysMarked(old(keys), addr, latencyMS, ok, now)
    {
      if addr !in keys.meta {
        return false;
      }
      var p := keys.meta[addr];
      var wasLive := p.validated;
      p := p.(lastCheck := now, updatedAt := now, latencyMS := Smooth(p.latencyMS, latencyMS));
      if ok {
        var quality := Quality(p.latencyMS);
        p := p.(score := if wasLive then Blend(p.score, quality) else quality);
        p := p.(validated := true, failCount := 0);
        keys := keys.(raw := keys.raw - {addr}, retry := keys.retry - {addr}, scored := keys.scored[addr := p.score],
                      checked := keys.checked[addr := Unix(now)], meta := keys.meta[addr := p]);
        return true;
      }
      p := p.(failCount := p.failCount + 1, score := Clamped(p.score - 1.0), validated := false);
      if !wasLive || p.failCount >= FAIL_DELETE_AFTER || p.score <= 0.0 {
        Delete(addr);
        return true;
      }
      keys := keys.(raw := keys.raw - {addr}, scored := keys.scored - {addr}, checked := keys.checked - {addr},
                    retry := keys.retry[addr := RetryDueUnix(p.failCount, now)], meta := keys.meta[addr := p]);
      return true;
    }
  }

  function KeysMarked(k: Keys, a: string, latencyMS: int, ok: bool, now: Time): Keys {
    if a !in k.meta then k
    else
      var p := k.meta[a];
      if ok then
        k.(raw := k.raw - {a}, retry := k.retry - {a}, scored := k.scored[a := Passed(p, latencyMS, now).score],
           checked := k.checked[a := Unix(now)], meta := k.meta[a := Passed(p, latencyMS, now)])
      else if Hopeless(p) then Dropped(k, {a})
      else
        k.(raw := k.raw - {a}, scored := k.scored - {a}, checked := k.checked - {a},
           retry := k.retry[a := RetryDueUnix(p.failCount + 1, now)], meta := k.meta[a := Failed(p, latencyMS, now)])
  }

  lemma NothingDropped(k: Keys)
    ensures Dropped(k, {}) == k
  {
    assert k.raw - {} == k.raw && k.retry - {} == k.retry && k.scored - {} == k.scored;
    assert k.checked - {} == k.checked && k.meta - {} == k.meta;
  }

  lemma DroppedOneMore(k: Keys, gone: set<string>, a: string)
    ensures Dropped(Dropped(k, gone), {a}) == Dropped(k, gone + {a})
  {
  }

  // -- Both backends take the same steps --

  /** The keys hold the same pool; deadlines are kept as Unix seconds, scores as in the records. */
  ghost predicate Mirrors(k: Keys, s: Pool) {
    && k.all == s.proxies.Keys && k.meta == s.proxies
    && k.raw.Keys == s.raw
    && k.retry.Keys == s.retry.Keys && (forall a | a in s.retry :: k.retry[a] == Unix(s.retry[a]))
    && k.scored.Keys == s.scored && (forall a | a in s.scored && a in s.proxies :: k.scored[a] == s.proxies[a].score)
    && k.checked.Keys == s.scored && (forall a | a in s.scored && a in s.proxies :: k.checked[a] == Unix(s.proxies[a].lastCheck))
  }

  lemma DueSecond(failCount: int, now: Time)
    ensures Unix(RetryDue(failCount, now)) == RetryDueUnix(failCount, now)
  {
  }

  lemma DroppedMirrors(k: Keys, s: Pool, gone: set<string>)
    requires Mirrors(k, s)
    ensures Mirrors(Dropped(k, gone), Without(s, gone))
  {
  }

  lemma MarkMirrors(k: Keys, s: Pool, a: string, latencyMS: int, ok: bool, now: Time)
    requires Mirrors(k, s)
    ensures Mirrors(KeysMarked(k, a, latencyMS, ok, now), Marked(s, a, latencyMS, ok, now))
  {
    if a in s.proxies && !ok {
      DueSecond(s.proxies[a].failCount + 1, now);
      DroppedMirrors(k, s, {a});
    }
  }

  function KeysMarkedAll(k: Keys, ms: seq<Mark>): Keys {
    if |ms| == 0 then k
    else KeysMarked(KeysMarkedAll(k, ms[..|ms| - 1]), ms[|ms| - 1].addr, ms[|ms| - 1].latencyMS, ms[|ms| - 1].ok, ms[|ms| - 1].now)
  }

  /** Verdict by verdict the two backends hold the same pool. */
  lemma {:induction false} BackendsAgree(k: Keys, s: Pool, ms: seq<Mark>)
    requires Mirrors(k, s)
    ensures Mirrors(KeysMarkedAll(k, ms), MarkedAll(s, ms))
  {
    if |ms| > 0 {
      var front, m := ms[..|ms| - 1], ms[|ms| - 1];
      BackendsAgree(k, s, front);
      MarkMirrors(KeysMarkedAll(k, front), MarkedAll(s, front), m.addr, m.latencyMS, m.ok, m.now);
    }
  }

  // -- The partition --

  /** The pool that the keys hold; a deadline is the one of a first failure. */
  function PoolOf(k: Keys): Pool {
    Pool(k.meta, k.raw.Keys, map a | a in k.retry :: if a in k.meta then RetryDue(1, k.meta[a].lastCheck) else 0,
         k.scored.Keys, {}, {})
  }

  /**
   * Every stored address is in exactly one of the three keys for untested, working and retrying ones, the record and
   * the scores agree with it, and what was checked is what is scored.
   */
  ghost predicate FiveKeys(k: Keys) {
    Mirrors(k, PoolOf(k)) && Partitioned(PoolOf(k))
  }

  lemma FiveKeysOfPool(k: Keys, s: Pool)
    requires Mirrors(k, s) && Partitioned(s)
    ensures FiveKeys(k)
  {
    assert PoolOf(k).retry == s.retry;
  }

  lemma FiveKeysMeans(k: Keys)
    requires FiveKeys(k)
    ensures k.all == k.raw.Keys + k.scored.Keys + k.retry.Keys
    ensures k.raw.Keys !! k.scored.Keys && k.raw.Keys !! k.retry.Keys && k.scored.Keys !! k.retry.Keys
    ensures k.checked.Keys == k.scored.Keys && k.meta.Keys == k.all
    ensures forall a | a in k.scored :: k.meta[a].validated && k.scored[a] == k.meta[a].score && GoodScore(k.scored[a])
    ensures forall a | a in k.retry :: k.meta[a].failCount == 1 && k.retry[a] == RetryDueUnix(1, k.meta[a].lastCheck)
  {
    forall a | a in k.retry ensures k.retry[a] == RetryDueUnix(1, k.meta[a].lastCheck) {
      DueSecond(1, k.meta[a].lastCheck);
    }
  }

  function KeysOperated(k: Keys, op: Op): Keys {
    match op
    case Verdict(m) => KeysMarked(k, m.addr, m.latencyMS, m.ok, m.now)
    case Drop(gone) => Dropped(k, gone)
    case Purge => Dropped(k, k.retry.Keys)
  }

  function KeysOperatedAll(k: Keys, ops: seq<Op>): Keys {
    if |ops| == 0 then k else KeysOperated(KeysOperatedAll(k, ops[..|ops| - 1]), ops[|ops| - 1])
  }

  lemma OperationMirrors(k: Keys, s: Pool, op: Op)
    requires Mirrors(k, s)
    ensures Mirrors(KeysOperated(k, op), Operated(s, op))
  {
    match op
    case Verdict(m) => MarkMirrors(k, s, m.addr, m.latencyMS, m.ok, m.now);
    case Drop(gone) => DroppedMirrors(k, s, gone);
    case Purge => DroppedMirrors(k, s, k.retry.Keys);
  }

  /** Verdicts, deletions and purges in any order: the two backends hold the same pool. */
  lemma {:induction false} BackendsAgreeOnAll(k: Keys, s: Pool, ops: seq<Op>)
    requires Mirrors(k, s)
    ensures Mirrors(KeysOperatedAll(k, ops), OperatedAll(s, ops))
  {
    if |ops| > 0 {
      BackendsAgreeOnAll(k, s, ops[..|ops| - 1]);
      OperationMirrors(KeysOperatedAll(k, ops[..|ops| - 1]), OperatedAll(s, ops[..|ops| - 1]), ops[|ops| - 1]);
    }
  }

  /** One operation keeps the partition of the five keys. */
  lemma OperationKeepsFiveKeys(k: Keys, op: Op)
    requires FiveKeys(k)
    ensures FiveKeys(KeysOperated(k, op))
  {
    OperationMirrors(k, PoolOf(k), op);
    OperationKeepsPartition(PoolOf(k), op);
    FiveKeysOfPool(KeysOperated(k, op), Operated(PoolOf(k), op));
  }

  /**
   * In every run of verdicts, deletions and purges the keys partition the stored addresses, what was checked is what is
   * scored, and every score lies in [20, 100]. An untested address to which only verdicts happen is still stored exactly
   * if its first verdict was good and no two in a row were bad, and it is scored exactly if also the last was good.
   */
  lemma RedisPartition(k: Keys, ops: seq<Op>, a: string)
    requires FiveKeys(k)
    ensures FiveKeys(KeysOperatedAll(k, ops))
    ensures KeysOperatedAll(k, ops).checked.Keys == KeysOperatedAll(k, ops).scored.Keys
    ensures a in KeysOperatedAll(k, ops).scored ==> GoodScore(KeysOperatedAll(k, ops).scored[a])
    ensures a in k.raw && OnlyVerdicts(ops, a) ==>
              && (a in KeysOperatedAll(k, ops).all <==> Survives(VerdictsIn(ops, a)))
              && (a in KeysOperatedAll(k, ops).scored <==>
                    Survives(VerdictsIn(ops, a)) && |VerdictsIn(ops, a)| > 0 && VerdictsIn(ops, a)[|VerdictsIn(ops, a)| - 1])
  {
    var s := PoolOf(k);
    BackendsAgreeOnAll(k, s, ops);
    OperationsMoveStage(s, ops, a);
    FiveKeysOfPool(KeysOperatedAll(k, ops), OperatedAll(s, ops));
    FiveKeysMeans(KeysOperatedAll(k, ops));
    if a in k.raw && OnlyVerdicts(ops, a) {
      TwoStrikesAmongDeletions(s, ops, a);
    }
  }
}
