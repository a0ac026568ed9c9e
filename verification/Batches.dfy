/** Which untested addresses the next validation scan takes. */
module Batches {
  import opened Clock
  import opened PoolModel
  import Sampling

  /** Never tested, due again, or tested too recently. */
  function Class(p: Proxy, now: Time, cooldown: Duration): nat {
    if p.lastCheck == 0 then 0 else if cooldown <= 0 || now - p.lastCheck >= cooldown then 1 else 2
  }

  function Stamp(p: Proxy): Time {
    if p.lastCheck == 0 then p.createdAt else p.lastCheck
  }

  /** p has waited at least as long as q. */
  predicate NoLater(p: Proxy, q: Proxy, now: Time, cooldown: Duration) {
    || Class(p, now, cooldown) < Class(q, now, cooldown)
    || (Class(p, now, cooldown) == Class(q, now, cooldown) && Stamp(p) <= Stamp(q))
  }

  predicate InTurn(s: seq<Proxy>, now: Time, cooldown: Duration) {
    forall i, j | 0 <= i < j < |s| :: NoLater(s[i], s[j], now, cooldown)
  }

  predicate AllOf(s: seq<Proxy>, rank: nat, now: Time, cooldown: Duration) {
    forall p | p in s :: Class(p, now, cooldown) == rank
  }

  function Addressed(items: seq<Proxy>): seq<Proxy> {
    if |items| == 0 then []
    else Addressed(items[..|items| - 1]) + if items[|items| - 1].addr == "" then [] else [items[|items| - 1]]
  }

  /** Oldest first. */
  method SortByStamp(s: seq<Proxy>, rank: nat, now: Time, cooldown: Duration) returns (out: seq<Proxy>)
    requires AllOf(s, rank, now, cooldown)
    ensures AllOf(out, rank, now, cooldown) && InTurn(out, now, cooldown) && multiset(out) == multiset(s) && |out| == |s|
  {
    var age := (p: Proxy) => -(Stamp(p) as real);
    out := Sampling.SortByWeight(s, age);
    forall p | p in out ensures Class(p, now, cooldown) == rank {
      assert p in multiset(out);
      assert p in s;
    }
    forall i, j | 0 <= i < j < |out| ensures NoLater(out[i], out[j], now, cooldown) {
      assert age(out[i]) >= age(out[j]);
      assert out[i] in out && out[j] in out;
    }
  }

  lemma Joined(a: seq<Proxy>, b: seq<Proxy>, now: Time, cooldown: Duration)
    requires InTurn(a, now, cooldown) && InTurn(b, now, cooldown)
    requires forall p, q | p in a && q in b :: Class(p, now, cooldown) < Class(q, now, cooldown)
    ensures InTurn(a + b, now, cooldown)
  {
  }

  ghost predicate Split(never: seq<Proxy>, due: seq<Proxy>, recent: seq<Proxy>, items: seq<Proxy>, now: Time, cooldown: Duration) {
    && AllOf(never, 0, now, cooldown) && AllOf(due, 1, now, cooldown) && AllOf(recent, 2, now, cooldown)
    && multiset(never) + multiset(due) + multiset(recent) == multiset(Addressed(items))
    && |never| + |due| + |recent| == |Addressed(items)|
  }

  lemma AddressedOneMore(items: seq<Proxy>, p: Proxy)
    ensures Addressed(items + [p]) == Addressed(items) + if p.addr == "" then [] else [p]
  {
    assert (items + [p])[..|items|] == items;
  }

  lemma AllOfOneMore(s: seq<Proxy>, p: Proxy, rank: nat, now: Time, cooldown: Duration)
    requires AllOf(s, rank, now, cooldown) && Class(p, now, cooldown) == rank
    ensures AllOf(s + [p], rank, now, cooldown) && multiset(s + [p]) == multiset(s) + multiset{p}
  {
  }

  lemma SplitOneMore(never: seq<Proxy>, due: seq<Proxy>, recent: seq<Proxy>, items: seq<Proxy>, p: Proxy, now: Time, cooldown: Duration)
    requires Split(never, due, recent, items, now, cooldown)
    ensures if p.addr == "" then Split(never, due, recent, items + [p], now, cooldown)
            else if p.lastCheck == 0 then Split(never + [p], due, recent, items + [p], now, cooldown)
            else if cooldown <= 0 || now - p.lastCheck >= cooldown then Split(never, due + [p], recent, items + [p], now, cooldown)
            else Split(never, due, recent + [p], items + [p], now, cooldown)
  {
    AddressedOneMore(items, p);
    assert multiset(Addressed(items) + [p]) == multiset(Addressed(items)) + multiset{p};
    if Class(p, now, cooldown) == 0 {
      AllOfOneMore(never, p, 0, now, cooldown);
    } else if Class(p, now, cooldown) == 1 {
      AllOfOneMore(due, p, 1, now, cooldown);
    } else {
      AllOfOneMore(recent, p, 2, now, cooldown);
    }
  }

  /** Splits the addressed items by class. */
  method Partition(items: seq<Proxy>, now: Time, cooldown: Duration)
    returns (never: seq<Proxy>, due: seq<Proxy>, recent: seq<Proxy>)
    ensures Split(never, due, recent, items, now, cooldown)
  {
    never, due, recent := [], [], [];
    for i := 0 to |items|
      invariant Split(never, due, recent, items[..i], now, cooldown)
    {
      var p := items[i];
      assert items[..i + 1] == items[..i] + [p];
      SplitOneMore(never, due, recent, items[..i], p, now, cooldown);
      if p.addr == "" {
        continue;
      }
      if p.lastCheck == 0 {
        never := never + [p];
        continue;
      }
      if cooldown <= 0 || now - p.lastCheck >= cooldown {
        due := due + [p];
      } else {
        recent := recent + [p];
      }
    }
    assert items[..|items|] == items;
  }

  /** What a batch promises: full if it can be, in turn, and nobody left out has waited longer than anybody taken. */
  ghost predicate FairBatch(out: seq<Proxy>, items: seq<Proxy>, limit: int, now: Time, cooldown: Duration) {
    && multiset(out) <= multiset(Addressed(items))
    && |out| == (if limit <= 0 then 0 else if limit < |Addressed(items)| then limit else |Addressed(items)|)
    && InTurn(out, now, cooldown)
    && forall p, q | p in out && q in multiset(Addressed(items)) - multiset(out) :: NoLater(p, q, now, cooldown)
  }

  lemma FairWithRest(out: seq<Proxy>, rest: seq<Proxy>, items: seq<Proxy>, now: Time, cooldown: Duration)
    requires multiset(out) + multiset(rest) == multiset(Addressed(items))
    requires forall p, q | p in out && q in rest :: NoLater(p, q, now, cooldown)
    ensures multiset(out) <= multiset(Addressed(items))
    ensures forall p, q | p in out && q in multiset(Addressed(items)) - multiset(out) :: NoLater(p, q, now, cooldown)
  {
    assert multiset(Addressed(items)) - multiset(out) == multiset(rest);
    assert forall q :: q in multiset(rest) <==> q in rest;
  }

  lemma CutInTurn(s: seq<Proxy>, k: nat, now: Time, cooldown: Duration)
    requires k <= |s| && InTurn(s, now, cooldown)
    ensures InTurn(s[..k], now, cooldown) && multiset(s[..k]) + multiset(s[k..]) == multiset(s)
    ensures forall p, q | p in s[..k] && q in s[k..] :: NoLater(p, q, now, cooldown)
  {
    assert s == s[..k] + s[k..];
  }

  lemma EarlyCut(queue: seq<Proxy>, recent: seq<Proxy>, limit: nat, now: Time, cooldown: Duration)
    requires limit <= |queue| && InTurn(queue, now, cooldown) && AllOf(recent, 2, now, cooldown)
    requires forall p | p in queue :: Class(p, now, cooldown) < 2
    ensures InTurn(queue[..limit], now, cooldown)
    ensures multiset(queue[..limit]) + multiset(queue[limit..] + recent) == multiset(queue) + multiset(recent)
    ensures forall p, q | p in queue[..limit] && q in queue[limit..] + recent :: NoLater(p, q, now, cooldown)
  {
    CutInTurn(queue, limit, now, cooldown);
    assert forall p | p in queue[..limit] :: p in queue;
  }

  lemma CutOfSum(a: seq<Proxy>, b: seq<Proxy>, k: nat)
    requires k <= |b|
    ensures (a + b)[..|a| + k] == a + b[..k] && (a + b)[|a| + k..] == b[k..]
  {
  }

  lemma LateCut(queue: seq<Proxy>, recent: seq<Proxy>, need: nat, now: Time, cooldown: Duration)
    requires need <= |recent| && InTurn(queue, now, cooldown)
    requires InTurn(recent, now, cooldown) && AllOf(recent, 2, now, cooldown)
    requires forall p | p in queue :: Class(p, now, cooldown) < 2
    ensures InTurn(queue + recent[..need], now, cooldown)
    ensures multiset(queue + recent[..need]) + multiset(recent[need..]) == multiset(queue) + multiset(recent)
    ensures forall p, q | p in queue + recent[..need] && q in recent[need..] :: NoLater(p, q, now, cooldown)
  {
    Joined(queue, recent, now, cooldown);
    CutOfSum(queue, recent, need);
    CutInTurn(queue + recent, |queue| + need, now, cooldown);
  }

  lemma JoinedParts(a: seq<Proxy>, b: seq<Proxy>, now: Time, cooldown: Duration)
    requires AllOf(a, 0, now, cooldown) && AllOf(b, 1, now, cooldown)
    ensures forall p | p in a + b :: Class(p, now, cooldown) < 2
    ensures multiset(a + b) == multiset(a) + multiset(b)
  {
  }

  method SelectValidateRaw(items: seq<Proxy>, limit: int, now: Time, cooldown: Duration)
    returns (out: seq<Proxy>)
    ensures FairBatch(out, items, limit, now, cooldown)
  {
    if limit <= 0 || |items| == 0 {
      return [];
    }
    var never, due, recent := Partition(items, now, cooldown);
    never := SortByStamp(never, 0, now, cooldown);
    due := SortByStamp(due, 1, now, cooldown);
    Joined(never, due, now, cooldown);
    JoinedParts(never, due, now, cooldown);
    var queue := never + due;
    if |queue| >= limit {
      EarlyCut(queue, recent, limit, now, cooldown);
      FairWithRest(queue[..limit], queue[limit..] + recent, items, now, cooldown);
      return queue[..limit];
    }
    recent := SortByStamp(recent, 2, now, cooldown);
    var need := limit - |queue|;
    if need > |recent| {
      need := |recent|;
    }
    LateCut(queue, recent, need, now, cooldown);
    out := queue + recent[..need];
    FairWithRest(out, recent[need..], items, now, cooldown);
  }

  // -- Counting --

  function Count(s: seq<Proxy>, f: Proxy -> bool): nat {
    if |s| == 0 then 0 else Count(s[..|s| - 1], f) + if f(s[|s| - 1]) then 1 else 0
  }

  lemma {:induction false} CountBounds(s: seq<Proxy>, f: Proxy -> bool)
    ensures Count(s, f) <= |s|
    ensures (forall p | p in s :: f(p)) ==> Count(s, f) == |s|
    ensures (forall p | p in s :: !f(p)) <==> Count(s, f) == 0
  {
    if |s| > 0 {
      CountBounds(s[..|s| - 1], f);
      assert s == s[..|s| - 1] + [s[|s| - 1]];
    }
  }

  lemma {:induction false} CountOfSum(a: seq<Proxy>, b: seq<Proxy>, f: Proxy -> bool)
    ensures Count(a + b, f) == Count(a, f) + Count(b, f)
  {
    if |b| == 0 {
      assert a + b == a;
    } else {
      CountOfSum(a, b[..|b| - 1], f);
      assert (a + b)[..|a + b| - 1] == a + b[..|b| - 1];
    }
  }

  lemma CountAround(b: seq<Proxy>, l: seq<Proxy>, m: seq<Proxy>, r: seq<Proxy>, f: Proxy -> bool)
    requires b == l + m + r
    ensures Count(b, f) == Count(l + r, f) + Count(m, f)
    ensures multiset(l + r) == multiset(b) - multiset(m)
  {
    CountOfSum(l + m, r, f);
    CountOfSum(l, m, f);
    CountOfSum(l, r, f);
  }

  lemma Around(b: seq<Proxy>, p: Proxy) returns (l: seq<Proxy>, r: seq<Proxy>)
    requires p in b
    ensures b == l + [p] + r
  {
    var i :| 0 <= i < |b| && b[i] == p;
    l, r := b[..i], b[i + 1..];
  }

  lemma {:induction false} CountInAnyOrder(a: seq<Proxy>, b: seq<Proxy>, f: Proxy -> bool)
    requires multiset(a) == multiset(b)
    ensures Count(a, f) == Count(b, f)
    decreases |a|
  {
    if |a| == 0 {
      assert |multiset(b)| == |b|;
    } else {
      var p := a[0];
      assert p in multiset(b);
      var l, r := Around(a, p);
      var l', r' := Around(b, p);
      CountAround(a, l, [p], r, f);
      CountAround(b, l', [p], r', f);
      assert |a| == |l| + 1 + |r|;
      CountInAnyOrder(l + r, l' + r', f);
    }
  }

  // -- Nobody starves --

  function Untried(): Proxy -> bool {
    (p: Proxy) => p.lastCheck == 0
  }

  function Unchecked(s: seq<Proxy>): nat {
    Count(s, Untried())
  }

  /** Nothing else is taken while anything has never been tested. */
  lemma UncheckedGoFirst(out: seq<Proxy>, rest: seq<Proxy>, now: Time, cooldown: Duration)
    requires forall p, q | p in out && q in rest :: NoLater(p, q, now, cooldown)
    ensures Unchecked(out) == |out| || Unchecked(rest) == 0
  {
    CountBounds(out, Untried());
    CountBounds(rest, Untried());
    if p :| p in out && p.lastCheck != 0 {
      forall q | q in rest ensures q.lastCheck != 0 {
        assert NoLater(p, q, now, cooldown);
      }
    }
  }

  lemma TakenAndLeft(out: seq<Proxy>, rest: seq<Proxy>, all: seq<Proxy>, f: Proxy -> bool)
    requires multiset(out) <= multiset(all) && multiset(rest) == multiset(all) - multiset(out)
    ensures Count(all, f) == Count(out, f) + Count(rest, f) && |all| == |out| + |rest|
    ensures forall q | q in rest :: q in multiset(all) - multiset(out)
  {
    CountInAnyOrder(out + rest, all, f);
    CountOfSum(out, rest, f);
    assert |multiset(all)| == |multiset(out)| + |multiset(rest)|;
    forall q | q in rest ensures q in multiset(all) - multiset(out) {
      assert q in multiset(rest);
    }
  }

  /** Every batch shortens the queue of the never tested by its full size. */
  lemma BatchesWalkTheQueue(out: seq<Proxy>, rest: seq<Proxy>, items: seq<Proxy>, limit: nat, now: Time, cooldown: Duration)
    requires FairBatch(out, items, limit, now, cooldown)
    requires multiset(rest) == multiset(Addressed(items)) - multiset(out)
    ensures Unchecked(rest) == if Unchecked(Addressed(items)) > limit then Unchecked(Addressed(items)) - limit else 0
  {
    TakenAndLeft(out, rest, Addressed(items), Untried());
    UncheckedGoFirst(out, rest, now, cooldown);
    CountBounds(out, Untried());
    CountBounds(rest, Untried());
  }

  /** Never tested, and waiting at least as long as x. */
  function Ahead(x: Proxy): Proxy -> bool {
    (p: Proxy) => p.lastCheck == 0 && p.createdAt <= x.createdAt
  }

  /** A scan: what it took, what it left, and what has joined the queue since, whether new or put back once tested. */
  datatype Scan = Scan(items: seq<Proxy>, out: seq<Proxy>, rest: seq<Proxy>, joined: seq<Proxy>, now: Time)

  ghost predicate FairScan(s: Scan, limit: nat, cooldown: Duration) {
    FairBatch(s.out, s.items, limit, s.now, cooldown) && multiset(s.rest) == multiset(Addressed(s.items)) - multiset(s.out)
  }

  /** Nothing that joins was created before x or at the same time, unless it has been tested. */
  predicate JoinsBehind(s: Scan, x: Proxy) {
    forall p | p in s.joined :: p.lastCheck != 0 || p.createdAt > x.createdAt
  }

  ghost predicate Follows(s: Scan, t: Scan) {
    multiset(Addressed(t.items)) == multiset(s.rest) + multiset(s.joined)
  }

  /** A scan that leaves x takes a full batch of those that have waited at least as long. */
  lemma ScanShortensQueue(s: Scan, x: Proxy, limit: nat, cooldown: Duration)
    requires FairScan(s, limit, cooldown) && x in Addressed(s.items) && x.lastCheck == 0 && x !in s.out
    ensures x in s.rest && Count(Addressed(s.items), Ahead(x)) == limit + Count(s.rest, Ahead(x))
  {
    TakenAndLeft(s.out, s.rest, Addressed(s.items), Ahead(x));
    assert x in multiset(Addressed(s.items)) && x !in multiset(s.out);
    assert x in multiset(s.rest);
    forall p | p in s.out ensures Ahead(x)(p) {
      assert NoLater(p, x, s.now, cooldown);
    }
    CountBounds(s.out, Ahead(x));
  }

  lemma QueueAfter(s: Scan, t: Scan, x: Proxy)
    requires Follows(s, t) && JoinsBehind(s, x) && x in s.rest
    ensures x in Addressed(t.items) && Count(Addressed(t.items), Ahead(x)) == Count(s.rest, Ahead(x))
  {
    assert multiset(s.rest + s.joined) == multiset(s.rest) + multiset(s.joined);
    CountInAnyOrder(Addressed(t.items), s.rest + s.joined, Ahead(x));
    CountOfSum(s.rest, s.joined, Ahead(x));
    CountBounds(s.joined, Ahead(x));
    assert x in multiset(s.rest + s.joined);
    assert x in multiset(Addressed(t.items));
  }

  ghost predicate FairScans(scans: seq<Scan>, limit: nat, cooldown: Duration, x: Proxy) {
    && (forall i | 0 <= i < |scans| :: FairScan(scans[i], limit, cooldown) && JoinsBehind(scans[i], x))
    && (forall i | 0 <= i < |scans| - 1 :: Follows(scans[i], scans[i + 1]))
  }

  function Capacity(k: nat, limit: nat): nat {
    if k == 0 then 0 else Capacity(k - 1, limit) + limit
  }

  /** While x is passed over, every scan takes a full batch out of the queue ahead of it. */
  lemma {:induction false} PassedOver(scans: seq<Scan>, x: Proxy, limit: nat, cooldown: Duration)
    requires |scans| > 0 && FairScans(scans, limit, cooldown, x)
    requires x in Addressed(scans[0].items) && x.lastCheck == 0
    requires forall i | 0 <= i < |scans| :: x !in scans[i].out
    ensures x in scans[|scans| - 1].rest
    ensures Count(Addressed(scans[0].items), Ahead(x)) == Capacity(|scans|, limit) + Count(scans[|scans| - 1].rest, Ahead(x))
  {
    var n := |scans| - 1;
    if n == 0 {
      ScanShortensQueue(scans[0], x, limit, cooldown);
    } else {
      PassedOver(scans[..n], x, limit, cooldown);
      assert Follows(scans[n - 1], scans[n - 1 + 1]);
      QueueAfter(scans[n - 1], scans[n], x);
      ScanShortensQueue(scans[n], x, limit, cooldown);
    }
  }

  /**
   * No address starves: whatever joins the queue between the scans, an address that has never been tested is taken
   * before k scans have passed, as soon as k batches are as many as have waited at least as long at the start.
   */
  lemma NobodyStarves(scans: seq<Scan>, x: Proxy, limit: nat, cooldown: Duration)
    requires FairScans(scans, limit, cooldown, x) && |scans| > 0
    requires x in Addressed(scans[0].items) && x.lastCheck == 0
    requires Capacity(|scans|, limit) >= Count(Addressed(scans[0].items), Ahead(x))
    ensures exists i :: 0 <= i < |scans| && x in scans[i].out
  {
    if forall i | 0 <= i < |scans| :: x !in scans[i].out {
      PassedOver(scans, x, limit, cooldown);
      CountBounds(scans[|scans| - 1].rest, Ahead(x));
    }
  }
}
