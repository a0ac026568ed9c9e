/** Drawing proxies by weight: without replacement, and by the better of two. */
module Sampling {
  import opened PoolModel
  import opened Sorting

  /** Latency leaves 1000 / (1000 + ms) of a weight. */
  function Slowed(w: real, latencyMS: int): real {
    if latencyMS > 0 then w * (1000.0 / (1000.0 + latencyMS as real)) else w
  }

  function Blamed(w: real, failCount: int): real {
    if failCount > 0 then w / (1.0 + failCount as real) else w
  }

  /** How desirable a proxy is: its score, cut by latency, by failures and by having been served just now. */
  function Weight(p: Proxy, recent: bool): (w: real)
    ensures w >= 0.0001
  {
    var base := if p.score < 1.0 then 1.0 else p.score;
    var blamed := Blamed(Slowed(base, p.latencyMS), p.failCount);
    var cooled := if recent then blamed / 8.0 else blamed;
    if cooled < 0.0001 then 0.0001 else cooled
  }

  lemma Quotients(a: real, b: real, x: real, y: real)
    requires a >= b > 0.0 && 0.0 < x <= y
    ensures a / x >= b / y > 0.0
  {
    var q, r := a / x, b / y;
    assert q * x == a && r * y == b;
    assert (r - q) * x == r * x - q * x;
    assert r * (y - x) == r * y - r * x;
    assert r > 0.0;
    assert r * (y - x) >= 0.0;
    assert q < r ==> (r - q) * x > 0.0;
  }

  lemma Products(a: real, b: real, s: real, t: real)
    requires a >= b > 0.0 && s >= t > 0.0
    ensures a * s >= b * t > 0.0
  {
    assert a * s - b * t == a * (s - t) + (a - b) * t;
    assert a * (s - t) >= 0.0 && (a - b) * t >= 0.0;
  }

  lemma SlowedFalls(a: real, b: real, l: int, m: int)
    requires a >= b > 0.0 && l <= m
    ensures Slowed(a, l) >= Slowed(b, m) > 0.0
  {
    if m > 0 {
      var x := if l > 0 then 1000.0 + l as real else 1000.0;
      Quotients(1000.0, 1000.0, x, 1000.0 + m as real);
      Products(a, b, 1000.0 / x, 1000.0 / (1000.0 + m as real));
    }
  }

  lemma BlamedFalls(a: real, b: real, f: int, g: int)
    requires a >= b > 0.0 && f <= g
    ensures Blamed(a, f) >= Blamed(b, g) > 0.0
  {
    if g > 0 {
      Quotients(a, b, if f > 0 then 1.0 + f as real else 1.0, 1.0 + g as real);
    }
  }

  /** No worse in score, latency, failures and cooldown means no lighter. */
  lemma BetterIsNoLighter(p: Proxy, q: Proxy, recentP: bool, recentQ: bool)
    requires p.score >= q.score && p.latencyMS <= q.latencyMS && p.failCount <= q.failCount && (recentP ==> recentQ)
    ensures Weight(p, recentP) >= Weight(q, recentQ)
  {
    var a := if p.score < 1.0 then 1.0 else p.score;
    var b := if q.score < 1.0 then 1.0 else q.score;
    SlowedFalls(a, b, p.latencyMS, q.latencyMS);
    BlamedFalls(Slowed(a, p.latencyMS), Slowed(b, q.latencyMS), p.failCount, q.failCount);
  }

  /** The documented factors: half at one second, half after one failure, an eighth during the cooldown. */
  lemma WeightFactors(p: Proxy, q: Proxy)
    requires 1.0 <= p.score <= 100.0 && p.latencyMS <= 0 && p.failCount <= 0 && q.score == p.score
    ensures Weight(p, false) == p.score && Weight(p, true) == p.score / 8.0
    ensures q.latencyMS == 1000 && q.failCount <= 0 ==> Weight(q, false) == p.score / 2.0
    ensures q.latencyMS <= 0 && q.failCount == 1 ==> Weight(q, false) == p.score / 2.0
  {
  }

  /** The weight every item gets, given the addresses served within the cooldown. */
  function Weigher(recent: set<string>): (weigh: Proxy -> real)
    ensures forall p :: weigh(p) > 0.0
  {
    (p: Proxy) => Weight(p, p.addr in recent)
  }

  function Weights<T>(items: seq<T>, weigh: T -> real): (ws: seq<real>)
    ensures |ws| == |items|
    ensures forall i | 0 <= i < |items| :: ws[i] == weigh(items[i])
  {
    if |items| == 0 then [] else Weights(items[..|items| - 1], weigh) + [weigh(items[|items| - 1])]
  }

  // -- One draw --

  function Total(ws: seq<real>): real {
    if |ws| == 0 then 0.0 else Total(ws[..|ws| - 1]) + ws[|ws| - 1]
  }

  /** The sum of the first i weights. */
  function Prefix(ws: seq<real>, i: nat): real
    requires i <= |ws|
  {
    if i == 0 then 0.0 else Prefix(ws, i - 1) + ws[i - 1]
  }

  lemma {:induction false} PrefixIsTotal(ws: seq<real>, i: nat)
    requires i <= |ws|
    ensures Prefix(ws, i) == Total(ws[..i])
  {
    if i > 0 {
      PrefixIsTotal(ws, i - 1);
      assert ws[..i][..i - 1] == ws[..i - 1];
    }
  }

  lemma WholePrefix(ws: seq<real>)
    ensures Prefix(ws, |ws|) == Total(ws)
  {
    PrefixIsTotal(ws, |ws|);
    assert ws[..|ws|] == ws;
  }

  predicate Positive(ws: seq<real>) {
    forall i | 0 <= i < |ws| :: ws[i] > 0.0
  }

  /** The first index whose running total reaches the target, or the last index. */
  function IndexFor(ws: seq<real>, target: real, from: nat): (i: nat)
    requires from < |ws|
    ensures from <= i < |ws|
    decreases |ws| - from
  {
    if from == |ws| - 1 || Prefix(ws, from + 1) >= target then from else IndexFor(ws, target, from + 1)
  }

  lemma {:induction false} PrefixRises(ws: seq<real>, i: nat, j: nat)
    requires Positive(ws) && i <= j <= |ws|
    ensures Prefix(ws, i) <= Prefix(ws, j)
    decreases j
  {
    if i < j {
      PrefixRises(ws, i, j - 1);
    }
  }

  lemma {:induction false} IndexForIsFirst(ws: seq<real>, target: real, from: nat)
    requires from < |ws| && target <= Total(ws)
    ensures Prefix(ws, IndexFor(ws, target, from) + 1) >= target
    ensures forall j | from < j <= IndexFor(ws, target, from) :: Prefix(ws, j) < target
    decreases |ws| - from
  {
    WholePrefix(ws);
    if from < |ws| - 1 && Prefix(ws, from + 1) < target {
      IndexForIsFirst(ws, target, from + 1);
    }
  }

  /** Every index owns an interval as long as its weight, and is drawn exactly if the target falls into it. */
  lemma DrawnByOwnInterval(ws: seq<real>, target: real, i: nat)
    requires Positive(ws) && i < |ws| && 0.0 <= target <= Total(ws)
    ensures IndexFor(ws, target, 0) == i <==> target <= Prefix(ws, i + 1) && (i == 0 || Prefix(ws, i) < target)
    ensures Prefix(ws, i + 1) - Prefix(ws, i) == ws[i]
  {
    IndexForIsFirst(ws, target, 0);
    var k := IndexFor(ws, target, 0);
    if k < i {
      PrefixRises(ws, k + 1, i);
    }
  }

  /** Walks the running total until it reaches the target. */
  method FindIndex(weights: seq<real>, target: real) returns (idx: nat)
    requires |weights| > 0
    ensures idx == IndexFor(weights, target, 0)
  {
    idx := |weights| - 1;
    var acc := 0.0;
    for i := 0 to |weights|
      invariant acc == Prefix(weights, i) && idx == |weights| - 1
      invariant i < |weights| ==> IndexFor(weights, target, 0) == IndexFor(weights, target, i)
      invariant i == |weights| ==> IndexFor(weights, target, 0) == |weights| - 1
    {
      acc := acc + weights[i];
      if acc >= target {
        return i;
      }
    }
  }

  // -- Removal --

  /** The last element moves into the gap. */
  function SwapDelete<T>(s: seq<T>, i: nat): (r: seq<T>)
    requires i < |s|
    ensures |r| == |s| - 1
  {
    s[i := s[|s| - 1]][..|s| - 1]
  }

  lemma SwapDeleteTakesOne<T>(s: seq<T>, i: nat)
    requires i < |s|
    ensures multiset(s) == multiset(SwapDelete(s, i)) + multiset{s[i]}
  {
    var last := |s| - 1;
    assert s == s[..last] + [s[last]];
    if i == last {
      assert SwapDelete(s, i) == s[..last];
    } else {
      assert SwapDelete(s, i) == s[..i] + [s[last]] + s[i + 1..last];
      assert s == s[..i] + [s[i]] + s[i + 1..last] + [s[last]];
    }
  }

  lemma {:induction false} TotalOfUpdate(ws: seq<real>, i: nat, x: real)
    requires i < |ws|
    ensures Total(ws[i := x]) == Total(ws) - ws[i] + x
  {
    var n := |ws| - 1;
    if i == n {
      assert ws[i := x][..n] == ws[..n];
    } else {
      assert ws[i := x][..n] == ws[..n][i := x];
      TotalOfUpdate(ws[..n], i, x);
    }
  }

  /** Taking a weight out leaves the sum of the others. */
  lemma TotalOfSwapDelete(ws: seq<real>, i: nat)
    requires i < |ws|
    ensures Total(SwapDelete(ws, i)) == Total(ws) - ws[i]
  {
    TotalOfUpdate(ws, i, ws[|ws| - 1]);
  }

  lemma {:induction false} PositiveTotal(ws: seq<real>)
    requires Positive(ws)
    ensures |ws| > 0 <==> Total(ws) > 0.0
  {
    if |ws| > 0 {
      PositiveTotal(ws[..|ws| - 1]);
    }
  }

  // -- Sorting by weight --

  predicate BestFirst<T>(s: seq<T>, weigh: T -> real) {
    forall i, j | 0 <= i < j < |s| :: weigh(s[i]) >= weigh(s[j])
  }

  /** The items of one weight, in their order. */
  function OfWeight<T>(s: seq<T>, weigh: T -> real, x: real): seq<T> {
    if |s| == 0 then []
    else
      OfWeight(s[..|s| - 1], weigh, x) + if weigh(s[|s| - 1]) == x then [s[|s| - 1]] else []
  }

  lemma OfWeightAppend<T>(s: seq<T>, p: T, weigh: T -> real, x: real)
    ensures OfWeight(s + [p], weigh, x) == OfWeight(s, weigh, x) + if weigh(p) == x then [p] else []
  {
    assert (s + [p])[..|s|] == s;
  }

  /** Before or level with: at least as heavy. */
  function ByWeight<T>(weigh: T -> real): (leq: (T, T) -> bool) {
    (p, q) => weigh(p) >= weigh(q)
  }

  lemma {:induction false} PlacedIsStable<T>(s: seq<T>, p: T, weigh: T -> real, x: real)
    ensures OfWeight(Placed(s, p, ByWeight(weigh)), weigh, x) == OfWeight(s, weigh, x) + if weigh(p) == x then [p] else []
  {
    OfWeightAppend(s, p, weigh, x);
    if |s| > 0 && weigh(s[|s| - 1]) < weigh(p) {
      var n := |s| - 1;
      PlacedIsStable(s[..n], p, weigh, x);
      OfWeightAppend(Placed(s[..n], p, ByWeight(weigh)), s[n], weigh, x);
    }
  }

  lemma {:induction false} SortIsStable<T>(items: seq<T>, weigh: T -> real, x: real)
    ensures OfWeight(InsertionSort(items, ByWeight(weigh)), weigh, x) == OfWeight(items, weigh, x)
  {
    if |items| > 0 {
      SortIsStable(items[..|items| - 1], weigh, x);
      PlacedIsStable(InsertionSort(items[..|items| - 1], ByWeight(weigh)), items[|items| - 1], weigh, x);
    }
  }

  lemma SortIsBestFirst<T(!new)>(items: seq<T>, weigh: T -> real)
    ensures BestFirst(InsertionSort(items, ByWeight(weigh)), weigh)
  {
    SortIsSorted(items, ByWeight(weigh));
    var out := InsertionSort(items, ByWeight(weigh));
    forall i, j | 0 <= i < j < |out| ensures weigh(out[i]) >= weigh(out[j]) {
      assert ByWeight(weigh)(out[i], out[j]);
    }
  }

  /** A stable sort: best first, and the items of any one weight are still in their order. */
  method SortByWeight<T(==, !new)>(items: seq<T>, weigh: T -> real) returns (out: seq<T>)
    ensures BestFirst(out, weigh) && multiset(out) == multiset(items) && |out| == |items|
    ensures forall x :: OfWeight(out, weigh, x) == OfWeight(items, weigh, x)
  {
    out := Sort(items, ByWeight(weigh));
    SortIsBestFirst(items, weigh);
    SortIsPermutation(items, ByWeight(weigh));
    forall x ensures OfWeight(out, weigh, x) == OfWeight(items, weigh, x) {
      SortIsStable(items, weigh, x);
    }
  }

  // -- Weighted sampling --

  function Target(draws: nat -> real, k: nat, total: real): real {
    draws(k) * total
  }

  /** Repeated draws without replacement; draws(k) is the fraction of the remaining total that the k-th draw hits. */
  function Drawn<T>(pool: seq<T>, ws: seq<real>, n: nat, draws: nat -> real, k: nat): seq<T>
    requires |pool| == |ws|
    decreases n - k
  {
    if k >= n || |pool| == 0 then []
    else
      var i := IndexFor(ws, Target(draws, k, Total(ws)), 0);
      [pool[i]] + Drawn(SwapDelete(pool, i), SwapDelete(ws, i), n, draws, k + 1)
  }

  // -- What the draws mean: shares of the total weight --

  /** The target falls into the share of index i: above the weights before it, and not above its own. */
  predicate FallsOn(ws: seq<real>, i: nat, target: real) {
    i < |ws| && target <= Prefix(ws, i + 1) && (i == 0 || Prefix(ws, i) < target)
  }

  ghost predicate Fractions(draws: nat -> real) {
    forall k :: 0.0 <= draws(k) < 1.0
  }

  lemma ProductIsWithin(f: real, total: real)
    requires 0.0 <= f <= 1.0 && total >= 0.0
    ensures 0.0 <= f * total <= total
  {
    var g := 1.0 - f;
    assert g * total >= 0.0;
    assert total == f * total + g * total;
  }

  lemma TargetIsWithin(draws: nat -> real, k: nat, total: real)
    requires Fractions(draws) && total >= 0.0
    ensures 0.0 <= Target(draws, k, total) <= total
  {
    ProductIsWithin(draws(k), total);
  }

  /** The k-th draw and all later ones go by share: each takes out the item on whose share its target falls. */
  ghost predicate ByShares<T(!new)>(out: seq<T>, pool: seq<T>, weigh: T -> real, n: nat, draws: nat -> real, k: nat)
    decreases n - k, 1
  {
    if k >= n || |pool| == 0 then out == []
    else exists i: nat :: TakesShare(out, pool, weigh, n, draws, k, i)
  }

  /** The k-th draw takes out item i, on whose share its target falls. */
  ghost predicate TakesShare<T(!new)>(out: seq<T>, pool: seq<T>, weigh: T -> real, n: nat, draws: nat -> real, k: nat, i: nat)
    decreases n - k, 0
  {
    && k < n && i < |pool| && |out| > 0
    && FallsOn(Weights(pool, weigh), i, Target(draws, k, Total(Weights(pool, weigh))))
    && out[0] == pool[i]
    && ByShares(out[1..], SwapDelete(pool, i), weigh, n, draws, k + 1)
  }

  lemma WeightsOfSwapDelete<T>(pool: seq<T>, weigh: T -> real, i: nat)
    requires i < |pool|
    ensures Weights(SwapDelete(pool, i), weigh) == SwapDelete(Weights(pool, weigh), i)
  {
  }

  /** No two shares overlap, and they leave no gap. */
  lemma SharesPartition(ws: seq<real>, draws: nat -> real, k: nat, i: nat)
    requires Positive(ws) && |ws| > 0 && Fractions(draws)
    ensures FallsOn(ws, i, Target(draws, k, Total(ws))) <==> IndexFor(ws, Target(draws, k, Total(ws)), 0) == i
  {
    PositiveTotal(ws);
    TargetIsWithin(draws, k, Total(ws));
    if i < |ws| {
      DrawnByOwnInterval(ws, Target(draws, k, Total(ws)), i);
    }
  }

  lemma {:induction false} DrawnGoesByShares<T(!new)>(pool: seq<T>, weigh: T -> real, n: nat, draws: nat -> real, k: nat)
    requires Fractions(draws) && forall p :: weigh(p) > 0.0
    ensures ByShares(Drawn(pool, Weights(pool, weigh), n, draws, k), pool, weigh, n, draws, k)
    decreases n - k
  {
    if k < n && |pool| > 0 {
      var ws := Weights(pool, weigh);
      var i := IndexFor(ws, Target(draws, k, Total(ws)), 0);
      SharesPartition(ws, draws, k, i);
      WeightsOfSwapDelete(pool, weigh, i);
      DrawnGoesByShares(SwapDelete(pool, i), weigh, n, draws, k + 1);
      var out := Drawn(pool, ws, n, draws, k);
      assert out[1..] == Drawn(SwapDelete(pool, i), SwapDelete(ws, i), n, draws, k + 1);
      assert TakesShare(out, pool, weigh, n, draws, k, i);
    }
  }

  /** Item i is the first one out exactly if the target falls on its share; the rest is drawn from what remains. */
  lemma FirstDrawGoesByShare<T(!new)>(out: seq<T>, pool: seq<T>, weigh: T -> real, n: nat, draws: nat -> real, k: nat, i: nat)
    requires Fractions(draws) && forall p :: weigh(p) > 0.0
    requires ByShares(out, pool, weigh, n, draws, k) && k < n && i < |pool|
    ensures FallsOn(Weights(pool, weigh), i, Target(draws, k, Total(Weights(pool, weigh)))) <==>
            TakesShare(out, pool, weigh, n, draws, k, i)
  {
    var j: nat :| TakesShare(out, pool, weigh, n, draws, k, j);
    var ws := Weights(pool, weigh);
    SharesPartition(ws, draws, k, i);
    SharesPartition(ws, draws, k, j);
  }

  /** One round of the loop: the draw moves one item out of the pool and one weight out of the total. */
  lemma OneDraw<T>(out: seq<T>, pool: seq<T>, ws: seq<real>, n: nat, draws: nat -> real, i: nat)
    requires |pool| == |ws| && |ws| > 0 && |out| < n && i == IndexFor(ws, Target(draws, |out|, Total(ws)), 0)
    ensures out + [pool[i]] + Drawn(SwapDelete(pool, i), SwapDelete(ws, i), n, draws, |out| + 1)
         == out + Drawn(pool, ws, n, draws, |out|)
    ensures multiset(out + [pool[i]]) + multiset(SwapDelete(pool, i)) == multiset(out) + multiset(pool)
    ensures Total(SwapDelete(ws, i)) == Total(ws) - ws[i]
    ensures Positive(ws) ==> Positive(SwapDelete(ws, i)) && (|ws| > 1 <==> Total(SwapDelete(ws, i)) > 0.0)
  {
    SwapDeleteTakesOne(pool, i);
    TotalOfSwapDelete(ws, i);
    if Positive(ws) {
      PositiveTotal(SwapDelete(ws, i));
    }
    var rest := Drawn(SwapDelete(pool, i), SwapDelete(ws, i), n, draws, |out| + 1);
    assert out + [pool[i]] + rest == out + ([pool[i]] + rest);
  }

  /** The state of the loop: what is out and what remains make up the items, and the draws so far are the specified ones. */
  ghost predicate Underway<T>(out: seq<T>, pool: seq<T>, ws: seq<real>, items: seq<T>, weigh: T -> real, n: nat,
                              draws: nat -> real)
  {
    && |pool| == |ws| == |items| - |out| && |out| <= n && Positive(ws)
    && multiset(out) + multiset(pool) == multiset(items)
    && out + Drawn(pool, ws, n, draws, |out|) == Drawn(items, Weights(items, weigh), n, draws, 0)
  }

  lemma StaysUnderway<T>(out: seq<T>, pool: seq<T>, ws: seq<real>, items: seq<T>, weigh: T -> real, n: nat,
                         draws: nat -> real, i: nat)
    requires Underway(out, pool, ws, items, weigh, n, draws) && |ws| > 0 && |out| < n
    requires i == IndexFor(ws, Target(draws, |out|, Total(ws)), 0)
    ensures Underway(out + [pool[i]], SwapDelete(pool, i), SwapDelete(ws, i), items, weigh, n, draws)
    ensures Total(SwapDelete(ws, i)) == Total(ws) - ws[i]
    ensures |ws| > 1 <==> Total(SwapDelete(ws, i)) > 0.0
  {
    OneDraw(out, pool, ws, n, draws, i);
  }

  lemma Finished<T>(out: seq<T>, pool: seq<T>, ws: seq<real>, items: seq<T>, weigh: T -> real, n: nat, draws: nat -> real)
    requires Underway(out, pool, ws, items, weigh, n, draws) && (|out| == n || |pool| == 0)
    ensures out == Drawn(items, Weights(items, weigh), n, draws, 0) && multiset(out) <= multiset(items)
    ensures |out| == if n < |items| then n else |items|
  {
    assert out + [] == out;
  }

  /** The sum of the weights, element by element. */
  method Sum(weights: seq<real>) returns (total: real)
    ensures total == Total(weights)
  {
    total := 0.0;
    for i := 0 to |weights|
      invariant total == Prefix(weights, i)
    {
      total := total + weights[i];
    }
    WholePrefix(weights);
  }

  /**
   * Up to n distinct picks, by weight and without replacement: a part of the items, of size min(n, |items|). In exact
   * arithmetic the running total is always the sum of the weights that remain, so the recount never finds a pool with
   * nothing to draw.
   */
  method WeightedSample<T(==, !new)>(items: seq<T>, n: nat, weigh: T -> real, draws: nat -> real) returns (out: seq<T>)
    requires forall p :: weigh(p) > 0.0
    ensures multiset(out) <= multiset(items)
    ensures |out| == if n < |items| then n else |items|
    ensures n < |items| ==> out == Drawn(items, Weights(items, weigh), n, draws, 0)
    ensures n >= |items| ==> BestFirst(out, weigh) && forall x :: OfWeight(out, weigh, x) == OfWeight(items, weigh, x)
  {
    if n >= |items| {
      out := SortByWeight(items, weigh);
      return;
    }
    var pool, weights := items, Weights(items, weigh);
    var total := Sum(weights);
    out := [];
    while |out| < n && |pool| > 0
      invariant Underway(out, pool, weights, items, weigh, n, draws)
      invariant total == Total(weights)
    {
      var idx := FindIndex(weights, Target(draws, |out|, total));
      StaysUnderway(out, pool, weights, items, weigh, n, draws, idx);
      out := out + [pool[idx]];
      total := total - weights[idx];
      pool, weights := SwapDelete(pool, idx), SwapDelete(weights, idx);
      if total <= 0.0 {
        total := Sum(weights);
        if total <= 0.0 {
          break;
        }
      }
    }
    Finished(out, pool, weights, items, weigh, n, draws);
  }

  // -- Power of two choices --

  /** Strictly worse than every other item. */
  predicate Worst(items: seq<Proxy>, k: nat, weigh: Proxy -> real)
    requires k < |items|
  {
    forall j | 0 <= j < |items| && j != k :: weigh(items[k]) < weigh(items[j])
  }

  /** The two duellists of a round: the second draw steps aside when it repeats the first. */
  function Opponent(items: seq<Proxy>, i: nat, j: nat): (r: nat)
    requires i < |items| && j < |items|
    ensures r < |items| && (|items| > 1 ==> r != i)
  {
    if j == i && |items| > 1 then (if i + 1 == |items| then 0 else i + 1) else j
  }

  /** The better of the two, the second only if it is strictly better. */
  function Winner(items: seq<Proxy>, i: nat, j: nat, weigh: Proxy -> real): (p: Proxy)
    requires i < |items| && j < |items|
    ensures p in items
  {
    if weigh(items[Opponent(items, i, j)]) > weigh(items[i]) then items[Opponent(items, i, j)] else items[i]
  }

  lemma WinnerIsNotWorst(items: seq<Proxy>, i: nat, j: nat, k: nat, weigh: Proxy -> real)
    requires i < |items| && j < |items| && k < |items| && |items| > 1 && Worst(items, k, weigh)
    ensures Winner(items, i, j, weigh) != items[k]
  {
    var other := Opponent(items, i, j);
    assert i != k ==> weigh(items[k]) < weigh(items[i]);
    assert other != k ==> weigh(items[k]) < weigh(items[other]);
  }

  /** What the duels so far have won: the winner of each round, unless its address has won before. */
  function Duels(items: seq<Proxy>, weigh: Proxy -> real, first: nat -> nat, second: nat -> nat, rounds: nat): (out: seq<Proxy>)
    requires forall r :: first(r) < |items| && second(r) < |items|
    ensures |out| <= rounds && (rounds > 0 ==> |out| >= 1)
    ensures DistinctAddrs(out) && forall p | p in out :: p in items
  {
    if rounds == 0 then []
    else
      var out := Duels(items, weigh, first, second, rounds - 1);
      var pick := Winner(items, first(rounds - 1), second(rounds - 1), weigh);
      if exists p | p in out :: p.addr == pick.addr then out else out + [pick]
  }

  /** The strictly worst item never wins. */
  lemma {:induction false} WorstNeverWins(items: seq<Proxy>, weigh: Proxy -> real, first: nat -> nat, second: nat -> nat,
                                          rounds: nat, k: nat)
    requires forall r :: first(r) < |items| && second(r) < |items|
    requires |items| > 1 && k < |items| && Worst(items, k, weigh)
    ensures items[k] !in Duels(items, weigh, first, second, rounds)
  {
    if rounds > 0 {
      WorstNeverWins(items, weigh, first, second, rounds - 1, k);
      WinnerIsNotWorst(items, first(rounds - 1), second(rounds - 1), k, weigh);
    }
  }

  /** Nobody among those out was strictly worse than all the others. */
  ghost predicate SparesWorst(out: seq<Proxy>, items: seq<Proxy>, weigh: Proxy -> real) {
    forall k | 0 <= k < |items| && Worst(items, k, weigh) :: items[k] !in out
  }

  lemma DuelsSpareWorst(items: seq<Proxy>, weigh: Proxy -> real, first: nat -> nat, second: nat -> nat, rounds: nat)
    requires forall r :: first(r) < |items| && second(r) < |items|
    requires |items| > 1
    ensures SparesWorst(Duels(items, weigh, first, second, rounds), items, weigh)
  {
    forall k | 0 <= k < |items| && Worst(items, k, weigh)
      ensures items[k] !in Duels(items, weigh, first, second, rounds)
    {
      WorstNeverWins(items, weigh, first, second, rounds, k);
    }
  }

  function AddrSet(out: seq<Proxy>): set<string> {
    set p | p in out :: p.addr
  }

  /** One round of the loop: the winner is appended, unless its address has won before. */
  lemma NextDuel(out: seq<Proxy>, items: seq<Proxy>, weigh: Proxy -> real, first: nat -> nat, second: nat -> nat, round: nat,
                 pick: Proxy)
    requires forall r :: first(r) < |items| && second(r) < |items|
    requires out == Duels(items, weigh, first, second, round)
    requires pick == Winner(items, first(round), second(round), weigh)
    ensures Duels(items, weigh, first, second, round + 1) == if pick.addr in AddrSet(out) then out else out + [pick]
    ensures AddrSet(out + [pick]) == AddrSet(out) + {pick.addr}
  {
    assert (exists p | p in out :: p.addr == pick.addr) <==> pick.addr in AddrSet(out);
  }

  /** At least as many picks asked for as there are items: everyone comes back, best first. */
  method EveryoneBestFirst(items: seq<Proxy>, n: nat, weigh: Proxy -> real, draws: nat -> real) returns (out: seq<Proxy>)
    requires n >= |items| && forall p :: weigh(p) > 0.0
    ensures multiset(out) == multiset(items) && |out| == |items| && BestFirst(out, weigh)
    ensures forall x :: OfWeight(out, weigh, x) == OfWeight(items, weigh, x)
  {
    out := WeightedSample(items, n, weigh, draws);
    SubBagOfSameSize(multiset(out), multiset(items));
  }

  /**
   * Repeated duels: at most 16n rounds, and fewer than n picks only after all of them. With n = 0 nothing is drawn;
   * otherwise at least one proxy comes back.
   */
  method P2CSample(items: seq<Proxy>, n: nat, weigh: Proxy -> real, first: nat -> nat, second: nat -> nat, draws: nat -> real)
    returns (out: seq<Proxy>, ghost rounds: nat)
    requires forall p :: weigh(p) > 0.0
    requires |items| > 0 ==> forall r :: first(r) < |items| && second(r) < |items|
    ensures forall p | p in out :: p in items
    ensures |items| <= n ==> |out| == |items| && multiset(out) == multiset(items) && BestFirst(out, weigh)
    ensures |items| <= n ==> forall x :: OfWeight(out, weigh, x) == OfWeight(items, weigh, x)
    ensures n < |items| ==> rounds <= 16 * n && out == Duels(items, weigh, first, second, rounds)
    ensures n < |items| ==> |out| <= n && (|out| < n ==> rounds == 16 * n) && (n > 0 ==> |out| >= 1)
  {
    rounds := 0;
    if n >= |items| {
      out := EveryoneBestFirst(items, n, weigh, draws);
      SameMembers(out, items);
      return;
    }
    out := [];
    var taken: set<string> := {};
    var guard := 0;
    while |out| < n && guard < n * 16
      invariant |out| <= n && guard <= n * 16
      invariant out == Duels(items, weigh, first, second, guard)
      invariant taken == AddrSet(out)
      decreases n * 16 - guard
    {
      var i, j := first(guard), second(guard);
      if j == i && |items| > 1 {
        j := if i + 1 == |items| then 0 else i + 1;
      }
      var a, b := items[i], items[j];
      var pick := a;
      if weigh(b) > weigh(a) {
        pick := b;
      }
      NextDuel(out, items, weigh, first, second, guard, pick);
      guard := guard + 1;
      if pick.addr in taken {
        continue;
      }
      taken := taken + {pick.addr};
      out := out + [pick];
    }
    rounds := guard;
  }

  lemma SubBagOfSameSize<T>(a: multiset<T>, b: multiset<T>)
    requires a <= b && |a| == |b|
    ensures a == b
  {
    assert b == a + (b - a);
  }
}
