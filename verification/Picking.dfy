/** Selection: what each strategy hands out, and one pick from end to end. */
module Picking {
  import opened Clock
  import opened Wrappers
  import opened PoolModel
  import opened Registries
  import opened Candidates
  import RegistryModel
  import Sampling
  import Shuffling
  import RoundRobin
  import Sorting

  // -- Strategies --

  /** The random source: fractions in [0, 1), integers below a bound, and for the shuffle positions at or below a position. */
  datatype Draws = Draws(fraction: nat -> real, below: (nat, nat) -> nat, exchange: nat -> nat)

  ghost predicate Fair(d: Draws) {
    && Sampling.Fractions(d.fraction)
    && (forall k, m | m > 0 :: d.below(k, m) < m)
    && Shuffling.AtOrBelow(d.exchange)
  }

  const RANDOM := "random"
  const RR := "rr"
  const P2C := "p2c"

  function Key(channel: string): string {
    if channel == "" then "_global" else channel
  }

  /** The recently served addresses, unless the request does not care. */
  function Cooling(picks: RoundRobin.PickState, items: seq<Proxy>, now: Time, off: bool): set<string>
    reads picks
  {
    if off || picks.cooldown <= 0 then {}
    else RoundRobin.Addrs(items) * RoundRobin.Fresh(picks.served, now, picks.cooldown).Keys
  }

  predicate WithinItems(out: seq<Proxy>, items: seq<Proxy>) {
    forall p | p in out :: p in items
  }

  lemma SubBagIsWithin(out: seq<Proxy>, items: seq<Proxy>)
    requires multiset(out) <= multiset(items)
    ensures WithinItems(out, items)
  {
    forall p | p in out ensures p in items {
      assert p in multiset(out);
    }
  }

  lemma ServedIsWithin(cursor: map<string, nat>, r: RoundRobin.Request)
    requires |r.items| > 0
    ensures WithinItems(RoundRobin.Served(cursor, r), r.items)
    ensures |RoundRobin.Served(cursor, r)| == RoundRobin.Step(r)
  {
    var ordered := RoundRobin.Ordered(r.items);
    Sorting.SortIsPermutation(r.items, RoundRobin.ByAddr());
    Sorting.SameMembers(ordered, r.items);
    RoundRobin.TurnStaysWithin(ordered, RoundRobin.Position(RoundRobin.Remaining(cursor), r.channel), RoundRobin.Step(r));
  }

  function AtLeastOne(n: int): (r: nat)
    ensures r >= 1
  {
    if n <= 0 then 1 else n
  }

  function SizeOf(items: seq<Proxy>, n: nat): nat {
    if n < |items| then n else |items|
  }

  // -- What each strategy promises about what it hands out --

  /** The shuffle cut to size. */
  ghost predicate RandomPick(out: seq<Proxy>, items: seq<Proxy>, n: nat, d: Draws)
    requires Fair(d)
  {
    out == Shuffling.Shuffled(items, d.exchange, Shuffling.Top(items))[..SizeOf(items, n)]
  }

  /** Everyone, best first, and those of one weight in their order. */
  ghost predicate AllBestFirst(out: seq<Proxy>, items: seq<Proxy>, weigh: Proxy -> real) {
    && multiset(out) == multiset(items)
    && Sampling.BestFirst(out, weigh)
    && forall x :: Sampling.OfWeight(out, weigh, x) == Sampling.OfWeight(items, weigh, x)
  }

  /** Every draw goes by the shares of weight of what is left; with nothing to choose, everyone best first. */
  ghost predicate WeightedPick(out: seq<Proxy>, items: seq<Proxy>, n: nat, weigh: Proxy -> real, d: Draws) {
    if n < |items| then Sampling.ByShares(out, items, weigh, n, d.fraction, 0) else AllBestFirst(out, items, weigh)
  }

  /** Nobody strictly worse than all others; with nothing to choose, everyone best first. */
  ghost predicate P2CPick(out: seq<Proxy>, items: seq<Proxy>, n: nat, weigh: Proxy -> real) {
    if n < |items| then Sampling.SparesWorst(out, items, weigh) else AllBestFirst(out, items, weigh)
  }

  /** Weights, where they matter, are those with the given addresses cooling down. */
  ghost predicate PickedBy(strategy: string, out: seq<Proxy>, items: seq<Proxy>, n: nat, recent: set<string>, d: Draws)
    requires Fair(d)
  {
    if strategy == RANDOM then RandomPick(out, items, n, d)
    else if strategy == P2C then P2CPick(out, items, n, Sampling.Weigher(recent))
    else WeightedPick(out, items, n, Sampling.Weigher(recent), d)
  }

  method DrawRandom(items: seq<Proxy>, n: nat, d: Draws) returns (out: seq<Proxy>)
    requires Fair(d)
    ensures RandomPick(out, items, n, d) && WithinItems(out, items) && |out| == SizeOf(items, n)
  {
    var shuffled := Shuffling.Shuffle(items, d.exchange);
    Sorting.SameMembers(shuffled, items);
    out := if n < |shuffled| then shuffled[..n] else shuffled;
  }

  method DrawP2C(items: seq<Proxy>, n: nat, recent: set<string>, d: Draws) returns (out: seq<Proxy>)
    requires |items| > 0 && n > 0 && Fair(d)
    ensures P2CPick(out, items, n, Sampling.Weigher(recent)) && WithinItems(out, items) && 1 <= |out| <= SizeOf(items, n)
  {
    var m := |items|;
    ghost var rounds;
    var first, second := (k: nat) => d.below(2 * k, m), (k: nat) => d.below(2 * k + 1, m);
    out, rounds := Sampling.P2CSample(items, n, Sampling.Weigher(recent), first, second, d.fraction);
    if n < m {
      Sampling.DuelsSpareWorst(items, Sampling.Weigher(recent), first, second, rounds);
    }
  }

  method DrawWeighted(items: seq<Proxy>, n: nat, recent: set<string>, d: Draws) returns (out: seq<Proxy>)
    requires Fair(d)
    ensures WeightedPick(out, items, n, Sampling.Weigher(recent), d) && WithinItems(out, items) && |out| == SizeOf(items, n)
  {
    out := Sampling.WeightedSample(items, n, Sampling.Weigher(recent), d.fraction);
    SubBagIsWithin(out, items);
    if n < |items| {
      Sampling.DrawnGoesByShares(items, Sampling.Weigher(recent), n, d.fraction, 0);
    } else {
      Sampling.SubBagOfSameSize(multiset(out), multiset(items));
    }
  }

  method Draw(items: seq<Proxy>, n: nat, strategy: string, key: string, picks: RoundRobin.PickState, recent: set<string>,
              draws: Draws)
    returns (out: seq<Proxy>)
    requires |items| > 0 && n > 0 && Fair(draws) && RoundRobin.ProperCursors(picks.cursor)
    modifies picks`cursor
    ensures RoundRobin.ProperCursors(picks.cursor)
    ensures WithinItems(out, items) && 1 <= |out| <= SizeOf(items, n)
    ensures strategy != P2C ==> |out| == SizeOf(items, n)
    ensures strategy == RR ==> out == RoundRobin.Served(old(picks.cursor), RoundRobin.Request(key, items, n))
    ensures strategy == RR ==> picks.cursor == RoundRobin.After(old(picks.cursor), RoundRobin.Request(key, items, n))
    ensures strategy != RR ==> picks.cursor == old(picks.cursor)
    ensures strategy != RR ==> PickedBy(strategy, out, items, n, recent, draws)
  {
    if strategy == RANDOM {
      out := DrawRandom(items, n, draws);
    } else if strategy == RR {
      ServedIsWithin(picks.cursor, RoundRobin.Request(key, items, n));
      out := picks.RrSelect(items, n, key);
    } else if strategy == P2C {
      out := DrawP2C(items, n, recent, draws);
    } else {
      out := DrawWeighted(items, n, recent, draws);
    }
  }

  /** Reduces the candidates to at most n, and remembers who was served. */
  method ApplyStrategy(items: seq<Proxy>, opt: Options, picks: RoundRobin.PickState, draws: Draws, now: Time)
    returns (out: seq<Proxy>)
    requires Fair(draws) && RoundRobin.ProperCursors(picks.cursor)
    modifies picks`cursor, picks`served
    ensures RoundRobin.ProperCursors(picks.cursor)
    ensures WithinItems(out, items) && |out| <= SizeOf(items, AtLeastOne(opt.n))
    ensures |items| > 0 ==> |out| >= 1 && picks.served == RoundRobin.Remembered(old(picks.served), out, now, picks.cooldown)
    ensures |items| > 0 && opt.strategy != P2C ==> |out| == SizeOf(items, AtLeastOne(opt.n))
    ensures opt.strategy == RR ==>
              out == RoundRobin.Served(old(picks.cursor), RoundRobin.Request(Key(opt.channel), items, AtLeastOne(opt.n)))
    ensures |items| > 0 && opt.strategy != RR ==>
              PickedBy(opt.strategy, out, items, AtLeastOne(opt.n), old(Cooling(picks, items, now, opt.noCooldown)), draws)
  {
    var n := if opt.n <= 0 then 1 else opt.n;
    if |items| == 0 {
      return [];
    }
    var recent := {};
    if !opt.noCooldown {
      recent := picks.RecentlyServed(items, now);
    }
    out := Draw(items, n, opt.strategy, Key(opt.channel), picks, recent, draws);
    picks.MarkServed(out, now);
  }

  // -- One pick --

  datatype PickError = NoProxy(family: string) | StoreFailed(error: string)

  datatype PickResult = Picked(items: seq<Proxy>, relaxed: bool) | NotPicked(error: PickError)

  /** Nothing usable even after the bans, if there were any, were set aside. */
  predicate OutOfProxies(opt: Options, banned: set<string>, f: Filters, first: Answers, second: Answers) {
    NothingUsable(first, opt, banned, f) && (banned != {} ==> NothingUsable(second, opt, {}, f))
  }

  /** Why nothing was picked: what the store said last, or that there is no proxy. */
  function WhyNot(opt: Options, banned: set<string>, first: Answers, second: Answers): PickError {
    if banned != {} && LadderError(second, opt).Some? then StoreFailed(LadderError(second, opt).value)
    else if LadderError(first, opt).Some? then StoreFailed(LadderError(first, opt).value)
    else NoProxy(opt.family)
  }

  /** What every pick keeps: the exclusions always, the bans unless honouring them left nothing. */
  predicate KeepsExclusions(r: PickResult, opt: Options, banned: set<string>, f: Filters, first: Answers) {
    r.Picked? ==>
      && |r.items| >= 1
      && (forall p | p in r.items :: Allowed(p, f) && FamilyFits(p, opt.family))
      && (!r.relaxed ==> forall p | p in r.items :: p.addr !in banned)
      && (r.relaxed <==> NothingUsable(first, opt, banned, f))
  }

  lemma CandidatesKeepExclusions(out: seq<Proxy>, items: seq<Proxy>, a: Answers, opt: Options, banned: set<string>, f: Filters)
    requires FromFirstRung(items, a, opt, banned, f) && WithinItems(out, items)
    ensures forall p | p in out :: Allowed(p, f) && FamilyFits(p, opt.family) && p.addr !in banned
    ensures items == [] <==> NothingUsable(a, opt, banned, f)
  {
    forall p | p in items ensures Allowed(p, f) && FamilyFits(p, opt.family) && p.addr !in banned {
      EveryRungExcludes(items, a, opt, banned, f, p);
    }
    if items != [] {
      EveryRungExcludes(items, a, opt, banned, f, items[0]);
    }
  }

  /** A channel sees no bans if it has no name or no registry watches it. */
  ghost function BansOn(registry: Registry?, channel: string, now: Time): set<string>
    reads registry
  {
    if channel == "" || registry == null then {} else RegistryModel.BanSetOf(registry.Value(), channel, now).Keys
  }

  /**
   * The single entry point: the candidates that honour the channel's bans, or else, if there are bans, the candidates
   * without them; the store may have changed in between.
   */
  method Pick(opt: Options, registry: Registry?, picks: RoundRobin.PickState, f: Filters, first: Answers, second: Answers,
              draws: Draws, now: Time)
    returns (r: PickResult, ghost window: seq<Proxy>)
    requires Fair(draws) && RoundRobin.ProperCursors(picks.cursor)
    modifies picks`cursor, picks`served
    ensures RoundRobin.ProperCursors(picks.cursor)
    ensures KeepsExclusions(r, opt, old(BansOn(registry, opt.channel, now)), f, first)
    ensures r.NotPicked? <==> OutOfProxies(opt, old(BansOn(registry, opt.channel, now)), f, first, second)
    ensures r.NotPicked? ==> r.error == WhyNot(opt, old(BansOn(registry, opt.channel, now)), first, second)
    ensures r.Picked? ==> |r.items| <= AtLeastOne(opt.n)
    ensures r.Picked? && !r.relaxed ==> FromFirstRung(window, first, opt, old(BansOn(registry, opt.channel, now)), f)
    ensures r.Picked? && r.relaxed ==> FromFirstRung(window, second, opt, {}, f)
    ensures r.Picked? && opt.strategy == RR ==>
              r.items == RoundRobin.Served(old(picks.cursor), RoundRobin.Request(Key(opt.channel), window, AtLeastOne(opt.n)))
    ensures r.Picked? && opt.strategy != RR ==>
              PickedBy(opt.strategy, r.items, window, AtLeastOne(opt.n), old(Cooling(picks, window, now, opt.noCooldown)), draws)
    ensures r.Picked? ==> picks.served == RoundRobin.Remembered(old(picks.served), r.items, now, picks.cooldown)
    ensures r.NotPicked? ==> picks.cursor == old(picks.cursor) && picks.served == old(picks.served)
  {
    var banned := {};
    if opt.channel != "" && registry != null {
      var bans := registry.BanSet(opt.channel, now);
      banned := bans.Keys;
    }
    var items, error := Descend(first, opt, banned, f);
    CandidatesKeepExclusions([], items, first, opt, banned, f);
    if |items| == 0 && |banned| > 0 {
      var relaxed, again := Descend(second, opt, {}, f);
      CandidatesKeepExclusions([], relaxed, second, opt, {}, f);
      if |relaxed| > 0 {
        var out := ApplyStrategy(relaxed, opt, picks, draws, now);
        CandidatesKeepExclusions(out, relaxed, second, opt, {}, f);
        return Picked(out, true), relaxed;
      } else if again.Some? {
        error := again;
      }
    }
    if |items| == 0 {
      return NotPicked(if error.Some? then StoreFailed(error.value) else NoProxy(opt.family)), [];
    }
    var out := ApplyStrategy(items, opt, picks, draws, now);
    CandidatesKeepExclusions(out, items, first, opt, banned, f);
    r, window := Picked(out, false), items;
  }
}
