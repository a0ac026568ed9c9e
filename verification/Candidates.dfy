/** What may be handed out, and how the requirements of a request are relaxed rung by rung. */
module Candidates {
  import opened Wrappers
  import opened Policies
  import opened PoolModel

  // -- One candidate --

  /** The exclusions that no relaxation touches. */
  datatype Filters = Filters(blocked: string -> bool, country: Proxy -> bool, sourceDisabled: string -> bool)

  datatype Options = Options(protocol: string, region: string, family: string, n: int, channel: string, strategy: string,
                             noCooldown: bool)

  predicate EqualFold(a: string, b: string) {
    Lower(a) == Lower(b)
  }

  predicate Allowed(p: Proxy, f: Filters) {
    !f.blocked(p.addr) && !f.country(p) && !f.sourceDisabled(p.source)
  }

  predicate FamilyFits(p: Proxy, family: string) {
    family == "" || EqualFold(p.family, family)
  }

  /** A proxy of unknown region fits every region. */
  predicate RegionFits(p: Proxy, region: string) {
    region == "" || p.region == "" || EqualFold(p.region, region) || Contains(Lower(p.region), Lower(region))
  }

  predicate ProtocolFits(p: Proxy, protocol: string) {
    protocol == "" || EqualFold(p.protocol, protocol)
  }

  predicate Usable(p: Proxy, opt: Options, banned: set<string>, f: Filters) {
    && Allowed(p, f) && p.addr !in banned
    && ProtocolFits(p, opt.protocol) && RegionFits(p, opt.region) && FamilyFits(p, opt.family)
  }

  /** Everything usable, in order. */
  function Filtered(items: seq<Proxy>, opt: Options, banned: set<string>, f: Filters): seq<Proxy> {
    if |items| == 0 then []
    else
      Filtered(items[..|items| - 1], opt, banned, f) +
      if Usable(items[|items| - 1], opt, banned, f) then [items[|items| - 1]] else []
  }

  /** Nothing usable is lost and nothing else gets through. */
  lemma {:induction false} FilteredIsExact(items: seq<Proxy>, opt: Options, banned: set<string>, f: Filters, p: Proxy)
    ensures p in Filtered(items, opt, banned, f) <==> p in items && Usable(p, opt, banned, f)
  {
    if |items| > 0 {
      FilteredIsExact(items[..|items| - 1], opt, banned, f, p);
      assert items == items[..|items| - 1] + [items[|items| - 1]];
    }
  }

  method FilterCandidates(items: seq<Proxy>, opt: Options, banned: set<string>, f: Filters) returns (out: seq<Proxy>)
    ensures out == Filtered(items, opt, banned, f)
  {
    out := [];
    for i := 0 to |items|
      invariant out == Filtered(items[..i], opt, banned, f)
    {
      var p := items[i];
      assert items[..i + 1][..i] == items[..i];
      if f.blocked(p.addr) {
        continue;
      }
      if f.country(p) {
        continue;
      }
      if f.sourceDisabled(p.source) {
        continue;
      }
      if p.addr in banned {
        continue;
      }
      if opt.protocol != "" && !EqualFold(p.protocol, opt.protocol) {
        continue;
      }
      if opt.region != "" && p.region != "" && !EqualFold(p.region, opt.region) && !Contains(Lower(p.region), Lower(opt.region)) {
        continue;
      }
      if opt.family != "" && !EqualFold(p.family, opt.family) {
        continue;
      }
      out := out + [p];
    }
    assert items[..|items|] == items;
  }

  // -- The rungs --

  /** A store query: its page, or what went wrong. */
  datatype Reply = Page(items: seq<Proxy>) | Failed(error: string)

  /** What the hot cache and the store answer during one descent, were they all asked. They may answer anything. */
  datatype Answers = Answers(hot: Option<seq<Proxy>>, byProtocol: Reply, anyProtocol: Reply, narrow: Reply, wide: Reply)

  function OnReply(r: Reply): seq<Proxy> {
    if r.Page? then r.items else []
  }

  /** A rung: what it offers, and how much of the request it still enforces. */
  datatype Rung = Rung(items: seq<Proxy>, opt: Options)

  function AnyProtocol(opt: Options): Options {
    opt.(protocol := "")
  }

  function FamilyOnly(opt: Options): Options {
    opt.(protocol := "", region := "")
  }

  /** The rungs from the cheapest and strictest down; one that is not asked offers nothing. */
  function RungAt(a: Answers, opt: Options, i: nat): Rung
    requires i < 5
  {
    if i == 0 then Rung(if a.hot.Some? then a.hot.value else [], opt)
    else if i == 1 then Rung(OnReply(a.byProtocol), opt)
    else if i == 2 then Rung(if opt.protocol != "" then OnReply(a.anyProtocol) else [], AnyProtocol(opt))
    else if i == 3 then Rung(OnReply(a.narrow), opt)
    else Rung(if opt.protocol == "" && opt.region == "" then [] else OnReply(a.wide), FamilyOnly(opt))
  }

  predicate Empty(r: Rung, banned: set<string>, f: Filters) {
    forall p | p in r.items :: !Usable(p, r.opt, banned, f)
  }

  function Yield(r: Rung, banned: set<string>, f: Filters): seq<Proxy> {
    Filtered(r.items, r.opt, banned, f)
  }

  predicate NothingUsable(a: Answers, opt: Options, banned: set<string>, f: Filters) {
    EmptyBefore(a, opt, banned, f, 5)
  }

  predicate EmptyBefore(a: Answers, opt: Options, banned: set<string>, f: Filters, i: nat)
    requires i <= 5
  {
    forall j | 0 <= j < i :: Empty(RungAt(a, opt, j), banned, f)
  }

  /** The usable proxies of the first rung that has any. */
  predicate FromFirstRung(out: seq<Proxy>, a: Answers, opt: Options, banned: set<string>, f: Filters) {
    if out == [] then NothingUsable(a, opt, banned, f)
    else exists i | 0 <= i < 5 :: out == Yield(RungAt(a, opt, i), banned, f) && EmptyBefore(a, opt, banned, f, i)
  }

  lemma EmptyIsFilteredAway(r: Rung, banned: set<string>, f: Filters)
    ensures Empty(r, banned, f) <==> Yield(r, banned, f) == []
  {
    forall p ensures p in Yield(r, banned, f) <==> p in r.items && Usable(p, r.opt, banned, f) {
      FilteredIsExact(r.items, r.opt, banned, f, p);
    }
    if Yield(r, banned, f) != [] {
      assert Yield(r, banned, f)[0] in r.items;
    }
  }

  /** Either this rung decides, or the search goes on below it. */
  lemma OneRung(out: seq<Proxy>, a: Answers, opt: Options, banned: set<string>, f: Filters, i: nat)
    requires i < 5 && EmptyBefore(a, opt, banned, f, i) && out == Yield(RungAt(a, opt, i), banned, f)
    ensures if out == [] then EmptyBefore(a, opt, banned, f, i + 1) else FromFirstRung(out, a, opt, banned, f)
  {
    EmptyIsFilteredAway(RungAt(a, opt, i), banned, f);
  }

  /** Asks the hot cache and the store for random proxies, in the order of the first three rungs. */
  method FromRandom(a: Answers, opt: Options, banned: set<string>, f: Filters) returns (out: seq<Proxy>)
    ensures if out == [] then EmptyBefore(a, opt, banned, f, 3) else FromFirstRung(out, a, opt, banned, f)
  {
    out := [];
    if a.hot.Some? {
      out := FilterCandidates(a.hot.value, opt, banned, f);
    }
    OneRung(out, a, opt, banned, f, 0);
    if |out| > 0 {
      return;
    }
    if a.byProtocol.Page? {
      out := FilterCandidates(a.byProtocol.items, opt, banned, f);
    }
    OneRung(out, a, opt, banned, f, 1);
    if |out| > 0 {
      return;
    }
    if opt.protocol != "" && a.anyProtocol.Page? {
      out := FilterCandidates(a.anyProtocol.items, AnyProtocol(opt), banned, f);
    }
    OneRung(out, a, opt, banned, f, 2);
  }

  /** The last store failure, if no page was served; the second page is not asked for when it is the same query again. */
  function LadderError(a: Answers, opt: Options): Option<string> {
    if a.narrow.Page? then None
    else if opt.protocol == "" && opt.region == "" then Some(a.narrow.error)
    else if a.wide.Page? then None
    else Some(a.wide.error)
  }

  /**
   * The first rung that yields anything decides. A store failure is reported only if neither page was served; the
   * second page is not asked for when it would be the same query again.
   */
  method Descend(a: Answers, opt: Options, banned: set<string>, f: Filters) returns (out: seq<Proxy>, error: Option<string>)
    ensures FromFirstRung(out, a, opt, banned, f)
    ensures error == if out == [] then LadderError(a, opt) else None
  {
    error := None;
    out := FromRandom(a, opt, banned, f);
    if |out| > 0 {
      return;
    }
    var served := false;
    var lastErr := None;
    match a.narrow {
      case Failed(e) => lastErr := Some(e);
      case Page(items) =>
        served := true;
        out := FilterCandidates(items, opt, banned, f);
    }
    OneRung(out, a, opt, banned, f, 3);
    if |out| > 0 {
      return;
    }
    if !(opt.protocol == "" && opt.region == "") {
      match a.wide {
        case Failed(e) => lastErr := Some(e);
        case Page(items) =>
          served := true;
          out := FilterCandidates(items, FamilyOnly(opt), banned, f);
      }
    }
    OneRung(out, a, opt, banned, f, 4);
    if |out| == 0 && !served && lastErr.Some? {
      error := lastErr;
    }
  }

  /** Whatever rung they come from, candidates pass every exclusion, the family included. */
  lemma EveryRungExcludes(out: seq<Proxy>, a: Answers, opt: Options, banned: set<string>, f: Filters, p: Proxy)
    requires FromFirstRung(out, a, opt, banned, f) && p in out
    ensures Allowed(p, f) && FamilyFits(p, opt.family) && p.addr !in banned
    ensures !NothingUsable(a, opt, banned, f)
  {
    var i :| 0 <= i < 5 && out == Yield(RungAt(a, opt, i), banned, f);
    FilteredIsExact(RungAt(a, opt, i).items, RungAt(a, opt, i).opt, banned, f, p);
    assert !Empty(RungAt(a, opt, i), banned, f);
  }

  // -- The ladder spelled out, page by page --

  /** Meets the request in everything but the protocol. */
  predicate FitsButProtocol(p: Proxy, opt: Options, banned: set<string>, f: Filters) {
    Allowed(p, f) && p.addr !in banned && RegionFits(p, opt.region) && FamilyFits(p, opt.family)
  }

  /** Meets what is never given up. */
  predicate FitsFamily(p: Proxy, opt: Options, banned: set<string>, f: Filters) {
    Allowed(p, f) && p.addr !in banned && FamilyFits(p, opt.family)
  }

  function OnHot(a: Answers): seq<Proxy> {
    if a.hot.Some? then a.hot.value else []
  }

  predicate SomeoneFits(page: seq<Proxy>, opt: Options, banned: set<string>, f: Filters) {
    exists q :: q in page && Usable(q, opt, banned, f)
  }

  predicate SomeoneFitsButProtocol(page: seq<Proxy>, opt: Options, banned: set<string>, f: Filters) {
    exists q :: q in page && FitsButProtocol(q, opt, banned, f)
  }

  /** The hot cache or the first page has a proxy for the whole request. */
  predicate FitsAtOnce(a: Answers, opt: Options, banned: set<string>, f: Filters) {
    SomeoneFits(OnHot(a), opt, banned, f) || SomeoneFits(OnReply(a.byProtocol), opt, banned, f)
  }

  /** A page of any protocol is asked for, and has a proxy that meets the rest of the request. */
  predicate FitsWithAnyProtocol(a: Answers, opt: Options, banned: set<string>, f: Filters) {
    opt.protocol != "" && SomeoneFitsButProtocol(OnReply(a.anyProtocol), opt, banned, f)
  }

  /** Whether p is among the candidates, by what the pages hold and nothing else. */
  predicate IsCandidate(p: Proxy, a: Answers, opt: Options, banned: set<string>, f: Filters) {
    if SomeoneFits(OnHot(a), opt, banned, f) then p in OnHot(a) && Usable(p, opt, banned, f)
    else if SomeoneFits(OnReply(a.byProtocol), opt, banned, f) then p in OnReply(a.byProtocol) && Usable(p, opt, banned, f)
    else if FitsWithAnyProtocol(a, opt, banned, f) then p in OnReply(a.anyProtocol) && FitsButProtocol(p, opt, banned, f)
    else if SomeoneFits(OnReply(a.narrow), opt, banned, f) then p in OnReply(a.narrow) && Usable(p, opt, banned, f)
    else (opt.protocol != "" || opt.region != "") && p in OnReply(a.wide) && FitsFamily(p, opt, banned, f)
  }

  lemma RungsSpelledOut(a: Answers, opt: Options, banned: set<string>, f: Filters)
    ensures Empty(RungAt(a, opt, 0), banned, f) <==> !SomeoneFits(OnHot(a), opt, banned, f)
    ensures Empty(RungAt(a, opt, 1), banned, f) <==> !SomeoneFits(OnReply(a.byProtocol), opt, banned, f)
    ensures Empty(RungAt(a, opt, 2), banned, f) <==> !FitsWithAnyProtocol(a, opt, banned, f)
    ensures Empty(RungAt(a, opt, 3), banned, f) <==> !SomeoneFits(OnReply(a.narrow), opt, banned, f)
  {
    forall q ensures Usable(q, AnyProtocol(opt), banned, f) <==> FitsButProtocol(q, opt, banned, f) {
    }
  }

  /** The candidates are exactly those of the first page that has any, page by page as the request is relaxed. */
  lemma LadderSpelledOut(out: seq<Proxy>, a: Answers, opt: Options, banned: set<string>, f: Filters, p: Proxy)
    requires FromFirstRung(out, a, opt, banned, f)
    ensures p in out <==> IsCandidate(p, a, opt, banned, f)
  {
    RungsSpelledOut(a, opt, banned, f);
    if out == [] {
      assert Empty(RungAt(a, opt, 0), banned, f) && Empty(RungAt(a, opt, 1), banned, f) && Empty(RungAt(a, opt, 2), banned, f)
             && Empty(RungAt(a, opt, 3), banned, f) && Empty(RungAt(a, opt, 4), banned, f);
      assert p in RungAt(a, opt, 4).items ==> !Usable(p, FamilyOnly(opt), banned, f);
    } else {
      var i: nat :| i < 5 && out == Yield(RungAt(a, opt, i), banned, f) && EmptyBefore(a, opt, banned, f, i);
      RungDecides(out, a, opt, banned, f, i, p);
    }
  }

  lemma RungDecides(out: seq<Proxy>, a: Answers, opt: Options, banned: set<string>, f: Filters, i: nat, p: Proxy)
    requires i < 5 && out != [] && out == Yield(RungAt(a, opt, i), banned, f) && EmptyBefore(a, opt, banned, f, i)
    ensures p in out <==> IsCandidate(p, a, opt, banned, f)
  {
    RungsSpelledOut(a, opt, banned, f);
    EmptyIsFilteredAway(RungAt(a, opt, i), banned, f);
    FilteredIsExact(RungAt(a, opt, i).items, RungAt(a, opt, i).opt, banned, f, p);
    assert forall j | 0 <= j < i :: Empty(RungAt(a, opt, j), banned, f);
  }

  /** A request for a protocol is answered with another one only if nobody met the whole of it at once. */
  lemma ProtocolIsKeptWhileReachable(out: seq<Proxy>, a: Answers, opt: Options, banned: set<string>, f: Filters, p: Proxy)
    requires FromFirstRung(out, a, opt, banned, f) && p in out && !ProtocolFits(p, opt.protocol)
    ensures !FitsAtOnce(a, opt, banned, f)
    ensures p in OnReply(a.anyProtocol) || p in OnReply(a.wide)
  {
    LadderSpelledOut(out, a, opt, banned, f, p);
  }

  /**
   * A request for a region is answered with another one only if nobody met the whole of it in the hot cache, on the
   * first page or on the narrow page, nor, when a protocol was given, all but the protocol on the page of any protocol.
   */
  lemma RegionIsKeptWhileReachable(out: seq<Proxy>, a: Answers, opt: Options, banned: set<string>, f: Filters, p: Proxy)
    requires FromFirstRung(out, a, opt, banned, f) && p in out && !RegionFits(p, opt.region)
    ensures forall q | q in OnHot(a) + OnReply(a.byProtocol) + OnReply(a.narrow) ::
              !(FitsButProtocol(q, opt, banned, f) && ProtocolFits(q, opt.protocol))
    ensures opt.protocol != "" ==> forall q | q in OnReply(a.anyProtocol) :: !FitsButProtocol(q, opt, banned, f)
    ensures p in OnReply(a.wide)
  {
    LadderSpelledOut(out, a, opt, banned, f, p);
    forall q | q in OnHot(a) + OnReply(a.byProtocol) + OnReply(a.narrow)
      ensures !(FitsButProtocol(q, opt, banned, f) && ProtocolFits(q, opt.protocol))
    {
      assert !Usable(q, opt, banned, f);
    }
  }
}
