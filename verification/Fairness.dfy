/** Fairness of round robin over runs of requests on many channels. */
module Fairness {
  import opened Clock
  import opened PoolModel
  import opened Sorting
  import opened RoundRobin

  /** The cursors after a run of requests. */
  function Cursors(cursor: map<string, nat>, run: seq<Request>): map<string, nat> {
    if |run| == 0 then cursor else After(Cursors(cursor, run[..|run| - 1]), run[|run| - 1])
  }

  /** Everything one channel was served in a run, in order. */
  function ServedOn(cursor: map<string, nat>, run: seq<Request>, channel: string): seq<Proxy> {
    if |run| == 0 then []
    else
      ServedOn(cursor, run[..|run| - 1], channel) +
      if run[|run| - 1].channel == channel then Served(Cursors(cursor, run[..|run| - 1]), run[|run| - 1]) else []
  }

  /** No request of the run finds the cursor map over its limit. */
  predicate NeverDropped(cursor: map<string, nat>, run: seq<Request>) {
    |run| > 0 ==>
      NeverDropped(cursor, run[..|run| - 1]) && |Cursors(cursor, run[..|run| - 1])| <= MAX_CURSORS
  }

  /**
   * Every request on the channel offers the same addresses, each once. They may come in any order, and what is known
   * about each of them may change from one request to the next.
   */
  predicate SameWindow(run: seq<Request>, channel: string, addrs: set<string>) {
    forall i | 0 <= i < |run| && run[i].channel == channel :: DistinctAddrs(run[i].items) && Addrs(run[i].items) == addrs
  }

  function Channels(run: seq<Request>): set<string> {
    set r | r in run :: r.channel
  }

  lemma ChannelsOneMore(front: seq<Request>, last: Request)
    ensures Channels(front + [last]) == Channels(front) + {last.channel}
  {
  }

  lemma AfterKeys(cursor: map<string, nat>, r: Request)
    ensures After(cursor, r).Keys <= cursor.Keys + {r.channel}
  {
  }

  /** A run over at most 1024 channels never drops the cursors. */
  lemma {:induction false} FewChannelsNeverDrop(cursor: map<string, nat>, run: seq<Request>)
    requires |cursor.Keys + Channels(run)| <= MAX_CURSORS
    ensures NeverDropped(cursor, run)
    ensures Cursors(cursor, run).Keys <= cursor.Keys + Channels(run)
  {
    if |run| > 0 {
      var front := run[..|run| - 1];
      ChannelsOneMore(front, run[|run| - 1]);
      assert run == front + [run[|run| - 1]];
      SubsetIsNoLarger(cursor.Keys + Channels(front), cursor.Keys + Channels(run));
      FewChannelsNeverDrop(cursor, front);
      SubsetIsNoLarger(Cursors(cursor, front).Keys, cursor.Keys + Channels(run));
      AfterKeys(Cursors(cursor, front), run[|run| - 1]);
    }
  }

  // -- Counting addresses --

  /** How often an address was served. */
  function Times(s: seq<string>, a: string): nat {
    if |s| == 0 then 0 else Times(s[..|s| - 1], a) + if s[|s| - 1] == a then 1 else 0
  }

  lemma {:induction false} TimesIsMultiplicity(s: seq<string>, a: string)
    ensures Times(s, a) == multiset(s)[a]
  {
    if |s| > 0 {
      TimesIsMultiplicity(s[..|s| - 1], a);
      assert s == s[..|s| - 1] + [s[|s| - 1]];
    }
  }

  // -- One turn --

  /** The addresses of a turn whose positions do not wrap around 64 bits. */
  function TurnAddrs(addrs: seq<string>, start: nat, n: nat): (r: seq<string>)
    requires |addrs| > 0
    ensures |r| == n
  {
    if n == 0 then [] else TurnAddrs(addrs, start, n - 1) + [addrs[Rem(start + n - 1, |addrs|)]]
  }

  lemma AddrSeqOfSum(s: seq<Proxy>, t: seq<Proxy>)
    ensures AddrSeq(s + t) == AddrSeq(s) + AddrSeq(t)
  {
  }

  lemma TurnOneMore(ordered: seq<Proxy>, start: nat, n: nat)
    requires |ordered| > 0 && start + n + 1 < 0x1_0000_0000_0000_0000
    ensures Turn(ordered, start, n + 1) == Turn(ordered, start, n) + [ordered[Rem(start + n, |ordered|)]]
  {
  }

  lemma AddrsOneMore(s: seq<Proxy>, t: seq<Proxy>, addrs: seq<string>, p: Proxy)
    requires t == s + [p] && AddrSeq(s) == addrs
    ensures AddrSeq(t) == addrs + [p.addr]
  {
    AddrSeqOfSum(s, [p]);
  }

  lemma {:induction false} AddrsOfTurn(ordered: seq<Proxy>, start: nat, n: nat)
    requires |ordered| > 0 && start + n < 0x1_0000_0000_0000_0000
    ensures AddrSeq(Turn(ordered, start, n)) == TurnAddrs(AddrSeq(ordered), start, n)
    decreases n
  {
    if n > 0 {
      AddrsOfTurn(ordered, start, n - 1);
      TurnOneMore(ordered, start, n - 1);
      AddrsOneMore(Turn(ordered, start, n - 1), Turn(ordered, start, n), TurnAddrs(AddrSeq(ordered), start, n - 1),
                   ordered[Rem(start + (n - 1), |ordered|)]);
    }
  }

  lemma {:induction false} TurnsJoin(addrs: seq<string>, start: nat, k: nat, n: nat)
    requires |addrs| > 0
    ensures TurnAddrs(addrs, start, k) + TurnAddrs(addrs, start + k, n) == TurnAddrs(addrs, start, k + n)
    decreases n
  {
    if n > 0 {
      TurnsJoin(addrs, start, k, n - 1);
      assert start + (k + n) - 1 == start + k + n - 1;
    }
  }

  lemma WalkExtends(addrs: seq<string>, start: nat, k: nat, at: nat, n: nat, m: nat, before: seq<string>, after: seq<string>)
    requires |addrs| > 0 && at == start + k && m == k + n
    requires before == TurnAddrs(addrs, start, k) && after == before + TurnAddrs(addrs, at, n)
    ensures after == TurnAddrs(addrs, start, m)
  {
    TurnsJoin(addrs, start, k, n);
  }

  /** A walk hits each address as often as its stretch of the wheel does. */
  lemma {:induction false} TurnHits(addrs: seq<string>, start: nat, n: nat, j: nat)
    requires Distinct(addrs) && j < |addrs|
    ensures Times(TurnAddrs(addrs, start, n), addrs[j]) == Hits(start, n, |addrs|, j)
    decreases n
  {
    if n > 0 {
      TurnHits(addrs, start, n - 1, j);
    }
  }

  // -- One request --

  lemma Advances(cursor: map<string, nat>, channel: string, step: nat)
    requires |cursor| <= MAX_CURSORS && Position(cursor, channel) + step < 0x1_0000_0000_0000_0000
    ensures Position(Advanced(cursor, channel, step), channel) == Position(cursor, channel) + step
  {
  }

  lemma ServedIsTurn(cursor: map<string, nat>, r: Request)
    requires |cursor| <= MAX_CURSORS && |r.items| > 0
    ensures Served(cursor, r) == Turn(Ordered(r.items), Position(cursor, r.channel), Step(r))
    ensures |Served(cursor, r)| == Step(r)
    ensures After(cursor, r) == Advanced(cursor, r.channel, Step(r))
  {
  }

  lemma OwnPosition(cursor: map<string, nat>, r: Request, start: nat)
    requires |cursor| <= MAX_CURSORS && |r.items| > 0
    requires Position(cursor, r.channel) == start && start + |Served(cursor, r)| < 0x1_0000_0000_0000_0000
    ensures Position(After(cursor, r), r.channel) == start + |Served(cursor, r)|
  {
    ServedIsTurn(cursor, r);
    Advances(cursor, r.channel, Step(r));
  }

  lemma OwnAddrs(cursor: map<string, nat>, r: Request, start: nat)
    requires |cursor| <= MAX_CURSORS && |r.items| > 0
    requires Position(cursor, r.channel) == start && start + |Served(cursor, r)| < 0x1_0000_0000_0000_0000
    ensures AddrSeq(Served(cursor, r)) == TurnAddrs(AddrSeq(Ordered(r.items)), start, Step(r))
  {
    ServedIsTurn(cursor, r);
    AddrsOfTurn(Ordered(r.items), start, Step(r));
  }

  /** A request on another channel leaves it alone. */
  lemma OtherRequest(cursor: map<string, nat>, r: Request, channel: string)
    requires |cursor| <= MAX_CURSORS && r.channel != channel
    ensures Position(After(cursor, r), channel) == Position(cursor, channel)
  {
  }

  // -- Whole runs --

  /** A window in order, as addresses: it depends only on the set of them. */
  lemma OrderedAddrs(items: seq<Proxy>, addrs: set<string>)
    requires DistinctAddrs(items) && Addrs(items) == addrs
    ensures |items| == |addrs| && multiset(AddrSeq(items)) == multiset(addrs)
    ensures Distinct(AddrSeq(Ordered(items))) && multiset(AddrSeq(Ordered(items))) == multiset(addrs)
  {
    DistinctIsSet(AddrSeq(items));
    assert (set x | x in AddrSeq(items)) == addrs by {
      forall x ensures x in AddrSeq(items) <==> x in addrs {
        if x in addrs {
          var p :| p in items && p.addr == x;
          var i :| 0 <= i < |items| && items[i] == p;
          assert AddrSeq(items)[i] == x;
        }
      }
    }
    AddrsOrdered(items);
    SortIsPermutation(AddrSeq(items), AddrOrder());
    SetBagIsDistinct(AddrSeq(Ordered(items)), addrs);
  }

  lemma SameOrder(items: seq<Proxy>, others: seq<Proxy>, addrs: set<string>)
    requires DistinctAddrs(items) && Addrs(items) == addrs && DistinctAddrs(others) && Addrs(others) == addrs
    ensures AddrSeq(Ordered(items)) == AddrSeq(Ordered(others)) && |items| == |others| == |addrs|
    ensures Distinct(AddrSeq(Ordered(items)))
  {
    OrderedAddrs(items, addrs);
    OrderedAddrs(others, addrs);
    ShuffleDoesNotMatter(items, others);
  }

  /** The last request of a run adds one turn, from where the cursor stands. */
  lemma RunTurns(cursor: map<string, nat>, front: seq<Request>, last: Request, addrs: seq<string>)
    requires |Cursors(cursor, front)| <= MAX_CURSORS && |last.items| > 0 && addrs == AddrSeq(Ordered(last.items))
    requires Position(Cursors(cursor, front), last.channel) + Step(last) < 0x1_0000_0000_0000_0000
    ensures Position(Cursors(cursor, front + [last]), last.channel) == Position(Cursors(cursor, front), last.channel) + Step(last)
    ensures |ServedOn(cursor, front + [last], last.channel)| == |ServedOn(cursor, front, last.channel)| + Step(last)
    ensures AddrSeq(ServedOn(cursor, front + [last], last.channel)) ==
            AddrSeq(ServedOn(cursor, front, last.channel)) +
            TurnAddrs(addrs, Position(Cursors(cursor, front), last.channel), Step(last))
  {
    RunOneMore(cursor, front, last, last.channel);
    ServedIsTurn(Cursors(cursor, front), last);
    OwnPosition(Cursors(cursor, front), last, Position(Cursors(cursor, front), last.channel));
    OwnAddrs(Cursors(cursor, front), last, Position(Cursors(cursor, front), last.channel));
    AddrSeqOfSum(ServedOn(cursor, front, last.channel), Served(Cursors(cursor, front), last));
  }

  /** The cursor stands where the walk stopped, and what was served is one walk without gaps. */
  predicate Walked(cursor: map<string, nat>, run: seq<Request>, channel: string, addrs: seq<string>)
    requires |addrs| > 0
  {
    && Position(Cursors(cursor, run), channel) == Position(cursor, channel) + |ServedOn(cursor, run, channel)|
    && AddrSeq(ServedOn(cursor, run, channel)) == TurnAddrs(addrs, Position(cursor, channel), |ServedOn(cursor, run, channel)|)
  }

  lemma OwnStep(cursor: map<string, nat>, front: seq<Request>, last: Request, addrs: seq<string>)
    requires |Cursors(cursor, front)| <= MAX_CURSORS && |last.items| > 0 && addrs == AddrSeq(Ordered(last.items))
    requires Walked(cursor, front, last.channel, addrs)
    requires Position(cursor, last.channel) + |ServedOn(cursor, front + [last], last.channel)| < 0x1_0000_0000_0000_0000
    ensures Walked(cursor, front + [last], last.channel, addrs)
  {
    RunOneMore(cursor, front, last, last.channel);
    ServedIsTurn(Cursors(cursor, front), last);
    RunTurns(cursor, front, last, addrs);
    var before, after := ServedOn(cursor, front, last.channel), ServedOn(cursor, front + [last], last.channel);
    WalkExtends(addrs, Position(cursor, last.channel), |before|, Position(Cursors(cursor, front), last.channel), Step(last),
                |after|, AddrSeq(before), AddrSeq(after));
  }

  lemma OtherStep(cursor: map<string, nat>, front: seq<Request>, last: Request, channel: string, addrs: seq<string>)
    requires |Cursors(cursor, front)| <= MAX_CURSORS && last.channel != channel && |addrs| > 0
    requires Walked(cursor, front, channel, addrs)
    ensures Walked(cursor, front + [last], channel, addrs)
  {
    RunOneMore(cursor, front, last, channel);
    OtherRequest(Cursors(cursor, front), last, channel);
    assert ServedOn(cursor, front, channel) + [] == ServedOn(cursor, front, channel);
  }

  lemma {:induction false} RunWalksTheWheel(cursor: map<string, nat>, run: seq<Request>, channel: string, pool: seq<Proxy>)
    requires NeverDropped(cursor, run) && SameWindow(run, channel, Addrs(pool)) && DistinctAddrs(pool) && |pool| > 0
    requires Position(cursor, channel) + |ServedOn(cursor, run, channel)| < 0x1_0000_0000_0000_0000
    ensures Walked(cursor, run, channel, AddrSeq(Ordered(pool)))
  {
    if |run| > 0 {
      var front, last := run[..|run| - 1], run[|run| - 1];
      assert run == front + [last];
      RunOneMore(cursor, front, last, channel);
      RunWalksTheWheel(cursor, front, channel, pool);
      if last.channel == channel {
        SameOrder(last.items, pool, Addrs(pool));
        OwnStep(cursor, front, last, AddrSeq(Ordered(pool)));
      } else {
        OtherStep(cursor, front, last, channel, AddrSeq(Ordered(pool)));
      }
    }
  }

  /** How many of the served proxies have the address. */
  function ServedTimes(cursor: map<string, nat>, run: seq<Request>, channel: string, a: string): nat {
    multiset(AddrSeq(ServedOn(cursor, run, channel)))[a]
  }

  /** The requests on the channel, if there are any, offer a window to count against. */
  lemma WindowOf(run: seq<Request>, channel: string, addrs: set<string>) returns (pool: seq<Proxy>)
    requires SameWindow(run, channel, addrs) && exists i :: 0 <= i < |run| && run[i].channel == channel
    ensures DistinctAddrs(pool) && Addrs(pool) == addrs
  {
    var i :| 0 <= i < |run| && run[i].channel == channel;
    pool := run[i].items;
  }

  lemma {:induction false} NothingServed(cursor: map<string, nat>, run: seq<Request>, channel: string)
    requires forall i | 0 <= i < |run| :: run[i].channel != channel
    ensures ServedOn(cursor, run, channel) == []
  {
    if |run| > 0 {
      NothingServed(cursor, run[..|run| - 1], channel);
    }
  }

  /**
   * Whatever the sizes of its requests, whatever is learnt about its proxies and whatever other channels ask for in
   * between: a channel that was served K proxies in all has been given each of its m addresses ⌊K/m⌋ or ⌈K/m⌉ times.
   */
  lemma RoundRobinIsFair(cursor: map<string, nat>, run: seq<Request>, channel: string, addrs: set<string>, a: string)
    requires NeverDropped(cursor, run) && SameWindow(run, channel, addrs) && a in addrs
    requires Position(cursor, channel) + |ServedOn(cursor, run, channel)| < 0x1_0000_0000_0000_0000
    ensures |addrs| > 0
    ensures Quot(|ServedOn(cursor, run, channel)|, |addrs|) <= ServedTimes(cursor, run, channel, a)
    ensures ServedTimes(cursor, run, channel, a) <=
            Quot(|ServedOn(cursor, run, channel)|, |addrs|) + if Rem(|ServedOn(cursor, run, channel)|, |addrs|) > 0 then 1 else 0
  {
    assert |addrs| > 0;
    if exists i :: 0 <= i < |run| && run[i].channel == channel {
      var pool := WindowOf(run, channel, addrs);
      OrderedAddrs(pool, addrs);
      var ordered := AddrSeq(Ordered(pool));
      assert a in multiset(ordered);
      var j :| 0 <= j < |ordered| && ordered[j] == a;
      RunWalksTheWheel(cursor, run, channel, pool);
      TurnHits(ordered, Position(cursor, channel), |ServedOn(cursor, run, channel)|, j);
      WheelIsFair(Position(cursor, channel), |ServedOn(cursor, run, channel)|, |addrs|, j);
      TimesIsMultiplicity(AddrSeq(ServedOn(cursor, run, channel)), a);
    } else {
      NothingServed(cursor, run, channel);
    }
  }

  // -- Other channels --

  /** The requests of a run on one channel. */
  function Only(run: seq<Request>, channel: string): seq<Request> {
    if |run| == 0 then []
    else Only(run[..|run| - 1], channel) + if run[|run| - 1].channel == channel then [run[|run| - 1]] else []
  }

  lemma SamePositionSameTurn(a: map<string, nat>, b: map<string, nat>, r: Request)
    requires |a| <= MAX_CURSORS && |b| <= MAX_CURSORS && Position(a, r.channel) == Position(b, r.channel)
    ensures Served(a, r) == Served(b, r)
    ensures Position(After(a, r), r.channel) == Position(After(b, r), r.channel)
    ensures After(b, r).Keys <= b.Keys + {r.channel}
  {
  }

  lemma OneKeyAtMost(m: map<string, nat>, channel: string)
    requires m.Keys <= {channel}
    ensures |m| <= 1
  {
    SubsetIsNoLarger(m.Keys, {channel});
    assert |m| == |m.Keys|;
  }

  lemma RunOneMore(cursor: map<string, nat>, front: seq<Request>, last: Request, channel: string)
    ensures Cursors(cursor, front + [last]) == After(Cursors(cursor, front), last)
    ensures ServedOn(cursor, front + [last], channel)
         == ServedOn(cursor, front, channel) + if last.channel == channel then Served(Cursors(cursor, front), last) else []
  {
    assert (front + [last])[..|front|] == front;
  }

  /** A channel's walk is the one it would have had alone, from its own position. */
  lemma {:induction false} OthersDoNotDisturb(cursor: map<string, nat>, alone: map<string, nat>, run: seq<Request>, channel: string)
    requires NeverDropped(cursor, run)
    requires alone.Keys <= {channel} && Position(alone, channel) == Position(cursor, channel)
    ensures ServedOn(cursor, run, channel) == ServedOn(alone, Only(run, channel), channel)
    ensures Position(Cursors(cursor, run), channel) == Position(Cursors(alone, Only(run, channel)), channel)
    ensures Cursors(alone, Only(run, channel)).Keys <= {channel}
  {
    if |run| > 0 {
      var front, last := run[..|run| - 1], run[|run| - 1];
      OthersDoNotDisturb(cursor, alone, front, channel);
      if last.channel == channel {
        OneKeyAtMost(Cursors(alone, Only(front, channel)), channel);
        SamePositionSameTurn(Cursors(cursor, front), Cursors(alone, Only(front, channel)), last);
        RunOneMore(alone, Only(front, channel), last, channel);
      } else {
        OtherRequest(Cursors(cursor, front), last, channel);
        assert Only(run, channel) == Only(front, channel);
      }
    }
  }
}
