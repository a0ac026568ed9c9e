/** Round robin: the walk over the candidates in address order, and its fairness over whole runs of requests. */
module RoundRobin {
  import opened Clock
  import opened PoolModel
  import opened Sorting

  // -- The order of addresses --

  /** Strings in lexicographic order. */
  predicate AtMost(a: string, b: string) {
    |a| == 0 || (|b| > 0 && (a[0] < b[0] || (a[0] == b[0] && AtMost(a[1..], b[1..]))))
  }

  lemma {:induction false} AtMostTotal(a: string, b: string)
    ensures AtMost(a, b) || AtMost(b, a)
    ensures AtMost(a, b) && AtMost(b, a) ==> a == b
  {
    if |a| > 0 && |b| > 0 {
      AtMostTotal(a[1..], b[1..]);
      assert a[0] == b[0] && a[1..] == b[1..] ==> a == [b[0]] + b[1..] == b;
    }
  }

  lemma {:induction false} AtMostTransitive(a: string, b: string, c: string)
    requires AtMost(a, b) && AtMost(b, c)
    ensures AtMost(a, c)
  {
    if |a| > 0 && a[0] == b[0] == c[0] {
      AtMostTransitive(a[1..], b[1..], c[1..]);
    }
  }

  function AddrOrder(): (leq: (string, string) -> bool)
    ensures forall a, b :: leq(a, b) <==> AtMost(a, b)
  {
    (a, b) => AtMost(a, b)
  }

  lemma AddrOrderIsTotal()
    ensures TotalOrder(AddrOrder()) && Antisymmetric(AddrOrder())
  {
    forall a, b ensures (AtMost(a, b) || AtMost(b, a)) && (AtMost(a, b) && AtMost(b, a) ==> a == b) {
      AtMostTotal(a, b);
    }
    forall a, b, c | AtMost(a, b) && AtMost(b, c) ensures AtMost(a, c) {
      AtMostTransitive(a, b, c);
    }
  }

  function ByAddr(): (leq: (Proxy, Proxy) -> bool)
    ensures forall p, q :: leq(p, q) <==> AtMost(p.addr, q.addr)
  {
    (p: Proxy, q: Proxy) => AtMost(p.addr, q.addr)
  }

  lemma ByAddrIsTotal()
    ensures TotalOrder(ByAddr())
  {
    forall p: Proxy, q: Proxy ensures AtMost(p.addr, q.addr) || AtMost(q.addr, p.addr) {
      AtMostTotal(p.addr, q.addr);
    }
    forall p: Proxy, q: Proxy, r: Proxy | AtMost(p.addr, q.addr) && AtMost(q.addr, r.addr) ensures AtMost(p.addr, r.addr) {
      AtMostTransitive(p.addr, q.addr, r.addr);
    }
  }

  /** The candidates sorted by address. */
  function Ordered(items: seq<Proxy>): (r: seq<Proxy>)
    ensures |r| == |items|
  {
    InsertionSort(items, ByAddr())
  }

  function AddrSeq(items: seq<Proxy>): (r: seq<string>)
    ensures |r| == |items|
    ensures forall i | 0 <= i < |items| :: r[i] == items[i].addr
  {
    if |items| == 0 then [] else AddrSeq(items[..|items| - 1]) + [items[|items| - 1].addr]
  }

  lemma {:induction false} AddrsPlaced(s: seq<Proxy>, p: Proxy)
    ensures AddrSeq(Placed(s, p, ByAddr())) == Placed(AddrSeq(s), p.addr, AddrOrder())
  {
    if |s| == 0 || AtMost(s[|s| - 1].addr, p.addr) {
      assert AddrSeq(s + [p]) == AddrSeq(s) + [p.addr];
    } else {
      AddrsPlaced(s[..|s| - 1], p);
      assert AddrSeq(s)[..|s| - 1] == AddrSeq(s[..|s| - 1]);
    }
  }

  /** Sorting the candidates sorts their addresses. */
  lemma {:induction false} AddrsOrdered(items: seq<Proxy>)
    ensures AddrSeq(Ordered(items)) == InsertionSort(AddrSeq(items), AddrOrder())
  {
    if |items| > 0 {
      AddrsOrdered(items[..|items| - 1]);
      AddrsPlaced(Ordered(items[..|items| - 1]), items[|items| - 1]);
      assert AddrSeq(items)[..|items| - 1] == AddrSeq(items[..|items| - 1]);
    }
  }

  /**
   * The walk does not depend on how the candidate window was shuffled, nor on anything but the addresses in it: two
   * windows with the same addresses are walked in the same order.
   */
  lemma ShuffleDoesNotMatter(items: seq<Proxy>, others: seq<Proxy>)
    requires multiset(AddrSeq(items)) == multiset(AddrSeq(others))
    ensures AddrSeq(Ordered(items)) == AddrSeq(Ordered(others))
  {
    AddrOrderIsTotal();
    AddrsOrdered(items);
    AddrsOrdered(others);
    SortIsSorted(AddrSeq(items), AddrOrder());
    SortIsSorted(AddrSeq(others), AddrOrder());
    SortIsPermutation(AddrSeq(items), AddrOrder());
    SortIsPermutation(AddrSeq(others), AddrOrder());
    SortedIsUnique(AddrSeq(Ordered(items)), AddrSeq(Ordered(others)), AddrOrder());
  }

  method SortByAddr(items: seq<Proxy>) returns (ordered: seq<Proxy>)
    ensures ordered == Ordered(items) && Sorted(ordered, ByAddr()) && multiset(ordered) == multiset(items)
  {
    ordered := Sort(items, ByAddr());
    ByAddrIsTotal();
    SortIsSorted(items, ByAddr());
    SortIsPermutation(items, ByAddr());
  }

  // -- Positions --

  /** The remainder of a division, by repeated subtraction. */
  function Rem(x: nat, m: nat): (r: nat)
    requires m > 0
    ensures r < m
  {
    if x < m then x else Rem(x - m, m)
  }

  /** The quotient and the remainder are those of the division. */
  lemma {:induction false} RemIsRemainder(x: nat, m: nat)
    requires m > 0
    ensures x == m * Quot(x, m) + Rem(x, m)
    decreases x
  {
    if x >= m {
      RemIsRemainder(x - m, m);
      RestStep(x, m, Quot(x - m, m));
    }
  }

  /** How many of the positions below x land on index j of m: a count in closed form. */
  function Landings(x: nat, m: nat, j: nat): int
    requires j < m
  {
    Quot(x + m - 1 - j, m)
  }

  lemma {:induction false} QuotStep(y: nat, m: nat)
    requires m > 0
    ensures Quot(y + 1, m) == Quot(y, m) + if Rem(y + 1, m) == 0 then 1 else 0
    decreases y
  {
    if y >= m {
      QuotStep(y - m, m);
    }
  }

  lemma {:induction false} RemShift(x: nat, m: nat, j: nat)
    requires j < m
    ensures Rem(x + m - j, m) == 0 <==> Rem(x, m) == j
    decreases x
  {
    if x >= m {
      RemShift(x - m, m, j);
    }
  }

  /** Counting the positions start, start + 1, … that land on index j. */
  function Hits(start: nat, k: nat, m: nat, j: nat): nat
    requires j < m
  {
    if k == 0 then 0 else Hits(start, k - 1, m, j) + if Rem(start + k - 1, m) == j then 1 else 0
  }

  lemma {:induction false} HitsAreLandings(start: nat, k: nat, m: nat, j: nat)
    requires j < m
    ensures Hits(start, k, m, j) == Landings(start + k, m, j) - Landings(start, m, j)
    decreases k
  {
    if k > 0 {
      HitsAreLandings(start, k - 1, m, j);
      var y := start + k - 1 + m - 1 - j;
      QuotStep(y, m);
      RemShift(start + k - 1, m, j);
    }
  }

  /** A quotient over a sum is the sum of the quotients, or one more; exactly the sum if nothing is left over. */
  lemma {:induction false} QuotOfSum(a: nat, k: nat, m: nat)
    requires m > 0
    ensures Quot(k, m) <= Quot(a + k, m) - Quot(a, m) <= Quot(k, m) + if Rem(k, m) > 0 then 1 else 0
    decreases a + k
  {
    if k >= m {
      QuotOfSum(a, k - m, m);
    } else if a >= m {
      QuotOfSum(a - m, k, m);
    }
  }

  /** After k steps around a wheel of m, every index was visited ⌊k/m⌋ or ⌈k/m⌉ times. */
  lemma WheelIsFair(start: nat, k: nat, m: nat, j: nat)
    requires j < m
    ensures Quot(k, m) <= Hits(start, k, m, j) <= Quot(k, m) + if Rem(k, m) > 0 then 1 else 0
  {
    HitsAreLandings(start, k, m, j);
    QuotOfSum(start + m - 1 - j, k, m);
  }

  // -- The cursors --

  const MAX_CURSORS := 1024

  predicate ProperCursors(cursor: map<string, nat>) {
    |cursor| <= MAX_CURSORS + 1 && forall c | c in cursor :: cursor[c] < 0x1_0000_0000_0000_0000
  }

  function Remaining(cursor: map<string, nat>): map<string, nat> {
    if |cursor| > MAX_CURSORS then map[] else cursor
  }

  function Position(cursor: map<string, nat>, channel: string): nat {
    if channel in cursor then cursor[channel] else 0
  }

  function Advanced(cursor: map<string, nat>, channel: string, step: nat): map<string, nat> {
    Remaining(cursor)[channel := (Position(Remaining(cursor), channel) + step) % 0x1_0000_0000_0000_0000]
  }

  lemma AdvancedIsProper(cursor: map<string, nat>, channel: string, step: nat)
    requires ProperCursors(cursor)
    ensures ProperCursors(Advanced(cursor, channel, step))
  {
    var r := Remaining(cursor);
    assert Advanced(cursor, channel, step).Keys == r.Keys + {channel};
    assert |Advanced(cursor, channel, step)| == |r.Keys + {channel}| <= |r.Keys| + 1;
  }

  // -- One request --

  datatype Request = Request(channel: string, items: seq<Proxy>, n: nat)

  function Step(r: Request): nat {
    if r.n > |r.items| then |r.items| else r.n
  }

  /** The next n of the ordered candidates, from a position that may wrap around 64 bits. */
  function Turn(ordered: seq<Proxy>, start: nat, n: nat): (out: seq<Proxy>)
    requires |ordered| > 0
    ensures |out| == n
  {
    if n == 0 then []
    else Turn(ordered, start, n - 1) + [ordered[Rem((start + n - 1) % 0x1_0000_0000_0000_0000, |ordered|)]]
  }

  lemma {:induction false} TurnStaysWithin(ordered: seq<Proxy>, start: nat, n: nat)
    requires |ordered| > 0
    ensures forall p | p in Turn(ordered, start, n) :: p in ordered
  {
    if n > 0 {
      TurnStaysWithin(ordered, start, n - 1);
    }
  }

  function Served(cursor: map<string, nat>, r: Request): seq<Proxy> {
    if |r.items| == 0 then []
    else Turn(Ordered(r.items), Position(Remaining(cursor), r.channel), Step(r))
  }

  function After(cursor: map<string, nat>, r: Request): map<string, nat> {
    if |r.items| == 0 then cursor else Advanced(cursor, r.channel, Step(r))
  }

  // -- The memory of the selection --

  const MAX_SERVED := 8192

  function Addrs(items: seq<Proxy>): set<string> {
    set p | p in items :: p.addr
  }

  function Stamped(served: map<string, Time>, items: seq<Proxy>, now: Time): map<string, Time> {
    map a | a in served.Keys + Addrs(items) :: if a in Addrs(items) then now else served[a]
  }

  function Fresh(served: map<string, Time>, now: Time, cooldown: Duration): map<string, Time> {
    map a | a in served && now - served[a] < cooldown :: served[a]
  }

  function Remembered(served: map<string, Time>, items: seq<Proxy>, now: Time, cooldown: Duration): map<string, Time> {
    if |Stamped(served, items, now)| <= MAX_SERVED then Stamped(served, items, now)
    else if |Fresh(Stamped(served, items, now), now, cooldown)| <= MAX_SERVED
      then Fresh(Stamped(served, items, now), now, cooldown)
    else Stamped(map[], items, now)
  }

  lemma StampedOneMore(served: map<string, Time>, items: seq<Proxy>, p: Proxy, now: Time)
    ensures Stamped(served, items + [p], now) == Stamped(served, items, now)[p.addr := now]
  {
    assert Addrs(items + [p]) == Addrs(items) + {p.addr};
  }

  /** Forgetting is harmless until more addresses are cooling down than the memory holds. */
  lemma CooldownIsRemembered(served: map<string, Time>, items: seq<Proxy>, now: Time, cooldown: Duration, later: Time, a: string)
    requires now <= later
    requires |Fresh(Stamped(served, items, now), now, cooldown)| <= MAX_SERVED
    ensures a in Fresh(Remembered(served, items, now, cooldown), later, cooldown)
       <==> a in Fresh(Stamped(served, items, now), later, cooldown)
  {
  }

  /** Whoever was handed out at one instant is cooling down from then on for as long as the cooldown lasts, and no longer. */
  lemma ServedCoolsDown(served: map<string, Time>, items: seq<Proxy>, now: Time, cooldown: Duration, later: Time, a: string)
    requires a in Addrs(items) && cooldown > 0 && now <= later
    ensures a in Fresh(Remembered(served, items, now, cooldown), later, cooldown) <==> later - now < cooldown
  {
  }

  lemma MemoryIsBounded(served: map<string, Time>, items: seq<Proxy>, now: Time, cooldown: Duration)
    ensures |Remembered(served, items, now, cooldown)| <= MAX_SERVED
         || Remembered(served, items, now, cooldown).Keys == Addrs(items)
  {
  }

  method Walk(ordered: seq<Proxy>, start: nat, n: nat) returns (out: seq<Proxy>)
    requires |ordered| > 0
    ensures out == Turn(ordered, start, n)
  {
    out := [];
    for i := 0 to n
      invariant out == Turn(ordered, start, i)
    {
      out := out + [ordered[Rem((start + i) % 0x1_0000_0000_0000_0000, |ordered|)]];
    }
  }

  class PickState {
    var served: map<string, Time>
    var cursor: map<string, nat>
    var cooldown: Duration

    constructor ()
      ensures served == map[] && cursor == map[] && cooldown == Seconds(30) && ProperCursors(cursor)
    {
      served, cursor, cooldown := map[], map[], Seconds(30);
    }

    method SetCooldown(d: Duration)
      modifies this`cooldown
      ensures cooldown == d
    {
      cooldown := d;
    }

    /** The addresses among the items that are still cooling down; none if the cooldown is off. */
    method RecentlyServed(items: seq<Proxy>, now: Time) returns (recent: set<string>)
      ensures recent == if cooldown <= 0 then {} else Addrs(items) * Fresh(served, now, cooldown).Keys
    {
      recent := {};
      if cooldown <= 0 {
        return;
      }
      for i := 0 to |items|
        invariant recent == Addrs(items[..i]) * Fresh(served, now, cooldown).Keys
      {
        var a := items[i].addr;
        assert items[..i + 1] == items[..i] + [items[i]];
        assert Addrs(items[..i + 1]) == Addrs(items[..i]) + {a};
        if a in served && now - served[a] < cooldown {
          recent := recent + {a};
        }
      }
      assert items[..|items|] == items;
    }

    method Stamp(items: seq<Proxy>, now: Time)
      modifies this`served
      ensures served == Stamped(old(served), items, now)
    {
      for i := 0 to |items|
        invariant served == Stamped(old(served), items[..i], now)
      {
        assert items[..i + 1] == items[..i] + [items[i]];
        StampedOneMore(old(served), items[..i], items[i], now);
        served := served[items[i].addr := now];
      }
      assert items[..|items|] == items;
    }

    /** Stamps the items; over the limit it forgets what has cooled down, and then everything else. */
    method MarkServed(items: seq<Proxy>, now: Time)
      modifies this`served
      ensures served == Remembered(old(served), items, now, cooldown)
    {
      Stamp(items, now);
      if |served| > MAX_SERVED {
        served := Fresh(served, now, cooldown);
        if |served| > MAX_SERVED {
          served := map[];
          Stamp(items, now);
        }
      }
    }

    method NextCursor(channel: string, step: nat) returns (cur: nat)
      requires ProperCursors(cursor)
      modifies this`cursor
      ensures cur == Position(Remaining(old(cursor)), channel)
      ensures cursor == Advanced(old(cursor), channel, step) && ProperCursors(cursor)
    {
      AdvancedIsProper(cursor, channel, step);
      if |cursor| > MAX_CURSORS {
        cursor := map[];
      }
      cur := if channel in cursor then cursor[channel] else 0;
      cursor := cursor[channel := (cur + step) % 0x1_0000_0000_0000_0000];
    }

    method RrSelect(items: seq<Proxy>, n: nat, channel: string) returns (out: seq<Proxy>)
      requires ProperCursors(cursor)
      modifies this`cursor
      ensures out == Served(old(cursor), Request(channel, items, n)) && ProperCursors(cursor)
      ensures cursor == After(old(cursor), Request(channel, items, n))
    {
      if |items| == 0 {
        return [];
      }
      var ordered := SortByAddr(items);
      var count := if n > |ordered| then |ordered| else n;
      var start := NextCursor(channel, count);
      out := Walk(ordered, start, count);
    }
  }
}
