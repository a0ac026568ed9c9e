/** The pool of warm connections to the exit hop: each one has a single owner, whatever the callers interleave. */
module ViaPool {
  import opened Clock
  import opened Wrappers

  /** A dialled connection, numbered in the order of dialling. */
  type Conn = nat

  datatype IdleConn = IdleConn(c: Conn, at: Time)

  const MAX_IDLE := 8
  const WARM := 4

  /** Idle for more than 25 seconds. */
  predicate Expired(it: IdleConn, now: Time) {
    now - it.at > 25_000_000_000
  }

  // -- The idle list --

  function Conns(idle: seq<IdleConn>): set<Conn> {
    set it | it in idle :: it.c
  }

  predicate DistinctConns(idle: seq<IdleConn>) {
    forall i, j | 0 <= i < j < |idle| :: idle[i].c != idle[j].c
  }

  /** Oldest first, nothing from the future. */
  predicate ByAge(idle: seq<IdleConn>, now: Time) {
    && (forall i, j | 0 <= i < j < |idle| :: idle[i].at <= idle[j].at)
    && (forall i | 0 <= i < |idle| :: idle[i].at <= now)
  }

  datatype Popped = Popped(rest: seq<IdleConn>, got: Option<Conn>, dropped: set<Conn>)

  /** From the newest backwards: expired ones are dropped until one is still good. */
  function PopFrom(idle: seq<IdleConn>, now: Time): Popped {
    if |idle| == 0 then Popped([], None, {})
    else if Expired(idle[|idle| - 1], now) then
      var r := PopFrom(idle[..|idle| - 1], now);
      r.(dropped := r.dropped + {idle[|idle| - 1].c})
    else Popped(idle[..|idle| - 1], Some(idle[|idle| - 1].c), {})
  }

  /** What is not expired, in order. */
  function Unexpired(idle: seq<IdleConn>, now: Time): seq<IdleConn> {
    if |idle| == 0 then []
    else Unexpired(idle[..|idle| - 1], now) + if Expired(idle[|idle| - 1], now) then [] else [idle[|idle| - 1]]
  }

  function ExpiredConns(idle: seq<IdleConn>, now: Time): set<Conn> {
    set it | it in idle && Expired(it, now) :: it.c
  }

  lemma FrontAndLast(idle: seq<IdleConn>)
    requires |idle| > 0
    ensures idle == idle[..|idle| - 1] + [idle[|idle| - 1]]
    ensures Conns(idle) == Conns(idle[..|idle| - 1]) + {idle[|idle| - 1].c}
  {
    assert idle == idle[..|idle| - 1] + [idle[|idle| - 1]];
  }

  /** A connection comes back exactly if an unexpired one is idle. */
  lemma {:induction false} PopYieldsIffUnexpired(idle: seq<IdleConn>, now: Time)
    ensures PopFrom(idle, now).got.Some? <==> exists it | it in idle :: !Expired(it, now)
  {
    if |idle| > 0 {
      FrontAndLast(idle);
      PopYieldsIffUnexpired(idle[..|idle| - 1], now);
    }
  }

  lemma {:induction false} AllExpiredAreDropped(idle: seq<IdleConn>, now: Time)
    requires forall i | 0 <= i < |idle| :: Expired(idle[i], now)
    ensures PopFrom(idle, now) == Popped([], None, Conns(idle))
  {
    if |idle| > 0 {
      FrontAndLast(idle);
      AllExpiredAreDropped(idle[..|idle| - 1], now);
    }
  }

  /** By age, the newest decides: it comes back and nothing is dropped, or everything is dropped. */
  lemma PopTakesNewest(idle: seq<IdleConn>, now: Time)
    requires ByAge(idle, now)
    ensures PopFrom(idle, now) ==
            if |idle| > 0 && !Expired(idle[|idle| - 1], now) then Popped(idle[..|idle| - 1], Some(idle[|idle| - 1].c), {})
            else Popped([], None, Conns(idle))
  {
    if |idle| > 0 && Expired(idle[|idle| - 1], now) {
      AllExpiredAreDropped(idle, now);
    }
  }

  lemma {:induction false} UnexpiredMembers(idle: seq<IdleConn>, now: Time, it: IdleConn)
    ensures it in Unexpired(idle, now) <==> it in idle && !Expired(it, now)
    ensures |Unexpired(idle, now)| <= |idle|
  {
    if |idle| > 0 {
      UnexpiredMembers(idle[..|idle| - 1], now, it);
      FrontAndLast(idle);
    }
  }

  lemma {:induction false} UnexpiredDistinct(idle: seq<IdleConn>, now: Time)
    requires DistinctConns(idle)
    ensures DistinctConns(Unexpired(idle, now)) && |Unexpired(idle, now)| <= |idle|
  {
    if |idle| > 0 {
      var n := |idle| - 1;
      UnexpiredDistinct(idle[..n], now);
      forall it | it in Unexpired(idle[..n], now) ensures it.c != idle[n].c {
        UnexpiredMembers(idle[..n], now, it);
      }
    }
  }

  /** Expiring splits the list: every connection stays or is dropped, and none does both. */
  lemma UnexpiredSplits(idle: seq<IdleConn>, now: Time, c: Conn)
    requires DistinctConns(idle)
    ensures c in Conns(idle) <==> c in Conns(Unexpired(idle, now)) || c in ExpiredConns(idle, now)
    ensures !(c in Conns(Unexpired(idle, now)) && c in ExpiredConns(idle, now))
  {
    forall it ensures it in Unexpired(idle, now) <==> it in idle && !Expired(it, now) {
      UnexpiredMembers(idle, now, it);
    }
  }

  lemma {:induction false} UnexpiredByAge(idle: seq<IdleConn>, now: Time, later: Time)
    requires ByAge(idle, later)
    ensures ByAge(Unexpired(idle, now), later)
    ensures forall it | it in Unexpired(idle, now) :: it in idle
  {
    if |idle| > 0 {
      var n := |idle| - 1;
      UnexpiredByAge(idle[..n], now, later);
      assert idle == idle[..n] + [idle[n]];
      forall it | it in Unexpired(idle[..n], now) ensures it.at <= idle[n].at {
        var i :| 0 <= i < n && idle[i] == it;
      }
    }
  }

  // -- The state: who owns which connection --

  /**
   * warming: dialled, not yet put; handed: given to a caller, in order; closing: taken off the list by Close, which
   * closes them after releasing the lock.
   */
  datatype State = State(dialled: nat, warming: set<Conn>, idle: seq<IdleConn>, handed: seq<Conn>, closing: set<Conn>,
                         closed: set<Conn>, dead: bool, now: Time)

  /** One critical section, or one dial, of any goroutine. */
  datatype Event =
    | Pop
    | DialForCaller
    | DialForWarm
    | DialBroken
    | Put(c: Conn)
    | Expire
    | Close
    | CloseOne(c: Conn)

  function Initial(now: Time): State {
    State(0, {}, [], [], {}, {}, false, now)
  }

  /** Only a warming connection is put, and only Close's own are closed by it; clocks do not run backwards. */
  predicate Enabled(s: State, e: Event, now: Time) {
    && s.now <= now
    && (e.Put? ==> e.c in s.warming)
    && (e.CloseOne? ==> e.c in s.closing)
  }

  function Handed(s: State, got: Option<Conn>): seq<Conn> {
    if got.Some? then s.handed + [got.value] else s.handed
  }

  function Next(s: State, e: Event, now: Time): State {
    match e
    case Pop =>
      s.(idle := PopFrom(s.idle, now).rest, handed := Handed(s, PopFrom(s.idle, now).got),
         closed := s.closed + PopFrom(s.idle, now).dropped, now := now)
    case DialForCaller => s.(dialled := s.dialled + 1, handed := s.handed + [s.dialled], now := now)
    case DialForWarm => s.(dialled := s.dialled + 1, warming := s.warming + {s.dialled}, now := now)
    case DialBroken => s.(dialled := s.dialled + 1, closed := s.closed + {s.dialled}, now := now)
    case Put(c) =>
      if s.dead || |s.idle| >= MAX_IDLE then s.(warming := s.warming - {c}, closed := s.closed + {c}, now := now)
      else s.(warming := s.warming - {c}, idle := s.idle + [IdleConn(c, now)], now := now)
    case Expire =>
      s.(idle := Unexpired(s.idle, now), closed := s.closed + ExpiredConns(s.idle, now), now := now)
    case Close =>
      if s.dead then s.(now := now)
      else s.(dead := true, idle := [], closing := s.closing + Conns(s.idle), now := now)
    case CloseOne(c) => s.(closing := s.closing - {c}, closed := s.closed + {c}, now := now)
  }

  // -- One owner each --

  function Owners(s: State, c: Conn): nat {
    (if c in s.warming then 1 else 0) + (if c in Conns(s.idle) then 1 else 0) + (if c in s.handed then 1 else 0)
    + (if c in s.closing then 1 else 0) + (if c in s.closed then 1 else 0)
  }

  predicate NoneTwice(s: seq<Conn>) {
    forall i, j | 0 <= i < j < |s| :: s[i] != s[j]
  }

  /** Every dialled connection is in exactly one place, every other number in none; no connection is handed out twice. */
  ghost predicate Linear(s: State) {
    && (forall c: Conn :: Owners(s, c) == if c < s.dialled then 1 else 0)
    && DistinctConns(s.idle) && NoneTwice(s.handed)
  }

  predicate Orderly(s: State) {
    |s.idle| <= MAX_IDLE && ByAge(s.idle, s.now) && (s.dead ==> s.idle == [])
  }

  /** Linear again, if every connection has as many owners as before. */
  lemma SameOwners(s: State, t: State)
    requires Linear(s) && t.dialled == s.dialled
    requires forall c: Conn :: Owners(t, c) == Owners(s, c)
    requires DistinctConns(t.idle) && NoneTwice(t.handed)
    ensures Linear(t)
  {
  }

  lemma OwnedOnce(s: State, c: Conn)
    requires Linear(s)
    ensures Owners(s, c) == if c < s.dialled then 1 else 0
  {
  }

  lemma PopKeepsLinear(s: State, now: Time)
    requires Linear(s) && Orderly(s) && s.now <= now
    ensures Linear(Next(s, Pop, now)) && Orderly(Next(s, Pop, now))
  {
    var t := Next(s, Pop, now);
    PopTakesNewest(s.idle, now);
    if |s.idle| > 0 {
      FrontAndLast(s.idle);
    }
    forall c: Conn ensures Owners(t, c) == Owners(s, c) && (c in Conns(s.idle) ==> c !in s.handed) {
      OwnedOnce(s, c);
    }
    SameOwners(s, t);
  }

  lemma AppendedConn(idle: seq<IdleConn>, it: IdleConn)
    ensures Conns(idle + [it]) == Conns(idle) + {it.c}
    ensures DistinctConns(idle) && it.c !in Conns(idle) ==> DistinctConns(idle + [it])
  {
    forall i | 0 <= i < |idle| ensures idle[i].c in Conns(idle) {
      assert idle[i] in idle;
    }
  }

  lemma PutKeepsLinear(s: State, c: Conn, now: Time)
    requires Linear(s) && Orderly(s) && s.now <= now && c in s.warming
    ensures Linear(Next(s, Put(c), now)) && Orderly(Next(s, Put(c), now))
  {
    var t := Next(s, Put(c), now);
    OwnedOnce(s, c);
    AppendedConn(s.idle, IdleConn(c, now));
    forall d: Conn ensures Owners(t, d) == Owners(s, d) {
    }
    SameOwners(s, t);
  }

  lemma ExpireKeepsLinear(s: State, now: Time)
    requires Linear(s) && Orderly(s) && s.now <= now
    ensures Linear(Next(s, Expire, now)) && Orderly(Next(s, Expire, now))
  {
    var t := Next(s, Expire, now);
    UnexpiredDistinct(s.idle, now);
    UnexpiredByAge(s.idle, now, now);
    forall c: Conn ensures Owners(t, c) == Owners(s, c) {
      OwnedOnce(s, c);
      UnexpiredSplits(s.idle, now, c);
    }
    SameOwners(s, t);
  }

  lemma CloseKeepsLinear(s: State, e: Event, now: Time)
    requires Linear(s) && Orderly(s) && Enabled(s, e, now) && (e.Close? || e.CloseOne?)
    ensures Linear(Next(s, e, now)) && Orderly(Next(s, e, now))
  {
    var t := Next(s, e, now);
    forall c: Conn ensures Owners(t, c) == Owners(s, c) {
      OwnedOnce(s, c);
    }
    SameOwners(s, t);
  }

  lemma DialKeepsLinear(s: State, e: Event, now: Time)
    requires Linear(s) && Orderly(s) && s.now <= now && (e.DialForCaller? || e.DialForWarm? || e.DialBroken?)
    ensures Linear(Next(s, e, now)) && Orderly(Next(s, e, now))
  {
    var t := Next(s, e, now);
    OwnedOnce(s, s.dialled);
    forall c: Conn ensures Owners(t, c) == if c < t.dialled then 1 else 0 {
      OwnedOnce(s, c);
    }
  }

  lemma StepKeepsLinear(s: State, e: Event, now: Time)
    requires Linear(s) && Orderly(s) && Enabled(s, e, now)
    ensures Linear(Next(s, e, now)) && Orderly(Next(s, e, now))
  {
    match e
    case Pop => PopKeepsLinear(s, now);
    case Put(c) => PutKeepsLinear(s, c, now);
    case Expire => ExpireKeepsLinear(s, now);
    case Close => CloseKeepsLinear(s, e, now);
    case CloseOne(_) => CloseKeepsLinear(s, e, now);
    case _ => DialKeepsLinear(s, e, now);
  }

  // -- Every interleaving --

  function Run(s: State, run: seq<(Event, Time)>): State {
    if |run| == 0 then s else Next(Run(s, run[..|run| - 1]), run[|run| - 1].0, run[|run| - 1].1)
  }

  predicate Possible(s: State, run: seq<(Event, Time)>) {
    |run| > 0 ==>
      Possible(s, run[..|run| - 1]) && Enabled(Run(s, run[..|run| - 1]), run[|run| - 1].0, run[|run| - 1].1)
  }

  /** Whatever is interleaved, connections are neither lost, nor shared, nor handed out twice. */
  lemma {:induction false} EveryRunIsLinear(start: Time, run: seq<(Event, Time)>)
    requires Possible(Initial(start), run)
    ensures Linear(Run(Initial(start), run)) && Orderly(Run(Initial(start), run))
  {
    if |run| > 0 {
      EveryRunIsLinear(start, run[..|run| - 1]);
      StepKeepsLinear(Run(Initial(start), run[..|run| - 1]), run[|run| - 1].0, run[|run| - 1].1);
    }
  }

  /** Once closed and quiet, the pool holds nothing: every connection ever dialled is closed or in a caller's hands. */
  lemma NothingLeaks(start: Time, run: seq<(Event, Time)>, c: Conn)
    requires Possible(Initial(start), run)
    requires Run(Initial(start), run).dead
    requires Run(Initial(start), run).warming == {} && Run(Initial(start), run).closing == {}
    requires c < Run(Initial(start), run).dialled
    ensures c in Run(Initial(start), run).handed <==> c !in Run(Initial(start), run).closed
  {
    EveryRunIsLinear(start, run);
    assert Owners(Run(Initial(start), run), c) == 1;
  }

  /** A closed pool stays closed, and nothing becomes idle in it again. */
  lemma {:induction false} ClosedForGood(s: State, run: seq<(Event, Time)>)
    requires s.dead && s.idle == []
    ensures Run(s, run).dead && Run(s, run).idle == []
  {
    if |run| > 0 {
      ClosedForGood(s, run[..|run| - 1]);
    }
  }

  /**
   * A pool that went from one list and flag to the other, handing out got, closing closed and taking closing off for
   * later, has made the step e: so it does in every state that shows the same list and flag.
   */
  ghost predicate IsStep(e: Event, now: Time, before: seq<IdleConn>, wasDead: bool, after: seq<IdleConn>, isDead: bool,
                         got: Option<Conn>, closed: set<Conn>, closing: set<Conn>)
  {
    forall s: State | s.idle == before && s.dead == wasDead ::
      Next(s, e, now) == s.(idle := after, dead := isDead, handed := Handed(s, got), closed := s.closed + closed,
                            closing := s.closing + closing, warming := if e.Put? then s.warming - {e.c} else s.warming,
                            now := now)
  }

  lemma PutIsStep(c: Conn, now: Time, before: seq<IdleConn>, dead: bool)
    ensures if dead || |before| >= MAX_IDLE then IsStep(Put(c), now, before, dead, before, dead, None, {c}, {})
            else IsStep(Put(c), now, before, dead, before + [IdleConn(c, now)], dead, None, {}, {})
  {
  }

  lemma ExpireIsStep(now: Time, before: seq<IdleConn>, dead: bool)
    ensures IsStep(Expire, now, before, dead, Unexpired(before, now), dead, None, ExpiredConns(before, now), {})
  {
  }

  // -- The pool in place --

  class Pool {
    const buf: array<IdleConn>
    var count: nat
    var dead: bool
    var hits: nat
    var misses: nat
    var drops: nat

    ghost predicate Valid()
      reads this
    {
      buf.Length == MAX_IDLE && count <= MAX_IDLE
    }

    function Idle(): seq<IdleConn>
      requires count <= buf.Length
      reads this, buf
    {
      buf[..count]
    }

    constructor ()
      ensures Valid() && Idle() == [] && !dead && hits == misses == drops == 0 && fresh(buf)
    {
      buf := new IdleConn[MAX_IDLE](_ => IdleConn(0, 0));
      count, dead, hits, misses, drops := 0, false, 0, 0, 0;
    }

    method PopIdle(now: Time) returns (got: Option<Conn>, closed: set<Conn>)
      requires Valid()
      modifies this`count, this`drops
      ensures Valid() && count <= old(count) && old(drops) <= drops
      ensures Idle() == PopFrom(old(Idle()), now).rest
      ensures got == PopFrom(old(Idle()), now).got && closed == PopFrom(old(Idle()), now).dropped
      ensures drops - old(drops) == old(count) - count - (if got.Some? then 1 else 0)
      ensures IsStep(Pop, now, old(Idle()), dead, Idle(), dead, got, closed, {})
    {
      closed := {};
      while count > 0
        invariant Valid() && count <= old(count)
        invariant PopFrom(old(Idle()), now)
               == PopFrom(buf[..count], now).(dropped := PopFrom(buf[..count], now).dropped + closed)
        invariant drops - old(drops) == old(count) - count
        decreases count
      {
        assert buf[..count][..count - 1] == buf[..count - 1];
        var last := buf[count - 1];
        count := count - 1;
        if Expired(last, now) {
          closed := closed + {last.c};
          drops := drops + 1;
          continue;
        }
        return Some(last.c), closed;
      }
      got := None;
    }

    /** Keeps the connection, or closes it if the pool is dead or full. */
    method PutIdle(c: Conn, now: Time) returns (closed: bool)
      requires Valid()
      modifies this`count, buf
      ensures Valid() && (closed <==> dead || old(count) >= MAX_IDLE)
      ensures Idle() == if closed then old(Idle()) else old(Idle()) + [IdleConn(c, now)]
      ensures IsStep(Put(c), now, old(Idle()), dead, Idle(), dead, None, if closed then {c} else {}, {})
    {
      PutIsStep(c, now, Idle(), dead);
      if dead || count >= MAX_IDLE {
        return true;
      }
      buf[count] := IdleConn(c, now);
      count := count + 1;
      closed := false;
    }

    /** Filters the list in place. */
    method ExpireIdle(now: Time) returns (closed: set<Conn>)
      requires Valid()
      modifies this`count, this`drops, buf
      ensures Valid() && Idle() == Unexpired(old(Idle()), now) && closed == ExpiredConns(old(Idle()), now)
      ensures drops - old(drops) == old(count) - count
      ensures IsStep(Expire, now, old(Idle()), dead, Idle(), dead, None, closed, {})
    {
      ghost var was := Idle();
      closed := {};
      var kept := 0;
      for i := 0 to count
        invariant kept <= i <= count <= MAX_IDLE && count == old(count)
        invariant forall k | i <= k < count :: buf[k] == was[k]
        invariant buf[..kept] == Unexpired(was[..i], now)
        invariant closed == ExpiredConns(was[..i], now) && drops - old(drops) == i - kept
      {
        assert was[..i + 1][..i] == was[..i];
        assert was[..i + 1] == was[..i] + [was[i]];
        var it := buf[i];
        if Expired(it, now) {
          closed := closed + {it.c};
          drops := drops + 1;
        } else {
          buf[kept] := it;
          kept := kept + 1;
        }
      }
      assert was[..count] == was;
      count := kept;
      ExpireIsStep(now, was, dead);
    }

    /** Marks the pool dead and takes everything off the list; the caller closes it after releasing the lock. */
    method CloseAll(ghost now: Time) returns (closing: set<Conn>)
      requires Valid()
      modifies this`count, this`dead
      ensures Valid() && dead
      ensures if old(dead) then Idle() == old(Idle()) && closing == {} else Idle() == [] && closing == Conns(old(Idle()))
      ensures IsStep(Close, now, old(Idle()), old(dead), Idle(), dead, None, {}, closing)
    {
      closing := {};
      if dead {
        return;
      }
      dead := true;
      closing := Conns(Idle());
      count := 0;
    }

    /** How many connections to dial. */
    method Need() returns (need: int)
      requires Valid()
      ensures need == if dead || count >= WARM then 0 else WARM - count
    {
      need := WARM - count;
      if dead || need <= 0 {
        need := 0;
      }
    }

    /** A warm connection if there is a good one, else a new one, if dialling works. */
    method TakeOne(now: Time, dial: Option<Conn>) returns (got: Option<Conn>, closed: set<Conn>)
      requires Valid()
      modifies this`count, this`drops, this`hits, this`misses
      ensures Valid() && Idle() == PopFrom(old(Idle()), now).rest && closed == PopFrom(old(Idle()), now).dropped
      ensures IsStep(Pop, now, old(Idle()), dead, Idle(), dead, PopFrom(old(Idle()), now).got, closed, {})
      ensures if exists it | it in old(Idle()) :: !Expired(it, now)
              then got == PopFrom(old(Idle()), now).got && got.Some? && hits == old(hits) + 1 && misses == old(misses)
              else got == dial && hits == old(hits) && misses == old(misses) + 1
    {
      PopYieldsIffUnexpired(Idle(), now);
      got, closed := PopIdle(now);
      if got.Some? {
        hits := hits + 1;
        return;
      }
      misses := misses + 1;
      got := dial;
    }
  }
}
