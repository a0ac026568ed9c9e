/** Whom a full store lets go: over whole runs, never anyone who joined later than an untested proxy that stays. */
module Ages {
  import opened Clock
  import opened PoolModel
  import opened PoolFacts
  import opened TwoStrikes

  /** What happens to a store: a batch is added, with the addresses that eviction chose, or one of the other operations. */
  datatype Move = Add(ps: seq<Proxy>, now: Time, gone: set<string>) | Other(op: Op)

  /** The store after the insertions of a move, before it makes room. */
  function Grown(s: Pool, m: Move): Pool {
    if m.Add? then InsertedAll(s, m.ps, m.now) else s
  }

  function Moved(s: Pool, m: Move): Pool {
    if m.Add? then Without(Grown(s, m), m.gone) else Operated(s, m.op)
  }

  /** A store that starts empty. */
  function Play(ms: seq<Move>): Pool {
    if |ms| == 0 then EMPTY_POOL else Moved(Play(ms[..|ms| - 1]), ms[|ms| - 1])
  }

  /** When an address last joined the store, read off the moves. */
  function JoinedAt(ms: seq<Move>, a: string): Time {
    if |ms| == 0 then 0
    else
      var before, m := Play(ms[..|ms| - 1]), ms[|ms| - 1];
      if m.Add? && a !in before.proxies && a in Grown(before, m).proxies then m.now else JoinedAt(ms[..|ms| - 1], a)
  }

  lemma OperationKeepsAge(s: Pool, op: Op, a: string)
    requires a in Operated(s, op).proxies
    ensures a in s.proxies && Operated(s, op).proxies[a].createdAt == s.proxies[a].createdAt
  {
  }

  lemma {:induction false} CreatedAtIsJoin(ms: seq<Move>, a: string)
    requires a in Play(ms).proxies
    ensures Play(ms).proxies[a].createdAt == JoinedAt(ms, a)
  {
    if |ms| > 0 {
      var front, m := ms[..|ms| - 1], ms[|ms| - 1];
      if m.Add? {
        InIsOfferedOrOld(Play(front), m.ps, m.now, a);
      } else {
        OperationKeepsAge(Play(front), m.op, a);
      }
      if a in Play(front).proxies {
        CreatedAtIsJoin(front, a);
      }
    }
  }

  /** Before the eviction, too, every stamp is the time of joining. */
  lemma GrownIsJoin(front: seq<Move>, m: Move, a: string)
    requires m.Add? && a in Grown(Play(front), m).proxies
    ensures Grown(Play(front), m).proxies[a].createdAt == JoinedAt(front + [m], a)
  {
    assert (front + [m])[..|front|] == front;
    InIsOfferedOrOld(Play(front), m.ps, m.now, a);
    if a in Play(front).proxies {
      CreatedAtIsJoin(front, a);
    }
  }

  /** Whatever came before: an address that makes room joined no later than any untested one that stays. */
  lemma NobodyYoungerMakesRoom(front: seq<Move>, m: Move, g: string, k: string)
    requires m.Add? && LegalAdd(Play(front), m.ps, m.now, m.gone)
    requires g in m.gone && k in Play(front + [m]).raw
    ensures g !in Play(front + [m]).proxies
    ensures JoinedAt(front + [m], g) <= JoinedAt(front + [m], k)
  {
    assert (front + [m])[..|front|] == front;
    var grown := Grown(Play(front), m);
    assert k in grown.raw - m.gone;
    assert AgeRank(grown)[g] <= AgeRank(grown)[k];
    GrownIsJoin(front, m, g);
    GrownIsJoin(front, m, k);
  }
}
