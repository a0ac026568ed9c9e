/** The life of one address: what a sequence of verdicts makes of it, in either backend. */
module TwoStrikes {
  import opened Clock
  import opened Scoring
  import opened PoolModel

  /** One verdict on one address. */
  datatype Mark = Mark(addr: string, latencyMS: int, ok: bool, now: Time)

  function MarkedAll(s: Pool, ms: seq<Mark>): Pool {
    if |ms| == 0 then s
    else
      var m := ms[|ms| - 1];
      Marked(MarkedAll(s, ms[..|ms| - 1]), m.addr, m.latencyMS, m.ok, m.now)
  }

  /** The verdicts on one address, in order. */
  function VerdictsOn(ms: seq<Mark>, a: string): seq<bool> {
    if |ms| == 0 then []
    else VerdictsOn(ms[..|ms| - 1], a) + if ms[|ms| - 1].addr == a then [ms[|ms| - 1].ok] else []
  }

  datatype Stage = Gone | Raw | Working | Retrying

  function StageOf(s: Pool, a: string): Stage {
    if a !in s.proxies then Gone
    else if a in s.raw then Raw
    else if a in s.scored then Working
    else Retrying
  }

  function Next(stage: Stage, ok: bool): Stage {
    if stage == Gone then Gone
    else if ok then Working
    else if stage == Working then Retrying
    else Gone
  }

  function After(stage: Stage, verdicts: seq<bool>): Stage {
    if |verdicts| == 0 then stage else Next(After(stage, verdicts[..|verdicts| - 1]), verdicts[|verdicts| - 1])
  }

  /** The rule that a score of zero deletes a proxy never decides anything: what is live scores at least 20. */
  lemma ScoreNeverDeletes(s: Pool, a: string)
    requires Partitioned(s) && a in s.proxies
    ensures Hopeless(s.proxies[a]) <==> !s.proxies[a].validated
    ensures s.proxies[a].validated ==> Failed(s.proxies[a], 0, 0).score > 0.0
  {
    if s.proxies[a].validated {
      GoodScoresStayGood(0, s.proxies[a].score);
    }
  }

  lemma MarkMovesStage(s: Pool, m: Mark, a: string)
    requires Partitioned(s)
    ensures StageOf(Marked(s, m.addr, m.latencyMS, m.ok, m.now), a) ==
            if m.addr == a then Next(StageOf(s, a), m.ok) else StageOf(s, a)
  {
    if m.addr in s.proxies {
      ScoreNeverDeletes(s, m.addr);
    }
  }

  lemma {:induction false} RunMovesStage(s: Pool, ms: seq<Mark>, a: string)
    requires Partitioned(s)
    ensures Partitioned(MarkedAll(s, ms))
    ensures StageOf(MarkedAll(s, ms), a) == After(StageOf(s, a), VerdictsOn(ms, a))
  {
    if |ms| > 0 {
      var front, m := ms[..|ms| - 1], ms[|ms| - 1];
      RunMovesStage(s, front, a);
      MarkedKeepsPartition(MarkedAll(s, front), m.addr, m.latencyMS, m.ok, m.now);
      MarkMovesStage(MarkedAll(s, front), m, a);
      if m.addr == a {
        assert VerdictsOn(ms, a)[..|VerdictsOn(ms, a)| - 1] == VerdictsOn(front, a);
      } else {
        assert VerdictsOn(ms, a) == VerdictsOn(front, a);
      }
    }
  }

  /** The first check passed, and no two failures came in a row. */
  predicate Survives(verdicts: seq<bool>) {
    && (|verdicts| > 0 ==> verdicts[0])
    && forall i | 0 <= i < |verdicts| - 1 :: verdicts[i] || verdicts[i + 1]
  }

  lemma {:induction false} AfterRaw(verdicts: seq<bool>)
    ensures After(Raw, verdicts) != Gone <==> Survives(verdicts)
    ensures After(Raw, verdicts) == Working <==> Survives(verdicts) && |verdicts| > 0 && verdicts[|verdicts| - 1]
    ensures After(Raw, verdicts) == Raw <==> verdicts == []
  {
    if |verdicts| > 0 {
      var front := verdicts[..|verdicts| - 1];
      AfterRaw(front);
      if Survives(front) && (|front| == 0 ==> verdicts[0]) && (|front| > 0 ==> front[|front| - 1] || verdicts[|front|]) {
        forall i | 0 <= i < |verdicts| - 1 ensures verdicts[i] || verdicts[i + 1] {
          if i < |front| - 1 {
            assert front[i] || front[i + 1];
          }
        }
        assert |front| > 0 ==> front[0];
      }
      if Survives(verdicts) {
        assert forall i | 0 <= i < |front| :: front[i] == verdicts[i];
        assert |front| > 0 ==> verdicts[|front| - 1] || verdicts[|front|];
      }
    }
  }

  /**
   * However verdicts on many addresses are interleaved: an untested address is still stored exactly if its first
   * verdict was good and no two of its verdicts in a row were bad, and it is in service exactly if also the last was good.
   */
  lemma TwoStrikeLaw(s: Pool, ms: seq<Mark>, a: string)
    requires Partitioned(s) && a in s.raw
    ensures a in MarkedAll(s, ms).proxies <==> Survives(VerdictsOn(ms, a))
    ensures a in MarkedAll(s, ms).scored <==>
            Survives(VerdictsOn(ms, a)) && |VerdictsOn(ms, a)| > 0 && VerdictsOn(ms, a)[|VerdictsOn(ms, a)| - 1]
    ensures a in MarkedAll(s, ms).scored ==> GoodScore(MarkedAll(s, ms).proxies[a].score)
  {
    RunMovesStage(s, ms, a);
    AfterRaw(VerdictsOn(ms, a));
  }

  // -- Verdicts among deletions --

  /** What may happen to stored addresses: a verdict, a deletion of some, or a purge of all that wait for a retry. */
  datatype Op = Verdict(mark: Mark) | Drop(gone: set<string>) | Purge

  function Operated(s: Pool, op: Op): Pool {
    match op
    case Verdict(m) => Marked(s, m.addr, m.latencyMS, m.ok, m.now)
    case Drop(gone) => Without(s, gone)
    case Purge => Without(s, s.retry.Keys)
  }

  function OperatedAll(s: Pool, ops: seq<Op>): Pool {
    if |ops| == 0 then s else Operated(OperatedAll(s, ops[..|ops| - 1]), ops[|ops| - 1])
  }

  /** What one operation means for one address. */
  function Turned(stage: Stage, op: Op, a: string): Stage {
    match op
    case Verdict(m) => if m.addr == a then Next(stage, m.ok) else stage
    case Drop(gone) => if a in gone then Gone else stage
    case Purge => if stage == Retrying then Gone else stage
  }

  function TurnedAll(stage: Stage, ops: seq<Op>, a: string): Stage {
    if |ops| == 0 then stage else Turned(TurnedAll(stage, ops[..|ops| - 1], a), ops[|ops| - 1], a)
  }

  lemma OperationKeepsPartition(s: Pool, op: Op)
    requires Partitioned(s)
    ensures Partitioned(Operated(s, op))
  {
    match op
    case Verdict(m) => MarkedKeepsPartition(s, m.addr, m.latencyMS, m.ok, m.now);
    case Drop(gone) => WithoutKeepsPartition(s, gone);
    case Purge => WithoutKeepsPartition(s, s.retry.Keys);
  }

  lemma OperationMovesStage(s: Pool, op: Op, a: string)
    requires Partitioned(s)
    ensures StageOf(Operated(s, op), a) == Turned(StageOf(s, a), op, a)
  {
    match op
    case Verdict(m) => MarkMovesStage(s, m, a);
    case Drop(_) =>
    case Purge =>
  }

  /** However operations on many addresses are mixed, the stage of each is a function of what happened to it. */
  lemma {:induction false} OperationsMoveStage(s: Pool, ops: seq<Op>, a: string)
    requires Partitioned(s)
    ensures Partitioned(OperatedAll(s, ops))
    ensures StageOf(OperatedAll(s, ops), a) == TurnedAll(StageOf(s, a), ops, a)
  {
    if |ops| > 0 {
      var front, op := ops[..|ops| - 1], ops[|ops| - 1];
      OperationsMoveStage(s, front, a);
      OperationKeepsPartition(OperatedAll(s, front), op);
      OperationMovesStage(OperatedAll(s, front), op, a);
    }
  }

  function VerdictsIn(ops: seq<Op>, a: string): seq<bool> {
    if |ops| == 0 then []
    else
      VerdictsIn(ops[..|ops| - 1], a) +
      if ops[|ops| - 1].Verdict? && ops[|ops| - 1].mark.addr == a then [ops[|ops| - 1].mark.ok] else []
  }

  /** Nothing but verdicts happens to the address. */
  predicate OnlyVerdicts(ops: seq<Op>, a: string) {
    forall i | 0 <= i < |ops| :: !ops[i].Purge? && (ops[i].Drop? ==> a !in ops[i].gone)
  }

  lemma {:induction false} OnlyVerdictsCount(stage: Stage, ops: seq<Op>, a: string)
    requires OnlyVerdicts(ops, a)
    ensures TurnedAll(stage, ops, a) == After(stage, VerdictsIn(ops, a))
  {
    if |ops| > 0 {
      var front, op := ops[..|ops| - 1], ops[|ops| - 1];
      OnlyVerdictsCount(stage, front, a);
      if op.Verdict? && op.mark.addr == a {
        assert VerdictsIn(ops, a)[..|VerdictsIn(ops, a)| - 1] == VerdictsIn(front, a);
      } else {
        assert VerdictsIn(ops, a) == VerdictsIn(front, a);
      }
    }
  }

  /** The law in a pool in which other addresses are deleted as well. */
  lemma TwoStrikesAmongDeletions(s: Pool, ops: seq<Op>, a: string)
    requires Partitioned(s) && a in s.raw && OnlyVerdicts(ops, a)
    ensures a in OperatedAll(s, ops).proxies <==> Survives(VerdictsIn(ops, a))
    ensures a in OperatedAll(s, ops).scored <==>
            Survives(VerdictsIn(ops, a)) && |VerdictsIn(ops, a)| > 0 && VerdictsIn(ops, a)[|VerdictsIn(ops, a)| - 1]
  {
    OperationsMoveStage(s, ops, a);
    OnlyVerdictsCount(Raw, ops, a);
    AfterRaw(VerdictsIn(ops, a));
  }
}
