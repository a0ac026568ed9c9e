/** Why the sweep theorem asks what it asks: two histories in which a sweep does show. */
module SweepLimits {
  import opened Clock
  import opened Wrappers
  import opened Policies
  import opened BanLadder
  import opened RegistryModel
  import opened RegistryFacts
  import opened SweepEquivalence
  import opened SweepRuns
  import opened Solo

  // -- A sweep and a ban at the same instant --

  /** A first ban at t. */
  function Opening(t: Time): seq<Step> {
    [Fails("a", 403, t)]
  }

  /** A first ban at t, and a sweep at u. */
  function Swept(t: Time, u: Time): seq<Step> {
    Opening(t) + [Sweeps(u)]
  }

  /** The history with its one answer so far. */
  ghost predicate OnceTold(p: Policy, ss: seq<Step>, start: Time, entries: map<string, Entry>) {
    Told(p, ss, start, entries) && |Returns(p, ss)| == 1
  }

  lemma TellOpening(p: Policy, t: Time)
    requires Strict(p) && Reading(t)
    ensures OnceTold(p, Opening(t), t, map["a" := BannedOnce(p, t)]) && PlainRun(Empty(p), Opening(t))
    ensures EndTime(Opening(t), t) == t
  {
    NothingTold(p, t);
    TellFailure(p, [], t, map[], 403, t);
    RunOneMore(Empty(p), [], Fails("a", 403, t), t);
    assert [] + [Fails("a", 403, t)] == Opening(t);
  }

  lemma SweepOnceTold(p: Policy, ss: seq<Step>, start: Time, e: Entry, now: Time)
    requires Strict(p) && Sweepable(e, now, p)
    requires OnceTold(p, ss, start, map["a" := e]) && Reading(now) && EndTime(ss, start) <= now
    ensures OnceTold(p, ss + [Sweeps(now)], start, map[])
  {
    TellSweep(p, ss, start, e, now);
  }

  /** Once the idle time is over, the sweep takes the only entry. */
  lemma TellSwept(p: Policy, t: Time, u: Time)
    requires Strict(p) && Reading(t) && u >= t + Seconds(600)
    ensures OnceTold(p, Swept(t, u), t, map[])
  {
    TellOpening(p, t);
    BannedOnceIsSweepable(p, t, u);
    SweepOnceTold(p, Opening(t), t, BannedOnce(p, t), u);
  }

  lemma QuietSwept(t: Time, u: Time)
    ensures Quiet(Swept(t, u)) == Opening(t)
  {
    QuietOneMore([], Fails("a", 403, t));
    assert [] + [Fails("a", 403, t)] == Opening(t);
    QuietOneMore(Opening(t), Sweeps(u));
  }

  /** The second answer is a ban until then. */
  predicate Second(answers: seq<Option<Ban>>, until: Time) {
    |answers| == 2 && answers[1].Some? && answers[1].value.until == until
  }

  lemma TellSecond(p: Policy, ss: seq<Step>, t: Time, entries: map<string, Entry>, u: Time, until: Time)
    requires Strict(p) && OnceTold(p, ss, t, entries) && entries.Keys <= {"a"} && Reading(u) && EndTime(ss, t) <= u
    requires NewBan(EntryAt(entries, "a", u), NewReg(p), "c", "a", Failure("a", 403), u).Some?
    requires NewBan(EntryAt(entries, "a", u), NewReg(p), "c", "a", Failure("a", 403), u).value.until == until
    ensures LegalRun(Empty(p), ss + [Fails("a", 403, u)], t) && Second(Returns(p, ss + [Fails("a", 403, u)]), until)
    ensures PlainRun(Empty(p), ss) ==> PlainRun(Empty(p), ss + [Fails("a", 403, u)])
  {
    TellFailure(p, ss, t, entries, 403, u);
    RunOneMore(Empty(p), ss, Fails("a", 403, u), t);
  }

  lemma SweptAtTheInstant(p: Policy, t: Time, u: Time)
    requires Strict(p) && Reading(t) && u == t + Seconds(600)
    ensures LegalRun(Empty(p), Swept(t, u) + [Fails("a", 403, u)], t)
    ensures Second(Returns(p, Swept(t, u) + [Fails("a", 403, u)]), u + Seconds(60))
  {
    TellSwept(p, t, u);
    FirstBan(p, u);
    TellSecond(p, Swept(t, u), t, map[], u, u + Seconds(60));
  }

  lemma SecondBan(p: Policy, t: Time, u: Time)
    requires Strict(p) && Reading(t) && u == t + Seconds(600)
    ensures NewBan(BannedOnce(p, t), NewReg(p), "c", "a", Failure("a", 403), u).Some?
    ensures NewBan(BannedOnce(p, t), NewReg(p), "c", "a", Failure("a", 403), u).value.until == u + Seconds(120)
  {
    BannedOnceShows(p, t);
    StrictRungs(p);
    StatusBans(BannedOnce(p, t), p, "a", 403, u);
  }

  lemma UnsweptAtTheInstant(p: Policy, t: Time, u: Time)
    requires Strict(p) && Reading(t) && u == t + Seconds(600)
    ensures LegalRun(Empty(p), Opening(t) + [Fails("a", 403, u)], t) && PlainRun(Empty(p), Opening(t) + [Fails("a", 403, u)])
    ensures Second(Returns(p, Opening(t) + [Fails("a", 403, u)]), u + Seconds(120))
  {
    TellOpening(p, t);
    SecondBan(p, t, u);
    TellSecond(p, Opening(t), t, map["a" := BannedOnce(p, t)], u, u + Seconds(120));
  }

  /**
   * A ban, and ten minutes later a sweep and a second ban at one instant. Only the spacing is missing: that ban lasts 60
   * seconds after the sweep and 120 without it.
   */
  lemma SameInstantIsObservable(p: Policy, t: Time, u: Time)
    requires Strict(p) && Reading(t) && u == t + Seconds(600)
    ensures LegalRun(Empty(p), Swept(t, u) + [Fails("a", 403, u)], t)
    ensures LegalRun(Empty(p), Quiet(Swept(t, u) + [Fails("a", 403, u)]), t)
    ensures PlainRun(Empty(p), Quiet(Swept(t, u) + [Fails("a", 403, u)]))
    ensures Answers(Empty(p), Swept(t, u) + [Fails("a", 403, u)]) != Answers(Empty(p), Quiet(Swept(t, u) + [Fails("a", 403, u)]))
  {
    QuietSwept(t, u);
    QuietOneMore(Swept(t, u), Fails("a", 403, u));
    SweptAtTheInstant(p, t, u);
    UnsweptAtTheInstant(p, t, u);
  }

  // -- Releasing by hand a ban that has already expired --

  /** Two failures, a release, and one more failure, all at one instant. */
  function Comeback(ss: seq<Step>, u: Time): seq<Step> {
    ss + [Fails("a", 0, u)] + [Fails("a", 0, u)] + [Unbans(u)] + [Fails("a", 0, u)]
  }

  /** Two more failures after at least five quiet minutes, or the first two at all. */
  lemma TellTwoFailures(p: Policy, ss: seq<Step>, start: Time, entries: map<string, Entry>, u: Time, streak: int, at: Time, until: Time)
    returns (e: Entry)
    requires Strict(p)
    requires Told(p, ss, start, entries) && entries.Keys <= {"a"} && Reading(u) && EndTime(ss, start) <= u
    requires Shows(EntryAt(entries, "a", u), streak, at, until) && until <= u
    requires if at == 0 then streak == 0 else u - at > Seconds(300)
    ensures Told(p, ss + [Fails("a", 0, u)] + [Fails("a", 0, u)], start, map["a" := e]) && Shows(e, 2, u, until)
    ensures Returns(p, ss + [Fails("a", 0, u)] + [Fails("a", 0, u)]) == Returns(p, ss) + [None, None]
  {
    var s := Fails("a", 0, u);
    var e0 := EntryAt(entries, "a", u);
    StreakGrows(p, e0, u, streak, at, until);
    TellFailure(p, ss, start, entries, 0, u);
    var e1 := Observed(e0, Failure("a", 0), u, p);
    StreakGrows(p, e1, u, 1, u, until);
    TellFailure(p, ss + [s], start, map["a" := e1], 0, u);
    e := Observed(e1, Failure("a", 0), u, p);
    assert Returns(p, ss) + [None] + [None] == Returns(p, ss) + [None, None];
  }

  /** A pair that carries no ban keeps its streak through Unban, and the third failure bans it. */
  lemma TellComeback(p: Policy, ss: seq<Step>, start: Time, entries: map<string, Entry>, u: Time, streak: int, at: Time, until: Time)
    requires Strict(p)
    requires Told(p, ss, start, entries) && entries.Keys <= {"a"} && Reading(u) && EndTime(ss, start) <= u
    requires Shows(EntryAt(entries, "a", u), streak, at, until) && until <= u
    requires if at == 0 then streak == 0 else u - at > Seconds(300)
    ensures LegalRun(Empty(p), Comeback(ss, u), start)
    ensures |Returns(p, Comeback(ss, u))| == |Returns(p, ss)| + 4
    ensures Returns(p, Comeback(ss, u))[|Returns(p, ss)| + 3].Some? <==> until == 0
  {
    var s := Fails("a", 0, u);
    var e := TellTwoFailures(p, ss, start, entries, u, streak, at, until);
    TellUnban(p, ss + [s] + [s], start, e, u);
    StreakGrows(p, UnbanEntry(e), u, if until == 0 then 2 else 0, u, 0);
    TellFailure(p, ss + [s] + [s] + [Unbans(u)], start, map["a" := UnbanEntry(e)], 0, u);
  }

  lemma QuietComeback(ss: seq<Step>, u: Time)
    ensures Quiet(Comeback(ss, u)) == Comeback(Quiet(ss), u)
  {
    var f := Fails("a", 0, u);
    QuietOneMore(ss, f);
    QuietOneMore(ss + [f], f);
    QuietOneMore(ss + [f] + [f], Unbans(u));
    QuietOneMore(ss + [f] + [f] + [Unbans(u)], f);
  }

  lemma SpacedOneMore(front: seq<Step>, s: Step, start: Time)
    requires Spaced(front, start) && Reading(s.now) && Ready(front, start) <= s.now
    ensures Spaced(front + [s], start) && Ready(front + [s], start) == if s.event.Sweep? then s.now + 1 else s.now
  {
    assert (front + [s])[..|front|] == front;
  }

  lemma SpacedComeback(ss: seq<Step>, start: Time, u: Time)
    requires Spaced(ss, start) && Reading(u) && Ready(ss, start) <= u
    ensures Spaced(Comeback(ss, u), start)
  {
    var f := Fails("a", 0, u);
    SpacedOneMore(ss, f, start);
    SpacedOneMore(ss + [f], f, start);
    SpacedOneMore(ss + [f] + [f], Unbans(u), start);
    SpacedOneMore(ss + [f] + [f] + [Unbans(u)], f, start);
  }

  lemma SpacedSwept(t: Time, u: Time)
    requires Reading(t) && t <= u
    ensures Spaced(Swept(t, u), t) && Ready(Swept(t, u), t) == u + 1
  {
    SpacedOneMore([], Fails("a", 403, t), t);
    assert [] + [Fails("a", 403, t)] == Opening(t);
    SpacedOneMore(Opening(t), Sweeps(u), t);
  }

  /** The fifth answer is a ban, or is none. */
  predicate Fifth(answers: seq<Option<Ban>>, banned: bool) {
    |answers| == 5 && answers[4].Some? == banned
  }

  lemma SweptComesBack(p: Policy, t: Time, u: Time, v: Time)
    requires Strict(p) && Reading(t) && u >= t + Seconds(600) && v > u
    ensures LegalRun(Empty(p), Comeback(Swept(t, u), v), t) && Fifth(Returns(p, Comeback(Swept(t, u), v)), true)
  {
    TellSwept(p, t, u);
    TellComeback(p, Swept(t, u), t, map[], v, 0, 0, 0);
  }

  lemma UnsweptComesBack(p: Policy, t: Time, v: Time)
    requires Strict(p) && Reading(t) && v > t + Seconds(600)
    ensures LegalRun(Empty(p), Comeback(Opening(t), v), t) && Fifth(Returns(p, Comeback(Opening(t), v)), false)
  {
    TellOpening(p, t);
    BannedOnceShows(p, t);
    TellComeback(p, Opening(t), t, map["a" := BannedOnce(p, t)], v, 1, t, t + Seconds(60));
  }

  /**
   * A ban, a sweep when its idle time is over, and later two failures, Unban and a third failure. Only the safe release
   * is missing: the last failure bans the pair if it had been swept, and not otherwise.
   */
  lemma UnbanOfExpiredIsObservable(p: Policy, t: Time, u: Time, v: Time)
    requires Strict(p) && Reading(t) && u >= t + Seconds(600) && v > u
    ensures LegalRun(Empty(p), Comeback(Swept(t, u), v), t) && LegalRun(Empty(p), Quiet(Comeback(Swept(t, u), v)), t)
    ensures Spaced(Comeback(Swept(t, u), v), t)
    ensures Answers(Empty(p), Comeback(Swept(t, u), v)) != Answers(Empty(p), Quiet(Comeback(Swept(t, u), v)))
  {
    QuietSwept(t, u);
    QuietComeback(Swept(t, u), v);
    SpacedSwept(t, u);
    SpacedComeback(Swept(t, u), t, v);
    SweptComesBack(p, t, u, v);
    UnsweptComesBack(p, t, v);
  }
}
