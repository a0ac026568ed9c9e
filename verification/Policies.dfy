/** The tunables of the ban registry, the custom rules, and the decision one outcome leads to. */
module Policies {
  import opened Clock
  import opened Wrappers

  // -- Outcomes --

  /** One observed request result. Status is 0 when it cannot be known. */
  datatype Outcome = Outcome(channel: string, addr: string, ok: bool, status: int, err: string, reported: bool)

  function LowerChar(c: char): char {
    if 'A' <= c <= 'Z' then c - 'A' + 'a' else c
  }

  function Lower(s: string): string {
    if |s| == 0 then s else [LowerChar(s[0])] + Lower(s[1..])
  }

  predicate Contains(s: string, sub: string) {
    |sub| <= |s| && (sub == s[..|sub|] || (|s| > 0 && Contains(s[1..], sub)))
  }

  /** Position i of s starts sub. */
  predicate StartsAt(s: string, sub: string, i: int) {
    0 <= i <= |s| - |sub| && s[i..i + |sub|] == sub
  }

  lemma {:induction false} ContainsIsOccurrence(s: string, sub: string)
    ensures Contains(s, sub) <==> exists i :: StartsAt(s, sub, i)
  {
    if StartsAt(s, sub, 0) {
      assert s[0..|sub|] == s[..|sub|];
    } else if |s| > 0 {
      ContainsIsOccurrence(s[1..], sub);
      forall i | StartsAt(s, sub, i) ensures StartsAt(s[1..], sub, i - 1) {
        assert s[1..][i - 1..i - 1 + |sub|] == s[i..i + |sub|];
      }
      forall i | StartsAt(s[1..], sub, i) ensures StartsAt(s, sub, i + 1) {
        assert s[1..][i..i + |sub|] == s[i + 1..i + 1 + |sub|];
      }
    }
  }

  predicate IsTimeout(o: Outcome) {
    && !o.ok
    && (Contains(Lower(o.err), "timeout") || Contains(Lower(o.err), "deadline") || o.status == 408 || o.status == 504)
  }

  // -- Policy --

  datatype Policy = Policy(
    enabled: bool,
    windowSec: int,
    consecutiveFails: int,
    failRate: real,
    minSamples: int,
    timeoutFails: int,
    banStatuses: seq<int>,
    banTTLSec: int,
    banTTLMaxSec: int,
    maxChannels: int,
    maxEntriesPerChan: int,
    reprobeOnExpiry: bool)

  /** What Normalize guarantees and the registry relies on. */
  predicate InRange(p: Policy) {
    && 0 < p.windowSec <= 3600
    && 0 <= p.consecutiveFails && 0 <= p.timeoutFails
    && 0.0 <= p.failRate <= 1.0
    && 0 < p.minSamples
    && 0 < p.banTTLSec <= p.banTTLMaxSec
    && 0 < p.maxChannels && 0 < p.maxEntriesPerChan
  }

  function AtLeastZero(n: int): int {
    if n < 0 then 0 else n
  }

  function OrDefault(n: int, default: int): int {
    if n <= 0 then default else n
  }

  /** Repairs out-of-range values instead of rejecting them, with the shipped defaults. */
  function Normalize(p: Policy): Policy {
    Policy(
      p.enabled,
      if p.windowSec > 3600 then 3600 else OrDefault(p.windowSec, 300),
      AtLeastZero(p.consecutiveFails),
      if p.failRate < 0.0 || p.failRate > 1.0 then 0.6 else p.failRate,
      OrDefault(p.minSamples, 5),
      AtLeastZero(p.timeoutFails),
      p.banStatuses,
      OrDefault(p.banTTLSec, 60),
      if p.banTTLMaxSec < OrDefault(p.banTTLSec, 60) then OrDefault(p.banTTLSec, 60) else p.banTTLMaxSec,
      OrDefault(p.maxChannels, 500),
      OrDefault(p.maxEntriesPerChan, 2000),
      p.reprobeOnExpiry)
  }

  /** Every policy becomes usable, and one that already is stays as it is. */
  lemma NormalizeRepairs(p: Policy)
    ensures InRange(Normalize(p))
    ensures InRange(p) <==> Normalize(p) == p
  {
  }

  /** The shipped numbers. */
  const SHIPPED_WINDOW := 300
  const SHIPPED_RATE := 0.6
  const SHIPPED_SAMPLES := 5
  const SHIPPED_TTL := 60
  const SHIPPED_CHANNELS := 500
  const SHIPPED_ENTRIES := 2000

  /** A number that is not above its limit is replaced by another; any other number is kept. */
  predicate Repaired(was: int, got: int, limit: int, other: int) {
    got == if was <= limit then other else was
  }

  /**
   * Field by field: what is in range stays, whatever the other fields hold; anything else becomes the shipped number, or
   * the bound it has overstepped.
   */
  lemma NormalizeIsFieldwise(p: Policy)
    ensures p.windowSec <= 3600 ==> Repaired(p.windowSec, Normalize(p).windowSec, 0, SHIPPED_WINDOW)
    ensures p.windowSec > 3600 ==> Normalize(p).windowSec == 3600
    ensures Repaired(p.consecutiveFails, Normalize(p).consecutiveFails, -1, 0)
    ensures Repaired(p.timeoutFails, Normalize(p).timeoutFails, -1, 0)
    ensures Normalize(p).failRate == if 0.0 <= p.failRate <= 1.0 then p.failRate else SHIPPED_RATE
    ensures Repaired(p.minSamples, Normalize(p).minSamples, 0, SHIPPED_SAMPLES)
    ensures Repaired(p.banTTLSec, Normalize(p).banTTLSec, 0, SHIPPED_TTL)
    ensures Repaired(p.banTTLMaxSec, Normalize(p).banTTLMaxSec, Normalize(p).banTTLSec - 1, Normalize(p).banTTLSec)
    ensures Repaired(p.maxChannels, Normalize(p).maxChannels, 0, SHIPPED_CHANNELS)
    ensures Repaired(p.maxEntriesPerChan, Normalize(p).maxEntriesPerChan, 0, SHIPPED_ENTRIES)
    ensures Normalize(p).enabled == p.enabled && Normalize(p).banStatuses == p.banStatuses
    ensures Normalize(p).reprobeOnExpiry == p.reprobeOnExpiry
  {
  }

  function WindowOf(p: Policy): Duration {
    Seconds(p.windowSec)
  }

  function BucketSec(p: Policy): int {
    if p.windowSec / 6 <= 0 then 1 else p.windowSec / 6
  }

  predicate BansStatus(p: Policy, status: int) {
    status > 0 && status in p.banStatuses
  }

  /** How long a pair must go without a ban before its ladder returns to the base TTL. */
  function IdleReset(p: Policy): Duration {
    if 2 * WindowOf(p) > Seconds(600) then 2 * WindowOf(p) else Seconds(600)
  }

  // -- Rules --

  datatype RuleKind = StatusRule | ConsecutiveRule | FailRateRule | TimeoutsRule | ErrorRule | UnknownRule

  /** One extra ban condition. An empty channel means every channel. */
  datatype Rule = Rule(
    channel: string,
    kind: RuleKind,
    statuses: seq<int>,
    threshold: int,
    rate: real,
    minSamples: int,
    needle: string,
    ttlSec: int,
    enabled: bool)

  predicate AppliesTo(r: Rule, channel: string) {
    r.enabled && (r.channel == "" || Lower(r.channel) == Lower(channel))
  }

  /** The evidence a decision reads: the current streak and the sums of the window. */
  datatype Evidence = Evidence(streak: int, ok: int, fail: int, timeout: int)

  predicate RateReached(ev: Evidence, minSamples: int, rate: real) {
    ev.ok + ev.fail >= minSamples && ev.ok + ev.fail > 0 && (ev.fail as real) / ((ev.ok + ev.fail) as real) >= rate
  }

  predicate Matches(r: Rule, o: Outcome, ev: Evidence) {
    match r.kind
    case StatusRule => o.status > 0 && o.status in r.statuses
    case ConsecutiveRule => ev.streak >= OrDefault(r.threshold, 3)
    case FailRateRule => RateReached(ev, OrDefault(r.minSamples, 5), if r.rate <= 0.0 || r.rate > 1.0 then 0.6 else r.rate)
    case TimeoutsRule => ev.timeout >= OrDefault(r.threshold, 5)
    case ErrorRule => r.needle != "" && !o.ok && Contains(Lower(o.err), Lower(r.needle))
    case UnknownRule => false
  }

  // -- Decision --

  /** The reason tag of a ban. */
  datatype Cause =
    | ByStatus(status: int)
    | ByConsecutiveFails
    | ByTimeouts
    | ByFailRate
    | ByRule(kind: RuleKind, ruleStatus: int)

  datatype Reason = Reason(cause: Cause, reported: bool)

  /** Why a pair is to be banned, and the custom rule whose TTL applies, if one fired. */
  datatype Hit = Hit(cause: Cause, rule: Option<Rule>)

  function RuleCause(r: Rule, o: Outcome): Cause {
    ByRule(r.kind, if r.kind == StatusRule then o.status else 0)
  }

  function FirstRule(rules: seq<Rule>, channel: string, o: Outcome, ev: Evidence): Option<Hit> {
    if |rules| == 0 then None
    else if AppliesTo(rules[0], channel) && Matches(rules[0], o, ev) then Some(Hit(RuleCause(rules[0], o), Some(rules[0])))
    else FirstRule(rules[1..], channel, o, ev)
  }

  /** The rules in order of certainty: an explicit status is a stronger signal than a rate. */
  function Decide(p: Policy, rules: seq<Rule>, channel: string, o: Outcome, ev: Evidence): Option<Hit> {
    if BansStatus(p, o.status) then Some(Hit(ByStatus(o.status), None))
    else if p.consecutiveFails > 0 && ev.streak >= p.consecutiveFails then Some(Hit(ByConsecutiveFails, None))
    else if p.timeoutFails > 0 && ev.timeout >= p.timeoutFails then Some(Hit(ByTimeouts, None))
    else if p.failRate > 0.0 && RateReached(ev, p.minSamples, p.failRate) then Some(Hit(ByFailRate, None))
    else FirstRule(rules, channel, o, ev)
  }

  // -- What the decision means: the first condition that holds, in a fixed order --

  datatype Condition = StatusListed | StreakReached | TimeoutsReached | FailRateReached | Custom(rule: Rule)

  function Customs(rules: seq<Rule>): (cs: seq<Condition>)
    ensures |cs| == |rules|
    ensures forall k | 0 <= k < |rules| :: cs[k] == Custom(rules[k])
  {
    if |rules| == 0 then [] else [Custom(rules[0])] + Customs(rules[1..])
  }

  /** Every condition under which a pair can be banned, in the order in which reasons win. */
  function Conditions(rules: seq<Rule>): seq<Condition> {
    [StatusListed, StreakReached, TimeoutsReached, FailRateReached] + Customs(rules)
  }

  predicate Holds(c: Condition, p: Policy, channel: string, o: Outcome, ev: Evidence) {
    match c
    case StatusListed => BansStatus(p, o.status)
    case StreakReached => p.consecutiveFails > 0 && ev.streak >= p.consecutiveFails
    case TimeoutsReached => p.timeoutFails > 0 && ev.timeout >= p.timeoutFails
    case FailRateReached => p.failRate > 0.0 && RateReached(ev, p.minSamples, p.failRate)
    case Custom(r) => AppliesTo(r, channel) && Matches(r, o, ev)
  }

  function HitOf(c: Condition, o: Outcome): Hit {
    match c
    case StatusListed => Hit(ByStatus(o.status), None)
    case StreakReached => Hit(ByConsecutiveFails, None)
    case TimeoutsReached => Hit(ByTimeouts, None)
    case FailRateReached => Hit(ByFailRate, None)
    case Custom(r) => Hit(RuleCause(r, o), Some(r))
  }

  /** The k-th condition holds and no earlier one does. */
  predicate FirstHolds(cs: seq<Condition>, k: nat, p: Policy, channel: string, o: Outcome, ev: Evidence) {
    && k < |cs|
    && Holds(cs[k], p, channel, o, ev)
    && forall j | 0 <= j < k :: !Holds(cs[j], p, channel, o, ev)
  }

  lemma {:induction false} FirstRuleIsFirst(p: Policy, rules: seq<Rule>, channel: string, o: Outcome, ev: Evidence) returns (k: nat)
    ensures k <= |rules|
    ensures forall j | 0 <= j < k :: !Holds(Custom(rules[j]), p, channel, o, ev)
    ensures k < |rules| ==> Holds(Custom(rules[k]), p, channel, o, ev)
    ensures FirstRule(rules, channel, o, ev) == if k < |rules| then Some(HitOf(Custom(rules[k]), o)) else None
  {
    if |rules| == 0 || (AppliesTo(rules[0], channel) && Matches(rules[0], o, ev)) {
      k := 0;
    } else {
      var k' := FirstRuleIsFirst(p, rules[1..], channel, o, ev);
      k := k' + 1;
      forall j | 0 <= j < k ensures !Holds(Custom(rules[j]), p, channel, o, ev) {
        assert j > 0 ==> rules[j] == rules[1..][j - 1];
      }
    }
  }

  /** A ban is decided exactly if some condition holds, and its reason is that of the first one. */
  lemma DecideIsFirstCondition(p: Policy, rules: seq<Rule>, channel: string, o: Outcome, ev: Evidence) returns (k: nat)
    ensures Decide(p, rules, channel, o, ev).None? <==>
            forall j | 0 <= j < |Conditions(rules)| :: !Holds(Conditions(rules)[j], p, channel, o, ev)
    ensures Decide(p, rules, channel, o, ev).Some? ==>
              && FirstHolds(Conditions(rules), k, p, channel, o, ev)
              && Decide(p, rules, channel, o, ev).value == HitOf(Conditions(rules)[k], o)
  {
    var cs := Conditions(rules);
    if Holds(cs[0], p, channel, o, ev) {
      k := 0;
    } else if Holds(cs[1], p, channel, o, ev) {
      k := 1;
    } else if Holds(cs[2], p, channel, o, ev) {
      k := 2;
    } else if Holds(cs[3], p, channel, o, ev) {
      k := 3;
    } else {
      var k' := FirstRuleIsFirst(p, rules, channel, o, ev);
      k := k' + 4;
      forall j | 0 <= j < |cs| && j < k ensures !Holds(cs[j], p, channel, o, ev) {
        assert j >= 4 ==> cs[j] == Custom(rules[j - 4]);
      }
      if k' < |rules| {
        assert cs[k] == Custom(rules[k']);
      }
    }
  }

  /** Walks the custom rules until one fires. */
  method FindRule(rules: seq<Rule>, channel: string, o: Outcome, ev: Evidence) returns (hit: Option<Hit>)
    ensures hit == FirstRule(rules, channel, o, ev)
  {
    for i := 0 to |rules|
      invariant FirstRule(rules, channel, o, ev) == FirstRule(rules[i..], channel, o, ev)
    {
      assert rules[i..][1..] == rules[i + 1..];
      var rule := rules[i];
      if AppliesTo(rule, channel) && Matches(rule, o, ev) {
        return Some(Hit(RuleCause(rule, o), Some(rule)));
      }
    }
    assert rules[|rules|..] == [];
    return None;
  }
}
