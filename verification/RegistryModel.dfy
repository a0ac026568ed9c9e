/** The per-channel ban registry as a state machine over (channel, address) pairs, with its table of bans. */
module RegistryModel {
  import opened Clock
  import opened Wrappers
  import opened Window
  import opened Policies
  import opened BanLadder

  // -- State --

  datatype Entry = Entry(
    counters: Ring,
    bannedUntil: Time,
    banReason: Option<Reason>,
    strikes: nat,
    lastBanAt: Time,
    lastSeenAt: Time,
    pendingReprobe: bool)

  datatype Channel = Channel(entries: map<string, Entry>, lastSeenAt: Time, lastBanAt: Time)

  datatype Ban = Ban(
    channel: string,
    addr: string,
    reason: Option<Reason>,
    bannedAt: Time,
    until: Time,
    strikes: nat,
    ttlSec: int)

  /** The in-memory registry; an allow under the empty channel name holds on every channel. */
  datatype Reg = Reg(chans: map<string, Channel>, policy: Policy, allows: map<string, set<string>>, rules: seq<Rule>)

  /** The persisted bans, one row per pair. */
  type Rows = map<(string, string), Ban>

  datatype World = World(reg: Reg, rows: Rows)

  const DEFAULT_CHANNEL := "default"

  function NewReg(p: Policy): Reg {
    Reg(map[], Normalize(p), map[], [])
  }

  predicate Live(e: Entry, now: Time) {
    e.bannedUntil != 0 && e.bannedUntil > now
  }

  /** Out of rotation: the TTL has not elapsed, or nothing has worked since it did. */
  predicate Banned(e: Entry, now: Time) {
    Live(e, now) || e.pendingReprobe
  }

  function Fresh(now: Time): Entry {
    Entry(EMPTY_RING, 0, None, 0, 0, now, false)
  }

  function Find(reg: Reg, c: string, a: string): Option<Entry> {
    if c in reg.chans && a in reg.chans[c].entries then Some(reg.chans[c].entries[a]) else None
  }

  predicate Allowed(reg: Reg, c: string, a: string) {
    || ("" in reg.allows && a in reg.allows[""])
    || (c in reg.allows && a in reg.allows[c])
  }

  /** The answer selection asks for. */
  predicate IsBanned(reg: Reg, c: string, a: string, now: Time) {
    && c != "" && a != ""
    && reg.policy.enabled
    && Find(reg, c, a).Some?
    && Banned(Find(reg, c, a).value, now)
  }

  /** Every active ban of a channel with its expiry. */
  function BanSetOf(reg: Reg, c: string, now: Time): map<string, Time> {
    if c == "" || !reg.policy.enabled || c !in reg.chans then map[]
    else map a | a in reg.chans[c].entries && Banned(reg.chans[c].entries[a], now) :: reg.chans[c].entries[a].bannedUntil
  }

  // -- One pair --

  function EvidenceOf(r: Ring, now: Time, p: Policy): Evidence {
    EvidenceAt(r, BucketIndex(now, BucketSec(p)), now, WindowOf(p))
  }

  function EvidenceAt(r: Ring, idx: int, now: Time, window: Duration): Evidence {
    Evidence(Consecutive(r, now, window), Sum(r, idx, Okay), Sum(r, idx, Failed), Sum(r, idx, TimedOut))
  }

  function Released(e: Entry): Entry {
    e.(bannedUntil := 0, banReason := None, pendingReprobe := false)
  }

  /** Files an outcome; a success ends probation. */
  function Observed(e: Entry, o: Outcome, now: Time, p: Policy): Entry
    requires now != 0
  {
    var seen := e.(lastSeenAt := now, counters := RecordedBy(e.counters, o, now, p));
    if o.ok && e.pendingReprobe then Released(seen) else seen
  }

  function RecordedBy(r: Ring, o: Outcome, now: Time, p: Policy): Ring
    requires now != 0
  {
    Recorded(r, BucketIndex(now, BucketSec(p)), now, o.ok, IsTimeout(o), WindowOf(p))
  }

  /** Strikes that still count: the ladder starts over when the last ban is long past. */
  function StandingStrikes(e: Entry, now: Time, p: Policy): nat {
    if e.lastBanAt != 0 && now - e.lastBanAt > IdleReset(p) then 0 else e.strikes
  }

  function HitTTL(h: Hit, strikes: nat, p: Policy): Duration {
    match h.rule
    case Some(rule) => RuleTTL(rule, p)
    case None => PolicyTTL(p, strikes)
  }

  function Sentenced(e: Entry, h: Hit, reported: bool, now: Time, p: Policy): Entry {
    var strikes := StandingStrikes(e, now, p);
    e.(strikes := strikes + 1,
       bannedUntil := now + HitTTL(h, strikes, p),
       banReason := Some(Reason(h.cause, reported)),
       lastBanAt := now,
       pendingReprobe := p.reprobeOnExpiry)
  }

  /** The ban an entry carries, as reported and as persisted. */
  function BanOf(c: string, a: string, e: Entry): Ban {
    Ban(c, a, e.banReason, e.lastBanAt, e.bannedUntil, e.strikes, TruncSeconds(e.bannedUntil - e.lastBanAt))
  }

  function TruncSeconds(d: Duration): int {
    if d >= 0 then d / 1_000_000_000 else -((-d) / 1_000_000_000)
  }

  function Verdict(e: Entry, reg: Reg, c: string, a: string, o: Outcome, now: Time): Option<Hit> {
    if Allowed(reg, c, a) || Banned(e, now) then None
    else Decide(reg.policy, reg.rules, c, o, EvidenceOf(e.counters, now, reg.policy))
  }

  /** The pair's entry after an outcome. */
  function Judged(e: Entry, reg: Reg, c: string, a: string, o: Outcome, now: Time): Entry
    requires now != 0
  {
    var seen := Observed(e, o, now, reg.policy);
    match Verdict(seen, reg, c, a, o, now)
    case None => seen
    case Some(h) => Sentenced(seen, h, o.reported, now, reg.policy)
  }

  /** The ban an outcome leads to. */
  function NewBan(e: Entry, reg: Reg, c: string, a: string, o: Outcome, now: Time): Option<Ban>
    requires now != 0
  {
    if Verdict(Observed(e, o, now, reg.policy), reg, c, a, o, now).Some?
    then Some(BanOf(c, a, Judged(e, reg, c, a, o, now)))
    else None
  }

  // -- Eviction --

  predicate HasBans(ch: Channel, now: Time) {
    exists a :: a in ch.entries && Banned(ch.entries[a], now)
  }

  /** A least recently seen entry, and a banned one only if every entry is banned. */
  ghost predicate IsEntryVictim(entries: map<string, Entry>, v: string, now: Time) {
    && v in entries
    && (forall a | a in entries :: Banned(entries[v], now) ==> Banned(entries[a], now))
    && (forall a | a in entries ::
          Banned(entries[a], now) == Banned(entries[v], now) ==> entries[v].lastSeenAt <= entries[a].lastSeenAt)
  }

  /** A least recently seen channel, and one that holds bans only if every channel does. */
  ghost predicate IsChannelVictim(chans: map<string, Channel>, v: string, now: Time) {
    && v in chans
    && (forall c | c in chans :: HasBans(chans[v], now) ==> HasBans(chans[c], now))
    && (forall c | c in chans ::
          HasBans(chans[c], now) == HasBans(chans[v], now) ==> chans[v].lastSeenAt <= chans[c].lastSeenAt)
  }

  predicate NeedsChannelRoom(reg: Reg, c: string) {
    c !in reg.chans && |reg.chans| >= reg.policy.maxChannels
  }

  predicate NeedsEntryRoom(reg: Reg, c: string, a: string) {
    c in reg.chans && a !in reg.chans[c].entries && |reg.chans[c].entries| >= reg.policy.maxEntriesPerChan
  }

  function WithoutChannel(rows: Rows, c: string): Rows {
    map k | k in rows && k.0 != c :: rows[k]
  }

  function WithoutPair(rows: Rows, c: string, a: string): Rows {
    rows - {(c, a)}
  }

  /** Fetches or creates a channel; "" stands for no victim. */
  function FetchChannel(w: World, c: string, now: Time, drop: string): World {
    if c in w.reg.chans then w
    else World(
      w.reg.(chans := (if drop == "" then w.reg.chans else w.reg.chans - {drop})[c := Channel(map[], now, 0)]),
      if drop == "" then w.rows else WithoutChannel(w.rows, drop))
  }

  /** Fetches or creates a pair's entry in a channel that is there. */
  function FetchEntry(w: World, c: string, a: string, now: Time, drop: string): World
    requires c in w.reg.chans
  {
    var ch := w.reg.chans[c];
    if a in ch.entries then w
    else World(
      w.reg.(chans := w.reg.chans[c := ch.(
        entries := (if drop == "" then ch.entries else ch.entries - {drop})[a := Fresh(now)])]),
      if drop == "" then w.rows else WithoutPair(w.rows, c, drop))
  }

  function Fetch(w: World, c: string, a: string, now: Time, dropChannel: string, dropEntry: string): World {
    FetchEntry(FetchChannel(w, c, now, dropChannel), c, a, now, dropEntry)
  }

  ghost predicate LegalChannelDrop(reg: Reg, c: string, now: Time, drop: string) {
    if NeedsChannelRoom(reg, c) then IsChannelVictim(reg.chans, drop, now) else drop == ""
  }

  ghost predicate LegalEntryDrop(reg: Reg, c: string, a: string, now: Time, drop: string) {
    if NeedsEntryRoom(reg, c, a) then IsEntryVictim(reg.chans[c].entries, drop, now) else drop == ""
  }

  /** The victims that eviction may choose when pair (c, a) is looked up. */
  ghost predicate LegalDrops(w: World, c: string, a: string, now: Time, dropChannel: string, dropEntry: string) {
    && LegalChannelDrop(w.reg, c, now, dropChannel)
    && LegalEntryDrop(FetchChannel(w, c, now, dropChannel).reg, c, a, now, dropEntry)
  }

  // -- Operations --

  /** Replaces the entry of a pair in a channel that is there. */
  function Put(reg: Reg, c: string, a: string, e: Entry, lastSeenAt: Time, lastBanAt: Time): Reg
    requires c in reg.chans
  {
    reg.(chans := reg.chans[c := Channel(reg.chans[c].entries[a := e], lastSeenAt, lastBanAt)])
  }

  function TargetChannel(o: Outcome): string {
    if o.channel == "" then DEFAULT_CHANNEL else o.channel
  }

  predicate Ignored(reg: Reg, o: Outcome) {
    o.addr == "" || !reg.policy.enabled
  }

  datatype Done = Done(world: World, ban: Option<Ban>)

  function RecordIn(w: World, o: Outcome, now: Time, dropChannel: string, dropEntry: string): Done
    requires now != 0
  {
    if Ignored(w.reg, o) then Done(w, None)
    else RecordFetched(Fetch(w, TargetChannel(o), o.addr, now, dropChannel, dropEntry), TargetChannel(o), o, now)
  }

  function RecordFetched(w: World, c: string, o: Outcome, now: Time): Done
    requires now != 0 && Find(w.reg, c, o.addr).Some?
  {
    var e := Find(w.reg, c, o.addr).value;
    var ban := NewBan(e, w.reg, c, o.addr, o, now);
    Done(
      World(
        Put(w.reg, c, o.addr, Judged(e, w.reg, c, o.addr, o, now), now,
            if ban.Some? then now else w.reg.chans[c].lastBanAt),
        if ban.Some? then w.rows[(c, o.addr) := ban.value] else w.rows),
      ban)
  }

  /** Bans are decisions already made and stay; a new window length makes the counters meaningless. */
  function WithPolicy(reg: Reg, p: Policy): Reg {
    if reg.policy.windowSec == Normalize(p).windowSec then reg.(policy := Normalize(p))
    else reg.(policy := Normalize(p), chans := map c | c in reg.chans :: CountersDropped(reg.chans[c]))
  }

  function CountersDropped(ch: Channel): Channel {
    ch.(entries := map a | a in ch.entries :: ch.entries[a].(counters := EMPTY_RING))
  }

  function Protected(allows: map<string, set<string>>, c: string, a: string): map<string, set<string>> {
    allows[c := (if c in allows then allows[c] else {}) + {a}]
  }

  function ReleasedIn(ch: Channel, a: string): Channel {
    if a in ch.entries then ch.(entries := ch.entries[a := Released(ch.entries[a])]) else ch
  }

  function AllowIn(w: World, c: string, a: string): World {
    if a == "" then w
    else World(
      w.reg.(allows := Protected(w.reg.allows, c, a),
             chans := map k | k in w.reg.chans :: if c == "" || k == c then ReleasedIn(w.reg.chans[k], a) else w.reg.chans[k]),
      WithoutPair(w.rows, c, a))
  }

  function DenyIn(reg: Reg, c: string, a: string): Reg {
    if c in reg.allows then reg.(allows := reg.allows[c := reg.allows[c] - {a}]) else reg
  }

  /** Whether Unban has something to clear. */
  predicate Clearable(reg: Reg, c: string, a: string) {
    Find(reg, c, a).Some? && (Find(reg, c, a).value.bannedUntil != 0 || Find(reg, c, a).value.pendingReprobe)
  }

  function Unbanned(e: Entry): Entry {
    Released(e).(counters := StreakCleared(e.counters))
  }

  function UnbanIn(w: World, c: string, a: string): World {
    if !Clearable(w.reg, c, a) then w
    else World(
      Put(w.reg, c, a, Unbanned(Find(w.reg, c, a).value), w.reg.chans[c].lastSeenAt, w.reg.chans[c].lastBanAt),
      WithoutPair(w.rows, c, a))
  }

  function ResetIn(w: World, c: string): World {
    if c !in w.reg.chans then w
    else World(w.reg.(chans := w.reg.chans[c := Channel(map[], w.reg.chans[c].lastSeenAt, 0)]), WithoutChannel(w.rows, c))
  }

  function DeleteIn(w: World, c: string): World {
    if c !in w.reg.chans then w
    else World(w.reg.(chans := w.reg.chans - {c}), WithoutChannel(w.rows, c))
  }

  /** An entry that carries no live data: not banned, idle, and with an empty window. */
  predicate Sweepable(e: Entry, now: Time, p: Policy) {
    && !Banned(e, now)
    && !(e.lastSeenAt != 0 && now - e.lastSeenAt < IdleReset(p))
    && WindowEmpty(e.counters, BucketIndex(now, BucketSec(p)))
  }

  function Kept(ch: Channel, now: Time, p: Policy): Channel {
    ch.(entries := map a | a in ch.entries && !Sweepable(ch.entries[a], now, p) :: ch.entries[a])
  }

  predicate ChannelSweepable(ch: Channel, now: Time, p: Policy) {
    |Kept(ch, now, p).entries| == 0 && now - ch.lastSeenAt > IdleReset(p)
  }

  predicate PairSweepable(reg: Reg, k: (string, string), now: Time) {
    Find(reg, k.0, k.1).Some? && Sweepable(Find(reg, k.0, k.1).value, now, reg.policy)
  }

  function SweepIn(w: World, now: Time): World {
    var p := w.reg.policy;
    World(
      w.reg.(chans := map c | c in w.reg.chans && !ChannelSweepable(w.reg.chans[c], now, p) :: Kept(w.reg.chans[c], now, p)),
      map k | k in w.rows && !PairSweepable(w.reg, k, now) :: w.rows[k])
  }

  // -- Restart --

  /** Bans that are over, and rows without a channel, are not reinstated. */
  predicate Skipped(b: Ban, now: Time) {
    b.until == 0 || b.until <= now || b.channel == ""
  }

  function Reinstated(e: Entry, b: Ban): Entry {
    e.(bannedUntil := b.until, banReason := b.reason, strikes := b.strikes, lastBanAt := b.bannedAt)
  }

  function RestoreOne(w: World, b: Ban, now: Time, dropChannel: string, dropEntry: string): World {
    if Skipped(b, now) then w
    else
      var f := Fetch(w, b.channel, b.addr, now, dropChannel, dropEntry);
      var ch := f.reg.chans[b.channel];
      World(
        Put(f.reg, b.channel, b.addr, Reinstated(ch.entries[b.addr], b), ch.lastSeenAt,
            if b.until > ch.lastBanAt then b.bannedAt else ch.lastBanAt),
        f.rows)
  }

  /** Reinstates the bans in the order given; drops[i] are the victims of the i-th. */
  function RestoreAll(w: World, bans: seq<Ban>, now: Time, drops: seq<(string, string)>): World
    requires |drops| == |bans|
  {
    if |bans| == 0 then w
    else
      var n := |bans| - 1;
      RestoreOne(RestoreAll(w, bans[..n], now, drops[..n]), bans[n], now, drops[n].0, drops[n].1)
  }

  ghost predicate LegalRestore(w: World, bans: seq<Ban>, now: Time, drops: seq<(string, string)>)
    requires |drops| == |bans|
  {
    |bans| > 0 ==>
      && LegalRestore(w, bans[..|bans| - 1], now, drops[..|bans| - 1])
      && (Skipped(bans[|bans| - 1], now) ||
          LegalDrops(RestoreAll(w, bans[..|bans| - 1], now, drops[..|bans| - 1]),
                     bans[|bans| - 1].channel, bans[|bans| - 1].addr, now, drops[|bans| - 1].0, drops[|bans| - 1].1))
  }

  /** Rows are stored under their own pair, and their length is that of their interval. */
  ghost predicate Keyed(rows: Rows) {
    forall k | k in rows :: rows[k].channel == k.0 && rows[k].addr == k.1 && rows[k].ttlSec == TruncSeconds(rows[k].until - rows[k].bannedAt)
  }

  function Unexpired(rows: Rows, now: Time): Rows {
    map k | k in rows && rows[k].until > now :: rows[k]
  }

  function KeyOf(b: Ban): (string, string) {
    (b.channel, b.addr)
  }

  /** The rows, each once, in whatever order the database returned them. */
  ghost predicate Lists(bans: seq<Ban>, rows: Rows) {
    && (forall i | 0 <= i < |bans| :: KeyOf(bans[i]) in rows && rows[KeyOf(bans[i])] == bans[i])
    && (forall i, j | 0 <= i < j < |bans| :: KeyOf(bans[i]) != KeyOf(bans[j]))
    && (forall k | k in rows :: rows[k] in bans)
  }

  // -- Runs --

  datatype Event =
    | Record(outcome: Outcome)
    | SetPolicy(policy: Policy)
    | SetRules(rules: seq<Rule>)
    | Allow(channel: string, addr: string)
    | Deny(channel: string, addr: string)
    | Unban(channel: string, addr: string)
    | ResetChannel(channel: string)
    | DeleteChannel(channel: string)
    | Sweep

  /** One locked operation at one clock reading, with the victims eviction happened to choose. */
  datatype Step = Step(now: Time, event: Event, dropChannel: string, dropEntry: string)

  function Apply(w: World, s: Step): Done
    requires Reading(s.now)
  {
    match s.event
    case Record(o) => RecordIn(w, o, s.now, s.dropChannel, s.dropEntry)
    case SetPolicy(p) => Done(World(WithPolicy(w.reg, p), w.rows), None)
    case SetRules(rules) => Done(World(w.reg.(rules := rules), w.rows), None)
    case Allow(c, a) => Done(AllowIn(w, c, a), None)
    case Deny(c, a) => Done(World(DenyIn(w.reg, c, a), w.rows), None)
    case Unban(c, a) => Done(UnbanIn(w, c, a), None)
    case ResetChannel(c) => Done(ResetIn(w, c), None)
    case DeleteChannel(c) => Done(DeleteIn(w, c), None)
    case Sweep => Done(SweepIn(w, s.now), None)
  }

  /** The clock is real, and eviction chooses as it must. */
  ghost predicate LegalStep(w: World, s: Step) {
    && Reading(s.now)
    && (s.event.Record? && !Ignored(w.reg, s.event.outcome) ==>
          LegalDrops(w, TargetChannel(s.event.outcome), s.event.outcome.addr, s.now, s.dropChannel, s.dropEntry))
  }

  function Run(w: World, ss: seq<Step>): World
    requires forall k | 0 <= k < |ss| :: Reading(ss[k].now)
  {
    if |ss| == 0 then w else Apply(Run(w, ss[..|ss| - 1]), ss[|ss| - 1]).world
  }

  /** A run from w at time start: legal steps at non-decreasing clock readings. */
  ghost predicate LegalRun(w: World, ss: seq<Step>, start: Time)
    ensures LegalRun(w, ss, start) ==> forall k | 0 <= k < |ss| :: Reading(ss[k].now)
  {
    if |ss| == 0 then true
    else
      && LegalRun(w, ss[..|ss| - 1], start)
      && LegalStep(Run(w, ss[..|ss| - 1]), ss[|ss| - 1])
      && EndTime(ss[..|ss| - 1], start) <= ss[|ss| - 1].now
  }

  function EndTime(ss: seq<Step>, start: Time): Time {
    if |ss| == 0 then start else ss[|ss| - 1].now
  }
}
