/** The sliding window of one (channel, proxy) pair: a ring of six time slices and a failure streak. */
module Window {
  import opened Clock

  const NUM_BUCKETS := 6

  /** What a bucket counts. A timeout counts as a failure too. */
  datatype Kind = Okay | Failed | TimedOut

  /** How much one outcome adds to a count. */
  function Weight(kind: Kind, ok: bool, timedOut: bool): int {
    match kind
    case Okay => if ok then 1 else 0
    case Failed => if ok then 0 else 1
    case TimedOut => if !ok && timedOut then 1 else 0
  }

  /** One slice of wall-clock time; idx is the absolute slice number the counts belong to. */
  datatype Bucket = Bucket(idx: int, ok: int, fail: int, timeout: int) {
    function Count(kind: Kind): int {
      match kind
      case Okay => ok
      case Failed => fail
      case TimedOut => timeout
    }
  }

  datatype RingData = RingData(buckets: seq<Bucket>, consecFails: int, lastOutcomeAt: Time)

  /** Counts are natural, and a bucket sits in the slot of its slice unless it has counted nothing yet. */
  predicate Aligned(b: Bucket, k: int) {
    && b.ok >= 0 && b.fail >= 0 && b.timeout >= 0
    && (b.idx % 6 == k || (b.ok == 0 && b.fail == 0 && b.timeout == 0))
  }

  predicate ValidRing(r: RingData) {
    && |r.buckets| == NUM_BUCKETS
    && (forall k | 0 <= k < NUM_BUCKETS :: Aligned(r.buckets[k], k))
    && r.consecFails >= 0
    && (r.consecFails > 0 ==> r.lastOutcomeAt != 0)
  }

  const IDLE := Bucket(0, 0, 0, 0)

  const EMPTY_RING: RingData := RingData([IDLE, IDLE, IDLE, IDLE, IDLE, IDLE], 0, 0)

  /** The value of a pair's counters. */
  type Ring = r: RingData | ValidRing(r) witness EMPTY_RING

  function BucketIndex(now: Time, bucketSec: int): int {
    Quot(Unix(now), if bucketSec <= 0 then 1 else bucketSec)
  }

  lemma BucketIndexMonotone(a: Time, b: Time, bucketSec: int)
    requires a <= b
    ensures BucketIndex(a, bucketSec) <= BucketIndex(b, bucketSec)
  {
    UnixMonotone(a, b);
    QuotMonotone(Unix(a), Unix(b), if bucketSec <= 0 then 1 else bucketSec);
  }

  /** What the ring still holds about slice i: nothing once the slot was given to another slice. */
  function Slice(r: Ring, i: int, kind: Kind): int {
    var b := r.buckets[i % 6];
    if b.idx == i then b.Count(kind) else 0
  }

  function Total(ns: seq<int>): int {
    if |ns| == 0 then 0 else Total(ns[..|ns| - 1]) + ns[|ns| - 1]
  }

  /** The slices of the window that ends with slice cur, oldest first. */
  function Slices(r: Ring, cur: int, kind: Kind): seq<int> {
    [Slice(r, cur - 5, kind), Slice(r, cur - 4, kind), Slice(r, cur - 3, kind),
     Slice(r, cur - 2, kind), Slice(r, cur - 1, kind), Slice(r, cur, kind)]
  }

  /** The evidence inside the window that ends with slice cur. */
  function Sum(r: Ring, cur: int, kind: Kind): int {
    Total(Slices(r, cur, kind))
  }

  /** The streak after one more outcome; a failure long after the last outcome starts a new one. */
  function NextStreak(r: Ring, now: Time, ok: bool, staleAfter: Duration): int {
    if ok then 0
    else if r.lastOutcomeAt != 0 && now - r.lastOutcomeAt > staleAfter then 1
    else r.consecFails + 1
  }

  /** The bucket of slice idx after one more outcome. */
  function Filled(r: Ring, idx: int, ok: bool, timedOut: bool): (b: Bucket)
    ensures Aligned(b, idx % 6)
  {
    Bucket(idx,
           Slice(r, idx, Okay) + Weight(Okay, ok, timedOut),
           Slice(r, idx, Failed) + Weight(Failed, ok, timedOut),
           Slice(r, idx, TimedOut) + Weight(TimedOut, ok, timedOut))
  }

  /** One more outcome, in slice idx. */
  function Recorded(r: Ring, idx: int, now: Time, ok: bool, timedOut: bool, staleAfter: Duration): Ring
    requires now != 0
  {
    RingData(r.buckets[idx % 6 := Filled(r, idx, ok, timedOut)], NextStreak(r, now, ok, staleAfter), now)
  }

  /** The streak, unless its last outcome is older than the window. */
  function Consecutive(r: Ring, now: Time, staleAfter: Duration): int {
    if r.lastOutcomeAt != 0 && now - r.lastOutcomeAt > staleAfter then 0 else r.consecFails
  }

  function StreakCleared(r: Ring): Ring {
    r.(consecFails := 0)
  }

  /** Recording adds to one slice of the window and keeps the others; a later slice can only be emptied. */
  lemma RecordedSlices(r: Ring, idx: int, now: Time, ok: bool, timedOut: bool, staleAfter: Duration, i: int, kind: Kind)
    requires now != 0 && i >= idx - 5
    ensures i == idx ==>
              Slice(Recorded(r, idx, now, ok, timedOut, staleAfter), i, kind) == Slice(r, i, kind) + Weight(kind, ok, timedOut)
    ensures i < idx ==> Slice(Recorded(r, idx, now, ok, timedOut, staleAfter), i, kind) == Slice(r, i, kind)
    ensures i > idx ==>
              || Slice(Recorded(r, idx, now, ok, timedOut, staleAfter), i, kind) == Slice(r, i, kind)
              || Slice(Recorded(r, idx, now, ok, timedOut, staleAfter), i, kind) == 0
  {
    if i < idx {
      SlotAfter(i, idx - i);
    }
  }

  lemma SliceIsNatural(r: Ring, i: int, kind: Kind)
    ensures Slice(r, i, kind) >= 0
  {
    assert Aligned(r.buckets[i % 6], i % 6);
  }

  // -- The loop over slots computes the sum over slices --

  function Counted(b: Bucket, cur: int, kind: Kind): int {
    if b.idx < cur - 5 || b.idx > cur then 0 else b.Count(kind)
  }

  function SlotCounts(buckets: seq<Bucket>, cur: int, kind: Kind): (counts: seq<int>)
    ensures |counts| == |buckets|
    ensures forall k | 0 <= k < |buckets| :: counts[k] == Counted(buckets[k], cur, kind)
  {
    if |buckets| == 0 then []
    else SlotCounts(buckets[..|buckets| - 1], cur, kind) + [Counted(buckets[|buckets| - 1], cur, kind)]
  }

  lemma {:induction false} TotalAppend(a: seq<int>, b: seq<int>)
    ensures Total(a + b) == Total(a) + Total(b)
  {
    if |b| == 0 {
      assert a + b == a;
    } else {
      var n := |b| - 1;
      TotalAppend(a, b[..n]);
      assert (a + b)[..|a + b| - 1] == a + b[..n];
    }
  }

  lemma SlotIsSlice(r: Ring, cur: int, i: int, kind: Kind)
    requires cur - 5 <= i <= cur
    ensures Counted(r.buckets[i % 6], cur, kind) == Slice(r, i, kind)
  {
    var b := r.buckets[i % 6];
    assert Aligned(b, i % 6);
  }

  lemma SlotsAreRotatedSlices(r: Ring, cur: int, kind: Kind)
    ensures Slices(r, cur, kind) == Rotated(SlotCounts(r.buckets, cur, kind), (cur - 5) % 6)
  {
    var s := (cur - 5) % 6;
    var slots := SlotCounts(r.buckets, cur, kind);
    var slices := Slices(r, cur, kind);
    forall j | 0 <= j < 6
      ensures slices[j] == Rotated(slots, s)[j]
    {
      SliceAt(r, cur, j, kind);
      SlotIsSlice(r, cur, cur - 5 + j, kind);
      SlotAfter(cur - 5, j);
      assert slices[j] == slots[(cur - 5 + j) % 6];
    }
  }

  lemma SlotAfter(i: int, j: int)
    requires 0 <= j < 6
    ensures (i + j) % 6 == if i % 6 + j < 6 then i % 6 + j else i % 6 + j - 6
  {
  }

  function Rotated(ns: seq<int>, s: nat): seq<int>
    requires s <= |ns|
  {
    ns[s..] + ns[..s]
  }

  lemma SliceAt(r: Ring, cur: int, j: int, kind: Kind)
    requires 0 <= j < 6
    ensures Slices(r, cur, kind)[j] == Slice(r, cur - 5 + j, kind)
  {
  }

  /** Adding the slots in array order gives the evidence of the window, which starts at some rotation of the array. */
  lemma SlotOrderDoesNotMatter(r: Ring, cur: int, kind: Kind)
    ensures Total(SlotCounts(r.buckets, cur, kind)) == Sum(r, cur, kind)
  {
    var s := (cur - 5) % 6;
    var slots := SlotCounts(r.buckets, cur, kind);
    SlotsAreRotatedSlices(r, cur, kind);
    TotalAppend(slots[s..], slots[..s]);
    TotalAppend(slots[..s], slots[s..]);
    assert slots == slots[..s] + slots[s..];
  }

  /** The window is empty exactly if all of its slices are. */
  lemma {:induction false} TotalIsZero(ns: seq<int>)
    requires forall k | 0 <= k < |ns| :: ns[k] >= 0
    ensures Total(ns) >= 0
    ensures Total(ns) == 0 <==> forall k | 0 <= k < |ns| :: ns[k] == 0
  {
    if |ns| > 0 {
      TotalIsZero(ns[..|ns| - 1]);
      assert forall k | 0 <= k < |ns| :: k < |ns| - 1 ==> ns[k] == ns[..|ns| - 1][k];
      assert ns[|ns| - 1] >= 0;
    }
  }

  /** The counters record, updated in place. */
  class Counters {
    const buckets: array<Bucket>
    var consecFails: int
    var lastOutcomeAt: Time

    ghost predicate Valid()
      reads this, buckets
    {
      ValidRing(Raw())
    }

    function Raw(): RingData
      reads this, buckets
    {
      RingData(buckets[..], consecFails, lastOutcomeAt)
    }

    function Value(): (r: Ring)
      reads this, buckets
      requires Valid()
    {
      Raw()
    }

    constructor ()
      ensures Valid() && Value() == EMPTY_RING
      ensures fresh(buckets)
    {
      buckets := new Bucket[NUM_BUCKETS](_ => Bucket(0, 0, 0, 0));
      consecFails, lastOutcomeAt := 0, 0;
      new;
      assert buckets[..] == EMPTY_RING.buckets;
    }

    /** Finds the slot of a slice and empties it first if it still holds another slice. */
    method Slot(idx: int) returns (k: nat)
      requires Valid()
      modifies buckets
      ensures k == idx % 6 && buckets.Length == NUM_BUCKETS
      ensures buckets[k].idx == idx
      ensures forall kind :: buckets[k].Count(kind) == Slice(old(Value()), idx, kind)
      ensures forall j | 0 <= j < NUM_BUCKETS && j != k :: buckets[j] == old(buckets[j])
    {
      k := (idx % 6 + 6) % 6;
      if buckets[k].idx != idx {
        buckets[k] := Bucket(idx, 0, 0, 0);
      }
    }

    method Record(now: Time, bucketSec: int, ok: bool, timedOut: bool, staleAfter: Duration)
      requires Valid() && now != 0
      modifies this, buckets
      ensures Valid()
      ensures Value() == Recorded(old(Value()), BucketIndex(now, bucketSec), now, ok, timedOut, staleAfter)
    {
      ghost var was := Value();
      var idx := BucketIndex(now, bucketSec);
      var k := Slot(idx);
      var b := buckets[k];
      assert b.ok == b.Count(Okay) && b.fail == b.Count(Failed) && b.timeout == b.Count(TimedOut);
      if ok {
        b := b.(ok := b.ok + 1);
        consecFails := 0;
      } else {
        b := b.(fail := b.fail + 1);
        if timedOut {
          b := b.(timeout := b.timeout + 1);
        }
        if lastOutcomeAt != 0 && now - lastOutcomeAt > staleAfter {
          consecFails := 1;
        } else {
          consecFails := consecFails + 1;
        }
      }
      buckets[k] := b;
      lastOutcomeAt := now;
      assert b == Filled(was, idx, ok, timedOut);
      assert buckets[..] == was.buckets[k := b];
    }

    /** Adds up the buckets still inside the window, in slot order. */
    method SumWindow(now: Time, bucketSec: int) returns (ok: int, fail: int, timeout: int)
      requires Valid()
      ensures ok == Sum(Value(), BucketIndex(now, bucketSec), Okay)
      ensures fail == Sum(Value(), BucketIndex(now, bucketSec), Failed)
      ensures timeout == Sum(Value(), BucketIndex(now, bucketSec), TimedOut)
    {
      var cur := BucketIndex(now, bucketSec);
      var oldest := cur - NUM_BUCKETS + 1;
      ok, fail, timeout := 0, 0, 0;
      ghost var oks, fails, timeouts :=
        SlotCounts(buckets[..], cur, Okay), SlotCounts(buckets[..], cur, Failed), SlotCounts(buckets[..], cur, TimedOut);
      for i := 0 to NUM_BUCKETS
        invariant ok == Total(oks[..i]) && fail == Total(fails[..i]) && timeout == Total(timeouts[..i])
      {
        var b := buckets[i];
        assert oks[..i + 1][..i] == oks[..i] && fails[..i + 1][..i] == fails[..i] && timeouts[..i + 1][..i] == timeouts[..i];
        if !(b.idx < oldest || b.idx > cur) {
          ok, fail, timeout := ok + b.ok, fail + b.fail, timeout + b.timeout;
        }
      }
      assert oks[..NUM_BUCKETS] == oks && fails[..NUM_BUCKETS] == fails && timeouts[..NUM_BUCKETS] == timeouts;
      SlotOrderDoesNotMatter(Value(), cur, Okay);
      SlotOrderDoesNotMatter(Value(), cur, Failed);
      SlotOrderDoesNotMatter(Value(), cur, TimedOut);
    }

    method CurrentStreak(now: Time, staleAfter: Duration) returns (n: int)
      requires Valid()
      ensures n == Consecutive(Value(), now, staleAfter)
    {
      if consecFails == 0 {
        return 0;
      }
      if lastOutcomeAt != 0 && now - lastOutcomeAt > staleAfter {
        return 0;
      }
      return consecFails;
    }

    /** Whether every slice has aged out of the window. */
    method Empty(now: Time, bucketSec: int) returns (empty: bool)
      requires Valid()
      ensures empty == WindowEmpty(Value(), BucketIndex(now, bucketSec))
    {
      var ok, fail, timeout := SumWindow(now, bucketSec);
      empty := ok == 0 && fail == 0 && timeout == 0;
    }
  }

  predicate WindowEmpty(r: Ring, cur: int) {
    Sum(r, cur, Okay) == 0 && Sum(r, cur, Failed) == 0 && Sum(r, cur, TimedOut) == 0
  }

  /** An empty window has no evidence of any kind in any of its slices. */
  lemma EmptyWindowSlices(r: Ring, cur: int, i: int, kind: Kind)
    requires WindowEmpty(r, cur) && cur - 5 <= i <= cur
    ensures Slice(r, i, kind) == 0
  {
    var ns := Slices(r, cur, kind);
    forall k | 0 <= k < |ns| ensures ns[k] >= 0 {
      SliceIsNatural(r, cur - 5 + k, kind);
    }
    assert Total(ns) == 0 by {
      match kind
      case Okay =>
      case Failed =>
      case TimedOut =>
    }
    TotalIsZero(ns);
    assert ns[i - (cur - 5)] == Slice(r, i, kind);
  }
}
