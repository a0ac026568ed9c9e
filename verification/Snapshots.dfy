/** The saved snapshot of the pool, which stores neither the retry set nor its deadlines. */
module Snapshots {
  import opened Clock
  import opened Scoring
  import opened PoolModel

  /** One row: the record and two membership flags. */
  datatype SnapRow = SnapRow(proxy: Proxy, inRaw: bool, inScored: bool)

  datatype Snapshot = Snapshot(rows: map<string, SnapRow>, toggles: map<string, bool>)

  const EMPTY_SNAPSHOT := Snapshot(map[], map[])

  function Encode(s: Pool): Snapshot {
    Snapshot(
      map a | a in s.proxies :: SnapRow(s.proxies[a], a in s.raw, a in s.scored),
      map n | n in s.enabled + s.disabled :: n !in s.disabled)
  }

  /** In neither set, and failed: it must have been waiting for a retry. */
  predicate WasRetrying(r: SnapRow) {
    !r.inRaw && !r.inScored && r.proxy.failCount > 0 && !r.proxy.validated
  }

  function Named(p: Proxy, a: string): Proxy {
    if p.addr == "" then p.(addr := a) else p
  }

  /** A row put back; the deadline is worked out again from the failure count and the last check. */
  function WithRow(s: Pool, a: string, r: SnapRow): Pool {
    s.(proxies := s.proxies[a := Named(r.proxy, a)],
       raw := if r.inRaw then s.raw + {a} else s.raw,
       scored := if r.inScored then s.scored + {a} else s.scored,
       retry := if WasRetrying(r) then s.retry[a := RetryDue(r.proxy.failCount, r.proxy.lastCheck)] else s.retry)
  }

  /** The pool a snapshot stands for. */
  function Decode(n: Snapshot): Pool {
    Pool(
      map a | a in n.rows :: Named(n.rows[a].proxy, a),
      set a | a in n.rows && n.rows[a].inRaw,
      map a | a in n.rows && WasRetrying(n.rows[a]) :: RetryDue(n.rows[a].proxy.failCount, n.rows[a].proxy.lastCheck),
      set a | a in n.rows && n.rows[a].inScored,
      set t | t in n.toggles && n.toggles[t],
      set t | t in n.toggles && !n.toggles[t])
  }

  /** The rows that have been put back so far. */
  function RowsBut(rows: map<string, SnapRow>, todo: set<string>): map<string, SnapRow> {
    map a | a in rows && a !in todo :: rows[a]
  }

  /** Putting the rows back one by one, in any order, decodes the snapshot. */
  lemma DecodedFurther(rows: map<string, SnapRow>, todo: set<string>, a: string)
    requires a in todo && todo <= rows.Keys
    ensures WithRow(Decode(Snapshot(RowsBut(rows, todo), map[])), a, rows[a]) ==
            Decode(Snapshot(RowsBut(rows, todo - {a}), map[]))
  {
    var before, after := RowsBut(rows, todo), RowsBut(rows, todo - {a});
    assert after == before[a := rows[a]];
    RowDecoded(before, a, rows[a]);
  }

  lemma RowDecoded(rows: map<string, SnapRow>, a: string, r: SnapRow)
    requires a !in rows
    ensures WithRow(Decode(Snapshot(rows, map[])), a, r) == Decode(Snapshot(rows[a := r], map[]))
  {
    var d, e := Decode(Snapshot(rows, map[])), Decode(Snapshot(rows[a := r], map[]));
    assert e.proxies == d.proxies[a := Named(r.proxy, a)];
    assert e.raw == if r.inRaw then d.raw + {a} else d.raw;
    assert e.scored == if r.inScored then d.scored + {a} else d.scored;
    assert e.retry == if WasRetrying(r) then d.retry[a := RetryDue(r.proxy.failCount, r.proxy.lastCheck)] else d.retry;
    assert e.enabled == d.enabled && e.disabled == d.disabled;
  }

  ghost predicate Addressed(s: Pool) {
    forall a | a in s.proxies :: s.proxies[a].addr == a
  }

  predicate Exclusive(s: Pool) {
    s.enabled !! s.disabled
  }

  /** Saving and loading gives the pool back, the retry set and every deadline included. */
  lemma SnapshotRoundTrip(s: Pool)
    requires Partitioned(s) && Addressed(s) && Exclusive(s)
    ensures Decode(Encode(s)) == s
  {
    var d := Decode(Encode(s));
    assert d.proxies == s.proxies by {
      assert d.proxies.Keys == s.proxies.Keys;
    }
    assert d.raw == s.raw;
    assert d.scored == s.scored;
    forall a ensures a in d.retry <==> a in s.retry {
    }
    assert d.retry == s.retry by {
      assert d.retry.Keys == s.retry.Keys;
      assert forall a | a in s.retry :: s.proxies[a].failCount == 1;
    }
    assert d.enabled == s.enabled && d.disabled == s.disabled;
  }

  /** Even switches set both ways at once keep their meaning, because off wins on both sides. */
  lemma SwitchesSurvive(s: Pool, name: string, default: bool)
    ensures SourceEnabled(Decode(Encode(s)), name, default) == SourceEnabled(s, name, default)
  {
    var n := Encode(s);
    assert name in n.toggles <==> name in s.enabled + s.disabled;
  }

  /** What is lost without the partition: a record that is in no set and has not failed comes back in no set. */
  lemma OnlyFailedRecordsReturnToRetry(s: Pool, a: string)
    requires a in s.proxies
    ensures a in Decode(Encode(s)).retry <==>
            a !in s.raw && a !in s.scored && s.proxies[a].failCount > 0 && !s.proxies[a].validated
  {
  }
}
