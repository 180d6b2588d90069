/** Conservation, caps and eviction order of the outbound table, over every sequence of its operations. */
module QueueInvariants {
  import opened Sequences
  import opened Messages
  import opened Queue

  ghost predicate Sorted(rows: seq<Row>) {
    forall a, b :: 0 <= a < b < |rows| ==> rows[a].id < rows[b].id && rows[a].enqueuedAt <= rows[b].enqueuedAt
  }

  ghost predicate Faithful(rows: seq<Row>, log: seq<Message>) {
    forall r :: r in rows ==> r.id < |log| && r.payload == log[r.id]
  }

  /** Every id ever assigned is in exactly one of: the table (pending or quarantined), acked, evicted. */
  ghost predicate Conserved(st: QueueState) {
    && (forall i: RowId :: i < |st.log| <==> i in Ids(st.rows) || i in st.acked || i in st.evicted)
    && Ids(st.rows) !! st.acked && Ids(st.rows) !! st.evicted.Keys && st.acked !! st.evicted.Keys
  }

  ghost predicate WithinCaps(rows: seq<Row>) {
    forall lane :: |OfLane(rows, lane)| <= Cap(lane)
  }

  /** What was evicted from a pending lane is older than whatever that lane still holds. */
  ghost predicate OldestEvicted(st: QueueState) {
    forall i, r :: i in st.evicted && r in st.rows && !r.parked && r.Lane() == st.evicted[i] ==> i < r.id
  }

  ghost predicate Core(st: QueueState) {
    Sorted(st.rows) && Faithful(st.rows, st.log) && Conserved(st) && OldestEvicted(st)
  }

  ghost predicate Inv(st: QueueState) {
    Core(st) && WithinCaps(st.rows)
  }

  // ------------------------------------------------------- the statements

  function Suffix<T>(s: seq<T>, k: nat): seq<T> {
    if k <= |s| then s[k..] else []
  }

  lemma {:induction false} PendingMembers(rows: seq<Row>)
    ensures forall x :: x in Pending(rows) <==> x in rows && !x.parked
  {
    if rows != [] {
      PendingMembers(rows[1..]);
      assert forall x :: x in rows <==> x == rows[0] || x in rows[1..];
    }
  }

  lemma {:induction false} WithoutMembers(rows: seq<Row>, ids: seq<RowId>)
    ensures forall x :: x in Without(rows, ids) <==> x in rows && x.id !in ids
  {
    if rows != [] {
      WithoutMembers(rows[1..], ids);
      assert forall x :: x in rows <==> x == rows[0] || x in rows[1..];
    }
  }

  lemma {:induction false} DropOldestMembers(rows: seq<Row>, lane: Lane, k: nat)
    ensures forall x :: x in DropOldest(rows, lane, k) ==> x in rows
  {
    if rows != [] && k != 0 {
      DropOldestMembers(rows[1..], lane, if rows[0].Lane() == lane then k - 1 else k);
      assert forall x :: x in rows <==> x == rows[0] || x in rows[1..];
    }
  }

  lemma OfLaneCons(x: Row, rest: seq<Row>, lane: Lane)
    ensures OfLane([x] + rest, lane) == (if x.Lane() == lane then [x] else []) + OfLane(rest, lane)
  {
    assert ([x] + rest)[1..] == rest;
  }

  /** A lane loses exactly its `k` oldest rows; the other lanes lose nothing. */
  lemma {:induction false} DropOldestTakesFromTheFront(rows: seq<Row>, lane: Lane, k: nat, other: Lane)
    ensures OfLane(DropOldest(rows, lane, k), other) ==
            if other == lane then Suffix(OfLane(rows, lane), k) else OfLane(rows, other)
  {
    if rows != [] && k != 0 {
      if rows[0].Lane() == lane {
        DropOldestTakesFromTheFront(rows[1..], lane, k - 1, other);
      } else {
        DropOldestTakesFromTheFront(rows[1..], lane, k, other);
        OfLaneCons(rows[0], DropOldest(rows[1..], lane, k), other);
      }
    }
  }

  /** `x` comes before every row of `rows`. */
  ghost predicate Precedes(x: Row, rows: seq<Row>) {
    forall y :: y in rows ==> x.id < y.id && x.enqueuedAt <= y.enqueuedAt
  }

  lemma SortedCons(x: Row, rest: seq<Row>)
    requires Sorted(rest) && Precedes(x, rest)
    ensures Sorted([x] + rest)
  {
    var rows := [x] + rest;
    assert forall n :: 0 < n < |rows| ==> rows[n] == rest[n - 1] && rest[n - 1] in rest;
  }

  lemma SortedHead(rows: seq<Row>)
    requires Sorted(rows) && rows != []
    ensures Sorted(rows[1..]) && Precedes(rows[0], rows[1..])
  {
    assert forall y :: y in rows[1..] ==> exists n :: 0 < n < |rows| && rows[n] == y;
  }

  lemma {:induction false} DropOldestKeepsSorted(rows: seq<Row>, lane: Lane, k: nat)
    requires Sorted(rows)
    ensures Sorted(DropOldest(rows, lane, k))
  {
    if rows != [] && k != 0 {
      SortedHead(rows);
      hide Sorted;
      if rows[0].Lane() == lane {
        DropOldestKeepsSorted(rows[1..], lane, k - 1);
      } else {
        DropOldestKeepsSorted(rows[1..], lane, k);
        DropOldestMembers(rows[1..], lane, k);
        SortedCons(rows[0], DropOldest(rows[1..], lane, k));
      }
    }
  }

  /** Whatever is dropped is older than everything its lane keeps. */
  lemma {:induction false} DropOldestDropsOldest(rows: seq<Row>, lane: Lane, k: nat, x: Row, y: Row)
    requires Sorted(rows) && x in rows && x !in DropOldest(rows, lane, k)
    requires y in DropOldest(rows, lane, k) && y.Lane() == lane
    ensures x.id < y.id
  {
    if rows != [] && k != 0 {
      SortedHead(rows);
      if rows[0].Lane() == lane {
        DropOldestMembers(rows[1..], lane, k - 1);
        if x != rows[0] {
          DropOldestDropsOldest(rows[1..], lane, k - 1, x, y);
        }
      } else {
        assert y in DropOldest(rows[1..], lane, k);
        DropOldestDropsOldest(rows[1..], lane, k, x, y);
      }
    }
  }

  lemma TrimLaneKeepsOldestEvicted(st: QueueState, lane: Lane)
    requires Core(st)
    ensures OldestEvicted(TrimLane(st, lane))
  {
    var st' := TrimLane(st, lane);
    DropOldestMembers(st.rows, lane, Excess(st.rows, lane));
    forall i, r | i in st'.evicted && r in st'.rows && !r.parked && r.Lane() == st'.evicted[i]
      ensures i < r.id
    {
      if i in Ids(st.rows) {
        var x :| x in st.rows && x.id == i;
        DropOldestDropsOldest(st.rows, lane, Excess(st.rows, lane), x, r);
      }
    }
  }

  lemma TrimLaneKeepsCore(st: QueueState, lane: Lane)
    requires Core(st)
    ensures Core(TrimLane(st, lane))
  {
    TrimLaneKeepsOldestEvicted(st, lane);
    DropOldestMembers(st.rows, lane, Excess(st.rows, lane));
    DropOldestKeepsSorted(st.rows, lane, Excess(st.rows, lane));
    hide OldestEvicted, Sorted;
    assert Ids(TrimLane(st, lane).rows) <= Ids(st.rows);
  }

  lemma TrimLaneKeepsNewest(st: QueueState, lane: Lane, other: Lane)
    ensures OfLane(TrimLane(st, lane).rows, other) ==
            if other == lane then Suffix(OfLane(st.rows, lane), Excess(st.rows, lane)) else OfLane(st.rows, other)
  {
    DropOldestTakesFromTheFront(st.rows, lane, Excess(st.rows, lane), other);
  }

  /** After a trim each lane holds its newest rows, as many as its cap allows, and nothing else changed. */
  lemma TrimKeepsNewestPerLane(st: QueueState, lane: Lane)
    ensures OfLane(Trim(st).rows, lane) == Suffix(OfLane(st.rows, lane), Excess(st.rows, lane))
    ensures |OfLane(Trim(st).rows, lane)| <= Cap(lane)
  {
    hide TrimLane;
    var a := TrimLane(st, PendingPeriodic);
    var b := TrimLane(a, PendingOther);
    TrimLaneKeepsNewest(st, PendingPeriodic, lane);
    TrimLaneKeepsNewest(a, PendingOther, lane);
    TrimLaneKeepsNewest(b, Quarantined, lane);
  }

  lemma TrimEstablishesInv(st: QueueState)
    requires Core(st)
    ensures Inv(Trim(st))
  {
    hide Core, TrimLane;
    TrimLaneKeepsCore(st, PendingPeriodic);
    TrimLaneKeepsCore(TrimLane(st, PendingPeriodic), PendingOther);
    TrimLaneKeepsCore(TrimLane(TrimLane(st, PendingPeriodic), PendingOther), Quarantined);
    forall lane ensures |OfLane(Trim(st).rows, lane)| <= Cap(lane) {
      TrimKeepsNewestPerLane(st, lane);
    }
  }

  /** With at most 5000 periodic, 20000 other and 500 quarantined rows nothing is trimmed. */
  lemma TrimBelowCaps(st: QueueState)
    requires |OfLane(st.rows, PendingPeriodic)| <= 5000 && |OfLane(st.rows, PendingOther)| <= 20000 && |OfLane(st.rows, Quarantined)| <= 500
    ensures Trim(st) == st
  {
    forall lane ensures TrimLane(st, lane) == st {
      assert Excess(st.rows, lane) == 0;
      assert st.evicted + (map i | i in Ids(st.rows) - Ids(st.rows) :: lane) == st.evicted;
    }
  }

  // ------------------------------------------------------------------- runs

  datatype Op =
    | OpEnqueue(now: Time, ms: seq<Message>)
    | OpAck(ids: seq<RowId>)
    | OpMarkFailed(ids: seq<RowId>, error: string)
    | OpQuarantine(ids: seq<RowId>, error: string)

  function Do(st: QueueState, op: Op): QueueState {
    match op
    case OpEnqueue(now, ms) => EnqueueMany(st, now, ms)
    case OpAck(ids) => Ack(st, ids)
    case OpMarkFailed(ids, error) => MarkFailed(st, ids, error)
    case OpQuarantine(ids, error) => Quarantine(st, ids, error)
  }

  /** The clock never runs backwards; ids may be stale, repeated or unknown. */
  ghost predicate Possible(st: QueueState, op: Op) {
    op.OpEnqueue? ==> forall r :: r in st.rows ==> r.enqueuedAt <= op.now
  }

  ghost function Run(ops: seq<Op>): QueueState {
    if ops == [] then EMPTY_QUEUE else Do(Run(ops[..|ops| - 1]), Last(ops))
  }

  ghost predicate IsRun(ops: seq<Op>) {
    forall n :: 0 <= n < |ops| ==> Possible(Run(ops[..n]), ops[n])
  }

  lemma AppendKeepsCore(st: QueueState, now: Time, ms: seq<Message>)
    requires Core(st) && forall r :: r in st.rows ==> r.enqueuedAt <= now
    ensures Core(st.(rows := st.rows + NewRows(|st.log|, now, ms), log := st.log + ms))
  {
    var added := NewRows(|st.log|, now, ms);
    var st' := st.(rows := st.rows + added, log := st.log + ms);
    assert forall x :: x in st'.rows <==> x in st.rows || x in added;
    NewRowIds(|st.log|, now, ms);
    assert Ids(st'.rows) == Ids(st.rows) + Ids(added);
  }

  lemma NewRowIds(first: RowId, now: Time, ms: seq<Message>)
    ensures forall i :: i in Ids(NewRows(first, now, ms)) <==> first <= i < first + |ms|
  {
    var added := NewRows(first, now, ms);
    forall i | first <= i < first + |ms|
      ensures i in Ids(added)
    {
      assert added[i - first] in added;
    }
  }

  lemma {:induction false} WithoutKeepsSorted(rows: seq<Row>, ids: seq<RowId>)
    requires Sorted(rows)
    ensures Sorted(Without(rows, ids))
  {
    if rows != [] {
      SortedHead(rows);
      WithoutKeepsSorted(rows[1..], ids);
      WithoutMembers(rows[1..], ids);
      SortedCons(rows[0], Without(rows[1..], ids));
    }
  }

  lemma {:induction false} WithoutShrinksLanes(rows: seq<Row>, ids: seq<RowId>, lane: Lane)
    ensures |OfLane(Without(rows, ids), lane)| <= |OfLane(rows, lane)|
  {
    if rows != [] {
      WithoutShrinksLanes(rows[1..], ids, lane);
      OfLaneCons(rows[0], Without(rows[1..], ids), lane);
    }
  }

  lemma AckKeepsInv(st: QueueState, ids: seq<RowId>)
    requires Inv(st)
    ensures Inv(Ack(st, ids))
  {
    WithoutKeepsSorted(st.rows, ids);
    WithoutMembers(st.rows, ids);
    forall lane ensures |OfLane(Ack(st, ids).rows, lane)| <= Cap(lane) {
      WithoutShrinksLanes(st.rows, ids, lane);
    }
  }

  /** Rewriting attempts and errors in place leaves ids, payloads, times and lanes alone. */
  ghost predicate SameShape(a: seq<Row>, b: seq<Row>) {
    && |a| == |b|
    && forall n :: 0 <= n < |a| ==> a[n].id == b[n].id && a[n].payload == b[n].payload && a[n].enqueuedAt == b[n].enqueuedAt && a[n].parked == b[n].parked
  }

  lemma {:induction false} SameShapeSameLanes(a: seq<Row>, b: seq<Row>, lane: Lane)
    requires SameShape(a, b)
    ensures |OfLane(a, lane)| == |OfLane(b, lane)|
  {
    if a != [] {
      SameShapeSameLanes(a[1..], b[1..], lane);
    }
  }

  lemma MarkFailedKeepsInv(st: QueueState, ids: seq<RowId>, error: string)
    requires Inv(st)
    ensures Inv(MarkFailed(st, ids, error))
  {
    var st' := MarkFailed(st, ids, error);
    RewriteKeepsCore(st, st'.rows);
    forall lane ensures |OfLane(st'.rows, lane)| <= Cap(lane) {
      SameShapeSameLanes(st.rows, st'.rows, lane);
    }
  }

  /** `b` is `a` with attempts, errors and newly set parked flags written in place. */
  ghost predicate Rewritten(a: seq<Row>, b: seq<Row>) {
    && |a| == |b|
    && forall n :: 0 <= n < |a| ==> b[n].id == a[n].id && b[n].payload == a[n].payload && b[n].enqueuedAt == a[n].enqueuedAt && (a[n].parked ==> b[n].parked)
  }

  lemma RewrittenIds(a: seq<Row>, b: seq<Row>)
    requires Rewritten(a, b)
    ensures Ids(a) == Ids(b)
  {
    forall i ensures i in Ids(a) <==> i in Ids(b) {
      if i in Ids(a) {
        var n :| 0 <= n < |a| && a[n].id == i;
        assert b[n] in b;
      }
      if i in Ids(b) {
        var n :| 0 <= n < |b| && b[n].id == i;
        assert a[n] in a;
      }
    }
  }

  lemma RewriteKeepsCore(st: QueueState, rows': seq<Row>)
    requires Core(st) && Rewritten(st.rows, rows')
    ensures Core(st.(rows := rows'))
  {
    RewrittenIds(st.rows, rows');
    hide Conserved, Ids;
    forall r | r in rows'
      ensures r.id < |st.log| && r.payload == st.log[r.id]
      ensures forall i :: i in st.evicted && !r.parked && r.Lane() == st.evicted[i] ==> i < r.id
    {
      var n :| 0 <= n < |rows'| && rows'[n] == r;
      assert st.rows[n] in st.rows;
    }
    assert Conserved(st.(rows := rows')) by { ConservedDependsOnIds(st, rows'); }
  }

  lemma ConservedDependsOnIds(st: QueueState, rows': seq<Row>)
    requires Conserved(st) && Ids(rows') == Ids(st.rows)
    ensures Conserved(st.(rows := rows'))
  {
  }

  lemma DoKeepsInv(st: QueueState, op: Op)
    requires Inv(st) && Possible(st, op)
    ensures Inv(Do(st, op))
  {
    match op
    case OpEnqueue(now, ms) =>
      if ms != [] {
        AppendKeepsCore(st, now, ms);
        TrimEstablishesInv(st.(rows := st.rows + NewRows(|st.log|, now, ms), log := st.log + ms));
      }
    case OpAck(ids) => AckKeepsInv(st, ids);
    case OpMarkFailed(ids, error) => MarkFailedKeepsInv(st, ids, error);
    case OpQuarantine(ids, error) =>
      RewriteKeepsCore(st, Park(st, ids, error).rows);
      TrimEstablishesInv(Park(st, ids, error));
  }

  /** In every reachable state: nothing lost or duplicated, caps respected, only the oldest evicted. */
  lemma {:induction false} RunKeepsInv(ops: seq<Op>)
    requires IsRun(ops)
    ensures Inv(Run(ops))
  {
    if ops != [] {
      var front := ops[..|ops| - 1];
      assert forall n :: 0 <= n < |front| ==> front[..n] == ops[..n];
      RunKeepsInv(front);
      DoKeepsInv(Run(front), Last(ops));
    }
  }

  /** History only grows: what is acked or evicted stays so, and no id is ever given a second payload. */
  ghost predicate Extends(a: QueueState, b: QueueState) {
    a.log <= b.log && a.acked <= b.acked && a.evicted.Keys <= b.evicted.Keys
  }

  lemma {:induction false} RunExtends(ops: seq<Op>, n: nat)
    requires n <= |ops|
    ensures Extends(Run(ops[..n]), Run(ops))
  {
    if n == |ops| {
      assert ops[..n] == ops;
    } else {
      var front := ops[..|ops| - 1];
      assert front[..n] == ops[..n];
      RunExtends(front, n);
    }
  }

  lemma PrefixIsRun(ops: seq<Op>, n: nat)
    requires IsRun(ops) && n <= |ops|
    ensures IsRun(ops[..n])
  {
    assert forall k :: 0 <= k < n ==> ops[..n][..k] == ops[..k];
  }

  lemma BatchMembers(st: QueueState, size: nat)
    ensures forall b :: b in TakeBatch(st, size) ==> b in st.rows && !b.parked
  {
    PendingMembers(st.rows);
    assert forall b :: b in TakeBatch(st, size) ==> b in Pending(st.rows);
  }

  lemma RowIdsMembers(rows: seq<Row>)
    ensures forall i :: i in RowIds(rows) <==> exists b :: b in rows && b.id == i
  {
    forall b | b in rows ensures b.id in RowIds(rows) {
      var n :| 0 <= n < |rows| && rows[n] == b;
      assert RowIds(rows)[n] == b.id;
    }
  }

  /** An ack of a batch taken long ago, whatever happened since, removes only rows that batch carried. */
  lemma StaleAckRemovesOnlySentRows(ops: seq<Op>, n: nat, size: nat, r: Row)
    requires IsRun(ops) && n <= |ops|
    requires var ids := RowIds(TakeBatch(Run(ops[..n]), size));
             r in Run(ops).rows && r !in Ack(Run(ops), ids).rows
    ensures exists b :: b in TakeBatch(Run(ops[..n]), size) && b.id == r.id && b.payload == r.payload
  {
    var st, now := Run(ops[..n]), Run(ops);
    PrefixIsRun(ops, n);
    RunKeepsInv(ops[..n]);
    RunKeepsInv(ops);
    RunExtends(ops, n);
    hide Run, IsRun, Conserved, OldestEvicted, Sorted, WithinCaps, RowIds, TakeBatch;
    var batch := TakeBatch(st, size);
    WithoutMembers(now.rows, RowIds(batch));
    RowIdsMembers(batch);
    BatchMembers(st, size);
    var b :| b in batch && b.id == r.id;
    assert b.payload == st.log[r.id] == now.log[r.id];
  }
}
