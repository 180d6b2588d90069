/** What each row of the queue tells, over every run of the queue's operations: when and as what it was inserted, and what befell it. */
module RowHistory {
  import opened Sequences
  import opened Messages
  import opened Queue
  import opened QueueInvariants

  /** The messages ever enqueued, in order: id `i` is the i-th of them. */
  function Enqueued(ops: seq<Op>): seq<Message> {
    if ops == [] then []
    else Enqueued(ops[..|ops| - 1]) + (if Last(ops).OpEnqueue? then Last(ops).ms else [])
  }

  /** When id `i` was assigned. */
  function InsertedAt(ops: seq<Op>, i: RowId): Time {
    if ops == [] then 0.0
    else
      var front, op := ops[..|ops| - 1], Last(ops);
      if op.OpEnqueue? && |Enqueued(front)| <= i < |Enqueued(ops)| then op.now else InsertedAt(front, i)
  }

  /** The operation names row `i`, which was inserted before it. */
  predicate Names(before: seq<Op>, op: Op, i: RowId) {
    (op.OpMarkFailed? || op.OpQuarantine?) && i in op.ids && i < |Enqueued(before)|
  }

  function Failures(ops: seq<Op>, i: RowId): nat {
    if ops == [] then 0
    else Failures(ops[..|ops| - 1], i) + (if Last(ops).OpMarkFailed? && Names(ops[..|ops| - 1], Last(ops), i) then 1 else 0)
  }

  predicate WasParked(ops: seq<Op>, i: RowId) {
    ops != [] && (WasParked(ops[..|ops| - 1], i) || (Last(ops).OpQuarantine? && Names(ops[..|ops| - 1], Last(ops), i)))
  }

  function LatestError(ops: seq<Op>, i: RowId): Option<string> {
    if ops == [] then None
    else if Names(ops[..|ops| - 1], Last(ops), i) then
      var e := Last(ops).error;
      if |e| == 0 then None else if |e| > 300 then Some(e[..300]) else Some(e)
    else LatestError(ops[..|ops| - 1], i)
  }

  predicate Tells(ops: seq<Op>, r: Row) {
    && r.id < |Enqueued(ops)| && r.payload == Enqueued(ops)[r.id] && r.enqueuedAt == InsertedAt(ops, r.id)
    && r.attempts == Failures(ops, r.id) && r.parked == WasParked(ops, r.id) && r.lastError == LatestError(ops, r.id)
  }

  lemma {:induction false} FreshHasNoHistory(ops: seq<Op>, i: RowId)
    requires i >= |Enqueued(ops)|
    ensures Failures(ops, i) == 0 && !WasParked(ops, i) && LatestError(ops, i) == None
  {
    if ops != [] {
      FreshHasNoHistory(ops[..|ops| - 1], i);
    }
  }

  lemma {:induction false} LogIsEnqueued(ops: seq<Op>)
    ensures Run(ops).log == Enqueued(ops)
  {
    if ops != [] {
      LogIsEnqueued(ops[..|ops| - 1]);
    }
  }

  lemma TrimShrinks(st: QueueState, r: Row)
    requires r in Trim(st).rows
    ensures r in st.rows
  {
    var a := TrimLane(st, PendingPeriodic);
    var b := TrimLane(a, PendingOther);
    DropOldestMembers(b.rows, Quarantined, Excess(b.rows, Quarantined));
    DropOldestMembers(a.rows, PendingOther, Excess(a.rows, PendingOther));
    DropOldestMembers(st.rows, PendingPeriodic, Excess(st.rows, PendingPeriodic));
  }

  lemma EnqueueMembers(st: QueueState, now: Time, ms: seq<Message>, r: Row)
    requires r in EnqueueMany(st, now, ms).rows
    ensures r in st.rows || r in NewRows(|st.log|, now, ms)
  {
    if ms != [] {
      var more := st.(rows := st.rows + NewRows(|st.log|, now, ms), log := st.log + ms);
      TrimShrinks(more, r);
    }
  }

  lemma NewRowTells(front: seq<Op>, op: Op, k: nat)
    requires op.OpEnqueue? && k < |op.ms|
    ensures Tells(front + [op], NewRows(|Enqueued(front)|, op.now, op.ms)[k])
  {
    var i := |Enqueued(front)| + k;
    EnqueueSnoc(front, op, i);
    FreshHasNoHistory(front, i);
    assert NewRows(|Enqueued(front)|, op.now, op.ms)[k] == Row(i, op.now, op.ms[k], 0, false, None);
    hide Enqueued, InsertedAt, Failures, WasParked, LatestError, NewRows;
  }

  lemma EnqueueSnoc(front: seq<Op>, op: Op, i: RowId)
    requires op.OpEnqueue?
    ensures var ops := front + [op];
            && Enqueued(ops) == Enqueued(front) + op.ms
            && InsertedAt(ops, i) == (if |Enqueued(front)| <= i < |Enqueued(ops)| then op.now else InsertedAt(front, i))
            && Failures(ops, i) == Failures(front, i) && WasParked(ops, i) == WasParked(front, i)
            && LatestError(ops, i) == LatestError(front, i)
  {
    assert (front + [op])[..|front|] == front;
  }

  lemma OldRowTells(front: seq<Op>, op: Op, r: Row)
    requires (op.OpEnqueue? || op.OpAck?) && Tells(front, r)
    ensures Tells(front + [op], r)
  {
    assert (front + [op])[..|front|] == front;
  }

  lemma EnqueueTells(front: seq<Op>, op: Op, r: Row)
    requires op.OpEnqueue? && r in Do(Run(front), op).rows
    requires forall x :: x in Run(front).rows ==> Tells(front, x)
    ensures Tells(front + [op], r)
  {
    hide Run, EnqueueMany, Tells, NewRows;
    LogIsEnqueued(front);
    EnqueueMembers(Run(front), op.now, op.ms, r);
    if r in Run(front).rows {
      OldRowTells(front, op, r);
    } else {
      var k :| 0 <= k < |op.ms| && r == NewRows(|Enqueued(front)|, op.now, op.ms)[k];
      NewRowTells(front, op, k);
    }
  }

  lemma RewrittenRowTells(front: seq<Op>, op: Op, r: Row)
    requires (op.OpMarkFailed? || op.OpQuarantine?) && Tells(front, r)
    ensures Tells(front + [op],
                  if r.id !in op.ids then r
                  else if op.OpMarkFailed? then r.(attempts := r.attempts + 1, lastError := Clip(op.error))
                  else r.(parked := true, lastError := Clip(op.error)))
  {
    assert (front + [op])[..|front|] == front;
  }

  lemma RewriteTells(front: seq<Op>, op: Op, r: Row)
    requires (op.OpMarkFailed? || op.OpQuarantine?) && r in Do(Run(front), op).rows
    requires forall x :: x in Run(front).rows ==> Tells(front, x)
    ensures Tells(front + [op], r)
  {
    hide Run, Trim, Tells, Clip;
    var st := Run(front);
    var rows := if op.OpMarkFailed? then MarkFailed(st, op.ids, op.error).rows else Park(st, op.ids, op.error).rows;
    if op.OpQuarantine? && op.ids == [] {
      RewrittenRowTells(front, op, r);
    } else {
      if op.OpQuarantine? {
        TrimShrinks(Park(st, op.ids, op.error), r);
      }
      var n :| 0 <= n < |rows| && rows[n] == r;
      assert st.rows[n] in st.rows;
      RewrittenRowTells(front, op, st.rows[n]);
    }
  }

  lemma AckTells(front: seq<Op>, op: Op, r: Row)
    requires op.OpAck? && r in Do(Run(front), op).rows
    requires forall x :: x in Run(front).rows ==> Tells(front, x)
    ensures Tells(front + [op], r)
  {
    WithoutMembers(Run(front).rows, op.ids);
    hide Run, Tells, Ack;
    OldRowTells(front, op, r) by { assert r in Ack(Run(front), op.ids).rows; AckShrinks(Run(front), op.ids, r); }
  }

  lemma AckShrinks(st: QueueState, ids: seq<RowId>, r: Row)
    requires r in Ack(st, ids).rows
    ensures r in st.rows
  {
    WithoutMembers(st.rows, ids);
  }

  /** In every reachable state each row tells its own history, and no more. */
  lemma {:induction false} RowsTellTheirHistory(ops: seq<Op>)
    ensures forall r :: r in Run(ops).rows ==> Tells(ops, r)
  {
    if ops != [] {
      hide Tells, Do;
      var front, op := ops[..|ops| - 1], Last(ops);
      assert ops == front + [op];
      RowsTellTheirHistory(front);
      forall r | r in Run(ops).rows ensures Tells(ops, r) {
        match op
        case OpEnqueue(_, _) => EnqueueTells(front, op, r);
        case OpAck(_) => AckTells(front, op, r);
        case OpMarkFailed(_, _) => RewriteTells(front, op, r);
        case OpQuarantine(_, _) => RewriteTells(front, op, r);
      }
    }
  }

  // -------------------------------------------------------------------- caps

  function PendingPeriodicRows(rows: seq<Row>): set<nat> {
    set n | 0 <= n < |rows| && !rows[n].parked && rows[n].payload.Periodic?
  }

  function PendingOtherRows(rows: seq<Row>): set<nat> {
    set n | 0 <= n < |rows| && !rows[n].parked && !rows[n].payload.Periodic?
  }

  function ParkedRows(rows: seq<Row>): set<nat> {
    set n | 0 <= n < |rows| && rows[n].parked
  }

  function RowsOf(rows: seq<Row>, lane: Lane): set<nat> {
    match lane
    case PendingPeriodic => PendingPeriodicRows(rows)
    case PendingOther => PendingOtherRows(rows)
    case Quarantined => ParkedRows(rows)
  }

  lemma {:induction false} LaneCounts(rows: seq<Row>, lane: Lane)
    ensures |OfLane(rows, lane)| == |RowsOf(rows, lane)|
  {
    if rows == [] {
      assert RowsOf(rows, lane) == {};
    } else {
      LaneCounts(rows[1..], lane);
      Shifted(rows, lane);
    }
  }

  /** The first row, and the later ones one place on. */
  lemma Shifted(rows: seq<Row>, lane: Lane)
    requires rows != []
    ensures |RowsOf(rows, lane)| == |RowsOf(rows[1..], lane)| + if 0 in RowsOf(rows, lane) then 1 else 0
    ensures 0 in RowsOf(rows, lane) <==> rows[0].Lane() == lane
  {
    var later := RowsOf(rows[1..], lane);
    var moved := set n | n in later :: n + 1;
    forall m: nat ensures m in RowsOf(rows, lane) <==> m in moved || (m == 0 && 0 in RowsOf(rows, lane)) {
      if m > 0 {
        assert rows[1..] != [] && m < |rows| ==> rows[1..][m - 1] == rows[m];
        assert m in RowsOf(rows, lane) <==> m - 1 in later;
        assert m in moved <==> m - 1 in later;
      }
    }
    OneOn(later, moved);
    assert RowsOf(rows, lane) == moved + if 0 in RowsOf(rows, lane) then {0} else {};
  }

  lemma {:induction false} OneOn(s: set<nat>, moved: set<nat>)
    requires moved == set n | n in s :: n + 1
    ensures |moved| == |s| && 0 !in moved
  {
    if s != {} {
      var x :| x in s;
      var less := moved - {x + 1};
      assert forall n: nat :: n in less <==> n > 0 && n - 1 in s - {x};
      assert less == set n | n in s - {x} :: n + 1;
      assert x + 1 in moved;
      OneOn(s - {x}, less);
    }
  }

  /** The caps: at most 5000 periodic and 20000 other rows are pending and 500 quarantined, in every reachable state. */
  lemma CapsHold(ops: seq<Op>)
    requires IsRun(ops)
    ensures var rows := Run(ops).rows;
            |PendingPeriodicRows(rows)| <= 5000 && |PendingOtherRows(rows)| <= 20000 && |ParkedRows(rows)| <= 500
  {
    RunKeepsInv(ops);
    var rows := Run(ops).rows;
    hide Run, IsRun, OfLane;
    assert WithinCaps(rows);
    LaneCounts(rows, PendingPeriodic);
    LaneCounts(rows, PendingOther);
    LaneCounts(rows, Quarantined);
  }
}
