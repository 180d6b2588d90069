/**
  The edge box's durable outbound table. Rows are kept in (enqueued_at, id) order, which under a clock that
  never runs backwards is the order they were inserted in; a row's id is its insertion number, never reused.
 */
module Queue {
  import opened Sequences
  import opened Messages

  type RowId = nat

  /** The three classes that are capped separately. */
  datatype Lane = PendingPeriodic | PendingOther | Quarantined

  datatype Row = Row(id: RowId, enqueuedAt: Time, payload: Message, attempts: nat, parked: bool, lastError: Option<string>) {
    function Lane(): Lane {
      if parked then Quarantined else if payload.Periodic? then PendingPeriodic else PendingOther
    }
  }

  const MAX_PERIODIC_ROWS := 5000
  const MAX_OTHER_ROWS := 20000
  const MAX_QUARANTINE_ROWS := 500

  function Cap(lane: Lane): nat {
    match lane
    case PendingPeriodic => MAX_PERIODIC_ROWS
    case PendingOther => MAX_OTHER_ROWS
    case Quarantined => MAX_QUARANTINE_ROWS
  }

  /**
    The table, with the history that its rows alone do not show: every payload ever inserted (`log[i]` is the
    payload of id i), the ids deleted by an ack, and the ids deleted by a trim with the lane they were in.
   */
  datatype QueueState = QueueState(rows: seq<Row>, log: seq<Message>, acked: set<RowId>, evicted: map<RowId, Lane>)

  const EMPTY_QUEUE := QueueState([], [], {}, map[])

  // ------------------------------------------------------------ statements

  function OfLane(rows: seq<Row>, lane: Lane): (r: seq<Row>)
    ensures |r| <= |rows|
  {
    if rows == [] then []
    else if rows[0].Lane() == lane then [rows[0]] + OfLane(rows[1..], lane)
    else OfLane(rows[1..], lane)
  }

  function Pending(rows: seq<Row>): (r: seq<Row>)
    ensures |r| <= |rows|
  {
    if rows == [] then []
    else if rows[0].parked then Pending(rows[1..])
    else [rows[0]] + Pending(rows[1..])
  }

  function Excess(rows: seq<Row>, lane: Lane): nat {
    if |OfLane(rows, lane)| <= Cap(lane) then 0 else |OfLane(rows, lane)| - Cap(lane)
  }

  /** Delete the first `k` rows of a lane. */
  function DropOldest(rows: seq<Row>, lane: Lane, k: nat): (r: seq<Row>)
    ensures |r| <= |rows|
  {
    if rows == [] || k == 0 then rows
    else if rows[0].Lane() == lane then DropOldest(rows[1..], lane, k - 1)
    else [rows[0]] + DropOldest(rows[1..], lane, k)
  }

  function Ids(rows: seq<Row>): (ids: set<RowId>)
  {
    set r | r in rows :: r.id
  }

  function TrimLane(st: QueueState, lane: Lane): QueueState {
    var kept := DropOldest(st.rows, lane, Excess(st.rows, lane));
    st.(rows := kept, evicted := st.evicted + map i | i in Ids(st.rows) - Ids(kept) :: lane)
  }

  function Trim(st: QueueState): QueueState {
    TrimLane(TrimLane(TrimLane(st, PendingPeriodic), PendingOther), Quarantined)
  }

  function NewRows(first: RowId, now: Time, ms: seq<Message>): (r: seq<Row>)
    ensures |r| == |ms|
  {
    seq(|ms|, n requires 0 <= n < |ms| => Row(first + n, now, ms[n], 0, false, None))
  }

  function EnqueueMany(st: QueueState, now: Time, ms: seq<Message>): QueueState {
    if ms == [] then st
    else Trim(st.(rows := st.rows + NewRows(|st.log|, now, ms), log := st.log + ms))
  }

  function Without(rows: seq<Row>, ids: seq<RowId>): (r: seq<Row>)
    ensures |r| <= |rows|
  {
    if rows == [] then []
    else if rows[0].id in ids then Without(rows[1..], ids)
    else [rows[0]] + Without(rows[1..], ids)
  }

  function Ack(st: QueueState, ids: seq<RowId>): QueueState {
    var kept := Without(st.rows, ids);
    st.(rows := kept, acked := st.acked + (Ids(st.rows) - Ids(kept)))
  }

  /** `str(error)[:300] if error else None` */
  function Clip(error: string): Option<string> {
    if error == "" then None else Some(if |error| <= 300 then error else error[..300])
  }

  function MarkFailed(st: QueueState, ids: seq<RowId>, error: string): QueueState {
    st.(rows := seq(|st.rows|, n requires 0 <= n < |st.rows| =>
          var r := st.rows[n];
          if r.id in ids then r.(attempts := r.attempts + 1, lastError := Clip(error)) else r))
  }

  function Park(st: QueueState, ids: seq<RowId>, error: string): QueueState {
    st.(rows := seq(|st.rows|, n requires 0 <= n < |st.rows| =>
          var r := st.rows[n];
          if r.id in ids then r.(parked := true, lastError := Clip(error)) else r))
  }

  function Quarantine(st: QueueState, ids: seq<RowId>, error: string): QueueState {
    if ids == [] then st else Trim(Park(st, ids, error))
  }

  function TakeBatch(st: QueueState, n: nat): (batch: seq<Row>)
    ensures |batch| <= n
  {
    var pending := Pending(st.rows);
    if |pending| <= n then pending else pending[..n]
  }

  function RowIds(rows: seq<Row>): (ids: seq<RowId>)
    ensures |ids| == |rows|
  {
    seq(|rows|, n requires 0 <= n < |rows| => rows[n].id)
  }

  function Payloads(rows: seq<Row>): (ms: seq<Message>)
    ensures |ms| == |rows|
  {
    seq(|rows|, n requires 0 <= n < |rows| => rows[n].payload)
  }

  // ------------------------------------------------------------------ class

  class OutboundQueue {
    var rows: seq<Row>
    var nextId: RowId
    ghost var log: seq<Message>
    ghost var acked: set<RowId>
    ghost var evicted: map<RowId, Lane>

    ghost predicate Valid()
      reads this
    {
      nextId == |log|
    }

    ghost function Value(): QueueState
      reads this
    {
      QueueState(rows, log, acked, evicted)
    }

    constructor ()
      ensures Valid() && Value() == EMPTY_QUEUE
    {
      rows, nextId, log, acked, evicted := [], 0, [], {}, map[];
    }

    method DeleteOldest(lane: Lane)
      modifies `rows, `evicted
      ensures Value() == TrimLane(old(Value()), lane)
    {
      var kept := DropOldest(rows, lane, Excess(rows, lane));
      evicted := evicted + map i | i in Ids(rows) - Ids(kept) :: lane;
      rows := kept;
    }

    method TrimAll()
      modifies `rows, `evicted
      ensures Value() == Trim(old(Value()))
    {
      DeleteOldest(PendingPeriodic);
      DeleteOldest(PendingOther);
      DeleteOldest(Quarantined);
    }

    method Enqueue(m: Message, now: Time)
      requires Valid()
      modifies this
      ensures Valid() && Value() == EnqueueMany(old(Value()), now, [m])
    {
      rows := rows + [Row(nextId, now, m, 0, false, None)];
      assert NewRows(nextId, now, [m]) == [Row(nextId, now, m, 0, false, None)];
      nextId, log := nextId + 1, log + [m];
      TrimAll();
    }

    method EnqueueAll(ms: seq<Message>, now: Time)
      requires Valid()
      modifies this
      ensures Valid() && Value() == EnqueueMany(old(Value()), now, ms)
    {
      if ms == [] {
        return;
      }
      rows := rows + NewRows(nextId, now, ms);
      nextId, log := nextId + |ms|, log + ms;
      TrimAll();
    }

    method Take(n: nat) returns (batch: seq<(RowId, Message)>)
      ensures |batch| == |TakeBatch(Value(), n)|
      ensures forall i :: 0 <= i < |batch| ==> batch[i] == (TakeBatch(Value(), n)[i].id, TakeBatch(Value(), n)[i].payload)
    {
      var pending := Pending(rows);
      var head := if |pending| <= n then pending else pending[..n];
      batch := seq(|head|, i requires 0 <= i < |head| => (head[i].id, head[i].payload));
    }

    method Acknowledge(ids: seq<RowId>)
      requires Valid()
      modifies `rows, `acked
      ensures Valid() && Value() == Ack(old(Value()), ids)
    {
      if ids == [] {
        WithoutNothing(rows);
        return;
      }
      var kept := Without(rows, ids);
      acked := acked + (Ids(rows) - Ids(kept));
      rows := kept;
    }

    method RecordFailure(ids: seq<RowId>, error: string)
      requires Valid()
      modifies `rows
      ensures Valid() && Value() == MarkFailed(old(Value()), ids, error)
    {
      if ids == [] {
        assert MarkFailed(Value(), ids, error).rows == rows;
        return;
      }
      rows := seq(|rows|, n requires 0 <= n < |rows| reads this =>
        if rows[n].id in ids then rows[n].(attempts := rows[n].attempts + 1, lastError := Clip(error)) else rows[n]);
    }

    method SetAside(ids: seq<RowId>, error: string)
      requires Valid()
      modifies `rows, `evicted
      ensures Valid() && Value() == Quarantine(old(Value()), ids, error)
    {
      if ids == [] {
        return;
      }
      rows := seq(|rows|, n requires 0 <= n < |rows| reads this =>
        if rows[n].id in ids then rows[n].(parked := true, lastError := Clip(error)) else rows[n]);
      assert Value() == Park(old(Value()), ids, error);
      hide TrimLane, Trim, Park;
      TrimAll();
    }

    /** How many rows batches can still be made of: a batch of any size is as long as it may be, up to this. */
    method Depth() returns (n: nat)
      ensures forall size: nat :: |TakeBatch(Value(), size)| == if size <= n then size else n
      ensures n == |Pending(rows)|
    {
      n := 0;
      for i := 0 to |rows|
        invariant n + |Pending(rows[i..])| == |Pending(rows)|
      {
        assert rows[i..][1..] == rows[i + 1..];
        if !rows[i].parked {
          n := n + 1;
        }
      }
    }
  }

  lemma {:induction false} WithoutNothing(rows: seq<Row>)
    ensures Without(rows, []) == rows
  {
    if rows != [] {
      WithoutNothing(rows[1..]);
    }
  }
}
