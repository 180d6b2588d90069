/** How each queue operation moves the pending rows: appended at the back, taken from the front. */
module PendingOrder {
  import opened Sequences
  import opened Messages
  import opened Queue
  import opened QueueInvariants

  function PendingIds(st: QueueState): seq<RowId> {
    RowIds(Pending(st.rows))
  }

  function PendingMessages(st: QueueState): seq<Message> {
    Payloads(Pending(st.rows))
  }

  /** The insert fits under every cap, so its trim deletes nothing. */
  ghost predicate Fits(st: QueueState, now: Time, ms: seq<Message>) {
    WithinCaps(st.rows + NewRows(|st.log|, now, ms)) && forall r :: r in st.rows ==> r.enqueuedAt <= now
  }

  function BatchSize(st: QueueState, n: nat): nat {
    if |Pending(st.rows)| <= n then |Pending(st.rows)| else n
  }

  lemma BatchIsFront(st: QueueState, n: nat)
    ensures RowIds(TakeBatch(st, n)) == PendingIds(st)[..BatchSize(st, n)]
    ensures Payloads(TakeBatch(st, n)) == PendingMessages(st)[..BatchSize(st, n)]
  {
  }

  // ------------------------------------------------------------------- rows

  lemma PendingCons(x: Row, rest: seq<Row>)
    ensures Pending([x] + rest) == if x.parked then Pending(rest) else [x] + Pending(rest)
  {
    assert ([x] + rest)[1..] == rest;
  }

  lemma ColumnsCons(x: Row, rest: seq<Row>)
    ensures RowIds([x] + rest) == [x.id] + RowIds(rest)
    ensures Payloads([x] + rest) == [x.payload] + Payloads(rest)
  {
  }

  lemma ColumnsConcat(a: seq<Row>, b: seq<Row>)
    ensures RowIds(a + b) == RowIds(a) + RowIds(b)
    ensures Payloads(a + b) == Payloads(a) + Payloads(b)
  {
  }

  lemma ColumnsDrop(rows: seq<Row>, b: nat)
    requires b <= |rows|
    ensures RowIds(rows[..b]) == RowIds(rows)[..b] && RowIds(rows[b..]) == RowIds(rows)[b..]
    ensures Payloads(rows[..b]) == Payloads(rows)[..b] && Payloads(rows[b..]) == Payloads(rows)[b..]
  {
  }

  lemma {:induction false} PendingConcat(a: seq<Row>, b: seq<Row>)
    ensures Pending(a + b) == Pending(a) + Pending(b)
  {
    if a == [] {
      assert a + b == b;
    } else {
      var x, rest := a[0], a[1..];
      PendingConcat(rest, b);
      assert a == [x] + rest && a + b == [x] + (rest + b);
      PendingCons(x, rest);
      PendingCons(x, rest + b);
      hide Pending;
      assert [x] + (Pending(rest) + Pending(b)) == ([x] + Pending(rest)) + Pending(b);
    }
  }

  lemma {:induction false} AllPending(rows: seq<Row>)
    requires forall r :: r in rows ==> !r.parked
    ensures Pending(rows) == rows
  {
    if rows != [] {
      AllPending(rows[1..]);
    }
  }

  lemma {:induction false} WithoutUnknown(rows: seq<Row>, ids: seq<RowId>, extra: RowId)
    requires forall r :: r in rows ==> r.id != extra
    ensures Without(rows, [extra] + ids) == Without(rows, ids)
  {
    if rows != [] {
      WithoutUnknown(rows[1..], ids, extra);
    }
  }

  /** Deleting the first `b` pending rows by id leaves the rest of them, in order. */
  lemma {:induction false} WithoutFront(rows: seq<Row>, b: nat)
    requires Sorted(rows) && b <= |Pending(rows)|
    ensures Pending(Without(rows, RowIds(Pending(rows)[..b]))) == Pending(rows)[b..]
  {
    if rows != [] {
      var head, tail := rows[0], rows[1..];
      SortedHead(rows);
      var ids := RowIds(Pending(rows)[..b]);
      if head.parked {
        WithoutFront(tail, b);
        PendingMembers(tail);
        assert head.id !in ids by {
          assert forall n :: 0 <= n < b ==> Pending(tail)[n] in Pending(tail);
        }
      } else if b == 0 {
        assert ids == [];
        WithoutNothing(rows);
      } else {
        WithoutFront(tail, b - 1);
        assert Pending(rows)[..b] == [head] + Pending(tail)[..b - 1];
        ColumnsCons(head, Pending(tail)[..b - 1]);
        WithoutUnknown(tail, RowIds(Pending(tail)[..b - 1]), head.id);
      }
    }
  }

  function ParkRows(rows: seq<Row>, ids: seq<RowId>, error: string): (r: seq<Row>)
    ensures |r| == |rows|
  {
    seq(|rows|, n requires 0 <= n < |rows| => if rows[n].id in ids then rows[n].(parked := true, lastError := Clip(error)) else rows[n])
  }

  lemma {:induction false} ParkUnknown(rows: seq<Row>, ids: seq<RowId>, extra: RowId, error: string)
    requires forall r :: r in rows ==> r.id != extra
    ensures ParkRows(rows, [extra] + ids, error) == ParkRows(rows, ids, error)
  {
    assert forall n :: 0 <= n < |rows| ==> rows[n] in rows;
  }

  lemma {:induction false} ParkNothing(rows: seq<Row>, error: string)
    ensures ParkRows(rows, [], error) == rows
  {
  }

  /** Parking the first `b` pending rows leaves the rest of them, in order. */
  lemma {:induction false} ParkFront(rows: seq<Row>, b: nat, error: string)
    requires Sorted(rows) && b <= |Pending(rows)|
    ensures Pending(ParkRows(rows, RowIds(Pending(rows)[..b]), error)) == Pending(rows)[b..]
  {
    if rows != [] {
      var head, tail := rows[0], rows[1..];
      SortedHead(rows);
      var ids := RowIds(Pending(rows)[..b]);
      assert ParkRows(rows, ids, error)[1..] == ParkRows(tail, ids, error);
      if head.parked {
        ParkFront(tail, b, error);
      } else if b == 0 {
        assert ids == [];
        ParkNothing(rows, error);
      } else {
        ParkFront(tail, b - 1, error);
        assert Pending(rows)[..b] == [head] + Pending(tail)[..b - 1];
        ColumnsCons(head, Pending(tail)[..b - 1]);
        ParkUnknown(tail, RowIds(Pending(tail)[..b - 1]), head.id, error);
      }
    }
  }

  lemma {:induction false} DropParkedKeepsPending(rows: seq<Row>, k: nat)
    ensures Pending(DropOldest(rows, Quarantined, k)) == Pending(rows)
  {
    if rows != [] && k != 0 {
      if rows[0].parked {
        DropParkedKeepsPending(rows[1..], k - 1);
      } else {
        DropParkedKeepsPending(rows[1..], k);
        assert ([rows[0]] + DropOldest(rows[1..], Quarantined, k))[1..] == DropOldest(rows[1..], Quarantined, k);
      }
    }
  }

  lemma {:induction false} ParkShrinksPendingLanes(rows: seq<Row>, ids: seq<RowId>, error: string, lane: Lane)
    requires lane != Quarantined
    ensures |OfLane(ParkRows(rows, ids, error), lane)| <= |OfLane(rows, lane)|
  {
    if rows != [] {
      ParkShrinksPendingLanes(rows[1..], ids, error, lane);
      assert ParkRows(rows, ids, error)[1..] == ParkRows(rows[1..], ids, error);
    }
  }

  lemma {:induction false} PendingOfSameShape(a: seq<Row>, b: seq<Row>)
    requires SameShape(a, b)
    ensures RowIds(Pending(a)) == RowIds(Pending(b)) && Payloads(Pending(a)) == Payloads(Pending(b))
  {
    hide RowIds, Payloads;
    if a == [] {
      assert a == b;
    } else {
      PendingOfSameShape(a[1..], b[1..]);
      if !a[0].parked {
        ColumnsCons(a[0], Pending(a[1..]));
        ColumnsCons(b[0], Pending(b[1..]));
      }
    }
  }

  // ------------------------------------------------------------- operations

  lemma FittingInsertIsAppend(st: QueueState, now: Time, ms: seq<Message>)
    requires Fits(st, now, ms)
    ensures EnqueueMany(st, now, ms) == st.(rows := st.rows + NewRows(|st.log|, now, ms), log := st.log + ms)
  {
    var added := NewRows(|st.log|, now, ms);
    TrimBelowCaps(st.(rows := st.rows + added, log := st.log + ms));
    if ms == [] {
      assert added == [] && st.rows + added == st.rows && st.log + ms == st.log;
    }
  }

  /** A fitting insert appends to the pending rows and evicts nothing. */
  lemma EnqueueAppends(st: QueueState, now: Time, ms: seq<Message>)
    requires Fits(st, now, ms)
    ensures var st' := EnqueueMany(st, now, ms);
            && Pending(st'.rows) == Pending(st.rows) + NewRows(|st.log|, now, ms)
            && PendingMessages(st') == PendingMessages(st) + ms
            && PendingIds(st') == PendingIds(st) + RowIds(NewRows(|st.log|, now, ms))
            && st'.evicted == st.evicted && st'.acked == st.acked && st'.log == st.log + ms
  {
    var added := NewRows(|st.log|, now, ms);
    assert Payloads(added) == ms;
    FittingInsertIsAppend(st, now, ms);
    hide Fits, EnqueueMany, Pending, NewRows;
    PendingConcat(st.rows, added);
    AllPending(added) by { NewRowsArePending(|st.log|, now, ms); }
    ColumnsConcat(Pending(st.rows), added);
  }

  lemma NewRowsArePending(first: RowId, now: Time, ms: seq<Message>)
    ensures forall r :: r in NewRows(first, now, ms) ==> !r.parked
  {
  }

  lemma AckTakesFront(st: QueueState, b: nat)
    requires Inv(st) && b <= |Pending(st.rows)|
    ensures var st' := Ack(st, PendingIds(st)[..b]);
            && Inv(st') && st'.log == st.log
            && PendingIds(st') == PendingIds(st)[b..]
            && PendingMessages(st') == PendingMessages(st)[b..]
  {
    ColumnsDrop(Pending(st.rows), b);
    WithoutFront(st.rows, b);
    hide Pending, Without, Inv, RowIds, Payloads, Sorted;
    DoKeepsInv(st, OpAck(PendingIds(st)[..b]));
  }

  lemma MarkFailedKeepsPending(st: QueueState, ids: seq<RowId>, error: string)
    requires Inv(st)
    ensures var st' := MarkFailed(st, ids, error);
            && Inv(st') && st'.log == st.log
            && PendingIds(st') == PendingIds(st)
            && PendingMessages(st') == PendingMessages(st)
  {
    DoKeepsInv(st, OpMarkFailed(ids, error));
    PendingOfSameShape(st.rows, MarkFailed(st, ids, error).rows);
  }

  /** Quarantining the head batch takes it out of the pending rows and leaves the rest alone. */
  lemma QuarantineTakesFront(st: QueueState, b: nat, error: string)
    requires Inv(st) && 0 < b <= |Pending(st.rows)|
    ensures var st' := Quarantine(st, PendingIds(st)[..b], error);
            && Inv(st') && st'.log == st.log
            && PendingIds(st') == PendingIds(st)[b..]
            && PendingMessages(st') == PendingMessages(st)[b..]
  {
    hide Pending, Inv, RowIds, Payloads, Park, Trim, Excess;
    var ids := PendingIds(st)[..b];
    ColumnsDrop(Pending(st.rows), b);
    DoKeepsInv(st, OpQuarantine(ids, error));
    ParkTakesFront(st, b, error);
    TrimKeepsPending(Park(st, ids, error));
    assert Quarantine(st, ids, error) == Trim(Park(st, ids, error)) && Park(st, ids, error).log == st.log by { ParkKeepsLog(st, ids, error); }
  }

  lemma ParkKeepsLog(st: QueueState, ids: seq<RowId>, error: string)
    ensures Park(st, ids, error).log == st.log
  {
  }

  lemma ParkTakesFront(st: QueueState, b: nat, error: string)
    requires Inv(st) && 0 < b <= |Pending(st.rows)|
    ensures var parked := Park(st, RowIds(Pending(st.rows)[..b]), error);
            && Pending(parked.rows) == Pending(st.rows)[b..]
            && Excess(parked.rows, PendingPeriodic) == Excess(parked.rows, PendingOther) == 0
  {
    var ids := RowIds(Pending(st.rows)[..b]);
    assert Park(st, ids, error).rows == ParkRows(st.rows, ids, error);
    ParkFront(st.rows, b, error);
    ParkShrinksPendingLanes(st.rows, ids, error, PendingPeriodic);
    ParkShrinksPendingLanes(st.rows, ids, error, PendingOther);
  }

  /** With the pending lanes within their caps, a trim touches quarantined rows only. */
  lemma TrimKeepsPending(st: QueueState)
    requires Excess(st.rows, PendingPeriodic) == Excess(st.rows, PendingOther) == 0
    ensures Pending(Trim(st).rows) == Pending(st.rows) && Trim(st).log == st.log
  {
    hide OfLane, Excess;
    assert TrimLane(st, PendingPeriodic).rows == st.rows;
    assert TrimLane(TrimLane(st, PendingPeriodic), PendingOther).rows == st.rows;
    DropParkedKeepsPending(st.rows, Excess(st.rows, Quarantined));
  }
}
