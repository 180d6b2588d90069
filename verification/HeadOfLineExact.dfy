/**
  The bound on head-of-line blocking, exactly. Below the caps no batch is longer than the caps together allow, so
  the head row survives 2 * min(n, 25000) permanent rejections at most; and for every n some run makes it survive
  that many.
 */
module HeadOfLineExact {
  import opened Sequences
  import opened Messages
  import opened Queue
  import opened QueueInvariants
  import opened PendingOrder
  import opened Uploader
  import opened HeadOfLine

  const MAX_PENDING: nat := MAX_PERIODIC_ROWS + MAX_OTHER_ROWS

  /** The longest batch that can be: as configured, or all that the caps let be pending. */
  function Longest(n: nat): nat {
    if n <= MAX_PENDING then n else MAX_PENDING
  }

  function Start(retry: nat): UploadState {
    UploadState(EMPTY_QUEUE, map[], retry)
  }

  // ------------------------------------------------------------ at most that

  lemma {:induction false} PendingByLane(rows: seq<Row>)
    ensures |Pending(rows)| == |OfLane(rows, PendingPeriodic)| + |OfLane(rows, PendingOther)|
  {
    if rows != [] {
      PendingByLane(rows[1..]);
    }
  }

  lemma SameBatch(q: QueueState, n: nat)
    requires QueueInvariants.Inv(q)
    ensures TakeBatch(q, n) == TakeBatch(q, Longest(n))
  {
    PendingByLane(q.rows);
    assert |OfLane(q.rows, PendingPeriodic)| <= Cap(PendingPeriodic) && |OfLane(q.rows, PendingOther)| <= Cap(PendingOther);
  }

  lemma SameTurn(s: UploadState, n: nat, retry: nat, round: Round)
    requires QueueInvariants.Inv(s.queue) && RoundFits(s.queue, round)
    ensures Turn(s, n, retry, round) == Turn(s, Longest(n), retry, round)
  {
    hide QueueInvariants.Inv, Settle, TakeBatch, RowIds, Arrive, ArrivalsFit;
    ArrivalsAppend(s.queue, round.waiting);
    SameBatch(Arrive(s.queue, round.waiting), n);
  }

  /** Below the caps the loop behaves as with the longest batch there can be. */
  lemma {:induction false} SameTurns(s: UploadState, n: nat, retry: nat, rounds: seq<Round>)
    requires n > 0 && HeadOfLine.Inv(s, Longest(n)) && RoundsFit(s, n, retry, rounds)
    ensures Turns(s, n, retry, rounds) == Turns(s, Longest(n), retry, rounds)
    ensures RoundsFit(s, Longest(n), retry, rounds) && HeadOfLine.Inv(Turns(s, n, retry, rounds), Longest(n))
  {
    hide HeadOfLine.Inv, RoundFits, Turn;
    if rounds != [] {
      var front := rounds[..|rounds| - 1];
      SameTurns(s, n, retry, front);
      var mid := Turns(s, n, retry, front);
      assert QueueInvariants.Inv(mid.queue) by { InvOfQueue(mid, Longest(n)); }
      SameTurn(mid, n, retry, Last(rounds));
      TurnKeepsInv(mid, Longest(n), retry, Last(rounds));
    }
  }

  lemma InvOfQueue(s: UploadState, n: nat)
    requires HeadOfLine.Inv(s, n)
    ensures QueueInvariants.Inv(s.queue)
  {
  }

  lemma StartHolds(n: nat, retry: nat)
    ensures HeadOfLine.Inv(Start(retry), n)
  {
    assert QueueInvariants.Inv(EMPTY_QUEUE);
  }

  /** From any state the loop reaches below the caps, one rejection more than the bound moves the head row out. */
  lemma HeadLeavesInTime(n: nat, retry: nat, before: seq<Round>, rounds: seq<Round>)
    requires n > 0 && RoundsFit(Start(retry), n, retry, before)
    requires RoundsFit(Turns(Start(retry), n, retry, before), n, retry, rounds)
    requires PendingIds(Turns(Start(retry), n, retry, before).queue) != []
    requires Rejected(rounds) >= 2 * (if n <= 25000 then n else 25000) + 1
    ensures var s := Turns(Start(retry), n, retry, before);
            PendingIds(s.queue)[0] !in PendingIds(Turns(s, n, retry, rounds).queue)
  {
    hide HeadOfLine.Inv, RoundsFit, Turns, PendingIds, Rejected;
    StartHolds(Longest(n), retry);
    SameTurns(Start(retry), n, retry, before);
    var s := Turns(Start(retry), n, retry, before);
    SameTurns(s, n, retry, rounds);
    HeadLeavesAfterRejections(s, Longest(n), retry, rounds);
  }

  // ----------------------------------------------------------- and no less

  /** Messages that fill both classes to their caps, periodic ones first. */
  function Filler(k: nat): Message {
    if k < MAX_PERIODIC_ROWS then Periodic(0.0, 0, Healthy, 100) else EdgeHealth(0.0, 0, 0, 0)
  }

  function Filling(k: nat): Arrival {
    Arrival(0.0, [Filler(k)])
  }

  function FirstIds(p: nat): seq<RowId> {
    seq(p, i => i)
  }

  function Periodics(p: nat): nat {
    if p <= MAX_PERIODIC_ROWS then p else MAX_PERIODIC_ROWS
  }

  /** `p` rows ever, all pending and none older than time 0; batches counted so far are at most `c` rows long. */
  ghost predicate Grown(s: UploadState, p: nat, c: nat) {
    && QueueInvariants.Inv(s.queue) && |s.queue.log| == p && PendingIds(s.queue) == FirstIds(p)
    && LanesGrown(s.queue.rows, p) && Aged(s.queue.rows)
    && forall key :: key in s.rejections ==> |key| <= c
  }

  ghost predicate Aged(rows: seq<Row>) {
    forall r :: r in rows ==> r.enqueuedAt <= 0.0
  }

  ghost predicate LanesGrown(rows: seq<Row>, p: nat) {
    && |OfLane(rows, PendingPeriodic)| == Periodics(p)
    && |OfLane(rows, PendingOther)| == p - Periodics(p)
    && |OfLane(rows, Quarantined)| == 0
  }

  lemma {:induction false} LaneConcat(a: seq<Row>, b: seq<Row>, lane: Lane)
    ensures |OfLane(a + b, lane)| == |OfLane(a, lane)| + |OfLane(b, lane)|
  {
    if a == [] {
      assert a + b == b;
    } else {
      LaneConcat(a[1..], b, lane);
      assert (a + b)[1..] == a[1..] + b;
    }
  }

  lemma OneRow(first: RowId, m: Message)
    ensures var rows := NewRows(first, 0.0, [m]);
            && RowIds(rows) == [first]
            && (forall lane :: |OfLane(rows, lane)| == if lane == (if m.Periodic? then PendingPeriodic else PendingOther) then 1 else 0)
            && Aged(rows)
  {
    var rows := NewRows(first, 0.0, [m]);
    assert rows == [Row(first, 0.0, m, 0, false, None)];
    assert rows[1..] == [];
  }

  lemma FillingGrows(q: QueueState, p: nat)
    requires LanesGrown(q.rows, p) && p < MAX_PENDING
    ensures var rows := q.rows + NewRows(|q.log|, 0.0, [Filler(p)]);
            LanesGrown(rows, p + 1) && WithinCaps(rows)
  {
    var added := NewRows(|q.log|, 0.0, [Filler(p)]);
    OneRow(|q.log|, Filler(p));
    hide OfLane, NewRows;
    LaneConcat(q.rows, added, PendingPeriodic);
    LaneConcat(q.rows, added, PendingOther);
    LaneConcat(q.rows, added, Quarantined);
    forall lane ensures |OfLane(q.rows + added, lane)| <= Cap(lane) {
      match lane
      case PendingPeriodic =>
      case PendingOther =>
      case Quarantined =>
    }
  }

  lemma FillingFits(q: QueueState, p: nat)
    requires QueueInvariants.Inv(q) && LanesGrown(q.rows, p) && Aged(q.rows) && p < MAX_PENDING
    ensures Fits(q, 0.0, [Filler(p)])
    ensures QueueInvariants.Inv(EnqueueMany(q, 0.0, [Filler(p)]))
  {
    hide QueueInvariants.Inv, LanesGrown, EnqueueMany, NewRows, WithinCaps;
    FillingGrows(q, p);
    DoKeepsInv(q, OpEnqueue(0.0, [Filler(p)]));
  }

  lemma AgedConcat(a: seq<Row>, b: seq<Row>)
    requires Aged(a) && Aged(b)
    ensures Aged(a + b)
  {
  }

  lemma FirstIdsSnoc(p: nat)
    ensures FirstIds(p + 1) == FirstIds(p) + [p]
  {
  }

  /** One more message arrives; it fits. */
  lemma OneMoreArrives(s: UploadState, p: nat, c: nat)
    requires Grown(s, p, c) && p < MAX_PENDING
    ensures ArrivalsFit(s.queue, [Filling(p)])
    ensures Grown(s.(queue := Arrive(s.queue, [Filling(p)])), p + 1, c)
  {
    hide QueueInvariants.Inv, EnqueueMany, LanesGrown, NewRows, PendingIds, Fits, Pending, RowIds, FirstIds, Aged, Arrive, ArrivalsFit;
    var q := s.queue;
    FillingFits(q, p);
    ArriveOne(q, Filling(p));
    FillingGrows(q, p);
    OneRow(|q.log|, Filler(p));
    FittingInsertIsAppend(q, 0.0, [Filler(p)]);
    EnqueueAppends(q, 0.0, [Filler(p)]);
    AgedConcat(q.rows, NewRows(|q.log|, 0.0, [Filler(p)]));
    FirstIdsSnoc(p);
  }

  lemma ArriveOne(q: QueueState, a: Arrival)
    ensures Arrive(q, [a]) == EnqueueMany(q, a.now, a.ms)
    ensures Fits(q, a.now, a.ms) ==> ArrivalsFit(q, [a])
  {
    assert [a][..0] == [];
    assert Arrive(q, []) == q;
    hide Fits, EnqueueMany;
  }

  function Refusal(waiting: seq<Arrival>): Round {
    Round(waiting, [], Permanent("rejected"))
  }

  lemma HeadBatchIsAll(q: QueueState, p: nat, n: nat)
    requires PendingIds(q) == FirstIds(p) && p <= n
    ensures RowIds(TakeBatch(q, n)) == FirstIds(p)
  {
    hide TakeBatch, PendingIds, RowIds;
    BatchIsFront(q, n);
    ColumnsLength(q);
    assert FirstIds(p)[..p] == FirstIds(p);
  }

  lemma RefusalSettles(s: UploadState, n: nat, retry: nat)
    requires RowIds(TakeBatch(s.queue, n)) != []
    ensures RoundFits(s.queue, Refusal([]))
    ensures Turn(s, n, retry, Refusal([])) == Settle(s, RowIds(TakeBatch(s.queue, n)), Permanent("rejected"), retry)
  {
    assert Arrive(s.queue, []) == s.queue;
    hide TakeBatch, RowIds, Settle;
  }

  /** A rejection that is not the third one of its batch changes counts only. */
  lemma RefusalCounts(s: UploadState, p: nat, c: nat, n: nat, retry: nat)
    requires Grown(s, p, c) && 0 < p <= n && c <= p && Count(s.rejections, FirstIds(p)) < 2
    ensures RoundFits(s.queue, Refusal([]))
    ensures var s' := Turn(s, n, retry, Refusal([]));
            Grown(s', p, p) && Count(s'.rejections, FirstIds(p)) == Count(s.rejections, FirstIds(p)) + 1
  {
    hide QueueInvariants.Inv, TakeBatch, RowIds, PendingIds, LanesGrown, Aged, MarkFailed, Turn, RoundFits;
    var key := FirstIds(p);
    HeadBatchIsAll(s.queue, p, n);
    RefusalSettles(s, n, retry);
    MarkFailedKeepsPending(s.queue, key, "rejected");
    MarkFailedKeepsLanes(s.queue, key, p);
  }

  lemma ColumnsLength(q: QueueState)
    ensures |PendingIds(q)| == |Pending(q.rows)|
  {
  }

  lemma MarkFailedKeepsLanes(q: QueueState, key: seq<RowId>, p: nat)
    requires LanesGrown(q.rows, p) && Aged(q.rows)
    ensures LanesGrown(MarkFailed(q, key, "rejected").rows, p) && Aged(MarkFailed(q, key, "rejected").rows)
  {
    var rows := MarkFailed(q, key, "rejected").rows;
    SameShapeSameLanes(q.rows, rows, PendingPeriodic);
    SameShapeSameLanes(q.rows, rows, PendingOther);
    SameShapeSameLanes(q.rows, rows, Quarantined);
    forall r | r in rows ensures r.enqueuedAt <= 0.0 {
      var k :| 0 <= k < |rows| && rows[k] == r;
      assert q.rows[k] in q.rows;
    }
  }

  lemma RoundsSnoc(s: UploadState, n: nat, retry: nat, rounds: seq<Round>, round: Round)
    ensures Turns(s, n, retry, rounds + [round]) == Turn(Turns(s, n, retry, rounds), n, retry, round)
    ensures RoundsFit(s, n, retry, rounds + [round]) <==>
              RoundsFit(s, n, retry, rounds) && RoundFits(Turns(s, n, retry, rounds).queue, round)
    ensures Rejected(rounds + [round]) == Rejected(rounds) + if round.outcome.Permanent? then 1 else 0
  {
    hide Turn, RoundFits;
    assert (rounds + [round])[..|rounds|] == rounds;
  }

  /** A message that arrives before the batch is taken might as well have been there. */
  lemma RefusalAfterArrival(s: UploadState, n: nat, retry: nat, a: Arrival)
    requires ArrivalsFit(s.queue, [a])
    ensures var s' := s.(queue := Arrive(s.queue, [a]));
            && Turn(s, n, retry, Refusal([a])) == Turn(s', n, retry, Refusal([]))
            && RoundFits(s.queue, Refusal([a]))
  {
    hide ArrivalsFit, TakeBatch, Settle;
    var q := Arrive(s.queue, [a]);
    NothingArrives(q);
  }

  lemma NothingArrives(q: QueueState)
    ensures Arrive(q, []) == q && ArrivalsFit(q, [])
  {
  }

  lemma NotCountedYet(s: UploadState, p: nat, c: nat)
    requires Grown(s, p, c) && c < p
    ensures Count(s.rejections, FirstIds(p)) == 0
  {
    assert |FirstIds(p)| == p;
  }

  /** For each batch length: one more message, and two rejections of the batch as it then is. */
  function Blockade(p: nat): seq<Round> {
    if p == 0 then []
    else Blockade(p - 1) + [Refusal(if p == 1 then [] else [Filling(p - 1)])] + [Refusal([])]
  }

  const OPENING: seq<Round> := [Round([], [Filling(0)], Retryable("nothing sent"))]

  lemma OpeningGrows(n: nat, retry: nat)
    requires n > 0
    ensures RoundsFit(Start(retry), n, retry, OPENING)
    ensures Grown(Turns(Start(retry), n, retry, OPENING), 1, 0)
  {
    var s := Start(retry);
    assert QueueInvariants.Inv(EMPTY_QUEUE);
    assert Grown(s, 0, 0);
    OneMoreArrives(s, 0, 0);
    NothingArrives(EMPTY_QUEUE);
    RoundsSnoc(s, n, retry, [], OPENING[0]);
    assert [] + [OPENING[0]] == OPENING;
    hide Grown, ArrivalsFit, Filling, QueueInvariants.Inv;
    assert RowIds(TakeBatch(EMPTY_QUEUE, n)) == [];
  }

  /** Two rejections of the batch of all `p` rows, the last of which may arrive just before. */
  lemma TwoRefusals(s: UploadState, p: nat, n: nat, retry: nat)
    requires 0 < p <= Longest(n) && Grown(s, if p == 1 then 1 else p - 1, p - 1)
    ensures var first := Refusal(if p == 1 then [] else [Filling(p - 1)]);
            var mid := Turn(s, n, retry, first);
            && RoundFits(s.queue, first) && RoundFits(mid.queue, Refusal([]))
            && Grown(Turn(mid, n, retry, Refusal([])), p, p)
  {
    hide Grown, Turn, RoundFits, Arrive, ArrivalsFit, Count, Filling;
    var ready := s;
    if p > 1 {
      OneMoreArrives(s, p - 1, p - 1);
      RefusalAfterArrival(s, n, retry, Filling(p - 1));
      ready := s.(queue := Arrive(s.queue, [Filling(p - 1)]));
    }
    NotCountedYet(ready, p, p - 1);
    RefusalCounts(ready, p, p - 1, n, retry);
    RefusalCounts(Turn(ready, n, retry, Refusal([])), p, p, n, retry);
  }

  lemma {:induction false} BlockadeHolds(n: nat, retry: nat, p: nat)
    requires n > 0 && p <= Longest(n)
    ensures var s := Turns(Start(retry), n, retry, OPENING);
            && RoundsFit(s, n, retry, Blockade(p)) && Rejected(Blockade(p)) == 2 * p
            && Grown(Turns(s, n, retry, Blockade(p)), if p == 0 then 1 else p, p)
  {
    hide Grown, Turn, RoundFits, OPENING, Filling;
    var s := Turns(Start(retry), n, retry, OPENING);
    if p == 0 {
      OpeningGrows(n, retry);
    } else {
      BlockadeHolds(n, retry, p - 1);
      var front, first := Blockade(p - 1), Refusal(if p == 1 then [] else [Filling(p - 1)]);
      RoundsSnoc(s, n, retry, front, first);
      RoundsSnoc(s, n, retry, front + [first], Refusal([]));
      TwoRefusals(Turns(s, n, retry, front), p, n, retry);
    }
  }

  /** For every batch size a run reaches the bound: after that many permanent rejections its head row is still pending. */
  lemma BoundIsReached(n: nat, retry: nat) returns (before: seq<Round>, rounds: seq<Round>)
    requires n > 0
    ensures RoundsFit(Start(retry), n, retry, before)
    ensures RoundsFit(Turns(Start(retry), n, retry, before), n, retry, rounds)
    ensures Rejected(rounds) == 2 * (if n <= 25000 then n else 25000)
    ensures var s := Turns(Start(retry), n, retry, before);
            && PendingIds(s.queue) != []
            && PendingIds(s.queue)[0] in PendingIds(Turns(s, n, retry, rounds).queue)
  {
    hide Turns, RoundsFit, Rejected, Blockade, OPENING;
    before, rounds := OPENING, Blockade(Longest(n));
    OpeningGrows(n, retry);
    BlockadeHolds(n, retry, Longest(n));
    GrownHead(Turns(Start(retry), n, retry, before), 1, 0);
    GrownHead(Turns(Turns(Start(retry), n, retry, before), n, retry, rounds), Longest(n), Longest(n));
  }

  lemma GrownHead(s: UploadState, p: nat, c: nat)
    requires Grown(s, p, c) && p > 0
    ensures PendingIds(s.queue) != [] && PendingIds(s.queue)[0] == 0 && 0 in PendingIds(s.queue)
  {
    assert FirstIds(p)[0] == 0;
  }
}
