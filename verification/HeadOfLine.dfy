/** A rejected head batch cannot block the queue for ever: at most 2n + 1 permanent rejections move its head row out. */
module HeadOfLine {
  import opened Sequences
  import opened Messages
  import opened Queue
  import opened QueueInvariants
  import opened PendingOrder
  import opened Uploader

  ghost predicate ArrivalsFit(q: QueueState, arrivals: seq<Arrival>) {
    arrivals == [] || (ArrivalsFit(q, arrivals[..|arrivals| - 1])
                       && Fits(Arrive(q, arrivals[..|arrivals| - 1]), Last(arrivals).now, Last(arrivals).ms))
  }

  /** No insert of the round meets a cap. */
  ghost predicate RoundFits(q: QueueState, round: Round) {
    ArrivalsFit(q, round.waiting) && ArrivalsFit(Arrive(q, round.waiting), round.inFlight)
  }

  ghost predicate RoundsFit(s: UploadState, n: nat, retry: nat, rounds: seq<Round>) {
    rounds == [] || (RoundsFit(s, n, retry, rounds[..|rounds| - 1])
                     && RoundFits(Turns(s, n, retry, rounds[..|rounds| - 1]).queue, Last(rounds)))
  }

  function Rejected(rounds: seq<Round>): nat {
    if rounds == [] then 0
    else Rejected(rounds[..|rounds| - 1]) + (if Last(rounds).outcome.Permanent? then 1 else 0)
  }

  /** Every counted batch starts at a row that is no longer pending, or is a front part of the pending rows. */
  ghost predicate KeysInStep(rejections: map<seq<RowId>, nat>, pending: seq<RowId>, issued: nat, n: nat) {
    forall key :: key in rejections ==>
      && key != [] && |key| <= n && key[0] < issued && 1 <= rejections[key] < MAX_4XX_ATTEMPTS
      && (key[0] in pending ==> key <= pending)
  }

  ghost predicate Inv(s: UploadState, n: nat) {
    && QueueInvariants.Inv(s.queue)
    && KeysInStep(s.rejections, PendingIds(s.queue), |s.queue.log|, n)
  }

  function Head(pending: seq<RowId>, n: nat): seq<RowId> {
    if |pending| <= n then pending else pending[..n]
  }

  /** How many more permanent rejections the current head row can survive. */
  ghost function Patience(rejections: map<seq<RowId>, nat>, pending: seq<RowId>, n: nat): int {
    2 * (n - |Head(pending, n)|) + MAX_4XX_ATTEMPTS - Count(rejections, Head(pending, n))
  }

  // ------------------------------------------------------- one turn, by parts

  lemma PendingIdsAreDistinct(q: QueueState)
    requires QueueInvariants.Inv(q)
    ensures forall a, b :: 0 <= a < b < |PendingIds(q)| ==> PendingIds(q)[a] < PendingIds(q)[b]
    ensures forall i :: i in PendingIds(q) ==> i < |q.log|
  {
    PendingIsSorted(q.rows);
    PendingMembers(q.rows);
    forall i | i in PendingIds(q) ensures i < |q.log| {
      var k :| 0 <= k < |Pending(q.rows)| && PendingIds(q)[k] == i;
      assert Pending(q.rows)[k] in Pending(q.rows);
    }
  }

  lemma {:induction false} PendingIsSorted(rows: seq<Row>)
    requires Sorted(rows)
    ensures Sorted(Pending(rows))
  {
    if rows != [] {
      SortedHead(rows);
      PendingIsSorted(rows[1..]);
      PendingMembers(rows[1..]);
      if !rows[0].parked {
        SortedCons(rows[0], Pending(rows[1..]));
      }
    }
  }

  /** Arrivals push the pending rows back, never forward. */
  lemma {:induction false} ArrivalsAppend(q: QueueState, arrivals: seq<Arrival>)
    requires QueueInvariants.Inv(q) && ArrivalsFit(q, arrivals)
    ensures var q' := Arrive(q, arrivals);
            && QueueInvariants.Inv(q')
            && PendingIds(q) <= PendingIds(q') && |q.log| <= |q'.log|
            && forall k :: |PendingIds(q)| <= k < |PendingIds(q')| ==> |q.log| <= PendingIds(q')[k]
  {
    hide QueueInvariants.Inv, Fits, EnqueueMany, PendingIds;
    if arrivals != [] {
      var front := arrivals[..|arrivals| - 1];
      ArrivalsAppend(q, front);
      OneArrivalAppends(Arrive(q, front), Last(arrivals));
    }
  }

  lemma OneArrivalAppends(q: QueueState, a: Arrival)
    requires QueueInvariants.Inv(q) && Fits(q, a.now, a.ms)
    ensures var q' := EnqueueMany(q, a.now, a.ms);
            && QueueInvariants.Inv(q')
            && PendingIds(q) <= PendingIds(q') && |q.log| <= |q'.log|
            && forall k :: |PendingIds(q)| <= k < |PendingIds(q')| ==> |q.log| <= PendingIds(q')[k]
  {
    EnqueueAppends(q, a.now, a.ms);
    DoKeepsInv(q, OpEnqueue(a.now, a.ms));
    hide QueueInvariants.Inv, Fits, EnqueueMany, PendingIds;
  }

  /** Appending new ids keeps the counts in step and cannot restore a head row's patience. */
  lemma AppendKeepsPatience(rejections: map<seq<RowId>, nat>, pending: seq<RowId>, pending': seq<RowId>, issued: nat, issued': nat, n: nat)
    requires KeysInStep(rejections, pending, issued, n) && pending <= pending' && issued <= issued'
    requires forall k :: |pending| <= k < |pending'| ==> issued <= pending'[k]
    ensures KeysInStep(rejections, pending', issued', n)
    ensures pending != [] && n > 0 ==> Patience(rejections, pending', n) <= Patience(rejections, pending, n)
  {
    forall key | key in rejections && key[0] in pending' ensures key <= pending' {
      var k :| 0 <= k < |pending'| && pending'[k] == key[0];
      assert k < |pending|;
      assert pending[k] in pending;
    }
    if pending != [] && n > 0 && |Head(pending, n)| < |Head(pending', n)| {
      var key := Head(pending', n);
      assert key[0] == pending[0] && pending[0] in pending;
      assert key !in rejections;
    } else if pending != [] && n > 0 {
      assert Head(pending', n) == Head(pending, n);
    }
  }

  /** The head batch leaving the pending rows keeps the counts in step. */
  lemma DropFrontKeepsStep(rejections: map<seq<RowId>, nat>, pending: seq<RowId>, b: nat, issued: nat, n: nat)
    requires KeysInStep(rejections, pending, issued, n) && 0 < b <= |pending|
    requires forall x, y :: 0 <= x < y < |pending| ==> pending[x] != pending[y]
    ensures KeysInStep(rejections, pending[b..], issued, n)
    ensures pending[0] !in pending[b..]
  {
    forall key | key in rejections ensures key[0] !in pending[b..] {
      if key[0] in pending {
        assert key[0] == pending[0];
      }
    }
  }

  /** A rejection counted below the limit: nothing leaves the pending rows. */
  lemma CountedFailureKeepsInv(s: UploadState, key: seq<RowId>, error: string, count: nat, n: nat)
    requires Inv(s, n) && key != [] && |key| <= n && key <= PendingIds(s.queue) && 1 <= count < MAX_4XX_ATTEMPTS
    ensures var q' := MarkFailed(s.queue, key, error);
            && QueueInvariants.Inv(q') && PendingIds(q') == PendingIds(s.queue) && q'.log == s.queue.log
            && KeysInStep(s.rejections[key := count], PendingIds(q'), |q'.log|, n)
  {
    var p := PendingIds(s.queue);
    PendingIdsAreDistinct(s.queue);
    assert key[0] == p[0] && p[0] in p;
    hide QueueInvariants.Inv, PendingIds;
    MarkFailedKeepsPending(s.queue, key, error);
  }

  /** Is this the outcome after which the batch is no longer pending? */
  predicate Leaves(s: UploadState, key: seq<RowId>, outcome: Outcome) {
    outcome.Delivered? || (outcome.Permanent? && Count(s.rejections, key) + 1 >= MAX_4XX_ATTEMPTS)
  }

  lemma SettleKeepsInv(s: UploadState, key: seq<RowId>, outcome: Outcome, retry: nat, n: nat)
    requires Inv(s, n) && key != [] && |key| <= n && key <= PendingIds(s.queue)
    ensures var s' := Settle(s, key, outcome, retry);
            && Inv(s', n) && s'.queue.log == s.queue.log
            && PendingIds(s'.queue) == if Leaves(s, key, outcome) then PendingIds(s.queue)[|key|..] else PendingIds(s.queue)
  {
    PendingIdsAreDistinct(s.queue);
    assert |key| <= |Pending(s.queue.rows)|;
    DropFrontKeepsStep(s.rejections, PendingIds(s.queue), |key|, |s.queue.log|, n);
    hide QueueInvariants.Inv, KeysInStep, PendingIds, Ack, MarkFailed, Quarantine;
    assert key == PendingIds(s.queue)[..|key|];
    match outcome
    case Delivered =>
      AckTakesFront(s.queue, |key|);
      NoKeysInStep(PendingIds(s.queue)[|key|..], |s.queue.log|, n);
    case Retryable(error) =>
      MarkFailedKeepsPending(s.queue, key, error);
    case Permanent(error) =>
      if Leaves(s, key, outcome) {
        MarkFailedKeepsPending(s.queue, key, error);
        QuarantineTakesFront(MarkFailed(s.queue, key, error), |key|, error);
        FewerKeysInStep(s.rejections, key, PendingIds(s.queue)[|key|..], |s.queue.log|, n);
      } else {
        CountedFailureKeepsInv(s, key, error, Count(s.rejections, key) + 1, n);
      }
  }

  lemma NoKeysInStep(pending: seq<RowId>, issued: nat, n: nat)
    ensures KeysInStep(map[], pending, issued, n)
  {
  }

  lemma FewerKeysInStep(rejections: map<seq<RowId>, nat>, key: seq<RowId>, pending: seq<RowId>, issued: nat, n: nat)
    requires KeysInStep(rejections, pending, issued, n)
    ensures KeysInStep(rejections - {key}, pending, issued, n)
  {
  }

  // --------------------------------------------------------------- one turn

  /** Counting a rejection of the batch that was the head, even if more has arrived since, uses up patience. */
  lemma RejectionSpendsPatience(rejections: map<seq<RowId>, nat>, ready: seq<RowId>, full: seq<RowId>, issued: nat, n: nat)
    requires n > 0 && ready != [] && ready <= full && KeysInStep(rejections, ready, issued, n)
    requires Count(rejections, Head(ready, n)) + 1 < MAX_4XX_ATTEMPTS
    ensures var key := Head(ready, n);
            Patience(rejections[key := Count(rejections, key) + 1], full, n) + 1 <= Patience(rejections, ready, n)
  {
    var key, now := Head(ready, n), Head(full, n);
    if |now| == |key| {
      assert now == key;
    } else {
      assert now[0] == ready[0] && ready[0] in ready;
      assert now !in rejections;
    }
  }

  /** What became of the row `h` that was at the head: still there with that much less patience, or gone. */
  ghost predicate SpentOrGone(h: RowId, s: UploadState, s': UploadState, n: nat, spent: nat) {
    h in PendingIds(s'.queue) ==>
      && PendingIds(s'.queue)[0] == h
      && Patience(s'.rejections, PendingIds(s'.queue), n) + spent <= Patience(s.rejections, PendingIds(s.queue), n)
  }

  lemma ArrivalsKeepInv(s: UploadState, arrivals: seq<Arrival>, n: nat)
    requires n > 0 && Inv(s, n) && ArrivalsFit(s.queue, arrivals)
    ensures var s' := s.(queue := Arrive(s.queue, arrivals));
            && Inv(s', n) && |s.queue.log| <= |s'.queue.log|
            && PendingIds(s.queue) <= PendingIds(s'.queue)
            && (forall h :: h in PendingIds(s'.queue) ==> h in PendingIds(s.queue) || |s.queue.log| <= h)
            && (PendingIds(s.queue) != [] ==> SpentOrGone(PendingIds(s.queue)[0], s, s', n, 0))
  {
    hide QueueInvariants.Inv, Arrive, ArrivalsFit, PendingIds, Count;
    var q := Arrive(s.queue, arrivals);
    ArrivalsAppend(s.queue, arrivals);
    AppendKeepsPatience(s.rejections, PendingIds(s.queue), PendingIds(q), |s.queue.log|, |q.log|, n);
    assert forall k :: 0 <= k < |PendingIds(q)| ==> PendingIds(q)[k] in PendingIds(s.queue) || |s.queue.log| <= PendingIds(q)[k] by {
      assert forall k :: 0 <= k < |PendingIds(s.queue)| ==> PendingIds(q)[k] == PendingIds(s.queue)[k];
    }
  }

  /** A turn keeps the invariant, and a row that is not pending never becomes pending. */
  lemma TurnKeepsInv(s: UploadState, n: nat, retry: nat, round: Round)
    requires n > 0 && Inv(s, n) && RoundFits(s.queue, round)
    ensures var s' := Turn(s, n, retry, round);
            && Inv(s', n) && |s.queue.log| <= |s'.queue.log|
            && forall h :: h < |s.queue.log| && h !in PendingIds(s.queue) ==> h !in PendingIds(s'.queue)
  {
    var ready := s.(queue := Arrive(s.queue, round.waiting));
    var full := s.(queue := Arrive(ready.queue, round.inFlight));
    ArrivalsKeepInv(s, round.waiting, n);
    ArrivalsKeepInv(ready, round.inFlight, n);
    BatchIsFront(ready.queue, n);
    hide Inv, SpentOrGone, Arrive, ArrivalsFit, PendingIds;
    var key := RowIds(TakeBatch(ready.queue, n));
    if key != [] {
      SettleKeepsInv(full, key, round.outcome, retry, n);
    }
  }

  /** Settling the batch that was the head of `ready`, when the pending rows have grown meanwhile. */
  lemma SettleSpendsPatience(full: UploadState, ready: seq<RowId>, issued: nat, outcome: Outcome, retry: nat, n: nat)
    requires n > 0 && Inv(full, n) && ready != [] && ready <= PendingIds(full.queue)
    requires KeysInStep(full.rejections, ready, issued, n)
    requires Patience(full.rejections, PendingIds(full.queue), n) <= Patience(full.rejections, ready, n)
    ensures var s' := Settle(full, Head(ready, n), outcome, retry);
            ready[0] in PendingIds(s'.queue) ==>
              && PendingIds(s'.queue)[0] == ready[0]
              && Patience(s'.rejections, PendingIds(s'.queue), n) + (if outcome.Permanent? then 1 else 0) <= Patience(full.rejections, ready, n)
  {
    var f, key := PendingIds(full.queue), Head(ready, n);
    PendingIdsAreDistinct(full.queue);
    SettleKeepsInv(full, key, outcome, retry, n);
    hide Inv, Patience, PendingIds, KeysInStep;
    if Leaves(full, key, outcome) {
      assert f[0] !in f[|key|..];
    } else if outcome.Permanent? {
      RejectionSpendsPatience(full.rejections, ready, f, issued, n);
    }
  }

  /** The head row pays for a permanent rejection with patience, or leaves. */
  lemma TurnSpendsPatience(s: UploadState, n: nat, retry: nat, round: Round)
    requires n > 0 && Inv(s, n) && RoundFits(s.queue, round) && PendingIds(s.queue) != []
    ensures SpentOrGone(PendingIds(s.queue)[0], s, Turn(s, n, retry, round), n, if round.outcome.Permanent? then 1 else 0)
  {
    var ready := s.(queue := Arrive(s.queue, round.waiting));
    var full := s.(queue := Arrive(ready.queue, round.inFlight));
    ArrivalsKeepInv(s, round.waiting, n);
    ArrivalsKeepInv(ready, round.inFlight, n);
    var r := PendingIds(ready.queue);
    assert SpentOrGone(PendingIds(s.queue)[0], s, ready, n, 0) && r[0] in r;
    assert SpentOrGone(r[0], ready, full, n, 0) && r[0] in PendingIds(full.queue);
    BatchIsFront(ready.queue, n);
    hide QueueInvariants.Inv, Patience, Arrive, ArrivalsFit, PendingIds, TakeBatch, Settle;
    assert RowIds(TakeBatch(ready.queue, n)) == Head(r, n);
    SettleSpendsPatience(full, r, |ready.queue.log|, round.outcome, retry, n);
  }

  // -------------------------------------------------------------- many turns

  lemma {:induction false} HeadSpendsPatience(s: UploadState, n: nat, retry: nat, rounds: seq<Round>)
    requires n > 0 && Inv(s, n) && RoundsFit(s, n, retry, rounds) && PendingIds(s.queue) != []
    ensures var s' := Turns(s, n, retry, rounds);
            && Inv(s', n) && |s.queue.log| <= |s'.queue.log|
            && SpentOrGone(PendingIds(s.queue)[0], s, s', n, Rejected(rounds))
  {
    if rounds != [] {
      var front, mid, round := rounds[..|rounds| - 1], Turns(s, n, retry, rounds[..|rounds| - 1]), Last(rounds);
      var h := PendingIds(s.queue)[0];
      HeadSpendsPatience(s, n, retry, front);
      PendingIdsAreDistinct(s.queue);
      assert h in PendingIds(s.queue);
      TurnKeepsInv(mid, n, retry, round);
      if h in PendingIds(mid.queue) {
        TurnSpendsPatience(mid, n, retry, round);
      }
    }
  }

  /** No permanent blocking: 2n + 1 permanent rejections are enough to move the head row out of the pending rows. */
  lemma HeadLeavesAfterRejections(s: UploadState, n: nat, retry: nat, rounds: seq<Round>)
    requires n > 0 && Inv(s, n) && RoundsFit(s, n, retry, rounds) && PendingIds(s.queue) != []
    requires Rejected(rounds) >= 2 * n + 1
    ensures PendingIds(s.queue)[0] !in PendingIds(Turns(s, n, retry, rounds).queue)
  {
    HeadSpendsPatience(s, n, retry, rounds);
  }

  /** The invariant holds from the start, so the bound applies in every state the loop can reach below the caps. */
  lemma {:induction false} ReachableKeepsInv(n: nat, retry: nat, rounds: seq<Round>)
    requires n > 0 && RoundsFit(UploadState(EMPTY_QUEUE, map[], retry), n, retry, rounds)
    ensures Inv(Turns(UploadState(EMPTY_QUEUE, map[], retry), n, retry, rounds), n)
  {
    var start := UploadState(EMPTY_QUEUE, map[], retry);
    if rounds == [] {
      assert QueueInvariants.Inv(EMPTY_QUEUE);
    } else {
      var front := rounds[..|rounds| - 1];
      ReachableKeepsInv(n, retry, front);
      TurnKeepsInv(Turns(start, n, retry, front), n, retry, Last(rounds));
    }
  }
}
