/**
  At-least-once delivery with an exactly-once effect: the upload loop resends its head batch until it is
  acked, every failed send may have applied any part of its batch, others use the cloud all the while, and yet at
  each ack the cloud shows of a device only this box reports what it would show had every acked message been
  processed once, in queue order.
 */
module Delivery {
  import opened Sequences
  import opened Messages
  import opened Cloud
  import opened CloudInvariants
  import opened Views
  import opened Sharing
  import opened Queue
  import QueueInvariants
  import opened PendingOrder
  import opened Uploader
  import opened HeadOfLine

  /**
    How far the cloud got with a request: it handled the first `handled` messages, some of which it rolled back.
    `others[i]` is what everyone else did to the cloud before message i, and last of all until the next request.
   */
  datatype Reaction = Reaction(handled: nat, raises: seq<bool>, others: seq<seq<Action>>, now: Time)

  /** The two ends of the link, with the messages acked so far in ack order. */
  datatype Link = Link(upload: UploadState, site: Site, acked: seq<Message>)

  datatype Config = Config(size: nat, retry: nat, env: Envelope)

  function Batch(l: Link, c: Config, round: Round): seq<Message> {
    Payloads(TakeBatch(Arrive(l.upload.queue, round.waiting), c.size))
  }

  /** A delivered batch was handled whole; a failed send is cut off anywhere. Nothing is trimmed or quarantined. */
  ghost predicate Lossless(l: Link, c: Config, round: Round, re: Reaction) {
    var batch := Batch(l, c, round);
    && RoundFits(l.upload.queue, round)
    && re.handled <= |batch| && |re.raises| == re.handled && |re.others| == re.handled + 1
    && CanShare(l.site, c.env, batch[..re.handled], re.raises, re.others, re.now)
    && (round.outcome.Delivered? ==> re.handled == |batch| && forall i :: 0 <= i < |batch| ==> !re.raises[i])
    && (round.outcome.Permanent? ==>
          Count(l.upload.rejections, RowIds(TakeBatch(Arrive(l.upload.queue, round.waiting), c.size))) + 1 < MAX_4XX_ATTEMPTS)
  }

  ghost function Attempt(l: Link, c: Config, round: Round, re: Reaction): Link
    requires Lossless(l, c, round, re)
  {
    var batch := Batch(l, c, round);
    Link(Turn(l.upload, c.size, c.retry, round),
         SharedBatch(l.site, c.env, batch[..re.handled], re.raises, re.others, re.now),
         if round.outcome.Delivered? then l.acked + batch else l.acked)
  }

  datatype Try = Try(round: Round, reaction: Reaction)

  /** Nobody else reports the device. */
  predicate OnlyReporter(tries: seq<Try>, d: DeviceId) {
    forall n, k :: 0 <= n < |tries| && 0 <= k < |tries[n].reaction.others| ==> AllForeign(tries[n].reaction.others[k], d)
  }

  ghost predicate IsLosslessRun(c: Config, tries: seq<Try>)
    decreases |tries|, 0
  {
    tries == [] ||
    (IsLosslessRun(c, tries[..|tries| - 1]) && Lossless(After(c, tries[..|tries| - 1]), c, Last(tries).round, Last(tries).reaction))
  }

  ghost function After(c: Config, tries: seq<Try>): Link
    requires IsLosslessRun(c, tries)
    decreases |tries|, 1
  {
    if tries == [] then Link(UploadState(EMPTY_QUEUE, map[], c.retry), EMPTY_SITE, [])
    else Attempt(After(c, tries[..|tries| - 1]), c, Last(tries).round, Last(tries).reaction)
  }

  /** The messages sent since the last ack are among the first `Reach` pending ones. */
  ghost function Reach(c: Config, tries: seq<Try>): nat
    requires IsLosslessRun(c, tries)
  {
    if tries == [] || Last(tries).round.outcome.Delivered? then 0
    else |Batch(After(c, tries[..|tries| - 1]), c, Last(tries).round)|
  }

  // -------------------------------------------------------------- invariant

  /** From `reach` pending messages on, processing the pending ones hides whatever was already applied of them. */
  ghost predicate Caught(v: View, d: DeviceId, acked: seq<Message>, pending: seq<Message>, reach: nat) {
    forall j :: reach <= j <= |pending| ==>
      RunView(v, d, pending[..j]) == RunView(RunView(BLANK, d, acked), d, pending[..j])
  }

  lemma CaughtGrows(v: View, d: DeviceId, acked: seq<Message>, pending: seq<Message>, more: seq<Message>, reach: nat)
    requires reach <= |pending| && Caught(v, d, acked, pending, reach)
    ensures Caught(v, d, acked, pending + more, reach)
  {
    var base := RunView(BLANK, d, acked);
    assert pending[..|pending|] == pending;
    forall j | reach <= j <= |pending + more|
      ensures RunView(v, d, (pending + more)[..j]) == RunView(base, d, (pending + more)[..j])
    {
      if j <= |pending| {
        assert (pending + more)[..j] == pending[..j];
      } else {
        var k := j - |pending|;
        assert (pending + more)[..j] == pending + more[..k];
        RunViewConcat(v, d, pending, more[..k]);
        RunViewConcat(base, d, pending, more[..k]);
      }
    }
  }

  lemma CaughtSurvivesFailure(v: View, d: DeviceId, acked: seq<Message>, pending: seq<Message>, reach: nat, sent: nat, applied: seq<Message>)
    requires reach <= sent <= |pending| && Caught(v, d, acked, pending, reach)
    requires forall m :: m in applied ==> m in pending[..sent]
    ensures Caught(RunView(v, d, applied), d, acked, pending, sent)
  {
    forall j | sent <= j <= |pending|
      ensures RunView(RunView(v, d, applied), d, pending[..j]) == RunView(RunView(BLANK, d, acked), d, pending[..j])
    {
      assert forall m :: m in pending[..sent] ==> m in pending[..j];
      BatchAbsorbsItsOwnMessages(v, d, applied, pending[..j]);
    }
  }

  lemma CaughtRestartsAtAck(v: View, d: DeviceId, acked: seq<Message>, pending: seq<Message>, reach: nat, sent: nat)
    requires reach <= sent <= |pending| && Caught(v, d, acked, pending, reach)
    ensures RunView(v, d, pending[..sent]) == RunView(BLANK, d, acked + pending[..sent])
    ensures Caught(RunView(v, d, pending[..sent]), d, acked + pending[..sent], pending[sent..], 0)
  {
    RunViewConcat(BLANK, d, acked, pending[..sent]);
  }

  ghost predicate Inv(l: Link, c: Config, d: DeviceId, reach: nat) {
    && HeadOfLine.Inv(l.upload, c.size)
    && Ready(l.site.db, l.site.next)
    && reach <= BatchSize(l.upload.queue, c.size)
    && Caught(ViewOf(l.site.db, d), d, l.acked, PendingMessages(l.upload.queue), reach)
  }

  /** The messages of a list of arrivals, in order. */
  function Sent(arrivals: seq<Arrival>): seq<Message> {
    if arrivals == [] then [] else Sent(arrivals[..|arrivals| - 1]) + Last(arrivals).ms
  }

  lemma {:induction false} ArrivalsAppendMessages(q: QueueState, arrivals: seq<Arrival>)
    requires QueueInvariants.Inv(q) && ArrivalsFit(q, arrivals)
    ensures PendingMessages(Arrive(q, arrivals)) == PendingMessages(q) + Sent(arrivals)
    ensures Arrive(q, arrivals).log == q.log + Sent(arrivals)
  {
    hide QueueInvariants.Inv, Fits, EnqueueMany, PendingMessages;
    if arrivals != [] {
      var front, ms := arrivals[..|arrivals| - 1], Last(arrivals).ms;
      ArrivalsAppendMessages(q, front);
      EnqueueAppends(Arrive(q, front), Last(arrivals).now, ms);
      assert (PendingMessages(q) + Sent(front)) + ms == PendingMessages(q) + Sent(arrivals);
      assert (q.log + Sent(front)) + ms == q.log + Sent(arrivals);
    }
  }

  /** Settling without a quarantine: an acked batch leaves at the front, a failed one stays. */
  lemma SettleMovesMessages(full: UploadState, key: seq<RowId>, b: nat, outcome: Outcome, c: Config)
    requires QueueInvariants.Inv(full.queue) && b <= |Pending(full.queue.rows)| && key == PendingIds(full.queue)[..b]
    requires outcome.Permanent? ==> Count(full.rejections, key) + 1 < MAX_4XX_ATTEMPTS
    ensures PendingMessages(Settle(full, key, outcome, c.retry).queue) ==
            if outcome.Delivered? then PendingMessages(full.queue)[b..] else PendingMessages(full.queue)
  {
    hide QueueInvariants.Inv, Pending, Ack, MarkFailed, PendingIds, PendingMessages;
    match outcome
    case Delivered => AckTakesFront(full.queue, b);
    case Retryable(error) => MarkFailedKeepsPending(full.queue, key, error);
    case Permanent(error) => MarkFailedKeepsPending(full.queue, key, error);
  }

  ghost function FullQueue(l: Link, round: Round): QueueState {
    Arrive(Arrive(l.upload.queue, round.waiting), round.inFlight)
  }

  /** The batch is the front of the pending messages, before and after more of them arrive. */
  lemma BatchIsFrontOfAll(l: Link, c: Config, round: Round)
    requires c.size > 0 && HeadOfLine.Inv(l.upload, c.size) && RoundFits(l.upload.queue, round)
    ensures var b, full := |Batch(l, c, round)|, FullQueue(l, round);
            && QueueInvariants.Inv(full)
            && PendingMessages(l.upload.queue) <= PendingMessages(full)
            && BatchSize(l.upload.queue, c.size) <= b <= BatchSize(full, c.size)
            && Batch(l, c, round) == PendingMessages(full)[..b]
            && RowIds(TakeBatch(Arrive(l.upload.queue, round.waiting), c.size)) == PendingIds(full)[..b]
  {
    hide QueueInvariants.Inv, KeysInStep, Arrive, ArrivalsFit, TakeBatch, Pending, PendingIds, PendingMessages, Payloads, RowIds;
    var q0, q1, q2 := l.upload.queue, Arrive(l.upload.queue, round.waiting), FullQueue(l, round);
    ArrivalsExtend(q0, round.waiting);
    ArrivalsExtend(q1, round.inFlight);
    BatchIsFront(q1, c.size);
    ColumnLengths(q0);
    ColumnLengths(q1);
    ColumnLengths(q2);
  }

  lemma ArrivalsExtend(q: QueueState, arrivals: seq<Arrival>)
    requires QueueInvariants.Inv(q) && ArrivalsFit(q, arrivals)
    ensures var q' := Arrive(q, arrivals);
            QueueInvariants.Inv(q') && PendingMessages(q) <= PendingMessages(q') && PendingIds(q) <= PendingIds(q')
  {
    ArrivalsAppend(q, arrivals);
    ArrivalsAppendMessages(q, arrivals);
  }

  lemma ColumnLengths(q: QueueState)
    ensures |PendingMessages(q)| == |PendingIds(q)| == |Pending(q.rows)|
  {
  }

  /** What a lossless turn does to the pending messages: more arrive, and an acked batch leaves at the front. */
  lemma TurnMovesMessages(l: Link, c: Config, round: Round, re: Reaction)
    requires c.size > 0 && HeadOfLine.Inv(l.upload, c.size) && Lossless(l, c, round, re)
    ensures var s', full, b := Turn(l.upload, c.size, c.retry, round), PendingMessages(FullQueue(l, round)), |Batch(l, c, round)|;
            && HeadOfLine.Inv(s', c.size)
            && b <= |full|
            && PendingMessages(s'.queue) == if round.outcome.Delivered? then full[b..] else full
  {
    BatchIsFrontOfAll(l, c, round);
    TurnKeepsInv(l.upload, c.size, c.retry, round);
    var b := |Batch(l, c, round)|;
    var key := RowIds(TakeBatch(Arrive(l.upload.queue, round.waiting), c.size));
    hide HeadOfLine.Inv, QueueInvariants.Inv, Arrive, RoundFits, TakeBatch, Pending, PendingIds, Settle;
    SettleMovesMessages(l.upload.(queue := FullQueue(l, round)), key, b, round.outcome, c);
  }

  /** The view side of one attempt, over the pending messages with those that arrived during it. */
  lemma AttemptKeepsCaught(s: Site, c: Config, re: Reaction, d: DeviceId, acked: seq<Message>, full: seq<Message>, reach: nat, sent: nat, delivered: bool)
    requires Ready(s.db, s.next) && reach <= sent <= |full|
    requires re.handled <= sent && |re.raises| == re.handled && |re.others| == re.handled + 1
    requires CanShare(s, c.env, full[..sent][..re.handled], re.raises, re.others, re.now)
    requires forall n :: 0 <= n < |re.others| ==> AllForeign(re.others[n], d)
    requires delivered ==> re.handled == sent && forall i :: 0 <= i < sent ==> !re.raises[i]
    requires Caught(ViewOf(s.db, d), d, acked, full, reach)
    ensures var v := ViewOf(SharedBatch(s, c.env, full[..sent][..re.handled], re.raises, re.others, re.now).db, d);
            if delivered then Caught(v, d, acked + full[..sent], full[sent..], 0) else Caught(v, d, acked, full, sent)
  {
    var handled := full[..sent][..re.handled];
    SharedBatchRunsView(s, c.env, handled, re.raises, re.others, re.now, d);
    AcceptedAreMembers(handled, re.raises);
    hide Caught, RunView, ViewOf, SharedBatch, CanShare, Ready, Accepted;
    if delivered {
      assert handled == full[..sent];
      CaughtRestartsAtAck(ViewOf(s.db, d), d, acked, full, reach, sent);
    } else {
      assert forall m :: m in handled ==> m in full[..sent];
      CaughtSurvivesFailure(ViewOf(s.db, d), d, acked, full, reach, sent, Accepted(handled, re.raises));
    }
  }

  ghost predicate Sound(l: Link, c: Config) {
    HeadOfLine.Inv(l.upload, c.size) && Ready(l.site.db, l.site.next)
  }

  lemma AttemptKeepsSound(l: Link, c: Config, round: Round, re: Reaction)
    requires c.size > 0 && Sound(l, c) && Lossless(l, c, round, re)
    ensures Sound(Attempt(l, c, round, re), c)
  {
    hide HeadOfLine.Inv, Ready, Turn, SharedBatch, CanShare, Batch, RoundFits, Count;
    TurnMovesMessages(l, c, round, re);
    SharedBatchRunsView(l.site, c.env, Batch(l, c, round)[..re.handled], re.raises, re.others, re.now, 0);
  }

  lemma AttemptCatches(l: Link, c: Config, round: Round, re: Reaction, d: DeviceId, reach: nat)
    requires c.size > 0 && Inv(l, c, d, reach) && Lossless(l, c, round, re)
    requires forall n :: 0 <= n < |re.others| ==> AllForeign(re.others[n], d)
    ensures var after := Attempt(l, c, round, re);
            Caught(ViewOf(after.site.db, d), d, after.acked, PendingMessages(after.upload.queue), if round.outcome.Delivered? then 0 else |Batch(l, c, round)|)
  {
    hide HeadOfLine.Inv, QueueInvariants.Inv, Turn, Caught, RunView, ViewOf, SharedBatch, CanShare, Ready, Batch, Arrive, RoundFits, PendingIds, PendingMessages, BatchSize, AllForeign, TakeBatch, RowIds, FullQueue, Count;
    var batch, p, full := Batch(l, c, round), PendingMessages(l.upload.queue), PendingMessages(FullQueue(l, round));
    TurnMovesMessages(l, c, round, re);
    BatchIsFrontOfAll(l, c, round);
    BatchSizeIsShort(l.upload.queue, l.upload.queue, c.size);
    assert full == p + full[|p|..];
    CaughtGrows(ViewOf(l.site.db, d), d, l.acked, p, full[|p|..], reach);
    AttemptKeepsCaught(l.site, c, re, d, l.acked, full, reach, |batch|, round.outcome.Delivered?);
  }

  lemma AttemptReaches(l: Link, c: Config, round: Round, re: Reaction)
    requires c.size > 0 && Sound(l, c) && Lossless(l, c, round, re) && !round.outcome.Delivered?
    ensures |Batch(l, c, round)| <= BatchSize(Attempt(l, c, round, re).upload.queue, c.size)
  {
    hide HeadOfLine.Inv, QueueInvariants.Inv, Turn, SharedBatch, CanShare, Ready, Batch, Arrive, RoundFits, PendingIds, PendingMessages, BatchSize, TakeBatch, RowIds, FullQueue, Count;
    TurnMovesMessages(l, c, round, re);
    BatchIsFrontOfAll(l, c, round);
    BatchSizeIsShort(Attempt(l, c, round, re).upload.queue, FullQueue(l, round), c.size);
  }

  lemma AttemptKeepsInv(l: Link, c: Config, round: Round, re: Reaction, d: DeviceId, reach: nat)
    requires c.size > 0 && Inv(l, c, d, reach) && Lossless(l, c, round, re)
    requires forall n :: 0 <= n < |re.others| ==> AllForeign(re.others[n], d)
    ensures Inv(Attempt(l, c, round, re), c, d, if round.outcome.Delivered? then 0 else |Batch(l, c, round)|)
  {
    hide HeadOfLine.Inv, Lossless, Attempt, Caught, ViewOf, Ready, Batch, PendingMessages, BatchSize, AllForeign;
    AttemptKeepsSound(l, c, round, re);
    AttemptCatches(l, c, round, re, d, reach);
    if !round.outcome.Delivered? {
      AttemptReaches(l, c, round, re);
    }
  }

  lemma BatchSizeIsShort(q: QueueState, full: QueueState, n: nat)
    ensures BatchSize(q, n) <= |PendingMessages(q)|
    ensures PendingMessages(q) == PendingMessages(full) ==> BatchSize(q, n) == BatchSize(full, n)
  {
    ColumnLengths(q);
    ColumnLengths(full);
  }

  // ---------------------------------------------------------------- results

  /** Whatever devices others report, the loop's and the tables' invariants hold throughout. */
  lemma {:induction false} LosslessRunStaysSound(c: Config, tries: seq<Try>)
    requires c.size > 0 && IsLosslessRun(c, tries)
    ensures Sound(After(c, tries), c)
  {
    if tries == [] {
      StartIsCaught(c, 0);
    } else {
      var front := tries[..|tries| - 1];
      LosslessRunStaysSound(c, front);
      hide Sound, Lossless, Attempt;
      AttemptKeepsSound(After(c, front), c, Last(tries).round, Last(tries).reaction);
    }
  }

  lemma {:induction false} LosslessRunKeepsInv(c: Config, tries: seq<Try>, d: DeviceId)
    requires c.size > 0 && IsLosslessRun(c, tries) && OnlyReporter(tries, d)
    ensures Inv(After(c, tries), c, d, Reach(c, tries))
  {
    if tries == [] {
      StartIsCaught(c, d);
    } else {
      var front := tries[..|tries| - 1];
      LosslessRunKeepsInv(c, front, d);
      hide Inv, Lossless, Attempt, AllForeign;
      AttemptKeepsInv(After(c, front), c, Last(tries).round, Last(tries).reaction, d, Reach(c, front));
    }
  }

  lemma StartIsCaught(c: Config, d: DeviceId)
    ensures Inv(Link(UploadState(EMPTY_QUEUE, map[], c.retry), EMPTY_SITE, []), c, d, 0)
  {
    assert QueueInvariants.Inv(EMPTY_QUEUE);
    assert ViewOf(EMPTY, d).open == {};
  }

  /** The acked messages, each processed once and in order by an untouched cloud. */
  ghost function Once(c: Config, acked: seq<Message>, now: Time): Db {
    ApplyBatch(EMPTY, c.env, acked, seq(|acked|, i => false), now, 0)
  }

  /**
    Exactly-once effect: at each ack every device that only this box reports shows what one pass over the acked
    messages would show.
   */
  lemma ExactlyOnceEffect(c: Config, tries: seq<Try>, d: DeviceId, now: Time)
    requires c.size > 0 && IsLosslessRun(c, tries) && OnlyReporter(tries, d)
    requires tries != [] && Last(tries).round.outcome.Delivered?
    ensures ViewOf(After(c, tries).site.db, d) == ViewOf(Once(c, After(c, tries).acked, now), d)
  {
    var l := After(c, tries);
    LosslessRunKeepsInv(c, tries, d);
    var p := PendingMessages(l.upload.queue);
    assert p[..0] == [];
    var none := seq(|l.acked|, i => false);
    StartIsCaught(c, d);
    assert ViewOf(EMPTY, d) == BLANK;
    BatchRunsView(EMPTY, c.env, l.acked, none, now, 0, d);
    AcceptedAreMembers(l.acked, none);
  }
}
