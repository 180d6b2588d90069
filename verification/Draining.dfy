/** The queue can always be drained: from every state the loop reaches, sends that succeed empty it, in as many as its batches. */
module Draining {
  import opened Sequences
  import opened Messages
  import opened Cloud
  import opened CloudInvariants
  import opened Views
  import opened Sharing
  import opened Queue
  import QueueInvariants
  import opened PendingOrder
  import opened Uploader
  import HeadOfLine
  import opened Delivery

  function NoSteps(n: nat): seq<seq<Action>> {
    seq(n, i => [])
  }

  function NoRaises(n: nat): seq<bool> {
    seq(n, i => false)
  }

  /** One undisturbed turn in which nothing arrives and the send succeeds. */
  function Success(b: nat): Try {
    Try(Round([], [], Delivered), Reaction(b, NoRaises(b), NoSteps(b + 1), 0.0))
  }

  /** A send that succeeds, with nothing arriving and nobody else about. */
  predicate IsSuccess(t: Try) {
    && t.round == Round([], [], Delivered)
    && forall k :: 0 <= k < |t.reaction.others| ==> t.reaction.others[k] == []
  }

  lemma {:induction false} QuietCanShare(s: Site, env: Envelope, ms: seq<Message>)
    ensures CanShare(s, env, ms, NoRaises(|ms|), NoSteps(|ms| + 1), 0.0)
  {
    hide Sharing.Take, SharedBatch;
    if ms != [] {
      var n := |ms| - 1;
      QuietCanShare(s, env, ms[..n]);
      assert NoRaises(|ms|)[..n] == NoRaises(n) && NoSteps(|ms| + 1)[..n + 1] == NoSteps(n + 1);
    }
  }

  lemma NothingArrives(q: QueueState)
    ensures Arrive(q, []) == q && HeadOfLine.ArrivalsFit(q, [])
  {
  }

  lemma SuccessIsLossless(l: Link, c: Config)
    requires c.size > 0
    ensures var b := BatchSize(l.upload.queue, c.size);
            && Lossless(l, c, Success(b).round, Success(b).reaction)
            && Batch(l, c, Success(b).round) == PendingMessages(l.upload.queue)[..b]
  {
    hide TakeBatch, Pending, CanShare, HeadOfLine.ArrivalsFit;
    var q, b := l.upload.queue, BatchSize(l.upload.queue, c.size);
    NothingArrives(q);
    BatchIsFront(q, c.size);
    ColumnLengths(q);
    var batch := PendingMessages(q)[..b];
    assert |batch| == b && batch[..b] == batch;
    QuietCanShare(l.site, c.env, batch);
  }

  lemma SuccessShortens(l: Link, c: Config)
    requires c.size > 0 && Sound(l, c)
    ensures var b := BatchSize(l.upload.queue, c.size);
            && Lossless(l, c, Success(b).round, Success(b).reaction)
            && PendingMessages(Attempt(l, c, Success(b).round, Success(b).reaction).upload.queue) == PendingMessages(l.upload.queue)[b..]
  {
    hide HeadOfLine.Inv, Ready, Turn, TakeBatch, Pending, PendingMessages, SharedBatch, CanShare, HeadOfLine.ArrivalsFit, BatchSize;
    var b := BatchSize(l.upload.queue, c.size);
    SuccessIsLossless(l, c);
    NothingArrives(l.upload.queue);
    TurnMovesMessages(l, c, Success(b).round, Success(b).reaction);
    BatchSizeIsShort(l.upload.queue, l.upload.queue, c.size);
  }

  /** Sends that were needed for `n` messages. */
  function SendsFor(n: nat, size: nat): nat
    requires size > 0
  {
    if n == 0 then 0 else if n <= size then 1 else 1 + SendsFor(n - size, size)
  }

  /** From every reachable state successes alone drain the queue, and everything pending is then acked, in order. */
  lemma {:induction false} QueueCanBeDrained(c: Config, tries: seq<Try>) returns (more: seq<Try>)
    requires c.size > 0 && IsLosslessRun(c, tries)
    ensures IsLosslessRun(c, tries + more)
    ensures Pending(After(c, tries + more).upload.queue.rows) == []
    ensures |more| == SendsFor(|PendingMessages(After(c, tries).upload.queue)|, c.size)
    ensures forall n :: 0 <= n < |more| ==> IsSuccess(more[n])
    decreases |PendingMessages(After(c, tries).upload.queue)|
  {
    hide Attempt, Lossless, Sound, Success, BatchSize, PendingMessages, IsSuccess;
    var l := After(c, tries);
    ColumnLengths(l.upload.queue);
    if PendingMessages(l.upload.queue) == [] {
      more := [];
      assert tries + more == tries;
    } else {
      LosslessRunStaysSound(c, tries);
      SuccessShortens(l, c);
      var b := BatchSize(l.upload.queue, c.size);
      BatchIsSome(l.upload.queue, c.size);
      var one := Success(b);
      SuccessIsPlain(b);
      assert (tries + [one])[..|tries|] == tries;
      var later := QueueCanBeDrained(c, tries + [one]);
      more := [one] + later;
      assert tries + more == tries + [one] + later;
    }
  }

  lemma BatchIsSome(q: QueueState, size: nat)
    requires size > 0
    ensures BatchSize(q, size) == if |PendingMessages(q)| <= size then |PendingMessages(q)| else size
  {
    ColumnLengths(q);
  }

  lemma SuccessIsPlain(b: nat)
    ensures IsSuccess(Success(b))
  {
  }

  /** Nobody else need do anything for it. */
  lemma SuccessesConcernNoOther(more: seq<Try>, d: DeviceId)
    requires forall n :: 0 <= n < |more| ==> IsSuccess(more[n])
    ensures OnlyReporter(more, d)
  {
    forall n, k | 0 <= n < |more| && 0 <= k < |more[n].reaction.others| ensures AllForeign(more[n].reaction.others[k], d) {
      assert IsSuccess(more[n]);
    }
  }
}
