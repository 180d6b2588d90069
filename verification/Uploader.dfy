/**
  The upload loop: send the head batch, then ack it, retry it, or quarantine it once the cloud has rejected
  the very same batch three times. Producers may enqueue while the loop waits and while a send is in flight.
 */
module Uploader {
  import opened Sequences
  import opened Messages
  import opened Queue

  const MAX_4XX_ATTEMPTS := 3
  const MAX_BACKOFF := 600

  datatype Outcome = Delivered | Retryable(error: string) | Permanent(error: string)

  datatype Arrival = Arrival(now: Time, ms: seq<Message>)

  /** One turn of the loop: what arrived before the batch is taken, how the send ended, what arrived meanwhile. */
  datatype Round = Round(waiting: seq<Arrival>, inFlight: seq<Arrival>, outcome: Outcome)

  datatype UploadState = UploadState(queue: QueueState, rejections: map<seq<RowId>, nat>, backoff: nat)

  function Arrive(q: QueueState, arrivals: seq<Arrival>): QueueState {
    if arrivals == [] then q
    else EnqueueMany(Arrive(q, arrivals[..|arrivals| - 1]), Last(arrivals).now, Last(arrivals).ms)
  }

  function Count(rejections: map<seq<RowId>, nat>, key: seq<RowId>): nat {
    if key in rejections then rejections[key] else 0
  }

  /** What the loop does with the outcome of sending the rows `key`. */
  function Settle(s: UploadState, key: seq<RowId>, outcome: Outcome, retry: nat): UploadState {
    match outcome
    case Delivered => UploadState(Ack(s.queue, key), map[], retry)
    case Retryable(error) => s.(queue := MarkFailed(s.queue, key, error), backoff := Doubled(s.backoff))
    case Permanent(error) =>
      var failed := MarkFailed(s.queue, key, error);
      var count := Count(s.rejections, key) + 1;
      if count >= MAX_4XX_ATTEMPTS
      then s.(queue := Quarantine(failed, key, error), rejections := s.rejections - {key})
      else s.(queue := failed, rejections := s.rejections[key := count], backoff := Doubled(s.backoff))
  }

  function Doubled(backoff: nat): nat {
    if backoff * 2 < MAX_BACKOFF then backoff * 2 else MAX_BACKOFF
  }

  function Turn(s: UploadState, size: nat, retry: nat, round: Round): UploadState {
    var ready := Arrive(s.queue, round.waiting);
    var key := RowIds(TakeBatch(ready, size));
    if key == [] then s.(queue := Arrive(ready, round.inFlight))
    else Settle(s.(queue := Arrive(ready, round.inFlight)), key, round.outcome, retry)
  }

  function Turns(s: UploadState, size: nat, retry: nat, rounds: seq<Round>): UploadState {
    if rounds == [] then s else Turn(Turns(s, size, retry, rounds[..|rounds| - 1]), size, retry, Last(rounds))
  }

  class CloudUploader {
    const queue: OutboundQueue
    const size: nat
    const retry: nat
    var rejections: map<seq<RowId>, nat>
    var backoff: nat

    constructor (queue: OutboundQueue, size: nat, retry: nat)
      ensures this.queue == queue && this.size == size && this.retry == retry
      ensures rejections == map[] && backoff == retry
    {
      this.queue, this.size, this.retry := queue, size, retry;
      rejections, backoff := map[], retry;
    }

    ghost function Value(): UploadState
      reads this, queue
    {
      UploadState(queue.Value(), rejections, backoff)
    }

    /** The other thread: the poller fills the queue. */
    method Produce(arrivals: seq<Arrival>)
      requires queue.Valid()
      modifies queue
      ensures queue.Valid() && queue.Value() == Arrive(old(queue.Value()), arrivals)
    {
      ghost var start := queue.Value();
      for i := 0 to |arrivals|
        invariant queue.Valid() && queue.Value() == Arrive(start, arrivals[..i])
      {
        queue.EnqueueAll(arrivals[i].ms, arrivals[i].now);
        assert arrivals[..i + 1][..i] == arrivals[..i];
      }
      assert arrivals[..|arrivals|] == arrivals;
    }

    method OneTurn(round: Round)
      requires queue.Valid()
      modifies this, queue
      ensures queue.Valid() && Value() == Turn(old(Value()), size, retry, round)
    {
      hide Arrive, Ack, MarkFailed, Quarantine, TakeBatch;
      Produce(round.waiting);
      var batch := queue.Take(size);
      ghost var ready := queue.Value();
      var ids := seq(|batch|, n requires 0 <= n < |batch| => batch[n].0);
      assert ids == RowIds(TakeBatch(ready, size));
      Produce(round.inFlight);
      if ids == [] {
        return;
      }
      match round.outcome {
        case Delivered =>
          queue.Acknowledge(ids);
          rejections := map[];
          backoff := retry;
        case Retryable(error) =>
          queue.RecordFailure(ids, error);
          backoff := if backoff * 2 < MAX_BACKOFF then backoff * 2 else MAX_BACKOFF;
        case Permanent(error) =>
          queue.RecordFailure(ids, error);
          rejections := rejections[ids := (if ids in rejections then rejections[ids] else 0) + 1];
          if rejections[ids] >= MAX_4XX_ATTEMPTS {
            queue.SetAside(ids, error);
            rejections := rejections - {ids};
            assert rejections == old(rejections) - {ids};
            return;
          }
          backoff := if backoff * 2 < MAX_BACKOFF then backoff * 2 else MAX_BACKOFF;
      }
    }

    /** The loop, for as many turns as it is given. */
    method Run(rounds: seq<Round>)
      requires queue.Valid()
      modifies this, queue
      ensures queue.Valid() && Value() == Turns(old(Value()), size, retry, rounds)
    {
      hide Turn;
      ghost var start := Value();
      for i := 0 to |rounds|
        invariant queue.Valid() && Value() == Turns(start, size, retry, rounds[..i])
      {
        OneTurn(rounds[i]);
        assert rounds[..i + 1][..i] == rounds[..i];
      }
      assert rounds[..|rounds|] == rounds;
    }
  }
}
