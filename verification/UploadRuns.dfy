/** What the upload loop's counters mean over a run: rejections of a batch since the last delivery, and the waiting time. */
module UploadRuns {
  import opened Sequences
  import opened Messages
  import opened Queue
  import opened Uploader

  function Power(k: nat): nat {
    if k == 0 then 1 else 2 * Power(k - 1)
  }

  function Begun(q: QueueState, retry: nat): UploadState {
    UploadState(q, map[], retry)
  }

  /** The rows sent in a round. */
  function SentIn(s: UploadState, size: nat, round: Round): seq<RowId> {
    RowIds(TakeBatch(Arrive(s.queue, round.waiting), size))
  }

  /** Permanent rejections of exactly these rows, since the last delivery and since the last third one. */
  function Refusals(q: QueueState, size: nat, retry: nat, rounds: seq<Round>, key: seq<RowId>): nat {
    if rounds == [] then 0
    else
      var front, round := rounds[..|rounds| - 1], Last(rounds);
      var before, sent := Refusals(q, size, retry, front, key), SentIn(Turns(Begun(q, retry), size, retry, front), size, round);
      if sent == [] then before
      else if round.outcome.Delivered? then 0
      else if round.outcome.Permanent? && sent == key then (if before == 2 then 0 else before + 1)
      else before
  }

  /** Failed sends that were waited after, since the last delivery: all but those that ended in a quarantine. */
  function Waits(q: QueueState, size: nat, retry: nat, rounds: seq<Round>): nat {
    if rounds == [] then 0
    else
      var front, round := rounds[..|rounds| - 1], Last(rounds);
      var before, sent := Waits(q, size, retry, front), SentIn(Turns(Begun(q, retry), size, retry, front), size, round);
      if sent == [] then before
      else if round.outcome.Delivered? then 0
      else if round.outcome.Permanent? && Refusals(q, size, retry, front, sent) == 2 then before
      else before + 1
  }

  lemma {:induction false} CountIsRefusals(q: QueueState, size: nat, retry: nat, rounds: seq<Round>, key: seq<RowId>)
    ensures Count(Turns(Begun(q, retry), size, retry, rounds).rejections, key) == Refusals(q, size, retry, rounds, key)
    ensures Refusals(q, size, retry, rounds, key) < 3
  {
    hide TakeBatch, RowIds, Arrive, Ack, MarkFailed, Quarantine;
    if rounds != [] {
      var front := rounds[..|rounds| - 1];
      CountIsRefusals(q, size, retry, front, key);
      CountIsRefusals(q, size, retry, front, SentIn(Turns(Begun(q, retry), size, retry, front), size, Last(rounds)));
    }
  }

  function WaitAfter(retry: nat, k: nat): nat {
    if k == 0 then retry else if retry * Power(k) < 600 then retry * Power(k) else 600
  }

  lemma DoublingWaits(retry: nat, k: nat)
    ensures Doubled(WaitAfter(retry, k)) == WaitAfter(retry, k + 1)
  {
    assert retry * Power(k + 1) == 2 * (retry * Power(k));
    assert k == 0 ==> retry * Power(k) == retry;
  }

  lemma TurnWaits(s: UploadState, size: nat, retry: nat, round: Round)
    ensures var key := SentIn(s, size, round);
            Turn(s, size, retry, round).backoff ==
            if key == [] then s.backoff
            else if round.outcome.Delivered? then retry
            else if round.outcome.Permanent? && Count(s.rejections, key) >= 2 then s.backoff
            else Doubled(s.backoff)
  {
    hide TakeBatch, RowIds, Arrive, Ack, MarkFailed, Quarantine, Doubled, Count;
  }

  /** The wait doubles with each failure since the last delivery, from the configured time up to 600 seconds. */
  lemma {:induction false} BackoffDoubles(q: QueueState, size: nat, retry: nat, rounds: seq<Round>)
    ensures Turns(Begun(q, retry), size, retry, rounds).backoff == WaitAfter(retry, Waits(q, size, retry, rounds))
  {
    hide TakeBatch, RowIds, Arrive, Turn, SentIn, Doubled, Power, Count, Refusals;
    if rounds != [] {
      var front, round := rounds[..|rounds| - 1], Last(rounds);
      var s := Turns(Begun(q, retry), size, retry, front);
      BackoffDoubles(q, size, retry, front);
      CountIsRefusals(q, size, retry, front, SentIn(s, size, round));
      TurnWaits(s, size, retry, round);
      DoublingWaits(retry, Waits(q, size, retry, front));
    }
  }

  /** A batch is quarantined at its third permanent rejection since the last delivery, and not before. */
  lemma QuarantinedAtThird(q: QueueState, size: nat, retry: nat, rounds: seq<Round>, round: Round)
    requires round.outcome.Permanent?
    ensures var s := Turns(Begun(q, retry), size, retry, rounds);
            var key, full := SentIn(s, size, round), Arrive(Arrive(s.queue, round.waiting), round.inFlight);
            key != [] ==>
              Turn(s, size, retry, round).queue ==
              if Refusals(q, size, retry, rounds, key) == 2
              then Quarantine(MarkFailed(full, key, round.outcome.error), key, round.outcome.error)
              else MarkFailed(full, key, round.outcome.error)
  {
    hide TakeBatch, RowIds, Arrive, Ack, MarkFailed, Quarantine, Turns, Refusals;
    var s := Turns(Begun(q, retry), size, retry, rounds);
    CountIsRefusals(q, size, retry, rounds, SentIn(s, size, round));
  }
}
