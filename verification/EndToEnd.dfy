/** From device reports to open alerts, across the poller, the queue, the upload loop and the cloud's ingest. */
module EndToEnd {
  import opened Sequences
  import opened Messages
  import opened Cloud
  import opened CloudInvariants
  import opened Views
  import opened Sharing
  import opened Queue
  import QueueInvariants
  import opened PendingOrder
  import opened Uploader
  import HeadOfLine
  import opened Delivery
  import opened Poller
  import PollRuns

  // -------------------------------------------------- nothing lost on the way

  function ArrivalsOf(tries: seq<Try>): seq<Arrival> {
    if tries == [] then []
    else ArrivalsOf(tries[..|tries| - 1]) + Last(tries).round.waiting + Last(tries).round.inFlight
  }

  lemma {:induction false} SentConcat(a: seq<Arrival>, b: seq<Arrival>)
    ensures Sent(a + b) == Sent(a) + Sent(b)
  {
    if b == [] {
      assert a + b == a;
    } else {
      var front := b[..|b| - 1];
      SentConcat(a, front);
      assert (a + b)[..|a + b| - 1] == a + front;
      assert Sent(a) + (Sent(front) + Last(b).ms) == (Sent(a) + Sent(front)) + Last(b).ms;
    }
  }

  /** What was sent to the queue is what the cloud has acked followed by what is still pending. */
  ghost predicate Ledger(l: Link) {
    l.acked + PendingMessages(l.upload.queue) == l.upload.queue.log
  }

  lemma SettleKeepsLog(s: UploadState, key: seq<RowId>, outcome: Outcome, retry: nat)
    requires outcome.Permanent? ==> Count(s.rejections, key) + 1 < MAX_4XX_ATTEMPTS
    ensures Settle(s, key, outcome, retry).queue.log == s.queue.log
  {
  }

  lemma TurnKeepsLog(l: Link, c: Config, round: Round, re: Reaction)
    requires Lossless(l, c, round, re)
    ensures Turn(l.upload, c.size, c.retry, round).queue.log == FullQueue(l, round).log
  {
    hide HeadOfLine.RoundFits, Arrive, TakeBatch, Settle, RowIds;
    var key := RowIds(TakeBatch(Arrive(l.upload.queue, round.waiting), c.size));
    SettleKeepsLog(l.upload.(queue := FullQueue(l, round)), key, round.outcome, c.retry);
  }

  lemma FullQueueGrows(l: Link, c: Config, round: Round)
    requires HeadOfLine.Inv(l.upload, c.size) && HeadOfLine.RoundFits(l.upload.queue, round)
    ensures var more, full := Sent(round.waiting) + Sent(round.inFlight), FullQueue(l, round);
            full.log == l.upload.queue.log + more && PendingMessages(full) == PendingMessages(l.upload.queue) + more
  {
    hide QueueInvariants.Inv, HeadOfLine.ArrivalsFit, HeadOfLine.KeysInStep, Arrive, PendingMessages, Sent;
    var q := l.upload.queue;
    ArrivalsAppendMessages(q, round.waiting);
    ArrivalsExtend(q, round.waiting);
    ArrivalsAppendMessages(Arrive(q, round.waiting), round.inFlight);
    assert (q.log + Sent(round.waiting)) + Sent(round.inFlight) == q.log + (Sent(round.waiting) + Sent(round.inFlight));
    assert (PendingMessages(q) + Sent(round.waiting)) + Sent(round.inFlight) == PendingMessages(q) + (Sent(round.waiting) + Sent(round.inFlight));
  }

  lemma AttemptKeepsLedger(l: Link, c: Config, round: Round, re: Reaction)
    requires c.size > 0 && HeadOfLine.Inv(l.upload, c.size) && Ledger(l) && Lossless(l, c, round, re)
    ensures Ledger(Attempt(l, c, round, re))
    ensures Attempt(l, c, round, re).upload.queue.log == l.upload.queue.log + (Sent(round.waiting) + Sent(round.inFlight))
  {
    hide HeadOfLine.Inv, HeadOfLine.RoundFits, FullQueue, Turn, PendingMessages, PendingIds, Sent, SharedBatch, Batch, BatchSize, RowIds, TakeBatch, Arrive;
    TurnMovesMessages(l, c, round, re);
    TurnKeepsLog(l, c, round, re);
    BatchIsFrontOfAll(l, c, round);
    FullQueueGrows(l, c, round);
    var q, full, b := l.upload.queue, PendingMessages(FullQueue(l, round)), |Batch(l, c, round)|;
    var more := Sent(round.waiting) + Sent(round.inFlight);
    assert l.acked + (PendingMessages(q) + more) == (l.acked + PendingMessages(q)) + more;
    assert l.acked + full == (l.acked + full[..b]) + full[b..];
  }

  lemma {:induction false} RunKeepsLedger(c: Config, tries: seq<Try>)
    requires c.size > 0 && IsLosslessRun(c, tries)
    ensures Ledger(After(c, tries)) && After(c, tries).upload.queue.log == Sent(ArrivalsOf(tries))
  {
    hide Ledger, Attempt, Lossless, Sent, HeadOfLine.Inv, Caught, ViewOf;
    if tries == [] {
      EmptyLedger(c);
    } else {
      var front, last := tries[..|tries| - 1], Last(tries);
      RunKeepsLedger(c, front);
      LosslessRunStaysSound(c, front);
      AttemptKeepsLedger(After(c, front), c, last.round, last.reaction);
      SentConcat(ArrivalsOf(front) + last.round.waiting, last.round.inFlight);
      SentConcat(ArrivalsOf(front), last.round.waiting);
      assert (Sent(ArrivalsOf(front)) + Sent(last.round.waiting)) + Sent(last.round.inFlight)
          == Sent(ArrivalsOf(front)) + (Sent(last.round.waiting) + Sent(last.round.inFlight));
    }
  }

  lemma EmptyLedger(c: Config)
    ensures Ledger(Link(UploadState(EMPTY_QUEUE, map[], c.retry), EMPTY_SITE, [])) && Sent([]) == []
  {
  }

  // ---------------------------------------------------- the queue's producer

  ghost function PollMessages(w: PollRuns.World, poll: PollRuns.Poll): seq<Message>
    requires ValidStore(w.store)
  {
    ObservedIsValid(w.store, poll.report);
    var p := Swept(Observed(w.store, poll.report), poll.report);
    p.messages + [Heartbeat(p, poll.report, poll.depth)]
  }

  /** The queue is fed by the polls, one insert per poll, in order. */
  ghost predicate FedBy(polls: seq<PollRuns.Poll>, arrivals: seq<Arrival>) {
    && |polls| == |arrivals|
    && forall n :: 0 <= n < |polls| ==> arrivals[n].ms == PollMessages(PollRuns.RunPolls(polls[..n]), polls[n])
  }

  lemma {:induction false} FedSendsPolls(polls: seq<PollRuns.Poll>, arrivals: seq<Arrival>)
    requires FedBy(polls, arrivals)
    ensures Sent(arrivals) == PollRuns.RunPolls(polls).sent
  {
    hide Observed, Swept, PollRuns.Inv;
    if polls != [] {
      var front := polls[..|polls| - 1];
      assert forall n :: 0 <= n < |front| ==> front[..n] == polls[..n];
      FedSendsPolls(front, arrivals[..|arrivals| - 1]);
    }
  }

  // ---------------------------------------------------------------- results

  /** When the queue has drained, the cloud shows each device as its recorded history says. */
  lemma DrainedCloudShowsHistory(c: Config, tries: seq<Try>, polls: seq<PollRuns.Poll>, d: DeviceId)
    requires c.size > 0 && IsLosslessRun(c, tries) && FedBy(polls, ArrivalsOf(tries)) && OnlyReporter(tries, d)
    requires Pending(After(c, tries).upload.queue.rows) == []
    ensures ViewOf(After(c, tries).site.db, d) == PollRuns.ExpectedView(PollRuns.History(PollRuns.RunPolls(polls).records, d))
  {
    hide After, IsLosslessRun, FedBy, HeadOfLine.Inv, Ready, Sent, ViewOf, ArrivalsOf, PollRuns.RunPolls, PollRuns.History, PollRuns.ExpectedView;
    var l := After(c, tries);
    RunKeepsLedger(c, tries);
    FedSendsPolls(polls, ArrivalsOf(tries));
    LosslessRunKeepsInv(c, tries, d);
    var p := PendingMessages(l.upload.queue);
    assert p == [] && l.acked + p == l.acked;
    assert p[..0] == [];
    assert ViewOf(l.site.db, d) == RunView(BLANK, d, l.acked);
    assert PollRuns.Consistent(PollRuns.RunPolls(polls), d);
  }

  lemma {:induction false} HealthyClosesAll(h: seq<Status>)
    requires h != [] && Last(h) == Healthy
    ensures PollRuns.OpenAfter(h) == {}
  {
    if |h| > 1 && Last(h[..|h| - 1]) == Healthy {
      HealthyClosesAll(h[..|h| - 1]);
    }
  }

  /** A device last recorded healthy has no open alert. */
  lemma HealthyDeviceHasNoOpenAlert(c: Config, tries: seq<Try>, polls: seq<PollRuns.Poll>, d: DeviceId)
    requires c.size > 0 && IsLosslessRun(c, tries) && FedBy(polls, ArrivalsOf(tries)) && OnlyReporter(tries, d)
    requires Pending(After(c, tries).upload.queue.rows) == []
    requires var h := PollRuns.History(PollRuns.RunPolls(polls).records, d); h != [] && Last(h) == Healthy
    ensures OpenIds(After(c, tries).site.db.alerts, d) == {}
  {
    DrainedCloudShowsHistory(c, tries, polls, d);
    HealthyClosesAll(PollRuns.History(PollRuns.RunPolls(polls).records, d));
    NothingShownNothingOpen(After(c, tries).site.db, d);
  }

  lemma NothingShownNothingOpen(db: Db, d: DeviceId)
    ensures ViewOf(db, d).open == {} <==> OpenIds(db.alerts, d) == {}
  {
    if i :| i in OpenIds(db.alerts, d) {
      assert Shows(db.alerts, d, db.alerts[i].kind.status);
      assert db.alerts[i].kind.status in ViewOf(db, d).open;
    }
    if k :| k in ViewOf(db, d).open {
      var i :| i in db.alerts && db.alerts[i].OpenFor(d);
      assert i in OpenIds(db.alerts, d);
    }
  }

  /** A device that has changed status and is now in another status than healthy has exactly one open alert of that kind. */
  lemma UnhealthyDeviceHasOneAlertOfItsKind(c: Config, tries: seq<Try>, polls: seq<PollRuns.Poll>, d: DeviceId)
    requires c.size > 0 && IsLosslessRun(c, tries) && FedBy(polls, ArrivalsOf(tries)) && OnlyReporter(tries, d)
    requires Pending(After(c, tries).upload.queue.rows) == []
    requires var h := PollRuns.History(PollRuns.RunPolls(polls).records, d); |Destutter(h)| > 1 && Last(h) != Healthy
    ensures var s, alerts := Last(PollRuns.History(PollRuns.RunPolls(polls).records, d)), After(c, tries).site.db.alerts;
            exists i :: i in OpenIds(alerts, d) && alerts[i].kind == HealthTransitionTo(s)
                        && alerts[i].severity == (if s == Unhealthy then P1 else if s == Degraded then P2 else P3)
                        && forall j :: j in OpenIds(alerts, d) && alerts[j].kind == HealthTransitionTo(s) ==> j == i
  {
    hide After, IsLosslessRun, FedBy, OnlyReporter, PollRuns.RunPolls, PollRuns.History, PollRuns.OpenAfter, Destutter, WellFormed, ViewOf, OpenIds, HeadOfLine.Inv, ArrivalsOf;
    var h := PollRuns.History(PollRuns.RunPolls(polls).records, d);
    var s, l := Last(h), After(c, tries);
    DrainedCloudShowsHistory(c, tries, polls, d);
    LastStatusIsDue(h);
    LosslessRunStaysSound(c, tries);
    OneOpenAlertShown(l.site.db, d, s);
  }

  lemma LastStatusIsDue(h: seq<Status>)
    requires |Destutter(h)| > 1 && Last(h) != Healthy
    ensures Last(h) in PollRuns.OpenAfter(h)
  {
    PollRuns.OpenAfterMeans(h, Last(h));
    assert Destutter(h)[|Destutter(h)| - 1] == Last(h);
  }

  lemma OneOpenAlertShown(db: Db, d: DeviceId, s: Status)
    requires WellFormed(db) && s in ViewOf(db, d).open && s != Healthy
    ensures exists i :: i in OpenIds(db.alerts, d) && db.alerts[i].kind == HealthTransitionTo(s)
                        && db.alerts[i].severity == (if s == Unhealthy then P1 else if s == Degraded then P2 else P3)
                        && forall j :: j in OpenIds(db.alerts, d) && db.alerts[j].kind == HealthTransitionTo(s) ==> j == i
  {
    assert Shows(db.alerts, d, s);
    var i :| i in db.alerts && db.alerts[i].OpenFor(d) && db.alerts[i].kind == HealthTransitionTo(s);
    assert i in OpenIds(db.alerts, d);
  }

  /** The converse of alarm: a device whose status never changed has no alert, however bad that status is. */
  lemma UnchangedDeviceHasNoAlert(c: Config, tries: seq<Try>, polls: seq<PollRuns.Poll>, d: DeviceId)
    requires c.size > 0 && IsLosslessRun(c, tries) && FedBy(polls, ArrivalsOf(tries)) && OnlyReporter(tries, d)
    requires Pending(After(c, tries).upload.queue.rows) == []
    requires |Destutter(PollRuns.History(PollRuns.RunPolls(polls).records, d))| <= 1
    ensures OpenIds(After(c, tries).site.db.alerts, d) == {}
  {
    var h := PollRuns.History(PollRuns.RunPolls(polls).records, d);
    DrainedCloudShowsHistory(c, tries, polls, d);
    forall k ensures k !in PollRuns.OpenAfter(h) {
      PollRuns.OpenAfterMeans(h, k);
    }
    NothingShownNothingOpen(After(c, tries).site.db, d);
  }
}
