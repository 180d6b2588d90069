/**
  Publishing the outbox. Several workers repeat: in one transaction, lock the oldest unpublished rows that nobody
  else has locked, publish each to its channel and mark it, then commit. A failure rolls the marks back but cannot
  take back what was published.
 */
module Outbox {
  import opened Sequences

  type TxnId = nat
  type WorkerId = nat

  const BATCH := 50

  /** Rows are listed in enqueued_at order. `publishedBy` is set exactly when published_at is, and by whom. */
  datatype Row = Row(property: nat, event: nat, publishedBy: Option<TxnId>, attempts: nat)

  /** One message on a channel: which transaction sent it, for which row. */
  datatype Send = Send(txn: TxnId, row: nat)

  // ---------------------------------------------------------- the statements

  predicate Claimable(rows: seq<Row>, locked: set<nat>, n: nat) {
    n < |rows| && rows[n].publishedBy.None? && n !in locked
  }

  /** The oldest unpublished rows that are not locked, at most `limit` of them. */
  function Oldest(rows: seq<Row>, locked: set<nat>, from: nat, limit: nat): (ids: seq<nat>)
    ensures |ids| <= limit
    ensures forall n :: n in ids ==> from <= n && Claimable(rows, locked, n)
    ensures forall a, b :: 0 <= a < b < |ids| ==> ids[a] < ids[b]
    decreases |rows| - from
  {
    if from >= |rows| || limit == 0 then []
    else if Claimable(rows, locked, from) then
      var rest := Oldest(rows, locked, from + 1, limit - 1);
      assert forall k :: 0 <= k < |rest| ==> rest[k] in rest;
      [from] + rest
    else Oldest(rows, locked, from + 1, limit)
  }

  /** Up to `limit` claimable rows, in order, such that any claimable row left out comes after a full batch of them. */
  ghost predicate TakesOldest(rows: seq<Row>, locked: set<nat>, ids: seq<nat>, limit: nat) {
    && |ids| <= limit
    && (forall n :: n in ids ==> Claimable(rows, locked, n))
    && (forall a, b :: 0 <= a < b < |ids| ==> ids[a] < ids[b])
    && forall n :: Claimable(rows, locked, n) && n !in ids ==> |ids| == limit && forall k :: 0 <= k < |ids| ==> ids[k] < n
  }

  lemma {:induction false} OldestLeavesLater(rows: seq<Row>, locked: set<nat>, from: nat, limit: nat, n: nat)
    requires from <= n && Claimable(rows, locked, n) && n !in Oldest(rows, locked, from, limit)
    ensures var ids := Oldest(rows, locked, from, limit);
            |ids| == limit && forall k :: 0 <= k < |ids| ==> ids[k] < n
    decreases |rows| - from
  {
    if limit > 0 {
      if Claimable(rows, locked, from) {
        assert from in Oldest(rows, locked, from, limit);
        OldestLeavesLater(rows, locked, from + 1, limit - 1, n);
      } else {
        OldestLeavesLater(rows, locked, from + 1, limit, n);
      }
    }
  }

  lemma OldestTakesOldest(rows: seq<Row>, locked: set<nat>, limit: nat)
    ensures TakesOldest(rows, locked, Oldest(rows, locked, 0, limit), limit)
  {
    hide Claimable;
    forall n | Claimable(rows, locked, n) && n !in Oldest(rows, locked, 0, limit)
      ensures var ids := Oldest(rows, locked, 0, limit); |ids| == limit && forall k :: 0 <= k < |ids| ==> ids[k] < n
    {
      OldestLeavesLater(rows, locked, 0, limit, n);
    }
  }

  function MarkRow(row: Row, t: TxnId): Row {
    row.(publishedBy := Some(t), attempts := row.attempts + 1)
  }

  function MarkAll(rows: seq<Row>, ids: seq<nat>, t: TxnId): (r: seq<Row>)
    ensures |r| == |rows|
  {
    seq(|rows|, n requires 0 <= n < |rows| => if n in ids then MarkRow(rows[n], t) else rows[n])
  }

  lemma MarkNone(rows: seq<Row>, t: TxnId)
    ensures MarkAll(rows, [], t) == rows && SendAll(t, []) == []
  {
  }

  lemma SendOneMore(ids: seq<nat>, k: nat, t: TxnId)
    requires k < |ids|
    ensures SendAll(t, ids[..k + 1]) == SendAll(t, ids[..k]) + [Send(t, ids[k])]
  {
  }

  lemma MarkOneMore(rows: seq<Row>, ids: seq<nat>, k: nat, t: TxnId)
    requires k < |ids| && ids[k] < |rows|
    requires forall a, b :: 0 <= a < b < |ids| ==> ids[a] < ids[b]
    ensures var before := MarkAll(rows, ids[..k], t);
            MarkAll(rows, ids[..k + 1], t) == before[ids[k] := MarkRow(before[ids[k]], t)]
  {
    assert ids[..k + 1] == ids[..k] + [ids[k]];
  }

  function SendAll(t: TxnId, ids: seq<nat>): (sends: seq<Send>)
    ensures |sends| == |ids|
  {
    seq(|ids|, n requires 0 <= n < |ids| => Send(t, ids[n]))
  }

  function Unpublished(rows: seq<Row>): nat {
    if rows == [] then 0 else Unpublished(rows[..|rows| - 1]) + (if Last(rows).publishedBy.None? then 1 else 0)
  }

  // ------------------------------------------------------------ one worker

  /** What a poll that claimed `ids` leaves: all of them published and marked, or a front part published and none marked. */
  ghost predicate Polled(rows: seq<Row>, channel: seq<Send>, t: TxnId, ids: seq<nat>, failsAfter: Option<nat>,
                         rows': seq<Row>, channel': seq<Send>, published: nat)
  {
    var failed := ids != [] && failsAfter.Some? && failsAfter.value <= |ids|;
    && rows' == (if failed then rows else MarkAll(rows, ids, t))
    && channel' == channel + SendAll(t, if failed then ids[..failsAfter.value] else ids)
    && published == (if failed then 0 else |ids|)
  }

  lemma {:induction false} MarkingReducesUnpublished(rows: seq<Row>, ids: set<nat>, marked: seq<Row>, t: TxnId)
    requires |marked| == |rows| && forall n :: 0 <= n < |rows| ==> marked[n] == if n in ids then MarkRow(rows[n], t) else rows[n]
    requires forall n :: n in ids ==> n < |rows| && rows[n].publishedBy.None?
    ensures Unpublished(marked) + |ids| == Unpublished(rows)
  {
    if rows == [] {
      assert ids == {};
    } else {
      var last := |rows| - 1;
      MarkingReducesUnpublished(rows[..last], ids - {last}, marked[..last], t);
    }
  }

  function Elements(ids: seq<nat>): set<nat> {
    set n | n in ids
  }

  lemma {:induction false} DistinctCardinality(ids: seq<nat>)
    requires forall a, b :: 0 <= a < b < |ids| ==> ids[a] != ids[b]
    ensures |Elements(ids)| == |ids|
  {
    if ids != [] {
      var front := ids[..|ids| - 1];
      DistinctCardinality(front);
      assert ids == front + [Last(ids)];
      assert Elements(ids) == Elements(front) + {Last(ids)};
      assert Last(ids) !in Elements(front);
    }
  }

  lemma {:induction false} NoneUnpublished(rows: seq<Row>)
    requires forall n :: 0 <= n < |rows| ==> rows[n].publishedBy.Some?
    ensures Unpublished(rows) == 0
  {
    if rows != [] {
      NoneUnpublished(rows[..|rows| - 1]);
    }
  }

  /** With nothing locked, marking the oldest 50 rows lowers the unpublished count by 50, or to 0. */
  lemma QuietPollPublishes(rows: seq<Row>, ids: seq<nat>, t: TxnId)
    requires TakesOldest(rows, {}, ids, 50)
    ensures |ids| == if Unpublished(rows) <= 50 then Unpublished(rows) else 50
    ensures Unpublished(MarkAll(rows, ids, t)) == Unpublished(rows) - |ids|
  {
    var marked := MarkAll(rows, ids, t);
    MarkingReducesUnpublished(rows, Elements(ids), marked, t);
    DistinctCardinality(ids);
    if |ids| < 50 {
      forall n | 0 <= n < |marked| ensures marked[n].publishedBy.Some? {
        assert n !in ids ==> !Claimable(rows, {}, n);
      }
      NoneUnpublished(marked);
    }
  }

  class Table {
    var rows: seq<Row>
    var channel: seq<Send>
    var nextTxn: TxnId

    /**
      One poll while `locked` rows are held by others. `failsAfter` is how many rows had been published when an
      exception was raised, if one was; the marks are then rolled back.
     */
    method PollOnce(locked: set<nat>, failsAfter: Option<nat>) returns (published: nat)
      modifies this
      ensures nextTxn == old(nextTxn) + 1
      ensures exists ids ::
                && TakesOldest(old(rows), locked, ids, 50)
                && Polled(old(rows), old(channel), old(nextTxn), ids, failsAfter, rows, channel, published)
      ensures locked == {} && failsAfter.None? ==>
                && published == (if Unpublished(old(rows)) <= 50 then Unpublished(old(rows)) else 50)
                && Unpublished(rows) == Unpublished(old(rows)) - published
    {
      hide MarkAll, SendAll, Oldest, TakesOldest, Unpublished;
      OldestTakesOldest(rows, locked, BATCH);
      if locked == {} {
        QuietPollPublishes(rows, Oldest(rows, locked, 0, BATCH), nextTxn);
      }
      MarkNone(rows, nextTxn);
      var t, ids, saved := nextTxn, Oldest(rows, locked, 0, BATCH), rows;
      nextTxn := t + 1;
      if ids == [] {
        return 0;
      }
      assert ids[..0] == [];
      for k := 0 to |ids|
        invariant nextTxn == t + 1 && saved == old(rows)
        invariant rows == MarkAll(saved, ids[..k], t)
        invariant channel == old(channel) + SendAll(t, ids[..k])
        invariant failsAfter.Some? ==> k <= failsAfter.value
      {
        if failsAfter == Some(k) {
          rows := saved;
          return 0;
        }
        assert ids[k] in ids && Claimable(saved, locked, ids[k]);
        MarkOneMore(saved, ids, k, t);
        channel := channel + [Send(t, ids[k])];
        SendOneMore(ids, k, t);
        rows := rows[ids[k] := MarkRow(rows[ids[k]], t)];
      }
      assert ids[..|ids|] == ids;
      if failsAfter == Some(|ids|) {
        rows := saved;
        return 0;
      }
      published := |ids|;
    }
  }

  // ----------------------------------------------------------- many workers

  /** A worker's open transaction: `done` claimed rows are published and marked; `sent` says the next is published. */
  datatype Worker = Worker(txn: TxnId, claimed: seq<nat>, done: nat, sent: bool) {
    /** The claimed rows this transaction has put on the channel. */
    function SentRows(): seq<nat>
      requires done <= |claimed|
    {
      if sent && done < |claimed| then claimed[..done + 1] else claimed[..done]
    }
  }

  datatype System = System(rows: seq<Row>, workers: map<WorkerId, Worker>, channel: seq<Send>, nextTxn: TxnId, aborted: set<TxnId>)

  datatype Step =
    | Insert(property: nat, event: nat)
    | Claim(w: WorkerId)
    | Publish(w: WorkerId)
    | Mark(w: WorkerId)
    | Commit(w: WorkerId)
    | Abort(w: WorkerId)

  function Locked(workers: map<WorkerId, Worker>): set<nat> {
    set w, n | w in workers && n in workers[w].claimed :: n
  }

  predicate Enabled(s: System, step: Step) {
    match step
    case Insert(_, _) => true
    case Claim(w) => w !in s.workers && Oldest(s.rows, Locked(s.workers), 0, BATCH) != []
    case Publish(w) => w in s.workers && !s.workers[w].sent && s.workers[w].done < |s.workers[w].claimed|
    case Mark(w) => w in s.workers && s.workers[w].sent && s.workers[w].done < |s.workers[w].claimed|
    case Commit(w) => w in s.workers && s.workers[w].done == |s.workers[w].claimed| && !s.workers[w].sent
    case Abort(w) => w in s.workers
  }

  function Take(s: System, step: Step): System
    requires Enabled(s, step)
  {
    match step
    case Insert(property, event) => s.(rows := s.rows + [Row(property, event, None, 0)])
    case Claim(w) =>
      s.(workers := s.workers[w := Worker(s.nextTxn, Oldest(s.rows, Locked(s.workers), 0, BATCH), 0, false)],
         nextTxn := s.nextTxn + 1)
    case Publish(w) =>
      var x := s.workers[w];
      s.(workers := s.workers[w := x.(sent := true)], channel := s.channel + [Send(x.txn, x.claimed[x.done])])
    case Mark(w) =>
      var x := s.workers[w];
      s.(workers := s.workers[w := x.(sent := false, done := x.done + 1)])
    case Commit(w) => s.(rows := MarkAll(s.rows, s.workers[w].claimed, s.workers[w].txn), workers := s.workers - {w})
    case Abort(w) => s.(workers := s.workers - {w}, aborted := s.aborted + {s.workers[w].txn})
  }

  const START := System([], map[], [], 0, {})

  ghost function Run(steps: seq<Step>): System
    requires IsRun(steps)
    decreases |steps|, 1
  {
    if steps == [] then START else Take(Run(steps[..|steps| - 1]), Last(steps))
  }

  ghost predicate IsRun(steps: seq<Step>)
    decreases |steps|, 0
  {
    steps == [] || (IsRun(steps[..|steps| - 1]) && Enabled(Run(steps[..|steps| - 1]), Last(steps)))
  }

  // -------------------------------------------------------------- invariant

  ghost predicate SoundWorker(s: System, x: Worker) {
    && x.txn < s.nextTxn && x.txn !in s.aborted
    && x.done <= |x.claimed| && (x.sent ==> x.done < |x.claimed|)
    && (forall a, b :: 0 <= a < b < |x.claimed| ==> x.claimed[a] != x.claimed[b])
    && (forall n :: n in x.claimed ==> n < |s.rows| && s.rows[n].publishedBy.None?)
    && (forall n :: n in x.claimed ==> (Send(x.txn, n) in s.channel <==> n in x.SentRows()))
  }

  /** A send is accounted for by the transaction that made it: still open, aborted, or the row's publisher. */
  ghost predicate Accounted(s: System, e: Send) {
    && e.row < |s.rows| && e.txn < s.nextTxn
    && (e.txn in s.aborted || s.rows[e.row].publishedBy == Some(e.txn)
        || exists w :: w in s.workers && s.workers[w].txn == e.txn && e.row in s.workers[w].claimed)
  }

  ghost predicate SoundRow(s: System, n: nat)
    requires n < |s.rows|
  {
    && s.rows[n].attempts == (if s.rows[n].publishedBy.Some? then 1 else 0)
    && (s.rows[n].publishedBy.Some? ==>
          var t := s.rows[n].publishedBy.value;
          t < s.nextTxn && t !in s.aborted && Send(t, n) in s.channel && forall w :: w in s.workers ==> s.workers[w].txn != t)
  }

  ghost predicate Separate(workers: map<WorkerId, Worker>) {
    forall v, w :: v in workers && w in workers && v != w ==>
      && workers[v].txn != workers[w].txn
      && forall n :: n in workers[v].claimed ==> n !in workers[w].claimed
  }

  ghost predicate NoRepeats(channel: seq<Send>) {
    forall a, b :: 0 <= a < b < |channel| ==> channel[a] != channel[b]
  }

  ghost predicate Inv(s: System) {
    && Separate(s.workers) && NoRepeats(s.channel)
    && WorkersSound(s) && RowsSound(s) && AllAccounted(s)
    && (forall t :: t in s.aborted ==> t < s.nextTxn)
  }

  ghost predicate RowsSound(s: System) {
    forall n :: 0 <= n < |s.rows| ==> SoundRow(s, n)
  }

  ghost predicate WorkersSound(s: System) {
    forall w :: w in s.workers ==> SoundWorker(s, s.workers[w])
  }

  ghost predicate AllAccounted(s: System) {
    forall e :: e in s.channel ==> Accounted(s, e)
  }

  /** Rows stay sound when nothing about their publisher changes. */
  lemma RowsStaySound(s: System, s': System)
    requires RowsSound(s) && |s.rows| <= |s'.rows| && s.nextTxn <= s'.nextTxn && s.channel <= s'.channel
    requires forall n :: 0 <= n < |s.rows| ==> s'.rows[n] == s.rows[n]
    requires forall n :: |s.rows| <= n < |s'.rows| ==> s'.rows[n].publishedBy.None? && s'.rows[n].attempts == 0
    requires forall w :: w in s'.workers ==> s'.workers[w].txn == s.nextTxn || exists v :: v in s.workers && s.workers[v].txn == s'.workers[w].txn
    requires forall t :: t in s'.aborted ==> t in s.aborted || exists v :: v in s.workers && s.workers[v].txn == t
    ensures RowsSound(s')
  {
    forall n | 0 <= n < |s'.rows| ensures SoundRow(s', n) {
      if n < |s.rows| {
        assert SoundRow(s, n);
      }
    }
  }

  /** Sends stay accounted for when each transaction's claims, fate and marks only move forward. */
  lemma SendsStayAccounted(s: System, s': System)
    requires AllAccounted(s) && s.channel == s'.channel && |s.rows| <= |s'.rows| && s.nextTxn <= s'.nextTxn && s.aborted <= s'.aborted
    requires forall n :: 0 <= n < |s.rows| && s.rows[n].publishedBy.Some? ==> s'.rows[n].publishedBy == s.rows[n].publishedBy
    requires forall w :: w in s.workers ==>
               || s.workers[w].txn in s'.aborted
               || (w in s'.workers && s'.workers[w].txn == s.workers[w].txn && s'.workers[w].claimed == s.workers[w].claimed)
               || forall n :: n in s.workers[w].claimed ==> n < |s'.rows| && s'.rows[n].publishedBy == Some(s.workers[w].txn)
    ensures AllAccounted(s')
  {
    forall e | e in s'.channel ensures Accounted(s', e) {
      assert Accounted(s, e);
      if v :| v in s.workers && s.workers[v].txn == e.txn && e.row in s.workers[v].claimed {
        assert v in s'.workers && s'.workers[v].claimed == s.workers[v].claimed ==> e.row in s'.workers[v].claimed;
      }
    }
  }

  /** A worker the step does not touch stays sound. */
  lemma WorkerStaysSound(s: System, s': System, x: Worker)
    requires SoundWorker(s, x) && |s.rows| <= |s'.rows| && s.nextTxn <= s'.nextTxn && x.txn !in s'.aborted
    requires forall n :: n in x.claimed ==> s'.rows[n] == s.rows[n]
    requires s.channel <= s'.channel && forall e :: e in s'.channel && e !in s.channel ==> e.txn != x.txn
    ensures SoundWorker(s', x)
  {
  }

  lemma ClaimIsSeparate(s: System, w: WorkerId)
    requires Separate(s.workers) && WorkersSound(s) && Enabled(s, Claim(w))
    ensures Separate(Take(s, Claim(w)).workers)
  {
    hide SoundWorker, Oldest;
    var ids := Oldest(s.rows, Locked(s.workers), 0, BATCH);
    forall v | v in s.workers
      ensures s.workers[v].txn != s.nextTxn && forall n :: n in s.workers[v].claimed ==> n !in ids
    {
      assert s.workers[v].txn < s.nextTxn by { assert SoundWorker(s, s.workers[v]); WorkerIsOld(s, s.workers[v]); }
      assert forall n :: n in s.workers[v].claimed ==> n in Locked(s.workers);
    }
  }

  lemma WorkerIsOld(s: System, x: Worker)
    requires SoundWorker(s, x)
    ensures x.txn < s.nextTxn
  {
  }

  lemma ClaimedIsSound(s: System, w: WorkerId)
    requires AllAccounted(s) && (forall t :: t in s.aborted ==> t < s.nextTxn) && RowsSound(s) && WorkersSound(s)
    requires Enabled(s, Claim(w))
    ensures SoundWorker(Take(s, Claim(w)), Take(s, Claim(w)).workers[w])
  {
    var ids := Oldest(s.rows, Locked(s.workers), 0, BATCH);
    forall n | n in ids ensures Send(s.nextTxn, n) !in s.channel {
      assert Send(s.nextTxn, n) in s.channel ==> Accounted(s, Send(s.nextTxn, n));
    }
  }

  lemma ClaimKeepsInv(s: System, w: WorkerId)
    requires Inv(s) && Enabled(s, Claim(w))
    ensures Inv(Take(s, Claim(w)))
  {
    hide Oldest, RowsSound, AllAccounted, NoRepeats, Separate, SoundWorker, Locked;
    var s' := Take(s, Claim(w));
    ClaimIsSeparate(s, w);
    ClaimedIsSound(s, w);
    RowsStaySound(s, s');
    SendsStayAccounted(s, s');
    forall v | v in s'.workers ensures SoundWorker(s', s'.workers[v]) {
      if v != w {
        assert SoundWorker(s, s.workers[v]);
        NotAborted(s, s.workers[v]);
        UntouchedWorkerStaysSound(s, s', s.workers[v]);
      }
    }
  }

  lemma UntouchedWorkerStaysSound(s: System, s': System, x: Worker)
    requires SoundWorker(s, x) && s.rows <= s'.rows && s.nextTxn <= s'.nextTxn && x.txn !in s'.aborted && s.channel == s'.channel
    ensures SoundWorker(s', x)
  {
  }

  lemma PublishKeepsWorkers(s: System, w: WorkerId)
    requires Separate(s.workers) && WorkersSound(s) && Enabled(s, Publish(w))
    ensures WorkersSound(Take(s, Publish(w)))
  {
    var s', x := Take(s, Publish(w)), s.workers[w];
    var e := Send(x.txn, x.claimed[x.done]);
    assert s'.channel == s.channel + [e] && s.channel <= s'.channel;
    assert forall y :: y in s'.channel && y !in s.channel ==> y == e;
    assert SoundWorker(s, x);
    PublisherIsSound(s, w);
    hide SoundWorker, Separate;
    forall v | v in s'.workers ensures SoundWorker(s', s'.workers[v]) {
      if v != w {
        OthersHaveOtherTxns(s.workers, v, w);
        OtherStaysSound(s, s', s.workers[v], e);
      }
    }
  }

  lemma OtherStaysSound(s: System, s': System, x: Worker, e: Send)
    requires SoundWorker(s, x) && x.txn != e.txn
    requires s' == s.(workers := s'.workers, channel := s.channel + [e])
    ensures SoundWorker(s', x)
  {
    WorkerStaysSound(s, s', x);
  }

  lemma PublishKeepsAccounts(s: System, w: WorkerId)
    requires AllAccounted(s) && Enabled(s, Publish(w)) && SoundWorker(s, s.workers[w])
    ensures AllAccounted(Take(s, Publish(w)))
  {
    var s', x := Take(s, Publish(w)), s.workers[w];
    PublisherIsSound(s, w);
    hide AllAccounted, SoundWorker;
    SendsStayAccounted(s, s'.(channel := s.channel));
    OneMoreSend(s'.(channel := s.channel), Send(x.txn, x.claimed[x.done]), w);
  }

  lemma PublishKeepsInv(s: System, w: WorkerId)
    requires Inv(s) && Enabled(s, Publish(w))
    ensures Inv(Take(s, Publish(w)))
  {
    var s', x := Take(s, Publish(w)), s.workers[w];
    assert SoundWorker(s, x);
    hide RowsSound, AllAccounted, SoundWorker, Separate, NoRepeats, WorkersSound;
    PublisherIsSound(s, w);
    NoRepeatsSnoc(s.channel, Send(x.txn, x.claimed[x.done]));
    RowsStaySound(s, s');
    PublishKeepsAccounts(s, w);
    SameClaimsStaySeparate(s.workers, s'.workers);
    PublishKeepsWorkers(s, w);
  }

  lemma NoRepeatsSnoc(channel: seq<Send>, e: Send)
    requires NoRepeats(channel) && e !in channel
    ensures NoRepeats(channel + [e])
  {
  }

  lemma OthersHaveOtherTxns(workers: map<WorkerId, Worker>, v: WorkerId, w: WorkerId)
    requires Separate(workers) && v in workers && w in workers && v != w
    ensures workers[v].txn != workers[w].txn
  {
  }

  lemma SameClaimsStaySeparate(a: map<WorkerId, Worker>, b: map<WorkerId, Worker>)
    requires Separate(a) && a.Keys == b.Keys
    requires forall w :: w in a ==> a[w].txn == b[w].txn && a[w].claimed == b[w].claimed
    ensures Separate(b)
  {
  }

  lemma PublisherIsSound(s: System, w: WorkerId)
    requires Enabled(s, Publish(w)) && SoundWorker(s, s.workers[w])
    ensures var s', x := Take(s, Publish(w)), s.workers[w];
            && SoundWorker(s', s'.workers[w])
            && Send(x.txn, x.claimed[x.done]) !in s.channel
            && x.claimed[x.done] < |s.rows| && x.txn < s.nextTxn && x.txn !in s.aborted
  {
    var s', x := Take(s, Publish(w)), s.workers[w];
    assert x.claimed[x.done] in x.claimed;
    assert x.claimed[x.done] !in x.SentRows();
    assert s'.workers[w].SentRows() == x.SentRows() + [x.claimed[x.done]];
  }

  lemma OneMoreSend(s: System, e: Send, w: WorkerId)
    requires AllAccounted(s) && w in s.workers && s.workers[w].txn == e.txn && e.row in s.workers[w].claimed
    requires e.row < |s.rows| && e.txn < s.nextTxn
    ensures AllAccounted(s.(channel := s.channel + [e]))
  {
    var s' := s.(channel := s.channel + [e]);
    forall x | x in s'.channel ensures Accounted(s', x) {
      assert x == e || Accounted(s, x);
    }
  }

  lemma MarkerIsSound(s: System, w: WorkerId)
    requires Enabled(s, Mark(w)) && SoundWorker(s, s.workers[w])
    ensures SoundWorker(Take(s, Mark(w)), Take(s, Mark(w)).workers[w])
  {
    assert Take(s, Mark(w)).workers[w].SentRows() == s.workers[w].SentRows();
  }

  lemma MarkKeepsInv(s: System, w: WorkerId)
    requires Inv(s) && Enabled(s, Mark(w))
    ensures Inv(Take(s, Mark(w)))
  {
    hide RowsSound, AllAccounted, NoRepeats, SoundWorker, Separate;
    var s' := Take(s, Mark(w));
    MarkerIsSound(s, w);
    RowsStaySound(s, s');
    SendsStayAccounted(s, s');
    SameClaimsStaySeparate(s.workers, s'.workers);
    forall v | v in s'.workers ensures SoundWorker(s', s'.workers[v]) {
      if v != w {
        assert SoundWorker(s, s.workers[v]);
        NotAborted(s, s.workers[v]);
        UntouchedWorkerStaysSound(s, s', s.workers[v]);
      }
    }
  }

  lemma RemovalIsSeparate(workers: map<WorkerId, Worker>, w: WorkerId)
    requires Separate(workers)
    ensures Separate(workers - {w})
  {
  }

  lemma CommittedRowsAreSound(s: System, w: WorkerId)
    requires RowsSound(s) && WorkersSound(s) && Separate(s.workers) && Enabled(s, Commit(w))
    ensures RowsSound(Take(s, Commit(w)))
  {
    var s', x := Take(s, Commit(w)), s.workers[w];
    assert SoundWorker(s, x) && x.SentRows() == x.claimed;
    hide SoundWorker;
    forall n | 0 <= n < |s'.rows| ensures SoundRow(s', n) {
      assert SoundRow(s, n);
    }
  }

  lemma OtherWorkerKeepsItsRows(s: System, w: WorkerId, v: WorkerId)
    requires WorkersSound(s) && Separate(s.workers) && Enabled(s, Commit(w)) && v in s.workers && v != w
    ensures SoundWorker(Take(s, Commit(w)), s.workers[v])
  {
    assert SoundWorker(s, s.workers[v]);
    assert SoundWorker(s, s.workers[w]);
  }

  lemma CommitKeepsInv(s: System, w: WorkerId)
    requires Inv(s) && Enabled(s, Commit(w))
    ensures Inv(Take(s, Commit(w)))
  {
    hide RowsSound, AllAccounted, NoRepeats, Separate, SoundWorker;
    var s', x := Take(s, Commit(w)), s.workers[w];
    RemovalIsSeparate(s.workers, w);
    CommittedRowsAreSound(s, w);
    assert forall n :: n in x.claimed ==> n < |s.rows| && s.rows[n].publishedBy.None? by { ClaimsAreUnpublished(s, x); }
    SendsStayAccounted(s, s');
    forall v | v in s'.workers ensures SoundWorker(s', s'.workers[v]) {
      OtherWorkerKeepsItsRows(s, w, v);
    }
  }

  lemma ClaimsAreUnpublished(s: System, x: Worker)
    requires SoundWorker(s, x)
    ensures forall n :: n in x.claimed ==> n < |s.rows| && s.rows[n].publishedBy.None?
  {
  }

  lemma AbortKeepsInv(s: System, w: WorkerId)
    requires Inv(s) && Enabled(s, Abort(w))
    ensures Inv(Take(s, Abort(w)))
  {
    hide RowsSound, AllAccounted, NoRepeats, SoundWorker;
    var s' := Take(s, Abort(w));
    RowsStaySound(s, s');
    SendsStayAccounted(s, s');
    RemovalIsSeparate(s.workers, w);
    WorkerIsOld(s, s.workers[w]);
    forall v | v in s'.workers ensures SoundWorker(s', s'.workers[v]) {
      assert SoundWorker(s, s.workers[v]);
      NotAborted(s, s.workers[v]);
      UntouchedWorkerStaysSound(s, s', s.workers[v]);
    }
  }

  lemma NotAborted(s: System, x: Worker)
    requires SoundWorker(s, x)
    ensures x.txn !in s.aborted
  {
  }

  lemma InsertKeepsInv(s: System, property: nat, event: nat)
    requires Inv(s)
    ensures Inv(Take(s, Insert(property, event)))
  {
    var s' := Take(s, Insert(property, event));
    hide SoundRow, Accounted, NoRepeats;
    assert RowsSound(s) && AllAccounted(s);
    RowsStaySound(s, s');
    SendsStayAccounted(s, s');
    forall v | v in s'.workers ensures SoundWorker(s', s'.workers[v]) {
      WorkerStaysSound(s, s', s.workers[v]);
    }
  }

  lemma {:induction false} RunKeepsInv(steps: seq<Step>)
    requires IsRun(steps)
    ensures Inv(Run(steps))
  {
    hide Inv, Take, Enabled;
    if steps == [] {
      StartHolds();
    } else {
      var s := Run(steps[..|steps| - 1]);
      RunKeepsInv(steps[..|steps| - 1]);
      match Last(steps)
      case Insert(property, event) => InsertKeepsInv(s, property, event);
      case Claim(w) => ClaimKeepsInv(s, w);
      case Publish(w) => PublishKeepsInv(s, w);
      case Mark(w) => MarkKeepsInv(s, w);
      case Commit(w) => CommitKeepsInv(s, w);
      case Abort(w) => AbortKeepsInv(s, w);
    }
  }

  lemma StartHolds()
    ensures Inv(START)
  {
  }

  // ---------------------------------------------------------------- results

  /** The transactions that sent a row, and how often it was sent. */
  function Senders(channel: seq<Send>, n: nat): set<TxnId> {
    set e | e in channel && e.row == n :: e.txn
  }

  function Sends(channel: seq<Send>, n: nat): nat {
    if channel == [] then 0 else Sends(channel[..|channel| - 1], n) + (if Last(channel).row == n then 1 else 0)
  }

  lemma {:induction false} SendsAreSenders(channel: seq<Send>, n: nat)
    requires NoRepeats(channel)
    ensures Sends(channel, n) == |Senders(channel, n)|
  {
    if channel == [] {
      assert Senders(channel, n) == {};
    } else {
      var front, e := channel[..|channel| - 1], Last(channel);
      SendsAreSenders(front, n);
      assert forall x :: x in channel <==> x in front || x == e;
      assert e !in front;
      if e.row == n {
        assert e.txn in Senders(front, n) ==> Send(e.txn, n) in front;
        assert Senders(channel, n) == Senders(front, n) + {e.txn};
      } else {
        assert Senders(channel, n) == Senders(front, n);
      }
    }
  }

  /** No two workers ever hold the same row. */
  lemma WorkersNeverShareARow(steps: seq<Step>, v: WorkerId, w: WorkerId, n: nat)
    requires IsRun(steps)
    requires v in Run(steps).workers && w in Run(steps).workers
    requires n in Run(steps).workers[v].claimed && n in Run(steps).workers[w].claimed
    ensures v == w
  {
    RunKeepsInv(steps);
  }

  /** A published row was sent by the transaction that marked it, once; every other send of it was by an aborted one. */
  lemma PublishedRowSends(steps: seq<Step>, n: nat)
    requires IsRun(steps) && n < |Run(steps).rows| && Run(steps).rows[n].publishedBy.Some?
    ensures var s, t := Run(steps), Run(steps).rows[n].publishedBy.value;
            && Send(t, n) in s.channel && t !in s.aborted
            && Senders(s.channel, n) == {t} + (Senders(s.channel, n) * s.aborted)
            && Sends(s.channel, n) == 1 + |Senders(s.channel, n) * s.aborted|
  {
    RunKeepsInv(steps);
    hide Run, IsRun;
    PublishedRowSendsHere(Run(steps), n);
  }

  lemma PublishedRowSendsHere(s: System, n: nat)
    requires Inv(s) && n < |s.rows| && s.rows[n].publishedBy.Some?
    ensures var t := s.rows[n].publishedBy.value;
            && Send(t, n) in s.channel && t !in s.aborted
            && Senders(s.channel, n) == {t} + (Senders(s.channel, n) * s.aborted)
            && Sends(s.channel, n) == 1 + |Senders(s.channel, n) * s.aborted|
  {
    hide NoRepeats, Separate;
    var t := s.rows[n].publishedBy.value;
    assert SoundRow(s, n);
    forall u | u in Senders(s.channel, n) && u != t ensures u in s.aborted {
      assert Accounted(s, Send(u, n));
    }
    SendsAreSenders(s.channel, n);
    assert Senders(s.channel, n) == {t} + (Senders(s.channel, n) * s.aborted);
    assert t !in Senders(s.channel, n) * s.aborted;
  }

  /** attempts is 1 exactly for published rows, and otherwise 0. */
  lemma AttemptsCountPublication(steps: seq<Step>, n: nat)
    requires IsRun(steps) && n < |Run(steps).rows|
    ensures Run(steps).rows[n].attempts == if Run(steps).rows[n].publishedBy.Some? then 1 else 0
  {
    RunKeepsInv(steps);
    assert SoundRow(Run(steps), n);
  }

  /** A worker with an open transaction can always go on: publish the next row, mark it, or commit; and it can always fail. */
  lemma WorkersCanGoOn(steps: seq<Step>, w: WorkerId)
    requires IsRun(steps) && w in Run(steps).workers
    ensures var s, x := Run(steps), Run(steps).workers[w];
            && Enabled(s, if x.sent then Mark(w) else if x.done < |x.claimed| then Publish(w) else Commit(w))
            && Enabled(s, Abort(w))
  {
    RunKeepsInv(steps);
    hide Run, IsRun;
    assert SoundWorker(Run(steps), Run(steps).workers[w]);
  }

  /** A claim takes the oldest rows that nobody holds, and can be made whenever there is one. */
  lemma ClaimTakesOldest(s: System, w: WorkerId)
    requires w !in s.workers
    ensures Enabled(s, Claim(w)) <==> exists n :: Claimable(s.rows, Locked(s.workers), n)
    ensures Enabled(s, Claim(w)) ==> TakesOldest(s.rows, Locked(s.workers), Take(s, Claim(w)).workers[w].claimed, 50)
  {
    OldestTakesOldest(s.rows, Locked(s.workers), BATCH);
    var ids := Oldest(s.rows, Locked(s.workers), 0, BATCH);
    hide Oldest, Claimable;
    if ids != [] {
      assert ids[0] in ids && Claimable(s.rows, Locked(s.workers), ids[0]);
    }
  }

  /** The rows after `k` polls by one undisturbed worker, the first being transaction `t`. */
  function AfterPolls(rows: seq<Row>, k: nat, t: TxnId): seq<Row> {
    if k == 0 then rows
    else
      var before := AfterPolls(rows, k - 1, t);
      MarkAll(before, Oldest(before, {}, 0, BATCH), t + k - 1)
  }

  /** Undisturbed, N rows are published in ceil(N / 50) polls, 50 at a time. */
  lemma {:induction false} PollsDrainOutbox(rows: seq<Row>, k: nat, t: TxnId)
    ensures Unpublished(AfterPolls(rows, k, t)) == if 50 * k <= Unpublished(rows) then Unpublished(rows) - 50 * k else 0
  {
    hide MarkAll, Oldest, Unpublished, TakesOldest;
    if k > 0 {
      PollsDrainOutbox(rows, k - 1, t);
      var before := AfterPolls(rows, k - 1, t);
      OldestTakesOldest(before, {}, BATCH);
      QuietPollPublishes(before, Oldest(before, {}, 0, BATCH), t + k - 1);
    }
  }

  /** A committed poll publishes all it claimed: the unpublished count falls by that many, and by at least one. */
  lemma CommitReducesUnpublished(steps: seq<Step>, w: WorkerId)
    requires IsRun(steps) && Enabled(Run(steps), Commit(w)) && Run(steps).workers[w].claimed != []
    ensures var s := Run(steps);
            Unpublished(Take(s, Commit(w)).rows) + |s.workers[w].claimed| == Unpublished(s.rows)
  {
    RunKeepsInv(steps);
    hide Run, IsRun, Separate, NoRepeats, RowsSound, AllAccounted, Unpublished;
    var s, x := Run(steps), Run(steps).workers[w];
    assert SoundWorker(s, x);
    assert forall n :: n in Elements(x.claimed) <==> n in x.claimed;
    MarkingReducesUnpublished(s.rows, Elements(x.claimed), MarkAll(s.rows, x.claimed, x.txn), x.txn);
    DistinctCardinality(x.claimed);
  }
}
