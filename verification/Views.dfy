/**
  What the cloud shows for one device: its health status and the kinds of its open alerts. Each message moves
  a device's view by a small step, and receiving messages again before the batch that holds them is harmless.
 */
module Views {
  import opened Sequences
  import opened Messages
  import opened Cloud
  import opened CloudInvariants

  datatype View = View(status: Option<Status>, open: set<Status>)

  const BLANK := View(None, {})

  ghost predicate Shows(alerts: map<AlertId, Alert>, d: DeviceId, kind: Status) {
    exists i :: i in alerts && alerts[i].OpenFor(d) && alerts[i].kind == HealthTransitionTo(kind)
  }

  ghost function ViewOf(db: Db, d: DeviceId): View {
    View(if d in db.devices then Some(db.devices[d].status) else None, set k: Status | Shows(db.alerts, d, k))
  }

  function StepView(v: View, d: DeviceId, m: Message): View {
    if !m.About(d) then v
    else if m.Periodic? then v.(status := Some(m.status))
    else if m.status == Healthy then View(Some(Healthy), {})
    else View(Some(m.status), v.open + {m.status})
  }

  function RunView(v: View, d: DeviceId, ms: seq<Message>): View {
    if ms == [] then v else StepView(RunView(v, d, ms[..|ms| - 1]), d, Last(ms))
  }

  lemma RunViewSnoc(v: View, d: DeviceId, ms: seq<Message>, m: Message)
    ensures RunView(v, d, ms + [m]) == StepView(RunView(v, d, ms), d, m)
  {
    assert (ms + [m])[..|ms|] == ms;
  }

  lemma {:induction false} RunViewConcat(v: View, d: DeviceId, a: seq<Message>, b: seq<Message>)
    ensures RunView(v, d, a + b) == RunView(RunView(v, d, a), d, b)
  {
    if b == [] {
      assert a + b == a;
    } else {
      RunViewConcat(v, d, a, b[..|b| - 1]);
      assert (a + b)[..|a + b| - 1] == a + b[..|b| - 1];
    }
  }

  // ------------------------------------------------------ the tables' view

  lemma TransitionShows(alerts: map<AlertId, Alert>, env: Envelope, m: Message, now: Time, id: AlertId, d: DeviceId, k: Status)
    requires m.Transition? && UniqueOpen(alerts) && Fresh(alerts, id)
    ensures var after := ApplyAlertWrite(alerts, TransitionWrites(alerts, env, m, now, id).0);
            Shows(after, d, k) <==>
              if m.device != d then Shows(alerts, d, k)
              else m.status != Healthy && (Shows(alerts, d, k) || k == m.status)
  {
    var after := ApplyAlertWrite(alerts, TransitionWrites(alerts, env, m, now, id).0);
    FindOpenIsExact(alerts, m.device, HealthTransitionTo(m.status));
    if Shows(alerts, d, k) && (m.device != d || m.status != Healthy) {
      var i :| i in alerts && alerts[i].OpenFor(d) && alerts[i].kind == HealthTransitionTo(k);
      assert i in after && after[i].OpenFor(d) && after[i].kind == HealthTransitionTo(k);
    }
    if m.device == d && m.status != Healthy && k == m.status {
      var found := FindOpen(alerts, d, HealthTransitionTo(k));
      var i := if found.Some? then found.value else id;
      assert i in after && after[i].OpenFor(d) && after[i].kind == HealthTransitionTo(k);
    }
  }

  /** One ingested message moves each device's view by StepView. */
  lemma ApplyStepsView(db: Db, env: Envelope, m: Message, now: Time, id: AlertId, d: DeviceId)
    requires WellFormed(db) && Fresh(db.alerts, id)
    ensures ViewOf(Apply(db, env, m, now, id), d) == StepView(ViewOf(db, d), d, m)
  {
    ApplySetsHealth(db, env, m, now, id);
    if m.Transition? {
      forall k: Status
        ensures Shows(Apply(db, env, m, now, id).alerts, d, k) <==>
                if m.device != d then Shows(db.alerts, d, k)
                else m.status != Healthy && (Shows(db.alerts, d, k) || k == m.status)
      {
        TransitionShows(db.alerts, env, m, now, id, d, k);
      }
      hide Apply, Shows, UniqueOpen;
    }
  }

  /** The messages of a batch that were not rolled back. */
  function Accepted(ms: seq<Message>, raises: seq<bool>): (r: seq<Message>)
    requires |raises| == |ms|
  {
    if ms == [] then []
    else
      var n := |ms| - 1;
      Accepted(ms[..n], raises[..n]) + (if raises[n] then [] else [ms[n]])
  }

  ghost predicate Ready(db: Db, id: AlertId) {
    WellFormed(db) && forall i :: i in db.alerts ==> i < id
  }

  /** A batch moves each device's view through its accepted messages. */
  lemma {:induction false} BatchRunsView(db: Db, env: Envelope, ms: seq<Message>, raises: seq<bool>, now: Time, id: AlertId, d: DeviceId)
    requires |raises| == |ms| && Ready(db, id)
    ensures var db' := ApplyBatch(db, env, ms, raises, now, id);
            && Ready(db', id + |ms|)
            && ViewOf(db', d) == RunView(ViewOf(db, d), d, Accepted(ms, raises))
  {
    hide Apply, WellFormed, ViewOf, StepView;
    if ms != [] {
      var n := |ms| - 1;
      var before := ApplyBatch(db, env, ms[..n], raises[..n], now, id);
      BatchRunsView(db, env, ms[..n], raises[..n], now, id, d);
      if !raises[n] {
        ApplyKeepsWellFormed(before, env, ms[n], now, id + n);
        ApplyAddsAtMostOneAlert(before, env, ms[n], now, id + n);
        ApplyStepsView(before, env, ms[n], now, id + n, d);
        RunViewSnoc(ViewOf(db, d), d, Accepted(ms[..n], raises[..n]), ms[n]);
      } else {
        assert Accepted(ms, raises) == Accepted(ms[..n], raises[..n]);
      }
    }
  }

  lemma {:induction false} AcceptedAreMembers(ms: seq<Message>, raises: seq<bool>)
    requires |raises| == |ms|
    ensures forall m :: m in Accepted(ms, raises) ==> m in ms
    ensures (forall i :: 0 <= i < |ms| ==> !raises[i]) ==> Accepted(ms, raises) == ms
  {
    if ms != [] {
      var n := |ms| - 1;
      AcceptedAreMembers(ms[..n], raises[..n]);
      assert ms == ms[..n] + [ms[n]];
    }
  }

  // -------------------------------------------------------------- absorption

  predicate Mentions(ms: seq<Message>, d: DeviceId) {
    exists m :: m in ms && m.About(d)
  }

  predicate Clears(ms: seq<Message>, d: DeviceId) {
    exists m :: m in ms && m.About(d) && m.Transition? && m.status == Healthy
  }

  predicate Raises(ms: seq<Message>, d: DeviceId, k: Status) {
    exists m :: m in ms && m.About(d) && m.Transition? && m.status == k && k != Healthy
  }

  lemma SnocMembers(ms: seq<Message>)
    requires ms != []
    ensures forall m :: m in ms <==> m in ms[..|ms| - 1] || m == Last(ms)
  {
    assert ms == ms[..|ms| - 1] + [Last(ms)];
  }

  /** Messages about a device fix its status; a healthy transition fixes its open kinds; otherwise kinds add up. */
  lemma {:induction false} RunViewForm(v: View, w: View, d: DeviceId, ms: seq<Message>)
    ensures !Mentions(ms, d) ==> RunView(v, d, ms) == v
    ensures Mentions(ms, d) ==> RunView(v, d, ms).status == RunView(w, d, ms).status
    ensures Clears(ms, d) ==> RunView(v, d, ms).open == RunView(w, d, ms).open
    ensures !Clears(ms, d) ==> forall k :: k in RunView(v, d, ms).open <==> k in v.open || Raises(ms, d, k)
  {
    if ms != [] {
      RunViewForm(v, w, d, ms[..|ms| - 1]);
      SnocMembers(ms);
    }
  }

  /** Having already received any of a batch's messages, in any order and any number of times, changes nothing. */
  lemma BatchAbsorbsItsOwnMessages(v: View, d: DeviceId, early: seq<Message>, batch: seq<Message>)
    requires forall m :: m in early ==> m in batch
    ensures RunView(RunView(v, d, early), d, batch) == RunView(v, d, batch)
  {
    var w := RunView(v, d, early);
    RunViewForm(v, v, d, early);
    RunViewForm(w, v, d, batch);
    RunViewForm(v, w, d, batch);
    if !Clears(batch, d) {
      assert forall k :: k in RunView(w, d, batch).open <==> k in RunView(v, d, batch).open;
    }
  }
}
