/**
  Where each field of an alert comes from: over every run, the action that opened it, the last transition that
  refreshed it, the grant and the request behind an auto-fix, and the recovery that resolved it.
 */
module Provenance {
  import opened Sequences
  import opened Messages
  import opened Cloud
  import opened CloudInvariants

  /** Action `n` opened the alert: a transition to an unhealthy kind, at that time, for that device and property. */
  predicate OpenedBy(actions: seq<Action>, n: nat, i: AlertId, a: Alert) {
    && n < |actions| && actions[n].Ingest? && actions[n].id == i
    && actions[n].m.Transition? && actions[n].m.status != Healthy
    && a.home == actions[n].env && a.device == actions[n].m.device && a.kind == HealthTransitionTo(actions[n].m.status)
    && a.openedAt == actions[n].now
  }

  predicate IsRecovery(x: Action, d: DeviceId) {
    x.Ingest? && x.m.Transition? && x.m.device == d && x.m.status == Healthy
  }

  predicate IsRelapse(x: Action, d: DeviceId, k: AlertKind) {
    x.Ingest? && x.m.Transition? && x.m.device == d && x.m.status != Healthy && HealthTransitionTo(x.m.status) == k
  }

  /** Resolved by the first recovery of its device since, and open as long as there was none. */
  predicate ResolvedRightly(actions: seq<Action>, n: nat, a: Alert) {
    && (a.state == Resolved <==> a.resolvedAt.Some?)
    && (a.state != Resolved ==> forall r :: n < r < |actions| ==> !IsRecovery(actions[r], a.device))
    && (a.state == Resolved ==> exists r ::
          && n < r < |actions| && IsRecovery(actions[r], a.device) && a.resolvedAt == Some(actions[r].now)
          && forall q :: n < q < r ==> !IsRecovery(actions[q], a.device))
  }

  /** The detail is that of the last transition of its kind while it was open. */
  predicate RefreshedRightly(actions: seq<Action>, n: nat, a: Alert) {
    exists k ::
      && n <= k < |actions| && IsRelapse(actions[k], a.device, a.kind) && a.detail == Detail(actions[k].m, a.openedAt)
      && (a.state != Resolved ==> forall q :: k < q < |actions| ==> !IsRelapse(actions[q], a.device, a.kind))
  }

  predicate AuthorisedRightly(actions: seq<Action>, n: nat, i: AlertId, a: Alert) {
    a.autoFixAuthorized <==> exists g :: n < g < |actions| && actions[g] == Grant(i)
  }

  /** A request by the alert's own provider, confirmed, after a grant. */
  predicate FixedRightly(actions: seq<Action>, n: nat, i: AlertId, a: Alert) {
    a.actedAt.Some? ==> exists g, f ::
      n < g < f < |actions| && actions[g] == Grant(i) && actions[f] == Fix(a.home.provider, i, true, a.actedAt.value)
  }

  ghost predicate Grounded(actions: seq<Action>, n: nat, i: AlertId, a: Alert) {
    && OpenedBy(actions, n, i, a) && ResolvedRightly(actions, n, a) && RefreshedRightly(actions, n, a)
    && AuthorisedRightly(actions, n, i, a) && FixedRightly(actions, n, i, a)
  }

  // ------------------------------------------------------------------ a step

  /** What a step does to an alert that is there. */
  lemma StepOnAlert(db: Db, x: Action, i: AlertId)
    requires WellFormed(db) && Possible(db, x) && i in db.alerts
    ensures i in Do(db, x).alerts
    ensures var a, b := db.alerts[i], Do(db, x).alerts[i];
            b == if a.state != Resolved && IsRecovery(x, a.device) then a.(state := Resolved, resolvedAt := Some(x.now))
                 else if a.state != Resolved && IsRelapse(x, a.device, a.kind) then a.(detail := Detail(x.m, a.openedAt))
                 else if x == Grant(i) then a.(autoFixAuthorized := true)
                 else if x.Fix? && x == Fix(a.home.provider, i, true, x.at) && a.state != Resolved && a.autoFixAuthorized
                      then a.(state := Acting, actedAt := Some(x.at))
                 else a
  {
    if x.Ingest? && x.m.Transition? {
      FindOpenIsExact(db.alerts, x.m.device, HealthTransitionTo(x.m.status));
    }
  }

  /** An alert that is new was opened by the step, with nothing on it yet. */
  lemma StepOpensAlert(db: Db, x: Action, i: AlertId)
    requires i !in db.alerts && i in Do(db, x).alerts
    ensures x.Ingest? && x.id == i && x.m.Transition? && x.m.status != Healthy
    ensures Do(db, x).alerts[i] ==
            Alert(x.env, x.m.device, HealthTransitionTo(x.m.status), SeverityForTransition(x.m.status), Opened, x.now,
                  Detail(x.m, x.now), false, None, None)
  {
  }

  lemma LongerOpened(actions: seq<Action>, n: nat, i: AlertId, a: Alert, x: Action)
    requires OpenedBy(actions, n, i, a)
    ensures OpenedBy(actions + [x], n, i, a)
  {
  }

  lemma StepResolvesRightly(actions: seq<Action>, n: nat, a: Alert, x: Action, b: Alert)
    requires n < |actions| && ResolvedRightly(actions, n, a)
    requires b.device == a.device
    requires if a.state != Resolved && IsRecovery(x, a.device) then b.state == Resolved && b.resolvedAt == Some(x.now)
             else (b.state == Resolved <==> a.state == Resolved) && b.resolvedAt == a.resolvedAt
    ensures ResolvedRightly(actions + [x], n, b)
  {
    var longer := actions + [x];
    assert forall q :: 0 <= q < |actions| ==> longer[q] == actions[q];
    if a.state == Resolved {
      var r :| n < r < |actions| && IsRecovery(actions[r], a.device) && a.resolvedAt == Some(actions[r].now)
               && forall q :: n < q < r ==> !IsRecovery(actions[q], a.device);
      assert IsRecovery(longer[r], b.device);
    } else if IsRecovery(x, a.device) {
      assert IsRecovery(longer[|actions|], b.device);
    }
  }

  lemma StepRefreshesRightly(actions: seq<Action>, n: nat, a: Alert, x: Action, b: Alert)
    requires n < |actions| && RefreshedRightly(actions, n, a)
    requires b.device == a.device && b.kind == a.kind && b.openedAt == a.openedAt
    requires a.state == Resolved ==> b.state == Resolved
    requires b.detail == if a.state != Resolved && IsRelapse(x, a.device, a.kind) then Detail(x.m, a.openedAt) else a.detail
    ensures RefreshedRightly(actions + [x], n, b)
  {
    var longer := actions + [x];
    assert forall q :: 0 <= q < |actions| ==> longer[q] == actions[q];
    var k :| n <= k < |actions| && IsRelapse(actions[k], a.device, a.kind) && a.detail == Detail(actions[k].m, a.openedAt)
             && (a.state != Resolved ==> forall q :: k < q < |actions| ==> !IsRelapse(actions[q], a.device, a.kind));
    var k' := if a.state != Resolved && IsRelapse(x, a.device, a.kind) then |actions| else k;
    assert IsRelapse(longer[k'], b.device, b.kind);
  }

  lemma StepAuthorisesRightly(actions: seq<Action>, n: nat, i: AlertId, a: Alert, x: Action, b: Alert)
    requires n < |actions| && AuthorisedRightly(actions, n, i, a)
    requires b.autoFixAuthorized == (a.autoFixAuthorized || x == Grant(i))
    ensures AuthorisedRightly(actions + [x], n, i, b)
  {
    var longer := actions + [x];
    if a.autoFixAuthorized {
      var g :| n < g < |actions| && actions[g] == Grant(i);
      assert longer[g] == Grant(i);
    } else if x == Grant(i) {
      assert longer[|actions|] == Grant(i);
    } else if g :| n < g < |longer| && longer[g] == Grant(i) {
      assert actions[g] == Grant(i);
    }
  }

  lemma StepFixesRightly(actions: seq<Action>, n: nat, i: AlertId, a: Alert, x: Action, b: Alert)
    requires n < |actions| && AuthorisedRightly(actions, n, i, a) && FixedRightly(actions, n, i, a)
    requires b.home == a.home
    requires b.actedAt == a.actedAt || (a.autoFixAuthorized && x.Fix? && x == Fix(a.home.provider, i, true, x.at) && b.actedAt == Some(x.at))
    ensures FixedRightly(actions + [x], n, i, b)
  {
    var longer := actions + [x];
    if b.actedAt.Some? {
      if b.actedAt == a.actedAt {
        var g, f :| n < g < f < |actions| && actions[g] == Grant(i) && actions[f] == Fix(a.home.provider, i, true, a.actedAt.value);
        assert longer[g] == Grant(i) && longer[f] == actions[f];
      } else {
        var g :| n < g < |actions| && actions[g] == Grant(i);
        assert longer[g] == Grant(i) && longer[|actions|] == x;
      }
    }
  }

  lemma StepKeepsGround(actions: seq<Action>, n: nat, db: Db, x: Action, i: AlertId)
    requires WellFormed(db) && Possible(db, x) && i in db.alerts && Grounded(actions, n, i, db.alerts[i])
    ensures i in Do(db, x).alerts && Grounded(actions + [x], n, i, Do(db, x).alerts[i])
  {
    hide WellFormed, Do, Possible, ResolvedRightly, RefreshedRightly, AuthorisedRightly, FixedRightly, IsRecovery, IsRelapse;
    StepOnAlert(db, x, i);
    var a, b := db.alerts[i], Do(db, x).alerts[i];
    Exclusive(x, a.device, a.kind);
    LongerOpened(actions, n, i, a, x);
    StepResolvesRightly(actions, n, a, x, b);
    StepRefreshesRightly(actions, n, a, x, b);
    StepAuthorisesRightly(actions, n, i, a, x, b);
    StepFixesRightly(actions, n, i, a, x, b);
  }

  lemma Exclusive(x: Action, d: DeviceId, k: AlertKind)
    ensures !(IsRecovery(x, d) && IsRelapse(x, d, k))
    ensures IsRecovery(x, d) || IsRelapse(x, d, k) ==> x.Ingest?
  {
  }

  lemma NewIsGrounded(actions: seq<Action>, db: Db, x: Action, i: AlertId)
    requires i !in db.alerts && i in Do(db, x).alerts
    ensures Grounded(actions + [x], |actions|, i, Do(db, x).alerts[i])
  {
    StepOpensAlert(db, x, i);
    hide Do;
    assert (actions + [x])[|actions|] == x;
    assert IsRelapse((actions + [x])[|actions|], x.m.device, HealthTransitionTo(x.m.status));
  }

  // ------------------------------------------------------------ main results

  /** Over every run, every field of an alert has the source it should have. */
  lemma {:induction false} AlertsAreGrounded(actions: seq<Action>, i: AlertId) returns (n: nat)
    requires IsRun(actions) && i in Run(actions).alerts
    ensures Grounded(actions, n, i, Run(actions).alerts[i])
  {
    hide Do, Possible, Grounded;
    var front, x := actions[..|actions| - 1], Last(actions);
    assert actions == front + [x];
    assert IsRun(front) by { assert forall k :: 0 <= k < |front| ==> front[..k] == actions[..k]; }
    RunKeepsInvariants(front);
    var db := Run(front);
    if i in db.alerts {
      n := AlertsAreGrounded(front, i);
      StepKeepsGround(front, n, db, x, i);
    } else {
      n := |front|;
      NewIsGrounded(front, db, x, i);
    }
  }

  /** The outbox holds a dispatch for an alert exactly when the alert was acted on. */
  lemma {:induction false} DispatchIsActing(actions: seq<Action>, i: AlertId)
    requires IsRun(actions)
    ensures HadFix(Story(Run(actions).outbox, i)) <==> i in Run(actions).alerts && Run(actions).alerts[i].actedAt.Some?
  {
    hide Do, Possible, HadFix, Story;
    if actions == [] {
      EmptyStory(i);
    } else {
      var front, x := actions[..|actions| - 1], Last(actions);
      assert IsRun(front) by { assert forall k :: 0 <= k < |front| ==> front[..k] == actions[..k]; }
      DispatchIsActing(front, i);
      RunKeepsInvariants(front);
      StepLogsDispatch(Run(front), x, i);
    }
  }

  lemma EmptyStory(i: AlertId)
    ensures !HadFix(Story([], i))
  {
  }

  lemma {:induction false} StoryConcat(a: seq<OutboxRow>, b: seq<OutboxRow>, i: AlertId)
    ensures Story(a + b, i) == Story(a, i) + Story(b, i)
  {
    if b == [] {
      assert a + b == a;
    } else {
      StoryConcat(a, b[..|b| - 1], i);
      assert (a + b)[..|a + b| - 1] == a + b[..|b| - 1];
    }
  }

  lemma HadFixConcat(a: seq<Event>, b: seq<Event>)
    ensures HadFix(a + b) <==> HadFix(a) || HadFix(b)
  {
    if n :| 0 <= n < |a| && a[n].AutoFixDispatched? {
      assert (a + b)[n] == a[n];
    }
    if n :| 0 <= n < |b| && b[n].AutoFixDispatched? {
      assert (a + b)[|a| + n] == b[n];
    }
  }

  lemma {:induction false} NoDispatchNoFix(rows: seq<OutboxRow>, i: AlertId)
    requires forall n :: 0 <= n < |rows| ==> rows[n].event != AutoFixDispatched(i)
    ensures !HadFix(Story(rows, i))
  {
    if rows != [] {
      NoDispatchNoFix(rows[..|rows| - 1], i);
      OtherEventDispatchesNothing(rows, i);
    }
  }

  lemma OneDispatch(property: nat, i: AlertId)
    ensures HadFix(Story([OutboxRow(property, AutoFixDispatched(i))], i))
  {
    var rows := [OutboxRow(property, AutoFixDispatched(i))];
    assert rows[..0] == [];
    assert Story(rows, i)[0] == AutoFixDispatched(i);
  }

  /** A step logs a dispatch of this alert exactly when it acts on it. */
  lemma StepLogsDispatch(db: Db, x: Action, i: AlertId)
    requires WellFormed(db) && Possible(db, x)
    requires HadFix(Story(db.outbox, i)) <==> i in db.alerts && db.alerts[i].actedAt.Some?
    ensures var db' := Do(db, x);
            HadFix(Story(db'.outbox, i)) <==> i in db'.alerts && db'.alerts[i].actedAt.Some?
  {
    var rows := Logged(db, x);
    StoryConcat(db.outbox, rows, i);
    HadFixConcat(Story(db.outbox, i), Story(rows, i));
    if i in db.alerts {
      StepOnAlert(db, x, i);
    } else if i in Do(db, x).alerts {
      StepOpensAlert(db, x, i);
    }
    LoggedDispatch(db, x, i);
    hide HadFix, Story, WellFormed, Do;
  }

  /** The rows a step adds to the outbox. */
  ghost function Logged(db: Db, x: Action): (rows: seq<OutboxRow>)
    ensures Do(db, x).outbox == db.outbox + rows
  {
    match x
    case Ingest(env, m, now, id) => Effects(db, env, m, now, id).events
    case Fix(provider, id, confirm, at) =>
      if FixVerdict(db.alerts, provider, id, confirm) == Dispatched then [OutboxRow(db.alerts[id].home.property, AutoFixDispatched(id))] else []
    case Grant(_) => []
  }

  lemma LoggedDispatch(db: Db, x: Action, i: AlertId)
    ensures HadFix(Story(Logged(db, x), i)) <==>
            x.Fix? && x.target == i && FixVerdict(db.alerts, x.provider, i, x.confirm) == Dispatched
  {
    var rows := Logged(db, x);
    if x.Fix? && x.target == i && FixVerdict(db.alerts, x.provider, i, x.confirm) == Dispatched {
      OneDispatch(db.alerts[i].home.property, i);
    } else {
      NoDispatchNoFix(rows, i);
    }
  }

  /** No alert is ever dispatched for another provider than its own, nor without a grant before it. */
  lemma DispatchWasAllowed(actions: seq<Action>, i: AlertId)
    requires IsRun(actions) && HadFix(Story(Run(actions).outbox, i))
    ensures i in Run(actions).alerts
    ensures exists g, f ::
              && 0 <= g < f < |actions| && actions[g] == Grant(i)
              && actions[f].Fix? && actions[f].target == i && actions[f].confirm && actions[f].provider == Run(actions).alerts[i].home.provider
  {
    hide Run, IsRun, Story, HadFix;
    DispatchIsActing(actions, i);
    var n := AlertsAreGrounded(actions, i);
    var a := Run(actions).alerts[i];
    var g, f :| n < g < f < |actions| && actions[g] == Grant(i) && actions[f] == Fix(a.home.provider, i, true, a.actedAt.value);
  }

  // ---------------------------------------------------------------- devices

  predicate Reports(x: Action, d: DeviceId) {
    x.Ingest? && x.m.About(d)
  }

  /** Messages `first` and `last` are the first and the last about the device, and its row has the home and health they say. */
  predicate DeviceTold(actions: seq<Action>, d: DeviceId, row: DeviceRow, first: nat, last: nat) {
    && first <= last < |actions| && Reports(actions[first], d) && Reports(actions[last], d)
    && (forall q :: 0 <= q < first ==> !Reports(actions[q], d))
    && (forall q :: last < q < |actions| ==> !Reports(actions[q], d))
    && row == DeviceRow(actions[first].env, actions[last].m.status, actions[last].m.score, Some(actions[last].now))
  }

  predicate Reported(actions: seq<Action>, d: DeviceId) {
    exists q :: 0 <= q < |actions| && Reports(actions[q], d)
  }

  lemma ReportedSnoc(actions: seq<Action>, x: Action, d: DeviceId)
    ensures Reported(actions + [x], d) <==> Reported(actions, d) || Reports(x, d)
  {
    hide Reports;
    var longer := actions + [x];
    if q :| 0 <= q < |actions| && Reports(actions[q], d) {
      assert Reports(longer[q], d);
    }
    assert Reports(x, d) ==> Reports(longer[|actions|], d);
  }

  lemma StepOnDevice(db: Db, x: Action, d: DeviceId)
    ensures d in Do(db, x).devices <==> d in db.devices || Reports(x, d)
    ensures d in Do(db, x).devices ==>
              Do(db, x).devices[d] ==
              if !Reports(x, d) then db.devices[d]
              else DeviceRow(if d in db.devices then db.devices[d].home else x.env, x.m.status, x.m.score, Some(x.now))
  {
  }

  lemma UntouchedDevice(actions: seq<Action>, x: Action, d: DeviceId, row: DeviceRow, first: nat, last: nat)
    requires DeviceTold(actions, d, row, first, last) && !Reports(x, d)
    ensures DeviceTold(actions + [x], d, row, first, last)
  {
  }

  lemma ReportedAgain(actions: seq<Action>, x: Action, d: DeviceId, row: DeviceRow, first: nat, last: nat)
    requires DeviceTold(actions, d, row, first, last) && Reports(x, d)
    ensures DeviceTold(actions + [x], d, DeviceRow(row.home, x.m.status, x.m.score, Some(x.now)), first, |actions|)
  {
  }

  lemma FirstReported(actions: seq<Action>, x: Action, d: DeviceId)
    requires !Reported(actions, d) && Reports(x, d)
    ensures DeviceTold(actions + [x], d, DeviceRow(x.env, x.m.status, x.m.score, Some(x.now)), |actions|, |actions|)
  {
    assert forall q :: 0 <= q < |actions| ==> (actions + [x])[q] == actions[q];
  }

  lemma RunFront(actions: seq<Action>)
    requires IsRun(actions) && actions != []
    ensures IsRun(actions[..|actions| - 1]) && Run(actions) == Do(Run(actions[..|actions| - 1]), Last(actions))
    ensures Possible(Run(actions[..|actions| - 1]), Last(actions))
  {
    hide Do, Possible;
    var front := actions[..|actions| - 1];
    assert forall k :: 0 <= k < |front| ==> front[..k] == actions[..k];
  }

  /** Over every run a device is known once reported. */
  lemma {:induction false} KnownOnceReported(actions: seq<Action>, d: DeviceId)
    requires IsRun(actions)
    ensures d in Run(actions).devices <==> Reported(actions, d)
  {
    if actions != [] {
      hide Do, Possible, Reports, Reported, IsRun, Run;
      var front, x := actions[..|actions| - 1], Last(actions);
      assert actions == front + [x];
      RunFront(actions);
      KnownOnceReported(front, d);
      StepOnDevice(Run(front), x, d);
      ReportedSnoc(front, x, d);
    }
  }

  /** Its row has the property that first reported it, and the health last reported. */
  lemma {:induction false} DevicesAreGrounded(actions: seq<Action>, d: DeviceId) returns (first: nat, last: nat)
    requires IsRun(actions) && d in Run(actions).devices
    ensures DeviceTold(actions, d, Run(actions).devices[d], first, last)
  {
    hide Do, Possible, Reports, Reported, DeviceTold, IsRun;
    assert actions != [];
    var front, x := actions[..|actions| - 1], Last(actions);
    assert actions == front + [x];
    RunFront(actions);
    hide Run;
    var db := Run(front);
    StepOnDevice(db, x, d);
    if d in db.devices {
      first, last := DevicesAreGrounded(front, d);
      if Reports(x, d) {
        ReportedAgain(front, x, d, db.devices[d], first, last);
        last := |front|;
      } else {
        UntouchedDevice(front, x, d, db.devices[d], first, last);
      }
    } else {
      KnownOnceReported(front, d);
      FirstReported(front, x, d);
      first, last := |front|, |front|;
    }
  }

  /** A periodic message logs a change of health, from the status known before, exactly when there is one. */
  lemma PeriodicLogsChange(db: Db, env: Envelope, m: Message, now: Time, id: AlertId)
    requires m.Periodic?
    ensures var before := if m.device in db.devices then db.devices[m.device].status else Unknown;
            Logged(db, Ingest(env, m, now, id)) ==
            if before == m.status then [] else [OutboxRow(env.property, HealthChanged(m.device, before, m.status))]
  {
  }

  /** A heartbeat is logged with its queue depth, at the property the envelope names. */
  lemma HeartbeatIsLogged(db: Db, env: Envelope, m: Message, now: Time, id: AlertId)
    requires m.EdgeHealth?
    ensures Logged(db, Ingest(env, m, now, id)) == [OutboxRow(env.property, EdgeHeartbeat(m.depth))]
    ensures Do(db, Ingest(env, m, now, id)).alerts == db.alerts && Do(db, Ingest(env, m, now, id)).devices == db.devices
  {
    assert db.devices + map[] == db.devices;
  }

  /** A transition for the worse logs one event: an update of the open alert of its kind, or else an opening. */
  lemma RelapseIsLogged(db: Db, env: Envelope, m: Message, now: Time, id: AlertId)
    requires WellFormed(db) && m.Transition? && m.status != Healthy
    ensures var rows := Logged(db, Ingest(env, m, now, id));
            && |rows| == 1 && rows[0].property == env.property
            && (if i :| i in db.alerts && db.alerts[i].OpenFor(m.device) && db.alerts[i].kind == HealthTransitionTo(m.status)
                then rows[0].event == AlertUpdated(i)
                else rows[0].event.AlertOpened? && rows[0].event.id == id)
  {
    FindOpenIsExact(db.alerts, m.device, HealthTransitionTo(m.status));
  }

  /** A recovery logs one resolution for each alert that was open for the device, and nothing else. */
  lemma RecoveryIsLogged(db: Db, env: Envelope, m: Message, now: Time, id: AlertId, i: AlertId)
    requires m.Transition? && m.status == Healthy
    ensures var rows := Logged(db, Ingest(env, m, now, id));
            && (forall n :: 0 <= n < |rows| ==> rows[n].event.AlertStateChanged?)
            && (i in db.alerts && db.alerts[i].OpenFor(m.device) <==> exists n :: 0 <= n < |rows| && rows[n].event.id == i)
            && forall a, b :: 0 <= a < b < |rows| ==> rows[a].event.id != rows[b].event.id
  {
    var ids := Ascending(OpenIds(db.alerts, m.device));
    var rows := Logged(db, Ingest(env, m, now, id));
    assert forall n :: 0 <= n < |rows| ==> rows[n].event.id == ids[n];
    if i in db.alerts && db.alerts[i].OpenFor(m.device) {
      assert i in ids;
      var n :| 0 <= n < |ids| && ids[n] == i;
      assert rows[n].event.id == i;
    }
    if n :| 0 <= n < |rows| && rows[n].event.id == i {
      assert ids[n] in ids;
    }
  }

  // ------------------------------------------------------------- the outbox

  /** An event names an alert that is there, at that alert's property, and an opening says what was opened. */
  predicate RowRight(alerts: map<AlertId, Alert>, row: OutboxRow) {
    match row.event
    case AlertOpened(i, d, k, sev, at) =>
      && i in alerts && alerts[i].device == d && alerts[i].kind == k && alerts[i].severity == sev && alerts[i].openedAt == at
      && row.property == alerts[i].home.property
    case AlertUpdated(i) => i in alerts
    case AutoFixDispatched(i) => i in alerts && row.property == alerts[i].home.property
    case AlertStateChanged(i, _, _) => i in alerts && row.property == alerts[i].home.property
    case _ => true
  }

  lemma LaterRowsRight(db: Db, x: Action, row: OutboxRow)
    requires WellFormed(db) && Possible(db, x) && RowRight(db.alerts, row)
    ensures RowRight(Do(db, x).alerts, row)
  {
    if row.event.AlertOpened? || row.event.AlertUpdated? || row.event.AutoFixDispatched? || row.event.AlertStateChanged? {
      StepOnAlert(db, x, row.event.id);
    }
  }

  lemma NewRowsRight(db: Db, x: Action)
    requires WellFormed(db) && Possible(db, x)
    ensures forall n :: 0 <= n < |Logged(db, x)| ==> RowRight(Do(db, x).alerts, Logged(db, x)[n])
  {
    forall n | 0 <= n < |Logged(db, x)| ensures RowRight(Do(db, x).alerts, Logged(db, x)[n]) {
      if x.Ingest? && x.m.Transition? {
        FindOpenIsExact(db.alerts, x.m.device, HealthTransitionTo(x.m.status));
        if x.m.status == Healthy {
          var ids := Ascending(OpenIds(db.alerts, x.m.device));
          assert ids[n] in ids;
        }
      }
    }
  }

  ghost predicate RowsRight(db: Db) {
    forall n :: 0 <= n < |db.outbox| ==> RowRight(db.alerts, db.outbox[n])
  }

  lemma StepKeepsRowsRight(db: Db, x: Action)
    requires WellFormed(db) && Possible(db, x) && RowsRight(db)
    ensures RowsRight(Do(db, x))
  {
    hide WellFormed, Possible, Do, RowRight, Logged;
    NewRowsRight(db, x);
    var after := Do(db, x);
    assert after.outbox == db.outbox + Logged(db, x);
    forall n | 0 <= n < |after.outbox| ensures RowRight(after.alerts, after.outbox[n]) {
      if n < |db.outbox| {
        LaterRowsRight(db, x, db.outbox[n]);
      } else {
        assert after.outbox[n] == Logged(db, x)[n - |db.outbox|];
      }
    }
  }

  /** Over every run each event names its alert and its property rightly. */
  lemma {:induction false} OutboxRowsAreRight(actions: seq<Action>)
    requires IsRun(actions)
    ensures RowsRight(Run(actions))
  {
    if actions != [] {
      hide Do, Possible, RowsRight, WellFormed;
      var front, x := actions[..|actions| - 1], Last(actions);
      assert IsRun(front) by { assert forall k :: 0 <= k < |front| ==> front[..k] == actions[..k]; }
      OutboxRowsAreRight(front);
      RunKeepsInvariants(front);
      StepKeepsRowsRight(Run(front), x);
    } else {
      NothingLogged();
    }
  }

  lemma NothingLogged()
    ensures RowsRight(EMPTY)
  {
  }
}
