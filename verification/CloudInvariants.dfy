/** What every ingested message and every auto-fix keeps true of the tables and of the outbox. */
module CloudInvariants {
  import opened Sequences
  import opened Messages
  import opened Cloud

  // ------------------------------------------------------------- the alerts

  ghost predicate UniqueOpen(alerts: map<AlertId, Alert>) {
    forall i, j ::
      (i in alerts && j in alerts && alerts[i].Open() && alerts[j].OpenFor(alerts[i].device)
       && alerts[i].kind == alerts[j].kind) ==> i == j
  }

  ghost predicate SoundAlert(devices: map<DeviceId, DeviceRow>, a: Alert) {
    && a.severity == SeverityForTransition(a.kind.status)
    && a.kind.status != Healthy
    && a.device in devices
  }

  ghost predicate WellFormed(db: Db) {
    && UniqueOpen(db.alerts)
    && SoundAlerts(db.devices, db.alerts)
  }

  ghost predicate Fresh(alerts: map<AlertId, Alert>, id: AlertId) {
    id !in alerts
  }

  /** The lookup finds the open alert of that device and kind, and fails exactly when there is none. */
  lemma FindOpenIsExact(alerts: map<AlertId, Alert>, d: DeviceId, k: AlertKind)
    requires UniqueOpen(alerts)
    ensures forall i :: i in alerts && alerts[i].OpenFor(d) && alerts[i].kind == k ==> FindOpen(alerts, d, k) == Some(i)
    ensures FindOpen(alerts, d, k).Some? ==>
              var i := FindOpen(alerts, d, k).value;
              i in alerts && alerts[i].OpenFor(d) && alerts[i].kind == k
  {
    forall i | i in alerts && alerts[i].OpenFor(d) && alerts[i].kind == k
      ensures FindOpen(alerts, d, k) == Some(i)
    {
      assert IsLatestOpen(alerts, d, k, i);
    }
  }

  /** The only new row a message can add is the one it drew an identifier for. */
  lemma ApplyAddsAtMostOneAlert(db: Db, env: Envelope, m: Message, now: Time, id: AlertId)
    ensures db.alerts.Keys <= Apply(db, env, m, now, id).alerts.Keys <= db.alerts.Keys + {id}
  {
  }

  ghost predicate SoundAlerts(devices: map<DeviceId, DeviceRow>, alerts: map<AlertId, Alert>) {
    forall i :: i in alerts ==> SoundAlert(devices, alerts[i])
  }

  lemma WriteKeepsSound(devices: map<DeviceId, DeviceRow>, alerts: map<AlertId, Alert>, w: AlertWrite)
    requires UniqueOpen(alerts) && SoundAlerts(devices, alerts)
    requires w.Create? ==> SoundAlert(devices, w.alert) && FindOpen(alerts, w.alert.device, w.alert.kind) == None
    ensures UniqueOpen(ApplyAlertWrite(alerts, w)) && SoundAlerts(devices, ApplyAlertWrite(alerts, w))
  {
    if w.Create? {
      FindOpenIsExact(alerts, w.alert.device, w.alert.kind);
    }
  }

  lemma ApplyKeepsWellFormed(db: Db, env: Envelope, m: Message, now: Time, id: AlertId)
    requires WellFormed(db)
    ensures WellFormed(Apply(db, env, m, now, id))
  {
    var w := Effects(db, env, m, now, id);
    assert SoundAlerts(db.devices + w.devices, db.alerts);
    hide UniqueOpen, FindOpen;
    WriteKeepsSound(db.devices + w.devices, db.alerts, w.alert);
  }

  /** A healthy transition resolves every open alert of its device and touches no other device's. */
  lemma HealthyTransitionResolvesAll(db: Db, env: Envelope, m: Message, now: Time, id: AlertId)
    requires m.Transition? && m.status == Healthy
    ensures OpenIds(Apply(db, env, m, now, id).alerts, m.device) == {}
    ensures forall d :: d != m.device ==> OpenIds(Apply(db, env, m, now, id).alerts, d) == OpenIds(db.alerts, d)
  {
  }

  /** A device's health as a function of what arrived last; a periodic message never touches an alert. */
  lemma ApplySetsHealth(db: Db, env: Envelope, m: Message, now: Time, id: AlertId)
    ensures var db' := Apply(db, env, m, now, id);
            && (forall d :: m.About(d) ==> d in db'.devices && db'.devices[d].status == m.status)
            && (forall d :: !m.About(d) ==> (d in db'.devices <==> d in db.devices))
            && (forall d :: !m.About(d) && d in db.devices ==> db'.devices[d] == db.devices[d])
            && (!m.Transition? ==> db'.alerts == db.alerts)
  {
  }

  // ------------------------------------------------------------- the outbox

  /** What the outbox says about one alert. */
  datatype Summary = Summary(device: DeviceId, kind: AlertKind, severity: Severity, state: AlertState)

  function ReplayEvent(t: map<AlertId, Summary>, e: Event): map<AlertId, Summary> {
    match e
    case AlertOpened(id, d, k, sev, _) => t[id := Summary(d, k, sev, Opened)]
    case AutoFixDispatched(id) => if id in t then t[id := t[id].(state := Acting)] else t
    case AlertStateChanged(id, _, after) => if id in t then t[id := t[id].(state := after)] else t
    case _ => t
  }

  /** The alert table rebuilt from the outbox alone. */
  function Replay(log: seq<OutboxRow>): map<AlertId, Summary> {
    if log == [] then map[] else ReplayEvent(Replay(log[..|log| - 1]), Last(log).event)
  }

  function Summaries(alerts: map<AlertId, Alert>): map<AlertId, Summary> {
    map i | i in alerts :: Summary(alerts[i].device, alerts[i].kind, alerts[i].severity, alerts[i].state)
  }

  datatype Life = Unopened | Live | Closed | Broken

  /** opened, then any number of updated or auto_fix.dispatched, then at most one resolved. */
  function LifeStep(l: Life, e: Event, id: AlertId): Life {
    match e
    case AlertOpened(i, _, _, _, _) => if i != id then l else if l == Unopened then Live else Broken
    case AlertUpdated(i) => if i != id || l == Live then l else Broken
    case AutoFixDispatched(i) => if i != id || l == Live then l else Broken
    case AlertStateChanged(i, _, after) => if i != id then l else if l == Live && after == Resolved then Closed else Broken
    case _ => l
  }

  function LifeOf(log: seq<OutboxRow>, id: AlertId): Life {
    if log == [] then Unopened else LifeStep(LifeOf(log[..|log| - 1], id), Last(log).event, id)
  }

  ghost predicate LogMatches(alerts: map<AlertId, Alert>, outbox: seq<OutboxRow>) {
    && Replay(outbox) == Summaries(alerts)
    && forall i :: LifeOf(outbox, i) == if i !in alerts then Unopened else if alerts[i].Open() then Live else Closed
  }

  ghost predicate LogMatchesTable(db: Db) {
    LogMatches(db.alerts, db.outbox)
  }

  function Closing(t: map<AlertId, Summary>, ids: seq<AlertId>): map<AlertId, Summary> {
    map i | i in t :: if i in ids then t[i].(state := Resolved) else t[i]
  }

  lemma ReplaySnoc(log: seq<OutboxRow>, row: OutboxRow)
    ensures Replay(log + [row]) == ReplayEvent(Replay(log), row.event)
    ensures forall i :: LifeOf(log + [row], i) == LifeStep(LifeOf(log, i), row.event, i)
  {
    assert (log + [row])[..|log|] == log;
  }

  lemma ResolvedEventsSnoc(alerts: map<AlertId, Alert>, ids: seq<AlertId>)
    requires ids != [] && forall i :: i in ids ==> i in alerts
    ensures var front := ids[..|ids| - 1];
            && (forall i :: i in ids <==> i in front || i == Last(ids))
            && ResolvedEvents(alerts, ids) == ResolvedEvents(alerts, front) +
                 [OutboxRow(alerts[Last(ids)].home.property, AlertStateChanged(Last(ids), Opened, Resolved))]
  {
    var front := ids[..|ids| - 1];
    assert ids == front + [Last(ids)];
  }

  lemma ClosingSnoc(t: map<AlertId, Summary>, ids: seq<AlertId>)
    requires ids != [] && Last(ids) in t
    ensures var front := ids[..|ids| - 1];
            Closing(t, ids) == Closing(t, front)[Last(ids) := Closing(t, front)[Last(ids)].(state := Resolved)]
  {
    var front := ids[..|ids| - 1];
    assert ids == front + [Last(ids)];
  }

  /** Logging a resolution for each of `ids` rebuilds the table with exactly those resolved ... */
  lemma {:induction false} ReplayResolutions(log: seq<OutboxRow>, alerts: map<AlertId, Alert>, ids: seq<AlertId>)
    requires forall i :: i in ids ==> i in alerts && i in Replay(log)
    ensures Replay(log + ResolvedEvents(alerts, ids)) == Closing(Replay(log), ids)
  {
    if ids == [] {
      assert log + ResolvedEvents(alerts, ids) == log;
    } else {
      var front := ids[..|ids| - 1];
      ResolvedEventsSnoc(alerts, ids);
      ReplayResolutions(log, alerts, front);
      ClosingSnoc(Replay(log), ids);
      hide Closing, ResolvedEvents;
      var row := Last(ResolvedEvents(alerts, ids));
      assert log + ResolvedEvents(alerts, ids) == (log + ResolvedEvents(alerts, front)) + [row];
      ReplaySnoc(log + ResolvedEvents(alerts, front), row);
    }
  }

  /** ... and closes exactly those. */
  lemma {:induction false} LivesAfterResolutions(log: seq<OutboxRow>, alerts: map<AlertId, Alert>, ids: seq<AlertId>)
    requires forall i :: i in ids ==> i in alerts && LifeOf(log, i) == Live
    requires forall a, b :: 0 <= a < b < |ids| ==> ids[a] != ids[b]
    ensures forall i :: LifeOf(log + ResolvedEvents(alerts, ids), i) == if i in ids then Closed else LifeOf(log, i)
  {
    if ids == [] {
      assert log + ResolvedEvents(alerts, ids) == log;
    } else {
      var front := ids[..|ids| - 1];
      ResolvedEventsSnoc(alerts, ids);
      LivesAfterResolutions(log, alerts, front);
      hide ResolvedEvents;
      var row := Last(ResolvedEvents(alerts, ids));
      assert log + ResolvedEvents(alerts, ids) == (log + ResolvedEvents(alerts, front)) + [row];
      ReplaySnoc(log + ResolvedEvents(alerts, front), row);
    }
  }

  lemma ResolutionKeepsLog(alerts: map<AlertId, Alert>, outbox: seq<OutboxRow>, ids: set<AlertId>, order: seq<AlertId>, now: Time)
    requires LogMatches(alerts, outbox)
    requires forall i :: i in ids ==> i in alerts && alerts[i].Open()
    requires forall i :: i in order <==> i in ids
    requires forall a, b :: 0 <= a < b < |order| ==> order[a] != order[b]
    ensures LogMatches(ApplyAlertWrite(alerts, ResolveAll(ids, now)), outbox + ResolvedEvents(alerts, order))
  {
    ReplayResolutions(outbox, alerts, order);
    LivesAfterResolutions(outbox, alerts, order);
    assert Closing(Summaries(alerts), order) == Summaries(ApplyAlertWrite(alerts, ResolveAll(ids, now)));
  }

  lemma OneEventKeepsLog(alerts: map<AlertId, Alert>, outbox: seq<OutboxRow>, write: AlertWrite, row: OutboxRow)
    requires LogMatches(alerts, outbox)
    requires match write
             case Untouched => row.event.EdgeHeartbeat? || row.event.HealthChanged?
             case Create(id, a) => id !in alerts && a.state == Opened && row.event == AlertOpened(id, a.device, a.kind, a.severity, a.openedAt)
             case Refresh(i, _) => i in alerts && alerts[i].Open() && row.event == AlertUpdated(i)
             case ResolveAll(_, _) => false
    ensures LogMatches(ApplyAlertWrite(alerts, write), outbox + [row])
  {
    ReplaySnoc(outbox, row);
    assert ReplayEvent(Summaries(alerts), row.event) == Summaries(ApplyAlertWrite(alerts, write));
  }

  lemma HealthyTransitionKeepsLog(alerts: map<AlertId, Alert>, outbox: seq<OutboxRow>, d: DeviceId, now: Time)
    requires LogMatches(alerts, outbox)
    ensures var ids := OpenIds(alerts, d);
            LogMatches(ApplyAlertWrite(alerts, ResolveAll(ids, now)), outbox + ResolvedEvents(alerts, Ascending(ids)))
  {
    var ids := OpenIds(alerts, d);
    ResolutionKeepsLog(alerts, outbox, ids, Ascending(ids), now);
  }

  lemma UnhealthyTransitionKeepsLog(alerts: map<AlertId, Alert>, outbox: seq<OutboxRow>, env: Envelope, m: Message, now: Time, id: AlertId)
    requires m.Transition? && m.status != Healthy && UniqueOpen(alerts) && id !in alerts && LogMatches(alerts, outbox)
    ensures var (write, events) := TransitionWrites(alerts, env, m, now, id);
            LogMatches(ApplyAlertWrite(alerts, write), outbox + events)
  {
    var k := HealthTransitionTo(m.status);
    FindOpenIsExact(alerts, m.device, k);
    match FindOpen(alerts, m.device, k)
    case Some(i) =>
      OneEventKeepsLog(alerts, outbox, Refresh(i, Detail(m, alerts[i].openedAt)), OutboxRow(env.property, AlertUpdated(i)));
    case None =>
      var a := NewAlert(env, m, now);
      OneEventKeepsLog(alerts, outbox, Create(id, a), OpenedEvent(env, id, a));
  }

  lemma ApplyKeepsLog(db: Db, env: Envelope, m: Message, now: Time, id: AlertId)
    requires WellFormed(db) && Fresh(db.alerts, id) && LogMatchesTable(db)
    ensures LogMatchesTable(Apply(db, env, m, now, id))
  {
    if m.Transition? && m.status == Healthy {
      HealthyTransitionKeepsLog(db.alerts, db.outbox, m.device, now);
    } else if m.Transition? {
      UnhealthyTransitionKeepsLog(db.alerts, db.outbox, env, m, now, id);
    } else {
      var events := Effects(db, env, m, now, id).events;
      if events == [] {
        assert db.outbox + events == db.outbox;
      } else {
        assert events == [events[0]];
        OneEventKeepsLog(db.alerts, db.outbox, Untouched, events[0]);
      }
    }
  }

  lemma DispatchKeepsLog(alerts: map<AlertId, Alert>, outbox: seq<OutboxRow>, id: AlertId, now: Time)
    requires LogMatches(alerts, outbox) && id in alerts && alerts[id].Open()
    ensures LogMatches(alerts[id := alerts[id].(state := Acting, actedAt := Some(now))],
                       outbox + [OutboxRow(alerts[id].home.property, AutoFixDispatched(id))])
  {
    var alerts' := alerts[id := alerts[id].(state := Acting, actedAt := Some(now))];
    ReplaySnoc(outbox, OutboxRow(alerts[id].home.property, AutoFixDispatched(id)));
    assert ReplayEvent(Summaries(alerts), AutoFixDispatched(id)) == Summaries(alerts');
  }

  lemma AutoFixKeepsInvariants(db: Db, provider: nat, id: AlertId, confirm: bool, now: Time)
    requires WellFormed(db) && LogMatchesTable(db)
    ensures WellFormed(AutoFix(db, provider, id, confirm, now))
    ensures LogMatchesTable(AutoFix(db, provider, id, confirm, now))
  {
    hide LogMatches;
    if FixVerdict(db.alerts, provider, id, confirm) == Dispatched {
      DispatchKeepsLog(db.alerts, db.outbox, id, now);
    }
  }

  // ------------------------------------------------------------------- runs

  datatype Action =
    | Ingest(env: Envelope, m: Message, now: Time, id: AlertId)
    | Fix(provider: nat, target: AlertId, confirm: bool, at: Time)
    | Grant(target: AlertId)

  ghost function Do(db: Db, a: Action): Db {
    match a
    case Ingest(env, m, now, id) => Apply(db, env, m, now, id)
    case Fix(provider, id, confirm, at) => AutoFix(db, provider, id, confirm, at)
    case Grant(id) => Authorize(db, id)
  }

  ghost predicate Possible(db: Db, a: Action) {
    a.Ingest? ==> Fresh(db.alerts, a.id)
  }

  ghost function Run(actions: seq<Action>): Db {
    if actions == [] then EMPTY else Do(Run(actions[..|actions| - 1]), Last(actions))
  }

  ghost predicate IsRun(actions: seq<Action>) {
    forall n :: 0 <= n < |actions| ==> Possible(Run(actions[..n]), actions[n])
  }

  lemma RunSnoc(actions: seq<Action>, a: Action)
    requires IsRun(actions) && Possible(Run(actions), a)
    ensures IsRun(actions + [a]) && Run(actions + [a]) == Do(Run(actions), a)
  {
    hide Do, Possible;
    var longer := actions + [a];
    assert longer[..|actions|] == actions;
    assert forall n :: 0 <= n < |actions| ==> longer[..n] == actions[..n] && longer[n] == actions[n];
  }

  lemma DoKeepsInvariants(db: Db, a: Action)
    requires WellFormed(db) && LogMatchesTable(db) && Possible(db, a)
    ensures WellFormed(Do(db, a)) && LogMatchesTable(Do(db, a))
  {
    match a
    case Ingest(env, m, now, id) =>
      ApplyKeepsWellFormed(db, env, m, now, id);
      ApplyKeepsLog(db, env, m, now, id);
    case Fix(provider, id, confirm, at) =>
      AutoFixKeepsInvariants(db, provider, id, confirm, at);
    case Grant(id) =>
      assert Summaries(Do(db, a).alerts) == Summaries(db.alerts);
  }

  /** Over every run: one open alert per device and kind, mapped severities, and an outbox that tells the same story. */
  lemma {:induction false} RunKeepsInvariants(actions: seq<Action>)
    requires IsRun(actions)
    ensures WellFormed(Run(actions)) && LogMatchesTable(Run(actions))
  {
    if actions != [] {
      var front := actions[..|actions| - 1];
      assert forall n :: 0 <= n < |front| ==> front[..n] == actions[..n];
      RunKeepsInvariants(front);
      DoKeepsInvariants(Run(front), Last(actions));
    }
  }

  /** In every run an alert is P1 exactly when raised for unhealthy, P2 for degraded, P3 for unknown; none is P4. */
  lemma SeverityFollowsKind(actions: seq<Action>, i: AlertId)
    requires IsRun(actions) && i in Run(actions).alerts
    ensures var a := Run(actions).alerts[i];
            && (a.severity == P1 <==> a.kind == HealthTransitionTo(Unhealthy))
            && (a.severity == P2 <==> a.kind == HealthTransitionTo(Degraded))
            && (a.severity == P3 <==> a.kind == HealthTransitionTo(Unknown))
            && a.severity != P4
  {
    RunKeepsInvariants(actions);
    hide Run, IsRun;
  }

  lemma DoFreezesResolved(db: Db, a: Action, id: AlertId)
    requires WellFormed(db) && Possible(db, a)
    requires id in db.alerts && db.alerts[id].state == Resolved
    ensures id in Do(db, a).alerts
    ensures a != Grant(id) ==> Do(db, a).alerts[id] == db.alerts[id]
    ensures Do(db, a).alerts[id].state == Resolved
  {
    if a.Ingest? && a.m.Transition? {
      FindOpenIsExact(db.alerts, a.m.device, HealthTransitionTo(a.m.status));
    }
  }

  /** Resolved is terminal: ingest and auto-fix never change a resolved row again. */
  lemma {:induction false} ResolvedRowsAreFrozen(actions: seq<Action>, n: nat, id: AlertId)
    requires IsRun(actions) && n <= |actions|
    requires id in Run(actions[..n]).alerts && Run(actions[..n]).alerts[id].state == Resolved
    ensures id in Run(actions).alerts && Run(actions).alerts[id].state == Resolved
    ensures Grant(id) !in actions ==> Run(actions).alerts[id] == Run(actions[..n]).alerts[id]
  {
    if n == |actions| {
      assert actions[..n] == actions;
    } else {
      var front, a := actions[..|actions| - 1], Last(actions);
      assert forall k :: 0 <= k <= |front| ==> front[..k] == actions[..k];
      ResolvedRowsAreFrozen(front, n, id);
      RunKeepsInvariants(front);
      DoFreezesResolved(Run(front), a, id);
    }
  }

  /** The events of one alert, in outbox order. */
  function Story(log: seq<OutboxRow>, id: AlertId): seq<Event> {
    if log == [] then []
    else
      var e := Last(log).event;
      Story(log[..|log| - 1], id) +
      (match e
       case AlertOpened(i, _, _, _, _) => if i == id then [e] else []
       case AlertUpdated(i) => if i == id then [e] else []
       case AutoFixDispatched(i) => if i == id then [e] else []
       case AlertStateChanged(i, _, _) => if i == id then [e] else []
       case _ => [])
  }

  predicate Ongoing(story: seq<Event>) {
    && story != [] && story[0].AlertOpened?
    && forall n :: 0 < n < |story| ==> story[n].AlertUpdated? || story[n].AutoFixDispatched?
  }

  predicate Ended(story: seq<Event>) {
    && story != [] && Last(story).AlertStateChanged? && Last(story).toState == Resolved
    && Ongoing(story[..|story| - 1])
  }

  /** The life of an alert and the shape of its events are the same thing. */
  lemma {:induction false} LifeIsStoryShape(log: seq<OutboxRow>, id: AlertId)
    requires LifeOf(log, id) != Broken
    ensures LifeOf(log, id) == Unopened ==> Story(log, id) == []
    ensures LifeOf(log, id) == Live ==> Ongoing(Story(log, id))
    ensures LifeOf(log, id) == Closed ==> Ended(Story(log, id))
  {
    if log != [] {
      var front := log[..|log| - 1];
      LifeIsStoryShape(front, id);
      assert Story(log, id) == Story(front, id) || Story(log, id)[..|Story(log, id)| - 1] == Story(front, id);
    }
  }

  /** Per alert: one opened, then updates and dispatches, then at most one resolved, present iff the row is resolved. */
  lemma OutboxTellsEachAlertsStory(actions: seq<Action>, id: AlertId)
    requires IsRun(actions)
    ensures var db := Run(actions);
            if id !in db.alerts then Story(db.outbox, id) == []
            else if db.alerts[id].Open() then Ongoing(Story(db.outbox, id))
            else Ended(Story(db.outbox, id))
  {
    RunKeepsInvariants(actions);
    LifeIsStoryShape(Run(actions).outbox, id);
  }

  ghost predicate ShowsOpen(t: map<AlertId, Summary>, d: DeviceId, k: AlertKind, i: AlertId) {
    i in t && t[i].device == d && t[i].kind == k && t[i].state != Resolved
  }

  /** Replaying the outbox rebuilds the table, so it answers every "is this alert open?" lookup. */
  lemma ReplayRebuildsOpenAlerts(actions: seq<Action>, d: DeviceId, k: AlertKind)
    requires IsRun(actions)
    ensures Replay(Run(actions).outbox) == Summaries(Run(actions).alerts)
    ensures forall i: AlertId :: ShowsOpen(Replay(Run(actions).outbox), d, k, i) <==> FindOpen(Run(actions).alerts, d, k) == Some(i)
  {
    RunKeepsInvariants(actions);
    FindOpenIsExact(Run(actions).alerts, d, k);
  }

  predicate HadFix(story: seq<Event>) {
    exists n :: 0 <= n < |story| && story[n].AutoFixDispatched?
  }

  /** An open alert is acting exactly when an auto-fix was dispatched for it, and otherwise still as opened. */
  lemma {:induction false} ActingMeansDispatched(log: seq<OutboxRow>, id: AlertId)
    requires LifeOf(log, id) == Live
    ensures id in Replay(log)
    ensures Replay(log)[id].state == if HadFix(Story(log, id)) then Acting else Opened
  {
    var front, e := log[..|log| - 1], Last(log).event;
    if LifeOf(front, id) == Live {
      ActingMeansDispatched(front, id);
      if e == AutoFixDispatched(id) {
        assert Story(log, id)[|Story(front, id)|] == e;
      } else {
        assert HadFix(Story(front, id)) <==> HadFix(Story(log, id)) by { OtherEventDispatchesNothing(log, id); }
      }
    } else {
      LifeIsStoryShape(front, id);
      assert Story(log, id) == [e];
    }
  }

  lemma OtherEventDispatchesNothing(log: seq<OutboxRow>, id: AlertId)
    requires log != [] && Last(log).event != AutoFixDispatched(id)
    ensures HadFix(Story(log, id)) <==> HadFix(Story(log[..|log| - 1], id))
  {
    var before, after := Story(log[..|log| - 1], id), Story(log, id);
    if n :| 0 <= n < |before| && before[n].AutoFixDispatched? {
      assert after[n] == before[n];
    }
    if n :| 0 <= n < |after| && after[n].AutoFixDispatched? {
      assert before[n] == after[n];
    }
  }

  /**
    The resolution logged by a healthy transition always says it came from "opened". That is the alert's true
    prior state exactly when no auto-fix was ever dispatched for it.
   */
  lemma ResolutionNamesPriorStateUnlessDispatched(actions: seq<Action>, env: Envelope, m: Message, now: Time, id: AlertId, n: nat)
    requires IsRun(actions) && m.Transition? && m.status == Healthy
    requires n < |Effects(Run(actions), env, m, now, id).events|
    ensures var db := Run(actions);
            var e := Effects(db, env, m, now, id).events[n].event;
            && e.AlertStateChanged? && e.id in db.alerts && e.toState == Resolved
            && (e.fromState == db.alerts[e.id].state <==> !HadFix(Story(db.outbox, e.id)))
  {
    RunKeepsInvariants(actions);
    hide Run, IsRun, Replay, Story, LifeOf, WellFormed, HadFix;
    var db := Run(actions);
    var ids := Ascending(OpenIds(db.alerts, m.device));
    var i := ids[n];
    assert i in ids;
    ActingMeansDispatched(db.outbox, i);
    assert Replay(db.outbox)[i] == Summaries(db.alerts)[i];
  }

  const RAISE: Action := Ingest(Envelope(0, 0), Transition(1.0, 0, Unhealthy, 0, Reported), 1.0, 0)
  const FIX: Action := Fix(0, 0, true, 2.0)

  /** A run in which it is wrong: the alert is acting when the healthy transition comes. */
  lemma FixedRunReachesActing()
    ensures IsRun([RAISE, Grant(0), FIX])
    ensures var alerts := Run([RAISE, Grant(0), FIX]).alerts;
            alerts.Keys == {0} && alerts[0].OpenFor(0) && alerts[0].state == Acting && alerts[0].home == Envelope(0, 0)
  {
    FindOpenIsExact(EMPTY.alerts, 0, HealthTransitionTo(Unhealthy));
    RunSnoc([], RAISE);
    assert [] + [RAISE] == [RAISE];
    var raised := Run([RAISE]);
    assert raised.alerts == map[0 := NewAlert(Envelope(0, 0), RAISE.m, 1.0)];
    RunSnoc([RAISE], Grant(0));
    assert [RAISE] + [Grant(0)] == [RAISE, Grant(0)];
    RunSnoc([RAISE, Grant(0)], FIX);
    assert [RAISE, Grant(0)] + [FIX] == [RAISE, Grant(0), FIX];
  }

  /** The healthy transition that follows logs "opened" as the prior state of an alert that is acting. */
  lemma ResolutionCanNameAWrongPriorState(env: Envelope, now: Time, id: AlertId)
    ensures var db, m := Run([RAISE, Grant(0), FIX]), Transition(now, 0, Healthy, 100, Reported);
            && IsRun([RAISE, Grant(0), FIX])
            && Effects(db, env, m, now, id).events == [OutboxRow(0, AlertStateChanged(0, Opened, Resolved))]
            && 0 in db.alerts && db.alerts[0].state == Acting
  {
    FixedRunReachesActing();
    hide Run, IsRun;
    assert OpenIds(Run([RAISE, Grant(0), FIX]).alerts, 0) == {0};
    AscendingOne(0);
  }

  lemma AscendingOne(x: nat)
    ensures Ascending({x}) == [x]
  {
    var r := Ascending({x});
    assert x in r;
    forall i | 0 <= i < |r| ensures r[i] == x {
      assert r[i] in r;
    }
  }
}
