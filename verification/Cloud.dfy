/**
  The cloud's tables and what one ingested message, or one auto-fix request, does to them.
  A message's effect is computed as the set of writes its transaction makes (`Effects`) and
  then applied (`Commit`), so that the concurrent model can hold writes back until commit.
 */
module Cloud {
  import opened Sequences
  import opened Messages

  type AlertId = nat

  datatype Severity = P1 | P2 | P3 | P4

  datatype AlertState = Opened | Triaged | Acting | Resolved

  /** The label "health_transition_to_<status>". */
  datatype AlertKind = HealthTransitionTo(status: Status)

  /** Provider and property named by the envelope of a batch. */
  datatype Envelope = Envelope(provider: nat, property: nat)

  datatype DeviceRow = DeviceRow(home: Envelope, status: Status, score: int, lastSeen: Option<Time>)

  /** The materialised detail text is a function of these two. */
  datatype Detail = Detail(message: Message, openedAt: Time)

  datatype Alert = Alert(
    home: Envelope, device: DeviceId, kind: AlertKind, severity: Severity, state: AlertState,
    openedAt: Time, detail: Detail, autoFixAuthorized: bool,
    actedAt: Option<Time>, resolvedAt: Option<Time>)
  {
    predicate Open() {
      state != Resolved
    }

    predicate OpenFor(d: DeviceId) {
      device == d && Open()
    }
  }

  datatype Event =
    | EdgeHeartbeat(depth: nat)
    | HealthChanged(device: DeviceId, fromStatus: Status, toStatus: Status)
    | AlertOpened(id: AlertId, device: DeviceId, kind: AlertKind, severity: Severity, openedAt: Time)
    | AlertUpdated(id: AlertId)
    | AutoFixDispatched(id: AlertId)
    | AlertStateChanged(id: AlertId, fromState: AlertState, toState: AlertState)

  datatype OutboxRow = OutboxRow(property: nat, event: Event)

  datatype Db = Db(devices: map<DeviceId, DeviceRow>, alerts: map<AlertId, Alert>, outbox: seq<OutboxRow>)

  const EMPTY := Db(map[], map[], [])

  function SeverityForTransition(s: Status): Severity {
    match s
    case Unhealthy => P1
    case Degraded => P2
    case Healthy => P4
    case Unknown => P3
  }

  // ------------------------------------------------------------- devices

  /** Insert-or-keep: an existing row keeps its home and its health. */
  function Upsert(devices: map<DeviceId, DeviceRow>, d: DeviceId, env: Envelope): DeviceRow {
    if d in devices then devices[d] else DeviceRow(env, Unknown, 0, None)
  }

  // -------------------------------------------------------------- alerts

  function OpenIds(alerts: map<AlertId, Alert>, d: DeviceId): (ids: set<AlertId>)
    ensures ids <= alerts.Keys
  {
    set i | i in alerts && alerts[i].OpenFor(d)
  }

  /** The open alert of this device and kind that was opened last. */
  predicate IsLatestOpen(alerts: map<AlertId, Alert>, d: DeviceId, k: AlertKind, i: AlertId) {
    && i in alerts && alerts[i].OpenFor(d) && alerts[i].kind == k
    && forall j :: j in alerts && alerts[j].OpenFor(d) && alerts[j].kind == k ==> alerts[j].openedAt <= alerts[i].openedAt
  }

  ghost function FindOpen(alerts: map<AlertId, Alert>, d: DeviceId, k: AlertKind): Option<AlertId> {
    if i :| IsLatestOpen(alerts, d, k, i) then Some(i) else None
  }

  // ------------------------------------------------- one message's writes

  datatype AlertWrite =
    | Untouched
    | Create(id: AlertId, alert: Alert)
    | Refresh(target: AlertId, detail: Detail)
    | ResolveAll(ids: set<AlertId>, at: Time)

  datatype Writes = Writes(devices: map<DeviceId, DeviceRow>, alert: AlertWrite, events: seq<OutboxRow>)

  function ApplyAlertWrite(alerts: map<AlertId, Alert>, w: AlertWrite): map<AlertId, Alert> {
    match w
    case Untouched => alerts
    case Create(id, a) => alerts[id := a]
    case Refresh(i, detail) => if i in alerts then alerts[i := alerts[i].(detail := detail)] else alerts
    case ResolveAll(ids, at) =>
      map i | i in alerts :: if i in ids then alerts[i].(state := Resolved, resolvedAt := Some(at)) else alerts[i]
  }

  function Commit(db: Db, w: Writes): Db {
    Db(db.devices + w.devices, ApplyAlertWrite(db.alerts, w.alert), db.outbox + w.events)
  }

  function ResolvedEvents(alerts: map<AlertId, Alert>, ids: seq<AlertId>): (rows: seq<OutboxRow>)
    requires forall i :: i in ids ==> i in alerts
    ensures |rows| == |ids|
  {
    seq(|ids|, n requires 0 <= n < |ids| =>
      assert ids[n] in ids;
      OutboxRow(alerts[ids[n]].home.property, AlertStateChanged(ids[n], Opened, Resolved)))
  }

  function NewAlert(env: Envelope, m: Message, now: Time): Alert
    requires m.Transition?
  {
    Alert(env, m.device, HealthTransitionTo(m.status), SeverityForTransition(m.status), Opened,
          now, Detail(m, now), false, None, None)
  }

  function OpenedEvent(env: Envelope, id: AlertId, a: Alert): OutboxRow {
    OutboxRow(env.property, AlertOpened(id, a.device, a.kind, a.severity, a.openedAt))
  }

  /** The alert write and the events of a transition, given what its reads returned. */
  ghost function TransitionWrites(alerts: map<AlertId, Alert>, env: Envelope, m: Message, now: Time, id: AlertId)
    : (AlertWrite, seq<OutboxRow>)
    requires m.Transition?
  {
    if m.status == Healthy then
      var ids := OpenIds(alerts, m.device);
      (ResolveAll(ids, now), ResolvedEvents(alerts, Ascending(ids)))
    else
      match FindOpen(alerts, m.device, HealthTransitionTo(m.status))
      case Some(i) =>
        (Refresh(i, Detail(m, if i in alerts then alerts[i].openedAt else now)),
         [OutboxRow(env.property, AlertUpdated(i))])
      case None =>
        (Create(id, NewAlert(env, m, now)), [OpenedEvent(env, id, NewAlert(env, m, now))])
  }

  /** Everything one message writes; `id` is the identifier drawn for an alert it may open. */
  ghost function Effects(db: Db, env: Envelope, m: Message, now: Time, id: AlertId): Writes {
    match m
    case EdgeHealth(_, _, _, depth) =>
      Writes(map[], Untouched, [OutboxRow(env.property, EdgeHeartbeat(depth))])
    case Periodic(_, d, status, score) =>
      var row := Upsert(db.devices, d, env);
      Writes(map[d := row.(status := status, score := score, lastSeen := Some(now))], Untouched,
             if row.status != status then [OutboxRow(env.property, HealthChanged(d, row.status, status))] else [])
    case Transition(_, d, status, score, _) =>
      var row := Upsert(db.devices, d, env);
      var (write, events) := TransitionWrites(db.alerts, env, m, now, id);
      Writes(map[d := row.(status := status, score := score, lastSeen := Some(now))], write, events)
  }

  /** The whole transaction of one message. */
  ghost function Apply(db: Db, env: Envelope, m: Message, now: Time, id: AlertId): Db {
    Commit(db, Effects(db, env, m, now, id))
  }

  /** A batch: message i draws identifier `id + i` and is rolled back when `rejected[i]`. */
  ghost function ApplyBatch(db: Db, env: Envelope, ms: seq<Message>, rejected: seq<bool>, now: Time, id: AlertId): Db
    requires |rejected| == |ms|
  {
    if ms == [] then db
    else
      var n := |ms| - 1;
      var before := ApplyBatch(db, env, ms[..n], rejected[..n], now, id);
      if rejected[n] then before else Apply(before, env, ms[n], now, id + n)
  }

  // ------------------------------------------------------------ auto-fix

  datatype FixOutcome = Invalid | NotFound | Conflict | NotAuthorized | Dispatched

  /** What a first request with a key answers (a key already answered is served from the cache). */
  function FixVerdict(alerts: map<AlertId, Alert>, provider: nat, id: AlertId, confirm: bool): FixOutcome {
    if !confirm then Invalid
    else if id !in alerts || alerts[id].home.provider != provider then NotFound
    else if alerts[id].state == Resolved then Conflict
    else if !alerts[id].autoFixAuthorized then NotAuthorized
    else Dispatched
  }

  function AutoFix(db: Db, provider: nat, id: AlertId, confirm: bool, now: Time): Db {
    if FixVerdict(db.alerts, provider, id, confirm) != Dispatched then db
    else db.(alerts := db.alerts[id := db.alerts[id].(state := Acting, actedAt := Some(now))],
             outbox := db.outbox + [OutboxRow(db.alerts[id].home.property, AutoFixDispatched(id))])
  }

  /** The agent, outside this model, may authorise auto-fix on an alert. */
  function Authorize(db: Db, id: AlertId): Db {
    if id in db.alerts then db.(alerts := db.alerts[id := db.alerts[id].(autoFixAuthorized := true)]) else db
  }
}
