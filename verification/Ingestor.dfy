/** The cloud's ingest and auto-fix as they run: statements over mutable tables, one transaction per message. */
module Ingestor {
  import opened Sequences
  import opened Messages
  import opened Cloud
  import opened CloudInvariants

  /** Why a message of a batch was not accepted: its position, and its device when it names one. */
  datatype Rejection = Rejection(index: nat, device: Option<DeviceId>)

  datatype FixReply = Refused(why: FixOutcome) | Accepted(alert: AlertId, at: Time)

  function DeviceOf(m: Message): Option<DeviceId> {
    if m.EdgeHealth? then None else Some(m.device)
  }

  /** The messages of a batch that raised, with their positions, in order. */
  function Rejections(ms: seq<Message>, raises: seq<bool>): (r: seq<Rejection>)
    requires |raises| == |ms|
    ensures |r| <= |ms|
    ensures forall n :: 0 <= n < |r| ==> r[n].index < |ms| && raises[r[n].index] && r[n].device == DeviceOf(ms[r[n].index])
    ensures forall a, b :: 0 <= a < b < |r| ==> r[a].index < r[b].index
    ensures forall i :: 0 <= i < |ms| && raises[i] ==> Rejection(i, DeviceOf(ms[i])) in r
  {
    if ms == [] then []
    else
      var n := |ms| - 1;
      Rejections(ms[..n], raises[..n]) + (if raises[n] then [Rejection(n, DeviceOf(ms[n]))] else [])
  }

  class Backend {
    var devices: map<DeviceId, DeviceRow>
    var alerts: map<AlertId, Alert>
    var outbox: seq<OutboxRow>
    var nextId: AlertId                      // stands for uuid4: every draw is a new value
    var replies: map<nat, FixReply>          // idempotency key -> cached reply

    ghost predicate Valid()
      reads this
    {
      && WellFormed(Tables())
      && LogMatchesTable(Tables())
      && forall i :: i in alerts ==> i < nextId
    }

    ghost function Tables(): Db
      reads this
    {
      Db(devices, alerts, outbox)
    }

    constructor ()
      ensures Valid() && Tables() == EMPTY && replies == map[]
    {
      devices, alerts, outbox, nextId, replies := map[], map[], [], 0, map[];
    }

    // ---------------------------------------------------------- statements

    method UpsertDevice(d: DeviceId, env: Envelope)
      modifies `devices
      ensures devices == old(devices)[d := Upsert(old(devices), d, env)]
    {
      if d !in devices {
        devices := devices[d := DeviceRow(env, Unknown, 0, None)];
      } else {
        assert devices[d := devices[d]] == devices;
      }
    }

    /** Returns the previous status when it differs. */
    method UpdateHealth(d: DeviceId, status: Status, score: int, now: Time) returns (prior: Option<Status>)
      requires d in devices
      modifies `devices
      ensures devices == old(devices)[d := old(devices)[d].(status := status, score := score, lastSeen := Some(now))]
      ensures prior == if old(devices)[d].status != status then Some(old(devices)[d].status) else None
    {
      var before := devices[d].status;
      devices := devices[d := devices[d].(status := status, score := score, lastSeen := Some(now))];
      prior := if before != status then Some(before) else None;
    }

    /** A scan for the open alert of this device and kind that was opened last. */
    method FindOpenForDevice(d: DeviceId, k: AlertKind) returns (found: Option<AlertId>)
      ensures found.Some? ==> IsLatestOpen(alerts, d, k, found.value)
      ensures found.None? ==> forall i :: i in alerts ==> !(alerts[i].OpenFor(d) && alerts[i].kind == k)
      ensures UniqueOpen(alerts) ==> found == FindOpen(alerts, d, k)
    {
      found := None;
      var todo := alerts.Keys;
      while todo != {}
        invariant todo <= alerts.Keys
        invariant found.Some? ==> found.value in alerts && alerts[found.value].OpenFor(d) && alerts[found.value].kind == k
        invariant forall i :: i in alerts && i !in todo && alerts[i].OpenFor(d) && alerts[i].kind == k ==>
                    found.Some? && alerts[i].openedAt <= alerts[found.value].openedAt
      {
        var i :| i in todo;
        if alerts[i].OpenFor(d) && alerts[i].kind == k && (found.None? || alerts[i].openedAt > alerts[found.value].openedAt) {
          found := Some(i);
        }
        todo := todo - {i};
      }
      if UniqueOpen(alerts) {
        FindOpenIsExact(alerts, d, k);
      }
    }

    /** Resolves the device's open alerts and returns their ids. */
    method ResolveAllForDevice(d: DeviceId, at: Time) returns (resolved: seq<AlertId>)
      modifies `alerts
      ensures resolved == Ascending(OpenIds(old(alerts), d))
      ensures alerts == ApplyAlertWrite(old(alerts), ResolveAll(OpenIds(old(alerts), d), at))
    {
      var ids := OpenIds(alerts, d);
      alerts := map i | i in alerts :: if i in ids then alerts[i].(state := Resolved, resolvedAt := Some(at)) else alerts[i];
      resolved := Ascending(ids);
    }

    method EnqueueEvent(property: nat, e: Event)
      modifies `outbox
      ensures outbox == old(outbox) + [OutboxRow(property, e)]
    {
      outbox := outbox + [OutboxRow(property, e)];
    }

    // ------------------------------------------------------------ handlers

    method HandlePeriodic(env: Envelope, m: Message, now: Time)
      requires m.Periodic?
      modifies `devices, `outbox
      ensures Tables() == Apply(old(Tables()), env, m, now, nextId)
    {
      UpsertDevice(m.device, env);
      var prior := UpdateHealth(m.device, m.status, m.score, now);
      if prior.Some? {
        EnqueueEvent(env.property, HealthChanged(m.device, prior.value, m.status));
      }
    }

    method HandleTransition(env: Envelope, m: Message, now: Time)
      requires m.Transition? && UniqueOpen(alerts)
      modifies `devices, `alerts, `outbox
      ensures Tables() == Apply(old(Tables()), env, m, now, nextId)
    {
      hide TransitionWrites, FindOpen, ApplyAlertWrite, UniqueOpen;
      UpsertDevice(m.device, env);
      var _ := UpdateHealth(m.device, m.status, m.score, now);
      if m.status == Healthy {
        CloseAlerts(env, m, now);
      } else {
        OpenOrRefresh(env, m, now);
      }
    }

    method CloseAlerts(env: Envelope, m: Message, now: Time)
      requires m.Transition? && m.status == Healthy
      modifies `alerts, `outbox
      ensures var (write, events) := TransitionWrites(old(alerts), env, m, now, nextId);
              alerts == ApplyAlertWrite(old(alerts), write) && outbox == old(outbox) + events
    {
      var resolved := ResolveAllForDevice(m.device, now);
      LogResolutions(resolved, old(alerts));
    }

    method LogResolutions(resolved: seq<AlertId>, ghost before: map<AlertId, Alert>)
      requires forall i :: i in resolved ==> i in alerts && i in before && alerts[i].home == before[i].home
      modifies `outbox
      ensures outbox == old(outbox) + ResolvedEvents(before, resolved)
    {
      for n := 0 to |resolved|
        invariant outbox == old(outbox) + ResolvedEvents(before, resolved)[..n]
      {
        var i := resolved[n];
        EnqueueEvent(alerts[i].home.property, AlertStateChanged(i, Opened, Resolved));
      }
    }

    method OpenOrRefresh(env: Envelope, m: Message, now: Time)
      requires m.Transition? && m.status != Healthy && UniqueOpen(alerts)
      modifies `alerts, `outbox
      ensures var (write, events) := TransitionWrites(old(alerts), env, m, now, nextId);
              alerts == ApplyAlertWrite(old(alerts), write) && outbox == old(outbox) + events
    {
      var k := HealthTransitionTo(m.status);
      FindOpenIsExact(alerts, m.device, k);
      var existing := FindOpenForDevice(m.device, k);
      if existing.Some? {
        var i := existing.value;
        alerts := alerts[i := alerts[i].(detail := Detail(m, alerts[i].openedAt))];
        EnqueueEvent(env.property, AlertUpdated(i));
      } else {
        var id, a := nextId, NewAlert(env, m, now);
        alerts := alerts[id := a];
        EnqueueEvent(env.property, AlertOpened(id, a.device, a.kind, a.severity, a.openedAt));
      }
    }

    method HandleOne(env: Envelope, m: Message, now: Time)
      requires Valid()
      modifies this
      ensures Valid() && replies == old(replies)
      ensures Tables() == Apply(old(Tables()), env, m, now, old(nextId)) && nextId == old(nextId) + 1
    {
      hide TransitionWrites, LogMatches;
      ApplyKeepsWellFormed(Tables(), env, m, now, nextId);
      ApplyKeepsLog(Tables(), env, m, now, nextId);
      ApplyAddsAtMostOneAlert(Tables(), env, m, now, nextId);
      match m {
        case EdgeHealth(_, _, _, depth) =>
          EnqueueEvent(env.property, EdgeHeartbeat(depth));
        case Periodic(_, _, _, _) =>
          HandlePeriodic(env, m, now);
        case Transition(_, _, _, _, _) =>
          HandleTransition(env, m, now);
      }
      nextId := nextId + 1;
    }

    /** One message in its own transaction; when something inside raises, its writes are rolled back. */
    method Transact(env: Envelope, m: Message, raises: bool, now: Time) returns (ok: bool)
      requires Valid()
      modifies this
      ensures Valid() && replies == old(replies) && nextId == old(nextId) + 1
      ensures ok == !raises
      ensures Tables() == if raises then old(Tables()) else Apply(old(Tables()), env, m, now, old(nextId))
    {
      hide Apply, WellFormed, LogMatchesTable;
      var savedDevices, savedAlerts, savedOutbox := devices, alerts, outbox;
      HandleOne(env, m, now);
      if raises {
        devices, alerts, outbox := savedDevices, savedAlerts, savedOutbox;
      }
      ok := !raises;
    }

    /** `raises[i]` says that something inside message i's transaction raised; the batch goes on without it. */
    method HandleBatch(env: Envelope, ms: seq<Message>, raises: seq<bool>, now: Time)
      returns (accepted: nat, rejected: seq<Rejection>)
      requires Valid() && |raises| == |ms|
      modifies this
      ensures Valid() && replies == old(replies)
      ensures Tables() == ApplyBatch(old(Tables()), env, ms, raises, now, old(nextId)) && nextId == old(nextId) + |ms|
      ensures accepted + |rejected| == |ms|
      ensures rejected == Rejections(ms, raises)
    {
      hide Apply, WellFormed, LogMatchesTable;
      accepted, rejected := 0, [];
      ghost var start := Tables();
      for i := 0 to |ms|
        invariant Valid() && replies == old(replies) && nextId == old(nextId) + i
        invariant Tables() == ApplyBatch(start, env, ms[..i], raises[..i], now, old(nextId))
        invariant accepted + |rejected| == i
        invariant rejected == Rejections(ms[..i], raises[..i])
      {
        assert ms[..i + 1][..i] == ms[..i] && raises[..i + 1][..i] == raises[..i];
        var ok := Transact(env, ms[i], raises[i], now);
        if ok {
          accepted := accepted + 1;
        } else {
          rejected := rejected + [Rejection(i, DeviceOf(ms[i]))];
        }
      }
      assert ms[..|ms|] == ms && raises[..|ms|] == raises;
    }

    /**
      One request, as one atomic step; a key that was answered once is answered from the cache. Nothing happens to
      an alert of another provider, a resolved one, or one that was not authorised.
     */
    method RequestAutoFix(provider: nat, id: AlertId, key: Option<nat>, confirm: bool, now: Time) returns (reply: FixReply)
      requires Valid()
      modifies `alerts, `outbox, `replies
      ensures Valid()
      ensures var foreign := id !in old(alerts) || old(alerts)[id].home.provider != provider;
              var asked := key.Some? && confirm && key.value !in old(replies);
              && (asked && foreign ==> reply == Refused(NotFound))
              && (asked && !foreign && old(alerts)[id].state == Resolved ==> reply == Refused(Conflict))
              && (asked && !foreign && old(alerts)[id].state != Resolved && !old(alerts)[id].autoFixAuthorized ==> reply == Refused(NotAuthorized))
              && (asked && !foreign && old(alerts)[id].state != Resolved && old(alerts)[id].autoFixAuthorized ==>
                    && reply == Accepted(id, now) && replies == old(replies)[key.value := reply]
                    && alerts == old(alerts)[id := old(alerts)[id].(state := Acting, actedAt := Some(now))]
                    && outbox == old(outbox) + [OutboxRow(old(alerts)[id].home.property, AutoFixDispatched(id))])
              && (!asked || foreign || old(alerts)[id].state == Resolved || !old(alerts)[id].autoFixAuthorized ==>
                    Tables() == old(Tables()) && replies == old(replies))
      ensures key.None? ==> reply == Refused(Invalid) && Tables() == old(Tables()) && replies == old(replies)
      ensures key.Some? && confirm && key.value in old(replies) ==>
                reply == old(replies)[key.value] && Tables() == old(Tables()) && replies == old(replies)
      ensures key.Some? && !(confirm && key.value in old(replies)) ==>
                var verdict := FixVerdict(old(alerts), provider, id, confirm);
                && Tables() == AutoFix(old(Tables()), provider, id, confirm, now)
                && reply == (if verdict == Dispatched then Accepted(id, now) else Refused(verdict))
                && replies == (if verdict == Dispatched then old(replies)[key.value := reply] else old(replies))
    {
      AutoFixKeepsInvariants(Tables(), provider, id, confirm, now);
      if key.None? || !confirm {
        return Refused(Invalid);
      }
      if key.value in replies {
        return replies[key.value];
      }
      if id !in alerts || alerts[id].home.provider != provider {
        return Refused(NotFound);
      }
      if alerts[id].state == Resolved {
        return Refused(Conflict);
      }
      if !alerts[id].autoFixAuthorized {
        return Refused(NotAuthorized);
      }
      alerts := alerts[id := alerts[id].(state := Acting, actedAt := Some(now))];
      EnqueueEvent(alerts[id].home.property, AutoFixDispatched(id));
      reply := Accepted(id, now);
      replies := replies[key.value := reply];
    }
  }
}
