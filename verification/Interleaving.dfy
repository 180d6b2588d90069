/**
  Ingest transactions running at the same time, one statement at a time. Reads see committed data;
  a transaction's own writes stay private until it commits. The only exclusion is the row lock that the
  device upsert, the first statement, takes and keeps to the end.
 */
module Interleaving {
  import opened Sequences
  import opened Messages
  import opened Cloud
  import opened CloudInvariants

  type TxnId = nat

  datatype Stage =
    | Started
    | Locked(row: DeviceRow)
    | HealthWritten(row: DeviceRow)
    | Looked(row: DeviceRow, found: Option<AlertId>, openedAt: Time)
    | Finished(writes: Writes)

  datatype Txn = Txn(env: Envelope, m: Message, now: Time, id: AlertId, stage: Stage) {
    /** The row lock of device d is held from the upsert on. */
    predicate Holds(d: DeviceId) {
      m.About(d) && !stage.Started?
    }
  }

  datatype System = System(db: Db, txns: map<TxnId, Txn>, nextId: AlertId)

  datatype Step =
    | Begin(t: TxnId, env: Envelope, m: Message, now: Time)
    | Beat(t: TxnId)
    | LockDevice(t: TxnId)
    | WriteHealth(t: TxnId)
    | LookUp(t: TxnId)
    | WriteAlert(t: TxnId)
    | ResolveOpen(t: TxnId)
    | CommitTxn(t: TxnId)
    | AbortTxn(t: TxnId)
    | FixStep(provider: nat, target: AlertId, confirm: bool, at: Time)
    | GrantStep(target: AlertId)

  const INITIAL := System(EMPTY, map[], 0)

  predicate Free(s: System, d: DeviceId) {
    forall u :: u in s.txns ==> !s.txns[u].Holds(d)
  }

  predicate Enabled(s: System, step: Step) {
    match step
    case Begin(t, _, _, _) => t !in s.txns
    case Beat(t) => t in s.txns && s.txns[t].stage.Started? && s.txns[t].m.EdgeHealth?
    case LockDevice(t) => t in s.txns && s.txns[t].stage.Started? && !s.txns[t].m.EdgeHealth? && Free(s, s.txns[t].m.device)
    case WriteHealth(t) => t in s.txns && s.txns[t].stage.Locked? && !s.txns[t].m.EdgeHealth?
    case LookUp(t) => t in s.txns && s.txns[t].stage.HealthWritten? && s.txns[t].m.Transition? && s.txns[t].m.status != Healthy
    case WriteAlert(t) => t in s.txns && s.txns[t].stage.Looked? && s.txns[t].m.Transition? && s.txns[t].m.status != Healthy
    case ResolveOpen(t) => t in s.txns && s.txns[t].stage.HealthWritten? && s.txns[t].m.Transition? && s.txns[t].m.status == Healthy
    case CommitTxn(t) => t in s.txns && s.txns[t].stage.Finished?
    case AbortTxn(t) => t in s.txns
    case FixStep(_, _, _, _) => true
    case GrantStep(_) => true
  }

  function WithHealth(row: DeviceRow, x: Txn): DeviceRow
    requires !x.m.EdgeHealth?
  {
    row.(status := x.m.status, score := x.m.score, lastSeen := Some(x.now))
  }

  /** The statement's effect on the transaction's private state; reads go to the committed tables `db`. */
  ghost function Advance(db: Db, x: Txn, step: Step): Stage
    requires (step.LockDevice? || step.WriteHealth?) ==> !x.m.EdgeHealth?
    requires step.WriteHealth? ==> x.stage.Locked?
    requires step.LookUp? ==> x.stage.HealthWritten? && x.m.Transition?
    requires step.WriteAlert? ==> x.stage.Looked? && x.m.Transition?
    requires step.ResolveOpen? ==> x.stage.HealthWritten? && x.m.Transition?
  {
    match step
    case Beat(_) => Finished(Effects(EMPTY, x.env, x.m, x.now, x.id))
    case LockDevice(_) => Locked(Upsert(db.devices, x.m.device, x.env))
    case WriteHealth(_) =>
      var row := WithHealth(x.stage.row, x);
      if x.m.Transition? then HealthWritten(row)
      else
        Finished(Writes(map[x.m.device := row], Untouched,
                        if x.stage.row.status != x.m.status
                        then [OutboxRow(x.env.property, HealthChanged(x.m.device, x.stage.row.status, x.m.status))]
                        else []))
    case LookUp(_) =>
      var found := FindOpen(db.alerts, x.m.device, HealthTransitionTo(x.m.status));
      Looked(x.stage.row, found,
             if found.Some? && found.value in db.alerts then db.alerts[found.value].openedAt else x.now)
    case WriteAlert(_) =>
      (match x.stage.found
       case Some(i) =>
         Finished(Writes(map[x.m.device := x.stage.row], Refresh(i, Detail(x.m, x.stage.openedAt)),
                         [OutboxRow(x.env.property, AlertUpdated(i))]))
       case None =>
         var a := NewAlert(x.env, x.m, x.now);
         Finished(Writes(map[x.m.device := x.stage.row], Create(x.id, a), [OpenedEvent(x.env, x.id, a)])))
    case ResolveOpen(_) =>
      var ids := OpenIds(db.alerts, x.m.device);
      Finished(Writes(map[x.m.device := x.stage.row], ResolveAll(ids, x.now), ResolvedEvents(db.alerts, Ascending(ids))))
    case _ => x.stage
  }

  ghost function Take(s: System, step: Step): System
    requires Enabled(s, step)
  {
    match step
    case Begin(t, env, m, now) =>
      s.(txns := s.txns[t := Txn(env, m, now, s.nextId, Started)], nextId := s.nextId + 1)
    case CommitTxn(t) => s.(db := Commit(s.db, s.txns[t].stage.writes), txns := s.txns - {t})
    case AbortTxn(t) => s.(txns := s.txns - {t})
    case FixStep(provider, id, confirm, at) => s.(db := AutoFix(s.db, provider, id, confirm, at))
    case GrantStep(id) => s.(db := Authorize(s.db, id))
    case _ => s.(txns := s.txns[step.t := s.txns[step.t].(stage := Advance(s.db, s.txns[step.t], step))])
  }

  // -------------------------------------------------------------- invariant

  /** What a transaction has read and computed is still what it would read and compute now. */
  ghost predicate UpToDate(db: Db, x: Txn) {
    match x.stage
    case Started => true
    case Locked(row) => !x.m.EdgeHealth? && row == Upsert(db.devices, x.m.device, x.env)
    case HealthWritten(row) => x.m.Transition? && row == WithHealth(Upsert(db.devices, x.m.device, x.env), x)
    case Looked(row, found, openedAt) =>
      && x.m.Transition? && x.m.status != Healthy
      && row == WithHealth(Upsert(db.devices, x.m.device, x.env), x)
      && found == FindOpen(db.alerts, x.m.device, HealthTransitionTo(x.m.status))
      && (found.Some? ==> found.value in db.alerts && openedAt == db.alerts[found.value].openedAt)
    case Finished(w) => w == Effects(db, x.env, x.m, x.now, x.id)
  }

  ghost predicate Exclusive(txns: map<TxnId, Txn>) {
    && (forall t, u, d :: t in txns && u in txns && t != u && txns[t].Holds(d) ==> !txns[u].Holds(d))
    && (forall t, u :: t in txns && u in txns && t != u ==> txns[t].id != txns[u].id)
  }

  ghost predicate Inv(s: System) {
    && WellFormed(s.db) && LogMatchesTable(s.db)
    && Exclusive(s.txns)
    && (forall i :: i in s.db.alerts ==> i < s.nextId)
    && (forall t :: t in s.txns ==> UpToDate(s.db, s.txns[t]) && s.txns[t].id < s.nextId && s.txns[t].id !in s.db.alerts)
  }

  /** Nothing about device d's row or its open alerts, as a transaction on d reads them, differs. */
  ghost predicate SameFor(db: Db, db': Db, d: DeviceId) {
    && (d in db.devices <==> d in db'.devices)
    && (d in db.devices ==> db.devices[d] == db'.devices[d])
    && OpenIds(db.alerts, d) == OpenIds(db'.alerts, d)
    && forall i :: i in OpenIds(db.alerts, d) ==>
                     && db.alerts[i].kind == db'.alerts[i].kind
                     && db.alerts[i].home == db'.alerts[i].home
                     && db.alerts[i].openedAt == db'.alerts[i].openedAt
  }

  lemma SameForGivesSameLookup(db: Db, db': Db, d: DeviceId, k: AlertKind)
    requires UniqueOpen(db.alerts) && UniqueOpen(db'.alerts) && SameFor(db, db', d)
    ensures FindOpen(db.alerts, d, k) == FindOpen(db'.alerts, d, k)
    ensures FindOpen(db.alerts, d, k).Some? ==> FindOpen(db.alerts, d, k).value in OpenIds(db.alerts, d)
  {
    FindOpenIsExact(db.alerts, d, k);
    FindOpenIsExact(db'.alerts, d, k);
    assert FindOpen(db.alerts, d, k).Some? ==> FindOpen(db.alerts, d, k).value in OpenIds(db'.alerts, d);
    assert FindOpen(db'.alerts, d, k).Some? ==> FindOpen(db'.alerts, d, k).value in OpenIds(db.alerts, d);
  }

  lemma SameForKeepsUpToDate(db: Db, db': Db, x: Txn)
    requires UniqueOpen(db.alerts) && UniqueOpen(db'.alerts)
    requires !x.m.EdgeHealth? && !x.stage.Started? ==> SameFor(db, db', x.m.device)
    requires UpToDate(db, x)
    ensures UpToDate(db', x)
  {
    if x.m.Transition? && !x.stage.Started? {
      SameForGivesSameLookup(db, db', x.m.device, HealthTransitionTo(x.m.status));
      var order := Ascending(OpenIds(db.alerts, x.m.device));
      assert ResolvedEvents(db.alerts, order) == ResolvedEvents(db'.alerts, order);
    }
  }

  lemma ApplyIsInvisibleToOthers(db: Db, env: Envelope, m: Message, now: Time, id: AlertId, d: DeviceId)
    requires UniqueOpen(db.alerts) && Fresh(db.alerts, id) && !m.About(d)
    ensures SameFor(db, Apply(db, env, m, now, id), d)
  {
    if m.Transition? {
      FindOpenIsExact(db.alerts, m.device, HealthTransitionTo(m.status));
    }
  }

  lemma PrivateStepKeepsUpToDate(s: System, step: Step)
    requires Inv(s) && Enabled(s, step)
    requires step.Beat? || step.LockDevice? || step.WriteHealth? || step.LookUp? || step.WriteAlert? || step.ResolveOpen?
    ensures UpToDate(s.db, s.txns[step.t].(stage := Advance(s.db, s.txns[step.t], step)))
  {
    var x := s.txns[step.t];
    if x.m.Transition? {
      FindOpenIsExact(s.db.alerts, x.m.device, HealthTransitionTo(x.m.status));
    }
  }

  /** The serial action a step performs on the committed tables, if any. */
  function Shadow(s: System, step: Step): seq<Action>
    requires Enabled(s, step)
  {
    match step
    case CommitTxn(t) => [Ingest(s.txns[t].env, s.txns[t].m, s.txns[t].now, s.txns[t].id)]
    case FixStep(provider, id, confirm, at) => [Fix(provider, id, confirm, at)]
    case GrantStep(id) => [Grant(id)]
    case _ => []
  }

  predicate Shared(step: Step) {
    step.CommitTxn? || step.FixStep? || step.GrantStep?
  }

  /** On the committed tables a step does what its serial action does, or nothing. */
  lemma StepActsSerially(s: System, step: Step)
    requires Inv(s) && Enabled(s, step)
    ensures var acts := Shadow(s, step);
            && (acts != [] <==> Shared(step))
            && (if acts == [] then Take(s, step).db == s.db
                else Possible(s.db, acts[0]) && Take(s, step).db == Do(s.db, acts[0]))
  {
    hide Effects, LogMatches, UniqueOpen, SoundAlerts, Exclusive, ApplyAlertWrite;
    if step.CommitTxn? {
      assert UpToDate(s.db, s.txns[step.t]);
    }
  }

  lemma OthersStayUpToDate(s: System, step: Step, t: TxnId)
    requires Inv(s) && Enabled(s, step) && t in Take(s, step).txns && Shared(step)
    ensures UpToDate(Take(s, step).db, s.txns[t])
  {
    hide UpToDate, Effects, LogMatches, SoundAlerts, Commit, ApplyAlertWrite, UniqueOpen;
    var x := s.txns[t];
    var a := Shadow(s, step)[0];
    StepActsSerially(s, step);
    DoKeepsInvariants(s.db, a);
    if !x.m.EdgeHealth? && !x.stage.Started? {
      assert x.Holds(x.m.device);
      if step.CommitTxn? {
        var c := s.txns[step.t];
        assert !c.Holds(x.m.device);
        assert !c.m.About(x.m.device) by { assert UpToDate(s.db, c) && !c.stage.Started?; }
        ApplyIsInvisibleToOthers(s.db, c.env, c.m, c.now, c.id, x.m.device);
      } else {
        FixIsInvisible(s.db, a, x.m.device);
      }
    }
    SameForKeepsUpToDate(s.db, Do(s.db, a), x);
  }

  lemma FixIsInvisible(db: Db, a: Action, d: DeviceId)
    requires !a.Ingest?
    ensures SameFor(db, Do(db, a), d)
  {
  }

  lemma SharedStepKeepsInv(s: System, step: Step)
    requires Inv(s) && Enabled(s, step) && Shared(step)
    ensures Inv(Take(s, step))
  {
    hide UpToDate, Effects, LogMatches, SoundAlerts, Commit, ApplyAlertWrite, UniqueOpen, WellFormed, LogMatchesTable, Apply, AutoFix;
    var s', a := Take(s, step), Shadow(s, step)[0];
    StepActsSerially(s, step);
    DoKeepsInvariants(s.db, a);
    forall t | t in s'.txns
      ensures UpToDate(s'.db, s.txns[t])
    {
      OthersStayUpToDate(s, step, t);
    }
    DoAddsAtMostItsOwnAlert(s.db, a);
  }

  lemma DoAddsAtMostItsOwnAlert(db: Db, a: Action)
    ensures Do(db, a).alerts.Keys <= db.alerts.Keys + (if a.Ingest? then {a.id} else {})
  {
    if a.Ingest? {
      ApplyAddsAtMostOneAlert(db, a.env, a.m, a.now, a.id);
    }
  }

  lemma PrivateStepKeepsInv(s: System, step: Step)
    requires Inv(s) && Enabled(s, step) && !Shared(step)
    ensures Inv(Take(s, step))
  {
    hide UpToDate, Effects, LogMatches, SoundAlerts, UniqueOpen, WellFormed, LogMatchesTable, Advance;
    if step.Begin? {
      assert UpToDate(s.db, Take(s, step).txns[step.t]) by { FreshTxnIsUpToDate(s.db, step.env, step.m, step.now, s.nextId); }
    } else if !step.AbortTxn? {
      PrivateStepKeepsUpToDate(s, step);
      AdvanceKeepsOrTakesLock(s, step);
    }
  }

  lemma FreshTxnIsUpToDate(db: Db, env: Envelope, m: Message, now: Time, id: AlertId)
    ensures UpToDate(db, Txn(env, m, now, id, Started))
  {
  }

  lemma AdvanceKeepsOrTakesLock(s: System, step: Step)
    requires Enabled(s, step) && !Shared(step) && !step.Begin? && !step.AbortTxn?
    ensures forall d :: s.txns[step.t].m.About(d) && !s.txns[step.t].Holds(d) ==> step.LockDevice? && Free(s, d)
  {
  }

  /** Every step keeps the invariant, and acts on the committed tables exactly as its serial action would. */
  lemma StepRefines(s: System, step: Step)
    requires Inv(s) && Enabled(s, step)
    ensures Inv(Take(s, step))
    ensures var acts := Shadow(s, step);
            if acts == [] then Take(s, step).db == s.db
            else Possible(s.db, acts[0]) && Take(s, step).db == Do(s.db, acts[0])
  {
    hide Inv, Take, Do, Possible, Shadow;
    StepActsSerially(s, step);
    if Shared(step) {
      SharedStepKeepsInv(s, step);
    } else {
      PrivateStepKeepsInv(s, step);
    }
  }

  // ------------------------------------------------------------- executions

  ghost predicate IsExecution(steps: seq<Step>)
    decreases |steps|, 1
  {
    steps == [] || (IsExecution(steps[..|steps| - 1]) && Enabled(Exec(steps[..|steps| - 1]), Last(steps)))
  }

  ghost function Exec(steps: seq<Step>): System
    requires IsExecution(steps)
    decreases |steps|, 2
  {
    if steps == [] then INITIAL else Take(Exec(steps[..|steps| - 1]), Last(steps))
  }

  /** The transactions in commit order, with the auto-fix steps between them. */
  ghost function CommitOrder(steps: seq<Step>): seq<Action>
    requires IsExecution(steps)
  {
    if steps == [] then []
    else CommitOrder(steps[..|steps| - 1]) + Shadow(Exec(steps[..|steps| - 1]), Last(steps))
  }

  /** Serialisability: every interleaving leaves the tables as the transactions, run alone in commit order, would. */
  lemma {:induction false} ExecutionsAreSerialisable(steps: seq<Step>)
    requires IsExecution(steps)
    ensures Inv(Exec(steps))
    ensures IsRun(CommitOrder(steps)) && Exec(steps).db == Run(CommitOrder(steps))
  {
    hide Inv, Take, Do, Possible, Enabled, IsRun, Run, Shadow;
    if steps == [] {
      InitialHolds();
    } else {
      var front, step := steps[..|steps| - 1], Last(steps);
      ExecutionsAreSerialisable(front);
      StepRefines(Exec(front), step);
      var acts := Shadow(Exec(front), step);
      if acts == [] {
        assert CommitOrder(steps) == CommitOrder(front);
      } else {
        assert acts == [acts[0]] by { ShadowIsShort(Exec(front), step); }
        RunSnoc(CommitOrder(front), acts[0]);
      }
    }
  }

  lemma InitialHolds()
    ensures Inv(INITIAL) && IsRun([]) && Run([]) == EMPTY == INITIAL.db
  {
  }

  lemma ShadowIsShort(s: System, step: Step)
    requires Enabled(s, step)
    ensures |Shadow(s, step)| <= 1
  {
  }

  /** In every interleaving: one open alert per device and kind, with the severity its kind maps to. */
  lemma OneOpenAlertPerKind(steps: seq<Step>, i: AlertId, j: AlertId)
    requires IsExecution(steps)
    requires var alerts := Exec(steps).db.alerts;
             i in alerts && j in alerts && alerts[i].Open() && alerts[j].Open()
             && alerts[i].device == alerts[j].device && alerts[i].kind == alerts[j].kind
    ensures i == j
    ensures var a := Exec(steps).db.alerts[i];
            && (a.severity == P1 <==> a.kind == HealthTransitionTo(Unhealthy))
            && (a.severity == P2 <==> a.kind == HealthTransitionTo(Degraded))
            && (a.severity == P3 <==> a.kind == HealthTransitionTo(Unknown))
  {
    ExecutionsAreSerialisable(steps);
  }

  /** The moment a healthy transition commits, whatever ran beside it, its device has no open alert. */
  lemma HealthyCommitLeavesNoneOpen(steps: seq<Step>)
    requires IsExecution(steps) && steps != [] && Last(steps).CommitTxn?
    requires var x := Exec(steps[..|steps| - 1]).txns[Last(steps).t]; x.m.Transition? && x.m.status == Healthy
    ensures OpenIds(Exec(steps).db.alerts, Exec(steps[..|steps| - 1]).txns[Last(steps).t].m.device) == {}
  {
    var before := Exec(steps[..|steps| - 1]);
    var x := before.txns[Last(steps).t];
    ExecutionsAreSerialisable(steps[..|steps| - 1]);
    hide Inv, Effects, Commit, OpenIds, Apply, IsRun, Run;
    StepRefines(before, Last(steps));
    assert Shadow(before, Last(steps)) == [Ingest(x.env, x.m, x.now, x.id)];
    HealthyTransitionResolvesAll(before.db, x.env, x.m, x.now, x.id);
  }
}
