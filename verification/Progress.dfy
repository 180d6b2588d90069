/**
  Ingest transactions do not only stay correct, they get on: each has a next statement, only another holder of its
  device's row can make it wait, that holder never waits itself, and undisturbed a transaction has its effects.
 */
module Progress {
  import opened Sequences
  import opened Messages
  import opened Cloud
  import opened CloudInvariants
  import opened Interleaving

  /** The statement a transaction executes next. */
  function NextStep(t: TxnId, x: Txn): Step {
    match x.stage
    case Started => if x.m.EdgeHealth? then Beat(t) else LockDevice(t)
    case Locked(_) => WriteHealth(t)
    case HealthWritten(_) => if x.m.Transition? && x.m.status == Healthy then ResolveOpen(t) else LookUp(t)
    case Looked(_, _, _) => WriteAlert(t)
    case Finished(_) => CommitTxn(t)
  }

  /** Waiting for the row lock of its device. */
  predicate Waits(s: System, t: TxnId)
    requires t in s.txns
  {
    var x := s.txns[t];
    x.stage.Started? && !x.m.EdgeHealth? && exists u :: u in s.txns && s.txns[u].Holds(x.m.device)
  }

  /** A transaction waits exactly when it cannot go on, and whoever it waits for does not wait. */
  lemma OnlyHoldersMakeWait(s: System, t: TxnId)
    requires Interleaving.Inv(s) && t in s.txns
    ensures Enabled(s, NextStep(t, s.txns[t])) <==> !Waits(s, t)
    ensures Waits(s, t) ==> exists u :: u in s.txns && s.txns[u].Holds(s.txns[t].m.device) && Enabled(s, NextStep(u, s.txns[u]))
  {
    assert UpToDate(s.db, s.txns[t]);
    if Waits(s, t) {
      var u :| u in s.txns && s.txns[u].Holds(s.txns[t].m.device);
      assert UpToDate(s.db, s.txns[u]);
      assert Enabled(s, NextStep(u, s.txns[u]));
    }
  }

  /** No deadlock: in every reachable state some transaction, if there is any, can go on. */
  lemma NoDeadlock(steps: seq<Step>)
    requires IsExecution(steps) && Exec(steps).txns != map[]
    ensures exists t :: t in Exec(steps).txns && Enabled(Exec(steps), NextStep(t, Exec(steps).txns[t]))
  {
    ExecutionsAreSerialisable(steps);
    var s := Exec(steps);
    var t :| t in s.txns;
    OnlyHoldersMakeWait(s, t);
  }

  /** Beginning, giving up, auto-fix and authorisation never wait for anyone. */
  lemma OthersNeverWait(s: System, t: TxnId, env: Envelope, m: Message, now: Time, provider: nat, id: AlertId, confirm: bool)
    ensures t !in s.txns ==> Enabled(s, Begin(t, env, m, now))
    ensures t in s.txns ==> Enabled(s, AbortTxn(t)) && Interleaving.Take(s, AbortTxn(t)) == s.(txns := s.txns - {t})
    ensures Enabled(s, FixStep(provider, id, confirm, now)) && Enabled(s, GrantStep(id))
    ensures Interleaving.Take(s, FixStep(provider, id, confirm, now)) == s.(db := AutoFix(s.db, provider, id, confirm, now))
    ensures Interleaving.Take(s, GrantStep(id)) == s.(db := Authorize(s.db, id))
  {
  }

  function StepsLeft(x: Txn): nat {
    match x.stage
    case Started => 5
    case Locked(_) => 4
    case HealthWritten(_) => 3
    case Looked(_, _, _) => 2
    case Finished(_) => 1
  }

  /** Every statement brings its transaction closer to its end, and commit ends it. */
  lemma EachStepAdvances(s: System, t: TxnId)
    requires Interleaving.Inv(s) && t in s.txns && Enabled(s, NextStep(t, s.txns[t]))
    ensures var s' := Interleaving.Take(s, NextStep(t, s.txns[t]));
            if s.txns[t].stage.Finished? then t !in s'.txns else t in s'.txns && StepsLeft(s'.txns[t]) < StepsLeft(s.txns[t])
  {
    assert UpToDate(s.db, s.txns[t]);
  }

  /** Running one transaction on until it has committed. */
  ghost function RunOut(s: System, t: TxnId, fuel: nat): System
    decreases fuel
  {
    if fuel == 0 || t !in s.txns || !Enabled(s, NextStep(t, s.txns[t])) then s
    else RunOut(Interleaving.Take(s, NextStep(t, s.txns[t])), t, fuel - 1)
  }

  /** A transaction that does not wait, run on alone, commits its message's effects and leaves the others as they are. */
  lemma {:induction false} RunOutCommits(s: System, t: TxnId, fuel: nat)
    requires Interleaving.Inv(s) && t in s.txns && !Waits(s, t) && fuel >= StepsLeft(s.txns[t])
    ensures var x := s.txns[t];
            RunOut(s, t, fuel) == s.(db := Apply(s.db, x.env, x.m, x.now, x.id), txns := s.txns - {t})
    decreases fuel
  {
    hide Interleaving.Inv, Interleaving.Take, Enabled, NextStep, Waits, Apply, StepsLeft;
    var x := s.txns[t];
    var step := NextStep(t, x);
    OnlyHoldersMakeWait(s, t);
    EachStepAdvances(s, t);
    StepRefines(s, step);
    var s' := Interleaving.Take(s, step);
    StepsRemain(x);
    if x.stage.Finished? {
      CommitEnds(s, t);
    } else {
      OwnStep(s, t);
      RunOutCommits(s', t, fuel - 1);
      assert s'.txns - {t} == s.txns - {t};
    }
  }

  lemma StepsRemain(x: Txn)
    ensures StepsLeft(x) > 0
  {
  }

  lemma CommitEnds(s: System, t: TxnId)
    requires Interleaving.Inv(s) && t in s.txns && s.txns[t].stage.Finished?
    ensures var x := s.txns[t];
            && Enabled(s, NextStep(t, x))
            && Interleaving.Take(s, NextStep(t, x)) == s.(db := Apply(s.db, x.env, x.m, x.now, x.id), txns := s.txns - {t})
  {
    hide Effects;
    assert UpToDate(s.db, s.txns[t]);
  }

  lemma OwnStep(s: System, t: TxnId)
    requires Interleaving.Inv(s) && t in s.txns && Enabled(s, NextStep(t, s.txns[t])) && !s.txns[t].stage.Finished?
    ensures var s' := Interleaving.Take(s, NextStep(t, s.txns[t]));
            && t in s'.txns && s'.db == s.db && s'.nextId == s.nextId && s'.txns == s.txns[t := s'.txns[t]]
            && s'.txns[t] == s.txns[t].(stage := s'.txns[t].stage)
            && !s'.txns[t].stage.Started? && !Waits(s', t)
  {
    assert UpToDate(s.db, s.txns[t]);
  }

  /** Any message can be ingested whenever nobody holds its device: begun and run on, its effects are committed. */
  lemma FreeMessageIsIngested(steps: seq<Step>, t: TxnId, env: Envelope, m: Message, now: Time)
    requires IsExecution(steps) && t !in Exec(steps).txns && (m.EdgeHealth? || Free(Exec(steps), m.device))
    ensures var s := Exec(steps);
            var begun := Interleaving.Take(s, Begin(t, env, m, now));
            RunOut(begun, t, 5) == s.(db := Apply(s.db, env, m, now, s.nextId), nextId := s.nextId + 1)
  {
    ExecutionsAreSerialisable(steps);
    var s := Exec(steps);
    hide Exec, IsExecution, Apply, Interleaving.Inv, RunOut;
    StepRefines(s, Begin(t, env, m, now));
    BegunIsReady(s, t, env, m, now);
    RunOutCommits(Interleaving.Take(s, Begin(t, env, m, now)), t, 5);
  }

  lemma BegunIsReady(s: System, t: TxnId, env: Envelope, m: Message, now: Time)
    requires t !in s.txns && (m.EdgeHealth? || Free(s, m.device))
    ensures var begun := Interleaving.Take(s, Begin(t, env, m, now));
            && t in begun.txns && begun.txns[t] == Txn(env, m, now, s.nextId, Started)
            && begun.txns - {t} == s.txns && begun.db == s.db && begun.nextId == s.nextId + 1
            && !Waits(begun, t) && StepsLeft(begun.txns[t]) == 5
  {
  }
}
