/**
  A cloud that serves many edge boxes: between the messages of one batch, and between batches, others may ingest,
  fix and authorise. None of that shows in the view of a device they do not report.
 */
module Sharing {
  import opened Sequences
  import opened Messages
  import opened Cloud
  import opened CloudInvariants
  import opened Views

  /** The tables, with an identifier above every alert's. */
  datatype Site = Site(db: Db, next: AlertId)

  const EMPTY_SITE := Site(EMPTY, 0)

  /** A step that reports nothing of the device. */
  predicate ForeignTo(a: Action, d: DeviceId) {
    a.Ingest? ==> !a.m.About(d)
  }

  ghost function Act(s: Site, a: Action): Site {
    Site(Do(s.db, a), if a.Ingest? && a.id >= s.next then a.id + 1 else s.next)
  }

  ghost function ActAll(s: Site, actions: seq<Action>): Site {
    if actions == [] then s else Act(ActAll(s, actions[..|actions| - 1]), Last(actions))
  }

  /** Every alert another ingest may open has an identifier of its own. */
  ghost predicate CanAct(s: Site, actions: seq<Action>) {
    actions == [] ||
    (CanAct(s, actions[..|actions| - 1]) && Possible(ActAll(s, actions[..|actions| - 1]).db, Last(actions)))
  }

  ghost function Take(s: Site, env: Envelope, m: Message, raises: bool, now: Time): Site {
    Site(if raises then s.db else Apply(s.db, env, m, now, s.next), s.next + 1)
  }

  /** A batch, with what others did before each of its messages and after the last. */
  ghost function SharedBatch(s: Site, env: Envelope, ms: seq<Message>, raises: seq<bool>, others: seq<seq<Action>>, now: Time): Site
    requires |raises| == |ms| && |others| == |ms| + 1
  {
    if ms == [] then ActAll(s, others[0])
    else
      var n := |ms| - 1;
      var before := SharedBatch(s, env, ms[..n], raises[..n], others[..n + 1], now);
      ActAll(Take(before, env, ms[n], raises[n], now), others[n + 1])
  }

  ghost predicate CanShare(s: Site, env: Envelope, ms: seq<Message>, raises: seq<bool>, others: seq<seq<Action>>, now: Time)
    requires |raises| == |ms| && |others| == |ms| + 1
  {
    if ms == [] then CanAct(s, others[0])
    else
      var n := |ms| - 1;
      var before := SharedBatch(s, env, ms[..n], raises[..n], others[..n + 1], now);
      CanShare(s, env, ms[..n], raises[..n], others[..n + 1], now) && CanAct(Take(before, env, ms[n], raises[n], now), others[n + 1])
  }

  predicate AllForeign(actions: seq<Action>, d: DeviceId) {
    forall n :: 0 <= n < |actions| ==> ForeignTo(actions[n], d)
  }

  // ------------------------------------------------------------------ facts

  lemma FixKeepsView(db: Db, provider: nat, id: AlertId, confirm: bool, at: Time, d: DeviceId)
    ensures ViewOf(AutoFix(db, provider, id, confirm, at), d) == ViewOf(db, d)
  {
    var after := AutoFix(db, provider, id, confirm, at);
    forall k: Status ensures Shows(after.alerts, d, k) <==> Shows(db.alerts, d, k) {
      SameOpenShows(db.alerts, after.alerts, d, k);
    }
  }

  lemma GrantKeepsView(db: Db, id: AlertId, d: DeviceId)
    ensures ViewOf(Authorize(db, id), d) == ViewOf(db, d)
  {
    forall k: Status ensures Shows(Authorize(db, id).alerts, d, k) <==> Shows(db.alerts, d, k) {
      SameOpenShows(db.alerts, Authorize(db, id).alerts, d, k);
    }
  }

  lemma SameOpenShows(a: map<AlertId, Alert>, b: map<AlertId, Alert>, d: DeviceId, k: Status)
    requires a.Keys == b.Keys
    requires forall i :: i in a ==> a[i].device == b[i].device && a[i].kind == b[i].kind && (a[i].Open() <==> b[i].Open())
    ensures Shows(a, d, k) <==> Shows(b, d, k)
  {
    if Shows(a, d, k) {
      var i :| i in a && a[i].OpenFor(d) && a[i].kind == HealthTransitionTo(k);
      assert i in b && b[i].OpenFor(d) && b[i].kind == HealthTransitionTo(k);
    }
    if Shows(b, d, k) {
      var i :| i in b && b[i].OpenFor(d) && b[i].kind == HealthTransitionTo(k);
      assert i in a && a[i].OpenFor(d) && a[i].kind == HealthTransitionTo(k);
    }
  }

  lemma FixAndGrantKeepWellFormed(db: Db, a: Action)
    requires WellFormed(db) && !a.Ingest?
    ensures WellFormed(Do(db, a)) && Do(db, a).alerts.Keys == db.alerts.Keys
  {
  }

  /** A step of another keeps the table sound, and a foreign one does not show in the device's view. */
  lemma ActKeepsView(s: Site, a: Action, d: DeviceId)
    requires Ready(s.db, s.next) && Possible(s.db, a)
    ensures Ready(Act(s, a).db, Act(s, a).next)
    ensures ForeignTo(a, d) ==> ViewOf(Act(s, a).db, d) == ViewOf(s.db, d)
  {
    hide WellFormed, ViewOf, Apply, AutoFix, Authorize;
    match a
    case Ingest(env, m, now, id) =>
      ApplyKeepsWellFormed(s.db, env, m, now, id);
      ApplyAddsAtMostOneAlert(s.db, env, m, now, id);
      ApplyStepsView(s.db, env, m, now, id, d);
    case Fix(provider, id, confirm, at) =>
      FixAndGrantKeepWellFormed(s.db, a);
      FixKeepsView(s.db, provider, id, confirm, at, d);
    case Grant(id) =>
      FixAndGrantKeepWellFormed(s.db, a);
      GrantKeepsView(s.db, id, d);
  }

  lemma {:induction false} ActAllKeepsView(s: Site, actions: seq<Action>, d: DeviceId)
    requires Ready(s.db, s.next) && CanAct(s, actions)
    ensures Ready(ActAll(s, actions).db, ActAll(s, actions).next)
    ensures AllForeign(actions, d) ==> ViewOf(ActAll(s, actions).db, d) == ViewOf(s.db, d)
  {
    hide Ready, ViewOf, Act, Possible, ForeignTo;
    if actions != [] {
      ActAllKeepsView(s, actions[..|actions| - 1], d);
      ActKeepsView(ActAll(s, actions[..|actions| - 1]), Last(actions), d);
    }
  }

  lemma TakeRunsView(s: Site, env: Envelope, m: Message, raises: bool, now: Time, d: DeviceId)
    requires Ready(s.db, s.next)
    ensures var after := Take(s, env, m, raises, now);
            && Ready(after.db, after.next)
            && ViewOf(after.db, d) == if raises then ViewOf(s.db, d) else StepView(ViewOf(s.db, d), d, m)
  {
    hide WellFormed, ViewOf, Apply, StepView;
    if !raises {
      ApplyKeepsWellFormed(s.db, env, m, now, s.next);
      ApplyAddsAtMostOneAlert(s.db, env, m, now, s.next);
      ApplyStepsView(s.db, env, m, now, s.next, d);
    }
  }

  /** However others interleave, a batch moves the view of a device they do not report through its accepted messages. */
  lemma {:induction false} SharedBatchRunsView(s: Site, env: Envelope, ms: seq<Message>, raises: seq<bool>, others: seq<seq<Action>>, now: Time, d: DeviceId)
    requires |raises| == |ms| && |others| == |ms| + 1
    requires Ready(s.db, s.next) && CanShare(s, env, ms, raises, others, now)
    ensures var after := SharedBatch(s, env, ms, raises, others, now);
            && Ready(after.db, after.next)
            && ((forall n :: 0 <= n < |others| ==> AllForeign(others[n], d)) ==>
                  ViewOf(after.db, d) == RunView(ViewOf(s.db, d), d, Accepted(ms, raises)))
  {
    hide Ready, ViewOf, StepView, Take, AllForeign, CanAct, ActAll;
    if ms == [] {
      ActAllKeepsView(s, others[0], d);
    } else {
      var n := |ms| - 1;
      var before := SharedBatch(s, env, ms[..n], raises[..n], others[..n + 1], now);
      SharedBatchRunsView(s, env, ms[..n], raises[..n], others[..n + 1], now, d);
      TakeRunsView(before, env, ms[n], raises[n], now, d);
      ActAllKeepsView(Take(before, env, ms[n], raises[n], now), others[n + 1], d);
      RunViewSnoc(ViewOf(s.db, d), d, Accepted(ms[..n], raises[..n]), ms[n]);
      assert raises[n] ==> Accepted(ms, raises) == Accepted(ms[..n], raises[..n]);
    }
  }

  /** With no one else about, it is the batch as the ingestor handles it. */
  lemma {:induction false} QuietBatchIsBatch(s: Site, env: Envelope, ms: seq<Message>, raises: seq<bool>, now: Time)
    requires |raises| == |ms|
    ensures var others := seq(|ms| + 1, i => []);
            SharedBatch(s, env, ms, raises, others, now) == Site(ApplyBatch(s.db, env, ms, raises, now, s.next), s.next + |ms|)
  {
    hide Apply;
    if ms != [] {
      var n := |ms| - 1;
      var others: seq<seq<Action>> := seq(|ms| + 1, i => []);
      QuietBatchIsBatch(s, env, ms[..n], raises[..n], now);
      assert others[..n + 1] == seq(n + 1, i => []);
    }
  }
}
