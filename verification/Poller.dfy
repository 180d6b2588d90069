/**
  One poll of the platform: record every device's status, queue a periodic message for each and a transition
  for each change, flag devices that have been missing for too long, and finish with a heartbeat.
 */
module Poller {
  import opened Sequences
  import opened Messages
  import opened Queue

  datatype StoreRow = StoreRow(status: Status, score: int, firstSeen: Time, lastSeen: Time, lastChange: Time)

  /** The state table; `order` is the order rows were first inserted in, which a plain SELECT follows. */
  datatype Store = Store(order: seq<DeviceId>, rows: map<DeviceId, StoreRow>)

  const EMPTY_STORE := Store([], map[])

  datatype Gone = Gone(device: DeviceId, status: Status, lastSeen: Time)

  /** A device's assessed record, with the clock reading at which it is stored. */
  datatype Observation = Observation(device: DeviceId, status: Status, score: int, at: Time)

  /** A poll's inputs: `None` is an API record without a usable id. `grace` is 2.5 poll intervals. */
  datatype Report = Report(now: Time, grace: Time, devices: seq<Option<Observation>>, platform: Option<Observation>, sweptAt: Time, queuedAt: Time)

  /** One call of `record`, with its clock reading: by the device's own report, or by the sweep for missing devices. */
  datatype Rec = Rec(device: DeviceId, status: Status, score: int, at: Time, swept: bool)

  datatype Progress = Progress(store: Store, messages: seq<Message>, records: seq<Rec>, seen: set<DeviceId>,
                               transitions: nat, unhealthy: nat)

  // ------------------------------------------------------------ state store

  ghost predicate ValidStore(st: Store) {
    && (forall d :: d in st.order <==> d in st.rows)
    && (forall a, b :: 0 <= a < b < |st.order| ==> st.order[a] != st.order[b])
  }

  function Previous(st: Store, d: DeviceId): Option<Status> {
    if d in st.rows then Some(st.rows[d].status) else None
  }

  function Record(st: Store, d: DeviceId, status: Status, score: int, now: Time): Store {
    if d !in st.rows then
      Store(st.order + [d], st.rows[d := StoreRow(status, score, now, now, now)])
    else
      var old' := st.rows[d];
      st.(rows := st.rows[d := StoreRow(status, score, old'.firstSeen, now, if old'.status != status then now else old'.lastChange)])
  }

  function NotSeenSince(st: Store, order: seq<DeviceId>, cutoff: Time): seq<Gone>
    requires forall d :: d in order ==> d in st.rows
  {
    if order == [] then []
    else
      var d := Last(order);
      var front := order[..|order| - 1];
      assert forall x :: x in front ==> x in order;
      NotSeenSince(st, front, cutoff) +
      (if st.rows[d].lastSeen < cutoff then [Gone(d, st.rows[d].status, st.rows[d].lastSeen)] else [])
  }

  function RowAsGone(st: Store, d: DeviceId): Gone
    requires d in st.rows
  {
    Gone(d, st.rows[d].status, st.rows[d].lastSeen)
  }

  lemma {:induction false} NotSeenSinceMembers(st: Store, order: seq<DeviceId>, cutoff: Time)
    requires forall d :: d in order ==> d in st.rows
    ensures forall g :: g in NotSeenSince(st, order, cutoff) ==> g.device in order && g == RowAsGone(st, g.device) && g.lastSeen < cutoff
    ensures forall d :: d in order && st.rows[d].lastSeen < cutoff ==> RowAsGone(st, d) in NotSeenSince(st, order, cutoff)
  {
    if order != [] {
      var front := order[..|order| - 1];
      assert order == front + [Last(order)];
      NotSeenSinceMembers(st, front, cutoff);
    }
  }

  lemma {:induction false} NotSeenSinceOrder(st: Store, order: seq<DeviceId>, cutoff: Time)
    requires forall d :: d in order ==> d in st.rows
    ensures InTableOrder(order, NotSeenSince(st, order, cutoff))
  {
    if order != [] {
      var front, n := order[..|order| - 1], |order| - 1;
      NotSeenSinceOrder(st, front, cutoff);
      NotSeenSinceMembers(st, front, cutoff);
      var gone, before := NotSeenSince(st, order, cutoff), NotSeenSince(st, front, cutoff);
      forall a, b | 0 <= a < b < |gone| ensures Before(order, gone[a].device, gone[b].device) {
        if b < |before| {
          assert InTableOrder(front, before);
          var i, j :| 0 <= i < j < |front| && front[i] == gone[a].device && front[j] == gone[b].device;
          assert order[i] == front[i] && order[j] == front[j];
        } else {
          assert before[a] in before;
          var i :| 0 <= i < |front| && front[i] == gone[a].device;
          assert order[i] == front[i] && order[n] == gone[b].device;
        }
      }
    }
  }

  predicate InTableOrder(order: seq<DeviceId>, gone: seq<Gone>) {
    forall a, b :: 0 <= a < b < |gone| ==> Before(order, gone[a].device, gone[b].device)
  }

  /** `x` is listed before `y`. */
  predicate Before(order: seq<DeviceId>, x: DeviceId, y: DeviceId) {
    exists i, j :: 0 <= i < j < |order| && order[i] == x && order[j] == y
  }

  class StateStore {
    var order: seq<DeviceId>
    var rows: map<DeviceId, StoreRow>

    ghost function Value(): Store
      reads this
    {
      Store(order, rows)
    }

    constructor ()
      ensures Value() == EMPTY_STORE
    {
      order, rows := [], map[];
    }

    /** Stores the status and returns the one before, or nothing for a device never seen. */
    method Remember(d: DeviceId, status: Status, score: int, now: Time) returns (prev: Option<Status>)
      modifies this
      ensures prev == Previous(old(Value()), d)
      ensures Value() == Record(old(Value()), d, status, score, now)
    {
      if d !in rows {
        order := order + [d];
        rows := rows[d := StoreRow(status, score, now, now, now)];
        return None;
      }
      var before := rows[d];
      var changed := before.status != status;
      rows := rows[d := before.(status := status, score := score, lastSeen := now, lastChange := if changed then now else before.lastChange)];
      return Some(before.status);
    }

    /** Exactly the devices last seen before the cutoff, each with its current row, in the order of the table. */
    method DevicesNotSeenSince(cutoff: Time) returns (gone: seq<Gone>)
      requires ValidStore(Value())
      ensures forall g :: g in gone ==>
                g.device in rows && g == RowAsGone(Value(), g.device) && g.lastSeen < cutoff
      ensures forall d :: d in rows && rows[d].lastSeen < cutoff ==> RowAsGone(Value(), d) in gone
      ensures InTableOrder(order, gone)
      ensures gone == NotSeenSince(Value(), order, cutoff)
    {
      gone := [];
      for n := 0 to |order|
        invariant gone == NotSeenSince(Value(), order[..n], cutoff)
      {
        assert order[..n + 1][..n] == order[..n];
        var d := order[n];
        var row := rows[d];
        if row.lastSeen < cutoff {
          gone := gone + [Gone(d, row.status, row.lastSeen)];
        }
      }
      assert order[..|order|] == order;
      NotSeenSinceMembers(Value(), order, cutoff);
      NotSeenSinceOrder(Value(), order, cutoff);
    }
  }

  // ------------------------------------------------------------------- poll

  function Observe(p: Progress, now: Time, o: Observation): Progress {
    var prev := Previous(p.store, o.device);
    var changed := prev.Some? && prev.value != o.status;
    p.(store := Record(p.store, o.device, o.status, o.score, o.at),
       messages := p.messages + [Periodic(now, o.device, o.status, o.score)]
                   + (if changed then [Transition(now, o.device, o.status, o.score, Reported)] else []),
       records := p.records + [Rec(o.device, o.status, o.score, o.at, false)],
       seen := p.seen + {o.device},
       transitions := p.transitions + (if changed then 1 else 0),
       unhealthy := p.unhealthy + (if o.status == Unhealthy then 1 else 0))
  }

  function ObserveAll(p: Progress, now: Time, os: seq<Option<Observation>>): Progress {
    if os == [] then p
    else
      var before := ObserveAll(p, now, os[..|os| - 1]);
      if Last(os).None? then before else Observe(before, now, Last(os).value)
  }

  function Usable(os: seq<Option<Observation>>): nat {
    if os == [] then 0 else Usable(os[..|os| - 1]) + (if Last(os).None? then 0 else 1)
  }

  function Sweep(p: Progress, r: Report, g: Gone): Progress {
    if g.device in p.seen || g.status == Unhealthy then p
    else
      p.(store := Record(p.store, g.device, Unhealthy, 0, r.sweptAt),
         messages := p.messages + [Transition(r.now, g.device, Unhealthy, 0, Absent((r.now - g.lastSeen).Floor))],
         records := p.records + [Rec(g.device, Unhealthy, 0, r.sweptAt, true)],
         transitions := p.transitions + 1,
         unhealthy := p.unhealthy + 1)
  }

  function SweepAll(p: Progress, r: Report, gone: seq<Gone>): Progress {
    if gone == [] then p else Sweep(SweepAll(p, r, gone[..|gone| - 1]), r, Last(gone))
  }

  function Observed(st: Store, r: Report): Progress {
    var devices := ObserveAll(Progress(st, [], [], {}, 0, 0), r.now, r.devices);
    if r.platform.Some? then Observe(devices, r.now, r.platform.value) else devices
  }

  function Missing(p: Progress, r: Report): seq<Gone>
    requires ValidStore(p.store)
  {
    NotSeenSince(p.store, p.store.order, r.now - r.grace)
  }

  function Swept(p: Progress, r: Report): Progress
    requires ValidStore(p.store)
  {
    SweepAll(p, r, Missing(p, r))
  }

  function Heartbeat(p: Progress, r: Report, depth: nat): Message {
    EdgeHealth(r.now, |p.store.order|, p.unhealthy, depth)
  }

  // -------------------------------------------------------------- invariants

  lemma RecordKeepsValid(st: Store, d: DeviceId, status: Status, score: int, now: Time)
    requires ValidStore(st)
    ensures ValidStore(Record(st, d, status, score, now))
  {
  }

  lemma {:induction false} ObserveAllKeepsValid(p: Progress, now: Time, os: seq<Option<Observation>>)
    requires ValidStore(p.store)
    ensures ValidStore(ObserveAll(p, now, os).store)
  {
    if os != [] {
      ObserveAllKeepsValid(p, now, os[..|os| - 1]);
      if Last(os).Some? {
        var o := Last(os).value;
        RecordKeepsValid(ObserveAll(p, now, os[..|os| - 1]).store, o.device, o.status, o.score, o.at);
      }
    }
  }

  lemma ObservedIsValid(st: Store, r: Report)
    requires ValidStore(st)
    ensures ValidStore(Observed(st, r).store)
  {
    var start := Progress(st, [], [], {}, 0, 0);
    ObserveAllKeepsValid(start, r.now, r.devices);
    if r.platform.Some? {
      var o := r.platform.value;
      RecordKeepsValid(ObserveAll(start, r.now, r.devices).store, o.device, o.status, o.score, o.at);
    }
  }

  lemma {:induction false} SweepAllKeepsValid(p: Progress, r: Report, gone: seq<Gone>)
    requires ValidStore(p.store)
    ensures ValidStore(SweepAll(p, r, gone).store)
  {
    if gone != [] {
      SweepAllKeepsValid(p, r, gone[..|gone| - 1]);
      RecordKeepsValid(SweepAll(p, r, gone[..|gone| - 1]).store, Last(gone).device, Unhealthy, 0, r.sweptAt);
    }
  }

  // ------------------------------------------------------------------ class

  datatype Summary = Summary(devices: nat, messages: nat, transitions: nat, unhealthy: nat, depth: nat)

  class Poller {
    const store: StateStore
    const queue: OutboundQueue

    constructor (store: StateStore, queue: OutboundQueue)
      ensures this.store == store && this.queue == queue
    {
      this.store, this.queue := store, queue;
    }

    /** Records one assessed device and returns the messages it gives rise to. */
    method ReportOne(now: Time, o: Observation) returns (sent: seq<Message>, changed: bool)
      modifies store
      ensures store.Value() == Record(old(store.Value()), o.device, o.status, o.score, o.at)
      ensures changed == (Previous(old(store.Value()), o.device).Some? && Previous(old(store.Value()), o.device).value != o.status)
      ensures sent == [Periodic(now, o.device, o.status, o.score)] + (if changed then [Transition(now, o.device, o.status, o.score, Reported)] else [])
    {
      var prev := store.Remember(o.device, o.status, o.score, o.at);
      sent := [Periodic(now, o.device, o.status, o.score)];
      changed := prev.Some? && prev.value != o.status;
      if changed {
        sent := sent + [Transition(now, o.device, o.status, o.score, Reported)];
      }
    }

    /** The loop over the platform's report. */
    method ReportAll(now: Time, os: seq<Option<Observation>>)
      returns (devices: nat, messages: seq<Message>, seen: set<DeviceId>, transitions: nat, unhealthy: nat)
      modifies store
      ensures var p := ObserveAll(Progress(old(store.Value()), [], [], {}, 0, 0), now, os);
              && store.Value() == p.store && messages == p.messages && seen == p.seen
              && transitions == p.transitions && unhealthy == p.unhealthy && devices == Usable(os)
    {
      hide Record, Previous;
      ghost var start := Progress(store.Value(), [], [], {}, 0, 0);
      devices, messages, seen, transitions, unhealthy := 0, [], {}, 0, 0;
      for i := 0 to |os|
        invariant var p := ObserveAll(start, now, os[..i]);
                  && store.Value() == p.store && messages == p.messages && seen == p.seen
                  && transitions == p.transitions && unhealthy == p.unhealthy && devices == Usable(os[..i])
      {
        assert os[..i + 1][..i] == os[..i];
        if os[i].None? {
          continue;
        }
        var o := os[i].value;
        devices, seen := devices + 1, seen + {o.device};
        if o.status == Unhealthy {
          unhealthy := unhealthy + 1;
        }
        var sent, changed := ReportOne(now, o);
        messages := messages + sent;
        if changed {
          transitions := transitions + 1;
        }
      }
      assert os[..|os|] == os;
    }

    /** The loop over the devices that have been missing for too long. */
    method FlagMissing(r: Report, gone: seq<Gone>, seen: set<DeviceId>, ghost p: Progress)
      returns (sent: seq<Message>, flagged: nat)
      requires store.Value() == p.store && seen == p.seen
      modifies store
      ensures var p' := SweepAll(p, r, gone);
              && store.Value() == p'.store && p.messages + sent == p'.messages
              && p'.transitions == p.transitions + flagged && p'.unhealthy == p.unhealthy + flagged
    {
      hide Record, Previous;
      sent, flagged := [], 0;
      for i := 0 to |gone|
        invariant var p' := SweepAll(p, r, gone[..i]);
                  && store.Value() == p'.store && p.messages + sent == p'.messages && p'.seen == seen
                  && p'.transitions == p.transitions + flagged && p'.unhealthy == p.unhealthy + flagged
      {
        assert gone[..i + 1][..i] == gone[..i];
        var g := gone[i];
        if g.device in seen || g.status == Unhealthy {
          continue;
        }
        var _ := store.Remember(g.device, Unhealthy, 0, r.sweptAt);
        var m := Transition(r.now, g.device, Unhealthy, 0, Absent((r.now - g.lastSeen).Floor));
        assert p.messages + (sent + [m]) == (p.messages + sent) + [m];
        sent, flagged := sent + [m], flagged + 1;
      }
      assert gone[..|gone|] == gone;
    }

    method PollOnce(r: Report) returns (summary: Summary)
      requires ValidStore(store.Value()) && queue.Valid()
      modifies store, queue
      ensures ValidStore(store.Value()) && queue.Valid()
      ensures ValidStore(Observed(old(store.Value()), r).store)
      ensures var p := Swept(Observed(old(store.Value()), r), r);
              && store.Value() == p.store
              && queue.Value() == EnqueueMany(old(queue.Value()), r.queuedAt, p.messages + [Heartbeat(p, r, |Pending(old(queue.rows))|)])
              && summary == Summary(Usable(r.devices), |p.messages| + 1, p.transitions, p.unhealthy, |Pending(queue.rows)|)
    {
      hide ObserveAll, SweepAll, NotSeenSince, Record, Previous, EnqueueMany;
      ghost var start := store.Value();
      var devices, messages, seen, transitions, unhealthy := ReportAll(r.now, r.devices);
      if r.platform.Some? {
        var o := r.platform.value;
        seen := seen + {o.device};
        if o.status == Unhealthy {
          unhealthy := unhealthy + 1;
        }
        var sent, changed := ReportOne(r.now, o);
        messages := messages + sent;
        if changed {
          transitions := transitions + 1;
        }
      }
      ghost var observed := Observed(start, r);
      ObservedIsValid(start, r);
      var gone := store.DevicesNotSeenSince(r.now - r.grace);
      var alarms, flagged := FlagMissing(r, gone, seen, observed);
      SweepAllKeepsValid(observed, r, gone);
      var depth := queue.Depth();
      messages := messages + alarms + [EdgeHealth(r.now, |store.order|, unhealthy + flagged, depth)];
      assert messages == Swept(observed, r).messages + [Heartbeat(Swept(observed, r), r, depth)];
      assert queue.rows == old(queue.rows);
      queue.EnqueueAll(messages, r.queuedAt);
      depth := queue.Depth();
      summary := Summary(devices, |messages|, transitions + flagged, unhealthy + flagged, depth);
    }
  }
}
