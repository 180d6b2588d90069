/**
  The syslog aggregator: per device a sliding window of events, a cache that drops repeats of a signature for
  60 seconds, and the last evaluated status; a change of status sends a transition, a timer sends summaries.
 */
module SyslogAggregator {
  import opened Sequences
  import opened Messages
  import opened SyslogHealth

  const DEDUP_SECONDS: real := 60.0

  datatype Entry = Entry(count: nat, first: Time)

  datatype Device = Device(events: seq<Event>, lastSeen: Time, lastStatus: Status, dedup: map<string, Entry>)

  const NEW_DEVICE := Device([], 0.0, Unknown, map[])

  datatype Kind = Summary | Change

  datatype Payload = Payload(kind: Kind, ts: Time, device: DeviceId, health: Health, events: nat, errors: nat, warns: nat)

  /** `order` is the insertion order of the device dictionary, `sent` all that was ever put on the queue. */
  datatype World = World(order: seq<DeviceId>, devices: map<DeviceId, Device>, sent: seq<Payload>)

  const NEW_WORLD := World([], map[], [])

  // ------------------------------------------------------------- one device

  function DropOld(events: seq<Event>, cutoff: Time): seq<Event> {
    if events != [] && events[0].ts < cutoff then DropOld(events[1..], cutoff) else events
  }

  function Unexpired(dedup: map<string, Entry>, now: Time): map<string, Entry> {
    map g | g in dedup && now - dedup[g].first < DEDUP_SECONDS :: dedup[g]
  }

  function Evict(cfg: Config, s: Device, now: Time): Device {
    s.(events := DropOld(s.events, now - cfg.window), dedup := Unexpired(s.dedup, now))
  }

  predicate Repeats(s: Device, signature: string, now: Time) {
    signature in s.dedup && s.dedup[signature].count > 0 && now - s.dedup[signature].first < DEDUP_SECONDS
  }

  function Signature(cfg: Config, e: Event): string {
    cfg.signature(e.category, e.severity, e.message)
  }

  function Describe(cfg: Config, kind: Kind, d: DeviceId, s: Device, now: Time): Payload {
    Payload(kind, now, d, HealthOf(cfg, s.events, s.lastSeen, now), |s.events|,
            Occurrences(Severities(s.events), IsError), Occurrences(Severities(s.events), IsWarning))
  }

  /** A repeat only counts up. */
  function Absorb(s: Device, signature: string, now: Time): Device
    requires signature in s.dedup
  {
    var entry := s.dedup[signature];
    s.(dedup := s.dedup[signature := Entry(entry.count + 1, entry.first)], lastSeen := now)
  }

  function Keep(cfg: Config, s: Device, e: Event): Device {
    var noted := s.(dedup := s.dedup[Signature(cfg, e) := Entry(1, e.ts)], events := s.events + [e], lastSeen := e.ts);
    Evict(cfg, noted, e.ts)
  }

  function Take(cfg: Config, d: DeviceId, s: Device, e: Event): (Device, seq<Payload>) {
    if Repeats(s, Signature(cfg, e), e.ts) then (Absorb(s, Signature(cfg, e), e.ts), [])
    else
      var next := Keep(cfg, s, e);
      var status := HealthOf(cfg, next.events, next.lastSeen, e.ts).status;
      (next.(lastStatus := status),
       if status != next.lastStatus && next.lastStatus != Unknown then [Describe(cfg, Change, d, next, e.ts)] else [])
  }

  // ------------------------------------------------------------ all devices

  function StateOf(w: World, d: DeviceId): Device {
    if d in w.devices then w.devices[d] else NEW_DEVICE
  }

  function EventOf(cfg: Config, severity: string, message: string, now: Time): Event {
    Event(now, severity, cfg.classify(message), message)
  }

  /** The device's record is created at its first event. */
  function Opened(w: World, d: DeviceId): World {
    World(if d in w.devices then w.order else w.order + [d], w.devices[d := StateOf(w, d)], w.sent)
  }

  function Delivered(cfg: Config, w: World, d: DeviceId, e: Event): World {
    var (next, payloads) := Take(cfg, d, StateOf(w, d), e);
    World(w.order, w.devices[d := next], w.sent + payloads)
  }

  function Receive(cfg: Config, w: World, d: DeviceId, severity: string, message: string, now: Time): World {
    var e := EventOf(cfg, severity, message, now);
    if IsNoise(severity, e.category) then w else Delivered(cfg, Opened(w, d), d, e)
  }

  function SummariseOne(cfg: Config, w: World, d: DeviceId, now: Time): World {
    var s := Evict(cfg, StateOf(w, d), now);
    World(w.order, w.devices[d := s], w.sent + [Describe(cfg, Summary, d, s, now)])
  }

  function SummariseAll(cfg: Config, w: World, order: seq<DeviceId>, now: Time): World {
    if order == [] then w
    else SummariseOne(cfg, SummariseAll(cfg, w, order[..|order| - 1], now), Last(order), now)
  }

  /** One pass of the timer loop. */
  function Tick(cfg: Config, w: World, now: Time): World {
    SummariseAll(cfg, w, w.order, now)
  }

  // ---------------------------------------------------------------- classes

  class DeviceState {
    const device: DeviceId
    var events: seq<Event>
    var lastSeen: Time
    var lastStatus: Status
    var dedup: map<string, Entry>

    ghost function State(): Device
      reads this
    {
      Device(events, lastSeen, lastStatus, dedup)
    }

    constructor (d: DeviceId)
      ensures device == d && State() == NEW_DEVICE
    {
      device, events, lastSeen, lastStatus, dedup := d, [], 0.0, Unknown, map[];
    }

    method EvictOld(cfg: Config, now: Time)
      modifies this`events, this`dedup
      ensures State() == Evict(cfg, old(State()), now)
    {
      var cutoff := now - cfg.window;
      while events != [] && events[0].ts < cutoff
        invariant DropOld(events, cutoff) == DropOld(old(events), cutoff)
        invariant dedup == old(dedup)
        decreases |events|
      {
        events := events[1..];
      }
      dedup := map g | g in dedup && now - dedup[g].first < DEDUP_SECONDS :: dedup[g];
    }

    method BuildSummary(cfg: Config, kind: Kind, now: Time) returns (p: Payload)
      ensures p == Describe(cfg, kind, device, State(), now)
    {
      var health := ComputeHealth(cfg, events, lastSeen, now);
      var severities, _ := CountEvents(events);
      var errors := SumWhere(severities, IsError);
      CounterCounts(Severities(events), IsError);
      WarningSpellings(Severities(events));
      p := Payload(kind, now, device, health, |events|, errors, Get(severities, "warning") + Get(severities, "warn"));
    }

    /** What the timer does to one device: slide its window, then describe it. */
    method Report(cfg: Config, now: Time) returns (p: Payload)
      modifies this`events, this`dedup
      ensures State() == Evict(cfg, old(State()), now)
      ensures p == Describe(cfg, Summary, device, State(), now)
    {
      hide Evict, Describe;
      EvictOld(cfg, now);
      p := BuildSummary(cfg, Summary, now);
    }

    /** The part of `ingest` that runs on the device's own record; returns what goes on the queue. */
    method Accept(cfg: Config, e: Event) returns (payloads: seq<Payload>)
      modifies this`events, this`lastSeen, this`lastStatus, this`dedup
      ensures (State(), payloads) == Take(cfg, device, old(State()), e)
    {
      hide DropOld, Unexpired, HealthOf, Occurrences, Severities;
      payloads := [];
      var now, signature := e.ts, cfg.signature(e.category, e.severity, e.message);
      if signature in dedup && dedup[signature].count > 0 && now - dedup[signature].first < DEDUP_SECONDS {
        dedup := dedup[signature := Entry(dedup[signature].count + 1, dedup[signature].first)];
        lastSeen := now;
        return;
      }
      dedup := dedup[signature := Entry(1, now)];
      events := events + [e];
      lastSeen := now;
      EvictOld(cfg, now);
      var health := ComputeHealth(cfg, events, lastSeen, now);
      if health.status != lastStatus && lastStatus != Unknown {
        var p := BuildSummary(cfg, Change, now);
        payloads := [p];
      }
      lastStatus := health.status;
    }
  }

  class Aggregator {
    const cfg: Config
    var devices: map<DeviceId, DeviceState>
    var order: seq<DeviceId>
    var sent: seq<Payload>

    /** Every device has its own record, and the order lists exactly the devices. */
    ghost predicate Valid()
      reads this, devices.Values
    {
      && (forall d :: d in devices ==> devices[d].device == d)
      && (forall d :: d in order <==> d in devices)
    }

    ghost function Value(): World
      reads this, devices.Values
    {
      World(order, map d | d in devices :: devices[d].State(), sent)
    }

    constructor (config: Config)
      ensures Valid() && cfg == config && Value() == NEW_WORLD
    {
      cfg, devices, order, sent := config, map[], [], [];
    }

    /** The dictionary lookup, creating the record at a device's first event. */
    method Lookup(d: DeviceId)
      requires Valid()
      modifies this`devices, this`order
      ensures Valid() && d in devices && fresh(devices.Values - old(devices.Values))
      ensures Value() == Opened(old(Value()), d)
    {
      if d !in devices {
        var created := new DeviceState(d);
        devices, order := devices[d := created], order + [d];
      }
    }

    method Ingest(d: DeviceId, severity: string, message: string, now: Time)
      requires Valid()
      modifies this`devices, this`order, this`sent, devices.Values
      ensures Valid() && fresh(devices.Values - old(devices.Values))
      ensures Value() == Receive(cfg, old(Value()), d, severity, message, now)
    {
      hide Take, IsNoise, Opened, Delivered;
      var e := Event(now, severity, cfg.classify(message), message);
      if IsNoise(severity, e.category) {
        return;
      }
      Lookup(d);
      Deliver(d, e);
    }

    method Deliver(d: DeviceId, e: Event)
      requires Valid() && d in devices
      modifies this`sent, devices[d]
      ensures Valid()
      ensures Value() == Delivered(cfg, old(Value()), d, e)
    {
      hide Take;
      var payloads := devices[d].Accept(cfg, e);
      sent := sent + payloads;
      assert forall x :: x in devices && x != d ==> devices[x] != devices[d];
    }

    method Summarise(d: DeviceId, now: Time)
      requires Valid() && d in devices
      modifies this`sent, devices[d]
      ensures Valid()
      ensures Value() == SummariseOne(cfg, old(Value()), d, now)
    {
      hide Evict, Describe;
      var p := devices[d].Report(cfg, now);
      assert forall x :: x in devices && x != d ==> devices[x] != devices[d];
      sent := sent + [p];
    }

    /** One pass of the timer loop. */
    method RunPeriodic(now: Time)
      requires Valid()
      modifies this`sent, devices.Values
      ensures Valid()
      ensures Value() == Tick(cfg, old(Value()), now)
    {
      hide SummariseOne;
      for n := 0 to |order|
        invariant Valid() && devices == old(devices) && order == old(order)
        invariant Value() == SummariseAll(cfg, old(Value()), order[..n], now)
      {
        Summarise(order[n], now);
        assert order[..n + 1][..n] == order[..n];
      }
      assert order[..|order|] == order;
    }
  }
}
