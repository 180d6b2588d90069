/**
  Every run of the aggregator against a reference that keeps the whole past: which lines are kept is decided by
  all lines kept before, the window is a filter over them, and transitions are the destuttered verdicts.
 */
module AggregatorRuns {
  import opened Sequences
  import opened Messages
  import opened SyslogHealth
  import opened SyslogAggregator

  datatype Input =
    | Line(at: Time, device: DeviceId, severity: string, message: string)
    | Timer(at: Time)

  function Do(cfg: Config, w: World, i: Input): World {
    match i
    case Line(at, d, severity, message) => Receive(cfg, w, d, severity, message, at)
    case Timer(at) => Tick(cfg, w, at)
  }

  function Run(cfg: Config, inputs: seq<Input>): World {
    if inputs == [] then NEW_WORLD else Do(cfg, Run(cfg, inputs[..|inputs| - 1]), Last(inputs))
  }

  /** Clock readings are positive and never go back. */
  ghost predicate Clocked(inputs: seq<Input>) {
    && (forall n :: 0 <= n < |inputs| ==> inputs[n].at > 0.0)
    && (forall m, n :: 0 <= m < n < |inputs| ==> inputs[m].at <= inputs[n].at)
  }

  // -------------------------------------------------------- the reference

  predicate Clashes(cfg: Config, kept: seq<Event>, e: Event) {
    exists n :: 0 <= n < |kept| && Signature(cfg, kept[n]) == Signature(cfg, e) && e.ts - kept[n].ts < 60.0
  }

  /** The event a line carries for this device, unless it is another device's or noise. */
  function Heard(cfg: Config, i: Input, d: DeviceId): Option<Event> {
    if !i.Line? || i.device != d then None
    else
      var e := EventOf(cfg, i.severity, i.message, i.at);
      if IsNoise(e.severity, e.category) then None else Some(e)
  }

  /** All events ever kept for a device: those not within 60 seconds of a kept one with their signature. */
  function Kept(cfg: Config, inputs: seq<Input>, d: DeviceId): seq<Event> {
    if inputs == [] then []
    else
      var before, e := Kept(cfg, inputs[..|inputs| - 1], d), Heard(cfg, Last(inputs), d);
      if e.Some? && !Clashes(cfg, before, e.value) then before + [e.value] else before
  }

  function HeardAt(cfg: Config, inputs: seq<Input>, d: DeviceId): Time {
    if inputs == [] then 0.0
    else if Heard(cfg, Last(inputs), d).Some? then Last(inputs).at
    else HeardAt(cfg, inputs[..|inputs| - 1], d)
  }

  /** When the device's window was last moved: by the timer or by a kept event. */
  function MovedAt(cfg: Config, inputs: seq<Input>, d: DeviceId): Time {
    if inputs == [] then 0.0
    else
      var front := inputs[..|inputs| - 1];
      if Last(inputs).Timer? || Kept(cfg, inputs, d) != Kept(cfg, front, d) then Last(inputs).at else MovedAt(cfg, front, d)
  }

  function Recent(events: seq<Event>, cutoff: Time): seq<Event> {
    if events == [] then []
    else
      var before := Recent(events[..|events| - 1], cutoff);
      if Last(events).ts >= cutoff then before + [Last(events)] else before
  }

  /** The verdict at each kept event, from the events kept within the window ending there. */
  function Verdicts(cfg: Config, inputs: seq<Input>, d: DeviceId): seq<Status> {
    if inputs == [] then []
    else
      var front := inputs[..|inputs| - 1];
      var kept := Kept(cfg, inputs, d);
      if kept == Kept(cfg, front, d) then Verdicts(cfg, front, d)
      else
        var now := Last(inputs).at;
        Verdicts(cfg, front, d) + [HealthOf(cfg, Recent(kept, now - cfg.window), now, now).status]
  }

  function Changes(sent: seq<Payload>, d: DeviceId): seq<Status> {
    if sent == [] then []
    else
      var before, p := Changes(sent[..|sent| - 1], d), Last(sent);
      if p.kind == Change && p.device == d then before + [p.health.status] else before
  }

  // ------------------------------------------------------ eviction = filter

  ghost predicate InOrder(events: seq<Event>) {
    forall m, n :: 0 <= m < n < |events| ==> events[m].ts <= events[n].ts
  }

  lemma {:induction false} AllRecent(events: seq<Event>, cutoff: Time)
    requires forall n :: 0 <= n < |events| ==> events[n].ts >= cutoff
    ensures Recent(events, cutoff) == events
  {
    if events != [] {
      AllRecent(events[..|events| - 1], cutoff);
      assert events == events[..|events| - 1] + [Last(events)];
    }
  }

  lemma {:induction false} RecentSkipsOldHead(events: seq<Event>, cutoff: Time)
    requires events != [] && events[0].ts < cutoff
    ensures Recent(events, cutoff) == Recent(events[1..], cutoff)
  {
    if |events| > 1 {
      RecentSkipsOldHead(events[..|events| - 1], cutoff);
      assert events[..|events| - 1][1..] == events[1..][..|events| - 2];
    }
  }

  /** Popping old heads until one is recent equals filtering on the cutoff. */
  lemma {:induction false} EvictionIsFilter(events: seq<Event>, cutoff: Time)
    requires InOrder(events)
    ensures DropOld(events, cutoff) == Recent(events, cutoff)
    decreases |events|
  {
    if events != [] && events[0].ts < cutoff {
      RecentSkipsOldHead(events, cutoff);
      EvictionIsFilter(events[1..], cutoff);
    } else {
      AllRecent(events, cutoff);
    }
  }

  /** Filtering with a later cutoff undoes nothing the earlier one did. */
  lemma {:induction false} RecentTwice(events: seq<Event>, early: Time, late: Time)
    requires early <= late
    ensures Recent(Recent(events, early), late) == Recent(events, late)
  {
    if events != [] {
      RecentTwice(events[..|events| - 1], early, late);
      RecentSnoc(Recent(events[..|events| - 1], early), Last(events), late);
    }
  }

  lemma RecentSnoc(events: seq<Event>, e: Event, cutoff: Time)
    ensures Recent(events + [e], cutoff) == Recent(events, cutoff) + (if e.ts >= cutoff then [e] else [])
  {
    assert (events + [e])[..|events|] == events;
  }

  lemma {:induction false} RecentIsSuffix(events: seq<Event>, cutoff: Time)
    requires InOrder(events)
    ensures |Recent(events, cutoff)| <= |events| && Recent(events, cutoff) == events[|events| - |Recent(events, cutoff)|..]
    decreases |events|
  {
    if events != [] && events[0].ts < cutoff {
      RecentSkipsOldHead(events, cutoff);
      RecentIsSuffix(events[1..], cutoff);
    } else {
      AllRecent(events, cutoff);
    }
  }

  // ------------------------------------------------- the cache and the past

  ghost predicate CacheSound(cfg: Config, kept: seq<Event>, dedup: map<string, Entry>) {
    forall g :: g in dedup ==>
      dedup[g].count > 0 && exists n :: 0 <= n < |kept| && Signature(cfg, kept[n]) == g && kept[n].ts == dedup[g].first
  }

  predicate Remembered(cfg: Config, e: Event, dedup: map<string, Entry>) {
    Signature(cfg, e) in dedup && dedup[Signature(cfg, e)].first >= e.ts
  }

  ghost predicate CacheComplete(cfg: Config, kept: seq<Event>, dedup: map<string, Entry>, now: Time) {
    forall n :: 0 <= n < |kept| ==> Remembered(cfg, kept[n], dedup) || now - kept[n].ts >= 60.0
  }

  /** The cache, although entries are dropped from it, answers as the whole past would. */
  lemma RepeatsIsClash(cfg: Config, kept: seq<Event>, s: Device, e: Event, now: Time)
    requires CacheSound(cfg, kept, s.dedup) && CacheComplete(cfg, kept, s.dedup, now) && now <= e.ts
    ensures Repeats(s, Signature(cfg, e), e.ts) <==> Clashes(cfg, kept, e)
  {
  }

  lemma UnexpiredKeepsCache(cfg: Config, kept: seq<Event>, dedup: map<string, Entry>, before: Time, now: Time)
    requires CacheSound(cfg, kept, dedup) && CacheComplete(cfg, kept, dedup, before) && before <= now
    ensures CacheSound(cfg, kept, Unexpired(dedup, now)) && CacheComplete(cfg, kept, Unexpired(dedup, now), now)
  {
  }

  lemma AbsorbKeepsCache(cfg: Config, kept: seq<Event>, s: Device, g: string, before: Time, now: Time)
    requires CacheSound(cfg, kept, s.dedup) && CacheComplete(cfg, kept, s.dedup, before) && before <= now && g in s.dedup
    ensures CacheSound(cfg, kept, Absorb(s, g, now).dedup) && CacheComplete(cfg, kept, Absorb(s, g, now).dedup, now)
  {
  }

  lemma KeepKeepsCache(cfg: Config, kept: seq<Event>, s: Device, e: Event, before: Time)
    requires CacheSound(cfg, kept, s.dedup) && CacheComplete(cfg, kept, s.dedup, before) && before <= e.ts
    requires forall n :: 0 <= n < |kept| ==> kept[n].ts <= before
    ensures CacheSound(cfg, kept + [e], Keep(cfg, s, e).dedup) && CacheComplete(cfg, kept + [e], Keep(cfg, s, e).dedup, e.ts)
  {
    hide Unexpired, DropOld;
    var noted := s.dedup[Signature(cfg, e) := Entry(1, e.ts)];
    var more := kept + [e];
    forall g | g in noted ensures noted[g].count > 0 && exists n :: 0 <= n < |more| && Signature(cfg, more[n]) == g && more[n].ts == noted[g].first {
      if g == Signature(cfg, e) {
        assert more[|kept|] == e;
      } else {
        var n :| 0 <= n < |kept| && Signature(cfg, kept[n]) == g && kept[n].ts == s.dedup[g].first;
        assert more[n] == kept[n];
      }
    }
    UnexpiredKeepsCache(cfg, more, noted, before, e.ts);
  }

  // ----------------------------------------------------------- one device

  function Now(inputs: seq<Input>): Time {
    if inputs == [] then 0.0 else Last(inputs).at
  }

  ghost predicate Window(cfg: Config, inputs: seq<Input>, d: DeviceId, s: Device) {
    && s.events == Recent(Kept(cfg, inputs, d), MovedAt(cfg, inputs, d) - cfg.window)
    && s.lastSeen == HeardAt(cfg, inputs, d)
  }

  ghost predicate Cache(cfg: Config, inputs: seq<Input>, d: DeviceId, s: Device) {
    && CacheSound(cfg, Kept(cfg, inputs, d), s.dedup)
    && CacheComplete(cfg, Kept(cfg, inputs, d), s.dedup, Now(inputs))
  }

  ghost predicate Judged(cfg: Config, inputs: seq<Input>, d: DeviceId, s: Device) {
    var verdicts := Verdicts(cfg, inputs, d);
    && s.lastStatus == (if verdicts == [] then Unknown else Last(verdicts))
    && Unknown !in verdicts
  }

  lemma ClockedFront(inputs: seq<Input>)
    requires Clocked(inputs) && inputs != []
    ensures Clocked(inputs[..|inputs| - 1]) && 0.0 <= Now(inputs[..|inputs| - 1]) <= Now(inputs) && Now(inputs) > 0.0
  {
  }

  lemma {:induction false} KeptTimes(cfg: Config, inputs: seq<Input>, d: DeviceId)
    requires Clocked(inputs)
    ensures var kept := Kept(cfg, inputs, d);
            && InOrder(kept)
            && (forall n :: 0 <= n < |kept| ==> kept[n].ts <= MovedAt(cfg, inputs, d))
            && 0.0 <= MovedAt(cfg, inputs, d) <= Now(inputs)
  {
    hide Clashes, IsNoise;
    if inputs != [] {
      ClockedFront(inputs);
      KeptTimes(cfg, inputs[..|inputs| - 1], d);
    }
  }

  /** Events kept with the same signature are at least 60 seconds apart, over the whole run. */
  lemma {:induction false} KeptAreSpaced(cfg: Config, inputs: seq<Input>, d: DeviceId)
    requires Clocked(inputs)
    ensures Spaced(cfg, Kept(cfg, inputs, d))
  {
    if inputs != [] {
      ClockedFront(inputs);
      KeptAreSpaced(cfg, inputs[..|inputs| - 1], d);
    }
  }

  ghost predicate Spaced(cfg: Config, events: seq<Event>) {
    forall m, n :: 0 <= m < n < |events| && Signature(cfg, events[m]) == Signature(cfg, events[n]) ==>
      events[n].ts - events[m].ts >= 60.0
  }

  lemma RecentInOrder(events: seq<Event>, cutoff: Time)
    requires InOrder(events)
    ensures InOrder(Recent(events, cutoff))
  {
    RecentIsSuffix(events, cutoff);
  }

  /** Moving the window of an already moved one is the same as filtering the whole past. */
  lemma EvictMovesWindow(cfg: Config, kept: seq<Event>, s: Device, moved: Time, now: Time)
    requires InOrder(kept) && moved <= now && s.events == Recent(kept, moved - cfg.window)
    ensures Evict(cfg, s, now).events == Recent(kept, now - cfg.window)
  {
    hide Recent, DropOld, InOrder;
    RecentInOrder(kept, moved - cfg.window);
    EvictionIsFilter(s.events, now - cfg.window);
    RecentTwice(kept, moved - cfg.window, now - cfg.window);
  }

  lemma KeepMovesWindow(cfg: Config, kept: seq<Event>, s: Device, moved: Time, e: Event)
    requires InOrder(kept + [e]) && moved <= e.ts && s.events == Recent(kept, moved - cfg.window)
    ensures Keep(cfg, s, e).events == Recent(kept + [e], e.ts - cfg.window)
  {
    hide Recent, DropOld;
    var cutoff := e.ts - cfg.window;
    assert InOrder(kept) by {
      assert forall n :: 0 <= n < |kept| ==> (kept + [e])[n] == kept[n];
    }
    RecentIsSuffix(kept, moved - cfg.window);
    assert forall n :: 0 <= n < |kept| ==> (kept + [e])[n] == kept[n];
    assert (kept + [e])[|kept|] == e;
    assert InOrder(s.events + [e]);
    EvictionIsFilter(s.events + [e], cutoff);
    RecentSnoc(s.events, e, cutoff);
    RecentTwice(kept, moved - cfg.window, cutoff);
    RecentSnoc(kept, e, cutoff);
  }

  /** What one input does to one device's record. */
  function Advance(cfg: Config, d: DeviceId, s: Device, i: Input): Device {
    if i.Timer? then Evict(cfg, s, i.at)
    else
      var e := Heard(cfg, i, d);
      if e.Some? then Take(cfg, d, s, e.value).0 else s
  }

  lemma AdvanceKeepsWindow(cfg: Config, inputs: seq<Input>, d: DeviceId, s: Device)
    requires Clocked(inputs) && inputs != []
    requires Window(cfg, inputs[..|inputs| - 1], d, s) && Cache(cfg, inputs[..|inputs| - 1], d, s)
    ensures Window(cfg, inputs, d, Advance(cfg, d, s, Last(inputs)))
  {
    hide Keep, Evict, Recent, CacheSound, CacheComplete, Clashes, Repeats, Describe, HealthOf, InOrder, Signature;
    var front, i := inputs[..|inputs| - 1], Last(inputs);
    var kept, moved := Kept(cfg, front, d), MovedAt(cfg, front, d);
    ClockedFront(inputs);
    KeptTimes(cfg, front, d);
    KeptTimes(cfg, inputs, d);
    var e := Heard(cfg, i, d);
    if i.Timer? {
      EvictMovesWindow(cfg, kept, s, moved, i.at);
      EvictKeepsSeen(cfg, s, i.at);
    } else if e.Some? {
      RepeatsIsClash(cfg, kept, s, e.value, Now(front));
      if !Clashes(cfg, kept, e.value) {
        KeepMovesWindow(cfg, kept, s, moved, e.value);
        KeepSees(cfg, s, e.value);
      }
    }
  }

  lemma EvictKeepsSeen(cfg: Config, s: Device, now: Time)
    ensures Evict(cfg, s, now).lastSeen == s.lastSeen && Evict(cfg, s, now).lastStatus == s.lastStatus
  {
  }

  lemma KeepSees(cfg: Config, s: Device, e: Event)
    ensures Keep(cfg, s, e).lastSeen == e.ts && Keep(cfg, s, e).lastStatus == s.lastStatus
  {
  }

  lemma AdvanceKeepsCache(cfg: Config, inputs: seq<Input>, d: DeviceId, s: Device)
    requires Clocked(inputs) && inputs != [] && Cache(cfg, inputs[..|inputs| - 1], d, s)
    ensures Cache(cfg, inputs, d, Advance(cfg, d, s, Last(inputs)))
  {
    hide Keep, CacheSound, CacheComplete, Clashes, Describe, HealthOf, InOrder, Signature, DropOld, Unexpired;
    var front, i := inputs[..|inputs| - 1], Last(inputs);
    var kept, now := Kept(cfg, front, d), Now(front);
    ClockedFront(inputs);
    KeptTimes(cfg, front, d);
    var e := Heard(cfg, i, d);
    if e.Some? {
      RepeatsIsClash(cfg, kept, s, e.value, now);
      if Clashes(cfg, kept, e.value) {
        AbsorbKeepsCache(cfg, kept, s, Signature(cfg, e.value), now, i.at);
      } else {
        KeepKeepsCache(cfg, kept, s, e.value, now);
      }
    } else if i.Timer? {
      UnexpiredKeepsCache(cfg, kept, s.dedup, now, i.at);
    } else {
      CacheAges(cfg, kept, s.dedup, now, i.at);
    }
  }

  lemma CacheAges(cfg: Config, kept: seq<Event>, dedup: map<string, Entry>, before: Time, now: Time)
    requires CacheComplete(cfg, kept, dedup, before) && before <= now
    ensures CacheComplete(cfg, kept, dedup, now)
  {
  }

  lemma AdvanceKeepsVerdict(cfg: Config, inputs: seq<Input>, d: DeviceId, s: Device)
    requires Clocked(inputs) && inputs != []
    requires Window(cfg, inputs[..|inputs| - 1], d, s) && Cache(cfg, inputs[..|inputs| - 1], d, s)
    requires Judged(cfg, inputs[..|inputs| - 1], d, s)
    ensures Judged(cfg, inputs, d, Advance(cfg, d, s, Last(inputs)))
  {
    hide Keep, Evict, Recent, CacheSound, CacheComplete, Clashes, Repeats, Describe, InOrder, Signature, Occurrences, Severities, Categories, Reasons, Score, MovedAt;
    var front, i := inputs[..|inputs| - 1], Last(inputs);
    var kept, e := Kept(cfg, front, d), Heard(cfg, i, d);
    ClockedFront(inputs);
    EvictKeepsSeen(cfg, s, i.at);
    if e.Some? {
      RepeatsIsClash(cfg, kept, s, e.value, Now(front));
      KeepSees(cfg, s, e.value);
      if !Clashes(cfg, kept, e.value) {
        KeptTimes(cfg, front, d);
        KeptTimes(cfg, inputs, d);
        KeepMovesWindow(cfg, kept, s, MovedAt(cfg, front, d), e.value);
      }
    }
  }

  // ------------------------------------------------------------ all devices

  ghost predicate Orderly(w: World) {
    && (forall d :: d in w.order <==> d in w.devices)
    && (forall a, b :: 0 <= a < b < |w.order| ==> w.order[a] != w.order[b])
  }

  lemma {:induction false} SummariseAllEffect(cfg: Config, w: World, n: nat, now: Time, d: DeviceId)
    requires Orderly(w) && n <= |w.order|
    ensures var r := SummariseAll(cfg, w, w.order[..n], now);
            && r.order == w.order && r.devices.Keys == w.devices.Keys
            && StateOf(r, d) == (if d in w.order[..n] then Evict(cfg, StateOf(w, d), now) else StateOf(w, d))
            && Changes(r.sent, d) == Changes(w.sent, d)
            && |r.sent| == |w.sent| + n
  {
    hide Evict, HealthOf, Occurrences, Severities;
    if n > 0 {
      var front := w.order[..n - 1];
      assert w.order[..n][..n - 1] == front;
      var x := w.order[n - 1];
      SummariseAllEffect(cfg, w, n - 1, now, d);
      SummariseAllEffect(cfg, w, n - 1, now, x);
      assert x in w.devices && x !in front;
      var before := SummariseAll(cfg, w, front, now);
      ChangesSnoc(before.sent, Describe(cfg, Summary, x, Evict(cfg, StateOf(before, x), now), now), d);
    } else {
      assert w.order[..0] == [];
    }
  }

  lemma ChangesSnoc(sent: seq<Payload>, p: Payload, d: DeviceId)
    ensures Changes(sent + [p], d) == Changes(sent, d) + (if p.kind == Change && p.device == d then [p.health.status] else [])
  {
    assert (sent + [p])[..|sent|] == sent;
  }

  lemma NotEarlier(w: World, n: nat)
    requires Orderly(w) && n < |w.order|
    ensures w.order[n] !in w.order[..n]
  {
  }

  lemma SummariseOneSends(cfg: Config, w: World, d: DeviceId, now: Time)
    ensures SummariseOne(cfg, w, d, now).sent == w.sent + [Describe(cfg, Summary, d, Evict(cfg, StateOf(w, d), now), now)]
  {
  }

  /** A timer pass sends one summary per known device, in order, each of the record as it is after eviction. */
  lemma {:induction false} TickReportsEveryDevice(cfg: Config, w: World, n: nat, k: nat, now: Time)
    requires Orderly(w) && k < n <= |w.order|
    ensures var r := SummariseAll(cfg, w, w.order[..n], now);
            && |r.sent| == |w.sent| + n && r.sent[..|w.sent|] == w.sent
            && r.sent[|w.sent| + k] == Describe(cfg, Summary, w.order[k], Evict(cfg, StateOf(w, w.order[k]), now), now)
  {
    hide Evict, Describe, SummariseOne, StateOf, Orderly;
    var front, x := w.order[..n - 1], w.order[n - 1];
    assert w.order[..n][..n - 1] == front;
    NotEarlier(w, n - 1);
    SummariseAllEffect(cfg, w, n - 1, now, x);
    SummariseOneSends(cfg, SummariseAll(cfg, w, front, now), x, now);
    if k < n - 1 {
      TickReportsEveryDevice(cfg, w, n - 1, k, now);
    } else if n > 1 {
      TickReportsEveryDevice(cfg, w, n - 1, 0, now);
    } else {
      assert front == [];
    }
  }

  /** The transition one input sends for one device. */
  function Announced(cfg: Config, d: DeviceId, s: Device, i: Input): seq<Status> {
    var e := Heard(cfg, i, d);
    if e.None? then [] else Changes(Take(cfg, d, s, e.value).1, d)
  }

  lemma ReceiveKeepsOrder(cfg: Config, w: World, i: Input)
    requires Orderly(w) && i.Line?
    ensures Orderly(Do(cfg, w, i))
  {
    hide Take, IsNoise;
  }

  lemma ReceiveAdvances(cfg: Config, w: World, i: Input, d: DeviceId)
    requires i.Line?
    ensures StateOf(Do(cfg, w, i), d) == Advance(cfg, d, StateOf(w, d), i)
  {
    hide Take, IsNoise;
  }

  /** A line sends at most one payload, a change of its own device. */
  lemma TakeSends(cfg: Config, x: DeviceId, s: Device, e: Event, d: DeviceId)
    ensures var ps := Take(cfg, x, s, e).1;
            && (x != d ==> Changes(ps, d) == [])
            && (ps == [] || exists p :: ps == [p] && p.device == x && p.kind == Change)
  {
    hide Keep, HealthOf, Repeats, Signature, Describe, Changes;
    var ps, p := Take(cfg, x, s, e).1, Describe(cfg, Change, x, Keep(cfg, s, e), e.ts);
    DescribesItself(cfg, x, Keep(cfg, s, e), e.ts);
    NothingChanges(d);
    if ps != [] {
      assert ps == [p] && [] + [p] == [p];
      ChangesSnoc([], p, d);
    }
  }

  lemma DescribesItself(cfg: Config, x: DeviceId, s: Device, now: Time)
    ensures var p := Describe(cfg, Change, x, s, now); p.device == x && p.kind == Change
  {
  }

  lemma ReceiveSends(cfg: Config, w: World, i: Input, d: DeviceId)
    requires i.Line?
    ensures Changes(Do(cfg, w, i).sent, d) == Changes(w.sent, d) + Announced(cfg, d, StateOf(w, d), i)
  {
    hide Take, IsNoise, Changes;
    var e := EventOf(cfg, i.severity, i.message, i.at);
    if !IsNoise(i.severity, e.category) {
      var ps := Take(cfg, i.device, StateOf(w, i.device), e).1;
      TakeSends(cfg, i.device, StateOf(w, i.device), e, d);
      ChangesAppend(w.sent, ps, d);
    }
  }

  lemma NothingChanges(d: DeviceId)
    ensures Changes([], d) == []
  {
  }

  lemma ChangesAppend(sent: seq<Payload>, ps: seq<Payload>, d: DeviceId)
    requires ps == [] || exists p :: ps == [p]
    ensures Changes(sent + ps, d) == Changes(sent, d) + Changes(ps, d)
  {
    hide Changes;
    NothingChanges(d);
    if ps == [] {
      assert sent + ps == sent;
    } else {
      ChangesSnoc(sent, ps[0], d);
      ChangesSnoc([], ps[0], d);
      assert [] + [ps[0]] == ps;
    }
  }

  lemma EvictNew(cfg: Config, now: Time)
    ensures Evict(cfg, NEW_DEVICE, now) == NEW_DEVICE
  {
  }

  lemma DoEffect(cfg: Config, w: World, i: Input, d: DeviceId)
    requires Orderly(w)
    ensures var r := Do(cfg, w, i);
            && Orderly(r)
            && StateOf(r, d) == Advance(cfg, d, StateOf(w, d), i)
            && Changes(r.sent, d) == Changes(w.sent, d) + Announced(cfg, d, StateOf(w, d), i)
  {
    hide Receive, Take, Changes, Evict;
    if i.Line? {
      ReceiveKeepsOrder(cfg, w, i);
      ReceiveAdvances(cfg, w, i, d);
      ReceiveSends(cfg, w, i, d);
    } else {
      SummariseAllEffect(cfg, w, |w.order|, i.at, d);
      EvictNew(cfg, i.at);
      assert w.order[..|w.order|] == w.order;
    }
  }

  // ----------------------------------------------------------- main results

  /**
    In every reachable state the window holds exactly the events kept since its cutoff, the cache answers as
    the whole past would, and the last status is the last verdict.
   */
  lemma {:induction false} RunTracksHistory(cfg: Config, inputs: seq<Input>, d: DeviceId)
    requires Clocked(inputs)
    ensures Orderly(Run(cfg, inputs))
    ensures var s := StateOf(Run(cfg, inputs), d);
            Window(cfg, inputs, d, s) && Cache(cfg, inputs, d, s) && Judged(cfg, inputs, d, s)
  {
    if inputs != [] {
      hide Window, Cache, Judged, Do, Orderly, Clocked, Advance, StateOf;
      var front := inputs[..|inputs| - 1];
      ClockedFront(inputs);
      RunTracksHistory(cfg, front, d);
      var s := StateOf(Run(cfg, front), d);
      DoEffect(cfg, Run(cfg, front), Last(inputs), d);
      AdvanceKeepsWindow(cfg, inputs, d, s);
      AdvanceKeepsCache(cfg, inputs, d, s);
      AdvanceKeepsVerdict(cfg, inputs, d, s);
    }
  }

  /** In every reachable state a line is dropped as a repeat exactly when a kept one is less than 60 seconds older. */
  lemma DropIsExact(cfg: Config, inputs: seq<Input>, d: DeviceId, e: Event)
    requires Clocked(inputs) && Now(inputs) <= e.ts
    ensures Repeats(StateOf(Run(cfg, inputs), d), Signature(cfg, e), e.ts) <==> Clashes(cfg, Kept(cfg, inputs, d), e)
  {
    RunTracksHistory(cfg, inputs, d);
    RepeatsIsClash(cfg, Kept(cfg, inputs, d), StateOf(Run(cfg, inputs), d), e, Now(inputs));
  }

  /** In every reachable state, held events with the same signature are at least 60 seconds apart. */
  lemma HeldAreSpaced(cfg: Config, inputs: seq<Input>, d: DeviceId)
    requires Clocked(inputs)
    ensures Spaced(cfg, StateOf(Run(cfg, inputs), d).events)
  {
    hide Run, Clocked, Kept, MovedAt, Recent, Cache, Judged, Signature, Orderly, HeardAt;
    RunTracksHistory(cfg, inputs, d);
    KeptAreSpaced(cfg, inputs, d);
    KeptTimes(cfg, inputs, d);
    RecentIsSuffix(Kept(cfg, inputs, d), MovedAt(cfg, inputs, d) - cfg.window);
  }

  function Times(cfg: Config, events: seq<Event>, signature: string): seq<Time> {
    if events == [] then []
    else
      var before := Times(cfg, events[..|events| - 1], signature);
      if Signature(cfg, Last(events)) == signature then before + [Last(events).ts] else before
  }

  /** Times of one signature within a span, 60 seconds apart, cannot be many. */
  lemma {:induction false} SpacedTimesFit(cfg: Config, events: seq<Event>, signature: string)
    requires Spaced(cfg, events) && InOrder(events)
    ensures var times := Times(cfg, events, signature);
            times != [] ==>
              && events[0].ts <= times[0] && Last(times) <= Last(events).ts
              && (exists n :: 0 <= n < |events| && Signature(cfg, events[n]) == signature && events[n].ts == Last(times))
              && 60.0 * (|times| - 1) as real <= Last(times) - times[0]
  {
    if events != [] {
      SpacedTimesFit(cfg, events[..|events| - 1], signature);
    }
  }

  /** So one signature has at most floor(window / 60) + 1 events in the window. */
  lemma HeldPerSignatureBounded(cfg: Config, inputs: seq<Input>, d: DeviceId, signature: string)
    requires Clocked(inputs) && cfg.window >= 0.0
    ensures |Times(cfg, StateOf(Run(cfg, inputs), d).events, signature)| <= (cfg.window / 60.0).Floor + 1
  {
    hide Run, Clocked, Kept, MovedAt, Recent, Cache, Judged, Signature, Orderly, HeardAt, Spaced, Times;
    var events := StateOf(Run(cfg, inputs), d).events;
    var kept, cutoff := Kept(cfg, inputs, d), MovedAt(cfg, inputs, d) - cfg.window;
    var times := Times(cfg, events, signature);
    RunTracksHistory(cfg, inputs, d);
    KeptTimes(cfg, inputs, d);
    RecentIsSuffix(kept, cutoff);
    HeldAreSpaced(cfg, inputs, d);
    SpacedTimesFit(cfg, events, signature);
    RecentAreRecent(kept, cutoff);
    if times != [] {
      assert 60.0 * (|times| - 1) as real <= cfg.window;
      assert (|times| - 1) as real <= cfg.window / 60.0;
    }
  }

  lemma {:induction false} RecentAreRecent(events: seq<Event>, cutoff: Time)
    ensures forall n :: 0 <= n < |Recent(events, cutoff)| ==> Recent(events, cutoff)[n].ts >= cutoff
  {
    if events != [] {
      RecentAreRecent(events[..|events| - 1], cutoff);
    }
  }

  lemma TakeAnnounces(cfg: Config, d: DeviceId, s: Device, e: Event)
    ensures var changes, next := Changes(Take(cfg, d, s, e).1, d), Keep(cfg, s, e);
            var status := HealthOf(cfg, next.events, next.lastSeen, e.ts).status;
            if Repeats(s, Signature(cfg, e), e.ts) || status == next.lastStatus || next.lastStatus == Unknown then changes == []
            else changes == [status]
  {
    hide Keep, HealthOf, Repeats, Signature;
    var ps := Take(cfg, d, s, e).1;
    if ps != [] {
      ChangesSnoc([], ps[0], d);
      assert [] + [ps[0]] == ps;
    }
  }

  lemma AnnouncedIsNextVerdict(cfg: Config, inputs: seq<Input>, d: DeviceId, s: Device)
    requires Clocked(inputs) && inputs != []
    requires Window(cfg, inputs[..|inputs| - 1], d, s) && Cache(cfg, inputs[..|inputs| - 1], d, s)
    requires Judged(cfg, inputs[..|inputs| - 1], d, s)
    ensures var before, after := Verdicts(cfg, inputs[..|inputs| - 1], d), Verdicts(cfg, inputs, d);
            Announced(cfg, d, s, Last(inputs)) ==
            if after != before && before != [] && Last(before) != Last(after) then [Last(after)] else []
  {
    hide Keep, Evict, Recent, CacheSound, CacheComplete, Clashes, Repeats, InOrder, Signature, HealthOf, MovedAt, Take, Changes, HeardAt;
    var front, i := inputs[..|inputs| - 1], Last(inputs);
    var kept, e := Kept(cfg, front, d), Heard(cfg, i, d);
    ClockedFront(inputs);
    if e.Some? {
      RepeatsIsClash(cfg, kept, s, e.value, Now(front));
      KeepSees(cfg, s, e.value);
      if !Clashes(cfg, kept, e.value) {
        KeptTimes(cfg, front, d);
        KeptTimes(cfg, inputs, d);
        KeepMovesWindow(cfg, kept, s, MovedAt(cfg, front, d), e.value);
      }
      TakeAnnounces(cfg, d, s, e.value);
    }
  }

  ghost predicate Streams(verdicts: seq<Status>, changes: seq<Status>) {
    if verdicts == [] then changes == [] else [verdicts[0]] + changes == Destutter(verdicts)
  }

  /**
    A device's first verdict followed by the statuses of its transitions is its verdicts without consecutive
    repeats: each change is announced once, with the status that caused it, and the timer announces none.
   */
  lemma {:induction false} TransitionsAreDestutteredVerdicts(cfg: Config, inputs: seq<Input>, d: DeviceId)
    requires Clocked(inputs)
    ensures var verdicts, changes := Verdicts(cfg, inputs, d), Changes(Run(cfg, inputs).sent, d);
            Streams(verdicts, changes)
  {
    if inputs != [] {
      assert Run(cfg, inputs) == Do(cfg, Run(cfg, inputs[..|inputs| - 1]), Last(inputs));
      hide Window, Cache, Judged, Do, Orderly, Clocked, StateOf, Announced, Changes, HealthOf, Recent, Kept, Destutter, Advance, Streams, Verdicts, Run;
      var front, i := inputs[..|inputs| - 1], Last(inputs);
      ClockedFront(inputs);
      TransitionsAreDestutteredVerdicts(cfg, front, d);
      RunTracksHistory(cfg, front, d);
      DoEffect(cfg, Run(cfg, front), i, d);
      AnnouncedIsNextVerdict(cfg, inputs, d, StateOf(Run(cfg, front), d));
      NextVerdict(cfg, inputs, d);
      StreamExtends(Verdicts(cfg, front, d), Verdicts(cfg, inputs, d), Changes(Run(cfg, front).sent, d),
                    Announced(cfg, d, StateOf(Run(cfg, front), d), i));
    } else {
      NothingChanges(d);
    }
  }

  lemma NextVerdict(cfg: Config, inputs: seq<Input>, d: DeviceId)
    requires inputs != []
    ensures var before, after := Verdicts(cfg, inputs[..|inputs| - 1], d), Verdicts(cfg, inputs, d);
            after == before || (after != [] && after == before + [Last(after)])
  {
    hide Kept, HealthOf, Recent;
  }

  lemma StreamExtends(before: seq<Status>, after: seq<Status>, changes: seq<Status>, more: seq<Status>)
    requires Streams(before, changes) && (after == before || (after != [] && after == before + [Last(after)]))
    requires more == if after != before && before != [] && Last(before) != Last(after) then [Last(after)] else []
    ensures Streams(after, changes + more)
  {
    hide Destutter;
    if after != before {
      DestutterSnoc(before, Last(after));
      if before == [] {
        assert after == [Last(after)];
        DestutterOne(Last(after));
      } else {
        assert [before[0]] + (changes + more) == ([before[0]] + changes) + more;
      }
    } else {
      assert changes + more == changes;
    }
  }

  lemma DestutterOne<T>(x: T)
    ensures Destutter([x]) == [x]
  {
  }

  // ------------------------------------------------------ what is reported

  /** A payload about device `d` at `at`: its health and its counts, all from the events kept within the window then. */
  function Telling(cfg: Config, inputs: seq<Input>, kind: Kind, d: DeviceId, at: Time): Payload {
    var held := Recent(Kept(cfg, inputs, d), at - cfg.window);
    Payload(kind, at, d, HealthOf(cfg, held, HeardAt(cfg, inputs, d), at), |held|,
            Occurrences(Severities(held), IsError), Occurrences(Severities(held), IsWarning))
  }

  /** At any time the timer sends one summary per device heard from so far, telling the window that ends there. */
  lemma SummariesTellWindow(cfg: Config, inputs: seq<Input>, at: Time, k: nat)
    requires Clocked(inputs) && Now(inputs) <= at && k < |Run(cfg, inputs).order|
    ensures var w := Run(cfg, inputs);
            && |Tick(cfg, w, at).sent| == |w.sent| + |w.order| && w.sent <= Tick(cfg, w, at).sent
            && Tick(cfg, w, at).sent[|w.sent| + k] == Telling(cfg, inputs, Summary, w.order[k], at)
  {
    hide Run, Clocked, Kept, Recent, HealthOf, Occurrences, Severities, Evict, SummariseAll, StateOf, Cache, Judged, Orderly, HeardAt, MovedAt, InOrder;
    var w := Run(cfg, inputs);
    var d := w.order[k];
    var s := StateOf(w, d);
    RunTracksHistory(cfg, inputs, d);
    KeptTimes(cfg, inputs, d);
    EvictMovesWindow(cfg, Kept(cfg, inputs, d), s, MovedAt(cfg, inputs, d), at);
    EvictKeepsSeen(cfg, s, at);
    assert w.order[..|w.order|] == w.order;
    TickReportsEveryDevice(cfg, w, |w.order|, k, at);
  }

  /** A device is in the dictionary from its first line that is not noise on. */
  lemma {:induction false} ListedOnceHeard(cfg: Config, inputs: seq<Input>, d: DeviceId)
    requires Clocked(inputs)
    ensures d in Run(cfg, inputs).order <==> HeardAt(cfg, inputs, d) > 0.0
  {
    if inputs != [] {
      hide Take, HealthOf, IsNoise, Describe, Evict;
      var front := inputs[..|inputs| - 1];
      ClockedFront(inputs);
      ListedOnceHeard(cfg, front, d);
      RunTracksHistory(cfg, front, d);
      if Last(inputs).Timer? {
        var w := Run(cfg, front);
        assert w.order[..|w.order|] == w.order;
        SummariseAllEffect(cfg, w, |w.order|, Last(inputs).at, d);
      }
    }
  }

  /** A new verdict comes from a kept line, over the window that ends with it. */
  lemma NewVerdictIsOfKept(cfg: Config, inputs: seq<Input>, d: DeviceId) returns (e: Event)
    requires Clocked(inputs) && inputs != [] && Verdicts(cfg, inputs, d) != Verdicts(cfg, inputs[..|inputs| - 1], d)
    ensures var front, i := inputs[..|inputs| - 1], Last(inputs);
            && i.Line? && Heard(cfg, i, d) == Some(e) && e.ts == i.at && !Clashes(cfg, Kept(cfg, front, d), e)
            && Kept(cfg, inputs, d) == Kept(cfg, front, d) + [e] && HeardAt(cfg, inputs, d) == i.at
            && Verdicts(cfg, inputs, d) != []
            && Last(Verdicts(cfg, inputs, d)) == HealthOf(cfg, Recent(Kept(cfg, inputs, d), i.at - cfg.window), i.at, i.at).status
  {
    hide Clashes, HealthOf, Recent, IsNoise;
    e := Heard(cfg, Last(inputs), d).value;
  }

  lemma KeptLineKeepsWindow(cfg: Config, inputs: seq<Input>, d: DeviceId, s: Device, e: Event)
    requires Clocked(inputs) && inputs != []
    requires Window(cfg, inputs[..|inputs| - 1], d, s) && Cache(cfg, inputs[..|inputs| - 1], d, s)
    requires Heard(cfg, Last(inputs), d) == Some(e) && e.ts == Last(inputs).at && !Clashes(cfg, Kept(cfg, inputs[..|inputs| - 1], d), e)
    requires Kept(cfg, inputs, d) == Kept(cfg, inputs[..|inputs| - 1], d) + [e]
    ensures !Repeats(s, Signature(cfg, e), e.ts)
    ensures Keep(cfg, s, e).events == Recent(Kept(cfg, inputs, d), e.ts - cfg.window)
  {
    hide Keep, Repeats, Recent, CacheSound, CacheComplete, Clashes, InOrder, Kept, MovedAt, Heard, Clocked, HeardAt, Signature;
    var front := inputs[..|inputs| - 1];
    ClockedFront(inputs);
    KeptTimes(cfg, front, d);
    KeptTimes(cfg, inputs, d);
    RepeatsIsClash(cfg, Kept(cfg, front, d), s, e, Now(front));
    KeepMovesWindow(cfg, Kept(cfg, front, d), s, MovedAt(cfg, front, d), e);
  }

  /** A line that changes the verdict sends one payload, telling the window that ends with it. */
  lemma ChangeTellsWindow(cfg: Config, inputs: seq<Input>, d: DeviceId)
    requires Clocked(inputs) && inputs != []
    requires var before, after := Verdicts(cfg, inputs[..|inputs| - 1], d), Verdicts(cfg, inputs, d);
             after != before && before != [] && Last(before) != Last(after)
    ensures Run(cfg, inputs).sent == Run(cfg, inputs[..|inputs| - 1]).sent + [Telling(cfg, inputs, Change, d, Last(inputs).at)]
  {
    hide Run, Do, Clocked, Window, Cache, Judged, Orderly, Clashes, Verdicts, Kept, Heard, HeardAt, StateOf, Telling, HealthOf, Recent, Repeats, Keep, Describe;
    var front := inputs[..|inputs| - 1];
    RunSplits(cfg, inputs);
    ClockedFront(inputs);
    RunTracksHistory(cfg, front, d);
    var e := NewVerdictIsOfKept(cfg, inputs, d);
    ChangeIsDescribed(cfg, inputs, d, StateOf(Run(cfg, front), d), e);
    ReceiveKeeps(cfg, Run(cfg, front), Last(inputs), d, e);
  }

  lemma RunSplits(cfg: Config, inputs: seq<Input>)
    requires inputs != []
    ensures Run(cfg, inputs) == Do(cfg, Run(cfg, inputs[..|inputs| - 1]), Last(inputs))
  {
  }

  /** The kept record describes the window, and its status is the new verdict, not the one before. */
  lemma ChangeIsDescribed(cfg: Config, inputs: seq<Input>, d: DeviceId, s: Device, e: Event)
    requires Clocked(inputs) && inputs != [] && Heard(cfg, Last(inputs), d) == Some(e) && e.ts == Last(inputs).at
    requires var front := inputs[..|inputs| - 1];
             Window(cfg, front, d, s) && Cache(cfg, front, d, s) && Judged(cfg, front, d, s) && !Clashes(cfg, Kept(cfg, front, d), e)
    requires Kept(cfg, inputs, d) == Kept(cfg, inputs[..|inputs| - 1], d) + [e] && HeardAt(cfg, inputs, d) == e.ts
    requires var before, after := Verdicts(cfg, inputs[..|inputs| - 1], d), Verdicts(cfg, inputs, d);
             && before != [] && after != [] && Last(before) != Last(after)
             && Last(after) == HealthOf(cfg, Recent(Kept(cfg, inputs, d), e.ts - cfg.window), e.ts, e.ts).status
    ensures var next := Keep(cfg, s, e);
            && !Repeats(s, Signature(cfg, e), e.ts)
            && HealthOf(cfg, next.events, next.lastSeen, e.ts).status != next.lastStatus && next.lastStatus != Unknown
            && Describe(cfg, Change, d, next, e.ts) == Telling(cfg, inputs, Change, d, e.ts)
  {
    hide Clocked, Window, Cache, Clashes, Verdicts, Kept, Heard, HeardAt, HealthOf, Recent, Repeats, Keep, Signature, Occurrences, Severities;
    KeptLineKeepsWindow(cfg, inputs, d, s, e);
    KeepSees(cfg, s, e);
  }

  lemma ReceiveKeeps(cfg: Config, w: World, i: Input, d: DeviceId, e: Event)
    requires i.Line? && Heard(cfg, i, d) == Some(e) && !Repeats(StateOf(w, d), Signature(cfg, e), e.ts)
    ensures var s := StateOf(w, d);
            var next := Keep(cfg, s, e);
            Do(cfg, w, i).sent ==
            if HealthOf(cfg, next.events, next.lastSeen, e.ts).status != next.lastStatus && next.lastStatus != Unknown
            then w.sent + [Describe(cfg, Change, d, next, e.ts)] else w.sent
  {
    hide Keep, HealthOf, Repeats, Describe;
    assert w.sent + [] == w.sent;
  }
}
