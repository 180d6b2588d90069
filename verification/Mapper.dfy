/** Reading a device's health off the platform's record of it: power and fans, temperatures, ports. */
module Mapper {
  import opened Sequences
  import opened Messages

  /** A reading as Python's float holds it; the text "nan" reads as NaN. */
  datatype Float = NaN | Finite(value: real) | Infinite(positive: bool)

  /** `a > b`: false whenever either is NaN. */
  predicate Above(a: Float, b: Float) {
    match a
    case NaN => false
    case Finite(x) => (b.Finite? && x > b.value) || b == Infinite(false)
    case Infinite(positive) => positive && !b.NaN? && b != a
  }

  predicate AtLeast(a: Float, limit: real) {
    (a.Finite? && a.value >= limit) || a == Infinite(true)
  }

  predicate Below(a: Float, limit: real) {
    (a.Finite? && a.value < limit) || a == Infinite(false)
  }

  /** A field as the interface delivers it. */
  datatype Raw = Missing | Flag(on: bool) | Number(n: real) | Text(s: string) | Other

  datatype HwState = Good | Bad | Unread

  datatype Part = Part(name: string, state: HwState)

  /** Text fields are trimmed and in lower case; text that is no number is None. */
  datatype Port = Port(name: string, status: string, lastChange: Option<Float>, rx: Option<Float>, sfp: string)

  datatype Record = Record(lost: Raw, lostReason: string, state: Raw, parts: seq<Part>, temps: seq<Float>, ports: seq<Port>)

  datatype Limits = Limits(critical: real, warning: real, flapWindow: real, flapMin: int, rxWarn: real)

  datatype Finding =
    | LostContact(why: string)
    | HardwareFault(part: string)
    | ThermalCritical(hottest: Float)
    | ThermalWarning(hottest: Float)
    | PortsDown(count: nat)
    | LinkFlap(count: nat)
    | OpticalLow(count: nat, worst: Float)

  datatype Assessment = Assessment(status: Status, score: int, reasons: seq<Finding>, events: nat, errors: nat, warns: nat)

  // ------------------------------------------------------ what a record says

  predicate InContact(r: Record) {
    && (r.lost.Missing? || r.lost == Text("") || r.lost == Text("null") || r.lost == Text("0") || r.lost == Number(0.0) || r.lost == Flag(false))
    && !(r.state == Flag(false) || r.state == Text("False") || r.state == Text("false") || r.state == Number(0.0))
  }

  function Faults(parts: seq<Part>): seq<Finding> {
    if parts == [] then []
    else Faults(parts[..|parts| - 1]) + (if Last(parts).state == Bad then [HardwareFault(Last(parts).name)] else [])
  }

  predicate IsDown(p: Port) {
    p.status == "down" || p.status == "inactive" || p.status == "false"
  }

  predicate IsFlapping(lim: Limits, p: Port, now: Time) {
    p.lastChange.Some? && p.lastChange.value.Finite? && 0.0 < now - p.lastChange.value.value < lim.flapWindow
  }

  predicate IsWeak(lim: Limits, p: Port) {
    p.rx.Some? && Below(p.rx.value, lim.rxWarn) && p.sfp != "copper"
  }

  function Down(ports: seq<Port>): seq<string> {
    if ports == [] then []
    else Down(ports[..|ports| - 1]) + (if IsDown(Last(ports)) then [Last(ports).name] else [])
  }

  function Flapping(lim: Limits, ports: seq<Port>, now: Time): seq<string> {
    if ports == [] then []
    else Flapping(lim, ports[..|ports| - 1], now) + (if IsFlapping(lim, Last(ports), now) then [Last(ports).name] else [])
  }

  /** `max`: the first reading, until a later one is above what it holds. */
  function Hottest(temps: seq<Float>): Float
    requires temps != []
  {
    if |temps| == 1 then temps[0]
    else
      var t := Hottest(temps[..|temps| - 1]);
      if Above(Last(temps), t) then Last(temps) else t
  }

  function WeakLevels(lim: Limits, ports: seq<Port>): seq<Float> {
    if ports == [] then []
    else WeakLevels(lim, ports[..|ports| - 1]) + (if IsWeak(lim, Last(ports)) then [Last(ports).rx.value] else [])
  }

  function Weakest(levels: seq<Float>): Float
    requires levels != []
  {
    if |levels| == 1 then levels[0]
    else
      var r := Weakest(levels[..|levels| - 1]);
      if Above(r, Last(levels)) then Last(levels) else r
  }

  // ---------------------------------------------------------- the assessment

  datatype Heat = Cool | Warm | Critical

  function HeatOf(lim: Limits, temps: seq<Float>): Heat {
    if temps == [] then Cool
    else if AtLeast(Hottest(temps), lim.critical) then Critical
    else if AtLeast(Hottest(temps), lim.warning) then Warm
    else Cool
  }

  /** What an assessment rests on: failed parts, heat, and ports that are down, flapping or dim. */
  datatype Tally = Tally(bad: nat, heat: Heat, down: nat, flaps: bool, weak: nat)
  {
    function Errors(): nat {
      bad + (if heat == Critical then 1 else 0)
    }

    function Warnings(): nat {
      (if heat == Warm then 1 else 0) + PortWarnings()
    }

    function Penalty(): nat {
      bad * 40 + (if heat == Critical then 35 else if heat == Warm then 15 else 0) + PortPenalty()
    }

    function PortWarnings(): nat {
      down + (if flaps then 1 else 0) + weak
    }

    function PortPenalty(): nat {
      Min(down * 5, 25) + (if flaps then 15 else 0) + Min(weak * 5, 20)
    }
  }

  function TallyOf(lim: Limits, r: Record, now: Time): Tally {
    Tally(|Faults(r.parts)|, HeatOf(lim, r.temps), |Down(r.ports)|, |Flapping(lim, r.ports, now)| >= lim.flapMin, |WeakLevels(lim, r.ports)|)
  }

  function Min(a: nat, b: nat): nat {
    if a < b then a else b
  }

  function Clamp(score: int): nat {
    if score < 0 then 0 else if score > 100 then 100 else score
  }

  function Verdict(errors: nat, warns: nat): Status {
    if errors > 0 then Unhealthy else if warns > 0 then Degraded else Healthy
  }

  function ThermalReason(lim: Limits, temps: seq<Float>): seq<Finding> {
    match HeatOf(lim, temps)
    case Cool => []
    case Warm => [ThermalWarning(Hottest(temps))]
    case Critical => [ThermalCritical(Hottest(temps))]
  }

  function PortReasons(lim: Limits, ports: seq<Port>, now: Time): seq<Finding> {
    var down, flapping, weak := Down(ports), Flapping(lim, ports, now), WeakLevels(lim, ports);
    var one := if down != [] then [PortsDown(|down|)] else [];
    var two := if |flapping| >= lim.flapMin then one + [LinkFlap(|flapping|)] else one;
    if weak != [] then two + [OpticalLow(|weak|, Weakest(weak))] else two
  }

  function Assess(lim: Limits, r: Record, now: Time): Assessment {
    if !InContact(r) then Assessment(Unhealthy, 0, [LostContact(r.lostReason)], 1, 1, 0)
    else
      var t := TallyOf(lim, r, now);
      Assessment(Verdict(t.Errors(), t.Warnings()), Clamp(100 - t.Penalty()),
                 Faults(r.parts) + ThermalReason(lim, r.temps) + PortReasons(lim, r.ports, now),
                 if t.Errors() + t.Warnings() > 1 then t.Errors() + t.Warnings() else 1, t.Errors(), t.Warnings())
  }

  /** The worst finding first. */
  function Rank(s: Status): nat {
    match s
    case Unhealthy => 0
    case Degraded => 1
    case Healthy => 2
    case Unknown => 3
  }

  function Worst(a: Status, b: Status): Status {
    if Rank(a) <= Rank(b) then a else b
  }

  method ScanPorts(lim: Limits, ports: seq<Port>, now: Time) returns (down: seq<string>, flapping: seq<string>, weak: seq<Float>)
    ensures down == Down(ports) && flapping == Flapping(lim, ports, now) && weak == WeakLevels(lim, ports)
  {
    hide IsDown, IsFlapping, IsWeak;
    down, flapping, weak := [], [], [];
    for n := 0 to |ports|
      invariant down == Down(ports[..n]) && flapping == Flapping(lim, ports[..n], now) && weak == WeakLevels(lim, ports[..n])
    {
      assert ports[..n + 1][..n] == ports[..n];
      if IsDown(ports[n]) {
        down := down + [ports[n].name];
      }
      if IsFlapping(lim, ports[n], now) {
        flapping := flapping + [ports[n].name];
      }
      if IsWeak(lim, ports[n]) {
        WeakHasLevel(lim, ports[n]);
        weak := weak + [ports[n].rx.value];
      }
    }
    assert ports[..|ports|] == ports;
  }

  lemma WeakHasLevel(lim: Limits, p: Port)
    requires IsWeak(lim, p)
    ensures p.rx.Some?
  {
  }

  /**
    The status is the worst of the findings met on the way; it ends up unhealthy exactly when an error was
    counted, degraded exactly when there was none but a warning was, and the last correction never acts.
   */
  method AssessDevice(lim: Limits, r: Record, now: Time) returns (a: Assessment)
    ensures a == Assess(lim, r, now)
  {
    hide InContact, Faults, Down, Flapping, WeakLevels, Hottest, Weakest, PortReasons;
    var status, score, reasons := Healthy, 100, [];
    var errors: nat, warns: nat := 0, 0;
    if !InContact(r) {
      return Assessment(Unhealthy, 0, [LostContact(r.lostReason)], 1, 1, 0);
    }
    FaultsOfNone();
    for n := 0 to |r.parts|
      invariant reasons == Faults(r.parts[..n]) && errors == |reasons| && warns == 0
      invariant score == 100 - 40 * errors && status == Verdict(errors, warns)
    {
      FaultsSnoc(r.parts[..n], r.parts[n]);
      assert r.parts[..n + 1] == r.parts[..n] + [r.parts[n]];
      if r.parts[n].state == Bad {
        status := Worst(status, Unhealthy);
        score := score - 40;
        errors := errors + 1;
        reasons := reasons + [HardwareFault(r.parts[n].name)];
      }
    }
    assert r.parts[..|r.parts|] == r.parts;
    if r.temps != [] {
      var hottest := Hottest(r.temps);
      if AtLeast(hottest, lim.critical) {
        status := Worst(status, Unhealthy);
        score := score - 35;
        errors := errors + 1;
        reasons := reasons + [ThermalCritical(hottest)];
      } else if AtLeast(hottest, lim.warning) {
        status := Worst(status, Degraded);
        score := score - 15;
        warns := warns + 1;
        reasons := reasons + [ThermalWarning(hottest)];
      }
    }
    var found: seq<Finding>;
    status, score, warns, found := JudgePorts(lim, r, now, status, score, warns);
    reasons := reasons + found;
    assert reasons == Faults(r.parts) + ThermalReason(lim, r.temps) + PortReasons(lim, r.ports, now);
    score := Clamp(score);
    if status == Healthy && score < 85 {
      status := Degraded;
    }
    a := Assessment(status, score, reasons, if errors + warns > 1 then errors + warns else 1, errors, warns);
  }

  /** The three port findings, taken off the status and score so far. */
  method JudgePorts(lim: Limits, r: Record, now: Time, status0: Status, score0: int, warns0: nat)
    returns (status: Status, score: int, warns: nat, found: seq<Finding>)
    ensures var t := TallyOf(lim, r, now);
            && status == (if t.PortWarnings() > 0 then Worst(status0, Degraded) else status0)
            && score == score0 - t.PortPenalty() && warns == warns0 + t.PortWarnings()
    ensures found == PortReasons(lim, r.ports, now)
  {
    hide Faults, Down, Flapping, WeakLevels, HeatOf, Weakest, Min;
    status, score, warns, found := status0, score0, warns0, [];
    var down, flapping, weak := ScanPorts(lim, r.ports, now);
    if down != [] {
      status := Worst(status, Degraded);
      score := score - Min(|down| * 5, 25);
      warns := warns + |down|;
      found := found + [PortsDown(|down|)];
    }
    if |flapping| >= lim.flapMin {
      status := Worst(status, Degraded);
      score := score - 15;
      warns := warns + 1;
      found := found + [LinkFlap(|flapping|)];
    }
    if weak != [] {
      status := Worst(status, Degraded);
      score := score - Min(|weak| * 5, 20);
      warns := warns + |weak|;
      found := found + [OpticalLow(|weak|, Weakest(weak))];
    }
    MinOfNone();
  }

  lemma MinOfNone()
    ensures Min(0 * 5, 25) == 0 && Min(0 * 5, 20) == 0
  {
  }

  lemma FaultsOfNone()
    ensures Faults([]) == []
  {
  }

  lemma FaultsSnoc(parts: seq<Part>, p: Part)
    ensures Faults(parts + [p]) == Faults(parts) + (if p.state == Bad then [HardwareFault(p.name)] else [])
  {
    assert (parts + [p])[..|parts|] == parts;
  }

  // ------------------------------------------------------------------ facts

  /** Each verdict, by the counts; and healthy, no reasons and a full score are the same thing. */
  lemma VerdictsMeanCounts(lim: Limits, r: Record, now: Time)
    ensures var a := Assess(lim, r, now);
            && (a.status == Unhealthy <==> a.errors > 0)
            && (a.status == Degraded <==> a.errors == 0 && a.warns > 0)
            && (a.status == Healthy <==> a.reasons == [])
            && (a.status == Healthy <==> a.score == 100)
            && 0 <= a.score <= 100
            && a.events >= 1
  {
    hide InContact;
  }

  /** `b` is no better than `a`: neither its status nor its score. */
  predicate NoBetter(b: Assessment, a: Assessment) {
    b.score <= a.score && Rank(b.status) <= Rank(a.status)
  }

  predicate Dominates(worse: Tally, t: Tally) {
    && worse.bad >= t.bad && worse.down >= t.down && worse.weak >= t.weak && (t.flaps ==> worse.flaps)
    && (t.heat == Critical ==> worse.heat == Critical) && (t.heat == Warm ==> worse.heat != Cool)
  }

  lemma MoreFindingsNoBetter(lim: Limits, r: Record, worse: Record, now: Time)
    requires InContact(r) ==> !InContact(worse) || Dominates(TallyOf(lim, worse, now), TallyOf(lim, r, now))
    requires !InContact(r) ==> !InContact(worse)
    ensures NoBetter(Assess(lim, worse, now), Assess(lim, r, now))
  {
    hide InContact, TallyOf;
  }

  /** What a NaN listed first hides: readings are then never looked at. */
  predicate HidesHeat(lim: Limits, temps: seq<Float>, more: seq<Float>) {
    more != [] && more[0].NaN? && Hot(lim, temps)
  }

  /** The list does not begin with NaN and some reading reaches a limit. */
  predicate Hot(lim: Limits, temps: seq<Float>) {
    temps != [] && !temps[0].NaN? && exists n :: 0 <= n < |temps| && ReachesLimit(lim, temps[n])
  }

  predicate ReachesLimit(lim: Limits, t: Float) {
    AtLeast(t, lim.critical) || AtLeast(t, lim.warning)
  }

  ghost predicate Inserted<T(!new)>(s: seq<T>, more: seq<T>) {
    exists a, x, b :: s == a + b && more == a + x + b
  }

  /**
    Further parts, readings and ports, wherever they are listed, never make the assessment better, unless a NaN
    reading at the head of the list hides a temperature that had reached a limit.
   */
  lemma MoreEquipmentNeverHelps(lim: Limits, r: Record, worse: Record, now: Time)
    requires worse.lost == r.lost && worse.state == r.state
    requires Inserted(r.parts, worse.parts) && Inserted(r.temps, worse.temps) && Inserted(r.ports, worse.ports)
    requires !HidesHeat(lim, r.temps, worse.temps)
    ensures NoBetter(Assess(lim, worse, now), Assess(lim, r, now))
  {
    hide InContact, Assess, Faults, Down, Flapping, WeakLevels, HeatOf, NoBetter, HidesHeat;
    var pa, px, pb :| r.parts == pa + pb && worse.parts == pa + px + pb;
    var qa, qx, qb :| r.ports == qa + qb && worse.ports == qa + qx + qb;
    MoreParts(pa, px, pb);
    MoreHeat(lim, r.temps, worse.temps);
    MorePorts(lim, qa, qx, qb, now);
    SameContact(r, worse);
    MoreFindingsNoBetter(lim, r, worse, now);
  }

  /** What the parts and ports alone cost. */
  function OtherPenalty(lim: Limits, r: Record, now: Time): nat {
    TallyOf(lim, r, now).bad * 40 + TallyOf(lim, r, now).PortPenalty()
  }

  /**
    For readings alone, exactly: they fail to keep the assessment from improving if and only if the device is in
    contact, the list now begins with NaN while it was hot, and the rest does not cost the whole score anyway.
   */
  lemma MoreReadingsHelpExactlyWhenHidden(lim: Limits, r: Record, more: seq<Float>, now: Time)
    requires Inserted(r.temps, more)
    ensures NoBetter(Assess(lim, r.(temps := more), now), Assess(lim, r, now))
            <==> !(InContact(r) && HidesHeat(lim, r.temps, more) && OtherPenalty(lim, r, now) < 100)
  {
    var worse := r.(temps := more);
    SameContact(r, worse);
    if InContact(r) && HidesHeat(lim, r.temps, more) {
      HotIsNotCool(lim, r.temps);
      NanIsCool(lim, more);
      hide InContact, HeatOf, Faults, Down, Flapping, WeakLevels, HidesHeat, Hot;
      OnlyHeatDiffers(lim, r, more, now);
      CoolerTallyScores(TallyOf(lim, r, now));
    } else {
      InsertedNothing(r.parts);
      InsertedNothing(r.ports);
      if InContact(r) {
        MoreEquipmentNeverHelps(lim, r, worse, now);
      }
    }
  }

  lemma InsertedNothing<T(!new)>(s: seq<T>)
    ensures Inserted(s, s)
  {
    var none: seq<T> := [];
    assert s == s + none && s == s + none + none;
  }

  lemma OnlyHeatDiffers(lim: Limits, r: Record, more: seq<Float>, now: Time)
    ensures TallyOf(lim, r.(temps := more), now) == TallyOf(lim, r, now).(heat := HeatOf(lim, more))
    ensures TallyOf(lim, r, now).heat == HeatOf(lim, r.temps)
  {
  }

  /** Cooling down is worth something unless the rest costs the whole score. */
  lemma CoolerTallyScores(t: Tally)
    requires t.heat != Cool
    ensures var cool := t.(heat := Cool);
            && (Clamp(100 - cool.Penalty()) > Clamp(100 - t.Penalty()) <==> t.bad * 40 + t.PortPenalty() < 100)
            && (t.bad * 40 + t.PortPenalty() >= 100 ==>
                  Verdict(cool.Errors(), cool.Warnings()) == Verdict(t.Errors(), t.Warnings()))
  {
  }

  /** The input that shows it: at 80 degrees the device is unhealthy; with a NaN read before that, it is healthy. */
  lemma NanHidesHeat(now: Time)
    ensures var lim := Limits(70.0, 55.0, 900.0, 3, -20.0);
            var r := Record(Missing, "", Missing, [], [Finite(80.0)], []);
            && Assess(lim, r, now).status == Unhealthy && Assess(lim, r, now).score == 65
            && Assess(lim, r.(temps := [NaN, Finite(80.0)]), now).status == Healthy
            && Assess(lim, r.(temps := [NaN, Finite(80.0)]), now).score == 100
  {
    var lim := Limits(70.0, 55.0, 900.0, 3, -20.0);
    assert Hottest([Finite(80.0)]) == Finite(80.0);
    NanIsCool(lim, [NaN, Finite(80.0)]);
  }

  lemma SameContact(r: Record, worse: Record)
    requires worse.lost == r.lost && worse.state == r.state
    ensures InContact(worse) <==> InContact(r)
  {
  }

  lemma {:induction false} FaultsJoin(a: seq<Part>, b: seq<Part>)
    ensures |Faults(a + b)| == |Faults(a)| + |Faults(b)|
  {
    if b == [] {
      assert a + b == a;
    } else {
      FaultsJoin(a, b[..|b| - 1]);
      assert (a + b)[..|a + b| - 1] == a + b[..|b| - 1];
    }
  }

  lemma MoreParts(a: seq<Part>, x: seq<Part>, b: seq<Part>)
    ensures |Faults(a + x + b)| >= |Faults(a + b)|
  {
    FaultsJoin(a + x, b);
    FaultsJoin(a, x);
    FaultsJoin(a, b);
  }

  /** Led by NaN, the list is NaN; otherwise NaN readings are passed over and the largest of the others is found. */
  lemma {:induction false} HottestIsMax(temps: seq<Float>)
    requires temps != []
    ensures Hottest(temps) in temps
    ensures Hottest(temps).NaN? <==> temps[0].NaN?
    ensures !temps[0].NaN? ==> forall n :: 0 <= n < |temps| ==> !Above(temps[n], Hottest(temps))
  {
    if |temps| > 1 {
      HottestIsMax(temps[..|temps| - 1]);
      assert temps == temps[..|temps| - 1] + [Last(temps)];
    }
  }

  lemma NanIsCool(lim: Limits, temps: seq<Float>)
    requires temps != [] && temps[0].NaN?
    ensures HeatOf(lim, temps) == Cool
  {
    HottestIsMax(temps);
  }

  lemma HotIsNotCool(lim: Limits, temps: seq<Float>)
    ensures HeatOf(lim, temps) != Cool <==> Hot(lim, temps)
  {
    if temps != [] {
      HottestIsMax(temps);
      var n :| 0 <= n < |temps| && temps[n] == Hottest(temps);
      if Hot(lim, temps) {
        var m :| 0 <= m < |temps| && ReachesLimit(lim, temps[m]);
        assert !Above(temps[m], Hottest(temps));
      } else if !temps[0].NaN? {
        assert !ReachesLimit(lim, temps[n]);
      }
    }
  }

  lemma MoreHeat(lim: Limits, temps: seq<Float>, more: seq<Float>)
    requires Inserted(temps, more) && !HidesHeat(lim, temps, more)
    ensures HeatOf(lim, temps) == Critical ==> HeatOf(lim, more) == Critical
    ensures HeatOf(lim, temps) == Warm ==> HeatOf(lim, more) != Cool
  {
    HotIsNotCool(lim, temps);
    if HeatOf(lim, temps) != Cool {
      var a, x, b :| temps == a + b && more == a + x + b;
      HottestIsMax(temps);
      HottestIsMax(more);
      assert Hottest(temps) in a + b;
      assert Hottest(temps) in more;
      var n :| 0 <= n < |more| && more[n] == Hottest(temps);
      assert !Above(more[n], Hottest(more));
    }
  }

  lemma {:induction false} PortsJoin(lim: Limits, a: seq<Port>, b: seq<Port>, now: Time)
    ensures |Down(a + b)| == |Down(a)| + |Down(b)|
    ensures |Flapping(lim, a + b, now)| == |Flapping(lim, a, now)| + |Flapping(lim, b, now)|
    ensures |WeakLevels(lim, a + b)| == |WeakLevels(lim, a)| + |WeakLevels(lim, b)|
  {
    hide IsDown, IsFlapping;
    if b == [] {
      assert a + b == a;
    } else {
      PortsJoin(lim, a, b[..|b| - 1], now);
      assert (a + b)[..|a + b| - 1] == a + b[..|b| - 1];
    }
  }

  lemma MorePorts(lim: Limits, a: seq<Port>, x: seq<Port>, b: seq<Port>, now: Time)
    ensures |Down(a + x + b)| >= |Down(a + b)|
    ensures |Flapping(lim, a + x + b, now)| >= |Flapping(lim, a + b, now)|
    ensures |WeakLevels(lim, a + x + b)| >= |WeakLevels(lim, a + b)|
  {
    hide Down, Flapping, WeakLevels;
    PortsJoin(lim, a + x, b, now);
    PortsJoin(lim, a, x, now);
    PortsJoin(lim, a, b, now);
  }
}
