/** The score of a device, read straight off its record: how many parts and ports are in which condition, and what each costs. */
module MapperScores {
  import opened Sequences
  import opened Messages
  import opened Mapper

  function BadParts(r: Record): set<nat> {
    set n | 0 <= n < |r.parts| && r.parts[n].state == Bad
  }

  function DownPorts(r: Record): set<nat> {
    set n | 0 <= n < |r.ports| && (r.ports[n].status == "down" || r.ports[n].status == "inactive" || r.ports[n].status == "false")
  }

  /** Ports whose link changed within the window, but not at this very moment. */
  function FlappingPorts(lim: Limits, r: Record, now: Time): set<nat> {
    set n | 0 <= n < |r.ports| && r.ports[n].lastChange.Some? && r.ports[n].lastChange.value.Finite?
            && r.ports[n].lastChange.value.value < now < r.ports[n].lastChange.value.value + lim.flapWindow
  }

  /** Optical ports that receive less than the limit. */
  function DimPorts(lim: Limits, r: Record): set<nat> {
    set n | 0 <= n < |r.ports| && r.ports[n].sfp != "copper" && r.ports[n].rx.Some?
            && (r.ports[n].rx.value == Infinite(false) || (r.ports[n].rx.value.Finite? && r.ports[n].rx.value.value < lim.rxWarn))
  }

  ghost predicate Critically(lim: Limits, r: Record) {
    r.temps != [] && !r.temps[0].NaN? && exists n :: 0 <= n < |r.temps| && AtLeast(r.temps[n], lim.critical)
  }

  ghost predicate Warmly(lim: Limits, r: Record) {
    r.temps != [] && !r.temps[0].NaN? && !Critically(lim, r) && exists n :: 0 <= n < |r.temps| && AtLeast(r.temps[n], lim.warning)
  }

  // ------------------------------------------------------- lists count sets

  lemma CountOne(less: set<nat>, more: set<nat>, n: nat, one: bool)
    requires n !in less && forall m :: m in more <==> m in less || (one && m == n)
    ensures |more| == |less| + if one then 1 else 0
  {
    assert more == less + if one then {n} else {};
  }

  lemma {:induction false} FaultsCount(r: Record)
    ensures |Faults(r.parts)| == |BadParts(r)|
    decreases |r.parts|
  {
    if r.parts != [] {
      var n := |r.parts| - 1;
      var less := r.(parts := r.parts[..n]);
      FaultsCount(less);
      forall m: nat ensures m in BadParts(r) <==> m in BadParts(less) || (r.parts[n].state == Bad && m == n) {
        assert m < n ==> less.parts[m] == r.parts[m];
      }
      CountOne(BadParts(less), BadParts(r), n, r.parts[n].state == Bad);
    }
  }

  lemma {:induction false} DownCounts(r: Record)
    ensures |Down(r.ports)| == |DownPorts(r)|
    decreases |r.ports|
  {
    if r.ports != [] {
      var n := |r.ports| - 1;
      var less := r.(ports := r.ports[..n]);
      DownCounts(less);
      forall m: nat ensures m in DownPorts(r) <==> m in DownPorts(less) || (IsDown(r.ports[n]) && m == n) {
        assert m < n ==> less.ports[m] == r.ports[m];
      }
      CountOne(DownPorts(less), DownPorts(r), n, IsDown(r.ports[n]));
    }
  }

  lemma {:induction false} FlappingCounts(lim: Limits, r: Record, now: Time)
    ensures |Flapping(lim, r.ports, now)| == |FlappingPorts(lim, r, now)|
    decreases |r.ports|
  {
    if r.ports != [] {
      var n := |r.ports| - 1;
      var less := r.(ports := r.ports[..n]);
      FlappingCounts(lim, less, now);
      forall m: nat ensures m in FlappingPorts(lim, r, now) <==> m in FlappingPorts(lim, less, now) || (IsFlapping(lim, r.ports[n], now) && m == n) {
        assert m < n ==> less.ports[m] == r.ports[m];
      }
      CountOne(FlappingPorts(lim, less, now), FlappingPorts(lim, r, now), n, IsFlapping(lim, r.ports[n], now));
    }
  }

  lemma {:induction false} DimCounts(lim: Limits, r: Record)
    ensures |WeakLevels(lim, r.ports)| == |DimPorts(lim, r)|
    decreases |r.ports|
  {
    if r.ports != [] {
      var n := |r.ports| - 1;
      var less := r.(ports := r.ports[..n]);
      DimCounts(lim, less);
      forall m: nat ensures m in DimPorts(lim, r) <==> m in DimPorts(lim, less) || (IsWeak(lim, r.ports[n]) && m == n) {
        assert m < n ==> less.ports[m] == r.ports[m];
      }
      CountOne(DimPorts(lim, less), DimPorts(lim, r), n, IsWeak(lim, r.ports[n]));
    }
  }

  lemma HeatExactly(lim: Limits, r: Record)
    ensures HeatOf(lim, r.temps) == Critical <==> Critically(lim, r)
    ensures HeatOf(lim, r.temps) == Warm <==> Warmly(lim, r)
  {
    if r.temps != [] {
      HottestIsMax(r.temps);
      var n :| 0 <= n < |r.temps| && r.temps[n] == Hottest(r.temps);
      if Critically(lim, r) {
        var m :| 0 <= m < |r.temps| && AtLeast(r.temps[m], lim.critical);
        assert !Above(r.temps[m], Hottest(r.temps));
      } else if Warmly(lim, r) {
        var m :| 0 <= m < |r.temps| && AtLeast(r.temps[m], lim.warning);
        assert !Above(r.temps[m], Hottest(r.temps));
        assert !AtLeast(r.temps[n], lim.critical);
      } else if !r.temps[0].NaN? {
        assert !AtLeast(r.temps[n], lim.critical) && !AtLeast(r.temps[n], lim.warning);
      }
    }
  }

  // ------------------------------------------------------------ main results

  function AtMost(a: nat, b: nat): nat {
    if a <= b then a else b
  }

  /**
    The counts and the score, exactly: 40 for each failed part, 35 or 15 for heat, 5 for each port down up to 25,
    15 for flapping, 5 for each dim port up to 20, and never below 0.
   */
  lemma ScoreFromRecord(lim: Limits, r: Record, now: Time)
    requires InContact(r)
    ensures var a := Assess(lim, r, now);
            var bad, down, dim := |BadParts(r)|, |DownPorts(r)|, |DimPorts(lim, r)|;
            var flaps := |FlappingPorts(lim, r, now)| >= lim.flapMin;
            var cost := 40 * bad + (if Critically(lim, r) then 35 else if Warmly(lim, r) then 15 else 0)
                        + AtMost(5 * down, 25) + (if flaps then 15 else 0) + AtMost(5 * dim, 20);
            && a.score == (if cost >= 100 then 0 else 100 - cost)
            && a.errors == bad + (if Critically(lim, r) then 1 else 0)
            && a.warns == (if Warmly(lim, r) then 1 else 0) + down + (if flaps then 1 else 0) + dim
            && a.events == (if a.errors + a.warns >= 1 then a.errors + a.warns else 1)
  {
    FaultsCount(r);
    DownCounts(r);
    FlappingCounts(lim, r, now);
    DimCounts(lim, r);
    HeatExactly(lim, r);
    hide InContact, Faults, Down, Flapping, WeakLevels, HeatOf, BadParts, DownPorts, FlappingPorts, DimPorts, Critically, Warmly, ThermalReason, PortReasons;
  }

  /** A device the platform says it lost, or whose state is false, is unhealthy at 0 whatever else is read; no other is out of contact. */
  lemma LostContactExactly(lim: Limits, r: Record, now: Time)
    ensures var lost := match r.lost
                        case Missing => false
                        case Flag(on) => on
                        case Number(n) => n != 0.0
                        case Text(s) => s != "" && s != "null" && s != "0"
                        case Other => true;
            var off := match r.state
                       case Flag(on) => !on
                       case Number(n) => n == 0.0
                       case Text(s) => s == "False" || s == "false"
                       case _ => false;
            && (lost || off ==> Assess(lim, r, now) == Assessment(Unhealthy, 0, [LostContact(r.lostReason)], 1, 1, 0))
            && (!lost && !off ==> LostContact(r.lostReason) !in Assess(lim, r, now).reasons)
  {
    hide Faults, ThermalReason, PortReasons, TallyOf;
    FaultsAreFaults(r.parts, r.lostReason);
    OtherReasons(lim, r, now);
  }

  lemma {:induction false} FaultsAreFaults(parts: seq<Part>, why: string)
    ensures LostContact(why) !in Faults(parts)
  {
    if parts != [] {
      FaultsAreFaults(parts[..|parts| - 1], why);
    }
  }

  lemma OtherReasons(lim: Limits, r: Record, now: Time)
    ensures LostContact(r.lostReason) !in ThermalReason(lim, r.temps) && LostContact(r.lostReason) !in PortReasons(lim, r.ports, now)
  {
    hide HeatOf, Down, Flapping, WeakLevels, Hottest, Weakest;
  }

  lemma {:induction false} FaultNames(parts: seq<Part>, x: string)
    ensures HardwareFault(x) in Faults(parts) <==> exists n :: 0 <= n < |parts| && parts[n].state == Bad && parts[n].name == x
    ensures forall y :: y in Faults(parts) ==> y.HardwareFault?
  {
    if parts != [] {
      var front := parts[..|parts| - 1];
      FaultNames(front, x);
      if n :| 0 <= n < |parts| && parts[n].state == Bad && parts[n].name == x {
        assert n < |front| ==> front[n] == parts[n];
      }
    }
  }

  /** The weakest level is one of them, and none is below it. */
  lemma {:induction false} WeakestIsMin(levels: seq<Float>)
    requires levels != [] && forall n :: 0 <= n < |levels| ==> !levels[n].NaN?
    ensures Weakest(levels) in levels && forall n :: 0 <= n < |levels| ==> !Above(Weakest(levels), levels[n])
  {
    if |levels| > 1 {
      WeakestIsMin(levels[..|levels| - 1]);
      assert levels == levels[..|levels| - 1] + [Last(levels)];
    }
  }

  lemma {:induction false} WeakLevelsAreNumbers(lim: Limits, ports: seq<Port>)
    ensures forall n :: 0 <= n < |WeakLevels(lim, ports)| ==> !WeakLevels(lim, ports)[n].NaN?
    ensures forall x :: x in WeakLevels(lim, ports) <==> exists n :: 0 <= n < |ports| && IsWeak(lim, ports[n]) && ports[n].rx.value == x
  {
    if ports != [] {
      var front := ports[..|ports| - 1];
      WeakLevelsAreNumbers(lim, front);
      forall x ensures x in WeakLevels(lim, ports) <==> exists n :: 0 <= n < |ports| && IsWeak(lim, ports[n]) && ports[n].rx.value == x {
        if n :| 0 <= n < |front| && IsWeak(lim, front[n]) && front[n].rx.value == x {
          assert ports[n] == front[n];
        }
        if n :| 0 <= n < |ports| && IsWeak(lim, ports[n]) && ports[n].rx.value == x {
          assert n < |front| ==> front[n] == ports[n];
        }
      }
    }
  }

  /** The level an optical finding names is that of some dim port, and no dim port receives less. */
  lemma NamedLevelIsWeakest(lim: Limits, r: Record)
    requires WeakLevels(lim, r.ports) != []
    ensures var worst := Weakest(WeakLevels(lim, r.ports));
            && (exists n :: 0 <= n < |r.ports| && IsWeak(lim, r.ports[n]) && r.ports[n].rx.value == worst)
            && forall n :: 0 <= n < |r.ports| && IsWeak(lim, r.ports[n]) ==> !Above(worst, r.ports[n].rx.value)
  {
    var levels := WeakLevels(lim, r.ports);
    WeakLevelsAreNumbers(lim, r.ports);
    WeakestIsMin(levels);
    forall n | 0 <= n < |r.ports| && IsWeak(lim, r.ports[n]) ensures !Above(Weakest(levels), r.ports[n].rx.value) {
      assert r.ports[n].rx.value in levels;
    }
  }

  lemma PortFindings(lim: Limits, r: Record, now: Time, y: Finding)
    ensures y in PortReasons(lim, r.ports, now) <==>
            || (y == PortsDown(|Down(r.ports)|) && Down(r.ports) != [])
            || (y == LinkFlap(|Flapping(lim, r.ports, now)|) && |Flapping(lim, r.ports, now)| >= lim.flapMin)
            || (WeakLevels(lim, r.ports) != [] && y == OpticalLow(|WeakLevels(lim, r.ports)|, Weakest(WeakLevels(lim, r.ports))))
  {
    hide Down, Flapping, WeakLevels, Weakest;
    var one := if Down(r.ports) != [] then [PortsDown(|Down(r.ports)|)] else [];
    var two := if |Flapping(lim, r.ports, now)| >= lim.flapMin then one + [LinkFlap(|Flapping(lim, r.ports, now)|)] else one;
    assert y in one <==> y == PortsDown(|Down(r.ports)|) && Down(r.ports) != [];
    assert y in two <==> y in one || (y == LinkFlap(|Flapping(lim, r.ports, now)|) && |Flapping(lim, r.ports, now)| >= lim.flapMin);
  }

  /** The reasons name each failed part, the hottest reading when it is too hot, and how many ports are in which trouble. */
  lemma ReasonsTellFindings(lim: Limits, r: Record, now: Time, y: Finding)
    requires InContact(r)
    ensures y in Assess(lim, r, now).reasons <==>
            match y
            case LostContact(_) => false
            case HardwareFault(x) => exists n :: 0 <= n < |r.parts| && r.parts[n].state == Bad && r.parts[n].name == x
            case ThermalCritical(t) => Critically(lim, r) && t == Hottest(r.temps)
            case ThermalWarning(t) => Warmly(lim, r) && t == Hottest(r.temps)
            case PortsDown(k) => k == |DownPorts(r)| && k > 0
            case LinkFlap(k) => k == |FlappingPorts(lim, r, now)| && k >= lim.flapMin
            case OpticalLow(k, worst) => k == |DimPorts(lim, r)| && WeakLevels(lim, r.ports) != [] && worst == Weakest(WeakLevels(lim, r.ports))
  {
    hide InContact, Faults, PortReasons, Down, Flapping, WeakLevels, HeatOf, DownPorts, FlappingPorts, DimPorts, Critically, Warmly, TallyOf, Hottest, Weakest;
    FaultNames(r.parts, if y.HardwareFault? then y.part else "");
    PortFindings(lim, r, now, y);
    DownCounts(r);
    FlappingCounts(lim, r, now);
    DimCounts(lim, r);
    HeatExactly(lim, r);
    assert y in Assess(lim, r, now).reasons <==>
           y in Faults(r.parts) || y in ThermalReason(lim, r.temps) || y in PortReasons(lim, r.ports, now);
  }
}
