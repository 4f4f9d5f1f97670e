/** The potential calculation of Rankine: from a chip's node, size (explicit
    transistor count or die area), thermal design power and frequency it derives
    the throughput, the raw transistor count, the manufacturing cost when the node
    has one, and the total power. The source raises an exception on some inputs;
    each such exception is a `CalcError` carried by a `Failure` here. The
    calculation is stated over any set of tables; `RankineTables` are the tool's
    own. */
module Potential {
  import opened Outcomes
  import opened ProcessTable
  import opened Curves

  /** The inputs of one calculation. Absent count or area are None. */
  datatype ChipSpec = ChipSpec(
    dieAreaMm2: Option<real>,
    nodeNm: int,
    transistorCountMil: Option<int>,
    tdpW: real,
    frequencyMhz: real)

  /** The four results; `cost` is None, not zero, for a node without a cost entry. */
  datatype PotentialResult = PotentialResult(
    throughput: real,
    transistors: real,
    cost: Option<real>,
    powerW: real)

  /** The exceptions the calculation can raise, in the order it can raise them. */
  datatype CalcError =
    | MissingSize        // neither a transistor count nor a die area: the area estimate is handed None
    | ZeroNodeDivision   // the area estimate divides by the square of node 0
    | NoPowerCurve       // no power curve bucket covers the node
    | UnknownNode        // the node is missing from a device table

  /** The tables and curves the calculation reads. */
  datatype Tables = Tables(
    latencyPs: map<int, real>,
    dynamicPowerUw: map<int, real>,
    leakagePowerUw: map<int, real>,
    cost: map<int, real>,
    densityCurve: Curve,
    powerCurves: Buckets)

  const RankineTables: Tables :=
    Tables(LatencyPs, DynamicPowerUw, LeakagePowerUw, Cost, DensityCurve, PowerCurves)

  /** Every tabulated figure is positive and the buckets are scanned in order. */
  ghost predicate WellFormed(t: Tables) {
    && AllPositive(t.latencyPs) && AllPositive(t.dynamicPowerUw)
    && AllPositive(t.leakagePowerUw) && AllPositive(t.cost)
    && t.powerCurves.Valid()
  }

  /** The numeric constraints on a calculation's inputs: a positive budget and
      frequency, and a positive area whenever the area is what sizes the chip. */
  predicate ValidSpec(spec: ChipSpec) {
    && spec.tdpW > 0.0
    && spec.frequencyMhz > 0.0
    && (spec.transistorCountMil.None? && spec.dieAreaMm2.Some? ==> spec.dieAreaMm2.value > 0.0)
  }

  predicate HasSize(spec: ChipSpec) {
    spec.transistorCountMil.Some? || spec.dieAreaMm2.Some?
  }

  /** The smaller of two estimates, the one that binds; the first on a tie. */
  function Min(a: real, b: real): (r: real)
    ensures r <= a && r <= b
    ensures r == a || r == b
  {
    if a <= b then a else b
  }

  /** The raw transistor count: an explicit count (in millions) wins over the
      die area, which is consulted only when no count is given. */
  function RawTransistors(nx: Numerics, t: Tables, spec: ChipSpec): (r: Result<real, CalcError>)
    requires ValidSpec(spec)
    ensures spec.transistorCountMil.Some? ==> r == Success(spec.transistorCountMil.value as real * 1_000_000.0)
    ensures !HasSize(spec) ==> r == Failure(MissingSize)
    ensures r == Failure(ZeroNodeDivision) <==> HasSize(spec) && spec.transistorCountMil.None? && spec.nodeNm == 0
    ensures r.Failure? <==> !HasSize(spec) || (spec.transistorCountMil.None? && spec.nodeNm == 0)
    ensures r.Success? && spec.transistorCountMil.None? ==>
              r.value == TransistorCountFromDieSize(nx, t.densityCurve, spec.dieAreaMm2.value, spec.nodeNm)
  {
    match spec.transistorCountMil
    case Some(mil) => Success(mil as real * 1_000_000.0)
    case None =>
      match spec.dieAreaMm2
      case None => Failure(MissingSize)
      case Some(area) =>
        if spec.nodeNm == 0 then Failure(ZeroNodeDivision)
        else Success(TransistorCountFromDieSize(nx, t.densityCurve, area, spec.nodeNm))
  }

  /** One node's row of the device tables, as the calculation reads it. */
  datatype Device = Device(latencyPs: real, dynamicPowerUw: real, leakagePowerUw: real, costPerTransistor: Option<real>)

  ghost predicate ValidDevice(d: Device) {
    && d.latencyPs > 0.0 && d.dynamicPowerUw > 0.0 && d.leakagePowerUw > 0.0
    && (d.costPerTransistor.Some? ==> d.costPerTransistor.value > 0.0)
  }

  /** The device row of a node, or None when a table the calculation indexes
      lacks the node; the cost table is only consulted, never indexed blindly. */
  function LookupDevice(t: Tables, nodeNm: int): (d: Option<Device>)
    requires WellFormed(t)
    ensures d.Some? <==> nodeNm in t.latencyPs && nodeNm in t.leakagePowerUw && nodeNm in t.dynamicPowerUw
    ensures d.Some? ==> ValidDevice(d.value)
    ensures d.Some? ==>
      && d.value.latencyPs == t.latencyPs[nodeNm]
      && d.value.dynamicPowerUw == t.dynamicPowerUw[nodeNm]
      && d.value.leakagePowerUw == t.leakagePowerUw[nodeNm]
    ensures d.Some? ==> (d.value.costPerTransistor.None? <==> nodeNm !in t.cost)
    ensures d.Some? && nodeNm in t.cost ==> d.value.costPerTransistor == Some(t.cost[nodeNm])
  {
    if nodeNm !in t.latencyPs || nodeNm !in t.leakagePowerUw || nodeNm !in t.dynamicPowerUw then None
    else
      Some(Device(t.latencyPs[nodeNm], t.dynamicPowerUw[nodeNm], t.leakagePowerUw[nodeNm],
                  if nodeNm in t.cost then Some(t.cost[nodeNm]) else None))
  }

  /** Per-transistor leakage power in watts; it does not depend on the frequency. */
  function StaticPowerW(d: Device): (r: real)
    requires d.leakagePowerUw > 0.0
    ensures r > 0.0
    ensures r * 1_000_000.0 == d.leakagePowerUw
  {
    d.leakagePowerUw * 0.000001
  }

  /** Per-transistor dynamic power in watts: the node's dynamic power, measured
      at its intrinsic frequency 1e6 / latency MHz, scaled linearly to the chip's
      frequency; equivalently power times latency times frequency, times 1e-12. */
  function DynamicPowerW(d: Device, frequencyMhz: real): (r: real)
    requires d.latencyPs > 0.0 && d.dynamicPowerUw > 0.0
    requires frequencyMhz > 0.0
    ensures r > 0.0
    ensures r * 1_000_000_000_000.0 == d.dynamicPowerUw * d.latencyPs * frequencyMhz
  {
    var deviceFrequencyMhz := 1_000_000.0 / d.latencyPs;
    d.dynamicPowerUw * frequencyMhz / deviceFrequencyMhz * 0.000001
  }

  /** Combines the raw and the budget-limited counts for one device: the
      smaller binds throughput and carries the dynamic power, every raw
      transistor leaks, and cost exists only when the device has a cost figure. */
  function Combine(d: Device, frequencyMhz: real, transistors: real, tdpTransistors: real): (p: PotentialResult)
    requires ValidDevice(d) && frequencyMhz > 0.0
    ensures p.transistors == transistors
    ensures p.throughput <= tdpTransistors * frequencyMhz
    ensures p.throughput <= p.transistors * frequencyMhz
    ensures p.throughput == tdpTransistors * frequencyMhz || p.throughput == p.transistors * frequencyMhz
    ensures p.powerW == p.throughput / frequencyMhz * DynamicPowerW(d, frequencyMhz)
                        + p.transistors * StaticPowerW(d)
    ensures p.cost.None? <==> d.costPerTransistor.None?
    ensures p.cost.Some? ==> p.cost.value == p.transistors * d.costPerTransistor.value
    ensures transistors > 0.0 && tdpTransistors > 0.0 ==>
      p.throughput > 0.0 && p.powerW > 0.0 && (p.cost.Some? ==> p.cost.value > 0.0)
  {
    var bound := Min(tdpTransistors, transistors);
    var throughput := bound * frequencyMhz;
    var power := bound * DynamicPowerW(d, frequencyMhz) + transistors * StaticPowerW(d);
    var cost := match d.costPerTransistor
                case Some(c) => Some(transistors * c)
                case None => None;
    PotentialResult(throughput, transistors, cost, power)
  }

  /** The whole calculation. The first exception the source would raise becomes
      the failure: no size, then a zero node in the area estimate, then no power
      curve, then a node missing from a device table. */
  function PotentialCalculation(nx: Numerics, t: Tables, spec: ChipSpec): (r: Result<PotentialResult, CalcError>)
    requires WellFormed(t) && ValidSpec(spec)
    ensures r == Failure(MissingSize) <==> !HasSize(spec)
    ensures r == Failure(ZeroNodeDivision) <==> HasSize(spec) && spec.transistorCountMil.None? && spec.nodeNm == 0
    ensures r == Failure(NoPowerCurve) <==>
              && HasSize(spec) && !(spec.transistorCountMil.None? && spec.nodeNm == 0)
              && forall k :: k in t.powerCurves.curves ==> spec.nodeNm < k
    ensures r == Failure(UnknownNode) <==>
              && HasSize(spec) && !(spec.transistorCountMil.None? && spec.nodeNm == 0)
              && (exists k :: k in t.powerCurves.curves && k <= spec.nodeNm)
              && !(spec.nodeNm in t.latencyPs && spec.nodeNm in t.leakagePowerUw && spec.nodeNm in t.dynamicPowerUw)
    ensures r.Success? <==>
              && HasSize(spec) && !(spec.transistorCountMil.None? && spec.nodeNm == 0)
              && (exists k :: k in t.powerCurves.curves && k <= spec.nodeNm)
              && spec.nodeNm in t.latencyPs && spec.nodeNm in t.leakagePowerUw && spec.nodeNm in t.dynamicPowerUw
  {
    var transistors :- RawTransistors(nx, t, spec);
    var tdpTransistors :- match EffectiveTransistorCountFromTdp(nx, t.powerCurves, spec.nodeNm, spec.frequencyMhz, spec.tdpW)
                          case None => Failure(NoPowerCurve)
                          case Some(n) => Success(n);
    match LookupDevice(t, spec.nodeNm)
    case None => Failure(UnknownNode)
    case Some(d) => Success(Combine(d, spec.frequencyMhz, transistors, tdpTransistors))
  }

  /** A successful calculation is the combination of the raw count, the
      budget-limited count and the node's device row. */
  lemma SuccessIsCombination(nx: Numerics, t: Tables, spec: ChipSpec)
    requires WellFormed(t) && ValidSpec(spec)
    requires PotentialCalculation(nx, t, spec).Success?
    ensures RawTransistors(nx, t, spec).Success?
    ensures EffectiveTransistorCountFromTdp(nx, t.powerCurves, spec.nodeNm, spec.frequencyMhz, spec.tdpW).Some?
    ensures LookupDevice(t, spec.nodeNm).Some?
    ensures PotentialCalculation(nx, t, spec).value
         == Combine(LookupDevice(t, spec.nodeNm).value, spec.frequencyMhz, RawTransistors(nx, t, spec).value,
                    EffectiveTransistorCountFromTdp(nx, t.powerCurves, spec.nodeNm, spec.frequencyMhz, spec.tdpW).value)
  {
  }

  /** With an explicit transistor count the die area plays no part: any other
      area, or none, gives the same outcome. */
  lemma ExplicitCountTakesPriority(nx: Numerics, t: Tables, spec: ChipSpec, otherArea: Option<real>)
    requires WellFormed(t) && ValidSpec(spec)
    requires spec.transistorCountMil.Some?
    ensures ValidSpec(spec.(dieAreaMm2 := otherArea))
    ensures PotentialCalculation(nx, t, spec) == PotentialCalculation(nx, t, spec.(dieAreaMm2 := otherArea))
  {
    assert RawTransistors(nx, t, spec) == RawTransistors(nx, t, spec.(dieAreaMm2 := otherArea));
  }

  /** The reported transistor count is the raw one, not the bound one: the
      explicit count in millions times 1e6, or else the die area estimate. */
  lemma ReportedTransistorsAreRaw(nx: Numerics, t: Tables, spec: ChipSpec)
    requires WellFormed(t) && ValidSpec(spec)
    requires PotentialCalculation(nx, t, spec).Success?
    ensures var p := PotentialCalculation(nx, t, spec).value;
      && (spec.transistorCountMil.Some? ==> p.transistors == spec.transistorCountMil.value as real * 1_000_000.0)
      && (spec.transistorCountMil.None? ==>
            p.transistors == TransistorCountFromDieSize(nx, t.densityCurve, spec.dieAreaMm2.value, spec.nodeNm))
  {
    SuccessIsCombination(nx, t, spec);
  }

  /** Cost is absent, not zero, exactly when the node has no cost entry; when
      present it is priced with that entry. */
  lemma CostAbsentExactlyWithoutEntry(nx: Numerics, t: Tables, spec: ChipSpec)
    requires WellFormed(t) && ValidSpec(spec)
    requires PotentialCalculation(nx, t, spec).Success?
    ensures LookupDevice(t, spec.nodeNm).Some?
    ensures PotentialCalculation(nx, t, spec).value.cost.None? <==> spec.nodeNm !in t.cost
    ensures spec.nodeNm in t.cost ==> LookupDevice(t, spec.nodeNm).value.costPerTransistor == Some(t.cost[spec.nodeNm])
  {
    SuccessIsCombination(nx, t, spec);
  }

  /** When the calculation succeeds for a chip with a positive transistor count
      (or one sized by area), every output is positive, and so is the cost when
      present. */
  lemma OutputsPositive(nx: Numerics, t: Tables, spec: ChipSpec)
    requires Sound(nx) && WellFormed(t) && ValidSpec(spec)
    requires spec.transistorCountMil.Some? ==> spec.transistorCountMil.value > 0
    ensures var r := PotentialCalculation(nx, t, spec);
      r.Success? ==>
      && r.value.transistors > 0.0 && r.value.throughput > 0.0 && r.value.powerW > 0.0
      && (r.value.cost.Some? ==> r.value.cost.value > 0.0)
  {
    if PotentialCalculation(nx, t, spec).Failure? {
      return;
    }
    SuccessIsCombination(nx, t, spec);
    TdpEstimatePositive(nx, t.powerCurves, spec.nodeNm, spec.frequencyMhz, spec.tdpW);
    if spec.transistorCountMil.None? {
      DieSizeEstimatePositive(nx, t.densityCurve, spec.dieAreaMm2.value, spec.nodeNm);
    }
  }

  // Rankine's own tables.

  lemma RankineTablesWellFormed()
    ensures WellFormed(RankineTables)
  {
    LatencyPositive();
    PowersPositive();
    EnergyAndCostPositive();
    PowerCurvesValid();
  }

  /** With Rankine's tables the calculation succeeds exactly for a sized chip
      at a supported node, so the supported-node check made before calling it
      rules out every failure but a missing size; below node 5 no power curve
      applies, and from 5 up an unsupported node is unknown to the tables. */
  lemma RankineOutcomes(nx: Numerics, spec: ChipSpec)
    requires ValidSpec(spec)
    ensures WellFormed(RankineTables)
    ensures PotentialCalculation(nx, RankineTables, spec).Success?
        <==> HasSize(spec) && spec.nodeNm in SupportedNodes
    ensures HasSize(spec) && spec.nodeNm < 5 && !(spec.transistorCountMil.None? && spec.nodeNm == 0)
        ==> PotentialCalculation(nx, RankineTables, spec) == Failure(NoPowerCurve)
    ensures HasSize(spec) && spec.nodeNm >= 5 && spec.nodeNm !in SupportedNodes
        ==> PotentialCalculation(nx, RankineTables, spec) == Failure(UnknownNode)
  {
    RankineTablesWellFormed();
    SupportedNodesAreLatencyKeys();
    TablesInLockstep();
    PowerCurvesCoverSupportedNodes(spec.nodeNm);
    var r := PotentialCalculation(nx, RankineTables, spec);
    if HasSize(spec) && spec.nodeNm in SupportedNodes {
      assert 5 in PowerCurves.curves && 5 <= spec.nodeNm;
    }
    if HasSize(spec) && spec.nodeNm >= 5 && spec.nodeNm !in SupportedNodes {
      assert 5 in PowerCurves.curves;
      assert r.Failure? && r != Failure(NoPowerCurve);
    }
  }

  /** With Rankine's tables cost is absent for exactly the supported nodes 180,
      80 and 12. */
  lemma RankineCostAbsentForUncostedNodes(nx: Numerics, spec: ChipSpec)
    requires ValidSpec(spec)
    requires HasSize(spec) && spec.nodeNm in SupportedNodes
    ensures WellFormed(RankineTables)
    ensures PotentialCalculation(nx, RankineTables, spec).Success?
    ensures PotentialCalculation(nx, RankineTables, spec).value.cost.None? <==> spec.nodeNm in {180, 80, 12}
  {
    RankineOutcomes(nx, spec);
    CostAbsentExactlyWithoutEntry(nx, RankineTables, spec);
    CostCoverage();
  }
}
