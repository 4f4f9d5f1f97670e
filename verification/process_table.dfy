/** The per-node device characterisation tables of Rankine: for each CMOS node
    (feature size in nanometres) the switching energy, the dynamic and leakage
    power of one transistor at the node's intrinsic frequency, the intrinsic gate
    latency, and, for most nodes, a manufacturing cost figure per transistor. */
module ProcessTable {

  /** Switching energy per transistor, femtojoules. */
  const EnergyFj: map<int, real> := map[
    180 := 27.5, 150 := 11.96, 130 := 5.2, 110 := 3.69, 90 := 2.62,
    80 := 2.12, 65 := 1.72, 55 := 1.34, 45 := 1.05, 40 := 1.0,
    32 := 0.51, 28 := 0.45, 22 := 0.3, 20 := 0.2, 16 := 0.18,
    14 := 0.14, 12 := 0.13, 10 := 0.12, 7 := 0.11, 5 := 0.1]

  /** Dynamic power per transistor at the intrinsic frequency, microwatts. */
  const DynamicPowerUw: map<int, real> := map[
    180 := 356.22, 150 := 231.04, 130 := 149.86, 110 := 121.72, 90 := 98.87,
    80 := 92.67, 65 := 86.87, 55 := 91.48, 45 := 96.33, 40 := 94.34,
    32 := 52.04, 28 := 46.39, 22 := 30.84, 20 := 20.5, 16 := 29.25,
    14 := 35.82, 12 := 36.73, 10 := 37.65, 7 := 44.94, 5 := 46.83]

  /** Leakage power per transistor, microwatts. */
  const LeakagePowerUw: map<int, real> := map[
    180 := 105.0, 150 := 50.0, 130 := 26.1, 110 := 18.42, 90 := 13.0,
    80 := 10.56, 65 := 8.58, 55 := 6.67, 45 := 5.19, 40 := 5.0,
    32 := 2.47, 28 := 2.13, 22 := 1.79, 20 := 1.51, 16 := 1.28,
    14 := 0.99, 12 := 0.93, 10 := 0.87, 7 := 0.79, 5 := 0.72]

  /** Intrinsic gate latency, picoseconds; its inverse is the node's intrinsic frequency. */
  const LatencyPs: map<int, real> := map[
    180 := 77.2, 150 := 51.76, 130 := 34.7, 110 := 30.32, 90 := 26.5,
    80 := 22.91, 65 := 19.8, 55 := 14.69, 45 := 10.9, 40 := 10.6,
    32 := 9.8, 28 := 9.7, 22 := 9.68, 20 := 9.66, 16 := 6.12,
    14 := 4.02, 12 := 3.61, 10 := 3.24, 7 := 2.47, 5 := 2.16]

  /** Manufacturing cost per transistor; nodes 180, 80 and 12 have no entry. */
  const Cost: map<int, real> := map[
    150 := 7.91, 130 := 5.63, 110 := 4.75, 90 := 4.01, 65 := 2.82,
    55 := 2.34, 45 := 1.94, 40 := 1.94, 32 := 1.94, 28 := 1.3,
    22 := 1.67, 20 := 1.54, 16 := 1.43, 14 := 1.43, 10 := 1.45,
    7 := 1.52, 5 := 1.65]

  /** The nodes a chip may be built in: the keys of the latency table (see
      SupportedNodesAreLatencyKeys), written out. */
  const SupportedNodes: set<int> := {180, 150, 130, 110, 90, 80, 65, 55, 45, 40,
                                     32, 28, 22, 20, 16, 14, 12, 10, 7, 5}

  ghost predicate AllPositive(m: map<int, real>) {
    forall n :: n in m ==> m[n] > 0.0
  }

  /** The supported nodes are what the latency table is keyed by. */
  lemma SupportedNodesAreLatencyKeys()
    ensures LatencyPs.Keys == SupportedNodes
  {
  }

  /** The supported nodes run from 5 to 180 nanometres. */
  lemma SupportedNodesRange()
    ensures forall n :: n in SupportedNodes ==> 5 <= n <= 180
    ensures 5 in SupportedNodes && 180 in SupportedNodes
  {
  }

  /** The energy and power tables are populated in lockstep with the latency
      table, so every lookup the calculation makes for a supported node succeeds. */
  lemma TablesInLockstep()
    ensures DynamicPowerUw.Keys == SupportedNodes
    ensures LeakagePowerUw.Keys == SupportedNodes
    ensures EnergyFj.Keys == SupportedNodes
  {
  }

  /** Cost covers every supported node except 180, 80 and 12, and nothing else. */
  lemma CostCoverage()
    ensures Cost.Keys == SupportedNodes - {180, 80, 12}
    ensures forall n :: n in SupportedNodes ==> (n !in Cost <==> n in {180, 80, 12})
  {
    SupportedNodesAreLatencyKeys();
  }

  /** Every tabulated figure is strictly positive; in particular a latency is
      never zero, so the intrinsic frequency is always defined. */
  lemma LatencyPositive()
    ensures AllPositive(LatencyPs)
  {
  }

  lemma PowersPositive()
    ensures AllPositive(DynamicPowerUw)
    ensures AllPositive(LeakagePowerUw)
  {
  }

  lemma EnergyAndCostPositive()
    ensures AllPositive(EnergyFj)
    ensures AllPositive(Cost)
  {
  }
}
