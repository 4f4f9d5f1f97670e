# Rankine CMOS potential, in Dafny

Rankine estimates what a chip built in a given CMOS node can achieve. The inputs are:

- the node's feature size, in nanometres;
- its size, as an explicit transistor count in millions or as a die area;
- its thermal design power (TDP);
- its clock frequency.

The outputs are:

- throughput;
- the raw transistor count;
- a manufacturing cost, absent for nodes without a cost figure;
- total power.

This project models the calculation's core.

- **Device tables** (`ProcessTable`): per-node latency, dynamic power, leakage power, switching energy and cost. They are literal maps copied from the source. Lemmas state which nodes each table covers and that every figure is positive.
- **Estimators** (`Curves`):
  - The die-size regression.
  - The power-restricted regression. Its curve is chosen by node bucket: a scan over the bucket bounds, largest first, that stops at the first bound not above the node.
  - `np.exp` and `**` are floating-point library calls. They are the two fields of a `Numerics` value, which every estimator takes as a parameter. The lemmas that need them assume only that both are positive (`Sound`) and, for the monotonicity lemmas, that a positive power increases with its base (`PowIncreasing`).
  - The bucket table is a `Buckets` value: the curve map, plus the order the scan visits its keys. `Valid` says that order is descending and holds exactly the map's keys. `ScanOrderDetermined` shows that such an order is unique, so it is the source's `sorted(keys)[::-1]`.
- **Calculator** (`Potential`):
  - `PotentialCalculation` is stated over any `Tables` value; `RankineTables` are the tool's own.
  - It returns either the four results or the exception the source would raise first, in source order:
    - `MissingSize`: no count and no area, so `float(None)` raises a TypeError.
    - `ZeroNodeDivision`: an area estimate at node 0 raises a ZeroDivisionError.
    - `NoPowerCurve`: the "should not happen" assertion fails.
    - `UnknownNode`: a device-table lookup raises a KeyError.
  - `Combine` is the arithmetic after the lookups. Its contract carries the throughput bound, the power split, the cost rule and positivity. `SuccessIsCombination` says a successful calculation is exactly `Combine` applied to the raw count, the TDP estimate and the node's device row.

Numbers are Dafny `real`s, so there is no rounding.

## Model

| member | source | states |
|---|---|---|
| ProcessTable.SupportedNodesAreLatencyKeys | rankine/rankine.py:97-117 | The set of supported nodes (the keys of the latency table, which the command line checks membership in) is exactly the twenty nodes 180, 150, 130, 110, 90, 80, 65, 55, 45, 40, 32, 28, 22, 20, 16, 14, 12, 10, 7 and 5. |
| ProcessTable.SupportedNodesRange | rankine/rankine.py:97-117 | Every supported node lies between 5 and 180 nm, and both ends are supported. |
| ProcessTable.TablesInLockstep | rankine/rankine.py:34-96 | The dynamic power, leakage power and energy tables are keyed by exactly the supported nodes, so the lookups at lines 203-204 cannot fail for a node that passed the membership check. |
| ProcessTable.CostCoverage | rankine/rankine.py:140-157 | The cost table covers every supported node except 180, 80 and 12, and nothing else. |
| ProcessTable.LatencyPositive | rankine/rankine.py:97-117 | Every latency is positive, so the intrinsic frequency 1e6 / latency at line 201 is always defined. |
| ProcessTable.PowersPositive | rankine/rankine.py:55-96 | Every dynamic and leakage power figure is positive. |
| ProcessTable.EnergyAndCostPositive | rankine/rankine.py:34-54 | Every switching energy is positive, and so is every cost figure (lines 140-157). |
| Curves.FirstAtMost | rankine/rankine.py:183-186 | The scan over descending bounds that stops at the first bound not above the node returns the largest bound that is at most the node. It returns nothing exactly when every bound is above the node. |
| Curves.SelectBound | rankine/rankine.py:180-187 | For a valid bucket table, the selected key is the largest key at most the node ("max of {k \| k <= node}"). There is none exactly when every key exceeds the node. |
| Curves.DescendingUnique | rankine/rankine.py:183 | Two strictly descending sequences with the same elements are equal, so a descending listing of a key set is unique. |
| Curves.ScanOrderDetermined | rankine/rankine.py:183 | Any two valid bucket tables with the same keys scan them in the same order, which is therefore the keys sorted and reversed. |
| Curves.EffectiveTransistorCountFromTdp | rankine/rankine.py:180-189 | There is no estimate (the assertion at line 187 fails) exactly when every bucket bound is above the node. Otherwise the estimate uses the curve of the selected bucket (the largest bound at most the node): estimate × frequency in MHz equals exp(logCoef) × tdp^exponent × 1000, i.e. the budget divided by the frequency in GHz. |
| Curves.DensityFactor | rankine/rankine.py:177 | The density factor is the die area per squared node: multiplied back by node² it gives the area. |
| Curves.DieSizeEstimateScaleInvariant | rankine/rankine.py:176-178 | The die-size estimate sees area and node only through area / node²: scaling the node by c and the area by c² gives the same count. |
| Curves.DieSizeEstimatePositive | rankine/rankine.py:176-178 | Given a positive exp and power, the die-size estimate for a positive area at a non-zero node is a positive count. |
| Curves.TdpEstimatePositive | rankine/rankine.py:188-189 | Given a positive exp and power, the TDP estimate exists and is positive whenever a bucket is selected. |
| Curves.DieSizeEstimateIncreasesWithArea | rankine/rankine.py:176-178 | With a power increasing in its base and a positive exponent, a larger die at the same node gives a strictly larger count. |
| Curves.DieSizeEstimateDecreasesWithNode | rankine/rankine.py:176-178 | Under the same assumptions, the same area at a larger feature size gives a strictly smaller count, because the density factor shrinks. |
| Curves.TdpEstimateDecreasesWithFrequency | rankine/rankine.py:188-189 | At a fixed node and TDP, a strictly higher frequency gives a strictly smaller TDP-limited count: a positive budget divided by a larger frequency. |
| Curves.TdpEstimateIncreasesWithTdp | rankine/rankine.py:188-189 | At a fixed node and frequency, when every curve has a positive exponent, a larger TDP gives a strictly larger count. |
| Curves.TdpThroughputCeilingIndependentOfFrequency | rankine/rankine.py:188-189 | The TDP-limited count times the frequency, the ceiling it puts on throughput at line 202, is the same at every frequency. |
| Curves.PowerCurvesValid | rankine/rankine.py:168-174 | Rankine's bucket table is valid: its scan order 150, 65, 40, 28, 12, 5 is descending and is exactly its keys. |
| Curves.CurveExponentsPositive | rankine/rankine.py:163-174 | The die-size curve and every power curve have a positive exponent, which the monotonicity lemmas require. |
| Curves.SelectionBySixBounds | rankine/rankine.py:183-186 | For any valid table with the bounds 150, 65, 40, 28, 12 and 5, selection is the cascade "at least 150 gives 150, else at least 65 gives 65, …, else at least 5 gives 5, else nothing". |
| Curves.PowerCurvesCoverSupportedNodes | rankine/rankine.py:187 | With Rankine's curves, selection fails exactly below node 5. So every supported node gets a curve, and the "should not happen" assertion never fires once the command line has checked the node (line 280). |
| Curves.BucketsMatchRangeComments | rankine/rankine.py:169-174 | The curve chosen agrees with each curve's range comment: 150-180 gives 150, 65-130 gives 65, 40-55 gives 40, 28-32 gives 28, 12-22 gives 12, and 5-10 gives 5. |
| Potential.Min | rankine/rankine.py:200 | The binding count is at most each estimate and is one of them. |
| Potential.RawTransistors | rankine/rankine.py:194-198 | An explicit count wins: it becomes count × 1e6. Otherwise the result is the die-area estimate. It fails exactly when there is neither size (MissingSize), or when the area path divides by node 0 (ZeroNodeDivision). |
| Potential.LookupDevice | rankine/rankine.py:201-209 | The device row exists exactly when the latency, leakage and dynamic tables all hold the node. Its latency, dynamic power and leakage power are that node's entries in those tables, and are positive for well-formed tables. Its cost is absent exactly when the cost table lacks the node, and otherwise is that entry. |
| Potential.StaticPowerW | rankine/rankine.py:203 | Per-transistor leakage in watts is positive and equals the table figure in µW divided by 1e6; the frequency plays no part. |
| Potential.DynamicPowerW | rankine/rankine.py:201-204 | Scaling the intrinsic-frequency dynamic power down to the chip's frequency equals dynamic power × latency × frequency × 1e-12, and is positive. |
| Potential.Combine | rankine/rankine.py:200-210 | The reported count is the raw one. Throughput is at most both the TDP-limited count and the raw count times the frequency, and equals one of the two. Power is throughput / frequency × dynamic power plus raw count × leakage. Cost is absent exactly when the device has no cost figure, and otherwise is raw count × cost. All outputs are positive for positive counts. |
| Potential.PotentialCalculation | rankine/rankine.py:193-210 | Each outcome is characterised in both directions, in the source's order of raising. MissingSize occurs exactly when there is no size. ZeroNodeDivision occurs exactly for an area-sized chip at node 0. NoPowerCurve occurs exactly when, past those, every bucket bound exceeds the node. UnknownNode occurs exactly when, past those, a bucket covers the node but one of the latency, leakage or dynamic tables lacks it. Success occurs exactly when the chip is sized, a bucket covers the node, and all three device tables hold it. |
| Potential.SuccessIsCombination | rankine/rankine.py:193-210 | A successful result is Combine applied to the raw count, the TDP estimate and the node's device row. All three exist. |
| Potential.ExplicitCountTakesPriority | rankine/rankine.py:195-198 | With an explicit count, replacing the die area by any other area, or by none, leaves the whole outcome unchanged. |
| Potential.ReportedTransistorsAreRaw | rankine/rankine.py:195-210 | The reported transistor count is count × 1e6 when a count is given, and otherwise the die-area estimate. It is not the binding count. |
| Potential.CostAbsentExactlyWithoutEntry | rankine/rankine.py:207-209 | On success, cost is absent exactly when the node has no cost entry. When it has one, the device is priced with that entry. |
| Potential.OutputsPositive | rankine/rankine.py:193-210 | On success, for a positive explicit count or an area-sized chip, with positive exp and power, throughput, transistors and power are positive, and so is the cost when present. |
| Potential.RankineTablesWellFormed | rankine/rankine.py:34-174 | Rankine's own tables have positive figures and a valid bucket table. |
| Potential.RankineOutcomes | rankine/rankine.py:193-210 | With Rankine's tables the calculation succeeds exactly for a sized chip at a supported node (the check at line 280). Below node 5 it is NoPowerCurve, except for an area-sized chip at node 0 (ZeroNodeDivision); this includes node 0 with an explicit count. From 5 up, an unsupported node is UnknownNode. |
| Potential.RankineCostAbsentForUncostedNodes | rankine/rankine.py:140-157 | With Rankine's tables a supported, sized chip succeeds. Its cost is absent exactly for nodes 180, 80 and 12. |

## Left out

- `print_summary` and `count_string` (lines 213-251): report formatting and printing.
- `supported_range_warning` (lines 254-256): an advisory message with no effect on results.
- The command-line block (lines 260-293): option parsing, `sys.exit`, and the falsy-value checks on required options.
  - Its node check (lines 280-282) is not a precondition. Instead, `RankineOutcomes` shows that passing it is exactly what rules out every failure except a missing size.
- `cmos_vdd_v` (lines 118-137): the calculation never reads it. It also has no entry for node 40.
- `cmos_energy_fj`: kept as a table with its coverage and positivity lemmas, although the calculation never reads it.
- The concrete values of `np.exp` and `**` with fractional exponents: floating-point numerics. So the model computes no concrete figure for any particular chip.
- Float rounding: every quantity is a `real`.
- Curves.TransistorCountFromDieSize: carries no contract of its own, since its value rests on the parameters `exp` and `pow`. What it promises is stated by `DensityFactor` (the area / node² factor at line 177) and the die-size lemmas: positivity, scale invariance, and monotonicity in area and node.
- The unused `transistor_power` (line 205): it feeds nothing that is returned, so it is not modelled.
- Non-positive TDP or frequency, and a non-positive die area when the area sizes the chip, are excluded by `ValidSpec`. The source would raise a ZeroDivisionError, return negative figures, take a fractional power of a negative number, or (for a zero TDP or a zero die area, since `0.0**e` is `0.0`) quietly return a zero count.
- `transistor_count_mil` is modelled as an integer number of millions, as the command line declares it (`type="int"`). A fractional count is not modelled.
- The calculation-level statements of the throughput bound, the power split and the cost amount go through `Combine`: `Combine`'s contract states them, and `SuccessIsCombination` identifies a successful result with `Combine`'s.
- Potential.CostAbsentExactlyWithoutEntry: states the cost amount as "priced with the node's entry" (the device's cost figure). The product raw count × entry is on `Combine`.
- Concurrency, I/O and time: none in the core.
