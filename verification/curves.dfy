/** The two regression estimators of Rankine: the transistor count a die of a
    given area holds at a given node, and the number of transistors a thermal
    budget can keep switching at a given frequency, using a curve chosen by node
    bucket. Both are power laws `exp(logCoef) * x^exponent`; the exponential and
    the power function are floating-point library calls and enter the model as
    the fields of a `Numerics` value, of which only positivity and monotonicity
    are assumed. */
module Curves {
  import opened Outcomes
  import ProcessTable

  /** The floating-point `exp` and `**` the computation calls. */
  datatype Numerics = Numerics(exp: real -> real, pow: (real, real) -> real)

  /** What the calculation relies on of `exp` and `**`: both are positive on
      the arguments it passes them. */
  ghost predicate Sound(nx: Numerics) {
    && (forall x :: nx.exp(x) > 0.0)
    && (forall b, e :: b > 0.0 ==> nx.pow(b, e) > 0.0)
  }

  /** What the monotonicity properties rely on in addition: a positive power is
      strictly increasing in its base. */
  ghost predicate PowIncreasing(nx: Numerics) {
    forall b1, b2, e :: 0.0 < b1 < b2 && e > 0.0 ==> nx.pow(b1, e) < nx.pow(b2, e)
  }

  /** A fitted power law `count = exp(logCoef) * x^exponent`. */
  datatype Curve = Curve(exponent: real, logCoef: real)

  /** Transistor count from the density factor die_area / node^2. */
  const DensityCurve: Curve := Curve(0.87650569, 22.33031902)

  ghost predicate Descending(s: seq<int>) {
    forall i, j :: 0 <= i < j < |s| ==> s[i] > s[j]
  }

  /** A bucket table: curves keyed by the lower bound of the node range each
      covers, with the keys in the order the selection scans them, which is
      sorted ascending and then reversed. */
  datatype Buckets = Buckets(curves: map<int, Curve>, scanOrder: seq<int>) {
    ghost predicate Valid() {
      && Descending(scanOrder)
      && forall k :: k in scanOrder <==> k in curves
    }
  }

  /** Rankine's power-restricted transistor count curves. */
  const PowerCurves: Buckets := Buckets(
    map[
      150 := Curve(1.35608520112, 14.175921764),   // 180nm-150nm
      65 := Curve(1.0858064719, 15.4524644369),    // 130nm-65nm
      40 := Curve(0.869396475567, 16.8439598602),  // 55nm-40nm
      28 := Curve(0.728781502506, 18.4867193491),  // 32nm-28nm
      12 := Curve(0.557376653843, 20.0141471218),  // 22nm-12nm
      5 := Curve(0.401658287972, 21.4891760308)],  // 10nm-5nm
    [150, 65, 40, 28, 12, 5])

  /** The scan over a descending list of bounds that stops at the first bound not
      above the node: it yields the largest bound not above the node, and nothing
      exactly when every bound is above it. */
  function FirstAtMost(bounds: seq<int>, node: int): (r: Option<int>)
    requires Descending(bounds)
    ensures r.Some? ==> r.value in bounds && r.value <= node
    ensures r.Some? ==> forall k :: k in bounds && k <= node ==> k <= r.value
    ensures r.None? <==> forall k :: k in bounds ==> node < k
  {
    if |bounds| == 0 then None
    else if node >= bounds[0] then Some(bounds[0])
    else
      assert forall k :: k in bounds ==> k == bounds[0] || k in bounds[1..];
      FirstAtMost(bounds[1..], node)
  }

  /** The first element of a descending sequence is its largest. */
  lemma HeadIsLargest(s: seq<int>)
    requires Descending(s) && |s| > 0
    ensures forall k :: k in s ==> k <= s[0]
  {
    forall k | k in s
      ensures k <= s[0]
    {
      var i :| 0 <= i < |s| && s[i] == k;
      if i > 0 {
        assert s[0] > s[i];
      }
    }
  }

  /** The tail of a descending sequence holds exactly its elements other than
      the head. */
  lemma TailMembers(s: seq<int>)
    requires Descending(s) && |s| > 0
    ensures forall k :: k in s[1..] <==> k in s && k != s[0]
  {
    forall k | k in s && k != s[0]
      ensures k in s[1..]
    {
      var j :| 0 <= j < |s| && s[j] == k;
      assert s[1..][j - 1] == k;
    }
    forall k | k in s[1..]
      ensures k in s && k != s[0]
    {
      var i :| 0 <= i < |s[1..]| && s[1..][i] == k;
      assert s[0] > s[i + 1];
    }
  }

  /** Two descending sequences with the same elements are the same sequence:
      the descending order of a set of keys is unique. */
  lemma {:induction false} DescendingUnique(s1: seq<int>, s2: seq<int>)
    requires Descending(s1) && Descending(s2)
    requires forall k :: k in s1 <==> k in s2
    ensures s1 == s2
    decreases |s1|
  {
    if |s1| > 0 {
      assert s1[0] in s1;
    }
    if |s2| > 0 {
      assert s2[0] in s2;
    }
    if |s1| > 0 {
      HeadIsLargest(s1);
      HeadIsLargest(s2);
      assert s1[0] == s2[0];
      TailMembers(s1);
      TailMembers(s2);
      assert Descending(s1[1..]) && Descending(s2[1..]);
      DescendingUnique(s1[1..], s2[1..]);
      assert s1 == [s1[0]] + s1[1..] && s2 == [s2[0]] + s2[1..];
    }
  }

  /** The scan order of a valid bucket table is fixed by its keys: it is the
      keys sorted and reversed, whichever way the table was written. */
  lemma ScanOrderDetermined(b1: Buckets, b2: Buckets)
    requires b1.Valid() && b2.Valid() && b1.curves.Keys == b2.curves.Keys
    ensures b1.scanOrder == b2.scanOrder
  {
    DescendingUnique(b1.scanOrder, b2.scanOrder);
  }

  /** The bound of the curve that applies to a node: the largest key of the
      bucket table that is at most the node, or None below every key. */
  function SelectBound(b: Buckets, node: int): (r: Option<int>)
    requires b.Valid()
    ensures r.Some? ==> r.value in b.curves && r.value <= node
    ensures r.Some? ==> forall k :: k in b.curves && k <= node ==> k <= r.value
    ensures r.None? <==> forall k :: k in b.curves ==> node < k
  {
    FirstAtMost(b.scanOrder, node)
  }

  lemma PositiveArithmetic(a: real, b: real, d: real)
    requires a > 0.0 && b > 0.0 && d > 0.0
    ensures a * b > 0.0 && a / d > 0.0 && a * b / d > 0.0
  {
  }

  /** The density factor die_area / node^2 the die-size curve is fitted against. */
  function DensityFactor(dieAreaMm2: real, nodeNm: int): (r: real)
    requires nodeNm != 0
    ensures r * (nodeNm * nodeNm) as real == dieAreaMm2
  {
    dieAreaMm2 / (nodeNm * nodeNm) as real
  }

  /** Transistor count of a die from its area and node through a curve. */
  function TransistorCountFromDieSize(nx: Numerics, curve: Curve, dieAreaMm2: real, nodeNm: int): real
    requires dieAreaMm2 > 0.0 && nodeNm != 0
  {
    nx.exp(curve.logCoef) * nx.pow(DensityFactor(dieAreaMm2, nodeNm), curve.exponent)
  }

  /** The die-size estimate depends on area and node only through the area per
      squared node: scaling the node by c and the area by c^2 leaves it unchanged. */
  lemma DieSizeEstimateScaleInvariant(nx: Numerics, curve: Curve, dieAreaMm2: real, nodeNm: int,
                                      c: int, scaledAreaMm2: real, scaledNodeNm: int)
    requires dieAreaMm2 > 0.0 && nodeNm != 0 && c != 0
    requires scaledNodeNm == nodeNm * c && scaledAreaMm2 == dieAreaMm2 * (c * c) as real
    ensures scaledAreaMm2 > 0.0 && scaledNodeNm != 0
    ensures TransistorCountFromDieSize(nx, curve, scaledAreaMm2, scaledNodeNm)
         == TransistorCountFromDieSize(nx, curve, dieAreaMm2, nodeNm)
  {
    var n2 := (nodeNm * nodeNm) as real;
    var c2 := (c * c) as real;
    assert (scaledNodeNm * scaledNodeNm) as real == n2 * c2;
    assert n2 > 0.0 && c2 > 0.0;
    var d := DensityFactor(dieAreaMm2, nodeNm);
    var d' := DensityFactor(scaledAreaMm2, scaledNodeNm);
    assert d' * (n2 * c2) == d * (n2 * c2);
    CancelPositive(d', d, n2 * c2);
  }

  /** A positive factor cancels from both sides of an equation. */
  lemma CancelPositive(a: real, b: real, k: real)
    requires k > 0.0 && a * k == b * k
    ensures a == b
  {
    assert a == (a * k) / k;
    assert b == (b * k) / k;
  }

  /** The die-size estimate is a positive count. */
  lemma DieSizeEstimatePositive(nx: Numerics, curve: Curve, dieAreaMm2: real, nodeNm: int)
    requires Sound(nx) && dieAreaMm2 > 0.0 && nodeNm != 0
    ensures TransistorCountFromDieSize(nx, curve, dieAreaMm2, nodeNm) > 0.0
  {
    PositiveArithmetic(dieAreaMm2, 1.0, (nodeNm * nodeNm) as real);
    var density := DensityFactor(dieAreaMm2, nodeNm);
    PositiveArithmetic(nx.exp(curve.logCoef), nx.pow(density, curve.exponent), 1.0);
  }

  /** The budget exp(logCoef) * tdp^exponent a curve allows before dividing by
      the frequency. */
  function PowerBudget(nx: Numerics, coef: Curve, tdpW: real): real {
    nx.exp(coef.logCoef) * nx.pow(tdpW, coef.exponent)
  }

  /** The transistor count a thermal budget sustains at a clock frequency, with
      the curve of the node's bucket: the selected curve's budget per GHz. None,
      where the source's assertion fails, exactly when no bucket starts at or
      below the node. */
  function EffectiveTransistorCountFromTdp(nx: Numerics, b: Buckets, nodeNm: int,
                                           frequencyMhz: real, tdpW: real): (r: Option<real>)
    requires b.Valid()
    requires frequencyMhz > 0.0 && tdpW > 0.0
    ensures r.None? <==> forall k :: k in b.curves ==> nodeNm < k
    ensures r.Some? ==> SelectBound(b, nodeNm).Some?
    ensures r.Some? ==>
      r.value * frequencyMhz == PowerBudget(nx, b.curves[SelectBound(b, nodeNm).value], tdpW) * 1000.0
  {
    match SelectBound(b, nodeNm)
    case None => None
    case Some(k) =>
      var frequencyGhz := frequencyMhz / 1000.0;
      Some(PowerBudget(nx, b.curves[k], tdpW) / frequencyGhz)
  }

  /** A TDP estimate, when there is one, is a positive count. */
  lemma TdpEstimatePositive(nx: Numerics, b: Buckets, nodeNm: int, frequencyMhz: real, tdpW: real)
    requires Sound(nx) && b.Valid() && frequencyMhz > 0.0 && tdpW > 0.0
    requires SelectBound(b, nodeNm).Some?
    ensures EffectiveTransistorCountFromTdp(nx, b, nodeNm, frequencyMhz, tdpW).Some?
    ensures EffectiveTransistorCountFromTdp(nx, b, nodeNm, frequencyMhz, tdpW).value > 0.0
  {
    var coef := b.curves[SelectBound(b, nodeNm).value];
    PositiveArithmetic(nx.exp(coef.logCoef), nx.pow(tdpW, coef.exponent), frequencyMhz / 1000.0);
  }

  lemma DivideByLarger(a: real, d1: real, d2: real)
    requires a > 0.0 && 0.0 < d1 < d2
    ensures a / d2 < a / d1
  {
    var q1, q2 := a / d1, a / d2;
    assert q1 * d1 == a && q2 * d2 == a;
    assert q2 > 0.0;
    assert q2 * d1 < q2 * d2;
  }

  /** A larger die at the same node holds more transistors, for a curve with a
      positive exponent. */
  lemma DieSizeEstimateIncreasesWithArea(nx: Numerics, curve: Curve, a1: real, a2: real, nodeNm: int)
    requires Sound(nx) && PowIncreasing(nx) && curve.exponent > 0.0 && nodeNm != 0
    requires 0.0 < a1 < a2
    ensures TransistorCountFromDieSize(nx, curve, a1, nodeNm) < TransistorCountFromDieSize(nx, curve, a2, nodeNm)
  {
    var sq := (nodeNm * nodeNm) as real;
    assert sq > 0.0;
    assert DensityFactor(a1, nodeNm) < DensityFactor(a2, nodeNm);
  }

  /** The same area at a larger feature size holds fewer transistors, for a
      curve with a positive exponent. */
  lemma DieSizeEstimateDecreasesWithNode(nx: Numerics, curve: Curve, dieAreaMm2: real, n1: int, n2: int)
    requires Sound(nx) && PowIncreasing(nx) && curve.exponent > 0.0 && dieAreaMm2 > 0.0
    requires 0 < n1 < n2
    ensures TransistorCountFromDieSize(nx, curve, dieAreaMm2, n2) < TransistorCountFromDieSize(nx, curve, dieAreaMm2, n1)
  {
    var sq1 := (n1 * n1) as real;
    var sq2 := (n2 * n2) as real;
    assert n1 * n1 < n2 * n2;
    assert 0.0 < sq1 < sq2;
    DivideByLarger(dieAreaMm2, sq1, sq2);
  }

  /** At a fixed node and budget a faster clock sustains strictly fewer transistors. */
  lemma TdpEstimateDecreasesWithFrequency(nx: Numerics, b: Buckets, nodeNm: int,
                                          f1: real, f2: real, tdpW: real)
    requires Sound(nx) && b.Valid() && tdpW > 0.0 && 0.0 < f1 < f2
    requires SelectBound(b, nodeNm).Some?
    ensures EffectiveTransistorCountFromTdp(nx, b, nodeNm, f2, tdpW).value
          < EffectiveTransistorCountFromTdp(nx, b, nodeNm, f1, tdpW).value
  {
    var coef := b.curves[SelectBound(b, nodeNm).value];
    PositiveArithmetic(nx.exp(coef.logCoef), nx.pow(tdpW, coef.exponent), 1.0);
    DivideByLarger(PowerBudget(nx, coef, tdpW), f1 / 1000.0, f2 / 1000.0);
  }

  /** At a fixed node and frequency a larger thermal budget sustains strictly
      more transistors, when every curve has a positive exponent. */
  lemma TdpEstimateIncreasesWithTdp(nx: Numerics, b: Buckets, nodeNm: int,
                                    frequencyMhz: real, t1: real, t2: real)
    requires Sound(nx) && PowIncreasing(nx) && b.Valid() && frequencyMhz > 0.0 && 0.0 < t1 < t2
    requires forall k :: k in b.curves ==> b.curves[k].exponent > 0.0
    requires SelectBound(b, nodeNm).Some?
    ensures EffectiveTransistorCountFromTdp(nx, b, nodeNm, frequencyMhz, t1).value
          < EffectiveTransistorCountFromTdp(nx, b, nodeNm, frequencyMhz, t2).value
  {
    var coef := b.curves[SelectBound(b, nodeNm).value];
    var e := nx.exp(coef.logCoef);
    assert nx.pow(t1, coef.exponent) < nx.pow(t2, coef.exponent);
    assert e * nx.pow(t1, coef.exponent) < e * nx.pow(t2, coef.exponent);
  }

  /** The transistor count the budget sustains times the frequency, the ceiling
      it puts on throughput, does not depend on the frequency. */
  lemma TdpThroughputCeilingIndependentOfFrequency(nx: Numerics, b: Buckets, nodeNm: int,
                                                   f1: real, f2: real, tdpW: real)
    requires b.Valid() && tdpW > 0.0 && f1 > 0.0 && f2 > 0.0
    requires SelectBound(b, nodeNm).Some?
    ensures EffectiveTransistorCountFromTdp(nx, b, nodeNm, f1, tdpW).value * f1
         == EffectiveTransistorCountFromTdp(nx, b, nodeNm, f2, tdpW).value * f2
  {
    var budget := PowerBudget(nx, b.curves[SelectBound(b, nodeNm).value], tdpW);
    assert budget / (f1 / 1000.0) * f1 == budget * 1000.0;
    assert budget / (f2 / 1000.0) * f2 == budget * 1000.0;
  }

  // Facts about Rankine's own curves.

  /** Rankine's scan order is its bucket keys sorted descending. */
  lemma PowerCurvesValid()
    ensures PowerCurves.Valid()
    ensures PowerCurves.curves.Keys == {150, 65, 40, 28, 12, 5}
  {
  }

  /** Every curve, the density curve included, has a positive exponent. */
  lemma CurveExponentsPositive()
    ensures DensityCurve.exponent > 0.0
    ensures forall k :: k in PowerCurves.curves ==> PowerCurves.curves[k].exponent > 0.0
  {
  }

  /** Rankine's six bounds as a decision cascade: the bound a node selects,
      or None below the smallest. */
  function SixBoundCascade(n: int): Option<int> {
    if n >= 150 then Some(150)
    else if n >= 65 then Some(65)
    else if n >= 40 then Some(40)
    else if n >= 28 then Some(28)
    else if n >= 12 then Some(12)
    else if n >= 5 then Some(5)
    else None
  }

  /** For any valid bucket table with Rankine's six bounds, the selection is
      that cascade. */
  lemma SelectionBySixBounds(b: Buckets, n: int)
    requires b.Valid() && b.curves.Keys == {150, 65, 40, 28, 12, 5}
    ensures SelectBound(b, n) == SixBoundCascade(n)
  {
    var c := SixBoundCascade(n);
    if c.Some? {
      SelectsKey(b, n, c.value);
    }
  }

  /** A key at or below the node with no key between it and the node is the
      one selected. */
  lemma SelectsKey(b: Buckets, n: int, k: int)
    requires b.Valid() && k in b.curves && k <= n
    requires forall j :: j in b.curves && j <= n ==> j <= k
    ensures SelectBound(b, n) == Some(k)
  {
  }

  /** Rankine's buckets cover exactly the nodes from 5 up, which include every
      supported node, so the "should not happen" assertion never fires for one. */
  lemma PowerCurvesCoverSupportedNodes(n: int)
    ensures PowerCurves.Valid()
    ensures SelectBound(PowerCurves, n).None? <==> n < 5
    ensures n in ProcessTable.SupportedNodes ==> SelectBound(PowerCurves, n).Some?
  {
    PowerCurvesValid();
    SelectionBySixBounds(PowerCurves, n);
    ProcessTable.SupportedNodesRange();
  }

  /** The bucket chosen agrees with the range each curve is annotated with, for
      every node in those ranges (supported or not). */
  lemma BucketsMatchRangeComments(n: int)
    ensures PowerCurves.Valid()
    ensures 150 <= n <= 180 ==> SelectBound(PowerCurves, n) == Some(150)
    ensures 65 <= n <= 130 ==> SelectBound(PowerCurves, n) == Some(65)
    ensures 40 <= n <= 55 ==> SelectBound(PowerCurves, n) == Some(40)
    ensures 28 <= n <= 32 ==> SelectBound(PowerCurves, n) == Some(28)
    ensures 12 <= n <= 22 ==> SelectBound(PowerCurves, n) == Some(12)
    ensures 5 <= n <= 10 ==> SelectBound(PowerCurves, n) == Some(5)
  {
    PowerCurvesValid();
    SelectionBySixBounds(PowerCurves, n);
  }
}
