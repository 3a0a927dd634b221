/** What-if analyses over the engine: three fixed low-benefit scenarios, and a
    sweep of four inputs by -20% to +20% against the current result. */
module Analysis {
  import opened JsNumber
  import opened Engine

  /** A scenario preset. Its `avoidanceRate` is declared but never passed on:
      the engine always applies 75%. */
  datatype Preset = Preset(name: string, lowBenefit: real, avoidanceRate: real)

  const Scenarios := [
    Preset("Conservative", 15.0, 0.6),
    Preset("Base Case", 25.0, 0.75),
    Preset("Optimistic", 35.0, 0.85)]

  /** `{ name: scenario.name, ...result }`. */
  datatype ScenarioResult = ScenarioResult(name: string, result: RoiResult)

  /** The current inputs with the preset's low-benefit share. */
  function ScenarioData(data: CalculatorData, p: Preset): CalculatorData {
    data.(lowBenefit := p.lowBenefit)
  }

  /** `runScenarioAnalysis()`, over the current inputs `data`. */
  function RunScenarioAnalysis(data: CalculatorData): (rs: seq<ScenarioResult>)
    ensures |rs| == |Scenarios|
    ensures forall i :: 0 <= i < |rs| ==> rs[i].name == Scenarios[i].name
    ensures forall i :: 0 <= i < |rs| ==>
      rs[i].result == PerformROICalculation(data.(lowBenefit := [15.0, 25.0, 35.0][i]))
  {
    seq(|Scenarios|, i requires 0 <= i < |Scenarios| =>
      ScenarioResult(Scenarios[i].name, PerformROICalculation(ScenarioData(data, Scenarios[i]))))
  }

  /** Each scenario replaces the current low-benefit share, so that input has no
      influence on the analysis. */
  lemma ScenariosIgnoreLowBenefit(data: CalculatorData, x: real)
    ensures RunScenarioAnalysis(data.(lowBenefit := x)) == RunScenarioAnalysis(data)
  {
    var a := RunScenarioAnalysis(data.(lowBenefit := x));
    var b := RunScenarioAnalysis(data);
    forall i | 0 <= i < |Scenarios| ensures a[i] == b[i] {
      assert ScenarioData(data.(lowBenefit := x), Scenarios[i]) == ScenarioData(data, Scenarios[i]);
    }
  }

  /** With the current share at 25%, the base case is the current result. */
  lemma BaseCaseIsCurrent(data: CalculatorData)
    requires data.lowBenefit == 25.0
    ensures RunScenarioAnalysis(data)[1] == ScenarioResult("Base Case", PerformROICalculation(data))
  {
    assert ScenarioData(data, Scenarios[1]) == data;
  }

  /** Every scenario reports the fixed 75% avoidance rate, including the two
      whose preset names another one. */
  lemma ScenarioAvoidanceRateFixed(data: CalculatorData)
    ensures var rs := RunScenarioAnalysis(data);
      && rs[0].result.breakdown.avoidanceRate == 0.75 != Scenarios[0].avoidanceRate
      && rs[1].result.breakdown.avoidanceRate == 0.75 == Scenarios[1].avoidanceRate
      && rs[2].result.breakdown.avoidanceRate == 0.75 != Scenarios[2].avoidanceRate
  {
    var rs := RunScenarioAnalysis(data);
    AvoidanceRateFixed(ScenarioData(data, Scenarios[0]));
    AvoidanceRateFixed(ScenarioData(data, Scenarios[1]));
    AvoidanceRateFixed(ScenarioData(data, Scenarios[2]));
  }

  lemma AvoidanceRateFixed(d: CalculatorData)
    ensures PerformROICalculation(d).breakdown.avoidanceRate == 0.75
  {
  }

  /** For non-negative volume, approval rate and episode cost, the scenarios
      come out in order: from Conservative through Base Case to Optimistic the
      avoided surgeries and the net return never decrease. */
  lemma ScenariosOrdered(data: CalculatorData)
    requires data.monthlyVolume >= 0.0 && data.approvalRate >= 0.0 && data.episodeCost >= 0.0
    ensures var rs := RunScenarioAnalysis(data);
      && rs[0].result.avoidedSurgeries <= rs[1].result.avoidedSurgeries <= rs[2].result.avoidedSurgeries
      && rs[0].result.netROI <= rs[1].result.netROI <= rs[2].result.netROI
  {
    assert ScenarioData(data, Scenarios[0]) == data.(lowBenefit := 15.0);
    assert ScenarioData(data, Scenarios[1]) == data.(lowBenefit := 25.0);
    assert ScenarioData(data, Scenarios[2]) == data.(lowBenefit := 35.0);
    LowBenefitMonotone(data, 15.0, 25.0);
    LowBenefitMonotone(data, 25.0, 35.0);
  }

  /** The inputs the sensitivity analysis varies, and by how many percent. */
  const Variables := [MonthlyVolume, ApprovalRate, LowBenefit, EpisodeCost]
  const Variations := [-20, -10, 0, 10, 20]

  /** `{ variation, netROI: result.netROI, roiChange }`. */
  datatype SensitivityPoint = SensitivityPoint(variation: int, netROI: real, roiChange: Num)

  /** The inputs with one field scaled by `1 + variation / 100`. */
  function Perturbed(d: CalculatorData, f: Field, variation: int): (r: CalculatorData)
    ensures Get(r, f) == Get(d, f) * (1.0 + variation as real / 100.0)
    ensures forall g :: g != f ==> Get(r, g) == Get(d, g)
    ensures variation == 0 ==> r == d
  {
    Set(d, f, Get(d, f) * (1.0 + variation as real / 100.0))
  }

  /** `((netROI - base) / base) * 100`: the relative change in percent, not a
      finite number when the base is 0, and positive exactly when the net
      return grew over a positive base. */
  function RoiChange(netROI: real, base: real): (c: Num)
    ensures c.IsFinite() <==> base != 0.0
    ensures base != 0.0 ==> c.v == (netROI - base) / base * 100.0
    ensures base == 0.0 ==> (c == NaN <==> netROI == 0.0)
    ensures base > 0.0 ==> (c.v > 0.0 <==> netROI > base) && (c.v == 0.0 <==> netROI == base)
    ensures base < 0.0 ==> (c.v > 0.0 <==> netROI < base) && (c.v == 0.0 <==> netROI == base)
  {
    var q := Div(netROI - base, base);
    if base != 0.0 then
      QuotientSign(netROI - base, base);
      Scale(q, 100.0)
    else
      Scale(q, 100.0)
  }

  /** The sign of a quotient is the product of the signs. */
  lemma QuotientSign(a: real, b: real)
    requires b != 0.0
    ensures b > 0.0 ==> (a / b > 0.0 <==> a > 0.0) && (a / b == 0.0 <==> a == 0.0)
    ensures b < 0.0 ==> (a / b > 0.0 <==> a < 0.0) && (a / b == 0.0 <==> a == 0.0)
  {
    assert a / b * b == a;
  }

  /** One entry of the sweep for field `f`: the net return with that field
      varied, and its change against the base. At 0% it is the current net
      return. */
  function SensitivityAt(d: CalculatorData, base: RoiResult, f: Field, variation: int): (p: SensitivityPoint)
    ensures p.variation == variation
    ensures p.netROI == PerformROICalculation(Perturbed(d, f, variation)).netROI
    ensures p.roiChange == RoiChange(p.netROI, base.netROI)
    ensures variation == 0 ==> p.netROI == PerformROICalculation(d).netROI
  {
    var r := PerformROICalculation(Perturbed(d, f, variation));
    SensitivityPoint(variation, r.netROI, RoiChange(r.netROI, base.netROI))
  }

  /** `variations.map(...)` for field `f`. */
  function Sweep(d: CalculatorData, base: RoiResult, f: Field): (ps: seq<SensitivityPoint>)
    ensures |ps| == |Variations|
    ensures forall i :: 0 <= i < |ps| ==> ps[i].variation == Variations[i]
    ensures forall i :: 0 <= i < |ps| ==>
      ps[i] == SensitivityPoint(Variations[i],
        PerformROICalculation(Perturbed(d, f, Variations[i])).netROI,
        RoiChange(PerformROICalculation(Perturbed(d, f, Variations[i])).netROI, base.netROI))
  {
    seq(|Variations|, i requires 0 <= i < |Variations| => SensitivityAt(d, base, f, Variations[i]))
  }

  /** When even the -20% point has a capped licence (0.8 * 12 * monthly volume
      is at least 8000 cases), the net returns of the monthly-volume sweep never
      decrease from -20% to +20%. */
  lemma VolumeSweepMonotone(d: CalculatorData, base: RoiResult)
    requires 0.8 * 12.0 * d.monthlyVolume >= 8000.0
    requires 0.0 <= d.approvalRate <= 100.0 && d.lowBenefit >= 0.0 && d.episodeCost >= 0.0
    requires d.p2pCostPerCase >= 0.0 && d.overturnRate >= 0.0
    ensures var ps := Sweep(d, base, MonthlyVolume);
      forall i, j :: 0 <= i <= j < |ps| ==> ps[i].netROI <= ps[j].netROI
  {
    var ps := Sweep(d, base, MonthlyVolume);
    forall i, j | 0 <= i <= j < |ps| ensures ps[i].netROI <= ps[j].netROI {
      var vi := VariedVolume(d, Variations[i]);
      var vj := VariedVolume(d, Variations[j]);
      VariedVolumeOrder(d, Variations[i], Variations[j]);
      VolumeMonotone(d, vi, vj);
    }
  }

  /** The monthly volume at one variation of the sweep. */
  function VariedVolume(d: CalculatorData, v: int): (m: real)
    ensures Perturbed(d, MonthlyVolume, v) == d.(monthlyVolume := m)
  {
    d.monthlyVolume * (1.0 + v as real / 100.0)
  }

  /** Within -20% to +20% the varied volumes keep the order of the variations,
      and the smallest still has a capped licence. */
  lemma VariedVolumeOrder(d: CalculatorData, v: int, w: int)
    requires 0.8 * 12.0 * d.monthlyVolume >= 8000.0 && -20 <= v <= w
    ensures 8000.0 <= VariedVolume(d, v) * 12.0
    ensures VariedVolume(d, v) <= VariedVolume(d, w)
  {
    var m := d.monthlyVolume;
    ProductGrows(0.8, 1.0 + v as real / 100.0, m);
    ProductGrows(1.0 + v as real / 100.0, 1.0 + w as real / 100.0, m);
  }

  /** A JavaScript object from input names to sweeps: its entries in the
      order their keys were first assigned. */
  type Table = seq<(Field, seq<SensitivityPoint>)>

  function Keys(t: Table): (ks: seq<Field>)
    ensures |ks| == |t|
    ensures forall i :: 0 <= i < |t| ==> ks[i] == t[i].0
  {
    seq(|t|, i requires 0 <= i < |t| => t[i].0)
  }

  /** `obj[k] = v`: an existing key keeps its place and takes the new value;
      a new key is added after all the others. */
  function Assign(t: Table, k: Field, v: seq<SensitivityPoint>): (u: Table)
    ensures k in Keys(t) ==> Keys(u) == Keys(t)
    ensures k !in Keys(t) ==> Keys(u) == Keys(t) + [k] && u[|t|] == (k, v)
    ensures forall i :: 0 <= i < |t| ==> u[i] == if t[i].0 == k then (k, v) else t[i]
  {
    if k in Keys(t) then seq(|t|, i requires 0 <= i < |t| => if t[i].0 == k then (k, v) else t[i])
    else t + [(k, v)]
  }

  /** No input is named twice. */
  predicate Distinct(fs: seq<Field>) {
    forall i, j :: 0 <= i < j < |fs| ==> fs[i] != fs[j]
  }

  /** The table after assigning the sweeps of `fs`, one by one, to an empty
      object. For distinct names, the entries are the sweeps in that order. */
  function SensitivityOver(d: CalculatorData, base: RoiResult, fs: seq<Field>): (t: Table)
    ensures Distinct(fs) ==> Keys(t) == fs
    ensures Distinct(fs) ==> forall i :: 0 <= i < |t| ==> t[i].1 == Sweep(d, base, fs[i])
  {
    if |fs| == 0 then []
    else
      var init := fs[..|fs| - 1];
      var f := fs[|fs| - 1];
      var t0 := SensitivityOver(d, base, init);
      assert Distinct(fs) ==> Distinct(init) && f !in init;
      Assign(t0, f, Sweep(d, base, f))
  }

  /** The table `runSensitivityAnalysis()` returns: keys monthlyVolume,
      approvalRate, lowBenefit and episodeCost in that order, each holding the
      five-point sweep of that input against the current result. */
  function Sensitivity(d: CalculatorData): (t: Table)
    ensures Keys(t) == Variables
    ensures forall i :: 0 <= i < |t| ==> t[i].1 == Sweep(d, PerformROICalculation(d), Variables[i])
  {
    SensitivityOver(d, PerformROICalculation(d), Variables)
  }

  /** `runSensitivityAnalysis()`: the four sweeps assigned one by one. */
  method RunSensitivityAnalysis(data: CalculatorData) returns (sensitivity: Table)
    ensures sensitivity == Sensitivity(data)
  {
    var baseResults := PerformROICalculation(data);
    sensitivity := [];
    var k := 0;
    while k < |Variables|
      invariant 0 <= k <= |Variables|
      invariant sensitivity == SensitivityOver(data, baseResults, Variables[..k])
    {
      var variable := Variables[k];
      sensitivity := Assign(sensitivity, variable, Sweep(data, baseResults, variable));
      assert Variables[..k + 1][..k] == Variables[..k];
      k := k + 1;
    }
    assert Variables[..k] == Variables;
  }

  /** The middle entry of each sweep, the 0% variation, is the current result:
      its change is 0 when the current net return is not 0, and NaN (0 / 0)
      when it is. */
  lemma ZeroVariationIsBaseline(d: CalculatorData, k: nat)
    requires k < |Variables|
    ensures var p := Sensitivity(d)[k].1[2]; var base := PerformROICalculation(d);
      && p.variation == 0
      && p.netROI == base.netROI
      && (base.netROI != 0.0 ==> p.roiChange == Real(0.0))
      && (base.netROI == 0.0 ==> p.roiChange == NaN)
  {
    var base := PerformROICalculation(d);
    var f := Variables[k];
    var p := Sensitivity(d)[k].1[2];
    assert p == SensitivityAt(d, base, f, 0);
    assert Perturbed(d, f, 0) == d;
  }

  /** `adminCostPerCase` is neither varied nor read, so the table does not
      depend on it. */
  lemma SensitivityIgnoresAdminCost(d: CalculatorData, x: real)
    ensures Sensitivity(d.(adminCostPerCase := x)) == Sensitivity(d)
  {
    var base := PerformROICalculation(d);
    AdminCostUnused(d, x);
    var a := Sensitivity(d.(adminCostPerCase := x));
    var b := Sensitivity(d);
    forall i | 0 <= i < |b| ensures a[i] == b[i] {
      SweepIgnoresAdminCost(d, x, base, Variables[i]);
      assert Keys(a)[i] == Keys(b)[i];
    }
  }

  lemma SweepIgnoresAdminCost(d: CalculatorData, x: real, base: RoiResult, f: Field)
    ensures Sweep(d.(adminCostPerCase := x), base, f) == Sweep(d, base, f)
  {
    forall i | 0 <= i < |Variations|
      ensures SensitivityAt(d.(adminCostPerCase := x), base, f, Variations[i]) == SensitivityAt(d, base, f, Variations[i])
    {
      PointIgnoresAdminCost(d, x, base, f, Variations[i]);
    }
  }

  lemma PointIgnoresAdminCost(d: CalculatorData, x: real, base: RoiResult, f: Field, v: int)
    ensures SensitivityAt(d.(adminCostPerCase := x), base, f, v) == SensitivityAt(d, base, f, v)
  {
    var e := Perturbed(d, f, v);
    if f == AdminCostPerCase {
      assert Perturbed(d.(adminCostPerCase := x), f, v) == e.(adminCostPerCase := x * (1.0 + v as real / 100.0));
      AdminCostUnused(e, x * (1.0 + v as real / 100.0));
    } else {
      assert Perturbed(d.(adminCostPerCase := x), f, v) == e.(adminCostPerCase := x);
      AdminCostUnused(e, x);
    }
  }
}
