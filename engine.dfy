/** The ROI calculation engine: a fixed chain of arithmetic from the calculator
    inputs to a result record that also exposes every intermediate value. */
module Engine {
  import opened JsNumber

  /** The calculator's input record. `adminCostPerCase` is collected but no
      formula reads it. */
  datatype CalculatorData = CalculatorData(
    monthlyVolume: real,
    approvalRate: real,      // percent, 0-100
    lowBenefit: real,        // percent, 0-100
    episodeCost: real,
    adminCostPerCase: real,
    p2pCostPerCase: real,
    overturnRate: real)      // percent, 0-100

  /** The keys of the input record. */
  datatype Field =
    | MonthlyVolume | ApprovalRate | LowBenefit | EpisodeCost
    | AdminCostPerCase | P2pCostPerCase | OverturnRate

  /** `data[key]`. */
  function Get(d: CalculatorData, f: Field): real {
    match f
    case MonthlyVolume => d.monthlyVolume
    case ApprovalRate => d.approvalRate
    case LowBenefit => d.lowBenefit
    case EpisodeCost => d.episodeCost
    case AdminCostPerCase => d.adminCostPerCase
    case P2pCostPerCase => d.p2pCostPerCase
    case OverturnRate => d.overturnRate
  }

  /** `data[key] = v`, or `{ ...data, [key]: v }`: one field replaced. */
  function Set(d: CalculatorData, f: Field, v: real): (r: CalculatorData)
    ensures Get(r, f) == v
    ensures forall g :: g != f ==> Get(r, g) == Get(d, g)
  {
    match f
    case MonthlyVolume => d.(monthlyVolume := v)
    case ApprovalRate => d.(approvalRate := v)
    case LowBenefit => d.(lowBenefit := v)
    case EpisodeCost => d.(episodeCost := v)
    case AdminCostPerCase => d.(adminCostPerCase := v)
    case P2pCostPerCase => d.(p2pCostPerCase := v)
    case OverturnRate => d.(overturnRate := v)
  }

  /** The start-up values of the input record. */
  const Defaults := CalculatorData(150.0, 85.0, 25.0, 25000.0, 150.0, 300.0, 15.0)

  // The fixed assumptions of the model.
  const AvoidanceRate := 0.75          // share of low-benefit cases avoided
  const P2pShare := 0.20               // share of all cases sent to peer-to-peer review
  const P2pReduction := 0.30           // share of those reviews eliminated
  const OverturnReduction := 0.40      // share of overturns eliminated
  const OverturnCost := 2000.0         // cost of one overturned case
  const ImplementationCost := 50000.0  // one-time setup, counted in the annual cost
  const LicensePerCase := 25.0
  const LicenseCap := 200000.0

  datatype Breakdown = Breakdown(
    annualVolume: real,
    currentApprovedCases: real,
    lowBenefitCases: real,
    avoidanceRate: real,
    p2pSavings: real,
    overturnSavings: real,
    implementationCost: real,
    annualLicenseCost: real)

  datatype RoiResult = RoiResult(
    avoidedSurgeries: int,
    medicalSavings: real,
    adminSavings: real,
    totalSavings: real,
    totalCost: real,
    netROI: real,
    roiPercentage: Num,
    paybackPeriod: Num,
    breakdown: Breakdown)

  /** `performROICalculation(data)`. It reads six of the seven inputs. */
  function PerformROICalculation(data: CalculatorData): (r: RoiResult)
    ensures r.breakdown.annualLicenseCost <= LicenseCap
    ensures r.totalCost == ImplementationCost + r.breakdown.annualLicenseCost
    ensures data.monthlyVolume >= 0.0 ==>
      r.totalCost >= ImplementationCost && r.roiPercentage.IsFinite() && r.paybackPeriod != NaN
    ensures r.paybackPeriod != NegInf
    ensures r.paybackPeriod.Real? ==> r.paybackPeriod.v >= 0.0
  {
    Calculate(data.monthlyVolume, data.approvalRate, data.lowBenefit, data.episodeCost,
              data.p2pCostPerCase, data.overturnRate)
  }

  /** `x * (p / 100)`: `p` percent of `x`. */
  function PercentOf(x: real, p: real): real {
    x * (p / 100.0)
  }

  /** Peer-to-peer savings: 20% of the cases go to review, 30% of those reviews
      are saved, so 6% of the cases at the per-review cost. */
  function P2pSavings(annualVolume: real, p2pCostPerCase: real): (s: real)
    ensures s == annualVolume * 0.06 * p2pCostPerCase
  {
    var currentP2PCases := annualVolume * P2pShare;
    var reducedP2PCases := currentP2PCases * P2pReduction;
    reducedP2PCases * p2pCostPerCase
  }

  /** Overturn savings: 40% of the overturned share of the unapproved cases at
      $2000 each, so $800 per overturned case. */
  function OverturnSavings(annualVolume: real, currentApprovedCases: real, overturnRate: real): (s: real)
    ensures s == (annualVolume - currentApprovedCases) * overturnRate * 8.0
  {
    var currentOverturns := (annualVolume - currentApprovedCases) * (overturnRate / 100.0);
    var reducedOverturns := currentOverturns * OverturnReduction;
    reducedOverturns * OverturnCost
  }

  /** `Math.round(lowBenefitCases * avoidanceRate)`: the nearest whole number
      of surgeries to 75% of the low-benefit cases. */
  function Avoided(lowBenefitCases: real): (n: int)
    ensures n as real - 0.5 <= lowBenefitCases * 0.75 < n as real + 0.5
  {
    Round(lowBenefitCases * AvoidanceRate)
  }

  /** `avoidedSurgeries * episodeCost`. */
  function MedicalSavings(avoidedSurgeries: int, episodeCost: real): real {
    avoidedSurgeries as real * episodeCost
  }

  /** The calculation chain over the six inputs it reads. It carries the same
      contract as `PerformROICalculation`, which only passes the record's
      fields on: proving the contract here, over plain reals rather than
      record selectors, keeps the solver's work small. */
  function Calculate(monthlyVolume: real, approvalRate: real, lowBenefit: real, episodeCost: real,
                     p2pCostPerCase: real, overturnRate: real): (r: RoiResult)
    ensures r.breakdown.annualLicenseCost <= LicenseCap
    ensures r.totalCost == ImplementationCost + r.breakdown.annualLicenseCost
    ensures monthlyVolume >= 0.0 ==>
      r.totalCost >= ImplementationCost && r.roiPercentage.IsFinite() && r.paybackPeriod != NaN
    ensures r.paybackPeriod != NegInf
    ensures r.paybackPeriod.Real? ==> r.paybackPeriod.v >= 0.0
  {
    var annualVolume := monthlyVolume * 12.0;
    var currentApprovedCases := PercentOf(annualVolume, approvalRate);
    var lowBenefitCases := PercentOf(currentApprovedCases, lowBenefit);
    var avoidedSurgeries := Avoided(lowBenefitCases);
    var medicalSavings := MedicalSavings(avoidedSurgeries, episodeCost);
    var p2pSavings := P2pSavings(annualVolume, p2pCostPerCase);
    var overturnSavings := OverturnSavings(annualVolume, currentApprovedCases, overturnRate);
    var adminSavings := p2pSavings + overturnSavings;
    var annualLicenseCost := Min(annualVolume * LicensePerCase, LicenseCap);
    var totalAnnualCost := ImplementationCost + annualLicenseCost;
    var totalSavings := medicalSavings + adminSavings;
    var netROI := totalSavings - totalAnnualCost;
    var roiPercentage := Scale(Div(netROI, totalAnnualCost), 100.0);
    var monthlyROI := netROI / 12.0;
    var paybackPeriod := Div(totalAnnualCost, monthlyROI);
    RoiResult(
      avoidedSurgeries, medicalSavings, adminSavings, totalSavings, totalAnnualCost,
      netROI, roiPercentage, MaxZero(paybackPeriod),
      Breakdown(annualVolume, currentApprovedCases, lowBenefitCases, AvoidanceRate,
                p2pSavings, overturnSavings, ImplementationCost, annualLicenseCost))
  }

  /** Each intermediate is the stated product of the inputs, and the avoided
      surgeries are the nearest integer to 75% of the low-benefit cases. */
  lemma IntermediateChain(d: CalculatorData)
    ensures var r := PerformROICalculation(d); var b := r.breakdown;
      && b.annualVolume == d.monthlyVolume * 12.0
      && b.currentApprovedCases == PercentOf(b.annualVolume, d.approvalRate)
      && b.lowBenefitCases == PercentOf(b.currentApprovedCases, d.lowBenefit)
      && b.avoidanceRate == 0.75
      && r.avoidedSurgeries as real - 0.5 <= b.lowBenefitCases * 0.75 < r.avoidedSurgeries as real + 0.5
      && r.medicalSavings == r.avoidedSurgeries as real * d.episodeCost
  {
  }

  /** Savings and net return decompose exactly, and the two administrative
      parts are the peer-to-peer and overturn savings of the breakdown's case
      counts. */
  lemma SavingsDecompose(d: CalculatorData)
    ensures var r := PerformROICalculation(d); var b := r.breakdown;
      && r.adminSavings == b.p2pSavings + b.overturnSavings
      && r.totalSavings == r.medicalSavings + r.adminSavings
      && r.netROI == r.totalSavings - r.totalCost
      && b.implementationCost == 50000.0
      && r.totalCost == 50000.0 + b.annualLicenseCost
      && b.p2pSavings == P2pSavings(b.annualVolume, d.p2pCostPerCase)
      && b.overturnSavings == OverturnSavings(b.annualVolume, b.currentApprovedCases, d.overturnRate)
  {
  }

  /** The licence costs $25 per annual case until the $200000 cap, which is
      reached exactly when the annual volume is at least 8000 cases. */
  lemma LicenseCost(d: CalculatorData)
    ensures var b := PerformROICalculation(d).breakdown;
      && (b.annualVolume < 8000.0 ==> b.annualLicenseCost == b.annualVolume * 25.0)
      && (b.annualVolume >= 8000.0 ==> b.annualLicenseCost == 200000.0)
  {
  }

  /** The total cost is at least the implementation cost, so it is positive and
      the ROI percentage is always a finite number. */
  lemma RoiPercentageDefined(d: CalculatorData)
    requires d.monthlyVolume >= 0.0
    ensures var r := PerformROICalculation(d);
      && r.totalCost >= 50000.0
      && r.roiPercentage == Real(r.netROI / r.totalCost * 100.0)
  {
  }

  /** `adminCostPerCase` does not influence the result. */
  lemma AdminCostUnused(d: CalculatorData, x: real)
    ensures PerformROICalculation(d.(adminCostPerCase := x)) == PerformROICalculation(d)
  {
  }

  /** The payback period by the sign of the net return: twelve times the cost
      over the net return when it is positive, clamped to 0 when it is negative,
      and +Infinity (not 0) when it is exactly 0. */
  lemma PaybackBySign(d: CalculatorData)
    requires d.monthlyVolume >= 0.0
    ensures var r := PerformROICalculation(d);
      && (r.netROI > 0.0 ==> r.paybackPeriod.Real? && r.paybackPeriod.v > 0.0
                             && r.paybackPeriod.v * r.netROI == 12.0 * r.totalCost)
      && (r.netROI < 0.0 ==> r.paybackPeriod == Real(0.0))
      && (r.netROI == 0.0 ==> r.paybackPeriod == PosInf)
  {
    var r := PerformROICalculation(d);
    if r.netROI > 0.0 {
      var p := r.totalCost / (r.netROI / 12.0);
      assert r.paybackPeriod == Real(p);
      assert p * (r.netROI / 12.0) == r.totalCost;
      assert p * r.netROI == 12.0 * r.totalCost;
    } else if r.netROI < 0.0 {
      var p := r.totalCost / (r.netROI / 12.0);
      assert p * (r.netROI / 12.0) == r.totalCost;
      assert p < 0.0;
    }
  }

  /** The worked example: the start-up values. */
  lemma DefaultsExample()
    ensures var r := PerformROICalculation(Defaults); var b := r.breakdown;
      && b.annualVolume == 1800.0
      && b.currentApprovedCases == 1530.0
      && b.lowBenefitCases == 382.5
      && r.avoidedSurgeries == 287
      && r.medicalSavings == 7175000.0
      && b.p2pSavings == 32400.0
      && b.overturnSavings == 32400.0
      && r.adminSavings == 64800.0
      && b.annualLicenseCost == 45000.0
      && r.totalCost == 95000.0
      && r.totalSavings == 7239800.0
      && r.netROI == 7144800.0
      && r.paybackPeriod.Real? && r.paybackPeriod.v * 7144800.0 == 1140000.0
  {
    RoundUnique(286.875, 287);
    PaybackBySign(Defaults);
  }

  /** Inputs in the ranges the controls offer: no negative count, percentages
      at most 100. */
  predicate InRange(d: CalculatorData) {
    && d.monthlyVolume >= 0.0 && d.episodeCost >= 0.0
    && 0.0 <= d.approvalRate <= 100.0 && 0.0 <= d.lowBenefit <= 100.0
  }

  /** For in-range inputs the case counts nest (low-benefit within approved
      within all cases) and the avoided surgeries are a non-negative count that
      exceeds 75% of the approved cases by at most half a case. */
  lemma CaseCountBounds(d: CalculatorData)
    requires InRange(d)
    ensures var r := PerformROICalculation(d); var b := r.breakdown;
      && 0.0 <= b.lowBenefitCases <= b.currentApprovedCases <= b.annualVolume
      && 0 <= r.avoidedSurgeries
      && r.avoidedSurgeries as real <= 0.75 * b.currentApprovedCases + 0.5
      && r.medicalSavings >= 0.0
  {
    var r := PerformROICalculation(d);
    var b := r.breakdown;
    IntermediateChain(d);
    CountBounds(d.monthlyVolume, d.approvalRate, d.lowBenefit, d.episodeCost,
                b.annualVolume, b.currentApprovedCases, b.lowBenefitCases, r.avoidedSurgeries, r.medicalSavings);
  }

  lemma CountBounds(m: real, a: real, l: real, e: real, av: real, ap: real, lb: real, n: int, ms: real)
    requires m >= 0.0 && e >= 0.0 && 0.0 <= a <= 100.0 && 0.0 <= l <= 100.0
    requires av == m * 12.0 && ap == PercentOf(av, a) && lb == PercentOf(ap, l)
    requires n as real - 0.5 <= lb * 0.75 < n as real + 0.5
    requires ms == n as real * e
    ensures 0.0 <= lb <= ap <= av && 0 <= n && n as real <= 0.75 * ap + 0.5 && ms >= 0.0
  {
    ScaleByPercent(av, a);
    ScaleByPercent(ap, l);
    assert n as real > -0.5;
    assert n >= 0;
    assert lb * 0.75 <= ap * 0.75;
    assert n as real * e >= 0.0;
  }

  /** `p` percent of `x` lies between 0 and `x` for a percentage `p` and `x >= 0`. */
  lemma ScaleByPercent(x: real, p: real)
    requires x >= 0.0 && 0.0 <= p <= 100.0
    ensures 0.0 <= PercentOf(x, p) <= x
  {
    assert x * (p / 100.0) == x * p / 100.0;
    assert x * p <= x * 100.0;
  }

  /** A larger low-benefit share never lowers the avoided surgeries, the
      medical savings or the net return; nothing else in the result moves. */
  lemma LowBenefitMonotone(d: CalculatorData, l1: real, l2: real)
    requires d.monthlyVolume >= 0.0 && d.approvalRate >= 0.0 && d.episodeCost >= 0.0 && l1 <= l2
    ensures var r1 := PerformROICalculation(d.(lowBenefit := l1));
      var r2 := PerformROICalculation(d.(lowBenefit := l2));
      && r1.avoidedSurgeries <= r2.avoidedSurgeries
      && r1.medicalSavings <= r2.medicalSavings
      && r1.netROI <= r2.netROI
      && r1.adminSavings == r2.adminSavings && r1.totalCost == r2.totalCost
  {
    var b1 := PerformROICalculation(d.(lowBenefit := l1)).breakdown;
    var b2 := PerformROICalculation(d.(lowBenefit := l2)).breakdown;
    IntermediateChain(d.(lowBenefit := l1));
    IntermediateChain(d.(lowBenefit := l2));
    PercentMonotone(b1.annualVolume, 0.0, d.approvalRate);
    PercentMonotone(b1.currentApprovedCases, l1, l2);
    AvoidedMonotone(b1.lowBenefitCases, b2.lowBenefitCases);
    MedicalMonotone(Avoided(b1.lowBenefitCases), Avoided(b2.lowBenefitCases), d.episodeCost);
  }

  lemma PercentMonotone(x: real, p: real, q: real)
    requires x >= 0.0 && p <= q
    ensures PercentOf(x, p) <= PercentOf(x, q)
    ensures p == 0.0 ==> PercentOf(x, p) == 0.0
  {
    assert x * p <= x * q;
    assert PercentOf(x, p) == x * p / 100.0;
    assert PercentOf(x, q) == x * q / 100.0;
  }

  /** Rounding keeps the order of the low-benefit counts. */
  lemma AvoidedMonotone(x: real, y: real)
    requires x <= y
    ensures Avoided(x) <= Avoided(y)
  {
  }

  lemma MedicalMonotone(n1: int, n2: int, e: real)
    requires n1 <= n2 && e >= 0.0
    ensures MedicalSavings(n1, e) <= MedicalSavings(n2, e)
  {
  }

  /** Once the licence is capped (8000 annual cases or more) the total cost is
      fixed at $250000, so a larger monthly volume never lowers the net return
      for in-range rates and non-negative costs. */
  lemma VolumeMonotone(d: CalculatorData, v1: real, v2: real)
    requires 8000.0 <= v1 * 12.0 && v1 <= v2
    requires 0.0 <= d.approvalRate <= 100.0 && d.lowBenefit >= 0.0 && d.episodeCost >= 0.0
    requires d.p2pCostPerCase >= 0.0 && d.overturnRate >= 0.0
    ensures var r1 := PerformROICalculation(d.(monthlyVolume := v1));
      var r2 := PerformROICalculation(d.(monthlyVolume := v2));
      && r1.totalCost == r2.totalCost == 250000.0
      && r1.netROI <= r2.netROI
  {
    var d1 := d.(monthlyVolume := v1);
    var d2 := d.(monthlyVolume := v2);
    IntermediateChain(d1);
    IntermediateChain(d2);
    SavingsDecompose(d1);
    SavingsDecompose(d2);
    LicenseCost(d1);
    LicenseCost(d2);
    SavingsGrow(v1, v2, d.approvalRate, d.lowBenefit, d.episodeCost, d.p2pCostPerCase, d.overturnRate);
  }

  /** The medical, peer-to-peer and overturn savings at a monthly volume `m`. */
  function SavingsAt(m: real, a: real, l: real, e: real, p: real, o: real): real {
    var av := m * 12.0;
    var ap := PercentOf(av, a);
    MedicalSavings(Avoided(PercentOf(ap, l)), e) + P2pSavings(av, p) + OverturnSavings(av, ap, o)
  }

  /** Each part of the savings grows with the monthly volume. */
  lemma SavingsGrow(m1: real, m2: real, a: real, l: real, e: real, p: real, o: real)
    requires 0.0 <= m1 <= m2 && 0.0 <= a <= 100.0 && l >= 0.0 && e >= 0.0 && p >= 0.0 && o >= 0.0
    ensures SavingsAt(m1, a, l, e, p, o) <= SavingsAt(m2, a, l, e, p, o)
  {
    var x1, x2 := m1 * 12.0, m2 * 12.0;
    MedicalGrows(x1, x2, a, l, e);
    ProductGrows(x1 * 0.06, x2 * 0.06, p);
    OverturnGrows(x1, x2, a, o);
  }

  lemma MedicalGrows(x1: real, x2: real, a: real, l: real, e: real)
    requires 0.0 <= x1 <= x2 && 0.0 <= a && l >= 0.0 && e >= 0.0
    ensures MedicalSavings(Avoided(PercentOf(PercentOf(x1, a), l)), e)
         <= MedicalSavings(Avoided(PercentOf(PercentOf(x2, a), l)), e)
  {
    var ap1, ap2 := PercentOf(x1, a), PercentOf(x2, a);
    PercentGrows(x1, x2, a);
    PercentGrows(ap1, ap2, l);
    AvoidedMonotone(PercentOf(ap1, l), PercentOf(ap2, l));
    MedicalMonotone(Avoided(PercentOf(ap1, l)), Avoided(PercentOf(ap2, l)), e);
  }

  lemma OverturnGrows(x1: real, x2: real, a: real, o: real)
    requires 0.0 <= x1 <= x2 && a <= 100.0 && o >= 0.0
    ensures OverturnSavings(x1, PercentOf(x1, a), o) <= OverturnSavings(x2, PercentOf(x2, a), o)
  {
    var u1, u2 := x1 - PercentOf(x1, a), x2 - PercentOf(x2, a);
    UnapprovedShare(x1, a);
    UnapprovedShare(x2, a);
    PercentGrows(x1, x2, 100.0 - a);
    ProductGrows(u1, u2, o);
    ProductGrows(u1 * o, u2 * o, 8.0);
  }

  lemma PercentGrows(x: real, y: real, p: real)
    requires 0.0 <= x <= y && p >= 0.0
    ensures 0.0 <= PercentOf(x, p) <= PercentOf(y, p)
  {
    ProductGrows(x, y, p / 100.0);
  }

  lemma ProductGrows(x: real, y: real, k: real)
    requires x <= y && k >= 0.0
    ensures x * k <= y * k
  {
  }

  /** The cases left unapproved are the remaining share of all cases. */
  lemma UnapprovedShare(x: real, a: real)
    ensures x - PercentOf(x, a) == PercentOf(x, 100.0 - a)
  {
  }

  /** Below the cap the licence grows by $25 per annual case, faster than the
      savings can when the extra cases avoid no further surgery: with every case
      approved, 0.3 and 0.4 cases a month both avoid one surgery, and the net
      return falls by $8.40. */
  lemma VolumeUncappedCounterexample()
    ensures var d := Defaults.(approvalRate := 100.0);
      PerformROICalculation(d.(monthlyVolume := 0.4)).netROI
        == PerformROICalculation(d.(monthlyVolume := 0.3)).netROI - 8.4
  {
    var d := Defaults.(approvalRate := 100.0);
    RoundUnique(0.675, 1);
    RoundUnique(0.9, 1);
    IntermediateChain(d.(monthlyVolume := 0.3));
    IntermediateChain(d.(monthlyVolume := 0.4));
  }

  /** A negative monthly volume (which the edit handler accepts) makes the
      licence cost negative; at exactly -2000/12 cases a month the total cost is
      0 and the ROI percentage is not a finite number. */
  lemma NegativeVolumeZeroCost()
    ensures var r := PerformROICalculation(Defaults.(monthlyVolume := -2000.0 / 12.0));
      r.totalCost == 0.0 && !r.roiPercentage.IsFinite()
  {
  }

  /** Without a positive cost the payback rule of `PaybackBySign` breaks down:
      a positive net return over a cost of 0 or less gives a payback of 0, not
      a positive one, and a zero net return over a zero cost gives NaN (0 / 0),
      not +Infinity. */
  lemma PaybackWithoutCost(d: CalculatorData)
    requires PerformROICalculation(d).totalCost <= 0.0
    ensures var r := PerformROICalculation(d);
      && (r.netROI > 0.0 ==> r.paybackPeriod == Real(0.0))
      && (r.netROI == 0.0 && r.totalCost == 0.0 ==> r.paybackPeriod == NaN)
  {
    var r := PerformROICalculation(d);
    if r.netROI > 0.0 {
      var p := r.totalCost / (r.netROI / 12.0);
      assert p <= 0.0;
    }
  }
}
