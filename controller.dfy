/** The calculator page's state: the input record `calculatorData` and the
    result cache `window.currentROIResults`, with the handlers that change them
    and the export and report actions that the cache gates. A control's text
    is seen already parsed: `parseFloat` yields a number or NaN, written here
    as `Some(v)` or `None`. */
module Controller {
  import opened Wrappers
  import opened Text
  import opened Engine
  import opened Export
  import Analysis

  /** The four inputs the page has controls for, in the order the start-up
      loop visits them. */
  const ControlFields := [MonthlyVolume, ApprovalRate, LowBenefit, EpisodeCost]

  /** One control as the start-up loop finds it: absent from the page, or
      present with its parsed value. */
  datatype Control = Missing | Present(parsed: Option<real>)

  /** `parseFloat(value) || 0`: NaN becomes 0 (a parsed 0 stays 0). */
  function EditValue(parsed: Option<real>): (v: real)
    ensures parsed.None? ==> v == 0.0
    ensures parsed.Some? ==> v == parsed.value
  {
    match parsed
    case None => 0.0
    case Some(x) => x
  }

  /** One step of the start-up loop: a present control with a number replaces
      the field; a missing control or NaN leaves it. */
  function SyncOne(d: CalculatorData, f: Field, c: Control): CalculatorData {
    match c
    case Present(Some(v)) => Set(d, f, v)
    case _ => d
  }

  /** The record after the first `k` steps of the start-up loop. */
  function SyncUpTo(d: CalculatorData, controls: seq<Control>, k: nat): CalculatorData
    requires k <= |controls| == |ControlFields|
  {
    if k == 0 then d
    else SyncOne(SyncUpTo(d, controls, k - 1), ControlFields[k - 1], controls[k - 1])
  }

  /** What the start-up loop leaves in a control's field. */
  function Synced(c: Control, previous: real): real {
    match c
    case Present(Some(v)) => v
    case _ => previous
  }

  /** After `k` steps, each of the first `k` control fields holds its control's
      number, or its previous value when the control is missing or NaN; every
      other field is untouched. */
  lemma {:induction false} SyncUpToFields(d: CalculatorData, controls: seq<Control>, k: nat)
    requires k <= |controls| == |ControlFields|
    ensures forall i :: 0 <= i < |ControlFields| ==>
      Get(SyncUpTo(d, controls, k), ControlFields[i])
        == if i < k then Synced(controls[i], Get(d, ControlFields[i])) else Get(d, ControlFields[i])
    ensures forall g :: g !in ControlFields ==> Get(SyncUpTo(d, controls, k), g) == Get(d, g)
  {
    if k > 0 {
      SyncUpToFields(d, controls, k - 1);
    }
  }

  /** The two rules differ: an edit turns an unparsable value into 0, the
      start-up loop keeps the field's previous value. */
  lemma EditAndStartupDiffer(d: CalculatorData, f: Field)
    ensures Get(Set(d, f, EditValue(None)), f) == 0.0
    ensures SyncOne(d, f, Present(None)) == d
    ensures SyncOne(d, f, Missing) == d
  {
  }

  class Calculator {
    var data: CalculatorData
    var cache: Option<RoiResult>

    /** The page's initial state: the default inputs and no result. */
    constructor()
      ensures data == Defaults && cache == None
    {
      data := Defaults;
      cache := None;
    }

    /** `updateCalculatorData(key, value)`: the field gets the parsed value,
        or 0 when the text does not parse; the cache is left as it is. */
    method UpdateCalculatorData(key: Field, parsed: Option<real>)
      modifies this
      ensures data == Set(old(data), key, EditValue(parsed))
      ensures cache == old(cache)
    {
      data := Set(data, key, EditValue(parsed));
    }

    /** `calculateROI()`: the result of the current inputs replaces the cache. */
    method CalculateROI()
      modifies this
      ensures data == old(data)
      ensures cache == Some(PerformROICalculation(data))
    {
      var results := PerformROICalculation(data);
      cache := Some(results);
    }

    /** The start-up loop over the four controls. */
    method SyncFromControls(controls: seq<Control>)
      requires |controls| == |ControlFields|
      modifies this
      ensures data == SyncUpTo(old(data), controls, |controls|)
      ensures cache == old(cache)
    {
      var i := 0;
      while i < |controls|
        invariant 0 <= i <= |controls|
        invariant data == SyncUpTo(old(data), controls, i)
        invariant cache == old(cache)
      {
        if controls[i].Present? && controls[i].parsed.Some? {
          data := Set(data, ControlFields[i], controls[i].parsed.value);
        }
        i := i + 1;
      }
    }

    /** `initializeROICalculator()`: nothing without a calculator on the page;
        otherwise the controls are read in and a first result is cached. */
    method Initialize(calculatorPresent: bool, controls: seq<Control>)
      requires |controls| == |ControlFields|
      modifies this
      ensures !calculatorPresent ==> data == old(data) && cache == old(cache)
      ensures calculatorPresent ==>
        data == SyncUpTo(old(data), controls, |controls|) && cache == Some(PerformROICalculation(data))
    {
      if !calculatorPresent {
        return;
      }
      SyncFromControls(controls);
      CalculateROI();
    }

    /** The input listener: the edit rule, then a fresh calculation, so the
        cache always holds the result of the inputs it is shown with. */
    method OnInput(key: Field, parsed: Option<real>)
      modifies this
      ensures data == Set(old(data), key, EditValue(parsed))
      ensures cache == Some(PerformROICalculation(data))
    {
      UpdateCalculatorData(key, parsed);
      CalculateROI();
    }

    /** `exportROIToCSV()`: no CSV without a cached result, otherwise the CSV
        of the current inputs and the cached result. */
    method ExportROIToCSV(date: string) returns (csv: Option<Text>)
      ensures cache.None? ==> csv == None
      ensures cache.Some? ==> csv == Some(GenerateROICSV(data, cache.value, date))
    {
      if cache.None? {
        return None;
      }
      var results := cache.value;
      csv := Some(GenerateROICSV(data, results, date));
    }

    /** `generateROIReport()`: no report without a cached result. */
    method GenerateROIReport(date: string) returns (report: Option<Report>)
      ensures cache.None? ==> report == None
      ensures cache.Some? ==> report == Some(GenerateReportContent(data, cache.value, date))
    {
      if cache.None? {
        return None;
      }
      var results := cache.value;
      report := Some(GenerateReportContent(data, results, date));
    }

    /** `runScenarioAnalysis()` over the current inputs; the state is only read. */
    method RunScenarioAnalysis() returns (rs: seq<Analysis.ScenarioResult>)
      ensures rs == Analysis.RunScenarioAnalysis(data)
    {
      rs := Analysis.RunScenarioAnalysis(data);
    }

    /** `runSensitivityAnalysis()` over the current inputs; the state is only read. */
    method RunSensitivityAnalysis() returns (sensitivity: Analysis.Table)
      ensures sensitivity == Analysis.Sensitivity(data)
    {
      sensitivity := Analysis.RunSensitivityAnalysis(data);
    }
  }
}
