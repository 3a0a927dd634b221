/** The two renderings of a calculation: the CSV table handed to the download
    collaborator and the report shown in a modal, the latter as a structured
    document rather than markup. */
module Export {
  import opened JsNumber
  import opened Text
  import opened Seqs
  import opened Engine
  import opened Formatting
  import opened Wrappers

  /** One CSV row: a name and a value. */
  datatype Row = Row(name: Text, value: Text)

  function Shown(x: real): Text { [Number(Numeral.Shown(Real(x)))] }
  function Dollars(x: real): Text { Lit("$") + [Number(Locale(Real(x)))] }
  function Percent(x: real): Text { Shown(x) + Lit("%") }

  /** The 25 rows of `generateROICSV`, in order: a header, then the input,
      result and breakdown sections, each opened by its marker and the first
      three closed by an empty row. The generation date is the caller's
      `toLocaleDateString()`. */
  function CsvRows(input: CalculatorData, r: RoiResult, date: string): (rows: seq<Row>)
    ensures |rows| == 25
    ensures rows[0].name == Lit("CareFuse ROI Analysis") && rows[1].value == Lit(date)
    ensures rows[3].name == Lit("INPUT PARAMETERS")
    ensures rows[9].name == Lit("CALCULATED RESULTS")
    ensures rows[21].name == Lit("DETAILED BREAKDOWN")
    ensures rows[2] == Blank && rows[8] == Blank && rows[20] == Blank
  {
    HeaderRows(date) + InputRows(input) + ResultRows(r) + BreakdownRows(r)
  }

  const Blank := Row([], [])

  function HeaderRows(date: string): (rows: seq<Row>)
    ensures |rows| == 3
  {
    [ Row(Lit("CareFuse ROI Analysis"), []),
      Row(Lit("Generated on"), Lit(date)),
      Blank ]
  }

  function InputRows(input: CalculatorData): (rows: seq<Row>)
    ensures |rows| == 6
    ensures rows[1].name == Lit("Monthly TKA/THA Volume") && rows[2].name == Lit("Baseline Approval Rate")
    ensures rows[3].name == Lit("Predicted Low Benefit %") && rows[4].name == Lit("Average Episode Cost")
    ensures rows[1].value == Shown(input.monthlyVolume)
    ensures rows[2].value == Percent(input.approvalRate) && rows[3].value == Percent(input.lowBenefit)
    ensures rows[4].value == Dollars(input.episodeCost)
  {
    [ Row(Lit("INPUT PARAMETERS"), []),
      Row(Lit("Monthly TKA/THA Volume"), Shown(input.monthlyVolume)),
      Row(Lit("Baseline Approval Rate"), Percent(input.approvalRate)),
      Row(Lit("Predicted Low Benefit %"), Percent(input.lowBenefit)),
      Row(Lit("Average Episode Cost"), Dollars(input.episodeCost)),
      Blank ]
  }

  function ResultRows(r: RoiResult): (rows: seq<Row>)
    ensures |rows| == 12
    ensures rows[1].value == Shown(r.breakdown.annualVolume)
    ensures rows[2].value == Shown(r.avoidedSurgeries as real)
    ensures rows[3].value == Dollars(r.medicalSavings) && rows[4].value == Dollars(r.adminSavings)
    ensures rows[5].value == Dollars(r.totalSavings)
    ensures rows[6].value == Dollars(r.breakdown.implementationCost)
    ensures rows[7].value == Dollars(r.breakdown.annualLicenseCost)
    ensures rows[8].value == Dollars(r.netROI)
    ensures rows[10].value == FormatMonths(r.paybackPeriod)
  {
    SavingsRows(r) + CostRows(r)
  }

  /** The first half of the results: case counts and savings. */
  function SavingsRows(r: RoiResult): (rows: seq<Row>)
    ensures |rows| == 6
    ensures rows[1].name == Lit("Annual Volume") && rows[2].name == Lit("Avoided Surgeries per Year")
    ensures rows[3].name == Lit("Medical Cost Savings") && rows[4].name == Lit("Administrative Savings")
    ensures rows[5].name == Lit("Total Annual Savings")
    ensures rows[1].value == Shown(r.breakdown.annualVolume)
    ensures rows[2].value == Shown(r.avoidedSurgeries as real)
    ensures rows[3].value == Dollars(r.medicalSavings) && rows[4].value == Dollars(r.adminSavings)
    ensures rows[5].value == Dollars(r.totalSavings)
  {
    [ Row(Lit("CALCULATED RESULTS"), []),
      Row(Lit("Annual Volume"), Shown(r.breakdown.annualVolume)),
      Row(Lit("Avoided Surgeries per Year"), Shown(r.avoidedSurgeries as real)),
      Row(Lit("Medical Cost Savings"), Dollars(r.medicalSavings)),
      Row(Lit("Administrative Savings"), Dollars(r.adminSavings)),
      Row(Lit("Total Annual Savings"), Dollars(r.totalSavings)) ]
  }

  /** The second half of the results: costs, return and payback. */
  function CostRows(r: RoiResult): (rows: seq<Row>)
    ensures |rows| == 6
    ensures rows[0].name == Lit("Implementation Cost") && rows[1].name == Lit("Annual License Cost")
    ensures rows[2].name == Lit("Net Annual ROI") && rows[3].name == Lit("ROI Percentage")
    ensures rows[4].name == Lit("Payback Period")
    ensures rows[3].value == [Number(Fixed(r.roiPercentage, 1))] + Lit("%")
    ensures rows[0].value == Dollars(r.breakdown.implementationCost)
    ensures rows[1].value == Dollars(r.breakdown.annualLicenseCost)
    ensures rows[2].value == Dollars(r.netROI)
    ensures rows[4].value == FormatMonths(r.paybackPeriod)
  {
    [ Row(Lit("Implementation Cost"), Dollars(r.breakdown.implementationCost)),
      Row(Lit("Annual License Cost"), Dollars(r.breakdown.annualLicenseCost)),
      Row(Lit("Net Annual ROI"), Dollars(r.netROI)),
      Row(Lit("ROI Percentage"), [Number(Fixed(r.roiPercentage, 1))] + Lit("%")),
      Row(Lit("Payback Period"), FormatMonths(r.paybackPeriod)),
      Blank ]
  }

  function BreakdownRows(r: RoiResult): (rows: seq<Row>)
    ensures |rows| == 4
    ensures rows[1].name == Lit("P2P Review Savings") && rows[2].name == Lit("Overturn Cost Savings")
    ensures rows[3].name == Lit("Avoidance Rate Applied")
    ensures rows[1].value == Dollars(r.breakdown.p2pSavings)
    ensures rows[2].value == Dollars(r.breakdown.overturnSavings)
    ensures rows[3].value == Percent(r.breakdown.avoidanceRate * 100.0)
  {
    [ Row(Lit("DETAILED BREAKDOWN"), []),
      Row(Lit("P2P Review Savings"), Dollars(r.breakdown.p2pSavings)),
      Row(Lit("Overturn Cost Savings"), Dollars(r.breakdown.overturnSavings)),
      Row(Lit("Avoidance Rate Applied"), Percent(r.breakdown.avoidanceRate * 100.0)) ]
  }

  /** `row.join(',')`. */
  function JoinRow(row: Row): Text {
    Join([row.name, row.value], Ch(','))
  }

  function JoinRows(rows: seq<Row>): (lines: seq<Text>)
    ensures |lines| == |rows|
    ensures forall i :: 0 <= i < |rows| ==> lines[i] == JoinRow(rows[i])
  {
    if |rows| == 0 then [] else [JoinRow(rows[0])] + JoinRows(rows[1..])
  }

  /** `generateROICSV(inputData, results)`: the rows joined by ',' and '\n',
      with no quoting. The file opens with the title line and ends with the
      avoidance-rate line, with no line break after it. */
  function GenerateROICSV(input: CalculatorData, r: RoiResult, date: string): (csv: Text)
    ensures Lit("CareFuse ROI Analysis") + [Ch(',')] <= csv
    ensures var last := Lit("Avoidance Rate Applied") + [Ch(',')] + Percent(r.breakdown.avoidanceRate * 100.0);
      |last| <= |csv| && csv[|csv| - |last|..] == last
  {
    var rows := CsvRows(input, r, date);
    var lines := JoinRows(rows);
    JoinEnds(lines, Ch('\n'));
    HeadAndLastRow(input, r, date);
    Join(lines, Ch('\n'))
  }

  /** The title row and the avoidance-rate row, as joined by `row.join(',')`. */
  lemma HeadAndLastRow(input: CalculatorData, r: RoiResult, date: string)
    ensures var rows := CsvRows(input, r, date);
      && JoinRow(rows[0]) == Lit("CareFuse ROI Analysis") + [Ch(',')]
      && JoinRow(rows[24]) == Lit("Avoidance Rate Applied") + [Ch(',')] + Percent(r.breakdown.avoidanceRate * 100.0)
  {
    var rows := CsvRows(input, r, date);
    assert rows[0] == HeaderRows(date)[0];
    assert rows[24] == BreakdownRows(r)[3];
    assert JoinRow(rows[0]) == rows[0].name + [Ch(',')] + rows[0].value;
    assert JoinRow(rows[24]) == rows[24].name + [Ch(',')] + rows[24].value;
  }

  /** A row neither of whose cells contains the separator `c`. */
  predicate RowFree(row: Row, c: char) {
    Ch(c) !in row.name && Ch(c) !in row.value
  }

  /** A string that holds neither CSV separator. */
  predicate Plain(s: string) {
    forall i :: 0 <= i < |s| ==> s[i] != ',' && s[i] != '\n'
  }

  lemma PlainFree(s: string, c: char)
    requires Plain(s) && (c == ',' || c == '\n')
    ensures Ch(c) !in Lit(s)
  {
  }

  lemma LitsFree(c: char)
    requires c == ',' || c == '\n'
    ensures Ch(c) !in Lit("$") && Ch(c) !in Lit("%")
    ensures Ch(c) !in Lit(" months") && Ch(c) !in Lit(" years")
  {
    assert Plain("$") && Plain("%") && Plain(" months") && Plain(" years");
    PlainFree("$", c);
    PlainFree("%", c);
    PlainFree(" months", c);
    PlainFree(" years", c);
  }

  predicate AllFree(rows: seq<Row>, c: char) {
    forall i :: 0 <= i < |rows| ==> RowFree(rows[i], c)
  }

  lemma AllFreeConcat(a: seq<Row>, b: seq<Row>, c: char)
    requires AllFree(a, c) && AllFree(b, c)
    ensures AllFree(a + b, c)
  {
  }

  /** No cell holds a literal ',' or '\n' (a numeral is an atom here), as long
      as the date string holds neither. */
  lemma CellsFree(input: CalculatorData, r: RoiResult, date: string, c: char)
    requires c == ',' || c == '\n'
    requires c !in date
    ensures AllFree(CsvRows(input, r, date), c)
  {
    HeaderFree(date, c);
    InputFree(input, c);
    ResultsFree(r, c);
    BreakdownFree(r, c);
    AllFreeConcat(HeaderRows(date), InputRows(input), c);
    AllFreeConcat(HeaderRows(date) + InputRows(input), ResultRows(r), c);
    AllFreeConcat(HeaderRows(date) + InputRows(input) + ResultRows(r), BreakdownRows(r), c);
  }

  lemma HeaderFree(date: string, c: char)
    requires c == ',' || c == '\n'
    requires c !in date
    ensures AllFree(HeaderRows(date), c)
  {
    assert Plain("CareFuse ROI Analysis") && Plain("Generated on");
    PlainFree("CareFuse ROI Analysis", c);
    PlainFree("Generated on", c);
    LitFree(date, c);
  }

  lemma InputFree(input: CalculatorData, c: char)
    requires c == ',' || c == '\n'
    ensures AllFree(InputRows(input), c)
  {
    LitsFree(c);
    InputNamesFree(c);
  }

  lemma InputNamesFree(c: char)
    requires c == ',' || c == '\n'
    ensures Ch(c) !in Lit("INPUT PARAMETERS") && Ch(c) !in Lit("Monthly TKA/THA Volume")
    ensures Ch(c) !in Lit("Baseline Approval Rate") && Ch(c) !in Lit("Predicted Low Benefit %")
    ensures Ch(c) !in Lit("Average Episode Cost")
  {
    assert Plain("INPUT PARAMETERS") && Plain("Monthly TKA/THA Volume");
    PlainFree("INPUT PARAMETERS", c);
    PlainFree("Monthly TKA/THA Volume", c);
    EpisodeNamesFree(c);
  }

  lemma EpisodeNamesFree(c: char)
    requires c == ',' || c == '\n'
    ensures Ch(c) !in Lit("Baseline Approval Rate") && Ch(c) !in Lit("Predicted Low Benefit %")
    ensures Ch(c) !in Lit("Average Episode Cost")
  {
    assert Plain("Baseline Approval Rate") && Plain("Predicted Low Benefit %") && Plain("Average Episode Cost");
    PlainFree("Baseline Approval Rate", c);
    PlainFree("Predicted Low Benefit %", c);
    PlainFree("Average Episode Cost", c);
  }

  lemma ResultsFree(r: RoiResult, c: char)
    requires c == ',' || c == '\n'
    ensures AllFree(ResultRows(r), c)
  {
    ResultNamesFree(c);
    LitsFree(c);
    FormatMonthsFree(r.paybackPeriod, c);
  }

  lemma ResultNamesFree(c: char)
    requires c == ',' || c == '\n'
    ensures Ch(c) !in Lit("CALCULATED RESULTS") && Ch(c) !in Lit("Annual Volume")
    ensures Ch(c) !in Lit("Avoided Surgeries per Year") && Ch(c) !in Lit("Medical Cost Savings")
    ensures Ch(c) !in Lit("Administrative Savings") && Ch(c) !in Lit("Total Annual Savings")
    ensures Ch(c) !in Lit("Implementation Cost") && Ch(c) !in Lit("Annual License Cost")
    ensures Ch(c) !in Lit("Net Annual ROI") && Ch(c) !in Lit("ROI Percentage")
    ensures Ch(c) !in Lit("Payback Period")
  {
    assert Plain("CALCULATED RESULTS") && Plain("Annual Volume") && Plain("Avoided Surgeries per Year");
    assert Plain("Medical Cost Savings") && Plain("Administrative Savings") && Plain("Total Annual Savings");
    PlainFree("CALCULATED RESULTS", c);
    PlainFree("Annual Volume", c);
    PlainFree("Avoided Surgeries per Year", c);
    PlainFree("Medical Cost Savings", c);
    PlainFree("Administrative Savings", c);
    PlainFree("Total Annual Savings", c);
    CostNamesFree(c);
  }

  lemma CostNamesFree(c: char)
    requires c == ',' || c == '\n'
    ensures Ch(c) !in Lit("Implementation Cost") && Ch(c) !in Lit("Annual License Cost")
    ensures Ch(c) !in Lit("Net Annual ROI") && Ch(c) !in Lit("ROI Percentage")
    ensures Ch(c) !in Lit("Payback Period")
  {
    assert Plain("Implementation Cost") && Plain("Annual License Cost") && Plain("Net Annual ROI");
    assert Plain("ROI Percentage") && Plain("Payback Period");
    PlainFree("Implementation Cost", c);
    PlainFree("Annual License Cost", c);
    PlainFree("Net Annual ROI", c);
    PlainFree("ROI Percentage", c);
    PlainFree("Payback Period", c);
  }

  lemma BreakdownFree(r: RoiResult, c: char)
    requires c == ',' || c == '\n'
    ensures AllFree(BreakdownRows(r), c)
  {
    LitsFree(c);
    BreakdownNamesFree(c);
  }

  lemma BreakdownNamesFree(c: char)
    requires c == ',' || c == '\n'
    ensures Ch(c) !in Lit("DETAILED BREAKDOWN") && Ch(c) !in Lit("P2P Review Savings")
    ensures Ch(c) !in Lit("Overturn Cost Savings") && Ch(c) !in Lit("Avoidance Rate Applied")
  {
    assert Plain("DETAILED BREAKDOWN") && Plain("P2P Review Savings");
    assert Plain("Overturn Cost Savings") && Plain("Avoidance Rate Applied");
    PlainFree("DETAILED BREAKDOWN", c);
    PlainFree("P2P Review Savings", c);
    PlainFree("Overturn Cost Savings", c);
    PlainFree("Avoidance Rate Applied", c);
  }

  lemma FormatMonthsFree(m: Num, c: char)
    requires c == ',' || c == '\n'
    ensures Ch(c) !in FormatMonths(m)
  {
    LitsFree(c);
  }

  /** The CSV splits back into its 25 lines, and each line into exactly its
      name and its value, when the date string holds no ',' or '\n'. */
  lemma CsvShape(input: CalculatorData, r: RoiResult, date: string)
    requires ',' !in date && '\n' !in date
    ensures var rows := CsvRows(input, r, date);
      var lines := Split(GenerateROICSV(input, r, date), Ch('\n'));
      && |lines| == 25
      && forall i :: 0 <= i < 25 ==> Split(lines[i], Ch(',')) == [rows[i].name, rows[i].value]
  {
    var rows := CsvRows(input, r, date);
    var lines := JoinRows(rows);
    CellsFree(input, r, date, ',');
    CellsFree(input, r, date, '\n');
    forall i | 0 <= i < 25 ensures Ch('\n') !in lines[i] && Split(lines[i], Ch(',')) == [rows[i].name, rows[i].value] {
      assert RowFree(rows[i], '\n') && RowFree(rows[i], ',');
      SplitJoin([rows[i].name, rows[i].value], Ch(','));
      JoinPairFree(rows[i].name, rows[i].value, Ch(','), Ch('\n'));
    }
    SplitJoin(lines, Ch('\n'));
  }

  lemma JoinPairFree(a: Text, b: Text, sep: Piece, x: Piece)
    requires x != sep && x !in a && x !in b
    ensures x !in Join([a, b], sep)
  {
    assert Join([a, b], sep) == a + [sep] + Join([b], sep);
  }

  /** The report, section by section. */
  datatype Report = Report(
    date: string,
    executiveSummary: seq<Text>,
    inputParameters: seq<Row>,
    costSavings: seq<Row>,
    implementationCosts: seq<Row>,
    keyAssumptions: seq<string>,
    nextSteps: seq<string>)

  /** The assumption list, fixed text. */
  const KeyAssumptions := [
    "75% of identified low-benefit cases can be successfully avoided",
    "30% reduction in P2P review cases",
    "40% reduction in denial overturn cases",
    "$2,000 average cost per overturn case",
    "$300 average cost per P2P review"]

  /** The next-step list, fixed text. */
  const NextSteps := [
    "Schedule a detailed demo to see CareFuse in action",
    "Conduct a pilot program with a subset of cases",
    "Develop implementation timeline and change management plan",
    "Establish success metrics and monitoring procedures"]

  /** `generateReportContent(inputData, results)` as a document. */
  function GenerateReportContent(input: CalculatorData, r: RoiResult, date: string): (rep: Report)
    ensures |rep.executiveSummary| == 4 && |rep.inputParameters| == 4
    ensures |rep.costSavings| == 3 && |rep.implementationCosts| == 3
    ensures rep.keyAssumptions == KeyAssumptions && rep.nextSteps == NextSteps
    ensures rep.executiveSummary[0] == FormatCurrency(r.netROI) + Lit(" in net annual ROI")
    ensures rep.executiveSummary[1] == Shown(r.avoidedSurgeries as real) + Lit(" avoided unnecessary procedures per year")
    ensures rep.executiveSummary[2] == FormatPercentage(r.roiPercentage) + Lit(" return on investment")
    ensures rep.executiveSummary[3] == FormatMonths(r.paybackPeriod) + Lit(" payback period")
    ensures rep.inputParameters[0].value == Shown(input.monthlyVolume)
    ensures rep.inputParameters[1].value == Percent(input.approvalRate)
    ensures rep.inputParameters[2].value == Percent(input.lowBenefit)
  {
    Report(
      date,
      [ FormatCurrency(r.netROI) + Lit(" in net annual ROI"),
        Shown(r.avoidedSurgeries as real) + Lit(" avoided unnecessary procedures per year"),
        FormatPercentage(r.roiPercentage) + Lit(" return on investment"),
        FormatMonths(r.paybackPeriod) + Lit(" payback period") ],
      [ Row(Lit("Monthly TKA/THA Volume:"), Shown(input.monthlyVolume)),
        Row(Lit("Baseline Approval Rate:"), Percent(input.approvalRate)),
        Row(Lit("Predicted Low Benefit %:"), Percent(input.lowBenefit)),
        Row(Lit("Average Episode Cost:"), FormatCurrency(input.episodeCost)) ],
      [ Row(Lit("Medical Cost Savings:"), FormatCurrency(r.medicalSavings)),
        Row(Lit("Administrative Savings:"), FormatCurrency(r.adminSavings)),
        Row(Lit("Total Annual Savings:"), FormatCurrency(r.totalSavings)) ],
      [ Row(Lit("One-time Implementation:"), FormatCurrency(r.breakdown.implementationCost)),
        Row(Lit("Annual License Cost:"), FormatCurrency(r.breakdown.annualLicenseCost)),
        Row(Lit("Total Annual Cost:"), FormatCurrency(r.totalCost)) ],
      KeyAssumptions,
      NextSteps)
  }

  /** The assumption list does not follow the inputs: it names $300 per P2P
      review whatever `p2pCostPerCase` is. */
  lemma AssumptionsIgnoreInputs(d: CalculatorData, date: string, cost: real)
    ensures var rep := GenerateReportContent(d.(p2pCostPerCase := cost),
                                             PerformROICalculation(d.(p2pCostPerCase := cost)), date);
      rep.keyAssumptions[4] == "$300 average cost per P2P review"
  {
  }

  /** Every currency cell of the report's tables reads back as the amount it
      stands for: the input's episode cost, the three savings and the three
      costs, each in its own row. */
  lemma ReportFiguresReadBack(input: CalculatorData, r: RoiResult, date: string)
    ensures var rep := GenerateReportContent(input, r, date);
      && CurrencyAmount(rep.inputParameters[3].value) == Some(input.episodeCost)
      && CurrencyAmount(rep.costSavings[0].value) == Some(r.medicalSavings)
      && CurrencyAmount(rep.costSavings[1].value) == Some(r.adminSavings)
      && CurrencyAmount(rep.costSavings[2].value) == Some(r.totalSavings)
      && CurrencyAmount(rep.implementationCosts[0].value) == Some(r.breakdown.implementationCost)
      && CurrencyAmount(rep.implementationCosts[1].value) == Some(r.breakdown.annualLicenseCost)
      && CurrencyAmount(rep.implementationCosts[2].value) == Some(r.totalCost)
  {
    CurrencyRoundTrip(input.episodeCost);
    CurrencyRoundTrip(r.medicalSavings);
    CurrencyRoundTrip(r.adminSavings);
    CurrencyRoundTrip(r.totalSavings);
    CurrencyRoundTrip(r.breakdown.implementationCost);
    CurrencyRoundTrip(r.breakdown.annualLicenseCost);
    CurrencyRoundTrip(r.totalCost);
  }
}
