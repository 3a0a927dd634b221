/** The display formatters of the calculator. */
module Formatting {
  import opened JsNumber
  import opened Text
  import opened Wrappers

  /** `formatCurrency(amount)`: millions with one decimal and `M`, thousands
      with no decimal and `k`, anything below 1000 (negatives included) in the
      locale's own format. */
  function FormatCurrency(amount: real): (t: Text)
    ensures |t| >= 2 && t[0] == Ch('$') && t[1].Number?
    ensures t[|t| - 1] == Ch('M') <==> amount >= 1000000.0
    ensures t[|t| - 1] == Ch('k') <==> 1000.0 <= amount < 1000000.0
    ensures amount < 1000.0 ==> t == [Ch('$'), Number(Locale(Real(amount)))]
  {
    if amount >= 1000000.0 then Lit("$") + [Number(Fixed(Real(amount / 1000000.0), 1))] + Lit("M")
    else if amount >= 1000.0 then Lit("$") + [Number(Fixed(Real(amount / 1000.0), 0))] + Lit("k")
    else Lit("$") + [Number(Locale(Real(amount)))]
  }

  /** `formatPercentage(p)`: one decimal and `%`. */
  function FormatPercentage(p: Num): (t: Text)
    ensures |t| == 2 && t[1] == Ch('%')
    ensures t[0].Number? && t[0].n.Fixed? && t[0].n.value == p && t[0].n.digits == 1
  {
    [Number(Fixed(p, 1))] + Lit("%")
  }

  /** `formatMonths(m)`: months below 12, otherwise years. */
  function FormatMonths(m: Num): (t: Text)
    ensures |t| >= 7 && t[0].Number?
    ensures t[1..] == Lit(" months") <==> LessThan(m, 12.0)
    ensures t[1..] == Lit(" years") <==> !LessThan(m, 12.0)
  {
    if LessThan(m, 12.0) then [Number(Fixed(m, 1))] + Lit(" months")
    else [Number(Fixed(DivBy(m, 12.0), 1))] + Lit(" years")
  }

  /** The amount a currency text stands for: the numeral's value times the
      scale its suffix names. */
  function CurrencyAmount(t: Text): Option<real> {
    match Read(t)
    case Some(Reading("$", numeral, suffix)) =>
      if numeral.value.Real? && suffix in {"M", "k", ""} then
        Some(numeral.value.v * (if suffix == "M" then 1000000.0 else if suffix == "k" then 1000.0 else 1.0))
      else None
    case _ => None
  }

  /** The number of months a duration text stands for. */
  function MonthsShown(t: Text): Option<Num> {
    match Read(t)
    case Some(Reading("", Fixed(value, 1), suffix)) =>
      if suffix == " months" then Some(value)
      else if suffix == " years" then Some(Scale(value, 12.0))
      else None
    case _ => None
  }

  /** Reading a formatted currency back recovers the amount, up to the
      rounding `toFixed` applies to the digits. */
  lemma CurrencyRoundTrip(amount: real)
    ensures CurrencyAmount(FormatCurrency(amount)) == Some(amount)
  {
    if amount >= 1000000.0 {
      ReadLit("$", Fixed(Real(amount / 1000000.0), 1), "M");
    } else if amount >= 1000.0 {
      ReadLit("$", Fixed(Real(amount / 1000.0), 0), "k");
    } else {
      ReadLit("$", Locale(Real(amount)), "");
      assert Lit("$") + [Number(Locale(Real(amount)))] + Lit("") == Lit("$") + [Number(Locale(Real(amount)))];
    }
  }

  /** Reading a formatted duration back recovers the number of months, with
      its unit chosen by the 12-month threshold. */
  lemma MonthsRoundTrip(m: Num)
    ensures MonthsShown(FormatMonths(m)) == Some(m)
  {
    if LessThan(m, 12.0) {
      ReadLit("", Fixed(m, 1), " months");
      assert Lit("") + [Number(Fixed(m, 1))] + Lit(" months") == FormatMonths(m);
    } else {
      ReadLit("", Fixed(DivBy(m, 12.0), 1), " years");
      assert Lit("") + [Number(Fixed(DivBy(m, 12.0), 1))] + Lit(" years") == FormatMonths(m);
    }
  }

  /** The worked examples: 1234567 reads as 1.234567 million, 45000 as 45
      thousand and 950 as it is. */
  lemma CurrencyExamples()
    ensures FormatCurrency(1234567.0) == Lit("$") + [Number(Fixed(Real(1.234567), 1))] + Lit("M")
    ensures FormatCurrency(45000.0) == Lit("$") + [Number(Fixed(Real(45.0), 0))] + Lit("k")
    ensures FormatCurrency(950.0) == Lit("$") + [Number(Locale(Real(950.0)))]
  {
  }
}
