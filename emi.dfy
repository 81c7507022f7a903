/** The EMI calculator page: an interest-free installment plan. The buyer picks
    a plot value, a down-payment percentage and a tenure; the page shows the
    down payment, the financed amount, the monthly installment and a preview
    of the first months of the payment schedule.

    Amounts are exact rationals (`real`); the page's `Math.round` is modelled
    by `Round`, which rounds halves up as JavaScript does. */
module Emi {

  /** Plot-value slider: 20 lakh to 2 crore taka in steps of 1 lakh. */
  const PlotValueMin := 2000000
  const PlotValueMax := 20000000
  const PlotValueStep := 100000

  /** Down-payment slider: 20 % to 60 % in steps of 5 %. */
  const DownPaymentMin := 20
  const DownPaymentMax := 60
  const DownPaymentStep := 5

  /** The number of month rows the schedule preview shows at most. */
  const PreviewMonths := 6

  /** The tenure buttons, in months, left to right: three whole numbers of
      years in increasing order, each longer than the schedule preview. */
  function TenureOptions(): (options: seq<int>)
    ensures |options| == 3
    ensures forall i :: 0 <= i < |options| ==> options[i] % 12 == 0 && PreviewMonths < options[i]
    ensures forall i, j :: 0 <= i < j < |options| ==> options[i] < options[j]
  {
    [12, 24, 36]
  }

  /** The three inputs of the calculator. */
  datatype Inputs = Inputs(plotValue: int, downPaymentPct: int, tenure: int)

  /** The `k`-th position of a slider that starts at `lo` and moves in steps
      of `step`. */
  function SliderPosition(lo: int, step: int, k: nat): int
  {
    lo + k * step
  }

  /** `d` whole steps, `d` at least one, cover at least one step. */
  lemma AtLeastOneStep(step: int, d: int)
    requires step > 0 && d >= 1
    ensures step * d >= step
  {
    assert step * d == step * (d - 1) + step;
  }

  /** Division by a positive step has a unique quotient and remainder: if `a`
      is `q` steps plus a remainder `r` smaller than a step, then `r` is
      `a % step`. */
  lemma RemainderUnique(a: int, step: int, q: int, r: int)
    requires step > 0 && 0 <= r < step && a == step * q + r
    ensures a % step == r
  {
    var q', r' := a / step, a % step;
    assert a == step * q' + r';
    if q' < q {
      AtLeastOneStep(step, q - q');
    } else if q < q' {
      AtLeastOneStep(step, q' - q);
    }
  }

  /** Every position of a slider is a whole number of steps from its start. */
  lemma PositionsOnGrid(lo: int, step: int)
    requires step > 0
    ensures forall k: nat :: (SliderPosition(lo, step, k) - lo) % step == 0
  {
    forall k: nat ensures (SliderPosition(lo, step, k) - lo) % step == 0 {
      RemainderUnique(SliderPosition(lo, step, k) - lo, step, k, 0);
    }
  }

  /** `v` is a value a slider from `lo` to `hi` in steps of `step` can take. */
  predicate OnSlider(v: int, lo: int, hi: int, step: int)
    requires step > 0
  {
    lo <= v <= hi && (v - lo) % step == 0
  }

  /** The values a slider can take are exactly its positions `lo`,
      `lo + step`, … that do not pass `hi`. */
  lemma OnSliderIffPosition(v: int, lo: int, hi: int, step: int)
    requires step > 0
    ensures OnSlider(v, lo, hi, step) <==> lo <= v <= hi && exists k: nat :: v == SliderPosition(lo, step, k)
  {
    PositionsOnGrid(lo, step);
    if OnSlider(v, lo, hi, step) {
      var k: nat := (v - lo) / step;
      assert v == SliderPosition(lo, step, k);
    }
  }

  /** Every input is a value its control can produce. Such inputs have a
      positive plot value, a down payment strictly between 0 and 100 %, and
      a tenure longer than the schedule preview. */
  predicate ValidInputs(s: Inputs): (ok: bool)
    ensures ok ==> 0 < s.plotValue && 0 < s.downPaymentPct < 100 && PreviewMonths < s.tenure
  {
    && OnSlider(s.plotValue, PlotValueMin, PlotValueMax, PlotValueStep)
    && OnSlider(s.downPaymentPct, DownPaymentMin, DownPaymentMax, DownPaymentStep)
    && s.tenure in TenureOptions()
  }

  /** The inputs the page starts with: 50 lakh, 30 %, 24 months. */
  function InitialInputs(): (s: Inputs)
    ensures ValidInputs(s)
  {
    Inputs(5000000, 30, 24)
  }

  /** The plot-value slider moved to `v`. */
  function SetPlotValue(s: Inputs, v: int): (r: Inputs)
    requires OnSlider(v, PlotValueMin, PlotValueMax, PlotValueStep)
    ensures ValidInputs(s) ==> ValidInputs(r)
    ensures r.plotValue == v && r.downPaymentPct == s.downPaymentPct && r.tenure == s.tenure
  {
    s.(plotValue := v)
  }

  /** The down-payment slider moved to `pct`. */
  function SetDownPayment(s: Inputs, pct: int): (r: Inputs)
    requires OnSlider(pct, DownPaymentMin, DownPaymentMax, DownPaymentStep)
    ensures ValidInputs(s) ==> ValidInputs(r)
    ensures r.downPaymentPct == pct && r.plotValue == s.plotValue && r.tenure == s.tenure
  {
    s.(downPaymentPct := pct)
  }

  /** The `option`-th tenure button pressed. */
  function SelectTenure(s: Inputs, option: nat): (r: Inputs)
    requires option < |TenureOptions()|
    ensures ValidInputs(s) ==> ValidInputs(r)
    ensures r.tenure == TenureOptions()[option]
    ensures r.plotValue == s.plotValue && r.downPaymentPct == s.downPaymentPct
  {
    s.(tenure := TenureOptions()[option])
  }

  /** The figures of the EMI breakdown. */
  datatype Calculation = Calculation(
    downPaymentAmount: real,
    loanAmount: real,
    monthlyEmi: real,
    totalAmount: real)

  /** The calculator's figures: the down payment is the chosen percentage of
      the plot value, the rest is financed and split into equal interest-free
      monthly installments, and the total paid is the plot value. */
  function Calculate(s: Inputs): (c: Calculation)
    requires s.tenure > 0
    ensures c.downPaymentAmount * 100.0 == s.plotValue as real * s.downPaymentPct as real
    ensures c.downPaymentAmount + c.loanAmount == s.plotValue as real
    ensures c.monthlyEmi * s.tenure as real == c.loanAmount
    ensures c.totalAmount == s.plotValue as real
  {
    var downPaymentAmount := (s.plotValue * s.downPaymentPct) as real / 100.0;
    var loanAmount := s.plotValue as real - downPaymentAmount;
    Calculation(downPaymentAmount, loanAmount, loanAmount / s.tenure as real, s.plotValue as real)
  }

  /** `Math.round`: the nearest integer, halves rounded up. */
  function Round(x: real): (n: int)
    ensures x - 0.5 < n as real <= x + 0.5
  {
    (x + 0.5).Floor
  }

  /** A share of `pct` percent of `value`, for `pct` between 20 and 60, lies
      between a fifth and three fifths of `value`. */
  lemma ShareBounds(value: real, pct: real, share: real)
    requires 0.0 <= value && 20.0 <= pct <= 60.0
    requires share * 100.0 == value * pct
    ensures 0.2 * value <= share <= 0.6 * value
  {
    assert value * pct - value * 20.0 == value * (pct - 20.0);
    assert value * 60.0 - value * pct == value * (60.0 - pct);
  }

  /** A positive amount split into a positive number of equal parts gives
      positive parts. */
  lemma PositiveParts(part: real, count: real, whole: real)
    requires 0.0 < count && 0.0 < whole && part * count == whole
    ensures 0.0 < part
  {
    if part <= 0.0 {
      assert part * count == -((-part) * count);
    }
  }

  /** For valid inputs the down payment is a whole number of taka. */
  lemma DownPaymentIsWhole(s: Inputs)
    requires ValidInputs(s)
    ensures Calculate(s).downPaymentAmount == ((s.plotValue * s.downPaymentPct) / 100) as real
  {
    var lakhs := s.plotValue / 100;
    assert s.plotValue == 100 * lakhs;
    var q := lakhs * s.downPaymentPct;
    assert s.plotValue * s.downPaymentPct == 100 * q;
    assert (100 * q) / 100 == q;
    assert (100 * q) as real / 100.0 == q as real;
  }

  /** For valid inputs the down payment lies between 20 % and 60 % of the plot
      value, and the financed amount and the monthly installment are
      positive. */
  lemma CalculationBounds(s: Inputs)
    requires ValidInputs(s)
    ensures 0.2 * s.plotValue as real <= Calculate(s).downPaymentAmount <= 0.6 * s.plotValue as real
    ensures 0.0 < Calculate(s).loanAmount && 0.0 < Calculate(s).monthlyEmi
  {
    var c := Calculate(s);
    ShareBounds(s.plotValue as real, s.downPaymentPct as real, c.downPaymentAmount);
    PositiveParts(c.monthlyEmi, s.tenure as real, c.loanAmount);
  }

  /** One row of the payment-schedule preview. */
  datatype ScheduleRow =
    | MonthRow(month: int, emi: int, balance: int)
    | MoreMonthsRow(remaining: int)

  /** The balance shown after `month` installments: what is still financed,
      rounded, and never below zero. */
  function Balance(c: Calculation, month: int): (b: int)
    ensures b >= 0
    ensures b >= Round(c.loanAmount - c.monthlyEmi * month as real)
  {
    var remaining := Round(c.loanAmount - c.monthlyEmi * month as real);
    if remaining < 0 then 0 else remaining
  }

  /** The schedule preview: one row for each of the first min(tenure, 6)
      months, then, for a longer tenure, one row counting the months not
      shown. */
  function Schedule(s: Inputs): (rows: seq<ScheduleRow>)
    requires s.tenure > 0
    ensures var shown := if s.tenure < PreviewMonths then s.tenure else PreviewMonths;
      && |rows| == shown + (if s.tenure > PreviewMonths then 1 else 0)
      && (forall k :: 0 <= k < shown ==>
            rows[k].MonthRow? && rows[k].month == k + 1 &&
            rows[k].emi == Round(Calculate(s).monthlyEmi) &&
            rows[k].balance == Balance(Calculate(s), k + 1))
      && (s.tenure > PreviewMonths ==> rows[shown] == MoreMonthsRow(s.tenure - PreviewMonths))
  {
    var c := Calculate(s);
    var shown := if s.tenure < PreviewMonths then s.tenure else PreviewMonths;
    var months := seq(shown, k requires 0 <= k < shown => MonthRow(k + 1, Round(c.monthlyEmi), Balance(c, k + 1)));
    months + (if s.tenure > PreviewMonths then [MoreMonthsRow(s.tenure - PreviewMonths)] else [])
  }

  /** The "… more months" row is there exactly when the tenure exceeds six
      months, and only as the last row. */
  lemma MoreMonthsRowIffLongTenure(s: Inputs)
    requires s.tenure > 0
    ensures (exists k :: 0 <= k < |Schedule(s)| && Schedule(s)[k].MoreMonthsRow?) <==> s.tenure > PreviewMonths
    ensures forall k :: 0 <= k < |Schedule(s)| - 1 ==> Schedule(s)[k].MonthRow?
  {
    var rows := Schedule(s);
    if s.tenure > PreviewMonths {
      assert rows[PreviewMonths].MoreMonthsRow?;
    }
  }

  /** `Round` never decreases when its argument grows. */
  lemma {:induction false} RoundMonotone(x: real, y: real)
    requires x <= y
    ensures Round(x) <= Round(y)
  {
  }

  /** After `paid` of `count` equal parts, `count - paid` parts remain. */
  lemma RemainingParts(part: real, count: int, whole: real, paid: int)
    requires part * count as real == whole
    ensures whole - part * paid as real == part * (count - paid) as real
  {
    assert part * (count - paid) as real == part * count as real - part * paid as real;
  }

  /** The product of two non-negative numbers is non-negative. */
  lemma NonNegativeProduct(a: real, b: real)
    requires 0.0 <= a && 0.0 <= b
    ensures 0.0 <= a * b
  {
  }

  /** Paying more non-negative parts of `whole` leaves no more of it. */
  lemma MorePartsPaid(whole: real, part: real, paid: int, paid': int)
    requires 0.0 <= part && paid <= paid'
    ensures whole - part * paid' as real <= whole - part * paid as real
  {
    assert part * paid' as real - part * paid as real == part * (paid' - paid) as real;
  }

  /** In a plan whose positive monthly installments add up to the financed
      amount, the balance after month `m` is the installments still to pay,
      rounded. */
  lemma BalanceIsRemainingInstallments(c: Calculation, tenure: int, m: int)
    requires 0.0 < c.monthlyEmi && c.monthlyEmi * tenure as real == c.loanAmount
    requires 0 <= m <= tenure
    ensures Balance(c, m) == Round(c.monthlyEmi * (tenure - m) as real)
  {
    var e := c.monthlyEmi;
    var remaining := c.loanAmount - e * m as real;
    RemainingParts(e, tenure, c.loanAmount, m);
    NonNegativeProduct(e, (tenure - m) as real);
    RoundMonotone(0.0, remaining);
    assert Balance(c, m) == Round(remaining);
  }

  /** In such a plan the balance is zero once every month is paid. */
  lemma BalanceZeroAtEnd(c: Calculation, tenure: int)
    requires 0.0 < c.monthlyEmi && c.monthlyEmi * tenure as real == c.loanAmount
    ensures Balance(c, tenure) == 0
  {
    assert c.loanAmount - c.monthlyEmi * tenure as real == 0.0;
    assert Round(0.0) == 0;
  }

  /** With a non-negative installment the balance never grows from one month
      to a later one. */
  lemma BalanceNonIncreasing(c: Calculation, m: int, m': int)
    requires 0.0 <= c.monthlyEmi && m <= m'
    ensures Balance(c, m') <= Balance(c, m)
  {
    var earlier := c.loanAmount - c.monthlyEmi * m as real;
    var later := c.loanAmount - c.monthlyEmi * m' as real;
    MorePartsPaid(c.loanAmount, c.monthlyEmi, m, m');
    RoundMonotone(later, earlier);
    assert Balance(c, m) == if Round(earlier) < 0 then 0 else Round(earlier);
    assert Balance(c, m') == if Round(later) < 0 then 0 else Round(later);
  }

  /** The balances of the preview rows never go below zero and never grow
      from one row to the next. */
  lemma ScheduleBalancesNonIncreasing(s: Inputs, i: nat, j: nat)
    requires ValidInputs(s)
    requires i <= j < PreviewMonths
    ensures j < |Schedule(s)| && Schedule(s)[i].MonthRow? && Schedule(s)[j].MonthRow?
    ensures 0 <= Schedule(s)[j].balance <= Schedule(s)[i].balance
  {
    var rows, c := Schedule(s), Calculate(s);
    assert rows[i].balance == Balance(c, i + 1) && rows[j].balance == Balance(c, j + 1);
    CalculationBounds(s);
    BalanceNonIncreasing(c, i + 1, j + 1);
  }
}
