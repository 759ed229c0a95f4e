/** The SIP (systematic investment plan) calculator: its form state, the maturity
    calculation behind the Calculate button, the reset, and the two display ratios. */
module Sip {
  import opened Wrappers
  import opened Annuity
  import opened Fields

  /** The figures shown after a successful calculation. */
  datatype SipResult = SipResult(totalInvested: real, estimatedReturns: real, maturityAmount: real)

  /** The one rejection: 'Please enter valid positive values for all fields'. */
  datatype SipError = InvalidValues

  /** The calculator's state: the three parsed input fields and the last result (`None` is null). */
  datatype SipForm = SipForm(
    monthlyInvestment: Option<real>,
    duration: Option<real>,
    returnRate: Option<real>,
    results: Option<SipResult>)

  /** A duration in years that is a whole number of months (or one the validation rejects anyway). */
  predicate WholeMonths(duration: Option<real>)
  {
    duration.None? || duration.value <= 0.0 || (duration.value * 12.0).Floor as real == duration.value * 12.0
  }

  /** The monthly fractional rate derived from an annual percentage. */
  function MonthlyRate(annualRate: real): (r: real)
    ensures r * 1200.0 == annualRate
    ensures r > 0.0 <==> annualRate > 0.0
  {
    annualRate / 12.0 / 100.0
  }

  /** The number of monthly contributions in a duration of `years`. */
  function MonthCount(years: real): (n: nat)
    requires years > 0.0 && (years * 12.0).Floor as real == years * 12.0
    ensures n as real == years * 12.0
    ensures n >= 1
  {
    (years * 12.0).Floor
  }

  /** A result the calculator can have produced: money went in, it grew, and the maturity
      amount is exactly the invested total plus the returns. */
  predicate Consistent(res: SipResult)
  {
    && res.totalInvested > 0.0
    && res.estimatedReturns > 0.0
    && res.maturityAmount == res.totalInvested + res.estimatedReturns
  }

  /** The state invariant: any stored result is consistent. */
  predicate FormInvariant(form: SipForm)
  {
    form.results.None? || Consistent(form.results.value)
  }

  /** The calculation behind the Calculate button. It is rejected exactly when a field is
      missing, non-numeric, zero or negative; otherwise the maturity amount is the monthly
      investment times the annuity-due sum over the months, at the monthly rate. */
  function CalculateSip(monthlyInvestment: Option<real>, duration: Option<real>, returnRate: Option<real>)
    : (out: Result<SipResult, SipError>)
    requires WholeMonths(duration)
    ensures out.Failure? <==> !(Positive(monthlyInvestment) && Positive(duration) && Positive(returnRate))
    ensures out.Success? ==>
      var p, years := monthlyInvestment.value, duration.value;
      var growth := 1.0 + returnRate.value / 1200.0;
      && out.value.totalInvested == p * years * 12.0
      && out.value.maturityAmount == p * DueSum(growth, MonthCount(years))
      && out.value.maturityAmount == out.value.totalInvested + out.value.estimatedReturns
      && out.value.maturityAmount > out.value.totalInvested
      && Consistent(out.value)
  {
    if Falsy(monthlyInvestment) || Falsy(duration) || Falsy(returnRate)
       || monthlyInvestment.value <= 0.0 || duration.value <= 0.0 || returnRate.value <= 0.0
    then
      Failure(InvalidValues)
    else
      var p, years, annualRate := monthlyInvestment.value, duration.value, returnRate.value;
      var r := MonthlyRate(annualRate);
      var n := MonthCount(years);
      var maturityAmount := p * (((Pow(1.0 + r, n) - 1.0) / r) * (1.0 + r));
      var totalInvested := p * (n as real);
      var estimatedReturns := maturityAmount - totalInvested;
      ClosedFormIsDueSum(r, n);
      DueSumExceedsCount(1.0 + r, n);
      assert p * DueSum(1.0 + r, n) > p * (n as real);
      Success(SipResult(totalInvested, estimatedReturns, maturityAmount))
  }

  /** Pressing Calculate: a rejection leaves the whole state as it was (the alert is the
      only effect); a success replaces the stored result and keeps the inputs. */
  function Submit(form: SipForm): (next: SipForm)
    requires WholeMonths(form.duration)
    ensures next.monthlyInvestment == form.monthlyInvestment
    ensures next.duration == form.duration
    ensures next.returnRate == form.returnRate
    ensures !(Positive(form.monthlyInvestment) && Positive(form.duration) && Positive(form.returnRate))
      ==> next == form
    ensures Positive(form.monthlyInvestment) && Positive(form.duration) && Positive(form.returnRate)
      ==> next.results.Some? && Consistent(next.results.value)
    ensures Positive(form.monthlyInvestment) && Positive(form.duration) && Positive(form.returnRate)
      ==> next.results == Some(CalculateSip(form.monthlyInvestment, form.duration, form.returnRate).value)
    ensures FormInvariant(form) ==> FormInvariant(next)
  {
    match CalculateSip(form.monthlyInvestment, form.duration, form.returnRate)
    case Failure(_) => form
    case Success(res) => form.(results := Some(res))
  }

  /** Pressing Reset: every input is emptied and the result is cleared. */
  function Reset(form: SipForm): (next: SipForm)
    ensures next.monthlyInvestment.None? && next.duration.None? && next.returnRate.None?
    ensures next.results.None?
    ensures FormInvariant(next) && WholeMonths(next.duration)
  {
    SipForm(None, None, None, None)
  }

  /** After a reset, Calculate is rejected and changes nothing. */
  lemma SubmitAfterResetRejected(form: SipForm)
    ensures Submit(Reset(form)) == Reset(form)
    ensures CalculateSip(None, None, None) == Failure(InvalidValues)
  {
  }

  /** The "% Returns" figure: zero before any calculation, otherwise the share of the
      maturity amount that is returns, strictly between 0 and 100. */
  function ReturnsPercentage(results: Option<SipResult>): (pct: real)
    requires results.None? || Consistent(results.value)
    ensures results.None? ==> pct == 0.0
    ensures results.Some? ==> 0.0 < pct < 100.0
    ensures results.Some? ==> pct * results.value.maturityAmount == results.value.estimatedReturns * 100.0
  {
    if results.None? then 0.0
    else
      var res := results.value;
      ShareBounds(res.estimatedReturns, res.totalInvested);
      (res.estimatedReturns / res.maturityAmount) * 100.0
  }

  /** The width of the principal bar, as a percentage of the maturity amount. */
  function PrincipalWidth(res: SipResult): (width: real)
    requires Consistent(res)
    ensures 0.0 < width < 100.0
    ensures width * res.maturityAmount == res.totalInvested * 100.0
  {
    ShareBounds(res.totalInvested, res.estimatedReturns);
    (res.totalInvested / res.maturityAmount) * 100.0
  }

  /** The share of a positive part `x` in a positive whole `x + y`, in percent. */
  lemma ShareBounds(x: real, y: real)
    requires x > 0.0 && y > 0.0
    ensures 0.0 < (x / (x + y)) * 100.0 < 100.0
    ensures (x / (x + y)) * 100.0 * (x + y) == x * 100.0
  {
  }

  /** The principal bar and the returns percentage split the bar exactly: they add up to 100. */
  lemma ShareSplitsBar(res: SipResult)
    requires Consistent(res)
    ensures ReturnsPercentage(Some(res)) + PrincipalWidth(res) == 100.0
  {
  }

  /** The worked example: 5000 a month for 10 years at 12% a year is 120 payments at 1% a
      month and 600000 invested; 1.01^120 is about 3.3003869, so the maturity amount is about
      1161695 and the returns about 561695. */
  lemma TenYearExample()
    ensures MonthlyRate(12.0) == 0.01 && MonthCount(10.0) == 120
    ensures var out := CalculateSip(Some(5000.0), Some(10.0), Some(12.0));
      && out.Success?
      && out.value.totalInvested == 600000.0
      && 1161695.0 < out.value.maturityAmount < 1161696.0
      && 561695.0 < out.value.estimatedReturns < 561696.0
  {
    MonthlyGrowthOverTenYears();
    ClosedFormIsDueSum(0.01, 120);
  }

  /** 1.01^120, the growth factor over the example's 120 months, to seven decimals. */
  lemma MonthlyGrowthOverTenYears()
    ensures 3.3003868 < Pow(1.01, 120) < 3.3003869
  {
    var b := 1.01;
    // by repeated squaring: 1, 2, 3, 6, 12, 24, 48, 96, 120
    assert Pow(b, 1) == b;
    PowAdd(b, 1, 1);
    PowAdd(b, 2, 1);
    PowAdd(b, 3, 3);
    PowAdd(b, 6, 6);
    PowAdd(b, 12, 12);
    PowAdd(b, 24, 24);
    PowAdd(b, 48, 48);
    PowAdd(b, 96, 24);
  }

  /** Zero or negative inputs are rejected. */
  lemma RejectedExamples()
    ensures CalculateSip(Some(0.0), Some(10.0), Some(12.0)) == Failure(InvalidValues)
    ensures CalculateSip(Some(5000.0), Some(-1.0), Some(12.0)) == Failure(InvalidValues)
    ensures CalculateSip(Some(5000.0), Some(10.0), Some(0.0)) == Failure(InvalidValues)
  {
  }
}
