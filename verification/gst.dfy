/** The GST (India's Goods and Services Tax) calculator: add tax on top of an amount, or
    back it out of a tax-inclusive amount. */
module Gst {
  import opened Wrappers
  import opened Fields

  /** The calculation type toggle: 'add' or 'remove'. */
  datatype Mode = Add | Remove

  /** The stored result record. Its two amount fields are read differently per mode:
      after Add, `netAmount` is the tax-inclusive total and `originalAmount` the input;
      after Remove, `netAmount` is the base and `originalAmount` the inclusive input. */
  datatype GstResult = GstResult(gstAmount: real, netAmount: real, originalAmount: real)

  /** The two rejections, in the order they are checked. */
  datatype GstError =
    | InvalidAmount  // 'Please enter a valid amount greater than 0'
    | InvalidRate    // 'Please select a valid GST rate'

  /** The calculator's state: parsed amount, selected rate, mode and last result (`None` is null). */
  datatype GstForm = GstForm(amount: Option<real>, gstRate: real, calculationType: Mode, results: Option<GstResult>)

  /** The rates offered by the rate selector. */
  const RateOptions: seq<real> := [0.0, 5.0, 12.0, 18.0, 28.0]

  /** The rate selected initially and after a reset. */
  const DefaultRate: real := 18.0

  /** The stored field that holds the tax-exclusive figure after a calculation in `mode`. */
  function Exclusive(mode: Mode, res: GstResult): real
  {
    match mode
    case Add => res.originalAmount
    case Remove => res.netAmount
  }

  /** The stored field that holds the tax-inclusive figure after a calculation in `mode`. */
  function Inclusive(mode: Mode, res: GstResult): real
  {
    match mode
    case Add => res.netAmount
    case Remove => res.originalAmount
  }

  /** What a correct result for `amount` at `rate` in `mode` is, independently of how it is
      computed: inclusive = exclusive + tax, the tax is `rate` percent of the exclusive figure,
      and the input is the exclusive figure (Add) or the inclusive one (Remove). */
  predicate Splits(mode: Mode, amount: real, rate: real, res: GstResult)
  {
    && Inclusive(mode, res) == Exclusive(mode, res) + res.gstAmount
    && res.gstAmount * 100.0 == Exclusive(mode, res) * rate
    && (if mode == Add then Exclusive(mode, res) else Inclusive(mode, res)) == amount
  }

  /** The calculation behind the Calculate GST button. The amount is checked first (missing,
      non-numeric, zero or negative is rejected), then the rate (negative is rejected; zero is
      accepted). A success splits the amount into exclusive figure and tax at the rate. */
  function CalculateGst(amount: Option<real>, rate: real, mode: Mode): (out: Result<GstResult, GstError>)
    ensures out == Failure(InvalidAmount) <==> !Positive(amount)
    ensures out == Failure(InvalidRate) <==> Positive(amount) && rate < 0.0
    ensures out.Success? ==> Splits(mode, amount.value, rate, out.value)
  {
    if Falsy(amount) || amount.value <= 0.0 then
      Failure(InvalidAmount)
    else if rate < 0.0 then
      Failure(InvalidRate)
    else
      var inputAmount := amount.value;
      // calculateGST's locals gstAmount, netAmount and originalAmount: netAmount is the
      // total in Add mode but the input in Remove mode, and originalAmount the reverse
      var (gstAmount, netAmount, originalAmount) :=
        if mode == Add then
          var gst := (inputAmount * rate) / 100.0;
          (gst, inputAmount + gst, inputAmount)
        else
          var base := (inputAmount * 100.0) / (100.0 + rate);
          assert base * (100.0 + rate) == inputAmount * 100.0;
          (inputAmount - base, inputAmount, base);
      Success(GstResult(
        gstAmount,
        if mode == Add then netAmount else originalAmount,
        if mode == Add then originalAmount else netAmount))
  }

  /** `Splits` pins the result down: any record satisfying it for a valid amount and rate is
      exactly what the calculator stores. */
  lemma SplitsDeterminesResult(mode: Mode, amount: real, rate: real, res: GstResult)
    requires amount > 0.0 && rate >= 0.0
    requires Splits(mode, amount, rate, res)
    ensures CalculateGst(Some(amount), rate, mode) == Success(res)
  {
    var res' := CalculateGst(Some(amount), rate, mode).value;
    var e, e' := Exclusive(mode, res), Exclusive(mode, res');
    // both exclusive figures solve e * (100 + rate) == 100 * inclusive with the same inclusive figure
    if mode == Remove {
      assert e * (100.0 + rate) == amount * 100.0;
      assert e' * (100.0 + rate) == amount * 100.0;
      assert (e - e') * (100.0 + rate) == 0.0;
    }
    assert e == e';
    assert res.gstAmount * 100.0 == res'.gstAmount * 100.0;
    assert Inclusive(mode, res) == Inclusive(mode, res');
    match mode
    case Add => assert res.netAmount == res'.netAmount && res.originalAmount == res'.originalAmount;
    case Remove => assert res.netAmount == res'.netAmount && res.originalAmount == res'.originalAmount;
  }

  /** Round trip one way: removing tax from the add-mode total at the same rate gives back
      the original amount as the base, with the same tax. */
  lemma AddThenRemove(amount: real, rate: real)
    requires amount > 0.0 && rate >= 0.0
    ensures var added := CalculateGst(Some(amount), rate, Add);
      && added.Success?
      && CalculateGst(Some(added.value.netAmount), rate, Remove)
         == Success(GstResult(added.value.gstAmount, amount, added.value.netAmount))
  {
    var added := CalculateGst(Some(amount), rate, Add).value;
    var total := added.netAmount;
    assert total > 0.0 by {
      assert added.gstAmount * 100.0 == amount * rate;
    }
    SplitsDeterminesResult(Remove, total, rate, GstResult(added.gstAmount, amount, total));
  }

  /** Round trip the other way: adding tax to the remove-mode base at the same rate gives
      back the tax-inclusive amount as the total, with the same tax. */
  lemma RemoveThenAdd(amount: real, rate: real)
    requires amount > 0.0 && rate >= 0.0
    ensures var removed := CalculateGst(Some(amount), rate, Remove);
      && removed.Success?
      && CalculateGst(Some(removed.value.netAmount), rate, Add)
         == Success(GstResult(removed.value.gstAmount, amount, removed.value.netAmount))
  {
    var removed := CalculateGst(Some(amount), rate, Remove).value;
    var base := removed.netAmount;
    RemoveBounds(amount, rate);
    SplitsDeterminesResult(Add, base, rate, GstResult(removed.gstAmount, amount, base));
  }

  /** At a zero rate there is no tax and both stored amounts are the input, in either mode. */
  lemma ZeroRateIsIdentity(amount: real, mode: Mode)
    requires amount > 0.0
    ensures CalculateGst(Some(amount), 0.0, mode) == Success(GstResult(0.0, amount, amount))
  {
  }

  /** Backing tax out of an inclusive amount leaves a positive base no larger than the
      amount and a non-negative tax; the base is strictly smaller exactly when the rate is positive. */
  lemma RemoveBounds(amount: real, rate: real)
    requires amount > 0.0 && rate >= 0.0
    ensures var out := CalculateGst(Some(amount), rate, Remove);
      && out.Success?
      && 0.0 < out.value.netAmount <= amount
      && out.value.gstAmount >= 0.0
      && (out.value.netAmount < amount <==> rate > 0.0)
  {
  }

  /** Adding tax never lowers the amount: the total is at least the input and the tax is
      non-negative, with equality exactly at a zero rate. */
  lemma AddBounds(amount: real, rate: real)
    requires amount > 0.0 && rate >= 0.0
    ensures var out := CalculateGst(Some(amount), rate, Add);
      && out.Success?
      && out.value.gstAmount >= 0.0
      && out.value.netAmount >= amount
      && (out.value.netAmount > amount <==> rate > 0.0)
  {
  }

  /** Every rate on offer passes the rate check, and the default is one of them. */
  lemma OfferedRatesAccepted(amount: real, mode: Mode)
    requires amount > 0.0
    ensures DefaultRate in RateOptions
    ensures forall i :: 0 <= i < |RateOptions| ==> CalculateGst(Some(amount), RateOptions[i], mode).Success?
  {
  }

  /** Pressing Calculate GST: a rejection leaves the state as it was; a success replaces
      the stored result and keeps the inputs. */
  function Submit(form: GstForm): (next: GstForm)
    ensures next.amount == form.amount && next.gstRate == form.gstRate
    ensures next.calculationType == form.calculationType
    ensures !(Positive(form.amount) && form.gstRate >= 0.0) ==> next == form
    ensures Positive(form.amount) && form.gstRate >= 0.0 ==>
      next.results.Some? && Splits(form.calculationType, form.amount.value, form.gstRate, next.results.value)
  {
    match CalculateGst(form.amount, form.gstRate, form.calculationType)
    case Failure(_) => form
    case Success(res) => form.(results := Some(res))
  }

  /** Pressing Reset: the amount is emptied, the rate goes back to the default, the mode
      to Add, and the result is cleared. */
  function Reset(form: GstForm): (next: GstForm)
    ensures next.amount.None? && next.results.None?
    ensures next.gstRate in RateOptions && next.gstRate == DefaultRate
    ensures next.calculationType == Add
  {
    GstForm(None, DefaultRate, Add, None)
  }

  /** After a reset, Calculate GST is rejected for the missing amount and changes nothing. */
  lemma SubmitAfterResetRejected(form: GstForm)
    ensures Submit(Reset(form)) == Reset(form)
    ensures CalculateGst(Reset(form).amount, DefaultRate, Add) == Failure(InvalidAmount)
  {
  }

  /** The worked examples: 10000 plus 18% tax, and 11800 with 18% tax backed out. */
  lemma WorkedExamples()
    ensures CalculateGst(Some(10000.0), 18.0, Add) == Success(GstResult(1800.0, 11800.0, 10000.0))
    ensures CalculateGst(Some(11800.0), 18.0, Remove) == Success(GstResult(1800.0, 10000.0, 11800.0))
    ensures CalculateGst(Some(-100.0), 18.0, Add) == Failure(InvalidAmount)
    ensures CalculateGst(Some(-100.0), -5.0, Remove) == Failure(InvalidAmount)
    ensures CalculateGst(Some(100.0), -5.0, Remove) == Failure(InvalidRate)
  {
  }
}
