/** The GST results panel: which stored figure appears under which label. In Add mode the
    results card and the breakdown show `netAmount` under the base labels and `originalAmount`
    under the total labels, but after an Add calculation `netAmount` holds the tax-inclusive
    total and `originalAmount` the input, so the two figures appear under each other's labels.
    `PanelAsWritten` keeps that; `Panel` reads the record by mode: it is the corrected display. */
module GstDisplay {
  import opened Wrappers
  import opened Gst

  /** One labelled figure on screen (the rate shown inside tax labels is omitted). */
  datatype Row = Row(caption: string, value: real)

  /** Labels that announce the tax-exclusive figure. */
  predicate ExclusiveLabel(caption: string)
  {
    caption in {"Original Amount", "Base Amount (Excl. GST)", "Base Amount"}
  }

  /** Labels that announce the tax-inclusive figure. */
  predicate InclusiveLabel(caption: string)
  {
    caption in {"Total Amount (Incl. GST)", "GST-Inclusive Amount", "Total"}
  }

  /** Labels that announce the tax itself. */
  predicate TaxLabel(caption: string)
  {
    caption in {"GST Amount", "GST"}
  }

  /** A row shows the figure its label announces, for a result computed in `mode`. */
  predicate RowHonest(mode: Mode, res: GstResult, row: Row)
  {
    && (ExclusiveLabel(row.caption) ==> row.value == Exclusive(mode, res))
    && (InclusiveLabel(row.caption) ==> row.value == Inclusive(mode, res))
    && (TaxLabel(row.caption) ==> row.value == res.gstAmount)
  }

  predicate Honest(mode: Mode, res: GstResult, rows: seq<Row>)
  {
    forall i :: 0 <= i < |rows| ==> RowHonest(mode, res, rows[i])
  }

  /** The labels, in screen order: the card's three rows, then the breakdown's three lines. */
  function Labels(mode: Mode): seq<string>
  {
    match mode
    case Add => ["Original Amount", "GST Amount", "Total Amount (Incl. GST)", "Base Amount", "GST", "Total"]
    case Remove => ["Base Amount (Excl. GST)", "GST Amount", "GST-Inclusive Amount", "GST-Inclusive Amount", "GST", "Base Amount"]
  }

  /** The panel as written: the card shows netAmount, gstAmount, originalAmount; the Add
      breakdown shows netAmount, gstAmount, originalAmount; the Remove breakdown shows
      originalAmount, gstAmount, netAmount. */
  function PanelAsWritten(mode: Mode, res: GstResult): (rows: seq<Row>)
    ensures mode == Add ==> rows == [
      Row("Original Amount", res.netAmount), Row("GST Amount", res.gstAmount),
      Row("Total Amount (Incl. GST)", res.originalAmount),
      Row("Base Amount", res.netAmount), Row("GST", res.gstAmount), Row("Total", res.originalAmount)]
    ensures mode == Remove ==> rows == [
      Row("Base Amount (Excl. GST)", res.netAmount), Row("GST Amount", res.gstAmount),
      Row("GST-Inclusive Amount", res.originalAmount),
      Row("GST-Inclusive Amount", res.originalAmount), Row("GST", res.gstAmount), Row("Base Amount", res.netAmount)]
  {
    var l := Labels(mode);
    var card := [Row(l[0], res.netAmount), Row(l[1], res.gstAmount), Row(l[2], res.originalAmount)];
    match mode
    case Add => card + [Row(l[3], res.netAmount), Row(l[4], res.gstAmount), Row(l[5], res.originalAmount)]
    case Remove => card + [Row(l[3], res.originalAmount), Row(l[4], res.gstAmount), Row(l[5], res.netAmount)]
  }

  /** The corrected panel: every amount row shows the figure its label names. */
  function Panel(mode: Mode, res: GstResult): seq<Row>
  {
    var l := Labels(mode);
    var ex, inc := Exclusive(mode, res), Inclusive(mode, res);
    match mode
    case Add =>
      [Row(l[0], ex), Row(l[1], res.gstAmount), Row(l[2], inc), Row(l[3], ex), Row(l[4], res.gstAmount), Row(l[5], inc)]
    case Remove =>
      [Row(l[0], ex), Row(l[1], res.gstAmount), Row(l[2], inc), Row(l[3], inc), Row(l[4], res.gstAmount), Row(l[5], ex)]
  }

  /** As written, the Add-mode panel is honest exactly when the rate is zero: at any positive
      rate the "Original Amount" row shows the tax-inclusive total and the total rows show the input. */
  lemma AsWrittenMislabelsAdd(amount: real, rate: real)
    requires amount > 0.0 && rate >= 0.0
    ensures var res := CalculateGst(Some(amount), rate, Add).value;
      && PanelAsWritten(Add, res)[0] == Row("Original Amount", Inclusive(Add, res))
      && PanelAsWritten(Add, res)[2] == Row("Total Amount (Incl. GST)", amount)
      && (Honest(Add, res, PanelAsWritten(Add, res)) <==> rate == 0.0)
  {
  }

  /** The concrete case: 10000 at 18% shows 11800 as the "Original Amount" and 10000 as the total. */
  lemma AsWrittenExample()
    ensures var res := CalculateGst(Some(10000.0), 18.0, Add).value;
      && PanelAsWritten(Add, res)[0] == Row("Original Amount", 11800.0)
      && PanelAsWritten(Add, res)[2] == Row("Total Amount (Incl. GST)", 10000.0)
      && !Honest(Add, res, PanelAsWritten(Add, res))
  {
  }

  /** As written, the Remove-mode panel is honest: the mislabelling is confined to Add mode. */
  lemma AsWrittenHonestInRemove(res: GstResult)
    ensures Honest(Remove, res, PanelAsWritten(Remove, res))
  {
  }

  /** The corrected panel is honest in both modes, and in Add mode its first row shows the input
      and its total row the input plus tax. */
  lemma PanelHonest(mode: Mode, amount: real, rate: real)
    requires amount > 0.0 && rate >= 0.0
    ensures var res := CalculateGst(Some(amount), rate, mode).value;
      && Honest(mode, res, Panel(mode, res))
      && (mode == Add ==> Panel(mode, res)[0].value == amount
                          && Panel(mode, res)[2].value == amount + res.gstAmount)
      && (mode == Remove ==> Panel(mode, res)[2].value == amount
                             && Panel(mode, res)[0].value == amount - res.gstAmount)
  {
  }

  /** Where the record is read the same way in both panels, they agree: only the Add-mode
      amount rows differ. */
  lemma PanelsAgreeInRemove(res: GstResult)
    ensures PanelAsWritten(Remove, res) == Panel(Remove, res)
  {
  }
}
