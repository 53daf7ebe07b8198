/** The client-side billing arithmetic of the invoice/quotation editor:
    per-line GST with an equal CGST/SGST split, the subtotal and total-GST
    reductions, the discount and round-off grand total, and the signed
    discount and round-off values of the PDF summary. Money and percentages
    are exact reals; `Math.round(x)` is `Floor(x + 1/2)`. A missing, empty
    or null form value is `None` and counts as 0, as `Number(v || 0)` does. */
module BillMath {
  import opened Text

  datatype LineItem = LineItem(
    name: string,
    description: string,
    amount: Option<real>,
    gstPercent: Option<real>)

  /** `Number(v || 0)`. */
  function OrZero(v: Option<real>): real {
    if v.Some? then v.value else 0.0
  }

  /** `Math.round`. */
  function Round(x: real): (r: int)
    ensures x - 0.5 < r as real <= x + 0.5
  {
    (x + 0.5).Floor
  }

  datatype ItemTax = ItemTax(gst: real, cgst: real, sgst: real, total: real)

  /** `computeItemTax`: a zero or missing rate gives no tax. */
  function ComputeItemTax(amount: Option<real>, gstPercent: Option<real>): (t: ItemTax)
    ensures t.gst == OrZero(amount) * OrZero(gstPercent) / 100.0
    ensures t.cgst == t.sgst && t.cgst + t.sgst == t.gst
    ensures t.total == OrZero(amount) + t.gst
    ensures OrZero(gstPercent) == 0.0 ==> t.gst == 0.0 && t.total == OrZero(amount)
  {
    var amt := OrZero(amount);
    var gstP := OrZero(gstPercent);
    var gst := if gstP != 0.0 then amt * gstP / 100.0 else 0.0;
    ItemTax(gst, gst / 2.0, gst / 2.0, amt + gst)
  }

  /** `subtotalItems`: the reduce over the amounts, left to right. */
  function Subtotal(items: seq<LineItem>): real
  {
    if items == [] then 0.0
    else Subtotal(items[..|items| - 1]) + OrZero(items[|items| - 1].amount)
  }

  /** `totalGST`: the reduce over the per-line GST. */
  function TotalGst(items: seq<LineItem>): real
  {
    if items == [] then 0.0
    else
      var last := items[|items| - 1];
      TotalGst(items[..|items| - 1]) + ComputeItemTax(last.amount, last.gstPercent).gst
  }

  lemma {:induction false} SubtotalAppend(a: seq<LineItem>, b: seq<LineItem>)
    ensures Subtotal(a + b) == Subtotal(a) + Subtotal(b)
    decreases |b|
  {
    if b == [] {
      assert a + b == a;
    } else {
      var b' := b[..|b| - 1];
      assert (a + b)[..|a + b| - 1] == a + b';
      SubtotalAppend(a, b');
    }
  }

  lemma {:induction false} TotalGstAppend(a: seq<LineItem>, b: seq<LineItem>)
    ensures TotalGst(a + b) == TotalGst(a) + TotalGst(b)
    decreases |b|
  {
    if b == [] {
      assert a + b == a;
    } else {
      var b' := b[..|b| - 1];
      assert (a + b)[..|a + b| - 1] == a + b';
      TotalGstAppend(a, b');
    }
  }

  /** The total before rounding: subtotal plus GST, less the discount. */
  function Unrounded(items: seq<LineItem>, discountPercent: Option<real>): (r: real)
  {
    var total := Subtotal(items) + TotalGst(items);
    var d := OrZero(discountPercent);
    if d != 0.0 then total - total * d / 100.0 else total
  }

  /** `grandTotalCalc`. */
  function GrandTotal(items: seq<LineItem>, discountPercent: Option<real>, roundOff: bool): real
  {
    var total := Unrounded(items, discountPercent);
    if roundOff then Round(total) as real else total
  }

  /** (subtotal + GST) reduced by d percent. */
  function Discounted(items: seq<LineItem>, discountPercent: Option<real>): real
  {
    (Subtotal(items) + TotalGst(items)) * (1.0 - OrZero(discountPercent) / 100.0)
  }

  /** Without round-off the grand total is (subtotal + GST) less d percent;
      with it, the nearest whole amount, at most half a unit away. */
  lemma GrandTotalFormula(items: seq<LineItem>, discountPercent: Option<real>, roundOff: bool)
    ensures !roundOff ==> GrandTotal(items, discountPercent, roundOff) == Discounted(items, discountPercent)
    ensures roundOff ==> GrandTotal(items, discountPercent, roundOff) == Round(Discounted(items, discountPercent)) as real
    ensures roundOff ==> Discounted(items, discountPercent) - 0.5 < GrandTotal(items, discountPercent, roundOff)
                         <= Discounted(items, discountPercent) + 0.5
  {
    var t, d := Subtotal(items) + TotalGst(items), OrZero(discountPercent);
    DiscountIdentity(t, d);
    assert Discounted(items, discountPercent) == Unrounded(items, discountPercent);
  }

  lemma DiscountIdentity(t: real, d: real)
    ensures t * (1.0 - d / 100.0) == (if d != 0.0 then t - t * d / 100.0 else t)
  {
    calc {
      t * (1.0 - d / 100.0);
      t - t * (d / 100.0);
      t - t * d / 100.0;
    }
  }

  /** The signed discount line of the PDF summary: `discountVal`. */
  function DiscountValue(items: seq<LineItem>, discountPercent: Option<real>): (r: real)
    ensures Subtotal(items) + TotalGst(items) + r == Unrounded(items, discountPercent)
  {
    -((Subtotal(items) + TotalGst(items)) * (OrZero(discountPercent) / 100.0))
  }

  /** The round-off line of the PDF summary, as written: `Math.round(grand) -
      grand`, where grand is already the rounded `grandTotalCalc` result. */
  function RoundDiffAsWritten(items: seq<LineItem>, discountPercent: Option<real>, roundOff: bool): real
  {
    var grand := GrandTotal(items, discountPercent, roundOff);
    if roundOff then Round(grand) as real - grand else 0.0
  }

  /** As written, the "Round Off" line can only ever show zero. */
  lemma RoundDiffAlwaysZero(items: seq<LineItem>, discountPercent: Option<real>, roundOff: bool)
    ensures RoundDiffAsWritten(items, discountPercent, roundOff) == 0.0
  {
    if roundOff {
      var n := Round(Unrounded(items, discountPercent));
      assert Round(n as real) == n;
    }
  }

  /** The round-off line as intended: the rounded total less the exact one,
      so that exact total + round-off = the grand total printed. */
  function RoundOffLine(items: seq<LineItem>, discountPercent: Option<real>, roundOff: bool): (r: real)
    ensures Unrounded(items, discountPercent) + r == GrandTotal(items, discountPercent, roundOff)
    ensures -0.5 < r <= 0.5
    ensures !roundOff ==> r == 0.0
  {
    var exact := Unrounded(items, discountPercent);
    if roundOff then Round(exact) as real - exact else 0.0
  }

  /** One line of 10.40 with round-off on: the intended line is -0.40, the
      line as written shows 0. */
  lemma RoundOffLineWitness()
    ensures var items := [LineItem("Design", "", Some(10.4), None)];
      && RoundOffLine(items, None, true) == -0.4
      && RoundDiffAsWritten(items, None, true) == 0.0
  {
    var items := [LineItem("Design", "", Some(10.4), None)];
    assert items[..0] == [];
    assert Subtotal(items) == 10.4;
    assert TotalGst(items) == 0.0;
    assert Round(10.4) == 10;
    RoundDiffAlwaysZero(items, None, true);
  }

  /** The worked example: one item of 1000 at 18% GST. */
  lemma DesignInvoiceExample()
    ensures var items := [LineItem("Design", "", Some(1000.0), Some(18.0))];
      && ComputeItemTax(Some(1000.0), Some(18.0)) == ItemTax(180.0, 90.0, 90.0, 1180.0)
      && Subtotal(items) == 1000.0 && TotalGst(items) == 180.0
      && GrandTotal(items, None, false) == 1180.0
      && GrandTotal(items, Some(10.0), false) == 1062.0
      && DiscountValue(items, Some(10.0)) == -118.0
  {
    var items := [LineItem("Design", "", Some(1000.0), Some(18.0))];
    assert items[..0] == [];
  }
}
