/** Expense valuation: turns one expense's raw fields into its HT / TVA /
    TTC / markup breakdown, its total and its outstanding balance. */
module Calculations {
  import opened Basics
  import opened Schema

  /** Whether the markup is computed on the tax-exclusive (HT) or the
      tax-inclusive (TTC) price. */
  datatype MarkupBasis = HT | TTC

  /** The TVA rate used when an expense carries none. */
  const DefaultTva: real := 5.5

  /** The TVA rate the valuation uses: the expense's own rate, or 5.5 when
      it has none. */
  function TvaRate(e: Expense): (rate: real)
    ensures e.tvaPercentage == Some(rate) || (e.tvaPercentage == None && rate == 5.5)
  {
    e.tvaPercentage.GetOr(DefaultTva)
  }

  /** The rate as the valuation's `||` fallback computes it: any falsy rate,
      a stored 0 % included, is replaced by 5.5, so no expense is ever valued
      at 0 %. */
  function TvaRateAsWritten(e: Expense): (rate: real)
    ensures rate != 0.0
    ensures rate == TvaRate(e) || e.tvaPercentage == Some(0.0)
  {
    match e.tvaPercentage
    case Some(v) => if v != 0.0 then v else DefaultTva
    case None => DefaultTva
  }

  /** The fallback as written departs from the expense's own rate on exactly
      one input: a stored rate of 0 %, which it values at 5.5 %. */
  lemma ZeroRateOverridden(e: Expense)
    ensures TvaRateAsWritten(e) != TvaRate(e) <==> e.tvaPercentage == Some(0.0)
    ensures e.tvaPercentage == Some(0.0) ==> TvaRateAsWritten(e) == 5.5 && TvaRate(e) == 0.0
  {
  }

  /** Only the exact label "HT" selects the HT basis; an absent or any other
      label means TTC. */
  function Basis(e: Expense): (b: MarkupBasis)
    ensures b == HT <==> e.markupAppliesTo == Some("HT")
  {
    if e.markupAppliesTo == Some("HT") then HT else TTC
  }

  /** The multiplier `1 + pct/100` that adds a percentage. */
  function Factor(pct: real): real {
    1.0 + pct / 100.0
  }

  /** The monetary breakdown of one expense. */
  datatype Breakdown = Breakdown(
    productCostHT: real,
    tvaAmount: real,
    productCostTTC: real,
    markupAmount: real,
    productWithMarkup: real,
    shippingCost: real,
    total: real,
    balance: real
  )

  /** Value one expense. A rate of -100 would make the TTC branch divide by
      zero, so it is excluded. Whatever the basis, TTC is HT plus its TVA and
      the marked-up price is TTC plus the markup; the basis only decides
      which of HT or TTC is the price that was entered. */
  function CalculateExpense(e: Expense): (c: Breakdown)
    requires TvaRate(e) != -100.0
    ensures c.productCostTTC == c.productCostHT * Factor(TvaRate(e))
    ensures c.productWithMarkup == c.productCostTTC * Factor(e.markupPercentage)
    ensures Basis(e) == HT ==> c.productCostHT == e.productCost
    ensures Basis(e) == TTC ==> c.productCostTTC == e.productCost
    ensures c.tvaAmount == c.productCostTTC - c.productCostHT
    ensures c.markupAmount == c.productWithMarkup - c.productCostTTC
    ensures c.shippingCost == e.shippingCost
    ensures c.total == c.productWithMarkup + e.shippingCost
    ensures c.balance == c.total - e.paymentReceived
  {
    var entered := e.productCost;
    var tva := TvaRate(e);
    var markup := e.markupPercentage;
    var shipping := e.shippingCost;
    var received := e.paymentReceived;
    var (ht, ttc, withMarkup) :=
      if Basis(e) == HT then
        var htWithMarkup := entered * Factor(markup);
        var tvaOnMarkup := htWithMarkup * (tva / 100.0);
        var ttc := entered * Factor(tva);
        assert htWithMarkup + tvaOnMarkup == ttc * Factor(markup) by {
          HtBranchProduct(entered, tva, markup);
        }
        (entered, ttc, htWithMarkup + tvaOnMarkup)
      else
        var ht := entered / Factor(tva);
        assert ht * Factor(tva) == entered;
        (ht, entered, entered * Factor(markup));
    var total := withMarkup + shipping;
    Breakdown(ht, ttc - ht, ttc, withMarkup - ttc, withMarkup, shipping, total, total - received)
  }

  /** Marking up the HT price and then adding TVA on the marked-up amount
      gives the same figure as marking up the TTC price. */
  lemma HtBranchProduct(p: real, tva: real, markup: real)
    ensures p * Factor(markup) + p * Factor(markup) * (tva / 100.0) == p * Factor(tva) * Factor(markup)
  {
    var a := p * Factor(markup);
    calc {
      a + a * (tva / 100.0);
      a * (1.0 + tva / 100.0);
      p * Factor(markup) * Factor(tva);
      { MulComm3(p, Factor(markup), Factor(tva)); }
      p * Factor(tva) * Factor(markup);
    }
  }

  lemma MulComm3(x: real, y: real, z: real)
    ensures x * y * z == x * z * y
  {
  }

  /** With a non-negative price, TVA rate and markup, neither the TVA amount
      nor the markup amount is negative, on either basis. */
  lemma AmountsNonNegative(e: Expense)
    requires e.productCost >= 0.0 && TvaRate(e) >= 0.0 && e.markupPercentage >= 0.0
    ensures CalculateExpense(e).tvaAmount >= 0.0
    ensures CalculateExpense(e).markupAmount >= 0.0
    ensures CalculateExpense(e).productCostHT <= CalculateExpense(e).productCostTTC
    ensures CalculateExpense(e).productCostTTC <= CalculateExpense(e).productWithMarkup
  {
    var c := CalculateExpense(e);
    PriceChain(e.productCost, Basis(e) == HT, Factor(TvaRate(e)), Factor(e.markupPercentage),
               c.productCostHT, c.productCostTTC, c.productWithMarkup);
  }

  /** A record that satisfies the expense constraints is valued sensibly at
      any non-negative rate: its TVA and markup are not negative, its marked-up
      price is at least the positive price that was entered, and its total is
      at least the marked-up price. */
  lemma ValidExpenseAmounts(e: Expense)
    requires ValidExpense(e) && TvaRate(e) >= 0.0
    ensures CalculateExpense(e).tvaAmount >= 0.0 && CalculateExpense(e).markupAmount >= 0.0
    ensures CalculateExpense(e).productWithMarkup >= e.productCost >= MinProductCost
    ensures CalculateExpense(e).total >= CalculateExpense(e).productWithMarkup
  {
    AmountsNonNegative(e);
  }

  /** The price chain HT -> TTC -> marked up, over plain numbers: when the
      entered price p is not negative and both factors are at least 1, each
      step is not negative and never shrinks, whichever of HT or TTC was
      entered. */
  lemma PriceChain(p: real, enteredHt: bool, ft: real, fm: real, ht: real, ttc: real, marked: real)
    requires p >= 0.0 && ft >= 1.0 && fm >= 1.0
    requires enteredHt ==> ht == p
    requires !enteredHt ==> ttc == p
    requires ttc == ht * ft && marked == ttc * fm
    ensures 0.0 <= ht <= ttc <= marked
  {
    if !enteredHt {
      NonNegativeFactor(ht, ft);
    }
    ScaleUp(ht, ft);
    ScaleUp(ttc, fm);
  }

  /** A product with a positive factor that is not negative has a
      non-negative other factor. */
  lemma NonNegativeFactor(x: real, f: real)
    requires f > 0.0 && x * f >= 0.0
    ensures x >= 0.0
  {
  }

  /** Scaling a non-negative amount by a factor of at least 1 never shrinks it. */
  lemma ScaleUp(x: real, f: real)
    requires x >= 0.0 && f >= 1.0
    ensures x <= x * f
  {
    assert x * f - x == x * (f - 1.0);
  }

  /** The basis only moves the point where TVA is added: an HT-basis expense
      entered at price p is valued exactly like the TTC-basis expense entered
      at p plus its TVA. */
  lemma BasisEquivalence(e: Expense)
    requires Basis(e) == HT && TvaRate(e) != -100.0
    ensures
      var asTtc := e.(productCost := e.productCost * Factor(TvaRate(e)), markupAppliesTo := None);
      CalculateExpense(asTtc) == CalculateExpense(e)
  {
    var asTtc := e.(productCost := e.productCost * Factor(TvaRate(e)), markupAppliesTo := None);
    var c, d := CalculateExpense(e), CalculateExpense(asTtc);
    var f := Factor(TvaRate(e));
    assert f != 0.0;
    assert d.productCostHT * f == e.productCost * f;
    CancelFactor(d.productCostHT, e.productCost, f);
  }

  /** A non-zero factor can be cancelled. */
  lemma CancelFactor(x: real, y: real, f: real)
    requires f != 0.0 && x * f == y * f
    ensures x == y
  {
    assert (x - y) * f == 0.0;
  }

  /** The valuation reads only the price, TVA rate, markup, basis, shipping
      and amount received: expenses agreeing on those are valued alike. */
  lemma DependsOnlyOnAmounts(e: Expense, e': Expense)
    requires e.productCost == e'.productCost && TvaRate(e) == TvaRate(e')
    requires e.markupPercentage == e'.markupPercentage && Basis(e) == Basis(e')
    requires e.shippingCost == e'.shippingCost && e.paymentReceived == e'.paymentReceived
    requires TvaRate(e) != -100.0
    ensures CalculateExpense(e) == CalculateExpense(e')
  {
  }

  /** An expense without a TVA rate is valued at the default rate. */
  lemma AbsentTvaIsDefault(e: Expense)
    requires e.tvaPercentage.None?
    ensures TvaRate(e) == 5.5
    ensures CalculateExpense(e) == CalculateExpense(e.(tvaPercentage := Some(DefaultTva)))
  {
    DependsOnlyOnAmounts(e, e.(tvaPercentage := Some(DefaultTva)));
  }

  /** A record accepted by the expense validator has neither a TVA rate nor
      a markup basis, since the parse strips both: it is valued at 5.5 % on
      the TTC basis, whatever the caller sent. */
  lemma AcceptedValuedAtDefaults(id: string, input: ExpenseInput)
    requires ValidateExpense(id, input).Success?
    ensures TvaRate(ValidateExpense(id, input).value) == 5.5
    ensures Basis(ValidateExpense(id, input).value) == TTC
  {
  }

  /** Without the exact label "HT" — no label, "TTC" or anything else — the
      price is read as TTC. */
  lemma OtherLabelIsTtc(e: Expense, tag: Option<string>)
    requires tag != Some("HT") && e.markupAppliesTo == Some("TTC") && TvaRate(e) != -100.0
    ensures CalculateExpense(e.(markupAppliesTo := tag)) == CalculateExpense(e)
    ensures CalculateExpense(e).productCostTTC == e.productCost
  {
    DependsOnlyOnAmounts(e, e.(markupAppliesTo := tag));
  }

  /** A price of 100 entered TTC at 20 % TVA with a 10 % markup and 5 of
      shipping: 83.33 HT, 16.67 TVA, 110 marked up and 115 in all. */
  lemma WorkedExample(e: Expense)
    requires e.productCost == 100.0 && e.tvaPercentage == Some(20.0)
    requires e.markupAppliesTo == Some("TTC") && e.markupPercentage == 10.0
    requires e.shippingCost == 5.0 && e.paymentReceived == 0.0
    ensures CalculateExpense(e).productCostHT == 250.0 / 3.0
    ensures CalculateExpense(e).tvaAmount == 50.0 / 3.0
    ensures CalculateExpense(e).productWithMarkup == 110.0
    ensures CalculateExpense(e).total == 115.0
    ensures CalculateExpense(e).balance == 115.0
  {
    assert Factor(20.0) == 1.2;
  }
}
