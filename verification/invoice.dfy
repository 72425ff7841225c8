/** The figures of a client invoice: the expenses' marked-up prices grouped
    by TVA rate, the invoice totals, the rows of the item table and the
    payment-status line. Page layout, fonts and date formatting are not
    part of the model. */
module Invoice {
  import opened Basics
  import opened Schema
  import opened Calculations

  /** An expense the invoice can total: it carries its own TVA rate (the
      invoice reads the raw rate, without the valuation's default), and the
      rate is not -100, which would divide by zero. */
  predicate Rated(e: Expense) {
    e.tvaPercentage.Some? && e.tvaPercentage.value != -100.0
  }

  predicate AllRated(es: seq<Expense>) {
    forall i :: 0 <= i < |es| ==> Rated(es[i])
  }

  /** Expenses the valuation can value: none has a rate of -100. An expense
      without a rate is valued at the 5.5 % default. */
  predicate Valued(es: seq<Expense>) {
    forall i :: 0 <= i < |es| ==> TvaRate(es[i]) != -100.0
  }

  /** Every expense carrying its own rate can be valued. */
  lemma RatedAreValued(es: seq<Expense>)
    requires AllRated(es)
    ensures Valued(es)
  {
    forall i | 0 <= i < |es|
      ensures TvaRate(es[i]) != -100.0
    {
      assert Rate(es[i]) == TvaRate(es[i]);
    }
  }

  function Rate(e: Expense): (r: real)
    requires Rated(e)
    ensures r == TvaRate(e)
  {
    e.tvaPercentage.value
  }

  /** An HT / TVA / TTC triple. */
  datatype Amounts = Amounts(ht: real, tva: real, ttc: real)

  const Zero: Amounts := Amounts(0.0, 0.0, 0.0)

  function Plus(a: Amounts, b: Amounts): Amounts {
    Amounts(a.ht + b.ht, a.tva + b.tva, a.ttc + b.ttc)
  }

  /** HT and TVA add up to TTC. */
  predicate Balanced(a: Amounts) {
    a.ht + a.tva == a.ttc
  }

  /** The marked-up price of an expense, read as TTC and split back into its
      HT part and its TVA at the expense's own rate. */
  function SplitOf(e: Expense): (a: Amounts)
    requires Rated(e)
    ensures a.ttc == CalculateExpense(e).productWithMarkup
    ensures a.ht * Factor(Rate(e)) == a.ttc
    ensures Balanced(a)
  {
    var ttc := CalculateExpense(e).productWithMarkup;
    var ht := ttc / Factor(Rate(e));
    Amounts(ht, ttc - ht, ttc)
  }

  /** The HT part of the marked-up price is the HT price with the markup
      applied, whichever price was entered. */
  lemma SplitIsMarkedUpHt(e: Expense)
    requires Rated(e)
    ensures SplitOf(e).ht == CalculateExpense(e).productCostHT * Factor(e.markupPercentage)
  {
    var c := CalculateExpense(e);
    var f := Factor(Rate(e));
    assert f != 0.0;
    assert c.productWithMarkup == (c.productCostHT * Factor(e.markupPercentage)) * f;
    CancelFactor(SplitOf(e).ht, c.productCostHT * Factor(e.markupPercentage), f);
  }

  /** One line of the TVA summary: a rate and what was charged at it. */
  datatype TvaGroup = TvaGroup(rate: real, amounts: Amounts)

  function Rates(gs: seq<TvaGroup>): (r: seq<real>)
    ensures |r| == |gs| && forall i :: 0 <= i < |gs| ==> r[i] == gs[i].rate
  {
    if |gs| == 0 then [] else [gs[0].rate] + Rates(gs[1..])
  }

  /** No rate has two groups. */
  predicate DistinctRates(gs: seq<TvaGroup>) {
    forall i, j :: 0 <= i < j < |gs| ==> gs[i].rate != gs[j].rate
  }

  /** The sum over all groups. */
  function Total(gs: seq<TvaGroup>): Amounts {
    if |gs| == 0 then Zero else Plus(gs[0].amounts, Total(gs[1..]))
  }

  /** Where the group of `rate` is, or `|gs|` when there is none. */
  function GroupIndex(gs: seq<TvaGroup>, rate: real): (k: nat)
    ensures k <= |gs|
    ensures k < |gs| ==> gs[k].rate == rate
    ensures forall i :: 0 <= i < k ==> gs[i].rate != rate
  {
    if |gs| == 0 then 0
    else if gs[0].rate == rate then 0
    else 1 + GroupIndex(gs[1..], rate)
  }

  /** Add `a` to the group of `rate`, or open a group for it after the
      existing ones: a map keeps its keys in first-insertion order. */
  function AddToGroup(gs: seq<TvaGroup>, rate: real, a: Amounts): (r: seq<TvaGroup>)
    requires DistinctRates(gs)
    ensures |r| == |gs| || |r| == |gs| + 1
    ensures forall i :: 0 <= i < |gs| ==>
      r[i] == (if gs[i].rate == rate then TvaGroup(rate, Plus(gs[i].amounts, a)) else gs[i])
    ensures |r| == |gs| + 1 <==> rate !in Rates(gs)
    ensures |r| == |gs| + 1 ==> r[|gs|] == TvaGroup(rate, a)
  {
    var k := GroupIndex(gs, rate);
    if k < |gs| then gs[k := TvaGroup(rate, Plus(gs[k].amounts, a))]
    else gs + [TvaGroup(rate, a)]
  }

  /** Adding to a group keeps one group per rate, and a new rate goes last. */
  lemma AddToGroupRates(gs: seq<TvaGroup>, rate: real, a: Amounts)
    requires DistinctRates(gs)
    ensures DistinctRates(AddToGroup(gs, rate, a))
    ensures Rates(AddToGroup(gs, rate, a)) == if rate in Rates(gs) then Rates(gs) else Rates(gs) + [rate]
  {
    var r := AddToGroup(gs, rate, a);
    if rate in Rates(gs) {
      assert Rates(r) == Rates(gs);
    } else {
      assert Rates(r) == Rates(gs) + [rate];
    }
  }

  /** Adding to a group adds to the total over all groups. */
  lemma AddToGroupTotal(gs: seq<TvaGroup>, rate: real, a: Amounts)
    requires DistinctRates(gs)
    ensures Total(AddToGroup(gs, rate, a)) == Plus(Total(gs), a)
  {
    var k := GroupIndex(gs, rate);
    if k < |gs| {
      TotalUpdate(gs, k, TvaGroup(rate, Plus(gs[k].amounts, a)));
    } else {
      TotalAppend(gs, TvaGroup(rate, a));
    }
  }

  lemma {:induction false} TotalUpdate(gs: seq<TvaGroup>, k: nat, g: TvaGroup)
    requires k < |gs|
    ensures Total(gs[k := g]) == Plus(Total(gs), Amounts(
      g.amounts.ht - gs[k].amounts.ht, g.amounts.tva - gs[k].amounts.tva, g.amounts.ttc - gs[k].amounts.ttc))
  {
    if k == 0 {
      assert gs[k := g][1..] == gs[1..];
    } else {
      assert gs[k := g][1..] == gs[1..][k - 1 := g];
      TotalUpdate(gs[1..], k - 1, g);
    }
  }

  lemma {:induction false} TotalAppend(gs: seq<TvaGroup>, g: TvaGroup)
    ensures Total(gs + [g]) == Plus(Total(gs), g.amounts)
  {
    if |gs| > 0 {
      assert (gs + [g])[1..] == gs[1..] + [g];
      TotalAppend(gs[1..], g);
    }
  }

  /** The distinct rates of the expenses, in order of first appearance. */
  function FirstRates(es: seq<Expense>): (rates: seq<real>)
    requires AllRated(es)
    ensures |rates| <= |es|
  {
    if |es| == 0 then []
    else
      var seen := FirstRates(es[..|es| - 1]);
      var rate := Rate(es[|es| - 1]);
      if rate in seen then seen else seen + [rate]
  }

  /** The first-appearance list names each rate once. */
  lemma {:induction false} FirstRatesDistinct(es: seq<Expense>)
    requires AllRated(es)
    ensures forall i, j :: 0 <= i < j < |FirstRates(es)| ==> FirstRates(es)[i] != FirstRates(es)[j]
  {
    if |es| > 0 {
      FirstRatesDistinct(es[..|es| - 1]);
    }
  }

  /** A rate is in the first-appearance list exactly when some expense has
      it. */
  lemma {:induction false} FirstRatesMembers(es: seq<Expense>, q: real)
    requires AllRated(es)
    ensures q in FirstRates(es) <==> exists i :: 0 <= i < |es| && es[i].tvaPercentage == Some(q)
  {
    if |es| > 0 {
      var prefix := es[..|es| - 1];
      FirstRatesMembers(prefix, q);
      assert forall i :: 0 <= i < |prefix| ==> prefix[i] == es[i];
      if q !in FirstRates(es) {
        assert forall i :: 0 <= i < |es| ==> es[i].tvaPercentage != Some(q) by {
          forall i | 0 <= i < |es|
            ensures es[i].tvaPercentage != Some(q)
          {
            if i < |prefix| {
              assert es[i] == prefix[i];
            }
          }
        }
      }
    }
  }

  /** Reference definition: what the expenses at rate `q` contribute. */
  function RateTotal(es: seq<Expense>, q: real): (a: Amounts)
    requires AllRated(es)
    ensures Balanced(a)
  {
    if |es| == 0 then Zero
    else
      var rest := RateTotal(es[..|es| - 1], q);
      var e := es[|es| - 1];
      if Rate(e) == q then Plus(rest, SplitOf(e)) else rest
  }

  /** Reference definition: what all the expenses contribute. */
  function AllAmounts(es: seq<Expense>): (a: Amounts)
    requires AllRated(es)
    ensures Balanced(a)
  {
    if |es| == 0 then Zero else Plus(AllAmounts(es[..|es| - 1]), SplitOf(es[|es| - 1]))
  }

  /** A rate no expense has collects nothing. */
  lemma {:induction false} RateTotalAbsent(es: seq<Expense>, q: real)
    requires AllRated(es) && q !in FirstRates(es)
    ensures RateTotal(es, q) == Zero
  {
    if |es| > 0 {
      RateTotalAbsent(es[..|es| - 1], q);
    }
  }

  /** `gs` is the TVA summary of `es`: one group per distinct rate, in order
      of first appearance, each holding exactly what the expenses at that
      rate contribute. */
  predicate Summarises(gs: seq<TvaGroup>, es: seq<Expense>)
    requires AllRated(es)
  {
    && DistinctRates(gs)
    && Rates(gs) == FirstRates(es)
    && (forall i :: 0 <= i < |gs| ==> gs[i].amounts == RateTotal(es, gs[i].rate))
    && Total(gs) == AllAmounts(es)
  }

  /** Build the TVA summary one expense at a time. */
  function GroupByTva(es: seq<Expense>): (gs: seq<TvaGroup>)
    requires AllRated(es)
    ensures Summarises(gs, es)
  {
    if |es| == 0 then []
    else
      var before := GroupByTva(es[..|es| - 1]);
      AddKeepsSummary(es, before);
      AddToGroup(before, Rate(es[|es| - 1]), SplitOf(es[|es| - 1]))
  }

  /** Adding the last expense to the summary of the others summarises all. */
  lemma AddKeepsSummary(es: seq<Expense>, before: seq<TvaGroup>)
    requires AllRated(es) && |es| > 0
    requires Summarises(before, es[..|es| - 1])
    ensures Summarises(AddToGroup(before, Rate(es[|es| - 1]), SplitOf(es[|es| - 1])), es)
  {
    var prefix := es[..|es| - 1];
    var e := es[|es| - 1];
    var after := AddToGroup(before, Rate(e), SplitOf(e));
    assert DistinctRates(after) && Rates(after) == FirstRates(es) by {
      AddToGroupRates(before, Rate(e), SplitOf(e));
    }
    assert Total(after) == AllAmounts(es) by {
      AddToGroupTotal(before, Rate(e), SplitOf(e));
    }
    assert forall i :: 0 <= i < |after| ==> after[i].amounts == RateTotal(es, after[i].rate) by {
      AddKeepsRateTotals(es, before);
    }
  }

  /** After adding the last expense, each group still holds what the
      expenses at its rate contribute. */
  lemma AddKeepsRateTotals(es: seq<Expense>, before: seq<TvaGroup>)
    requires AllRated(es) && |es| > 0 && DistinctRates(before)
    requires Rates(before) == FirstRates(es[..|es| - 1])
    requires forall i :: 0 <= i < |before| ==> before[i].amounts == RateTotal(es[..|es| - 1], before[i].rate)
    ensures var after := AddToGroup(before, Rate(es[|es| - 1]), SplitOf(es[|es| - 1]));
      forall i :: 0 <= i < |after| ==> after[i].amounts == RateTotal(es, after[i].rate)
  {
    var prefix := es[..|es| - 1];
    var e := es[|es| - 1];
    var after := AddToGroup(before, Rate(e), SplitOf(e));
    forall i | 0 <= i < |after|
      ensures after[i].amounts == RateTotal(es, after[i].rate)
    {
      if i == |before| {
        RateTotalAbsent(prefix, Rate(e));
      }
    }
  }

  /** A rate has a group exactly when some expense has that rate. */
  lemma GroupPerRate(es: seq<Expense>, q: real)
    requires AllRated(es)
    ensures q in Rates(GroupByTva(es)) <==> exists i :: 0 <= i < |es| && es[i].tvaPercentage == Some(q)
  {
    FirstRatesMembers(es, q);
  }

  /** In every group HT and TVA add up to TTC. */
  lemma GroupsBalanced(es: seq<Expense>)
    requires AllRated(es)
    ensures forall g :: g in GroupByTva(es) ==> Balanced(g.amounts)
  {
    var gs := GroupByTva(es);
    forall g | g in gs
      ensures Balanced(g.amounts)
    {
      var i :| 0 <= i < |gs| && gs[i] == g;
      assert g.amounts == RateTotal(es, g.rate);
    }
  }

  /** No expense has a negative price, markup or TVA rate. */
  predicate NonNegativeAmounts(es: seq<Expense>) {
    forall i :: 0 <= i < |es| ==>
      es[i].productCost >= 0.0 && es[i].markupPercentage >= 0.0 && TvaRate(es[i]) >= 0.0
  }

  /** Sum of the marked-up prices, as the invoice totals them; never
      negative when no price, markup or rate is. It reads only the
      valuation, so expenses without a rate of their own count at 5.5 %. */
  function TotalWithMarkup(es: seq<Expense>): (t: real)
    requires Valued(es)
    ensures NonNegativeAmounts(es) ==> t >= 0.0
  {
    if |es| == 0 then 0.0
    else
      var last := es[|es| - 1];
      assert Valued(es[..|es| - 1]) by {
        assert forall i :: 0 <= i < |es| - 1 ==> es[..|es| - 1][i] == es[i];
      }
      var before := TotalWithMarkup(es[..|es| - 1]);
      assert NonNegativeAmounts(es) ==>
        NonNegativeAmounts(es[..|es| - 1]) && CalculateExpense(last).productWithMarkup >= 0.0
      by {
        if NonNegativeAmounts(es) {
          assert forall i :: 0 <= i < |es| - 1 ==> es[..|es| - 1][i] == es[i];
          AmountsNonNegative(last);
        }
      }
      before + CalculateExpense(last).productWithMarkup
  }

  /** Sum of the shipping costs: never negative when no cost is, and
      positive only when some expense ships at a positive cost. The
      valuation passes the shipping cost through unchanged, so no rate is
      involved. */
  function TotalShipping(es: seq<Expense>): (t: real)
    ensures ShippingNonNegative(es) ==> t >= 0.0
    ensures t > 0.0 ==> exists i :: 0 <= i < |es| && es[i].shippingCost > 0.0
  {
    if |es| == 0 then 0.0
    else
      var prefix := es[..|es| - 1];
      assert forall i :: 0 <= i < |prefix| ==> prefix[i] == es[i];
      TotalShipping(prefix) + es[|es| - 1].shippingCost
  }

  /** The TTC over all expenses is the sum of the marked-up prices. */
  lemma {:induction false} AllAmountsTtc(es: seq<Expense>)
    requires AllRated(es)
    ensures Valued(es) && AllAmounts(es).ttc == TotalWithMarkup(es)
  {
    RatedAreValued(es);
    if |es| > 0 {
      AllAmountsTtc(es[..|es| - 1]);
    }
  }

  /** The invoice totals. `None` stands for NaN: an expense without a rate
      of its own puts the TVA summary's HT and TVA sums out of reach. */
  datatype Totals = Totals(
    totalShipping: real,
    totalWithMarkup: real,
    totalHT: Option<real>,
    totalTVA: Option<real>,
    totalTTC: real,
    grandTotal: real
  )

  /** The totals of an invoice: HT, TVA and TTC are summed over the TVA
      groups, the amount due is the marked-up prices plus shipping. An
      expense without a rate lands in a group keyed NaN whose HT and TVA are
      NaN but whose TTC is its marked-up price, so TTC, shipping and the
      amount due are figures whatever the rates. */
  function TotalsOf(es: seq<Expense>): (t: Totals)
    requires Valued(es)
    ensures t.totalWithMarkup == TotalWithMarkup(es) && t.totalShipping == TotalShipping(es)
    ensures t.totalTTC == t.totalWithMarkup
    ensures t.grandTotal == TotalWithMarkup(es) + TotalShipping(es)
    ensures t.totalHT.Some? <==> AllRated(es)
    ensures t.totalTVA.Some? <==> AllRated(es)
    ensures AllRated(es) ==> Amounts(t.totalHT.value, t.totalTVA.value, t.totalTTC) == AllAmounts(es)
    ensures AllRated(es) ==> t.totalHT.value + t.totalTVA.value == t.totalTTC
  {
    var totalShipping := TotalShipping(es);
    var totalWithMarkup := TotalWithMarkup(es);
    var grandTotal := totalWithMarkup + totalShipping;
    if AllRated(es) then
      var sum := Total(GroupByTva(es));
      AllAmountsTtc(es);
      Totals(totalShipping, totalWithMarkup, Some(sum.ht), Some(sum.tva), sum.ttc, grandTotal)
    else
      Totals(totalShipping, totalWithMarkup, None, None, totalWithMarkup, grandTotal)
  }

  /** A row of the item table. A product row shows the expense's raw rate,
      `None` standing for the NaN shown when it has none. A shipping row's
      quantity is always 1, its
      TVA rate and amount 0 and its markup 0 %, so only the shipping cost
      varies; it fills the HT, TTC and total columns. */
  datatype Row =
    | ProductRow(date: int, description: string, quantity: string, ht: real, tvaRate: Option<real>,
                 tvaAmount: real, ttc: real, markup: real, withMarkup: real)
    | ShippingRow(date: int, description: string, amount: real)

  /** The right-most column, the line total. */
  function LineTotal(row: Row): real {
    match row
    case ProductRow(_, _, _, _, _, _, _, _, withMarkup) => withMarkup
    case ShippingRow(_, _, amount) => amount
  }

  /** The product row of an expense: its own columns, the raw rate, and the
      valuation's amounts. */
  function ProductRowOf(e: Expense): (row: Row)
    requires TvaRate(e) != -100.0
    ensures row.ProductRow? && row.date == e.date && row.tvaRate == e.tvaPercentage
    ensures Rated(e) ==> row.tvaRate == Some(Rate(e))
    ensures row.description == e.productDescription && row.quantity == e.quantity
    ensures row.ht == CalculateExpense(e).productCostHT && row.tvaAmount == CalculateExpense(e).tvaAmount
    ensures row.ttc == CalculateExpense(e).productCostTTC && row.markup == e.markupPercentage
    ensures row.ht + row.tvaAmount == row.ttc
    ensures LineTotal(row) == CalculateExpense(e).productWithMarkup
    ensures Rated(e) ==> LineTotal(row) == SplitOf(e).ttc
  {
    var c := CalculateExpense(e);
    ProductRow(e.date, e.productDescription, e.quantity, c.productCostHT, e.tvaPercentage,
               c.tvaAmount, c.productCostTTC, e.markupPercentage, c.productWithMarkup)
  }

  /** The carrier shown on a shipping row; an empty name shows as
      "Standard". */
  function CarrierLabel(carrier: string): (shown: string)
    ensures |shown| > 0
    ensures |carrier| > 0 ==> shown == carrier
  {
    if |carrier| == 0 then "Standard" else carrier
  }

  /** The shipping row of an expense: its date, carrier and shipping cost;
      no rate is read. */
  function ShippingRowOf(e: Expense): (row: Row)
    ensures row.ShippingRow? && row.date == e.date && row.amount == e.shippingCost
    ensures row.description == "Livraison - " + CarrierLabel(e.shippingCarrier)
  {
    ShippingRow(e.date, "Livraison - " + CarrierLabel(e.shippingCarrier), e.shippingCost)
  }

  /** One product row per expense, in order. */
  function ProductRows(es: seq<Expense>): (rows: seq<Row>)
    requires Valued(es)
    ensures |rows| == |es|
    ensures forall i :: 0 <= i < |es| ==> rows[i] == ProductRowOf(es[i])
  {
    if |es| == 0 then []
    else
      assert Valued(es[..|es| - 1]) by {
        assert forall i :: 0 <= i < |es| - 1 ==> es[..|es| - 1][i] == es[i];
      }
      ProductRows(es[..|es| - 1]) + [ProductRowOf(es[|es| - 1])]
  }

  /** A shipping row for each expense with a positive shipping cost, in
      order. */
  function ShippingRows(es: seq<Expense>): (rows: seq<Row>)
    ensures |rows| <= |es|
    ensures forall row :: row in rows ==> row.ShippingRow? && row.amount > 0.0
    ensures |rows| == 0 <==> forall i :: 0 <= i < |es| ==> es[i].shippingCost <= 0.0
    ensures forall i :: 0 <= i < |es| && es[i].shippingCost > 0.0 ==> ShippingRowOf(es[i]) in rows
  {
    if |es| == 0 then []
    else
      var prefix := es[..|es| - 1];
      var e := es[|es| - 1];
      var before := ShippingRows(prefix);
      assert forall i :: 0 <= i < |prefix| ==> prefix[i] == es[i];
      var rows := if e.shippingCost > 0.0 then before + [ShippingRowOf(e)] else before;
      assert forall i :: 0 <= i < |es| && es[i].shippingCost > 0.0 ==> ShippingRowOf(es[i]) in rows by {
        forall i | 0 <= i < |es| && es[i].shippingCost > 0.0
          ensures ShippingRowOf(es[i]) in rows
        {
          if i < |prefix| {
            assert ShippingRowOf(prefix[i]) in before;
          }
        }
      }
      rows
  }

  /** The item table: the product rows, then the shipping rows when the
      total shipping is positive. */
  function TableRows(es: seq<Expense>): (rows: seq<Row>)
    requires Valued(es)
    ensures |rows| >= |es| && rows[..|es|] == ProductRows(es)
    ensures TotalShipping(es) <= 0.0 ==> rows == ProductRows(es)
    ensures TotalShipping(es) > 0.0 ==> rows == ProductRows(es) + ShippingRows(es)
  {
    var products := ProductRows(es);
    var rows := products + (if TotalShipping(es) > 0.0 then ShippingRows(es) else []);
    assert rows[..|es|] == products;
    rows
  }

  /** Every shipping row is the shipping row of an expense that ships at a
      positive cost. */
  lemma {:induction false} ShippingRowsFromExpenses(es: seq<Expense>)
    ensures forall row :: row in ShippingRows(es) ==>
      exists i :: 0 <= i < |es| && es[i].shippingCost > 0.0 && row == ShippingRowOf(es[i])
  {
    if |es| > 0 {
      var prefix := es[..|es| - 1];
      var e := es[|es| - 1];
      ShippingRowsFromExpenses(prefix);
      var before := ShippingRows(prefix);
      assert ShippingRows(es) == if e.shippingCost > 0.0 then before + [ShippingRowOf(e)] else before;
      forall row | row in ShippingRows(es)
        ensures exists i :: 0 <= i < |es| && es[i].shippingCost > 0.0 && row == ShippingRowOf(es[i])
      {
        if row in before {
          var i :| 0 <= i < |prefix| && prefix[i].shippingCost > 0.0 && row == ShippingRowOf(prefix[i]);
          assert es[i] == prefix[i];
        } else {
          assert row == ShippingRowOf(es[|es| - 1]);
        }
      }
    }
  }

  /** Shipping rows of consecutive stretches of expenses follow each other. */
  lemma {:induction false} ShippingRowsAppend(xs: seq<Expense>, ys: seq<Expense>)
    ensures ShippingRows(xs + ys) == ShippingRows(xs) + ShippingRows(ys)
    decreases |ys|
  {
    assert forall i :: 0 <= i < |xs + ys| ==> (xs + ys)[i] == if i < |xs| then xs[i] else ys[i - |xs|];
    if |ys| == 0 {
      assert xs + ys == xs;
    } else {
      var ys' := ys[..|ys| - 1];
      var e := ys[|ys| - 1];
      assert (xs + ys)[..|xs + ys| - 1] == xs + ys';
      assert (xs + ys)[|xs + ys| - 1] == e;
      ShippingRowsAppend(xs, ys');
    }
  }

  /** Sum of the line totals. */
  function ColumnTotal(rows: seq<Row>): real {
    if |rows| == 0 then 0.0 else ColumnTotal(rows[..|rows| - 1]) + LineTotal(rows[|rows| - 1])
  }

  lemma {:induction false} ColumnTotalAppend(xs: seq<Row>, ys: seq<Row>)
    ensures ColumnTotal(xs + ys) == ColumnTotal(xs) + ColumnTotal(ys)
    decreases |ys|
  {
    if |ys| == 0 {
      assert xs + ys == xs;
    } else {
      assert (xs + ys)[..|xs + ys| - 1] == xs + ys[..|ys| - 1];
      ColumnTotalAppend(xs, ys[..|ys| - 1]);
    }
  }

  /** The product rows' line totals add up to the marked-up total. */
  lemma {:induction false} ProductColumnTotal(es: seq<Expense>)
    requires Valued(es)
    ensures ColumnTotal(ProductRows(es)) == TotalWithMarkup(es)
  {
    if |es| > 0 {
      var rows := ProductRows(es);
      assert rows[..|rows| - 1] == ProductRows(es[..|es| - 1]);
      ProductColumnTotal(es[..|es| - 1]);
    }
  }

  /** No expense has a negative shipping cost. */
  predicate ShippingNonNegative(es: seq<Expense>) {
    forall i :: 0 <= i < |es| ==> es[i].shippingCost >= 0.0
  }

  /** With no negative shipping cost, the shipping rows' line totals add up
      to the total shipping. */
  lemma {:induction false} ShippingColumnTotal(es: seq<Expense>)
    requires ShippingNonNegative(es)
    ensures ColumnTotal(ShippingRows(es)) == TotalShipping(es)
  {
    if |es| > 0 {
      var prefix := es[..|es| - 1];
      var e := es[|es| - 1];
      ShippingColumnTotal(prefix);
      if e.shippingCost > 0.0 {
        var before := ShippingRows(prefix);
        assert (before + [ShippingRowOf(e)])[..|before|] == before;
      }
    }
  }

  /** Rows with positive line totals add up to a positive amount. */
  lemma {:induction false} PositiveColumn(rows: seq<Row>)
    requires |rows| > 0 && forall row :: row in rows ==> LineTotal(row) > 0.0
    ensures ColumnTotal(rows) > 0.0
  {
    var init := rows[..|rows| - 1];
    assert rows[|rows| - 1] in rows;
    if |init| > 0 {
      assert forall row :: row in init ==> row in rows;
      PositiveColumn(init);
    }
  }

  /** With no negative shipping cost, the positive-total guard on the
      shipping rows never drops a row: the table is the product rows followed
      by the shipping rows. */
  lemma ShippingGuardRedundant(es: seq<Expense>)
    requires Valued(es) && ShippingNonNegative(es)
    ensures TableRows(es) == ProductRows(es) + ShippingRows(es)
  {
    var shipping := ShippingRows(es);
    if TotalShipping(es) <= 0.0 && |shipping| > 0 {
      ShippingColumnTotal(es);
      PositiveColumn(shipping);
      assert false;
    }
    assert TotalShipping(es) <= 0.0 ==> ProductRows(es) + shipping == ProductRows(es);
  }

  /** With no negative shipping cost the table's line totals add up to the
      amount due. */
  lemma TableSumsToGrandTotal(es: seq<Expense>)
    requires Valued(es) && ShippingNonNegative(es)
    ensures ColumnTotal(TableRows(es)) == TotalsOf(es).grandTotal
  {
    ShippingGuardRedundant(es);
    ShippingColumnTotal(es);
    ProductColumnTotal(es);
    ColumnTotalAppend(ProductRows(es), ShippingRows(es));
  }

  /** An invoice over records that satisfy the expense constraints, each
      valued at a non-negative rate (a freshly validated record is valued at
      5.5 %): it can be drawn up, its totals are not negative and its table
      adds up to the amount due. */
  lemma ValidExpensesInvoice(es: seq<Expense>)
    requires forall i :: 0 <= i < |es| ==> ValidExpense(es[i]) && TvaRate(es[i]) >= 0.0
    ensures Valued(es) && NonNegativeAmounts(es) && ShippingNonNegative(es)
    ensures TotalsOf(es).totalWithMarkup >= 0.0 && TotalsOf(es).totalShipping >= 0.0
    ensures TotalsOf(es).grandTotal >= TotalsOf(es).totalWithMarkup
    ensures ColumnTotal(TableRows(es)) == TotalsOf(es).grandTotal
  {
    assert Valued(es) && NonNegativeAmounts(es) && ShippingNonNegative(es) by {
      forall i | 0 <= i < |es|
        ensures TvaRate(es[i]) != -100.0 && es[i].productCost >= 0.0
        ensures es[i].markupPercentage >= 0.0 && es[i].shippingCost >= 0.0
      {
        assert ValidExpense(es[i]);
      }
    }
    TableSumsToGrandTotal(es);
  }

  /** The payment-status line: none until something has been paid; then
      either the balance still due or "PAYÉ". */
  datatype PaymentStatus = NoStatus | BalanceDue(balance: real) | Paid

  function StatusOf(grandTotal: real, totalPaid: real): (s: PaymentStatus)
    ensures s.NoStatus? <==> totalPaid <= 0.0
    ensures s.BalanceDue? <==> totalPaid > 0.0 && totalPaid < grandTotal
    ensures s.BalanceDue? ==> s.balance > 0.0 && s.balance + totalPaid == grandTotal
    ensures s.Paid? <==> totalPaid > 0.0 && totalPaid >= grandTotal
  {
    if totalPaid > 0.0 then
      var balance := grandTotal - totalPaid;
      if balance > 0.0 then BalanceDue(balance) else Paid
    else NoStatus
  }

  /** Paying more never turns a paid invoice back into one with a balance
      due, and never raises the balance due. */
  lemma PayingMoreNeverOwesMore(grandTotal: real, paid: real, morePaid: real)
    requires 0.0 < paid <= morePaid
    ensures StatusOf(grandTotal, paid).Paid? ==> StatusOf(grandTotal, morePaid).Paid?
    ensures StatusOf(grandTotal, morePaid).BalanceDue? ==>
      StatusOf(grandTotal, morePaid).balance <= StatusOf(grandTotal, paid).balance
  {
  }

  /** Everything the invoice computes. */
  /** What the invoice shows. The TVA summary is `None` when some expense
      has no rate of its own: its rows are then keyed NaN and their HT and
      TVA are NaN. */
  datatype InvoiceFigures = InvoiceFigures(
    groups: Option<seq<TvaGroup>>,
    totals: Totals,
    rows: seq<Row>,
    status: PaymentStatus
  )

  /** The only failure: the client has no company record. */
  datatype InvoiceError = UnknownClient(name: string)

  /** The text every refusal starts with. */
  const CompanyNotFound: string := "Company information not found for "

  /** The refusal's message: the fixed text, then the client's name. */
  function ErrorMessage(err: InvoiceError): (msg: string)
    ensures |msg| == |CompanyNotFound| + |err.name|
    ensures msg[..|CompanyNotFound|] == CompanyNotFound && msg[|CompanyNotFound|..] == err.name
  {
    CompanyNotFound + err.name
  }

  /** Refusals for different clients have different messages. */
  lemma ErrorMessageNamesClient(a: InvoiceError, b: InvoiceError)
    ensures ErrorMessage(a) == ErrorMessage(b) <==> a == b
  {
    if ErrorMessage(a) == ErrorMessage(b) {
      assert a.name == ErrorMessage(a)[|CompanyNotFound|..];
    }
  }

  /** The TVA summary of an invoice: one group per rate, in order of first
      appearance, each holding that rate's amounts; absent when some expense
      has no rate of its own. */
  function Summary(es: seq<Expense>): (groups: Option<seq<TvaGroup>>)
    ensures groups.Some? <==> AllRated(es)
    ensures groups.Some? ==>
      && DistinctRates(groups.value)
      && Rates(groups.value) == FirstRates(es)
      && (forall g :: g in groups.value ==> g.amounts == RateTotal(es, g.rate))
  {
    if AllRated(es) then
      var gs := GroupByTva(es);
      assert forall g :: g in gs ==> g.amounts == RateTotal(es, g.rate) by {
        forall g | g in gs
          ensures g.amounts == RateTotal(es, g.rate)
        {
          var i :| 0 <= i < |gs| && gs[i] == g;
        }
      }
      Some(gs)
    else None
  }

  /** The figures of the invoice for `clientName` over `es`, after `totalPaid`
      has been received. A client without a company record is refused before
      anything is computed. The amount due, the table rows and the status do
      not depend on the expenses carrying rates; the TVA summary does. */
  function GenerateInvoice(knownClients: set<string>, clientName: string, es: seq<Expense>, totalPaid: real)
    : (r: Result<InvoiceFigures, InvoiceError>)
    requires clientName in knownClients ==> Valued(es)
    ensures r.Failure? <==> clientName !in knownClients
    ensures r.Failure? ==> r.error == UnknownClient(clientName)
    ensures r.Success? ==> (r.value.groups.Some? <==> AllRated(es))
    ensures r.Success? && r.value.groups.Some? ==>
      && DistinctRates(r.value.groups.value)
      && Rates(r.value.groups.value) == FirstRates(es)
      && (forall g :: g in r.value.groups.value ==> g.amounts == RateTotal(es, g.rate))
    ensures r.Success? ==> r.value.totals == TotalsOf(es)
    ensures r.Success? ==>
      && r.value.totals.totalWithMarkup == TotalWithMarkup(es)
      && r.value.totals.totalShipping == TotalShipping(es)
      && r.value.totals.grandTotal == TotalWithMarkup(es) + TotalShipping(es)
    ensures r.Success? && AllRated(es) ==>
      Amounts(r.value.totals.totalHT.value, r.value.totals.totalTVA.value, r.value.totals.totalTTC) == AllAmounts(es)
    ensures r.Success? ==> r.value.rows == TableRows(es)
    ensures r.Success? ==> r.value.status == StatusOf(r.value.totals.grandTotal, totalPaid)
    ensures r.Success? ==>
      && (r.value.status.NoStatus? <==> totalPaid <= 0.0)
      && (r.value.status.Paid? <==> 0.0 < totalPaid && TotalWithMarkup(es) + TotalShipping(es) <= totalPaid)
      && (r.value.status.BalanceDue? ==>
            r.value.status.balance == TotalWithMarkup(es) + TotalShipping(es) - totalPaid)
  {
    if clientName !in knownClients then Failure(UnknownClient(clientName))
    else
      var totals := TotalsOf(es);
      Success(InvoiceFigures(Summary(es), totals, TableRows(es), StatusOf(totals.grandTotal, totalPaid)))
  }
}
