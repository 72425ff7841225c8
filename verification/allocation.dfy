/** FIFO allocation of one payment across one client's expenses, oldest
    first. The expenses arrive as a sequence already sorted by date; the
    allocator walks it once, paying each expense that still owes something
    as much as it owes or as much as is left, whichever is smaller. */
module Allocation {
  import opened Basics
  import opened Schema
  import opened Calculations

  /** The allocator's own outstanding balance for an expense: the product
      cost with its markup, plus shipping, less what was already received.
      It does not look at the TVA rate or the markup basis; on the TTC basis
      it is the valuation's balance. */
  function AllocBalance(e: Expense): (b: real)
    ensures Basis(e) == TTC && TvaRate(e) != -100.0 ==> b == CalculateExpense(e).balance
  {
    e.productCost * (1.0 + e.markupPercentage / 100.0) + e.shippingCost - e.paymentReceived
  }

  /** On the HT basis the allocator leaves out the TVA on the marked-up
      price: with a positive price, markup of at least 0 and a positive TVA
      rate it sees less owing than the valuation does. */
  lemma AllocBalanceOnHtBasis(e: Expense)
    requires Basis(e) == HT && TvaRate(e) > 0.0
    requires e.productCost > 0.0 && e.markupPercentage >= 0.0
    ensures AllocBalance(e) < CalculateExpense(e).balance
    ensures CalculateExpense(e).balance - AllocBalance(e)
      == e.productCost * Factor(e.markupPercentage) * (TvaRate(e) / 100.0)
  {
    var c := CalculateExpense(e);
    var marked := e.productCost * Factor(e.markupPercentage);
    var tvaOnMarked := marked * (TvaRate(e) / 100.0);
    HtBranchProduct(e.productCost, TvaRate(e), e.markupPercentage);
    assert c.productWithMarkup == marked + tvaOnMarked;
    assert AllocBalance(e) == marked + e.shippingCost - e.paymentReceived;
    PositiveProduct(e.productCost, Factor(e.markupPercentage));
    PositiveProduct(marked, TvaRate(e) / 100.0);
  }

  /** The product of two positive numbers is positive. */
  lemma PositiveProduct(x: real, y: real)
    requires x > 0.0 && y > 0.0
    ensures x * y > 0.0
  {
  }

  /** The part of a balance that can still be paid: negative balances
      (overpaid expenses) owe nothing. */
  function Positive(x: real): (p: real)
    ensures p >= 0.0 && p >= x
    ensures p == x || p == 0.0
  {
    if x > 0.0 then x else 0.0
  }

  /** What the whole sequence still owes. */
  function Owed(es: seq<Expense>): (t: real)
    ensures t >= 0.0
  {
    if |es| == 0 then 0.0 else Positive(AllocBalance(es[0])) + Owed(es[1..])
  }

  /** The ids of a sequence of expenses. */
  function Ids(es: seq<Expense>): (ids: set<string>)
    ensures forall i :: 0 <= i < |es| ==> es[i].id in ids
    ensures forall id :: id in ids ==> exists i :: 0 <= i < |es| && es[i].id == id
  {
    if |es| == 0 then {} else {es[0].id} + Ids(es[1..])
  }

  /** No expense occurs twice. */
  predicate DistinctIds(es: seq<Expense>) {
    forall i, j :: 0 <= i < j < |es| ==> es[i].id != es[j].id
  }

  /** Oldest first; equal dates may come in any order. */
  predicate SortedByDate(es: seq<Expense>) {
    forall i, j :: 0 <= i < j < |es| ==> es[i].date <= es[j].date
  }

  /** Sum of the amounts of a list of applications. */
  function Sum(apps: seq<Application>): real {
    if |apps| == 0 then 0.0 else apps[0].amountApplied + Sum(apps[1..])
  }

  /** Sum of the amounts a list of applications gives to expense `id`. */
  function AppliedTo(apps: seq<Application>, id: string): real {
    if |apps| == 0 then 0.0
    else (if apps[0].expenseId == id then apps[0].amountApplied else 0.0) + AppliedTo(apps[1..], id)
  }

  /** The applications one payment produced, and what was left unapplied. */
  datatype Allocation = Allocation(applications: seq<Application>, remaining: real)

  /** Walk `es` with `remaining` to distribute. The walk stops as soon as
      nothing remains; an expense owing nothing is passed over; any other
      expense gets one application of `min(balance, remaining)`. */
  function Distribute(paymentId: string, es: seq<Expense>, remaining: real): (r: Allocation)
    ensures Sum(r.applications) + r.remaining == remaining
    ensures remaining <= 0.0 ==> r == Allocation([], remaining)
    ensures remaining > 0.0 ==> 0.0 <= r.remaining <= remaining
    ensures r.remaining > 0.0 ==> Sum(r.applications) == Owed(es)
    ensures |r.applications| <= |es|
    ensures forall a :: a in r.applications ==>
      a.paymentId == paymentId && a.amountApplied > 0.0 && a.expenseId in Ids(es)
    decreases |es|
  {
    if |es| == 0 || remaining <= 0.0 then Allocation([], remaining)
    else
      var balance := AllocBalance(es[0]);
      if balance > 0.0 then
        var applied := Min(balance, remaining);
        var rest := Distribute(paymentId, es[1..], remaining - applied);
        Allocation([Application(paymentId, es[0].id, applied)] + rest.applications, rest.remaining)
      else
        Distribute(paymentId, es[1..], remaining)
  }

  /** An expense that no application names gets nothing. */
  lemma {:induction false} NotNamedGetsNothing(apps: seq<Application>, id: string)
    requires forall a :: a in apps ==> a.expenseId != id
    ensures AppliedTo(apps, id) == 0.0
    decreases |apps|
  {
    if |apps| > 0 {
      assert apps[0] in apps;
      assert forall a :: a in apps[1..] ==> a in apps;
      NotNamedGetsNothing(apps[1..], id);
    }
  }

  /** An id that occurs in `es` after the head is not the head's id. */
  lemma HeadNotInTail(es: seq<Expense>)
    requires |es| > 0 && DistinctIds(es)
    ensures es[0].id !in Ids(es[1..])
  {
  }

  /** The amount left to distribute after the head of the walk. */
  function NextRemaining(es: seq<Expense>, remaining: real): real
    requires |es| > 0
  {
    var balance := AllocBalance(es[0]);
    if balance > 0.0 then remaining - Min(balance, remaining) else remaining
  }

  /** One step of the walk: the head's application (if it owes anything)
      followed by the walk of the tail with what is left. */
  lemma Step(paymentId: string, es: seq<Expense>, remaining: real)
    requires |es| > 0 && remaining > 0.0
    ensures var r := Distribute(paymentId, es, remaining);
      var tail := Distribute(paymentId, es[1..], NextRemaining(es, remaining));
      var balance := AllocBalance(es[0]);
      && r.remaining == tail.remaining
      && (balance > 0.0 ==> r.applications == [Application(paymentId, es[0].id, Min(balance, remaining))] + tail.applications)
      && (balance <= 0.0 ==> r.applications == tail.applications)
  {
  }

  /** Per expense, the allocation gives between nothing and what it owes, and
      an expense owing nothing is never named by an application. */
  lemma {:induction false} AppliedWithinBalance(paymentId: string, es: seq<Expense>, remaining: real)
    requires DistinctIds(es)
    ensures var apps := Distribute(paymentId, es, remaining).applications;
      forall j :: 0 <= j < |es| ==>
        && 0.0 <= AppliedTo(apps, es[j].id) <= Positive(AllocBalance(es[j]))
        && (AllocBalance(es[j]) <= 0.0 ==> forall a :: a in apps ==> a.expenseId != es[j].id)
    decreases |es|
  {
    if |es| > 0 && remaining > 0.0 {
      var apps := Distribute(paymentId, es, remaining).applications;
      var tail := Distribute(paymentId, es[1..], NextRemaining(es, remaining)).applications;
      HeadApplications(paymentId, es, remaining);
      AppliedWithinBalance(paymentId, es[1..], NextRemaining(es, remaining));
      forall j | 0 < j < |es|
        ensures 0.0 <= AppliedTo(apps, es[j].id) <= Positive(AllocBalance(es[j]))
        ensures AllocBalance(es[j]) <= 0.0 ==> forall a :: a in apps ==> a.expenseId != es[j].id
      {
        assert es[j] == es[1..][j - 1];
        assert es[j].id != es[0].id;
      }
    }
  }

  /** What the head of the walk contributes: the head expense gets between
      nothing and what it owes, nothing at all when it owes nothing, and
      every other expense gets exactly what the walk of the tail gives it. */
  lemma HeadApplications(paymentId: string, es: seq<Expense>, remaining: real)
    requires |es| > 0 && remaining > 0.0 && DistinctIds(es)
    ensures var apps := Distribute(paymentId, es, remaining).applications;
      var tail := Distribute(paymentId, es[1..], NextRemaining(es, remaining)).applications;
      && 0.0 <= AppliedTo(apps, es[0].id) <= Positive(AllocBalance(es[0]))
      && (AllocBalance(es[0]) <= 0.0 ==> forall a :: a in apps ==> a.expenseId != es[0].id)
      && (forall x :: x != es[0].id ==> AppliedTo(apps, x) == AppliedTo(tail, x))
      && (forall a :: a in apps && a.expenseId != es[0].id ==> a in tail)
  {
    var apps := Distribute(paymentId, es, remaining).applications;
    var tail := Distribute(paymentId, es[1..], NextRemaining(es, remaining)).applications;
    Step(paymentId, es, remaining);
    HeadNotInTail(es);
    NotNamedGetsNothing(tail, es[0].id);
    if AllocBalance(es[0]) > 0.0 {
      assert apps[1..] == tail;
    }
  }

  /** Each expense is named by at most one application of a payment. */
  lemma {:induction false} OneApplicationPerExpense(paymentId: string, es: seq<Expense>, remaining: real)
    requires DistinctIds(es)
    ensures var apps := Distribute(paymentId, es, remaining).applications;
      forall i, j :: 0 <= i < j < |apps| ==> apps[i].expenseId != apps[j].expenseId
    decreases |es|
  {
    if |es| > 0 && remaining > 0.0 {
      var next := NextRemaining(es, remaining);
      var apps := Distribute(paymentId, es, remaining).applications;
      var tail := Distribute(paymentId, es[1..], next).applications;
      Step(paymentId, es, remaining);
      OneApplicationPerExpense(paymentId, es[1..], next);
      if AllocBalance(es[0]) > 0.0 {
        HeadNotInTail(es);
        assert apps[0].expenseId == es[0].id;
        forall i, j | 0 <= i < j < |apps|
          ensures apps[i].expenseId != apps[j].expenseId
        {
          assert apps[j] == tail[j - 1];
          assert apps[j] in tail;
          if i > 0 {
            assert apps[i] == tail[i - 1];
          }
        }
      }
    }
  }

  /** First in, first out: an expense receives money only once every
      expense before it in the walk has been paid in full. */
  lemma {:induction false} EarlierPaidFirst(paymentId: string, es: seq<Expense>, remaining: real)
    requires DistinctIds(es)
    ensures var apps := Distribute(paymentId, es, remaining).applications;
      forall i, j :: 0 <= i < j < |es| && AppliedTo(apps, es[j].id) > 0.0 ==>
        AppliedTo(apps, es[i].id) == Positive(AllocBalance(es[i]))
    decreases |es|
  {
    if |es| == 0 || remaining <= 0.0 {
    } else {
      var balance := AllocBalance(es[0]);
      var apps := Distribute(paymentId, es, remaining).applications;
      var applied := Min(balance, remaining);
      var nextRemaining := if balance > 0.0 then remaining - applied else remaining;
      var tail := Distribute(paymentId, es[1..], nextRemaining).applications;
      EarlierPaidFirst(paymentId, es[1..], nextRemaining);
      HeadNotInTail(es);
      NotNamedGetsNothing(tail, es[0].id);
      forall i, j | 0 <= i < j < |es| && AppliedTo(apps, es[j].id) > 0.0
        ensures AppliedTo(apps, es[i].id) == Positive(AllocBalance(es[i]))
      {
        assert es[j] == es[1..][j - 1];
        assert es[j].id != es[0].id;
        assert AppliedTo(tail, es[j].id) > 0.0;
        if i == 0 {
          if balance > 0.0 {
            assert tail != [];
            assert nextRemaining > 0.0;
          }
        } else {
          assert es[i] == es[1..][i - 1];
          assert es[i].id != es[0].id;
        }
      }
    }
  }

  /** When money is left over, every expense was paid in full. */
  lemma {:induction false} LeftoverMeansAllPaid(paymentId: string, es: seq<Expense>, remaining: real)
    requires DistinctIds(es)
    ensures var r := Distribute(paymentId, es, remaining);
      r.remaining > 0.0 ==> forall j :: 0 <= j < |es| ==>
        AppliedTo(r.applications, es[j].id) == Positive(AllocBalance(es[j]))
    decreases |es|
  {
    var r := Distribute(paymentId, es, remaining);
    if |es| > 0 && remaining > 0.0 && r.remaining > 0.0 {
      var next := NextRemaining(es, remaining);
      var tail := Distribute(paymentId, es[1..], next);
      Step(paymentId, es, remaining);
      LeftoverMeansAllPaid(paymentId, es[1..], next);
      HeadNotInTail(es);
      NotNamedGetsNothing(tail.applications, es[0].id);
      assert next > 0.0;
      assert AppliedTo(r.applications, es[0].id) == Positive(AllocBalance(es[0]));
      forall j | 0 < j < |es|
        ensures AppliedTo(r.applications, es[j].id) == Positive(AllocBalance(es[j]))
      {
        assert es[j] == es[1..][j - 1];
        assert AppliedTo(r.applications, es[j].id) == AppliedTo(tail.applications, es[j].id);
      }
    }
  }

  /** A payment no larger than what the client owes is applied in full;
      a larger one applies exactly what is owed. */
  lemma FullyAppliedWhenOwed(paymentId: string, es: seq<Expense>, remaining: real)
    requires remaining > 0.0
    ensures var r := Distribute(paymentId, es, remaining);
      && (Owed(es) >= remaining ==> r.remaining == 0.0 && Sum(r.applications) == remaining)
      && (Owed(es) < remaining ==> Sum(r.applications) == Owed(es) && r.remaining == remaining - Owed(es))
  {
    var r := Distribute(paymentId, es, remaining);
    if Owed(es) < remaining && r.remaining <= 0.0 {
      ConservedBelowOwed(paymentId, es, remaining);
    }
  }

  /** What the walk applies never exceeds what the walked expenses owe. */
  lemma {:induction false} ConservedBelowOwed(paymentId: string, es: seq<Expense>, remaining: real)
    ensures Sum(Distribute(paymentId, es, remaining).applications) <= Owed(es)
    decreases |es|
  {
    if |es| > 0 && remaining > 0.0 {
      var apps := Distribute(paymentId, es, remaining).applications;
      var tail := Distribute(paymentId, es[1..], NextRemaining(es, remaining)).applications;
      Step(paymentId, es, remaining);
      ConservedBelowOwed(paymentId, es[1..], NextRemaining(es, remaining));
      assert Owed(es) == Positive(AllocBalance(es[0])) + Owed(es[1..]);
      if AllocBalance(es[0]) > 0.0 {
        assert apps[1..] == tail;
        assert Sum(apps) == Min(AllocBalance(es[0]), remaining) + Sum(tail);
      }
    }
  }

  /** With the walk in date order, an expense dated strictly earlier is paid
      in full before a later one receives anything. */
  lemma OlderPaidFirst(paymentId: string, es: seq<Expense>, remaining: real)
    requires DistinctIds(es) && SortedByDate(es)
    ensures var apps := Distribute(paymentId, es, remaining).applications;
      forall i, j :: 0 <= i < |es| && 0 <= j < |es| && es[i].date < es[j].date && AppliedTo(apps, es[j].id) > 0.0 ==>
        AppliedTo(apps, es[i].id) == Positive(AllocBalance(es[i]))
  {
    EarlierPaidFirst(paymentId, es, remaining);
  }

  /** Two unpaid expenses owing 115 and 50, oldest first, and a payment of
      130: the first is paid in full and the second receives the last 15. */
  lemma WorkedSplit(paymentId: string, d1: Expense, d2: Expense)
    requires AllocBalance(d1) == 115.0 && AllocBalance(d2) == 50.0
    ensures Distribute(paymentId, [d1, d2], 130.0)
      == Allocation([Application(paymentId, d1.id, 115.0), Application(paymentId, d2.id, 15.0)], 0.0)
  {
    assert [d1, d2][1..] == [d2];
  }

  /** A payment of 200 against a single expense owing 115 applies 115 and
      leaves 85 unapplied. */
  lemma WorkedSurplus(paymentId: string, d: Expense)
    requires AllocBalance(d) == 115.0
    ensures Distribute(paymentId, [d], 200.0) == Allocation([Application(paymentId, d.id, 115.0)], 85.0)
  {
    assert [d][1..] == [];
  }
}
