/** The payment side of the store as an abstract in-memory state: expenses
    by id, payments by id, and the list of payment applications. Creating a
    payment records it and distributes it across the client's expenses;
    deleting one replays its applications backwards and removes them. */
module Storage {
  import opened Schema
  import opened Allocation

  datatype State = State(
    expenses: map<string, Expense>,
    payments: map<string, Payment>,
    applications: seq<Application>
  )

  /** Each expense is stored under its own id. */
  predicate WellKeyed(s: State) {
    forall k :: k in s.expenses ==> s.expenses[k].id == k
  }

  /** `order` lists exactly the stored expenses of `client`, each once, as
      stored, oldest first. This is what the store's date-ordered query
      returns; the order among equal dates is left open. */
  predicate ClientOrder(s: State, client: string, order: seq<Expense>) {
    && (forall i :: 0 <= i < |order| ==>
          order[i].id in s.expenses && s.expenses[order[i].id] == order[i] && order[i].client == client)
    && (forall k :: k in s.expenses && s.expenses[k].client == client ==> k in Ids(order))
    && DistinctIds(order)
    && SortedByDate(order)
  }

  /** Add `amount` to the amount received by expense `id`, if it exists. */
  function Adjust(m: map<string, Expense>, id: string, amount: real): map<string, Expense> {
    if id in m then m[id := m[id].(paymentReceived := m[id].paymentReceived + amount)] else m
  }

  /** Apply a list of applications in order, raising each named expense's
      amount received. */
  function Credit(m: map<string, Expense>, apps: seq<Application>): (m': map<string, Expense>)
    ensures m'.Keys == m.Keys
    ensures forall k :: k in m ==>
      m'[k] == m[k].(paymentReceived := m[k].paymentReceived + AppliedTo(apps, k))
    decreases |apps|
  {
    if |apps| == 0 then m
    else Credit(Adjust(m, apps[0].expenseId, apps[0].amountApplied), apps[1..])
  }

  /** Replay a list of applications in order, lowering each named expense's
      amount received; an application naming a missing expense is skipped. */
  function Debit(m: map<string, Expense>, apps: seq<Application>): (m': map<string, Expense>)
    ensures m'.Keys == m.Keys
    ensures forall k :: k in m ==>
      m'[k] == m[k].(paymentReceived := m[k].paymentReceived - AppliedTo(apps, k))
    decreases |apps|
  {
    if |apps| == 0 then m
    else Debit(Adjust(m, apps[0].expenseId, -apps[0].amountApplied), apps[1..])
  }

  /** Whether application `a` belongs to payment `id`. */
  predicate Belongs(a: Application, id: string) {
    a.paymentId == id
  }

  /** The applications of payment `id`, in stored order. */
  function OfPayment(apps: seq<Application>, id: string): (r: seq<Application>)
    ensures forall a :: a in r <==> a in apps && Belongs(a, id)
    ensures |r| <= |apps|
  {
    if |apps| == 0 then []
    else (if apps[0].paymentId == id then [apps[0]] else []) + OfPayment(apps[1..], id)
  }

  /** The applications of every payment but `id`, in stored order. */
  function NotOfPayment(apps: seq<Application>, id: string): (r: seq<Application>)
    ensures forall a :: a in r <==> a in apps && !Belongs(a, id)
    ensures |r| <= |apps|
  {
    if |apps| == 0 then []
    else (if apps[0].paymentId != id then [apps[0]] else []) + NotOfPayment(apps[1..], id)
  }

  /** Record payment `p` (its fresh id chosen by the store) and distribute
      its amount over `order`, the client's expenses oldest first. The
      payment is recorded whether or not anything is applied. */
  function CreatePayment(s: State, p: Payment, order: seq<Expense>): (r: State)
    requires WellKeyed(s) && ClientOrder(s, p.client, order) && p.id !in s.payments
    ensures r.payments == s.payments[p.id := p]
    ensures |r.applications| >= |s.applications| && r.applications[..|s.applications|] == s.applications
    ensures forall a :: a in r.applications[|s.applications|..] ==>
      a.paymentId == p.id && a.amountApplied > 0.0 && a.expenseId in s.expenses
      && s.expenses[a.expenseId].client == p.client
    ensures r.expenses.Keys == s.expenses.Keys
    ensures forall k :: k in s.expenses ==>
      r.expenses[k] == s.expenses[k].(paymentReceived :=
        s.expenses[k].paymentReceived + AppliedTo(r.applications[|s.applications|..], k))
    ensures forall k :: k in s.expenses && s.expenses[k].client != p.client ==> r.expenses[k] == s.expenses[k]
    ensures WellKeyed(r)
  {
    var alloc := Distribute(p.id, order, p.amount);
    var r := State(Credit(s.expenses, alloc.applications), s.payments[p.id := p], s.applications + alloc.applications);
    assert r.applications[|s.applications|..] == alloc.applications;
    forall k | k in s.expenses && s.expenses[k].client != p.client
      ensures AppliedTo(alloc.applications, k) == 0.0
    {
      assert k !in Ids(order);
      NotNamedGetsNothing(alloc.applications, k);
    }
    r
  }

  /** The outcome of a deletion: the new state, and whether a payment row
      was removed. */
  datatype Deletion = Deletion(state: State, deleted: bool)

  /** Delete payment `id`: reverse each of its applications against the
      expense it names (when that expense still exists), remove the
      applications, then remove the payment. The applications are reversed
      and removed even when no payment has that id. */
  function DeletePayment(s: State, id: string): (r: Deletion)
    ensures r.deleted <==> id in s.payments
    ensures r.state.payments == s.payments - {id}
    ensures r.state.applications == NotOfPayment(s.applications, id)
    ensures r.state.expenses.Keys == s.expenses.Keys
    ensures forall k :: k in s.expenses ==>
      r.state.expenses[k] == s.expenses[k].(paymentReceived :=
        s.expenses[k].paymentReceived - AppliedTo(OfPayment(s.applications, id), k))
  {
    var mine := OfPayment(s.applications, id);
    Deletion(State(Debit(s.expenses, mine), s.payments - {id}, NotOfPayment(s.applications, id)), id in s.payments)
  }

  /** Applied amounts add up across a concatenation. */
  lemma {:induction false} AppliedToAppend(xs: seq<Application>, ys: seq<Application>, k: string)
    ensures AppliedTo(xs + ys, k) == AppliedTo(xs, k) + AppliedTo(ys, k)
    decreases |xs|
  {
    if |xs| > 0 {
      assert (xs + ys)[0] == xs[0] && (xs + ys)[1..] == xs[1..] + ys;
      AppliedToAppend(xs[1..], ys, k);
    } else {
      assert xs + ys == ys;
    }
  }

  /** Splitting a list by payment splits each expense's applied amount. */
  lemma {:induction false} AppliedToSplit(apps: seq<Application>, id: string, k: string)
    ensures AppliedTo(apps, k) == AppliedTo(OfPayment(apps, id), k) + AppliedTo(NotOfPayment(apps, id), k)
    decreases |apps|
  {
    if |apps| > 0 {
      AppliedToSplit(apps[1..], id, k);
      var head := [apps[0]];
      if apps[0].paymentId == id {
        AppliedToAppend(head, OfPayment(apps[1..], id), k);
        assert NotOfPayment(apps, id) == NotOfPayment(apps[1..], id);
      } else {
        AppliedToAppend(head, NotOfPayment(apps[1..], id), k);
        assert OfPayment(apps, id) == OfPayment(apps[1..], id);
      }
    }
  }

  /** Amounts add up across a concatenation. */
  lemma {:induction false} SumAppend(xs: seq<Application>, ys: seq<Application>)
    ensures Sum(xs + ys) == Sum(xs) + Sum(ys)
    decreases |xs|
  {
    if |xs| > 0 {
      assert (xs + ys)[0] == xs[0] && (xs + ys)[1..] == xs[1..] + ys;
      SumAppend(xs[1..], ys);
    } else {
      assert xs + ys == ys;
    }
  }

  /** Filtering keeps a list whose members all belong to the payment. */
  lemma {:induction false} OfPaymentAll(apps: seq<Application>, id: string)
    requires forall a :: a in apps ==> a.paymentId == id
    ensures OfPayment(apps, id) == apps && NotOfPayment(apps, id) == []
    decreases |apps|
  {
    if |apps| > 0 {
      var head, tail := apps[0], apps[1..];
      assert head in apps;
      assert forall a :: a in tail ==> a in apps;
      OfPaymentAll(tail, id);
      assert OfPayment(apps, id) == [head] + OfPayment(tail, id);
      assert NotOfPayment(apps, id) == NotOfPayment(tail, id);
      assert apps == [head] + tail;
    }
  }

  /** Filtering drops a list none of whose members belongs to the payment. */
  lemma {:induction false} OfPaymentNone(apps: seq<Application>, id: string)
    requires forall a :: a in apps ==> a.paymentId != id
    ensures OfPayment(apps, id) == [] && NotOfPayment(apps, id) == apps
    decreases |apps|
  {
    if |apps| > 0 {
      var head, tail := apps[0], apps[1..];
      assert head in apps;
      assert forall a :: a in tail ==> a in apps;
      OfPaymentNone(tail, id);
      assert OfPayment(apps, id) == OfPayment(tail, id);
      assert NotOfPayment(apps, id) == [head] + NotOfPayment(tail, id);
      assert apps == [head] + tail;
    }
  }

  /** A list of applications splits into those of payment `id` and the
      rest, each application kept as often as it occurs. */
  lemma {:induction false} PartitionByPayment(apps: seq<Application>, id: string)
    ensures multiset(OfPayment(apps, id)) + multiset(NotOfPayment(apps, id)) == multiset(apps)
  {
    if |apps| > 0 {
      var head, tail := apps[0], apps[1..];
      PartitionByPayment(tail, id);
      assert multiset(apps) == multiset{head} + multiset(tail) by {
        assert apps == [head] + tail;
      }
      if head.paymentId == id {
        assert OfPayment(apps, id) == [head] + OfPayment(tail, id);
        assert NotOfPayment(apps, id) == NotOfPayment(tail, id);
      } else {
        assert OfPayment(apps, id) == OfPayment(tail, id);
        assert NotOfPayment(apps, id) == [head] + NotOfPayment(tail, id);
      }
    }
  }

  /** Filtering distributes over concatenation. */
  lemma FilterAppend(xs: seq<Application>, ys: seq<Application>, id: string)
    ensures OfPayment(xs + ys, id) == OfPayment(xs, id) + OfPayment(ys, id)
    ensures NotOfPayment(xs + ys, id) == NotOfPayment(xs, id) + NotOfPayment(ys, id)
  {
    OfPaymentAppend(xs, ys, id);
    NotOfPaymentAppend(xs, ys, id);
  }

  lemma {:induction false} OfPaymentAppend(xs: seq<Application>, ys: seq<Application>, id: string)
    ensures OfPayment(xs + ys, id) == OfPayment(xs, id) + OfPayment(ys, id)
    decreases |xs|
  {
    var zs := xs + ys;
    if |xs| == 0 {
      assert zs == ys;
    } else {
      assert zs[0] == xs[0] && zs[1..] == xs[1..] + ys;
      OfPaymentAppend(xs[1..], ys, id);
      if xs[0].paymentId == id {
        assert OfPayment(zs, id) == [xs[0]] + OfPayment(zs[1..], id);
        assert OfPayment(xs, id) == [xs[0]] + OfPayment(xs[1..], id);
      } else {
        assert OfPayment(zs, id) == OfPayment(zs[1..], id);
        assert OfPayment(xs, id) == OfPayment(xs[1..], id);
      }
    }
  }

  lemma {:induction false} NotOfPaymentAppend(xs: seq<Application>, ys: seq<Application>, id: string)
    ensures NotOfPayment(xs + ys, id) == NotOfPayment(xs, id) + NotOfPayment(ys, id)
    decreases |xs|
  {
    if |xs| == 0 {
      assert xs + ys == ys;
    } else {
      calc {
        NotOfPayment(xs + ys, id);
        == { NotOfPaymentConsAppend(xs, ys, id); }
        Kept(xs[0], id) + NotOfPayment(xs[1..] + ys, id);
        == { NotOfPaymentAppend(xs[1..], ys, id); }
        Kept(xs[0], id) + (NotOfPayment(xs[1..], id) + NotOfPayment(ys, id));
        == { NotOfPaymentCons(xs, id); }
        NotOfPayment(xs, id) + NotOfPayment(ys, id);
      }
    }
  }

  /** The head of the list survives the removal of payment `id` iff it
      belongs to another payment. */
  function Kept(a: Application, id: string): (r: seq<Application>)
    ensures r == [a] <==> a.paymentId != id
    ensures r == [] <==> a.paymentId == id
  {
    if a.paymentId != id then [a] else []
  }

  /** Removing payment `id` handles the head, then the rest. */
  /** The head of a concatenation is filtered first, then the rest of it. */
  lemma NotOfPaymentConsAppend(xs: seq<Application>, ys: seq<Application>, id: string)
    requires |xs| > 0
    ensures NotOfPayment(xs + ys, id) == Kept(xs[0], id) + NotOfPayment(xs[1..] + ys, id)
  {
    var zs := xs + ys;
    assert zs[0] == xs[0] && zs[1..] == xs[1..] + ys;
    NotOfPaymentCons(zs, id);
  }

  lemma NotOfPaymentCons(apps: seq<Application>, id: string)
    requires |apps| > 0
    ensures NotOfPayment(apps, id) == Kept(apps[0], id) + NotOfPayment(apps[1..], id)
  {
  }

  /** Replaying applications backwards undoes applying them. */
  lemma CreditThenDebit(m: map<string, Expense>, apps: seq<Application>)
    ensures Debit(Credit(m, apps), apps) == m
  {
    var d := Debit(Credit(m, apps), apps);
    forall k | k in m
      ensures d[k] == m[k]
    {
    }
  }

  /** Creating a payment records it, appends the allocator's applications
      and credits them to the expenses. */
  lemma CreateShape(s: State, p: Payment, order: seq<Expense>)
    requires WellKeyed(s) && ClientOrder(s, p.client, order) && p.id !in s.payments
    ensures var added := Distribute(p.id, order, p.amount).applications;
      CreatePayment(s, p, order) == State(Credit(s.expenses, added), s.payments[p.id := p], s.applications + added)
  {
  }

  /** Deleting a payment whose applications were all appended after the
      existing ones and credited to the expenses restores the prior state. */
  lemma UndoAppended(s: State, p: Payment, added: seq<Application>)
    requires p.id !in s.payments
    requires forall a :: a in s.applications ==> a.paymentId != p.id
    requires forall a :: a in added ==> a.paymentId == p.id
    ensures DeletePayment(State(Credit(s.expenses, added), s.payments[p.id := p], s.applications + added), p.id)
      == Deletion(s, true)
  {
    var c := State(Credit(s.expenses, added), s.payments[p.id := p], s.applications + added);
    FilterAppend(s.applications, added, p.id);
    OfPaymentNone(s.applications, p.id);
    OfPaymentAll(added, p.id);
    assert OfPayment(c.applications, p.id) == added;
    assert NotOfPayment(c.applications, p.id) == s.applications;
    CreditThenDebit(s.expenses, added);
    assert c.payments - {p.id} == s.payments;
  }

  /** Deleting a payment right after creating it restores the state it was
      created in, and reports that a payment row was removed. */
  lemma CreateThenDelete(s: State, p: Payment, order: seq<Expense>)
    requires WellKeyed(s) && ClientOrder(s, p.client, order) && p.id !in s.payments
    requires forall a :: a in s.applications ==> a.paymentId != p.id
    ensures DeletePayment(CreatePayment(s, p, order), p.id) == Deletion(s, true)
  {
    CreateShape(s, p, order);
    UndoAppended(s, p, Distribute(p.id, order, p.amount).applications);
  }

  /** Every expense's amount received is the sum of the applications naming
      it, and every application belongs to a recorded payment whose amount it
      does not, together with that payment's other applications, exceed. */
  predicate Ledger(s: State) {
    && (forall k :: k in s.expenses ==> s.expenses[k].paymentReceived == AppliedTo(s.applications, k))
    && (forall a :: a in s.applications ==> a.paymentId in s.payments)
    && (forall id :: id in s.payments ==> Sum(OfPayment(s.applications, id)) <= Positive(s.payments[id].amount))
  }

  /** Recording a new payment together with applications of its own that
      do not exceed its amount keeps the ledger balanced. */
  lemma LedgerAppend(s: State, p: Payment, added: seq<Application>)
    requires Ledger(s) && p.id !in s.payments
    requires forall a :: a in added ==> a.paymentId == p.id
    requires Sum(added) <= Positive(p.amount)
    ensures Ledger(State(Credit(s.expenses, added), s.payments[p.id := p], s.applications + added))
  {
    var c := State(Credit(s.expenses, added), s.payments[p.id := p], s.applications + added);
    forall k | k in s.expenses
      ensures c.expenses[k].paymentReceived == AppliedTo(c.applications, k)
    {
      AppliedToAppend(s.applications, added, k);
    }
    forall id | id in c.payments
      ensures Sum(OfPayment(c.applications, id)) <= Positive(c.payments[id].amount)
    {
      FilterAppend(s.applications, added, id);
      if id == p.id {
        OfPaymentNone(s.applications, id);
        OfPaymentAll(added, id);
        assert [] + added == added;
        assert OfPayment(c.applications, id) == added;
      } else {
        OfPaymentNone(added, id);
        assert OfPayment(s.applications, id) + [] == OfPayment(s.applications, id);
        assert OfPayment(c.applications, id) == OfPayment(s.applications, id);
      }
    }
  }

  /** Creating a payment keeps the ledger balanced. */
  lemma CreateKeepsLedger(s: State, p: Payment, order: seq<Expense>)
    requires WellKeyed(s) && ClientOrder(s, p.client, order) && p.id !in s.payments
    requires Ledger(s)
    ensures Ledger(CreatePayment(s, p, order))
  {
    CreateShape(s, p, order);
    LedgerAppend(s, p, Distribute(p.id, order, p.amount).applications);
  }

  /** Deleting a payment keeps the ledger balanced. */
  lemma DeleteKeepsLedger(s: State, id: string)
    requires Ledger(s)
    ensures Ledger(DeletePayment(s, id).state)
  {
    var d := DeletePayment(s, id).state;
    forall k | k in s.expenses
      ensures d.expenses[k].paymentReceived == AppliedTo(d.applications, k)
    {
      AppliedToSplit(s.applications, id, k);
    }
    forall other | other in d.payments
      ensures Sum(OfPayment(d.applications, other)) <= Positive(d.payments[other].amount)
    {
      assert OfPayment(d.applications, other) == OfPayment(s.applications, other) by {
        OfPaymentOfOthers(s.applications, id, other);
      }
    }
  }

  /** Removing one payment's applications leaves every other payment's
      applications as they were. */
  lemma {:induction false} OfPaymentOfOthers(apps: seq<Application>, id: string, other: string)
    requires other != id
    ensures OfPayment(NotOfPayment(apps, id), other) == OfPayment(apps, other)
    decreases |apps|
  {
    if |apps| > 0 {
      OfPaymentOfOthers(apps[1..], id, other);
      var head := if apps[0].paymentId != id then [apps[0]] else [];
      FilterAppend(head, NotOfPayment(apps[1..], id), other);
    }
  }

  /** Allocation never drives a balance that was positive below zero, and
      leaves an expense that owed nothing exactly as it was. */
  lemma CreateBalanceBounds(s: State, p: Payment, order: seq<Expense>)
    requires WellKeyed(s) && ClientOrder(s, p.client, order) && p.id !in s.payments
    ensures var c := CreatePayment(s, p, order);
      forall k :: k in s.expenses ==>
        && (AllocBalance(s.expenses[k]) <= 0.0 ==> c.expenses[k] == s.expenses[k])
        && (AllocBalance(s.expenses[k]) > 0.0 ==> 0.0 <= AllocBalance(c.expenses[k]) <= AllocBalance(s.expenses[k]))
  {
    var added := Distribute(p.id, order, p.amount).applications;
    CreateShape(s, p, order);
    AppliedWithinBalance(p.id, order, p.amount);
    forall k | k in s.expenses
      ensures 0.0 <= AppliedTo(added, k) <= Positive(AllocBalance(s.expenses[k]))
      ensures AllocBalance(s.expenses[k]) <= 0.0 ==> AppliedTo(added, k) == 0.0
    {
      OrderedOrUntouched(s, p.client, order, added, k);
    }
    CreditWithinBalance(s.expenses, added);
  }

  /** Crediting each expense no more than it owes keeps its balance between
      zero and what it was, and leaves an expense owing nothing untouched. */
  lemma CreditWithinBalance(m: map<string, Expense>, added: seq<Application>)
    requires forall k :: k in m ==>
      && 0.0 <= AppliedTo(added, k) <= Positive(AllocBalance(m[k]))
      && (AllocBalance(m[k]) <= 0.0 ==> AppliedTo(added, k) == 0.0)
    ensures var m' := Credit(m, added);
      forall k :: k in m ==>
        && (AllocBalance(m[k]) <= 0.0 ==> m'[k] == m[k])
        && (AllocBalance(m[k]) > 0.0 ==> 0.0 <= AllocBalance(m'[k]) <= AllocBalance(m[k]))
  {
    var m' := Credit(m, added);
    forall k | k in m
      ensures AllocBalance(m[k]) <= 0.0 ==> m'[k] == m[k]
      ensures AllocBalance(m[k]) > 0.0 ==> 0.0 <= AllocBalance(m'[k]) <= AllocBalance(m[k])
    {
      var e, x := m[k], AppliedTo(added, k);
      assert m'[k] == e.(paymentReceived := e.paymentReceived + x);
      ReceiveWithinBalance(e, x);
    }
  }

  /** Receiving an amount lowers the allocator's balance by that amount. */
  lemma ReceiveWithinBalance(e: Expense, x: real)
    requires 0.0 <= x <= Positive(AllocBalance(e))
    ensures AllocBalance(e.(paymentReceived := e.paymentReceived + x)) == AllocBalance(e) - x
    ensures AllocBalance(e) > 0.0 ==> 0.0 <= AllocBalance(e.(paymentReceived := e.paymentReceived + x)) <= AllocBalance(e)
    ensures x == 0.0 ==> e.(paymentReceived := e.paymentReceived + x) == e
  {
  }

  /** An expense either is in the walk, and then the allocation bounds apply
      to it, or is not, and then no application names it. */
  lemma OrderedOrUntouched(s: State, client: string, order: seq<Expense>, added: seq<Application>, k: string)
    requires ClientOrder(s, client, order) && k in s.expenses
    requires forall a :: a in added ==> a.expenseId in Ids(order)
    requires forall j :: 0 <= j < |order| ==>
        && 0.0 <= AppliedTo(added, order[j].id) <= Positive(AllocBalance(order[j]))
        && (AllocBalance(order[j]) <= 0.0 ==> forall a :: a in added ==> a.expenseId != order[j].id)
    ensures 0.0 <= AppliedTo(added, k) <= Positive(AllocBalance(s.expenses[k]))
    ensures AllocBalance(s.expenses[k]) <= 0.0 ==> AppliedTo(added, k) == 0.0
  {
    if k in Ids(order) {
      var j :| 0 <= j < |order| && order[j].id == k;
      assert s.expenses[k] == order[j];
      if AllocBalance(order[j]) <= 0.0 {
        NotNamedGetsNothing(added, k);
      }
    } else {
      NotNamedGetsNothing(added, k);
    }
  }

  /** What the payment applies in all is at most its amount, and exactly its
      amount when the client owes at least that much. */
  lemma CreateConserves(s: State, p: Payment, order: seq<Expense>)
    requires WellKeyed(s) && ClientOrder(s, p.client, order) && p.id !in s.payments
    requires p.amount > 0.0
    ensures var applied := Sum(CreatePayment(s, p, order).applications[|s.applications|..]);
      && 0.0 <= applied <= p.amount
      && (Owed(order) >= p.amount ==> applied == p.amount)
      && (Owed(order) < p.amount ==> applied == Owed(order))
  {
    var c := CreatePayment(s, p, order);
    assert c.applications[|s.applications|..] == Distribute(p.id, order, p.amount).applications;
    FullyAppliedWhenOwed(p.id, order, p.amount);
  }
}
