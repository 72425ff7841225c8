/** Records of the bookkeeping store and the constraints the expense form
    validator puts on a new expense. */
module Schema {
  import opened Basics

  /** One billable order line. Timestamps are modelled as integers (their
      order is all the model needs). `tvaPercentage`, `markupAppliesTo` and
      `invoiceNumber` are read by the valuation and invoicing code but have no
      column of their own; they are optional here. */
  datatype Expense = Expense(
    id: string,
    date: int,
    client: string,
    productDescription: string,
    quantity: string,
    productCost: real,
    tvaPercentage: Option<real>,
    markupPercentage: real,
    markupAppliesTo: Option<string>,
    shippingCost: real,
    shippingCarrier: string,
    status: string,
    paymentReceived: real,
    notes: Option<string>,
    invoiceNumber: Option<string>
  )

  /** One money-received event from one client. */
  datatype Payment = Payment(id: string, date: int, client: string, amount: real, notes: Option<string>)

  /** "This payment contributed this amount to that expense." */
  datatype Application = Application(paymentId: string, expenseId: string, amountApplied: real)

  /** The fields a caller submits to create or update an expense. Only
      `paymentReceived` may be omitted; it then defaults to 0. A caller may
      also send a TVA rate and a markup basis, keys the schema does not
      know. */
  datatype ExpenseInput = ExpenseInput(
    date: int,
    client: string,
    productDescription: string,
    quantity: string,
    productCost: real,
    tvaPercentage: Option<real>,
    markupPercentage: real,
    markupAppliesTo: Option<string>,
    shippingCost: real,
    shippingCarrier: string,
    status: string,
    paymentReceived: Option<real>,
    notes: Option<string>
  )

  /** One rule of the insert schema that an input can break. */
  datatype Issue =
    | ClientMissing
    | DescriptionMissing
    | QuantityMissing
    | ProductCostTooSmall
    | MarkupNegative
    | MarkupAbove100
    | ShippingNegative
    | CarrierMissing
    | StatusMissing
    | PaymentNegative

  /** Smallest accepted product cost: one cent. */
  const MinProductCost: real := 0.01

  /** The validator's stock message for a number below its minimum of 0. */
  const AtLeastZero: string := "Number must be greater than or equal to 0"

  /** The rules checked by a bare minimum of 0, which share the validator's
      stock message. */
  predicate AtZeroMinimum(i: Issue) {
    i.MarkupNegative? || i.ShippingNegative? || i.PaymentNegative?
  }

  /** The message the validator attaches to an issue. */
  function Message(i: Issue): (m: string)
    ensures |m| > 0
    ensures AtZeroMinimum(i) ==> m == AtLeastZero
  {
    match i
    case ClientMissing => "Please select client"
    case DescriptionMissing => "Product description is required"
    case QuantityMissing => "Quantity is required"
    case ProductCostTooSmall => "Product cost must be greater than 0"
    case MarkupNegative => AtLeastZero
    case MarkupAbove100 => "Number must be less than or equal to 100"
    case ShippingNegative => AtLeastZero
    case CarrierMissing => "Shipping carrier is required"
    case StatusMissing => "Status is required"
    case PaymentNegative => AtLeastZero
  }

  /** Two issues carry the same message exactly when they are the same rule
      or both are minimums of 0: every other rule has a message of its own. */
  lemma MessageIdentifiesRule(i: Issue, j: Issue)
    ensures Message(i) == Message(j) <==> i == j || (AtZeroMinimum(i) && AtZeroMinimum(j))
  {
    if Message(i) == Message(j) {
      MessageShape(i);
      MessageShape(j);
    }
  }

  /** The stock messages differ in length, except the two of 20 characters,
      which differ in their first letter. */
  lemma MessageShape(i: Issue)
    ensures |Message(i)| == 20 ==> (i.ClientMissing? <==> Message(i)[0] == 'P')
    ensures |Message(i)| == 20 <==> i.ClientMissing? || i.QuantityMissing?
    ensures |Message(i)| == 31 <==> i.DescriptionMissing?
    ensures |Message(i)| == 35 <==> i.ProductCostTooSmall?
    ensures |Message(i)| == 41 <==> AtZeroMinimum(i)
    ensures |Message(i)| == 40 <==> i.MarkupAbove100?
    ensures |Message(i)| == 28 <==> i.CarrierMissing?
    ensures |Message(i)| == 18 <==> i.StatusMissing?
  {
  }

  /** Whether `input` breaks rule `i`. */
  predicate Violates(input: ExpenseInput, i: Issue) {
    match i
    case ClientMissing => |input.client| < 1
    case DescriptionMissing => |input.productDescription| < 1
    case QuantityMissing => |input.quantity| < 1
    case ProductCostTooSmall => input.productCost < MinProductCost
    case MarkupNegative => input.markupPercentage < 0.0
    case MarkupAbove100 => input.markupPercentage > 100.0
    case ShippingNegative => input.shippingCost < 0.0
    case CarrierMissing => |input.shippingCarrier| < 1
    case StatusMissing => |input.status| < 1
    case PaymentNegative => input.paymentReceived.Some? && input.paymentReceived.value < 0.0
  }

  /** The insert schema's constraints, stated field by field. */
  predicate ValidInput(input: ExpenseInput) {
    && |input.client| >= 1
    && |input.productDescription| >= 1
    && |input.quantity| >= 1
    && input.productCost >= MinProductCost
    && 0.0 <= input.markupPercentage <= 100.0
    && input.shippingCost >= 0.0
    && |input.shippingCarrier| >= 1
    && |input.status| >= 1
    && (input.paymentReceived.Some? ==> input.paymentReceived.value >= 0.0)
  }

  /** A stored expense that satisfies the same constraints. */
  predicate ValidExpense(e: Expense) {
    && |e.client| >= 1
    && |e.productDescription| >= 1
    && |e.quantity| >= 1
    && e.productCost >= MinProductCost
    && 0.0 <= e.markupPercentage <= 100.0
    && e.shippingCost >= 0.0
    && |e.shippingCarrier| >= 1
    && |e.status| >= 1
    && e.paymentReceived >= 0.0
  }

  /** The rules in the schema's field order. */
  const AllIssues: seq<Issue> :=
    [ClientMissing, DescriptionMissing, QuantityMissing, ProductCostTooSmall, MarkupNegative,
     MarkupAbove100, ShippingNegative, CarrierMissing, StatusMissing, PaymentNegative]

  lemma EveryIssueListed()
    ensures forall i: Issue :: i in AllIssues
  {
    forall i: Issue ensures i in AllIssues {
      match i
      case ClientMissing => assert AllIssues[0] == i;
      case DescriptionMissing => assert AllIssues[1] == i;
      case QuantityMissing => assert AllIssues[2] == i;
      case ProductCostTooSmall => assert AllIssues[3] == i;
      case MarkupNegative => assert AllIssues[4] == i;
      case MarkupAbove100 => assert AllIssues[5] == i;
      case ShippingNegative => assert AllIssues[6] == i;
      case CarrierMissing => assert AllIssues[7] == i;
      case StatusMissing => assert AllIssues[8] == i;
      case PaymentNegative => assert AllIssues[9] == i;
    }
  }

  /** An input is valid exactly when it breaks none of the rules. */
  lemma ValidIffNoViolation(input: ExpenseInput)
    ensures ValidInput(input) <==> forall i: Issue :: !Violates(input, i)
  {
    if !ValidInput(input) {
      var broken :=
        if |input.client| < 1 then ClientMissing
        else if |input.productDescription| < 1 then DescriptionMissing
        else if |input.quantity| < 1 then QuantityMissing
        else if input.productCost < MinProductCost then ProductCostTooSmall
        else if input.markupPercentage < 0.0 then MarkupNegative
        else if input.markupPercentage > 100.0 then MarkupAbove100
        else if input.shippingCost < 0.0 then ShippingNegative
        else if |input.shippingCarrier| < 1 then CarrierMissing
        else if |input.status| < 1 then StatusMissing
        else PaymentNegative;
      assert Violates(input, broken);
    }
  }

  /** Every rule the input breaks, in the schema's field order. */
  function Issues(input: ExpenseInput): (issues: seq<Issue>)
    ensures forall i :: i in issues <==> Violates(input, i)
    ensures |issues| == 0 <==> ValidInput(input)
  {
    EveryIssueListed();
    ValidIffNoViolation(input);
    var issues := Filter(AllIssues, input);
    assert |issues| > 0 ==> issues[0] in issues;
    issues
  }

  /** The members of `all` that `input` violates, in order. */
  function Filter(all: seq<Issue>, input: ExpenseInput): (r: seq<Issue>)
    ensures forall i :: i in r <==> i in all && Violates(input, i)
  {
    if |all| == 0 then []
    else (if Violates(input, all[0]) then [all[0]] else []) + Filter(all[1..], input)
  }

  /** Parse a submitted expense: either the issues it raises, or the record
      to store under `id`, with an omitted `paymentReceived` read as 0. The
      expenses table has no column for a TVA rate or a markup basis, so the
      parse strips both keys from the input like any other unknown key. */
  function ValidateExpense(id: string, input: ExpenseInput): (r: Result<Expense, seq<Issue>>)
    ensures r.Success? <==> ValidInput(input)
    ensures r.Failure? ==> |r.error| > 0 && forall i :: i in r.error <==> Violates(input, i)
    ensures r.Success? ==> ValidExpense(r.value) && r.value.id == id
    ensures r.Success? ==> r.value.paymentReceived == (if input.paymentReceived.None? then 0.0 else input.paymentReceived.value)
    ensures r.Success? ==>
      && r.value.client == input.client && r.value.date == input.date
      && r.value.productCost == input.productCost && r.value.markupPercentage == input.markupPercentage
      && r.value.shippingCost == input.shippingCost
      && r.value.productDescription == input.productDescription && r.value.quantity == input.quantity
      && r.value.shippingCarrier == input.shippingCarrier && r.value.status == input.status
      && r.value.notes == input.notes
    ensures r.Success? ==>
      r.value.tvaPercentage.None? && r.value.markupAppliesTo.None? && r.value.invoiceNumber.None?
  {
    var issues := Issues(input);
    if |issues| > 0 then Failure(issues)
    else Success(Expense(
      id, input.date, input.client, input.productDescription, input.quantity,
      input.productCost, None, input.markupPercentage, None,
      input.shippingCost, input.shippingCarrier, input.status,
      input.paymentReceived.GetOr(0.0), input.notes, None))
  }
}
