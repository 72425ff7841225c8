# Bookkeeping core of a reselling business: payments, valuation, invoices

This project models, in Dafny, the arithmetic and bookkeeping core of a small
web application that records purchases made on behalf of client companies
(*expenses*), the payments those clients send, and the French invoices issued to
them.

## The modelled core

- **Expense valuation** (`Calculations`) models `calculateExpense`. An entered
  price is read as HT (tax-exclusive) when the markup basis is exactly `"HT"`,
  and as TTC (tax-inclusive) otherwise. TVA is added at the expense's rate,
  which defaults to 5.5 %. The markup is then applied, and shipping is added.
  The result is a breakdown: HT, TVA, TTC, markup, marked-up price, total and
  balance.
- **FIFO payment allocation** (`Allocation`) models `autoDistributePayment`.
  A payment walks the client's expenses oldest first. Each expense that still
  owes something receives `min(balance, remaining)`. The walk stops when
  nothing remains. The allocator computes its own balance:
  `productCost × (1 + markup/100) + shipping − paymentReceived`. It does not
  read the TVA rate or the markup basis. On the TTC basis this balance equals
  the valuation's balance (`AllocBalance`). On the HT basis it falls
  short by the TVA on the marked-up price (`AllocBalanceOnHtBasis`).
- **Payment storage** (`Storage`) models `createPayment` and `deletePayment`
  over an in-memory state. The state holds expenses by id, payments by id, and
  the list of payment applications. Creating a payment records it, then
  distributes it. Deleting a payment reverses each of its applications
  against the expense it names, then removes the applications and the payment.
- **Invoice numbers** (`InvoiceNumbers`) models `generateInvoiceNumber` and
  `parseInvoiceNumber`. Both rest on a model of decimal `parseInt`: skip
  leading ECMAScript white space, take an optional sign, then the longest run
  of digits. An empty run is NaN. `String(n)` is modelled for integers.
- **Invoice figures** (`Invoice`) models the computational part of
  `generateFrenchInvoice`:
  - the unknown-client error;
  - the TVA summary, with one group per rate in order of first appearance;
  - the totals;
  - the item table rows;
  - the payment-status line.
- **Expense input validation** (`Schema`) models the constraints of
  `insertExpenseSchema`, its messages, and the record it produces. The
  expenses table has no column for a TVA rate or a markup basis, so the
  parse strips both keys. A freshly validated record is therefore valued at
  5.5 % on the TTC basis (`AcceptedValuedAtDefaults`). Its invoice still has
  an amount due, rows and a status (`ValidExpensesInvoice`), but no TVA
  summary, because the summary groups by the record's own rate.

Amounts are exact `real`s. Dates are integers, because only their order
matters.

The store's query orders a client's expenses by `date` alone
(server/storage.ts:143). It has no secondary key, so the order among
expenses with equal dates is not fixed, although a deterministic order might
be expected. The model follows the code: it takes the client's expenses as a
sequence sorted by date (`Storage.ClientOrder`), in any order among equal
dates. Every allocation property holds for any such order.

## Model

| member | source | states |
|---|---|---|
| Schema.ValidateExpense | shared/schema.ts:22-37 | an input is accepted exactly when it satisfies every field constraint; a rejected input reports a non-empty list of exactly the broken rules; an accepted one becomes a valid expense under the given id carrying the submitted date, client, description, quantity, amounts, carrier, status and notes unchanged, with an omitted amount received read as 0, and with no TVA rate, markup basis or invoice number, since the parse strips the two unknown keys |
| Schema.Message | shared/schema.ts:27-36 | every issue has a non-empty message, and each minimum of 0 carries the validator's stock "greater than or equal to 0" message |
| Schema.MessageIdentifiesRule | shared/schema.ts:27-36 | two issues share a message exactly when they are the same rule or both are minimums of 0 |
| Calculations.AcceptedValuedAtDefaults | shared/calculations.ts:16-18 | a record accepted by the validator is valued at the 5.5 % default rate on the TTC basis, whatever rate or basis the caller sent |
| Schema.Issues | shared/schema.ts:27-35 | the reported issues are exactly the rules the input breaks, and there are none exactly when the input is valid |
| Schema.ValidIffNoViolation | shared/schema.ts:27-35 | the field-by-field validity predicate holds exactly when no individual rule is broken |
| Calculations.CalculateExpense | shared/calculations.ts:14-62 | TTC is HT times (1 + rate/100); the marked-up price is TTC times (1 + markup/100); the entered price is HT on the HT basis and TTC otherwise; TVA and markup amounts are the differences; total adds shipping; balance subtracts the amount received |
| Calculations.TvaRate | shared/calculations.ts:16 | the rate used is the expense's own rate when it has one, a rate of 0 % included, and 5.5 when it has none (the corrected reading of the `||` fallback; see Findings) |
| Calculations.TvaRateAsWritten | shared/calculations.ts:16 | the `||` fallback as written never yields a rate of 0 %, and yields the expense's own rate whenever that is not 0 % |
| Calculations.ZeroRateOverridden | shared/calculations.ts:16 | the fallback as written and the corrected rate disagree exactly when the stored rate is 0 %, which the former values at 5.5 % |
| Calculations.Basis | shared/calculations.ts:18-28 | the HT basis is chosen exactly when the label is "HT"; any other label, or none, means TTC |
| Calculations.HtBranchProduct | shared/calculations.ts:30-36 | on the HT basis, marking up HT and then adding TVA on the marked-up amount equals marking up the TTC price |
| Calculations.AmountsNonNegative | shared/calculations.ts:28-47 | with non-negative price, rate and markup, the TVA and markup amounts are non-negative on both bases, and HT ≤ TTC ≤ marked-up price |
| Calculations.ValidExpenseAmounts | shared/schema.ts:22-37 | a record meeting the expense constraints, valued at a non-negative rate, has non-negative TVA and markup, a marked-up price at least its entered price of at least one cent, and a total at least its marked-up price |
| Calculations.BasisEquivalence | shared/calculations.ts:28-47 | an HT-basis expense is valued exactly like the TTC-basis expense whose price is its price plus TVA |
| Calculations.DependsOnlyOnAmounts | shared/calculations.ts:14-20 | the valuation depends only on price, rate, markup, basis, shipping and amount received |
| Calculations.AbsentTvaIsDefault | shared/calculations.ts:16 | an expense with no TVA rate is valued exactly as one at 5.5 % |
| Calculations.OtherLabelIsTtc | shared/calculations.ts:18-28 | any basis label other than exactly "HT", including none, gives the TTC valuation, where the entered price is the TTC |
| Calculations.WorkedExample | shared/calculations.ts:39-50 | 100 TTC at 20 % TVA with a 10 % markup and 5 shipping gives HT 250/3, TVA 50/3, marked-up 110, total and balance 115 |
| Allocation.Distribute | server/storage.ts:145-173 | applied plus remaining equals the payment; nothing is applied to a payment ≤ 0; what remains lies between 0 and the payment; a leftover means everything owed was applied; every application carries the payment's id, a positive amount and a walked expense's id; there are no more applications than expenses |
| Allocation.AllocBalance | server/storage.ts:150-152 | the allocator's balance of an expense, read from price, markup, shipping and amount received only; on the TTC basis it equals the valuation's balance |
| Allocation.AllocBalanceOnHtBasis | server/storage.ts:150-152 | on the HT basis, with positive price and rate and a non-negative markup, the allocator's balance is below the valuation's by exactly the TVA on the marked-up price |
| Allocation.AppliedWithinBalance | server/storage.ts:150-162 | each expense receives between 0 and what it owes; one owing nothing is named by no application |
| Allocation.OneApplicationPerExpense | server/storage.ts:147-162 | no two applications of one payment name the same expense |
| Allocation.EarlierPaidFirst | server/storage.ts:147-173 | an expense receives money only if every expense before it in the walk has been paid in full |
| Allocation.OlderPaidFirst | server/storage.ts:139-173 | with the walk sorted by date, an expense dated strictly earlier than one that receives money has been paid in full |
| Allocation.LeftoverMeansAllPaid | server/storage.ts:147-173 | when part of the payment is left over, every walked expense received exactly what it owed |
| Allocation.FullyAppliedWhenOwed | server/storage.ts:145-173 | a positive payment no larger than the total owed is applied in full; a larger one applies exactly the total owed and keeps the rest |
| Allocation.ConservedBelowOwed | server/storage.ts:150-171 | the walk never applies more than the walked expenses owe in total |
| Allocation.WorkedSplit | server/storage.ts:145-173 | balances 115 and 50 with a payment of 130 give applications of 115 and 15, with nothing left |
| Allocation.WorkedSurplus | server/storage.ts:145-173 | a balance of 115 with a payment of 200 gives one application of 115, with 85 left |
| Storage.Credit | server/storage.ts:164-169 | applying a list of applications raises each stored expense's amount received by the sum applied to it and changes nothing else |
| Storage.Debit | server/storage.ts:106-119 | reversing a list of applications lowers each stored expense's amount received by the sum applied to it; applications naming a missing expense are skipped |
| Storage.OfPayment | server/storage.ts:101-104 | selects exactly the applications of the given payment |
| Storage.NotOfPayment | server/storage.ts:122 | keeps exactly the applications of the other payments |
| Storage.PartitionByPayment | server/storage.ts:101-122 | the applications of a payment and those of the others together are the whole list, each kept as often as it occurs |
| Storage.CreatePayment | server/storage.ts:83-97 | the payment is recorded whatever is applied; existing applications are kept and new ones appended; each new one belongs to the payment, is positive and names an expense of the payment's client; each expense's amount received grows by what was applied to it; other clients' expenses are unchanged |
| Storage.DeletePayment | server/storage.ts:99-127 | the result is true exactly when the payment existed; the payment and all its applications are removed and the other applications kept; each expense's amount received drops by what the payment had applied to it |
| Storage.CreditThenDebit | server/storage.ts:106-119 | reversing a list of applications undoes applying it |
| Storage.UndoAppended | server/storage.ts:99-126 | deleting a payment whose applications were appended and credited after the others restores the prior state and reports a deletion |
| Storage.CreateThenDelete | server/storage.ts:83-126 | creating a payment and then deleting it restores the original state exactly, and reports true |
| Storage.CreateKeepsLedger | server/storage.ts:83-97 | if every amount received equals the sum of applications naming its expense, every application has a payment, and no payment is over-applied, creation keeps all three |
| Storage.DeleteKeepsLedger | server/storage.ts:99-127 | deletion keeps the same three ledger facts |
| Storage.CreateBalanceBounds | server/storage.ts:150-169 | after creation, an expense that owed nothing is unchanged; one that owed something owes between 0 and what it owed before |
| Storage.CreateConserves | server/storage.ts:145-173 | a positive payment applies between 0 and its amount in all; the full amount when the client owes at least that much; otherwise exactly what is owed |
| InvoiceNumbers.ParseInt | shared/invoiceUtils.ts:24 | the result is NaN exactly when no digit follows the leading white space and optional sign |
| InvoiceNumbers.ParseIntOfParts | shared/invoiceUtils.ts:24 | white space, an optional sign, a digit run and anything not starting with a digit parse to the signed value of the digit run |
| InvoiceNumbers.IntToString | shared/invoiceUtils.ts:35 | the decimal string of an integer is non-empty, digits after an optional leading minus, with no leading zero except for 0 itself |
| InvoiceNumbers.ParseIntToString | shared/invoiceUtils.ts:35 | parsing the decimal string of any integer gives that integer back |
| InvoiceNumbers.Numbers | shared/invoiceUtils.ts:23-25 | the kept numbers are exactly the parsed values; the list is empty exactly when nothing parsed |
| InvoiceNumbers.Max | shared/invoiceUtils.ts:28 | the maximum is a member of the list and at least every member |
| InvoiceNumbers.NextNumber | shared/invoiceUtils.ts:28-36 | the next sequence is 1 when nothing parsed; otherwise it is one more than a parsed number and above every parsed number, so it is the largest plus one, negative if that is; formatted is its decimal string |
| InvoiceNumbers.GenerateInvoiceNumber | shared/invoiceUtils.ts:15-37 | formatted is the decimal string of the sequence; the sequence itself is stated over the existing entries by FirstNumberIsOne, NextAboveExisting and NextFollowsExisting |
| InvoiceNumbers.FirstNumberIsOne | shared/invoiceUtils.ts:28-29 | with no parseable entry the next sequence is 1 |
| InvoiceNumbers.NextAboveExisting | shared/invoiceUtils.ts:23-29 | the next sequence is strictly above every parseable existing entry |
| InvoiceNumbers.NextFollowsExisting | shared/invoiceUtils.ts:28-29 | when some entry parses, the next sequence is one more than an existing entry's parsed value |
| InvoiceNumbers.UnparseableIgnored | shared/invoiceUtils.ts:23-25 | adding an entry that does not parse leaves the generated number unchanged |
| InvoiceNumbers.NegativeLargest | shared/invoiceUtils.ts:28-29 | after the single entry "-5" the next sequence is -4: a negative largest number is not replaced by 1 |
| InvoiceNumbers.ParseInvoiceNumber | shared/invoiceUtils.ts:42-53 | null exactly when parseInt gives NaN; otherwise the sequence is the parsed value and the formatted text is the input unchanged |
| InvoiceNumbers.GeneratedParses | shared/invoiceUtils.ts:31-52 | parsing a generated number's formatted text gives back that same number |
| Invoice.SplitOf | client/src/utils/invoiceGenerator.ts:81-83 | an expense's TTC contribution is its marked-up price, its HT is that price without TVA at the expense's rate, and HT + TVA = TTC |
| Invoice.SplitIsMarkedUpHt | client/src/utils/invoiceGenerator.ts:81-83 | the HT contribution equals the valuation's HT price marked up |
| Invoice.AddToGroup | client/src/utils/invoiceGenerator.ts:77-89 | adding to a rate's group updates only that group; an unseen rate opens a new group at the end |
| Invoice.GroupByTva | client/src/utils/invoiceGenerator.ts:72-90 | one group per distinct rate in order of first appearance; each group holds the sum over the expenses at its rate; all groups together hold the sum over all expenses |
| Invoice.GroupPerRate | client/src/utils/invoiceGenerator.ts:72-90 | a rate has a group exactly when some expense has that rate |
| Invoice.GroupsBalanced | client/src/utils/invoiceGenerator.ts:81-87 | in every group HT + TVA = TTC |
| Invoice.Summary | client/src/utils/invoiceGenerator.ts:72-90 | the TVA summary is shown exactly when every expense has its own rate, and then has one group per rate in order of first appearance, each holding that rate's sum |
| Invoice.TotalShipping | client/src/utils/invoiceGenerator.ts:92 | for any expenses, rated or not, the sum of the shipping costs is never negative when no cost is, and positive only when some expense ships at a positive cost |
| Invoice.TotalWithMarkup | client/src/utils/invoiceGenerator.ts:93 | for any expenses the valuation can value, those without a rate counting at 5.5 %, the sum of the marked-up prices is never negative when no price, markup or rate is |
| Invoice.AllAmountsTtc | client/src/utils/invoiceGenerator.ts:93-104 | the TTC summed over all groups equals the sum of the marked-up prices |
| Invoice.TotalsOf | client/src/utils/invoiceGenerator.ts:92-106 | for any valuable expenses, rated or not: the marked-up and shipping totals are the sums over the expenses, total TTC equals the marked-up total, and the grand total is the marked-up total plus shipping; HT and TVA are figures exactly when every expense has its own rate, and then they and TTC are the sums of every expense's split with HT + TVA = TTC |
| Invoice.ProductRowOf | client/src/utils/invoiceGenerator.ts:109-121 | a product row shows the expense's date, description, quantity, raw rate (none when it has none) and markup, and the valuation's HT, TVA and TTC; its HT + TVA is its TTC; its line total is the marked-up price, which for a rated expense is its TTC contribution to the summary |
| Invoice.ShippingRowOf | client/src/utils/invoiceGenerator.ts:126-139 | for any expense, rated or not, a shipping row shows the date, "Livraison - " with the carrier, and the shipping cost |
| Invoice.CarrierLabel | client/src/utils/invoiceGenerator.ts:131 | the shown carrier is never empty, and it is the carrier itself when that is non-empty |
| Invoice.ProductRows | client/src/utils/invoiceGenerator.ts:109-122 | one product row per expense, in order |
| Invoice.ShippingRows | client/src/utils/invoiceGenerator.ts:126-141 | for any expenses, rated or not: every expense with a positive shipping cost has its shipping row in the list; every row has a positive amount; there are none exactly when no expense has a positive shipping cost |
| Invoice.ShippingRowsFromExpenses | client/src/utils/invoiceGenerator.ts:126-141 | every shipping row is the shipping row of some expense with a positive shipping cost |
| Invoice.ShippingRowsAppend | client/src/utils/invoiceGenerator.ts:126-141 | the shipping rows of two stretches of expenses are the rows of the first followed by the rows of the second |
| Invoice.TableRows | client/src/utils/invoiceGenerator.ts:108-142 | the table is the product rows followed by the shipping rows when the shipping total is positive, and only the product rows otherwise |
| Invoice.ShippingGuardRedundant | client/src/utils/invoiceGenerator.ts:125-142 | with no negative shipping cost, the table is the product rows followed by one row per expense with positive shipping |
| Invoice.TableSumsToGrandTotal | client/src/utils/invoiceGenerator.ts:106-142 | with no negative shipping cost, the table's line totals add up to the grand total |
| Invoice.ValidExpensesInvoice | client/src/utils/invoiceGenerator.ts:92-142 | an invoice over records meeting the expense constraints at non-negative rates, such as freshly validated ones, can be drawn up, has non-negative marked-up and shipping totals, a grand total at least the marked-up total, and a table adding up to the grand total |
| Invoice.StatusOf | client/src/utils/invoiceGenerator.ts:249-263 | no status unless something was paid; balance due exactly when paid is positive and below the grand total, and that balance is what remains; "PAYÉ" exactly when paid covers the grand total |
| Invoice.PayingMoreNeverOwesMore | client/src/utils/invoiceGenerator.ts:249-263 | paying more keeps a paid invoice paid, and never raises a balance due |
| Invoice.GenerateInvoice | client/src/utils/invoiceGenerator.ts:16-264 | fails exactly for a client with no company record, with that name; otherwise, for any valuable expenses, rated or not, the totals are those of the expenses, with a grand total of the marked-up prices plus shipping; the rows are the item table; the status is none exactly when nothing was paid, PAYÉ exactly when the payments cover the grand total, and otherwise the balance due is what remains; the TVA summary and the HT and TVA totals are present exactly when every expense has its own rate, with one group per rate holding that rate's sum |
| Invoice.ErrorMessage | client/src/utils/invoiceGenerator.ts:21 | the refusal's message is the fixed "Company information not found for " text followed by the client's name |
| Invoice.ErrorMessageNamesClient | client/src/utils/invoiceGenerator.ts:21 | refusals for different clients have different messages |

## Left out

- Database access, SQL ordering, transactions and concurrent requests are not modelled. The store is an in-memory value, and the client's date-sorted expenses are passed in as a parameter.
- Storage.CreatePayment: the payment's fresh id is a parameter that must not already be in use. The store's UUID generation is not modelled.
- Expense create, update and delete, and the other read queries of the store, are outside this core.
- Floating-point rounding, `toFixed(2)` and `toString()` of amounts are not modelled. Amounts are exact reals, because IEEE behaviour is not what the code intends to compute.
- Calculations.CalculateExpense: a TVA rate of −100 is excluded. It would make the TTC branch divide by zero, which JavaScript turns into Infinity.
- Invoice.TotalsOf: when some expense has no rate of its own, the HT and TVA totals are absent rather than the NaN the source computes; the TTC, shipping and grand totals are stated for every expense.
- Invoice.GenerateInvoice: when some expense has no rate of its own, the source keys its TVA group by NaN and its summary HT and TVA come out NaN. The model reports the summary and those two totals as absent and does not model the NaN group's contents; the amount due, the rows and the status are modelled for every expense.
- Invoice.ProductRowOf: the rate column holds the raw rate, absent standing for the NaN the source prints;
- Invoice.GenerateInvoice: the company records are reduced to the set of known client names.
- PDF layout, fonts, colours and text placement are not modelled. Neither are date formatting, the invoice date, or the `year` and `month` fields that both invoice-number functions read from the clock.
- InvoiceNumbers.ParseInt: parsing and printing are exact on unbounded integers. Precision loss beyond 2^53 and the exponent notation of `String(n)` for huge numbers are not modelled.
- InvoiceNumbers.GenerateInvoiceNumber: the argument-count limit of `Math.max(...list)` on very long lists is not modelled.
- Schema.ValidateExpense: the conversion of the date field is not modelled, because dates are already integers here. Of the unknown keys the parse strips, only `tvaPercentage` and `markupAppliesTo` are part of the input; every other stray key is outside the model.
- User interface pages and the authentication module are outside this core.

## Findings

| source | as written | input that shows it | evidently intended | confidence | as-written member | corrected member |
|---|---|---|---|---|---|---|
| shared/calculations.ts:16 | `Number(expense.tvaPercentage \|\| 5.5)` replaces every falsy rate, a rate of 0 included, by 5.5 | an expense whose rate is the number 0: it is valued at 5.5 %, while the invoice prints 0 % in its row and files it under the 0 % group with no TVA | only a missing rate falls back to 5.5; a 0 % rate is kept | low, not executed; the stored expenses carry no rate, so only a caller that supplies one can reach it | Calculations.TvaRateAsWritten, exhibited by Calculations.ZeroRateOverridden | Calculations.TvaRate |
