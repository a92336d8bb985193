# Rice-mill settlement backend, modelled in Dafny

This project models the Express/Mongoose backend of a rice-mill inventory system. It covers the parts that move stock and money:

- **Dealer orders.** A dealer places an order for a number of bags of one size, rice type and brand. An admin approves it, which deducts bags and kilograms from the matching rice stock, or sets its status directly. A dealer can also read their own analytics: total kilograms, revenue and most-purchased rice type.
- **Payments.** Recording a payment against a sale and/or a dealer invoice, the Sales pre-save hook that derives `balanceAmount` and `paymentStatus`, the payment summary and the customer ledger.
- **Paddy intake.** Paddy intake into a godown, with the capacity check.
- **Sequential identifiers.** `DLR0001` dealer codes and `INV-0001` invoice numbers.
- **Sales.** Create, update and the recent-sales listing.
- **Godowns.** Create with a unique name, update, listing by name and details.
- **Dealers.** Create, update, disable and the dealer overview.
- **Invoices.** Creation and the dealer's invoice listing.
- **Schemas.** The Mongoose schemas of these documents: their validators, defaults, enums and `trim`.

How the model represents the system:

- **Collections.** A Mongoose collection is the class `Collections.Collection<T>`, whose field `docs` is the sequence of stored documents. A document's ObjectId is its position in `docs`. No modelled route deletes documents, so positions are stable. An id past the end is "not found".
- **Routes.** Each route is a pure outcome function from the collections and the request to a reply (`Ok` or `Err(status, messages)`) and the new collections. A method over the `Collection` objects is then proved to produce exactly that outcome. The lemmas about each outcome function state what the route promises:
  - when it is accepted;
  - what it stores;
  - which invariants of the collections it keeps.
- **Request bodies.** Text fields are strings, where `""` means missing or empty. Numeric fields are `Option<int>`, where `None` means missing or not numeric. Optional enum fields are `Option<string>` and are checked against the schema's enum when the document is validated.
- **Validators.** An express-validator chain is a list of checks (`Validation.Failures`). A request is answered 400 exactly when some check fails.
- **Schema validation.** A Mongoose schema is a `Build…`/`…OfDraft` function. It returns `None` exactly when `save()` would reject the document, which the route answers with 500. `trim: true` is applied with `Text.Trim`.
- **Validation order.** Mongoose validates a document before it runs user `pre('save')` hooks. The model follows that order: `SalesModel.SaveSale` validates the document as given, then applies `PreSave`.
- **Findings.** Where the code does something its authors evidently did not intend, both the code as written and a corrected version are modelled (see "## Findings"). The corrected version is proved to have the intended property.

Three behaviours of the code that the model keeps as they are:

- **Payment targets.** A payment request may name both `saleId` and `invoiceId`. The code accepts it and updates both the sale and the invoice.
- **Invoice orders.** Any existing order may be invoiced, whatever its status (`Invoices.AnyOrderAccepted`).
- **Dealer codes.** A new dealer's code is generated from the number of stored dealers. The codes stay distinct while the collection is numbered in order (`Dealers.CreateKeepsNumbering`, `Dealers.NextCodeFree`).

## Model

| member | source | states |
|---|---|---|
| Collections.Collection.Insert | backend/routes/godown.js:35-36 | saving a new document appends it to the collection and returns its position as its id |
| Collections.Collection.Replace | backend/routes/dealerOrders.js:137 | saving a loaded document overwrites that one position and nothing else |
| Collections.FindFirst | backend/routes/dealerOrders.js:116-120 | `findOne` yields the first matching document; no result exactly when no document matches |
| Collections.Filter | backend/routes/dealerOrders.js:76 | `find(query)` holds each matching document exactly as many times as it is stored, and no other document |
| Collections.FilterAppend | backend/routes/dealerOrders.js:76 | `find(query)` keeps stored order: a newly stored document joins the end of the result when it matches, and the result is unchanged otherwise |
| Collections.NewestFirst | backend/routes/dealerOrders.js:89-92 | the admin list of every order, `find().sort({createdAt: -1})`, is the stored order reversed, element by element; the admin list of every invoice (backend/routes/invoices.js:66-69) is the same function |
| Collections.NewestFirstPermutes | backend/routes/dealerOrders.js:89-92 | newest first lists every document exactly as many times as it is stored |
| Collections.NewestTaken | backend/routes/dealers.js:123-129 | `sort({createdAt: -1}).limit(n)` gives the min(n, size) latest documents, newest first, and every document when there are at most n |
| Collections.MappedPermutation | backend/routes/payments.js:139-150 | mapping a reordering of the documents gives the same mapped values, each as many times |
| Collections.Take | backend/routes/dealers.js:123-125 | `limit(n)` is the first min(n, size) documents of the sorted result |
| Collections.SortBy | backend/routes/godown.js:13 | `sort` by a total order returns an ordered permutation of the documents |
| Validation.Failures | backend/routes/sales.js:33-36 | the error list is empty iff every validator passes; every message comes from a failing validator |
| Text.Decimal | backend/routes/dealers.js:14 | `String(n)` of a non-negative integer is a non-empty run of digits with no leading zero |
| Text.DecimalRoundTrip | backend/routes/dealers.js:14 | reading the digits of `String(n)` back gives `n` |
| Text.PadStart | backend/routes/dealers.js:14 | `padStart(w, '0')` left-fills to width w and keeps the original string as suffix |
| Text.Trim | backend/models/Godown.js:8 | Mongoose `trim` keeps a slice of the input and removes only leading and trailing whitespace; the result is empty iff the input is all whitespace, and otherwise starts and ends with non-space |
| Text.ParseIntOfDecimal | backend/routes/sales.js:86 | `parseInt` of a decimal numeral followed by non-digits yields that number |
| Text.ParseIntOfNegativeDecimal | backend/routes/sales.js:86 | `parseInt` of `-` followed by a numeral yields its negation |
| Text.LexLeqTotal | backend/routes/godown.js:13 | the database's string order relates any two names |
| Shared.ParseGrainType | backend/models/Rice.js:12 | a rice/paddy type is accepted iff it is one of the six enum names |
| Shared.ParseBagSize | backend/models/DealerOrder.js:25-29 | a bag size is accepted iff it is one of `5kg`, `10kg`, `25kg`, `75kg` |
| Shared.ParsePaymentStatus | backend/models/Sales.js:59-63 | a payment status is accepted iff it is `paid`, `partial` or `pending` |
| DealerModel.ParseDealerStatus | backend/routes/dealers.js:55 | a dealer status is accepted iff it is `active` or `inactive` |
| DealerOrderModel.ParseOrderStatus | backend/models/DealerOrder.js:50-54 | an order status is accepted iff it is one of the five lifecycle names |
| DealerOrderModel.NewOrder | backend/models/DealerOrder.js:25-54 | a new order is pending, unpriced and unapproved; it satisfies the schema iff the trimmed strings are non-empty, bags >= 1 and kg >= 0 |
| DealerOrders.BagWeight | backend/routes/dealerOrders.js:11-16 | the kilograms per bag are the number written in the size's name |
| DealerOrders.OrderErrors | backend/routes/dealerOrders.js:24-29 | the order body is refused iff rice type or brand is empty, the bag size is unknown or the bag count is not an integer >= 1 |
| DealerOrders.ActiveDealer | backend/routes/dealerOrders.js:38-41 | finds a dealer with the caller's code and status active, or reports that none exists |
| DealerOrders.PlaceOrder | backend/routes/dealerOrders.js:33-63 | a refused order stores nothing; an accepted one appends one pending order of bag weight times bags kg, linked to the caller's active dealer, carrying the trimmed dealer code, rice type and brand |
| DealerOrders.PlaceOrderAcceptedIff | backend/routes/dealerOrders.js:24-63 | an order is stored iff the validators pass, the caller has an active dealer record, and the trimmed rice type, brand and dealer code are non-empty |
| DealerOrders.InactiveDealerCannotOrder | backend/routes/dealerOrders.js:38-45 | a dealer whose records are all inactive is refused and no order is stored |
| DealerOrders.CreateOrder | backend/routes/dealerOrders.js:31-65 | the route's reply and the new order collection are those of `PlaceOrder` |
| DealerOrders.OrdersOfDealer | backend/routes/dealerOrders.js:76-78 | a dealer's list holds each of their orders exactly as many times as it is stored and no other order, and is their orders in stored order reversed |
| DealerOrders.FindSku | backend/routes/dealerOrders.js:116-120 | the stock found is the first ready or in-production rice of the order's type and brand; none iff no such stock |
| DealerOrders.Deduct | backend/routes/dealerOrders.js:134-137 | approval lowers the order's bag slot by its bag count and the bulk quantity by its kilograms, changes nothing else, and keeps a sufficient stock valid |
| DealerOrders.Approved | backend/routes/dealerOrders.js:140-142 | the approved order records status, approver and time, and is otherwise unchanged |
| DealerOrders.Approve | backend/routes/dealerOrders.js:103-143 | a refused approval changes no order (and no stock unless the save fails); an accepted one approves a pending order and deducts from the first matching stock that can fulfil it |
| DealerOrders.ApproveTwiceRefused | backend/routes/dealerOrders.js:108-110 | approving an already approved order is refused with 400 and changes nothing |
| DealerOrders.ApproveKeepsStockValid | backend/routes/dealerOrders.js:126-137 | approval never drives a bag count or the bulk quantity of valid stock below zero |
| DealerOrders.ApproveAcceptedIff | backend/routes/dealerOrders.js:103-137 | approval succeeds iff the order exists, is pending, a matching stock is found and holds enough bags and kilograms |
| DealerOrders.ApproveOrder | backend/routes/dealerOrders.js:101-150 | the route's reply and both new collections are those of `Approve` |
| DealerOrders.SetStatus | backend/routes/dealerOrders.js:155-168 | 400 iff the status is not in the enum, 404 iff it is and the order is unknown; otherwise only the status of that order is overwritten |
| DealerOrders.UpdateOrderStatus | backend/routes/dealerOrders.js:153-175 | the route's reply and new order collection are those of `SetStatus` |
| OrderAnalytics.Purchases | backend/routes/dealerOrders.js:182-185 | the analysed orders are exactly the dealer's approved, dispatched or delivered orders |
| OrderAnalytics.KgOfType | backend/routes/dealerOrders.js:197-200 | a rice type that no order has weighs zero |
| OrderAnalytics.Types | backend/routes/dealerOrders.js:197-200 | the keys of `typeCounts` are the distinct rice types of the orders, each once |
| OrderAnalytics.FirstHeaviest | backend/routes/dealerOrders.js:201-202 | the chosen key weighs at least as much as every key and more than every earlier key |
| OrderAnalytics.TopTypeIsHeaviest | backend/routes/dealerOrders.js:201-202 | the most purchased type is a type of some order and no type weighs more; with non-empty type names, it is null iff there are no orders |
| OrderAnalytics.SumOrders | backend/routes/dealerOrders.js:187-194 | the two reduce loops compute the total kilograms and the total revenue |
| OrderAnalytics.WeighTypes | backend/routes/dealerOrders.js:197-200 | the `forEach` loop builds a map holding exactly the order types, each mapped to its kilograms |
| OrderAnalytics.AddOrder | backend/routes/dealerOrders.js:198-200 | one loop step keeps the map equal to the per-type kilograms of the orders seen so far |
| OrderAnalytics.HeaviestKey | backend/routes/dealerOrders.js:201-202 | the scan over the weight table finds the first key of greatest weight |
| OrderAnalytics.PickHeaviest | backend/routes/dealerOrders.js:201-202 | the sort-and-take-first over the map's entries yields the specified most purchased type |
| OrderAnalytics.DealerAnalytics | backend/routes/dealerOrders.js:180-204 | totals, most purchased type and last order date are those of the dealer's purchases, newest first |
| OrderAnalytics.PurchasesAppend | backend/routes/dealerOrders.js:182-185 | a new purchasing order is seen first; any other order leaves the purchases as they were |
| OrderAnalytics.UnpurchasedOrderIgnored | backend/routes/dealerOrders.js:182-185 | a pending or rejected order does not change the analytics input |
| Dealers.DealerErrors | backend/routes/dealers.js:34-37 | a dealer body is refused iff name, business name, contact or location is empty |
| Dealers.StatusOrDefault | backend/routes/dealers.js:55 | a given status is kept and a missing one becomes `active` |
| Dealers.CreateDealer | backend/routes/dealers.js:41-58 | a refused creation stores nothing; an accepted one appends exactly the reply |
| Dealers.Register | backend/routes/dealers.js:46-58 | the new dealer is appended only when its status is valid and its generated code is free |
| Dealers.NextCodeFree | backend/routes/dealers.js:11-15 | in a collection numbered in order, the next generated code is not yet used |
| Dealers.CreateAcceptedIff | backend/routes/dealers.js:39-58 | on a numbered collection, creation succeeds iff the four fields are present and the status (default `active`) is valid |
| Dealers.DealerCreated | backend/routes/dealers.js:46-56 | the new dealer gets the next sequential code, the given fields, and status `active` unless one is given |
| Dealers.CreateKeepsNumbering | backend/routes/dealers.js:11-15 | creation keeps the dealer codes numbered DLR0001, DLR0002, … in order |
| Dealers.UpdateDealer | backend/routes/dealers.js:71-86 | 500 iff an invalid status is given, 404 iff the status is fine and the id unknown; otherwise only that dealer is replaced |
| Dealers.UpdateWritesGivenFields | backend/routes/dealers.js:71-82 | an update writes exactly the given fields, keeps the others and never changes the dealer code |
| Dealers.EmptyUpdateChangesNothing | backend/routes/dealers.js:71-82 | an update with no fields returns the dealer and leaves the collection unchanged |
| Dealers.UpdateKeepsNumbering | backend/routes/dealers.js:71-82 | an update keeps the dealer codes numbered in order |
| Dealers.DisableDealer | backend/routes/dealers.js:98-106 | 404 iff the id is unknown; otherwise that dealer becomes inactive with every other field unchanged |
| Dealers.DisableIdempotent | backend/routes/dealers.js:98-102 | disabling twice equals disabling once |
| Dealers.DisableKeepsNumbering | backend/routes/dealers.js:98-102 | disabling keeps the dealer codes numbered in order |
| Dealers.DisabledDealerCannotOrder | backend/routes/dealers.js:98-102 | after a dealer is disabled, every order placed under their code is refused |
| Dealers.OrdersOf | backend/routes/dealers.js:123 | holds each order referencing the dealer exactly as many times as it is stored, and no other order |
| Dealers.OrdersOfGrow | backend/routes/dealers.js:123 | the list is in stored order: a newly stored order joins the end of its own dealer's list and no other |
| Dealers.InvoicesOf | backend/routes/dealers.js:127 | holds each invoice referencing the dealer exactly as many times as it is stored, and no other invoice |
| Dealers.InvoicesOfGrow | backend/routes/dealers.js:127 | the list is in stored order: a newly stored invoice joins the end of its own dealer's list and no other |
| Dealers.DealerOverview | backend/routes/dealers.js:118-129 | 404 iff the dealer is unknown; otherwise the dealer itself with its orders and invoices |
| Dealers.OverviewListsLatestOwn | backend/routes/dealers.js:123-129 | the overview lists only the dealer's own orders and invoices, newest first, exactly min(own, 50) of each, and all of them when there are at most 50 |
| Dealers.Create | backend/routes/dealers.js:39-65 | the route's reply and new collection are those of `CreateDealer` |
| Dealers.Update | backend/routes/dealers.js:69-93 | the route's reply and new collection are those of `UpdateDealer` |
| Dealers.Disable | backend/routes/dealers.js:96-113 | the route's reply and new collection are those of `DisableDealer` |
| GodownModel.ParseStockType | backend/models/Godown.js:25-29 | a stock type is accepted iff it is `paddy`, `rice` or `mixed` |
| GodownModel.NameTaken | backend/models/Godown.js:7 | a name is taken iff some stored godown has it |
| GodownModel.UniqueNamesAppend | backend/models/Godown.js:7 | appending to uniquely named godowns keeps names unique iff the new name is not taken |
| GodownModel.BuildGodown | backend/models/Godown.js:4-33 | a godown document is accepted iff the trimmed name and location are non-empty, capacity and any stock are >= 0 and any stock type is in the enum; then stock defaults to 0, type to mixed, active to true |
| GodownModel.CapacityPercent | backend/models/Godown.js:39-41 | the percentage times the capacity equals the stock times 100; undefined for capacity 0 |
| GodownModel.CapacityPercentInRange | backend/models/Godown.js:39-41 | a godown not over capacity is between 0 and 100 percent full |
| Godowns.NameOrderTotal | backend/routes/godown.js:13 | ordering godowns by name relates any two godowns |
| Godowns.ListGodowns | backend/routes/godown.js:13 | the listing is a permutation of the godowns in ascending name order |
| Godowns.GodownErrors | backend/routes/godown.js:25-27 | a godown body is refused iff name or location is empty or capacity is not a number |
| Godowns.CreateGodown | backend/routes/godown.js:30-41 | a refused creation stores nothing; an accepted one appends exactly the reply |
| Godowns.CreateOutcome | backend/routes/godown.js:35-41 | for a valid body, the reply is "Godown name already exists" iff the trimmed name is taken, and success iff it is not, storing the built godown |
| Godowns.CreateKeepsUniqueNames | backend/models/Godown.js:7 | creation keeps godown names unique |
| Godowns.UpdateGodown | backend/routes/godown.js:50-58 | 404 iff the update passes the validators and the id is unknown; success writes the patched godown only when no other godown has its name |
| Godowns.UpdateKeepsGodownsSound | backend/routes/godown.js:50-54 | an update keeps every godown valid and all names unique |
| Godowns.UpdateMayOverfill | backend/routes/godown.js:50-54 | an update may set the current stock above the capacity, and it is accepted |
| Godowns.GodownDetails | backend/routes/godown.js:70-82 | 404 iff unknown; otherwise the godown with each paddy and rice record stored in it, exactly as many times as it is stored, and no other |
| Godowns.Create | backend/routes/godown.js:28-44 | the route's reply and new collection are those of `CreateGodown` |
| Godowns.Update | backend/routes/godown.js:48-65 | the route's reply and new collection are those of `UpdateGodown` |
| SequentialIds.SequentialId | backend/routes/dealers.js:11-15 | the id is the prefix followed by at least four digits |
| SequentialIds.SequentialIdTrimmed | backend/models/Invoice.js:24 | a generated id is unchanged by the schema's `trim` |
| SequentialIds.InvoiceNumberTrimmed | backend/routes/invoices.js:40-41 | an invoice number is non-empty and survives `trim` |
| SequentialIds.ParseSequentialId | backend/routes/dealers.js:14 | a parsed id starts with the prefix |
| SequentialIds.SequentialIdRoundTrip | backend/routes/dealers.js:11-15 | reading back the id generated from count n gives n + 1 |
| SequentialIds.SequentialIdInjective | backend/routes/invoices.js:39-41 | different counts give different ids |
| SequentialIds.SequentialIdWidth | backend/routes/dealers.js:14 | up to 9999 the id has exactly four digits |
| SequentialIds.FirstInvoiceNumber | backend/routes/invoices.js:39-41 | the first invoice is `INV-0001` |
| SequentialIds.DealerCodePastFourDigits | backend/routes/dealers.js:14 | the 10000th dealer gets `DLR10000`: padding does not truncate |
| SequentialIds.NumberedIdsDistinct | backend/routes/dealers.js:11-15 | ids numbered in order are pairwise distinct |
| SequentialIds.NumberedAppend | backend/routes/dealers.js:11-15 | appending the id generated from the current count keeps the ids numbered in order |
| InvoiceModel.BuildInvoice | backend/models/Invoice.js:5-40 | an invoice is accepted iff the trimmed dealer code and number are non-empty and the amount >= 0; a new one is pending with nothing paid |
| InvoiceModel.NumberedInvoicesUnique | backend/models/Invoice.js:20-25 | invoices numbered in order have pairwise distinct numbers |
| Invoices.InvoiceErrors | backend/routes/invoices.js:16-18 | an invoice body is refused iff the dealer code or order id is missing or the amount is not a number |
| Invoices.DealerWithId | backend/routes/invoices.js:29 | finds a dealer with the given code, or reports that none has it |
| Invoices.CreateInvoice | backend/routes/invoices.js:22-53 | a refused creation stores nothing; an accepted one appends exactly the reply |
| Invoices.Issue | backend/routes/invoices.js:39-53 | the invoice is stored only when it validates and its number is not taken |
| Invoices.IssueAcceptedIff | backend/routes/invoices.js:40-53 | with a free next number, issuing succeeds iff the trimmed dealer code is non-empty and the amount >= 0 |
| Invoices.UnknownDealerOrOrder | backend/routes/invoices.js:29-37 | 404 "Dealer not found" iff the body is valid and no dealer has the code; 404 "Order not found" iff the dealer exists and the order does not |
| Invoices.InvoiceCreated | backend/routes/invoices.js:39-51 | a created invoice gets the next number, the dealer found, the order and amount given, and is pending with nothing paid |
| Invoices.NextNumberFree | backend/routes/invoices.js:39-41 | with numbered invoices, the next number is not yet used |
| Invoices.FreeNumberAccepted | backend/routes/invoices.js:39-53 | a valid request for a known dealer and order succeeds when the next number is free |
| Invoices.AnyOrderAccepted | backend/routes/invoices.js:29-53 | with numbered invoices, any existing order may be invoiced, whatever its status |
| Invoices.CreateKeepsNumbering | backend/routes/invoices.js:39-41 | creation keeps invoice numbers INV-0001, INV-0002, … in order |
| Invoices.Create | backend/routes/invoices.js:20-55 | the route's reply and new collection are those of `CreateInvoice` |
| Invoices.InvoicesOfDealer | backend/routes/invoices.js:80-82 | a dealer's invoice list holds each invoice with their code exactly as many times as it is stored and no other invoice, and is those invoices in stored order reversed |
| PaddyModel.ParseQualityGrade | backend/models/Paddy.js:19-23 | a grade is accepted iff it is `A+`, `A`, `B` or `C` |
| PaddyModel.BuildPaddy | backend/models/Paddy.js:3-63 | a paddy document is accepted iff it satisfies the schema (enums, non-negative amounts, moisture at most 100, trimmed non-empty strings); it keeps the given values |
| PaddyIntake.IntakeErrors | backend/routes/paddy.js:27-36 | an intake body is refused iff any of the ten validators fails |
| PaddyIntake.DraftOf | backend/routes/paddy.js:56-59 | the paddy document carries the body's weight and godown and the caller as `addedBy` |
| PaddyIntake.Raised | backend/routes/paddy.js:50 | the godown's stock rises by exactly the weight, nothing else changes |
| PaddyIntake.Screen | backend/routes/paddy.js:39-53 | an intake passes the checks before any write iff the body is valid, the godown exists and stock + weight <= capacity; 404 iff the godown is unknown |
| PaddyIntake.IntakeAsWritten | backend/routes/paddy.js:44-60 | the route as written: the godown can change only by the weight raise, and the paddy collection only by appending the reply |
| PaddyIntake.Intake | backend/routes/paddy.js:44-60 | the corrected route: a refused intake changes neither collection; an accepted one appends the paddy |
| PaddyIntake.IntakeAccepted | backend/routes/paddy.js:49-60 | an accepted intake raises that godown by the weight, keeps it within capacity, and stores a paddy of that weight in that godown |
| PaddyIntake.IntakeAcceptedIff | backend/routes/paddy.js:39-60 | intake succeeds iff the body is valid, the godown exists, has room, and both documents validate; 404 iff the godown is unknown |
| PaddyIntake.OverCapacityRefused | backend/routes/paddy.js:50-53 | an intake beyond capacity is refused with 400 and writes nothing |
| PaddyIntake.RoomAccepted | backend/routes/paddy.js:49-54 | with room and valid documents the intake is accepted and raises that godown |
| PaddyIntake.ExactFillAccepted | backend/routes/paddy.js:51 | filling a godown exactly to capacity is accepted |
| PaddyIntake.IntakeKeepsGodownsSound | backend/routes/paddy.js:49-54 | every godown stays valid and within capacity |
| PaddyIntake.AsWrittenAgreesOnAcceptedPaddy | backend/routes/paddy.js:49-60 | when the paddy document would validate, the route as written and the corrected route agree |
| PaddyIntake.WheatIntakeRefused | backend/models/Paddy.js:7 | a body that passes the route's validators can still be refused by the schema enum |
| PaddyIntake.RefusedIntakeRaisesStock | backend/routes/paddy.js:54-60 | as written, that refused intake answers 500 yet leaves the godown's stock raised |
| PaddyIntake.CorrectedIntakeKeepsStock | backend/routes/paddy.js:49-60 | the corrected route refuses the same intake without changing the godown |
| PaddyIntake.ReceiveAsWritten | backend/routes/paddy.js:37-60 | the route's reply and both new collections are those of `IntakeAsWritten` |
| PaddyIntake.Receive | backend/routes/paddy.js:37-60 | the route's reply and both new collections are those of `Intake` |
| PaymentModel.ParsePaymentMethod | backend/models/Payment.js:23-27 | a method is accepted iff it is one of the five enum names |
| PaymentModel.MethodOf | backend/models/Payment.js:23-27 | a missing method defaults to cash; a given one is kept iff it is in the enum |
| PaymentModel.BuildPayment | backend/models/Payment.js:3-40 | a payment is accepted iff it has a sale id, a non-empty trimmed customer name, an amount >= 0 and a valid method; the invoice reference is not stored |
| PaymentModel.BuildPaymentCorrected | backend/models/Payment.js:4-8 | a payment is accepted with a sale id or an invoice id, stores both references, and agrees with the schema as written when a sale id is given |
| Payments.PaymentErrors | backend/routes/payments.js:28-29 | a payment body is refused iff the amount is not a number or the customer name is empty |
| Payments.Screen | backend/routes/payments.js:32-58 | a payment passes the checks before any write iff the body is valid, some target is given and every given target exists; 400 when neither is given, 404 for an unknown sale |
| Payments.DraftOf | backend/routes/payments.js:60-76 | the payment document carries the given targets and amount |
| Payments.SalePaid | backend/routes/payments.js:83 | the sale's paid amount rises by exactly the payment |
| Payments.InvoicePaid | backend/routes/payments.js:89-94 | the invoice's paid amount rises by the payment; paid when it covers the amount, partial when positive, otherwise the status is kept |
| Payments.InvoiceNeverBackToPending | backend/routes/payments.js:89-94 | a partial or paid invoice never returns to pending |
| Payments.InvoicePaymentKeepsConsistency | backend/routes/payments.js:88-95 | a non-negative payment keeps an invoice valid and status-consistent, and its status never regresses |
| Payments.InvoiceAndSaleRulesDiffer | backend/routes/payments.js:90-91 | for a zero amount, the invoice rule says paid where the sale hook says pending |
| Payments.Settle | backend/routes/payments.js:81-96 | after the payment is stored, the sale (through its hook) and the invoice each record the amount |
| Payments.RecordAsWritten | backend/routes/payments.js:37-96 | as written: a reply refused before the payment is stored changes nothing |
| Payments.Record | backend/routes/payments.js:37-96 | corrected: a reply refused before the payment is stored changes nothing |
| Payments.RefusedBeforeAnyWrite | backend/routes/payments.js:32-58 | a refused screening is the reply and writes nothing, both as written and corrected |
| Payments.RecordAccepted | backend/routes/payments.js:78-96 | an accepted payment is stored, the given sale's paid amount rises by it and stays derived, the given invoice is updated by the invoice rule, and nothing else changes |
| Payments.InvoiceOnlyPaymentRefused | backend/models/Payment.js:4-8 | as written, a payment without a sale id is always refused and writes nothing |
| Payments.InvoiceOnlyPaymentRecorded | backend/routes/payments.js:39-41 | corrected, a valid invoice-only payment is stored and updates only that invoice |
| Payments.CorrectedAgreesWhenSaleGiven | backend/routes/payments.js:69-79 | when a sale id is given, the corrected route has the same outcome on sales and invoices as the route as written |
| Payments.SettleTargets | backend/routes/payments.js:81-96 | the two target updates write exactly what `Settle` specifies |
| Payments.SettleOfAnyPayment | backend/routes/payments.js:81-96 | the target updates do not depend on the stored payment record |
| Payments.RecordPaymentAsWritten | backend/routes/payments.js:30-107 | the route's reply and three new collections are those of `RecordAsWritten` |
| Payments.RecordPayment | backend/routes/payments.js:30-107 | the route's reply and three new collections are those of `Record` |
| PaymentReports.PaymentSummary | backend/routes/payments.js:112-120 | the three status counts add up to the number of sales |
| PaymentReports.CountsPartition | backend/routes/payments.js:118-120 | every sale is counted under exactly one payment status |
| PaymentReports.PendingIsReceivableLessReceived | backend/routes/payments.js:114-116 | when every sale's balance is derived, total pending = total receivable − total received |
| PaymentReports.LedgerOrderTotal | backend/routes/payments.js:141 | the ledger order relates any two sales |
| PaymentReports.EntriesOfReordering | backend/routes/payments.js:143-150 | the entries of a reordering of the sales are the sales' own entries, each as many times |
| PaymentReports.EntriesInLedgerOrder | backend/routes/payments.js:141 | the entries of sales in ledger order are sorted by customer name and, for the same customer, newest first |
| PaymentReports.Ledger | backend/routes/payments.js:139-150 | the ledger holds exactly the sales' entries, each as many times as its sale, sorted by customer name and, for the same customer, newest first |
| RiceModel.WithBags | backend/models/Rice.js:19-24 | setting one bag slot changes that slot only |
| RiceModel.NoBagsValid | backend/models/Rice.js:20-23 | every bag slot defaults to 0 |
| Sales.SaleErrors | backend/routes/sales.js:26-30 | a sale body is refused iff customer name, contact or rice type is empty, or quantity or rate is not a number |
| Sales.CreateSale | backend/routes/sales.js:33-51 | a refused creation stores nothing; an accepted one appends exactly the reply |
| Sales.Store | backend/routes/sales.js:41-51 | the sale is stored only when it passes the schema, after the pre-save hook |
| Sales.SaleCreated | backend/routes/sales.js:38-49 | a created sale totals quantity × rate, has non-negative amounts, derived balance and status, the seller and time; with no payment it is pending with the whole total due |
| Sales.PlainSaleAccepted | backend/routes/sales.js:38-51 | a valid body with non-negative quantity and rate and no status fields is accepted |
| Sales.PlainDraftStored | backend/routes/sales.js:41-51 | such a draft passes the schema and is stored |
| Sales.Create | backend/routes/sales.js:31-61 | the route's reply and new collection are those of `CreateSale` |
| Sales.PatchKeepsConforms | backend/routes/sales.js:66-69 | a patch that passes the update validators keeps a conforming sale conforming |
| Sales.UpdateSale | backend/routes/sales.js:66-74 | as written: 500 iff the patch fails the validators, 404 iff it passes and the id is unknown; otherwise only that sale is replaced |
| Sales.DispatchUpdateKeepsAmounts | backend/routes/sales.js:63-70 | a dispatch-status update leaves every amount and the payment status alone and writes the new status |
| Sales.UpdateSkipsHook | backend/routes/sales.js:66-70 | as written, patching the paid amount of a derived sale is accepted and leaves its balance and status stale |
| Sales.UpdateSaleCorrected | backend/routes/sales.js:66-74 | corrected: an accepted update stores a sale whose balance and status are derived |
| Sales.UpdateCorrectedKeepsDerived | backend/routes/sales.js:66-70 | corrected updates keep every sale derived, and agree with the route as written when no amount or payment field is patched |
| Sales.Update | backend/routes/sales.js:64-81 | the route's reply and new collection are those of `UpdateSale` |
| Sales.RecentLimit | backend/routes/sales.js:86 | the limit is never 0: a missing, non-numeric or zero query gives 10 |
| Sales.RecentLimitOfDecimal | backend/routes/sales.js:86 | a decimal query n gives n, or 10 when n = 0; no query gives 10 |
| Sales.RecentLimitOfNegative | backend/routes/sales.js:86 | a query `-n` gives −n |
| Sales.RecentLimitOfText | backend/routes/sales.js:86 | a query starting with a letter gives 10 |
| Sales.RecentSales | backend/routes/sales.js:86-90 | the listing is the newest sales, as many as the limit's magnitude allows |
| Sales.RecentDefaultsToTen | backend/routes/sales.js:86-90 | without a query, the listing holds min(10, number of sales) stored sales |
| SalesModel.ParseSaleStatus | backend/models/Sales.js:54-58 | a dispatch status is accepted iff it is `pending`, `dispatched` or `delivered` |
| SalesModel.PaymentStatusFor | backend/models/Sales.js:86-92 | pending iff nothing is paid, partial iff something but less than the total, paid otherwise |
| SalesModel.PreSave | backend/models/Sales.js:84-94 | the hook leaves a derived sale with its totals untouched and changes only balance and status |
| SalesModel.PreSaveIdempotent | backend/models/Sales.js:84-94 | the hook is idempotent, and a sale is derived iff the hook leaves it unchanged |
| SalesModel.PaidSaleStaysPaid | backend/models/Sales.js:86-92 | a paid sale stays paid under further non-negative payments |
| SalesModel.SaleStatusMonotone | backend/models/Sales.js:86-92 | non-negative payments never move a sale's status backwards |
| SalesModel.SaleOfDraft | backend/models/Sales.js:4-78 | a sale document is built iff its enum fields are valid; it keeps the given amounts and trimmed strings and defaults to pending |
| SalesModel.SaveSale | backend/models/Sales.js:84-94 | `save()` succeeds iff the document conforms before the hook, and then stores the hooked document |
| SalesModel.InsertSale | backend/models/Sales.js:84-94 | a new sale is stored derived iff it builds and conforms; otherwise nothing is stored |
| SalesModel.OverpaidSaleRefusesLaterSaves | backend/models/Sales.js:69-73 | an overpaid sale is stored with a negative balance, and every later save of it fails validation |

## Left out

- Authentication and roles (`auth`, `adminOnly`, `dealerOnly`) are left out. The caller's user id and dealer code are parameters.
- The frontend, and the reports, dashboard and dealer-auth routes, are outside this core.
- Concurrency is left out, including the count-then-format race in sequential id generation. Each route runs atomically.
- Clocks are parameters: the current time (`now`) is passed in, and `createdAt` is assumed to grow with insertion order.
- Numbers are left out as floating point: every `Number` field is an integer.
- String concatenation is not modelled. The validators use `isNumeric`, which accepts a numeric string such as `"100"`, and the routes add the raw body value. So `godown.currentStock += req.body.weight` (backend/routes/paddy.js:50), `sale.paidAmount += amount` (backend/routes/payments.js:83) and `(invoice.paidAmount || 0) + amount` (backend/routes/payments.js:89) concatenate when the value arrives as a string: a stock of 50 becomes `"50100"`. The model adds numbers.
- Update bodies whose numeric fields are not numbers are not expressible. Numeric patch fields are `Option<int>`, so the CastError that Mongoose raises (answered 500) is not modelled.
- Ids that are not valid ObjectIds are left out. Mongoose answers them with a CastError, which the routes turn into 500. In the model an id is a position, and any id past the end is "not found".
- `backend/models/Dealer.js` is not part of this model. The dealer fields and the `active`/`inactive` status come from the dealer routes. Dealer fields other than the status are stored without schema validation. A unique index on the dealer code is assumed: a save whose generated code is already stored fails, which the create route answers with 500 (`Dealers.Register`).
- The plain GET list routes for payments, dealers, sales and paddy are left out. Each is a `find().sort({createdAt: -1})`, which is `Collections.NewestFirst`.
- `populate` and `select` projections are left out: they only shape the reply.
- OrderAnalytics.PickHeaviest: does not model JavaScript's ordering of integer-like object keys before other keys. Ties go to the first type in order of appearance.
- `Text.Trim` covers ASCII whitespace only, not every Unicode space that JavaScript's `trim` removes.
- `parseInt` is modelled for optional leading whitespace, an optional sign and decimal digits. Hexadecimal prefixes and other radix forms are not modelled.
- A negative `limit(n)` is modelled as returning |n| documents, as the MongoDB driver does.
- Update routes (`findByIdAndUpdate` with `runValidators`) are modelled as validating the given fields before the id lookup.
- In every `findByIdAndUpdate`, fields absent from the body are left unchanged, as Mongoose drops undefined update keys.
- The sale update body covers the schema's own editable fields: customer details, amounts, statuses, transport details and `dispatchDate`. Other keys a client could send, such as `soldBy` or `createdAt`, are not modelled.
- The Godown unique index on `name` (error 11000) is modelled as a check against the stored names.
- The rice stock routes themselves are not part of this core. Rice appears only as the stock that approval deducts from.

## Findings

| source | as written | input that shows it | evidently intended | confidence | as-written member | corrected member |
|---|---|---|---|---|---|---|
| backend/routes/paddy.js:49-60 | the godown's raised stock is saved before the Paddy document is validated, so a refused intake still changes the godown | a body with `paddyType: "Wheat"` that passes every route validator, into an empty godown of capacity 1000: the reply is 500 and the godown's stock is now 100 | a refused intake leaves the godown unchanged | not executed | PaddyIntake.RefusedIntakeRaisesStock | PaddyIntake.CorrectedIntakeKeepsStock |
| backend/routes/payments.js:39-41 | the route accepts a payment for an invoice alone, but the Payment schema requires `saleId` and has no `invoiceId` field, so every invoice-only payment fails to save (500) | a valid body with `invoiceId` of an existing invoice and no `saleId` | an invoice-only payment is stored and updates that invoice | not executed | Payments.InvoiceOnlyPaymentRefused | Payments.InvoiceOnlyPaymentRecorded |
| backend/routes/sales.js:66-70 | `findByIdAndUpdate` bypasses the pre-save hook, so an update of `paidAmount` leaves `balanceAmount` and `paymentStatus` stale | a PUT with `paidAmount` different from the stored one on any sale whose balance is derived | every stored sale keeps balance = total − paid and the matching payment status | not executed (medium: an update may intend a manual override) | Sales.UpdateSkipsHook | Sales.UpdateCorrectedKeepsDerived |
