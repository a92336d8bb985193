/** The invoice routes: an admin creates an invoice for a dealer and an
    order, numbered `INV-` and the count; a dealer lists its own. */
module Invoices {
  import opened Wrappers
  import opened Shared
  import opened Collections
  import opened Validation
  import opened SequentialIds
  import opened DealerModel
  import opened DealerOrderModel
  import opened InvoiceModel
  import opened Text

  /** The request body; `orderId` is `None` when empty and `amount` when it
      is not numeric. */
  datatype InvoiceRequest = InvoiceRequest(dealerId: string, orderId: Option<nat>, amount: Option<int>,
                                           notes: Option<string>)

  function InvoiceErrors(req: InvoiceRequest): (errs: seq<string>)
    ensures errs == [] <==> req.dealerId != "" && req.orderId.Some? && req.amount.Some?
  {
    var checks := [ Check(req.dealerId != "", "Dealer ID is required"),
                    Check(req.orderId.Some?, "Order ID is required"),
                    Check(req.amount.Some?, "Amount must be a number") ];
    assert checks[0].passes && checks[1].passes && checks[2].passes
       <==> forall i :: 0 <= i < |checks| ==> checks[i].passes;
    Failures(checks)
  }

  /** `Dealer.findOne({ dealerId })`, whatever the dealer's status. */
  function DealerWithId(dealers: seq<Dealer>, dealerId: string): (k: Option<nat>)
    ensures k.Some? ==> k.value < |dealers| && dealers[k.value].dealerId == dealerId
    ensures k.None? <==> forall i :: 0 <= i < |dealers| ==> dealers[i].dealerId != dealerId
  {
    FindFirst(dealers, (d: Dealer) => d.dealerId == dealerId)
  }

  datatype CreateResult = CreateResult(reply: Reply<Invoice>, invoices: seq<Invoice>)

  /** The create route. The unique index on the number refuses a number
      already stored (500); the order is not checked for its status or its
      dealer. */
  function CreateInvoice(invoices: seq<Invoice>, dealers: seq<Dealer>, orders: seq<DealerOrder>,
                         req: InvoiceRequest): (r: CreateResult)
    ensures r.reply.Err? ==> r.invoices == invoices
    ensures r.reply.Ok? ==> r.invoices == invoices + [r.reply.value]
  {
    var errs := InvoiceErrors(req);
    if errs != [] then CreateResult(Err(400, errs), invoices)
    else match DealerWithId(dealers, req.dealerId)
      case None => CreateResult(Err(404, ["Dealer not found"]), invoices)
      case Some(d) =>
        if req.orderId.value >= |orders| then CreateResult(Err(404, ["Order not found"]), invoices)
        else Issue(invoices, d, req.dealerId, req.orderId.value, req.amount.value, req.notes)
  }

  /** The save itself, once the dealer and the order are found: the schema
      validators (500 when they fail) and the unique index on the number. */
  function Issue(invoices: seq<Invoice>, dealer: nat, dealerId: string, order: nat, amount: int,
                 notes: Option<string>): (r: CreateResult)
    ensures r.reply.Err? ==> r.invoices == invoices
    ensures r.reply.Ok? ==> r.invoices == invoices + [r.reply.value]
  {
    match BuildInvoice(dealer, dealerId, order, InvoiceNumber(|invoices|), amount, notes)
    case None => CreateResult(Err(500, ServerError), invoices)
    case Some(inv) =>
      if inv.invoiceNumber in Numbers(invoices) then CreateResult(Err(500, ServerError), invoices)
      else CreateResult(Ok(inv), invoices + [inv])
  }

  /** While the next number is free, the save succeeds exactly when the
      dealer id is not blank and the amount is not negative. */
  lemma IssueAcceptedIff(invoices: seq<Invoice>, dealer: nat, dealerId: string, order: nat, amount: int,
                         notes: Option<string>)
    requires InvoiceNumber(|invoices|) !in Numbers(invoices)
    ensures Issue(invoices, dealer, dealerId, order, amount, notes).reply.Ok?
            <==> Trim(dealerId) != "" && amount >= 0
  {
    InvoiceNumberTrimmed(|invoices|);
  }

  /** An unknown dealer or order is answered 404. */
  lemma UnknownDealerOrOrder(invoices: seq<Invoice>, dealers: seq<Dealer>, orders: seq<DealerOrder>, req: InvoiceRequest)
    ensures CreateInvoice(invoices, dealers, orders, req).reply == Err(404, ["Dealer not found"])
            <==> InvoiceErrors(req) == [] && DealerWithId(dealers, req.dealerId).None?
    ensures CreateInvoice(invoices, dealers, orders, req).reply == Err(404, ["Order not found"])
            <==> && InvoiceErrors(req) == [] && DealerWithId(dealers, req.dealerId).Some?
                 && req.orderId.value >= |orders|
  {
  }

  /** What a created invoice holds: the next number, nothing paid, status
      pending, the order and amount asked for and the dealer found. */
  lemma InvoiceCreated(invoices: seq<Invoice>, dealers: seq<Dealer>, orders: seq<DealerOrder>, req: InvoiceRequest)
    requires CreateInvoice(invoices, dealers, orders, req).reply.Ok?
    ensures var inv := CreateInvoice(invoices, dealers, orders, req).reply.value;
            && InvoiceErrors(req) == [] && DealerWithId(dealers, req.dealerId).Some? && req.orderId.value < |orders|
            && inv.invoiceNumber == InvoiceNumber(|invoices|)
            && inv.paymentStatus == PaymentStatus.Pending && inv.paidAmount == 0
            && inv.order == req.orderId.value && inv.amount == req.amount.value
            && inv.dealer == DealerWithId(dealers, req.dealerId).value
  {
    var r := CreateInvoice(invoices, dealers, orders, req);
    assert InvoiceErrors(req) == [];
    var d := DealerWithId(dealers, req.dealerId);
    assert d.Some? && req.orderId.value < |orders|;
    var number := InvoiceNumber(|invoices|);
    var b := BuildInvoice(d.value, req.dealerId, req.orderId.value, number, req.amount.value, req.notes);
    assert b.Some? && r.reply.value == b.value;
    InvoiceNumberTrimmed(|invoices|);
  }

  /** With the invoices numbered in order, the next number is not yet
      taken, so the unique index never refuses it. */
  lemma NextNumberFree(invoices: seq<Invoice>)
    requires NumberedInvoices(invoices)
    ensures InvoiceNumber(|invoices|) !in Numbers(invoices)
  {
    NextIdFree("INV-", Numbers(invoices));
  }

  /** When the next number is still free, every order that exists is
      accepted, whatever its status and whoever it belongs to, provided the
      dealer exists and the amount is not negative. */
  lemma FreeNumberAccepted(invoices: seq<Invoice>, dealers: seq<Dealer>, orders: seq<DealerOrder>, req: InvoiceRequest)
    requires InvoiceNumber(|invoices|) !in Numbers(invoices)
    requires InvoiceErrors(req) == [] && DealerWithId(dealers, req.dealerId).Some? && req.orderId.value < |orders|
    requires Trim(req.dealerId) != "" && req.amount.value >= 0
    ensures CreateInvoice(invoices, dealers, orders, req).reply.Ok?
  {
    var d := DealerWithId(dealers, req.dealerId).value;
    assert CreateInvoice(invoices, dealers, orders, req)
        == Issue(invoices, d, req.dealerId, req.orderId.value, req.amount.value, req.notes);
    IssueAcceptedIff(invoices, d, req.dealerId, req.orderId.value, req.amount.value, req.notes);
  }

  /** With the invoices numbered in order the next number is always free,
      so the create route accepts every such request. */
  lemma AnyOrderAccepted(invoices: seq<Invoice>, dealers: seq<Dealer>, orders: seq<DealerOrder>, req: InvoiceRequest)
    requires NumberedInvoices(invoices)
    requires InvoiceErrors(req) == [] && DealerWithId(dealers, req.dealerId).Some? && req.orderId.value < |orders|
    requires Trim(req.dealerId) != "" && req.amount.value >= 0
    ensures CreateInvoice(invoices, dealers, orders, req).reply.Ok?
  {
    NextNumberFree(invoices);
    FreeNumberAccepted(invoices, dealers, orders, req);
  }

  /** Creating an invoice keeps the invoices numbered in order. */
  lemma CreateKeepsNumbering(invoices: seq<Invoice>, dealers: seq<Dealer>, orders: seq<DealerOrder>, req: InvoiceRequest)
    requires NumberedInvoices(invoices)
    ensures NumberedInvoices(CreateInvoice(invoices, dealers, orders, req).invoices)
  {
    var r := CreateInvoice(invoices, dealers, orders, req);
    if r.reply.Ok? {
      InvoiceCreated(invoices, dealers, orders, req);
      NumberedAppend("INV-", Numbers(invoices));
      assert Numbers(r.invoices) == Numbers(invoices) + [InvoiceNumber(|invoices|)];
    }
  }

  /** The create handler on the stored invoices. */
  method Create(invoices: Collection<Invoice>, dealers: seq<Dealer>, orders: seq<DealerOrder>, req: InvoiceRequest)
    returns (reply: Reply<Invoice>)
    modifies invoices
    ensures CreateResult(reply, invoices.docs) == CreateInvoice(old(invoices.docs), dealers, orders, req)
  {
    ghost var spec := CreateInvoice(invoices.docs, dealers, orders, req);
    var errs := InvoiceErrors(req);
    if errs != [] {
      return Err(400, errs);
    }
    var dealer := DealerWithId(dealers, req.dealerId);
    if dealer.None? {
      return Err(404, ["Dealer not found"]);
    }
    if req.orderId.value >= |orders| {
      return Err(404, ["Order not found"]);
    }
    var count := |invoices.docs|;
    var invoiceNumber := InvoiceNumber(count);
    var invoice := BuildInvoice(dealer.value, req.dealerId, req.orderId.value, invoiceNumber, req.amount.value, req.notes);
    if invoice.None? {
      assert spec.reply == Err(500, ServerError);
      return Err(500, ServerError);
    }
    if invoice.value.invoiceNumber in Numbers(invoices.docs) {
      assert spec.reply == Err(500, ServerError);
      return Err(500, ServerError);
    }
    assert spec.reply == Ok(invoice.value);
    var _ := invoices.Insert(invoice.value);
    reply := Ok(invoice.value);
  }

  /** The invoices carrying the code `dealerId`, in stored order. */
  function WithDealerCode(invoices: seq<Invoice>, dealerId: string): seq<Invoice> {
    Filter(invoices, (inv: Invoice) => inv.dealerId == dealerId)
  }

  /** The dealer's own invoices, newest first: each of their invoices as many
      times as it is stored, the latest first. The admin list of every invoice
      is `NewestFirst(invoices)`. */
  function InvoicesOfDealer(invoices: seq<Invoice>, dealerId: string): (r: seq<Invoice>)
    ensures forall inv :: multiset(r)[inv] == if inv.dealerId == dealerId then multiset(invoices)[inv] else 0
    ensures var own := WithDealerCode(invoices, dealerId);
            |r| == |own| && forall i :: 0 <= i < |r| ==> r[i] == own[|own| - 1 - i]
  {
    NewestFirstPermutes(WithDealerCode(invoices, dealerId));
    NewestFirst(WithDealerCode(invoices, dealerId))
  }
}
