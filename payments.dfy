/** The payment routes: recording a payment against a sale and/or a dealer
    invoice, and the summary and ledger read off the sales. */
module Payments {
  import opened Wrappers
  import opened Shared
  import opened Collections
  import opened Validation
  import opened Text
  import opened SalesModel
  import opened InvoiceModel
  import opened PaymentModel

  // ---- POST /payments ----

  /** The request body; `amount` is `None` when it is not numeric and an id
      is `None` when it is missing or empty. */
  datatype PaymentRequest = PaymentRequest(
    amount: Option<int>,
    customerName: string,
    saleId: Option<nat>,
    invoiceId: Option<nat>,
    paymentMethod: Option<string>,
    referenceNumber: Option<string>,
    notes: Option<string>)

  function PaymentErrors(req: PaymentRequest): (errs: seq<string>)
    ensures errs == [] <==> req.amount.Some? && req.customerName != ""
  {
    var checks := [ Check(req.amount.Some?, "Amount must be a number"),
                    Check(req.customerName != "", "Customer name is required") ];
    assert checks[0].passes && checks[1].passes <==> forall i :: 0 <= i < |checks| ==> checks[i].passes;
    Failures(checks)
  }

  /** The checks made before anything is written: the validators, at least
      one target, and both targets found. `None` lets the request through. */
  function Screen(sales: seq<Sale>, invoices: seq<Invoice>, req: PaymentRequest): (e: Option<Reply<Payment>>)
    ensures e.None? <==> && PaymentErrors(req) == [] && (req.saleId.Some? || req.invoiceId.Some?)
                         && (req.saleId.Some? ==> req.saleId.value < |sales|)
                         && (req.invoiceId.Some? ==> req.invoiceId.value < |invoices|)
    ensures e.Some? ==> e.value.Err?
    ensures PaymentErrors(req) == [] && req.saleId.None? && req.invoiceId.None?
            ==> e == Some(Err(400, ["Either saleId or invoiceId is required"]))
    ensures e == Some(Err(404, ["Sale not found"]))
            <==> && PaymentErrors(req) == [] && req.saleId.Some? && req.saleId.value >= |sales|
  {
    var errs := PaymentErrors(req);
    if errs != [] then Some(Err(400, errs))
    else if req.saleId.None? && req.invoiceId.None? then Some(Err(400, ["Either saleId or invoiceId is required"]))
    else if req.saleId.Some? && req.saleId.value >= |sales| then Some(Err(404, ["Sale not found"]))
    else if req.invoiceId.Some? && req.invoiceId.value >= |invoices| then Some(Err(404, ["Invoice not found"]))
    else None
  }

  /** The payload handed to `new Payment(...)`. */
  function DraftOf(req: PaymentRequest, user: UserId): (d: PaymentDraft)
    requires req.amount.Some?
    ensures d.saleId == req.saleId && d.invoiceId == req.invoiceId && d.amount == req.amount.value
  {
    PaymentDraft(req.saleId, req.invoiceId, req.customerName, req.amount.value, req.paymentMethod,
                 req.referenceNumber, req.notes, user)
  }

  /** `sale.paidAmount += amount`, before the hook runs. */
  function SalePaid(s: Sale, amount: int): (t: Sale)
    ensures t.paidAmount - s.paidAmount == amount && t == s.(paidAmount := t.paidAmount)
  {
    s.(paidAmount := s.paidAmount + amount)
  }

  /** The invoice update: the amount is added to what was paid; the status
      becomes paid once the amount is covered, partial while something is
      paid, and otherwise stays as it was. */
  function InvoicePaid(inv: Invoice, amount: int): (r: Invoice)
    ensures r.paidAmount - inv.paidAmount == amount
    ensures r == inv.(paidAmount := r.paidAmount, paymentStatus := r.paymentStatus)
    ensures r.paidAmount >= inv.amount ==> r.paymentStatus == Paid
    ensures 0 < r.paidAmount < inv.amount ==> r.paymentStatus == Partial
    ensures r.paidAmount <= 0 && r.paidAmount < inv.amount ==> r.paymentStatus == inv.paymentStatus
  {
    var paid := inv.paidAmount + amount;
    var status := if paid >= inv.amount then Paid else if paid > 0 then Partial else inv.paymentStatus;
    inv.(paidAmount := paid, paymentStatus := status)
  }

  /** The invoice rule never sets `pending`: an invoice that is partial or
      paid never goes back to pending. */
  lemma InvoiceNeverBackToPending(inv: Invoice, amount: int)
    requires inv.paymentStatus != PaymentStatus.Pending
    ensures InvoicePaid(inv, amount).paymentStatus != PaymentStatus.Pending
  {
  }

  /** On an invoice whose status agrees with its amounts, a non-negative
      payment keeps the agreement and never moves the status backwards. */
  lemma InvoicePaymentKeepsConsistency(inv: Invoice, amount: int)
    requires ValidInvoice(inv) && StatusConsistent(inv) && amount >= 0
    ensures ValidInvoice(InvoicePaid(inv, amount)) && StatusConsistent(InvoicePaid(inv, amount))
    ensures PaymentProgress(InvoicePaid(inv, amount).paymentStatus) >= PaymentProgress(inv.paymentStatus)
  {
  }

  /** The two status rules differ: an invoice of amount 0 is paid by a
      payment of 0, while a sale of total 0 with nothing paid is pending. */
  lemma InvoiceAndSaleRulesDiffer(inv: Invoice)
    requires inv.amount == 0 && inv.paidAmount == 0
    ensures InvoicePaid(inv, 0).paymentStatus == Paid
    ensures PaymentStatusFor(0, 0) == PaymentStatus.Pending
  {
  }

  datatype RecordResult = RecordResult(reply: Reply<Payment>, payments: seq<Payment>, sales: seq<Sale>,
                                       invoices: seq<Invoice>)

  /** Everything after the payment record is saved: the sale, when there is
      one, gets the amount and is saved through the hook; then the invoice,
      when there is one. A refused save answers 500 but the earlier writes
      stay. */
  function Settle(payments: seq<Payment>, sales: seq<Sale>, invoices: seq<Invoice>, p: Payment, amount: int,
                  saleId: Option<nat>, invoiceId: Option<nat>): (r: RecordResult)
    requires saleId.Some? ==> saleId.value < |sales|
    requires invoiceId.Some? ==> invoiceId.value < |invoices|
    ensures r.payments == payments + [p]
    ensures r.reply.Ok? ==> && r.reply.value == p
                            && r.sales == (if saleId.Some? then sales[saleId.value := PreSave(SalePaid(sales[saleId.value], amount))] else sales)
                            && r.invoices == (if invoiceId.Some? then invoices[invoiceId.value := InvoicePaid(invoices[invoiceId.value], amount)] else invoices)
  {
    var ps := payments + [p];
    if saleId.Some? && !Conforms(SalePaid(sales[saleId.value], amount)) then RecordResult(Err(500, ServerError), ps, sales, invoices)
    else
      var ss := if saleId.Some? then sales[saleId.value := PreSave(SalePaid(sales[saleId.value], amount))] else sales;
      if invoiceId.Some? && !ValidInvoice(InvoicePaid(invoices[invoiceId.value], amount))
      then RecordResult(Err(500, ServerError), ps, ss, invoices)
      else
        var invs := if invoiceId.Some? then invoices[invoiceId.value := InvoicePaid(invoices[invoiceId.value], amount)] else invoices;
        RecordResult(Ok(p), ps, ss, invs)
  }

  /** The route as written: the Payment schema requires `saleId`, so a
      payment for an invoice alone is refused when the payment is saved. */
  function RecordAsWritten(payments: seq<Payment>, sales: seq<Sale>, invoices: seq<Invoice>, req: PaymentRequest,
                           user: UserId, now: Time): (r: RecordResult)
    ensures r.reply.Err? && r.payments == payments ==> r.sales == sales && r.invoices == invoices
  {
    match Screen(sales, invoices, req)
    case Some(e) => RecordResult(e, payments, sales, invoices)
    case None =>
      match BuildPayment(DraftOf(req, user), now)
      case None => RecordResult(Err(500, ServerError), payments, sales, invoices)
      case Some(p) => Settle(payments, sales, invoices, p, req.amount.value, req.saleId, req.invoiceId)
  }

  /** The route with a payment schema that takes a sale or an invoice. */
  function Record(payments: seq<Payment>, sales: seq<Sale>, invoices: seq<Invoice>, req: PaymentRequest,
                  user: UserId, now: Time): (r: RecordResult)
    ensures r.reply.Err? && r.payments == payments ==> r.sales == sales && r.invoices == invoices
  {
    match Screen(sales, invoices, req)
    case Some(e) => RecordResult(e, payments, sales, invoices)
    case None =>
      match BuildPaymentCorrected(DraftOf(req, user), now)
      case None => RecordResult(Err(500, ServerError), payments, sales, invoices)
      case Some(p) => Settle(payments, sales, invoices, p, req.amount.value, req.saleId, req.invoiceId)
  }

  /** A request refused before the payment is saved (validators, no target,
      an unknown target, a refused payment record) writes nothing; the
      missing-target and unknown-sale answers are exactly these. */
  lemma RefusedBeforeAnyWrite(payments: seq<Payment>, sales: seq<Sale>, invoices: seq<Invoice>, req: PaymentRequest,
                              user: UserId, now: Time)
    requires Screen(sales, invoices, req).Some?
    ensures Record(payments, sales, invoices, req, user, now) == RecordResult(Screen(sales, invoices, req).value, payments, sales, invoices)
    ensures RecordAsWritten(payments, sales, invoices, req, user, now) == Record(payments, sales, invoices, req, user, now)
  {
  }

  /** Which payments are recorded, and what an accepted one does to the sale
      and the invoice: both get the same amount, the sale's balance and
      status are derived again by the hook. */
  lemma RecordAccepted(payments: seq<Payment>, sales: seq<Sale>, invoices: seq<Invoice>, req: PaymentRequest,
                       user: UserId, now: Time)
    requires Record(payments, sales, invoices, req, user, now).reply.Ok?
    ensures var r := Record(payments, sales, invoices, req, user, now);
            && Screen(sales, invoices, req).None? && req.amount.Some?
            && r.payments == payments + [r.reply.value] && r.reply.value.amount == req.amount.value >= 0
            && (req.saleId.Some? ==> && r.sales == sales[req.saleId.value := r.sales[req.saleId.value]]
                                     && r.sales[req.saleId.value].paidAmount == sales[req.saleId.value].paidAmount + req.amount.value
                                     && Derived(r.sales[req.saleId.value]))
            && (req.saleId.None? ==> r.sales == sales)
            && (req.invoiceId.Some? ==> && r.invoices == invoices[req.invoiceId.value := r.invoices[req.invoiceId.value]]
                                        && r.invoices[req.invoiceId.value] == InvoicePaid(invoices[req.invoiceId.value], req.amount.value))
            && (req.invoiceId.None? ==> r.invoices == invoices)
  {
    assert Screen(sales, invoices, req).None?;
    var p := BuildPaymentCorrected(DraftOf(req, user), now);
    assert p.Some?;
  }

  /** As written, a payment that names only an invoice is always refused and
      the invoice is never updated. */
  lemma InvoiceOnlyPaymentRefused(payments: seq<Payment>, sales: seq<Sale>, invoices: seq<Invoice>, req: PaymentRequest,
                                  user: UserId, now: Time)
    requires req.saleId.None?
    ensures RecordAsWritten(payments, sales, invoices, req, user, now).reply.Err?
    ensures RecordAsWritten(payments, sales, invoices, req, user, now) == RecordResult(RecordAsWritten(payments, sales, invoices, req, user, now).reply, payments, sales, invoices)
  {
    if Screen(sales, invoices, req).None? {
      assert BuildPayment(DraftOf(req, user), now).None?;
    }
  }

  /** With the corrected schema, a well-formed payment for a known, valid
      invoice alone is recorded and credited to the invoice. */
  lemma InvoiceOnlyPaymentRecorded(payments: seq<Payment>, sales: seq<Sale>, invoices: seq<Invoice>, req: PaymentRequest,
                                   user: UserId, now: Time)
    requires req.amount.Some? && req.amount.value >= 0 && req.customerName != "" && Trim(req.customerName) != ""
    requires req.saleId.None? && req.invoiceId.Some? && req.invoiceId.value < |invoices|
    requires req.paymentMethod.None?
    requires ValidInvoice(invoices[req.invoiceId.value])
    ensures var r := Record(payments, sales, invoices, req, user, now);
            && r.reply.Ok? && r.sales == sales && |r.payments| == |payments| + 1
            && r.invoices == invoices[req.invoiceId.value := InvoicePaid(invoices[req.invoiceId.value], req.amount.value)]
  {
    var k := req.invoiceId.value;
    assert Screen(sales, invoices, req).None?;
    assert BuildPaymentCorrected(DraftOf(req, user), now).Some?;
    assert ValidInvoice(InvoicePaid(invoices[k], req.amount.value));
  }

  /** Whenever a sale is named, the corrected route writes the same sales and
      invoices and gives the same answer status as the route as written. */
  lemma CorrectedAgreesWhenSaleGiven(payments: seq<Payment>, sales: seq<Sale>, invoices: seq<Invoice>, req: PaymentRequest,
                                     user: UserId, now: Time)
    requires req.saleId.Some?
    ensures var a := RecordAsWritten(payments, sales, invoices, req, user, now);
            var c := Record(payments, sales, invoices, req, user, now);
            a.reply.Ok? == c.reply.Ok? && a.sales == c.sales && a.invoices == c.invoices && |a.payments| == |c.payments|
  {
    if Screen(sales, invoices, req).None? {
      var d := DraftOf(req, user);
      var a := BuildPayment(d, now);
      var c := BuildPaymentCorrected(d, now);
      assert a.Some? <==> c.Some?;
      if a.Some? {
        SettleOfAnyPayment(payments, payments, sales, invoices, a.value, c.value, req.amount.value, req.saleId, req.invoiceId);
      }
    }
  }

  /** The steps after the payment record is saved, on the stored documents. */
  method SettleTargets(sales: Collection<Sale>, invoices: Collection<Invoice>, amount: int,
                       saleId: Option<nat>, invoiceId: Option<nat>) returns (ok: bool)
    requires sales as object != invoices as object
    requires saleId.Some? ==> saleId.value < |sales.docs|
    requires invoiceId.Some? ==> invoiceId.value < |invoices.docs|
    modifies sales, invoices
    ensures var r := Settle([], old(sales.docs), old(invoices.docs), Payment(None, None, "", 0, 0, Cash, None, None, 0),
                            amount, saleId, invoiceId);
            ok == r.reply.Ok? && sales.docs == r.sales && invoices.docs == r.invoices
  {
    if saleId.Some? {
      var sale := sales.docs[saleId.value];
      sale := sale.(paidAmount := sale.paidAmount + amount);
      ok := SaveSale(sales, saleId.value, sale);
      if !ok {
        return;
      }
    }
    if invoiceId.Some? {
      var invoice := InvoicePaid(invoices.docs[invoiceId.value], amount);
      if !ValidInvoice(invoice) {
        return false;
      }
      invoices.Replace(invoiceId.value, invoice);
    }
    ok := true;
  }

  /** Settling does not depend on which payment was saved before it. */
  lemma SettleOfAnyPayment(ps: seq<Payment>, qs: seq<Payment>, sales: seq<Sale>, invoices: seq<Invoice>, p: Payment, q: Payment,
                           amount: int, saleId: Option<nat>, invoiceId: Option<nat>)
    requires saleId.Some? ==> saleId.value < |sales|
    requires invoiceId.Some? ==> invoiceId.value < |invoices|
    ensures var a := Settle(ps, sales, invoices, p, amount, saleId, invoiceId);
            var b := Settle(qs, sales, invoices, q, amount, saleId, invoiceId);
            a.reply.Ok? == b.reply.Ok? && a.sales == b.sales && a.invoices == b.invoices
  {
  }

  /** The handler as written, on the three collections. */
  method RecordPaymentAsWritten(payments: Collection<Payment>, sales: Collection<Sale>, invoices: Collection<Invoice>,
                                req: PaymentRequest, user: UserId, now: Time) returns (reply: Reply<Payment>)
    requires payments as object != sales as object && payments as object != invoices as object
    requires sales as object != invoices as object
    modifies payments, sales, invoices
    ensures RecordResult(reply, payments.docs, sales.docs, invoices.docs)
            == RecordAsWritten(old(payments.docs), old(sales.docs), old(invoices.docs), req, user, now)
  {
    var refused := Screen(sales.docs, invoices.docs, req);
    if refused.Some? {
      return refused.value;
    }
    var payment := BuildPayment(DraftOf(req, user), now);
    if payment.None? {
      return Err(500, ServerError);
    }
    var _ := payments.Insert(payment.value);
    SettleOfAnyPayment(old(payments.docs), [], sales.docs, invoices.docs, payment.value, Payment(None, None, "", 0, 0, Cash, None, None, 0),
                       req.amount.value, req.saleId, req.invoiceId);
    var ok := SettleTargets(sales, invoices, req.amount.value, req.saleId, req.invoiceId);
    reply := if ok then Ok(payment.value) else Err(500, ServerError);
  }

  /** The handler with the corrected payment schema. */
  method RecordPayment(payments: Collection<Payment>, sales: Collection<Sale>, invoices: Collection<Invoice>,
                       req: PaymentRequest, user: UserId, now: Time) returns (reply: Reply<Payment>)
    requires payments as object != sales as object && payments as object != invoices as object
    requires sales as object != invoices as object
    modifies payments, sales, invoices
    ensures RecordResult(reply, payments.docs, sales.docs, invoices.docs)
            == Record(old(payments.docs), old(sales.docs), old(invoices.docs), req, user, now)
  {
    var refused := Screen(sales.docs, invoices.docs, req);
    if refused.Some? {
      return refused.value;
    }
    var payment := BuildPaymentCorrected(DraftOf(req, user), now);
    if payment.None? {
      return Err(500, ServerError);
    }
    var _ := payments.Insert(payment.value);
    SettleOfAnyPayment(old(payments.docs), [], sales.docs, invoices.docs, payment.value, Payment(None, None, "", 0, 0, Cash, None, None, 0),
                       req.amount.value, req.saleId, req.invoiceId);
    var ok := SettleTargets(sales, invoices, req.amount.value, req.saleId, req.invoiceId);
    reply := if ok then Ok(payment.value) else Err(500, ServerError);
  }
}
