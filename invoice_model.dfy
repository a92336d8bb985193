/** The Invoice schema: a billable amount for one dealer and one order, with
    a unique number, the amount paid so far and a payment status. */
module InvoiceModel {
  import opened Wrappers
  import opened Shared
  import opened SequentialIds
  import opened Text

  datatype Invoice = Invoice(
    dealer: nat,              // ObjectId of the Dealer document
    dealerId: string,
    order: nat,               // ObjectId of the DealerOrder document
    invoiceNumber: string,
    amount: int,
    paidAmount: int,
    paymentStatus: PaymentStatus,
    notes: Option<string>)

  /** The schema's validators: required strings and no negative amount. */
  predicate ValidInvoice(inv: Invoice) {
    inv.dealerId != "" && inv.invoiceNumber != "" && inv.amount >= 0 && inv.paidAmount >= 0
  }

  /** The status agrees with the amounts the way the payment route sets it:
      pending before anything is paid, partial while something but not all is
      paid, paid once the amount is covered. */
  predicate StatusConsistent(inv: Invoice) {
    && (inv.paymentStatus == Pending ==> inv.paidAmount == 0)
    && (inv.paymentStatus == Partial ==> 0 < inv.paidAmount < inv.amount)
    && (inv.paymentStatus == Paid ==> inv.paidAmount >= inv.amount)
  }

  /** `new Invoice({...}).save()`: the strings are trimmed, `paidAmount` takes
      its default 0, the status is the given `pending`, and validation refuses
      a missing string or a negative amount. */
  function BuildInvoice(dealer: nat, dealerId: string, order: nat, invoiceNumber: string,
                        amount: int, notes: Option<string>): (r: Option<Invoice>)
    ensures r.Some? <==> Trim(dealerId) != "" && Trim(invoiceNumber) != "" && amount >= 0
    ensures r.Some? ==> ValidInvoice(r.value) && StatusConsistent(r.value)
    ensures r.Some? ==> r.value.paidAmount == 0 && r.value.paymentStatus == Pending
    ensures r.Some? ==> r.value.invoiceNumber == Trim(invoiceNumber) && r.value.amount == amount
                        && r.value.dealer == dealer && r.value.dealerId == Trim(dealerId) && r.value.order == order
  {
    if Trim(dealerId) != "" && Trim(invoiceNumber) != "" && amount >= 0
    then Some(Invoice(dealer, Trim(dealerId), order, Trim(invoiceNumber), amount, 0, Pending, TrimOption(notes)))
    else None
  }

  function Numbers(invs: seq<Invoice>): (ns: seq<string>)
    ensures |ns| == |invs| && forall i :: 0 <= i < |invs| ==> ns[i] == invs[i].invoiceNumber
  {
    seq(|invs|, i requires 0 <= i < |invs| => invs[i].invoiceNumber)
  }

  /** Every invoice carries the number of its position: only appends, each
      numbered by the count at the time. */
  predicate NumberedInvoices(invs: seq<Invoice>) {
    NumberedInOrder("INV-", Numbers(invs))
  }

  /** The unique index on `invoiceNumber` is never violated. */
  lemma NumberedInvoicesUnique(invs: seq<Invoice>)
    requires NumberedInvoices(invs)
    ensures forall i, j :: 0 <= i < j < |invs| ==> invs[i].invoiceNumber != invs[j].invoiceNumber
  {
    NumberedIdsDistinct("INV-", Numbers(invs));
  }
}
