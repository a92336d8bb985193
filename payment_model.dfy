/** The Payment schema: one recorded payment of a sale. */
module PaymentModel {
  import opened Wrappers
  import opened Shared
  import opened Text

  datatype PaymentMethod = Cash | Cheque | BankTransfer | Upi | OtherMethod

  function PaymentMethodName(m: PaymentMethod): string {
    match m
    case Cash => "cash"
    case Cheque => "cheque"
    case BankTransfer => "bank_transfer"
    case Upi => "upi"
    case OtherMethod => "other"
  }

  function ParsePaymentMethod(s: string): (r: Option<PaymentMethod>)
    ensures forall m :: r == Some(m) <==> PaymentMethodName(m) == s
  {
    if s == "cash" then Some(Cash)
    else if s == "cheque" then Some(Cheque)
    else if s == "bank_transfer" then Some(BankTransfer)
    else if s == "upi" then Some(Upi)
    else if s == "other" then Some(OtherMethod)
    else None
  }

  /** A stored payment. The schema declares no invoice or dealer field, and
      strict mode drops undeclared fields on save, so as written `invoiceId`
      is always `None`; the corrected schema keeps it. */
  datatype Payment = Payment(
    saleId: Option<nat>,
    invoiceId: Option<nat>,
    customerName: string,
    amount: int,
    paymentDate: Time,
    paymentMethod: PaymentMethod,
    referenceNumber: Option<string>,
    notes: Option<string>,
    receivedBy: UserId)

  /** The object handed to `new Payment(...)`. */
  datatype PaymentDraft = PaymentDraft(
    saleId: Option<nat>,
    invoiceId: Option<nat>,
    customerName: string,
    amount: int,
    paymentMethod: Option<string>,
    referenceNumber: Option<string>,
    notes: Option<string>,
    receivedBy: UserId)

  /** The payment method the draft names, `cash` when it names none. */
  function MethodOf(d: PaymentDraft): (m: Option<PaymentMethod>)
    ensures d.paymentMethod.None? ==> m == Some(Cash)
    ensures d.paymentMethod.Some? ==> (m.Some? <==> ParsePaymentMethod(d.paymentMethod.value).Some?)
    ensures d.paymentMethod.Some? && m.Some? ==> PaymentMethodName(m.value) == d.paymentMethod.value
  {
    if d.paymentMethod.None? then Some(Cash) else ParsePaymentMethod(d.paymentMethod.value)
  }

  /** `new Payment(draft).save()`: the strings are trimmed, `saleId` and
      `customerName` are required, `amount` is at least 0, the method is one
      of the five (default cash) and the date defaults to now. */
  function BuildPayment(d: PaymentDraft, now: Time): (r: Option<Payment>)
    ensures r.Some? <==> && d.saleId.Some? && Trim(d.customerName) != "" && d.amount >= 0 && MethodOf(d).Some?
    ensures r.Some? ==> && r.value.saleId == d.saleId && r.value.invoiceId == None && r.value.amount == d.amount
                        && r.value.customerName == Trim(d.customerName) && r.value.receivedBy == d.receivedBy
                        && r.value.paymentDate == now && r.value.paymentMethod == MethodOf(d).value
  {
    var chosen := MethodOf(d);
    if d.saleId.Some? && Trim(d.customerName) != "" && d.amount >= 0 && chosen.Some?
    then Some(Payment(d.saleId, None, Trim(d.customerName), d.amount, now, chosen.value,
                      TrimOption(d.referenceNumber), TrimOption(d.notes), d.receivedBy))
    else None
  }

  /** The schema the payment route evidently expects: a payment belongs to a
      sale or to an invoice, and the invoice is recorded. */
  function BuildPaymentCorrected(d: PaymentDraft, now: Time): (r: Option<Payment>)
    ensures r.Some? <==> && (d.saleId.Some? || d.invoiceId.Some?) && Trim(d.customerName) != ""
                         && d.amount >= 0 && MethodOf(d).Some?
    ensures r.Some? ==> && r.value.saleId == d.saleId && r.value.invoiceId == d.invoiceId && r.value.amount == d.amount
                        && r.value.customerName == Trim(d.customerName) && r.value.receivedBy == d.receivedBy
                        && r.value.paymentDate == now && r.value.paymentMethod == MethodOf(d).value
    ensures d.saleId.Some? && BuildPayment(d, now).Some? ==> r == Some(BuildPayment(d, now).value.(invoiceId := d.invoiceId))
  {
    var chosen := MethodOf(d);
    if (d.saleId.Some? || d.invoiceId.Some?) && Trim(d.customerName) != "" && d.amount >= 0 && chosen.Some?
    then Some(Payment(d.saleId, d.invoiceId, Trim(d.customerName), d.amount, now, chosen.value,
                      TrimOption(d.referenceNumber), TrimOption(d.notes), d.receivedBy))
    else None
  }
}
