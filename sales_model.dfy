/** The Sales schema and its pre-save hook, which derives `balanceAmount` and
    `paymentStatus` from `totalAmount` and `paidAmount` on every `save()`. */
module SalesModel {
  import opened Wrappers
  import opened Shared
  import opened Collections
  import opened Text

  datatype SaleStatus = Pending | Dispatched | Delivered

  function SaleStatusName(s: SaleStatus): string {
    match s
    case Pending => "pending"
    case Dispatched => "dispatched"
    case Delivered => "delivered"
  }

  function ParseSaleStatus(s: string): (r: Option<SaleStatus>)
    ensures forall st :: r == Some(st) <==> SaleStatusName(st) == s
  {
    if s == "pending" then Some(SaleStatus.Pending)
    else if s == "dispatched" then Some(Dispatched)
    else if s == "delivered" then Some(Delivered)
    else None
  }

  datatype Sale = Sale(
    customerName: string,
    customerContact: string,
    customerAddress: Option<string>,
    riceType: string,
    quantity: int,
    rate: int,
    totalAmount: int,
    vehicleNumber: Option<string>,
    driverName: Option<string>,
    destination: Option<string>,
    dispatchDate: Time,
    status: SaleStatus,
    paymentStatus: PaymentStatus,
    paidAmount: int,
    balanceAmount: int,
    soldBy: UserId,
    createdAt: Time)

  /** The schema's validators: required strings, no negative number. */
  predicate Conforms(s: Sale) {
    && s.customerName != "" && s.customerContact != "" && s.riceType != ""
    && s.quantity >= 0 && s.rate >= 0 && s.totalAmount >= 0
    && s.paidAmount >= 0 && s.balanceAmount >= 0
  }

  /** The hook's three-way rule: nothing paid is pending (even when nothing is
      owed), something paid short of the total is partial, otherwise paid. */
  function PaymentStatusFor(total: int, paid: int): (p: PaymentStatus)
    ensures p == PaymentStatus.Pending <==> paid == 0
    ensures p == Partial <==> paid != 0 && paid < total
    ensures p == Paid <==> paid != 0 && paid >= total
  {
    if paid == 0 then PaymentStatus.Pending else if paid < total then Partial else Paid
  }

  /** The derived fields agree with the amounts. */
  predicate Derived(s: Sale) {
    s.balanceAmount == s.totalAmount - s.paidAmount
    && s.paymentStatus == PaymentStatusFor(s.totalAmount, s.paidAmount)
  }

  /** `salesSchema.pre('save')`: only the two derived fields change, and
      afterwards they agree with the amounts. */
  function PreSave(s: Sale): (r: Sale)
    ensures Derived(r)
    ensures r.totalAmount == s.totalAmount && r.paidAmount == s.paidAmount
    ensures r == s.(balanceAmount := r.balanceAmount, paymentStatus := r.paymentStatus)
  {
    s.(balanceAmount := s.totalAmount - s.paidAmount,
       paymentStatus := PaymentStatusFor(s.totalAmount, s.paidAmount))
  }

  /** The hook depends only on the amounts, so saving twice changes nothing
      more than saving once; a derived sale is a fixed point. */
  lemma PreSaveIdempotent(s: Sale)
    ensures PreSave(PreSave(s)) == PreSave(s)
    ensures Derived(s) <==> PreSave(s) == s
  {
  }

  /** Non-negative payments never take a paid sale out of `paid`. */
  lemma PaidSaleStaysPaid(total: int, paid: int, amount: int)
    requires paid >= 0 && amount >= 0
    requires PaymentStatusFor(total, paid) == Paid
    ensures PaymentStatusFor(total, paid + amount) == Paid
  {
  }

  /** Nor do they move any sale backwards along pending, partial, paid. */
  lemma SaleStatusMonotone(total: int, paid: int, amount: int)
    requires paid >= 0 && amount >= 0
    ensures PaymentProgress(PaymentStatusFor(total, paid + amount))
            >= PaymentProgress(PaymentStatusFor(total, paid))
  {
  }

  /** The fields `new Sales(...)` is given by the create route. */
  datatype SaleDraft = SaleDraft(
    customerName: string,
    customerContact: string,
    customerAddress: Option<string>,
    riceType: string,
    quantity: int,
    rate: int,
    totalAmount: int,
    balanceAmount: int,
    vehicleNumber: Option<string>,
    driverName: Option<string>,
    destination: Option<string>,
    status: Option<string>,
    paymentStatus: Option<string>,
    paidAmount: Option<int>,
    soldBy: UserId)

  /** The document `new Sales(draft)` holds before it is saved: the strings
      trimmed and the schema's defaults filled in; `None` when an enum value is not in its list. */
  function SaleOfDraft(d: SaleDraft, now: Time): (r: Option<Sale>)
    ensures r.Some? <==> (d.status.None? || ParseSaleStatus(d.status.value).Some?)
                         && (d.paymentStatus.None? || ParsePaymentStatus(d.paymentStatus.value).Some?)
    ensures r.Some? ==> && r.value.totalAmount == d.totalAmount && r.value.balanceAmount == d.balanceAmount
                        && r.value.paidAmount == (if d.paidAmount.Some? then d.paidAmount.value else 0)
                        && r.value.quantity == d.quantity && r.value.rate == d.rate
                        && r.value.customerName == Trim(d.customerName) && r.value.riceType == Trim(d.riceType)
                        && r.value.customerContact == Trim(d.customerContact)
                        && r.value.soldBy == d.soldBy && r.value.createdAt == now
    ensures r.Some? && d.status.None? ==> r.value.status == SaleStatus.Pending
  {
    var status := if d.status.None? then Some(SaleStatus.Pending) else ParseSaleStatus(d.status.value);
    var paymentStatus := if d.paymentStatus.None? then Some(PaymentStatus.Pending) else ParsePaymentStatus(d.paymentStatus.value);
    if status.None? || paymentStatus.None? then None
    else Some(Sale(Trim(d.customerName), Trim(d.customerContact), TrimOption(d.customerAddress), Trim(d.riceType),
                   d.quantity, d.rate, d.totalAmount,
                   TrimOption(d.vehicleNumber), TrimOption(d.driverName), TrimOption(d.destination),
                   now, status.value, paymentStatus.value,
                   if d.paidAmount.Some? then d.paidAmount.value else 0,
                   d.balanceAmount, d.soldBy, now))
  }

  /** `sale.save()` of a document the collection holds at `id`. Mongoose
      validates the document before it runs the pre-save hooks, so the
      validators see the balance of the previous save; the stored document is
      the hook's output. */
  method SaveSale(sales: Collection<Sale>, id: nat, doc: Sale) returns (ok: bool)
    requires id < |sales.docs|
    modifies sales
    ensures ok == Conforms(doc)
    ensures sales.docs == if ok then old(sales.docs)[id := PreSave(doc)] else old(sales.docs)
  {
    ok := Conforms(doc);
    if ok {
      sales.Replace(id, PreSave(doc));
    }
  }

  /** `new Sales(draft).save()`: validation, then the hook, then the insert. */
  method InsertSale(sales: Collection<Sale>, d: SaleDraft, now: Time) returns (r: Option<Sale>)
    modifies sales
    ensures r.Some? <==> SaleOfDraft(d, now).Some? && Conforms(SaleOfDraft(d, now).value)
    ensures r.Some? ==> r.value == PreSave(SaleOfDraft(d, now).value) && Derived(r.value)
    ensures sales.docs == if r.Some? then old(sales.docs) + [r.value] else old(sales.docs)
  {
    var doc := SaleOfDraft(d, now);
    if doc.Some? && Conforms(doc.value) {
      var saved := PreSave(doc.value);
      var _ := sales.Insert(saved);
      r := Some(saved);
    } else {
      r := None;
    }
  }

  /** A sale paid beyond its total is stored with a negative balance (the
      minimum of 0 was checked before the hook ran); any later save of it,
      such as the next payment, then fails validation. */
  lemma OverpaidSaleRefusesLaterSaves(s: Sale, amount: int)
    requires Conforms(s) && s.paidAmount > s.totalAmount
    ensures PreSave(s).balanceAmount < 0 && PreSave(s).paymentStatus == Paid
    ensures !Conforms(PreSave(s).(paidAmount := PreSave(s).paidAmount + amount))
  {
  }
}
