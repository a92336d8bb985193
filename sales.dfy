/** The direct-sale routes (admin only): create a sale priced at quantity
    times rate, update one, and list the most recent. */
module Sales {
  import opened Wrappers
  import opened Shared
  import opened Collections
  import opened Validation
  import opened SalesModel
  import opened Text

  /** The create body. Required text is "" when absent; the numbers are
      `None` when not numeric; the optional fields are `None` when absent. */
  datatype SaleRequest = SaleRequest(
    customerName: string,
    customerContact: string,
    riceType: string,
    quantity: Option<int>,
    rate: Option<int>,
    customerAddress: Option<string>,
    vehicleNumber: Option<string>,
    driverName: Option<string>,
    destination: Option<string>,
    status: Option<string>,
    paymentStatus: Option<string>,
    paidAmount: Option<int>)

  function SaleErrors(req: SaleRequest): (errs: seq<string>)
    ensures errs == [] <==> && req.customerName != "" && req.customerContact != "" && req.riceType != ""
                            && req.quantity.Some? && req.rate.Some?
  {
    var checks := [ Check(req.customerName != "", "Customer name is required"),
                    Check(req.customerContact != "", "Customer contact is required"),
                    Check(req.riceType != "", "Rice type is required"),
                    Check(req.quantity.Some?, "Quantity must be a number"),
                    Check(req.rate.Some?, "Rate must be a number") ];
    assert checks[0].passes && checks[1].passes && checks[2].passes && checks[3].passes && checks[4].passes
       <==> forall i :: 0 <= i < |checks| ==> checks[i].passes;
    Failures(checks)
  }

  /** What the route hands to `new Sales(...)`: the body, the total priced
      at quantity times rate, the balance set to that total, and the seller. */
  function DraftOf(req: SaleRequest, user: UserId): (d: SaleDraft)
    requires req.quantity.Some? && req.rate.Some?
  {
    var total := req.quantity.value * req.rate.value;
    SaleDraft(req.customerName, req.customerContact, req.customerAddress, req.riceType,
              req.quantity.value, req.rate.value, total, total,
              req.vehicleNumber, req.driverName, req.destination,
              req.status, req.paymentStatus, req.paidAmount, user)
  }

  datatype SaleResult = SaleResult(reply: Reply<Sale>, sales: seq<Sale>)

  /** The create route: the validators (400), then the save, which fails
      (500) on an enum value outside its list or a schema validator, and
      otherwise stores the document as the pre-save hook leaves it. */
  function CreateSale(sales: seq<Sale>, req: SaleRequest, user: UserId, now: Time): (r: SaleResult)
    ensures r.reply.Err? ==> r.sales == sales
    ensures r.reply.Ok? ==> r.sales == sales + [r.reply.value]
  {
    var errs := SaleErrors(req);
    if errs != [] then SaleResult(Err(400, errs), sales)
    else Store(sales, DraftOf(req, user), now)
  }

  /** `new Sales(draft).save()` on the stored sales. */
  function Store(sales: seq<Sale>, d: SaleDraft, now: Time): (r: SaleResult)
    ensures r.reply.Err? ==> r.sales == sales
    ensures r.reply.Ok? ==> r.sales == sales + [r.reply.value]
  {
    match SaleOfDraft(d, now)
    case None => SaleResult(Err(500, ServerError), sales)
    case Some(doc) =>
      if !Conforms(doc) then SaleResult(Err(500, ServerError), sales)
      else SaleResult(Ok(PreSave(doc)), sales + [PreSave(doc)])
  }

  /** What a created sale holds: the total is quantity times rate and none
      of the amounts is negative; the derived fields agree with the amounts;
      with no payment in the body it starts pending with the whole total
      outstanding. */
  lemma SaleCreated(sales: seq<Sale>, req: SaleRequest, user: UserId, now: Time)
    requires CreateSale(sales, req, user, now).reply.Ok?
    ensures var s := CreateSale(sales, req, user, now).reply.value;
            && SaleErrors(req) == []
            && s.quantity == req.quantity.value && s.rate == req.rate.value
            && s.totalAmount == req.quantity.value * req.rate.value
            && s.quantity >= 0 && s.rate >= 0 && s.totalAmount >= 0 && s.paidAmount >= 0
            && Derived(s) && s.soldBy == user && s.createdAt == now
            && (req.paidAmount.None? ==> && s.paidAmount == 0 && s.balanceAmount == s.totalAmount
                                         && s.paymentStatus == PaymentStatus.Pending)
            && (req.status.None? ==> s.status == SaleStatus.Pending)
  {
    assert SaleErrors(req) == [];
    var doc := SaleOfDraft(DraftOf(req, user), now);
    assert doc.Some? && Conforms(doc.value);
  }

  lemma ProductNonNegative(a: int, b: int)
    requires a >= 0 && b >= 0
    ensures a * b >= 0
  {
  }

  /** A plain sale (no status, no payment in the body) of non-negative
      quantity and rate, with customer and rice type not blank, is stored. */
  lemma PlainSaleAccepted(sales: seq<Sale>, req: SaleRequest, user: UserId, now: Time)
    requires SaleErrors(req) == []
    requires req.quantity.value >= 0 && req.rate.value >= 0
    requires Trim(req.customerName) != "" && Trim(req.customerContact) != "" && Trim(req.riceType) != ""
    requires req.status.None? && req.paymentStatus.None? && req.paidAmount.None?
    ensures CreateSale(sales, req, user, now).reply.Ok?
  {
    var d := DraftOf(req, user);
    ProductNonNegative(req.quantity.value, req.rate.value);
    PlainDraftStored(sales, d, now);
    assert CreateSale(sales, req, user, now) == Store(sales, d, now);
  }

  lemma PlainDraftStored(sales: seq<Sale>, d: SaleDraft, now: Time)
    requires d.quantity >= 0 && d.rate >= 0 && d.totalAmount >= 0 && d.balanceAmount >= 0
    requires Trim(d.customerName) != "" && Trim(d.customerContact) != "" && Trim(d.riceType) != ""
    requires d.status.None? && d.paymentStatus.None? && d.paidAmount.None?
    ensures Store(sales, d, now).reply.Ok?
  {
    var doc := SaleOfDraft(d, now);
    assert doc.Some? && Conforms(doc.value);
  }

  /** The create handler on the stored sales. */
  method Create(sales: Collection<Sale>, req: SaleRequest, user: UserId, now: Time) returns (reply: Reply<Sale>)
    modifies sales
    ensures SaleResult(reply, sales.docs) == CreateSale(old(sales.docs), req, user, now)
  {
    var errs := SaleErrors(req);
    if errs != [] {
      return Err(400, errs);
    }
    var saved := InsertSale(sales, DraftOf(req, user), now);
    if saved.None? {
      return Err(500, ServerError);
    }
    reply := Ok(saved.value);
  }

  /** The update body: `None` for each field it leaves out. */
  datatype SalePatch = SalePatch(
    customerName: Option<string>,
    customerContact: Option<string>,
    customerAddress: Option<string>,
    riceType: Option<string>,
    quantity: Option<int>,
    rate: Option<int>,
    totalAmount: Option<int>,
    paidAmount: Option<int>,
    balanceAmount: Option<int>,
    status: Option<string>,
    paymentStatus: Option<string>,
    vehicleNumber: Option<string>,
    driverName: Option<string>,
    destination: Option<string>,
    dispatchDate: Option<Time>)

  predicate GivenText(v: Option<string>) {
    v.None? || Trim(v.value) != ""
  }

  predicate GivenAmount(v: Option<int>) {
    v.None? || v.value >= 0
  }

  /** The update validators, which check only the fields the body gives:
      required text not blank once trimmed, no negative number, the enums. */
  predicate PatchConforms(p: SalePatch) {
    && GivenText(p.customerName) && GivenText(p.customerContact) && GivenText(p.riceType)
    && GivenAmount(p.quantity) && GivenAmount(p.rate) && GivenAmount(p.totalAmount)
    && GivenAmount(p.paidAmount) && GivenAmount(p.balanceAmount)
    && (p.status.None? || ParseSaleStatus(p.status.value).Some?)
    && (p.paymentStatus.None? || ParsePaymentStatus(p.paymentStatus.value).Some?)
  }

  function Patched<T>(old_: T, given: Option<T>): T {
    if given.Some? then given.value else old_
  }

  function PatchedText(old_: string, given: Option<string>): string {
    if given.Some? then Trim(given.value) else old_
  }

  function PatchedOptionalText(old_: Option<string>, given: Option<string>): Option<string> {
    if given.Some? then TrimOption(given) else old_
  }

  /** The document after `$set` of the given fields (strings trimmed by the
      schema's setters); no field is recomputed. */
  function ApplyPatch(s: Sale, p: SalePatch): (r: Sale)
    requires PatchConforms(p)
  {
    var status := if p.status.Some? then ParseSaleStatus(p.status.value).value else s.status;
    var paymentStatus := if p.paymentStatus.Some? then ParsePaymentStatus(p.paymentStatus.value).value
                         else s.paymentStatus;
    s.(customerName := PatchedText(s.customerName, p.customerName),
       customerContact := PatchedText(s.customerContact, p.customerContact),
       customerAddress := PatchedOptionalText(s.customerAddress, p.customerAddress),
       riceType := PatchedText(s.riceType, p.riceType),
       quantity := Patched(s.quantity, p.quantity),
       rate := Patched(s.rate, p.rate),
       totalAmount := Patched(s.totalAmount, p.totalAmount),
       paidAmount := Patched(s.paidAmount, p.paidAmount),
       balanceAmount := Patched(s.balanceAmount, p.balanceAmount),
       status := status,
       paymentStatus := paymentStatus,
       vehicleNumber := PatchedOptionalText(s.vehicleNumber, p.vehicleNumber),
       driverName := PatchedOptionalText(s.driverName, p.driverName),
       destination := PatchedOptionalText(s.destination, p.destination),
       dispatchDate := Patched(s.dispatchDate, p.dispatchDate))
  }

  /** A conforming sale stays conforming under a conforming patch. */
  lemma PatchKeepsConforms(s: Sale, p: SalePatch)
    requires Conforms(s) && PatchConforms(p)
    ensures Conforms(ApplyPatch(s, p))
  {
  }

  /** The update route as written: `findByIdAndUpdate` with validators on,
      so a failing validator is 500 before the id is looked up, an unknown id
      is 404, and the given fields are written as sent — the pre-save hook
      does not run on this path. */
  function UpdateSale(sales: seq<Sale>, id: nat, p: SalePatch): (r: SaleResult)
    ensures r.reply.Err? ==> r.sales == sales
    ensures r.reply == Err(500, ServerError) <==> !PatchConforms(p)
    ensures r.reply == Err(404, ["Sale not found"]) <==> PatchConforms(p) && id >= |sales|
    ensures r.reply.Ok? ==> id < |sales| && r.sales == sales[id := r.reply.value]
  {
    if !PatchConforms(p) then SaleResult(Err(500, ServerError), sales)
    else if id >= |sales| then SaleResult(Err(404, ["Sale not found"]), sales)
    else SaleResult(Ok(ApplyPatch(sales[id], p)), sales[id := ApplyPatch(sales[id], p)])
  }

  /** The update only changes the fields the body gives: a dispatch update
      (status and vehicle details) leaves every amount as it was. */
  lemma DispatchUpdateKeepsAmounts(sales: seq<Sale>, id: nat, p: SalePatch)
    requires UpdateSale(sales, id, p).reply.Ok?
    requires p.quantity.None? && p.rate.None? && p.totalAmount.None? && p.paidAmount.None?
    requires p.balanceAmount.None? && p.paymentStatus.None?
    ensures var s := UpdateSale(sales, id, p).reply.value;
            && s.totalAmount == sales[id].totalAmount && s.paidAmount == sales[id].paidAmount
            && s.balanceAmount == sales[id].balanceAmount && s.paymentStatus == sales[id].paymentStatus
            && (p.status.Some? ==> SaleStatusName(s.status) == p.status.value)
            && (p.status.None? ==> s.status == sales[id].status)
  {
  }

  /** As written, changing the paid amount through the update leaves the
      balance and the payment status behind: a sale whose derived fields
      agreed with its amounts no longer does. */
  lemma UpdateSkipsHook(sales: seq<Sale>, id: nat, paid: nat)
    requires id < |sales| && Derived(sales[id]) && paid != sales[id].paidAmount
    ensures var p := SalePatch(None, None, None, None, None, None, None, Some(paid as int), None, None, None, None, None, None, None);
            var r := UpdateSale(sales, id, p);
            r.reply.Ok? && !Derived(r.reply.value)
  {
    var p := SalePatch(None, None, None, None, None, None, None, Some(paid as int), None, None, None, None, None, None, None);
    var s := ApplyPatch(sales[id], p);
    assert s.balanceAmount == sales[id].balanceAmount && s.paidAmount == paid;
  }

  /** The update as evidently intended: the same write followed by the
      pre-save hook, so the derived fields are recomputed from the amounts. */
  function UpdateSaleCorrected(sales: seq<Sale>, id: nat, p: SalePatch): (r: SaleResult)
    ensures r.reply.Err? ==> r.sales == sales
    ensures r.reply.Ok? ==> id < |sales| && r.sales == sales[id := r.reply.value] && Derived(r.reply.value)
  {
    if !PatchConforms(p) then SaleResult(Err(500, ServerError), sales)
    else if id >= |sales| then SaleResult(Err(404, ["Sale not found"]), sales)
    else SaleResult(Ok(PreSave(ApplyPatch(sales[id], p))), sales[id := PreSave(ApplyPatch(sales[id], p))])
  }

  /** Corrected, every update keeps all stored sales derived, and on a
      derived sale it agrees with the route as written whenever the body
      touches none of the amounts. */
  lemma UpdateCorrectedKeepsDerived(sales: seq<Sale>, id: nat, p: SalePatch)
    requires forall i :: 0 <= i < |sales| ==> Derived(sales[i])
    ensures var r := UpdateSaleCorrected(sales, id, p);
            forall i :: 0 <= i < |r.sales| ==> Derived(r.sales[i])
    ensures p.totalAmount.None? && p.paidAmount.None? && p.balanceAmount.None? && p.paymentStatus.None?
            ==> UpdateSaleCorrected(sales, id, p) == UpdateSale(sales, id, p)
  {
    var r := UpdateSaleCorrected(sales, id, p);
    if r.reply.Ok? {
      assert forall i :: 0 <= i < |r.sales| && i != id ==> r.sales[i] == sales[i];
    }
    if p.totalAmount.None? && p.paidAmount.None? && p.balanceAmount.None? && p.paymentStatus.None?
       && PatchConforms(p) && id < |sales| {
      var s := ApplyPatch(sales[id], p);
      assert Derived(s);
      PreSaveIdempotent(s);
    }
  }

  /** The update handler on the stored sales, as written. */
  method Update(sales: Collection<Sale>, id: nat, p: SalePatch) returns (reply: Reply<Sale>)
    modifies sales
    ensures SaleResult(reply, sales.docs) == UpdateSale(old(sales.docs), id, p)
  {
    if !PatchConforms(p) {
      return Err(500, ServerError);
    }
    if id >= |sales.docs| {
      return Err(404, ["Sale not found"]);
    }
    var s := ApplyPatch(sales.docs[id], p);
    sales.Replace(id, s);
    reply := Ok(s);
  }

  /** `parseInt(req.query.limit) || 10`: the parsed number, or ten when the
      query is absent, not numeric, or zero. */
  function RecentLimit(query: Option<string>): (n: int)
    ensures n != 0
  {
    if query.None? then 10
    else match ParseInt(query.value)
      case None => 10
      case Some(k) => if k == 0 then 10 else k
  }

  /** The limit reads back a positive number written in decimal, with or
      without text after it; zero, an absent query and a query that does not
      start with a number fall back to ten. */
  lemma RecentLimitOfDecimal(n: nat, rest: string)
    requires rest == [] || !IsDigit(rest[0])
    ensures RecentLimit(Some(Decimal(n) + rest)) == if n == 0 then 10 else n
    ensures RecentLimit(None) == 10
  {
    ParseIntOfDecimal(n, rest);
  }

  /** A negative limit such as `-3` is passed on to the query as it is. */
  lemma RecentLimitOfNegative(n: nat, rest: string)
    requires n > 0 && (rest == [] || !IsDigit(rest[0]))
    ensures RecentLimit(Some("-" + Decimal(n) + rest)) == -(n as int)
  {
    ParseIntOfNegativeDecimal(n, rest);
  }

  /** A query that does not start with a number falls back to ten. */
  lemma RecentLimitOfText(q: string)
    requires q != [] && !IsDigit(q[0]) && !IsSpace(q[0]) && q[0] != '-' && q[0] != '+'
    ensures RecentLimit(Some(q)) == 10
  {
    TrimStartUnchanged(q);
  }

  /** `limit(n)` of the driver: a negative limit returns as many documents
      as its absolute value. */
  function LimitCount(n: int): nat {
    if n < 0 then -n else n
  }

  /** The recent-sales route: the newest sales first, at most the limit. */
  function RecentSales(sales: seq<Sale>, query: Option<string>): (r: seq<Sale>)
    ensures var n := LimitCount(RecentLimit(query));
            |r| == (if n < |sales| then n else |sales|)
    ensures forall i :: 0 <= i < |r| ==> r[i] == sales[|sales| - 1 - i]
  {
    Take(NewestFirst(sales), LimitCount(RecentLimit(query)))
  }

  /** Without a limit the route lists the ten newest sales, or all of them
      when there are fewer. */
  lemma RecentDefaultsToTen(sales: seq<Sale>)
    ensures |RecentSales(sales, None)| == if |sales| < 10 then |sales| else 10
    ensures forall s :: s in RecentSales(sales, None) ==> s in sales
  {
    var r := RecentSales(sales, None);
    forall s | s in r
      ensures s in sales
    {
      var i :| 0 <= i < |r| && r[i] == s;
      assert sales[|sales| - 1 - i] == s;
    }
  }
}
