/** The dealer routes (admin only): create with the next `DLR` code,
    update, disable (the soft delete) and the overview of one dealer. */
module Dealers {
  import opened Wrappers
  import opened Shared
  import opened Collections
  import opened Validation
  import opened SequentialIds
  import opened DealerModel
  import opened DealerOrderModel
  import opened InvoiceModel
  import DealerOrders

  /** The create body. `status` is "" when absent or empty. */
  datatype DealerRequest = DealerRequest(dealerName: string, businessName: string, contactNumber: string,
                                         location: string, gstNumber: Option<string>, status: string)

  function DealerErrors(req: DealerRequest): (errs: seq<string>)
    ensures errs == [] <==> req.dealerName != "" && req.businessName != "" && req.contactNumber != ""
                            && req.location != ""
  {
    var checks := [ Check(req.dealerName != "", "Dealer name is required"),
                    Check(req.businessName != "", "Business name is required"),
                    Check(req.contactNumber != "", "Contact number is required"),
                    Check(req.location != "", "Location is required") ];
    assert checks[0].passes && checks[1].passes && checks[2].passes && checks[3].passes
       <==> forall i :: 0 <= i < |checks| ==> checks[i].passes;
    Failures(checks)
  }

  /** `req.body.status || 'active'`: an absent or empty status means active. */
  function StatusOrDefault(status: string): (s: string)
    ensures status != "" ==> s == status
    ensures s != ""
  {
    if status == "" then "active" else status
  }

  /** The dealer codes in stored order. */
  function Codes(dealers: seq<Dealer>): (cs: seq<string>)
    ensures |cs| == |dealers| && forall i :: 0 <= i < |dealers| ==> cs[i] == dealers[i].dealerId
  {
    seq(|dealers|, i requires 0 <= i < |dealers| => dealers[i].dealerId)
  }

  /** The `i`-th dealer holds the code generated when `i` dealers existed. */
  predicate NumberedDealers(dealers: seq<Dealer>) {
    NumberedInOrder("DLR", Codes(dealers))
  }

  datatype DealerResult = DealerResult(reply: Reply<Dealer>, dealers: seq<Dealer>)

  /** The create route: the validators (400), then the code for the current
      count; the status enum and the unique code are the save's checks (500). */
  function CreateDealer(dealers: seq<Dealer>, req: DealerRequest): (r: DealerResult)
    ensures r.reply.Err? ==> r.dealers == dealers
    ensures r.reply.Ok? ==> r.dealers == dealers + [r.reply.value]
  {
    var errs := DealerErrors(req);
    if errs != [] then DealerResult(Err(400, errs), dealers)
    else Register(dealers, req)
  }

  /** The save of a validated request. */
  function Register(dealers: seq<Dealer>, req: DealerRequest): (r: DealerResult)
    ensures r.reply.Err? ==> r.dealers == dealers
    ensures r.reply.Ok? ==> r.dealers == dealers + [r.reply.value]
  {
    var code := DealerCode(|dealers|);
    match ParseDealerStatus(StatusOrDefault(req.status))
    case None => DealerResult(Err(500, ServerError), dealers)
    case Some(st) =>
      if code in Codes(dealers) then DealerResult(Err(500, ServerError), dealers)
      else
        var d := Dealer(code, req.dealerName, req.businessName, req.contactNumber, req.location,
                        req.gstNumber, st);
        DealerResult(Ok(d), dealers + [d])
  }

  /** With the dealers numbered in order the next code is not yet taken. */
  lemma NextCodeFree(dealers: seq<Dealer>)
    requires NumberedDealers(dealers)
    ensures DealerCode(|dealers|) !in Codes(dealers)
  {
    NextIdFree("DLR", Codes(dealers));
  }

  /** With the dealers numbered in order, a request is accepted exactly when
      the four required fields are given and the status, defaulted to
      active, is one of the two statuses. */
  lemma CreateAcceptedIff(dealers: seq<Dealer>, req: DealerRequest)
    requires NumberedDealers(dealers)
    ensures CreateDealer(dealers, req).reply.Ok?
            <==> DealerErrors(req) == [] && ParseDealerStatus(StatusOrDefault(req.status)).Some?
  {
    NextCodeFree(dealers);
  }

  /** What a created dealer holds: the next code, the fields as sent, and
      active unless another status was asked for. */
  lemma DealerCreated(dealers: seq<Dealer>, req: DealerRequest)
    requires CreateDealer(dealers, req).reply.Ok?
    ensures var d := CreateDealer(dealers, req).reply.value;
            && d.dealerId == DealerCode(|dealers|)
            && d.dealerName == req.dealerName && d.businessName == req.businessName
            && d.contactNumber == req.contactNumber && d.location == req.location
            && d.gstNumber == req.gstNumber
            && (req.status == "" ==> d.status == Active)
            && (req.status != "" ==> DealerStatusName(d.status) == req.status)
  {
    assert DealerErrors(req) == [];
  }

  /** Creating a dealer keeps the dealers numbered in order. */
  lemma CreateKeepsNumbering(dealers: seq<Dealer>, req: DealerRequest)
    requires NumberedDealers(dealers)
    ensures NumberedDealers(CreateDealer(dealers, req).dealers)
  {
    var r := CreateDealer(dealers, req);
    if r.reply.Ok? {
      DealerCreated(dealers, req);
      NumberedAppend("DLR", Codes(dealers));
      assert Codes(r.dealers) == Codes(dealers) + [DealerCode(|dealers|)];
    }
  }

  /** The update body: `None` for each field the body leaves out. */
  datatype DealerPatch = DealerPatch(dealerName: Option<string>, businessName: Option<string>,
                                     contactNumber: Option<string>, location: Option<string>,
                                     gstNumber: Option<string>, status: Option<string>)

  function Patched<T>(old_: T, given: Option<T>): T {
    if given.Some? then given.value else old_
  }

  /** The update route: `findByIdAndUpdate` with validators on, so a status
      outside the enum fails (500) before the id is looked up; an unknown id
      is 404; the code and the fields the body leaves out are kept. */
  function UpdateDealer(dealers: seq<Dealer>, id: nat, patch: DealerPatch): (r: DealerResult)
    ensures r.reply.Err? ==> r.dealers == dealers
    ensures r.reply == Err(500, ServerError) <==> patch.status.Some? && ParseDealerStatus(patch.status.value).None?
    ensures r.reply == Err(404, ["Dealer not found"])
            <==> (patch.status.None? || ParseDealerStatus(patch.status.value).Some?) && id >= |dealers|
    ensures r.reply.Ok? ==> id < |dealers| && r.dealers == dealers[id := r.reply.value]
  {
    var status := if patch.status.None? then Some(None) else
                    match ParseDealerStatus(patch.status.value)
                    case None => None
                    case Some(st) => Some(Some(st));
    if status.None? then DealerResult(Err(500, ServerError), dealers)
    else if id >= |dealers| then DealerResult(Err(404, ["Dealer not found"]), dealers)
    else
      var d := dealers[id];
      var updated := Dealer(d.dealerId,
                            Patched(d.dealerName, patch.dealerName),
                            Patched(d.businessName, patch.businessName),
                            Patched(d.contactNumber, patch.contactNumber),
                            Patched(d.location, patch.location),
                            if patch.gstNumber.Some? then patch.gstNumber else d.gstNumber,
                            Patched(d.status, status.value));
      DealerResult(Ok(updated), dealers[id := updated])
  }

  /** An accepted update writes exactly the fields the body gives: the
      dealer's code never changes, a field left out keeps its value, and a
      field given takes it. */
  lemma UpdateWritesGivenFields(dealers: seq<Dealer>, id: nat, patch: DealerPatch)
    requires UpdateDealer(dealers, id, patch).reply.Ok?
    ensures var d := UpdateDealer(dealers, id, patch).reply.value;
            && d.dealerId == dealers[id].dealerId
            && (patch.dealerName.None? ==> d.dealerName == dealers[id].dealerName)
            && (patch.dealerName.Some? ==> d.dealerName == patch.dealerName.value)
            && (patch.businessName.None? ==> d.businessName == dealers[id].businessName)
            && (patch.businessName.Some? ==> d.businessName == patch.businessName.value)
            && (patch.contactNumber.None? ==> d.contactNumber == dealers[id].contactNumber)
            && (patch.contactNumber.Some? ==> d.contactNumber == patch.contactNumber.value)
            && (patch.location.None? ==> d.location == dealers[id].location)
            && (patch.location.Some? ==> d.location == patch.location.value)
            && (patch.gstNumber.None? ==> d.gstNumber == dealers[id].gstNumber)
            && (patch.gstNumber.Some? ==> d.gstNumber == patch.gstNumber)
            && (patch.status.None? ==> d.status == dealers[id].status)
            && (patch.status.Some? ==> DealerStatusName(d.status) == patch.status.value)
  {
  }

  /** An update with an empty body leaves the dealer as it was. */
  lemma EmptyUpdateChangesNothing(dealers: seq<Dealer>, id: nat)
    requires id < |dealers|
    ensures UpdateDealer(dealers, id, DealerPatch(None, None, None, None, None, None))
            == DealerResult(Ok(dealers[id]), dealers)
  {
  }

  /** Updating keeps the dealers numbered in order. */
  lemma UpdateKeepsNumbering(dealers: seq<Dealer>, id: nat, patch: DealerPatch)
    requires NumberedDealers(dealers)
    ensures NumberedDealers(UpdateDealer(dealers, id, patch).dealers)
  {
    var r := UpdateDealer(dealers, id, patch);
    if r.reply.Ok? {
      UpdateWritesGivenFields(dealers, id, patch);
      assert Codes(r.dealers) == Codes(dealers);
    }
  }

  /** The disable route: only the status changes, to inactive. */
  function DisableDealer(dealers: seq<Dealer>, id: nat): (r: DealerResult)
    ensures r.reply.Err? <==> id >= |dealers|
    ensures r.reply.Err? ==> r.reply == Err(404, ["Dealer not found"]) && r.dealers == dealers
    ensures r.reply.Ok? ==> r.reply.value == dealers[id].(status := Inactive)
                            && r.dealers == dealers[id := r.reply.value]
  {
    if id >= |dealers| then DealerResult(Err(404, ["Dealer not found"]), dealers)
    else DealerResult(Ok(dealers[id].(status := Inactive)), dealers[id := dealers[id].(status := Inactive)])
  }

  /** Disabling twice is the same as disabling once. */
  lemma DisableIdempotent(dealers: seq<Dealer>, id: nat)
    ensures var once := DisableDealer(dealers, id);
            DisableDealer(once.dealers, id) == once
  {
    if id < |dealers| {
      var once := DisableDealer(dealers, id);
      assert once.dealers[id] == dealers[id].(status := Inactive);
      assert once.dealers[id := once.dealers[id].(status := Inactive)] == once.dealers;
    }
  }

  /** Disabling keeps the dealers numbered in order. */
  lemma DisableKeepsNumbering(dealers: seq<Dealer>, id: nat)
    requires NumberedDealers(dealers)
    ensures NumberedDealers(DisableDealer(dealers, id).dealers)
  {
    assert Codes(DisableDealer(dealers, id).dealers) == Codes(dealers);
  }

  /** A dealer once disabled can no longer place an order: the codes are
      distinct, so no other dealer carries the disabled dealer's code. */
  lemma DisabledDealerCannotOrder(dealers: seq<Dealer>, id: nat, orders: seq<DealerOrder>,
                                  req: DealerOrders.OrderRequest, user: UserId, now: Time)
    requires NumberedDealers(dealers) && id < |dealers|
    ensures var after := DisableDealer(dealers, id).dealers;
            DealerOrders.PlaceOrder(orders, after, req, user, dealers[id].dealerId, now).reply.Err?
  {
    var after := DisableDealer(dealers, id).dealers;
    NumberedIdsDistinct("DLR", Codes(dealers));
    assert forall i :: 0 <= i < |dealers| && i != id ==> Codes(dealers)[i] != Codes(dealers)[id];
    DealerOrders.InactiveDealerCannotOrder(orders, after, req, user, dealers[id].dealerId, now);
  }

  /** The orders of the dealer stored at `id`, in stored order (see
      `OrdersOfGrow`), each as many times as it is stored. */
  function OrdersOf(orders: seq<DealerOrder>, id: nat): (r: seq<DealerOrder>)
    ensures forall o :: o in r <==> o in orders && o.dealer == id
    ensures forall o :: multiset(r)[o] == if o.dealer == id then multiset(orders)[o] else 0
  {
    Filter(orders, (o: DealerOrder) => o.dealer == id)
  }

  /** A stored order joins the end of its own dealer's list and no other. */
  lemma OrdersOfGrow(orders: seq<DealerOrder>, o: DealerOrder, id: nat)
    ensures OrdersOf([], id) == []
    ensures OrdersOf(orders + [o], id) == OrdersOf(orders, id) + (if o.dealer == id then [o] else [])
  {
    FilterAppend(orders, o, (o: DealerOrder) => o.dealer == id);
  }

  /** The invoices of the dealer stored at `id`, in stored order (see
      `InvoicesOfGrow`), each as many times as it is stored. */
  function InvoicesOf(invoices: seq<Invoice>, id: nat): (r: seq<Invoice>)
    ensures forall v :: v in r <==> v in invoices && v.dealer == id
    ensures forall v :: multiset(r)[v] == if v.dealer == id then multiset(invoices)[v] else 0
  {
    Filter(invoices, (v: Invoice) => v.dealer == id)
  }

  /** A stored invoice joins the end of its own dealer's list and no other. */
  lemma InvoicesOfGrow(invoices: seq<Invoice>, v: Invoice, id: nat)
    ensures InvoicesOf([], id) == []
    ensures InvoicesOf(invoices + [v], id) == InvoicesOf(invoices, id) + (if v.dealer == id then [v] else [])
  {
    FilterAppend(invoices, v, (v: Invoice) => v.dealer == id);
  }

  /** The most documents the overview lists of each kind. */
  const OverviewLimit: nat := 50

  datatype Overview = Overview(dealer: Dealer, orders: seq<DealerOrder>, invoices: seq<Invoice>)

  /** The overview route: the dealer, its latest orders and its latest
      invoices, newest first. */
  function DealerOverview(dealers: seq<Dealer>, orders: seq<DealerOrder>, invoices: seq<Invoice>,
                          id: nat): (r: Reply<Overview>)
    ensures r.Err? <==> id >= |dealers|
    ensures r.Err? ==> r == Err(404, ["Dealer not found"])
    ensures r.Ok? ==> r.value.dealer == dealers[id]
  {
    if id >= |dealers| then Err(404, ["Dealer not found"])
    else Ok(Overview(dealers[id], Take(NewestFirst(OrdersOf(orders, id)), OverviewLimit),
                     Take(NewestFirst(InvoicesOf(invoices, id)), OverviewLimit)))
  }

  /** The overview lists only the dealer's own orders and invoices, at most
      fifty of each, the newest first; a dealer with at most fifty of a kind
      sees all of them. */
  lemma OverviewListsLatestOwn(dealers: seq<Dealer>, orders: seq<DealerOrder>, invoices: seq<Invoice>, id: nat)
    requires id < |dealers|
    ensures var v := DealerOverview(dealers, orders, invoices, id).value;
            var own := OrdersOf(orders, id);
            var ownInvoices := InvoicesOf(invoices, id);
            && |v.orders| == (if |own| < OverviewLimit then |own| else OverviewLimit)
            && |v.invoices| == (if |ownInvoices| < OverviewLimit then |ownInvoices| else OverviewLimit)
            && (forall o :: o in v.orders ==> o in orders && o.dealer == id)
            && (forall x :: x in v.invoices ==> x in invoices && x.dealer == id)
            && (forall i :: 0 <= i < |v.orders| ==> v.orders[i] == own[|own| - 1 - i])
            && (forall i :: 0 <= i < |v.invoices| ==> v.invoices[i] == ownInvoices[|ownInvoices| - 1 - i])
            && (|own| <= OverviewLimit ==> forall o :: o in orders && o.dealer == id ==> o in v.orders)
            && (|ownInvoices| <= OverviewLimit ==> forall x :: x in invoices && x.dealer == id ==> x in v.invoices)
  {
    var v := DealerOverview(dealers, orders, invoices, id).value;
    var own := OrdersOf(orders, id);
    var ownInvoices := InvoicesOf(invoices, id);
    assert v.orders == Take(NewestFirst(own), OverviewLimit);
    assert v.invoices == Take(NewestFirst(ownInvoices), OverviewLimit);
    NewestTaken(own, OverviewLimit);
    NewestTaken(ownInvoices, OverviewLimit);
  }

  /** The create handler on the stored dealers. */
  method Create(dealers: Collection<Dealer>, req: DealerRequest) returns (reply: Reply<Dealer>)
    modifies dealers
    ensures DealerResult(reply, dealers.docs) == CreateDealer(old(dealers.docs), req)
  {
    var errs := DealerErrors(req);
    if errs != [] {
      return Err(400, errs);
    }
    var code := DealerCode(|dealers.docs|);
    var status := ParseDealerStatus(StatusOrDefault(req.status));
    if status.None? || code in Codes(dealers.docs) {
      return Err(500, ServerError);
    }
    var d := Dealer(code, req.dealerName, req.businessName, req.contactNumber, req.location,
                    req.gstNumber, status.value);
    var _ := dealers.Insert(d);
    reply := Ok(d);
  }

  /** The update handler on the stored dealers. */
  method Update(dealers: Collection<Dealer>, id: nat, patch: DealerPatch) returns (reply: Reply<Dealer>)
    modifies dealers
    ensures DealerResult(reply, dealers.docs) == UpdateDealer(old(dealers.docs), id, patch)
  {
    var status: Option<DealerStatus> := None;
    if patch.status.Some? {
      status := ParseDealerStatus(patch.status.value);
      if status.None? {
        return Err(500, ServerError);
      }
    }
    if id >= |dealers.docs| {
      return Err(404, ["Dealer not found"]);
    }
    var d := dealers.docs[id];
    var updated := Dealer(d.dealerId,
                          Patched(d.dealerName, patch.dealerName),
                          Patched(d.businessName, patch.businessName),
                          Patched(d.contactNumber, patch.contactNumber),
                          Patched(d.location, patch.location),
                          if patch.gstNumber.Some? then patch.gstNumber else d.gstNumber,
                          Patched(d.status, status));
    dealers.Replace(id, updated);
    reply := Ok(updated);
  }

  /** The disable handler on the stored dealers. */
  method Disable(dealers: Collection<Dealer>, id: nat) returns (reply: Reply<Dealer>)
    modifies dealers
    ensures DealerResult(reply, dealers.docs) == DisableDealer(old(dealers.docs), id)
  {
    if id >= |dealers.docs| {
      return Err(404, ["Dealer not found"]);
    }
    var d := dealers.docs[id].(status := Inactive);
    dealers.Replace(id, d);
    reply := Ok(d);
  }
}
