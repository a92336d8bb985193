/** The dealer-order routes: a dealer places an order for bags of a rice
    brand; an admin approves it, which deducts the bags and kilograms from the
    matching rice stock, or sets its status directly. */
module DealerOrders {
  import opened Wrappers
  import opened Shared
  import opened Text
  import opened Validation
  import opened Collections
  import opened DealerModel
  import opened DealerOrderModel
  import opened RiceModel

  /** `BAG_WEIGHTS`: the kilograms in one bag of each size, which is the
      number written in the size's name. */
  function BagWeight(size: BagSize): (kg: nat)
    ensures BagSizeName(size) == Decimal(kg) + "kg"
  {
    match size
    case Kg5 => assert Decimal(5) == "5"; 5
    case Kg10 => assert Decimal(10) == "10"; 10
    case Kg25 => assert Decimal(25) == "25"; 25
    case Kg75 => assert Decimal(75) == "75"; 75
  }

  /** The kilograms an order of `bags` bags of `size` amounts to. */
  function OrderKg(size: BagSize, bags: int): int {
    BagWeight(size) * bags
  }

  // ---- POST /dealer-orders/dealer ----

  /** The body of a new order; `quantityBags` is `None` when it is not an
      integer. */
  datatype OrderRequest = OrderRequest(riceType: string, brand: string, bagSize: string, quantityBags: Option<int>)

  function OrderChecks(req: OrderRequest): seq<Check> {
    [ Check(req.riceType != "", "Rice type is required"),
      Check(req.brand != "", "Brand is required"),
      Check(ParseBagSize(req.bagSize).Some?, "Invalid bag size"),
      Check(req.quantityBags.Some? && req.quantityBags.value >= 1, "Quantity must be at least 1") ]
  }

  function OrderErrors(req: OrderRequest): (errs: seq<string>)
    ensures errs == [] <==> && req.riceType != "" && req.brand != "" && ParseBagSize(req.bagSize).Some?
                            && req.quantityBags.Some? && req.quantityBags.value >= 1
  {
    var checks := OrderChecks(req);
    assert checks[0].passes && checks[1].passes && checks[2].passes && checks[3].passes
       <==> forall i :: 0 <= i < |checks| ==> checks[i].passes;
    Failures(checks)
  }

  /** `Dealer.findOne({ dealerId, status: 'active' })`. */
  function ActiveDealer(dealers: seq<Dealer>, dealerId: string): (k: Option<nat>)
    ensures k.Some? ==> k.value < |dealers| && dealers[k.value].dealerId == dealerId
                        && dealers[k.value].status == Active
    ensures k.None? <==> forall i :: 0 <= i < |dealers| ==> !(dealers[i].dealerId == dealerId && dealers[i].status == Active)
  {
    FindFirst(dealers, (d: Dealer) => d.dealerId == dealerId && d.status == Active)
  }

  datatype PlaceResult = PlaceResult(reply: Reply<DealerOrder>, orders: seq<DealerOrder>)

  /** The order route's outcome for the logged-in dealer `dealerId`: a
      refused request stores nothing; an accepted one appends one pending
      order of `BagWeight(size) * quantityBags` kilograms, linked to the
      caller's active dealer record. */
  function PlaceOrder(orders: seq<DealerOrder>, dealers: seq<Dealer>, req: OrderRequest,
                      user: UserId, dealerId: string, now: Time): (r: PlaceResult)
    ensures r.reply.Err? ==> r.orders == orders
    ensures r.reply.Ok? ==> && OrderErrors(req) == [] && ActiveDealer(dealers, dealerId).Some?
                            && r.orders == orders + [r.reply.value]
                            && var o := r.reply.value;
                               && o.status == OrderStatus.Pending && o.approvedBy == None
                               && o.dealer == ActiveDealer(dealers, dealerId).value
                               && o.dealerId == Trim(dealerId)
                               && o.riceType == Trim(req.riceType) && o.brand == Trim(req.brand)
                               && BagSizeName(o.bagSize) == req.bagSize
                               && o.quantityBags == req.quantityBags.value
                               && o.totalQuantityKg == BagWeight(o.bagSize) * o.quantityBags
                               && ValidOrder(o)
  {
    var errs := OrderErrors(req);
    if errs != [] then PlaceResult(Err(400, errs), orders)
    else match ActiveDealer(dealers, dealerId)
      case None => PlaceResult(Err(400, ["Dealer not found or inactive"]), orders)
      case Some(k) =>
        var size := ParseBagSize(req.bagSize).value;
        var order := NewOrder(k, dealers[k].dealerId, req.riceType, req.brand, size, req.quantityBags.value,
                              OrderKg(size, req.quantityBags.value), user, now);
        if ValidOrder(order) then PlaceResult(Ok(order), orders + [order])
        else PlaceResult(Err(500, ServerError), orders)
  }

  lemma OrderKgNonNegative(size: BagSize, bags: int)
    requires bags >= 1
    ensures OrderKg(size, bags) >= 0
  {
  }

  /** An order is stored exactly when the validators pass, the caller has an
      active dealer record, and the rice type, brand and dealer code are not
      blank once the schema trims them. */
  lemma PlaceOrderAcceptedIff(orders: seq<DealerOrder>, dealers: seq<Dealer>, req: OrderRequest,
                              user: UserId, dealerId: string, now: Time)
    ensures PlaceOrder(orders, dealers, req, user, dealerId, now).reply.Ok?
        <==> && OrderErrors(req) == [] && ActiveDealer(dealers, dealerId).Some?
             && Trim(req.riceType) != "" && Trim(req.brand) != "" && Trim(dealerId) != ""
  {
    if OrderErrors(req) == [] && ActiveDealer(dealers, dealerId).Some? {
      OrderKgNonNegative(ParseBagSize(req.bagSize).value, req.quantityBags.value);
    }
  }

  /** A dealer without an active record can never place an order. */
  lemma InactiveDealerCannotOrder(orders: seq<DealerOrder>, dealers: seq<Dealer>, req: OrderRequest,
                                  user: UserId, dealerId: string, now: Time)
    requires forall i :: 0 <= i < |dealers| && dealers[i].dealerId == dealerId ==> dealers[i].status == Inactive
    ensures PlaceOrder(orders, dealers, req, user, dealerId, now).reply.Err?
    ensures PlaceOrder(orders, dealers, req, user, dealerId, now).orders == orders
  {
  }

  method CreateOrder(orders: Collection<DealerOrder>, dealers: Collection<Dealer>, req: OrderRequest,
                     user: UserId, dealerId: string, now: Time) returns (reply: Reply<DealerOrder>)
    modifies orders
    ensures PlaceResult(reply, orders.docs) == PlaceOrder(old(orders.docs), dealers.docs, req, user, dealerId, now)
  {
    var errs := OrderErrors(req);
    if errs != [] {
      return Err(400, errs);
    }
    var dealer := ActiveDealer(dealers.docs, dealerId);
    if dealer.None? {
      return Err(400, ["Dealer not found or inactive"]);
    }
    var size := ParseBagSize(req.bagSize).value;
    var totalQuantityKg := OrderKg(size, req.quantityBags.value);
    var order := NewOrder(dealer.value, dealers.docs[dealer.value].dealerId, req.riceType, req.brand, size,
                          req.quantityBags.value, totalQuantityKg, user, now);
    if !ValidOrder(order) {
      return Err(500, ServerError);
    }
    var _ := orders.Insert(order);
    reply := Ok(order);
  }

  // ---- GET /dealer-orders/dealer and GET /dealer-orders ----

  /** The orders carrying the code `dealerId`, in stored order. */
  function WithDealerCode(orders: seq<DealerOrder>, dealerId: string): seq<DealerOrder> {
    Filter(orders, (o: DealerOrder) => o.dealerId == dealerId)
  }

  /** The logged-in dealer's own orders, newest first: each of their orders
      as many times as it is stored, the latest first. The admin list of
      every order is `NewestFirst(orders)`. */
  function OrdersOfDealer(orders: seq<DealerOrder>, dealerId: string): (r: seq<DealerOrder>)
    ensures forall o :: multiset(r)[o] == if o.dealerId == dealerId then multiset(orders)[o] else 0
    ensures var own := WithDealerCode(orders, dealerId);
            |r| == |own| && forall i :: 0 <= i < |r| ==> r[i] == own[|own| - 1 - i]
  {
    NewestFirstPermutes(WithDealerCode(orders, dealerId));
    NewestFirst(WithDealerCode(orders, dealerId))
  }

  // ---- POST /dealer-orders/:id/approve ----

  /** `Rice.findOne({ riceType, riceName: brand, status in [ready, in_production] })`. */
  predicate SkuMatches(r: Rice, o: DealerOrder) {
    GrainTypeName(r.riceType) == o.riceType && r.riceName == o.brand && (r.status == Ready || r.status == InProduction)
  }

  function FindSku(rice: seq<Rice>, o: DealerOrder): (k: Option<nat>)
    ensures k.Some? ==> k.value < |rice| && SkuMatches(rice[k.value], o)
    ensures k.Some? ==> forall i :: 0 <= i < k.value ==> !SkuMatches(rice[i], o)
    ensures k.None? <==> forall i :: 0 <= i < |rice| ==> !SkuMatches(rice[i], o)
  {
    FindFirst(rice, (r: Rice) => SkuMatches(r, o))
  }

  /** Enough bags of the order's size and enough kilograms in bulk. */
  predicate CanFulfil(r: Rice, o: DealerOrder) {
    BagsOf(r.bagsStock, o.bagSize) >= o.quantityBags && r.quantity >= OrderKg(o.bagSize, o.quantityBags)
  }

  /** The deduction: the order's bag slot drops by its bag count and the bulk
      quantity by its kilograms; nothing else in the SKU changes, and a valid
      SKU that could fulfil the order stays valid. */
  function Deduct(r: Rice, o: DealerOrder): (d: Rice)
    ensures BagsOf(d.bagsStock, o.bagSize) == BagsOf(r.bagsStock, o.bagSize) - o.quantityBags
    ensures d.quantity == r.quantity - BagWeight(o.bagSize) * o.quantityBags
    ensures forall size :: size != o.bagSize ==> BagsOf(d.bagsStock, size) == BagsOf(r.bagsStock, size)
    ensures d == r.(bagsStock := d.bagsStock, quantity := d.quantity)
    ensures ValidRice(r) && CanFulfil(r, o) ==> ValidRice(d)
  {
    r.(bagsStock := WithBags(r.bagsStock, o.bagSize, BagsOf(r.bagsStock, o.bagSize) - o.quantityBags),
       quantity := r.quantity - OrderKg(o.bagSize, o.quantityBags))
  }

  /** The order once approved by `admin` at `now`. */
  function Approved(o: DealerOrder, admin: UserId, now: Time): (a: DealerOrder)
    ensures a.status == OrderStatus.Approved && a.approvedBy == Some(admin) && a.approvedAt == Some(now)
    ensures a == o.(status := a.status, approvedBy := a.approvedBy, approvedAt := a.approvedAt)
  {
    o.(status := OrderStatus.Approved, approvedBy := Some(admin), approvedAt := Some(now))
  }

  datatype ApproveResult = ApproveResult(reply: Reply<DealerOrder>, orders: seq<DealerOrder>, rice: seq<Rice>)

  /** The approve route's outcome. The SKU is saved before the order, so the
      order's own validation failing (which a stored valid order never does)
      would leave the stock deducted. */
  function Approve(orders: seq<DealerOrder>, rice: seq<Rice>, id: nat, admin: UserId, now: Time): (r: ApproveResult)
    ensures r.reply.Err? ==> r.orders == orders
    ensures r.reply.Err? && r.reply.status != 500 ==> r.rice == rice
    ensures r.reply.Ok? ==> && id < |orders| && orders[id].status == OrderStatus.Pending
                            && r.reply.value == Approved(orders[id], admin, now)
                            && r.orders == orders[id := r.reply.value]
                            && FindSku(rice, orders[id]).Some?
                            && var k := FindSku(rice, orders[id]).value;
                               CanFulfil(rice[k], orders[id]) && r.rice == rice[k := Deduct(rice[k], orders[id])]
  {
    if id >= |orders| then ApproveResult(Err(404, ["Order not found"]), orders, rice)
    else if orders[id].status != OrderStatus.Pending
    then ApproveResult(Err(400, ["Only pending orders can be approved"]), orders, rice)
    else match FindSku(rice, orders[id])
      case None => ApproveResult(Err(400, ["No matching rice stock found"]), orders, rice)
      case Some(k) =>
        if !CanFulfil(rice[k], orders[id])
        then ApproveResult(Err(400, ["Insufficient stock to approve this order"]), orders, rice)
        else
          var deducted := Deduct(rice[k], orders[id]);
          if !ValidRice(deducted) then ApproveResult(Err(500, ServerError), orders, rice)
          else
            var approved := Approved(orders[id], admin, now);
            if !ValidOrder(approved) then ApproveResult(Err(500, ServerError), orders, rice[k := deducted])
            else ApproveResult(Ok(approved), orders[id := approved], rice[k := deducted])
  }

  /** Approving an order that is already approved is refused and deducts
      nothing, so no order is ever deducted twice. */
  lemma ApproveTwiceRefused(orders: seq<DealerOrder>, rice: seq<Rice>, id: nat, admin: UserId, now: Time,
                            admin2: UserId, later: Time)
    requires Approve(orders, rice, id, admin, now).reply.Ok?
    ensures var first := Approve(orders, rice, id, admin, now);
            Approve(first.orders, first.rice, id, admin2, later)
            == ApproveResult(Err(400, ["Only pending orders can be approved"]), first.orders, first.rice)
  {
  }

  /** With a valid stored order and valid SKUs, an approval either succeeds
      or is refused before anything is written, and every SKU stays valid. */
  lemma ApproveKeepsStockValid(orders: seq<DealerOrder>, rice: seq<Rice>, id: nat, admin: UserId, now: Time)
    requires id < |orders| ==> ValidOrder(orders[id])
    requires forall i :: 0 <= i < |rice| ==> ValidRice(rice[i])
    ensures var r := Approve(orders, rice, id, admin, now);
            && (r.reply.Err? ==> r.reply.status != 500 && r.rice == rice)
            && forall i :: 0 <= i < |r.rice| ==> ValidRice(r.rice[i])
  {
    var r := Approve(orders, rice, id, admin, now);
    if r.reply.Ok? {
      var k := FindSku(rice, orders[id]).value;
      forall i | 0 <= i < |r.rice| ensures ValidRice(r.rice[i]) {
        if i == k { assert r.rice[i] == Deduct(rice[k], orders[id]); } else { assert r.rice[i] == rice[i]; }
      }
    } else if id < |orders| && orders[id].status == OrderStatus.Pending && FindSku(rice, orders[id]).Some? {
      var k := FindSku(rice, orders[id]).value;
      if CanFulfil(rice[k], orders[id]) {
        assert ValidRice(Deduct(rice[k], orders[id]));
        assert ValidOrder(Approved(orders[id], admin, now));
      }
    }
  }

  /** Which approvals succeed: a known pending order, a matching SKU with
      enough bags and kilograms, and documents that stay valid. */
  lemma ApproveAcceptedIff(orders: seq<DealerOrder>, rice: seq<Rice>, id: nat, admin: UserId, now: Time)
    ensures Approve(orders, rice, id, admin, now).reply.Ok?
            <==> && id < |orders| && orders[id].status == OrderStatus.Pending
                 && FindSku(rice, orders[id]).Some?
                 && CanFulfil(rice[FindSku(rice, orders[id]).value], orders[id])
                 && ValidRice(Deduct(rice[FindSku(rice, orders[id]).value], orders[id]))
                 && ValidOrder(Approved(orders[id], admin, now))
  {
  }

  method ApproveOrder(orders: Collection<DealerOrder>, rice: Collection<Rice>, id: nat, admin: UserId, now: Time)
    returns (reply: Reply<DealerOrder>)
    requires orders as object != rice as object
    modifies orders, rice
    ensures ApproveResult(reply, orders.docs, rice.docs) == Approve(old(orders.docs), old(rice.docs), id, admin, now)
  {
    if id >= |orders.docs| {
      return Err(404, ["Order not found"]);
    }
    var order := orders.docs[id];
    if order.status != OrderStatus.Pending {
      return Err(400, ["Only pending orders can be approved"]);
    }
    var sku := FindSku(rice.docs, order);
    if sku.None? {
      return Err(400, ["No matching rice stock found"]);
    }
    var riceStock := rice.docs[sku.value];
    if !CanFulfil(riceStock, order) {
      return Err(400, ["Insufficient stock to approve this order"]);
    }
    riceStock := Deduct(riceStock, order);
    if !ValidRice(riceStock) {
      return Err(500, ServerError);
    }
    rice.Replace(sku.value, riceStock);
    order := Approved(order, admin, now);
    if !ValidOrder(order) {
      return Err(500, ServerError);
    }
    orders.Replace(id, order);
    reply := Ok(order);
  }

  // ---- POST /dealer-orders/:id/status ----

  datatype StatusResult = StatusResult(reply: Reply<DealerOrder>, orders: seq<DealerOrder>)

  /** Any of the five statuses may be set, from any status, with no stock
      change; only the status field is written. The value is checked before
      the id is looked up. */
  function SetStatus(orders: seq<DealerOrder>, id: nat, status: string): (r: StatusResult)
    ensures r.reply.Err? ==> r.orders == orders
    ensures r.reply == Err(400, ["Invalid status"]) <==> ParseOrderStatus(status).None?
    ensures r.reply == Err(404, ["Order not found"]) <==> ParseOrderStatus(status).Some? && id >= |orders|
    ensures r.reply.Ok? ==> && id < |orders| && OrderStatusName(r.reply.value.status) == status
                            && r.reply.value == orders[id].(status := r.reply.value.status)
                            && r.orders == orders[id := r.reply.value]
  {
    match ParseOrderStatus(status)
    case None => StatusResult(Err(400, ["Invalid status"]), orders)
    case Some(s) =>
      if id >= |orders| then StatusResult(Err(404, ["Order not found"]), orders)
      else StatusResult(Ok(orders[id].(status := s)), orders[id := orders[id].(status := s)])
  }

  method UpdateOrderStatus(orders: Collection<DealerOrder>, id: nat, status: string) returns (reply: Reply<DealerOrder>)
    modifies orders
    ensures StatusResult(reply, orders.docs) == SetStatus(old(orders.docs), id, status)
  {
    var s := ParseOrderStatus(status);
    if s.None? {
      return Err(400, ["Invalid status"]);
    }
    if id >= |orders.docs| {
      return Err(404, ["Order not found"]);
    }
    var order := orders.docs[id].(status := s.value);
    orders.Replace(id, order);
    reply := Ok(order);
  }
}
