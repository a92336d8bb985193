/** The DealerOrder schema: a dealer's request for a number of bags of one
    size of a rice type and brand, with its lifecycle status. */
module DealerOrderModel {
  import opened Wrappers
  import opened Shared
  import opened Text

  datatype OrderStatus = Pending | Approved | Rejected | Dispatched | Delivered

  function OrderStatusName(s: OrderStatus): string {
    match s
    case Pending => "pending"
    case Approved => "approved"
    case Rejected => "rejected"
    case Dispatched => "dispatched"
    case Delivered => "delivered"
  }

  /** Membership in the five-value status enum. */
  function ParseOrderStatus(s: string): (r: Option<OrderStatus>)
    ensures forall st :: r == Some(st) <==> OrderStatusName(st) == s
  {
    if s == "pending" then Some(OrderStatus.Pending)
    else if s == "approved" then Some(Approved)
    else if s == "rejected" then Some(Rejected)
    else if s == "dispatched" then Some(Dispatched)
    else if s == "delivered" then Some(Delivered)
    else None
  }

  datatype DealerOrder = DealerOrder(
    dealer: nat,                  // ObjectId of the Dealer document
    dealerId: string,             // the dealer's business id, e.g. DLR0001
    riceType: string,
    brand: string,
    bagSize: BagSize,
    quantityBags: int,
    totalQuantityKg: int,
    ratePerKg: int,
    totalAmount: int,
    status: OrderStatus,
    createdByUser: Option<UserId>,
    approvedBy: Option<UserId>,
    approvedAt: Option<Time>,
    createdAt: Time)

  /** The schema's validators: required strings, `quantityBags` at least 1,
      the other numbers at least 0 (the enums hold by typing). */
  predicate ValidOrder(o: DealerOrder) {
    && o.dealerId != "" && o.riceType != "" && o.brand != ""
    && o.quantityBags >= 1
    && o.totalQuantityKg >= 0
    && o.ratePerKg >= 0
    && o.totalAmount >= 0
  }

  /** A new order document: the given fields, with the strings trimmed, plus
      the schema's defaults (no price yet, status `pending`, not approved). */
  function NewOrder(dealer: nat, dealerId: string, riceType: string, brand: string,
                    bagSize: BagSize, quantityBags: int, totalQuantityKg: int,
                    user: UserId, now: Time): (o: DealerOrder)
    ensures o.dealer == dealer && o.dealerId == Trim(dealerId)
    ensures o.status == OrderStatus.Pending && o.approvedBy == None && o.approvedAt == None
    ensures o.ratePerKg == 0 && o.totalAmount == 0
    ensures o.riceType == Trim(riceType) && o.brand == Trim(brand) && o.bagSize == bagSize
    ensures o.quantityBags == quantityBags && o.totalQuantityKg == totalQuantityKg
    ensures ValidOrder(o) <==> && Trim(dealerId) != "" && Trim(riceType) != "" && Trim(brand) != ""
                               && quantityBags >= 1 && totalQuantityKg >= 0
  {
    DealerOrder(dealer, Trim(dealerId), Trim(riceType), Trim(brand), bagSize, quantityBags, totalQuantityKg,
                0, 0, OrderStatus.Pending, Some(user), None, None, now)
  }
}
