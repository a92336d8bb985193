/** GET /dealer-orders/dealer/analytics: what a dealer has bought, summed
    over its approved, dispatched and delivered orders. */
module OrderAnalytics {
  import opened Wrappers
  import opened Shared
  import opened Collections
  import opened DealerOrderModel

  /** An order that counts as a purchase of the dealer `dealerId`. */
  predicate Purchased(o: DealerOrder, dealerId: string) {
    o.dealerId == dealerId && (o.status == Approved || o.status == Dispatched || o.status == Delivered)
  }

  /** The query of the analytics route, as a filter. */
  function PurchasedBy(dealerId: string): DealerOrder -> bool {
    (o: DealerOrder) => Purchased(o, dealerId)
  }

  /** The dealer's purchases, newest first. */
  function Purchases(orders: seq<DealerOrder>, dealerId: string): (p: seq<DealerOrder>)
    ensures forall o :: o in p <==> o in orders && Purchased(o, dealerId)
  {
    NewestFirst(Filter(orders, PurchasedBy(dealerId)))
  }

  function SumKg(s: seq<DealerOrder>): int {
    if s == [] then 0 else SumKg(s[..|s| - 1]) + s[|s| - 1].totalQuantityKg
  }

  function SumAmount(s: seq<DealerOrder>): int {
    if s == [] then 0 else SumAmount(s[..|s| - 1]) + s[|s| - 1].totalAmount
  }

  /** The kilograms of rice type `t` in `s`; nothing when `t` does not occur. */
  function KgOfType(s: seq<DealerOrder>, t: string): (kg: int)
    ensures (forall i :: 0 <= i < |s| ==> s[i].riceType != t) ==> kg == 0
  {
    if s == [] then 0
    else KgOfType(s[..|s| - 1], t) + (if s[|s| - 1].riceType == t then s[|s| - 1].totalQuantityKg else 0)
  }

  /** The rice types of `s`, each once, in the order they first occur: the
      key order of the object the route fills while walking the orders. */
  function Types(s: seq<DealerOrder>): (ts: seq<string>)
    ensures forall i, j :: 0 <= i < j < |ts| ==> ts[i] != ts[j]
    ensures forall t :: t in ts <==> exists i :: 0 <= i < |s| && s[i].riceType == t
  {
    if s == [] then []
    else
      var init := s[..|s| - 1];
      var rest := Types(init);
      assert forall i :: 0 <= i < |init| ==> s[i] == init[i];
      if s[|s| - 1].riceType in rest then rest else rest + [s[|s| - 1].riceType]
  }

  /** The position of the first heaviest of the first `n` types: a stable
      sort by descending weight keeps the earliest of equal weights first. */
  function FirstHeaviest(ts: seq<string>, s: seq<DealerOrder>, n: nat): (b: nat)
    requires 1 <= n <= |ts|
    ensures b < n
    ensures forall i :: 0 <= i < n ==> KgOfType(s, ts[i]) <= KgOfType(s, ts[b])
    ensures forall i :: 0 <= i < b ==> KgOfType(s, ts[i]) < KgOfType(s, ts[b])
  {
    if n == 1 then 0
    else
      var b := FirstHeaviest(ts, s, n - 1);
      if KgOfType(s, ts[n - 1]) > KgOfType(s, ts[b]) then n - 1 else b
  }

  /** `mostPurchasedRiceType`: the first key of the weight table sorted by
      descending weight, or null when there is none (or it is ""). */
  function TopType(s: seq<DealerOrder>): Option<string> {
    var ts := Types(s);
    if ts == [] then None
    else
      var k := ts[FirstHeaviest(ts, s, |ts|)];
      if k == "" then None else Some(k)
  }

  /** The rice type reported is one the dealer bought, and no type was bought
      in more kilograms; of equally heavy types the earliest seen wins. */
  lemma TopTypeIsHeaviest(s: seq<DealerOrder>)
    ensures TopType(s).Some? ==> && (exists i :: 0 <= i < |s| && s[i].riceType == TopType(s).value)
                                 && forall i :: 0 <= i < |s| ==> KgOfType(s, s[i].riceType) <= KgOfType(s, TopType(s).value)
    ensures (forall i :: 0 <= i < |s| ==> s[i].riceType != "") ==> (TopType(s).None? <==> s == [])
  {
    var ts := Types(s);
    if ts != [] {
      var b := FirstHeaviest(ts, s, |ts|);
      assert ts[b] in ts;
      forall i | 0 <= i < |s| ensures KgOfType(s, s[i].riceType) <= KgOfType(s, ts[b]) {
        assert s[i].riceType in ts;
        var j :| 0 <= j < |ts| && ts[j] == s[i].riceType;
      }
    }
  }

  /** What the analytics route answers. */
  datatype Analytics = Analytics(totalQuantity: int, totalRevenue: int, mostPurchased: Option<string>,
                                 lastOrderDate: Option<Time>)

  lemma SumsStep(s: seq<DealerOrder>, i: nat)
    requires i < |s|
    ensures s[..i + 1][..i] == s[..i] && s[..i + 1][i] == s[i]
    ensures SumKg(s[..i + 1]) == SumKg(s[..i]) + s[i].totalQuantityKg
    ensures SumAmount(s[..i + 1]) == SumAmount(s[..i]) + s[i].totalAmount
    ensures forall t :: KgOfType(s[..i + 1], t) == KgOfType(s[..i], t) + (if s[i].riceType == t then s[i].totalQuantityKg else 0)
    ensures Types(s[..i + 1]) == if s[i].riceType in Types(s[..i]) then Types(s[..i]) else Types(s[..i]) + [s[i].riceType]
  {
    assert s[..i + 1][..i] == s[..i];
  }

  /** The two `reduce` calls: total kilograms and total amount. */
  method SumOrders(p: seq<DealerOrder>) returns (totalQuantity: int, totalRevenue: int)
    ensures totalQuantity == SumKg(p) && totalRevenue == SumAmount(p)
  {
    totalQuantity, totalRevenue := 0, 0;
    var i := 0;
    while i < |p|
      invariant 0 <= i <= |p|
      invariant totalQuantity == SumKg(p[..i]) && totalRevenue == SumAmount(p[..i])
    {
      SumsStep(p, i);
      totalQuantity := totalQuantity + p[i].totalQuantityKg;
      totalRevenue := totalRevenue + p[i].totalAmount;
      i := i + 1;
    }
    assert p[..|p|] == p;
  }

  /** A weight table for the orders `s`: its keys are their types in the
      order first seen, and each key maps to that type's kilograms. */
  ghost predicate Weighed(s: seq<DealerOrder>, counts: map<string, int>, keys: seq<string>) {
    && keys == Types(s)
    && (forall t :: t in counts <==> t in keys)
    && (forall t :: t in counts ==> counts[t] == KgOfType(s, t))
  }

  /** The `forEach` filling the weight table: its keys in insertion order and
      each key's kilograms. */
  method WeighTypes(p: seq<DealerOrder>) returns (counts: map<string, int>, keys: seq<string>)
    ensures keys == Types(p)
    ensures forall t :: t in counts <==> t in keys
    ensures forall t :: t in counts ==> counts[t] == KgOfType(p, t)
  {
    counts, keys := map[], [];
    var i := 0;
    while i < |p|
      invariant 0 <= i <= |p|
      invariant Weighed(p[..i], counts, keys)
    {
      counts, keys := AddOrder(p, i, counts, keys);
      i := i + 1;
    }
    assert p[..|p|] == p;
  }

  /** One turn of the `forEach`: the next order's kilograms are added under
      its type, which becomes a new key when first seen. */
  method AddOrder(p: seq<DealerOrder>, i: nat, counts: map<string, int>, keys: seq<string>)
    returns (counts': map<string, int>, keys': seq<string>)
    requires i < |p| && Weighed(p[..i], counts, keys)
    ensures Weighed(p[..i + 1], counts', keys')
  {
    var t := p[i].riceType;
    var c := if t in counts then counts[t] else 0;
    counts' := counts[t := c + p[i].totalQuantityKg];
    keys' := if t in keys then keys else keys + [t];
    WeighStep(p, i, counts, keys, counts', keys');
  }

  /** Adding the next order's kilograms under its type keeps the table equal
      to the weights of the orders seen. */
  lemma WeighStep(p: seq<DealerOrder>, i: nat, counts: map<string, int>, keys: seq<string>,
                  counts': map<string, int>, keys': seq<string>)
    requires i < |p| && Weighed(p[..i], counts, keys)
    requires counts' == counts[p[i].riceType := (if p[i].riceType in counts then counts[p[i].riceType] else 0)
                                                + p[i].totalQuantityKg]
    requires keys' == if p[i].riceType in keys then keys else keys + [p[i].riceType]
    ensures Weighed(p[..i + 1], counts', keys')
  {
    var t := p[i].riceType;
    assert keys' == Types(p[..i + 1]) by {
      SumsStep(p, i);
    }
    forall u | u in counts'
      ensures counts'[u] == KgOfType(p[..i + 1], u)
    {
      SumsStep(p, i);
      if u == t {
        assert (if t in counts then counts[t] else 0) == KgOfType(p[..i], t);
      } else {
        assert counts'[u] == counts[u];
      }
    }
  }

  /** The scan for the first heaviest key in the weight table. */
  method HeaviestKey(p: seq<DealerOrder>, counts: map<string, int>, keys: seq<string>) returns (best: nat)
    requires keys != []
    requires forall t :: t in keys ==> t in counts && counts[t] == KgOfType(p, t)
    ensures best == FirstHeaviest(keys, p, |keys|)
  {
    best := 0;
    var j := 1;
    while j < |keys|
      invariant 1 <= j <= |keys|
      invariant best == FirstHeaviest(keys, p, j)
    {
      assert counts[keys[j]] == KgOfType(p, keys[j]) && counts[keys[best]] == KgOfType(p, keys[best]);
      assert FirstHeaviest(keys, p, j + 1) == if KgOfType(p, keys[j]) > KgOfType(p, keys[best]) then j else best;
      if counts[keys[j]] > counts[keys[best]] {
        best := j;
      }
      j := j + 1;
    }
  }

  /** The sort by descending weight, of which only the first key is used. */
  method PickHeaviest(p: seq<DealerOrder>, counts: map<string, int>, keys: seq<string>) returns (most: Option<string>)
    requires keys == Types(p)
    requires forall t :: t in keys ==> t in counts && counts[t] == KgOfType(p, t)
    ensures most == TopType(p)
  {
    if keys == [] {
      return None;
    }
    var best := HeaviestKey(p, counts, keys);
    most := if keys[best] == "" then None else Some(keys[best]);
  }

  /** The handler. */
  method DealerAnalytics(orders: seq<DealerOrder>, dealerId: string) returns (a: Analytics)
    ensures var p := Purchases(orders, dealerId);
            && a.totalQuantity == SumKg(p) && a.totalRevenue == SumAmount(p)
            && a.mostPurchased == TopType(p)
            && a.lastOrderDate == if p == [] then None else Some(p[0].createdAt)
  {
    var p := Purchases(orders, dealerId);
    var totalQuantity, totalRevenue := SumOrders(p);
    var counts, keys := WeighTypes(p);
    var most := PickHeaviest(p, counts, keys);
    var last := if p == [] then None else Some(p[0].createdAt);
    a := Analytics(totalQuantity, totalRevenue, most, last);
  }

  /** Newest first: the last stored purchase is the first in the list. */
  lemma PurchasesAppend(orders: seq<DealerOrder>, o: DealerOrder, dealerId: string)
    ensures Purchases(orders + [o], dealerId)
            == if Purchased(o, dealerId) then [o] + Purchases(orders, dealerId) else Purchases(orders, dealerId)
  {
    var f := Filter(orders, PurchasedBy(dealerId));
    FilterAppend(orders, o, PurchasedBy(dealerId));
    assert PurchasedBy(dealerId)(o) == Purchased(o, dealerId);
    if Purchased(o, dealerId) {
      assert Filter(orders + [o], PurchasedBy(dealerId)) == f + [o];
      NewestFirstAppend(f, o);
    } else {
      assert Filter(orders + [o], PurchasedBy(dealerId)) == f;
    }
  }

  /** A pending or rejected order, or another dealer's, changes none of the
      dealer's analytics. */
  lemma UnpurchasedOrderIgnored(orders: seq<DealerOrder>, o: DealerOrder, dealerId: string)
    requires !Purchased(o, dealerId)
    ensures Purchases(orders + [o], dealerId) == Purchases(orders, dealerId)
  {
    PurchasesAppend(orders, o, dealerId);
  }
}
