/** GET /payments/summary and GET /payments/ledger: folds over the sales. */
module PaymentReports {
  import opened Wrappers
  import opened Shared
  import opened Collections
  import opened SalesModel
  import opened Text

  function SumTotal(sales: seq<Sale>): int {
    if sales == [] then 0 else SumTotal(sales[..|sales| - 1]) + sales[|sales| - 1].totalAmount
  }

  function SumPaid(sales: seq<Sale>): int {
    if sales == [] then 0 else SumPaid(sales[..|sales| - 1]) + sales[|sales| - 1].paidAmount
  }

  function SumBalance(sales: seq<Sale>): int {
    if sales == [] then 0 else SumBalance(sales[..|sales| - 1]) + sales[|sales| - 1].balanceAmount
  }

  /** The number of sales with payment status `st`. */
  function CountStatus(sales: seq<Sale>, st: PaymentStatus): nat {
    |Filter(sales, (s: Sale) => s.paymentStatus == st)|
  }

  datatype Summary = Summary(totalReceivable: int, totalReceived: int, totalPending: int,
                             paidCount: nat, partialCount: nat, pendingCount: nat)

  /** The summary: every sale is counted under exactly one status. */
  function PaymentSummary(sales: seq<Sale>): (r: Summary)
    ensures r.paidCount + r.partialCount + r.pendingCount == |sales|
  {
    CountsPartition(sales);
    Summary(SumTotal(sales), SumPaid(sales), SumBalance(sales),
            CountStatus(sales, Paid), CountStatus(sales, Partial), CountStatus(sales, PaymentStatus.Pending))
  }

  lemma {:induction false} CountsPartition(sales: seq<Sale>)
    ensures CountStatus(sales, Paid) + CountStatus(sales, Partial) + CountStatus(sales, PaymentStatus.Pending) == |sales|
  {
    if sales != [] {
      var init := sales[..|sales| - 1];
      var last := sales[|sales| - 1];
      assert sales == init + [last];
      CountsPartition(init);
      FilterAppend(init, last, (s: Sale) => s.paymentStatus == Paid);
      FilterAppend(init, last, (s: Sale) => s.paymentStatus == Partial);
      FilterAppend(init, last, (s: Sale) => s.paymentStatus == PaymentStatus.Pending);
    }
  }

  /** When every sale went through the hook, what is pending is what was
      receivable less what was received. */
  lemma {:induction false} PendingIsReceivableLessReceived(sales: seq<Sale>)
    requires forall i :: 0 <= i < |sales| ==> Derived(sales[i])
    ensures PaymentSummary(sales).totalPending
            == PaymentSummary(sales).totalReceivable - PaymentSummary(sales).totalReceived
  {
    if sales != [] {
      PendingIsReceivableLessReceived(sales[..|sales| - 1]);
    }
  }

  /** One line of the ledger. */
  datatype LedgerEntry = LedgerEntry(customer: string, amount: int, paid: int, balance: int,
                                     status: PaymentStatus, date: Time)

  function EntryOf(s: Sale): LedgerEntry {
    LedgerEntry(s.customerName, s.totalAmount, s.paidAmount, s.balanceAmount, s.paymentStatus, s.createdAt)
  }

  /** `sort({ customerName: 1, createdAt: -1 })`. */
  predicate LedgerOrder(x: Sale, y: Sale) {
    if x.customerName == y.customerName then x.createdAt >= y.createdAt else LexLeq(x.customerName, y.customerName)
  }

  lemma LedgerOrderTotal()
    ensures Total(LedgerOrder)
  {
    forall x: Sale, y: Sale ensures LedgerOrder(x, y) || LedgerOrder(y, x) {
      LexLeqTotal(x.customerName, y.customerName);
    }
  }

  /** Two orderings of the same sales hold the same sales. */
  lemma SameMembers(a: seq<Sale>, b: seq<Sale>)
    requires multiset(a) == multiset(b)
    ensures |a| == |b| && forall s :: s in a <==> s in b
  {
    assert |a| == |multiset(a)| == |multiset(b)| == |b|;
    forall s ensures s in a <==> s in b {
      assert s in a <==> s in multiset(a);
      assert s in b <==> s in multiset(b);
    }
  }

  /** Entries of a reordering of `sales`: one per sale, each sale's entry
      present and every entry some sale's. */
  lemma EntriesOfReordering(sales: seq<Sale>, sorted: seq<Sale>)
    requires multiset(sorted) == multiset(sales)
    ensures var r := Mapped(sorted, EntryOf);
            && |r| == |sales|
            && multiset(r) == multiset(Mapped(sales, EntryOf))
            && (forall j :: 0 <= j < |sales| ==> EntryOf(sales[j]) in r)
            && (forall i :: 0 <= i < |r| ==> exists j :: 0 <= j < |sales| && r[i] == EntryOf(sales[j]))
  {
    var r := Mapped(sorted, EntryOf);
    SameMembers(sorted, sales);
    MappedPermutation(sorted, sales, EntryOf);
    forall j | 0 <= j < |sales| ensures EntryOf(sales[j]) in r {
      assert sales[j] in sorted;
      var i :| 0 <= i < |sorted| && sorted[i] == sales[j];
      assert r[i] == EntryOf(sales[j]);
    }
    forall i | 0 <= i < |r| ensures exists j :: 0 <= j < |sales| && r[i] == EntryOf(sales[j]) {
      assert sorted[i] in sales;
      var j :| 0 <= j < |sales| && sales[j] == sorted[i];
    }
  }

  /** Entries of sales in ledger order are in ledger order. */
  lemma EntriesInLedgerOrder(sorted: seq<Sale>)
    requires SortedBy(sorted, LedgerOrder)
    ensures var r := Mapped(sorted, EntryOf);
            forall i :: 0 < i < |r| ==> if r[i - 1].customer == r[i].customer then r[i - 1].date >= r[i].date
                                        else LexLeq(r[i - 1].customer, r[i].customer)
  {
    var r := Mapped(sorted, EntryOf);
    forall i | 0 < i < |r| ensures if r[i - 1].customer == r[i].customer then r[i - 1].date >= r[i].date
                                   else LexLeq(r[i - 1].customer, r[i].customer) {
      assert LedgerOrder(sorted[i - 1], sorted[i]);
    }
  }

  /** The ledger: one entry per sale, carrying that sale's figures, ordered
      by customer name and, for one customer, newest first. */
  function Ledger(sales: seq<Sale>): (r: seq<LedgerEntry>)
    ensures |r| == |sales|
    ensures multiset(r) == multiset(Mapped(sales, EntryOf))
    ensures forall j :: 0 <= j < |sales| ==> EntryOf(sales[j]) in r
    ensures forall i :: 0 <= i < |r| ==> exists j :: 0 <= j < |sales| && r[i] == EntryOf(sales[j])
    ensures forall i :: 0 < i < |r| ==> if r[i - 1].customer == r[i].customer then r[i - 1].date >= r[i].date
                                        else LexLeq(r[i - 1].customer, r[i].customer)
  {
    LedgerOrderTotal();
    var sorted := SortBy(sales, LedgerOrder);
    EntriesOfReordering(sales, sorted);
    EntriesInLedgerOrder(sorted);
    Mapped(sorted, EntryOf)
  }
}
