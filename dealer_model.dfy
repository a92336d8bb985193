/** A dealer account, with the fields the dealer routes write. */
module DealerModel {
  import opened Wrappers

  datatype DealerStatus = Active | Inactive

  function DealerStatusName(s: DealerStatus): string {
    match s
    case Active => "active"
    case Inactive => "inactive"
  }

  /** Membership in the two-value status enum. */
  function ParseDealerStatus(s: string): (r: Option<DealerStatus>)
    ensures forall st :: r == Some(st) <==> DealerStatusName(st) == s
  {
    if s == "active" then Some(Active)
    else if s == "inactive" then Some(Inactive)
    else None
  }

  datatype Dealer = Dealer(
    dealerId: string,
    dealerName: string,
    businessName: string,
    contactNumber: string,
    location: string,
    gstNumber: Option<string>,
    status: DealerStatus)
}
