/** Values several schemas share: opaque user ids and dates, the six grain
    types (the `riceType` enum of Rice and the `paddyType` enum of Paddy), the
    four bag sizes (DealerOrder's `bagSize` and the keys of Rice's
    `bagsStock`), and the payment status of sales and invoices. */
module Shared {
  import opened Wrappers

  /** The ObjectId of the logged-in user (`req.user._id`). */
  type UserId = nat

  /** A `Date`, as milliseconds; the caller passes `new Date()` in. */
  type Time = int

  datatype GrainType = Basmati | SonaMasoori | Jasmine | BrownRice | Parboiled | OtherGrain

  function GrainTypeName(t: GrainType): string {
    match t
    case Basmati => "Basmati"
    case SonaMasoori => "Sona Masoori"
    case Jasmine => "Jasmine"
    case BrownRice => "Brown Rice"
    case Parboiled => "Parboiled"
    case OtherGrain => "Other"
  }

  /** The schema's enum check on a grain type string. */
  function ParseGrainType(s: string): (r: Option<GrainType>)
    ensures forall t :: r == Some(t) <==> GrainTypeName(t) == s
  {
    if s == "Basmati" then Some(Basmati)
    else if s == "Sona Masoori" then Some(SonaMasoori)
    else if s == "Jasmine" then Some(Jasmine)
    else if s == "Brown Rice" then Some(BrownRice)
    else if s == "Parboiled" then Some(Parboiled)
    else if s == "Other" then Some(OtherGrain)
    else None
  }

  datatype BagSize = Kg5 | Kg10 | Kg25 | Kg75

  function BagSizeName(b: BagSize): string {
    match b
    case Kg5 => "5kg"
    case Kg10 => "10kg"
    case Kg25 => "25kg"
    case Kg75 => "75kg"
  }

  /** `isIn(['5kg', '10kg', '25kg', '75kg'])`. */
  function ParseBagSize(s: string): (r: Option<BagSize>)
    ensures forall b :: r == Some(b) <==> BagSizeName(b) == s
  {
    if s == "5kg" then Some(Kg5)
    else if s == "10kg" then Some(Kg10)
    else if s == "25kg" then Some(Kg25)
    else if s == "75kg" then Some(Kg75)
    else None
  }

  datatype PaymentStatus = Paid | Partial | Pending

  function PaymentStatusName(p: PaymentStatus): string {
    match p
    case Paid => "paid"
    case Partial => "partial"
    case Pending => "pending"
  }

  function ParsePaymentStatus(s: string): (r: Option<PaymentStatus>)
    ensures forall p :: r == Some(p) <==> PaymentStatusName(p) == s
  {
    if s == "paid" then Some(Paid)
    else if s == "partial" then Some(Partial)
    else if s == "pending" then Some(Pending)
    else None
  }

  /** How far a payment status has got: pending, then partial, then paid. */
  function PaymentProgress(p: PaymentStatus): nat {
    match p
    case Pending => 0
    case Partial => 1
    case Paid => 2
  }
}
