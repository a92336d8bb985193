/** The Rice schema: one SKU, identified by type and name (brand), with its
    bulk quantity in kilograms and a fixed four-slot count of packed bags. */
module RiceModel {
  import opened Shared

  datatype RiceStatus = InProduction | Ready | Sold

  /** `bagsStock`: one count per bag size, each defaulting to 0. */
  datatype BagsStock = BagsStock(kg5: int, kg10: int, kg25: int, kg75: int)

  const NoBags: BagsStock := BagsStock(0, 0, 0, 0)

  /** `bagsStock[size]`. */
  function BagsOf(stock: BagsStock, size: BagSize): int {
    match size
    case Kg5 => stock.kg5
    case Kg10 => stock.kg10
    case Kg25 => stock.kg25
    case Kg75 => stock.kg75
  }

  /** `bagsStock[size] = n`: that slot changes, the other three do not. */
  function WithBags(stock: BagsStock, size: BagSize, n: int): (r: BagsStock)
    ensures BagsOf(r, size) == n
    ensures forall other :: other != size ==> BagsOf(r, other) == BagsOf(stock, other)
  {
    match size
    case Kg5 => stock.(kg5 := n)
    case Kg10 => stock.(kg10 := n)
    case Kg25 => stock.(kg25 := n)
    case Kg75 => stock.(kg75 := n)
  }

  datatype Rice = Rice(
    riceName: string,
    riceType: GrainType,
    quantity: int,
    bagsStock: BagsStock,
    godownId: nat,
    status: RiceStatus)

  /** The schema's validators: a name, and no negative quantity or bag count. */
  predicate ValidRice(r: Rice) {
    && r.riceName != ""
    && r.quantity >= 0
    && forall size :: BagsOf(r.bagsStock, size) >= 0
  }

  lemma NoBagsValid()
    ensures forall size :: BagsOf(NoBags, size) == 0
  {
  }
}
