/** The Godown schema: a named storage building with a capacity and the
    stock it currently holds. */
module GodownModel {
  import opened Wrappers
  import opened Text

  datatype StockType = PaddyOnly | RiceOnly | Mixed

  function StockTypeName(t: StockType): string {
    match t
    case PaddyOnly => "paddy"
    case RiceOnly => "rice"
    case Mixed => "mixed"
  }

  function ParseStockType(s: string): (r: Option<StockType>)
    ensures forall t :: r == Some(t) <==> StockTypeName(t) == s
  {
    if s == "paddy" then Some(PaddyOnly)
    else if s == "rice" then Some(RiceOnly)
    else if s == "mixed" then Some(Mixed)
    else None
  }

  datatype Godown = Godown(
    name: string,
    location: string,
    capacity: int,
    currentStock: int,
    stockType: StockType,
    isActive: bool)

  /** The schema's validators: required strings, capacity and stock at least
      0 (the enum holds by typing). The unique index on `name` is a property
      of the collection, `UniqueNames`. */
  predicate ValidGodown(g: Godown) {
    g.name != "" && g.location != "" && g.capacity >= 0 && g.currentStock >= 0
  }

  /** No two stored godowns share a name. */
  predicate UniqueNames(gs: seq<Godown>) {
    forall i, j :: 0 <= i < j < |gs| ==> gs[i].name != gs[j].name
  }

  function NameTaken(gs: seq<Godown>, name: string): (b: bool)
    ensures b <==> exists i :: 0 <= i < |gs| && gs[i].name == name
  {
    if gs == [] then false else gs[|gs| - 1].name == name || NameTaken(gs[..|gs| - 1], name)
  }

  /** Appending a godown keeps the names unique exactly when its name is new. */
  lemma UniqueNamesAppend(gs: seq<Godown>, g: Godown)
    requires UniqueNames(gs)
    ensures UniqueNames(gs + [g]) <==> !NameTaken(gs, g.name)
  {
    if NameTaken(gs, g.name) {
      var i :| 0 <= i < |gs| && gs[i].name == g.name;
      assert (gs + [g])[i].name == (gs + [g])[|gs|].name;
    }
  }

  /** The body handed to `new Godown(req.body)`. */
  datatype GodownDraft = GodownDraft(
    name: string,
    location: string,
    capacity: int,
    currentStock: Option<int>,
    stockType: Option<string>,
    isActive: Option<bool>)

  /** `new Godown(draft)` and its validation: strings trimmed, stock default
      0, type default mixed, active by default; `None` when a validator
      refuses the document. */
  function BuildGodown(d: GodownDraft): (r: Option<Godown>)
    ensures r.Some? <==> && Trim(d.name) != "" && Trim(d.location) != "" && d.capacity >= 0
                         && (d.currentStock.None? || d.currentStock.value >= 0)
                         && (d.stockType.None? || ParseStockType(d.stockType.value).Some?)
    ensures r.Some? ==> ValidGodown(r.value)
    ensures r.Some? ==> && r.value.name == Trim(d.name) && r.value.capacity == d.capacity
                        && r.value.currentStock == (if d.currentStock.Some? then d.currentStock.value else 0)
                        && r.value.isActive == (d.isActive.None? || d.isActive.value)
                        && (d.stockType.None? ==> r.value.stockType == Mixed)
  {
    var stockType := if d.stockType.None? then Some(Mixed) else ParseStockType(d.stockType.value);
    var stock := if d.currentStock.Some? then d.currentStock.value else 0;
    if Trim(d.name) != "" && Trim(d.location) != "" && d.capacity >= 0 && stock >= 0 && stockType.Some?
    then Some(Godown(Trim(d.name), Trim(d.location), d.capacity, stock, stockType.value,
                     d.isActive.None? || d.isActive.value))
    else None
  }

  /** The `capacityPercent` virtual, `currentStock / capacity * 100`. A zero
      capacity divides by zero (JavaScript's Infinity or NaN): `None`. */
  function CapacityPercent(g: Godown): (r: Option<real>)
    ensures r.Some? <==> g.capacity != 0
    ensures r.Some? ==> r.value * (g.capacity as real) == (g.currentStock as real) * 100.0
  {
    if g.capacity == 0 then None
    else Some((g.currentStock as real) / (g.capacity as real) * 100.0)
  }

  /** A valid godown filled no further than its capacity is between 0 and
      100 percent full. */
  lemma CapacityPercentInRange(g: Godown)
    requires ValidGodown(g) && g.capacity > 0 && g.currentStock <= g.capacity
    ensures CapacityPercent(g).Some?
    ensures 0.0 <= CapacityPercent(g).value <= 100.0
  {
    var p := CapacityPercent(g).value;
    var c := g.capacity as real;
    assert p * c == (g.currentStock as real) * 100.0;
    assert (g.currentStock as real) * 100.0 <= c * 100.0;
  }
}
