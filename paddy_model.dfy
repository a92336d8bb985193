/** The Paddy schema: one intake of unmilled paddy into a godown. */
module PaddyModel {
  import opened Wrappers
  import opened Shared
  import opened Text

  datatype QualityGrade = APlus | A | B | C

  function QualityGradeName(g: QualityGrade): string {
    match g
    case APlus => "A+"
    case A => "A"
    case B => "B"
    case C => "C"
  }

  function ParseQualityGrade(s: string): (r: Option<QualityGrade>)
    ensures forall g :: r == Some(g) <==> QualityGradeName(g) == s
  {
    if s == "A+" then Some(APlus)
    else if s == "A" then Some(A)
    else if s == "B" then Some(B)
    else if s == "C" then Some(C)
    else None
  }

  datatype Paddy = Paddy(
    paddyType: GrainType,
    quantity: int,
    weight: int,
    qualityGrade: QualityGrade,
    moisturePercent: int,
    sellerName: string,
    sellerContact: string,
    vehicleNumber: string,
    location: string,
    godownId: nat,
    date: Time,
    addedBy: UserId)

  /** The schema's validators on the numbers and strings (the enums and the
      required references hold by typing). */
  predicate ValidPaddy(p: Paddy) {
    && p.quantity >= 0 && p.weight >= 0
    && 0 <= p.moisturePercent <= 100
    && p.sellerName != "" && p.sellerContact != "" && p.vehicleNumber != "" && p.location != ""
  }

  /** The request body spread into `new Paddy({...req.body, addedBy})`. */
  datatype PaddyDraft = PaddyDraft(
    paddyType: string,
    quantity: int,
    weight: int,
    qualityGrade: string,
    moisturePercent: int,
    sellerName: string,
    sellerContact: string,
    vehicleNumber: string,
    location: string,
    godownId: nat,
    date: Option<Time>,
    addedBy: UserId)

  /** What the Paddy schema accepts: a listed type and grade, non-negative
      quantity and weight, moisture within 0..100, the strings non-empty
      once trimmed. */
  predicate PaddyAccepted(d: PaddyDraft) {
    && ParseGrainType(d.paddyType).Some? && ParseQualityGrade(d.qualityGrade).Some?
    && d.quantity >= 0 && d.weight >= 0 && 0 <= d.moisturePercent <= 100
    && Trim(d.sellerName) != "" && Trim(d.sellerContact) != ""
    && Trim(d.vehicleNumber) != "" && Trim(d.location) != ""
  }

  /** `new Paddy(draft)` and its validation; the date defaults to now. */
  function BuildPaddy(d: PaddyDraft, now: Time): (r: Option<Paddy>)
    ensures r.Some? <==> PaddyAccepted(d)
    ensures r.Some? ==> ValidPaddy(r.value)
    ensures r.Some? ==> && GrainTypeName(r.value.paddyType) == d.paddyType
                        && QualityGradeName(r.value.qualityGrade) == d.qualityGrade
                        && r.value.weight == d.weight && r.value.quantity == d.quantity
                        && r.value.moisturePercent == d.moisturePercent
                        && r.value.godownId == d.godownId && r.value.addedBy == d.addedBy
                        && r.value.date == (if d.date.Some? then d.date.value else now)
  {
    var paddyType := ParseGrainType(d.paddyType);
    var grade := ParseQualityGrade(d.qualityGrade);
    if PaddyAccepted(d)
    then Some(Paddy(paddyType.value, d.quantity, d.weight, grade.value, d.moisturePercent,
                    Trim(d.sellerName), Trim(d.sellerContact), Trim(d.vehicleNumber), Trim(d.location),
                    d.godownId, if d.date.Some? then d.date.value else now, d.addedBy))
    else None
  }
}
