/** POST /paddy: paddy intake into a godown, with the capacity check on the
    godown's running stock. */
module PaddyIntake {
  import opened Wrappers
  import opened Shared
  import opened Collections
  import opened GodownModel
  import opened PaddyModel
  import opened Validation

  /** The request body. Text fields are "" when missing; a number is `None`
      when it is missing or not numeric. */
  datatype IntakeRequest = IntakeRequest(
    paddyType: string,
    quantity: Option<int>,
    weight: Option<int>,
    qualityGrade: string,
    moisturePercent: Option<int>,
    sellerName: string,
    sellerContact: string,
    vehicleNumber: string,
    location: string,
    godownId: Option<nat>,
    date: Option<Time>)

  /** The route's validator chain. */
  function IntakeChecks(req: IntakeRequest): seq<Check> {
    [ Check(req.paddyType != "", "Paddy type is required"),
      Check(req.quantity.Some?, "Quantity must be a number"),
      Check(req.weight.Some?, "Weight must be a number"),
      Check(req.qualityGrade != "", "Quality grade is required"),
      Check(req.moisturePercent.Some?, "Moisture percentage must be a number"),
      Check(req.sellerName != "", "Seller name is required"),
      Check(req.sellerContact != "", "Seller contact is required"),
      Check(req.vehicleNumber != "", "Vehicle number is required"),
      Check(req.location != "", "Location is required"),
      Check(req.godownId.Some?, "Godown is required") ]
  }

  /** Every required field present and every number numeric. */
  predicate Complete(req: IntakeRequest) {
    && req.paddyType != "" && req.quantity.Some? && req.weight.Some?
    && req.qualityGrade != "" && req.moisturePercent.Some?
    && req.sellerName != "" && req.sellerContact != ""
    && req.vehicleNumber != "" && req.location != "" && req.godownId.Some?
  }

  /** The messages of the failing validators; the request goes on only when
      there are none. */
  function IntakeErrors(req: IntakeRequest): (errs: seq<string>)
    ensures errs == [] <==> Complete(req)
  {
    var checks := IntakeChecks(req);
    assert checks[0].passes && checks[1].passes && checks[2].passes && checks[3].passes
           && checks[4].passes && checks[5].passes && checks[6].passes && checks[7].passes
           && checks[8].passes && checks[9].passes
       <==> forall i :: 0 <= i < |checks| ==> checks[i].passes;
    Failures(checks)
  }

  /** `{...req.body, addedBy: req.user._id}` once the validators passed. */
  function DraftOf(req: IntakeRequest, user: UserId): (d: PaddyDraft)
    requires IntakeErrors(req) == []
    ensures d.weight == req.weight.value && d.godownId == req.godownId.value && d.addedBy == user
  {
    PaddyDraft(req.paddyType, req.quantity.value, req.weight.value, req.qualityGrade,
               req.moisturePercent.value, req.sellerName, req.sellerContact, req.vehicleNumber,
               req.location, req.godownId.value, req.date, user)
  }

  /** The godown with the intake's weight added to its stock. */
  function Raised(g: Godown, weight: int): (h: Godown)
    ensures h.currentStock - g.currentStock == weight
    ensures h == g.(currentStock := h.currentStock)
  {
    g.(currentStock := g.currentStock + weight)
  }

  /** The reply and the two collections after one request. */
  datatype IntakeResult = IntakeResult(reply: Reply<Paddy>, godowns: seq<Godown>, paddies: seq<Paddy>)

  /** The checks made before anything is written: the validators (400),
      the godown lookup (404) and the capacity check on the raised stock
      (400). `None` lets the request through. */
  function Screen(gs: seq<Godown>, req: IntakeRequest): (e: Option<Reply<Paddy>>)
    ensures e.None? <==> && IntakeErrors(req) == [] && req.godownId.value < |gs|
                         && gs[req.godownId.value].currentStock + req.weight.value <= gs[req.godownId.value].capacity
    ensures e.Some? ==> e.value.Err?
    ensures e == Some(Err(404, ["Godown not found"])) <==> IntakeErrors(req) == [] && req.godownId.value >= |gs|
  {
    var errs := IntakeErrors(req);
    if errs != [] then Some(Err(400, errs))
    else if req.godownId.value >= |gs| then Some(Err(404, ["Godown not found"]))
    else if Raised(gs[req.godownId.value], req.weight.value).currentStock > gs[req.godownId.value].capacity
    then Some(Err(400, ["Godown capacity exceeded"]))
    else None
  }

  /** The route as written: the raised godown is saved before the Paddy
      document is built and validated, so a paddy record the schema refuses
      still leaves the godown's stock raised. */
  function IntakeAsWritten(gs: seq<Godown>, ps: seq<Paddy>, req: IntakeRequest, user: UserId, now: Time)
    : (r: IntakeResult)
    ensures r.paddies == ps || (r.reply.Ok? && r.paddies == ps + [r.reply.value])
    ensures r.godowns != gs ==> IntakeErrors(req) == [] && req.godownId.value < |gs|
                                && r.godowns == gs[req.godownId.value := Raised(gs[req.godownId.value], req.weight.value)]
  {
    match Screen(gs, req)
    case Some(e) => IntakeResult(e, gs, ps)
    case None =>
      var id := req.godownId.value;
      var raised := Raised(gs[id], req.weight.value);
      if !ValidGodown(raised) then IntakeResult(Err(500, ServerError), gs, ps)
      else match BuildPaddy(DraftOf(req, user), now)
        case None => IntakeResult(Err(500, ServerError), gs[id := raised], ps)
        case Some(p) => IntakeResult(Ok(p), gs[id := raised], ps + [p])
  }

  /** The intake with the Paddy document validated before the godown is
      saved: a refused request, for whatever reason, changes nothing, and an
      accepted one raises exactly one godown's stock by the weight, within
      its capacity, and appends exactly one paddy record. */
  function Intake(gs: seq<Godown>, ps: seq<Paddy>, req: IntakeRequest, user: UserId, now: Time)
    : (r: IntakeResult)
    ensures r.reply.Err? ==> r.godowns == gs && r.paddies == ps
    ensures r.reply.Ok? ==> r.paddies == ps + [r.reply.value]
  {
    match Screen(gs, req)
    case Some(e) => IntakeResult(e, gs, ps)
    case None =>
      var id := req.godownId.value;
      var raised := Raised(gs[id], req.weight.value);
      match BuildPaddy(DraftOf(req, user), now)
      case None => IntakeResult(Err(500, ServerError), gs, ps)
      case Some(p) =>
        if !ValidGodown(raised) then IntakeResult(Err(500, ServerError), gs, ps)
        else IntakeResult(Ok(p), gs[id := raised], ps + [p])
  }

  /** What an accepted intake does: it raises exactly one godown's stock by
      the weight, within its capacity, and appends one paddy record for that
      godown and weight. */
  lemma IntakeAccepted(gs: seq<Godown>, ps: seq<Paddy>, req: IntakeRequest, user: UserId, now: Time)
    requires Intake(gs, ps, req, user, now).reply.Ok?
    ensures var r := Intake(gs, ps, req, user, now);
            && IntakeErrors(req) == [] && req.godownId.value < |gs|
            && r.godowns == gs[req.godownId.value := Raised(gs[req.godownId.value], req.weight.value)]
            && r.godowns[req.godownId.value].currentStock <= r.godowns[req.godownId.value].capacity
            && r.paddies == ps + [r.reply.value]
            && r.reply.value.godownId == req.godownId.value
            && r.reply.value.weight == req.weight.value
  {
    assert Screen(gs, req).None?;
  }

  /** Which requests are accepted: valid fields, a known godown, room for the
      weight, a godown that stays valid and a paddy record the schema takes.
      An unknown godown is answered 404. */
  lemma IntakeAcceptedIff(gs: seq<Godown>, ps: seq<Paddy>, req: IntakeRequest, user: UserId, now: Time)
    ensures Intake(gs, ps, req, user, now).reply.Ok?
            <==> && IntakeErrors(req) == [] && req.godownId.value < |gs|
                 && gs[req.godownId.value].currentStock + req.weight.value <= gs[req.godownId.value].capacity
                 && ValidGodown(Raised(gs[req.godownId.value], req.weight.value))
                 && PaddyAccepted(DraftOf(req, user))
    ensures Intake(gs, ps, req, user, now).reply == Err(404, ["Godown not found"])
            <==> IntakeErrors(req) == [] && req.godownId.value >= |gs|
  {
    if Screen(gs, req).None? {
      assert BuildPaddy(DraftOf(req, user), now).Some? <==> PaddyAccepted(DraftOf(req, user));
    }
  }

  /** An intake that would take the stock past the capacity is refused with
      400 and the stored stock stays as it was. */
  lemma OverCapacityRefused(gs: seq<Godown>, ps: seq<Paddy>, req: IntakeRequest, user: UserId, now: Time)
    requires IntakeErrors(req) == [] && req.godownId.value < |gs|
    requires gs[req.godownId.value].currentStock + req.weight.value > gs[req.godownId.value].capacity
    ensures Intake(gs, ps, req, user, now) == IntakeResult(Err(400, ["Godown capacity exceeded"]), gs, ps)
    ensures IntakeAsWritten(gs, ps, req, user, now) == IntakeResult(Err(400, ["Godown capacity exceeded"]), gs, ps)
  {
  }

  /** A request meeting every condition for acceptance raises the stock of
      its godown by the weight and changes no other godown. */
  lemma RoomAccepted(gs: seq<Godown>, ps: seq<Paddy>, req: IntakeRequest, user: UserId, now: Time)
    requires IntakeErrors(req) == [] && req.godownId.value < |gs|
    requires gs[req.godownId.value].currentStock + req.weight.value <= gs[req.godownId.value].capacity
    requires ValidGodown(Raised(gs[req.godownId.value], req.weight.value)) && PaddyAccepted(DraftOf(req, user))
    ensures var r := Intake(gs, ps, req, user, now);
            r.reply.Ok? && r.godowns == gs[req.godownId.value := Raised(gs[req.godownId.value], req.weight.value)]
  {
    IntakeAcceptedIff(gs, ps, req, user, now);
    IntakeAccepted(gs, ps, req, user, now);
  }

  /** Filling a godown exactly to its capacity is accepted. */
  lemma ExactFillAccepted(gs: seq<Godown>, ps: seq<Paddy>, req: IntakeRequest, user: UserId, now: Time)
    requires IntakeErrors(req) == [] && req.godownId.value < |gs|
    requires ValidGodown(gs[req.godownId.value]) && PaddyAccepted(DraftOf(req, user))
    requires gs[req.godownId.value].currentStock + req.weight.value == gs[req.godownId.value].capacity
    ensures var r := Intake(gs, ps, req, user, now);
            r.reply.Ok? && r.godowns == gs[req.godownId.value := gs[req.godownId.value].(currentStock := gs[req.godownId.value].capacity)]
  {
    var g := gs[req.godownId.value];
    FillingToCapacity(g, req.weight.value);
    RoomAccepted(gs, ps, req, user, now);
  }

  lemma FillingToCapacity(g: Godown, weight: int)
    requires ValidGodown(g) && g.currentStock + weight == g.capacity
    ensures ValidGodown(Raised(g, weight)) && Raised(g, weight) == g.(currentStock := g.capacity)
  {
  }

  /** Every stored godown valid and within its capacity, with unique names:
      an intake keeps all three. */
  predicate GodownsSound(gs: seq<Godown>) {
    UniqueNames(gs) && forall i :: 0 <= i < |gs| ==> ValidGodown(gs[i]) && gs[i].currentStock <= gs[i].capacity
  }

  lemma IntakeKeepsGodownsSound(gs: seq<Godown>, ps: seq<Paddy>, req: IntakeRequest, user: UserId, now: Time)
    requires GodownsSound(gs)
    ensures GodownsSound(Intake(gs, ps, req, user, now).godowns)
  {
    var r := Intake(gs, ps, req, user, now);
    if r.reply.Ok? {
      IntakeAccepted(gs, ps, req, user, now);
      var id := req.godownId.value;
      var raised := Raised(gs[id], req.weight.value);
      assert r.godowns == gs[id := raised];
      assert raised.name == gs[id].name;
      assert ValidGodown(raised) && raised.currentStock <= raised.capacity;
      forall i | 0 <= i < |r.godowns|
        ensures r.godowns[i].name == gs[i].name
        ensures ValidGodown(r.godowns[i]) && r.godowns[i].currentStock <= r.godowns[i].capacity
      {
        if i == id { assert r.godowns[i] == raised; } else { assert r.godowns[i] == gs[i]; }
      }
    }
  }

  /** The route as written and the corrected intake differ only when the
      Paddy schema refuses the record. */
  lemma AsWrittenAgreesOnAcceptedPaddy(gs: seq<Godown>, ps: seq<Paddy>, req: IntakeRequest, user: UserId, now: Time)
    requires IntakeErrors(req) == [] ==> PaddyAccepted(DraftOf(req, user))
    ensures IntakeAsWritten(gs, ps, req, user, now) == Intake(gs, ps, req, user, now)
  {
    match Screen(gs, req)
    case Some(_) =>
    case None =>
      assert IntakeErrors(req) == [];
      var b := BuildPaddy(DraftOf(req, user), now);
      assert b.Some?;
  }

  /** The discrepancy, on one input: a godown of capacity 1000 holding
      nothing, and an intake of 100 of paddy type "Wheat" (not one of the six
      types). The reply is 500 and no paddy record is stored, yet the godown
      now holds 100; the corrected intake leaves it at 0. */
  function WheatIntake(): IntakeRequest {
    IntakeRequest("Wheat", Some(10), Some(100), "A", Some(12), "Ravi", "98400",
                  "TN01AB1234", "Erode", Some(0), None)
  }

  function EmptyGodown(): Godown {
    Godown("Godown 1", "Mill yard", 1000, 0, Mixed, true)
  }

  lemma WheatIntakeRefused()
    ensures IntakeErrors(WheatIntake()) == []
    ensures BuildPaddy(DraftOf(WheatIntake(), 0), 0) == None
  {
    assert ParseGrainType("Wheat") == None;
  }

  lemma RefusedIntakeRaisesStock()
    ensures IntakeAsWritten([EmptyGodown()], [], WheatIntake(), 0, 0)
            == IntakeResult(Err(500, ServerError), [EmptyGodown().(currentStock := 100)], [])
  {
    WheatIntakeRefused();
    var gs := [EmptyGodown()];
    assert Screen(gs, WheatIntake()) == None;
    var raised := Raised(gs[0], 100);
    assert raised == EmptyGodown().(currentStock := 100);
    assert ValidGodown(raised);
    assert gs[0 := raised] == [EmptyGodown().(currentStock := 100)];
  }

  lemma CorrectedIntakeKeepsStock()
    ensures Intake([EmptyGodown()], [], WheatIntake(), 0, 0) == IntakeResult(Err(500, ServerError), [EmptyGodown()], [])
  {
    WheatIntakeRefused();
  }

  /** The handler as written, step by step on the two collections. */
  method ReceiveAsWritten(godowns: Collection<Godown>, paddies: Collection<Paddy>,
                          req: IntakeRequest, user: UserId, now: Time) returns (reply: Reply<Paddy>)
    requires godowns as object != paddies as object
    modifies godowns, paddies
    ensures IntakeResult(reply, godowns.docs, paddies.docs)
            == IntakeAsWritten(old(godowns.docs), old(paddies.docs), req, user, now)
  {
    ghost var spec := IntakeAsWritten(godowns.docs, paddies.docs, req, user, now);
    var refused := Screen(godowns.docs, req);
    if refused.Some? {
      return refused.value;
    }
    var id := req.godownId.value;
    var godown := godowns.docs[id];
    godown := godown.(currentStock := godown.currentStock + req.weight.value);
    assert godown == Raised(godowns.docs[id], req.weight.value);
    if !ValidGodown(godown) {
      return Err(500, ServerError);
    }
    godowns.Replace(id, godown);
    assert paddies.docs == old(paddies.docs);
    var paddy := BuildPaddy(DraftOf(req, user), now);
    if paddy.None? {
      assert spec == IntakeResult(Err(500, ServerError), godowns.docs, paddies.docs);
      return Err(500, ServerError);
    }
    var _ := paddies.Insert(paddy.value);
    assert spec == IntakeResult(Ok(paddy.value), godowns.docs, paddies.docs);
    reply := Ok(paddy.value);
  }

  /** The corrected handler: the paddy record is validated first. */
  method Receive(godowns: Collection<Godown>, paddies: Collection<Paddy>,
                 req: IntakeRequest, user: UserId, now: Time) returns (reply: Reply<Paddy>)
    requires godowns as object != paddies as object
    modifies godowns, paddies
    ensures IntakeResult(reply, godowns.docs, paddies.docs)
            == Intake(old(godowns.docs), old(paddies.docs), req, user, now)
  {
    ghost var spec := Intake(godowns.docs, paddies.docs, req, user, now);
    var refused := Screen(godowns.docs, req);
    if refused.Some? {
      return refused.value;
    }
    var id := req.godownId.value;
    var godown := godowns.docs[id];
    godown := godown.(currentStock := godown.currentStock + req.weight.value);
    assert godown == Raised(godowns.docs[id], req.weight.value);
    var paddy := BuildPaddy(DraftOf(req, user), now);
    if paddy.None? {
      assert spec.reply == Err(500, ServerError);
      return Err(500, ServerError);
    }
    if !ValidGodown(godown) {
      assert spec.reply == Err(500, ServerError);
      return Err(500, ServerError);
    }
    godowns.Replace(id, godown);
    assert paddies.docs == old(paddies.docs);
    var _ := paddies.Insert(paddy.value);
    assert spec == IntakeResult(Ok(paddy.value), godowns.docs, paddies.docs);
    reply := Ok(paddy.value);
  }
}
