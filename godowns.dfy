/** The godown routes (admin only): list by name, create with a unique
    name, update, and the details of one godown with the stock it holds. */
module Godowns {
  import opened Wrappers
  import opened Collections
  import opened Validation
  import opened GodownModel
  import opened PaddyModel
  import opened RiceModel
  import opened Text

  /** `sort({ name: 1 })`. */
  predicate NameOrder(a: Godown, b: Godown) {
    LexLeq(a.name, b.name)
  }

  lemma NameOrderTotal()
    ensures Total(NameOrder)
  {
    forall a: Godown, b: Godown ensures NameOrder(a, b) || NameOrder(b, a) {
      LexLeqTotal(a.name, b.name);
    }
  }

  /** The list route: every stored godown once, by name ascending. */
  function ListGodowns(gs: seq<Godown>): (r: seq<Godown>)
    ensures multiset(r) == multiset(gs)
    ensures forall i :: 0 < i < |r| ==> LexLeq(r[i - 1].name, r[i].name)
  {
    NameOrderTotal();
    var sorted := SortBy(gs, NameOrder);
    assert forall i :: 0 < i < |sorted| ==> NameOrder(sorted[i - 1], sorted[i]);
    sorted
  }

  /** The create body: `None` for each field it leaves out or, for
      `capacity`, when it is not numeric. */
  datatype GodownRequest = GodownRequest(name: string, location: string, capacity: Option<int>,
                                         currentStock: Option<int>, stockType: Option<string>,
                                         isActive: Option<bool>)

  function GodownErrors(req: GodownRequest): (errs: seq<string>)
    ensures errs == [] <==> req.name != "" && req.location != "" && req.capacity.Some?
  {
    var checks := [ Check(req.name != "", "Godown name is required"),
                    Check(req.location != "", "Location is required"),
                    Check(req.capacity.Some?, "Capacity must be a number") ];
    assert checks[0].passes && checks[1].passes && checks[2].passes
       <==> forall i :: 0 <= i < |checks| ==> checks[i].passes;
    Failures(checks)
  }

  function DraftOf(req: GodownRequest): GodownDraft
    requires req.capacity.Some?
  {
    GodownDraft(req.name, req.location, req.capacity.value, req.currentStock, req.stockType, req.isActive)
  }

  datatype GodownResult = GodownResult(reply: Reply<Godown>, godowns: seq<Godown>)

  const DuplicateName: seq<string> := ["Godown name already exists"]

  /** The create route: the validators (400), the schema's validators
      (500), then the unique index on the trimmed name (400). */
  function CreateGodown(gs: seq<Godown>, req: GodownRequest): (r: GodownResult)
    ensures r.reply.Err? ==> r.godowns == gs
    ensures r.reply.Ok? ==> r.godowns == gs + [r.reply.value]
  {
    var errs := GodownErrors(req);
    if errs != [] then GodownResult(Err(400, errs), gs)
    else match BuildGodown(DraftOf(req))
      case None => GodownResult(Err(500, ServerError), gs)
      case Some(g) =>
        if NameTaken(gs, g.name) then GodownResult(Err(400, DuplicateName), gs)
        else GodownResult(Ok(g), gs + [g])
  }

  /** A name already stored, once trimmed, is refused with "Godown name
      already exists"; a new one is stored as a valid godown with no stock
      unless the body gives some. */
  lemma CreateOutcome(gs: seq<Godown>, req: GodownRequest)
    requires GodownErrors(req) == [] && BuildGodown(DraftOf(req)).Some?
    ensures var g := BuildGodown(DraftOf(req)).value;
            var r := CreateGodown(gs, req);
            && (r.reply == Err(400, DuplicateName) <==> NameTaken(gs, Trim(req.name)))
            && (r.reply.Ok? <==> !NameTaken(gs, Trim(req.name)))
            && (r.reply.Ok? ==> && r.reply.value == g && ValidGodown(g) && g.name == Trim(req.name)
                                && (req.currentStock.None? ==> g.currentStock == 0))
  {
    assert CreateGodown(gs, req).reply != Err(500, ServerError);
  }

  /** Creating a godown keeps the names unique. */
  lemma CreateKeepsUniqueNames(gs: seq<Godown>, req: GodownRequest)
    requires UniqueNames(gs)
    ensures UniqueNames(CreateGodown(gs, req).godowns)
  {
    var r := CreateGodown(gs, req);
    if r.reply.Ok? {
      UniqueNamesAppend(gs, r.reply.value);
    }
  }

  /** The update body: `None` for each field it leaves out. */
  datatype GodownPatch = GodownPatch(name: Option<string>, location: Option<string>, capacity: Option<int>,
                                     currentStock: Option<int>, stockType: Option<string>,
                                     isActive: Option<bool>)

  /** The update validators, which check only the fields the body gives. */
  predicate PatchConforms(p: GodownPatch) {
    && (p.name.None? || Trim(p.name.value) != "")
    && (p.location.None? || Trim(p.location.value) != "")
    && (p.capacity.None? || p.capacity.value >= 0)
    && (p.currentStock.None? || p.currentStock.value >= 0)
    && (p.stockType.None? || ParseStockType(p.stockType.value).Some?)
  }

  /** The godown after `$set` of the given fields, strings trimmed. */
  function ApplyPatch(g: Godown, p: GodownPatch): Godown
    requires PatchConforms(p)
  {
    Godown(if p.name.Some? then Trim(p.name.value) else g.name,
           if p.location.Some? then Trim(p.location.value) else g.location,
           if p.capacity.Some? then p.capacity.value else g.capacity,
           if p.currentStock.Some? then p.currentStock.value else g.currentStock,
           if p.stockType.Some? then ParseStockType(p.stockType.value).value else g.stockType,
           if p.isActive.Some? then p.isActive.value else g.isActive)
  }

  /** Another stored godown than the one at `id` already has `name`. */
  predicate NameTakenByOther(gs: seq<Godown>, id: nat, name: string) {
    exists j :: 0 <= j < |gs| && j != id && gs[j].name == name
  }

  /** The update route: a failing validator is 500 before the id is looked
      up; an unknown id is 404; a name held by another godown trips the
      unique index, which this route answers 500. */
  function UpdateGodown(gs: seq<Godown>, id: nat, p: GodownPatch): (r: GodownResult)
    ensures r.reply.Err? ==> r.godowns == gs
    ensures r.reply == Err(404, ["Godown not found"]) <==> PatchConforms(p) && id >= |gs|
    ensures r.reply.Ok? ==> && PatchConforms(p) && id < |gs|
                            && r.reply.value == ApplyPatch(gs[id], p)
                            && !NameTakenByOther(gs, id, r.reply.value.name)
                            && r.godowns == gs[id := r.reply.value]
  {
    if !PatchConforms(p) then GodownResult(Err(500, ServerError), gs)
    else if id >= |gs| then GodownResult(Err(404, ["Godown not found"]), gs)
    else
      var g := ApplyPatch(gs[id], p);
      if NameTakenByOther(gs, id, g.name) then GodownResult(Err(500, ServerError), gs)
      else GodownResult(Ok(g), gs[id := g])
  }

  /** Updating keeps every godown valid and the names unique. */
  lemma UpdateKeepsGodownsSound(gs: seq<Godown>, id: nat, p: GodownPatch)
    requires UniqueNames(gs) && forall i :: 0 <= i < |gs| ==> ValidGodown(gs[i])
    ensures var after := UpdateGodown(gs, id, p).godowns;
            UniqueNames(after) && forall i :: 0 <= i < |after| ==> ValidGodown(after[i])
  {
    var r := UpdateGodown(gs, id, p);
    if r.reply.Ok? {
      var after := r.godowns;
      forall i, j | 0 <= i < j < |after|
        ensures after[i].name != after[j].name
      {
        if i == id {
          assert after[j] == gs[j];
        } else if j == id {
          assert after[i] == gs[i];
        } else {
          assert after[i] == gs[i] && after[j] == gs[j];
        }
      }
    }
  }

  /** The update does not compare the stock with the capacity: with the
      names unique, a body setting the stock one past the capacity is
      accepted. */
  lemma UpdateMayOverfill(gs: seq<Godown>, id: nat)
    requires UniqueNames(gs) && id < |gs| && gs[id].capacity >= 0
    ensures var p := GodownPatch(None, None, None, Some(gs[id].capacity + 1), None, None);
            var r := UpdateGodown(gs, id, p);
            r.reply.Ok? && r.reply.value.currentStock > r.reply.value.capacity
  {
    var p := GodownPatch(None, None, None, Some(gs[id].capacity + 1), None, None);
    assert ApplyPatch(gs[id], p).name == gs[id].name;
    assert !NameTakenByOther(gs, id, gs[id].name) by {
      forall j | 0 <= j < |gs| && j != id
        ensures gs[j].name != gs[id].name
      {
        if j < id { assert gs[j].name != gs[id].name; } else { assert gs[id].name != gs[j].name; }
      }
    }
  }

  datatype Details = Details(godown: Godown, paddyStock: seq<Paddy>, riceStock: seq<Rice>)

  /** The details route: the godown with exactly the paddy and rice
      records stored against it, each as often as it is stored, in stored
      order (`Filter`, whose order `FilterAppend` fixes). */
  function GodownDetails(gs: seq<Godown>, paddies: seq<Paddy>, rice: seq<Rice>, id: nat): (r: Reply<Details>)
    ensures r.Err? <==> id >= |gs|
    ensures r.Err? ==> r == Err(404, ["Godown not found"])
    ensures r.Ok? ==> && r.value.godown == gs[id]
                      && (forall x :: x in r.value.paddyStock <==> x in paddies && x.godownId == id)
                      && (forall x :: x in r.value.riceStock <==> x in rice && x.godownId == id)
                      && (forall x :: multiset(r.value.paddyStock)[x]
                                     == if x.godownId == id then multiset(paddies)[x] else 0)
                      && (forall x :: multiset(r.value.riceStock)[x]
                                     == if x.godownId == id then multiset(rice)[x] else 0)
  {
    if id >= |gs| then Err(404, ["Godown not found"])
    else Ok(Details(gs[id], Filter(paddies, (x: Paddy) => x.godownId == id),
                    Filter(rice, (x: Rice) => x.godownId == id)))
  }

  /** The create handler on the stored godowns. */
  method Create(godowns: Collection<Godown>, req: GodownRequest) returns (reply: Reply<Godown>)
    modifies godowns
    ensures GodownResult(reply, godowns.docs) == CreateGodown(old(godowns.docs), req)
  {
    var errs := GodownErrors(req);
    if errs != [] {
      return Err(400, errs);
    }
    var g := BuildGodown(DraftOf(req));
    if g.None? {
      return Err(500, ServerError);
    }
    if NameTaken(godowns.docs, g.value.name) {
      return Err(400, DuplicateName);
    }
    var _ := godowns.Insert(g.value);
    reply := Ok(g.value);
  }

  /** The update handler on the stored godowns. */
  method Update(godowns: Collection<Godown>, id: nat, p: GodownPatch) returns (reply: Reply<Godown>)
    modifies godowns
    ensures GodownResult(reply, godowns.docs) == UpdateGodown(old(godowns.docs), id, p)
  {
    if !PatchConforms(p) {
      return Err(500, ServerError);
    }
    if id >= |godowns.docs| {
      return Err(404, ["Godown not found"]);
    }
    var g := ApplyPatch(godowns.docs[id], p);
    var taken := false;
    var j := 0;
    while j < |godowns.docs|
      invariant 0 <= j <= |godowns.docs|
      invariant taken <==> exists k :: 0 <= k < j && k != id && godowns.docs[k].name == g.name
    {
      if j != id && godowns.docs[j].name == g.name {
        taken := true;
      }
      j := j + 1;
    }
    if taken {
      return Err(500, ServerError);
    }
    godowns.Replace(id, g);
    reply := Ok(g);
  }
}
