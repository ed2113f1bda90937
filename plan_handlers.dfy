/** internal/handlers/plans.go: the Plans page, create and delete, and the
    inline edit cycle of one table row (edit form, cancel, save). The value
    list comes from internal/models/value.go. */
module PlanHandlers {
  import opened Common
  import opened Strconv
  import opened Strings
  import opened Http
  import opened Plans
  import Values
  import Graph

  /** One <option> of the edit form's value dropdown. */
  datatype ValueOption = ValueOption(id: int, name: string, selected: bool)

  /** What the Plans handlers render. */
  datatype PlanView =
    | PlansPage(plans: seq<Plan>, values: seq<Values.Value>)   // templates.PlansPage
    | EditRow(plan: Plan, options: seq<ValueOption>)          // the row turned into a form
    | ViewingRow(plan: Plan, valueName: string)               // the read-only row

  /** The fields an edit form submits for a plan update. */
  datatype PlanUpdate = PlanUpdate(id: int, row: PlanRow)

  // ---------------------------------------------------------------------
  // Reading the request

  /** The form fields HandleCreatePlan reads: name, description, resources
      and valueID, the last one parsed as an int64. */
  function CreatePlanRequest(req: Request): (d: Decision<PlanRow>)
    ensures req.badForm ==> d == Refuse(StatusBadRequest, "Error parsing form")
    ensures !req.badForm ==> (d.Proceed? <==> ParseInt(Get(PostForm(req), "valueID")).Some?)
    ensures !req.badForm && d.Refuse? ==> d == Refuse(StatusBadRequest, "Invalid value ID")
  {
    if req.badForm then Refuse(StatusBadRequest, "Error parsing form")
    else
      var form := PostForm(req);
      match ParseInt(Get(form, "valueID"))
      case None => Refuse(StatusBadRequest, "Invalid value ID")
      case Some(v) => Proceed(PlanRow(Get(form, "name"), Get(form, "description"), Get(form, "resources"), v))
  }

  /** The form a page submits for a plan, under the field names it uses for
      the resources and the value id. */
  function PlanForm(row: PlanRow, resourcesKey: string, valueKey: string): Form {
    map["name" := [row.name], "description" := [row.description],
        resourcesKey := [row.resourcesRequired], valueKey := [FormatInt(row.valueId)]]
  }

  /** Whatever plan the create form carries, HandleCreatePlan reads back
      exactly that plan. */
  lemma CreateFormRoundTrip(row: PlanRow, path: string, hx: string, query: Form)
    requires InInt64(row.valueId)
    ensures CreatePlanRequest(Request("POST", path, hx, query, PlanForm(row, "resources", "valueID"), false)) == Proceed(row)
  {
    ParseFormat(row.valueId);
  }

  /** Where HandleDeletePlan finds the id: the last path segment under
      /plans/delete/, and otherwise the planID query parameter. */
  function DeletePlanIdText(req: Request): (s: string)
    ensures HasPrefix(req.path, "/plans/delete/") ==> s == LastSegment(req.path)
    ensures !HasPrefix(req.path, "/plans/delete/") ==> s == Get(req.query, "planID")
  {
    if HasPrefix(req.path, "/plans/delete/") then
      var parts := Split(req.path, '/');
      DeletePathParts(req.path[|"/plans/delete/"|..]);
      assert req.path == "/plans/delete/" + req.path[|"/plans/delete/"|..];
      if |parts| >= 3 then Last(parts) else ""
    else Get(req.query, "planID")
  }

  /** A path under /plans/delete/ always has at least three segments, so the
      length check in HandleDeletePlan never fails. */
  lemma DeletePathParts(rest: string)
    ensures |Split("/plans/delete/" + rest, '/')| >= 3
  {
    assert "/plans/delete/" + rest == "" + ['/'] + ("plans" + ['/'] + ("delete" + ['/'] + rest));
    SplitAround("", '/', "plans" + ['/'] + ("delete" + ['/'] + rest));
    SplitAround("plans", '/', "delete" + ['/'] + rest);
  }

  function DeletePlanRequest(req: Request): (d: Decision<int>)
    ensures d.Proceed? ==> 0 < d.input <= MaxInt64
  {
    CheckPositiveId(DeletePlanIdText(req), "Invalid plan ID", "planID is required")
  }

  /** The htmx delete button's request, DELETE /plans/delete/<n>, deletes
      plan n, whatever the query says. */
  lemma DeleteButtonRoundTrip(n: int, hx: string, query: Form)
    requires 0 < n <= MaxInt64
    ensures DeletePlanRequest(Request("DELETE", "/plans/delete/" + FormatInt(n), hx, query, map[], false)) == Proceed(n)
  {
    var path := "/plans/delete/" + FormatInt(n);
    assert path[..|"/plans/delete/"|] == "/plans/delete/";
    assert path == "/plans/delete" + "/" + FormatInt(n);
    LastSegmentOfId("/plans/delete", n);
    AcceptsFormatted(n, "Invalid plan ID", "planID is required");
  }

  /** The id of the edit, cancel and update routes: the last segment of a
      path of at least three segments, parsed as an int64 (a zero or negative
      id is not refused here). */
  function PlanIdFromPath(path: string): (d: Decision<int>)
    ensures d.Proceed? ==> |Split(path, '/')| >= 3 && ParseInt(LastSegment(path)) == Some(d.input)
    ensures d == Refuse(StatusBadRequest, "Invalid URL") <==> |Split(path, '/')| < 3
    ensures |Split(path, '/')| >= 3 && ParseInt(LastSegment(path)).None? ==> d == Refuse(StatusBadRequest, "Invalid plan ID")
    ensures |Split(path, '/')| >= 3 && ParseInt(LastSegment(path)).Some? ==> d.Proceed?
  {
    var parts := Split(path, '/');
    if |parts| < 3 then Refuse(StatusBadRequest, "Invalid URL")
    else
      match ParseInt(Last(parts))
      case None => Refuse(StatusBadRequest, "Invalid plan ID")
      case Some(n) => Proceed(n)
  }

  /** `<prefix>/<n>` names plan n when the prefix has at least two segments,
      as /plans/edit, /plans/cancel-edit and /plans/update do. */
  lemma PlanPathRoundTrip(prefix: string, n: int)
    requires |Split(prefix, '/')| >= 2 && InInt64(n)
    ensures PlanIdFromPath(prefix + "/" + FormatInt(n)) == Proceed(n)
  {
    LastSegmentOfId(prefix, n);
    ParseFormat(n);
  }

  /** The update request: the id from the path, then the form, whose fields
      are named resources_required and value_id here (not resources and
      valueID as in the create form). */
  function UpdatePlanRequest(req: Request): (d: Decision<PlanUpdate>)
    ensures d.Proceed? ==> PlanIdFromPath(req.path) == Proceed(d.input.id) && !req.badForm
    ensures PlanIdFromPath(req.path).Refuse? ==>
      d == Refuse(PlanIdFromPath(req.path).status, PlanIdFromPath(req.path).message)
    ensures PlanIdFromPath(req.path).Proceed? && req.badForm ==> d == Refuse(StatusBadRequest, "Error parsing form")
    ensures PlanIdFromPath(req.path).Proceed? && !req.badForm ==>
      (d.Proceed? <==> ParseInt(Get(PostForm(req), "value_id")).Some?)
    ensures PlanIdFromPath(req.path).Proceed? && !req.badForm && d.Refuse? ==> d == Refuse(StatusBadRequest, "Invalid value ID")
    ensures d.Proceed? ==>
      var form := PostForm(req);
      && d.input.row.name == Get(form, "name") && d.input.row.description == Get(form, "description")
      && d.input.row.resourcesRequired == Get(form, "resources_required")
      && Some(d.input.row.valueId) == ParseInt(Get(form, "value_id"))
    ensures d.Refuse? ==> d.status == StatusBadRequest
  {
    match PlanIdFromPath(req.path)
    case Refuse(status, message) => Refuse(status, message)
    case Proceed(id) =>
      if req.badForm then Refuse(StatusBadRequest, "Error parsing form")
      else
        var form := PostForm(req);
        match ParseInt(Get(form, "value_id"))
        case None => Refuse(StatusBadRequest, "Invalid value ID")
        case Some(v) => Proceed(PlanUpdate(id, PlanRow(Get(form, "name"), Get(form, "description"), Get(form, "resources_required"), v)))
  }

  /** The Save button's request, PUT <prefix>/<n> with the row's fields,
      updates plan n to exactly those fields. */
  lemma SaveRoundTrip(prefix: string, n: int, row: PlanRow, hx: string, query: Form)
    requires |Split(prefix, '/')| >= 2 && InInt64(n) && InInt64(row.valueId)
    ensures UpdatePlanRequest(Request("PUT", prefix + "/" + FormatInt(n), hx, query,
                                      PlanForm(row, "resources_required", "value_id"), false))
            == Proceed(PlanUpdate(n, row))
  {
    PlanPathRoundTrip(prefix, n);
    ParseFormat(row.valueId);
  }

  // ---------------------------------------------------------------------
  // The edit form and the read-only row

  /** The dropdown of the edit form: one option per value in list order,
      marked selected exactly when its id is the plan's value id. */
  method ValueOptions(values: seq<Values.Value>, valueID: int) returns (options: seq<ValueOption>)
    ensures |options| == |values|
    ensures forall i :: 0 <= i < |values| ==>
      options[i].id == values[i].id && options[i].name == values[i].name && (options[i].selected <==> values[i].id == valueID)
  {
    options := [];
    var i := 0;
    while i < |values|
      invariant 0 <= i <= |values| && |options| == i
      invariant forall k :: 0 <= k < i ==>
        options[k].id == values[k].id && options[k].name == values[k].name && (options[k].selected <==> values[k].id == valueID)
    {
      var selected := values[i].id == valueID;
      options := options + [ValueOption(values[i].id, values[i].name, selected)];
      i := i + 1;
    }
  }

  function OptionIds(options: seq<ValueOption>): (ids: seq<int>)
    ensures |ids| == |options| && forall i :: 0 <= i < |options| ==> ids[i] == options[i].id
  {
    seq(|options|, i requires 0 <= i < |options| => options[i].id)
  }

  /** The dropdown for a plan whose value id is valueID, built from a list of
      all stored values: every value once, with its name, selected exactly
      when it is the plan's value. */
  predicate OptionsFor(nodes: map<int, Graph.NodeRow>, valueID: int, options: seq<ValueOption>) {
    && (forall i :: 0 <= i < |options| ==>
         options[i].id in nodes && options[i].name == nodes[options[i].id].name && (options[i].selected <==> options[i].id == valueID))
    && (forall k :: k in nodes ==> k in OptionIds(options))
    && (forall i, j :: 0 <= i < j < |options| ==> options[i].id != options[j].id)
  }

  /** A dropdown built for an existing value has exactly one selected
      option; for a dangling value id it has none. */
  lemma SelectedExactlyOnce(nodes: map<int, Graph.NodeRow>, valueID: int, options: seq<ValueOption>)
    requires OptionsFor(nodes, valueID, options)
    ensures forall i, j :: 0 <= i < |options| && 0 <= j < |options| && options[i].selected && options[j].selected ==> i == j
    ensures valueID in nodes ==> exists i :: 0 <= i < |options| && options[i].selected
    ensures valueID !in nodes ==> forall i :: 0 <= i < |options| ==> !options[i].selected
  {
    if valueID in nodes {
      assert valueID in OptionIds(options);
      var i :| 0 <= i < |options| && OptionIds(options)[i] == valueID;
      assert options[i].selected;
    }
  }

  /** No value before position i has this id. */
  predicate FirstWith(values: seq<Values.Value>, valueID: int, i: int) {
    forall j :: 0 <= j < i && j < |values| ==> values[j].id != valueID
  }

  /** The name shown for a value id: the name of the first value in the list
      with that id, or "Unknown" when there is none. */
  function FirstMatchName(values: seq<Values.Value>, valueID: int): (name: string)
    ensures (forall i :: 0 <= i < |values| ==> values[i].id != valueID) ==> name == "Unknown"
    ensures forall i :: 0 <= i < |values| && values[i].id == valueID && FirstWith(values, valueID, i) ==> name == values[i].name
  {
    if |values| == 0 then "Unknown"
    else if values[0].id == valueID then values[0].name
    else
      var rest := FirstMatchName(values[1..], valueID);
      assert forall i :: 1 <= i < |values| ==> values[i] == values[1..][i - 1];
      rest
  }

  /** The search loop of CancelEditHandler and UpdatePlanHandler. */
  method ValueName(values: seq<Values.Value>, valueID: int) returns (name: string)
    ensures name == FirstMatchName(values, valueID)
  {
    name := "Unknown";
    var i := 0;
    while i < |values|
      invariant 0 <= i <= |values|
      invariant forall j :: 0 <= j < i ==> values[j].id != valueID
    {
      if values[i].id == valueID {
        name := values[i].name;
        break;
      }
      i := i + 1;
    }
  }

  /** The name of a value in the table, or "Unknown" for a dangling id. */
  function ValueNameIn(nodes: map<int, Graph.NodeRow>, valueID: int): string {
    if valueID in nodes then nodes[valueID].name else "Unknown"
  }

  /** Over a list of all stored values, each once, the first match is the
      stored value itself, whatever order the list came in. */
  lemma FirstMatchOfAll(nodes: map<int, Graph.NodeRow>, values: seq<Values.Value>, valueID: int)
    requires Values.AllValues(nodes, values)
    ensures FirstMatchName(values, valueID) == ValueNameIn(nodes, valueID)
  {
    if valueID in nodes {
      assert valueID in Values.ValueIds(values);
      var i :| 0 <= i < |values| && Values.ValueIds(values)[i] == valueID;
      assert values[i].name == nodes[valueID].name;
    }
  }

  /** The read-only row of plan id, as cancel and save both render it: the
      stored plan, and the name of its value, or "Unknown" when no value
      has the plan's value id. */
  function ReadOnlyRow(rows: map<int, PlanRow>, nodes: map<int, Graph.NodeRow>, id: int): (v: PlanView)
    requires id in rows
    ensures v.ViewingRow? && v.plan.id == id && v.plan == PlanOf(rows, id)
    ensures rows[id].valueId in nodes ==> v.valueName == nodes[rows[id].valueId].name
    ensures rows[id].valueId !in nodes ==> v.valueName == "Unknown"
  {
    ViewingRow(PlanOf(rows, id), ValueNameIn(nodes, rows[id].valueId))
  }

  // ---------------------------------------------------------------------
  // The list page

  /** handleGetPlans as written: the error of GetAllPlans is overwritten by
      that of GetAllValues before anything looks at it, so only a failing
      value query is reported and a failing plan query shows an empty page. */
  function PlansPageAsWritten(plans: Result<seq<Plan>>, values: Result<seq<Values.Value>>): (r: Response<PlanView>)
    ensures r.status == StatusOK <==> values.Ok?
    ensures values.Ok? ==> r.body == FullPage(PlansPage(if plans.Ok? then plans.value else [], values.value))
  {
    if values.Err? then Fail(StatusInternalServerError, "Error retrieving values")
    else Response(StatusOK, FullPage(PlansPage(if plans.Ok? then plans.value else [], values.value)))
  }

  /** handleGetPlans with each error checked: the page is shown only when
      both queries succeed. */
  function PlansPageResponse(plans: Result<seq<Plan>>, values: Result<seq<Values.Value>>): (r: Response<PlanView>)
    ensures r.status == StatusOK <==> plans.Ok? && values.Ok?
    ensures r.status == StatusOK ==> r.body == FullPage(PlansPage(plans.value, values.value))
    ensures plans.Err? ==> r == Fail(StatusInternalServerError, "Error retrieving plans")
    ensures plans.Ok? && values.Err? ==> r == Fail(StatusInternalServerError, "Error retrieving values")
  {
    if plans.Err? then Fail(StatusInternalServerError, "Error retrieving plans")
    else if values.Err? then Fail(StatusInternalServerError, "Error retrieving values")
    else Response(StatusOK, FullPage(PlansPage(plans.value, values.value)))
  }

  /** A failing plan query with a working value query: the code as written
      answers 200 with no plans at all, the checked version reports it. */
  lemma PlansErrorLost(values: seq<Values.Value>, e: StoreError)
    ensures PlansPageAsWritten(Err(e), Ok(values)) == Response(StatusOK, FullPage(PlansPage([], values)))
    ensures PlansPageResponse(Err(e), Ok(values)).status == StatusInternalServerError
  {
  }

  /** The two agree whenever the plan query succeeds. */
  lemma PlansPageAgrees(plans: seq<Plan>, values: Result<seq<Values.Value>>)
    ensures PlansPageAsWritten(Ok(plans), values) == PlansPageResponse(Ok(plans), values)
  {
  }

  /** GET /plans as written: every value once, and every plan once unless
      the plan query failed, in which case the page silently shows no plans.
      Only a failing value query is reported. */
  method HandleGetPlans(plans: PlanStore, values: Values.ValueStore, planFault: Fault, valueFault: Fault)
    returns (r: Response<PlanView>)
    requires plans.Valid() && values.Valid()
    ensures r.status == StatusOK <==> valueFault != FailAt(0)
    ensures valueFault == FailAt(0) ==> r == Fail(StatusInternalServerError, "Error retrieving values")
    ensures r.status == StatusOK ==>
      && r.body.FullPage? && r.body.view.PlansPage? && Values.AllValues(values.nodes, r.body.view.values)
      && (planFault == FailAt(0) ==> r.body.view.plans == [])
      && (planFault != FailAt(0) ==> AllPlans(plans.rows, r.body.view.plans))
  {
    var ps := plans.GetAllPlans(planFault);
    var vs := values.GetAllValues(valueFault);
    r := PlansPageAsWritten(ps, vs);
  }

  /** GET /plans with each error checked: the page is shown exactly when both
      queries succeed, and it lists every plan and every value once. */
  method HandleGetPlansChecked(plans: PlanStore, values: Values.ValueStore, planFault: Fault, valueFault: Fault)
    returns (r: Response<PlanView>)
    requires plans.Valid() && values.Valid()
    ensures planFault == FailAt(0) ==> r == Fail(StatusInternalServerError, "Error retrieving plans")
    ensures planFault != FailAt(0) && valueFault == FailAt(0) ==> r == Fail(StatusInternalServerError, "Error retrieving values")
    ensures r.status == StatusOK <==> planFault != FailAt(0) && valueFault != FailAt(0)
    ensures r.status == StatusOK ==>
      && r.body.FullPage? && r.body.view.PlansPage?
      && AllPlans(plans.rows, r.body.view.plans) && Values.AllValues(values.nodes, r.body.view.values)
  {
    var ps := plans.GetAllPlans(planFault);
    var vs := values.GetAllValues(valueFault);
    r := PlansPageResponse(ps, vs);
  }

  // ---------------------------------------------------------------------
  // Writes

  /** POST /plans (and /plans/create): create the plan the form describes,
      then 303 back to the list. */
  method HandleCreatePlan(req: Request, plans: PlanStore, fault: Fault) returns (r: Response<PlanView>)
    requires plans.Valid()
    modifies plans
    ensures plans.Valid()
    ensures CreatePlanRequest(req).Refuse? ==>
      r == Refused(CreatePlanRequest(req)) && plans.rows == old(plans.rows) && plans.nextId == old(plans.nextId)
    ensures CreatePlanRequest(req).Proceed? && fault == FailAt(0) ==>
      r == Fail(StatusInternalServerError, "Error creating plan") && plans.rows == old(plans.rows) && plans.nextId == old(plans.nextId)
    ensures CreatePlanRequest(req).Proceed? && fault != FailAt(0) ==>
      r == SeeOther("/plans") && plans.rows == old(plans.rows)[old(plans.nextId) := CreatePlanRequest(req).input]
  {
    var d := CreatePlanRequest(req);
    if d.Refuse? {
      return Refused(d);
    }
    var row := d.input;
    var id, err := plans.CreatePlan(row.name, row.description, row.resourcesRequired, row.valueId, fault);
    if err.Some? {
      return Fail(StatusInternalServerError, "Error creating plan");
    }
    return SeeOther("/plans");
  }

  /** DELETE /plans/delete/<id> or ?planID=<id>: delete the plan, then an
      empty 200 for htmx or a 303 to the list. */
  method HandleDeletePlan(req: Request, plans: PlanStore, fault: Fault) returns (r: Response<PlanView>)
    requires plans.Valid()
    modifies plans
    ensures plans.Valid() && plans.nextId == old(plans.nextId)
    ensures DeletePlanRequest(req).Refuse? ==> r == Refused(DeletePlanRequest(req)) && plans.rows == old(plans.rows)
    ensures DeletePlanRequest(req).Proceed? && fault == FailAt(0) ==>
      r == Fail(StatusInternalServerError, "Error deleting plan") && plans.rows == old(plans.rows)
    ensures DeletePlanRequest(req).Proceed? && fault != FailAt(0) ==>
      r == Deleted(req, "/plans") && plans.rows == old(plans.rows) - {DeletePlanRequest(req).input}
  {
    var d := DeletePlanRequest(req);
    if d.Refuse? {
      return Refused(d);
    }
    var err := plans.DeletePlan(d.input, fault);
    if err.Some? {
      return Fail(StatusInternalServerError, "Error deleting plan");
    }
    return Deleted(req, "/plans");
  }

  /** GET /plans/edit/<id>: the row of plan id as a form, its dropdown
      listing every value once with the plan's own value selected. */
  method EditPlanHandler(req: Request, plans: PlanStore, values: Values.ValueStore, planFault: Fault, valueFault: Fault)
    returns (r: Response<PlanView>)
    requires plans.Valid() && values.Valid()
    ensures PlanIdFromPath(req.path).Refuse? ==> r == Refused(PlanIdFromPath(req.path))
    ensures PlanIdFromPath(req.path).Proceed? ==>
      var id := PlanIdFromPath(req.path).input;
      && (planFault == FailAt(0) || id !in plans.rows ==> r == Fail(StatusInternalServerError, "Error retrieving plan"))
      && (planFault != FailAt(0) && id in plans.rows && valueFault == FailAt(0) ==> r == Fail(StatusInternalServerError, "Error retrieving values"))
      && (planFault != FailAt(0) && id in plans.rows && valueFault != FailAt(0) ==>
            && r.status == StatusOK && r.body.Fragment? && r.body.view.EditRow?
            && r.body.view.plan == PlanOf(plans.rows, id)
            && OptionsFor(values.nodes, plans.rows[id].valueId, r.body.view.options))
  {
    var d := PlanIdFromPath(req.path);
    if d.Refuse? {
      return Refused(d);
    }
    var plan := plans.GetPlan(d.input, planFault);
    if plan.Err? {
      return Fail(StatusInternalServerError, "Error retrieving plan");
    }
    var vs := values.GetAllValues(valueFault);
    if vs.Err? {
      return Fail(StatusInternalServerError, "Error retrieving values");
    }
    var options := ValueOptions(vs.value, plan.value.valueID);
    assert OptionIds(options) == Values.ValueIds(vs.value);
    return Response(StatusOK, Fragment(EditRow(plan.value, options)));
  }

  /** GET /plans/cancel-edit/<id>: plan id's read-only row again. */
  method CancelEditHandler(req: Request, plans: PlanStore, values: Values.ValueStore, planFault: Fault, valueFault: Fault)
    returns (r: Response<PlanView>)
    requires plans.Valid() && values.Valid()
    ensures PlanIdFromPath(req.path).Refuse? ==> r == Refused(PlanIdFromPath(req.path))
    ensures PlanIdFromPath(req.path).Proceed? ==>
      var id := PlanIdFromPath(req.path).input;
      r == if planFault == FailAt(0) || id !in plans.rows then Fail(StatusInternalServerError, "Error retrieving plan")
           else if valueFault == FailAt(0) then Fail(StatusInternalServerError, "Error retrieving values")
           else Response(StatusOK, Row(ReadOnlyRow(plans.rows, values.nodes, id)))
  {
    var d := PlanIdFromPath(req.path);
    if d.Refuse? {
      return Refused(d);
    }
    var plan := plans.GetPlan(d.input, planFault);
    if plan.Err? {
      return Fail(StatusInternalServerError, "Error retrieving plan");
    }
    var vs := values.GetAllValues(valueFault);
    if vs.Err? {
      return Fail(StatusInternalServerError, "Error retrieving values");
    }
    var name := ValueName(vs.value, plan.value.valueID);
    FirstMatchOfAll(values.nodes, vs.value, plan.value.valueID);
    return Response(StatusOK, Row(ViewingRow(plan.value, name)));
  }

  /** PUT /plans/update/<id>: overwrite plan id with the form, read it back
      and show its read-only row. A missing plan is not an error for the
      update itself, only for the read that follows. */
  method UpdatePlanHandler(req: Request, plans: PlanStore, values: Values.ValueStore,
                           updateFault: Fault, planFault: Fault, valueFault: Fault)
    returns (r: Response<PlanView>)
    requires plans.Valid() && values.Valid()
    modifies plans
    ensures plans.Valid() && plans.nextId == old(plans.nextId)
    ensures UpdatePlanRequest(req).Refuse? ==> r == Refused(UpdatePlanRequest(req)) && plans.rows == old(plans.rows)
    ensures UpdatePlanRequest(req).Proceed? ==>
      var u := UpdatePlanRequest(req).input;
      && plans.rows == (if updateFault != FailAt(0) && u.id in old(plans.rows) then old(plans.rows)[u.id := u.row] else old(plans.rows))
      && r == if updateFault == FailAt(0) then Fail(StatusInternalServerError, "Error updating plan")
              else if planFault == FailAt(0) || u.id !in plans.rows then Fail(StatusInternalServerError, "Error retrieving updated plan")
              else if valueFault == FailAt(0) then Fail(StatusInternalServerError, "Error retrieving values")
              else Response(StatusOK, Row(ReadOnlyRow(plans.rows, values.nodes, u.id)))
  {
    var d := UpdatePlanRequest(req);
    if d.Refuse? {
      return Refused(d);
    }
    var u := d.input;
    var err := plans.UpdatePlan(u.id, u.row.name, u.row.description, u.row.resourcesRequired, u.row.valueId, updateFault);
    if err.Some? {
      return Fail(StatusInternalServerError, "Error updating plan");
    }
    var plan := plans.GetPlan(u.id, planFault);
    if plan.Err? {
      return Fail(StatusInternalServerError, "Error retrieving updated plan");
    }
    var vs := values.GetAllValues(valueFault);
    if vs.Err? {
      return Fail(StatusInternalServerError, "Error retrieving values");
    }
    var name := ValueName(vs.value, plan.value.valueID);
    FirstMatchOfAll(values.nodes, vs.value, plan.value.valueID);
    return Response(StatusOK, Row(ViewingRow(plan.value, name)));
  }

  /** Saving an edit and cancelling an edit of the same plan leave the same
      read-only row behind, showing what was saved. */
  method SaveThenCancel(save: Request, cancelPath: string, plans: PlanStore, values: Values.ValueStore)
    returns (saved: Response<PlanView>, cancelled: Response<PlanView>)
    requires plans.Valid() && values.Valid()
    requires UpdatePlanRequest(save).Proceed? && UpdatePlanRequest(save).input.id in plans.rows
    requires PlanIdFromPath(cancelPath) == Proceed(UpdatePlanRequest(save).input.id)
    modifies plans
    ensures saved.status == StatusOK && saved == cancelled
    ensures UpdatePlanRequest(save).input.id in plans.rows
    ensures saved.body == Row(ViewingRow(PlanOf(plans.rows, UpdatePlanRequest(save).input.id), ValueNameIn(values.nodes, UpdatePlanRequest(save).input.row.valueId)))
    ensures plans.rows[UpdatePlanRequest(save).input.id] == UpdatePlanRequest(save).input.row
  {
    saved := UpdatePlanHandler(save, plans, values, NoFault, NoFault, NoFault);
    cancelled := CancelEditHandler(Request("GET", cancelPath, "true", map[], map[], false), plans, values, NoFault, NoFault);
  }

  // ---------------------------------------------------------------------
  // Routing

  /** PlansHandler: GET lists, POST creates, DELETE deletes, and every other
      method is refused with 405 without touching the store. */
  method PlansHandler(req: Request, plans: PlanStore, values: Values.ValueStore, planFault: Fault, valueFault: Fault)
    returns (r: Response<PlanView>)
    requires plans.Valid() && values.Valid()
    modifies plans
    ensures plans.Valid()
    ensures r.status == StatusMethodNotAllowed <==> req.verb !in {"GET", "POST", "DELETE"}
    ensures req.verb !in {"GET", "POST", "DELETE"} ==> r == MethodNotAllowed()
    ensures req.verb !in {"POST", "DELETE"} ==> plans.rows == old(plans.rows) && plans.nextId == old(plans.nextId)
    ensures req.verb == "GET" ==>
      && (r.status == StatusOK <==> valueFault != FailAt(0))
      && (valueFault == FailAt(0) ==> r == Fail(StatusInternalServerError, "Error retrieving values"))
      && (r.status == StatusOK ==>
            && r.body.FullPage? && r.body.view.PlansPage? && Values.AllValues(values.nodes, r.body.view.values)
            && (planFault == FailAt(0) ==> r.body.view.plans == [])
            && (planFault != FailAt(0) ==> AllPlans(plans.rows, r.body.view.plans)))
    ensures req.verb == "POST" && CreatePlanRequest(req).Refuse? ==>
      r == Refused(CreatePlanRequest(req)) && plans.rows == old(plans.rows) && plans.nextId == old(plans.nextId)
    ensures req.verb == "POST" && CreatePlanRequest(req).Proceed? && planFault == FailAt(0) ==>
      r == Fail(StatusInternalServerError, "Error creating plan") && plans.rows == old(plans.rows) && plans.nextId == old(plans.nextId)
    ensures req.verb == "POST" && CreatePlanRequest(req).Proceed? && planFault != FailAt(0) ==>
      r == SeeOther("/plans") && plans.rows == old(plans.rows)[old(plans.nextId) := CreatePlanRequest(req).input]
    ensures req.verb == "DELETE" ==> plans.nextId == old(plans.nextId)
    ensures req.verb == "DELETE" && DeletePlanRequest(req).Refuse? ==> r == Refused(DeletePlanRequest(req)) && plans.rows == old(plans.rows)
    ensures req.verb == "DELETE" && DeletePlanRequest(req).Proceed? && planFault == FailAt(0) ==>
      r == Fail(StatusInternalServerError, "Error deleting plan") && plans.rows == old(plans.rows)
    ensures req.verb == "DELETE" && DeletePlanRequest(req).Proceed? && planFault != FailAt(0) ==>
      r == Deleted(req, "/plans") && plans.rows == old(plans.rows) - {DeletePlanRequest(req).input}
  {
    if req.verb == "GET" {
      r := HandleGetPlans(plans, values, planFault, valueFault);
    } else if req.verb == "POST" {
      r := HandleCreatePlan(req, plans, planFault);
    } else if req.verb == "DELETE" {
      r := HandleDeletePlan(req, plans, planFault);
    } else {
      r := MethodNotAllowed();
    }
  }
}
