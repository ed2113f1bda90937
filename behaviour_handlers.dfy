/** internal/handlers/behaviours.go: the Behaviours page, create and delete,
    over the behaviour store of internal/models/behaviour.go. The list of
    behaviours joins the `aims` table, and the page's aim list is read from
    that same table (internal/models/aim.go). */
module BehaviourHandlers {
  import opened Common
  import opened Strconv
  import opened Http
  import opened Behaviours
  import Aims

  /** What the Behaviours handlers render. */
  datatype BehaviourView =
    | BehavioursPage(behaviours: seq<Behaviour>, aims: seq<Aims.Aim>)  // templates.BehavioursPage
    | BehavioursList(behaviours: seq<Behaviour>)                       // templates.BehavioursList

  // ---------------------------------------------------------------------
  // Reading the request

  /** CreateBehaviourHandler's checks: POST only, a parsable form, and a
      conflictingAimID that is an int64 (the aim itself is not looked up). */
  function CreateBehaviourRequest(req: Request): (d: Decision<BehaviourRow>)
    ensures req.verb != "POST" ==> d == Refuse(StatusMethodNotAllowed, "Method not allowed")
    ensures req.verb == "POST" && req.badForm ==> d == Refuse(StatusBadRequest, "Error parsing form")
    ensures d.Proceed? <==> req.verb == "POST" && !req.badForm && ParseInt(Get(req.body, "conflictingAimID")).Some?
    ensures req.verb == "POST" && !req.badForm && d.Refuse? ==> d == Refuse(StatusBadRequest, "Invalid conflicting aim ID")
  {
    if req.verb != "POST" then Refuse(StatusMethodNotAllowed, "Method not allowed")
    else if req.badForm then Refuse(StatusBadRequest, "Error parsing form")
    else
      var form := PostForm(req);
      match ParseInt(Get(form, "conflictingAimID"))
      case None => Refuse(StatusBadRequest, "Invalid conflicting aim ID")
      case Some(aim) => Proceed(BehaviourRow(Get(form, "name"), Get(form, "description"), Get(form, "mark"), aim))
  }

  function BehaviourForm(row: BehaviourRow): Form {
    map["name" := [row.name], "description" := [row.description], "mark" := [row.mark],
        "conflictingAimID" := [FormatInt(row.conflictingAimId)]]
  }

  /** The create form posted for a behaviour is read back as exactly that
      behaviour. */
  lemma CreateFormRoundTrip(row: BehaviourRow, path: string, hx: string, query: Form)
    requires InInt64(row.conflictingAimId)
    ensures CreateBehaviourRequest(Request("POST", path, hx, query, BehaviourForm(row), false)) == Proceed(row)
  {
    ParseFormat(row.conflictingAimId);
  }

  /** Where DeleteBehaviourHandler finds the id: the post form for POST, and
      the form merged with the query for DELETE. */
  function DeleteBehaviourIdText(req: Request): string
    requires req.verb == "POST" || req.verb == "DELETE"
  {
    if req.verb == "POST" then Get(PostForm(req), "behaviourID") else FormValue(req, "behaviourID")
  }

  /** DeleteBehaviourHandler's checks: POST or DELETE, a parsable form, and a
      positive int64 id. */
  function DeleteBehaviourRequest(req: Request): (d: Decision<int>)
    ensures req.verb !in {"POST", "DELETE"} ==> d == Refuse(StatusMethodNotAllowed, "Method not allowed")
    ensures req.verb in {"POST", "DELETE"} && req.badForm ==> d == Refuse(StatusBadRequest, "Error parsing form")
    ensures req.verb in {"POST", "DELETE"} && !req.badForm ==>
      d == CheckPositiveId(DeleteBehaviourIdText(req), "Invalid behaviour ID", "behaviourID is required")
    ensures d.Proceed? ==> 0 < d.input <= MaxInt64
  {
    if req.verb != "POST" && req.verb != "DELETE" then Refuse(StatusMethodNotAllowed, "Method not allowed")
    else if req.badForm then Refuse(StatusBadRequest, "Error parsing form")
    else CheckPositiveId(DeleteBehaviourIdText(req), "Invalid behaviour ID", "behaviourID is required")
  }

  /** The htmx delete button, DELETE ?behaviourID=<n>, and the plain form,
      POST behaviourID=<n>, both name behaviour n. */
  lemma DeleteRequestRoundTrip(n: int, path: string, hx: string)
    requires 0 < n <= MaxInt64
    ensures DeleteBehaviourRequest(Request("DELETE", path, hx, map["behaviourID" := [FormatInt(n)]], map[], false)) == Proceed(n)
    ensures DeleteBehaviourRequest(Request("POST", path, hx, map[], map["behaviourID" := [FormatInt(n)]], false)) == Proceed(n)
  {
    var del := Request("DELETE", path, hx, map["behaviourID" := [FormatInt(n)]], map[], false);
    assert FormValue(del, "behaviourID") == FormatInt(n);
    AcceptsFormatted(n, "Invalid behaviour ID", "behaviourID is required");
  }

  // ---------------------------------------------------------------------
  // Handlers

  /** GET /behaviours: every behaviour with the name of its aim, and every
      aim. A behaviour whose aim is gone makes the whole page fail. */
  method HandleGetBehaviours(store: BehaviourStore, aims: Aims.AimStore, behaviourFault: Fault, aimFault: Fault)
    returns (r: Response<BehaviourView>)
    requires store.Valid() && aims.Valid()
    ensures r.status == StatusOK <==> behaviourFault != FailAt(0) && AimsPresent(store.rows, aims.nodes) && aimFault != FailAt(0)
    ensures behaviourFault == FailAt(0) || !AimsPresent(store.rows, aims.nodes) ==>
      r == Fail(StatusInternalServerError, "Error retrieving behaviours")
    ensures behaviourFault != FailAt(0) && AimsPresent(store.rows, aims.nodes) && aimFault == FailAt(0) ==>
      r == Fail(StatusInternalServerError, "Error retrieving aims")
    ensures r.status == StatusOK ==>
      && r.body.FullPage? && r.body.view.BehavioursPage?
      && AllBehaviours(store.rows, aims.nodes, r.body.view.behaviours) && Aims.AllAims(aims.nodes, r.body.view.aims)
  {
    var bs := store.GetAllBehaviours(aims.nodes, behaviourFault);
    if bs.Err? {
      return Fail(StatusInternalServerError, "Error retrieving behaviours");
    }
    var aimList := aims.GetAllValues(aimFault);
    if aimList.Err? {
      return Fail(StatusInternalServerError, "Error retrieving aims");
    }
    return Response(StatusOK, FullPage(BehavioursPage(bs.value, aimList.value)));
  }

  /** POST /behaviours/create: store the behaviour, then answer htmx with the
      refreshed list and a plain form with a 303 to the page. */
  method CreateBehaviourHandler(req: Request, store: BehaviourStore, aims: Aims.AimStore, createFault: Fault, listFault: Fault)
    returns (r: Response<BehaviourView>)
    requires store.Valid() && aims.Valid()
    modifies store
    ensures store.Valid()
    ensures CreateBehaviourRequest(req).Refuse? ==>
      r == Refused(CreateBehaviourRequest(req)) && store.rows == old(store.rows) && store.nextId == old(store.nextId)
    ensures CreateBehaviourRequest(req).Proceed? && createFault == FailAt(0) ==>
      && r == Fail(StatusInternalServerError, "Error creating behaviour")
      && store.rows == old(store.rows) && store.nextId == old(store.nextId)
    ensures CreateBehaviourRequest(req).Proceed? && createFault != FailAt(0) ==>
      && store.rows == old(store.rows)[old(store.nextId) := CreateBehaviourRequest(req).input]
      && (!IsHtmx(req) ==> r == SeeOther("/behaviours"))
      && (IsHtmx(req) ==>
            && (r.status == StatusOK <==> listFault != FailAt(0) && AimsPresent(store.rows, aims.nodes))
            && (r.status != StatusOK ==> r == Fail(StatusInternalServerError, "Error retrieving behaviours"))
            && (r.status == StatusOK ==>
                  r.body.Fragment? && r.body.view.BehavioursList? && AllBehaviours(store.rows, aims.nodes, r.body.view.behaviours)))
  {
    var d := CreateBehaviourRequest(req);
    if d.Refuse? {
      return Refused(d);
    }
    var row := d.input;
    var id, err := store.CreateBehaviour(row.name, row.description, row.mark, row.conflictingAimId, createFault);
    if err.Some? {
      return Fail(StatusInternalServerError, "Error creating behaviour");
    }
    if !IsHtmx(req) {
      return SeeOther("/behaviours");
    }
    var bs := store.GetAllBehaviours(aims.nodes, listFault);
    if bs.Err? {
      return Fail(StatusInternalServerError, "Error retrieving behaviours");
    }
    return Response(StatusOK, Fragment(BehavioursList(bs.value)));
  }

  /** POST or DELETE /behaviours/delete: remove the behaviour, then an empty
      200 for htmx or a 303 to the page. A missing id is not an error. */
  method DeleteBehaviourHandler(req: Request, store: BehaviourStore, fault: Fault) returns (r: Response<BehaviourView>)
    requires store.Valid()
    modifies store
    ensures store.Valid() && store.nextId == old(store.nextId)
    ensures DeleteBehaviourRequest(req).Refuse? ==> r == Refused(DeleteBehaviourRequest(req)) && store.rows == old(store.rows)
    ensures DeleteBehaviourRequest(req).Proceed? && fault == FailAt(0) ==>
      r == Fail(StatusInternalServerError, "Error deleting behaviour") && store.rows == old(store.rows)
    ensures DeleteBehaviourRequest(req).Proceed? && fault != FailAt(0) ==>
      r == Deleted(req, "/behaviours") && store.rows == old(store.rows) - {DeleteBehaviourRequest(req).input}
  {
    var d := DeleteBehaviourRequest(req);
    if d.Refuse? {
      return Refused(d);
    }
    var err := store.DeleteBehaviour(d.input, fault);
    if err.Some? {
      return Fail(StatusInternalServerError, "Error deleting behaviour");
    }
    return Deleted(req, "/behaviours");
  }

  /** BehavioursHandler: GET shows the page, and every other method is
      refused with 405. */
  method BehavioursHandler(req: Request, store: BehaviourStore, aims: Aims.AimStore, behaviourFault: Fault, aimFault: Fault)
    returns (r: Response<BehaviourView>)
    requires store.Valid() && aims.Valid()
    ensures r.status == StatusMethodNotAllowed <==> req.verb != "GET"
    ensures req.verb != "GET" ==> r == MethodNotAllowed()
    ensures req.verb == "GET" ==>
      (r.status == StatusOK <==> behaviourFault != FailAt(0) && AimsPresent(store.rows, aims.nodes) && aimFault != FailAt(0))
    ensures req.verb == "GET" && (behaviourFault == FailAt(0) || !AimsPresent(store.rows, aims.nodes)) ==>
      r == Fail(StatusInternalServerError, "Error retrieving behaviours")
    ensures req.verb == "GET" && behaviourFault != FailAt(0) && AimsPresent(store.rows, aims.nodes) && aimFault == FailAt(0) ==>
      r == Fail(StatusInternalServerError, "Error retrieving aims")
    ensures req.verb == "GET" && r.status == StatusOK ==>
      && r.body.FullPage? && r.body.view.BehavioursPage?
      && AllBehaviours(store.rows, aims.nodes, r.body.view.behaviours) && Aims.AllAims(aims.nodes, r.body.view.aims)
  {
    if req.verb == "GET" {
      r := HandleGetBehaviours(store, aims, behaviourFault, aimFault);
    } else {
      r := MethodNotAllowed();
    }
  }

  /** A behaviour created through htmx against an existing aim appears in
      the refreshed list under that aim's name, provided every stored
      behaviour's aim still exists. */
  method CreateThenList(req: Request, store: BehaviourStore, aims: Aims.AimStore) returns (r: Response<BehaviourView>)
    requires store.Valid() && aims.Valid() && IsHtmx(req) && AimsPresent(store.rows, aims.nodes)
    requires CreateBehaviourRequest(req).Proceed? && CreateBehaviourRequest(req).input.conflictingAimId in aims.nodes
    modifies store
    ensures r.status == StatusOK && r.body.Fragment? && r.body.view.BehavioursList?
    ensures exists i :: (0 <= i < |r.body.view.behaviours| && r.body.view.behaviours[i].id == old(store.nextId)
      && r.body.view.behaviours[i].conflictingAimName == aims.nodes[CreateBehaviourRequest(req).input.conflictingAimId].name)
  {
    r := CreateBehaviourHandler(req, store, aims, NoFault, NoFault);
    var bs := r.body.view.behaviours;
    assert old(store.nextId) in BehaviourIds(bs);
    ghost var i :| 0 <= i < |bs| && BehaviourIds(bs)[i] == old(store.nextId);
    assert bs[i].id == old(store.nextId);
  }
}
