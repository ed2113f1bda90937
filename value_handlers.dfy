/** internal/handlers/values.go: the Values page (list, create, delete) and
    the Children and Parents lists of one value, over the value graph of
    internal/models/value.go. */
module ValueHandlers {
  import opened Common
  import opened Strconv
  import opened Http
  import opened Graph
  import opened ViewModels
  import Values

  /** What the Values handlers render. */
  datatype ValueView =
    | ValuesPage(values: seq<ViewValue>)      // templates.ValuesPage
    | ChildrenPage(children: seq<ViewValue>)  // templates.ChildrenPage
    | ParentsPage(parents: seq<ViewValue>)    // templates.ParentsPage

  /** The fields of a create request. */
  datatype NewValue = NewValue(name: string, description: string, parents: seq<string>)

  function ViewIds(vs: seq<ViewValue>): (ids: seq<int>)
    ensures |ids| == |vs| && forall i :: 0 <= i < |vs| ==> ids[i] == vs[i].id
  {
    seq(|vs|, i requires 0 <= i < |vs| => vs[i].id)
  }

  /** How stored value id appears in a list: its name, its description with
      NULL shown as "", and no parent names. */
  function Shown(nodes: map<int, NodeRow>, id: int): (v: ViewValue)
    requires id in nodes
    ensures v.id == id && v.name == nodes[id].name && v.description == TextOrEmpty(nodes[id].description)
    ensures v.parentNames == ""
  {
    ViewValue(id, nodes[id].name, TextOrEmpty(nodes[id].description), "")
  }

  /** Every entry shows the stored value it names. */
  predicate ShownRows(nodes: map<int, NodeRow>, vs: seq<ViewValue>) {
    forall i :: 0 <= i < |vs| ==> vs[i].id in nodes && vs[i] == Shown(nodes, vs[i].id)
  }

  /** A list that shows every stored value exactly once. */
  predicate ShowsAll(nodes: map<int, NodeRow>, vs: seq<ViewValue>) {
    && ShownRows(nodes, vs)
    && (forall k :: k in nodes ==> k in ViewIds(vs))
    && (forall i, j :: 0 <= i < j < |vs| ==> vs[i].id != vs[j].id)
  }

  /** Converting a scanned list keeps its ids in order and shows each entry
      as the value it was scanned from. */
  method ShowScanned(nodes: map<int, NodeRow>, values: seq<Values.Value>) returns (views: seq<ViewValue>)
    requires Values.Scanned(nodes, values)
    ensures ViewIds(views) == Values.ValueIds(values) && ShownRows(nodes, views)
  {
    views := ConvertModelsToViewValues(values);
    assert forall i :: 0 <= i < |views| ==> ViewIds(views)[i] == Values.ValueIds(values)[i];
  }

  // ---------------------------------------------------------------------
  // Reading the request

  /** r.PostForm[key]: every value of a field, in order. */
  function FieldValues(f: Form, key: string): seq<string> {
    if key in f then f[key] else []
  }

  /** The create form: name (required), description, and every parents
      field, unparsed. */
  function CreateValueRequest(req: Request): (d: Decision<NewValue>)
    ensures d.Proceed? <==> !req.badForm && Get(PostForm(req), "name") != ""
    ensures req.badForm ==> d == Refuse(StatusBadRequest, "Error parsing form")
    ensures !req.badForm && Get(PostForm(req), "name") == "" ==> d == Refuse(StatusBadRequest, "Name is required")
  {
    if req.badForm then Refuse(StatusBadRequest, "Error parsing form")
    else
      var form := PostForm(req);
      if Get(form, "name") == "" then Refuse(StatusBadRequest, "Name is required")
      else Proceed(NewValue(Get(form, "name"), Get(form, "description"), FieldValues(form, "parents")))
  }

  /** The form of the Values page, with one parents field per ticked
      parent. */
  function ValueForm(nv: NewValue): Form {
    map["name" := [nv.name], "description" := [nv.description], "parents" := nv.parents]
  }

  /** A named value posted from the page is created with exactly its name,
      description and parent list. */
  lemma CreateFormRoundTrip(nv: NewValue, path: string, hx: string, query: Form)
    requires nv.name != ""
    ensures CreateValueRequest(Request("POST", path, hx, query, ValueForm(nv), false)) == Proceed(nv)
  {
    var req := Request("POST", path, hx, query, ValueForm(nv), false);
    assert PostForm(req) == ValueForm(nv);
    assert Get(ValueForm(nv), "name") == nv.name;
  }

  /** The valueID query parameter of the delete, children and parents
      requests, which must be a positive int64. */
  function ValueIdQuery(req: Request): (d: Decision<int>)
    ensures d.Proceed? ==> 0 < d.input <= MaxInt64 && ParseInt(Get(req.query, "valueID")) == Some(d.input)
    ensures d.Refuse? ==> d.status == StatusBadRequest
  {
    CheckPositiveId(Get(req.query, "valueID"), "Invalid valueID", "valueID is required")
  }

  /** ?valueID=<n> names value n for every positive int64 n. */
  lemma ValueIdQueryRoundTrip(n: int, verb: string, path: string, hx: string, body: Form)
    requires 0 < n <= MaxInt64
    ensures ValueIdQuery(Request(verb, path, hx, map["valueID" := [FormatInt(n)]], body, false)) == Proceed(n)
  {
    AcceptsFormatted(n, "Invalid valueID", "valueID is required");
  }

  // ---------------------------------------------------------------------
  // Handlers

  /** GET /values: every value exactly once, as a full page (whether or not
      htmx asked). */
  method HandleGetValues(store: Values.ValueStore, fault: Fault) returns (r: Response<ValueView>)
    requires store.Valid()
    ensures r.status == StatusOK <==> fault != FailAt(0)
    ensures fault == FailAt(0) ==> r == Fail(StatusInternalServerError, "Error retrieving values")
    ensures r.status == StatusOK ==> r.body.FullPage? && r.body.view.ValuesPage? && ShowsAll(store.nodes, r.body.view.values)
  {
    var vs := store.GetAllValues(fault);
    if vs.Err? {
      return Fail(StatusInternalServerError, "Error retrieving values");
    }
    var views := ShowScanned(store.nodes, vs.value);
    return Response(StatusOK, FullPage(ValuesPage(views)));
  }

  /** POST /values: create the value and one edge per parents field, then
      303 back to the list. A failure after the node insert is reported but
      not undone. */
  method HandleCreateValue(req: Request, store: Values.ValueStore, fault: Fault) returns (r: Response<ValueView>)
    requires store.Valid()
    modifies store
    ensures store.Valid()
    ensures CreateValueRequest(req).Refuse? ==>
      && r == Refused(CreateValueRequest(req))
      && store.nodes == old(store.nodes) && store.edges == old(store.edges) && store.nextId == old(store.nextId)
    ensures CreateValueRequest(req).Proceed? ==>
      var nv := CreateValueRequest(req).input;
      && (r == SeeOther("/values") <==> !(fault.FailAt? && fault.step <= |nv.parents|))
      && (r != SeeOther("/values") ==> r == Fail(StatusInternalServerError, "Error creating value"))
      && (fault == FailAt(0) ==>
            store.nodes == old(store.nodes) && store.edges == old(store.edges) && store.nextId == old(store.nextId))
      && (fault != FailAt(0) ==>
            && store.nodes == old(store.nodes)[old(store.nextId) := NodeRow(nv.name, Some(nv.description))]
            && store.edges == old(store.edges) + EdgesFrom(old(store.nextId), nv.parents[..EdgesInserted(fault, |nv.parents|)]))
  {
    var d := CreateValueRequest(req);
    if d.Refuse? {
      return Refused(d);
    }
    var nv := d.input;
    var id, err := store.CreateValue(nv.name, nv.description, nv.parents, fault);
    if err.Some? {
      return Fail(StatusInternalServerError, "Error creating value");
    }
    return SeeOther("/values");
  }

  /** DELETE /values?valueID=<id>: remove the value's edges, then its node,
      then 303 to the list. A missing id is not an error. */
  method HandleDeleteValue(req: Request, store: Values.ValueStore, fault: Fault) returns (r: Response<ValueView>)
    requires store.Valid()
    modifies store
    ensures store.Valid() && store.nextId == old(store.nextId)
    ensures ValueIdQuery(req).Refuse? ==>
      r == Refused(ValueIdQuery(req)) && store.nodes == old(store.nodes) && store.edges == old(store.edges)
    ensures ValueIdQuery(req).Proceed? ==>
      var id := ValueIdQuery(req).input;
      && (fault == FailAt(0) ==>
            r == Fail(StatusInternalServerError, "Error deleting value") && store.nodes == old(store.nodes) && store.edges == old(store.edges))
      && (fault == FailAt(1) ==>
            r == Fail(StatusInternalServerError, "Error deleting value") && store.nodes == old(store.nodes)
            && store.edges == Detach(old(store.edges), id))
      && (fault != FailAt(0) && fault != FailAt(1) ==>
            r == SeeOther("/values") && store.nodes == old(store.nodes) - {id} && store.edges == Detach(old(store.edges), id))
  {
    var d := ValueIdQuery(req);
    if d.Refuse? {
      return Refused(d);
    }
    var err := store.DeleteValue(d.input, fault);
    if err.Some? {
      return Fail(StatusInternalServerError, "Error deleting value");
    }
    return SeeOther("/values");
  }

  /** handleGetChildren as written: a valid ?valueID=<id> reaches
      models.GetChildren, whose query never prepares, so the answer is
      always 500. */
  method HandleGetChildren(req: Request, store: Values.ValueStore) returns (r: Response<ValueView>)
    requires store.Valid()
    ensures ValueIdQuery(req).Refuse? ==> r == Refused(ValueIdQuery(req))
    ensures ValueIdQuery(req).Proceed? ==> r == Fail(StatusInternalServerError, "Error retrieving children")
  {
    var d := ValueIdQuery(req);
    if d.Refuse? {
      return Refused(d);
    }
    var children := store.GetChildren(d.input);
    // The query never prepares, so the source's rendering branch is never
    // reached: children is always an error here.
    assert children.Err?;
    return Fail(StatusInternalServerError, "Error retrieving children");
  }

  /** handleGetParents as written: always 500 for a valid id, for the same
      reason. */
  method HandleGetParents(req: Request, store: Values.ValueStore) returns (r: Response<ValueView>)
    requires store.Valid()
    ensures ValueIdQuery(req).Refuse? ==> r == Refused(ValueIdQuery(req))
    ensures ValueIdQuery(req).Proceed? ==> r == Fail(StatusInternalServerError, "Error retrieving parents")
  {
    var d := ValueIdQuery(req);
    if d.Refuse? {
      return Refused(d);
    }
    var parents := store.GetParents(d.input);
    // The query never prepares, so the source's rendering branch is never
    // reached: parents is always an error here.
    assert parents.Err?;
    return Fail(StatusInternalServerError, "Error retrieving parents");
  }

  /** handleGetChildren over the quoted query: exactly the stored values with
      an edge to id, once per edge. */
  method HandleGetChildrenQuoted(req: Request, store: Values.ValueStore, fault: Fault) returns (r: Response<ValueView>)
    requires store.Valid()
    ensures ValueIdQuery(req).Refuse? ==> r == Refused(ValueIdQuery(req))
    ensures ValueIdQuery(req).Proceed? && fault == FailAt(0) ==> r == Fail(StatusInternalServerError, "Error retrieving children")
    ensures ValueIdQuery(req).Proceed? && fault != FailAt(0) ==>
      && r.status == StatusOK && r.body.FullPage? && r.body.view.ChildrenPage?
      && ViewIds(r.body.view.children) == ChildIds(store.nodes, store.edges, ValueIdQuery(req).input)
      && ShownRows(store.nodes, r.body.view.children)
  {
    var d := ValueIdQuery(req);
    if d.Refuse? {
      return Refused(d);
    }
    var children := store.GetChildrenQuoted(d.input, fault);
    if children.Err? {
      return Fail(StatusInternalServerError, "Error retrieving children");
    }
    var views := ShowScanned(store.nodes, children.value);
    return Response(StatusOK, FullPage(ChildrenPage(views)));
  }

  /** handleGetParents over the quoted query: exactly the stored values id
      has an edge to, once per edge. */
  method HandleGetParentsQuoted(req: Request, store: Values.ValueStore, fault: Fault) returns (r: Response<ValueView>)
    requires store.Valid()
    ensures ValueIdQuery(req).Refuse? ==> r == Refused(ValueIdQuery(req))
    ensures ValueIdQuery(req).Proceed? && fault == FailAt(0) ==> r == Fail(StatusInternalServerError, "Error retrieving parents")
    ensures ValueIdQuery(req).Proceed? && fault != FailAt(0) ==>
      && r.status == StatusOK && r.body.FullPage? && r.body.view.ParentsPage?
      && ViewIds(r.body.view.parents) == ParentIds(store.nodes, store.edges, ValueIdQuery(req).input)
      && ShownRows(store.nodes, r.body.view.parents)
  {
    var d := ValueIdQuery(req);
    if d.Refuse? {
      return Refused(d);
    }
    var parents := store.GetParentsQuoted(d.input, fault);
    if parents.Err? {
      return Fail(StatusInternalServerError, "Error retrieving parents");
    }
    var views := ShowScanned(store.nodes, parents.value);
    return Response(StatusOK, FullPage(ParentsPage(views)));
  }

  /** ValuesHandler: GET lists every value, POST creates, DELETE deletes, and
      every other method is refused with 405 without touching the store. */
  method ValuesHandler(req: Request, store: Values.ValueStore, fault: Fault) returns (r: Response<ValueView>)
    requires store.Valid()
    modifies store
    ensures store.Valid()
    ensures r.status == StatusMethodNotAllowed <==> req.verb !in {"GET", "POST", "DELETE"}
    ensures req.verb !in {"GET", "POST", "DELETE"} ==> r == MethodNotAllowed()
    ensures req.verb !in {"POST", "DELETE"} ==>
      store.nodes == old(store.nodes) && store.edges == old(store.edges) && store.nextId == old(store.nextId)
    ensures req.verb == "GET" ==>
      && (r.status == StatusOK <==> fault != FailAt(0))
      && (fault == FailAt(0) ==> r == Fail(StatusInternalServerError, "Error retrieving values"))
      && (r.status == StatusOK ==> r.body.FullPage? && r.body.view.ValuesPage? && ShowsAll(store.nodes, r.body.view.values))
    ensures req.verb == "POST" && CreateValueRequest(req).Refuse? ==> r == Refused(CreateValueRequest(req))
    ensures req.verb == "POST" && CreateValueRequest(req).Proceed? ==>
      var nv := CreateValueRequest(req).input;
      && (r == SeeOther("/values") <==> !(fault.FailAt? && fault.step <= |nv.parents|))
      && (r != SeeOther("/values") ==> r == Fail(StatusInternalServerError, "Error creating value"))
      && (fault == FailAt(0) ==>
            store.nodes == old(store.nodes) && store.edges == old(store.edges) && store.nextId == old(store.nextId))
      && (fault != FailAt(0) ==>
            && store.nodes == old(store.nodes)[old(store.nextId) := NodeRow(nv.name, Some(nv.description))]
            && store.edges == old(store.edges) + EdgesFrom(old(store.nextId), nv.parents[..EdgesInserted(fault, |nv.parents|)]))
    ensures req.verb == "DELETE" && ValueIdQuery(req).Refuse? ==>
      r == Refused(ValueIdQuery(req)) && store.nodes == old(store.nodes) && store.edges == old(store.edges)
    ensures req.verb == "DELETE" && ValueIdQuery(req).Proceed? ==>
      var id := ValueIdQuery(req).input;
      && (fault == FailAt(0) ==>
            r == Fail(StatusInternalServerError, "Error deleting value") && store.nodes == old(store.nodes) && store.edges == old(store.edges))
      && (fault == FailAt(1) ==>
            r == Fail(StatusInternalServerError, "Error deleting value") && store.nodes == old(store.nodes)
            && store.edges == Detach(old(store.edges), id))
      && (fault != FailAt(0) && fault != FailAt(1) ==>
            r == SeeOther("/values") && store.nodes == old(store.nodes) - {id} && store.edges == Detach(old(store.edges), id))
  {
    if req.verb == "GET" {
      r := HandleGetValues(store, fault);
    } else if req.verb == "POST" {
      r := HandleCreateValue(req, store, fault);
    } else if req.verb == "DELETE" {
      r := HandleDeleteValue(req, store, fault);
    } else {
      r := MethodNotAllowed();
    }
  }

  /** A value deleted through the page has no children and no parents
      left, as the quoted queries list them. */
  method DeleteThenRelatives(req: Request, store: Values.ValueStore)
    returns (deleted: Response<ValueView>, children: Result<seq<Values.Value>>, parents: Result<seq<Values.Value>>)
    requires store.Valid() && ValueIdQuery(req).Proceed?
    modifies store
    ensures deleted == SeeOther("/values")
    ensures children == Ok([]) && parents == Ok([])
  {
    deleted := HandleDeleteValue(req, store, NoFault);
    var id := ValueIdQuery(req).input;
    children := store.GetChildrenQuoted(id, NoFault);
    parents := store.GetParentsQuoted(id, NoFault);
    DetachedIsIsolated(store.nodes, old(store.edges), id);
  }
}
