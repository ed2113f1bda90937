/** internal/handlers/statements.go: the Statements page, create and delete,
    over the statement store of internal/models/statement.go. */
module StatementHandlers {
  import opened Common
  import opened Strconv
  import opened Http
  import opened Statements

  /** What the Statements handlers render: templates.StatementsPage. */
  datatype StatementView = StatementsPage(statements: seq<Statement>)

  // ---------------------------------------------------------------------
  // Reading the request

  /** strconv.Atoi on a 64-bit platform, with 0 for text that is not an
      integer in range. */
  function PriorityOf(s: string): (p: int)
    ensures ParseInt(s).Some? ==> p == ParseInt(s).value
    ensures ParseInt(s).None? ==> p == 0
    ensures InInt64(p)
  {
    match ParseInt(s)
    case Some(n) => n
    case None => 0
  }

  /** CreateStatementHandler's checks: POST only and a parsable form; the
      priority never refuses a request. */
  function CreateStatementRequest(req: Request): (d: Decision<StatementRow>)
    ensures d.Proceed? <==> req.verb == "POST" && !req.badForm
    ensures req.verb != "POST" ==> d == Refuse(StatusMethodNotAllowed, "Method not allowed")
    ensures req.verb == "POST" && req.badForm ==> d == Refuse(StatusBadRequest, "Error parsing form")
    ensures d.Proceed? ==> d.input.content == Get(req.body, "content") && d.input.priority == PriorityOf(Get(req.body, "priority"))
  {
    if req.verb != "POST" then Refuse(StatusMethodNotAllowed, "Method not allowed")
    else if req.badForm then Refuse(StatusBadRequest, "Error parsing form")
    else
      var form := PostForm(req);
      Proceed(StatementRow(Get(form, "content"), PriorityOf(Get(form, "priority"))))
  }

  /** A statement posted with an int64 priority keeps that priority; one
      posted with a priority that is not a number gets 0. */
  lemma PriorityRoundTrip(content: string, p: int, junk: string, path: string, hx: string, query: Form)
    requires InInt64(p) && ParseInt(junk).None?
    ensures CreateStatementRequest(Request("POST", path, hx, query, map["content" := [content], "priority" := [FormatInt(p)]], false))
            == Proceed(StatementRow(content, p))
    ensures CreateStatementRequest(Request("POST", path, hx, query, map["content" := [content], "priority" := [junk]], false))
            == Proceed(StatementRow(content, 0))
  {
    ParseFormat(p);
  }

  /** Where DeleteStatementHandler finds the id: the post form for POST (after
      parsing it), the query for GET, and nowhere for any other method. */
  function DeleteStatementRequest(req: Request): (d: Decision<int>)
    ensures req.verb !in {"POST", "GET"} ==> d == Refuse(StatusMethodNotAllowed, "Method not allowed")
    ensures req.verb == "POST" && req.badForm ==> d == Refuse(StatusBadRequest, "Error parsing form")
    ensures req.verb == "POST" && !req.badForm ==>
      d == CheckPositiveId(Get(req.body, "statementID"), "Invalid statement ID", "statementID is required")
    ensures req.verb == "GET" ==>
      d == CheckPositiveId(Get(req.query, "statementID"), "Invalid statement ID", "statementID is required")
    ensures d.Proceed? ==> 0 < d.input <= MaxInt64
  {
    if req.verb == "POST" then
      if req.badForm then Refuse(StatusBadRequest, "Error parsing form")
      else CheckPositiveId(Get(PostForm(req), "statementID"), "Invalid statement ID", "statementID is required")
    else if req.verb == "GET" then
      CheckPositiveId(Get(req.query, "statementID"), "Invalid statement ID", "statementID is required")
    else Refuse(StatusMethodNotAllowed, "Method not allowed")
  }

  /** The delete link, GET ?statementID=<n>, and the delete form, POST
      statementID=<n>, both name statement n; a form that does not parse
      does not matter for the link. */
  lemma DeleteRequestRoundTrip(n: int, path: string, hx: string, badForm: bool)
    requires 0 < n <= MaxInt64
    ensures DeleteStatementRequest(Request("GET", path, hx, map["statementID" := [FormatInt(n)]], map[], badForm)) == Proceed(n)
    ensures DeleteStatementRequest(Request("POST", path, hx, map[], map["statementID" := [FormatInt(n)]], false)) == Proceed(n)
  {
    AcceptsFormatted(n, "Invalid statement ID", "statementID is required");
  }

  // ---------------------------------------------------------------------
  // Handlers

  /** GET /statements: every statement exactly once. */
  method HandleGetStatements(store: StatementStore, fault: Fault) returns (r: Response<StatementView>)
    requires store.Valid()
    ensures r.status == StatusOK <==> fault != FailAt(0)
    ensures fault == FailAt(0) ==> r == Fail(StatusInternalServerError, "Error retrieving statements")
    ensures r.status == StatusOK ==> r.body.FullPage? && AllStatements(store.rows, r.body.view.statements)
  {
    var ss := store.GetAllStatements(fault);
    if ss.Err? {
      return Fail(StatusInternalServerError, "Error retrieving statements");
    }
    return Response(StatusOK, FullPage(StatementsPage(ss.value)));
  }

  /** POST /statements/create: store the statement, then 303 to the page. */
  method CreateStatementHandler(req: Request, store: StatementStore, fault: Fault) returns (r: Response<StatementView>)
    requires store.Valid()
    modifies store
    ensures store.Valid()
    ensures CreateStatementRequest(req).Refuse? ==>
      r == Refused(CreateStatementRequest(req)) && store.rows == old(store.rows) && store.nextId == old(store.nextId)
    ensures CreateStatementRequest(req).Proceed? && fault == FailAt(0) ==>
      && r == Fail(StatusInternalServerError, "Error creating statement")
      && store.rows == old(store.rows) && store.nextId == old(store.nextId)
    ensures CreateStatementRequest(req).Proceed? && fault != FailAt(0) ==>
      r == SeeOther("/statements") && store.rows == old(store.rows)[old(store.nextId) := CreateStatementRequest(req).input]
  {
    var d := CreateStatementRequest(req);
    if d.Refuse? {
      return Refused(d);
    }
    var id, err := store.CreateStatement(d.input.content, d.input.priority, fault);
    if err.Some? {
      return Fail(StatusInternalServerError, "Error creating statement");
    }
    return SeeOther("/statements");
  }

  /** POST or GET /statements/delete: remove the statement, then 303 to the
      page. A missing id is not an error. */
  method DeleteStatementHandler(req: Request, store: StatementStore, fault: Fault) returns (r: Response<StatementView>)
    requires store.Valid()
    modifies store
    ensures store.Valid() && store.nextId == old(store.nextId)
    ensures DeleteStatementRequest(req).Refuse? ==> r == Refused(DeleteStatementRequest(req)) && store.rows == old(store.rows)
    ensures DeleteStatementRequest(req).Proceed? && fault == FailAt(0) ==>
      r == Fail(StatusInternalServerError, "Error deleting statement") && store.rows == old(store.rows)
    ensures DeleteStatementRequest(req).Proceed? && fault != FailAt(0) ==>
      r == SeeOther("/statements") && store.rows == old(store.rows) - {DeleteStatementRequest(req).input}
  {
    var d := DeleteStatementRequest(req);
    if d.Refuse? {
      return Refused(d);
    }
    var err := store.DeleteStatement(d.input, fault);
    if err.Some? {
      return Fail(StatusInternalServerError, "Error deleting statement");
    }
    return SeeOther("/statements");
  }

  /** StatementsHandler: GET shows the page, and every other method is
      refused with 405. */
  method StatementsHandler(req: Request, store: StatementStore, fault: Fault) returns (r: Response<StatementView>)
    requires store.Valid()
    ensures r.status == StatusMethodNotAllowed <==> req.verb != "GET"
    ensures req.verb != "GET" ==> r == MethodNotAllowed()
    ensures req.verb == "GET" ==> (r.status == StatusOK <==> fault != FailAt(0))
    ensures req.verb == "GET" && fault == FailAt(0) ==> r == Fail(StatusInternalServerError, "Error retrieving statements")
    ensures req.verb == "GET" && r.status == StatusOK ==> r.body.FullPage? && AllStatements(store.rows, r.body.view.statements)
  {
    if req.verb == "GET" {
      r := HandleGetStatements(store, fault);
    } else {
      r := MethodNotAllowed();
    }
  }

  /** A statement created and then deleted through the page is gone from
      the list, and every other statement is still there. */
  method CreateThenDelete(create: Request, store: StatementStore) returns (page: Response<StatementView>)
    requires store.Valid() && CreateStatementRequest(create).Proceed? && InInt64(store.nextId)
    modifies store
    ensures page.status == StatusOK && page.body.FullPage?
    ensures old(store.nextId) !in StatementIds(page.body.view.statements)
    ensures forall k :: k in old(store.rows) ==> k in StatementIds(page.body.view.statements)
  {
    var id := store.nextId;
    var created := CreateStatementHandler(create, store, NoFault);
    var del := Request("GET", "/statements/delete", "", map["statementID" := [FormatInt(id)]], map[], false);
    AcceptsFormatted(id, "Invalid statement ID", "statementID is required");
    var deleted := DeleteStatementHandler(del, store, NoFault);
    page := HandleGetStatements(store, NoFault);
  }
}
