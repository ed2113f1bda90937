/** internal/handlers/handlers.go: the home page and the Journals pages (the
    list, optionally filtered by type, create, delete and the detail route),
    over the journal store of internal/models/journal.go. The clock is the
    `now` parameter. */
module JournalHandlers {
  import opened Common
  import opened Strconv
  import opened Strings
  import opened Http
  import opened Journals

  /** What the Journals handlers render. */
  datatype JournalView =
    | Home                                   // templates.Home
    | JournalList(journals: seq<Journal>)    // templates.Journals, or templates.JournalList for htmx
    | JournalEntry(journal: Journal)         // templates.JournalEntry

  /** The fields of a create request. */
  datatype NewJournal = NewJournal(title: string, content: string, journalType: string)

  /** Which list a GET asks for: all journals, those of one type, or none at
      all for a /type/ path too short to name a type. */
  datatype ListQuery = AllJournals | ByType(journalType: string) | NoQuery

  /** HomeHandler: the home page at "/" and 404 for every other path that
      reaches it. */
  function HomePage(req: Request): (r: Response<JournalView>)
    ensures r.status == StatusOK <==> req.path == "/"
    ensures r.status != StatusOK ==> r == NotFound()
  {
    if req.path != "/" then NotFound() else Response(StatusOK, FullPage(Home))
  }

  // ---------------------------------------------------------------------
  // Reading the request

  /** The filter of handleGetJournals: the fourth path segment when the path
      contains /type/, and no filter otherwise. */
  function ListQueryOf(path: string): (q: ListQuery)
    ensures !Contains(path, "/type/") <==> q == AllJournals
    ensures q == NoQuery <==> Contains(path, "/type/") && |Split(path, '/')| < 4
    ensures q.ByType? ==> |Split(path, '/')| >= 4 && q.journalType == Split(path, '/')[3]
  {
    if Contains(path, "/type/") then
      var parts := Split(path, '/');
      if |parts| >= 4 then ByType(parts[3]) else NoQuery
    else AllJournals
  }

  /** /journals/type/<t> lists the journals of type t, for any t without a
      slash. */
  lemma TypePathRoundTrip(t: string)
    requires '/' !in t
    ensures ListQueryOf("/journals/type/" + t) == ByType(t)
  {
    TypePathContains(t);
    assert "/journals/type/" + t == "/journals/type" + ['/'] + t;
    LastPiece("/journals/type", '/', t);
    TypePrefixSegments();
  }

  lemma TypePathContains(t: string)
    ensures Contains("/journals/type/" + t, "/type/")
  {
    assert "/journals" + ("/type/" + t) == "/journals/type/" + t;
    assert ("/type/" + t)[..|"/type/"|] == "/type/";
    ContainsInside("/journals", "/type/" + t, "/type/");
  }

  lemma TypePrefixSegments()
    ensures |Split("/journals/type", '/')| == 3
  {
    assert "/journals/type" == ['/'] + "journals" + ['/'] + "type";
    SplitRootedPair("journals", '/', "type");
  }

  /** The create form: title and journal type are required, content is
      not. */
  function CreateJournalRequest(req: Request): (d: Decision<NewJournal>)
    ensures d.Proceed? <==> !req.badForm && Get(PostForm(req), "title") != "" && Get(PostForm(req), "journal_type") != ""
    ensures req.badForm ==> d == Refuse(StatusBadRequest, "Error parsing form")
    ensures !req.badForm && d.Refuse? ==> d == Refuse(StatusBadRequest, "Title and journal type are required")
  {
    if req.badForm then Refuse(StatusBadRequest, "Error parsing form")
    else
      var form := PostForm(req);
      var title, content, journalType := Get(form, "title"), Get(form, "content"), Get(form, "journal_type");
      if title == "" || journalType == "" then Refuse(StatusBadRequest, "Title and journal type are required")
      else Proceed(NewJournal(title, content, journalType))
  }

  function JournalForm(nj: NewJournal): Form {
    map["title" := [nj.title], "content" := [nj.content], "journal_type" := [nj.journalType]]
  }

  /** An entry posted with a title and a type is created with exactly its
      title, content and type. */
  lemma CreateFormRoundTrip(nj: NewJournal, path: string, hx: string, query: Form)
    requires nj.title != "" && nj.journalType != ""
    ensures CreateJournalRequest(Request("POST", path, hx, query, JournalForm(nj), false)) == Proceed(nj)
  {
    var req := Request("POST", path, hx, query, JournalForm(nj), false);
    assert PostForm(req) == JournalForm(nj);
    assert Get(JournalForm(nj), "title") == nj.title;
    assert Get(JournalForm(nj), "journal_type") == nj.journalType;
  }

  /** The delete form: journalID as an int64, with no check that it is
      positive. */
  function DeleteJournalRequest(req: Request): (d: Decision<int>)
    ensures d.Proceed? <==> !req.badForm && ParseInt(Get(PostForm(req), "journalID")).Some?
    ensures d.Proceed? ==> ParseInt(Get(PostForm(req), "journalID")) == Some(d.input)
    ensures req.badForm ==> d == Refuse(StatusBadRequest, "Error parsing form")
    ensures !req.badForm && d.Refuse? ==> d == Refuse(StatusBadRequest, "Invalid journal ID")
  {
    if req.badForm then Refuse(StatusBadRequest, "Error parsing form")
    else
      match ParseInt(Get(PostForm(req), "journalID"))
      case None => Refuse(StatusBadRequest, "Invalid journal ID")
      case Some(id) => Proceed(id)
  }

  /** The delete button of entry n posts journalID=n, which names n for
      every int64 n, zero and negative ones included. */
  lemma DeleteFormRoundTrip(n: int, path: string, hx: string, query: Form)
    requires InInt64(n)
    ensures DeleteJournalRequest(Request("POST", path, hx, query, map["journalID" := [FormatInt(n)]], false)) == Proceed(n)
  {
    ParseFormat(n);
  }

  /** The id of the detail route: the third path segment as an int64. */
  function JournalIdFromPath(path: string): (id: Option<int>)
    ensures id.Some? <==> |Split(path, '/')| >= 3 && ParseInt(Split(path, '/')[2]).Some?
    ensures id.Some? ==> ParseInt(Split(path, '/')[2]) == Some(id.value)
  {
    var parts := Split(path, '/');
    if |parts| < 3 then None else ParseInt(parts[2])
  }

  /** /journals/<n> names journal n for every int64 n. */
  lemma DetailPathRoundTrip(n: int)
    requires InInt64(n)
    ensures JournalIdFromPath("/journals/" + FormatInt(n)) == Some(n)
  {
    assert "/journals/" + FormatInt(n) == ['/'] + "journals" + ['/'] + FormatInt(n);
    FormatHasNoSlash(n);
    SplitRootedPair("journals", '/', FormatInt(n));
    ParseFormat(n);
  }

  // ---------------------------------------------------------------------
  // Handlers

  /** A list holding exactly the stored journals the filter selects, each
      once, newest first. */
  predicate ListsExactly(rows: map<int, JournalRow>, journalType: Option<string>, js: seq<Journal>) {
    && NewestFirst(js) && DistinctIds(js)
    && (forall i :: 0 <= i < |js| ==> Listed(rows, journalType, js[i]))
    && (forall k :: k in rows && OfType(rows[k], journalType) ==> k in JournalIds(js))
  }

  /** The list as a page, or as the list fragment for htmx. */
  function ListResponse(req: Request, js: seq<Journal>): (r: Response<JournalView>)
    ensures r.status == StatusOK
    ensures IsHtmx(req) <==> r.body == Fragment(JournalList(js))
    ensures !IsHtmx(req) <==> r.body == FullPage(JournalList(js))
  {
    if IsHtmx(req) then Response(StatusOK, Fragment(JournalList(js)))
    else Response(StatusOK, FullPage(JournalList(js)))
  }

  /** GET /journals and /journals/type/<t>: every journal, or every journal
      of type t, once each and newest first. A /type/ path with no type
      segment shows an empty list. */
  method HandleGetJournals(req: Request, store: JournalStore, fault: Fault) returns (r: Response<JournalView>)
    requires store.Valid()
    ensures ListQueryOf(req.path) == NoQuery ==> r == ListResponse(req, [])
    ensures ListQueryOf(req.path) != NoQuery && fault == FailAt(0) ==>
      r == Fail(StatusInternalServerError, "Error retrieving journals")
    ensures ListQueryOf(req.path) != NoQuery && fault != FailAt(0) ==>
      var filter := if ListQueryOf(req.path).ByType? then Some(ListQueryOf(req.path).journalType) else None;
      exists js :: r == ListResponse(req, js) && ListsExactly(store.rows, filter, js)
  {
    var q := ListQueryOf(req.path);
    var journals: Result<seq<Journal>>;
    match q {
      case NoQuery =>
        journals := Ok([]);
      case ByType(t) =>
        journals := store.GetJournalsByType(t, fault);
      case AllJournals =>
        journals := store.GetAllJournals(fault);
    }
    if journals.Err? {
      return Fail(StatusInternalServerError, "Error retrieving journals");
    }
    r := ListResponse(req, journals.value);
  }

  /** POST /journals: create the entry stamped with now, read it back, and
      answer with the entry fragment for htmx or a 303 to the list. The
      entry is kept even when the read-back fails. */
  method HandleCreateJournal(req: Request, store: JournalStore, now: int, createFault: Fault, getFault: Fault)
    returns (r: Response<JournalView>)
    requires store.Valid()
    modifies store
    ensures store.Valid()
    ensures CreateJournalRequest(req).Refuse? ==>
      r == Refused(CreateJournalRequest(req)) && store.rows == old(store.rows) && store.nextId == old(store.nextId)
    ensures CreateJournalRequest(req).Proceed? && createFault == FailAt(0) ==>
      && r == Fail(StatusInternalServerError, "Error creating journal")
      && store.rows == old(store.rows) && store.nextId == old(store.nextId)
    ensures CreateJournalRequest(req).Proceed? && createFault != FailAt(0) ==>
      var nj := CreateJournalRequest(req).input;
      && store.rows == old(store.rows)[old(store.nextId) := JournalRow(nj.title, Some(nj.content), nj.journalType, now, now)]
      && r == if getFault == FailAt(0) then Fail(StatusInternalServerError, "Error retrieving created journal")
              else if IsHtmx(req) then Response(StatusOK, Fragment(JournalEntry(Journal(old(store.nextId), nj.title, nj.content, nj.journalType, now, now))))
              else SeeOther("/journals")
  {
    var d := CreateJournalRequest(req);
    if d.Refuse? {
      return Refused(d);
    }
    var nj := d.input;
    var id, err := store.CreateJournal(nj.title, nj.content, nj.journalType, now, createFault);
    if err.Some? {
      return Fail(StatusInternalServerError, "Error creating journal");
    }
    var journal := store.GetJournal(id, getFault);
    if journal.Err? {
      return Fail(StatusInternalServerError, "Error retrieving created journal");
    }
    if IsHtmx(req) {
      return Response(StatusOK, Fragment(JournalEntry(journal.value)));
    }
    return SeeOther("/journals");
  }

  /** POST /journals/delete: delete the entry named by journalID. An id with
      no row is reported as a failure. */
  method HandleDeleteJournal(req: Request, store: JournalStore, fault: Fault) returns (r: Response<JournalView>)
    requires store.Valid()
    modifies store
    ensures store.Valid() && store.nextId == old(store.nextId)
    ensures DeleteJournalRequest(req).Refuse? ==> r == Refused(DeleteJournalRequest(req)) && store.rows == old(store.rows)
    ensures DeleteJournalRequest(req).Proceed? ==>
      var id := DeleteJournalRequest(req).input;
      && store.rows == (if fault == FailAt(0) then old(store.rows) else old(store.rows) - {id})
      && r == if fault != FailAt(0) && id in old(store.rows) then Deleted(req, "/journals")
              else Fail(StatusInternalServerError, "Error deleting journal")
  {
    var d := DeleteJournalRequest(req);
    if d.Refuse? {
      return Refused(d);
    }
    var err := store.DeleteJournal(d.input, fault);
    if err.Some? {
      return Fail(StatusInternalServerError, "Error deleting journal");
    }
    return Deleted(req, "/journals");
  }

  /** GET /journals/<id>: 404 for a path that names no id, and otherwise a
      303 to the list once the entry is found. */
  method JournalDetailHandler(req: Request, store: JournalStore, fault: Fault) returns (r: Response<JournalView>)
    requires store.Valid()
    ensures JournalIdFromPath(req.path).None? ==> r == NotFound()
    ensures JournalIdFromPath(req.path).Some? ==>
      r == if fault != FailAt(0) && JournalIdFromPath(req.path).value in store.rows then SeeOther("/journals")
           else Fail(StatusInternalServerError, "Error retrieving journal")
  {
    var id := JournalIdFromPath(req.path);
    if id.None? {
      return NotFound();
    }
    var journal := store.GetJournal(id.value, fault);
    if journal.Err? {
      return Fail(StatusInternalServerError, "Error retrieving journal");
    }
    return SeeOther("/journals");
  }

  /** JournalsHandler: GET lists the journals the path selects, POST
      creates one and reads it back, and every other method is refused with
      405 without touching the store. `fault` is the listing's or the
      insert's fault, `getFault` the read-back's. */
  method JournalsHandler(req: Request, store: JournalStore, now: int, fault: Fault, getFault: Fault) returns (r: Response<JournalView>)
    requires store.Valid()
    modifies store
    ensures store.Valid()
    ensures r.status == StatusMethodNotAllowed <==> req.verb !in {"GET", "POST"}
    ensures req.verb !in {"GET", "POST"} ==> r == MethodNotAllowed()
    ensures req.verb != "POST" ==> store.rows == old(store.rows) && store.nextId == old(store.nextId)
    ensures req.verb == "GET" && ListQueryOf(req.path) == NoQuery ==> r == ListResponse(req, [])
    ensures req.verb == "GET" && ListQueryOf(req.path) != NoQuery && fault == FailAt(0) ==>
      r == Fail(StatusInternalServerError, "Error retrieving journals")
    ensures req.verb == "GET" && ListQueryOf(req.path) != NoQuery && fault != FailAt(0) ==>
      var filter := if ListQueryOf(req.path).ByType? then Some(ListQueryOf(req.path).journalType) else None;
      exists js :: r == ListResponse(req, js) && ListsExactly(store.rows, filter, js)
    ensures req.verb == "POST" && CreateJournalRequest(req).Refuse? ==>
      r == Refused(CreateJournalRequest(req)) && store.rows == old(store.rows) && store.nextId == old(store.nextId)
    ensures req.verb == "POST" && CreateJournalRequest(req).Proceed? && fault == FailAt(0) ==>
      && r == Fail(StatusInternalServerError, "Error creating journal")
      && store.rows == old(store.rows) && store.nextId == old(store.nextId)
    ensures req.verb == "POST" && CreateJournalRequest(req).Proceed? && fault != FailAt(0) ==>
      var nj := CreateJournalRequest(req).input;
      && store.rows == old(store.rows)[old(store.nextId) := JournalRow(nj.title, Some(nj.content), nj.journalType, now, now)]
      && r == if getFault == FailAt(0) then Fail(StatusInternalServerError, "Error retrieving created journal")
              else if IsHtmx(req) then Response(StatusOK, Fragment(JournalEntry(Journal(old(store.nextId), nj.title, nj.content, nj.journalType, now, now))))
              else SeeOther("/journals")
  {
    if req.verb == "GET" {
      r := HandleGetJournals(req, store, fault);
    } else if req.verb == "POST" {
      r := HandleCreateJournal(req, store, now, fault, getFault);
    } else {
      r := MethodNotAllowed();
    }
  }

  /** An entry created through the form shows up in the list of its type,
      and the detail route of its id leads back to the list. */
  method CreateThenList(create: Request, store: JournalStore, now: int)
    returns (created: Response<JournalView>, listed: Response<JournalView>, detail: Response<JournalView>)
    requires store.Valid() && CreateJournalRequest(create).Proceed? && '/' !in CreateJournalRequest(create).input.journalType
    requires InInt64(store.nextId)
    modifies store
    ensures created.status == StatusOK || created == SeeOther("/journals")
    ensures listed.status == StatusOK && listed.body.FullPage? && listed.body.view.JournalList?
    ensures old(store.nextId) in JournalIds(listed.body.view.journals)
    ensures detail == SeeOther("/journals")
  {
    var id := store.nextId;
    created := HandleCreateJournal(create, store, now, NoFault, NoFault);
    var t := CreateJournalRequest(create).input.journalType;
    TypePathRoundTrip(t);
    listed := HandleGetJournals(Request("GET", "/journals/type/" + t, "", map[], map[], false), store, NoFault);
    DetailPathRoundTrip(id);
    detail := JournalDetailHandler(Request("GET", "/journals/" + FormatInt(id), "", map[], map[], false), store, NoFault);
  }
}
