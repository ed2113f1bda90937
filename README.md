# Personal development system: a Dafny model of its handlers and stores

This project models the core of a small Go web application for personal
self-management. The application keeps five kinds of records:

- journals;
- plans;
- statements;
- behaviours;
- values, which are also called aims.

Values form a many-to-many parent/child graph held in a separate edge table.
Every record kind is served by HTTP handlers. A handler either renders a full
page or, when the request carries `HX-Request: true` (an htmx request), a
fragment. Plans additionally have a three-step inline edit cycle for a table
row: edit form, save, cancel.

The model has two layers.

- **Stores** (`internal/models/*.go`). Each store is a `class` whose fields
  are the table contents (`map<int, Row>`), the edge table (`seq<Edge>`) for
  the graph, and the next row id. Every SQL operation is a method that
  changes those fields.
  - An unordered `SELECT` is a loop over the ids. Its contract promises each
    stored row exactly once and no order.
  - Journals are listed newest first through an insertion step.
  - Driver I/O errors are a `Fault` parameter. `FailAt(k)` makes the k-th SQL
    statement of an operation fail. This shows what a failure halfway through
    leaves behind: `CreateValue` and `DeleteValue` issue several statements
    without a transaction.
- **Handlers** (`internal/handlers/*.go`). A request is an abstract value:
  method, path, `HX-Request` value, query, body form, and whether the form
  parsed. A response is a status and a body: a full page, a fragment, a row,
  an empty body, a redirect, or an error message. The views are data, not
  markup.
  - Decoding a request is a pure function that returns `Proceed(input)` or
    `Refuse(status, message)`.
  - Each decoding function has a round-trip lemma: the form or link that the
    page sends decodes back to the record it was made from.
  - Each handler method states its response and the new store state for
    every branch of the source, error branches included.

`Graph` holds what the two graph stores share: the node rows, the edge rows,
the two join queries and the cascading delete. On top of those it proves:

- the symmetry of children and parents;
- that the cascade removes exactly the edges touching the deleted node;
- that the cascade is idempotent;
- that it leaves every other node's children and parents as they were.

The repository has two copies of the value store:

- `internal/models/aim.go`, whose type is `Aim` and whose table is `aims`;
- `internal/models/value.go`, whose type is `Value` and whose table is
  `values`.

Both are modelled, as `Aims` and `Values`. `plans.go`, `values.go` and
`viewmodels/value.go` read the value list through `models.Value`, so their
handlers use `Values.ValueStore`. `GetAllBehaviours` joins the `aims` table,
so the behaviour handlers use `Aims.AimStore`, both for that join and for the
page's list of aims.

Two behaviours of the code are worth stating up front.

- `handleGetValues` (values.go:97-114) renders the full `ValuesPage` for
  every request, htmx requests included. `ValueHandlers.HandleGetValues`
  does the same.
- `CreateValue` and `DeleteValue` issue their statements one by one, with no
  transaction. The store contracts state the partial states a failure leaves
  behind.

## Model

| member | source | states |
|---|---|---|
| Common.ScanIds | internal/models/plan.go:38-55 | the rows an unordered `SELECT` returns: every stored id exactly once, nothing else, in no promised order |
| Strconv.ParseInt | internal/handlers/plans.go:112 | `strconv.ParseInt(s, 10, 64)`: a result is always within int64, comes from non-empty text, and is negative only when the text starts with '-' |
| Strconv.DigitsValue | internal/handlers/plans.go:112 | the decimal digits written for a natural number read back as that number |
| Strconv.ParseFormat | internal/handlers/plans.go:112 | `strconv.ParseInt(s, 10, 64)` reads back every int64 that `FormatInt` writes |
| Strconv.FormatHasNoSlash | internal/handlers/plans.go:103-105 | a rendered id is always a single path segment |
| Strings.Split | internal/handlers/plans.go:145 | `strings.Split` always gives at least one piece, and no piece holds the separator |
| Strings.SplitNoSep | internal/handlers/plans.go:145 | text without the separator splits into itself alone |
| Strings.JoinSplit | internal/handlers/plans.go:145 | `strings.Split` loses nothing: joining the pieces with the separator gives the path back |
| Strings.SplitAround | internal/handlers/plans.go:145 | splitting at a separator splits the two sides independently |
| Strings.LastPiece | internal/handlers/plans.go:151 | for a path ending in `/<tail>`, the last piece is the tail, and the path has one more piece than its prefix |
| Strings.ContainsInside | internal/handlers/handlers.go:59 | `strings.Contains` finds a substring wherever it starts |
| Http.CheckPositiveId | internal/handlers/values.go:150-159 | an id parameter is accepted exactly when it parses as an int64 and is positive; otherwise 400, "Invalid …" for a parse error and "… is required" for zero or less |
| Http.AcceptsFormatted | internal/handlers/values.go:150-159 | every positive int64 written as a parameter is accepted as itself |
| Http.RefusesNonPositive | internal/handlers/values.go:156-159 | every int64 at or below zero is refused with the "required" message |
| Http.Deleted | internal/handlers/plans.go:130-139 | a successful delete gives an empty 200 for htmx and a 303 to the listing otherwise |
| Http.LastSegmentOfId | internal/handlers/plans.go:150-152 | the last segment of `prefix/<n>` is the rendered n |
| Graph.Detach | internal/models/value.go:139-151 | the edge table after `DELETE … WHERE value_id = v OR parent_value_id = v`: only rows of the old table that do not touch v, and no more rows than before |
| Graph.DetachKeeps | internal/models/aim.go:141-166 | the cascade removes exactly the edges touching the node and keeps every other edge |
| Graph.DetachUntouched | internal/models/aim.go:141-166 | a table with no edge touching the node is left as it is |
| Graph.DetachIdempotent | internal/models/aim.go:141-166 | running the cascade twice removes nothing more |
| Graph.ChildIds | internal/models/aim.go:19-49 | the children query lists only existing nodes (the inner join drops dangling children) |
| Graph.ParentIds | internal/models/aim.go:52-82 | the parents query lists only existing nodes |
| Graph.ChildIdsMembers | internal/models/aim.go:19-49 | x is a child of v exactly when node x exists and an edge records x under v |
| Graph.ParentIdsMembers | internal/models/aim.go:52-82 | p is a parent of v exactly when node p exists and an edge records v under p |
| Graph.ChildParentSymmetry | internal/models/aim.go:19-82 | between existing nodes, x is a child of v exactly when v is a parent of x |
| Graph.DeleteKeepsOtherChildren | internal/models/aim.go:141-166 | deleting v leaves every other node's children as they were, minus v |
| Graph.DeleteKeepsOtherParents | internal/models/aim.go:141-166 | deleting v leaves every other node's parents as they were, minus v |
| Graph.UntouchedHasNoRelatives | internal/models/value.go:17-80 | a node that no edge touches has no children and no parents |
| Graph.DetachedIsIsolated | internal/models/value.go:139-151 | once the cascade has run, the deleted node has no children and no parents, even before its row is removed |
| Graph.EdgesInserted | internal/models/value.go:121-131 | a failing edge insert stops the loop, so no more edges are written than there are parent ids |
| Aims.AimStore.GetChildren | internal/models/aim.go:19-49 | the children of a node, with NULL descriptions read as "" |
| Aims.AimStore.GetParents | internal/models/aim.go:52-82 | the parents of a node |
| Aims.AimStore.GetAllValues | internal/models/aim.go:85-109 | every aim exactly once |
| Aims.AimStore.CreateValue | internal/models/aim.go:112-138 | inserts the node under a fresh id, then one edge per parent id in order. There is no transaction, so a failure keeps the node and the earlier edges and returns id 0 |
| Aims.AimStore.DeleteValue | internal/models/aim.go:141-166 | the cascade first, then the row. A missing row is reported, and a failure after the cascade leaves the node without edges |
| Aims.DeleteTwice | internal/models/aim.go:157-163 | the second delete of the same id reports that nothing was deleted |
| Aims.CreateThenChildren | internal/models/aim.go:112-138 | a new aim created under a parent is among that parent's children |
| Values.ValueStore.GetChildren | internal/models/value.go:17-47 | as written: the query names the table `values` without quotes, a keyword in SQLite, so preparing it always fails |
| Values.ValueStore.GetParents | internal/models/value.go:50-80 | as written: the same unquoted `values`, so it always fails |
| Values.ValueStore.GetChildrenQuoted | internal/models/value.go:17-47 | corrected: exactly the existing nodes recorded as children of the node, each scanned as stored with its nullable description; fails only on a driver error |
| Values.ValueStore.GetParentsQuoted | internal/models/value.go:50-80 | corrected: exactly the existing nodes recorded as parents of the node; fails only on a driver error |
| Values.ValueStore.GetAllValues | internal/models/value.go:83-107 | every value exactly once |
| Values.ValueStore.CreateValue | internal/models/value.go:110-136 | as for aims: node, then edges, with no transaction |
| Values.ValueStore.DeleteValue | internal/models/value.go:139-151 | the cascade, then the row; a missing row is not an error |
| Values.DeleteTwice | internal/models/value.go:139-151 | deleting the same id twice succeeds both times |
| Values.CreateThenChildren | internal/models/value.go:110-136 | a new value created under a parent is among that parent's children, as the quoted children query lists them |
| ViewModels.ConvertModelsToViewValues | internal/viewmodels/value.go:14-25 | one view value per value, position by position: id and name copied, a NULL description shown as "", empty parent names |
| Journals.InsertByDate | internal/models/journal.go:22-47 | `ORDER BY created_at DESC`: a newest-first list with one more entry, holding the same entries plus the new one, with distinct ids kept distinct |
| Journals.JournalStore.Query | internal/models/journal.go:22-47 | the list query with or without a type filter: newest first, distinct, exactly the rows the filter selects |
| Journals.JournalStore.GetAllJournals | internal/models/journal.go:22-47 | every journal exactly once, newest first |
| Journals.JournalStore.GetJournalsByType | internal/models/journal.go:86-111 | exactly the journals of the given type, newest first |
| Journals.JournalStore.GetJournal | internal/models/journal.go:50-60 | the journal with that id, or `sql.ErrNoRows` |
| Journals.JournalStore.CreateJournal | internal/models/journal.go:63-73 | a new row under a fresh id, created and updated at `now` |
| Journals.JournalStore.UpdateJournal | internal/models/journal.go:76-83 | overwrites title, content and type and sets updated_at to `now`. created_at is kept, and a missing id changes nothing |
| Journals.JournalStore.DeleteJournal | internal/models/journal.go:114-132 | removes the row; a missing row is reported |
| Journals.CreateThenGet | internal/models/journal.go:50-73 | a journal read back after creation carries exactly what was written |
| Journals.DeleteTwice | internal/models/journal.go:114-132 | a second delete of the same id reports that nothing was deleted |
| Plans.PlanStore.CreatePlan | internal/models/plan.go:17-24 | a new row under a fresh id |
| Plans.PlanStore.GetPlan | internal/models/plan.go:27-35 | the plan with that id, or `sql.ErrNoRows` |
| Plans.PlanStore.GetAllPlans | internal/models/plan.go:38-55 | every plan exactly once |
| Plans.PlanStore.UpdatePlan | internal/models/plan.go:58-62 | replaces all four fields of that row; a missing id is not an error and changes nothing |
| Plans.PlanStore.DeletePlan | internal/models/plan.go:65-69 | removes only that row; a missing id is not an error |
| Plans.CreateUpdateGet | internal/models/plan.go:17-62 | a plan read back after creation, and again after an update, carries the fields last written |
| Behaviours.BehaviourStore.CreateBehaviour | internal/models/behaviour.go:18-25 | a new row under a fresh id; the aim is not checked |
| Behaviours.BehaviourStore.GetAllBehaviours | internal/models/behaviour.go:28-56 | every behaviour exactly once with its aim's name. If any behaviour's aim is missing, the LEFT JOIN gives a NULL name that cannot be scanned, and the whole list fails |
| Behaviours.BehaviourStore.DeleteBehaviour | internal/models/behaviour.go:59-63 | removes only that row; a missing id is not an error |
| Statements.StatementStore.CreateStatement | internal/models/statement.go:15-22 | a new row under a fresh id |
| Statements.StatementStore.GetAllStatements | internal/models/statement.go:25-42 | every statement exactly once |
| Statements.StatementStore.DeleteStatement | internal/models/statement.go:45-49 | removes only that row; a missing id is not an error |
| PlanHandlers.CreatePlanRequest | internal/handlers/plans.go:60-80 | the create form: 400 when the form does not parse or `valueID` is not an int64, the plan's four fields otherwise |
| PlanHandlers.CreateFormRoundTrip | internal/handlers/plans.go:68-84 | a create form holding a plan is read back as exactly that plan |
| PlanHandlers.DeletePlanIdText | internal/handlers/plans.go:97-110 | the id is the last path segment under `/plans/delete/`, and the `planID` query parameter otherwise |
| PlanHandlers.DeletePathParts | internal/handlers/plans.go:101-106 | a path under `/plans/delete/` always has at least three segments |
| PlanHandlers.DeletePlanRequest | internal/handlers/plans.go:111-121 | a plan id is accepted only when positive |
| PlanHandlers.DeleteButtonRoundTrip | internal/handlers/plans.go:97-121 | `DELETE /plans/delete/<n>` names plan n for every positive int64 n |
| PlanHandlers.PlanIdFromPath | internal/handlers/plans.go:145-157 | 400 "Invalid URL" exactly when the path has fewer than three segments; otherwise the last segment as an int64, or 400 "Invalid plan ID" when it does not parse. A zero or negative id is not refused |
| PlanHandlers.PlanPathRoundTrip | internal/handlers/plans.go:145-157 | the edit form's own `/plans/update/<n>` and `/plans/cancel-edit/<n>` links name plan n |
| PlanHandlers.UpdatePlanRequest | internal/handlers/plans.go:300-334 | path id first, then form parsing, then `value_id`: with a good path and form, the request proceeds exactly when `value_id` parses as an int64, and is refused otherwise with 400 "Invalid value ID". A request that proceeds carries the form's `name`, `description`, `resources_required` and parsed `value_id` |
| PlanHandlers.SaveRoundTrip | internal/handlers/plans.go:300-333 | the Save button's request updates plan n to exactly the fields in the row |
| PlanHandlers.ValueOptions | internal/handlers/plans.go:175-182 | one dropdown option per value, in list order, selected exactly when its id is the plan's value id |
| PlanHandlers.SelectedExactlyOnce | internal/handlers/plans.go:175-182 | over all stored values, exactly one option is selected when the plan's value exists, and none when it does not |
| PlanHandlers.FirstMatchName | internal/handlers/plans.go:261-267 | the name of the first value with the id, or "Unknown" when there is none |
| PlanHandlers.ValueName | internal/handlers/plans.go:261-267 | the search loop computes that first match |
| PlanHandlers.FirstMatchOfAll | internal/handlers/plans.go:261-267 | over a list of all values, the first match is the stored value's name, whatever the list order |
| PlanHandlers.ReadOnlyRow | internal/handlers/plans.go:269-296 | the read-only row of plan id shows the stored plan and the name of the value it points to, or "Unknown" when no value has that id |
| PlanHandlers.PlansPageAsWritten | internal/handlers/plans.go:35-57 | as written: 200 exactly when the value query succeeds; a failing plan query shows a page with no plans |
| PlanHandlers.PlansPageResponse | internal/handlers/plans.go:35-57 | corrected: 200 exactly when both queries succeed, "Error retrieving plans" first, then "Error retrieving values" |
| PlanHandlers.PlansErrorLost | internal/handlers/plans.go:36-47 | a failing plan query with a working value query: 200 with an empty list as written, 500 when corrected |
| PlanHandlers.PlansPageAgrees | internal/handlers/plans.go:36-47 | the two versions agree whenever the plan query succeeds |
| PlanHandlers.HandleGetPlans | internal/handlers/plans.go:35-57 | as written: 200 exactly when the value query succeeds, with every value once and every plan once, or no plans at all when the plan query failed; 500 "Error retrieving values" otherwise |
| PlanHandlers.HandleGetPlansChecked | internal/handlers/plans.go:35-57 | corrected: every plan and every value once, or 500 naming the query that failed, plans first |
| PlanHandlers.HandleCreatePlan | internal/handlers/plans.go:60-94 | a refused request changes nothing. Otherwise the plan is stored under a fresh id and the response is 303 `/plans`, or 500 with no change |
| PlanHandlers.HandleDeletePlan | internal/handlers/plans.go:97-140 | a refused request changes nothing. Otherwise only that plan is removed, and the response is an empty 200 for htmx or 303 `/plans` |
| PlanHandlers.EditPlanHandler | internal/handlers/plans.go:143-226 | the edit form of an existing plan, with a dropdown holding every value once and the plan's own value selected. A missing plan is a 500 |
| PlanHandlers.CancelEditHandler | internal/handlers/plans.go:229-297 | the plan's read-only row, or the error of the step that failed |
| PlanHandlers.UpdatePlanHandler | internal/handlers/plans.go:300-401 | overwrites an existing plan with the form, then shows its row. A missing plan is updated silently and then reported by the read-back |
| PlanHandlers.SaveThenCancel | internal/handlers/plans.go:229-401 | after a save, cancel shows the same row as the save did, carrying the saved fields |
| PlanHandlers.PlansHandler | internal/handlers/plans.go:14-32 | 405 exactly for methods other than GET, POST and DELETE, with the store unchanged. GET gives the as-written page and changes nothing; POST creates as `HandleCreatePlan` states; DELETE deletes as `HandleDeletePlan` states |
| ValueHandlers.ShowScanned | internal/handlers/values.go:105 | conversion keeps the scanned ids in order and shows each as its stored value |
| ValueHandlers.CreateValueRequest | internal/handlers/values.go:117-135 | 400 when the form does not parse or the name is empty; otherwise name, description and every `parents` field |
| ValueHandlers.CreateFormRoundTrip | internal/handlers/values.go:125-127 | a named value posted from the page is read back with its name, description and parent list |
| ValueHandlers.ValueIdQuery | internal/handlers/values.go:150-159 | `valueID` must be a positive int64 |
| ValueHandlers.ValueIdQueryRoundTrip | internal/handlers/values.go:150-159 | `?valueID=<n>` names n for every positive int64 n |
| ValueHandlers.HandleGetValues | internal/handlers/values.go:97-114 | a full page listing every value once, or 500 |
| ValueHandlers.HandleCreateValue | internal/handlers/values.go:117-146 | 303 `/values` exactly when every statement succeeds. The node and the edges written before a failure stay stored |
| ValueHandlers.HandleDeleteValue | internal/handlers/values.go:149-170 | 303 `/values` with the node and every edge touching it removed. A failure in the second step leaves the node without edges |
| ValueHandlers.HandleGetChildren | internal/handlers/values.go:15-43 | as written: a bad `valueID` is refused; every other request is 500 "Error retrieving children", because the children query never prepares |
| ValueHandlers.HandleGetParents | internal/handlers/values.go:46-74 | as written: a bad `valueID` is refused; every other request is 500 "Error retrieving parents" |
| ValueHandlers.HandleGetChildrenQuoted | internal/handlers/values.go:15-43 | corrected: exactly the children of the value, each shown as stored, or 500 on a driver error |
| ValueHandlers.HandleGetParentsQuoted | internal/handlers/values.go:46-74 | corrected: exactly the parents of the value, each shown as stored, or 500 on a driver error |
| ValueHandlers.ValuesHandler | internal/handlers/values.go:76-94 | 405 exactly for methods other than GET, POST and DELETE. GET is the full page of every value or 500 and changes nothing; POST and DELETE change the store as `HandleCreateValue` and `HandleDeleteValue` state |
| ValueHandlers.DeleteThenRelatives | internal/handlers/values.go:149-170 | a value deleted through the page has no children and no parents left, as the quoted queries list them |
| JournalHandlers.HomePage | internal/handlers/handlers.go:16-32 | the home page exactly at `/`, 404 everywhere else |
| JournalHandlers.ListQueryOf | internal/handlers/handlers.go:58-69 | a type filter taken from the fourth path segment when the path contains `/type/`. A shorter path gives no query and an empty list; any other path lists all journals |
| JournalHandlers.TypePathRoundTrip | internal/handlers/handlers.go:58-65 | `/journals/type/<t>` filters by t for every t without a slash |
| JournalHandlers.CreateJournalRequest | internal/handlers/handlers.go:106-125 | 400 when the form does not parse or the title or type is empty |
| JournalHandlers.CreateFormRoundTrip | internal/handlers/handlers.go:114-125 | a posted entry is read back with exactly its title, content and type |
| JournalHandlers.DeleteJournalRequest | internal/handlers/handlers.go:167-181 | `journalID` must parse as an int64; zero and negative ids are accepted |
| JournalHandlers.DeleteFormRoundTrip | internal/handlers/handlers.go:175-181 | the form of entry n names n for every int64 n |
| JournalHandlers.JournalIdFromPath | internal/handlers/handlers.go:209-221 | the third path segment as an int64 |
| JournalHandlers.DetailPathRoundTrip | internal/handlers/handlers.go:209-221 | `/journals/<n>` names n for every int64 n |
| JournalHandlers.ListResponse | internal/handlers/handlers.go:79-100 | the list fragment for htmx, the full page otherwise, both 200 |
| JournalHandlers.HandleGetJournals | internal/handlers/handlers.go:53-101 | exactly the journals the path selects, once each and newest first, or 500 |
| JournalHandlers.HandleCreateJournal | internal/handlers/handlers.go:104-162 | the entry is stored and stamped with now. htmx gets the entry fragment and others a 303. A failed read-back is a 500 that keeps the entry |
| JournalHandlers.HandleDeleteJournal | internal/handlers/handlers.go:165-202 | removes the entry. A missing entry is a 500 |
| JournalHandlers.JournalDetailHandler | internal/handlers/handlers.go:205-235 | 404 when the path names no id, 500 when the entry is missing, otherwise 303 to the list |
| JournalHandlers.JournalsHandler | internal/handlers/handlers.go:35-50 | 405 exactly for methods other than GET and POST, with the store unchanged. GET lists exactly the journals the path selects, newest first, or 500; POST stores the entry as `HandleCreateJournal` states, including the 500 "Error retrieving created journal" when the read-back fails |
| JournalHandlers.CreateThenList | internal/handlers/handlers.go:53-162 | an entry created through the form appears in the list of its type, and its detail route leads back to the list |
| BehaviourHandlers.CreateBehaviourRequest | internal/handlers/behaviours.go:26-49 | POST only (405), a parsable form (400), and a `conflictingAimID` that is an int64 (400) |
| BehaviourHandlers.CreateFormRoundTrip | internal/handlers/behaviours.go:39-49 | a posted behaviour is read back exactly |
| BehaviourHandlers.DeleteBehaviourRequest | internal/handlers/behaviours.go:85-127 | POST or DELETE only. POST reads the post form and DELETE reads the merged form; the id must be a positive int64 |
| BehaviourHandlers.DeleteRequestRoundTrip | internal/handlers/behaviours.go:95-127 | the htmx `DELETE ?behaviourID=<n>` and the plain `POST behaviourID=<n>` both name n |
| BehaviourHandlers.HandleGetBehaviours | internal/handlers/behaviours.go:151-174 | every behaviour with its aim's name and every aim. A behaviour whose aim is gone makes the page fail with "Error retrieving behaviours" |
| BehaviourHandlers.CreateBehaviourHandler | internal/handlers/behaviours.go:26-82 | the behaviour is stored. htmx gets the refreshed list, or 500 when it cannot be read; others get a 303 |
| BehaviourHandlers.DeleteBehaviourHandler | internal/handlers/behaviours.go:85-148 | only that behaviour is removed, then an empty 200 for htmx or 303 |
| BehaviourHandlers.BehavioursHandler | internal/handlers/behaviours.go:12-23 | 405 exactly for methods other than GET. GET is the page of `HandleGetBehaviours`: 200 exactly when both queries succeed and every behaviour's aim exists, with every behaviour and every aim once; otherwise its 500 messages in the same order |
| BehaviourHandlers.CreateThenList | internal/handlers/behaviours.go:26-82 | a behaviour created against an existing aim appears in the refreshed list under that aim's name |
| StatementHandlers.PriorityOf | internal/handlers/statements.go:40-45 | `strconv.Atoi`, with 0 for text that is not an integer in range |
| StatementHandlers.CreateStatementRequest | internal/handlers/statements.go:26-45 | POST only (405) and a parsable form (400). The priority never refuses a request |
| StatementHandlers.PriorityRoundTrip | internal/handlers/statements.go:39-45 | an int64 priority is kept, and a non-number becomes 0 |
| StatementHandlers.DeleteStatementRequest | internal/handlers/statements.go:61-94 | POST reads the parsed post form, GET reads the query, anything else is 405; the id must be a positive int64 |
| StatementHandlers.DeleteRequestRoundTrip | internal/handlers/statements.go:64-94 | the delete link and the delete form both name n |
| StatementHandlers.HandleGetStatements | internal/handlers/statements.go:109-125 | every statement once, or 500 |
| StatementHandlers.CreateStatementHandler | internal/handlers/statements.go:26-58 | the statement is stored under a fresh id, then 303, or 500 with no change |
| StatementHandlers.DeleteStatementHandler | internal/handlers/statements.go:61-106 | only that statement is removed, then 303 |
| StatementHandlers.StatementsHandler | internal/handlers/statements.go:12-23 | 405 exactly for methods other than GET. GET is 200 with every statement once exactly when the query succeeds, and 500 "Error retrieving statements" otherwise |
| StatementHandlers.CreateThenDelete | internal/handlers/statements.go:26-106 | a statement created and then deleted through the page is gone from the list, and every older statement remains |

## Left out

- Template rendering is left out, together with its "Internal Server Error" responses. Views are data. The HTML that the plan handlers build with `fmt.Sprintf` (plans.go:185-222 and 269-296) is left out too, and so is its missing escaping.
- Logging, `http.ListenAndServe`, static files and the routing table of main.go are left out. main.go also routes `/values/delete` to a `DeleteValueHandler` that does not exist in the sources.
- `handleGetChildren` and `handleGetParents` are modelled, but nothing routes to them: `/values/children` and `/values/parents` reach `ValuesHandler`, whose GET branch always lists every value.
- Database errors are the `Fault` parameter, and `FailAt(k)` fails the k-th statement before it writes. A failure after a write succeeded is not modelled: `LastInsertId` failing after a successful INSERT, which leaves the row stored while the caller sees an error, and `RowsAffected` failing after a successful DELETE, which leaves the row removed. The lines below name the members this affects.
- Plans.PlanStore.CreatePlan, Statements.StatementStore.CreateStatement, Behaviours.BehaviourStore.CreateBehaviour, Journals.JournalStore.CreateJournal: an error always means no row was inserted; `LastInsertId` failing after the INSERT (plan.go:17-24, statement.go:15-22, behaviour.go:18-25, journal.go:63-73) is not modelled.
- Aims.AimStore.CreateValue, Values.ValueStore.CreateValue: `LastInsertId` failing after the node's INSERT (aim.go:122, value.go:120) is not modelled.
- Journals.JournalStore.DeleteJournal, Aims.AimStore.DeleteValue: an error always means no row was removed; `RowsAffected` failing after the DELETE (journal.go:114-126, aim.go:150-158) is not modelled.
- PlanHandlers.HandleCreatePlan, StatementHandlers.CreateStatementHandler: "500 with no change" holds only for failures before the INSERT, for the reason above.
- Graph.ChildIds, Graph.ParentIds: the joins have no ORDER BY, so SQL promises no order. Listing in edge-table order is a choice of this model; the promised content is the membership stated by Graph.ChildIdsMembers and Graph.ParentIdsMembers.
- The store assigns ids from a counter. SQLite's rowid reuse after a delete of the highest row is not modelled, and neither is int64 overflow of ids.
- The `value_parents` column type comes from migrations that are not part of this model. Parent ids are assumed stored with integer affinity: a decimal id becomes that integer, and any other text stays text and matches no node.
- `CURRENT_TIMESTAMP` is the `now` parameter. The journal viewmodel's time formatting is not modelled.
- `JournalStore.UpdateJournal` is modelled, but no handler calls it.
- Cycle detection in the value graph is absent from the source and from the model.

## Findings

| source | as written | input that shows it | evidently intended | confidence | as-written member | corrected member |
|---|---|---|---|---|---|---|
| internal/handlers/plans.go:36-47 | `handleGetPlans` stores the error of `GetAllValues` in the same `err` that held the error of `GetAllPlans`, before checking it. The plans check is dead code. | `GetAllPlans` fails and `GetAllValues` succeeds: the page is 200 with no plans | 500 "Error retrieving plans" when the plan query fails | high; not executed | PlanHandlers.PlansPageAsWritten | PlanHandlers.PlansPageResponse |
| internal/models/value.go:19-24 | `GetChildren` selects `FROM values v`. `VALUES` is a keyword in SQLite and the name is not quoted, unlike the store's other queries, so the statement does not prepare. | any request to `handleGetChildren`, for instance `?valueID=1`: 500 "Error retrieving children" | the children of the value, as with `` FROM `values` v `` | high (SQLite grammar); not executed | Values.ValueStore.GetChildren | Values.ValueStore.GetChildrenQuoted |
| internal/models/value.go:52-57 | `GetParents` selects `FROM values v`, unquoted, with the same effect. | any request to `handleGetParents`, for instance `?valueID=1`: 500 "Error retrieving parents" | the parents of the value | high (SQLite grammar); not executed | Values.ValueStore.GetParents | Values.ValueStore.GetParentsQuoted |
