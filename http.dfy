/** The HTTP surface the handlers see: an abstract request (method, path,
    the HX-Request marker, query and form fields), an abstract response
    (status and the kind of body), and the id checks the handlers share. */
module Http {
  import opened Common
  import opened Strconv
  import opened Strings

  const StatusOK := 200
  const StatusSeeOther := 303
  const StatusBadRequest := 400
  const StatusNotFound := 404
  const StatusMethodNotAllowed := 405
  const StatusInternalServerError := 500

  /** url.Values: every field name with its values in order. */
  type Form = map<string, seq<string>>

  datatype Request = Request(
    verb: string,     // r.Method
    path: string,     // r.URL.Path
    hxRequest: string, // r.Header.Get("HX-Request"): "" when the header is absent
    query: Form,      // r.URL.Query()
    body: Form,       // the url-encoded request body
    badForm: bool)    // whether r.ParseForm() reports an error

  /** What the response carries. A template the model does not render is
      a view value V; Fragment and Row are the partial renders for a page that
      is already loaded. */
  datatype Body<V> =
    | FullPage(view: V)
    | Fragment(view: V)
    | Row(view: V)
    | Empty
    | Redirect(location: string)
    | Error(message: string)

  datatype Response<V> = Response(status: int, body: Body<V>)

  /** url.Values.Get: the first value of a field, or "" when there is none. */
  function Get(f: Form, key: string): string {
    if key in f && |f[key]| > 0 then f[key][0] else ""
  }

  /** The render mode: a fragment is wanted exactly when HX-Request is "true". */
  predicate IsHtmx(req: Request) {
    req.hxRequest == "true"
  }

  /** r.PostForm after r.ParseForm(): Go reads the body only for POST, PUT
      and PATCH; for every other method the post form stays empty. */
  function PostForm(req: Request): Form {
    if req.verb == "POST" || req.verb == "PUT" || req.verb == "PATCH" then req.body else map[]
  }

  /** r.Form.Get after r.ParseForm(): the post form's values come before the
      query's values of the same name. */
  function FormValue(req: Request, key: string): string {
    var post := PostForm(req);
    var values := (if key in post then post[key] else []) + (if key in req.query then req.query[key] else []);
    if |values| > 0 then values[0] else ""
  }

  /** http.Error(w, message, status). */
  function Fail<V>(status: int, message: string): Response<V> {
    Response(status, Error(message))
  }

  /** http.Redirect(w, r, location, http.StatusSeeOther). */
  function SeeOther<V>(location: string): Response<V> {
    Response(StatusSeeOther, Redirect(location))
  }

  function MethodNotAllowed<V>(): Response<V> {
    Fail(StatusMethodNotAllowed, "Method not allowed")
  }

  /** http.NotFound(w, r). */
  function NotFound<V>(): Response<V> {
    Fail(StatusNotFound, "404 page not found")
  }

  function BadForm<V>(): Response<V> {
    Fail(StatusBadRequest, "Error parsing form")
  }

  /** The last '/'-separated piece of a URL path: parts[len(parts)-1]. */
  function LastSegment(path: string): string {
    Last(Split(path, '/'))
  }

  /** What a handler makes of a request before it touches a store: go on
      with the decoded input, or refuse with an error status and message. */
  datatype Decision<A> = Proceed(input: A) | Refuse(status: int, message: string)

  /** The response a refusal is written as. */
  function Refused<A, V>(d: Decision<A>): Response<V>
    requires d.Refuse?
  {
    Fail(d.status, d.message)
  }

  /** The id check the delete, children and parents handlers share: a string
      that strconv.ParseInt rejects is answered with `invalid`, a parsed id
      that is zero or negative with `missing`, both as 400, and only a
      positive int64 gets through. */
  function CheckPositiveId(s: string, invalid: string, missing: string): (d: Decision<int>)
    ensures d.Proceed? <==> ParseInt(s).Some? && ParseInt(s).value > 0
    ensures d.Proceed? ==> ParseInt(s) == Some(d.input) && 0 < d.input <= MaxInt64
    ensures d.Refuse? ==> d == Refuse(StatusBadRequest, if ParseInt(s).None? then invalid else missing)
  {
    match ParseInt(s)
    case None => Refuse(StatusBadRequest, invalid)
    case Some(n) => if n <= 0 then Refuse(StatusBadRequest, missing) else Proceed(n)
  }

  /** The answer after a successful delete: an empty 200 for htmx, which
      swaps the row out, and otherwise a 303 back to the list. */
  function Deleted<V>(req: Request, location: string): (r: Response<V>)
    ensures r.status == StatusOK <==> IsHtmx(req)
    ensures r.status == StatusOK ==> r.body == Empty
    ensures r.status != StatusOK ==> r == SeeOther(location)
  {
    if IsHtmx(req) then Response(StatusOK, Empty) else SeeOther(location)
  }

  /** Every positive int64, written the way a client writes it, is accepted
      as itself. */
  lemma AcceptsFormatted(n: int, invalid: string, missing: string)
    requires 0 < n <= MaxInt64
    ensures CheckPositiveId(FormatInt(n), invalid, missing) == Proceed(n)
  {
    ParseFormat(n);
  }

  /** Zero and negative ids parse, and are refused as missing. */
  lemma RefusesNonPositive(n: int, invalid: string, missing: string)
    requires MinInt64 <= n <= 0
    ensures CheckPositiveId(FormatInt(n), invalid, missing) == Refuse(StatusBadRequest, missing)
  {
    ParseFormat(n);
  }

  /** The id at the end of `prefix/<n>` is n, for any prefix. */
  lemma LastSegmentOfId(prefix: string, n: int)
    ensures LastSegment(prefix + "/" + FormatInt(n)) == FormatInt(n)
    ensures |Split(prefix + "/" + FormatInt(n), '/')| == |Split(prefix, '/')| + 1
  {
    FormatHasNoSlash(n);
    LastPiece(prefix, '/', FormatInt(n));
  }
}
