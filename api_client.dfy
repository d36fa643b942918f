/**
 * The REST adapter `InfraKitchenApiClient`: how it turns list, tree, schema and CRUD calls into
 * URLs, headers and query values, and how it turns responses into values or thrown errors.
 * The network (`fetch`, the library's `fetchJson`), the identity provider and `JSON.parse` are
 * not modelled: their results are inputs (`response`, `fetched`, `idToken`, the oracle `parse`).
 */
module ApiClient {
  import opened Wrappers
  import opened Strings
  import opened Json

  /** Request or response headers, keyed by lower-case name as the Fetch API's `Headers` stores them. */
  type Headers = map<string, string>

  /** What the adapter throws: the library's `ApiClientError`, or a plain `Error` with a message. */
  datatype ApiError =
    | ApiClientError(status: int, message: Json, errorCode: Json, metadata: Option<Json>)
    | PlainError(text: string)

  /** The parts of a `fetch` response the adapter reads. */
  datatype Response = Response(status: int, statusText: string, headers: Headers, body: string)

  /** What `httpClient` (and the library's `fetchJson`) resolves with. */
  datatype HttpResponse = HttpResponse(status: int, headers: Headers, body: string, json: Json)

  /** The HTTP verbs of `postRaw`, `updateRaw`, `patchRaw` and `deleteRaw`. */
  datatype Verb = Post | Put | Patch | Delete

  /** What is handed to `fetch`: the URL and the request options. */
  datatype Request = Request(url: string, headers: Headers, verb: Option<Verb>, body: Option<Json>)

  /** `response.ok` */
  predicate IsOk(status: int) {
    200 <= status <= 299
  }

  // ------------------------------------------------------------------ the client's base URL

  /** The constructor's `backendUrl`: the configured base URL and the proxy path, ending in `/`. */
  function BackendUrl(baseUrl: string): (r: string)
    ensures StartsWith(r, baseUrl) && r[|baseUrl|..] == "/api/proxy/infrakitchen/api/"
    ensures EndsWith(r, "/api/") && EndsWith(r, "/")
  {
    var r := baseUrl + "/api/proxy/infrakitchen/api/";
    assert r[..|baseUrl|] == baseUrl;
    r
  }

  // ------------------------------------------------------------------ tokens and headers

  /** `${idToken}`: an absent token is rendered as the text `undefined`. */
  function TokenText(idToken: Option<string>): string {
    match idToken
    case Some(t) => t
    case None => "undefined"
  }

  /** The `Authorization` value built from a token. */
  function Bearer(idToken: Option<string>): string {
    "Bearer " + TokenText(idToken)
  }

  /** The JavaScript truthiness of the token: present and not empty. */
  predicate TokenTruthy(idToken: Option<string>) {
    idToken.Some? && idToken.value != ""
  }

  /** The headers `httpClient` installs when the caller gave none. */
  function DefaultHeaders(idToken: Option<string>): (h: Headers)
    ensures h.Keys == {"accept", "content-type", "authorization"}
    ensures h["accept"] == "application/json" && h["content-type"] == "application/json"
    ensures idToken.Some? ==> h["authorization"] == "Bearer " + idToken.value
    ensures idToken.None? ==> h["authorization"] == "Bearer undefined"
  {
    map["accept" := "application/json", "content-type" := "application/json",
        "authorization" := Bearer(idToken)]
  }

  // ------------------------------------------------------------------ error bodies

  /** The generic message `<status> <statusText>.` */
  function StatusLine(status: int, statusText: string): string {
    IntToString(status) + " " + statusText + "."
  }

  /** The generic message carries the literal status: `parseInt` reads it back. */
  lemma StatusLineCarriesStatus(status: int, statusText: string)
    ensures ParseInt(StatusLine(status, statusText)) == Some(status)
  {
    assert StatusLine(status, statusText) == IntToString(status) + (" " + statusText + ".");
    ParseIntOfIntToString(status, " " + statusText + ".");
  }

  /**
   * `parseErrorBody`: it never returns normally, so the model returns the error it throws.
   * `body` is the outcome of `response.json()`.
   */
  function ParseErrorBody(status: int, statusText: string, body: Parse): (e: ApiError)
    ensures e.ApiClientError? <==>
              body.Ok? && Truthy(Some(body.value)) && Truthy(Field(body.value, "message"))
    ensures e.PlainError? ==> e.text == StatusLine(status, statusText)
    ensures e.ApiClientError? ==>
              body.Ok? && e.status == status && Some(e.message) == Field(body.value, "message")
    ensures e.ApiClientError? && Truthy(Field(body.value, "error_code")) ==>
              Some(e.errorCode) == Field(body.value, "error_code")
              && e.metadata == Field(body.value, "metadata")
    ensures e.ApiClientError? && !Truthy(Field(body.value, "error_code")) ==>
              e.errorCode == JString("unknown_error")
              && e.metadata == Some(OrElse(Field(body.value, "metadata"), EmptyObject))
  {
    match body
    case ParseFail(_) => PlainError(StatusLine(status, statusText))
    case Ok(v) =>
      if Truthy(Some(v)) && Truthy(Field(v, "message")) && Truthy(Field(v, "error_code")) then
        ApiClientError(status, Field(v, "message").value, Field(v, "error_code").value, Field(v, "metadata"))
      else if Truthy(Some(v)) && Truthy(Field(v, "message")) then
        ApiClientError(status, Field(v, "message").value, JString("unknown_error"),
                       Some(OrElse(Field(v, "metadata"), EmptyObject)))
      else
        PlainError(StatusLine(status, statusText))
  }

  /** A body with both a message and an error code gives a structured error carrying both. */
  lemma StructuredErrorExample(status: int, statusText: string)
    ensures ParseErrorBody(status, statusText,
              Ok(JObject(map["message" := JString("x"), "error_code" := JString("E1")])))
            == ApiClientError(status, JString("x"), JString("E1"), None)
  {
  }

  /** A body with only a message gives the code `unknown_error` and empty metadata. */
  lemma MessageOnlyErrorExample(status: int, statusText: string)
    ensures ParseErrorBody(status, statusText, Ok(JObject(map["message" := JString("x")])))
            == ApiClientError(status, JString("x"), JString("unknown_error"), Some(EmptyObject))
  {
  }

  // ------------------------------------------------------------------ success bodies

  function ParseFailureMessage(reason: string): string {
    "Failed to parse JSON response: " + reason
  }

  /**
   * The `.then` of `httpClient`: a failed status goes to `parseErrorBody` before the body is
   * read as a value; a successful empty body gives `{}`; a successful body that does not parse
   * is an error of its own.
   */
  function HandleResponse(response: Response, parse: string -> Parse): (r: Result<HttpResponse, ApiError>)
    ensures r.Success? <==> IsOk(response.status) && (response.body == "" || parse(response.body).Ok?)
    ensures !IsOk(response.status) ==>
              r == Failure(ParseErrorBody(response.status, response.statusText, parse(response.body)))
    ensures IsOk(response.status) && response.body != "" && parse(response.body).ParseFail? ==>
              r == Failure(PlainError(ParseFailureMessage(parse(response.body).reason)))
    ensures r.Success? ==>
              && r.value.status == response.status
              && r.value.headers == response.headers
              && r.value.body == response.body
              && r.value.json == (if response.body == "" then EmptyObject else parse(response.body).value)
  {
    if !IsOk(response.status) then
      Failure(ParseErrorBody(response.status, response.statusText, parse(response.body)))
    else if response.body == "" then
      Success(HttpResponse(response.status, response.headers, response.body, EmptyObject))
    else
      match parse(response.body)
      case Ok(v) => Success(HttpResponse(response.status, response.headers, response.body, v))
      case ParseFail(reason) => Failure(PlainError(ParseFailureMessage(reason)))
  }

  /** `.then(({ json }) => json)` */
  function JsonOf(r: Result<HttpResponse, ApiError>): (j: Result<Json, ApiError>)
    ensures j.Success? <==> r.Success?
    ensures r.Success? ==> j.value == r.value.json
    ensures r.Failure? ==> j.error == r.error
  {
    match r
    case Success(h) => Success(h.json)
    case Failure(e) => Failure(e)
  }

  // ------------------------------------------------------------------ options, updated in place

  /** The `options.user` record of the library's `Options`. */
  class User {
    var authenticated: Option<bool>
    var token: Option<string>

    /** The empty record `{}`. */
    constructor ()
      ensures authenticated == None && token == None
    {
      authenticated := None;
      token := None;
    }
  }

  /** The request options object handed to `fetch` or `fetchJson`. */
  class Options {
    var headers: Option<Headers>
    var user: User?
    var verb: Option<Verb>
    var body: Option<Json>

    constructor (headers: Option<Headers>, verb: Option<Verb>, body: Option<Json>)
      ensures this.headers == headers && this.verb == verb && this.body == body && user == null
    {
      this.headers := headers;
      this.verb := verb;
      this.body := body;
      user := null;
    }
  }

  /**
   * `setAuthToken`: makes sure `options.user` exists (keeping an existing record), and marks it
   * authenticated with a bearer token only when the token is truthy.
   */
  method SetAuthToken(options: Options, idToken: Option<string>)
    modifies options, options.user
    ensures options.user != null
    ensures old(options.user) != null ==> options.user == old(options.user)
    ensures old(options.user) == null ==> fresh(options.user)
    ensures options.headers == old(options.headers)
    ensures options.verb == old(options.verb) && options.body == old(options.body)
    ensures TokenTruthy(idToken) ==>
              options.user.authenticated == Some(true) && options.user.token == Some("Bearer " + idToken.value)
    ensures !TokenTruthy(idToken) && old(options.user) != null ==> unchanged(old(options.user))
    ensures !TokenTruthy(idToken) && old(options.user) == null ==>
              options.user.authenticated == None && options.user.token == None
  {
    if options.user == null {
      options.user := new User();
    }
    if TokenTruthy(idToken) {
      options.user.authenticated := Some(true);
      options.user.token := Some("Bearer " + idToken.value);
    }
  }

  /**
   * `httpClient`: installs the default headers only when the options have none, sends the
   * request, and handles the response.
   */
  method HttpClient(url: string, options: Options, idToken: Option<string>,
                    response: Response, parse: string -> Parse)
    returns (sent: Request, r: Result<HttpResponse, ApiError>)
    modifies options
    ensures options.headers ==
              if old(options.headers).None? then Some(DefaultHeaders(idToken)) else old(options.headers)
    ensures options.user == old(options.user)
    ensures options.verb == old(options.verb) && options.body == old(options.body)
    ensures sent == Request(url, options.headers.value, options.verb, options.body)
    ensures r == HandleResponse(response, parse)
  {
    if options.headers.None? {
      options.headers := Some(DefaultHeaders(idToken));
    }
    sent := Request(url, options.headers.value, options.verb, options.body);
    r := HandleResponse(response, parse);
  }

  /** `this.httpClient(url, { method, body }).then(({ json }) => json)` with fresh options. */
  method Send(url: string, verb: Option<Verb>, body: Option<Json>, idToken: Option<string>,
              response: Response, parse: string -> Parse)
    returns (sent: Request, r: Result<Json, ApiError>)
    ensures sent == Request(url, DefaultHeaders(idToken), verb, body)
    ensures r.Success? <==> IsOk(response.status) && (response.body == "" || parse(response.body).Ok?)
    ensures r == JsonOf(HandleResponse(response, parse))
  {
    var options := new Options(None, verb, body);
    var h;
    sent, h := HttpClient(url, options, idToken, response, parse);
    r := JsonOf(h);
  }

  // ------------------------------------------------------------------ URL builders

  /** The `direction` argument of `getTree`. */
  datatype Direction = Parents | Children | Both

  function DirectionName(d: Direction): string {
    match d
    case Parents => "parents"
    case Children => "children"
    case Both => "both"
  }

  /** An `id: number | string` as it appears in a template literal. */
  datatype Id = NumberId(n: int) | StringId(s: string)

  function IdText(id: Id): string {
    match id
    case NumberId(n) => IntToString(n)
    case StringId(s) => s
  }

  /** The part of the tree URL before the direction: `<backend>/<component>/<id>/tree/`. */
  function TreeHead(backendUrl: string, component: string, id: Id): (h: string)
    ensures StartsWith(h, backendUrl + "/") && EndsWith(h, "/tree/")
    ensures h[|backendUrl + "/"|..] == component + "/" + IdText(id) + "/tree/"
  {
    var rest := component + "/" + IdText(id) + "/tree/";
    ConcatParts(backendUrl + "/", rest);
    assert rest == (component + "/" + IdText(id)) + "/tree/";
    ConcatParts(component + "/" + IdText(id), "/tree/");
    SuffixOfConcat(backendUrl + "/", rest, "/tree/");
    backendUrl + "/" + rest
  }

  /** The URL of `getTree`: the head and the direction's name; an absent direction is `children`. */
  function TreeUrl(backendUrl: string, component: string, id: Id, direction: Option<Direction>): (r: string)
    ensures StartsWith(r, TreeHead(backendUrl, component, id))
    ensures direction.None? ==> r[|TreeHead(backendUrl, component, id)|..] == "children"
    ensures direction.Some? ==> r[|TreeHead(backendUrl, component, id)|..] == DirectionName(direction.value)
    ensures StartsWith(r, backendUrl + "/")
    ensures direction.None? ==> EndsWith(r, "/tree/children")
    ensures direction.Some? ==> EndsWith(r, "/tree/" + DirectionName(direction.value))
  {
    var d := match direction case Some(d) => d case None => Children;
    var head := TreeHead(backendUrl, component, id);
    ConcatParts(head, DirectionName(d));
    PrefixTransitive(head + DirectionName(d), head, backendUrl + "/");
    SuffixExtend(head, "/tree/", DirectionName(d));
    head + DirectionName(d)
  }

  /** With a `backendUrl` ending in `/`, the tree URL holds `//` right where the base URL ends. */
  lemma TreeUrlDoubleSlash(backendUrl: string, component: string, id: Id, direction: Option<Direction>)
    requires EndsWith(backendUrl, "/")
    ensures OccursAt(TreeUrl(backendUrl, component, id, direction), "//", |backendUrl| - 1)
  {
    var r := TreeUrl(backendUrl, component, id, direction);
    var n := |backendUrl|;
    assert r[n - 1] == (backendUrl + "/")[n - 1] == backendUrl[n - 1];
    assert r[n] == (backendUrl + "/")[n];
    assert r[n - 1..n + 1] == "//";
  }

  /** The `parent_resources` query value: the names joined by commas, or empty when none are given. */
  function ParentResourcesQuery(parents: Option<seq<string>>): (q: string)
    ensures parents.None? ==> q == ""
    ensures parents.Some? && |parents.value| == 0 ==> q == ""
    ensures parents.Some? && |parents.value| > 0 ==> StartsWith(q, parents.value[0])
  {
    match parents
    case Some(names) => Join(names, ',')
    case None => ""
  }

  /** The names can be read back from the query value, when none of them holds a comma. */
  lemma ParentResourcesRoundTrip(names: seq<string>)
    requires |names| > 0
    requires forall i :: 0 <= i < |names| ==> ',' !in names[i]
    ensures Split(ParentResourcesQuery(Some(names)), ',') == names
  {
    SplitJoin(names, ',');
  }

  /** The URL of `getVariableSchema`. */
  function VariableSchemaUrl(backendUrl: string, id: string, parents: Option<seq<string>>): (r: string)
    ensures var head := backendUrl + "source_code_versions/" + id + "/variables?";
            StartsWith(r, head) && r[|head|..] == "parent_resources=" + ParentResourcesQuery(parents)
    ensures EndsWith(r, "?parent_resources=" + ParentResourcesQuery(parents))
  {
    var head := backendUrl + "source_code_versions/" + id + "/variables?";
    var q := ParentResourcesQuery(parents);
    var r := head + ("parent_resources=" + q);
    ConcatParts(head, "parent_resources=" + q);
    var front := backendUrl + "source_code_versions/" + id + "/variables";
    assert r == front + ("?parent_resources=" + q);
    ConcatParts(front, "?parent_resources=" + q);
    r
  }

  /** The URL of `get`: a `?` and the query string only when the query string is not empty. */
  function GetUrl(backendUrl: string, path: string, queryString: string): (r: string)
    ensures StartsWith(r, backendUrl + path)
    ensures r == backendUrl + path <==> queryString == ""
    ensures queryString != "" ==>
              r[|backendUrl + path|] == '?' && r[|backendUrl + path| + 1..] == queryString
  {
    var r := backendUrl + path + (if queryString != "" then "?" + queryString else "");
    assert r[..|backendUrl + path|] == backendUrl + path;
    r
  }

  /** The URL of `downloadFile`. */
  function DownloadUrl(backendUrl: string, id: string): (r: string)
    ensures StartsWith(r, backendUrl + "/resources/")
    ensures r[|backendUrl + "/resources/"|..] == id + "/debug"
    ensures EndsWith(r, "/" + id + "/debug")
  {
    var head := backendUrl + "/resources/";
    var r := head + id + "/debug";
    assert r[..|head|] == head;
    assert r[|head|..] == id + "/debug";
    assert r[|r| - |"/" + id + "/debug"|..] == "/" + id + "/debug";
    r
  }

  /** The same double slash in the download URL. */
  lemma DownloadUrlDoubleSlash(backendUrl: string, id: string)
    requires EndsWith(backendUrl, "/")
    ensures OccursAt(DownloadUrl(backendUrl, id), "//", |backendUrl| - 1)
  {
    var r := DownloadUrl(backendUrl, id);
    var n := |backendUrl|;
    assert r[n - 1] == (backendUrl + "/")[n - 1] == backendUrl[n - 1];
    assert r[n] == (backendUrl + "/")[n];
    assert r[n - 1..n + 1] == "//";
  }

  /** The client's own `backendUrl` always ends in `/`, so both URLs always hold the double slash. */
  lemma ClientUrlsHaveDoubleSlash(baseUrl: string, component: string, id: Id,
                                  direction: Option<Direction>, fileId: string)
    ensures OccursAt(TreeUrl(BackendUrl(baseUrl), component, id, direction), "//", |BackendUrl(baseUrl)| - 1)
    ensures OccursAt(DownloadUrl(BackendUrl(baseUrl), fileId), "//", |BackendUrl(baseUrl)| - 1)
  {
    TreeUrlDoubleSlash(BackendUrl(baseUrl), component, id, direction);
    DownloadUrlDoubleSlash(BackendUrl(baseUrl), fileId);
  }

  // ------------------------------------------------------------------ the public calls

  /** `getTree` */
  method GetTree(backendUrl: string, component: string, id: Id, direction: Option<Direction>,
                 idToken: Option<string>, response: Response, parse: string -> Parse)
    returns (sent: Request, r: Result<Json, ApiError>)
    ensures sent == Request(TreeUrl(backendUrl, component, id, direction), DefaultHeaders(idToken), None, None)
    ensures r == JsonOf(HandleResponse(response, parse))
  {
    sent, r := Send(TreeUrl(backendUrl, component, id, direction), None, None, idToken, response, parse);
  }

  /** `getVariableSchema` */
  method GetVariableSchema(backendUrl: string, id: string, parents: Option<seq<string>>,
                           idToken: Option<string>, response: Response, parse: string -> Parse)
    returns (sent: Request, r: Result<Json, ApiError>)
    ensures sent == Request(VariableSchemaUrl(backendUrl, id, parents), DefaultHeaders(idToken), None, None)
    ensures r == JsonOf(HandleResponse(response, parse))
  {
    sent, r := Send(VariableSchemaUrl(backendUrl, id, parents), None, None, idToken, response, parse);
  }

  /** `get`; `stringify` is the `query-string` library's encoder. */
  method Get(backendUrl: string, path: string, params: map<string, Json>,
             stringify: map<string, Json> -> string,
             idToken: Option<string>, response: Response, parse: string -> Parse)
    returns (sent: Request, r: Result<Json, ApiError>)
    ensures sent == Request(GetUrl(backendUrl, path, stringify(params)), DefaultHeaders(idToken), None, None)
    ensures r == JsonOf(HandleResponse(response, parse))
  {
    sent, r := Send(GetUrl(backendUrl, path, stringify(params)), None, None, idToken, response, parse);
  }

  /** `postRaw`, `updateRaw`, `patchRaw` and `deleteRaw`: the parameters travel as the JSON body. */
  method Raw(backendUrl: string, verb: Verb, path: string, params: Json,
             idToken: Option<string>, response: Response, parse: string -> Parse)
    returns (sent: Request, r: Result<Json, ApiError>)
    ensures sent == Request(backendUrl + path, DefaultHeaders(idToken), Some(verb), Some(params))
    ensures r == JsonOf(HandleResponse(response, parse))
  {
    sent, r := Send(backendUrl + path, Some(verb), Some(params), idToken, response, parse);
  }

  /** What `downloadFile` sends: its own literal options, with only an `Authorization` header. */
  function DownloadRequest(backendUrl: string, id: string, idToken: Option<string>): (q: Request)
    ensures q.headers.Keys == {"authorization"} && q.headers["authorization"] == Bearer(idToken)
    ensures q.url == DownloadUrl(backendUrl, id) && q.verb.None? && q.body.None?
  {
    Request(DownloadUrl(backendUrl, id), map["authorization" := Bearer(idToken)], None, None)
  }

  /** `downloadFile` after the fetch: the payload on success, otherwise an error carrying the body text. */
  function DownloadResult(response: Response): (r: Result<string, ApiError>)
    ensures r.Success? <==> IsOk(response.status)
    ensures r.Success? ==> r.value == response.body
    ensures r.Failure? ==>
              var head := "Request failed with " + IntToString(response.status) + " ";
              r.error.PlainError?
              && StartsWith(r.error.text, head)
              && r.error.text[|head|..] == response.statusText + ", " + response.body
              && EndsWith(r.error.text, ", " + response.body)
  {
    if IsOk(response.status) then Success(response.body)
    else
      var head := "Request failed with " + IntToString(response.status) + " ";
      var m := head + response.statusText + ", " + response.body;
      assert m[..|head|] == head;
      assert m[|head|..] == response.statusText + ", " + response.body;
      assert m[|m| - |", " + response.body|..] == ", " + response.body;
      Failure(PlainError(m))
  }

  // ------------------------------------------------------------------ list queries

  datatype Pagination = Pagination(page: int, perPage: int)

  datatype Sort = Sort(field: string, order: string)

  /** The `GetListParams` of a list call; an absent pagination or sort is `None`. */
  datatype ListParams = ListParams(pagination: Option<Pagination>, sort: Option<Sort>, filter: Json)

  /** What `getList` computes before the fetch: the URL, the `Range` header and the query values
      (as the JSON values that are stringified). */
  datatype ListRequest = ListRequest(url: string, rangeHeader: string, query: map<string, Json>)

  /** What `getList` resolves with; a `total` of `None` stands for `NaN`. */
  datatype ListResult = ListResult(data: Json, total: Option<int>)

  function PaginationOf(params: ListParams): Pagination {
    match params.pagination
    case Some(p) => p
    case None => Pagination(1, 10)
  }

  function SortOf(params: ListParams): Sort {
    match params.sort
    case Some(s) => s
    case None => Sort("id", "ASC")
  }

  /** The first index of a page, zero-based. */
  function RangeStart(page: int, perPage: int): int {
    (page - 1) * perPage
  }

  /** The last index of a page, inclusive. */
  function RangeEnd(page: int, perPage: int): int {
    page * perPage - 1
  }

  /** A page holds exactly `perPage` indices, all of them non-negative. */
  lemma PageHoldsPerPageIndices(page: int, perPage: int)
    requires page >= 1 && perPage >= 1
    ensures 0 <= RangeStart(page, perPage) <= RangeEnd(page, perPage)
    ensures RangeEnd(page, perPage) - RangeStart(page, perPage) + 1 == perPage
  {
    MultiplyMonotonic(0, page - 1, perPage);
  }

  /** Each page ends right before the next one starts. */
  lemma PagesAreAdjacent(page: int, perPage: int)
    ensures RangeEnd(page, perPage) + 1 == RangeStart(page + 1, perPage)
  {
  }

  lemma MultiplyMonotonic(a: int, b: int, n: int)
    requires a <= b && n >= 0
    ensures a * n <= b * n
  {
    assert b * n - a * n == (b - a) * n;
  }

  /** Pages partition the indices: index `i` lies on page `page` exactly when `page` is `i / perPage + 1`. */
  lemma IndexOnExactlyOnePage(page: int, perPage: int, i: int)
    requires page >= 1 && perPage >= 1 && i >= 0
    ensures RangeStart(page, perPage) <= i <= RangeEnd(page, perPage) <==> page == i / perPage + 1
  {
    var q := i / perPage;
    assert i == q * perPage + i % perPage && 0 <= i % perPage < perPage;
    assert (q + 1) * perPage == q * perPage + perPage;
    if page <= q {
      MultiplyMonotonic(page, q, perPage);
    } else if page > q + 1 {
      MultiplyMonotonic(q + 1, page - 1, perPage);
    }
  }

  /** The `Range` request header: `<resource>=<start>-<end>`. */
  function RangeHeader(resource: string, start: int, end: int): (h: string)
    ensures StartsWith(h, resource + "=")
    ensures h[|resource| + 1..] == IntToString(start) + "-" + IntToString(end)
  {
    var head := resource + "=";
    var h := head + IntToString(start) + "-" + IntToString(end);
    assert h[..|head|] == head;
    assert h[|head|..] == IntToString(start) + "-" + IntToString(end);
    h
  }

  /**
   * How a backend reads the `Range` header back: the text after the last `=` starts with the
   * first index, and the text after its last `-` is the last index.
   */
  function DecodeRangeHeader(h: string): Option<(int, int)> {
    var v := Last(Split(h, '='));
    match (ParseInt(v), ParseInt(Last(Split(v, '-'))))
    case (Some(a), Some(b)) => Some((a, b))
    case _ => None
  }

  /** The header carries its two numbers back, whatever the resource name, when the last index is not negative. */
  lemma RangeHeaderRoundTrip(resource: string, start: int, end: int)
    requires end >= 0
    ensures DecodeRangeHeader(RangeHeader(resource, start, end)) == Some((start, end))
  {
    var a, b := IntToString(start), IntToString(end);
    var v := a + "-" + b;
    assert RangeHeader(resource, start, end) == resource + ['='] + v;
    assert '=' !in v by {
      forall k | 0 <= k < |v| ensures v[k] != '=' {
        if k < |a| { assert v[k] == a[k]; } else if k > |a| { assert v[k] == b[k - |a| - 1]; }
      }
    }
    LastSplit(resource, '=', v);
    assert v == a + ("-" + b);
    ParseIntOfIntToString(start, "-" + b);
    assert v == a + ['-'] + b;
    assert '-' !in b by {
      forall k | 0 <= k < |b| ensures b[k] != '-' {
        assert IsDigit(b[k]);
      }
    }
    LastSplit(a, '-', b);
    assert b + [] == b;
    ParseIntOfIntToString(end, []);
  }

  /** The query values of `getList`, before `JSON.stringify` and `query-string`'s `stringify`. */
  function ListQuery(params: ListParams): (q: map<string, Json>)
    ensures q.Keys == {"sort", "range", "filter"}
    ensures params.sort.Some? ==>
              q["sort"] == JArray([JString(params.sort.value.field), JString(params.sort.value.order)])
    ensures params.sort.None? ==> q["sort"] == JArray([JString("id"), JString("ASC")])
    ensures params.pagination.Some? ==>
              var p := params.pagination.value;
              q["range"] == JArray([JNumber((p.page - 1) * p.perPage), JNumber(p.page * p.perPage - 1)])
    ensures params.pagination.None? ==> q["range"] == JArray([JNumber(0), JNumber(9)])
    ensures q["filter"] == params.filter
  {
    var p := PaginationOf(params);
    var s := SortOf(params);
    map["sort" := JArray([JString(s.field), JString(s.order)]),
        "range" := JArray([JNumber(RangeStart(p.page, p.perPage)), JNumber(RangeEnd(p.page, p.perPage))]),
        "filter" := params.filter]
  }

  /** The request of `getList`; `stringify` is the `query-string` library's encoder. */
  function ListRequestOf(backendUrl: string, resource: string, params: ListParams,
                         stringify: map<string, Json> -> string): (r: ListRequest)
    ensures StartsWith(r.url, backendUrl + resource + "?")
    ensures r.url[|backendUrl + resource + "?"|..] == stringify(ListQuery(params))
    ensures var p := PaginationOf(params);
            r.rangeHeader == RangeHeader(resource, RangeStart(p.page, p.perPage), RangeEnd(p.page, p.perPage))
    ensures r.query == ListQuery(params)
  {
    var p := PaginationOf(params);
    var head := backendUrl + resource + "?";
    var url := head + stringify(ListQuery(params));
    assert url[..|head|] == head;
    assert url[|head|..] == stringify(ListQuery(params));
    ListRequest(url, RangeHeader(resource, RangeStart(p.page, p.perPage), RangeEnd(p.page, p.perPage)),
                ListQuery(params))
  }

  /** The `Range` header and the `range` query value carry the same two numbers, the page's first and last index. */
  lemma RangeHeaderAgreesWithQuery(backendUrl: string, resource: string, params: ListParams,
                                   stringify: map<string, Json> -> string)
    requires PaginationOf(params).page >= 1 && PaginationOf(params).perPage >= 1
    ensures var r := ListRequestOf(backendUrl, resource, params, stringify);
            var p := PaginationOf(params);
            var start, end := RangeStart(p.page, p.perPage), RangeEnd(p.page, p.perPage);
            && r.query["range"] == JArray([JNumber(start), JNumber(end)])
            && DecodeRangeHeader(r.rangeHeader) == Some((start, end))
            && 0 <= start && end - start + 1 == p.perPage
  {
    var p := PaginationOf(params);
    var start, end := RangeStart(p.page, p.perPage), RangeEnd(p.page, p.perPage);
    PageHoldsPerPageIndices(p.page, p.perPage);
    RangeHeaderRoundTrip(resource, start, end);
    var r := ListRequestOf(backendUrl, resource, params, stringify);
    assert r.query["range"] == JArray([JNumber(start), JNumber(end)]);
  }

  /** Without pagination the call asks for indices 0 to 9; without a sort it sorts by `id`, ascending. */
  lemma ListDefaults(backendUrl: string, resource: string, filter: Json,
                     stringify: map<string, Json> -> string)
    ensures var r := ListRequestOf(backendUrl, resource, ListParams(None, None, filter), stringify);
            && r.rangeHeader == resource + "=0-9"
            && r.query["range"] == JArray([JNumber(0), JNumber(9)])
            && r.query["sort"] == JArray([JString("id"), JString("ASC")])
  {
    assert IntToString(0) == "0" && IntToString(9) == "9";
  }

  const MissingContentRange: string :=
    "The Content-Range header is missing in the HTTP Response. The simple REST data provider expects "
    + "responses for lists of resources to contain this header with the total number of results to "
    + "build the pagination. If you are using CORS, did you declare Content-Range in the "
    + "Access-Control-Expose-Headers header?"

  /** `parseInt(value.split('/').pop() || '', 10)` */
  function ContentRangeTotal(value: string): Option<int> {
    ParseInt(Last(Split(value, '/')))
  }

  /** The total is read from after the last `/`, whatever comes before it. */
  lemma ContentRangeTotalRoundTrip(prefix: string, total: int)
    ensures ContentRangeTotal(prefix + "/" + IntToString(total)) == Some(total)
  {
    var t := IntToString(total);
    assert '/' !in t by {
      forall k | 0 <= k < |t| ensures t[k] != '/' {
      }
    }
    assert prefix + "/" + t == prefix + ['/'] + t;
    LastSplit(prefix, '/', t);
    assert t + [] == t;
    ParseIntOfIntToString(total, []);
  }

  /** `items 0-9/42` gives the total 42. */
  lemma ContentRangeExample()
    ensures ContentRangeTotal("items 0-9/42") == Some(42)
  {
    assert NatToString(42) == NatToString(4) + [DigitChar(2)];
    assert IntToString(42) == "42";
    assert "items 0-9/42" == "items 0-9" + "/" + IntToString(42);
    ContentRangeTotalRoundTrip("items 0-9", 42);
  }

  /** An unknown length, a `*` after the last slash, gives `NaN`. */
  lemma ContentRangeUnknownLength()
    ensures ContentRangeTotal("items 0-9/*") == None
  {
    assert "items 0-9/*" == "items 0-9" + ['/'] + "*";
    LastSplit("items 0-9", '/', "*");
    assert TrimStart("*") == "*" && SignStripped("*") == "*" && DigitRun("*") == 0;
  }

  /** The `.then` of `getList`: the `Content-Range` header is required and gives the total. */
  function ListResultOf(headers: Headers, json: Json): (r: Result<ListResult, ApiError>)
    ensures "content-range" !in headers ==> r == Failure(PlainError(MissingContentRange))
    ensures "content-range" in headers ==>
              r.Success? && r.value.data == json
              && r.value.total == ContentRangeTotal(headers["content-range"])
  {
    if "content-range" !in headers then Failure(PlainError(MissingContentRange))
    else Success(ListResult(json, ContentRangeTotal(headers["content-range"])))
  }

  /**
   * `getList`: builds the request, puts the `Range` header in fresh options, adds the user's
   * token with `setAuthToken`; `fetched` is what the library's `fetchJson` resolved with.
   */
  method GetList(backendUrl: string, resource: string, params: ListParams,
                 stringify: map<string, Json> -> string, idToken: Option<string>,
                 fetched: Result<HttpResponse, ApiError>)
    returns (request: ListRequest, options: Options, r: Result<ListResult, ApiError>)
    ensures request == ListRequestOf(backendUrl, resource, params, stringify)
    ensures fresh(options) && options.user != null && fresh(options.user)
    ensures options.headers == Some(map["range" := request.rangeHeader])
    ensures options.verb.None? && options.body.None?
    ensures TokenTruthy(idToken) ==>
              options.user.authenticated == Some(true) && options.user.token == Some("Bearer " + idToken.value)
    ensures !TokenTruthy(idToken) ==> options.user.authenticated.None? && options.user.token.None?
    ensures fetched.Failure? ==> r == Failure(fetched.error)
    ensures fetched.Success? ==> r == ListResultOf(fetched.value.headers, fetched.value.json)
  {
    request := ListRequestOf(backendUrl, resource, params, stringify);
    options := new Options(Some(map["range" := request.rangeHeader]), None, None);
    SetAuthToken(options, idToken);
    match fetched
    case Failure(e) => r := Failure(e);
    case Success(h) => r := ListResultOf(h.headers, h.json);
  }
}
