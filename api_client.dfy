/** The browser side of the API (frontend/lib/apiClient.ts): the client's
    location check, the request URL and headers, the choice of error message
    and the stored session that a 401 clears, and the mapping of every way a
    request can fail onto one `ApiError`. */
module ApiClient {
  import opened Optional
  import opened JsText
  import opened Domain
  import opened QueryHelpers

  /** `canAccessLocation(locationId)` for the user kept in local storage
      (None when there is none). The comparison is `===`, so an unassigned
      manager or engineer is refused. */
  function CanAccessLocation(user: Option<AuthUser>, target: int): (b: bool)
    ensures user.None? ==> !b
    ensures user.Some? && user.value.role == SuperAdmin ==> b
    ensures user.Some? && IsManagerOrEngineer(user.value.role) ==> (b <==> user.value.locationId == Some(target))
    ensures user.Some? && user.value.role == OtherRole ==> !b
  {
    if user.None? then false
    else if user.value.role == SuperAdmin then true
    else if IsManagerOrEngineer(user.value.role) then user.value.locationId == Some(target)
    else false
  }

  /** The client mirrors the server's access check on every real location id;
      they part only on location 0, which the server treats as unassigned. */
  lemma CanAccessMirrorsServer(user: AuthUser, target: int)
    ensures target != 0 ==> (CanAccessLocation(Some(user), target) <==> ValidateLocationAccess(user, target))
    ensures user.role == StoreManager && user.locationId == Some(0) ==>
              CanAccessLocation(Some(user), 0) && !ValidateLocationAccess(user, 0)
  {
    ValidateLocationAccessIff(user, target);
  }

  /** `API_BASE_URL`: the configured URL, or the local default when it is unset or empty. */
  function ApiBaseUrl(configured: Option<string>): (url: string)
    ensures TruthyText(configured) ==> url == configured.value
    ensures !TruthyText(configured) ==> url == "http://localhost:3001/api"
  {
    TextOr(configured, "http://localhost:3001/api")
  }

  predicate EndsWithSlash(s: string) { |s| > 0 && s[|s| - 1] == '/' }

  predicate StartsWithSlash(s: string) { |s| > 0 && s[0] == '/' }

  /** `replace(/\/$/, '')`: one trailing slash removed. */
  function TrimTrailingSlash(s: string): (r: string)
    ensures EndsWithSlash(s) ==> s == r + "/"
    ensures !EndsWithSlash(s) ==> r == s
  {
    if EndsWithSlash(s) then s[..|s| - 1] else s
  }

  /** `replace(/^\//, '')`: one leading slash removed. */
  function TrimLeadingSlash(s: string): (r: string)
    ensures StartsWithSlash(s) ==> s == "/" + r
    ensures !StartsWithSlash(s) ==> r == s
  {
    if StartsWithSlash(s) then s[1..] else s
  }

  /** The URL `apiRequest` fetches. */
  function RequestUrl(base: string, endpoint: string): string {
    TrimTrailingSlash(base) + "/" + TrimLeadingSlash(endpoint)
  }

  /** The URL is the base and the endpoint with one slash between them: a
      slash already ending the base or starting the endpoint is not doubled,
      and when neither side carries one a slash is put in. */
  lemma RequestUrlJoins(base: string, endpoint: string)
    ensures !EndsWithSlash(base) && !StartsWithSlash(endpoint) ==> RequestUrl(base, endpoint) == base + "/" + endpoint
    ensures EndsWithSlash(base) && !StartsWithSlash(endpoint) ==> RequestUrl(base, endpoint) == base + endpoint
    ensures !EndsWithSlash(base) && StartsWithSlash(endpoint) ==> RequestUrl(base, endpoint) == base + endpoint
    ensures EndsWithSlash(base) && StartsWithSlash(endpoint) ==> RequestUrl(base, endpoint) == base + endpoint[1..]
  {
    var b, e := TrimTrailingSlash(base), TrimLeadingSlash(endpoint);
    if EndsWithSlash(base) && !StartsWithSlash(endpoint) {
      assert base + endpoint == b + "/" + e;
    }
    if !EndsWithSlash(base) && StartsWithSlash(endpoint) {
      assert base + endpoint == b + ("/" + e);
    }
    if EndsWithSlash(base) && StartsWithSlash(endpoint) {
      assert endpoint[1..] == e;
    }
  }

  /** Writing the optional slash or leaving it out gives the same URL, as long
      as only one slash is trimmed on each side. */
  lemma RequestUrlIgnoresOneSlash(base: string, endpoint: string)
    requires !EndsWithSlash(base) && !StartsWithSlash(endpoint)
    ensures RequestUrl(base + "/", endpoint) == RequestUrl(base, endpoint)
    ensures RequestUrl(base, "/" + endpoint) == RequestUrl(base, endpoint)
    ensures RequestUrl(base + "/", "/" + endpoint) == RequestUrl(base, endpoint)
  {
    assert (base + "/")[..|base + "/"| - 1] == base;
    assert ("/" + endpoint)[1..] == endpoint;
  }

  lemma RequestUrlOfDefault()
    ensures RequestUrl(ApiBaseUrl(None), "/products") == "http://localhost:3001/api/products"
    ensures RequestUrl("http://localhost:3001/api/", "stores") == "http://localhost:3001/api/stores"
  {
  }

  /** The request headers: JSON content, and a bearer token when one is stored. */
  function RequestHeaders(token: Option<string>): (h: map<string, string>)
    ensures "Content-Type" in h && h["Content-Type"] == "application/json"
    ensures "Authorization" in h <==> TruthyText(token)
    ensures TruthyText(token) ==> h["Authorization"] == "Bearer " + token.value
    ensures h.Keys <= {"Content-Type", "Authorization"}
  {
    var base := map["Content-Type" := "application/json"];
    if TruthyText(token) then base["Authorization" := "Bearer " + token.value] else base
  }

  /** The `error` and `message` fields of a JSON response body. */
  datatype Body = Body(error: Option<string>, message: Option<string>)

  datatype ApiError = ApiError(status: int, message: string)

  /** `a?.f || b?.g || fallback` over an optional body. */
  function FirstText(first: Option<string>, second: Option<string>, fallback: string): string {
    if TruthyText(first) then first.value else if TruthyText(second) then second.value else fallback
  }

  function FieldOf(data: Option<Body>, message: bool): Option<string> {
    if data.None? then None else if message then data.value.message else data.value.error
  }

  function FallbackMessage(status: int): string {
    if status == 403 then "Access denied" else "An error occurred"
  }

  /** The message `handleApiError` throws with: for a 403 the body's
      `message`, else its `error`; for any other status the other way round;
      the fixed text when the body has neither. */
  function ErrorMessage(status: int, data: Option<Body>): (m: string)
    ensures |m| > 0
    ensures status == 403 && TruthyText(FieldOf(data, true)) ==> m == FieldOf(data, true).value
    ensures status == 403 && !TruthyText(FieldOf(data, true)) && TruthyText(FieldOf(data, false)) ==> m == FieldOf(data, false).value
    ensures status != 403 && TruthyText(FieldOf(data, false)) ==> m == FieldOf(data, false).value
    ensures status != 403 && !TruthyText(FieldOf(data, false)) && TruthyText(FieldOf(data, true)) ==> m == FieldOf(data, true).value
    ensures !TruthyText(FieldOf(data, true)) && !TruthyText(FieldOf(data, false)) ==> m == FallbackMessage(status)
  {
    if status == 403 then FirstText(FieldOf(data, true), FieldOf(data, false), "Access denied")
    else FirstText(FieldOf(data, false), FieldOf(data, true), "An error occurred")
  }

  /** The message is always one of the body's two texts or the fixed text, and
      a body carrying two different texts is reported differently on a 403
      than on any other status. */
  lemma ErrorMessageChoice(status: int, other: int, data: Option<Body>)
    ensures var m := ErrorMessage(status, data);
            m == FallbackMessage(status) || FieldOf(data, true) == Some(m) || FieldOf(data, false) == Some(m)
    ensures (status == 403 && other != 403 && TruthyText(FieldOf(data, true)) && TruthyText(FieldOf(data, false))
             && FieldOf(data, true) != FieldOf(data, false)) ==> ErrorMessage(status, data) != ErrorMessage(other, data)
  {
  }

  /** The browser's stored session and current page. */
  class Session {
    var token: Option<string>
    var user: Option<string>
    var href: string

    constructor(token: Option<string>, user: Option<string>, href: string)
      ensures this.token == token && this.user == user && this.href == href
    {
      this.token := token;
      this.user := user;
      this.href := href;
    }

    /** `handleApiError`: it always throws (the returned error); a 401 in a
        browser first removes the stored token and user and goes to the login
        page. Without a window nothing is cleared. */
    method HandleApiError(hasWindow: bool, status: int, data: Option<Body>) returns (e: ApiError)
      modifies this
      ensures e == ApiError(status, ErrorMessage(status, data))
      ensures status == 401 && hasWindow ==> token == None && user == None && href == "/login"
      ensures !(status == 401 && hasWindow) ==> token == old(token) && user == old(user) && href == old(href)
    {
      if status == 401 && hasWindow {
        token := None;
        user := None;
        href := "/login";
      }
      e := ApiError(status, ErrorMessage(status, data));
    }
  }

  /** What `response.json()` makes of a JSON body. */
  datatype Payload = Parsed(data: Option<Body>) | Unparsable

  /** What `fetch` produced: a response (its status, its content-type header,
      and its payload when that header says JSON), or a thrown error. */
  datatype Fetched =
    | Response(status: int, contentType: Option<string>, payload: Payload)
    | Threw(typeError: bool, detail: string)

  datatype Reply = Data(body: Option<Body>) | Failure(error: ApiError)

  predicate OkStatus(status: int) { 200 <= status <= 299 }

  predicate IsJson(contentType: Option<string>) {
    contentType.Some? && Contains(contentType.value, "application/json")
  }

  /** `${contentType}` of a header that may be missing. */
  function HeaderText(contentType: Option<string>): string {
    if contentType.Some? then contentType.value else "null"
  }

  function NetworkErrorMessage(url: string, base: string): string {
    "Network error: Cannot reach " + url + ". Check your internet connection, backend URL (" + base + "), or CORS settings."
  }

  /** The outcome of `apiRequest` for what `fetch` produced. */
  function Resolve(base: string, endpoint: string, f: Fetched): (r: Reply)
    ensures f.Threw? ==> r.Failure? && r.error.status == (if f.typeError then 0 else 500)
    ensures f.Response? && IsJson(f.contentType) && f.payload.Unparsable? ==> r == Failure(ApiError(500, "Request failed"))
    ensures f.Response? && IsJson(f.contentType) && f.payload.Parsed? && !OkStatus(f.status) ==>
              r == Failure(ApiError(f.status, ErrorMessage(f.status, f.payload.data)))
    ensures f.Response? && !IsJson(f.contentType) && !OkStatus(f.status) ==> r.Failure? && r.error.status == f.status
    ensures r.Data? <==> f.Response? && OkStatus(f.status) && (IsJson(f.contentType) ==> f.payload.Parsed?)
    ensures r.Data? ==> r.body == (if IsJson(f.contentType) then f.payload.data else None)
  {
    var url := RequestUrl(base, endpoint);
    match f
    case Threw(typeError, _) =>
      if typeError then Failure(ApiError(0, NetworkErrorMessage(url, TrimTrailingSlash(base))))
      else Failure(ApiError(500, "Request failed"))
    case Response(status, contentType, payload) =>
      if IsJson(contentType) then
        if payload.Unparsable? then Failure(ApiError(500, "Request failed"))
        else if !OkStatus(status) then Failure(ApiError(status, ErrorMessage(status, payload.data)))
        else Data(payload.data)
      else if !OkStatus(status) then
        Failure(ApiError(status, "Server returned " + HeaderText(contentType) + " instead of JSON. Status: " + IntToString(status)))
      else Data(None)
  }

  /** A response that reaches `handleApiError` with a 401. */
  predicate SignsOut(f: Fetched) {
    f.Response? && IsJson(f.contentType) && f.payload.Parsed? && f.status == 401
  }

  /** `apiRequest` on a session: the reply, and the session cleared exactly
      when a JSON 401 came back in a browser. */
  method ApiRequest(s: Session, hasWindow: bool, base: string, endpoint: string, f: Fetched) returns (r: Reply)
    modifies s
    ensures r == Resolve(base, endpoint, f)
    ensures hasWindow && SignsOut(f) ==> s.token == None && s.user == None && s.href == "/login"
    ensures !(hasWindow && SignsOut(f)) ==> s.token == old(s.token) && s.user == old(s.user) && s.href == old(s.href)
  {
    var url := RequestUrl(base, endpoint);
    var baseUrl := TrimTrailingSlash(base);
    match f {
      case Threw(typeError, _) =>
        if typeError {
          return Failure(ApiError(0, NetworkErrorMessage(url, baseUrl)));
        }
        return Failure(ApiError(500, "Request failed"));
      case Response(status, contentType, payload) =>
        if IsJson(contentType) {
          if payload.Unparsable? {
            return Failure(ApiError(500, "Request failed"));
          }
          if !OkStatus(status) {
            var e := s.HandleApiError(hasWindow, status, payload.data);
            return Failure(e);
          }
          return Data(payload.data);
        }
        if !OkStatus(status) {
          return Failure(ApiError(status, "Server returned " + HeaderText(contentType) + " instead of JSON. Status: " + IntToString(status)));
        }
        return Data(None);
    }
  }

  /** Only a JSON 401 signs the user out: a 403, a non-JSON 401 and a network
      failure all leave the session in place. */
  lemma OnlyUnauthorizedSignsOut(f: Fetched)
    ensures SignsOut(f) ==> Resolve("", "", f) == Failure(ApiError(401, ErrorMessage(401, f.payload.data)))
    ensures f.Response? && f.status == 403 ==> !SignsOut(f)
    ensures f.Threw? ==> !SignsOut(f)
    ensures SignsOut(f) ==> Resolve("", "", f).Failure?
  {
  }

  /** A network failure names the URL it could not reach. */
  lemma NetworkErrorNamesUrl(base: string, endpoint: string, detail: string)
    ensures var r := Resolve(base, endpoint, Threw(true, detail));
            r.Failure? && r.error.status == 0 && Contains(r.error.message, RequestUrl(base, endpoint))
  {
    var url := RequestUrl(base, endpoint);
    var m := NetworkErrorMessage(url, TrimTrailingSlash(base));
    var pre := "Network error: Cannot reach ";
    assert m[|pre|..|pre| + |url|] == url;
    OccursContains(m, url, |pre|);
  }

  /** A substring at an index is contained. */
  lemma OccursContains(s: string, sub: string, i: int)
    requires 0 <= i && i + |sub| <= |s| && s[i..i + |sub|] == sub
    ensures Contains(s, sub)
  {
    assert OccursAt(s, sub, i);
    ContainsIffOccurs(s, sub);
  }
}
