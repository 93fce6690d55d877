/**
 * `ApiClient`: the browser's client of the `/api` application. It keeps the session token in a
 * field and in local storage under `avamail_token`, sends it as a bearer header, turns a failed
 * answer into a thrown message, and builds the query string of the email list.
 */
module ApiClient {
  import opened Wrappers
  import opened Json
  import opened Text
  import Http
  import AuthApi
  import Routes
  import EmailsApi

  const ApiBase: string := "/api"
  const TokenKey: string := "avamail_token"
  const RequestFailed: string := "Request failed"

  /** One `fetch`: the method, the URL, the headers and the value `JSON.stringify` serialises as the body. */
  datatype Request = Request(verb: string, url: string, headers: seq<(string, string)>, body: Option<Json>)

  /** What `fetch` answers: `response.ok` and the value `response.json()` parses (None when the text is not JSON). */
  datatype Response = Response(ok: bool, data: Option<Json>)

  /** Why `request` throws: the answer's message, or a body `response.json()` could not parse. */
  datatype Failure = Thrown(message: string) | NotJson

  // ------------------------------------------------------------------ requests

  /** The request headers: JSON content, and the bearer token when one is set. */
  function Headers(token: Option<string>): seq<(string, string)> {
    [("Content-Type", "application/json")] + (if Present(token) then [("Authorization", "Bearer " + token.value)] else [])
  }

  /** The value of a header, by name; None when it is not sent. */
  function HeaderValue(hs: seq<(string, string)>, name: string): Option<string>
    decreases |hs|
  {
    if |hs| == 0 then None
    else if hs[0].0 == name then Some(hs[0].1)
    else HeaderValue(hs[1..], name)
  }

  /** `Authorization: Bearer <token>` is sent iff a token is set, and always with that token. */
  lemma AuthorizationIff(token: Option<string>)
    ensures HeaderValue(Headers(token), "Authorization") == (if Present(token) then Some("Bearer " + token.value) else None)
    ensures HeaderValue(Headers(token), "Content-Type") == Some("application/json")
  {
  }

  /** The worker reads back from the header exactly the token the client holds, or none when it holds none. */
  lemma ServerSeesToken(token: Option<string>)
    ensures AuthApi.BearerToken(HeaderValue(Headers(token), "Authorization")) == (if Present(token) then token else None)
  {
    AuthorizationIff(token);
    if Present(token) {
      AuthApi.BearerRoundTrip(token.value);
    }
  }

  function BuildRequest(token: Option<string>, verb: string, endpoint: string, body: Option<Json>): Request {
    Request(verb, ApiBase + endpoint, Headers(token), if Truthy(body) then body else None)
  }

  /** `data.error || 'Request failed'`, for an error given as a string. */
  function ErrorMessage(data: Json): (m: string)
    ensures m != ""
  {
    match Member(data, "error")
    case Some(JStr(e)) => if e != "" then e else RequestFailed
    case _ => RequestFailed
  }

  /** The text of the `TypeError` thrown when the answer is null and `error` is read from it. */
  const NullErrorRead: string := "Cannot read properties of null (reading 'error')"

  /**
   * `request` once the answer is in: the body is parsed first; a response that is not ok throws,
   * and reading `data.error` off a `null` body throws before the `Error` is built.
   */
  function Outcome(resp: Response): (r: Result<Json, Failure>)
    ensures r.Ok? <==> resp.ok && resp.data.Some?
    ensures r.Ok? ==> r.value == resp.data.value
  {
    if resp.data.None? then Err(NotJson)
    else if !resp.ok then Err(Thrown(if resp.data.value == JNull then NullErrorRead else ErrorMessage(resp.data.value)))
    else Ok(resp.data.value)
  }

  /**
   * An error answer of the worker surfaces as its message: `{ error: m }` throws `m`; any other
   * answer without a usable error string throws `Request failed`, save a `null` one, which throws
   * the `TypeError` of reading `error` from null.
   */
  lemma WorkerErrorsSurface(status: nat, m: string, data: Json)
    requires m != ""
    ensures Outcome(Response(false, Some(Http.ErrorReply(status, m).body))) == Err(Thrown(m))
    ensures Outcome(Response(false, Some(Http.DetailedError(status, m, "details").body))) == Err(Thrown(m))
    ensures data != JNull && !(Member(data, "error").Some? && Member(data, "error").value.JStr? && Member(data, "error").value.s != "") ==>
      Outcome(Response(false, Some(data))) == Err(Thrown(RequestFailed))
    ensures Outcome(Response(false, Some(JNull))) == Err(Thrown(NullErrorRead))
  {
  }

  // ------------------------------------------------------------------ the token

  /** The token and the browser's local storage. */
  datatype Session = Session(token: Option<string>, storage: map<string, string>)

  /** The constructor: the token is whatever is stored under `avamail_token`. */
  function Restored(storage: map<string, string>): Session {
    Session(if TokenKey in storage then Some(storage[TokenKey]) else None, storage)
  }

  /** `setToken(t)`: the field becomes `t`; a truthy token is stored, anything else removes the stored one. */
  function WithToken(s: Session, t: Option<string>): Session {
    Session(t, if Present(t) then s.storage[TokenKey := t.value] else s.storage - {TokenKey})
  }

  /** `response.token` when it is a non-empty string. */
  function TokenOf(data: Json): Option<string> {
    match Member(data, "token")
    case Some(JStr(s)) => if s != "" then Some(s) else None
    case _ => None
  }

  /** `login` and `setup`: the token is stored only when the answer carries one. */
  function AfterAuth(s: Session, r: Result<Json, Failure>): Session {
    if r.Ok? && TokenOf(r.value).Some? then WithToken(s, TokenOf(r.value)) else s
  }

  /** `logout`: the token is cleared only after the request succeeds (a throw skips `setToken(null)`). */
  function AfterLogout(s: Session, r: Result<Json, Failure>): Session {
    if r.Ok? then WithToken(s, None) else s
  }

  /**
   * The token survives a reload: a client built from the storage `setToken` leaves sends the same
   * headers, and holds the very token when it is truthy. No other stored key is touched.
   */
  lemma ReloadKeepsToken(s: Session, t: Option<string>)
    ensures var s1 := WithToken(s, t);
      Headers(Restored(s1.storage).token) == Headers(s1.token) &&
      (Present(t) ==> Restored(s1.storage).token == t) &&
      (forall k :: k != TokenKey ==> (k in s1.storage <==> k in s.storage) && (k in s.storage ==> s1.storage[k] == s.storage[k]))
  {
  }

  /**
   * A successful login or setup that hands out a token makes every later request carry it, and the
   * worker reads it back; any other answer leaves the client as it was.
   */
  lemma LoginCarriesToken(s: Session, r: Result<Json, Failure>)
    ensures r.Ok? && TokenOf(r.value).Some? ==>
      AuthApi.BearerToken(HeaderValue(Headers(AfterAuth(s, r).token), "Authorization")) == TokenOf(r.value) &&
      AfterAuth(s, r).storage[TokenKey] == TokenOf(r.value).value
    ensures !(r.Ok? && TokenOf(r.value).Some?) ==> AfterAuth(s, r) == s
  {
    if r.Ok? && TokenOf(r.value).Some? {
      ServerSeesToken(AfterAuth(s, r).token);
    }
  }

  /** After a successful logout no token is held or stored and no bearer header is sent; a failed one changes nothing. */
  lemma LogoutClears(s: Session, r: Result<Json, Failure>)
    ensures r.Ok? ==>
      && AfterLogout(s, r).token.None?
      && TokenKey !in AfterLogout(s, r).storage
      && HeaderValue(Headers(AfterLogout(s, r).token), "Authorization").None?
      && Restored(AfterLogout(s, r).storage).token.None?
    ensures r.Err? ==> AfterLogout(s, r) == s
  {
  }

  // ------------------------------------------------------------------ the email list query

  /** The options of `getEmails`; an absent option is None (or false for the two flags). */
  datatype ListOptions = ListOptions(kind: Option<string>, limit: Option<int>, offset: Option<int>, unread: bool, starred: bool)

  predicate TruthyNumber(n: Option<int>) {
    n.Some? && n.value != 0
  }

  /** The parameters `getEmails` appends, in order, each only for a truthy option. */
  function QueryParams(o: ListOptions): seq<(string, string)> {
    (if Present(o.kind) then [("type", o.kind.value)] else []) +
    (if TruthyNumber(o.limit) then [("limit", IntToString(o.limit.value))] else []) +
    (if TruthyNumber(o.offset) then [("offset", IntToString(o.offset.value))] else []) +
    (if o.unread then [("unread", "true")] else []) +
    (if o.starred then [("starred", "true")] else [])
  }

  /** The characters the form encoding of `URLSearchParams` writes as they are. */
  predicate PlainChar(c: char) {
    ('a' <= c <= 'z') || ('A' <= c <= 'Z') || ('0' <= c <= '9') || c == '-' || c == '.' || c == '_' || c == '*'
  }

  predicate Plain(s: string) {
    forall i :: 0 <= i < |s| ==> PlainChar(s[i])
  }

  function Pieces(params: seq<(string, string)>): (ps: seq<string>)
    ensures |ps| == |params|
    ensures forall i :: 0 <= i < |params| ==> ps[i] == params[i].0 + "=" + params[i].1
    decreases |params|
  {
    if |params| == 0 then [] else [params[0].0 + "=" + params[0].1] + Pieces(params[1..])
  }

  /** `params.toString()`: `key=value` pairs joined by `&` (plain keys and values need no escapes). */
  function QueryString(params: seq<(string, string)>): string {
    Join(Pieces(params), "&")
  }

  /** The endpoint `getEmails` requests: `?` and the query only when the query is not empty. */
  function EmailsEndpoint(o: ListOptions): string {
    var query := QueryString(QueryParams(o));
    "/emails" + (if query != "" then "?" + query else "")
  }

  /** One `key=value` piece read back: the text before the first `=` and everything after it. */
  function PairOf(piece: string): (string, string) {
    var parts := Split(piece, '=');
    (parts[0], Join(parts[1..], "="))
  }

  function PairsOf(pieces: seq<string>): (ps: seq<(string, string)>)
    ensures |ps| == |pieces|
    decreases |pieces|
  {
    if |pieces| == 0 then [] else [PairOf(pieces[0])] + PairsOf(pieces[1..])
  }

  /** How the server reads a query string back into its pairs. */
  function ParseQuery(q: string): seq<(string, string)> {
    if q == "" then [] else PairsOf(Split(q, '&'))
  }

  /** `c.req.query(key)`: the first value given for the key. */
  function Lookup(pairs: seq<(string, string)>, key: string): Option<string>
    decreases |pairs|
  {
    if |pairs| == 0 then None
    else if pairs[0].0 == key then Some(pairs[0].1)
    else Lookup(pairs[1..], key)
  }

  /** `getEmails`' query builder, one conditional append after another. */
  method BuildQuery(o: ListOptions) returns (params: seq<(string, string)>)
    ensures params == QueryParams(o)
  {
    params := [];
    if Present(o.kind) {
      params := params + [("type", o.kind.value)];
    }
    if TruthyNumber(o.limit) {
      params := params + [("limit", IntToString(o.limit.value))];
    }
    if TruthyNumber(o.offset) {
      params := params + [("offset", IntToString(o.offset.value))];
    }
    if o.unread {
      params := params + [("unread", "true")];
    }
    if o.starred {
      params := params + [("starred", "true")];
    }
  }

  /** The list endpoint is bare `/emails` iff no option is truthy. */
  lemma BareEndpointIff(o: ListOptions)
    ensures EmailsEndpoint(o) == "/emails" <==>
      !Present(o.kind) && !TruthyNumber(o.limit) && !TruthyNumber(o.offset) && !o.unread && !o.starred
  {
    var params := QueryParams(o);
    if |params| > 0 {
      JoinNonEmpty(Pieces(params), "&");
    }
  }

  lemma NatPlain(n: nat)
    ensures Plain(NatToString(n))
  {
  }

  lemma IntPlain(n: int)
    ensures Plain(IntToString(n))
  {
    if n < 0 {
      NatPlain(-n);
      var s := IntToString(n);
      assert s == "-" + NatToString(-n);
      forall i | 0 <= i < |s|
        ensures PlainChar(s[i])
      {
        if i > 0 {
          assert s[i] == NatToString(-n)[i - 1];
        }
      }
    } else {
      NatPlain(n);
    }
  }

  /** A plain string holds neither `=` nor `&`. */
  lemma PlainHasNoSeparators(s: string)
    requires Plain(s)
    ensures '=' !in s && '&' !in s
  {
    forall i | 0 <= i < |s|
      ensures s[i] != '=' && s[i] != '&'
    {
      assert PlainChar(s[i]);
    }
  }

  /** A piece with a plain key and value reads back as that pair. */
  lemma PairRoundTrip(k: string, v: string)
    requires Plain(k) && Plain(v)
    ensures PairOf(k + "=" + v) == (k, v)
  {
    PlainHasNoSeparators(k);
    PlainHasNoSeparators(v);
    assert k + "=" + v == k + ['='] + v;
    SplitAfterFirst(k, v, '=');
    SplitWithout(v, '=');
    assert Split(k + "=" + v, '=') == [k, v];
  }

  lemma {:induction false} PairsRoundTrip(params: seq<(string, string)>)
    requires forall i :: 0 <= i < |params| ==> Plain(params[i].0) && Plain(params[i].1)
    ensures PairsOf(Pieces(params)) == params
    decreases |params|
  {
    if |params| > 0 {
      PairRoundTrip(params[0].0, params[0].1);
      PairsRoundTrip(params[1..]);
      assert Pieces(params)[1..] == Pieces(params[1..]);
    }
  }

  /** A piece of plain key and value holds no `&`. */
  lemma NoAmpersand(k: string, v: string)
    requires Plain(k) && Plain(v)
    ensures '&' !in k + "=" + v
  {
    PlainHasNoSeparators(k);
    PlainHasNoSeparators(v);
    var s := k + "=" + v;
    forall i | 0 <= i < |s|
      ensures s[i] != '&'
    {
      if i < |k| {
        assert s[i] == k[i];
      } else if i > |k| {
        assert s[i] == v[i - |k| - 1];
      }
    }
  }

  /** The server reads back from the query string exactly the pairs the client appended. */
  lemma QueryRoundTrip(params: seq<(string, string)>)
    requires forall i :: 0 <= i < |params| ==> Plain(params[i].0) && Plain(params[i].1) && params[i].0 != ""
    ensures ParseQuery(QueryString(params)) == params
  {
    var ps := Pieces(params);
    if |params| == 0 {
      assert QueryString(params) == "";
    } else {
      JoinNonEmpty(ps, "&");
      forall i | 0 <= i < |ps|
        ensures '&' !in ps[i]
      {
        NoAmpersand(params[i].0, params[i].1);
      }
      SplitJoin(ps, '&');
      PairsRoundTrip(params);
    }
  }

  /** The list request the worker sees for a query string. */
  function ServerView(pairs: seq<(string, string)>): EmailsApi.ListRequest {
    EmailsApi.ListRequest(Lookup(pairs, "type"), Lookup(pairs, "limit"), Lookup(pairs, "offset"), Lookup(pairs, "unread"), Lookup(pairs, "starred"))
  }

  lemma {:induction false} LookupAppend(a: seq<(string, string)>, b: seq<(string, string)>, key: string)
    ensures Lookup(a + b, key) == if Lookup(a, key).Some? then Lookup(a, key) else Lookup(b, key)
    decreases |a|
  {
    if |a| == 0 {
      assert a + b == b;
    } else {
      assert (a + b)[0] == a[0];
      assert (a + b)[1..] == a[1..] + b;
      LookupAppend(a[1..], b, key);
    }
  }

  /** Each name the builder uses is found with the value of its own option. */
  lemma LookupParams(o: ListOptions, key: string)
    ensures Lookup(QueryParams(o), key) ==
      if key == "type" && Present(o.kind) then o.kind
      else if key == "limit" && TruthyNumber(o.limit) then Some(IntToString(o.limit.value))
      else if key == "offset" && TruthyNumber(o.offset) then Some(IntToString(o.offset.value))
      else if key == "unread" && o.unread then Some("true")
      else if key == "starred" && o.starred then Some("true")
      else None
  {
    var a := if Present(o.kind) then [("type", o.kind.value)] else [];
    var b := if TruthyNumber(o.limit) then [("limit", IntToString(o.limit.value))] else [];
    var c := if TruthyNumber(o.offset) then [("offset", IntToString(o.offset.value))] else [];
    var d := if o.unread then [("unread", "true")] else [];
    var e := if o.starred then [("starred", "true")] else [];
    assert QueryParams(o) == a + b + c + d + e;
    LookupAppend(a + b + c + d, e, key);
    LookupAppend(a + b + c, d, key);
    LookupAppend(a + b, c, key);
    LookupAppend(a, b, key);
  }

  lemma QueryParamsPlain(o: ListOptions)
    requires o.kind.Some? ==> Plain(o.kind.value)
    ensures forall i :: 0 <= i < |QueryParams(o)| ==> Plain(QueryParams(o)[i].0) && Plain(QueryParams(o)[i].1) && QueryParams(o)[i].0 != ""
  {
    var p1 := if Present(o.kind) then [("type", o.kind.value)] else [];
    var p2 := if TruthyNumber(o.limit) then [("limit", IntToString(o.limit.value))] else [];
    var p3 := if TruthyNumber(o.offset) then [("offset", IntToString(o.offset.value))] else [];
    var p4 := if o.unread then [("unread", "true")] else [];
    var p5 := if o.starred then [("starred", "true")] else [];
    if o.limit.Some? {
      IntPlain(o.limit.value);
    }
    if o.offset.Some? {
      IntPlain(o.offset.value);
    }
    NamesPlain();
    if Present(o.kind) { PlainPair("type", o.kind.value); }
    if TruthyNumber(o.limit) { PlainPair("limit", IntToString(o.limit.value)); }
    if TruthyNumber(o.offset) { PlainPair("offset", IntToString(o.offset.value)); }
    if o.unread { PlainPair("unread", "true"); }
    if o.starred { PlainPair("starred", "true"); }
    PlainParamsAppend(p1, p2);
    PlainParamsAppend(p1 + p2, p3);
    PlainParamsAppend(p1 + p2 + p3, p4);
    PlainParamsAppend(p1 + p2 + p3 + p4, p5);
    assert QueryParams(o) == p1 + p2 + p3 + p4 + p5;
  }

  /** Every name and value is plain, and no name is empty. */
  predicate PlainParams(ps: seq<(string, string)>) {
    forall i :: 0 <= i < |ps| ==> Plain(ps[i].0) && Plain(ps[i].1) && ps[i].0 != ""
  }

  lemma PlainPair(name: string, value: string)
    requires Plain(name) && Plain(value) && name != ""
    ensures PlainParams([(name, value)])
  {
  }

  /** The option names and `true` are written as they are. */
  lemma NamesPlain()
    ensures Plain("type") && Plain("limit") && Plain("offset") && Plain("unread") && Plain("starred") && Plain("true")
  {
    assert Plain("type");
    assert Plain("limit");
    assert Plain("offset");
    assert Plain("unread");
    assert Plain("starred");
    assert Plain("true");
  }

  lemma PlainParamsAppend(a: seq<(string, string)>, b: seq<(string, string)>)
    requires PlainParams(a) && PlainParams(b)
    ensures PlainParams(a + b)
  {
    forall i | 0 <= i < |a + b|
      ensures Plain((a + b)[i].0) && Plain((a + b)[i].1) && (a + b)[i].0 != ""
    {
      if i < |a| {
        assert (a + b)[i] == a[i];
      } else {
        assert (a + b)[i] == b[i - |a|];
      }
    }
  }

  /**
   * What the client asks for is what the worker reads: each truthy option arrives under its own
   * name with its value, every other one is absent, and a positive limit parses back to itself.
   */
  lemma WorkerReadsOptions(o: ListOptions)
    requires o.kind.Some? ==> Plain(o.kind.value)
    ensures var q := ServerView(ParseQuery(QueryString(QueryParams(o))));
      q == EmailsApi.ListRequest(
        if Present(o.kind) then o.kind else None,
        if TruthyNumber(o.limit) then Some(IntToString(o.limit.value)) else None,
        if TruthyNumber(o.offset) then Some(IntToString(o.offset.value)) else None,
        if o.unread then Some("true") else None,
        if o.starred then Some("true") else None)
    ensures o.limit.Some? && o.limit.value > 0 ==>
      EmailsApi.ListLimit(ServerView(ParseQuery(QueryString(QueryParams(o))))) == Some(o.limit.value)
  {
    QueryParamsPlain(o);
    QueryRoundTrip(QueryParams(o));
    LookupParams(o, "type");
    LookupParams(o, "limit");
    LookupParams(o, "offset");
    LookupParams(o, "unread");
    LookupParams(o, "starred");
    if o.limit.Some? && o.limit.value > 0 {
      EmailsApi.ParseIntNatToString(o.limit.value);
      assert IntToString(o.limit.value) != "";
    }
  }

  /** `getAttachmentUrl`. */
  function AttachmentUrl(emailId: string, attachmentId: string): string {
    ApiBase + "/emails/" + emailId + "/attachments/" + attachmentId
  }

  /** For ids that are non-empty path segments, the attachment URL reaches the worker's download route. */
  lemma AttachmentUrlRoutes(emailId: string, attachmentId: string)
    requires emailId != "" && attachmentId != "" && '/' !in emailId && '/' !in attachmentId
    ensures Routes.RouteOf("GET", AttachmentUrl(emailId, attachmentId)) ==
      Some(Routes.Route("emails", Routes.Endpoint("GET", [Routes.Param, Routes.Lit("attachments"), Routes.Param])))
  {
    AttachmentUrlSegments(emailId, attachmentId);
    assert Routes.GroupAt(Routes.Api, "emails", 2) == Some(2);
    assert Routes.GroupAt(Routes.Api, "emails", 0) == Some(2);
    var rest := [emailId, "attachments", attachmentId];
    assert Routes.Matches(Routes.EmailRoutes[4], "GET", rest);
    assert Routes.FirstMatch(Routes.EmailRoutes, "GET", rest, 0) == Some(4);
  }

  lemma AttachmentUrlSegments(emailId: string, attachmentId: string)
    requires '/' !in emailId && '/' !in attachmentId
    ensures Routes.Segments(AttachmentUrl(emailId, attachmentId)) == Some(["emails", emailId, "attachments", attachmentId])
  {
    var url := AttachmentUrl(emailId, attachmentId);
    var tail := "attachments" + ['/'] + attachmentId;
    var mid := emailId + ['/'] + tail;
    var below := "emails" + ['/'] + mid;
    assert url == Routes.ApiPrefix + below;
    assert url[..|Routes.ApiPrefix|] == Routes.ApiPrefix;
    assert url[|Routes.ApiPrefix|..] == below;
    SplitWithout(attachmentId, '/');
    SplitAfterFirst("attachments", attachmentId, '/');
    assert Split(tail, '/') == ["attachments", attachmentId];
    SplitAfterFirst(emailId, tail, '/');
    assert Split(mid, '/') == [emailId, "attachments", attachmentId];
    SplitAfterFirst("emails", mid, '/');
    assert Split(below, '/') == ["emails", emailId, "attachments", attachmentId];
  }

  // ------------------------------------------------------------------ the client

  const LoginEndpoint: string := "/auth/login"
  const SetupEndpoint: string := "/auth/setup"
  const LogoutEndpoint: string := "/auth/logout"

  function PasswordBody(password: string): Json {
    JObj([("password", JStr(password))])
  }

  /** The client object: the token field and the storage it persists to. */
  class Client {
    var token: Option<string>
    var storage: map<string, string>

    function State(): Session
      reads this
    {
      Session(token, storage)
    }

    constructor(storage: map<string, string>)
      ensures State() == Restored(storage)
    {
      this.storage := storage;
      token := if TokenKey in storage then Some(storage[TokenKey]) else None;
    }

    method SetToken(t: Option<string>)
      modifies this
      ensures State() == WithToken(old(State()), t)
    {
      token := t;
      if Present(t) {
        storage := storage[TokenKey := t.value];
      } else {
        storage := storage - {TokenKey};
      }
    }

    method GetToken() returns (t: Option<string>)
      ensures t == token
    {
      t := token;
    }

    /** `request`: the request sent with the current token, and its outcome; `respond` is the network. */
    method Send(verb: string, endpoint: string, body: Option<Json>, respond: Request -> Response)
      returns (req: Request, r: Result<Json, Failure>)
      ensures req == BuildRequest(token, verb, endpoint, body)
      ensures r == Outcome(respond(req))
    {
      var headers := [("Content-Type", "application/json")];
      if Present(token) {
        headers := headers + [("Authorization", "Bearer " + token.value)];
      }
      req := Request(verb, ApiBase + endpoint, headers, if Truthy(body) then body else None);
      var resp := respond(req);
      if resp.data.None? {
        return req, Err(NotJson);
      }
      if !resp.ok {
        if resp.data.value == JNull {
          return req, Err(Thrown(NullErrorRead));
        }
        return req, Err(Thrown(ErrorMessage(resp.data.value)));
      }
      r := Ok(resp.data.value);
    }

    /** `login` (and, with the setup endpoint, `setup`): post the password, keep the token handed out. */
    method Authenticate(endpoint: string, password: string, respond: Request -> Response)
      returns (req: Request, r: Result<Json, Failure>)
      modifies this
      ensures req == BuildRequest(old(token), "POST", endpoint, Some(PasswordBody(password)))
      ensures r == Outcome(respond(req))
      ensures State() == AfterAuth(old(State()), r)
    {
      req, r := Send("POST", endpoint, Some(PasswordBody(password)), respond);
      if r.Ok? && TokenOf(r.value).Some? {
        SetToken(TokenOf(r.value));
      }
    }

    method Logout(respond: Request -> Response) returns (req: Request, r: Result<Json, Failure>)
      modifies this
      ensures req == BuildRequest(old(token), "POST", LogoutEndpoint, None)
      ensures r == Outcome(respond(req))
      ensures State() == AfterLogout(old(State()), r)
    {
      req, r := Send("POST", LogoutEndpoint, None, respond);
      if r.Ok? {
        SetToken(None);
      }
    }

    method GetEmails(o: ListOptions, respond: Request -> Response) returns (req: Request, r: Result<Json, Failure>)
      ensures req == BuildRequest(token, "GET", EmailsEndpoint(o), None)
      ensures r == Outcome(respond(req))
    {
      var params := BuildQuery(o);
      var query := QueryString(params);
      var endpoint := "/emails" + (if query != "" then "?" + query else "");
      req, r := Send("GET", endpoint, None, respond);
    }
  }
}
