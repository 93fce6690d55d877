/**
 * `CloudflareClient`: every call is one request to the base URL followed by the endpoint, with the
 * bearer key; the answer's envelope is returned whole when `success` holds and turned into a thrown
 * error otherwise, whatever the HTTP status.
 */
module CloudflareClient {
  import opened Wrappers
  import opened Json
  import opened Text
  import opened CloudflareService

  const BaseUrl: string := "https://api.cloudflare.com/client/v4"
  const ErrorPrefix: string := "Cloudflare API error: "

  /** The client's credentials, fixed at construction. */
  datatype Config = Config(apiKey: string, accountId: string)

  function Headers(c: Config): seq<(string, string)> {
    [("Authorization", "Bearer " + c.apiKey), ("Content-Type", "application/json")]
  }

  /** A body is serialised only when it is truthy and the method carries one. */
  predicate SendsBody(m: Method, body: Option<Json>) {
    Truthy(body) && (m == POST || m == PUT || m == PATCH)
  }

  function BuildRequest(c: Config, m: Method, endpoint: string, body: Option<Json>): (r: Request)
    ensures StartsWith(r.url, BaseUrl) && r.url[|BaseUrl|..] == endpoint
    ensures r.verb == m && r.headers == Headers(c)
    ensures r.body.Some? <==> SendsBody(m, body)
    ensures r.body.Some? ==> r.body == body
  {
    Request(m, BaseUrl + endpoint, Headers(c), if SendsBody(m, body) then body else None)
  }

  function Messages(errors: seq<ApiError>): (ms: seq<string>)
    ensures |ms| == |errors|
    ensures forall i :: 0 <= i < |errors| ==> ms[i] == errors[i].message
  {
    seq(|errors|, i requires 0 <= i < |errors| => errors[i].message)
  }

  /** The envelope check: the whole envelope on success, else the joined error messages. */
  function Check<T>(status: nat, env: Envelope<T>): (r: Result<Envelope<T>, string>)
    ensures r.Ok? <==> env.success
    ensures r.Ok? ==> r.value == env
    ensures r.Err? ==> StartsWith(r.error, ErrorPrefix) && r.error[|ErrorPrefix|..] == Join(Messages(env.errors), ", ")
  {
    if !env.success then Err(ErrorPrefix + Join(Messages(env.errors), ", ")) else Ok(env)
  }

  /** The status the provider answers with; the check never looks at it. */
  function StatusOf<T>(env: Envelope<T>): nat {
    if env.success then 200 else 400
  }

  /** `request`: send, then check the envelope. */
  function Call<T>(c: Config, svc: Service, m: Method, endpoint: string, body: Option<Json>, answer: T, next: Service)
    : (r: (Result<Envelope<T>, string>, Service))
    ensures r.1.log == svc.log + [BuildRequest(c, m, endpoint, body)]
    ensures r.1.broken == svc.broken && r.1.errors == svc.errors
    ensures r.0.Ok? <==> BaseUrl + endpoint !in svc.broken
    ensures r.0.Ok? ==> r.0.value.result == answer && r.1 == next.(log := r.1.log, broken := svc.broken, errors := svc.errors)
    ensures r.0.Err? ==> r.1 == svc.(log := r.1.log) && r.0.error == ErrorPrefix + Join(Messages(svc.errors), ", ")
  {
    var req := BuildRequest(c, m, endpoint, body);
    var (env, svc1) := Respond(svc, req, answer, next);
    (Check(StatusOf(env), env), svc1)
  }

  function Get<T>(c: Config, svc: Service, endpoint: string, answer: T, next: Service): (Result<Envelope<T>, string>, Service) {
    Call(c, svc, GET, endpoint, None, answer, next)
  }

  function Post<T>(c: Config, svc: Service, endpoint: string, body: Option<Json>, answer: T, next: Service): (Result<Envelope<T>, string>, Service) {
    Call(c, svc, POST, endpoint, body, answer, next)
  }

  function Put<T>(c: Config, svc: Service, endpoint: string, body: Option<Json>, answer: T, next: Service): (Result<Envelope<T>, string>, Service) {
    Call(c, svc, PUT, endpoint, body, answer, next)
  }

  function Patch<T>(c: Config, svc: Service, endpoint: string, body: Option<Json>, answer: T, next: Service): (Result<Envelope<T>, string>, Service) {
    Call(c, svc, PATCH, endpoint, body, answer, next)
  }

  function Delete<T>(c: Config, svc: Service, endpoint: string, answer: T, next: Service): (Result<Envelope<T>, string>, Service) {
    Call(c, svc, DELETE, endpoint, None, answer, next)
  }

  /** `getAccountId`. */
  function AccountId(c: Config): string {
    c.accountId
  }

  // ------------------------------------------------------------------ properties

  /** `success = false` throws whatever the HTTP status; `success = true` passes the envelope through. */
  lemma CheckIgnoresStatus<T>(s1: nat, s2: nat, env: Envelope<T>)
    ensures Check(s1, env) == Check(s2, env)
    ensures env.success ==> Check(s1, env) == Ok(env)
  {
  }

  /** With an empty error list the thrown text is the bare prefix. */
  lemma EmptyErrorList<T>(status: nat, env: Envelope<T>)
    requires !env.success && env.errors == []
    ensures Check(status, env) == Err(ErrorPrefix)
  {
    assert Messages(env.errors) == [];
    assert ErrorPrefix + "" == ErrorPrefix;
  }

  /** The messages can be read back from the thrown text when none of them contains a comma. */
  lemma MessagesReadBack<T>(status: nat, env: Envelope<T>)
    requires !env.success && |env.errors| > 0
    requires forall i :: 0 <= i < |env.errors| ==> ',' !in env.errors[i].message
    ensures var e := Check(status, env).error[|ErrorPrefix|..];
      |Split(e, ',')| == |env.errors|
  {
    var ms := Messages(env.errors);
    var e := Join(ms, ", ");
    assert Check(status, env).error[|ErrorPrefix|..] == e;
    JoinCommaCount(ms);
    SplitPieces(e, ',');
  }

  lemma {:induction false} JoinCommaCount(ms: seq<string>)
    requires |ms| > 0
    requires forall i :: 0 <= i < |ms| ==> ',' !in ms[i]
    ensures Count(Join(ms, ", "), ',') == |ms| - 1
    decreases |ms|
  {
    CountAbsent(ms[0], ',');
    if |ms| > 1 {
      JoinCommaCount(ms[1..]);
      assert Join(ms, ", ") == ms[0] + (", " + Join(ms[1..], ", "));
      CountAppend(ms[0], ", " + Join(ms[1..], ", "), ',');
      CountAppend(", ", Join(ms[1..], ", "), ',');
      CountFirst(", ", ',');
      CountAbsent(" ", ',');
      assert ", "[1..] == " ";
    } else {
      assert Join(ms, ", ") == ms[0];
    }
  }

  /** The five verbs are `request` with the matching method; the body-less ones never send a body. */
  lemma VerbsDelegate<T>(c: Config, svc: Service, endpoint: string, body: Option<Json>, answer: T, next: Service)
    ensures Get(c, svc, endpoint, answer, next).1.log[|svc.log|].verb == GET
    ensures Get(c, svc, endpoint, answer, next).1.log[|svc.log|].body.None?
    ensures Post(c, svc, endpoint, body, answer, next).1.log[|svc.log|].verb == POST
    ensures Put(c, svc, endpoint, body, answer, next).1.log[|svc.log|].verb == PUT
    ensures Patch(c, svc, endpoint, body, answer, next).1.log[|svc.log|].verb == PATCH
    ensures Delete(c, svc, endpoint, answer, next).1.log[|svc.log|].verb == DELETE
    ensures Delete(c, svc, endpoint, answer, next).1.log[|svc.log|].body.None?
  {
  }
}
