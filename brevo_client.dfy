/**
 * `BrevoClient`: every call is one request to the Brevo base URL followed by the endpoint, carrying
 * the configured key in the `api-key` header. The answer's text is parsed when there is any, and a
 * response that is not ok becomes a thrown error whose message comes from the answer or, failing
 * that, from the status text.
 */
module BrevoClient {
  import opened Wrappers
  import opened Json
  import opened Text

  const BaseUrl: string := "https://api.brevo.com/v3"
  const ErrorPrefix: string := "Brevo API error: "

  /** The client's only configuration. */
  datatype Config = Config(apiKey: string)

  /** One `fetch`: the method, the URL, the headers and the body value `JSON.stringify` serialises. */
  datatype Request = Request(verb: string, url: string, headers: seq<(string, string)>, body: Option<Json>)

  /** What `fetch` answers: `response.ok`, `response.statusText` and the text of the body. */
  datatype Response = Response(ok: bool, statusText: string, text: string)

  function Headers(c: Config): (hs: seq<(string, string)>)
    ensures |hs| == 3 && hs[0] == ("api-key", c.apiKey)
  {
    [("api-key", c.apiKey), ("Content-Type", "application/json"), ("Accept", "application/json")]
  }

  /** A body is serialised only when it is truthy and the method carries one. */
  predicate SendsBody(verb: string, body: Option<Json>) {
    Truthy(body) && (verb == "POST" || verb == "PUT" || verb == "PATCH")
  }

  function BuildRequest(c: Config, verb: string, endpoint: string, body: Option<Json>): (r: Request)
    ensures StartsWith(r.url, BaseUrl) && r.url[|BaseUrl|..] == endpoint
    ensures r.verb == verb && r.headers == Headers(c)
    ensures r.body.Some? <==> SendsBody(verb, body)
    ensures r.body.Some? ==> r.body == body
  {
    Request(verb, BaseUrl + endpoint, Headers(c), if SendsBody(verb, body) then body else None)
  }

  /**
   * The parsed answer: null (`JNull`) for an empty text, without parsing it, and null as well when
   * `parse` (the model of `JSON.parse`) rejects the text.
   */
  function Data(text: string, parse: string -> Option<Json>): (data: Json)
    ensures text == "" ==> data == JNull
    ensures text != "" && parse(text).None? ==> data == JNull
    ensures text != "" && parse(text).Some? ==> data == parse(text).value
  {
    if text == "" then JNull
    else match parse(text)
      case None => JNull
      case Some(v) => v
  }

  /** `errorData?.message || response.statusText`, for a message that is a string. */
  function ErrorMessage(data: Json, statusText: string): string {
    match Member(data, "message")
    case Some(JStr(m)) => if m != "" then m else statusText
    case _ => statusText
  }

  /** `request` once the answer is in: the parsed data when the response is ok, else the thrown message. */
  function Outcome(resp: Response, parse: string -> Option<Json>): (r: Result<Json, string>)
    ensures r.Ok? <==> resp.ok
    ensures r.Ok? ==> r.value == Data(resp.text, parse)
    ensures r.Err? ==> StartsWith(r.error, ErrorPrefix) && r.error[|ErrorPrefix|..] == ErrorMessage(Data(resp.text, parse), resp.statusText)
  {
    var data := Data(resp.text, parse);
    if !resp.ok then Err(ErrorPrefix + ErrorMessage(data, resp.statusText)) else Ok(data)
  }

  /** `request`: the request sent and its outcome; `respond` is the network. */
  function Call(c: Config, verb: string, endpoint: string, body: Option<Json>, respond: Request -> Response, parse: string -> Option<Json>)
    : (r: (Request, Result<Json, string>))
    ensures r.0 == BuildRequest(c, verb, endpoint, body)
    ensures r.1 == Outcome(respond(r.0), parse)
  {
    var req := BuildRequest(c, verb, endpoint, body);
    (req, Outcome(respond(req), parse))
  }

  function Get(c: Config, endpoint: string, respond: Request -> Response, parse: string -> Option<Json>): (Request, Result<Json, string>) {
    Call(c, "GET", endpoint, None, respond, parse)
  }

  function Post(c: Config, endpoint: string, body: Option<Json>, respond: Request -> Response, parse: string -> Option<Json>): (Request, Result<Json, string>) {
    Call(c, "POST", endpoint, body, respond, parse)
  }

  function Put(c: Config, endpoint: string, body: Option<Json>, respond: Request -> Response, parse: string -> Option<Json>): (Request, Result<Json, string>) {
    Call(c, "PUT", endpoint, body, respond, parse)
  }

  function Delete(c: Config, endpoint: string, respond: Request -> Response, parse: string -> Option<Json>): (Request, Result<Json, string>) {
    Call(c, "DELETE", endpoint, None, respond, parse)
  }

  /** `getApiKey`. */
  function ApiKey(c: Config): string {
    c.apiKey
  }

  // ------------------------------------------------------------------ properties

  /** Every request, whatever its method, carries the configured key and goes to the base URL. */
  lemma KeyOnEveryRequest(c: Config, verb: string, endpoint: string, body: Option<Json>)
    ensures var r := BuildRequest(c, verb, endpoint, body);
      ("api-key", ApiKey(c)) in r.headers && r.url == BaseUrl + endpoint
  {
    var r := BuildRequest(c, verb, endpoint, body);
    assert r.headers[0] == ("api-key", c.apiKey);
  }

  /** GET and DELETE never send a body, and a falsy body is never sent by any method. */
  lemma NoBodyCases(c: Config, verb: string, endpoint: string, body: Option<Json>)
    ensures !Truthy(body) ==> BuildRequest(c, verb, endpoint, body).body.None?
    ensures BuildRequest(c, "GET", endpoint, body).body.None?
    ensures BuildRequest(c, "DELETE", endpoint, body).body.None?
  {
  }

  /** An empty answer is never handed to the parser: any two parsers give the same null. */
  lemma EmptyTextNotParsed(resp: Response, p1: string -> Option<Json>, p2: string -> Option<Json>)
    requires resp.text == ""
    ensures Outcome(resp, p1) == Outcome(resp, p2)
    ensures resp.ok ==> Outcome(resp, p1) == Ok(JNull)
  {
  }

  /** An ok answer that is not JSON is null data, not an error. */
  lemma UnparseableOkIsNull(resp: Response, parse: string -> Option<Json>)
    requires resp.ok && parse(resp.text).None?
    ensures Outcome(resp, parse) == Ok(JNull)
  {
  }

  /**
   * A failed answer throws the provider's message when it carries a non-empty one, and the status
   * text otherwise (null data, a missing or empty message included).
   */
  lemma ErrorText(resp: Response, parse: string -> Option<Json>)
    requires !resp.ok
    ensures var data := Data(resp.text, parse);
      var msg := Member(data, "message");
      (msg.Some? && msg.value.JStr? && msg.value.s != "" ==> Outcome(resp, parse) == Err(ErrorPrefix + msg.value.s)) &&
      (!(msg.Some? && msg.value.JStr? && msg.value.s != "") ==> Outcome(resp, parse) == Err(ErrorPrefix + resp.statusText)) &&
      (data == JNull ==> Outcome(resp, parse) == Err(ErrorPrefix + resp.statusText))
  {
  }

  /** The four verbs are `request` with the matching method; the body-less ones never send a body. */
  lemma VerbsDelegate(c: Config, endpoint: string, body: Option<Json>, respond: Request -> Response, parse: string -> Option<Json>)
    ensures Get(c, endpoint, respond, parse).0.verb == "GET" && Get(c, endpoint, respond, parse).0.body.None?
    ensures Post(c, endpoint, body, respond, parse) == Call(c, "POST", endpoint, body, respond, parse)
    ensures Post(c, endpoint, body, respond, parse).0.body == (if Truthy(body) then body else None)
    ensures Put(c, endpoint, body, respond, parse).0.verb == "PUT"
    ensures Delete(c, endpoint, respond, parse).0.verb == "DELETE" && Delete(c, endpoint, respond, parse).0.body.None?
  {
  }
}
