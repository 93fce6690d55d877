/**
 * `MessagesAPI`: the Brevo send call. `send` builds the `/smtp/email` payload field by field,
 * adding each optional field only when the option carries something, posts it, and answers with
 * the provider's message id. `sendText` and `sendHtml` wrap plain strings into addresses first.
 */
module BrevoMessages {
  import opened Wrappers
  import opened Json
  import opened Text
  import BrevoClient

  datatype EmailAddress = EmailAddress(email: string, name: Option<string>)

  /** An attachment as `send` takes it; `content` is base64 text. */
  datatype Attachment = Attachment(name: string, content: string, contentType: Option<string>)

  /** `SendMessageOptions`; an absent optional field is None. */
  datatype SendOptions = SendOptions(
    from: EmailAddress,
    to: seq<EmailAddress>,
    cc: Option<seq<EmailAddress>>,
    bcc: Option<seq<EmailAddress>>,
    subject: string,
    text: Option<string>,
    html: Option<string>,
    attachments: Option<seq<Attachment>>,
    headers: Option<seq<(string, string)>>,
    tags: Option<seq<string>>,
    replyTo: Option<EmailAddress>)

  /** `SendResponse`; the message id is None when the answer carries no string id. */
  datatype SendResponse = SendResponse(success: bool, messageId: Option<string>)

  /** A recipient given to `sendText`/`sendHtml`: a bare address or an address object. */
  datatype Recipient = Plain(address: string) | Object(value: EmailAddress)

  /** One recipient or a list of them. */
  datatype Recipients = One(single: Recipient) | Many(list: seq<Recipient>)

  const SendEndpoint: string := "/smtp/email"

  /** The text of the `TypeError` thrown when the provider's answer is null and `messageId` is read from it. */
  const NullAnswerError: string := "Cannot read properties of null (reading 'messageId')"

  // ------------------------------------------------------------------ JSON forms

  /** An address object as `JSON.stringify` writes it; an absent name is left out. */
  function AddressJson(a: EmailAddress): Json {
    JObj((if a.name.Some? then [("name", JStr(a.name.value))] else []) + [("email", JStr(a.email))])
  }

  function AddressList(xs: seq<EmailAddress>): (j: Json)
    ensures j.JArr? && |j.items| == |xs|
    ensures forall i :: 0 <= i < |xs| ==> j.items[i] == AddressJson(xs[i])
  {
    JArr(seq(|xs|, i requires 0 <= i < |xs| => AddressJson(xs[i])))
  }

  /** The mapped attachment `{ name, content, contentType }`; an absent content type is left out. */
  function AttachmentJson(a: Attachment): Json {
    JObj([("name", JStr(a.name)), ("content", JStr(a.content))] +
         (if a.contentType.Some? then [("contentType", JStr(a.contentType.value))] else []))
  }

  function AttachmentList(xs: seq<Attachment>): (j: Json)
    ensures j.JArr? && |j.items| == |xs|
    ensures forall i :: 0 <= i < |xs| ==> j.items[i] == AttachmentJson(xs[i])
  {
    JArr(seq(|xs|, i requires 0 <= i < |xs| => AttachmentJson(xs[i])))
  }

  function HeadersJson(hs: seq<(string, string)>): Json {
    JObj(seq(|hs|, i requires 0 <= i < |hs| => (hs[i].0, JStr(hs[i].1))))
  }

  /** An optional array option is used only when it is present and non-empty. */
  predicate NonEmpty<T>(xs: Option<seq<T>>) {
    xs.Some? && |xs.value| > 0
  }

  // ------------------------------------------------------------------ the payload

  /**
   * The `payload` record: the three fields it starts with, and each optional field None until
   * `send` assigns it.
   */
  datatype Payload = Payload(
    sender: Json,
    to: Json,
    subject: Json,
    cc: Option<Json>,
    bcc: Option<Json>,
    textContent: Option<Json>,
    htmlContent: Option<Json>,
    replyTo: Option<Json>,
    attachment: Option<Json>,
    headers: Option<Json>,
    tags: Option<Json>)

  /** A field `JSON.stringify` writes when it is assigned. */
  function Field(name: string, v: Option<Json>): seq<(string, Json)> {
    if v.Some? then [(name, v.value)] else []
  }

  /** The posted JSON: the assigned fields in the order `send` assigns them. */
  function PayloadJson(p: Payload): Json {
    JObj([("sender", p.sender), ("to", p.to), ("subject", p.subject)] +
         Field("cc", p.cc) + Field("bcc", p.bcc) + Field("textContent", p.textContent) +
         Field("htmlContent", p.htmlContent) + Field("replyTo", p.replyTo) + Field("attachment", p.attachment) +
         Field("headers", p.headers) + Field("tags", p.tags))
  }

  /** The payload `send` builds from the options. */
  function PayloadOf(o: SendOptions): (p: Payload)
    ensures p.sender == AddressJson(o.from) && p.to == AddressList(o.to) && p.subject == JStr(o.subject)
    ensures p.cc == (if NonEmpty(o.cc) then Some(AddressList(o.cc.value)) else None)
    ensures p.bcc == (if NonEmpty(o.bcc) then Some(AddressList(o.bcc.value)) else None)
    ensures p.textContent == (if Present(o.text) then Some(JStr(o.text.value)) else None)
    ensures p.htmlContent == (if Present(o.html) then Some(JStr(o.html.value)) else None)
    ensures p.replyTo == (if o.replyTo.Some? then Some(AddressJson(o.replyTo.value)) else None)
    ensures p.attachment == (if NonEmpty(o.attachments) then Some(AttachmentList(o.attachments.value)) else None)
    ensures p.headers == (if o.headers.Some? then Some(HeadersJson(o.headers.value)) else None)
    ensures p.tags == (if NonEmpty(o.tags) then Some(StrArr(o.tags.value)) else None)
  {
    Payload(AddressJson(o.from), AddressList(o.to), JStr(o.subject),
      if NonEmpty(o.cc) then Some(AddressList(o.cc.value)) else None,
      if NonEmpty(o.bcc) then Some(AddressList(o.bcc.value)) else None,
      if Present(o.text) then Some(JStr(o.text.value)) else None,
      if Present(o.html) then Some(JStr(o.html.value)) else None,
      if o.replyTo.Some? then Some(AddressJson(o.replyTo.value)) else None,
      if NonEmpty(o.attachments) then Some(AttachmentList(o.attachments.value)) else None,
      if o.headers.Some? then Some(HeadersJson(o.headers.value)) else None,
      if NonEmpty(o.tags) then Some(StrArr(o.tags.value)) else None)
  }

  /** `send`'s construction of `payload`: the three fixed fields, then each optional one when it applies. */
  method BuildPayload(o: SendOptions) returns (payload: Payload)
    ensures payload == PayloadOf(o)
  {
    payload := Payload(AddressJson(o.from), AddressList(o.to), JStr(o.subject), None, None, None, None, None, None, None, None);
    if NonEmpty(o.cc) {
      payload := payload.(cc := Some(AddressList(o.cc.value)));
    }
    if NonEmpty(o.bcc) {
      payload := payload.(bcc := Some(AddressList(o.bcc.value)));
    }
    if Present(o.text) {
      payload := payload.(textContent := Some(JStr(o.text.value)));
    }
    if Present(o.html) {
      payload := payload.(htmlContent := Some(JStr(o.html.value)));
    }
    if o.replyTo.Some? {
      payload := payload.(replyTo := Some(AddressJson(o.replyTo.value)));
    }
    if NonEmpty(o.attachments) {
      var mapped := MapAttachments(o.attachments.value);
      payload := payload.(attachment := Some(mapped));
    }
    if o.headers.Some? {
      payload := payload.(headers := Some(HeadersJson(o.headers.value)));
    }
    if NonEmpty(o.tags) {
      payload := payload.(tags := Some(StrArr(o.tags.value)));
    }
  }

  /** `options.attachments.map(...)`: one mapped object per attachment, in order. */
  method MapAttachments(atts: seq<Attachment>) returns (j: Json)
    ensures j == AttachmentList(atts)
  {
    var items: seq<Json> := [];
    for i := 0 to |atts|
      invariant |items| == i
      invariant forall k :: 0 <= k < i ==> items[k] == AttachmentJson(atts[k])
    {
      items := items + [AttachmentJson(atts[i])];
    }
    j := JArr(items);
  }

  // ------------------------------------------------------------------ sending

  /** What `send` makes of the client's answer: its thrown error, the null read, or the message id. */
  function SendResult(answer: Result<Json, string>): (r: Result<SendResponse, string>)
    ensures r.Ok? <==> answer.Ok? && answer.value != JNull
    ensures r.Ok? ==> r.value.success && r.value.messageId == GetString(answer.value, "messageId")
    ensures answer.Err? ==> r == Err(answer.error)
  {
    match answer
    case Err(e) => Err(e)
    case Ok(JNull) => Err(NullAnswerError)
    case Ok(d) => Ok(SendResponse(true, GetString(d, "messageId")))
  }

  /** `send`: the request posted and what the call answers. */
  function Send(c: BrevoClient.Config, o: SendOptions, respond: BrevoClient.Request -> BrevoClient.Response, parse: string -> Option<Json>)
    : (BrevoClient.Request, Result<SendResponse, string>)
  {
    var (req, answer) := BrevoClient.Post(c, SendEndpoint, Some(PayloadJson(PayloadOf(o))), respond, parse);
    (req, SendResult(answer))
  }

  /** A string becomes `{ email: s }`; an object is kept as it is. */
  function Normalize(r: Recipient): EmailAddress {
    match r
    case Plain(s) => EmailAddress(s, None)
    case Object(a) => a
  }

  /** `normalizeRecipients`: a single value becomes a one-element list; every entry is normalised in order. */
  function NormalizeRecipients(rs: Recipients): (r: seq<EmailAddress>)
    ensures rs.One? ==> r == [Normalize(rs.single)]
    ensures rs.Many? ==> |r| == |rs.list| && forall i :: 0 <= i < |r| ==> r[i] == Normalize(rs.list[i])
  {
    var list := if rs.One? then [rs.single] else rs.list;
    seq(|list|, i requires 0 <= i < |list| => Normalize(list[i]))
  }

  /** The options `sendText` passes to `send`. */
  function TextOptions(from: Recipient, to: Recipients, subject: string, text: string): SendOptions {
    SendOptions(Normalize(from), NormalizeRecipients(to), None, None, subject, Some(text), None, None, None, None, None)
  }

  /** The options `sendHtml` passes to `send`; the text part is optional. */
  function HtmlOptions(from: Recipient, to: Recipients, subject: string, html: string, text: Option<string>): SendOptions {
    SendOptions(Normalize(from), NormalizeRecipients(to), None, None, subject, text, Some(html), None, None, None, None)
  }

  function SendText(c: BrevoClient.Config, from: Recipient, to: Recipients, subject: string, text: string,
                    respond: BrevoClient.Request -> BrevoClient.Response, parse: string -> Option<Json>)
    : (BrevoClient.Request, Result<SendResponse, string>)
  {
    Send(c, TextOptions(from, to, subject, text), respond, parse)
  }

  function SendHtml(c: BrevoClient.Config, from: Recipient, to: Recipients, subject: string, html: string, text: Option<string>,
                    respond: BrevoClient.Request -> BrevoClient.Response, parse: string -> Option<Json>)
    : (BrevoClient.Request, Result<SendResponse, string>)
  {
    Send(c, HtmlOptions(from, to, subject, html, text), respond, parse)
  }

  // ------------------------------------------------------------------ properties

  /** The three fixed fields come first, in order, whatever the options. */
  lemma PayloadStartsFixed(o: SendOptions)
    ensures var fields := PayloadJson(PayloadOf(o)).fields;
      |fields| >= 3 && fields[0] == ("sender", AddressJson(o.from)) && fields[1] == ("to", AddressList(o.to)) &&
      fields[2] == ("subject", JStr(o.subject))
  {
  }

  /** The posted object has between 3 and 11 fields: one per assigned field of the record. */
  lemma PayloadSize(o: SendOptions)
    ensures 3 <= |PayloadJson(PayloadOf(o)).fields| <= 11
    ensures (!NonEmpty(o.cc) && !NonEmpty(o.bcc) && !Present(o.text) && !Present(o.html) && o.replyTo.None? &&
             !NonEmpty(o.attachments) && o.headers.None? && !NonEmpty(o.tags)) ==> |PayloadJson(PayloadOf(o)).fields| == 3
  {
  }

  /** The post goes to `/smtp/email` with the payload as its body, and its answer decides the result. */
  lemma SendPostsPayload(c: BrevoClient.Config, o: SendOptions, respond: BrevoClient.Request -> BrevoClient.Response, parse: string -> Option<Json>)
    ensures var (req, r) := Send(c, o, respond, parse);
      req.verb == "POST" && req.url == BrevoClient.BaseUrl + SendEndpoint &&
      req.body == Some(PayloadJson(PayloadOf(o))) && ("api-key", c.apiKey) in req.headers &&
      r == SendResult(BrevoClient.Outcome(respond(req), parse))
  {
    var req := BrevoClient.BuildRequest(c, "POST", SendEndpoint, Some(PayloadJson(PayloadOf(o))));
    assert req.headers[0] == ("api-key", c.apiKey);
  }

  /** A failed post throws the client's error; an ok answer yields success with its message id. */
  lemma SendOutcome(c: BrevoClient.Config, o: SendOptions, respond: BrevoClient.Request -> BrevoClient.Response, parse: string -> Option<Json>)
    ensures var (req, r) := Send(c, o, respond, parse);
      var resp := respond(req);
      (!resp.ok ==> r.Err? && StartsWith(r.error, BrevoClient.ErrorPrefix)) &&
      (resp.ok && BrevoClient.Data(resp.text, parse) != JNull ==>
        r == Ok(SendResponse(true, GetString(BrevoClient.Data(resp.text, parse), "messageId"))))
  {
  }

  /** A string sender or recipient becomes an address with no name; an address object passes unchanged. */
  lemma NormalizeWraps(s: string, a: EmailAddress, rs: seq<Recipient>)
    ensures NormalizeRecipients(One(Plain(s))) == [EmailAddress(s, None)]
    ensures NormalizeRecipients(One(Object(a))) == [a]
    ensures NormalizeRecipients(Many(rs)) == seq(|rs|, i requires 0 <= i < |rs| => Normalize(rs[i]))
    ensures Normalize(Plain(s)) == EmailAddress(s, None)
  {
  }

  /** `sendText` posts its text and nothing else optional; `sendHtml` its html and possibly a text part. */
  lemma TextAndHtmlPayloads(from: Recipient, to: Recipients, subject: string, body: string, text: Option<string>)
    ensures var p := PayloadOf(TextOptions(from, to, subject, body));
      p.textContent == (if body != "" then Some(JStr(body)) else None) &&
      p.htmlContent.None? && p.cc.None? && p.bcc.None? && p.attachment.None? && p.replyTo.None? && p.headers.None? && p.tags.None? &&
      p.sender == AddressJson(Normalize(from)) && p.to == AddressList(NormalizeRecipients(to))
    ensures var p := PayloadOf(HtmlOptions(from, to, subject, body, text));
      p.htmlContent == (if body != "" then Some(JStr(body)) else None) &&
      p.textContent == (if Present(text) then Some(JStr(text.value)) else None)
  {
  }
}
