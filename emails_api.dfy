/**
 * `EmailsApi`: the mailbox routes. Listing and statistics read the store; reading a received
 * unread message marks it read; sending validates the request, calls the mail provider and only
 * then stores the sent message and its attachments; downloading decodes an attachment's base64
 * text into bytes; the flag routes run one statement each.
 */
module EmailsApi {
  import opened Wrappers
  import opened Json
  import opened Text
  import opened Bytes
  import opened Base64
  import Http
  import opened Database
  import BrevoClient
  import BrevoMessages
  import EmailHandler

  const EmailNotFound: string := "Email not found"
  const GetEmailFailed: string := "Failed to get email"
  const AttachmentNotFound: string := "Attachment not found"
  const DownloadFailed: string := "Failed to download attachment"
  const RequiredFieldsMissing: string := "from, to, and subject are required"
  const BodyMissing: string := "Either text or html body is required"
  const ProviderNotConfigured: string := "Brevo not configured"
  const SendFailed: string := "Failed to send email"
  const MarkReadFailed: string := "Failed to mark as read"
  const MarkUnreadFailed: string := "Failed to mark as unread"
  const ToggleStarFailed: string := "Failed to toggle star"
  const DeleteFailed: string := "Failed to delete email"
  const DefaultContentType: string := "application/octet-stream"
  const ProviderKeySetting: string := "brevo_api_key"

  // ------------------------------------------------------------------ parseInt

  /** The value of `c` as a digit in `radix` (10 or 16), if it is one. */
  function DigitValue(c: char, radix: nat): (d: Option<nat>)
    ensures d.Some? ==> d.value < radix || (radix < 10 && d.value < 10)
  {
    if '0' <= c <= '9' && (c as int - '0' as int) < radix then Some(c as int - '0' as int)
    else if radix == 16 && 'a' <= c <= 'f' then Some(c as int - 'a' as int + 10)
    else if radix == 16 && 'A' <= c <= 'F' then Some(c as int - 'A' as int + 10)
    else None
  }

  /** Length of the longest prefix of `s` made of digits of `radix`. */
  function LeadingDigits(s: string, radix: nat): (k: nat)
    ensures k <= |s|
    ensures forall i :: 0 <= i < k ==> DigitValue(s[i], radix).Some?
    ensures k < |s| ==> DigitValue(s[k], radix).None?
    decreases |s|
  {
    if |s| > 0 && DigitValue(s[0], radix).Some? then 1 + LeadingDigits(s[1..], radix) else 0
  }

  /** The number a run of digits denotes, most significant first. */
  function DigitsValue(ds: string, radix: nat): nat
    requires forall i :: 0 <= i < |ds| ==> DigitValue(ds[i], radix).Some?
    decreases |ds|
  {
    if |ds| == 0 then 0
    else DigitsValue(ds[..|ds| - 1], radix) * radix + DigitValue(ds[|ds| - 1], radix).value
  }

  /** The sign and the text after it. */
  function SplitSign(u: string): (int, string) {
    if |u| > 0 && u[0] == '-' then (-1, u[1..])
    else if |u| > 0 && u[0] == '+' then (1, u[1..])
    else (1, u)
  }

  /** The radix (16 after a `0x` or `0X` prefix, else 10) and the digits that follow the prefix. */
  function SplitRadix(v: string): (nat, string) {
    if |v| >= 2 && v[0] == '0' && (v[1] == 'x' || v[1] == 'X') then (16, v[2..]) else (10, v)
  }

  /**
   * `parseInt(s)` with no radix: leading white space is skipped, a sign and a hexadecimal prefix are
   * read, then the longest run of digits; None stands for NaN, when there is no digit at all.
   */
  function ParseInt(s: string): (r: Option<int>)
    ensures r.None? <==> LeadingDigits(SplitRadix(SplitSign(TrimStart(s)).1).1, SplitRadix(SplitSign(TrimStart(s)).1).0) == 0
  {
    var (sign, v) := SplitSign(TrimStart(s));
    var (radix, w) := SplitRadix(v);
    var k := LeadingDigits(w, radix);
    if k == 0 then None else Some(sign * DigitsValue(w[..k], radix))
  }

  /** A decimal numeral, with its digits in order, is the number it denotes. */
  lemma {:induction false} DigitsOfNat(n: nat)
    ensures forall i :: 0 <= i < |NatToString(n)| ==> DigitValue(NatToString(n)[i], 10).Some?
    ensures DigitsValue(NatToString(n), 10) == n
    decreases n
  {
    var s := NatToString(n);
    if n >= 10 {
      DigitsOfNat(n / 10);
      var front := NatToString(n / 10);
      assert s == front + [DigitChar(n % 10)];
      assert s[..|s| - 1] == front;
    }
  }

  /** A string made only of digits is one run of them. */
  lemma {:induction false} AllDigits(s: string, radix: nat)
    requires forall i :: 0 <= i < |s| ==> DigitValue(s[i], radix).Some?
    ensures LeadingDigits(s, radix) == |s|
    decreases |s|
  {
    if |s| > 0 {
      AllDigits(s[1..], radix);
    }
  }

  /** A non-empty run of decimal digits parses to the number it denotes. */
  lemma ParseIntDigits(s: string)
    requires |s| > 0 && forall i :: 0 <= i < |s| ==> '0' <= s[i] <= '9'
    ensures ParseInt(s) == Some(DigitsValue(s, 10))
  {
    AllDigits(s, 10);
    assert !IsJsSpace(s[0]);
    assert TrimStart(s) == s;
    assert SplitSign(s) == (1, s);
    assert SplitRadix(s) == (10, s) by {
      if |s| >= 2 {
        assert s[1] != 'x' && s[1] != 'X';
      }
    }
    assert s[..|s|] == s;
  }

  /** `parseInt` reads back the decimal text of every natural number. */
  lemma ParseIntNatToString(n: nat)
    ensures ParseInt(NatToString(n)) == Some(n)
  {
    DigitsOfNat(n);
    ParseIntDigits(NatToString(n));
  }

  // ------------------------------------------------------------------ GET /

  /** The query string of `GET /`; an absent parameter is None. */
  datatype ListRequest = ListRequest(kind: Option<string>, limit: Option<string>, offset: Option<string>, unread: Option<string>, starred: Option<string>)

  /**
   * The `type` filter `listEmails` receives: the query text itself whenever it is truthy. The cast to
   * `'received' | 'sent'` checks nothing, so `?type=foo` filters on `foo`.
   */
  function KindFilter(kind: Option<string>): (k: Option<string>)
    ensures k.Some? <==> Present(kind)
    ensures k.Some? ==> k == kind
  {
    if Present(kind) then kind else None
  }

  /** A parsed number as JSON; NaN is serialised as null. */
  function NumJson(n: Option<int>): Json {
    if n.Some? then JNum(n.value) else JNull
  }

  /** The numbers of the request: `limit || '50'` and `offset || '0'` through `parseInt`. */
  function ListLimit(q: ListRequest): Option<int> {
    ParseInt(Or(q.limit, "50"))
  }

  function ListOffset(q: ListRequest): Option<int> {
    ParseInt(Or(q.offset, "0"))
  }

  /** The answer of `GET /` for the rows the database returns, and the statement and parameters it runs. */
  function ListRoute(q: ListRequest, rows: seq<Json>): (r: (Http.Reply, string, seq<Param>))
    ensures r.0.status == 200
    ensures r.1 == ListQueryText(Conditions(KindFilter(q.kind), q.unread == Some("true"), q.starred == Some("true")), ListLimit(q), ListOffset(q))
    ensures r.2 == ListParams(KindFilter(q.kind), ListLimit(q), ListOffset(q))
  {
    var limit := ListLimit(q);
    var offset := ListOffset(q);
    var kind := KindFilter(q.kind);
    (Http.Ok(JObj([("emails", JArr(rows)), ("pagination", JObj([("limit", NumJson(limit)), ("offset", NumJson(offset))]))])),
     ListQueryText(Conditions(kind, q.unread == Some("true"), q.starred == Some("true")), limit, offset),
     ListParams(kind, limit, offset))
  }

  /** `GET /`: builds the statement, and answers with the rows and the pagination it used. */
  method HandleList(q: ListRequest, rows: seq<Json>) returns (reply: Http.Reply, query: string, params: seq<Param>)
    ensures (reply, query, params) == ListRoute(q, rows)
    ensures Placeholders(query) == |params|
  {
    var limit := ParseInt(Or(q.limit, "50"));
    var offset := ParseInt(Or(q.offset, "0"));
    var kind := KindFilter(q.kind);
    query, params := ListEmailsQuery(kind, limit, offset, q.unread == Some("true"), q.starred == Some("true"));
    reply := Http.Ok(JObj([("emails", JArr(rows)), ("pagination", JObj([("limit", NumJson(limit)), ("offset", NumJson(offset))]))]));
  }

  /** Without `limit` and `offset` the page is the first 50 rows: LIMIT 50 is bound and no OFFSET is sent. */
  lemma ListDefaults(q: ListRequest)
    requires !Present(q.limit) && !Present(q.offset)
    ensures ListLimit(q) == Some(50) && ListOffset(q) == Some(0)
    ensures ListParams(KindFilter(q.kind), ListLimit(q), ListOffset(q)) == TypeParam(KindFilter(q.kind)) + [PNum(50)]
  {
    assert Or(q.limit, "50") == "50" && Or(q.offset, "0") == "0";
    DefaultLimitParses();
    DefaultOffsetParses();
    DefaultParams(KindFilter(q.kind));
  }

  lemma DefaultParams(kind: Option<string>)
    ensures ListParams(kind, Some(50), Some(0)) == TypeParam(kind) + [PNum(50)]
  {
    assert NumParam(Some(50)) == [PNum(50)] && NumParam(Some(0)) == [];
  }

  lemma DefaultLimitParses()
    ensures ParseInt("50") == Some(50)
  {
    FiftyFront();
    FiftyDigits();
    assert "50"[..2] == "50";
  }

  lemma FiftyFront()
    ensures TrimStart("50") == "50" && SplitSign("50") == (1, "50") && SplitRadix("50") == (10, "50")
  {
    assert TrimStart("50") == "50";
  }

  lemma FiftyDigits()
    ensures LeadingDigits("50", 10) == 2
    ensures forall i :: 0 <= i < 2 ==> DigitValue("50"[i], 10).Some?
    ensures DigitsValue("50", 10) == 50
  {
    assert LeadingDigits("50"[1..], 10) == 1;
    assert "50"[..1] == "5";
    assert DigitsValue("5", 10) == 5;
  }

  lemma DefaultOffsetParses()
    ensures ParseInt("0") == Some(0)
  {
    var s := "0";
    assert TrimStart(s) == s;
    assert SplitSign(s) == (1, s);
    assert SplitRadix(s) == (10, s);
    assert LeadingDigits(s, 10) == 1;
    assert s[..1] == s;
    assert DigitsValue(s, 10) == 0;
  }

  /** A decimal `limit` and `offset` are used as given. */
  lemma ListNumbers(q: ListRequest, limit: nat, offset: nat)
    requires q.limit == Some(NatToString(limit)) && q.offset == Some(NatToString(offset))
    ensures ListLimit(q) == Some(limit) && ListOffset(q) == Some(offset)
  {
    ParseIntNatToString(limit);
    ParseIntNatToString(offset);
  }

  /**
   * Any truthy `type` becomes the first condition and is bound, as given, as the first parameter, so
   * `?type=foo` asks for rows of type `foo`; without one, no condition tests the type and no text is bound.
   */
  lemma ListTypeFilter(q: ListRequest)
    ensures var cs := Conditions(KindFilter(q.kind), q.unread == Some("true"), q.starred == Some("true"));
      var ps := ListParams(KindFilter(q.kind), ListLimit(q), ListOffset(q));
      (Present(q.kind) ==> |cs| > 0 && cs[0] == "type = ?" && |ps| > 0 && ps[0] == PText(q.kind.value)) &&
      (!Present(q.kind) ==> "type = ?" !in cs && forall i :: 0 <= i < |ps| ==> ps[i].PNum?)
  {
    Database.TypeCondition(KindFilter(q.kind), q.unread == Some("true"), q.starred == Some("true"));
    Database.TypeBound(KindFilter(q.kind), ListLimit(q), ListOffset(q));
  }

  // ------------------------------------------------------------------ GET /stats

  function StatsJson(s: Stats): Json {
    JObj([("total_received", JNum(s.totalReceived)), ("total_sent", JNum(s.totalSent)), ("unread", JNum(s.unread)), ("starred", JNum(s.starred))])
  }

  /** The four counts, read in one batch. */
  method HandleStats(db: Queries) returns (reply: Http.Reply)
    ensures reply == Http.Ok(StatsJson(StatsOf(db.emails)))
    ensures var s := StatsOf(db.emails); s.unread <= s.totalReceived && s.totalReceived + s.totalSent == |db.emails|
  {
    var stats := db.GetEmailStats();
    reply := Http.Ok(StatsJson(stats));
  }

  // ------------------------------------------------------------------ GET /:id

  function OptJson(s: Option<string>): Json {
    if s.Some? then JStr(s.value) else JNull
  }

  /** The columns of a row as `c.json` sends them; `created_at` is not modelled. */
  function EmailFields(e: Email): seq<(string, Json)> {
    [("id", JStr(e.id)), ("type", JStr(TypeName(e.kind))), ("from_address", JStr(e.fromAddress)),
     ("to_address", JStr(e.toAddress)), ("cc", OptJson(e.cc)), ("bcc", OptJson(e.bcc)),
     ("subject", OptJson(e.subject)), ("body_text", OptJson(e.bodyText)), ("body_html", OptJson(e.bodyHtml)),
     ("headers", OptJson(e.headers)), ("raw_size", if e.rawSize.Some? then JNum(e.rawSize.value) else JNull),
     ("is_read", JNum(e.isRead)), ("is_starred", JNum(e.isStarred)), ("mailgun_id", OptJson(e.mailgunId))]
  }

  function InfoJson(a: AttachmentInfo): Json {
    JObj([("id", JStr(a.id)), ("email_id", JStr(a.emailId)), ("filename", JStr(a.filename)),
          ("content_type", JStr(a.contentType)), ("size", JNum(a.size))])
  }

  function InfoList(infos: seq<AttachmentInfo>): (j: Json)
    ensures j.JArr? && |j.items| == |infos|
    ensures forall i :: 0 <= i < |infos| ==> j.items[i] == InfoJson(infos[i])
  {
    JArr(seq(|infos|, i requires 0 <= i < |infos| => InfoJson(infos[i])))
  }

  /** `{ ...email, attachments }`. */
  function EmailDetail(e: Email, infos: seq<AttachmentInfo>): Json {
    JObj(EmailFields(e) + [("attachments", InfoList(infos))])
  }

  /** Whether reading the row marks it read: a received row whose flag is falsy. */
  predicate MarksRead(e: Email) {
    e.kind == Received && e.isRead == 0
  }

  /** `GET /:id`: the answer and the store after it. */
  function GetEmailRoute(t: Tables, id: string): (Http.Reply, Tables) {
    if id !in t.emails then (Http.ErrorReply(404, EmailNotFound), t)
    else
      var e := t.emails[id];
      if MarksRead(e) then
        var (t1, ok) := Step(t, MarkRead(id));
        if !ok then (Http.ErrorReply(500, GetEmailFailed), t1)
        else (Http.Ok(EmailDetail(e.(isRead := 1), AttachmentsOf(t1.attachments, id))), t1)
      else (Http.Ok(EmailDetail(e, AttachmentsOf(t.attachments, id))), t)
  }

  method HandleGetEmail(db: Queries, id: string) returns (reply: Http.Reply)
    modifies db
    ensures (reply, db.Snapshot()) == GetEmailRoute(old(db.Snapshot()), id)
  {
    var email := db.GetEmail(id);
    if email.None? {
      return Http.ErrorReply(404, EmailNotFound);
    }
    var e := email.value;
    if e.kind == Received && e.isRead == 0 {
      var ok := db.MarkAsRead(id);
      if !ok {
        return Http.ErrorReply(500, GetEmailFailed);
      }
      e := e.(isRead := 1);
    }
    var infos := db.GetAttachmentsByEmailId(id);
    reply := Http.Ok(EmailDetail(e, infos));
  }

  /**
   * A missing id is a 404 and changes nothing. Otherwise the answer, when it is a 200, shows the row
   * and the attachments exactly as the store holds them afterwards.
   */
  lemma GetEmailShowsStore(t: Tables, id: string)
    ensures var (reply, t1) := GetEmailRoute(t, id);
      (id !in t.emails ==> reply.status == 404 && t1 == t) &&
      (reply.status == 200 ==> id in t1.emails && reply.body == EmailDetail(t1.emails[id], AttachmentsOf(t1.attachments, id)))
  {
    if id in t.emails && MarksRead(t.emails[id]) && Step(t, MarkRead(id)).1 {
      assert Step(t, MarkRead(id)).0.emails == WithRead(t.emails, id, 1);
    }
  }

  /**
   * Reading a received unread message marks exactly that row read, which lowers the unread count by
   * one; reading a sent or an already read message writes nothing.
   */
  lemma GetEmailMarksRead(t: Tables, id: string)
    requires id in t.emails
    ensures var (reply, t1) := GetEmailRoute(t, id);
      (!MarksRead(t.emails[id]) ==> t1 == t && reply.status == 200) &&
      (MarksRead(t.emails[id]) && reply.status == 200 ==>
        t1.emails == WithRead(t.emails, id, 1) && t1.emails[id].isRead == 1 &&
        StatsOf(t1.emails).unread + 1 == StatsOf(t.emails).unread)
  {
    if MarksRead(t.emails[id]) && Step(t, MarkRead(id)).1 {
      MarkReadStats(t.emails, id);
    }
  }

  /** Reading twice writes at most once: the second read of a row finds it read. */
  lemma GetEmailTwice(t: Tables, id: string)
    requires id in t.emails && GetEmailRoute(t, id).0.status == 200
    ensures var t1 := GetEmailRoute(t, id).1;
      GetEmailRoute(t1, id).1 == t1
  {
    GetEmailMarksRead(t, id);
    var t1 := GetEmailRoute(t, id).1;
    assert id in t1.emails && !MarksRead(t1.emails[id]) by {
      if MarksRead(t.emails[id]) && Step(t, MarkRead(id)).1 {
        assert t1.emails == WithRead(t.emails, id, 1);
      }
    }
    GetEmailMarksRead(t1, id);
  }

  // ------------------------------------------------------------------ GET /:id/attachments

  /** `GET /:id/attachments`: the stored attachments of that message, without their content, in table order. */
  method HandleAttachments(db: Queries, id: string) returns (reply: Http.Reply)
    ensures reply == Http.Ok(JObj([("attachments", InfoList(AttachmentsOf(db.attachments, id)))]))
    ensures forall a :: a in db.attachments && a.emailId == id ==> Info(a) in AttachmentsOf(db.attachments, id)
  {
    var infos := db.GetAttachmentsByEmailId(id);
    reply := Http.Ok(JObj([("attachments", InfoList(infos))]));
  }

  // ------------------------------------------------------------------ GET /:emailId/attachments/:attachmentId

  /** A download: an error answer, or the bytes with their headers. */
  datatype Download = Failure(reply: Http.Reply) | File(bytes: seq<byte>, headers: seq<(string, string)>)

  function DownloadHeaders(a: Attachment): seq<(string, string)> {
    [("Content-Type", a.contentType),
     ("Content-Disposition", "attachment; filename=\"" + a.filename + "\""),
     ("Content-Length", NatToString(a.size))]
  }

  /** The download of an attachment by its id alone: `atob` of the stored text turned into bytes. */
  function DownloadRoute(t: Tables, emailId: string, attachmentId: string): Download {
    match AttachmentById(t.attachments, attachmentId)
    case None => Failure(Http.ErrorReply(404, AttachmentNotFound))
    case Some(a) =>
      match Atob(a.content)
      case None => Failure(Http.ErrorReply(500, DownloadFailed))
      case Some(binary) => File(CharCodes(binary), DownloadHeaders(a))
  }

  /** Decodes the stored text and fills a byte array of the binary string's length, one char code at a time. */
  method HandleDownload(db: Queries, emailId: string, attachmentId: string) returns (r: Download)
    ensures r == DownloadRoute(db.Snapshot(), emailId, attachmentId)
  {
    var found := db.GetAttachment(attachmentId);
    if found.None? {
      return Failure(Http.ErrorReply(404, AttachmentNotFound));
    }
    var a := found.value;
    var decoded := Atob(a.content);
    if decoded.None? {
      return Failure(Http.ErrorReply(500, DownloadFailed));
    }
    var bytes := CharCodesOf(decoded.value);
    r := File(bytes, DownloadHeaders(a));
  }

  /** `new Uint8Array(binary.length)` filled with `binary.charCodeAt(i)` at each position. */
  method CharCodesOf(binary: string) returns (bs: seq<byte>)
    requires IsLatin1(binary)
    ensures bs == CharCodes(binary)
  {
    var bytes := new byte[|binary|];
    for i := 0 to |binary|
      invariant forall j :: 0 <= j < i ==> bytes[j] as int == binary[j] as int
    {
      bytes[i] := binary[i] as int as byte;
    }
    bs := bytes[..];
  }

  /**
   * The attachment is found by its own id, whatever message id the path names; a missing id is a 404,
   * text `atob` refuses a 500, and otherwise the bytes are exactly its forgiving decoding.
   */
  lemma DownloadDecodes(t: Tables, emailId: string, attachmentId: string)
    ensures DownloadRoute(t, emailId, attachmentId) == DownloadRoute(t, "", attachmentId)
    ensures var r := DownloadRoute(t, emailId, attachmentId);
      var a := AttachmentById(t.attachments, attachmentId);
      (a.None? <==> r.Failure? && r.reply.status == 404) &&
      (a.Some? && ForgivingDecode(a.value.content).None? <==> r.Failure? && r.reply.status == 500) &&
      (r.File? ==> a.Some? && ForgivingDecode(a.value.content) == Some(r.bytes) && r.headers == DownloadHeaders(a.value))
  {
  }

  /** An attachment stored as the base64 text of some bytes downloads as those bytes. */
  lemma DownloadRoundTrip(t: Tables, emailId: string, attachmentId: string, bs: seq<byte>)
    requires AttachmentById(t.attachments, attachmentId).Some?
    requires AttachmentById(t.attachments, attachmentId).value.content == Encode(bs)
    ensures DownloadRoute(t, emailId, attachmentId).File?
    ensures DownloadRoute(t, emailId, attachmentId).bytes == bs
  {
    ForgivingEncode(bs);
  }

  // ------------------------------------------------------------------ POST /send: addresses

  /** First index at or after `i` that holds no white space, or `|s|`. */
  function SkipSpaces(s: string, i: nat): (m: nat)
    requires i <= |s|
    ensures i <= m <= |s|
    ensures forall k :: i <= k < m ==> IsJsSpace(s[k])
    ensures m < |s| ==> !IsJsSpace(s[m])
    decreases |s| - i
  {
    if i < |s| && IsJsSpace(s[i]) then SkipSpaces(s, i + 1) else i
  }

  /** What `.` matches: every char but a line terminator. */
  predicate NoLineTerminator(s: string) {
    forall k :: 0 <= k < |s| ==> !IsLineTerminator(s[k])
  }

  /**
   * Whether `^(.+?)\s*<(.+?)>$` matches with `s[..n]` as its first group: white space then runs up
   * to a `<`, and the second group is everything after it but the final `>`.
   */
  predicate MatchesAt(s: string, n: nat) {
    1 <= n <= |s| && NoLineTerminator(s[..n]) &&
    var m := SkipSpaces(s, n);
    m + 3 <= |s| && s[m] == '<' && s[|s| - 1] == '>' && NoLineTerminator(s[m + 1..|s| - 1])
  }

  /** The laziest first group: the least `k >= n` at which the expression matches. */
  function FirstMatch(s: string, n: nat): (r: Option<nat>)
    requires 1 <= n
    ensures r.Some? ==> n <= r.value && MatchesAt(s, r.value)
    ensures r.Some? ==> forall k :: n <= k < r.value ==> !MatchesAt(s, k)
    ensures r.None? ==> forall k :: n <= k ==> !MatchesAt(s, k)
    decreases |s| + 1 - n
  {
    if n > |s| then None
    else if MatchesAt(s, n) then Some(n)
    else FirstMatch(s, n + 1)
  }

  /**
   * `parseEmail`: `Name <addr>` gives the trimmed name and address; any other text is an address
   * alone, trimmed.
   */
  function ParseEmail(s: string): (a: BrevoMessages.EmailAddress)
    ensures a.name.Some? <==> exists n :: 1 <= n && MatchesAt(s, n)
    ensures a.name.None? ==> a.email == Trim(s)
    ensures |a.email| > 0 ==> !IsJsSpace(a.email[0]) && !IsJsSpace(a.email[|a.email| - 1])
  {
    match FirstMatch(s, 1)
    case Some(n) =>
      var m := SkipSpaces(s, n);
      BrevoMessages.EmailAddress(Trim(s[m + 1..|s| - 1]), Some(Trim(s[..n])))
    case None => BrevoMessages.EmailAddress(Trim(s), None)
  }

  lemma TrimNoop(s: string)
    requires |s| > 0 && !IsJsSpace(s[0]) && !IsJsSpace(s[|s| - 1])
    ensures Trim(s) == s
  {
    assert TrimStart(s) == s;
  }

  /** Text without a `<` is never split into a name and an address. */
  lemma ParseEmailPlain(s: string)
    requires '<' !in s
    ensures ParseEmail(s) == BrevoMessages.EmailAddress(Trim(s), None)
  {
    forall n | 1 <= n
      ensures !MatchesAt(s, n)
    {
      if 1 <= n <= |s| {
        var m := SkipSpaces(s, n);
        if m < |s| {
          assert s[m] in s;
        }
      }
    }
  }

  /** No position before the end of a name that ends in a non-space char and holds no `<` starts the address. */
  lemma NameIsNotSplit(name: string, addr: string, k: nat)
    requires 1 <= k < |name| && '<' !in name && !IsJsSpace(name[|name| - 1])
    ensures !MatchesAt(name + " <" + addr + ">", k)
  {
    var s := name + " <" + addr + ">";
    var m := SkipSpaces(s, k);
    assert s[|name| - 1] == name[|name| - 1];
    assert m <= |name| - 1;
    assert s[m] == name[m] && name[m] in name;
  }

  /** `Name <addr>` written the usual way reads back as that name and that address. */
  lemma ParseEmailNamed(name: string, addr: string)
    requires |name| > 0 && |addr| > 0
    requires '<' !in name && NoLineTerminator(name) && NoLineTerminator(addr)
    requires !IsJsSpace(name[0]) && !IsJsSpace(name[|name| - 1])
    requires !IsJsSpace(addr[0]) && !IsJsSpace(addr[|addr| - 1])
    ensures ParseEmail(name + " <" + addr + ">") == BrevoMessages.EmailAddress(addr, Some(name))
  {
    var s := name + " <" + addr + ">";
    var n := |name|;
    var pre := name + " <";
    assert s == pre + addr + ">";
    assert |pre| == n + 2 && pre[n] == ' ' && pre[n + 1] == '<';
    assert s[..n] == name;
    assert s[n] == pre[n] && s[n + 1] == pre[n + 1];
    assert SkipSpaces(s, n + 1) == n + 1;
    assert SkipSpaces(s, n) == n + 1;
    assert s[n + 2..|s| - 1] == addr;
    assert MatchesAt(s, n);
    forall k | 1 <= k < n
      ensures !MatchesAt(s, k)
    {
      NameIsNotSplit(name, addr, k);
    }
    var r := FirstMatch(s, 1);
    assert r == Some(n);
    TrimNoop(name);
    TrimNoop(addr);
  }

  // ------------------------------------------------------------------ POST /send

  /** An attachment of the request; `content` is base64 text. */
  datatype OutgoingAttachment = OutgoingAttachment(filename: string, content: string, contentType: Option<string>)

  /** The JSON body of `POST /send`; an absent field is None. */
  datatype SendBody = SendBody(
    from: Option<string>,
    to: Option<string>,
    cc: Option<string>,
    bcc: Option<string>,
    subject: Option<string>,
    text: Option<string>,
    html: Option<string>,
    replyTo: Option<string>,
    attachments: Option<seq<OutgoingAttachment>>)

  predicate HasRequired(b: SendBody) {
    Present(b.from) && Present(b.to) && Present(b.subject)
  }

  predicate HasContent(b: SendBody) {
    Present(b.text) || Present(b.html)
  }

  /** The attachments as the provider takes them: the file name becomes the name. */
  function ProviderAttachments(atts: seq<OutgoingAttachment>): (r: seq<BrevoMessages.Attachment>)
    ensures |r| == |atts|
    ensures forall i :: 0 <= i < |atts| ==> r[i] == BrevoMessages.Attachment(atts[i].filename, atts[i].content, atts[i].contentType)
  {
    seq(|atts|, i requires 0 <= i < |atts| => BrevoMessages.Attachment(atts[i].filename, atts[i].content, atts[i].contentType))
  }

  /** One parsed address for a truthy field. */
  function AddressIfPresent(s: Option<string>): (r: Option<BrevoMessages.EmailAddress>)
    ensures r.Some? <==> Present(s)
    ensures r.Some? ==> r.value == ParseEmail(s.value)
  {
    if Present(s) then Some(ParseEmail(s.value)) else None
  }

  /** What the route hands to the provider: parsed addresses, the bodies as given, no headers or tags. */
  function OptionsFor(b: SendBody): (o: BrevoMessages.SendOptions)
    requires HasRequired(b)
    ensures o.from == ParseEmail(b.from.value) && o.to == [ParseEmail(b.to.value)] && o.subject == b.subject.value
    ensures o.text == b.text && o.html == b.html && o.headers.None? && o.tags.None?
    ensures o.cc.Some? <==> Present(b.cc)
    ensures o.bcc.Some? <==> Present(b.bcc)
    ensures o.replyTo == AddressIfPresent(b.replyTo)
    ensures o.attachments.Some? <==> b.attachments.Some?
  {
    var cc := AddressIfPresent(b.cc);
    var bcc := AddressIfPresent(b.bcc);
    BrevoMessages.SendOptions(
      ParseEmail(b.from.value), [ParseEmail(b.to.value)],
      if cc.Some? then Some([cc.value]) else None,
      if bcc.Some? then Some([bcc.value]) else None,
      b.subject.value, b.text, b.html,
      if b.attachments.Some? then Some(ProviderAttachments(b.attachments.value)) else None,
      None, None,
      AddressIfPresent(b.replyTo))
  }

  /** The row of a sent message: the request's own text, read, not starred, with the provider's id. */
  function SentRow(id: string, b: SendBody, messageId: Option<string>): Email
    requires HasRequired(b)
  {
    Email(id, Sent, b.from.value, b.to.value, OrNull(b.cc), OrNull(b.bcc), b.subject, OrNull(b.text), OrNull(b.html),
      None, None, 1, 0, OrNull(messageId))
  }

  /** The size the route computes as written: three quarters of the base64 text, rounded down. */
  function AsWrittenSize(content: string): nat {
    |content| * 3 / 4
  }

  /** The byte length the base64 text stands for: the estimate less one byte per padding char. */
  function SentAttachmentSize(content: string): nat {
    var estimate := AsWrittenSize(content);
    if estimate >= PadCount(content) then estimate - PadCount(content) else 0
  }

  /** The stored size is exact for the base64 text of any bytes. */
  lemma SentSizeExact(bs: seq<byte>)
    ensures SentAttachmentSize(Encode(bs)) == |bs|
  {
    SizeEstimate(bs);
  }

  /**
   * As written, the size over-states the byte length by the padding: one byte, "QQ==", comes out as
   * three, and the download then announces a Content-Length of 3 for a body of 1 byte.
   */
  lemma AsWrittenSizeOverstates(bs: seq<byte>)
    ensures AsWrittenSize(Encode(bs)) == |bs| + PadCount(Encode(bs))
    ensures |bs| % 3 != 0 ==> AsWrittenSize(Encode(bs)) > |bs|
    ensures bs == [65 as byte] ==> AsWrittenSize(Encode(bs)) == 3 && Decode(Encode(bs)) == Some(bs)
  {
    SizeEstimate(bs);
    PadCountOfEncode(bs);
    DecodeEncode(bs);
  }

  function SentAttachmentRow(id: string, emailId: string, a: OutgoingAttachment): Attachment {
    Attachment(id, emailId, a.filename, Or(a.contentType, DefaultContentType), AsWrittenSize(a.content), a.content)
  }

  function AttachmentsOfBody(b: SendBody): seq<OutgoingAttachment> {
    if b.attachments.Some? then b.attachments.value else []
  }

  /** The attachment rows, each under a fresh id `uuid(k + 1)`, in request order. */
  function SentAttachmentRows(atts: seq<OutgoingAttachment>, emailId: string, uuid: nat -> string): (rows: seq<Attachment>)
    ensures |rows| == |atts|
    ensures forall k :: 0 <= k < |atts| ==> rows[k] == SentAttachmentRow(uuid(k + 1), emailId, atts[k])
    ensures forall k :: 0 <= k < |atts| ==>
      rows[k].id == uuid(k + 1) && rows[k].emailId == emailId && rows[k].filename == atts[k].filename &&
      rows[k].content == atts[k].content && rows[k].size == |atts[k].content| * 3 / 4
  {
    seq(|atts|, k requires 0 <= k < |atts| => SentAttachmentRow(uuid(k + 1), emailId, atts[k]))
  }

  /** The writes after a provider success: the message row, then one insert per attachment. */
  function SentWrites(b: SendBody, messageId: Option<string>, uuid: nat -> string): seq<Write>
    requires HasRequired(b)
  {
    [InsertEmail(SentRow(uuid(0), b, messageId))] + EmailHandler.Inserts(SentAttachmentRows(AttachmentsOfBody(b), uuid(0), uuid))
  }

  /** The fields after `success` in a 200 answer; an absent message id is left out. */
  function SentFields(id: string, messageId: Option<string>): seq<(string, Json)> {
    [("id", JStr(id))] + (if messageId.Some? then [("messageId", JStr(messageId.value))] else [])
  }

  /** The provider key, when one is stored and non-empty. */
  function ProviderKey(t: Tables): Option<string> {
    var key := SettingOf(t.settings, ProviderKeySetting);
    if Present(key) then key else None
  }

  /**
   * `POST /send`: the answer, the store after it and the request made to the provider (None when
   * validation stops the route first). `respond` is the provider and `uuid(k)` the k-th fresh id.
   */
  function SendEmail(t: Tables, b: SendBody, respond: BrevoClient.Request -> BrevoClient.Response,
                     parse: string -> Option<Json>, uuid: nat -> string)
    : (Http.Reply, Tables, Option<BrevoClient.Request>)
  {
    if !HasRequired(b) then (Http.ErrorReply(400, RequiredFieldsMissing), t, None)
    else if !HasContent(b) then (Http.ErrorReply(400, BodyMissing), t, None)
    else if ProviderKey(t).None? then (Http.ErrorReply(400, ProviderNotConfigured), t, None)
    else
      var (req, result) := BrevoMessages.Send(BrevoClient.Config(ProviderKey(t).value), OptionsFor(b), respond, parse);
      match result
      case Err(e) => (Http.DetailedError(500, SendFailed, e), t, Some(req))
      case Ok(sent) =>
        var (t1, ok) := Run(t, SentWrites(b, sent.messageId, uuid));
        if !ok then (Http.DetailedError(500, SendFailed, StoreErrorMessage), t1, Some(req))
        else (Http.Ok(Http.Success(SentFields(uuid(0), sent.messageId))), t1, Some(req))
  }

  method HandleSend(db: Queries, b: SendBody, respond: BrevoClient.Request -> BrevoClient.Response,
                    parse: string -> Option<Json>, uuid: nat -> string)
    returns (reply: Http.Reply, sent: Option<BrevoClient.Request>)
    modifies db
    ensures (reply, db.Snapshot(), sent) == SendEmail(old(db.Snapshot()), b, respond, parse, uuid)
  {
    if !(Present(b.from) && Present(b.to) && Present(b.subject)) {
      return Http.ErrorReply(400, RequiredFieldsMissing), None;
    }
    if !(Present(b.text) || Present(b.html)) {
      return Http.ErrorReply(400, BodyMissing), None;
    }
    var key := db.GetSetting(ProviderKeySetting);
    if !Present(key) {
      return Http.ErrorReply(400, ProviderNotConfigured), None;
    }
    var options := OptionsFor(b);
    var (req, result) := BrevoMessages.Send(BrevoClient.Config(key.value), options, respond, parse);
    sent := Some(req);
    if result.Err? {
      return Http.DetailedError(500, SendFailed, result.error), sent;
    }
    var messageId := result.value.messageId;
    ghost var t0 := db.Snapshot();
    var emailId := uuid(0);
    var ok := db.CreateEmail(SentRow(emailId, b, messageId));
    EmailHandler.RunOne(t0, InsertEmail(SentRow(emailId, b, messageId)));
    if ok {
      ok := StoreSentAttachments(db, t0, b, messageId, uuid);
    } else {
      RunFailsFrom(t0, [InsertEmail(SentRow(emailId, b, messageId))], SentWrites(b, messageId, uuid));
    }
    if !ok {
      return Http.DetailedError(500, SendFailed, StoreErrorMessage), sent;
    }
    reply := Http.Ok(Http.Success(SentFields(emailId, messageId)));
  }

  /** The attachment loop of `POST /send`, once the message row is in. */
  method StoreSentAttachments(db: Queries, ghost t0: Tables, b: SendBody, messageId: Option<string>, uuid: nat -> string)
    returns (ok: bool)
    requires HasRequired(b)
    requires Run(t0, SentWrites(b, messageId, uuid)[..1]) == (db.Snapshot(), true)
    modifies db
    ensures Run(t0, SentWrites(b, messageId, uuid)) == (db.Snapshot(), ok)
  {
    ghost var all := SentWrites(b, messageId, uuid);
    var atts := if b.attachments.Some? then b.attachments.value else [];
    assert atts == AttachmentsOfBody(b);
    ghost var rows := SentAttachmentRows(atts, uuid(0), uuid);
    assert |all| == |atts| + 1;
    for n := 0 to |atts|
      invariant Run(t0, all[..n + 1]) == (db.Snapshot(), true)
    {
      var a := atts[n];
      var row := Attachment(uuid(n + 1), uuid(0), a.filename, Or(a.contentType, DefaultContentType), AsWrittenSize(a.content), a.content);
      assert all[n + 1] == InsertAttachment(row);
      TakeStep(all, n + 1);
      RunSnoc(t0, all[..n + 1], InsertAttachment(row));
      ok := db.CreateAttachment(row);
      if !ok {
        RunFailsFrom(t0, all[..n + 2], all);
        return;
      }
    }
    assert all[..|atts| + 1] == all;
    ok := true;
  }

  // ------------------------------------------------------------------ POST /send: properties

  /**
   * Validation comes first and in order: a request missing from, to or subject, then one with no
   * body, then a store with no provider key, is a 400 with no provider request and no write.
   */
  lemma SendValidatesFirst(t: Tables, b: SendBody, respond: BrevoClient.Request -> BrevoClient.Response,
                           parse: string -> Option<Json>, uuid: nat -> string)
    ensures var (reply, t1, req) := SendEmail(t, b, respond, parse, uuid);
      (req.None? <==> reply.status == 400) &&
      (req.None? ==> t1 == t) &&
      (!HasRequired(b) ==> reply == Http.ErrorReply(400, RequiredFieldsMissing)) &&
      (HasRequired(b) && !HasContent(b) ==> reply == Http.ErrorReply(400, BodyMissing)) &&
      (HasRequired(b) && HasContent(b) && ProviderKey(t).None? ==> reply == Http.ErrorReply(400, ProviderNotConfigured))
  {
    if HasRequired(b) && HasContent(b) && ProviderKey(t).Some? {
      SentStatus(t, b, respond, parse, uuid);
    }
  }

  /** Once validation passes, the provider is called and the reply is 200 or 500, never 400. */
  lemma SentStatus(t: Tables, b: SendBody, respond: BrevoClient.Request -> BrevoClient.Response,
                   parse: string -> Option<Json>, uuid: nat -> string)
    requires HasRequired(b) && HasContent(b) && ProviderKey(t).Some?
    ensures SendEmail(t, b, respond, parse, uuid).2.Some?
    ensures SendEmail(t, b, respond, parse, uuid).0.status in {200, 500}
  {
    var (req, result) := BrevoMessages.Send(BrevoClient.Config(ProviderKey(t).value), OptionsFor(b), respond, parse);
    if result.Ok? {
      var (t1, ok) := Run(t, SentWrites(b, result.value.messageId, uuid));
      assert SendEmail(t, b, respond, parse, uuid).0.status == if ok then 200 else 500;
    }
  }

  /** The provider request made is a POST of the message to the send endpoint, carrying the stored key. */
  lemma SendRequestShape(t: Tables, b: SendBody, respond: BrevoClient.Request -> BrevoClient.Response,
                         parse: string -> Option<Json>, uuid: nat -> string)
    requires SendEmail(t, b, respond, parse, uuid).2.Some?
    ensures var req := SendEmail(t, b, respond, parse, uuid).2.value;
      HasRequired(b) && HasContent(b) && ProviderKey(t).Some? &&
      req.verb == "POST" && req.url == BrevoClient.BaseUrl + BrevoMessages.SendEndpoint &&
      ("api-key", ProviderKey(t).value) in req.headers &&
      req.body == Some(BrevoMessages.PayloadJson(BrevoMessages.PayloadOf(OptionsFor(b))))
  {
    assert HasRequired(b) && HasContent(b) && ProviderKey(t).Some?;
    var c := BrevoClient.Config(ProviderKey(t).value);
    BrevoMessages.SendPostsPayload(c, OptionsFor(b), respond, parse);
    BrevoClient.KeyOnEveryRequest(c, "POST", BrevoMessages.SendEndpoint, Some(BrevoMessages.PayloadJson(BrevoMessages.PayloadOf(OptionsFor(b)))));
  }

  /** A provider failure answers 500 with the provider's message and writes nothing. */
  lemma SendFailureWritesNothing(t: Tables, b: SendBody, respond: BrevoClient.Request -> BrevoClient.Response,
                                 parse: string -> Option<Json>, uuid: nat -> string)
    requires HasRequired(b) && HasContent(b) && ProviderKey(t).Some?
    requires BrevoMessages.Send(BrevoClient.Config(ProviderKey(t).value), OptionsFor(b), respond, parse).1.Err?
    ensures var (reply, t1, _) := SendEmail(t, b, respond, parse, uuid);
      t1 == t &&
      reply == Http.DetailedError(500, SendFailed, BrevoMessages.Send(BrevoClient.Config(ProviderKey(t).value), OptionsFor(b), respond, parse).1.error)
  {
  }

  /**
   * A 200 answer means the provider accepted the message and the store holds it: the sent row under
   * the fresh id, read and not starred, with the provider's message id, and its attachments appended
   * in request order, each sized floor(len * 3 / 4) of its base64 text (see AsWrittenSizeOverstates).
   * Settings, addresses and sessions are unchanged.
   */
  lemma SendStores(t: Tables, b: SendBody, respond: BrevoClient.Request -> BrevoClient.Response,
                   parse: string -> Option<Json>, uuid: nat -> string)
    requires SendEmail(t, b, respond, parse, uuid).0.status == 200
    ensures HasRequired(b)
    ensures var t1 := SendEmail(t, b, respond, parse, uuid).1;
      var answer := BrevoMessages.Send(BrevoClient.Config(ProviderKey(t).value), OptionsFor(b), respond, parse).1;
      answer.Ok? && uuid(0) !in t.emails &&
      t1.emails == t.emails[uuid(0) := SentRow(uuid(0), b, answer.value.messageId)] &&
      t1.attachments == t.attachments + SentAttachmentRows(AttachmentsOfBody(b), uuid(0), uuid) &&
      t1.settings == t.settings && t1.addresses == t.addresses && t1.sessions == t.sessions
  {
    var answer := BrevoMessages.Send(BrevoClient.Config(ProviderKey(t).value), OptionsFor(b), respond, parse).1;
    var head := [InsertEmail(SentRow(uuid(0), b, answer.value.messageId))];
    var rows := SentAttachmentRows(AttachmentsOfBody(b), uuid(0), uuid);
    RunAppend(t, head, EmailHandler.Inserts(rows));
    EmailHandler.RunOne(t, head[0]);
    var t1 := Run(t, head).0;
    EmailHandler.RunInserts(t1, rows);
  }

  /** The sent row records the request's own text and is stored read, unstarred, without headers or size. */
  lemma SentRowShape(id: string, b: SendBody, messageId: Option<string>)
    requires HasRequired(b)
    ensures var e := SentRow(id, b, messageId);
      e.kind == Sent && e.isRead == 1 && e.isStarred == 0 && e.headers.None? && e.rawSize.None? &&
      e.fromAddress == b.from.value && e.toAddress == b.to.value && e.subject == b.subject &&
      (e.cc.Some? <==> Present(b.cc)) && (e.mailgunId.Some? <==> Present(messageId)) &&
      (Present(messageId) ==> e.mailgunId == messageId)
  {
  }

  /**
   * A sent attachment keeps its name and text and defaults its type. Its size is three quarters of the
   * text, rounded down: for the base64 of some bytes that is their count plus the padding, so it is
   * exact only when three divides the count.
   */
  lemma SentAttachmentShape(id: string, emailId: string, a: OutgoingAttachment, bs: seq<byte>)
    ensures var row := SentAttachmentRow(id, emailId, a);
      row.size == |a.content| * 3 / 4 && row.content == a.content && row.filename == a.filename &&
      (Present(a.contentType) ==> row.contentType == a.contentType.value) &&
      (!Present(a.contentType) ==> row.contentType == DefaultContentType) &&
      (a.content == Encode(bs) ==> row.size == |bs| + PadCount(a.content) && (row.size == |bs| <==> |bs| % 3 == 0))
  {
    if a.content == Encode(bs) {
      AsWrittenSizeOverstates(bs);
      PadCountOfEncode(bs);
    }
  }

  // ------------------------------------------------------------------ flag routes

  /** A route that runs one statement: `{ success: true }`, or a 500 with its message when it throws. */
  function FlagRoute(t: Tables, w: Write, failure: string): (Http.Reply, Tables) {
    var (t1, ok) := Step(t, w);
    if ok then (Http.Ok(Http.Success([])), t1) else (Http.ErrorReply(500, failure), t1)
  }

  function MarkReadRoute(t: Tables, id: string): (Http.Reply, Tables) {
    FlagRoute(t, MarkRead(id), MarkReadFailed)
  }

  function MarkUnreadRoute(t: Tables, id: string): (Http.Reply, Tables) {
    FlagRoute(t, MarkUnread(id), MarkUnreadFailed)
  }

  function StarRoute(t: Tables, id: string): (Http.Reply, Tables) {
    FlagRoute(t, ToggleStar(id), ToggleStarFailed)
  }

  function DeleteRoute(t: Tables, id: string): (Http.Reply, Tables) {
    FlagRoute(t, DeleteEmail(id), DeleteFailed)
  }

  method HandleMarkRead(db: Queries, id: string) returns (reply: Http.Reply)
    modifies db
    ensures (reply, db.Snapshot()) == MarkReadRoute(old(db.Snapshot()), id)
  {
    var ok := db.MarkAsRead(id);
    reply := if ok then Http.Ok(Http.Success([])) else Http.ErrorReply(500, MarkReadFailed);
  }

  method HandleMarkUnread(db: Queries, id: string) returns (reply: Http.Reply)
    modifies db
    ensures (reply, db.Snapshot()) == MarkUnreadRoute(old(db.Snapshot()), id)
  {
    var ok := db.MarkAsUnread(id);
    reply := if ok then Http.Ok(Http.Success([])) else Http.ErrorReply(500, MarkUnreadFailed);
  }

  method HandleStar(db: Queries, id: string) returns (reply: Http.Reply)
    modifies db
    ensures (reply, db.Snapshot()) == StarRoute(old(db.Snapshot()), id)
  {
    var ok := db.ToggleStarOf(id);
    reply := if ok then Http.Ok(Http.Success([])) else Http.ErrorReply(500, ToggleStarFailed);
  }

  method HandleDelete(db: Queries, id: string) returns (reply: Http.Reply)
    modifies db
    ensures (reply, db.Snapshot()) == DeleteRoute(old(db.Snapshot()), id)
  {
    var ok := db.DeleteEmailRow(id);
    reply := if ok then Http.Ok(Http.Success([])) else Http.ErrorReply(500, DeleteFailed);
  }

  /**
   * The flag routes answer success whether or not the id exists; a success sets or flips that one flag
   * (or removes that one row) and leaves every other row and table as it was.
   */
  lemma FlagRoutesEffect(t: Tables, id: string)
    ensures var (r, t1) := MarkReadRoute(t, id);
      r.status == 200 ==> t1.emails == WithRead(t.emails, id, 1) && t1.attachments == t.attachments
    ensures var (r, t1) := MarkUnreadRoute(t, id);
      r.status == 200 ==> t1.emails == WithRead(t.emails, id, 0) && t1.attachments == t.attachments
    ensures var (r, t1) := StarRoute(t, id);
      r.status == 200 ==> t1.emails == WithStarToggled(t.emails, id) && t1.attachments == t.attachments
    ensures var (r, t1) := DeleteRoute(t, id);
      r.status == 200 ==> t1.emails == t.emails - {id} && t1.attachments == t.attachments
    ensures t.failAfter.None? ==>
      MarkReadRoute(t, id).0.status == 200 && MarkUnreadRoute(t, id).0.status == 200 &&
      StarRoute(t, id).0.status == 200 && DeleteRoute(t, id).0.status == 200
    ensures MarkReadRoute(t, id).0.status != 200 ==> MarkReadRoute(t, id) == (Http.ErrorReply(500, MarkReadFailed), t)
  {
  }

  /** Starring twice, when both calls succeed, gives back the rows of the valid store it started from. */
  lemma StarTwice(t: Tables, id: string)
    requires Valid(t)
    requires StarRoute(t, id).0.status == 200
    requires StarRoute(StarRoute(t, id).1, id).0.status == 200
    ensures StarRoute(StarRoute(t, id).1, id).1.emails == t.emails
  {
    ToggleTwice(t, id);
  }

  /** Marking an unread row read and then unread, when both succeed, gives back its rows. */
  lemma ReadThenUnread(t: Tables, id: string)
    requires id in t.emails && t.emails[id].isRead == 0
    requires MarkReadRoute(t, id).0.status == 200
    requires MarkUnreadRoute(MarkReadRoute(t, id).1, id).0.status == 200
    ensures MarkUnreadRoute(MarkReadRoute(t, id).1, id).1.emails == t.emails
  {
    var t1 := MarkReadRoute(t, id).1;
    var t2 := MarkUnreadRoute(t1, id).1;
    assert t2.emails[id] == t.emails[id];
    assert t2.emails == t.emails;
  }
}
