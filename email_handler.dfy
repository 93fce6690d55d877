/**
 * The inbound intake pipeline: one parsed message becomes a `received` row, its attachments of at
 * most 5 MiB become attachment rows with base64 bodies, and the message is forwarded when a
 * destination is stored. Anything that throws is rethrown.
 */
module EmailHandler {
  import opened Wrappers
  import opened Bytes
  import opened Text
  import opened Base64
  import opened Database

  /** 5 MiB: larger attachments are skipped. */
  const MaxAttachmentSize: nat := 5 * 1024 * 1024

  /** The envelope of an inbound message: sender, recipient and the raw size in bytes. */
  datatype Message = Message(from: string, to: string, rawSize: nat)

  /** One attachment as the MIME parser returns it; absent fields are None. */
  datatype ParsedAttachment = ParsedAttachment(filename: Option<string>, mimeType: Option<string>, content: seq<byte>)

  /**
   * What the MIME parser returns. `headersJson` is the JSON text of the parsed headers; `cc` holds
   * the addresses of the parsed cc list when there is one.
   */
  datatype ParsedEmail = ParsedEmail(
    subject: Option<string>,
    text: Option<string>,
    html: Option<string>,
    headersJson: string,
    cc: Option<seq<string>>,
    attachments: Option<seq<ParsedAttachment>>)

  /** Why the pipeline rethrew. */
  datatype Failure = ParseFailed | StoreFailed | ForwardFailed

  /** The cc column: the addresses joined by `, `, or null when that text is empty. */
  function CcColumn(cc: Option<seq<string>>): Option<string> {
    if cc.None? then None else OrNull(Some(Join(cc.value, ", ")))
  }

  function EmailRowFor(id: string, msg: Message, p: ParsedEmail): Email {
    Email(id, Received, msg.from, msg.to, CcColumn(p.cc), None, Some(Or(p.subject, "(No Subject)")),
          OrNull(p.text), OrNull(p.html), Some(p.headersJson), Some(msg.rawSize), 0, 0, None)
  }

  predicate Kept(a: ParsedAttachment) {
    |a.content| <= MaxAttachmentSize
  }

  /** The attachments that are stored, in parsed order. */
  function KeptAttachments(atts: seq<ParsedAttachment>): (r: seq<ParsedAttachment>)
    ensures |r| <= |atts|
    ensures forall a :: a in r <==> a in atts && Kept(a)
    decreases |atts|
  {
    if |atts| == 0 then []
    else KeptAttachments(atts[..|atts| - 1]) + (if Kept(atts[|atts| - 1]) then [atts[|atts| - 1]] else [])
  }

  function AttachmentRowFor(id: string, emailId: string, a: ParsedAttachment): Attachment {
    Attachment(id, emailId, Or(a.filename, "unnamed"), Or(a.mimeType, "application/octet-stream"), |a.content|, Encode(a.content))
  }

  /** The attachment inserts: the k-th kept attachment takes the (k+1)-th fresh id, the message the 0-th. */
  function AttachmentWrites(kept: seq<ParsedAttachment>, emailId: string, uuid: nat -> string): (ws: seq<Write>)
    ensures |ws| == |kept|
    ensures forall k :: 0 <= k < |kept| ==> ws[k] == InsertAttachment(AttachmentRowFor(uuid(k + 1), emailId, kept[k]))
  {
    Inserts(AttachmentRows(kept, emailId, uuid))
  }

  /** One attachment insert per row, in order. */
  function Inserts(rows: seq<Attachment>): (ws: seq<Write>)
    ensures |ws| == |rows|
    ensures forall k :: 0 <= k < |rows| ==> ws[k] == InsertAttachment(rows[k])
  {
    seq(|rows|, k requires 0 <= k < |rows| => InsertAttachment(rows[k]))
  }


  function AttachmentsOfParsed(p: ParsedEmail): seq<ParsedAttachment> {
    if p.attachments.Some? then p.attachments.value else []
  }

  /** Every store write of the pipeline, in order: the message row, then the kept attachments. */
  function IntakeWrites(msg: Message, p: ParsedEmail, uuid: nat -> string): seq<Write> {
    [InsertEmail(EmailRowFor(uuid(0), msg, p))] + AttachmentWrites(KeptAttachments(AttachmentsOfParsed(p)), uuid(0), uuid)
  }

  /**
   * The whole pipeline on a store: the outcome (the address forwarded to, if any) and the new store.
   * `parsed` is the parser's answer and `forwardOk` whether forwarding succeeds.
   */
  function Intake(t: Tables, msg: Message, parsed: Result<ParsedEmail, Failure>, uuid: nat -> string, forwardOk: bool)
    : (Result<Option<string>, Failure>, Tables)
  {
    match parsed
    case Err(_) => (Err(ParseFailed), t)
    case Ok(p) =>
      var (t1, ok) := Run(t, IntakeWrites(msg, p, uuid));
      if !ok then (Err(StoreFailed), t1)
      else
        var dest := SettingOf(t1.settings, "destination_email");
        if !Present(dest) then (Ok(None), t1)
        else if forwardOk then (Ok(dest), t1)
        else (Err(ForwardFailed), t1)
  }

  /** `uint8ArrayToBase64`: one char per byte into a binary string, then `btoa`. */
  method Uint8ArrayToBase64(bytes: array<byte>) returns (s: string)
    ensures s == Encode(bytes[..])
  {
    var binary := "";
    var i := 0;
    while i < bytes.Length
      invariant 0 <= i <= bytes.Length
      invariant binary == Latin1(bytes[..i])
    {
      assert bytes[..i + 1] == bytes[..i] + [bytes[i]];
      Latin1Append(bytes[..i], [bytes[i]]);
      binary := binary + [(bytes[i] as int) as char];
      i := i + 1;
    }
    assert bytes[..i] == bytes[..];
    CharCodesOfLatin1(bytes[..]);
    s := Btoa(binary);
  }

  lemma {:induction false} Latin1Append(a: seq<byte>, b: seq<byte>)
    ensures Latin1(a + b) == Latin1(a) + Latin1(b)
    decreases |a|
  {
    if |a| == 0 {
      assert a + b == b;
    } else {
      assert (a + b)[1..] == a[1..] + b;
      Latin1Append(a[1..], b);
    }
  }

  /** The writes issued once the first `n` parsed attachments have been dealt with. */
  function IntakePrefix(msg: Message, p: ParsedEmail, uuid: nat -> string, n: nat): seq<Write>
    requires n <= |AttachmentsOfParsed(p)|
  {
    [InsertEmail(EmailRowFor(uuid(0), msg, p))] + AttachmentWrites(KeptAttachments(AttachmentsOfParsed(p)[..n]), uuid(0), uuid)
  }

  /** `handleEmail`. */
  method HandleEmail(db: Queries, msg: Message, parsed: Result<ParsedEmail, Failure>, uuid: nat -> string, forwardOk: bool)
    returns (r: Result<Option<string>, Failure>)
    modifies db
    ensures (r, db.Snapshot()) == Intake(old(db.Snapshot()), msg, parsed, uuid, forwardOk)
  {
    if parsed.Err? {
      return Err(ParseFailed);
    }
    var p := parsed.value;
    ghost var t0 := db.Snapshot();
    var ok := db.CreateEmail(EmailRowFor(uuid(0), msg, p));
    assert IntakePrefix(msg, p, uuid, 0) == [InsertEmail(EmailRowFor(uuid(0), msg, p))];
    if !ok {
      IntakeFails(t0, msg, p, uuid, 0);
      return Err(StoreFailed);
    }
    ok := StoreAttachments(db, t0, msg, p, uuid);
    if !ok {
      return Err(StoreFailed);
    }
    var dest := db.GetSetting("destination_email");
    if dest.Some? && dest.value != "" {
      if !forwardOk {
        return Err(ForwardFailed);
      }
      return Ok(dest);
    }
    return Ok(None);
  }

  /** The attachment loop of `handleEmail`, once the message row is in. */
  method StoreAttachments(db: Queries, ghost t0: Tables, msg: Message, p: ParsedEmail, uuid: nat -> string) returns (ok: bool)
    requires Run(t0, IntakePrefix(msg, p, uuid, 0)) == (db.Snapshot(), true)
    modifies db
    ensures Run(t0, IntakeWrites(msg, p, uuid)) == (db.Snapshot(), ok)
  {
    var id := uuid(0);
    var atts := AttachmentsOfParsed(p);
    var n := 0;
    var stored := 0;
    while n < |atts|
      invariant 0 <= n <= |atts|
      invariant stored == |KeptAttachments(atts[..n])|
      invariant Run(t0, IntakePrefix(msg, p, uuid, n)) == (db.Snapshot(), true)
    {
      var a := atts[n];
      IntakeStep(t0, msg, p, uuid, n, db.Snapshot());
      KeptSnoc(atts, n);
      if |a.content| > MaxAttachmentSize {
        n := n + 1;
        continue;
      }
      ok := StoreAttachment(db, t0, msg, p, uuid, n, stored);
      if !ok {
        IntakeFails(t0, msg, p, uuid, n + 1);
        return;
      }
      stored := stored + 1;
      n := n + 1;
    }
    IntakeWhole(msg, p, uuid);
    ok := true;
  }

  /** One kept attachment of the loop: its row, under the next fresh id, inserted after the earlier ones. */
  method StoreAttachment(db: Queries, ghost t0: Tables, msg: Message, p: ParsedEmail, uuid: nat -> string, n: nat, stored: nat)
    returns (ok: bool)
    requires n < |AttachmentsOfParsed(p)| && Kept(AttachmentsOfParsed(p)[n])
    requires stored == |KeptAttachments(AttachmentsOfParsed(p)[..n])|
    requires Run(t0, IntakePrefix(msg, p, uuid, n)) == (db.Snapshot(), true)
    modifies db
    ensures Run(t0, IntakePrefix(msg, p, uuid, n + 1)) == (db.Snapshot(), ok)
  {
    var a := AttachmentsOfParsed(p)[n];
    IntakeStep(t0, msg, p, uuid, n, db.Snapshot());
    var content := AttachmentContent(a.content);
    var row := Attachment(uuid(stored + 1), uuid(0), Or(a.filename, "unnamed"), Or(a.mimeType, "application/octet-stream"), |a.content|, content);
    assert row == AttachmentRowFor(uuid(stored + 1), uuid(0), a);
    ok := db.CreateAttachment(row);
  }

  /** `Buffer.from(content)` followed by `uint8ArrayToBase64`. */
  method AttachmentContent(content: seq<byte>) returns (s: string)
    ensures s == Encode(content)
  {
    var buffer := new byte[|content|](k requires 0 <= k < |content| => content[k]);
    assert buffer[..] == content;
    s := Uint8ArrayToBase64(buffer);
  }

  lemma KeptSnoc(atts: seq<ParsedAttachment>, n: nat)
    requires n < |atts|
    ensures KeptAttachments(atts[..n + 1]) == KeptAttachments(atts[..n]) + (if Kept(atts[n]) then [atts[n]] else [])
  {
    assert atts[..n + 1][..n] == atts[..n];
  }

  lemma WritesSnoc(kept: seq<ParsedAttachment>, a: ParsedAttachment, emailId: string, uuid: nat -> string)
    ensures AttachmentWrites(kept + [a], emailId, uuid)
         == AttachmentWrites(kept, emailId, uuid) + [InsertAttachment(AttachmentRowFor(uuid(|kept| + 1), emailId, a))]
  {
    var l := AttachmentWrites(kept + [a], emailId, uuid);
    var r := AttachmentWrites(kept, emailId, uuid) + [InsertAttachment(AttachmentRowFor(uuid(|kept| + 1), emailId, a))];
    assert |l| == |r|;
    forall k | 0 <= k < |l| ensures l[k] == r[k] {
      assert (kept + [a])[k] == if k < |kept| then kept[k] else a;
    }
  }

  /** One more parsed attachment: a skipped one adds no write, a kept one adds its insert. */
  lemma IntakeStep(t0: Tables, msg: Message, p: ParsedEmail, uuid: nat -> string, n: nat, t1: Tables)
    requires n < |AttachmentsOfParsed(p)|
    requires Run(t0, IntakePrefix(msg, p, uuid, n)) == (t1, true)
    ensures var a := AttachmentsOfParsed(p)[n];
      (!Kept(a) ==> IntakePrefix(msg, p, uuid, n + 1) == IntakePrefix(msg, p, uuid, n)) &&
      (Kept(a) ==>
        Run(t0, IntakePrefix(msg, p, uuid, n + 1)) == Step(t1, InsertAttachment(AttachmentRowFor(uuid(|KeptAttachments(AttachmentsOfParsed(p)[..n])| + 1), uuid(0), a))))
  {
    var atts := AttachmentsOfParsed(p);
    KeptSnoc(atts, n);
    if Kept(atts[n]) {
      var kept := KeptAttachments(atts[..n]);
      var w := InsertAttachment(AttachmentRowFor(uuid(|kept| + 1), uuid(0), atts[n]));
      WritesSnoc(kept, atts[n], uuid(0), uuid);
      assert IntakePrefix(msg, p, uuid, n + 1) == IntakePrefix(msg, p, uuid, n) + [w];
      RunAppend(t0, IntakePrefix(msg, p, uuid, n), [w]);
    } else {
      assert KeptAttachments(atts[..n + 1]) == KeptAttachments(atts[..n]);
    }
  }

  /** A failure after `n` attachments is the failure of the whole write list. */
  lemma IntakeFails(t0: Tables, msg: Message, p: ParsedEmail, uuid: nat -> string, n: nat)
    requires n <= |AttachmentsOfParsed(p)|
    requires !Run(t0, IntakePrefix(msg, p, uuid, n)).1
    ensures Run(t0, IntakeWrites(msg, p, uuid)) == Run(t0, IntakePrefix(msg, p, uuid, n))
  {
    var atts := AttachmentsOfParsed(p);
    KeptPrefix(atts, n);
    WritesPrefix(KeptAttachments(atts[..n]), KeptAttachments(atts), uuid(0), uuid);
    assert atts[..|atts|] == atts;
    RunFailsFrom(t0, IntakePrefix(msg, p, uuid, n), IntakeWrites(msg, p, uuid));
  }

  lemma IntakeWhole(msg: Message, p: ParsedEmail, uuid: nat -> string)
    ensures IntakePrefix(msg, p, uuid, |AttachmentsOfParsed(p)|) == IntakeWrites(msg, p, uuid)
  {
    var atts := AttachmentsOfParsed(p);
    assert atts[..|atts|] == atts;
  }

  lemma {:induction false} KeptPrefix(atts: seq<ParsedAttachment>, m: nat)
    requires m <= |atts|
    ensures KeptAttachments(atts[..m]) <= KeptAttachments(atts)
    decreases |atts| - m
  {
    if m < |atts| {
      KeptPrefix(atts, m + 1);
      KeptSnoc(atts, m);
    } else {
      assert atts[..m] == atts;
    }
  }

  lemma WritesPrefix(k1: seq<ParsedAttachment>, k2: seq<ParsedAttachment>, emailId: string, uuid: nat -> string)
    requires k1 <= k2
    ensures AttachmentWrites(k1, emailId, uuid) <= AttachmentWrites(k2, emailId, uuid)
  {
  }

  // ------------------------------------------------------------------ what the pipeline promises

  /** The attachment rows the pipeline appends, in order. */
  function AttachmentRows(kept: seq<ParsedAttachment>, emailId: string, uuid: nat -> string): seq<Attachment> {
    seq(|kept|, k requires 0 <= k < |kept| => AttachmentRowFor(uuid(k + 1), emailId, kept[k]))
  }

  /** The budget left after `n` more successful writes. */
  function Spent(f: Option<nat>, n: nat): Option<nat> {
    if f.None? then None else if f.value >= n then Some(f.value - n) else Some(0)
  }

  /** Successful attachment inserts append their rows and touch nothing else. */
  lemma {:induction false} RunAttachmentWrites(t: Tables, kept: seq<ParsedAttachment>, emailId: string, uuid: nat -> string)
    requires Run(t, AttachmentWrites(kept, emailId, uuid)).1
    ensures var t1 := Run(t, AttachmentWrites(kept, emailId, uuid)).0;
      t1 == t.(attachments := t.attachments + AttachmentRows(kept, emailId, uuid), failAfter := Spent(t.failAfter, |kept|))
    decreases |kept|
  {
    RunInserts(t, AttachmentRows(kept, emailId, uuid));
  }

  /** Successful attachment inserts append their rows and touch nothing else. */
  lemma {:induction false} RunInserts(t: Tables, rows: seq<Attachment>)
    requires Run(t, Inserts(rows)).1
    ensures Run(t, Inserts(rows)).0 == t.(attachments := t.attachments + rows, failAfter := Spent(t.failAfter, |rows|))
    decreases |rows|
  {
    if |rows| == 0 {
      assert t.attachments + rows == t.attachments;
    } else {
      var front := rows[..|rows| - 1];
      var row := rows[|rows| - 1];
      SplitLast(rows);
      InsertsSnoc(front, row);
      RunSnoc(t, Inserts(front), InsertAttachment(row));
      RunInserts(t, front);
      AppendStep(t, Run(t, Inserts(front)).0, front, row, |front|);
    }
  }

  lemma InsertsSnoc(front: seq<Attachment>, row: Attachment)
    ensures Inserts(front + [row]) == Inserts(front) + [InsertAttachment(row)]
  {
  }

  /** One more successful insert on top of `n` appends its row and spends one more write. */
  lemma AppendStep(t: Tables, t2: Tables, rows: seq<Attachment>, row: Attachment, n: nat)
    requires t2 == t.(attachments := t.attachments + rows, failAfter := Spent(t.failAfter, n))
    requires Step(t2, InsertAttachment(row)).1
    ensures Step(t2, InsertAttachment(row)).0 == t.(attachments := t.attachments + (rows + [row]), failAfter := Spent(t.failAfter, n + 1))
  {
    InsertAttachmentStep(t2, row);
    assert t.attachments + rows + [row] == t.attachments + (rows + [row]);
    SpentStep(t.failAfter, n);
  }

  lemma SpentStep(f: Option<nat>, n: nat)
    ensures Spent(Spent(f, n), 1) == Spent(f, n + 1)
  {
  }

  lemma InsertAttachmentStep(t: Tables, row: Attachment)
    requires Step(t, InsertAttachment(row)).1
    ensures Step(t, InsertAttachment(row)).0 == t.(attachments := t.attachments + [row], failAfter := Spent(t.failAfter, 1))
  {
  }

  lemma RunOne(t: Tables, w: Write)
    ensures Run(t, [w]) == Step(t, w)
  {
    assert [w][1..] == [];
  }

  /**
   * After a successful run the message row is stored under the fresh id, the kept attachments follow
   * it in parsed order, and settings, addresses and sessions are as before.
   */
  lemma IntakeStored(t: Tables, msg: Message, p: ParsedEmail, uuid: nat -> string)
    requires Run(t, IntakeWrites(msg, p, uuid)).1
    ensures var t1 := Run(t, IntakeWrites(msg, p, uuid)).0;
      var kept := KeptAttachments(AttachmentsOfParsed(p));
      uuid(0) !in t.emails &&
      t1.emails == t.emails[uuid(0) := EmailRowFor(uuid(0), msg, p)] &&
      t1.attachments == t.attachments + AttachmentRows(kept, uuid(0), uuid) &&
      t1.settings == t.settings && t1.addresses == t.addresses && t1.sessions == t.sessions
  {
    var kept := KeptAttachments(AttachmentsOfParsed(p));
    var head := [InsertEmail(EmailRowFor(uuid(0), msg, p))];
    RunAppend(t, head, AttachmentWrites(kept, uuid(0), uuid));
    var t1 := Run(t, head).0;
    RunAttachmentWrites(t1, kept, uuid(0), uuid);
  }

  /** Each appended row belongs to the new message and carries the attachment's exact size and its base64 text. */
  lemma AttachmentRowsShape(kept: seq<ParsedAttachment>, emailId: string, uuid: nat -> string)
    ensures var rows := AttachmentRows(kept, emailId, uuid);
      |rows| == |kept| &&
      forall k :: 0 <= k < |kept| ==>
        rows[k].id == uuid(k + 1) && rows[k].emailId == emailId &&
        rows[k].size == |kept[k].content| && Decode(rows[k].content) == Some(kept[k].content) &&
        (Present(kept[k].filename) ==> rows[k].filename == kept[k].filename.value) &&
        (!Present(kept[k].filename) ==> rows[k].filename == "unnamed") &&
        (Present(kept[k].mimeType) ==> rows[k].contentType == kept[k].mimeType.value) &&
        (!Present(kept[k].mimeType) ==> rows[k].contentType == "application/octet-stream")
  {
    forall k | 0 <= k < |kept| ensures Decode(Encode(kept[k].content)) == Some(kept[k].content) {
      DecodeEncode(kept[k].content);
    }
  }

  /** Filtering distributes over concatenation, so the kept attachments keep their parsed order. */
  lemma {:induction false} KeptAppend(a: seq<ParsedAttachment>, b: seq<ParsedAttachment>)
    ensures KeptAttachments(a + b) == KeptAttachments(a) + KeptAttachments(b)
    decreases |b|
  {
    if |b| == 0 {
      assert a + b == a;
    } else {
      var front := b[..|b| - 1];
      assert (a + b)[..|a + b| - 1] == a + front;
      assert front + [b[|b| - 1]] == b;
      assert b[..|b| - 1] == front;
      KeptAppend(a, front);
    }
  }

  /** An attachment is stored iff it is at most 5 MiB, so one of exactly 5 MiB is stored. */
  lemma KeptSingle(a: ParsedAttachment)
    ensures KeptAttachments([a]) == (if |a.content| <= 5 * 1024 * 1024 then [a] else [])
  {
    assert [a][..0] == [];
  }

  /** The message row: a received, unread, unstarred row with the raw size and the parser's fields or their defaults. */
  lemma EmailRowShape(id: string, msg: Message, p: ParsedEmail)
    ensures var e := EmailRowFor(id, msg, p);
      e.id == id && e.kind == Received && e.isRead == 0 && e.isStarred == 0 &&
      e.bcc.None? && e.mailgunId.None? && e.rawSize == Some(msg.rawSize) &&
      e.fromAddress == msg.from && e.toAddress == msg.to && e.headers == Some(p.headersJson) &&
      (e.subject == Some("(No Subject)") <== !Present(p.subject)) &&
      (Present(p.subject) ==> e.subject == p.subject) &&
      (e.bodyText.None? <==> !Present(p.text)) && (e.bodyText.Some? ==> e.bodyText == p.text) &&
      (e.bodyHtml.None? <==> !Present(p.html)) && (e.bodyHtml.Some? ==> e.bodyHtml == p.html) &&
      (e.cc.None? <==> (p.cc.None? || Join(p.cc.value, ", ") == "")) &&
      (e.cc.Some? ==> e.cc == Some(Join(p.cc.value, ", ")))
  {
  }

  /**
   * The outcome: a parse failure touches nothing; a store failure is reported as such; otherwise the
   * message is forwarded to the stored destination exactly when one is set, after every write.
   */
  lemma IntakeOutcome(t: Tables, msg: Message, parsed: Result<ParsedEmail, Failure>, uuid: nat -> string, forwardOk: bool)
    ensures var (r, t1) := Intake(t, msg, parsed, uuid, forwardOk);
      (parsed.Err? ==> r == Err(ParseFailed) && t1 == t) &&
      (parsed.Ok? ==> t1 == Run(t, IntakeWrites(msg, parsed.value, uuid)).0) &&
      (parsed.Ok? ==> (r == Err(StoreFailed) <==> !Run(t, IntakeWrites(msg, parsed.value, uuid)).1)) &&
      (parsed.Ok? && Run(t, IntakeWrites(msg, parsed.value, uuid)).1 ==>
        var dest := SettingOf(t.settings, "destination_email");
        (r == Ok(None) <==> !Present(dest)) &&
        (r.Ok? && r.value.Some? <==> Present(dest) && forwardOk) &&
        (r.Ok? && r.value.Some? ==> r.value == dest) &&
        (r == Err(ForwardFailed) <==> Present(dest) && !forwardOk))
  {
    if parsed.Ok? && Run(t, IntakeWrites(msg, parsed.value, uuid)).1 {
      IntakeStored(t, msg, parsed.value, uuid);
    }
  }
}
