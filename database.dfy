/**
 * The D1 store behind `DatabaseQueries`: five tables, the writes the queries perform on them,
 * and a class whose methods are the queries.
 *
 * A write may throw. `failAfter` models that: `None` is a healthy store, `Some(k)` lets `k` more
 * writes through and makes every later one throw. An insert whose primary key is taken throws too.
 * A write that throws changes nothing. Reads do not throw.
 */
module Database {
  import opened Wrappers
  import opened Text

  /** The message of an exception the store throws; its text is not modelled. */
  const StoreErrorMessage := "D1_ERROR"

  datatype EmailType = Received | Sent

  /** The text stored in the `type` column. */
  function TypeName(t: EmailType): string {
    match t
    case Received => "received"
    case Sent => "sent"
  }

  /** A row of `emails`; `created_at` is filled in by the database clock and is not modelled. */
  datatype Email = Email(
    id: string,
    kind: EmailType,
    fromAddress: string,
    toAddress: string,
    cc: Option<string>,
    bcc: Option<string>,
    subject: Option<string>,
    bodyText: Option<string>,
    bodyHtml: Option<string>,
    headers: Option<string>,
    rawSize: Option<nat>,
    isRead: int,
    isStarred: int,
    mailgunId: Option<string>)

  datatype Setting = Setting(key: string, value: string)

  datatype Address = Address(id: string, address: string, displayName: Option<string>, isDefault: int)

  /** A row of `sessions`; `expiresAt` is an instant in milliseconds. */
  datatype Session = Session(id: string, token: string, expiresAt: int)

  /** A row of `attachments`; `content` is the base64 text of the bytes. */
  datatype Attachment = Attachment(id: string, emailId: string, filename: string, contentType: string, size: nat, content: string)

  /** What `getAttachmentsByEmailId` selects: every column but `content`. */
  datatype AttachmentInfo = AttachmentInfo(id: string, emailId: string, filename: string, contentType: string, size: nat)

  datatype Tables = Tables(
    settings: seq<Setting>,
    emails: map<string, Email>,
    addresses: map<string, Address>,
    sessions: seq<Session>,
    attachments: seq<Attachment>,
    failAfter: Option<nat>)

  /** One SQL statement that changes the store (a D1 batch counts as one). */
  datatype Write =
    | SetSetting(key: string, value: string)
    | InsertEmail(email: Email)
    | MarkRead(id: string)
    | MarkUnread(id: string)
    | ToggleStar(id: string)
    | DeleteEmail(id: string)
    | InsertAddress(address: Address)
    | DeleteAddress(id: string)
    | SetDefaultAddress(id: string)
    | InsertSession(session: Session)
    | DeleteSession(token: string)
    | CleanExpiredSessions(now: int)
    | InsertAttachment(attachment: Attachment)
    | DeleteAttachmentsOf(emailId: string)

  // ------------------------------------------------------------------ settings

  predicate UniqueKeys(rows: seq<Setting>) {
    forall i, j :: 0 <= i < j < |rows| ==> rows[i].key != rows[j].key
  }

  /** `getSetting`: the value of the row with that key, or null. */
  function SettingOf(rows: seq<Setting>, key: string): (r: Option<string>)
    ensures r.None? <==> forall i :: 0 <= i < |rows| ==> rows[i].key != key
    ensures r.Some? ==> exists i :: 0 <= i < |rows| && rows[i] == Setting(key, r.value)
    decreases |rows|
  {
    if |rows| == 0 then None
    else if rows[0].key == key then Some(rows[0].value)
    else SettingOf(rows[1..], key)
  }

  /** The dictionary `getAllSettings` fills: row by row, so a later row of the same key wins. */
  function SettingsMap(rows: seq<Setting>): map<string, string>
    decreases |rows|
  {
    if |rows| == 0 then map[]
    else SettingsMap(rows[..|rows| - 1])[rows[|rows| - 1].key := rows[|rows| - 1].value]
  }

  /** One entry per row key, and nothing else. */
  lemma {:induction false} SettingsMapKeys(rows: seq<Setting>)
    ensures SettingsMap(rows).Keys == set i | 0 <= i < |rows| :: rows[i].key
    decreases |rows|
  {
    if |rows| > 0 {
      var front := rows[..|rows| - 1];
      SettingsMapKeys(front);
      assert (set i | 0 <= i < |rows| :: rows[i].key) == (set i | 0 <= i < |front| :: front[i].key) + {rows[|rows| - 1].key};
    }
  }

  /** With unique keys every row's value is what the lookup of its key returns. */
  lemma SettingOfIndex(rows: seq<Setting>, i: nat)
    requires UniqueKeys(rows) && i < |rows|
    ensures SettingOf(rows, rows[i].key) == Some(rows[i].value)
  {
    var r := SettingOf(rows, rows[i].key);
    var j :| 0 <= j < |rows| && rows[j] == Setting(rows[i].key, r.value);
    assert i == j;
  }

  lemma {:induction false} SettingsMapRow(rows: seq<Setting>, i: nat)
    requires UniqueKeys(rows) && i < |rows|
    ensures rows[i].key in SettingsMap(rows) && SettingsMap(rows)[rows[i].key] == rows[i].value
    decreases |rows|
  {
    if i < |rows| - 1 {
      var front := rows[..|rows| - 1];
      assert front[i] == rows[i];
      SettingsMapRow(front, i);
    }
  }

  /** With unique keys the dictionary and the single-key lookup agree on every key. */
  lemma SettingsMapUnique(rows: seq<Setting>)
    requires UniqueKeys(rows)
    ensures forall i :: 0 <= i < |rows| ==> rows[i].key in SettingsMap(rows) && SettingsMap(rows)[rows[i].key] == rows[i].value
    ensures forall key :: SettingOf(rows, key).Some? <==> key in SettingsMap(rows)
    ensures forall key :: key in SettingsMap(rows) ==> SettingsMap(rows)[key] == SettingOf(rows, key).value
  {
    SettingsMapKeys(rows);
    forall i | 0 <= i < |rows|
      ensures rows[i].key in SettingsMap(rows) && SettingsMap(rows)[rows[i].key] == rows[i].value
    {
      SettingsMapRow(rows, i);
    }
    forall key | key in SettingsMap(rows)
      ensures SettingsMap(rows)[key] == SettingOf(rows, key).value
    {
      var i :| 0 <= i < |rows| && rows[i].key == key;
      SettingsMapRow(rows, i);
      SettingOfIndex(rows, i);
    }
  }

  /** `INSERT ... ON CONFLICT(key) DO UPDATE`: the row with that key takes the value, or a row is added. */
  function Upsert(rows: seq<Setting>, key: string, value: string): seq<Setting>
    decreases |rows|
  {
    if |rows| == 0 then [Setting(key, value)]
    else if rows[0].key == key then [Setting(key, value)] + rows[1..]
    else [rows[0]] + Upsert(rows[1..], key, value)
  }

  lemma {:induction false} UpsertReads(rows: seq<Setting>, key: string, value: string)
    ensures SettingOf(Upsert(rows, key, value), key) == Some(value)
    ensures forall k :: k != key ==> SettingOf(Upsert(rows, key, value), k) == SettingOf(rows, k)
    decreases |rows|
  {
    if |rows| > 0 && rows[0].key != key {
      UpsertReads(rows[1..], key, value);
    }
  }

  /** A row with a key the unique rows after it lack keeps them unique. */
  lemma UniqueCons(x: Setting, rows: seq<Setting>)
    requires UniqueKeys(rows) && forall y :: y in rows ==> y.key != x.key
    ensures UniqueKeys([x] + rows)
  {
    var r := [x] + rows;
    forall i, j | 0 <= i < j < |r| ensures r[i].key != r[j].key {
      assert r[j] == rows[j - 1];
      if i > 0 {
        assert r[i] == rows[i - 1];
      }
    }
  }

  /** An upsert only adds the row it writes: every other row comes from the table. */
  lemma {:induction false} UpsertRows(rows: seq<Setting>, key: string, value: string)
    ensures forall x :: x in Upsert(rows, key, value) ==> x == Setting(key, value) || x in rows
    ensures forall x :: x in rows && x.key != key ==> x in Upsert(rows, key, value)
    ensures |Upsert(rows, key, value)| == |rows| + (if SettingOf(rows, key).Some? then 0 else 1)
    decreases |rows|
  {
    if |rows| > 0 && rows[0].key != key {
      UpsertRows(rows[1..], key, value);
    }
  }

  lemma {:induction false} UpsertUnique(rows: seq<Setting>, key: string, value: string)
    requires UniqueKeys(rows)
    ensures UniqueKeys(Upsert(rows, key, value))
    decreases |rows|
  {
    if |rows| > 0 && rows[0].key != key {
      var tail := Upsert(rows[1..], key, value);
      UpsertUnique(rows[1..], key, value);
      UpsertRows(rows[1..], key, value);
      forall x | x in tail ensures x.key != rows[0].key {
        if x != Setting(key, value) {
          var m :| 0 <= m < |rows[1..]| && rows[1..][m] == x;
          assert rows[m + 1] == x;
        }
      }
      UniqueCons(rows[0], tail);
    }
  }

  // ------------------------------------------------------------------ emails

  /** SQLite's `NOT`: 0 becomes 1 and every other value becomes 0. */
  function Not(x: int): int {
    if x == 0 then 1 else 0
  }

  function WithRead(emails: map<string, Email>, id: string, flag: int): (r: map<string, Email>)
    ensures r.Keys == emails.Keys
    ensures id in emails ==> r[id] == emails[id].(isRead := flag)
    ensures forall k :: k in emails && k != id ==> r[k] == emails[k]
  {
    if id in emails then emails[id := emails[id].(isRead := flag)] else emails
  }

  function WithStarToggled(emails: map<string, Email>, id: string): (r: map<string, Email>)
    ensures r.Keys == emails.Keys
    ensures id in emails ==> r[id] == emails[id].(isStarred := Not(emails[id].isStarred))
    ensures forall k :: k in emails && k != id ==> r[k] == emails[k]
  {
    if id in emails then emails[id := emails[id].(isStarred := Not(emails[id].isStarred))] else emails
  }

  // ------------------------------------------------------------------ addresses

  /** The two-statement batch of `setDefaultAddress`: every row to 0, then the row `id` to 1. */
  function WithDefault(addresses: map<string, Address>, id: string): (r: map<string, Address>)
    ensures r.Keys == addresses.Keys
    ensures forall k :: k in r ==> r[k] == addresses[k].(isDefault := if k == id then 1 else 0)
  {
    map k | k in addresses :: addresses[k].(isDefault := if k == id then 1 else 0)
  }

  /** The single-default rule: no two addresses are marked default. */
  predicate AtMostOneDefault(addresses: map<string, Address>) {
    forall a, b :: a in addresses && b in addresses && addresses[a].isDefault == 1 && addresses[b].isDefault == 1 ==> a == b
  }

  // ------------------------------------------------------------------ sessions

  /**
   * A session is live while the clock is before its expiry (`expires_at > now`). Instants are
   * integers here, so this is the time order the comparison is meant to follow; `Expiry` models the
   * text comparison as written, which differs on the expiry date itself.
   */
  predicate Live(s: Session, now: int) {
    now < s.expiresAt
  }

  /** `getSessionByToken`: the first live session with that token. */
  function LiveSession(sessions: seq<Session>, token: string, now: int): (r: Option<Session>)
    ensures r.Some? ==> r.value in sessions && r.value.token == token && Live(r.value, now)
    ensures r.None? ==> forall i :: 0 <= i < |sessions| ==> !(sessions[i].token == token && Live(sessions[i], now))
    decreases |sessions|
  {
    if |sessions| == 0 then None
    else if sessions[0].token == token && Live(sessions[0], now) then Some(sessions[0])
    else LiveSession(sessions[1..], token, now)
  }

  function WithoutToken(sessions: seq<Session>, token: string): (r: seq<Session>)
    ensures forall s :: s in r <==> s in sessions && s.token != token
    decreases |sessions|
  {
    if |sessions| == 0 then []
    else (if sessions[0].token == token then [] else [sessions[0]]) + WithoutToken(sessions[1..], token)
  }

  /** `DELETE ... WHERE expires_at < now`: a session expiring exactly now is kept. */
  function Unexpired(sessions: seq<Session>, now: int): (r: seq<Session>)
    ensures forall s :: s in r <==> s in sessions && !(s.expiresAt < now)
    decreases |sessions|
  {
    if |sessions| == 0 then []
    else (if sessions[0].expiresAt < now then [] else [sessions[0]]) + Unexpired(sessions[1..], now)
  }

  // ------------------------------------------------------------------ attachments

  function WithoutAttachmentsOf(atts: seq<Attachment>, emailId: string): (r: seq<Attachment>)
    ensures forall a :: a in r <==> a in atts && a.emailId != emailId
    decreases |atts|
  {
    if |atts| == 0 then []
    else (if atts[0].emailId == emailId then [] else [atts[0]]) + WithoutAttachmentsOf(atts[1..], emailId)
  }

  function Info(a: Attachment): AttachmentInfo {
    AttachmentInfo(a.id, a.emailId, a.filename, a.contentType, a.size)
  }

  /** `getAttachmentsByEmailId`: the rows of that email, in table order, without their content. */
  function AttachmentsOf(atts: seq<Attachment>, emailId: string): (r: seq<AttachmentInfo>)
    ensures forall i :: 0 <= i < |r| ==> r[i].emailId == emailId
    ensures forall a :: a in atts && a.emailId == emailId ==> Info(a) in r
    decreases |atts|
  {
    if |atts| == 0 then []
    else (if atts[0].emailId == emailId then [Info(atts[0])] else []) + AttachmentsOf(atts[1..], emailId)
  }

  /** Every row listed is the summary of a stored attachment of that email. */
  lemma {:induction false} AttachmentsOfFrom(atts: seq<Attachment>, emailId: string, i: nat)
    requires i < |AttachmentsOf(atts, emailId)|
    ensures exists a :: a in atts && a.emailId == emailId && AttachmentsOf(atts, emailId)[i] == Info(a)
    decreases |atts|
  {
    var h := if atts[0].emailId == emailId then [Info(atts[0])] else [];
    var rest := AttachmentsOf(atts[1..], emailId);
    assert AttachmentsOf(atts, emailId) == h + rest;
    if i < |h| {
      assert atts[0] in atts;
    } else {
      AttachmentsOfFrom(atts[1..], emailId, i - |h|);
      var a :| a in atts[1..] && a.emailId == emailId && rest[i - |h|] == Info(a);
      assert a in atts;
    }
  }

  /** The rows of two stretches of the table, in table order: those of the first, then those of the second. */
  lemma {:induction false} AttachmentsOfAppend(a: seq<Attachment>, b: seq<Attachment>, emailId: string)
    ensures AttachmentsOf(a + b, emailId) == AttachmentsOf(a, emailId) + AttachmentsOf(b, emailId)
    decreases |a|
  {
    if |a| == 0 {
      assert a + b == b;
    } else {
      var h := if a[0].emailId == emailId then [Info(a[0])] else [];
      var front, rest := AttachmentsOf(a[1..], emailId), AttachmentsOf(b, emailId);
      assert (a + b)[0] == a[0] && (a + b)[1..] == a[1..] + b;
      AttachmentsOfAppend(a[1..], b, emailId);
      assert AttachmentsOf(a + b, emailId) == h + (front + rest);
      assert h + (front + rest) == (h + front) + rest;
    }
  }

  /** `getAttachment`: the row with that id. */
  function AttachmentById(atts: seq<Attachment>, id: string): (r: Option<Attachment>)
    ensures r.Some? ==> r.value in atts && r.value.id == id
    ensures r.None? ==> forall i :: 0 <= i < |atts| ==> atts[i].id != id
    decreases |atts|
  {
    if |atts| == 0 then None
    else if atts[0].id == id then Some(atts[0])
    else AttachmentById(atts[1..], id)
  }

  // ------------------------------------------------------------------ store semantics

  /** What a write does to a store that accepts it; None when the insert's primary key is taken. */
  function Apply(t: Tables, w: Write): Option<Tables>
  {
    match w
    case SetSetting(k, v) => Some(t.(settings := Upsert(t.settings, k, v)))
    case InsertEmail(e) => if e.id in t.emails then None else Some(t.(emails := t.emails[e.id := e]))
    case MarkRead(id) => Some(t.(emails := WithRead(t.emails, id, 1)))
    case MarkUnread(id) => Some(t.(emails := WithRead(t.emails, id, 0)))
    case ToggleStar(id) => Some(t.(emails := WithStarToggled(t.emails, id)))
    case DeleteEmail(id) => Some(t.(emails := t.emails - {id}))
    case InsertAddress(a) =>
      if a.id in t.addresses then None else Some(t.(addresses := t.addresses[a.id := a]))
    case DeleteAddress(id) => Some(t.(addresses := t.addresses - {id}))
    case SetDefaultAddress(id) => Some(t.(addresses := WithDefault(t.addresses, id)))
    case InsertSession(s) =>
      if exists i :: 0 <= i < |t.sessions| && t.sessions[i].id == s.id then None
      else Some(t.(sessions := t.sessions + [s]))
    case DeleteSession(token) => Some(t.(sessions := WithoutToken(t.sessions, token)))
    case CleanExpiredSessions(now) => Some(t.(sessions := Unexpired(t.sessions, now)))
    case InsertAttachment(a) =>
      if AttachmentById(t.attachments, a.id).Some? then None
      else Some(t.(attachments := t.attachments + [a]))
    case DeleteAttachmentsOf(emailId) => Some(t.(attachments := WithoutAttachmentsOf(t.attachments, emailId)))
  }

  /** One write: the new store and whether the statement succeeded; a failed statement changes nothing. */
  function Step(t: Tables, w: Write): (r: (Tables, bool))
    ensures !r.1 ==> r.0 == t
    ensures r.1 ==> t.failAfter != Some(0) && Apply(t, w).Some?
    ensures r.1 ==> r.0 == Apply(t, w).value.(failAfter := if t.failAfter.Some? then Some(t.failAfter.value - 1) else None)
  {
    if t.failAfter == Some(0) then (t, false)
    else
      match Apply(t, w)
      case None => (t, false)
      case Some(t') => (t'.(failAfter := if t.failAfter.Some? then Some(t.failAfter.value - 1) else None), true)
  }

  /** Writes in sequence, stopping at the first that throws: the store then and whether all succeeded. */
  function Run(t: Tables, ws: seq<Write>): (Tables, bool)
    decreases |ws|
  {
    if |ws| == 0 then (t, true)
    else
      var (t1, ok) := Step(t, ws[0]);
      if ok then Run(t1, ws[1..]) else (t1, false)
  }

  lemma {:induction false} RunAppend(t: Tables, a: seq<Write>, b: seq<Write>)
    ensures Run(t, a + b) == if Run(t, a).1 then Run(Run(t, a).0, b) else Run(t, a)
    decreases |a|
  {
    if |a| == 0 {
      assert a + b == b;
    } else {
      assert (a + b)[0] == a[0];
      assert (a + b)[1..] == a[1..] + b;
      var (t1, ok) := Step(t, a[0]);
      if ok {
        RunAppend(t1, a[1..], b);
      }
    }
  }

  /** One more write after a list of writes. */
  lemma RunSnoc(t: Tables, ws: seq<Write>, w: Write)
    ensures Run(t, ws + [w]) == if Run(t, ws).1 then Step(Run(t, ws).0, w) else Run(t, ws)
  {
    RunAppend(t, ws, [w]);
    assert [w][1..] == [];
  }

  /** Two writes in sequence. */
  lemma RunPair(t: Tables, a: Write, b: Write)
    ensures Run(t, [a, b]) == if Step(t, a).1 then Step(Step(t, a).0, b) else Step(t, a)
  {
    var (t1, ok1) := Step(t, a);
    assert [a, b][0] == a && [a, b][1..] == [b];
    if ok1 {
      assert Run(t, [a, b]) == Run(t1, [b]);
      var (t2, ok2) := Step(t1, b);
      assert [b][0] == b && [b][1..] == [];
      assert Run(t1, [b]) == if ok2 then Run(t2, []) else (t2, false);
    }
  }

  /** A run of `setSetting` calls, one per (key, value) pair, in order. */
  function SettingWrites(pairs: seq<(string, string)>): (r: seq<Write>)
    ensures |r| == |pairs|
    ensures forall i :: 0 <= i < |pairs| ==> r[i] == SetSetting(pairs[i].0, pairs[i].1)
    decreases |pairs|
  {
    if |pairs| == 0 then [] else SettingWrites(pairs[..|pairs| - 1]) + [SetSetting(pairs[|pairs| - 1].0, pairs[|pairs| - 1].1)]
  }

  /** The value the last pair of that key assigns, if any pair does. */
  function Assigned(pairs: seq<(string, string)>, key: string): (r: Option<string>)
    ensures r.None? <==> forall i :: 0 <= i < |pairs| ==> pairs[i].0 != key
    decreases |pairs|
  {
    if |pairs| == 0 then None
    else if pairs[|pairs| - 1].0 == key then Some(pairs[|pairs| - 1].1)
    else Assigned(pairs[..|pairs| - 1], key)
  }

  /** The pair at `i` decides its key when no later pair has that key. */
  lemma {:induction false} AssignedAt(pairs: seq<(string, string)>, i: nat)
    requires i < |pairs| && forall j :: i < j < |pairs| ==> pairs[j].0 != pairs[i].0
    ensures Assigned(pairs, pairs[i].0) == Some(pairs[i].1)
    decreases |pairs|
  {
    if i < |pairs| - 1 {
      var front := pairs[..|pairs| - 1];
      assert front[i] == pairs[i];
      AssignedAt(front, i);
    }
  }

  /**
   * Settings writes touch only the settings table; when all of them succeed every key reads back the
   * value its last pair assigned, and every other key reads what it read before.
   */
  lemma {:induction false} RunSettingWrites(t: Tables, pairs: seq<(string, string)>)
    ensures var (t1, ok) := Run(t, SettingWrites(pairs));
      t1.emails == t.emails && t1.addresses == t.addresses && t1.sessions == t.sessions && t1.attachments == t.attachments &&
      (ok ==> forall key :: SettingOf(t1.settings, key) == if Assigned(pairs, key).Some? then Assigned(pairs, key) else SettingOf(t.settings, key)) &&
      (ok && UniqueKeys(t.settings) ==> UniqueKeys(t1.settings))
    decreases |pairs|
  {
    if |pairs| > 0 {
      var front := pairs[..|pairs| - 1];
      var (k, v) := pairs[|pairs| - 1];
      RunSettingWrites(t, front);
      RunSnoc(t, SettingWrites(front), SetSetting(k, v));
      var (t0, ok0) := Run(t, SettingWrites(front));
      if ok0 {
        UpsertReads(t0.settings, k, v);
        if UniqueKeys(t.settings) {
          UpsertUnique(t0.settings, k, v);
        }
      }
    }
  }

  /** Whatever happens to the run, a key no pair assigns keeps its value. */
  lemma {:induction false} RunSettingWritesUnassigned(t: Tables, pairs: seq<(string, string)>, key: string)
    requires Assigned(pairs, key).None?
    ensures SettingOf(Run(t, SettingWrites(pairs)).0.settings, key) == SettingOf(t.settings, key)
    decreases |pairs|
  {
    if |pairs| > 0 {
      var front := pairs[..|pairs| - 1];
      var (k, v) := pairs[|pairs| - 1];
      RunSettingWritesUnassigned(t, front, key);
      RunSnoc(t, SettingWrites(front), SetSetting(k, v));
      var (t0, ok0) := Run(t, SettingWrites(front));
      if ok0 {
        UpsertReads(t0.settings, k, v);
      }
    }
  }

  /** Once a prefix of the writes has thrown, the later writes never run. */
  lemma RunFailsFrom(t: Tables, prefix: seq<Write>, ws: seq<Write>)
    requires prefix <= ws && !Run(t, prefix).1
    ensures Run(t, ws) == Run(t, prefix)
  {
    RunAppend(t, prefix, ws[|prefix|..]);
    assert prefix + ws[|prefix|..] == ws;
  }

  predicate IsInsert(w: Write) {
    w.InsertEmail? || w.InsertAddress? || w.InsertSession? || w.InsertAttachment?
  }

  /** What the rest of the code relies on: keyed rows carry their keys, flags are 0 or 1, ids are unique. */
  predicate Valid(t: Tables) {
    UniqueKeys(t.settings) &&
    (forall k :: k in t.emails ==> t.emails[k].id == k && t.emails[k].isRead in {0, 1} && t.emails[k].isStarred in {0, 1}) &&
    (forall k :: k in t.addresses ==> t.addresses[k].id == k) &&
    DistinctSessions(t.sessions) &&
    DistinctAttachments(t.attachments)
  }

  /** The rows a write may insert without breaking `Valid`. */
  predicate WellFormed(w: Write) {
    match w
    case InsertEmail(e) => e.isRead in {0, 1} && e.isStarred in {0, 1}
    case _ => true
  }

  predicate DistinctSessions(s: seq<Session>) {
    forall i, j :: 0 <= i < j < |s| ==> s[i].id != s[j].id
  }

  predicate DistinctAttachments(s: seq<Attachment>) {
    forall i, j :: 0 <= i < j < |s| ==> s[i].id != s[j].id
  }

  /** Keeping the first row in front of a distinct tail drawn from the rest keeps ids distinct. */
  lemma ConsDistinctSessions(s: seq<Session>, tail: seq<Session>, keep: bool)
    requires |s| > 0 && DistinctSessions(s) && DistinctSessions(tail)
    requires forall x :: x in tail ==> x in s[1..]
    ensures DistinctSessions(if keep then [s[0]] + tail else tail)
  {
    if keep {
      var r := [s[0]] + tail;
      forall i, j | 0 <= i < j < |r| ensures r[i].id != r[j].id {
        if i == 0 {
          assert r[j] == tail[j - 1];
          assert r[j] in s[1..];
          var m :| 0 <= m < |s[1..]| && s[1..][m] == r[j];
          assert s[m + 1] == r[j];
        } else {
          assert r[i] == tail[i - 1] && r[j] == tail[j - 1];
        }
      }
    }
  }

  lemma ConsDistinctAttachments(s: seq<Attachment>, tail: seq<Attachment>, keep: bool)
    requires |s| > 0 && DistinctAttachments(s) && DistinctAttachments(tail)
    requires forall x :: x in tail ==> x in s[1..]
    ensures DistinctAttachments(if keep then [s[0]] + tail else tail)
  {
    if keep {
      var r := [s[0]] + tail;
      forall i, j | 0 <= i < j < |r| ensures r[i].id != r[j].id {
        if i == 0 {
          assert r[j] == tail[j - 1];
          assert r[j] in s[1..];
          var m :| 0 <= m < |s[1..]| && s[1..][m] == r[j];
          assert s[m + 1] == r[j];
        } else {
          assert r[i] == tail[i - 1] && r[j] == tail[j - 1];
        }
      }
    }
  }

  lemma {:induction false} FilterUnique(s: seq<Session>, token: string)
    requires DistinctSessions(s)
    ensures DistinctSessions(WithoutToken(s, token))
    decreases |s|
  {
    if |s| > 0 {
      FilterUnique(s[1..], token);
      ConsDistinctSessions(s, WithoutToken(s[1..], token), s[0].token != token);
    }
  }

  lemma {:induction false} UnexpiredUnique(s: seq<Session>, now: int)
    requires DistinctSessions(s)
    ensures DistinctSessions(Unexpired(s, now))
    decreases |s|
  {
    if |s| > 0 {
      UnexpiredUnique(s[1..], now);
      ConsDistinctSessions(s, Unexpired(s[1..], now), !(s[0].expiresAt < now));
    }
  }

  lemma {:induction false} AttachmentFilterUnique(s: seq<Attachment>, emailId: string)
    requires DistinctAttachments(s)
    ensures DistinctAttachments(WithoutAttachmentsOf(s, emailId))
    decreases |s|
  {
    if |s| > 0 {
      AttachmentFilterUnique(s[1..], emailId);
      ConsDistinctAttachments(s, WithoutAttachmentsOf(s[1..], emailId), s[0].emailId != emailId);
    }
  }

  /** Every accepted write keeps the store valid. */
  lemma ApplyKeepsValid(t: Tables, w: Write)
    requires Valid(t) && WellFormed(w) && Apply(t, w).Some?
    ensures Valid(Apply(t, w).value)
  {
    match w {
      case SetSetting(k, v) => UpsertUnique(t.settings, k, v);
      case DeleteSession(token) => FilterUnique(t.sessions, token);
      case CleanExpiredSessions(now) => UnexpiredUnique(t.sessions, now);
      case DeleteAttachmentsOf(e) => AttachmentFilterUnique(t.attachments, e);
      case InsertAttachment(a) =>
        assert AttachmentById(t.attachments, a.id).None?;
      case _ =>
    }
  }

  /** Setting a default leaves exactly that one address marked, when it exists, and none otherwise. */
  lemma SetDefaultLeavesOne(t: Tables, id: string)
    ensures var r := Apply(t, SetDefaultAddress(id)).value.addresses;
      AtMostOneDefault(r) &&
      (forall k :: k in r ==> (r[k].isDefault == 1 <==> k == id)) &&
      r.Keys == t.addresses.Keys
  {
  }

  lemma ToggleTwice(t: Tables, id: string)
    requires Valid(t)
    ensures var once := Apply(t, ToggleStar(id)).value;
      Apply(once, ToggleStar(id)).value == t
  {
    var once := Apply(t, ToggleStar(id)).value;
    var twice := Apply(once, ToggleStar(id)).value;
    if id in t.emails {
      assert twice.emails[id] == t.emails[id];
    }
    assert twice.emails == t.emails;
  }

  /** `deleteAttachmentsByEmailId` removes exactly that email's attachments and keeps the rest in order. */
  lemma {:induction false} DeleteAttachmentsKeepsOthers(atts: seq<Attachment>, emailId: string, other: string)
    requires other != emailId
    ensures AttachmentsOf(WithoutAttachmentsOf(atts, emailId), emailId) == []
    ensures AttachmentsOf(WithoutAttachmentsOf(atts, emailId), other) == AttachmentsOf(atts, other)
    decreases |atts|
  {
    if |atts| > 0 {
      DeleteAttachmentsKeepsOthers(atts[1..], emailId, other);
      var tail := WithoutAttachmentsOf(atts[1..], emailId);
      if atts[0].emailId == emailId {
        assert WithoutAttachmentsOf(atts, emailId) == tail;
      } else {
        assert WithoutAttachmentsOf(atts, emailId) == [atts[0]] + tail;
        assert ([atts[0]] + tail)[1..] == tail;
      }
    }
  }

  // ------------------------------------------------------------------ statistics

  datatype Stats = Stats(totalReceived: nat, totalSent: nat, unread: nat, starred: nat)

  /** The four counts of `getEmailStats`; unread counts only received rows. */
  function StatsOf(emails: map<string, Email>): Stats
  {
    Stats(
      |set k | k in emails && emails[k].kind == Received|,
      |set k | k in emails && emails[k].kind == Sent|,
      |set k | k in emails && emails[k].isRead == 0 && emails[k].kind == Received|,
      |set k | k in emails && emails[k].isStarred == 1|)
  }

  lemma StatsBounds(emails: map<string, Email>)
    ensures StatsOf(emails).unread <= StatsOf(emails).totalReceived
    ensures StatsOf(emails).totalReceived + StatsOf(emails).totalSent == |emails|
    ensures StatsOf(emails).starred <= |emails|
  {
    UnreadWithinReceived(emails);
    KindsPartition(emails);
    var starred := set k | k in emails && emails[k].isStarred == 1;
    assert starred <= emails.Keys;
    SubsetCard(starred, emails.Keys);
  }

  lemma UnreadWithinReceived(emails: map<string, Email>)
    ensures StatsOf(emails).unread <= StatsOf(emails).totalReceived
  {
    var rec := set k | k in emails && emails[k].kind == Received;
    var unread := set k | k in emails && emails[k].isRead == 0 && emails[k].kind == Received;
    assert unread <= rec;
    SubsetCard(unread, rec);
  }

  /** Every email is either received or sent, never both. */
  lemma KindsPartition(emails: map<string, Email>)
    ensures StatsOf(emails).totalReceived + StatsOf(emails).totalSent == |emails|
  {
    var rec := set k | k in emails && emails[k].kind == Received;
    var sent := set k | k in emails && emails[k].kind == Sent;
    assert rec + sent == emails.Keys;
    assert rec * sent == {};
    assert |rec + sent| == |rec| + |sent|;
  }

  lemma SubsetCard<T>(a: set<T>, b: set<T>)
    requires a <= b
    ensures |a| <= |b|
  {
    assert b == a + (b - a);
  }

  /** Marking a received unread email read lowers the unread count by one. */
  lemma MarkReadStats(emails: map<string, Email>, id: string)
    requires id in emails && emails[id].kind == Received && emails[id].isRead == 0
    ensures StatsOf(WithRead(emails, id, 1)).unread + 1 == StatsOf(emails).unread
  {
    var r := WithRead(emails, id, 1);
    var before := set k | k in emails && emails[k].isRead == 0 && emails[k].kind == Received;
    var after := set k | k in r && r[k].isRead == 0 && r[k].kind == Received;
    assert after == before - {id};
  }

  // ------------------------------------------------------------------ listEmails query builder

  datatype Param = PText(text: string) | PNum(num: int)

  /** Number of `?` placeholders in a query. */
  function Placeholders(q: string): nat
  {
    Count(q, '?')
  }

  /**
   * The WHERE conditions in the order the builder adds them. `kind` is the `type` text when it is
   * truthy: the parameter's type names two values, but any text the route passes is bound as it is.
   */
  function Conditions(kind: Option<string>, unreadOnly: bool, starredOnly: bool): seq<string>
  {
    (if kind.Some? then ["type = ?"] else []) +
    (if unreadOnly then ["is_read = 0"] else []) +
    (if starredOnly then ["is_starred = 1"] else [])
  }

  /** A numeric option is sent only when it is truthy, i.e. present and not 0. */
  predicate TruthyNum(n: Option<int>) {
    n.Some? && n.value != 0
  }

  function WherePart(cs: seq<string>): string {
    if |cs| > 0 then " WHERE " + Join(cs, " AND ") else ""
  }

  function LimitPart(limit: Option<int>): string {
    if TruthyNum(limit) then " LIMIT ?" else ""
  }

  function OffsetPart(offset: Option<int>): string {
    if TruthyNum(offset) then " OFFSET ?" else ""
  }

  /** The SQL text `listEmails` sends for the condition list `cs`. */
  function ListQueryText(cs: seq<string>, limit: Option<int>, offset: Option<int>): string
  {
    "SELECT * FROM emails" + WherePart(cs) + " ORDER BY created_at DESC" + LimitPart(limit) + OffsetPart(offset)
  }

  function TypeParam(kind: Option<string>): seq<Param> {
    if kind.Some? then [PText(kind.value)] else []
  }

  function NumParam(n: Option<int>): seq<Param> {
    if TruthyNum(n) then [PNum(n.value)] else []
  }

  /** The parameters `listEmails` binds, in order. */
  function ListParams(kind: Option<string>, limit: Option<int>, offset: Option<int>): seq<Param>
  {
    TypeParam(kind) + NumParam(limit) + NumParam(offset)
  }

  /** The type test is the first condition when there is a type, and absent otherwise. */
  lemma TypeCondition(kind: Option<string>, unreadOnly: bool, starredOnly: bool)
    ensures kind.Some? ==> |Conditions(kind, unreadOnly, starredOnly)| > 0 && Conditions(kind, unreadOnly, starredOnly)[0] == "type = ?"
    ensures kind.None? ==> "type = ?" !in Conditions(kind, unreadOnly, starredOnly)
  {
    if kind.None? {
      assert "is_read = 0"[3] != "type = ?"[3];
      assert "is_starred = 1"[3] != "type = ?"[3];
    }
  }

  /** The type text is the first parameter when there is one; otherwise every parameter is a number. */
  lemma TypeBound(kind: Option<string>, limit: Option<int>, offset: Option<int>)
    ensures kind.Some? ==> |ListParams(kind, limit, offset)| > 0 && ListParams(kind, limit, offset)[0] == PText(kind.value)
    ensures kind.None? ==> forall i :: 0 <= i < |ListParams(kind, limit, offset)| ==> ListParams(kind, limit, offset)[i].PNum?
  {
  }

  /** A placeholder-free prefix followed by one `?`. */
  lemma MarkCount(prefix: string)
    requires '?' !in prefix
    ensures Count(prefix + "?", '?') == 1
  {
    CountAbsent(prefix, '?');
    CountAppend(prefix, "?", '?');
    CountFirst("?", '?');
    CountAbsent("?"[1..], '?');
  }

  /** The condition list of `listEmails`, built by pushing in source order; only the type test has a placeholder. */
  method BuildConditions(kind: Option<string>, unreadOnly: bool, starredOnly: bool) returns (conditions: seq<string>)
    ensures conditions == Conditions(kind, unreadOnly, starredOnly)
    ensures CountAll(conditions, '?') == if kind.Some? then 1 else 0
  {
    ConditionMarks();
    conditions := [];
    if kind.Some? {
      CountAllAppend(conditions, ["type = ?"], '?');
      conditions := conditions + ["type = ?"];
    }
    ghost var n := CountAll(conditions, '?');
    assert n == if kind.Some? then 1 else 0;
    if unreadOnly {
      CountAllAppend(conditions, ["is_read = 0"], '?');
      conditions := conditions + ["is_read = 0"];
    }
    assert CountAll(conditions, '?') == n;
    if starredOnly {
      CountAllAppend(conditions, ["is_starred = 1"], '?');
      conditions := conditions + ["is_starred = 1"];
    }
  }

  /** Of the three condition texts only the type test holds a placeholder. */
  lemma ConditionMarks()
    ensures CountAll(["type = ?"], '?') == 1
    ensures CountAll(["is_read = 0"], '?') == 0
    ensures CountAll(["is_starred = 1"], '?') == 0
  {
    MarkCount("type = ");
    assert "type = " + "?" == "type = ?";
    CountAbsent("is_read = 0", '?');
    CountAbsent("is_starred = 1", '?');
    assert ["type = ?"][1..] == [];
    assert ["is_read = 0"][1..] == [];
    assert ["is_starred = 1"][1..] == [];
  }

  /** The query's placeholders are the conditions' plus one for each of LIMIT and OFFSET sent. */
  lemma QueryPlaceholders(cs: seq<string>, limit: Option<int>, offset: Option<int>)
    ensures Placeholders(ListQueryText(cs, limit, offset)) ==
      CountAll(cs, '?') + (if TruthyNum(limit) then 1 else 0) + (if TruthyNum(offset) then 1 else 0)
  {
    var base, order := "SELECT * FROM emails", " ORDER BY created_at DESC";
    var w, l, o := WherePart(cs), LimitPart(limit), OffsetPart(offset);
    FixedPartCounts();
    WhereCount(cs);
    OptionPartCounts(limit, offset);
    CountAppend(base, w, '?');
    CountAppend(base + w, order, '?');
    CountAppend(base + w + order, l, '?');
    CountAppend(base + w + order + l, o, '?');
  }

  lemma FixedPartCounts()
    ensures Count("SELECT * FROM emails", '?') == 0 && Count(" ORDER BY created_at DESC", '?') == 0
  {
    CountAbsent("SELECT * FROM emails", '?');
    CountAbsent(" ORDER BY created_at DESC", '?');
  }

  /** The WHERE clause holds exactly the conditions' placeholders. */
  lemma WhereCount(cs: seq<string>)
    ensures Count(WherePart(cs), '?') == CountAll(cs, '?')
  {
    if |cs| > 0 {
      CountAbsent(" WHERE ", '?');
      CountAbsent(" AND ", '?');
      CountJoin(cs, " AND ", '?');
      CountAppend(" WHERE ", Join(cs, " AND "), '?');
    } else {
      assert cs == [];
    }
  }

  lemma OptionPartCounts(limit: Option<int>, offset: Option<int>)
    ensures Count(LimitPart(limit), '?') == if TruthyNum(limit) then 1 else 0
    ensures Count(OffsetPart(offset), '?') == if TruthyNum(offset) then 1 else 0
  {
    MarkCount(" LIMIT ");
    assert " LIMIT " + "?" == " LIMIT ?";
    MarkCount(" OFFSET ");
    assert " OFFSET " + "?" == " OFFSET ?";
  }

  /**
   * `listEmails`' SQL and parameters: a WHERE clause only when there is a condition, always newest
   * first, then LIMIT and OFFSET for the truthy options; every `?` has its parameter.
   */
  method ListEmailsQuery(kind: Option<string>, limit: Option<int>, offset: Option<int>, unreadOnly: bool, starredOnly: bool)
    returns (query: string, params: seq<Param>)
    ensures query == ListQueryText(Conditions(kind, unreadOnly, starredOnly), limit, offset)
    ensures params == ListParams(kind, limit, offset)
    ensures Placeholders(query) == |params|
  {
    query := "SELECT * FROM emails";
    params := [];
    var conditions := BuildConditions(kind, unreadOnly, starredOnly);
    if kind.Some? {
      params := params + [PText(kind.value)];
    }
    assert params == TypeParam(kind);
    if |conditions| > 0 {
      query := query + (" WHERE " + Join(conditions, " AND "));
    }
    assert query == "SELECT * FROM emails" + WherePart(conditions);
    query := query + " ORDER BY created_at DESC";
    ghost var q1, p1 := query, params;
    if limit.Some? && limit.value != 0 {
      query := query + " LIMIT ?";
      params := params + [PNum(limit.value)];
    }
    assert query == q1 + LimitPart(limit) && params == p1 + NumParam(limit);
    ghost var q2, p2 := query, params;
    if offset.Some? && offset.value != 0 {
      query := query + " OFFSET ?";
      params := params + [PNum(offset.value)];
    }
    assert query == q2 + OffsetPart(offset) && params == p2 + NumParam(offset);
    QueryPlaceholders(conditions, limit, offset);
  }

  // ------------------------------------------------------------------ the query class

  /** `DatabaseQueries`: the tables as fields; every write method is one statement of the store. */
  class Queries {
    var settings: seq<Setting>
    var emails: map<string, Email>
    var addresses: map<string, Address>
    var sessions: seq<Session>
    var attachments: seq<Attachment>
    var failAfter: Option<nat>

    function Snapshot(): Tables
      reads this
    {
      Tables(settings, emails, addresses, sessions, attachments, failAfter)
    }

    constructor(t: Tables)
      ensures Snapshot() == t
    {
      settings, emails, addresses, sessions, attachments, failAfter :=
        t.settings, t.emails, t.addresses, t.sessions, t.attachments, t.failAfter;
    }

    /** Runs one statement; `ok` is false when it throws. */
    method Perform(w: Write) returns (ok: bool)
      modifies this
      ensures (Snapshot(), ok) == Step(old(Snapshot()), w)
    {
      var (t, success) := Step(Snapshot(), w);
      settings, emails, addresses, sessions, attachments, failAfter :=
        t.settings, t.emails, t.addresses, t.sessions, t.attachments, t.failAfter;
      ok := success;
    }

    method SetSetting(key: string, value: string) returns (ok: bool)
      modifies this
      ensures (Snapshot(), ok) == Step(old(Snapshot()), Write.SetSetting(key, value))
    {
      ok := Perform(Write.SetSetting(key, value));
    }

    method CreateEmail(e: Email) returns (ok: bool)
      modifies this
      ensures (Snapshot(), ok) == Step(old(Snapshot()), InsertEmail(e))
    {
      ok := Perform(InsertEmail(e));
    }

    method MarkAsRead(id: string) returns (ok: bool)
      modifies this
      ensures (Snapshot(), ok) == Step(old(Snapshot()), MarkRead(id))
    {
      ok := Perform(MarkRead(id));
    }

    method MarkAsUnread(id: string) returns (ok: bool)
      modifies this
      ensures (Snapshot(), ok) == Step(old(Snapshot()), MarkUnread(id))
    {
      ok := Perform(MarkUnread(id));
    }

    method ToggleStarOf(id: string) returns (ok: bool)
      modifies this
      ensures (Snapshot(), ok) == Step(old(Snapshot()), ToggleStar(id))
    {
      ok := Perform(ToggleStar(id));
    }

    method DeleteEmailRow(id: string) returns (ok: bool)
      modifies this
      ensures (Snapshot(), ok) == Step(old(Snapshot()), DeleteEmail(id))
    {
      ok := Perform(DeleteEmail(id));
    }

    method CreateAddress(a: Address) returns (ok: bool)
      modifies this
      ensures (Snapshot(), ok) == Step(old(Snapshot()), InsertAddress(a))
    {
      ok := Perform(InsertAddress(a));
    }

    method DeleteAddressRow(id: string) returns (ok: bool)
      modifies this
      ensures (Snapshot(), ok) == Step(old(Snapshot()), DeleteAddress(id))
    {
      ok := Perform(DeleteAddress(id));
    }

    method SetDefault(id: string) returns (ok: bool)
      modifies this
      ensures (Snapshot(), ok) == Step(old(Snapshot()), SetDefaultAddress(id))
    {
      ok := Perform(SetDefaultAddress(id));
    }

    method CreateSession(session: Session) returns (ok: bool)
      modifies this
      ensures (Snapshot(), ok) == Step(old(Snapshot()), InsertSession(session))
    {
      ok := Perform(InsertSession(session));
    }

    method DeleteSessionByToken(token: string) returns (ok: bool)
      modifies this
      ensures (Snapshot(), ok) == Step(old(Snapshot()), DeleteSession(token))
    {
      ok := Perform(DeleteSession(token));
    }

    method CleanExpired(now: int) returns (ok: bool)
      modifies this
      ensures (Snapshot(), ok) == Step(old(Snapshot()), CleanExpiredSessions(now))
    {
      ok := Perform(CleanExpiredSessions(now));
    }

    method CreateAttachment(a: Attachment) returns (ok: bool)
      modifies this
      ensures (Snapshot(), ok) == Step(old(Snapshot()), InsertAttachment(a))
    {
      ok := Perform(InsertAttachment(a));
    }

    method DeleteAttachmentsByEmailId(emailId: string) returns (ok: bool)
      modifies this
      ensures (Snapshot(), ok) == Step(old(Snapshot()), DeleteAttachmentsOf(emailId))
    {
      ok := Perform(DeleteAttachmentsOf(emailId));
    }

    /** `getSetting`: the stored value, or null when no row has that key. */
    method GetSetting(key: string) returns (v: Option<string>)
      ensures v == SettingOf(settings, key)
      ensures v.None? <==> forall i :: 0 <= i < |settings| ==> settings[i].key != key
      ensures v.Some? ==> Setting(key, v.value) in settings
    {
      v := SettingOf(settings, key);
    }

    /** `getAllSettings`: one entry per row; a later row of the same key would win. */
    method GetAllSettings() returns (m: map<string, string>)
      ensures m == SettingsMap(settings)
      ensures m.Keys == set i | 0 <= i < |settings| :: settings[i].key
      ensures UniqueKeys(settings) ==> forall i :: 0 <= i < |settings| ==> m[settings[i].key] == settings[i].value
    {
      m := map[];
      var n := 0;
      while n < |settings|
        invariant 0 <= n <= |settings|
        invariant m == SettingsMap(settings[..n])
      {
        assert settings[..n + 1][..n] == settings[..n];
        m := m[settings[n].key := settings[n].value];
        n := n + 1;
      }
      assert settings[..n] == settings;
      SettingsMapKeys(settings);
      if UniqueKeys(settings) {
        SettingsMapUnique(settings);
      }
    }

    method GetEmail(id: string) returns (e: Option<Email>)
      ensures e.Some? <==> id in emails
      ensures e.Some? ==> e.value == emails[id]
    {
      e := if id in emails then Some(emails[id]) else None;
    }

    method GetEmailStats() returns (stats: Stats)
      ensures stats == StatsOf(emails)
      ensures stats.unread <= stats.totalReceived
      ensures stats.totalReceived + stats.totalSent == |emails|
    {
      StatsBounds(emails);
      stats := StatsOf(emails);
    }

    method GetSessionByToken(token: string, now: int) returns (s: Option<Session>)
      ensures s == LiveSession(sessions, token, now)
      ensures s.Some? ==> s.value in sessions && s.value.token == token && Live(s.value, now)
      ensures s.None? ==> forall i :: 0 <= i < |sessions| ==> sessions[i].token != token || !Live(sessions[i], now)
    {
      s := LiveSession(sessions, token, now);
    }

    method GetAttachment(id: string) returns (a: Option<Attachment>)
      ensures a == AttachmentById(attachments, id)
    {
      a := AttachmentById(attachments, id);
    }

    method GetAttachmentsByEmailId(emailId: string) returns (infos: seq<AttachmentInfo>)
      ensures infos == AttachmentsOf(attachments, emailId)
      ensures forall x :: x in infos ==> exists a :: a in attachments && a.emailId == emailId && x == Info(a)
      ensures forall i :: 0 <= i < |infos| ==> infos[i].emailId == emailId
    {
      infos := AttachmentsOf(attachments, emailId);
      forall x | x in infos
        ensures exists a :: a in attachments && a.emailId == emailId && x == Info(a)
      {
        var i :| 0 <= i < |infos| && infos[i] == x;
        AttachmentsOfFrom(attachments, emailId, i);
      }
    }
  }
}
