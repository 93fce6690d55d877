/**
 * The settings routes: the masked dictionary of all settings, the masked read of one allowed key,
 * and the two writes, which accept only the allowed keys and skip the mask text that the reads
 * hand out in place of a secret.
 */
module SettingsApi {
  import opened Wrappers
  import opened Json
  import opened Text
  import Http
  import opened Database

  /** The keys the settings routes read and write. */
  const Allowed: seq<string> := ["domain", "destination_email", "cloudflare_api_key", "cloudflare_account_id",
    "cloudflare_zone_id", "brevo_api_key", "setup_completed"]

  /** The keys whose non-empty values are never shown. */
  const Sensitive: seq<string> := ["cloudflare_api_key", "brevo_api_key", "admin_password_hash"]

  /** What a read shows in place of a secret, and what a write takes to mean "unchanged". */
  const Mask := "********"

  function MaskValue(key: string, value: string): string {
    if key in Sensitive && value != "" then Mask else value
  }

  // ------------------------------------------------------------------ GET /

  /** The dictionary the route answers with. */
  function MaskAll(m: map<string, string>): map<string, string> {
    map k | k in m :: MaskValue(k, m[k])
  }

  /** `GET /`: every entry of `getAllSettings`, a non-empty sensitive value replaced by the mask. */
  method HandleGetSettings(db: Queries) returns (masked: map<string, string>)
    ensures masked == MaskAll(SettingsMap(db.settings))
  {
    var all := db.GetAllSettings();
    masked := map[];
    var todo := all.Keys;
    while todo != {}
      invariant todo <= all.Keys
      invariant masked == map k | k in all.Keys - todo :: MaskValue(k, all[k])
      decreases todo
    {
      var k :| k in todo;
      masked := masked[k := MaskValue(k, all[k])];
      todo := todo - {k};
    }
  }

  /**
   * The masked dictionary has the same keys; a sensitive key shows the mask or the empty text, and
   * every other key shows its value.
   */
  lemma MaskAllShows(m: map<string, string>)
    ensures MaskAll(m).Keys == m.Keys
    ensures forall k :: k in m && k in Sensitive ==> MaskAll(m)[k] == (if m[k] == "" then "" else Mask)
    ensures forall k :: k in m && k !in Sensitive ==> MaskAll(m)[k] == m[k]
  {
  }

  /**
   * The masked dictionary depends on a secret only through whether it is empty: two stores that
   * differ only in the non-empty secrets they keep look the same.
   */
  lemma MaskHidesSecrets(m1: map<string, string>, m2: map<string, string>)
    requires m1.Keys == m2.Keys
    requires forall k :: k in m1 && k !in Sensitive ==> m1[k] == m2[k]
    requires forall k :: k in m1 && k in Sensitive ==> (m1[k] == "" <==> m2[k] == "")
    ensures MaskAll(m1) == MaskAll(m2)
  {
  }

  // ------------------------------------------------------------------ GET /:key

  function GetOne(t: Tables, key: string): Http.Reply {
    if key !in Allowed then Http.ErrorReply(400, "Invalid setting key")
    else
      var value := SettingOf(t.settings, key);
      if key in Sensitive && Present(value) then
        Http.Ok(JObj([("key", JStr(key)), ("value", JStr(Mask)), ("masked", JBool(true))]))
      else Http.Ok(JObj([("key", JStr(key)), ("value", if value.Some? then JStr(value.value) else JNull)]))
  }

  method HandleGetOne(db: Queries, key: string) returns (reply: Http.Reply)
    ensures reply == GetOne(db.Snapshot(), key)
  {
    if key !in Allowed {
      return Http.ErrorReply(400, "Invalid setting key");
    }
    var value := db.GetSetting(key);
    if key in Sensitive && Present(value) {
      return Http.Ok(JObj([("key", JStr(key)), ("value", JStr(Mask)), ("masked", JBool(true))]));
    }
    reply := Http.Ok(JObj([("key", JStr(key)), ("value", if value.Some? then JStr(value.value) else JNull)]));
  }

  /**
   * A key outside the allowed list is refused, so the password hash is never readable here; an
   * allowed sensitive key shows the mask in place of a non-empty value; any other allowed key shows
   * its stored value, or null.
   */
  lemma GetOneShows(t: Tables, key: string)
    ensures key !in Allowed <==> GetOne(t, key).status == 400
    ensures GetOne(t, "admin_password_hash").status == 400
    ensures key in Allowed ==> (GetOne(t, key).status == 200 &&
      Member(GetOne(t, key).body, "value") ==
        Some(if key in Sensitive && Present(SettingOf(t.settings, key)) then JStr(Mask)
             else if SettingOf(t.settings, key).Some? then JStr(SettingOf(t.settings, key).value) else JNull))
  {
    assert "admin_password_hash" !in Allowed;
    if key in Allowed {
      var value := SettingOf(t.settings, key);
      if key in Sensitive && Present(value) {
        LastFieldAt([("key", JStr(key)), ("value", JStr(Mask)), ("masked", JBool(true))], "value", 1);
      } else {
        LastFieldAt([("key", JStr(key)), ("value", if value.Some? then JStr(value.value) else JNull)], "value", 1);
      }
    }
  }

  // ------------------------------------------------------------------ PUT /

  /** No two entries share a key, as in an object. */
  predicate DistinctKeys(obj: seq<(string, string)>) {
    forall i, j :: 0 <= i < j < |obj| ==> obj[i].0 != obj[j].0
  }

  /** The position of the first entry with that key, or the length when there is none. */
  function KeyIndex(obj: seq<(string, string)>, k: string): (r: nat)
    ensures r <= |obj| && (r < |obj| ==> obj[r].0 == k)
    ensures forall j :: 0 <= j < r ==> obj[j].0 != k
    decreases |obj|
  {
    if |obj| == 0 then 0 else if obj[0].0 == k then 0 else 1 + KeyIndex(obj[1..], k)
  }

  /**
   * Setting a property of an object under construction: a key already present keeps its position and
   * takes the new value, and a new key goes last.
   */
  function PutKey(obj: seq<(string, string)>, k: string, v: string): (r: seq<(string, string)>)
    ensures |obj| <= |r| <= |obj| + 1
    ensures forall i :: 0 <= i < |obj| ==> r[i].0 == obj[i].0 && (obj[i].0 != k ==> r[i] == obj[i])
    ensures |r| == |obj| + 1 <==> forall i :: 0 <= i < |obj| ==> obj[i].0 != k
    ensures |r| == |obj| + 1 ==> r[|obj|] == (k, v)
  {
    var i := KeyIndex(obj, k);
    if i < |obj| then obj[i := (k, v)] else obj + [(k, v)]
  }

  /** On an object, setting a property keeps the keys distinct and changes what that key alone reads. */
  lemma PutKeyReads(obj: seq<(string, string)>, k: string, v: string)
    requires DistinctKeys(obj)
    ensures DistinctKeys(PutKey(obj, k, v))
    ensures forall key :: Assigned(PutKey(obj, k, v), key) == if key == k then Some(v) else Assigned(obj, key)
  {
    var r := PutKey(obj, k, v);
    var n := KeyIndex(obj, k);
    if n < |obj| {
      forall key ensures Assigned(r, key) == if key == k then Some(v) else Assigned(obj, key) {
        if key == k {
          AssignedAt(r, n);
        } else if !Assigned(obj, key).None? {
          var i :| 0 <= i < |obj| && obj[i].0 == key;
          AssignedAt(obj, i);
          AssignedAt(r, i);
        }
      }
    } else {
      assert r[..|obj|] == obj;
    }
  }

  /**
   * The object `JSON.parse` builds from a body whose pairs may repeat a key: one entry per key, at
   * the position of its first pair, holding the value of its last pair.
   */
  function Collapse(body: seq<(string, string)>): (obj: seq<(string, string)>)
    ensures DistinctKeys(obj)
    ensures forall key :: Assigned(obj, key) == Assigned(body, key)
    decreases |body|
  {
    if |body| == 0 then []
    else
      var front := Collapse(body[..|body| - 1]);
      var (k, v) := body[|body| - 1];
      PutKeyReads(front, k, v);
      PutKey(front, k, v)
  }

  /** A body that repeats no key parses to itself, pair for pair. */
  lemma {:induction false} CollapseDistinct(body: seq<(string, string)>)
    requires DistinctKeys(body)
    ensures Collapse(body) == body
    decreases |body|
  {
    if |body| > 0 {
      var front := body[..|body| - 1];
      var (k, v) := body[|body| - 1];
      assert DistinctKeys(front) by {
        forall i, j | 0 <= i < j < |front| ensures front[i].0 != front[j].0 {
          assert front[i] == body[i] && front[j] == body[j];
        }
      }
      CollapseDistinct(front);
      assert forall i :: 0 <= i < |front| ==> front[i].0 != k by {
        forall i | 0 <= i < |front| ensures front[i].0 != k {
          assert front[i] == body[i];
        }
      }
      assert KeyIndex(front, k) == |front|;
      assert Collapse(body) == front + [(k, v)];
      assert body == front + [(k, v)];
    }
  }

  /** A repeated key stays where it first appeared and takes the value it last had. */
  lemma RepeatedKey(a: string, b: string, x: string, y: string, z: string)
    requires a != b
    ensures Collapse([(a, x), (b, y), (a, z)]) == [(a, z), (b, y)]
  {
    var body := [(a, x), (b, y), (a, z)];
    var two := [(a, x), (b, y)];
    assert body[..2] == two;
    assert DistinctKeys(two);
    CollapseDistinct(two);
    assert KeyIndex(two, a) == 0;
  }

  /** The first key of the body outside the allowed list, in body order. */
  function FirstInvalid(keys: seq<string>): (r: Option<string>)
    ensures r.None? <==> forall i :: 0 <= i < |keys| ==> keys[i] in Allowed
    ensures r.Some? ==> exists i :: (0 <= i < |keys| && keys[i] == r.value && r.value !in Allowed &&
      forall j :: 0 <= j < i ==> keys[j] in Allowed)
    decreases |keys|
  {
    if |keys| == 0 then None
    else if keys[0] !in Allowed then Some(keys[0])
    else
      var r := FirstInvalid(keys[1..]);
      if r.Some? then
        var i :| 0 <= i < |keys[1..]| && keys[1..][i] == r.value && r.value !in Allowed &&
          forall j :: 0 <= j < i ==> keys[1..][j] in Allowed;
        assert keys[i + 1] == r.value;
        r
      else r
  }

  function Names(updates: seq<(string, string)>): (ks: seq<string>)
    ensures |ks| == |updates| && forall i :: 0 <= i < |updates| ==> ks[i] == updates[i].0
  {
    seq(|updates|, i requires 0 <= i < |updates| => updates[i].0)
  }

  /** The entries whose value is not the mask, in body order. */
  function Unmasked(updates: seq<(string, string)>): (r: seq<(string, string)>)
    ensures forall x :: x in r <==> x in updates && x.1 != Mask
    decreases |updates|
  {
    if |updates| == 0 then []
    else
      var last := updates[|updates| - 1];
      Unmasked(updates[..|updates| - 1]) + (if last.1 != Mask then [last] else [])
  }

  lemma {:induction false} UnmaskedPrefix(updates: seq<(string, string)>, n: nat)
    requires n <= |updates|
    ensures Unmasked(updates[..n]) <= Unmasked(updates)
    decreases |updates| - n
  {
    if n < |updates| {
      UnmaskedPrefix(updates, n + 1);
      assert updates[..n + 1][..n] == updates[..n];
    } else {
      assert updates[..n] == updates;
    }
  }

  lemma UnmaskedStep(updates: seq<(string, string)>, i: nat)
    requires i < |updates|
    ensures SettingWrites(Unmasked(updates[..i + 1])) ==
      SettingWrites(Unmasked(updates[..i])) + (if updates[i].1 != Mask then [SetSetting(updates[i].0, updates[i].1)] else [])
  {
    assert updates[..i + 1][..i] == updates[..i] && updates[..i + 1][i] == updates[i];
    if updates[i].1 != Mask {
      assert Unmasked(updates[..i + 1]) == Unmasked(updates[..i]) + [updates[i]];
    } else {
      assert Unmasked(updates[..i + 1]) == Unmasked(updates[..i]);
    }
  }

  lemma WritesPrefix(updates: seq<(string, string)>, n: nat)
    requires n <= |updates|
    ensures SettingWrites(Unmasked(updates[..n])) <= SettingWrites(Unmasked(updates))
  {
    UnmaskedPrefix(updates, n);
  }

  /**
   * On an object the mask is dropped by key: a key whose value is the mask assigns nothing, and any
   * other key assigns its value.
   */
  lemma {:induction false} UnmaskedAssigned(obj: seq<(string, string)>, key: string)
    requires DistinctKeys(obj)
    ensures Assigned(Unmasked(obj), key) == if Assigned(obj, key) == Some(Mask) then None else Assigned(obj, key)
    decreases |obj|
  {
    if |obj| > 0 {
      var front := obj[..|obj| - 1];
      var last := obj[|obj| - 1];
      assert DistinctKeys(front) by {
        forall i, j | 0 <= i < j < |front| ensures front[i].0 != front[j].0 {
          assert front[i] == obj[i] && front[j] == obj[j];
        }
      }
      UnmaskedAssigned(front, key);
      var uf := Unmasked(front);
      var u := uf + [last];
      assert u[..|u| - 1] == uf;
      assert Unmasked(obj) == if last.1 != Mask then u else uf;
      if last.0 == key {
        assert Assigned(front, key).None? by {
          forall i | 0 <= i < |front| ensures front[i].0 != key {
            assert front[i] == obj[i];
          }
        }
      }
    }
  }

  function PutAll(t: Tables, body: seq<(string, string)>): (Http.Reply, Tables) {
    var updates := Collapse(body);
    match FirstInvalid(Names(updates))
    case Some(key) => (Http.ErrorReply(400, "Invalid setting key: " + key), t)
    case None =>
      var (t1, ok) := Run(t, SettingWrites(Unmasked(updates)));
      if !ok then (Http.ErrorReply(500, "Failed to update settings"), t1) else (Http.Ok(Http.Success([])), t1)
  }

  /** The validation loop of `PUT /`: the first key outside the allowed list. */
  method ValidateKeys(updates: seq<(string, string)>) returns (invalid: Option<string>)
    ensures invalid == FirstInvalid(Names(updates))
  {
    for i := 0 to |updates|
      invariant forall j :: 0 <= j < i ==> updates[j].0 in Allowed
    {
      if updates[i].0 !in Allowed {
        return Some(updates[i].0);
      }
    }
    return None;
  }

  /** The write loop of `PUT /`: one `setSetting` per entry not masked, stopping at the first that throws. */
  method WriteUnmasked(db: Queries, updates: seq<(string, string)>) returns (ok: bool)
    modifies db
    ensures (db.Snapshot(), ok) == Run(old(db.Snapshot()), SettingWrites(Unmasked(updates)))
  {
    ghost var t0 := db.Snapshot();
    ghost var ws: seq<Write> := [];
    assert updates[..0] == [];
    for i := 0 to |updates|
      invariant ws == SettingWrites(Unmasked(updates[..i]))
      invariant (db.Snapshot(), true) == Run(t0, ws)
    {
      UnmaskedStep(updates, i);
      if updates[i].1 != Mask {
        RunSnoc(t0, ws, SetSetting(updates[i].0, updates[i].1));
        ws := ws + [SetSetting(updates[i].0, updates[i].1)];
        ok := db.SetSetting(updates[i].0, updates[i].1);
        if !ok {
          WritesPrefix(updates, i + 1);
          RunFailsFrom(t0, ws, SettingWrites(Unmasked(updates)));
          return false;
        }
      }
    }
    assert updates[..|updates|] == updates;
    ok := true;
  }

  /** `PUT /`: the body's pairs are parsed into an object, then validated and written. */
  method HandlePutAll(db: Queries, body: seq<(string, string)>) returns (reply: Http.Reply)
    modifies db
    ensures (reply, db.Snapshot()) == PutAll(old(db.Snapshot()), body)
  {
    var updates := Collapse(body);
    var invalid := ValidateKeys(updates);
    if invalid.Some? {
      return Http.ErrorReply(400, "Invalid setting key: " + invalid.value);
    }
    var ok := WriteUnmasked(db, updates);
    if !ok {
      return Http.ErrorReply(500, "Failed to update settings");
    }
    reply := Http.Ok(Http.Success([]));
  }

  /** Every key of the body is a key of the parsed object, and the other way round. */
  lemma CollapseKeys(body: seq<(string, string)>, key: string)
    ensures (exists i :: 0 <= i < |body| && body[i].0 == key) <==> (exists j :: 0 <= j < |Collapse(body)| && Collapse(body)[j].0 == key)
  {
    assert Assigned(Collapse(body), key) == Assigned(body, key);
  }

  /** The parsed body keeps to the allowed keys exactly when the raw body does. */
  lemma CollapseAllowed(body: seq<(string, string)>)
    ensures (forall j :: 0 <= j < |Collapse(body)| ==> Collapse(body)[j].0 in Allowed) <==>
      (forall i :: 0 <= i < |body| ==> body[i].0 in Allowed)
  {
    var obj := Collapse(body);
    if i :| 0 <= i < |body| && body[i].0 !in Allowed {
      CollapseKeys(body, body[i].0);
      var j :| 0 <= j < |obj| && obj[j].0 == body[i].0;
      assert obj[j].0 !in Allowed;
    } else {
      forall j | 0 <= j < |obj| ensures obj[j].0 in Allowed {
        CollapseKeys(body, obj[j].0);
        var i :| 0 <= i < |body| && body[i].0 == obj[j].0;
        assert body[i].0 in Allowed;
      }
    }
  }

  /**
   * The writes of a parsed body touch only the settings table and leave alone every key that the
   * body does not name or whose last pair is the mask; when they all succeed every other key of the
   * body reads back its last value.
   */
  lemma PutAllWrites(t: Tables, body: seq<(string, string)>)
    ensures var (t1, ok) := Run(t, SettingWrites(Unmasked(Collapse(body))));
      (forall key :: Assigned(body, key).None? || Assigned(body, key) == Some(Mask) ==>
        SettingOf(t1.settings, key) == SettingOf(t.settings, key)) &&
      (ok ==> forall key :: Assigned(body, key).Some? && Assigned(body, key) != Some(Mask) ==>
        SettingOf(t1.settings, key) == Assigned(body, key)) &&
      t1.emails == t.emails && t1.sessions == t.sessions && t1.addresses == t.addresses && t1.attachments == t.attachments
  {
    var obj := Collapse(body);
    var pairs := Unmasked(obj);
    forall key ensures Assigned(pairs, key) == if Assigned(body, key) == Some(Mask) then None else Assigned(body, key) {
      UnmaskedAssigned(obj, key);
    }
    RunSettingWrites(t, pairs);
    forall key | Assigned(pairs, key).None?
      ensures SettingOf(Run(t, SettingWrites(pairs)).0.settings, key) == SettingOf(t.settings, key)
    {
      RunSettingWritesUnassigned(t, pairs, key);
    }
  }

  /** The validation passes an object exactly when all of its keys are allowed. */
  lemma NamesAllowed(obj: seq<(string, string)>)
    ensures FirstInvalid(Names(obj)).None? <==> forall j :: 0 <= j < |obj| ==> obj[j].0 in Allowed
  {
    var ks := Names(obj);
    assert forall j :: 0 <= j < |obj| ==> ks[j] == obj[j].0;
  }

  /** Through the parsed object, the validation refuses a body exactly when a key of it is not allowed. */
  lemma CollapseRefuses(body: seq<(string, string)>)
    ensures FirstInvalid(Names(Collapse(body))).None? <==> forall i :: 0 <= i < |body| ==> body[i].0 in Allowed
  {
    NamesAllowed(Collapse(body));
    CollapseAllowed(body);
  }

  /**
   * One key outside the allowed list, anywhere in the body, refuses the whole body before any write,
   * and is the only way to a 400.
   */
  lemma PutAllRefusal(t: Tables, body: seq<(string, string)>)
    ensures var (reply, t1) := PutAll(t, body);
      (reply.status == 400 <==> exists i :: 0 <= i < |body| && body[i].0 !in Allowed) &&
      (reply.status == 400 ==> t1 == t)
  {
    CollapseRefuses(body);
  }

  /**
   * Whatever the outcome, only allowed keys change, and only keys whose last pair is not the mask;
   * after a 200 each of those reads back that last value. No other table changes.
   */
  lemma PutAllEffect(t: Tables, body: seq<(string, string)>)
    ensures var (reply, t1) := PutAll(t, body);
      (forall key :: key !in Allowed ==> SettingOf(t1.settings, key) == SettingOf(t.settings, key)) &&
      (forall key :: Assigned(body, key).None? || Assigned(body, key) == Some(Mask) ==>
        SettingOf(t1.settings, key) == SettingOf(t.settings, key)) &&
      (reply.status == 200 ==> forall key :: Assigned(body, key).Some? && Assigned(body, key) != Some(Mask) ==>
        SettingOf(t1.settings, key) == Assigned(body, key)) &&
      t1.emails == t.emails && t1.sessions == t.sessions && t1.addresses == t.addresses && t1.attachments == t.attachments
  {
    CollapseRefuses(body);
    PutAllWrites(t, body);
    if FirstInvalid(Names(Collapse(body))).None? {
      forall key | key !in Allowed ensures Assigned(body, key).None? {
      }
    }
  }

  // ------------------------------------------------------------------ PUT /:key

  function PutOne(t: Tables, key: string, value: string): (Http.Reply, Tables) {
    if key !in Allowed then (Http.ErrorReply(400, "Invalid setting key"), t)
    else if value == Mask then (Http.Ok(Http.Success([("message", JStr("No change (masked value)"))])), t)
    else
      var (t1, ok) := Step(t, SetSetting(key, value));
      if !ok then (Http.ErrorReply(500, "Failed to update setting"), t1) else (Http.Ok(Http.Success([])), t1)
  }

  method HandlePutOne(db: Queries, key: string, value: string) returns (reply: Http.Reply)
    modifies db
    ensures (reply, db.Snapshot()) == PutOne(old(db.Snapshot()), key, value)
  {
    if key !in Allowed {
      return Http.ErrorReply(400, "Invalid setting key");
    }
    if value == Mask {
      return Http.Ok(Http.Success([("message", JStr("No change (masked value)"))]));
    }
    var ok := db.SetSetting(key, value);
    if !ok {
      return Http.ErrorReply(500, "Failed to update setting");
    }
    reply := Http.Ok(Http.Success([]));
  }

  /**
   * A key outside the list is refused and the mask is a successful no-op, both with nothing
   * written; otherwise the key reads back the value after a 200 and no other key changes.
   */
  lemma PutOneEffect(t: Tables, key: string, value: string)
    ensures var (reply, t1) := PutOne(t, key, value);
      (key !in Allowed ==> reply.status == 400 && t1 == t) &&
      (key in Allowed && value == Mask ==> reply.status == 200 && t1 == t) &&
      (reply.status == 200 && value != Mask ==> SettingOf(t1.settings, key) == Some(value)) &&
      (forall k :: k != key ==> SettingOf(t1.settings, k) == SettingOf(t.settings, k))
  {
    UpsertReads(t.settings, key, value);
  }

  /**
   * `setup_completed` is one of the allowed keys, so a single write through this route marks the
   * setup complete whatever is configured, bypassing the completion gate of the setup routes.
   */
  lemma CompletionFlagWritable(t: Tables)
    requires t.failAfter.None?
    ensures var (reply, t1) := PutOne(t, "setup_completed", "true");
      reply.status == 200 && SettingOf(t1.settings, "setup_completed") == Some("true")
  {
    assert "setup_completed" in Allowed;
    UpsertReads(t.settings, "setup_completed", "true");
  }
}
