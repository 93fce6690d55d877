/**
 * The first-run setup routes: the status summary, the Cloudflare onboarding, the worker routing
 * repair, the Brevo key, adding a managed address and the completion gate. Each route is a
 * function from the store (and, where it talks to Cloudflare, the provider) to the reply and the
 * new state, and a method over `Queries` proved to compute it.
 */
module SetupApi {
  import opened Wrappers
  import opened Json
  import opened Text
  import Http
  import opened Database
  import opened CloudflareService
  import opened CloudflareClient
  import opened CloudflareDomains
  import opened CloudflareRouting
  import opened CloudflareEmailApi

  /** The worker name of the deployment configuration. */
  const WorkerName := "avamail"

  /** `settings[key]` on the dictionary `getAllSettings` returns. */
  function Entry(m: map<string, string>, key: string): Option<string> {
    if key in m then Some(m[key]) else None
  }

  // ------------------------------------------------------------------ GET /status

  datatype SetupStatus = SetupStatus(
    setupCompleted: bool,
    domain: Option<string>,
    destinationEmail: Option<string>,
    cloudflareConfigured: bool,
    zoneId: Option<string>,
    brevoConfigured: bool)

  function StatusOf(m: map<string, string>): SetupStatus {
    SetupStatus(
      Entry(m, "setup_completed") == Some("true"),
      OrNull(Entry(m, "domain")),
      OrNull(Entry(m, "destination_email")),
      Present(Entry(m, "cloudflare_api_key")) && Present(Entry(m, "cloudflare_account_id")) && Present(Entry(m, "cloudflare_zone_id")),
      OrNull(Entry(m, "cloudflare_zone_id")),
      Present(Entry(m, "brevo_api_key")))
  }

  function OptJson(s: Option<string>): Json {
    if s.Some? then JStr(s.value) else JNull
  }

  function StatusJson(s: SetupStatus): Json {
    JObj([
      ("setupCompleted", JBool(s.setupCompleted)),
      ("domain", OptJson(s.domain)),
      ("destinationEmail", OptJson(s.destinationEmail)),
      ("cloudflare", JObj([("configured", JBool(s.cloudflareConfigured)), ("zoneId", OptJson(s.zoneId))])),
      ("brevo", JObj([("configured", JBool(s.brevoConfigured))]))])
  }

  method HandleStatus(db: Queries) returns (reply: Http.Reply, status: SetupStatus)
    ensures status == StatusOf(SettingsMap(db.settings))
    ensures reply == Http.Ok(StatusJson(status))
  {
    var settings := db.GetAllSettings();
    status := StatusOf(settings);
    reply := Http.Ok(StatusJson(status));
  }

  /**
   * On a valid store the summary says what the single-key lookups say: Cloudflare is configured
   * exactly when the key, the account and the zone are all non-empty, Brevo when its key is, and the
   * setup is complete only when the flag is the text `true`.
   */
  lemma StatusMeansSettings(t: Tables)
    requires Valid(t)
    ensures var s := StatusOf(SettingsMap(t.settings));
      (s.cloudflareConfigured <==>
        Present(SettingOf(t.settings, "cloudflare_api_key")) &&
        Present(SettingOf(t.settings, "cloudflare_account_id")) &&
        Present(SettingOf(t.settings, "cloudflare_zone_id"))) &&
      (s.brevoConfigured <==> Present(SettingOf(t.settings, "brevo_api_key"))) &&
      (s.setupCompleted <==> SettingOf(t.settings, "setup_completed") == Some("true")) &&
      s.zoneId == OrNull(SettingOf(t.settings, "cloudflare_zone_id")) &&
      s.domain == OrNull(SettingOf(t.settings, "domain"))
  {
    SettingsMapAgrees(t.settings);
  }

  /** With unique keys, a dictionary entry is the single-key lookup. */
  lemma SettingsMapAgrees(rows: seq<Setting>)
    requires UniqueKeys(rows)
    ensures forall key :: Entry(SettingsMap(rows), key) == SettingOf(rows, key)
  {
    SettingsMapUnique(rows);
  }

  // ------------------------------------------------------------------ POST /cloudflare

  /** The parsed request body; a missing or non-string field is None. */
  datatype CloudflareBody = CloudflareBody(apiKey: Option<string>, accountId: Option<string>, domain: Option<string>, destinationEmail: Option<string>)

  /** What the provider calls of the route return. */
  datatype Provisioned = Provisioned(zone: Zone, routing: RoutingSettings, dns: seq<DnsRecord>, rule: Rule)

  /**
   * The provider calls in the route's order: the destination when one is given, the zone, routing
   * enabled, its DNS records, and the catch-all rule sending every message to the worker. The first
   * call that throws ends the sequence.
   */
  function Provision(api: Api, svc: Service, domain: string, destinationEmail: Option<string>): (Result<Provisioned, string>, Service) {
    var (d, s0) := if Present(destinationEmail) then EnsureDestinationAddress(api, svc, destinationEmail.value) else (Ok(Destination("", "", None)), svc);
    if d.Err? then (Err(d.error), s0)
    else
      var (z, s1) := EnsureZone(Domains(api), s0, domain);
      if z.Err? then (Err(z.error), s1)
      else RouteToWorker(api, s1, z.value)
  }

  /** The routing half of the provisioning, on the zone the first half found or created. */
  function RouteToWorker(api: Api, svc: Service, zone: Zone): (Result<Provisioned, string>, Service) {
    var (rs, s2) := Enable(Routing(api), svc, zone.id);
    if rs.Err? then (Err(rs.error), s2)
    else
      var (dns, s3) := GetRoutingDns(Routing(api), s2, zone.id);
      if dns.Err? then (Err(dns.error), s3)
      else
        var (rule, s4) := SetupCatchAllWorker(Routing(api), s3, zone.id, WorkerName);
        if rule.Err? then (Err(rule.error), s4)
        else (Ok(Provisioned(zone, rs.value, dns.value, rule.value)), s4)
  }

  /** The settings saved once the provider is set up; the destination only when one was given. */
  function CloudflarePairs(apiKey: string, accountId: string, zoneId: string, domain: string, destinationEmail: Option<string>): seq<(string, string)> {
    [("cloudflare_api_key", apiKey), ("cloudflare_account_id", accountId), ("cloudflare_zone_id", zoneId), ("domain", domain)] +
    (if Present(destinationEmail) then [("destination_email", destinationEmail.value)] else [])
  }

  function DnsJson(r: DnsRecord): Json {
    JObj([("id", JStr(r.id)), ("type", JStr(r.kind)), ("name", JStr(r.name)), ("content", JStr(r.content)), ("ttl", JNum(r.ttl))])
  }

  function CloudflareMessage(zone: Zone): string {
    if zone.status == "active" then "Cloudflare Email Routing configured successfully"
    else "Zone added. Please update your domain nameservers to complete setup."
  }

  /** The zone as the reply shows it. */
  function ZoneJson(z: Zone): Json {
    JObj([("id", JStr(z.id)), ("name", JStr(z.name)), ("status", JStr(z.status)), ("nameServers", StrArr(z.nameServers))])
  }

  function CloudflareSuccess(p: Provisioned): Json {
    Http.Success([
      ("zone", ZoneJson(p.zone)),
      ("routing", JObj([("enabled", JBool(p.routing.enabled)), ("status", JStr(p.routing.status))])),
      ("catchAllRule", JObj([("id", JStr(p.rule.id)), ("enabled", JBool(p.rule.enabled))])),
      ("dnsRecords", JArr(seq(|p.dns|, i requires 0 <= i < |p.dns| => DnsJson(p.dns[i])))),
      ("message", JStr(CloudflareMessage(p.zone)))])
  }

  /** The zone object carries the zone's id and its name servers. */
  lemma ZoneJsonShows(z: Zone)
    ensures Member(ZoneJson(z), "id") == Some(JStr(z.id))
    ensures Member(ZoneJson(z), "nameServers") == Some(StrArr(z.nameServers))
  {
    var fields := ZoneJson(z).fields;
    assert "name"[0] != "id"[0] && "status"[0] != "id"[0] && "nameServers"[0] != "id"[0];
    LastFieldAt(fields, "id", 0);
    LastFieldAt(fields, "nameServers", 3);
  }

  /**
   * The 200 reply names the zone with its name servers, so that a pending zone can be delegated, and
   * says setup is complete exactly when the zone is active.
   */
  lemma CloudflareSuccessShows(p: Provisioned)
    ensures var reply := CloudflareSuccess(p);
      Member(reply, "success") == Some(JBool(true)) && Member(reply, "zone") == Some(ZoneJson(p.zone)) &&
      Member(ZoneJson(p.zone), "id") == Some(JStr(p.zone.id)) &&
      Member(ZoneJson(p.zone), "nameServers") == Some(StrArr(p.zone.nameServers)) &&
      (Member(reply, "message") == Some(JStr("Cloudflare Email Routing configured successfully")) <==> p.zone.status == "active")
  {
    var fields := CloudflareSuccess(p).fields;
    assert "routing"[0] != "zone"[0] && "catchAllRule"[0] != "zone"[0] && "dnsRecords"[0] != "zone"[0] && "message"[0] != "zone"[0];
    LastFieldAt(fields, "success", 0);
    LastFieldAt(fields, "zone", 1);
    LastFieldAt(fields, "message", 5);
    ZoneJsonShows(p.zone);
  }

  const CloudflareRequired := "apiKey, accountId, and domain are required"
  const CloudflareFailed := "Failed to setup Cloudflare"

  /** The route: the reply, the store and the provider afterwards. */
  function CloudflareSetup(t: Tables, svc: Service, body: CloudflareBody): (Http.Reply, Tables, Service) {
    if !Present(body.apiKey) || !Present(body.accountId) || !Present(body.domain) then
      (Http.ErrorReply(400, CloudflareRequired), t, svc)
    else
      var api := Api(Config(body.apiKey.value, body.accountId.value));
      var (p, s1) := Provision(api, svc, body.domain.value, body.destinationEmail);
      if p.Err? then (Http.DetailedError(500, CloudflareFailed, p.error), t, s1)
      else
        var (t1, ok) := Run(t, SettingWrites(CloudflarePairs(body.apiKey.value, body.accountId.value, p.value.zone.id, body.domain.value, body.destinationEmail)));
        if !ok then (Http.DetailedError(500, CloudflareFailed, StoreErrorMessage), t1, s1)
        else (Http.Ok(CloudflareSuccess(p.value)), t1, s1)
  }

  method HandleCloudflare(db: Queries, svc: Service, body: CloudflareBody) returns (reply: Http.Reply, svc': Service)
    modifies db
    ensures (reply, db.Snapshot(), svc') == CloudflareSetup(old(db.Snapshot()), svc, body)
  {
    if !Present(body.apiKey) || !Present(body.accountId) || !Present(body.domain) {
      return Http.ErrorReply(400, CloudflareRequired), svc;
    }
    var apiKey, accountId, domain := body.apiKey.value, body.accountId.value, body.domain.value;
    var api := Api(Config(apiKey, accountId));
    var (p, s1) := Provision(api, svc, domain, body.destinationEmail);
    svc' := s1;
    if p.Err? {
      return Http.DetailedError(500, CloudflareFailed, p.error), svc';
    }
    var ok := SaveCloudflareSettings(db, apiKey, accountId, p.value.zone.id, domain, body.destinationEmail);
    if !ok {
      return Http.DetailedError(500, CloudflareFailed, StoreErrorMessage), svc';
    }
    reply := Http.Ok(CloudflareSuccess(p.value));
  }

  /** The settings writes of the route, one awaited `setSetting` after the other. */
  method SaveCloudflareSettings(db: Queries, apiKey: string, accountId: string, zoneId: string, domain: string, destinationEmail: Option<string>)
    returns (ok: bool)
    modifies db
    ensures (db.Snapshot(), ok) == Run(old(db.Snapshot()), SettingWrites(CloudflarePairs(apiKey, accountId, zoneId, domain, destinationEmail)))
  {
    ghost var t0 := db.Snapshot();
    ghost var pairs := CloudflarePairs(apiKey, accountId, zoneId, domain, destinationEmail);
    CloudflareWrites(apiKey, accountId, zoneId, domain, destinationEmail);
    assert Run(t0, SettingWrites(pairs[..0])) == (t0, true);
    ok := db.SetSetting("cloudflare_api_key", apiKey);
    SavedStep(t0, pairs, 0, db.Snapshot(), ok);
    if !ok { return; }
    ok := db.SetSetting("cloudflare_account_id", accountId);
    SavedStep(t0, pairs, 1, db.Snapshot(), ok);
    if !ok { return; }
    ok := db.SetSetting("cloudflare_zone_id", zoneId);
    SavedStep(t0, pairs, 2, db.Snapshot(), ok);
    if !ok { return; }
    ok := db.SetSetting("domain", domain);
    SavedStep(t0, pairs, 3, db.Snapshot(), ok);
    if !ok { return; }
    if Present(destinationEmail) {
      ok := db.SetSetting("destination_email", destinationEmail.value);
      SavedStep(t0, pairs, 4, db.Snapshot(), ok);
    } else {
      assert pairs[..4] == pairs;
    }
  }

  /** The route's writes, one per pair in order, the destination last and only when present. */
  lemma CloudflareWrites(apiKey: string, accountId: string, zoneId: string, domain: string, destinationEmail: Option<string>)
    ensures var ws := SettingWrites(CloudflarePairs(apiKey, accountId, zoneId, domain, destinationEmail));
      && |ws| == (if Present(destinationEmail) then 5 else 4)
      && ws[0] == SetSetting("cloudflare_api_key", apiKey)
      && ws[1] == SetSetting("cloudflare_account_id", accountId)
      && ws[2] == SetSetting("cloudflare_zone_id", zoneId)
      && ws[3] == SetSetting("domain", domain)
      && (Present(destinationEmail) ==> ws[4] == SetSetting("destination_email", destinationEmail.value))
  {
  }

  /**
   * After the `k`-th pair's write: if it threw, the whole run stops there; otherwise the run so far
   * has reached the current store.
   */
  lemma SavedStep(t0: Tables, pairs: seq<(string, string)>, k: nat, t: Tables, ok: bool)
    requires k < |pairs|
    requires Run(t0, SettingWrites(pairs[..k])).1 && (t, ok) == Step(Run(t0, SettingWrites(pairs[..k])).0, SettingWrites(pairs)[k])
    ensures Run(t0, SettingWrites(pairs[..k + 1])) == (t, ok)
    ensures !ok ==> Run(t0, SettingWrites(pairs)) == (t, ok)
    ensures k + 1 == |pairs| ==> Run(t0, SettingWrites(pairs)) == (t, ok)
  {
    assert pairs[..k + 1][..k] == pairs[..k];
    assert SettingWrites(pairs[..k + 1]) == SettingWrites(pairs[..k]) + [SettingWrites(pairs)[k]];
    RunSnoc(t0, SettingWrites(pairs[..k]), SettingWrites(pairs)[k]);
    if !ok {
      assert SettingWrites(pairs[..k + 1]) <= SettingWrites(pairs) by {
        SettingWritesPrefix(pairs, k + 1);
      }
      RunFailsFrom(t0, SettingWrites(pairs[..k + 1]), SettingWrites(pairs));
    }
    if k + 1 == |pairs| {
      assert pairs[..k + 1] == pairs;
    }
  }

  lemma SettingWritesPrefix(pairs: seq<(string, string)>, n: nat)
    requires n <= |pairs|
    ensures SettingWrites(pairs[..n]) <= SettingWrites(pairs)
  {
  }

  /** Missing fields: a 400, no provider call, nothing written. */
  lemma CloudflareNeedsFields(t: Tables, svc: Service, body: CloudflareBody)
    requires !Present(body.apiKey) || !Present(body.accountId) || !Present(body.domain)
    ensures var (reply, t1, s1) := CloudflareSetup(t, svc, body);
      reply.status == 400 && Member(reply.body, "error") == Some(JStr(CloudflareRequired)) && t1 == t && s1 == svc
  {
  }

  /** A provider call that throws: a 500 whose details are its message, and no setting written. */
  lemma CloudflareProviderFails(t: Tables, svc: Service, body: CloudflareBody)
    requires Present(body.apiKey) && Present(body.accountId) && Present(body.domain)
    requires Provision(Api(Config(body.apiKey.value, body.accountId.value)), svc, body.domain.value, body.destinationEmail).0.Err?
    ensures var (reply, t1, _) := CloudflareSetup(t, svc, body);
      reply.status == 500 && Member(reply.body, "error") == Some(JStr(CloudflareFailed)) && t1 == t
  {
  }

  /**
   * A 200 means every setting was saved: the key, the account, the zone's id, the domain and, when
   * given, the destination read back; every other key and every other table is as before.
   */
  lemma CloudflareSaves(t: Tables, svc: Service, body: CloudflareBody, p: Provisioned)
    requires Present(body.apiKey) && Present(body.accountId) && Present(body.domain)
    requires Provision(Api(Config(body.apiKey.value, body.accountId.value)), svc, body.domain.value, body.destinationEmail).0 == Ok(p)
    requires CloudflareSetup(t, svc, body).0.status == 200
    ensures var t1 := CloudflareSetup(t, svc, body).1;
      SettingOf(t1.settings, "cloudflare_api_key") == body.apiKey &&
      SettingOf(t1.settings, "cloudflare_account_id") == body.accountId &&
      SettingOf(t1.settings, "cloudflare_zone_id") == Some(p.zone.id) &&
      SettingOf(t1.settings, "domain") == body.domain &&
      SettingOf(t1.settings, "destination_email") == (if Present(body.destinationEmail) then body.destinationEmail else SettingOf(t.settings, "destination_email")) &&
      (forall key :: key !in CloudflareKeys ==> SettingOf(t1.settings, key) == SettingOf(t.settings, key)) &&
      t1.emails == t.emails && t1.addresses == t.addresses && t1.sessions == t.sessions && t1.attachments == t.attachments
  {
    var pairs := CloudflarePairs(body.apiKey.value, body.accountId.value, p.zone.id, body.domain.value, body.destinationEmail);
    RunSettingWrites(t, pairs);
    CloudflareAssigned(body.apiKey.value, body.accountId.value, p.zone.id, body.domain.value, body.destinationEmail);
  }

  const CloudflareKeys := {"cloudflare_api_key", "cloudflare_account_id", "cloudflare_zone_id", "domain", "destination_email"}

  /** What the route's pairs assign, key by key. */
  lemma CloudflareAssigned(apiKey: string, accountId: string, zoneId: string, domain: string, destinationEmail: Option<string>)
    ensures var pairs := CloudflarePairs(apiKey, accountId, zoneId, domain, destinationEmail);
      Assigned(pairs, "cloudflare_api_key") == Some(apiKey) &&
      Assigned(pairs, "cloudflare_account_id") == Some(accountId) &&
      Assigned(pairs, "cloudflare_zone_id") == Some(zoneId) &&
      Assigned(pairs, "domain") == Some(domain) &&
      Assigned(pairs, "destination_email") == (if Present(destinationEmail) then destinationEmail else None) &&
      forall key :: key !in CloudflareKeys ==> Assigned(pairs, key).None?
  {
    var pairs := CloudflarePairs(apiKey, accountId, zoneId, domain, destinationEmail);
    var four := pairs[..4];
    assert four == [("cloudflare_api_key", apiKey), ("cloudflare_account_id", accountId), ("cloudflare_zone_id", zoneId), ("domain", domain)];
    AssignedAt(pairs, 0);
    AssignedAt(pairs, 1);
    AssignedAt(pairs, 2);
    AssignedAt(pairs, 3);
    if Present(destinationEmail) {
      AssignedAt(pairs, 4);
    }
  }

  /**
   * A successful provisioning leaves the zone's catch-all rule enabled, matching every message and
   * sending it to the worker, and its last three requests are enable, the DNS read and the rule's PUT.
   */
  lemma ProvisionRoutesToWorker(api: Api, svc: Service, domain: string, destinationEmail: Option<string>)
    requires Provision(api, svc, domain, destinationEmail).0.Ok?
    ensures var (p, s) := Provision(api, svc, domain, destinationEmail);
      p.value.zone.name == domain && Routed(api, p.value, s)
  {
    var (d, s0) := if Present(destinationEmail) then EnsureDestinationAddress(api, svc, destinationEmail.value) else (Ok(Destination("", "", None)), svc);
    var (z, s1) := EnsureZone(Domains(api), s0, domain);
    RouteToWorkerEffect(api, s1, z.value);
  }

  /** The zone's catch-all rule sends everything to the worker, and the last three requests set that up. */
  predicate Routed(api: Api, p: Provisioned, s: Service) {
    var zoneId := p.zone.id;
    zoneId in s.catchAll && s.catchAll[zoneId] == p.rule &&
    p.rule.enabled && p.rule.matchers == [MatchAll] && p.rule.actions == [Action("worker", [WorkerName])] &&
    p.routing.enabled && zoneId in s.routing && s.routing[zoneId] == p.routing &&
    |s.log| >= 3 &&
    s.log[|s.log| - 3..] == [
      BuildRequest(api.client, POST, RoutingPath(zoneId) + "/enable", None),
      BuildRequest(api.client, GET, RoutingPath(zoneId) + "/dns", None),
      BuildRequest(api.client, PUT, CatchAllPath(zoneId), Some(CatchAllBody(true, [Action("worker", [WorkerName])])))]
  }

  lemma RouteToWorkerEffect(api: Api, svc: Service, zone: Zone)
    requires RouteToWorker(api, svc, zone).0.Ok?
    ensures var (p, s) := RouteToWorker(api, svc, zone); p.value.zone == zone && Routed(api, p.value, s)
  {
    var (rs, s2) := Enable(Routing(api), svc, zone.id);
    var (dns, s3) := GetRoutingDns(Routing(api), s2, zone.id);
    var (rule, s4) := SetupCatchAllWorker(Routing(api), s3, zone.id, WorkerName);
    assert s4.log == svc.log + [
      BuildRequest(api.client, POST, RoutingPath(zone.id) + "/enable", None),
      BuildRequest(api.client, GET, RoutingPath(zone.id) + "/dns", None),
      BuildRequest(api.client, PUT, CatchAllPath(zone.id), Some(CatchAllBody(true, [Action("worker", [WorkerName])])))];
  }

  // ------------------------------------------------------------------ POST /cloudflare/worker-routing

  const NotConfigured := "Cloudflare not configured"

  function WorkerRoutingSuccess(rule: Rule): Json {
    Http.Success([
      ("catchAllRule", JObj([("id", JStr(rule.id)), ("enabled", JBool(rule.enabled))])),
      ("message", JStr("Email routing updated to forward to worker"))])
  }

  const WorkerRoutingFailed := "Failed to setup worker routing"

  /** The text of the `TypeError` thrown when the body is `null` and `workerName` is read from it. */
  const NullWorkerName: string := "Cannot read properties of null (reading 'workerName')"

  /**
   * `body.workerName || 'avamail'`, where `body` is the parsed request body and a body that does not
   * parse (None) is `{}` through the `.catch`. Reading a member of a `null` body throws.
   */
  function WorkerNameOf(body: Option<Json>): (r: Result<string, string>)
    ensures r.Err? <==> body == Some(JNull)
    ensures r.Err? ==> r.error == NullWorkerName
    ensures r.Ok? ==> r.value != ""
  {
    match body
    case None => Ok(WorkerName)
    case Some(JNull) => Err(NullWorkerName)
    case Some(v) => Ok(Or(GetString(v, "workerName"), WorkerName))
  }

  /**
   * The worker name is the body's own non-empty `workerName` text; any other body, one that does
   * not parse included, names `avamail`. Only a `null` body fails.
   */
  lemma WorkerNameChoice(name: string, v: Json)
    ensures name != "" ==> WorkerNameOf(Some(JObj([("workerName", JStr(name))]))) == Ok(name)
    ensures WorkerNameOf(None) == Ok(WorkerName)
    ensures WorkerNameOf(Some(JObj([]))) == Ok(WorkerName)
    ensures WorkerNameOf(Some(JObj([("workerName", JStr(""))]))) == Ok(WorkerName)
    ensures !v.JObj? && v != JNull ==> WorkerNameOf(Some(v)) == Ok(WorkerName)
    ensures WorkerNameOf(Some(JNull)).Err?
  {
  }

  /**
   * The route reads the body, then three settings, and rewrites only the provider's catch-all rule;
   * a `null` body throws before any of that, into the route's own 500.
   */
  function WorkerRouting(settings: seq<Setting>, svc: Service, body: Option<Json>): (Http.Reply, Service) {
    match WorkerNameOf(body)
    case Err(e) => (Http.DetailedError(500, WorkerRoutingFailed, e), svc)
    case Ok(name) =>
      var apiKey := SettingOf(settings, "cloudflare_api_key");
      var accountId := SettingOf(settings, "cloudflare_account_id");
      var zoneId := SettingOf(settings, "cloudflare_zone_id");
      if !Present(apiKey) || !Present(accountId) || !Present(zoneId) then (Http.ErrorReply(400, NotConfigured), svc)
      else
        var api := Api(Config(apiKey.value, accountId.value));
        var (rule, s1) := SetupCatchAllWorker(Routing(api), svc, zoneId.value, name);
        if rule.Err? then (Http.DetailedError(500, WorkerRoutingFailed, rule.error), s1)
        else (Http.Ok(WorkerRoutingSuccess(rule.value)), s1)
  }

  /** The store is only read: the method changes nothing in it. */
  method HandleWorkerRouting(db: Queries, svc: Service, body: Option<Json>) returns (reply: Http.Reply, svc': Service)
    ensures (reply, svc') == WorkerRouting(db.settings, svc, body)
  {
    var named := WorkerNameOf(body);
    if named.Err? {
      return Http.DetailedError(500, WorkerRoutingFailed, named.error), svc;
    }
    var name := named.value;
    var apiKey := db.GetSetting("cloudflare_api_key");
    var accountId := db.GetSetting("cloudflare_account_id");
    var zoneId := db.GetSetting("cloudflare_zone_id");
    if !Present(apiKey) || !Present(accountId) || !Present(zoneId) {
      return Http.ErrorReply(400, NotConfigured), svc;
    }
    var api := Api(Config(apiKey.value, accountId.value));
    var (rule, s1) := SetupCatchAllWorker(Routing(api), svc, zoneId.value, name);
    svc' := s1;
    if rule.Err? {
      return Http.DetailedError(500, WorkerRoutingFailed, rule.error), svc';
    }
    reply := Http.Ok(WorkerRoutingSuccess(rule.value));
  }

  /**
   * A `null` body answers 500 with the `TypeError`'s text, reading no setting and sending nothing.
   * Otherwise, without all three settings the route answers 400 and sends nothing; with them it
   * sends exactly one request, the catch-all PUT naming the body's worker or `avamail`, and touches
   * no other rule.
   */
  lemma WorkerRoutingEffect(settings: seq<Setting>, svc: Service, body: Option<Json>)
    ensures var (reply, s1) := WorkerRouting(settings, svc, body);
      body == Some(JNull) ==> reply == Http.DetailedError(500, WorkerRoutingFailed, NullWorkerName) && s1 == svc
    ensures var (reply, s1) := WorkerRouting(settings, svc, body);
      var apiKey := SettingOf(settings, "cloudflare_api_key");
      var accountId := SettingOf(settings, "cloudflare_account_id");
      var zoneId := SettingOf(settings, "cloudflare_zone_id");
      body != Some(JNull) ==>
      (!Present(apiKey) || !Present(accountId) || !Present(zoneId) ==> reply.status == 400 && s1 == svc) &&
      (Present(apiKey) && Present(accountId) && Present(zoneId) ==>
        var req := BuildRequest(Config(apiKey.value, accountId.value), PUT, CatchAllPath(zoneId.value),
          Some(CatchAllBody(true, [Action("worker", [WorkerNameOf(body).value])])));
        s1.log == svc.log + [req] &&
        s1.rules == svc.rules && s1.zones == svc.zones && s1.routing == svc.routing &&
        (reply.status == 200 <==> req.url !in svc.broken))
  {
    var apiKey := SettingOf(settings, "cloudflare_api_key");
    var accountId := SettingOf(settings, "cloudflare_account_id");
    var zoneId := SettingOf(settings, "cloudflare_zone_id");
    if body != Some(JNull) && Present(apiKey) && Present(accountId) && Present(zoneId) {
      WorkerRoutingSends(settings, svc, body, Config(apiKey.value, accountId.value), zoneId.value);
    }
  }

  /** With a body other than `null` and the three settings, the route's one request is the catch-all PUT of the rule update. */
  lemma WorkerRoutingSends(settings: seq<Setting>, svc: Service, body: Option<Json>, c: Config, zoneId: string)
    requires body != Some(JNull)
    requires Present(SettingOf(settings, "cloudflare_api_key")) && Present(SettingOf(settings, "cloudflare_account_id"))
    requires SettingOf(settings, "cloudflare_zone_id") == Some(zoneId) && zoneId != ""
    requires c == Config(SettingOf(settings, "cloudflare_api_key").value, SettingOf(settings, "cloudflare_account_id").value)
    ensures var (reply, s1) := WorkerRouting(settings, svc, body);
      var rule := UpdateCatchAllRule(c, svc, zoneId, true, [Action("worker", [WorkerNameOf(body).value])]);
      s1 == rule.1 && (reply.status == 200 <==> rule.0.Ok?)
  {
  }

  // ------------------------------------------------------------------ POST /brevo

  /** What `getAccount` returns for a key that works. */
  datatype BrevoAccount = BrevoAccount(email: string, companyName: string)

  function BrevoSuccess(a: BrevoAccount): Json {
    Http.Success([
      ("account", JObj([("email", JStr(a.email)), ("companyName", JStr(a.companyName))])),
      ("message", JStr("Brevo configured successfully. Add your sending domain in Brevo dashboard."))])
  }

  /** `account` is the answer of the Brevo account call made with the key. */
  function BrevoSetup(t: Tables, apiKey: Option<string>, account: Result<BrevoAccount, string>): (Http.Reply, Tables) {
    if !Present(apiKey) then (Http.ErrorReply(400, "apiKey is required"), t)
    else if account.Err? then (Http.DetailedError(500, "Failed to setup Brevo", account.error), t)
    else
      var (t1, ok) := Step(t, SetSetting("brevo_api_key", apiKey.value));
      if !ok then (Http.DetailedError(500, "Failed to setup Brevo", StoreErrorMessage), t1)
      else (Http.Ok(BrevoSuccess(account.value)), t1)
  }

  method HandleBrevo(db: Queries, apiKey: Option<string>, account: Result<BrevoAccount, string>) returns (reply: Http.Reply)
    modifies db
    ensures (reply, db.Snapshot()) == BrevoSetup(old(db.Snapshot()), apiKey, account)
  {
    if !Present(apiKey) {
      return Http.ErrorReply(400, "apiKey is required");
    }
    if account.Err? {
      return Http.DetailedError(500, "Failed to setup Brevo", account.error);
    }
    var ok := db.SetSetting("brevo_api_key", apiKey.value);
    if !ok {
      return Http.DetailedError(500, "Failed to setup Brevo", StoreErrorMessage);
    }
    reply := Http.Ok(BrevoSuccess(account.value));
  }

  /** The key is stored only after the account call accepted it, and the reply is 200 exactly then. */
  lemma BrevoKeyStoredOnlyIfVerified(t: Tables, apiKey: Option<string>, account: Result<BrevoAccount, string>)
    ensures var (reply, t1) := BrevoSetup(t, apiKey, account);
      (reply.status == 200 <==> Present(apiKey) && account.Ok? && Step(t, SetSetting("brevo_api_key", apiKey.value)).1) &&
      (reply.status == 200 ==> SettingOf(t1.settings, "brevo_api_key") == apiKey) &&
      (!Present(apiKey) || account.Err? ==> t1 == t)
  {
    if Present(apiKey) && account.Ok? {
      UpsertReads(t.settings, "brevo_api_key", apiKey.value);
    }
  }

  // ------------------------------------------------------------------ POST /addresses

  /** The row inserted for a new managed address, with the generated `id`. */
  function AddressRow(id: string, address: string, displayName: Option<string>, isDefault: bool): Address {
    Address(id, address, OrNull(displayName), if isDefault then 1 else 0)
  }

  function AddressWrites(id: string, address: string, displayName: Option<string>, isDefault: bool): seq<Write> {
    [InsertAddress(AddressRow(id, address, displayName, isDefault))] + (if isDefault then [SetDefaultAddress(id)] else [])
  }

  /** `isDefault` absent reads as false. */
  function AddAddress(t: Tables, address: Option<string>, displayName: Option<string>, isDefault: bool, id: string): (Http.Reply, Tables) {
    if !Present(address) then (Http.ErrorReply(400, "address is required"), t)
    else
      var (t1, ok) := Run(t, AddressWrites(id, address.value, displayName, isDefault));
      if !ok then (Http.ErrorReply(500, "Failed to add address"), t1)
      else (Http.Ok(Http.Success([("id", JStr(id))])), t1)
  }

  method HandleAddAddress(db: Queries, address: Option<string>, displayName: Option<string>, isDefault: bool, id: string)
    returns (reply: Http.Reply)
    modifies db
    ensures (reply, db.Snapshot()) == AddAddress(old(db.Snapshot()), address, displayName, isDefault, id)
  {
    if !Present(address) {
      return Http.ErrorReply(400, "address is required");
    }
    ghost var t0 := db.Snapshot();
    ghost var ws := AddressWrites(id, address.value, displayName, isDefault);
    var row := AddressRow(id, address.value, displayName, isDefault);
    var ok := db.CreateAddress(row);
    assert ws[..1] == [InsertAddress(row)];
    RunSnoc(t0, [], InsertAddress(row));
    if !ok {
      RunFailsFrom(t0, ws[..1], ws);
      return Http.ErrorReply(500, "Failed to add address");
    }
    if isDefault {
      ok := db.SetDefault(id);
      RunSnoc(t0, [InsertAddress(row)], SetDefaultAddress(id));
      assert ws == [InsertAddress(row)] + [SetDefaultAddress(id)];
      if !ok {
        return Http.ErrorReply(500, "Failed to add address");
      }
    } else {
      assert ws == [] + [InsertAddress(row)];
    }
    reply := Http.Ok(Http.Success([("id", JStr(id))]));
  }

  /**
   * A 200 adds exactly the new row under a fresh id. When it is the default it is the only default
   * afterwards; otherwise it is stored with 0 and every other row is untouched, so a store with at
   * most one default keeps that property.
   */
  lemma AddAddressStored(t: Tables, address: Option<string>, displayName: Option<string>, isDefault: bool, id: string)
    requires AddAddress(t, address, displayName, isDefault, id).0.status == 200
    ensures var t1 := AddAddress(t, address, displayName, isDefault, id).1;
      Present(address) && id !in t.addresses && t1.addresses.Keys == t.addresses.Keys + {id} &&
      t1.addresses[id].address == address.value && t1.addresses[id].displayName == OrNull(displayName) &&
      (isDefault ==> t1.addresses[id].isDefault == 1 && forall k :: k in t1.addresses && k != id ==> t1.addresses[k].isDefault == 0) &&
      (!isDefault ==> t1.addresses == t.addresses[id := AddressRow(id, address.value, displayName, false)]) &&
      AtMostOneDefault(t1.addresses) == (isDefault || AtMostOneDefault(t.addresses)) &&
      t1.settings == t.settings && t1.emails == t.emails
  {
    var row := AddressRow(id, address.value, displayName, isDefault);
    var ws := AddressWrites(id, address.value, displayName, isDefault);
    var (ta, oka) := Step(t, InsertAddress(row));
    assert oka && ta.addresses == t.addresses[id := row];
    if isDefault {
      assert ws == [InsertAddress(row), SetDefaultAddress(id)];
      var (tb, okb) := Step(ta, SetDefaultAddress(id));
      assert ws[1..][1..] == [];
      assert Run(t, ws) == Run(tb, []);
      assert tb.addresses == WithDefault(ta.addresses, id);
      SetDefaultLeavesOne(ta, id);
    } else {
      assert ws == [InsertAddress(row)];
      assert Run(t, ws) == Run(ta, []);
      OneMoreNonDefault(t.addresses, row);
    }
  }

  /** A row stored with 0 neither adds a default nor removes one. */
  lemma OneMoreNonDefault(addresses: map<string, Address>, row: Address)
    requires row.isDefault == 0 && row.id !in addresses
    ensures AtMostOneDefault(addresses[row.id := row]) == AtMostOneDefault(addresses)
  {
    var r := addresses[row.id := row];
    if AtMostOneDefault(r) {
      forall a, b | a in addresses && b in addresses && addresses[a].isDefault == 1 && addresses[b].isDefault == 1
        ensures a == b
      {
        assert r[a] == addresses[a] && r[b] == addresses[b];
      }
    }
  }

  /**
   * When the insert of a default address succeeds but the batch that clears the other defaults
   * throws, the new row stays behind marked default next to the old one.
   */
  lemma DefaultLeftBehind(t: Tables, address: string, displayName: Option<string>, id: string, other: string)
    requires address != ""
    requires t.failAfter == Some(1) && id !in t.addresses && other in t.addresses && t.addresses[other].isDefault == 1
    ensures var (reply, t1) := AddAddress(t, Some(address), displayName, true, id);
      reply.status == 500 && id in t1.addresses && other in t1.addresses &&
      t1.addresses[id].isDefault == 1 && t1.addresses[other].isDefault == 1 && !AtMostOneDefault(t1.addresses)
  {
    var row := AddressRow(id, address, displayName, true);
    var ws := AddressWrites(id, address, displayName, true);
    var (ta, oka) := Step(t, InsertAddress(row));
    assert oka && ta.failAfter == Some(0);
    assert ws[1..] == [SetDefaultAddress(id)];
    assert Run(ta, ws[1..]) == (ta, false);
    var t1 := AddAddress(t, Some(address), displayName, true, id).1;
    assert t1 == ta;
    assert other != id;
    assert t1.addresses[id].isDefault == 1 && t1.addresses[other].isDefault == 1;
  }

  // ------------------------------------------------------------------ POST /complete

  /** The settings the completion gate demands and the label it reports for each; the destination is optional. */
  const Required: seq<(string, string)> := [
    ("cloudflare_api_key", "Cloudflare API Key"),
    ("cloudflare_account_id", "Cloudflare Account ID"),
    ("cloudflare_zone_id", "Cloudflare Zone ID"),
    ("brevo_api_key", "Brevo API Key"),
    ("domain", "Domain")]

  /** The labels of the required settings that are absent or empty, in the order of `items`. */
  function MissingOf(m: map<string, string>, items: seq<(string, string)>): (r: seq<string>)
    ensures |r| <= |items|
    decreases |items|
  {
    if |items| == 0 then []
    else MissingOf(m, items[..|items| - 1]) + (if Present(Entry(m, items[|items| - 1].0)) then [] else [items[|items| - 1].1])
  }

  lemma {:induction false} MissingEmptyIff(m: map<string, string>, items: seq<(string, string)>)
    ensures MissingOf(m, items) == [] <==> forall i :: 0 <= i < |items| ==> Present(Entry(m, items[i].0))
    decreases |items|
  {
    if |items| > 0 {
      MissingEmptyIff(m, items[..|items| - 1]);
      assert forall i :: 0 <= i < |items| - 1 ==> items[..|items| - 1][i] == items[i];
    }
  }

  /** Each label is reported exactly when its setting is absent or empty (labels are distinct). */
  lemma {:induction false} MissingReports(m: map<string, string>, items: seq<(string, string)>, i: nat)
    requires i < |items|
    requires forall a, b :: 0 <= a < b < |items| ==> items[a].1 != items[b].1
    ensures items[i].1 in MissingOf(m, items) <==> !Present(Entry(m, items[i].0))
    decreases |items|
  {
    var front := items[..|items| - 1];
    if i < |items| - 1 {
      assert front[i] == items[i];
      MissingReports(m, front, i);
    } else {
      MissingFrom(m, front, items[i].1);
    }
  }

  /** A label that no item carries is never reported. */
  lemma {:induction false} MissingFrom(m: map<string, string>, items: seq<(string, string)>, caption: string)
    requires forall a :: 0 <= a < |items| ==> items[a].1 != caption
    ensures caption !in MissingOf(m, items)
    decreases |items|
  {
    if |items| > 0 {
      MissingFrom(m, items[..|items| - 1], caption);
    }
  }

  function Missing(m: map<string, string>): seq<string> {
    MissingOf(m, Required)
  }

  function IncompleteJson(missing: seq<string>): Json {
    JObj([("error", JStr("Setup incomplete")), ("missing", JArr(seq(|missing|, i requires 0 <= i < |missing| => JStr(missing[i]))))])
  }

  function Complete(t: Tables): (Http.Reply, Tables) {
    var missing := Missing(SettingsMap(t.settings));
    if |missing| > 0 then (Http.Reply(400, IncompleteJson(missing)), t)
    else
      var (t1, ok) := Step(t, SetSetting("setup_completed", "true"));
      if !ok then (Http.ErrorReply(500, "Failed to complete setup"), t1)
      else (Http.Ok(Http.Success([("message", JStr("Setup completed successfully"))])), t1)
  }

  method HandleComplete(db: Queries) returns (reply: Http.Reply)
    modifies db
    ensures (reply, db.Snapshot()) == Complete(old(db.Snapshot()))
  {
    var settings := db.GetAllSettings();
    var missing: seq<string> := [];
    if !Present(Entry(settings, "cloudflare_api_key")) { missing := missing + ["Cloudflare API Key"]; }
    assert missing == Check(settings, "cloudflare_api_key", "Cloudflare API Key");
    if !Present(Entry(settings, "cloudflare_account_id")) { missing := missing + ["Cloudflare Account ID"]; }
    ghost var two := missing;
    if !Present(Entry(settings, "cloudflare_zone_id")) { missing := missing + ["Cloudflare Zone ID"]; }
    ghost var three := missing;
    if !Present(Entry(settings, "brevo_api_key")) { missing := missing + ["Brevo API Key"]; }
    ghost var four := missing;
    if !Present(Entry(settings, "domain")) { missing := missing + ["Domain"]; }
    assert two == Check(settings, "cloudflare_api_key", "Cloudflare API Key") + Check(settings, "cloudflare_account_id", "Cloudflare Account ID");
    assert three == two + Check(settings, "cloudflare_zone_id", "Cloudflare Zone ID");
    assert four == three + Check(settings, "brevo_api_key", "Brevo API Key");
    assert missing == four + Check(settings, "domain", "Domain");
    MissingUnfold(settings);
    if |missing| > 0 {
      return Http.Reply(400, IncompleteJson(missing));
    }
    var ok := db.SetSetting("setup_completed", "true");
    if !ok {
      return Http.ErrorReply(500, "Failed to complete setup");
    }
    reply := Http.Ok(Http.Success([("message", JStr("Setup completed successfully"))]));
  }

  function Check(m: map<string, string>, key: string, caption: string): seq<string> {
    if Present(Entry(m, key)) then [] else [caption]
  }

  lemma MissingUnfold(m: map<string, string>)
    ensures Missing(m) ==
      Check(m, "cloudflare_api_key", "Cloudflare API Key") + Check(m, "cloudflare_account_id", "Cloudflare Account ID") +
      Check(m, "cloudflare_zone_id", "Cloudflare Zone ID") + Check(m, "brevo_api_key", "Brevo API Key") + Check(m, "domain", "Domain")
  {
    MissingFive(m, Required);
  }

  /** The labels missing from any five items, one item at a time. */
  lemma MissingFive(m: map<string, string>, items: seq<(string, string)>)
    requires |items| == 5
    ensures MissingOf(m, items) ==
      Check(m, items[0].0, items[0].1) + Check(m, items[1].0, items[1].1) + Check(m, items[2].0, items[2].1) +
      Check(m, items[3].0, items[3].1) + Check(m, items[4].0, items[4].1)
  {
    MissingLast(m, items[..1]);
    assert items[..1][..0] == [];
    assert items[..2][..1] == items[..1];
    MissingLast(m, items[..2]);
    assert items[..3][..2] == items[..2];
    MissingLast(m, items[..3]);
    assert items[..4][..3] == items[..3];
    MissingLast(m, items[..4]);
    assert items[..4] == items[..|items| - 1];
    MissingLast(m, items);
  }

  lemma MissingLast(m: map<string, string>, items: seq<(string, string)>)
    requires |items| > 0
    ensures MissingOf(m, items) == MissingOf(m, items[..|items| - 1]) + Check(m, items[|items| - 1].0, items[|items| - 1].1)
  {
  }

  /**
   * The gate answers 200 exactly when nothing is missing and the flag write succeeds, and the flag
   * then reads back as `true`; a 400 leaves the store as it was.
   */
  lemma CompleteGate(t: Tables)
    ensures var (reply, t1) := Complete(t);
      (reply.status == 200 <==> Missing(SettingsMap(t.settings)) == [] && Step(t, SetSetting("setup_completed", "true")).1) &&
      (reply.status == 400 <==> Missing(SettingsMap(t.settings)) != []) &&
      (reply.status == 400 ==> t1 == t) &&
      (reply.status == 200 ==> SettingOf(t1.settings, "setup_completed") == Some("true"))
  {
    UpsertReads(t.settings, "setup_completed", "true");
  }

  /** On a valid store nothing is missing exactly when the five required settings are all non-empty. */
  lemma NothingMissingIff(t: Tables)
    requires Valid(t)
    ensures Missing(SettingsMap(t.settings)) == [] <==> forall i :: 0 <= i < |Required| ==> Present(SettingOf(t.settings, Required[i].0))
  {
    SettingsMapAgrees(t.settings);
    MissingEmptyIff(SettingsMap(t.settings), Required);
  }

  /** After a 200 from the gate the status reads back as completed and both providers as configured. */
  lemma CompleteThenStatus(t: Tables)
    requires Valid(t) && Complete(t).0.status == 200
    ensures var s := StatusOf(SettingsMap(Complete(t).1.settings)); s.setupCompleted && s.cloudflareConfigured && s.brevoConfigured
  {
    var m := SettingsMap(t.settings);
    CompleteGate(t);
    NothingMissingIff(t);
    var t1 := Complete(t).1;
    assert t1.settings == Upsert(t.settings, "setup_completed", "true");
    UpsertReads(t.settings, "setup_completed", "true");
    UpsertUnique(t.settings, "setup_completed", "true");
    SettingsMapAgrees(t1.settings);
    assert Present(SettingOf(t.settings, Required[0].0));
    assert Present(SettingOf(t.settings, Required[1].0));
    assert Present(SettingOf(t.settings, Required[2].0));
    assert Present(SettingOf(t.settings, Required[3].0));
  }

  /** The destination address never blocks completion. */
  lemma DestinationOptional(m: map<string, string>, v: string)
    ensures Missing(m["destination_email" := v]) == Missing(m) && Missing(m - {"destination_email"}) == Missing(m)
  {
    MissingUnfold(m);
    MissingUnfold(m["destination_email" := v]);
    MissingUnfold(m - {"destination_email"});
  }
}
