/** `DomainsAPI`: zone lookup, zone creation, the onboarding test, DNS records and `ensureZone`. */
module CloudflareDomains {
  import opened Wrappers
  import opened Json
  import opened Text
  import opened CloudflareService
  import opened CloudflareClient

  /** The zones answering a `?name=` query, in provider order. */
  function Named(zones: seq<Zone>, name: string): (r: seq<Zone>)
    ensures forall z :: z in r <==> z in zones && z.name == name
    ensures |r| > 0 ==> exists i :: 0 <= i < |zones| && zones[i] == r[0] && forall j :: 0 <= j < i ==> zones[j].name != name
    decreases |zones|
  {
    if |zones| == 0 then []
    else if zones[0].name == name then [zones[0]] + Named(zones[1..], name)
    else
      var rest := Named(zones[1..], name);
      assert |rest| > 0 ==> exists i :: 0 <= i < |zones| && zones[i] == rest[0] && forall j :: 0 <= j < i ==> zones[j].name != name by {
        if |rest| > 0 {
          var i :| 0 <= i < |zones[1..]| && zones[1..][i] == rest[0] && forall j :: 0 <= j < i ==> zones[1..][j].name != name;
          assert zones[i + 1] == rest[0];
          forall j | 0 <= j < i + 1 ensures zones[j].name != name {
            if j > 0 {
              assert zones[j] == zones[1..][j - 1];
            }
          }
        }
      }
      rest
  }

  function ZoneQuery(domain: string): string {
    "/zones?name=" + domain
  }

  /** `getZoneByName`: the first zone of the query's answer, or null. */
  function GetZoneByName(c: Config, svc: Service, domain: string): (r: (Result<Option<Zone>, string>, Service))
    ensures r.1 == svc.(log := svc.log + [BuildRequest(c, GET, ZoneQuery(domain), None)])
    ensures r.0.Ok? <==> BaseUrl + ZoneQuery(domain) !in svc.broken
    ensures r.0.Ok? && r.0.value.None? ==> forall z :: z in svc.zones ==> z.name != domain
    ensures r.0.Ok? && r.0.value.Some? ==> r.0.value.value in svc.zones && r.0.value.value.name == domain
    ensures r.0.Ok? && r.0.value.Some? ==>
      exists i :: 0 <= i < |svc.zones| && svc.zones[i] == r.0.value.value && forall j :: 0 <= j < i ==> svc.zones[j].name != domain
  {
    var (res, s1) := Get(c, svc, ZoneQuery(domain), Named(svc.zones, domain), svc);
    if res.Err? then (Err(res.error), s1)
    else (Ok(if |res.value.result| > 0 then Some(res.value.result[0]) else None), s1)
  }

  function AddZoneBody(domain: string, accountId: string, jumpStart: bool): Json {
    JObj([("name", JStr(domain)), ("account", JObj([("id", JStr(accountId))])), ("jump_start", JBool(jumpStart)), ("type", JStr("full"))])
  }

  lemma AddZoneBodyFields(domain: string, accountId: string, jumpStart: bool)
    ensures var body := AddZoneBody(domain, accountId, jumpStart);
      Member(body, "name") == Some(JStr(domain)) && Member(body, "type") == Some(JStr("full")) &&
      Member(body, "jump_start") == Some(JBool(jumpStart)) && Member(body, "account") == Some(JObj([("id", JStr(accountId))]))
  {
    var fields := AddZoneBody(domain, accountId, jumpStart).fields;
    LastFieldAt(fields, "name", 0);
    LastFieldAt(fields, "account", 1);
    LastFieldAt(fields, "jump_start", 2);
    LastFieldAt(fields, "type", 3);
  }

  /** A zone the provider adds is pending and is given the provider's name servers. */
  function NewZone(svc: Service, domain: string, accountId: string): Zone {
    Zone(FreshId(svc, "zone-"), domain, "pending", accountId, svc.nameServers)
  }

  function WithZone(svc: Service, z: Zone): Service {
    svc.(zones := svc.zones + [z], nextId := svc.nextId + 1)
  }

  /** `addZone(domain, jumpStart = true)`. */
  function AddZone(c: Config, svc: Service, domain: string, jumpStart: Option<bool>): (r: (Result<Zone, string>, Service))
    ensures |r.1.log| == |svc.log| + 1 && r.1.log[|svc.log|].verb == POST
    ensures var body := r.1.log[|svc.log|].body;
      body.Some? && GetString(body.value, "name") == Some(domain) && GetString(body.value, "type") == Some("full") &&
      Member(body.value, "jump_start") == Some(JBool(jumpStart.None? || jumpStart.value)) &&
      Member(body.value, "account") == Some(JObj([("id", JStr(AccountId(c)))]))
    ensures r.0.Ok? ==> r.0.value.name == domain && r.1.zones == svc.zones + [r.0.value]
    ensures r.0.Err? ==> r.1.zones == svc.zones
  {
    var z := NewZone(svc, domain, AccountId(c));
    AddZoneBodyFields(domain, AccountId(c), jumpStart.GetOr(true));
    var (res, s1) := Post(c, svc, "/zones", Some(AddZoneBody(domain, AccountId(c), jumpStart.GetOr(true))), z, WithZone(svc, z));
    if res.Err? then (Err(res.error), s1) else (Ok(res.value.result), s1)
  }

  /** `isDomainOnboarded`: the zone exists and is active. */
  function IsDomainOnboarded(c: Config, svc: Service, domain: string): (r: (Result<bool, string>, Service))
    ensures r == (match GetZoneByName(c, svc, domain).0
                  case Err(e) => Err(e)
                  case Ok(z) => Ok(z.Some? && z.value.status == "active"), GetZoneByName(c, svc, domain).1)
  {
    var (z, s1) := GetZoneByName(c, svc, domain);
    match z
    case Err(e) => (Err(e), s1)
    case Ok(zone) => (Ok(zone != None && zone.value.status == "active"), s1)
  }

  function DnsEndpoint(zoneId: string, kind: Option<string>): string {
    var endpoint := "/zones/" + zoneId + "/dns_records";
    if Present(kind) then endpoint + "?type=" + kind.value else endpoint
  }

  function OfKind(records: seq<DnsRecord>, kind: string): (r: seq<DnsRecord>)
    ensures forall x :: x in r <==> x in records && x.kind == kind
  {
    if |records| == 0 then []
    else (if records[0].kind == kind then [records[0]] else []) + OfKind(records[1..], kind)
  }

  /** `getDNSRecords(zoneId, type?)`. */
  function GetDnsRecords(c: Config, svc: Service, zoneId: string, kind: Option<string>): (r: (Result<seq<DnsRecord>, string>, Service))
    ensures r.1 == svc.(log := svc.log + [BuildRequest(c, GET, DnsEndpoint(zoneId, kind), None)])
    ensures r.0.Ok? && !Present(kind) ==> r.0.value == Entries(svc.dnsRecords, zoneId)
    ensures r.0.Ok? && Present(kind) ==> forall x :: x in r.0.value <==> x in Entries(svc.dnsRecords, zoneId) && x.kind == kind.value
  {
    var all := Entries(svc.dnsRecords, zoneId);
    var (res, s1) := Get(c, svc, DnsEndpoint(zoneId, kind), if Present(kind) then OfKind(all, kind.value) else all, svc);
    if res.Err? then (Err(res.error), s1) else (Ok(res.value.result), s1)
  }

  /** The record argument of `createDNSRecord`. */
  datatype RecordInput = RecordInput(kind: string, name: string, content: string, ttl: Option<int>, priority: Option<int>, proxied: Option<bool>)

  /** `record.ttl || 3600`. */
  function TtlOf(rec: RecordInput): int {
    if rec.ttl.None? || rec.ttl.value == 0 then 3600 else rec.ttl.value
  }

  /** `{ ...record, ttl: record.ttl || 3600 }`. */
  function RecordBody(rec: RecordInput): Json {
    JObj([("type", JStr(rec.kind)), ("name", JStr(rec.name)), ("content", JStr(rec.content))] +
         (if rec.priority.Some? then [("priority", JNum(rec.priority.value))] else []) +
         (if rec.proxied.Some? then [("proxied", JBool(rec.proxied.value))] else []) +
         [("ttl", JNum(TtlOf(rec)))])
  }

  function WithRecord(svc: Service, zoneId: string, x: DnsRecord): Service {
    svc.(dnsRecords := svc.dnsRecords[zoneId := Entries(svc.dnsRecords, zoneId) + [x]], nextId := svc.nextId + 1)
  }

  /** `createDNSRecord`: the ttl defaults to 3600 when absent or 0. */
  function CreateDnsRecord(c: Config, svc: Service, zoneId: string, rec: RecordInput): (r: (Result<DnsRecord, string>, Service))
    ensures r.1.log == svc.log + [BuildRequest(c, POST, "/zones/" + zoneId + "/dns_records", Some(RecordBody(rec)))]
    ensures r.0.Ok? ==> r.0.value.ttl == TtlOf(rec) && r.0.value.kind == rec.kind && r.0.value.name == rec.name
    ensures r.0.Ok? ==> zoneId in r.1.dnsRecords && r.1.dnsRecords[zoneId] == Entries(svc.dnsRecords, zoneId) + [r.0.value]
  {
    var x := DnsRecord(FreshId(svc, "dns-"), rec.kind, rec.name, rec.content, TtlOf(rec));
    var (res, s1) := Post(c, svc, "/zones/" + zoneId + "/dns_records", Some(RecordBody(rec)), x, WithRecord(svc, zoneId, x));
    if res.Err? then (Err(res.error), s1) else (Ok(res.value.result), s1)
  }

  /** `ensureZone`: an existing zone is returned as is, otherwise one is added. */
  function EnsureZone(c: Config, svc: Service, domain: string): (r: (Result<Zone, string>, Service))
    ensures r.0.Ok? ==> r.0.value.name == domain && r.0.value in r.1.zones
  {
    var (found, s1) := GetZoneByName(c, svc, domain);
    match found
    case Err(e) => (Err(e), s1)
    case Ok(Some(z)) => (Ok(z), s1)
    case Ok(None) => AddZone(c, s1, domain, None)
  }

  // ------------------------------------------------------------------ properties

  /** The ttl sent is 3600 exactly when the caller gave none or 0, and the given one otherwise. */
  lemma TtlDefault(rec: RecordInput)
    ensures Member(RecordBody(rec), "ttl") == Some(JNum(TtlOf(rec)))
    ensures TtlOf(rec) == 3600 <== rec.ttl.None? || rec.ttl == Some(0)
    ensures rec.ttl.Some? && rec.ttl.value != 0 ==> TtlOf(rec) == rec.ttl.value
  {
  }

  /** `?type=` is appended exactly when a type is given. */
  lemma DnsEndpointQuery(zoneId: string, kind: Option<string>)
    ensures '?' !in zoneId ==> ('?' in DnsEndpoint(zoneId, kind) <==> Present(kind))
    ensures Present(kind) ==> EndsWith(DnsEndpoint(zoneId, kind), "?type=" + kind.value)
  {
    var base := "/zones/" + zoneId + "/dns_records";
    if '?' !in zoneId {
      assert '?' !in base by {
        assert forall i :: 0 <= i < |base| ==> base[i] == (if i < 7 then "/zones/"[i] else if i < 7 + |zoneId| then zoneId[i - 7] else "/dns_records"[i - 7 - |zoneId|]);
      }
      if Present(kind) {
        assert DnsEndpoint(zoneId, kind)[|base|] == '?';
      }
    }
    if Present(kind) {
      var e := DnsEndpoint(zoneId, kind);
      assert e[|e| - |"?type=" + kind.value|..] == "?type=" + kind.value;
    }
  }

  /** An existing zone is returned without a `POST /zones`: one request, and the provider's zones are untouched. */
  lemma EnsureExisting(c: Config, svc: Service, domain: string)
    requires BaseUrl + ZoneQuery(domain) !in svc.broken
    requires exists z :: z in svc.zones && z.name == domain
    ensures var (r, s1) := EnsureZone(c, svc, domain);
      r.Ok? && r.value in svc.zones && r.value.name == domain &&
      s1 == svc.(log := svc.log + [BuildRequest(c, GET, ZoneQuery(domain), None)])
  {
  }

  /**
   * Idempotence against the provider: a second `ensureZone` of the same domain returns the same zone,
   * only queries, and leaves exactly one zone of that name when there was none before.
   */
  lemma EnsureZoneIdempotent(c: Config, svc: Service, domain: string)
    requires EnsureZone(c, svc, domain).0.Ok?
    ensures var (r1, s1) := EnsureZone(c, svc, domain);
      var (r2, s2) := EnsureZone(c, s1, domain);
      r2 == r1 && s2 == s1.(log := s1.log + [BuildRequest(c, GET, ZoneQuery(domain), None)]) &&
      ((forall z :: z in svc.zones ==> z.name != domain) ==> |Named(s2.zones, domain)| == 1)
  {
    var (r1, s1) := EnsureZone(c, svc, domain);
    var (found, s0) := GetZoneByName(c, svc, domain);
    assert found.Ok?;
    if found.value.None? {
      var z := r1.value;
      assert s1.zones == svc.zones + [z];
      NamedAppend(svc.zones, [z], domain);
      assert Named(svc.zones, domain) == [];
      assert Named([z], domain) == [z];
      assert Named(s1.zones, domain) == [z];
    } else {
      var z := found.value.value;
      var i :| 0 <= i < |svc.zones| && svc.zones[i] == z && forall j :: 0 <= j < i ==> svc.zones[j].name != domain;
      NamedFirst(svc.zones, domain, i);
    }
  }

  lemma {:induction false} NamedAppend(a: seq<Zone>, b: seq<Zone>, name: string)
    ensures Named(a + b, name) == Named(a, name) + Named(b, name)
    decreases |a|
  {
    if |a| == 0 {
      assert a + b == b;
    } else {
      assert (a + b)[1..] == a[1..] + b;
      NamedAppend(a[1..], b, name);
    }
  }

  /** The first zone of a name leads the query's answer. */
  lemma {:induction false} NamedFirst(zones: seq<Zone>, name: string, i: nat)
    requires i < |zones| && zones[i].name == name && forall j :: 0 <= j < i ==> zones[j].name != name
    ensures |Named(zones, name)| > 0 && Named(zones, name)[0] == zones[i]
    decreases i
  {
    if i > 0 {
      NamedFirst(zones[1..], name, i - 1);
    }
  }

  /** `isDomainOnboarded` holds exactly for a domain whose first zone is active. */
  lemma OnboardedIff(c: Config, svc: Service, domain: string, i: nat)
    requires BaseUrl + ZoneQuery(domain) !in svc.broken
    requires i < |svc.zones| && svc.zones[i].name == domain && forall j :: 0 <= j < i ==> svc.zones[j].name != domain
    ensures IsDomainOnboarded(c, svc, domain).0 == Ok(svc.zones[i].status == "active")
  {
    NamedFirst(svc.zones, domain, i);
  }
}
