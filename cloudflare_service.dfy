/**
 * The Cloudflare API as the rest of the model sees it: the records it exchanges and an in-memory
 * provider that keeps zones, routing settings, the singleton catch-all rule of each zone, the other
 * routing rules, DNS records and the destination addresses of each account. Every request sent is
 * appended to `log`; a request whose URL is in `broken` is answered with `success = false` and the
 * messages in `errors`, and changes nothing else.
 */
module CloudflareService {
  import opened Wrappers
  import opened Json
  import Text

  datatype Method = GET | POST | PUT | PATCH | DELETE

  /** An HTTP request as `fetch` receives it; `body` is the value `JSON.stringify` serialises. */
  datatype Request = Request(verb: Method, url: string, headers: seq<(string, string)>, body: Option<Json>)

  datatype ApiError = ApiError(code: int, message: string)

  /** The `{ success, errors, result }` envelope every endpoint answers with. */
  datatype Envelope<T> = Envelope(success: bool, errors: seq<ApiError>, result: T)

  datatype Zone = Zone(id: string, name: string, status: string, accountId: string, nameServers: seq<string>)

  datatype RoutingSettings = RoutingSettings(enabled: bool, status: string)

  /** `{ type: 'all' }` or `{ type: 'literal', field, value }`. */
  datatype Matcher = Matcher(kind: string, field: Option<string>, value: Option<string>)

  datatype Action = Action(kind: string, value: seq<string>)

  datatype Rule = Rule(id: string, name: string, enabled: bool, matchers: seq<Matcher>, actions: seq<Action>)

  datatype Destination = Destination(id: string, email: string, verified: Option<string>)

  datatype DnsRecord = DnsRecord(id: string, kind: string, name: string, content: string, ttl: int)

  datatype Service = Service(
    zones: seq<Zone>,
    routing: map<string, RoutingSettings>,
    catchAll: map<string, Rule>,
    rules: map<string, seq<Rule>>,
    routingDns: map<string, seq<DnsRecord>>,
    dnsRecords: map<string, seq<DnsRecord>>,
    destinations: map<string, seq<Destination>>,
    log: seq<Request>,
    broken: set<string>,
    errors: seq<ApiError>,
    nextId: nat,
    nameServers: seq<string>)

  /**
   * The provider's answer to `req`: `answer` and `next` are what the endpoint returns and leaves behind
   * when it accepts the request.
   */
  function Respond<T>(svc: Service, req: Request, answer: T, next: Service): (r: (Envelope<T>, Service))
    ensures r.1.log == svc.log + [req] && r.1.broken == svc.broken && r.1.errors == svc.errors
    ensures r.0.success <==> req.url !in svc.broken
    ensures !r.0.success ==> r.0.errors == svc.errors && r.1 == svc.(log := svc.log + [req])
    ensures r.0.success ==> r.0.result == answer && r.1 == next.(log := svc.log + [req], broken := svc.broken, errors := svc.errors)
  {
    if req.url in svc.broken then (Envelope(false, svc.errors, answer), svc.(log := svc.log + [req]))
    else (Envelope(true, [], answer), next.(log := svc.log + [req], broken := svc.broken, errors := svc.errors))
  }

  /** The field an address is looked up by. */
  datatype DestinationKey = ByEmail | ById

  function KeyOf(d: Destination, key: DestinationKey): string {
    match key
    case ByEmail => d.email
    case ById => d.id
  }

  /** `Array.prototype.find` on addresses: the first one whose field has that value. */
  function FindDestination(ds: seq<Destination>, key: DestinationKey, value: string): (r: Option<Destination>)
    ensures r.Some? ==>
      exists i :: 0 <= i < |ds| && ds[i] == r.value && KeyOf(ds[i], key) == value &&
        forall j :: 0 <= j < i ==> KeyOf(ds[j], key) != value
    ensures r.None? <==> forall i :: 0 <= i < |ds| ==> KeyOf(ds[i], key) != value
    decreases |ds|
  {
    if |ds| == 0 then None
    else if KeyOf(ds[0], key) == value then Some(ds[0])
    else
      var r := FindDestination(ds[1..], key, value);
      if r.Some? then
        var i :| 0 <= i < |ds[1..]| && ds[1..][i] == r.value && KeyOf(ds[1..][i], key) == value &&
                 (forall j :: 0 <= j < i ==> KeyOf(ds[1..][j], key) != value);
        assert ds[i + 1] == r.value;
        r
      else r
  }

  /** The provider's fresh identifiers. */
  function FreshId(svc: Service, prefix: string): string {
    prefix + Text.NatToString(svc.nextId)
  }

  function Entries<K, V>(m: map<K, seq<V>>, k: K): seq<V> {
    if k in m then m[k] else []
  }
}
