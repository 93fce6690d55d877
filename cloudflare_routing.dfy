/**
 * `EmailRoutingAPI`: enabling routing on a zone, its DNS requirements, the singleton catch-all rule
 * (only ever overwritten with a PUT), ordinary rules, and the account's destination addresses.
 */
module CloudflareRouting {
  import opened Wrappers
  import opened Json
  import opened Text
  import opened CloudflareService
  import opened CloudflareClient

  function RoutingPath(zoneId: string): string {
    "/zones/" + zoneId + "/email/routing"
  }

  function CatchAllPath(zoneId: string): string {
    RoutingPath(zoneId) + "/rules/catch_all"
  }

  /** Destination addresses live under the account, not under a zone. */
  function DestinationsPath(c: Config): string {
    "/accounts/" + AccountId(c) + "/email/routing/addresses"
  }

  /** `enable(zoneId)`: a body-less POST; the provider then reports routing as enabled. */
  function Enable(c: Config, svc: Service, zoneId: string): (r: (Result<RoutingSettings, string>, Service))
    ensures r.1.log == svc.log + [BuildRequest(c, POST, RoutingPath(zoneId) + "/enable", None)]
    ensures r.1.catchAll == svc.catchAll && r.1.rules == svc.rules && r.1.zones == svc.zones
    ensures r.0.Ok? ==> r.0.value.enabled && zoneId in r.1.routing && r.1.routing[zoneId] == r.0.value
    ensures r.0.Err? ==> r.1.routing == svc.routing
  {
    var settings := RoutingSettings(true, "ready");
    var (res, s1) := Post(c, svc, RoutingPath(zoneId) + "/enable", None, settings, svc.(routing := svc.routing[zoneId := settings]));
    if res.Err? then (Err(res.error), s1) else (Ok(res.value.result), s1)
  }

  /** `getDNSRecords(zoneId)`: the records routing needs on the zone. */
  function GetRoutingDns(c: Config, svc: Service, zoneId: string): (r: (Result<seq<DnsRecord>, string>, Service))
    ensures r.1 == svc.(log := svc.log + [BuildRequest(c, GET, RoutingPath(zoneId) + "/dns", None)])
    ensures r.0.Ok? ==> r.0.value == Entries(svc.routingDns, zoneId)
  {
    var (res, s1) := Get(c, svc, RoutingPath(zoneId) + "/dns", Entries(svc.routingDns, zoneId), svc);
    if res.Err? then (Err(res.error), s1) else (Ok(res.value.result), s1)
  }

  function MatcherJson(m: Matcher): Json {
    JObj([("type", JStr(m.kind))] +
         (if m.field.Some? then [("field", JStr(m.field.value))] else []) +
         (if m.value.Some? then [("value", JStr(m.value.value))] else []))
  }

  function ActionJson(a: Action): Json {
    JObj([("type", JStr(a.kind)), ("value", StrArr(a.value))])
  }

  function MatchersJson(ms: seq<Matcher>): Json {
    JArr(seq(|ms|, i requires 0 <= i < |ms| => MatcherJson(ms[i])))
  }

  function ActionsJson(acts: seq<Action>): Json {
    JArr(seq(|acts|, i requires 0 <= i < |acts| => ActionJson(acts[i])))
  }

  const MatchAll: Matcher := Matcher("all", None, None)

  /** `{ matchers: [{ type: 'all' }], ...rule }`. */
  function CatchAllBody(enabled: bool, actions: seq<Action>): Json {
    JObj([("matchers", MatchersJson([MatchAll])), ("enabled", JBool(enabled)), ("actions", ActionsJson(actions))])
  }

  /** The zone's catch-all after an overwrite: same identity, new flag, matchers and actions. */
  function Overwritten(svc: Service, zoneId: string, enabled: bool, actions: seq<Action>): Rule {
    var prior := if zoneId in svc.catchAll then svc.catchAll[zoneId] else Rule("catch_all", "", false, [], []);
    Rule(prior.id, prior.name, enabled, [MatchAll], actions)
  }

  /** `updateCatchAllRule`: always a PUT on the zone's catch-all; no rule is ever created. */
  function UpdateCatchAllRule(c: Config, svc: Service, zoneId: string, enabled: bool, actions: seq<Action>)
    : (r: (Result<Rule, string>, Service))
    ensures r.1.log == svc.log + [BuildRequest(c, PUT, CatchAllPath(zoneId), Some(CatchAllBody(enabled, actions)))]
    ensures r.1.rules == svc.rules && r.1.zones == svc.zones && r.1.routing == svc.routing && r.1.destinations == svc.destinations
    ensures r.1.catchAll.Keys <= svc.catchAll.Keys + {zoneId}
    ensures r.0.Ok? ==> r.1.catchAll == svc.catchAll[zoneId := r.0.value]
    ensures r.0.Ok? ==> r.0.value.enabled == enabled && r.0.value.matchers == [MatchAll] && r.0.value.actions == actions
    ensures r.0.Err? ==> r.1.catchAll == svc.catchAll
    ensures r.0.Ok? <==> BaseUrl + CatchAllPath(zoneId) !in svc.broken
  {
    var rule := Overwritten(svc, zoneId, enabled, actions);
    var put := Put(c, svc, CatchAllPath(zoneId), Some(CatchAllBody(enabled, actions)), rule, svc.(catchAll := svc.catchAll[zoneId := rule]));
    (if put.0.Err? then Err(put.0.error) else Ok(put.0.value.result), put.1)
  }

  /** `setupCatchAllWorker`: enabled, with the single action of handing mail to the worker. */
  function SetupCatchAllWorker(c: Config, svc: Service, zoneId: string, workerName: string): (Result<Rule, string>, Service) {
    UpdateCatchAllRule(c, svc, zoneId, true, [Action("worker", [workerName])])
  }

  /** `setupCatchAllForwarding`: enabled, with the single action of forwarding to the destination. */
  function SetupCatchAllForwarding(c: Config, svc: Service, zoneId: string, destinationEmail: string): (Result<Rule, string>, Service) {
    UpdateCatchAllRule(c, svc, zoneId, true, [Action("forward", [destinationEmail])])
  }

  const NoTargetError: string := "Either destinationEmail or workerName must be provided"

  /** `fullSetup`: enable first, then the catch-all to the worker, else to the destination, else throw. */
  function FullSetup(c: Config, svc: Service, zoneId: string, destinationEmail: Option<string>, workerName: Option<string>)
    : (r: (Result<(RoutingSettings, Rule), string>, Service))
    ensures |r.1.log| >= |svc.log| + 1 && r.1.log[..|svc.log| + 1] == svc.log + [BuildRequest(c, POST, RoutingPath(zoneId) + "/enable", None)]
  {
    var (settings, s1) := Enable(c, svc, zoneId);
    if settings.Err? then (Err(settings.error), s1)
    else
      var (rule, s2) :=
        if Present(workerName) then SetupCatchAllWorker(c, s1, zoneId, workerName.value)
        else if Present(destinationEmail) then SetupCatchAllForwarding(c, s1, zoneId, destinationEmail.value)
        else (Err(NoTargetError), s1);
      assert s2.log[..|svc.log| + 1] == s1.log;
      if rule.Err? then (Err(rule.error), s2) else (Ok((settings.value, rule.value)), s2)
  }

  /** The `createRule` argument. */
  datatype RuleRequest = RuleRequest(name: string, enabled: Option<bool>, matchers: seq<Matcher>, actions: seq<Action>, priority: Option<int>)

  function RuleBody(q: RuleRequest): Json {
    JObj([("name", JStr(q.name))] +
         (if q.enabled.Some? then [("enabled", JBool(q.enabled.value))] else []) +
         [("matchers", MatchersJson(q.matchers)), ("actions", ActionsJson(q.actions))] +
         (if q.priority.Some? then [("priority", JNum(q.priority.value))] else []))
  }

  function WithRule(svc: Service, zoneId: string, rule: Rule): Service {
    svc.(rules := svc.rules[zoneId := Entries(svc.rules, zoneId) + [rule]], nextId := svc.nextId + 1)
  }

  /** `createRule`: a POST that adds one rule to the zone. */
  function CreateRule(c: Config, svc: Service, zoneId: string, q: RuleRequest): (r: (Result<Rule, string>, Service))
    ensures r.1.log == svc.log + [BuildRequest(c, POST, RoutingPath(zoneId) + "/rules", Some(RuleBody(q)))]
    ensures r.1.catchAll == svc.catchAll
    ensures r.0.Ok? ==> zoneId in r.1.rules && r.1.rules[zoneId] == Entries(svc.rules, zoneId) + [r.0.value]
    ensures r.0.Ok? ==> r.0.value.name == q.name && r.0.value.matchers == q.matchers && r.0.value.actions == q.actions
  {
    var rule := Rule(FreshId(svc, "rule-"), q.name, q.enabled.GetOr(true), q.matchers, q.actions);
    var (res, s1) := Post(c, svc, RoutingPath(zoneId) + "/rules", Some(RuleBody(q)), rule, WithRule(svc, zoneId, rule));
    if res.Err? then (Err(res.error), s1) else (Ok(res.value.result), s1)
  }

  /** The request `createForwardingRule` sends. */
  function ForwardingRequest(fromAddress: string, toAddress: string, name: Option<string>): RuleRequest {
    RuleRequest(Or(name, "Forward " + fromAddress), Some(true), [Matcher("literal", Some("to"), Some(fromAddress))],
                [Action("forward", [toAddress])], None)
  }

  function CreateForwardingRule(c: Config, svc: Service, zoneId: string, fromAddress: string, toAddress: string, name: Option<string>)
    : (Result<Rule, string>, Service)
  {
    CreateRule(c, svc, zoneId, ForwardingRequest(fromAddress, toAddress, name))
  }

  /** `listDestinations`: the account's addresses. */
  function ListDestinations(c: Config, svc: Service): (r: (Result<seq<Destination>, string>, Service))
    ensures r.1 == svc.(log := svc.log + [BuildRequest(c, GET, DestinationsPath(c), None)])
    ensures r.0.Ok? ==> r.0.value == Entries(svc.destinations, AccountId(c))
  {
    var (res, s1) := Get(c, svc, DestinationsPath(c), Entries(svc.destinations, AccountId(c)), svc);
    if res.Err? then (Err(res.error), s1) else (Ok(res.value.result), s1)
  }

  /** `createDestination(email)`: a new, unverified address of the account. */
  function CreateDestination(c: Config, svc: Service, email: string): (r: (Result<Destination, string>, Service))
    ensures r.1.log == svc.log + [BuildRequest(c, POST, DestinationsPath(c), Some(JObj([("email", JStr(email))])))]
    ensures r.1.zones == svc.zones && r.1.catchAll == svc.catchAll && r.1.rules == svc.rules
    ensures r.0.Ok? ==> r.0.value.email == email && r.0.value.verified.None?
    ensures r.0.Ok? ==> r.1.destinations == svc.destinations[AccountId(c) := Entries(svc.destinations, AccountId(c)) + [r.0.value]]
    ensures r.0.Err? ==> r.1.destinations == svc.destinations
  {
    var d := Destination(FreshId(svc, "dest-"), email, None);
    var next := svc.(destinations := svc.destinations[AccountId(c) := Entries(svc.destinations, AccountId(c)) + [d]], nextId := svc.nextId + 1);
    var (res, s1) := Post(c, svc, DestinationsPath(c), Some(JObj([("email", JStr(email))])), d, next);
    if res.Err? then (Err(res.error), s1) else (Ok(res.value.result), s1)
  }

  function WithoutDestination(ds: seq<Destination>, id: string): (r: seq<Destination>)
    ensures forall d :: d in r <==> d in ds && d.id != id
  {
    if |ds| == 0 then [] else (if ds[0].id == id then [] else [ds[0]]) + WithoutDestination(ds[1..], id)
  }

  /** `deleteDestination(id)`. */
  function DeleteDestination(c: Config, svc: Service, addressId: string): (r: (Result<(), string>, Service))
    ensures r.1.log == svc.log + [BuildRequest(c, DELETE, DestinationsPath(c) + "/" + addressId, None)]
    ensures r.0.Ok? ==> forall d :: d in Entries(r.1.destinations, AccountId(c)) <==> d in Entries(svc.destinations, AccountId(c)) && d.id != addressId
  {
    var acct := AccountId(c);
    var next := svc.(destinations := svc.destinations[acct := WithoutDestination(Entries(svc.destinations, acct), addressId)]);
    var (res, s1) := Delete(c, svc, DestinationsPath(c) + "/" + addressId, (), next);
    if res.Err? then (Err(res.error), s1) else (Ok(()), s1)
  }

  /** `getDestination(id)`. */
  function GetDestination(c: Config, svc: Service, addressId: string): (r: (Result<Option<Destination>, string>, Service))
    ensures r.1 == svc.(log := svc.log + [BuildRequest(c, GET, DestinationsPath(c) + "/" + addressId, None)])
    ensures r.0.Ok? ==> r.0.value == FindDestination(Entries(svc.destinations, AccountId(c)), ById, addressId)
  {
    var (res, s1) := Get(c, svc, DestinationsPath(c) + "/" + addressId, FindDestination(Entries(svc.destinations, AccountId(c)), ById, addressId), svc);
    if res.Err? then (Err(res.error), s1) else (Ok(res.value.result), s1)
  }

  // ------------------------------------------------------------------ properties

  /** Overwriting the catch-all twice with the same rule is the same as once. */
  lemma CatchAllIdempotent(c: Config, svc: Service, zoneId: string, workerName: string)
    requires SetupCatchAllWorker(c, svc, zoneId, workerName).0.Ok?
    ensures var (r1, s1) := SetupCatchAllWorker(c, svc, zoneId, workerName);
      var (r2, s2) := SetupCatchAllWorker(c, s1, zoneId, workerName);
      r2 == r1 && s2.catchAll == s1.catchAll && s2.rules == svc.rules
  {
  }

  /**
   * `fullSetup` runs `enable` first; a worker name wins over a destination; with neither it throws
   * after routing was already enabled.
   */
  lemma FullSetupDecision(c: Config, svc: Service, zoneId: string, destinationEmail: Option<string>, workerName: Option<string>)
    requires Enable(c, svc, zoneId).0.Ok?
    ensures var s1 := Enable(c, svc, zoneId).1;
      var (r, s2) := FullSetup(c, svc, zoneId, destinationEmail, workerName);
      (Present(workerName) ==> (r, s2) == (match SetupCatchAllWorker(c, s1, zoneId, workerName.value).0
                                          case Ok(rule) => Ok((Enable(c, svc, zoneId).0.value, rule))
                                          case Err(e) => Err(e), SetupCatchAllWorker(c, s1, zoneId, workerName.value).1)) &&
      (!Present(workerName) && !Present(destinationEmail) ==> r == Err(NoTargetError) && s2 == s1 && zoneId in s2.routing && s2.routing[zoneId].enabled) &&
      (r.Ok? ==> r.value.1.actions == if Present(workerName) then [Action("worker", [workerName.value])]
                                      else [Action("forward", [destinationEmail.value])])
  {
  }

  /** `createForwardingRule`: one literal `to` matcher, one forward, enabled, and a default name. */
  lemma ForwardingRuleShape(fromAddress: string, toAddress: string, name: Option<string>)
    ensures var q := ForwardingRequest(fromAddress, toAddress, name);
      q.enabled == Some(true) && q.matchers == [Matcher("literal", Some("to"), Some(fromAddress))] &&
      q.actions == [Action("forward", [toAddress])] &&
      (Present(name) ==> q.name == name.value) && (!Present(name) ==> q.name == "Forward " + fromAddress)
  {
  }

  /** Destination calls name the client's account; rule and routing calls name the zone. */
  lemma Scopes(c: Config, zoneId: string, addressId: string)
    ensures StartsWith(DestinationsPath(c), "/accounts/" + c.accountId + "/")
    ensures StartsWith(DestinationsPath(c) + "/" + addressId, "/accounts/" + c.accountId + "/")
    ensures StartsWith(CatchAllPath(zoneId), "/zones/" + zoneId + "/")
    ensures StartsWith(RoutingPath(zoneId) + "/rules", "/zones/" + zoneId + "/")
    ensures StartsWith(RoutingPath(zoneId) + "/enable", "/zones/" + zoneId + "/")
  {
    AccountScoped(c, "");
    assert DestinationsPath(c) + "" == DestinationsPath(c);
    AccountScoped(c, "/" + addressId);
    ZoneScoped(zoneId, "/rules/catch_all");
    ZoneScoped(zoneId, "/rules");
    ZoneScoped(zoneId, "/enable");
  }

  /** Anything after the destinations path stays under the account. */
  lemma AccountScoped(c: Config, tail: string)
    ensures StartsWith(DestinationsPath(c) + tail, "/accounts/" + c.accountId + "/")
  {
    var q := "/email/routing/addresses" + tail;
    assert q[0] == '/';
    assert DestinationsPath(c) + tail == "/accounts/" + c.accountId + q;
    SlashPrefix("/accounts/" + c.accountId, q);
  }

  /** Anything after the routing path stays under the zone. */
  lemma ZoneScoped(zoneId: string, tail: string)
    ensures StartsWith(RoutingPath(zoneId) + tail, "/zones/" + zoneId + "/")
  {
    var q := "/email/routing" + tail;
    assert q[0] == '/';
    assert RoutingPath(zoneId) + tail == "/zones/" + zoneId + q;
    SlashPrefix("/zones/" + zoneId, q);
  }
}
