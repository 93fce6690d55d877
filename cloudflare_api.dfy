/**
 * `CloudflareEmailAPI`: one client shared by the domains and routing parts, domain setup
 * (`ensureZone` then `fullSetup` on that zone), the destination-address guarantee and the zone-id lookup.
 */
module CloudflareEmailApi {
  import opened Wrappers
  import opened Text
  import opened CloudflareService
  import opened CloudflareClient
  import opened CloudflareDomains
  import opened CloudflareRouting

  /** The wrapper holds one client, which both the domains and the routing parts use. */
  datatype Api = Api(client: Config)

  function Domains(api: Api): Config { api.client }
  function Routing(api: Api): Config { api.client }

  datatype DomainSetup = DomainSetup(zone: Zone, settings: RoutingSettings, catchAllRule: Rule)

  /** `setupDomain`: ensure the zone, then the full routing setup on that zone's id. */
  function SetupDomain(api: Api, svc: Service, domain: string, destinationEmail: Option<string>, workerName: Option<string>)
    : (r: (Result<DomainSetup, string>, Service))
    ensures r.0.Ok? ==> r.0.value.zone.name == domain && EnsureZone(Domains(api), svc, domain).0 == Ok(r.0.value.zone)
    ensures r.0.Ok? ==>
      FullSetup(Routing(api), EnsureZone(Domains(api), svc, domain).1, r.0.value.zone.id, destinationEmail, workerName).0
        == Ok((r.0.value.settings, r.0.value.catchAllRule))
    ensures EnsureZone(Domains(api), svc, domain).0.Err? ==> r == (Err(EnsureZone(Domains(api), svc, domain).0.error), EnsureZone(Domains(api), svc, domain).1)
  {
    var (zone, s1) := EnsureZone(Domains(api), svc, domain);
    if zone.Err? then (Err(zone.error), s1)
    else
      var (setup, s2) := FullSetup(Routing(api), s1, zone.value.id, destinationEmail, workerName);
      if setup.Err? then (Err(setup.error), s2)
      else (Ok(DomainSetup(zone.value, setup.value.0, setup.value.1)), s2)
  }

  /** `ensureDestinationAddress`: the listed address of that email, verified or not, else a new one. */
  function EnsureDestinationAddress(api: Api, svc: Service, email: string): (r: (Result<Destination, string>, Service))
    ensures r.0.Ok? ==> r.0.value.email == email
  {
    var (listed, s1) := ListDestinations(Routing(api), svc);
    if listed.Err? then (Err(listed.error), s1)
    else
      match FindDestination(listed.value, ByEmail, email)
      case Some(d) => (Ok(d), s1)
      case None => CreateDestination(Routing(api), s1, email)
  }

  /** `getZoneId`: the zone's id when it exists (and is non-empty), else null. */
  function GetZoneId(api: Api, svc: Service, domain: string): (r: (Result<Option<string>, string>, Service))
    ensures r.1 == GetZoneByName(Domains(api), svc, domain).1
  {
    var (z, s1) := GetZoneByName(Domains(api), svc, domain);
    if z.Err? then (Err(z.error), s1)
    else if z.value.Some? && z.value.value.id != "" then (Ok(Some(z.value.value.id)), s1)
    else (Ok(None), s1)
  }

  // ------------------------------------------------------------------ properties

  /** An address already listed is returned as is, even unverified, and nothing is created. */
  lemma EnsureExistingDestination(api: Api, svc: Service, email: string)
    requires ListDestinations(Routing(api), svc).0.Ok?
    requires exists d :: d in Entries(svc.destinations, AccountId(api.client)) && d.email == email
    ensures var (r, s1) := EnsureDestinationAddress(api, svc, email);
      r.Ok? && r.value in Entries(svc.destinations, AccountId(api.client)) &&
      s1.destinations == svc.destinations && |s1.log| == |svc.log| + 1
  {
  }

  /** An address not listed is created with exactly one `createDestination(email)` after the listing. */
  lemma EnsureNewDestination(api: Api, svc: Service, email: string)
    requires ListDestinations(Routing(api), svc).0.Ok?
    requires forall d :: d in Entries(svc.destinations, AccountId(api.client)) ==> d.email != email
    ensures var (r, s1) := EnsureDestinationAddress(api, svc, email);
      s1.log == svc.log + [BuildRequest(api.client, GET, DestinationsPath(api.client), None),
                           BuildRequest(api.client, POST, DestinationsPath(api.client), Some(Json.JObj([("email", Json.JStr(email))])))] &&
      (r.Ok? ==> s1.destinations[AccountId(api.client)] == Entries(svc.destinations, AccountId(api.client)) + [r.value])
  {
    var s1 := ListDestinations(Routing(api), svc).1;
    var listed := ListDestinations(Routing(api), svc).0.value;
    assert forall i :: 0 <= i < |listed| ==> KeyOf(listed[i], ByEmail) != email;
    assert Entries(s1.destinations, AccountId(api.client)) == Entries(svc.destinations, AccountId(api.client));
  }

  /** `getZoneId` answers the zone's id exactly when the zone lookup finds a zone with a non-empty id. */
  lemma ZoneIdIff(api: Api, svc: Service, domain: string)
    requires GetZoneByName(Domains(api), svc, domain).0.Ok?
    ensures var z := GetZoneByName(Domains(api), svc, domain).0.value;
      var r := GetZoneId(api, svc, domain).0;
      r.Ok? && (r.value.Some? <==> z.Some? && z.value.id != "") && (r.value.Some? ==> r.value.value == z.value.id)
  {
  }

  /** The zone and the routing calls of one wrapper use the same credentials and account. */
  lemma SharedClient(api: Api)
    ensures Domains(api) == Routing(api) && AccountId(Domains(api)) == AccountId(Routing(api))
  {
  }
}
