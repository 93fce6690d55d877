/**
 * The dashboard's pages and the guard that runs before every navigation. The guard reads the auth
 * store (fetching the status first while it is still loading) and answers each navigation with one
 * decision: go on to the page, or go to another page by name.
 */
module Router {
  import opened Wrappers
  import Database
  import Json
  import AuthApi
  import ApiClient
  import AuthStore

  const LoginName: string := "login"
  const DashboardName: string := "dashboard"

  /** A route's `meta`; an absent key is `None`. */
  datatype Meta = Meta(guest: Option<bool>, requiresAuth: Option<bool>)

  const NoMeta := Meta(None, None)

  /** A page nested under a layout route. */
  datatype ChildRecord = ChildRecord(path: string, name: string, meta: Meta)

  /** A top-level route: a page of its own, or a layout whose children are the pages. */
  datatype RouteRecord = RouteRecord(path: string, name: Option<string>, meta: Meta, children: seq<ChildRecord>)

  /** The route table, in its order. */
  const Table: seq<RouteRecord> := [
    RouteRecord("/login", Some(LoginName), Meta(Some(true), None), []),
    RouteRecord("/setup", Some("setup"), Meta(None, Some(true)), []),
    RouteRecord("/", None, Meta(None, Some(true)), [
      ChildRecord("", DashboardName, NoMeta),
      ChildRecord("inbox", "inbox", NoMeta),
      ChildRecord("inbox/:id", "email", NoMeta),
      ChildRecord("sent", "sent", NoMeta),
      ChildRecord("sent/:id", "sent-email", NoMeta),
      ChildRecord("compose", "compose", NoMeta),
      ChildRecord("settings", "settings", NoMeta)
    ])
  ]

  /** Where a navigation is going: the page's name and the `meta` merged along the matched routes. */
  datatype Target = Target(path: string, name: Option<string>, meta: Meta)

  /** A navigation to a path no route matches: no name and no meta. */
  const Unmatched := Target("", None, NoMeta)

  /** `to.meta`: the keys of the matched routes from the outermost in, a later route's key winning. */
  function Merge(outer: Meta, inner: Meta): Meta {
    Meta(if inner.guest.Some? then inner.guest else outer.guest,
         if inner.requiresAuth.Some? then inner.requiresAuth else outer.requiresAuth)
  }

  function ChildPath(parent: string, child: string): string {
    if child == "" then parent
    else if |parent| > 0 && parent[|parent| - 1] == '/' then parent + child
    else parent + "/" + child
  }

  function ChildTargets(r: RouteRecord, cs: seq<ChildRecord>): (ts: seq<Target>)
    ensures |ts| == |cs|
    ensures forall i :: 0 <= i < |cs| ==> ts[i] == Target(ChildPath(r.path, cs[i].path), Some(cs[i].name), Merge(r.meta, cs[i].meta))
  {
    if |cs| == 0 then []
    else [Target(ChildPath(r.path, cs[0].path), Some(cs[0].name), Merge(r.meta, cs[0].meta))] + ChildTargets(r, cs[1..])
  }

  /** The pages a navigation can reach: a route with children is reached only through them. */
  function Pages(rs: seq<RouteRecord>): seq<Target> {
    if |rs| == 0 then []
    else
      (if |rs[0].children| == 0 then [Target(rs[0].path, rs[0].name, rs[0].meta)] else ChildTargets(rs[0], rs[0].children))
      + Pages(rs[1..])
  }

  function Lookup(ts: seq<Target>, name: string): Option<Target> {
    if |ts| == 0 then None
    else if ts[0].name == Some(name) then Some(ts[0])
    else Lookup(ts[1..], name)
  }

  /** `{ name }` resolved against the table, as a redirect is. */
  function Named(name: string): Option<Target> {
    Lookup(Pages(Table), name)
  }

  predicate IsTrue(b: Option<bool>) {
    b == Some(true)
  }

  // ------------------------------------------------------------------ the guard

  /** What the guard passes to `next`: nothing (go on), or the name of the page to go to instead. */
  datatype Decision = Proceed | Redirect(name: string)

  /** The guard's chain of checks, once the status is known. */
  function Decide(f: AuthStore.AuthFlags, to: Target): Decision {
    if f.needsSetup && to.name != Some(LoginName) then Redirect(LoginName)
    else if IsTrue(to.meta.guest) then (if f.authenticated then Redirect(DashboardName) else Proceed)
    else if IsTrue(to.meta.requiresAuth) && !f.authenticated then Redirect(LoginName)
    else Proceed
  }

  /**
   * `beforeEach`: wait for `checkAuth` while the store is still loading, then decide. A decision is one
   * value, so each navigation calls `next` exactly once.
   */
  method BeforeEach(store: AuthStore.Store, to: Target, respond: ApiClient.Request -> ApiClient.Response)
    returns (d: Decision)
    modifies store
    ensures old(store.isLoading) ==>
      store.Flags() == AuthStore.AfterCheck(ApiClient.Outcome(respond(
        ApiClient.BuildRequest(store.api.token, "GET", AuthStore.StatusEndpoint, None))))
    ensures !old(store.isLoading) ==> store.Flags() == old(store.Flags())
    ensures d == Decide(store.Flags(), to)
  {
    if store.isLoading {
      var _ := store.CheckAuth(respond);
    }
    if store.needsSetup && to.name != Some(LoginName) {
      return Redirect(LoginName);
    }
    if IsTrue(to.meta.guest) {
      if store.isAuthenticated {
        return Redirect(DashboardName);
      }
      return Proceed;
    }
    if IsTrue(to.meta.requiresAuth) && !store.isAuthenticated {
      return Redirect(LoginName);
    }
    d := Proceed;
  }

  // ------------------------------------------------------------------ the table

  /** The login page is the only guest page; setup and every page under the layout require sign-in. */
  lemma PagesOfTable()
    ensures |Pages(Table)| == 9
    ensures Pages(Table)[0] == Target("/login", Some(LoginName), Meta(Some(true), None))
    ensures Pages(Table)[1] == Target("/setup", Some("setup"), Meta(None, Some(true)))
    ensures Pages(Table)[2] == Target("/", Some(DashboardName), Meta(None, Some(true)))
    ensures forall i :: 1 <= i < 9 ==> IsTrue(Pages(Table)[i].meta.requiresAuth) && !IsTrue(Pages(Table)[i].meta.guest)
  {
    var layout := Table[2];
    var kids := ChildTargets(layout, layout.children);
    assert Pages(Table[2..]) == kids + Pages(Table[3..]);
    assert Pages(Table[1..]) == [Target("/setup", Some("setup"), Meta(None, Some(true)))] + Pages(Table[2..]);
    assert Pages(Table) == [Target("/login", Some(LoginName), Meta(Some(true), None))] + Pages(Table[1..]);
    assert Pages(Table) == [Pages(Table)[0], Pages(Table)[1]] + kids;
    assert ChildPath("/", "") == "/";
  }

  /** The two pages the guard redirects to resolve to the login page and the dashboard. */
  lemma RedirectTargets()
    ensures Named(LoginName) == Some(Target("/login", Some(LoginName), Meta(Some(true), None)))
    ensures Named(DashboardName) == Some(Target("/", Some(DashboardName), Meta(None, Some(true))))
  {
    PagesOfTable();
    var ps := Pages(Table);
    assert ps[0].name == Some(LoginName);
    assert Lookup(ps, LoginName) == Some(ps[0]);
    assert ps[0].name != Some(DashboardName) by {
      assert LoginName[0] != DashboardName[0];
    }
    assert ps[1].name != Some(DashboardName) by {
      assert "setup"[0] != DashboardName[0];
    }
    assert Lookup(ps[2..], DashboardName) == Some(ps[2]);
    assert ps[1..][1..] == ps[2..];
    assert Lookup(ps[1..], DashboardName) == Some(ps[2]);
  }

  // ------------------------------------------------------------------ what the guard promises

  /** A store that needs setup sends every navigation but the one to the login page there, whatever its meta. */
  lemma SetupComesFirst(f: AuthStore.AuthFlags, to: Target)
    requires f.needsSetup && to.name != Some(LoginName)
    ensures Decide(f, to) == Redirect(LoginName)
  {
  }

  /** Past the setup check, a guest page sends signed-in users to the dashboard and lets everyone else in. */
  lemma GuestPages(f: AuthStore.AuthFlags, to: Target)
    requires !(f.needsSetup && to.name != Some(LoginName)) && IsTrue(to.meta.guest)
    ensures Decide(f, to) == (if f.authenticated then Redirect(DashboardName) else Proceed)
  {
  }

  /** Past the setup check, a page that is not for guests and requires sign-in sends others to the login page. */
  lemma ProtectedPages(f: AuthStore.AuthFlags, to: Target)
    requires !(f.needsSetup && to.name != Some(LoginName)) && !IsTrue(to.meta.guest)
    ensures Decide(f, to) == (if IsTrue(to.meta.requiresAuth) && !f.authenticated then Redirect(LoginName) else Proceed)
  {
  }

  /** The navigation goes on exactly when no rule objects. */
  lemma ProceedIff(f: AuthStore.AuthFlags, to: Target)
    ensures Decide(f, to) == Proceed <==>
      && !(f.needsSetup && to.name != Some(LoginName))
      && !(IsTrue(to.meta.guest) && f.authenticated)
      && !(!IsTrue(to.meta.guest) && IsTrue(to.meta.requiresAuth) && !f.authenticated)
    ensures Decide(f, to).Redirect? ==> Decide(f, to).name in {LoginName, DashboardName}
  {
  }

  /** Flags that never claim both a signed-in user and a missing password. */
  predicate Consistent(f: AuthStore.AuthFlags) {
    f.authenticated ==> !f.needsSetup
  }

  /**
   * The auth store's flags stay consistent: they start so, a status read from the worker is so,
   * a successful login or setup makes them so, and a failed check or a logout keeps them so.
   */
  lemma ConsistentFlags(f: AuthStore.AuthFlags, t: Database.Tables, header: Option<string>, now: int,
                        r: Result<Json.Json, ApiClient.Failure>, e: ApiClient.Failure)
    ensures Consistent(AuthStore.Initial)
    ensures Consistent(AuthStore.AfterCheck(Ok(AuthApi.AuthStateJson(AuthApi.AuthStatus(t, header, now)))))
    ensures Consistent(AuthStore.AfterCheck(Err(e)))
    ensures Consistent(f) ==> Consistent(AuthStore.AfterAnswer(f, r))
    ensures Consistent(f) ==> Consistent(f.(authenticated := false))
  {
    AuthStore.CheckedFlagsExclusive(t, header, now);
  }

  /** With consistent flags every redirect lands on a page the guard lets in, so redirects never chain. */
  lemma RedirectsSettle(f: AuthStore.AuthFlags, to: Target)
    requires Consistent(f) && Decide(f, to).Redirect?
    ensures Named(Decide(f, to).name).Some?
    ensures Decide(f, Named(Decide(f, to).name).value) == Proceed
  {
    RedirectTargets();
  }

  /** Flags claiming both would bounce between the dashboard and the login page for ever. */
  lemma InconsistentFlagsLoop(f: AuthStore.AuthFlags)
    requires f.authenticated && f.needsSetup
    ensures Named(DashboardName).Some? && Named(LoginName).Some?
    ensures Decide(f, Named(DashboardName).value) == Redirect(LoginName)
    ensures Decide(f, Named(LoginName).value) == Redirect(DashboardName)
  {
    RedirectTargets();
    assert DashboardName[0] != LoginName[0];
  }

  /** A navigation to a path no route matches is let through unless setup is needed. */
  lemma UnmatchedPaths(f: AuthStore.AuthFlags)
    ensures Decide(f, Unmatched) == (if f.needsSetup then Redirect(LoginName) else Proceed)
  {
  }
}
