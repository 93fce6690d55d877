/**
 * `Routes`: the `/api` application. Every request passes the CORS middleware; the login and
 * first-time setup endpoints pass a rate limiter; the emails, settings and setup groups pass the
 * session check (except `GET /api/setup/status`); the first registered route that matches handles
 * the request, and a request no route matches is answered 404.
 */
module Routes {
  import opened Wrappers
  import opened Json
  import opened Text
  import Http
  import RateLimit
  import AuthApi
  import Database

  // ------------------------------------------------------------------ CORS

  const HttpsScheme: string := "https://"
  const WorkersSuffix: string := ".workers.dev"
  const LocalhostPrefix: string := "http://localhost:"
  const LoopbackPrefix: string := "http://127.0.0.1:"

  predicate IsDigit(c: char) {
    '0' <= c <= '9'
  }

  /** `\d+`: one or more ASCII digits. */
  predicate Digits(s: string) {
    |s| >= 1 && forall i :: 0 <= i < |s| ==> IsDigit(s[i])
  }

  /** `/^https:\/\/.*\.workers\.dev$/`, where `.` is any character but a line terminator. */
  predicate WorkersDevOrigin(s: string) {
    |s| >= |HttpsScheme| + |WorkersSuffix| && StartsWith(s, HttpsScheme) && EndsWith(s, WorkersSuffix) &&
    forall i :: |HttpsScheme| <= i < |s| - |WorkersSuffix| ==> !IsLineTerminator(s[i])
  }

  /** `/^http:\/\/localhost:\d+$/` and `/^http:\/\/127\.0\.0\.1:\d+$/`: the prefix, then a port of digits only. */
  predicate PortOrigin(s: string, prefix: string) {
    StartsWith(s, prefix) && Digits(s[|prefix|..])
  }

  predicate AllowedOrigin(s: string) {
    WorkersDevOrigin(s) || PortOrigin(s, LocalhostPrefix) || PortOrigin(s, LoopbackPrefix)
  }

  /** The `origin` callback: `*` for a request without an origin, the origin echoed when allowed, null (None) otherwise. */
  function CorsOrigin(origin: Option<string>): (r: Option<string>)
    ensures r.Some? ==> r.value == "*" || (Present(origin) && r.value == origin.value)
  {
    if !Present(origin) then Some("*")
    else if AllowedOrigin(origin.value) then Some(origin.value)
    else None
  }

  /** Any `workers.dev` subdomain served over https is echoed back, and so is any local port. */
  lemma AllowedOrigins(sub: string, port: nat)
    requires forall i :: 0 <= i < |sub| ==> !IsLineTerminator(sub[i])
    ensures var w := HttpsScheme + sub + WorkersSuffix; CorsOrigin(Some(w)) == Some(w)
    ensures var l := LocalhostPrefix + NatToString(port); CorsOrigin(Some(l)) == Some(l)
    ensures var l := LoopbackPrefix + NatToString(port); CorsOrigin(Some(l)) == Some(l)
  {
    var w := HttpsScheme + sub + WorkersSuffix;
    assert w[..|HttpsScheme|] == HttpsScheme;
    assert w[|w| - |WorkersSuffix|..] == WorkersSuffix;
    forall i | |HttpsScheme| <= i < |w| - |WorkersSuffix|
      ensures !IsLineTerminator(w[i])
    {
      assert w[i] == sub[i - |HttpsScheme|];
    }
    var l := LocalhostPrefix + NatToString(port);
    assert l[..|LocalhostPrefix|] == LocalhostPrefix && l[|LocalhostPrefix|..] == NatToString(port);
    var b := LoopbackPrefix + NatToString(port);
    assert b[..|LoopbackPrefix|] == LoopbackPrefix && b[|LoopbackPrefix|..] == NatToString(port);
  }

  /**
   * Everything else is refused: an https origin outside `workers.dev`, a plain-http origin other
   * than the two local hosts, and a local host without a port or with a port that is not all digits.
   */
  lemma RefusedOrigins(s: string)
    requires s != "" && !EndsWith(s, WorkersSuffix)
    requires !StartsWith(s, LocalhostPrefix) && !StartsWith(s, LoopbackPrefix)
    ensures CorsOrigin(Some(s)) == None
    ensures CorsOrigin(Some("http://app.workers.dev")) == None
    ensures CorsOrigin(Some("http://localhost")) == None && CorsOrigin(Some(LocalhostPrefix)) == None
    ensures CorsOrigin(Some(LocalhostPrefix + "80a")) == None
  {
    WorkersOverHttpRefused();
    LocalhostWithoutPortRefused();
    BadPortRefused();
  }

  lemma WorkersOverHttpRefused()
    ensures CorsOrigin(Some("http://app.workers.dev")) == None
  {
    WorkersHostOverHttp();
    assert "app.workers.dev"[0] == 'a';
    PlainHttpRefused("app.workers.dev");
  }

  lemma WorkersHostOverHttp()
    ensures "http://" + "app.workers.dev" == "http://app.workers.dev"
  {
  }

  lemma LocalhostWithoutPortRefused()
    ensures CorsOrigin(Some("http://localhost")) == None && CorsOrigin(Some(LocalhostPrefix)) == None
  {
  }

  lemma BadPortRefused()
    ensures CorsOrigin(Some(LocalhostPrefix + "80a")) == None
  {
    var p := LocalhostPrefix + "80a";
    assert p[|LocalhostPrefix|..] == "80a";
    assert !IsDigit(p[|LocalhostPrefix|..][2]);
  }

  /** An `http://` origin is echoed only when it names one of the two local hosts. */
  lemma PlainHttpRefused(rest: string)
    requires !StartsWith(rest, "localhost:") && !StartsWith(rest, "127.0.0.1:")
    ensures CorsOrigin(Some("http://" + rest)) == None
  {
    var h := "http://" + rest;
    assert h[4] == ':';
    assert LocalhostPrefix == "http://" + "localhost:" && LoopbackPrefix == "http://" + "127.0.0.1:";
    PrefixShift("http://", "localhost:", rest);
    PrefixShift("http://", "127.0.0.1:", rest);
  }

  /** A common prefix does not change whether one string starts with another. */
  lemma PrefixShift(a: string, b: string, rest: string)
    ensures StartsWith(a + rest, a + b) <==> StartsWith(rest, b)
  {
    if |b| <= |rest| {
      assert (a + rest)[..|a + b|] == a + rest[..|b|];
      if (a + rest)[..|a + b|] == a + b {
        assert rest[..|b|] == (a + rest)[..|a + b|][|a|..];
      }
    }
  }

  // ------------------------------------------------------------------ rate limits

  const LoginPath: string := "/api/auth/login"
  const SetupPath: string := "/api/auth/setup"
  const LoginOptions: RateLimit.Options := RateLimit.Options(Some(15 * 60 * 1000), Some(5), Some("login"))
  const SetupOptions: RateLimit.Options := RateLimit.Options(Some(60 * 60 * 1000), Some(3), Some("setup"))
  const LoginBlocked: string := "Too many login attempts. Please try again later."
  const SetupBlocked: string := "Too many setup attempts. Please try again later."

  /** Login allows 5 requests per 15 minutes and setup 3 per hour, under keys that never coincide. */
  lemma LimiterConfigs(a: string, b: string)
    ensures RateLimit.Configure(LoginOptions) == RateLimit.Config(900000, 5, "login")
    ensures RateLimit.Configure(SetupOptions) == RateLimit.Config(3600000, 3, "setup")
    ensures RateLimit.KeyOf(RateLimit.Configure(LoginOptions), a) != RateLimit.KeyOf(RateLimit.Configure(SetupOptions), b)
  {
    RateLimit.KeysSeparate(RateLimit.Configure(LoginOptions), RateLimit.Configure(SetupOptions), a, b);
  }

  /** `Math.ceil(ms / 1000)` for a whole number of milliseconds. */
  function CeilSeconds(ms: int): (r: int)
    ensures 1000 * (r - 1) < ms <= 1000 * r
  {
    -((-ms) / 1000)
  }

  /** What a limiter middleware does: answer 429 itself, or let the request through with these headers. */
  datatype Limited = Blocked(reply: Http.Reply) | Admitted(headers: seq<(string, string)>)

  /** `c.json({ error, retryAfter }, 429)`, the wait counted from the instant of the answer. */
  function TooMany(message: string, r: RateLimit.CheckResult, answeredAt: int): Http.Reply {
    Http.Reply(429, JObj([("error", JStr(message)), ("retryAfter", JNum(CeilSeconds(r.resetTime - answeredAt)))]))
  }

  function LoginGate(r: RateLimit.CheckResult, answeredAt: int): Limited {
    if !r.allowed then Blocked(TooMany(LoginBlocked, r, answeredAt))
    else Admitted([("X-RateLimit-Remaining", IntToString(r.remaining)), ("X-RateLimit-Reset", IntToString(CeilSeconds(r.resetTime)))])
  }

  function SetupGate(r: RateLimit.CheckResult, answeredAt: int): Limited {
    if !r.allowed then Blocked(TooMany(SetupBlocked, r, answeredAt))
    else Admitted([])
  }

  /** The limiter for a path (login, setup or none): its verdict and the limiter table afterwards. */
  function Limit(s: RateLimit.Store, path: string, ip: string, checkedAt: int, answeredAt: int): (Limited, RateLimit.Store) {
    if path == LoginPath then
      var c := RateLimit.Check(RateLimit.Configure(LoginOptions), s, ip, checkedAt);
      (LoginGate(c.0, answeredAt), c.1)
    else if path == SetupPath then
      var c := RateLimit.Check(RateLimit.Configure(SetupOptions), s, ip, checkedAt);
      (SetupGate(c.0, answeredAt), c.1)
    else (Admitted([]), s)
  }

  /**
   * A blocked login or setup attempt is answered 429 with its own message and the whole seconds
   * left until the window resets; answered at the instant of the check, on a healthy table whose
   * entries are all in the past, that wait lies between 0 and the window's length.
   */
  lemma BlockedAttempt(s: RateLimit.Store, path: string, ip: string, now: int)
    requires path == LoginPath || path == SetupPath
    requires Limit(s, path, ip, now, now).0.Blocked?
    ensures var reply := Limit(s, path, ip, now, now).0.reply;
      reply.status == 429 &&
      Member(reply.body, "error") == Some(JStr(if path == LoginPath then LoginBlocked else SetupBlocked))
    ensures var reply := Limit(s, path, ip, now, now).0.reply;
      var window := if path == LoginPath then 900000 else 3600000;
      s.failAfter.None? && (forall e :: e in s.rows ==> e.timestamp <= now) ==>
        Member(reply.body, "retryAfter").Some? && Member(reply.body, "retryAfter").value.JNum? &&
        0 <= Member(reply.body, "retryAfter").value.n <= window / 1000
  {
    LimiterConfigs(ip, ip);
    var c := RateLimit.Configure(if path == LoginPath then LoginOptions else SetupOptions);
    var message := if path == LoginPath then LoginBlocked else SetupBlocked;
    var r := RateLimit.Check(c, s, ip, now).0;
    assert Limit(s, path, ip, now, now).0.reply == TooMany(message, r, now);
    TooManyFields(message, r, now);
    if s.failAfter.None? && (forall e :: e in s.rows ==> e.timestamp <= now) {
      RateLimit.RefusedResetTime(c, s, ip, now);
      CeilWithin(r.resetTime - now, c.windowMs / 1000);
    }
  }

  /** The 429 body carries the message and the wait in whole seconds. */
  lemma TooManyFields(message: string, r: RateLimit.CheckResult, now: int)
    ensures TooMany(message, r, now).status == 429
    ensures Member(TooMany(message, r, now).body, "error") == Some(JStr(message))
    ensures Member(TooMany(message, r, now).body, "retryAfter") == Some(JNum(CeilSeconds(r.resetTime - now)))
  {
    var fields := [("error", JStr(message)), ("retryAfter", JNum(CeilSeconds(r.resetTime - now)))];
    assert TooMany(message, r, now).body == JObj(fields);
    LastFieldAt(fields, "error", 0);
    LastFieldAt(fields, "retryAfter", 1);
  }

  lemma CeilWithin(ms: int, seconds: int)
    requires 0 <= ms <= 1000 * seconds
    ensures 0 <= CeilSeconds(ms) <= seconds
  {
  }

  /** A login that passes carries the remaining allowance and the reset instant in whole seconds. */
  lemma AdmittedLogin(s: RateLimit.Store, ip: string, checkedAt: int, answeredAt: int)
    requires Limit(s, LoginPath, ip, checkedAt, answeredAt).0.Admitted?
    ensures var r := RateLimit.Check(RateLimit.Configure(LoginOptions), s, ip, checkedAt).0;
      r.allowed &&
      Limit(s, LoginPath, ip, checkedAt, answeredAt).0.headers ==
        [("X-RateLimit-Remaining", IntToString(r.remaining)), ("X-RateLimit-Reset", IntToString(CeilSeconds(r.resetTime)))]
  {
  }

  /** Only the login and setup paths touch the limiter table. */
  lemma OtherPathsUnlimited(s: RateLimit.Store, path: string, ip: string, checkedAt: int, answeredAt: int)
    requires path != LoginPath && path != SetupPath
    ensures Limit(s, path, ip, checkedAt, answeredAt) == (Admitted([]), s)
  {
  }

  // ------------------------------------------------------------------ the route table

  /** One segment of a route pattern: a literal, or a `:param` that matches any non-empty segment. */
  datatype Part = Lit(s: string) | Param

  /** A route of a group: its method and the pattern of the path below the group's base. */
  datatype Endpoint = Endpoint(verb: string, parts: seq<Part>)

  /** The routes mounted under one base segment of `/api`, in the order they are registered. */
  datatype Group = Group(base: string, routes: seq<Endpoint>)

  /** A route found for a request: the group's base and the route within it. */
  datatype Route = Route(group: string, endpoint: Endpoint)

  const StatusPath: string := "/api/setup/status"

  const AuthRoutes: seq<Endpoint> := [
    Endpoint("POST", [Lit("login")]),
    Endpoint("POST", [Lit("logout")]),
    Endpoint("POST", [Lit("setup")]),
    Endpoint("GET", [Lit("status")]),
    Endpoint("POST", [Lit("change-password")])
  ]

  const EmailRoutes: seq<Endpoint> := [
    Endpoint("GET", []),
    Endpoint("GET", [Lit("stats")]),
    Endpoint("GET", [Param]),
    Endpoint("GET", [Param, Lit("attachments")]),
    Endpoint("GET", [Param, Lit("attachments"), Param]),
    Endpoint("POST", [Lit("send")]),
    Endpoint("POST", [Param, Lit("read")]),
    Endpoint("POST", [Param, Lit("unread")]),
    Endpoint("POST", [Param, Lit("star")]),
    Endpoint("DELETE", [Param])
  ]

  const SettingRoutes: seq<Endpoint> := [
    Endpoint("GET", []),
    Endpoint("GET", [Param]),
    Endpoint("PUT", []),
    Endpoint("PUT", [Param])
  ]

  const SetupRoutes: seq<Endpoint> := [
    Endpoint("GET", [Lit("status")]),
    Endpoint("POST", [Lit("cloudflare")]),
    Endpoint("POST", [Lit("cloudflare"), Lit("worker-routing")]),
    Endpoint("POST", [Lit("brevo")]),
    Endpoint("GET", [Lit("brevo"), Lit("senders")]),
    Endpoint("POST", [Lit("addresses")]),
    Endpoint("GET", [Lit("addresses")]),
    Endpoint("DELETE", [Lit("addresses"), Param]),
    Endpoint("POST", [Lit("complete")])
  ]

  /** The routes below `/api`, group by group in the order they are registered. */
  const Api: seq<Group> := [
    Group("auth", AuthRoutes),
    Group("health", [Endpoint("GET", [])]),
    Group("emails", EmailRoutes),
    Group("settings", SettingRoutes),
    Group("setup", SetupRoutes)
  ]

  const ApiPrefix: string := "/api/"

  /** The segments of a path below `/api/`; None for a path outside it. */
  function Segments(path: string): (r: Option<seq<string>>)
    ensures r.Some? ==> |r.value| >= 1
  {
    if StartsWith(path, ApiPrefix) then Some(Split(path[|ApiPrefix|..], '/')) else None
  }

  predicate PartMatches(p: Part, seg: string) {
    match p
    case Lit(s) => seg == s
    case Param => seg != ""
  }

  predicate Matches(e: Endpoint, verb: string, segs: seq<string>) {
    e.verb == verb && |e.parts| == |segs| && forall i :: 0 <= i < |segs| ==> PartMatches(e.parts[i], segs[i])
  }

  /** The first route from `from` on that matches: the one registered earliest wins. */
  function FirstMatch(routes: seq<Endpoint>, verb: string, segs: seq<string>, from: nat): (r: Option<nat>)
    ensures r.Some? ==> from <= r.value < |routes| && Matches(routes[r.value], verb, segs)
    ensures r.Some? ==> forall j :: from <= j < r.value ==> !Matches(routes[j], verb, segs)
    ensures r.None? ==> forall j :: from <= j < |routes| ==> !Matches(routes[j], verb, segs)
    decreases |routes| - from
  {
    if from >= |routes| then None
    else if Matches(routes[from], verb, segs) then Some(from)
    else FirstMatch(routes, verb, segs, from + 1)
  }

  /** The group mounted at a base segment. */
  function GroupAt(groups: seq<Group>, base: string, from: nat): (r: Option<nat>)
    ensures r.Some? ==> from <= r.value < |groups| && groups[r.value].base == base
    ensures r.None? ==> forall j :: from <= j < |groups| ==> groups[j].base != base
    decreases |groups| - from
  {
    if from >= |groups| then None
    else if groups[from].base == base then Some(from)
    else GroupAt(groups, base, from + 1)
  }

  /** The route that handles a request, if any: the group of the first segment, then its first matching route. */
  function RouteOf(verb: string, path: string): (r: Option<Route>)
    ensures r.Some? ==> Segments(path).Some? && r.value.group == Segments(path).value[0]
  {
    match Segments(path)
    case None => None
    case Some(segs) =>
      match GroupAt(Api, segs[0], 0)
      case None => None
      case Some(g) =>
        match FirstMatch(Api[g].routes, verb, segs[1..], 0)
        case None => None
        case Some(k) => Some(Route(Api[g].base, Api[g].routes[k]))
  }

  /** A path of two segments below `/api/` splits into those two segments. */
  lemma TwoSegments(a: string, b: string)
    requires '/' !in a && '/' !in b
    ensures Segments(ApiPrefix + a + "/" + b) == Some([a, b])
  {
    var path := ApiPrefix + a + "/" + b;
    assert path[..|ApiPrefix|] == ApiPrefix;
    assert path[|ApiPrefix|..] == a + ['/'] + b;
    SplitAfterFirst(a, b, '/');
    SplitWithout(b, '/');
    assert Split(a + ['/'] + b, '/') == [a] + [b] == [a, b];
    assert Segments(path) == Some(Split(path[|ApiPrefix|..], '/'));
  }

  /** `GET /api/emails/stats` reaches the statistics route, registered before `/:id`, not the detail route. */
  lemma StatsBeforeDetail()
    ensures RouteOf("GET", "/api/emails/stats") == Some(Route("emails", Endpoint("GET", [Lit("stats")])))
  {
    StatsSegments();
    EmailsGroupIndex();
    StatsRouteIndex();
  }

  /** `GET /api/setup/status` reaches the setup status route. */
  lemma StatusRoute()
    ensures RouteOf("GET", StatusPath) == Some(Route("setup", Endpoint("GET", [Lit("status")])))
  {
    StatusSegments();
    SetupGroupIndex();
    assert FirstMatch(SetupRoutes, "GET", ["status"], 0) == Some(0);
  }

  lemma StatsSegments()
    ensures Segments("/api/emails/stats") == Some(["emails", "stats"])
  {
    TwoSegments("emails", "stats");
    assert ApiPrefix + "emails" + "/" + "stats" == "/api/emails/stats";
  }

  lemma StatusSegments()
    ensures Segments(StatusPath) == Some(["setup", "status"])
  {
    TwoSegments("setup", "status");
    assert ApiPrefix + "setup" + "/" + "status" == StatusPath;
  }

  /** The statistics route is the second of the email routes and the first that matches `stats`. */
  lemma StatsRouteIndex()
    ensures FirstMatch(EmailRoutes, "GET", ["stats"], 0) == Some(1)
  {
    assert !Matches(EmailRoutes[0], "GET", ["stats"]);
  }

  lemma EmailsGroupIndex()
    ensures GroupAt(Api, "emails", 0) == Some(2)
  {
    assert GroupAt(Api, "emails", 2) == Some(2);
    assert Api[1].base[0] != 'e' && Api[0].base[0] != 'e';
  }

  lemma SetupGroupIndex()
    ensures GroupAt(Api, "setup", 0) == Some(4)
  {
    assert GroupAt(Api, "setup", 4) == Some(4);
    assert Api[3].base[3] != 'u' && Api[2].base[0] != 's' && Api[1].base[0] != 's' && Api[0].base[0] != 's';
  }

  // ------------------------------------------------------------------ sessions

  /** The wildcard pattern of a group: the base path itself or anything below it. */
  predicate Under(path: string, base: string) {
    path == base || StartsWith(path, base + "/")
  }

  /** The groups behind `authMiddleware`; `GET /api/setup/status` is let through without a session. */
  predicate NeedsSession(verb: string, path: string) {
    Under(path, "/api/emails") || Under(path, "/api/settings") ||
    (Under(path, "/api/setup") && !(path == StatusPath && verb == "GET"))
  }

  // ------------------------------------------------------------------ the whole pipeline

  /** A request as the middleware sees it: method, path and the headers it reads. */
  datatype Request = Request(
    verb: string, path: string, origin: Option<string>, authorization: Option<string>,
    connectingIp: Option<string>, realIp: Option<string>, forwardedFor: Option<string>)

  /** How a request ends: a CORS preflight answer, an answer from a middleware or the 404 route, or a route handler. */
  datatype Disposition =
    | Preflight
    | Answered(reply: Http.Reply)
    | Handled(route: Route, headers: seq<(string, string)>)

  /** The disposition and the `Access-Control-Allow-Origin` value (None when none is sent). */
  datatype Served = Served(allowOrigin: Option<string>, disposition: Disposition)

  const NotFound: Http.Reply := Http.ErrorReply(404, "Not found")

  /**
   * The pipeline: CORS (which answers a preflight itself), the limiter of the path, the session
   * check of the protected groups, then the first matching route or 404. The limiter checks at
   * `checkedAt`; the 429 wait and the session check use `answeredAt`.
   */
  function Serve(t: Database.Tables, s: RateLimit.Store, req: Request, checkedAt: int, answeredAt: int): (Served, RateLimit.Store) {
    var allow := CorsOrigin(req.origin);
    if req.verb == "OPTIONS" then (Served(allow, Preflight), s)
    else
      var ip := RateLimit.ClientIP(req.connectingIp, req.realIp, req.forwardedFor);
      var limited := Limit(s, req.path, ip, checkedAt, answeredAt);
      var s1 := limited.1;
      if limited.0.Blocked? then (Served(allow, Answered(limited.0.reply)), s1)
      else
        var gate := if NeedsSession(req.verb, req.path) then AuthApi.AuthGate(t, req.authorization, answeredAt) else AuthApi.Proceed;
        if gate.Reject? then (Served(allow, Answered(gate.reply)), s1)
        else match RouteOf(req.verb, req.path)
          case None => (Served(allow, Answered(NotFound)), s1)
          case Some(e) => (Served(allow, Handled(e, limited.0.headers)), s1)
  }

  /** The pipeline on the limiter table and the stored sessions. */
  method ServeRequest(db: Database.Queries, limits: RateLimit.LimitTable, req: Request, checkedAt: int, answeredAt: int)
    returns (out: Served)
    modifies limits
    ensures (out, limits.State()) == Serve(db.Snapshot(), old(limits.State()), req, checkedAt, answeredAt)
  {
    var allow := CorsOrigin(req.origin);
    if req.verb == "OPTIONS" {
      return Served(allow, Preflight);
    }
    var ip := RateLimit.ClientIP(req.connectingIp, req.realIp, req.forwardedFor);
    var limited: Limited := Admitted([]);
    if req.path == LoginPath {
      var limiter := new RateLimit.RateLimiter(limits, LoginOptions);
      var r := limiter.CheckRequest(ip, checkedAt);
      limited := LoginGate(r, answeredAt);
    } else if req.path == SetupPath {
      var limiter := new RateLimit.RateLimiter(limits, SetupOptions);
      var r := limiter.CheckRequest(ip, checkedAt);
      limited := SetupGate(r, answeredAt);
    }
    if limited.Blocked? {
      return Served(allow, Answered(limited.reply));
    }
    if NeedsSession(req.verb, req.path) {
      var gate := AuthApi.AuthMiddleware(db, req.authorization, answeredAt);
      if gate.Reject? {
        return Served(allow, Answered(gate.reply));
      }
    }
    var route := RouteOf(req.verb, req.path);
    if route.None? {
      return Served(allow, Answered(NotFound));
    }
    out := Served(allow, Handled(route.value, limited.headers));
  }

  // ------------------------------------------------------------------ properties of the pipeline

  /**
   * A request reaches a handler iff it is not a preflight, its limiter let it through, its session
   * check (when its path needs one) passed and a route matches; that handler is the first matching
   * route. A request that gets that far without a matching route is answered 404.
   */
  lemma HandledIff(t: Database.Tables, s: RateLimit.Store, req: Request, checkedAt: int, answeredAt: int)
    ensures var d := Serve(t, s, req, checkedAt, answeredAt).0.disposition;
      var ip := RateLimit.ClientIP(req.connectingIp, req.realIp, req.forwardedFor);
      var passed := req.verb != "OPTIONS" && Limit(s, req.path, ip, checkedAt, answeredAt).0.Admitted? &&
        (NeedsSession(req.verb, req.path) ==> AuthApi.AuthGate(t, req.authorization, answeredAt).Proceed?);
      (d.Handled? <==> passed && RouteOf(req.verb, req.path).Some?) &&
      (d.Handled? ==> Some(d.route) == RouteOf(req.verb, req.path)) &&
      (passed && RouteOf(req.verb, req.path).None? ==> d == Answered(NotFound))
  {
  }

  /**
   * A protected path without a live session is answered by the session check, before any
   * route is looked up: an unknown path below `/api/emails` gets 401, not 404.
   */
  lemma SessionBeforeRoute(t: Database.Tables, s: RateLimit.Store, req: Request, checkedAt: int, answeredAt: int)
    requires req.verb != "OPTIONS" && NeedsSession(req.verb, req.path)
    requires AuthApi.AuthGate(t, req.authorization, answeredAt).Reject?
    ensures Serve(t, s, req, checkedAt, answeredAt) ==
      (Served(CorsOrigin(req.origin), Answered(AuthApi.AuthGate(t, req.authorization, answeredAt).reply)), s)
    ensures Serve(t, s, req, checkedAt, answeredAt).0.disposition.reply.status == 401
  {
    PublicPaths(req.verb);
  }

  /** The limited paths and the setup status check are outside the session check. */
  lemma PublicPaths(verb: string)
    ensures !NeedsSession(verb, LoginPath) && !NeedsSession(verb, SetupPath) && !NeedsSession("GET", StatusPath)
  {
    assert LoginPath[5] == 'a' && SetupPath[5] == 'a' && StatusPath[5] == 's';
    assert "/api/emails/"[5] == 'e' && "/api/settings/"[5] == 's' && "/api/setup/"[5] == 's';
    assert "/api/settings/"[8] == 't' && StatusPath[8] == 'u';
  }

  /** The setup status check is public: whatever the session, `GET /api/setup/status` reaches its route. */
  lemma StatusIsPublic(t: Database.Tables, s: RateLimit.Store, req: Request, checkedAt: int, answeredAt: int)
    requires req.verb == "GET" && req.path == StatusPath
    ensures Serve(t, s, req, checkedAt, answeredAt) ==
      (Served(CorsOrigin(req.origin), Handled(Route("setup", Endpoint("GET", [Lit("status")])), [])), s)
  {
    StatusRoute();
    PublicPaths("GET");
    assert StatusPath != LoginPath && StatusPath != SetupPath;
  }

  /** The first segment of a split is free of the separator and is followed by it, unless it is everything. */
  lemma {:induction false} SplitHead(x: string, c: char)
    ensures var h := Split(x, c)[0]; c !in h && (x == h || StartsWith(x, h + [c]))
    decreases |x|
  {
    if |x| > 0 && x[0] != c {
      SplitHead(x[1..], c);
      var rest := Split(x[1..], c);
      assert Split(x, c)[0] == [x[0]] + rest[0];
      assert x == [x[0]] + x[1..];
    }
  }

  /**
   * Every emails, settings and setup route other than the status check is reached only with a live
   * session: a request handled by one of them passed `authMiddleware`.
   */
  lemma ProtectedRoutesNeedSession(t: Database.Tables, s: RateLimit.Store, req: Request, checkedAt: int, answeredAt: int)
    requires !(req.verb == "GET" && req.path == StatusPath)
    requires Serve(t, s, req, checkedAt, answeredAt).0.disposition.Handled?
    requires Serve(t, s, req, checkedAt, answeredAt).0.disposition.route.group in {"emails", "settings", "setup"}
    ensures AuthApi.AuthGate(t, req.authorization, answeredAt).Proceed?
  {
    HandledIff(t, s, req, checkedAt, answeredAt);
    GroupRouteNeedsSession(req.verb, req.path);
  }

  /** A path whose route belongs to the emails, settings or setup group lies under that group's base path. */
  lemma GroupRouteNeedsSession(verb: string, path: string)
    requires RouteOf(verb, path).Some? && !(verb == "GET" && path == StatusPath)
    requires RouteOf(verb, path).value.group in {"emails", "settings", "setup"}
    ensures NeedsSession(verb, path)
  {
    var g := RouteOf(verb, path).value.group;
    HeadNeedsSession(verb, path, g);
  }

  /** A path below `/api/` whose first segment names a protected group needs a session, the status check excepted. */
  lemma HeadNeedsSession(verb: string, path: string, g: string)
    requires Segments(path).Some? && Segments(path).value[0] == g
    requires g in {"emails", "settings", "setup"} && !(verb == "GET" && path == StatusPath)
    ensures NeedsSession(verb, path)
  {
    UnderGroup(path, g);
    GroupBases();
  }

  lemma GroupBases()
    ensures ApiPrefix + "emails" == "/api/emails"
    ensures ApiPrefix + "settings" == "/api/settings"
    ensures ApiPrefix + "setup" == "/api/setup"
  {
  }

  /** A path below `/api/` whose first segment is `h` is `/api/h` or lies below `/api/h/`. */
  lemma UnderGroup(path: string, h: string)
    requires Segments(path).Some? && |Segments(path).value| >= 1 && Segments(path).value[0] == h
    ensures Under(path, ApiPrefix + h)
  {
    var x := path[|ApiPrefix|..];
    SplitHead(x, '/');
    assert path == ApiPrefix + x;
    if x != h {
      assert StartsWith(x, h + ['/']);
      assert path[..|ApiPrefix + h| + 1] == ApiPrefix + x[..|h| + 1];
      assert (ApiPrefix + h) + "/" == ApiPrefix + (h + ['/']);
    }
  }

  /** A preflight is answered by CORS alone: no limiter runs and no session is looked up. */
  lemma PreflightAnswered(t: Database.Tables, s: RateLimit.Store, req: Request, checkedAt: int, answeredAt: int)
    requires req.verb == "OPTIONS"
    ensures Serve(t, s, req, checkedAt, answeredAt) == (Served(CorsOrigin(req.origin), Preflight), s)
  {
  }
}
