/**
 * The dashboard's auth store: whether the user is signed in, whether the worker still needs its
 * first password, and whether the status is still being fetched. Its actions go through the API
 * client, so the token it holds moves with them; `respond` stands for the network.
 */
module AuthStore {
  import opened Wrappers
  import opened Json
  import Http
  import Database
  import AuthApi
  import ApiClient

  type Failure = ApiClient.Failure

  const StatusEndpoint: string := "/auth/status"

  datatype AuthFlags = AuthFlags(authenticated: bool, needsSetup: bool, isLoading: bool)

  /** The flags as the store is created: not signed in, no setup known to be needed, loading. */
  const Initial := AuthFlags(false, false, true)

  /** `isReady`. */
  predicate Ready(f: AuthFlags) {
    !f.isLoading
  }

  /**
   * `checkAuth`: on an answer the two flags are read from it, on a throw both become false, and
   * loading is over either way.
   */
  function AfterCheck(r: Result<Json, Failure>): AuthFlags {
    if r.Ok? then AuthFlags(Truthy(Member(r.value, "authenticated")), Truthy(Member(r.value, "needsSetup")), false)
    else AuthFlags(false, false, false)
  }

  /** `login` and `setup`: a truthy `success` signs the user in and ends the need for setup. */
  function AfterAnswer(f: AuthFlags, r: Result<Json, Failure>): AuthFlags {
    if r.Ok? && Truthy(Member(r.value, "success")) then f.(authenticated := true, needsSetup := false) else f
  }

  /** `logout`: the client's own logout, then `setToken(null)` in a `finally`. */
  function LogoutSession(s: ApiClient.Session, r: Result<Json, Failure>): ApiClient.Session {
    ApiClient.WithToken(ApiClient.AfterLogout(s, r), None)
  }

  // ------------------------------------------------------------------ what the actions promise

  /** Ready is the negation of loading, and a new store is not ready until the status is known. */
  lemma InitialNotReady()
    ensures !Ready(Initial) && !Initial.authenticated && !Initial.needsSetup
  {
  }

  /** After `checkAuth` the store is ready, the flags copy the answer, and a throw clears both. */
  lemma CheckAuthOutcome(r: Result<Json, Failure>)
    ensures Ready(AfterCheck(r))
    ensures r.Ok? ==> AfterCheck(r).authenticated == Truthy(Member(r.value, "authenticated"))
    ensures r.Ok? ==> AfterCheck(r).needsSetup == Truthy(Member(r.value, "needsSetup"))
    ensures r.Err? ==> !AfterCheck(r).authenticated && !AfterCheck(r).needsSetup
  {
  }

  /** Reading the worker's `/auth/status` reply gives back exactly the worker's two flags. */
  lemma CheckReadsServerStatus(st: AuthApi.AuthState)
    ensures AfterCheck(Ok(AuthApi.AuthStateJson(st))) == AuthFlags(st.authenticated, st.needsSetup, false)
  {
    var fields := [("authenticated", JBool(st.authenticated)), ("needsSetup", JBool(st.needsSetup))];
    assert AuthApi.AuthStateJson(st) == JObj(fields);
    LastFieldAt(fields, "authenticated", 0);
    LastFieldAt(fields, "needsSetup", 1);
  }

  /** The worker never reports a signed-in user as needing setup, so neither does the store after a check. */
  lemma CheckedFlagsExclusive(t: Database.Tables, header: Option<string>, now: int)
    ensures var f := AfterCheck(Ok(AuthApi.AuthStateJson(AuthApi.AuthStatus(t, header, now))));
      f.authenticated ==> !f.needsSetup
  {
    CheckReadsServerStatus(AuthApi.AuthStatus(t, header, now));
  }

  /** A successful answer signs in and clears the need for setup; any other answer or a throw changes no flag. */
  lemma AnswerOutcome(f: AuthFlags, r: Result<Json, Failure>)
    ensures r.Ok? && Truthy(Member(r.value, "success")) ==>
      AfterAnswer(f, r) == AuthFlags(true, false, f.isLoading)
    ensures !(r.Ok? && Truthy(Member(r.value, "success"))) ==> AfterAnswer(f, r) == f
  {
  }

  /** The worker's login or setup reply signs the store in and leaves the session's token with the client. */
  lemma SessionReplySignsIn(f: AuthFlags, s: ApiClient.Session, sess: Database.Session)
    requires sess.token != ""
    ensures AfterAnswer(f, Ok(AuthApi.SessionReply(sess).body)) == AuthFlags(true, false, f.isLoading)
    ensures ApiClient.AfterAuth(s, Ok(AuthApi.SessionReply(sess).body)).token == Some(sess.token)
  {
    var fields := [("success", JBool(true)), ("token", JStr(sess.token)), ("expiresAt", JNum(sess.expiresAt))];
    assert AuthApi.SessionReply(sess).body == JObj(fields);
    LastFieldAt(fields, "success", 0);
    AuthApi.SessionReplyFields(sess);
  }

  /** Logging out drops the token from the client and from storage whether or not the call succeeds. */
  lemma LogoutAlwaysClears(s: ApiClient.Session, r: Result<Json, Failure>)
    ensures LogoutSession(s, r) == ApiClient.WithToken(s, None)
    ensures LogoutSession(s, r).token.None? && ApiClient.TokenKey !in LogoutSession(s, r).storage
  {
    if r.Ok? {
      assert s.storage - {ApiClient.TokenKey} - {ApiClient.TokenKey} == s.storage - {ApiClient.TokenKey};
    }
  }

  // ------------------------------------------------------------------ the store

  class Store {
    var isAuthenticated: bool
    var needsSetup: bool
    var isLoading: bool
    const api: ApiClient.Client

    function Flags(): AuthFlags
      reads this
    {
      AuthFlags(isAuthenticated, needsSetup, isLoading)
    }

    predicate IsReady()
      reads this
    {
      Ready(Flags())
    }

    constructor(api: ApiClient.Client)
      ensures Flags() == Initial && this.api == api
    {
      this.api := api;
      isAuthenticated := false;
      needsSetup := false;
      isLoading := true;
    }

    method CheckAuth(respond: ApiClient.Request -> ApiClient.Response)
      returns (req: ApiClient.Request)
      modifies this
      ensures req == ApiClient.BuildRequest(api.token, "GET", StatusEndpoint, None)
      ensures Flags() == AfterCheck(ApiClient.Outcome(respond(req)))
    {
      isLoading := true;
      var r;
      req, r := api.Send("GET", StatusEndpoint, None, respond);
      if r.Ok? {
        isAuthenticated := Truthy(Member(r.value, "authenticated"));
        needsSetup := Truthy(Member(r.value, "needsSetup"));
      } else {
        isAuthenticated := false;
        needsSetup := false;
      }
      isLoading := false;
    }

    /** The shared body of `login` and `setup`, which differ only in the endpoint they post to. */
    method Authenticate(endpoint: string, password: string, respond: ApiClient.Request -> ApiClient.Response)
      returns (r: Result<Json, Failure>)
      modifies this, api
      ensures var req := ApiClient.BuildRequest(old(api.token), "POST", endpoint, Some(ApiClient.PasswordBody(password)));
        r == ApiClient.Outcome(respond(req))
      ensures api.State() == ApiClient.AfterAuth(old(api.State()), r)
      ensures Flags() == AfterAnswer(old(Flags()), r)
    {
      var req;
      req, r := api.Authenticate(endpoint, password, respond);
      if r.Ok? && Truthy(Member(r.value, "success")) {
        isAuthenticated := true;
        needsSetup := false;
      }
    }

    method Login(password: string, respond: ApiClient.Request -> ApiClient.Response)
      returns (r: Result<Json, Failure>)
      modifies this, api
      ensures var req := ApiClient.BuildRequest(old(api.token), "POST", ApiClient.LoginEndpoint, Some(ApiClient.PasswordBody(password)));
        r == ApiClient.Outcome(respond(req))
      ensures api.State() == ApiClient.AfterAuth(old(api.State()), r)
      ensures Flags() == AfterAnswer(old(Flags()), r)
    {
      r := Authenticate(ApiClient.LoginEndpoint, password, respond);
    }

    method Setup(password: string, respond: ApiClient.Request -> ApiClient.Response)
      returns (r: Result<Json, Failure>)
      modifies this, api
      ensures var req := ApiClient.BuildRequest(old(api.token), "POST", ApiClient.SetupEndpoint, Some(ApiClient.PasswordBody(password)));
        r == ApiClient.Outcome(respond(req))
      ensures api.State() == ApiClient.AfterAuth(old(api.State()), r)
      ensures Flags() == AfterAnswer(old(Flags()), r)
    {
      r := Authenticate(ApiClient.SetupEndpoint, password, respond);
    }

    method Logout(respond: ApiClient.Request -> ApiClient.Response) returns (thrown: Option<Failure>)
      modifies this, api
      ensures var r := ApiClient.Outcome(respond(ApiClient.BuildRequest(old(api.token), "POST", ApiClient.LogoutEndpoint, None)));
        && thrown == (if r.Err? then Some(r.error) else None)
        && api.State() == LogoutSession(old(api.State()), r)
      ensures Flags() == old(Flags()).(authenticated := false)
    {
      var _, r := api.Logout(respond);
      isAuthenticated := false;
      api.SetToken(None);
      thrown := if r.Err? then Some(r.error) else None;
    }
  }
}
