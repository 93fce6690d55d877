/**
 * The authentication routes: login, logout, the one-time password setup, the session status, the
 * password change and the middleware that guards the protected routes. Each route is a function
 * from the store (and the clock, the random bytes and the hash primitives, all parameters) to the
 * reply and the new store, and a method over `Queries` proved to compute it.
 */
module AuthApi {
  import opened Wrappers
  import opened Json
  import opened Text
  import opened Bytes
  import Http
  import opened Database
  import opened Utils

  /** The settings key of the administrator's password hash. */
  const PasswordKey := "admin_password_hash"

  /** Seven days in milliseconds. */
  const SessionLifetime: int := 7 * 24 * 60 * 60 * 1000

  const MinPasswordLength: nat := 8

  /** What one request draws from `crypto`: the session token bytes and id, and two 16-byte salts. */
  datatype Entropy = Entropy(tokenBytes: seq<byte>, sessionId: string, verifySalt: seq<byte>, hashSalt: seq<byte>)

  /** `generateToken(48)`, `generateToken(16)` and `generateToken(16)` draw these many bytes. */
  predicate Drawn(e: Entropy) {
    |e.tokenBytes| == 48 && |e.verifySalt| == 16 && |e.hashSalt| == 16
  }

  /** `authHeader?.replace('Bearer ', '')`, kept only when truthy. */
  function BearerToken(header: Option<string>): (r: Option<string>)
    ensures r.Some? ==> r.value != ""
  {
    if header.None? then None
    else
      var token := ReplaceFirst(header.value, "Bearer ", "");
      if token == "" then None else Some(token)
  }

  /** The header the client sends gives back its token. */
  lemma BearerRoundTrip(token: string)
    requires token != ""
    ensures BearerToken(Some("Bearer " + token)) == Some(token)
  {
    var h := "Bearer " + token;
    assert OccursAt(h, "Bearer ", 0);
    assert IndexOf(h, "Bearer ") == Some(0);
    assert h[..0] + "" + h[0 + |"Bearer "|..] == token;
  }

  function StoredHash(t: Tables): Option<string> {
    SettingOf(t.settings, PasswordKey)
  }

  /** The session row a successful login or setup inserts at time `now`. */
  function NewSession(e: Entropy, now: int): (s: Session)
    requires Drawn(e)
    ensures |s.token| == 96 && s.expiresAt == now + SessionLifetime && Live(s, now)
  {
    Session(e.sessionId, GenerateToken(e.tokenBytes), now + SessionLifetime)
  }

  function SessionReply(s: Session): Http.Reply {
    Http.Ok(Http.Success([("token", JStr(s.token)), ("expiresAt", JNum(s.expiresAt))]))
  }

  /** The reply of a login or setup carries the session's token and its expiry. */
  lemma SessionReplyFields(s: Session)
    ensures SessionReply(s).status == 200
    ensures Member(SessionReply(s).body, "token") == Some(JStr(s.token))
    ensures Member(SessionReply(s).body, "expiresAt") == Some(JNum(s.expiresAt))
  {
    var fields := [("success", JBool(true)), ("token", JStr(s.token)), ("expiresAt", JNum(s.expiresAt))];
    assert SessionReply(s).body == JObj(fields);
    LastFieldAt(fields, "token", 1);
    LastFieldAt(fields, "expiresAt", 2);
  }

  // ------------------------------------------------------------------ POST /login

  function LoginWrites(s: Session, now: int): seq<Write> {
    [InsertSession(s), CleanExpiredSessions(now)]
  }

  function Login(t: Tables, password: Option<string>, crypto: Crypto, e: Entropy, now: int): (Http.Reply, Tables)
    requires Drawn(e)
  {
    if !Present(password) then (Http.ErrorReply(400, "Password is required"), t)
    else if !Present(StoredHash(t)) then
      (Http.Reply(401, JObj([("error", JStr("Setup not completed")), ("needsSetup", JBool(true))])), t)
    else if !Verified(crypto, password.value, StoredHash(t).value, e.verifySalt) then
      (Http.ErrorReply(401, "Invalid password"), t)
    else
      var s := NewSession(e, now);
      var (t1, ok) := Run(t, LoginWrites(s, now));
      if !ok then (Http.ErrorReply(500, "Login failed"), t1) else (SessionReply(s), t1)
  }

  method HandleLogin(db: Queries, password: Option<string>, crypto: Crypto, e: Entropy, now: int)
    returns (reply: Http.Reply)
    requires Drawn(e)
    modifies db
    ensures (reply, db.Snapshot()) == Login(old(db.Snapshot()), password, crypto, e, now)
  {
    if !Present(password) {
      return Http.ErrorReply(400, "Password is required");
    }
    var stored := db.GetSetting(PasswordKey);
    if !Present(stored) {
      return Http.Reply(401, JObj([("error", JStr("Setup not completed")), ("needsSetup", JBool(true))]));
    }
    var valid := VerifyPassword(crypto, password.value, stored.value, e.verifySalt);
    if !valid {
      return Http.ErrorReply(401, "Invalid password");
    }
    var s := NewSession(e, now);
    ghost var t0 := db.Snapshot();
    var ok := db.CreateSession(s);
    if !ok {
      RunPair(t0, InsertSession(s), CleanExpiredSessions(now));
      return Http.ErrorReply(500, "Login failed");
    }
    ghost var t1 := db.Snapshot();
    ok := db.CleanExpired(now);
    RunPair(t0, InsertSession(s), CleanExpiredSessions(now));
    if !ok {
      return Http.ErrorReply(500, "Login failed");
    }
    reply := SessionReply(s);
  }

  /**
   * Login answers 400 without a password and 401 without a stored hash or with a password the hash
   * rejects; in all three cases nothing is written. It answers 200 exactly when the password
   * verifies and both statements succeed.
   */
  lemma LoginRejections(t: Tables, password: Option<string>, crypto: Crypto, e: Entropy, now: int)
    requires Drawn(e)
    ensures var (reply, t1) := Login(t, password, crypto, e, now);
      (reply.status == 400 <==> !Present(password)) &&
      (reply.status == 401 <==> (Present(password) &&
        (!Present(StoredHash(t)) || !Verified(crypto, password.value, StoredHash(t).value, e.verifySalt)))) &&
      (reply.status == 400 || reply.status == 401 ==> t1 == t) &&
      (reply.status == 200 <==> (Present(password) && Present(StoredHash(t)) &&
        Verified(crypto, password.value, StoredHash(t).value, e.verifySalt) && Run(t, LoginWrites(NewSession(e, now), now)).1))
  {
  }

  /** A successful login answers with the token of the new session, and the store is what its two statements leave. */
  lemma LoginCreatesSession(t: Tables, password: Option<string>, crypto: Crypto, e: Entropy, now: int)
    requires Drawn(e)
    requires Login(t, password, crypto, e, now).0.status == 200
    ensures var s := NewSession(e, now);
      Login(t, password, crypto, e, now) == (SessionReply(s), Run(t, LoginWrites(s, now)).0) &&
      Run(t, LoginWrites(s, now)).1
  {
    var s := NewSession(e, now);
    LoginRejections(t, password, crypto, e, now);
  }

  /**
   * The two statements of a successful login leave the new session in the store, live until it
   * expires, drop every session that had expired, and change no other table.
   */
  lemma LoginWritesEffect(t: Tables, s: Session, now: int)
    requires Live(s, now) && Run(t, LoginWrites(s, now)).1
    ensures var t1 := Run(t, LoginWrites(s, now)).0;
      s in t1.sessions &&
      (forall later :: now <= later < s.expiresAt ==> LiveSession(t1.sessions, s.token, later).Some?) &&
      (forall x :: x in t1.sessions ==> x in t.sessions + [s] && !(x.expiresAt < now)) &&
      t1.settings == t.settings && t1.emails == t.emails && t1.addresses == t.addresses && t1.attachments == t.attachments
  {
    RunPair(t, InsertSession(s), CleanExpiredSessions(now));
    var t1 := Run(t, LoginWrites(s, now)).0;
    var ta := Step(t, InsertSession(s)).0;
    assert ta.sessions == t.sessions + [s];
    assert t1.sessions == Unexpired(ta.sessions, now);
    forall later | now <= later < s.expiresAt
      ensures LiveSession(t1.sessions, s.token, later).Some?
    {
      assert s in t1.sessions && Live(s, later);
    }
  }

  // ------------------------------------------------------------------ POST /logout

  function Logout(t: Tables, header: Option<string>): (Http.Reply, Tables) {
    match BearerToken(header)
    case None => (Http.Ok(Http.Success([])), t)
    case Some(token) =>
      var (t1, ok) := Step(t, DeleteSession(token));
      if !ok then (Http.ErrorReply(500, "Logout failed"), t1) else (Http.Ok(Http.Success([])), t1)
  }

  method HandleLogout(db: Queries, header: Option<string>) returns (reply: Http.Reply)
    modifies db
    ensures (reply, db.Snapshot()) == Logout(old(db.Snapshot()), header)
  {
    var token := BearerToken(header);
    if token.Some? {
      var ok := db.DeleteSessionByToken(token.value);
      if !ok {
        return Http.ErrorReply(500, "Logout failed");
      }
    }
    reply := Http.Ok(Http.Success([]));
  }

  /** After a successful logout no session answers to the token, at any time. */
  lemma LogoutEndsSession(t: Tables, token: string, now: int)
    requires token != ""
    requires Logout(t, Some("Bearer " + token)).0.status == 200
    ensures LiveSession(Logout(t, Some("Bearer " + token)).1.sessions, token, now).None?
  {
    BearerRoundTrip(token);
  }

  // ------------------------------------------------------------------ POST /setup

  function SetupWrites(hash: string, s: Session): seq<Write> {
    [SetSetting(PasswordKey, hash), InsertSession(s)]
  }

  function Setup(t: Tables, password: Option<string>, crypto: Crypto, e: Entropy, now: int): (Http.Reply, Tables)
    requires Drawn(e)
  {
    if Present(StoredHash(t)) then (Http.ErrorReply(400, "Already setup"), t)
    else if !Present(password) || Utf16Length(password.value) < MinPasswordLength then
      (Http.ErrorReply(400, "Password must be at least 8 characters"), t)
    else
      var s := NewSession(e, now);
      var (t1, ok) := Run(t, SetupWrites(HashPassword(crypto, password.value, None, e.hashSalt), s));
      if !ok then (Http.ErrorReply(500, "Setup failed"), t1) else (SessionReply(s), t1)
  }

  method HandleSetup(db: Queries, password: Option<string>, crypto: Crypto, e: Entropy, now: int)
    returns (reply: Http.Reply)
    requires Drawn(e)
    modifies db
    ensures (reply, db.Snapshot()) == Setup(old(db.Snapshot()), password, crypto, e, now)
  {
    var existing := db.GetSetting(PasswordKey);
    if Present(existing) {
      return Http.ErrorReply(400, "Already setup");
    }
    if !Present(password) || Utf16Length(password.value) < MinPasswordLength {
      return Http.ErrorReply(400, "Password must be at least 8 characters");
    }
    var hash := HashPassword(crypto, password.value, None, e.hashSalt);
    var s := NewSession(e, now);
    ghost var t0 := db.Snapshot();
    var ok := db.SetSetting(PasswordKey, hash);
    if !ok {
      RunPair(t0, SetSetting(PasswordKey, hash), InsertSession(s));
      return Http.ErrorReply(500, "Setup failed");
    }
    ghost var t1 := db.Snapshot();
    ok := db.CreateSession(s);
    RunPair(t0, SetSetting(PasswordKey, hash), InsertSession(s));
    if !ok {
      return Http.ErrorReply(500, "Setup failed");
    }
    reply := SessionReply(s);
  }

  /**
   * Setup is refused, with nothing written, once a hash is stored or when the password is shorter
   * than eight characters; a successful setup stores a hash that accepts that password.
   */
  lemma SetupGate(t: Tables, password: Option<string>, crypto: Crypto, e: Entropy, now: int, e': Entropy)
    requires Drawn(e) && Drawn(e')
    ensures var (reply, t1) := Setup(t, password, crypto, e, now);
      (Present(StoredHash(t)) ==> reply.status == 400 && t1 == t) &&
      (!Present(password) || Utf16Length(password.value) < MinPasswordLength ==> reply.status == 400 && t1 == t) &&
      (reply.status == 200 ==> Present(StoredHash(t1)) && Verified(crypto, password.value, StoredHash(t1).value, e'.verifySalt))
  {
    if Present(StoredHash(t)) || !Present(password) || Utf16Length(password.value) < MinPasswordLength {
      SetupRefuses(t, password, crypto, e, now);
    } else if Setup(t, password, crypto, e, now).0.status == 200 {
      SetupStores(t, password, crypto, e, now, e');
    }
  }

  lemma SetupRefuses(t: Tables, password: Option<string>, crypto: Crypto, e: Entropy, now: int)
    requires Drawn(e)
    requires Present(StoredHash(t)) || !Present(password) || Utf16Length(password.value) < MinPasswordLength
    ensures Setup(t, password, crypto, e, now).0.status == 400 && Setup(t, password, crypto, e, now).1 == t
  {
  }

  lemma SetupStores(t: Tables, password: Option<string>, crypto: Crypto, e: Entropy, now: int, e': Entropy)
    requires Drawn(e) && Drawn(e')
    requires Setup(t, password, crypto, e, now).0.status == 200
    ensures var t1 := Setup(t, password, crypto, e, now).1;
      Present(password) && Present(StoredHash(t1)) && Verified(crypto, password.value, StoredHash(t1).value, e'.verifySalt)
  {
    var hash := HashPassword(crypto, password.value, None, e.hashSalt);
    var s := NewSession(e, now);
    var (t1, ok) := Run(t, SetupWrites(hash, s));
    assert ok && Setup(t, password, crypto, e, now).1 == t1;
    SetupWritesSettings(t, hash, s);
    UpsertReads(t.settings, PasswordKey, hash);
    assert StoredHash(t1) == Some(hash);
    VerifyMeansSameDerivation(crypto, password.value, None, e.hashSalt, password.value, e'.verifySalt);
  }

  /** The writes of a successful setup leave the settings with the hash upserted. */
  lemma SetupWritesSettings(t: Tables, hash: string, s: Session)
    requires Run(t, SetupWrites(hash, s)).1
    ensures Run(t, SetupWrites(hash, s)).0.settings == Upsert(t.settings, PasswordKey, hash)
  {
    RunPair(t, SetSetting(PasswordKey, hash), InsertSession(s));
    var t1 := Step(t, SetSetting(PasswordKey, hash)).0;
    assert t1.settings == Upsert(t.settings, PasswordKey, hash);
    assert Step(t1, InsertSession(s)).0.settings == t1.settings;
  }

  /** Setup succeeds at most once: after it has, every further setup is refused. */
  lemma SetupOnlyOnce(t: Tables, password: Option<string>, crypto: Crypto, e: Entropy, now: int,
                      again: Option<string>, e': Entropy, later: int)
    requires Drawn(e) && Drawn(e')
    requires Setup(t, password, crypto, e, now).0.status == 200
    ensures var t1 := Setup(t, password, crypto, e, now).1;
      Setup(t1, again, crypto, e', later) == (Http.ErrorReply(400, "Already setup"), t1)
  {
    SetupGate(t, password, crypto, e, now, e');
  }

  /** The password chosen at setup logs in: the next login verifies it and answers 200 unless the store throws. */
  lemma SetupThenLogin(t: Tables, password: Option<string>, crypto: Crypto, e: Entropy, now: int, e': Entropy, later: int)
    requires Drawn(e) && Drawn(e')
    requires Setup(t, password, crypto, e, now).0.status == 200
    ensures var t1 := Setup(t, password, crypto, e, now).1;
      var reply := Login(t1, password, crypto, e', later).0;
      reply.status == 200 || reply.status == 500
  {
    SetupGate(t, password, crypto, e, now, e');
  }

  // ------------------------------------------------------------------ GET /status

  datatype AuthState = AuthState(authenticated: bool, needsSetup: bool)

  function AuthStatus(t: Tables, header: Option<string>, now: int): AuthState {
    match BearerToken(header)
    case None => AuthState(false, !Present(StoredHash(t)))
    case Some(token) =>
      if LiveSession(t.sessions, token, now).None? then AuthState(false, !Present(StoredHash(t)))
      else AuthState(true, false)
  }

  function AuthStateJson(s: AuthState): Json {
    JObj([("authenticated", JBool(s.authenticated)), ("needsSetup", JBool(s.needsSetup))])
  }

  method HandleAuthStatus(db: Queries, header: Option<string>, now: int) returns (reply: Http.Reply, state: AuthState)
    ensures state == AuthStatus(db.Snapshot(), header, now)
    ensures reply == Http.Ok(AuthStateJson(state))
  {
    var token := BearerToken(header);
    if token.None? {
      var stored := db.GetSetting(PasswordKey);
      state := AuthState(false, !Present(stored));
    } else {
      var s := db.GetSessionByToken(token.value, now);
      if s.None? {
        var stored := db.GetSetting(PasswordKey);
        state := AuthState(false, !Present(stored));
      } else {
        state := AuthState(true, false);
      }
    }
    reply := Http.Ok(AuthStateJson(state));
  }

  // ------------------------------------------------------------------ POST /change-password

  function ChangePassword(t: Tables, header: Option<string>, current: string, newPassword: Option<string>,
                          crypto: Crypto, e: Entropy, now: int): (Http.Reply, Tables)
    requires Drawn(e)
  {
    match BearerToken(header)
    case None => (Http.ErrorReply(401, "Not authenticated"), t)
    case Some(token) =>
      if LiveSession(t.sessions, token, now).None? then (Http.ErrorReply(401, "Invalid session"), t)
      else if !Present(StoredHash(t)) then (Http.ErrorReply(400, "No password set"), t)
      else if !Verified(crypto, current, StoredHash(t).value, e.verifySalt) then
        (Http.ErrorReply(401, "Current password is incorrect"), t)
      else if !Present(newPassword) || Utf16Length(newPassword.value) < MinPasswordLength then
        (Http.ErrorReply(400, "New password must be at least 8 characters"), t)
      else
        var (t1, ok) := Step(t, SetSetting(PasswordKey, HashPassword(crypto, newPassword.value, None, e.hashSalt)));
        if !ok then (Http.ErrorReply(500, "Failed to change password"), t1) else (Http.Ok(Http.Success([])), t1)
  }

  method HandleChangePassword(db: Queries, header: Option<string>, current: string, newPassword: Option<string>,
                              crypto: Crypto, e: Entropy, now: int) returns (reply: Http.Reply)
    requires Drawn(e)
    modifies db
    ensures (reply, db.Snapshot()) == ChangePassword(old(db.Snapshot()), header, current, newPassword, crypto, e, now)
  {
    var token := BearerToken(header);
    if token.None? {
      return Http.ErrorReply(401, "Not authenticated");
    }
    var session := db.GetSessionByToken(token.value, now);
    if session.None? {
      return Http.ErrorReply(401, "Invalid session");
    }
    var stored := db.GetSetting(PasswordKey);
    if !Present(stored) {
      return Http.ErrorReply(400, "No password set");
    }
    var valid := VerifyPassword(crypto, current, stored.value, e.verifySalt);
    if !valid {
      return Http.ErrorReply(401, "Current password is incorrect");
    }
    if !Present(newPassword) || Utf16Length(newPassword.value) < MinPasswordLength {
      return Http.ErrorReply(400, "New password must be at least 8 characters");
    }
    var ok := db.SetSetting(PasswordKey, HashPassword(crypto, newPassword.value, None, e.hashSalt));
    if !ok {
      return Http.ErrorReply(500, "Failed to change password");
    }
    reply := Http.Ok(Http.Success([]));
  }

  /**
   * The stored hash changes only for a caller with a live session who knows the current password
   * and picked a new one of at least eight characters; the new hash then accepts the new password
   * and the sessions are left as they were.
   */
  lemma ChangePasswordGate(t: Tables, header: Option<string>, current: string, newPassword: Option<string>,
                           crypto: Crypto, e: Entropy, now: int, e': Entropy)
    requires Drawn(e) && Drawn(e')
    ensures var (reply, t1) := ChangePassword(t, header, current, newPassword, crypto, e, now);
      (StoredHash(t1) != StoredHash(t) ==>
        BearerToken(header).Some? && LiveSession(t.sessions, BearerToken(header).value, now).Some? &&
        Present(StoredHash(t)) && Verified(crypto, current, StoredHash(t).value, e.verifySalt) &&
        Present(newPassword) && Utf16Length(newPassword.value) >= MinPasswordLength) &&
      (reply.status != 200 ==> StoredHash(t1) == StoredHash(t)) &&
      (reply.status == 200 ==> (Present(StoredHash(t1)) &&
        Verified(crypto, newPassword.value, StoredHash(t1).value, e'.verifySalt) && t1.sessions == t.sessions))
  {
    if ChangeAllowed(t, header, current, newPassword, crypto, e, now) {
      ChangePasswordAccepted(t, header, current, newPassword, crypto, e, now, e');
    }
  }

  /** Every check of the route passes: a live session, a stored hash the current password matches, a long enough new one. */
  predicate ChangeAllowed(t: Tables, header: Option<string>, current: string, newPassword: Option<string>,
                          crypto: Crypto, e: Entropy, now: int)
    requires Drawn(e)
  {
    BearerToken(header).Some? && LiveSession(t.sessions, BearerToken(header).value, now).Some? &&
    Present(StoredHash(t)) && Verified(crypto, current, StoredHash(t).value, e.verifySalt) &&
    Present(newPassword) && Utf16Length(newPassword.value) >= MinPasswordLength
  }

  /** Once every check passes, a 200 stores a hash the new password verifies against, sessions untouched. */
  lemma ChangePasswordAccepted(t: Tables, header: Option<string>, current: string, newPassword: Option<string>,
                               crypto: Crypto, e: Entropy, now: int, e': Entropy)
    requires Drawn(e) && Drawn(e') && ChangeAllowed(t, header, current, newPassword, crypto, e, now)
    ensures var (reply, t1) := ChangePassword(t, header, current, newPassword, crypto, e, now);
      (reply.status != 200 ==> t1 == t) &&
      (reply.status == 200 ==> (Present(StoredHash(t1)) &&
        Verified(crypto, newPassword.value, StoredHash(t1).value, e'.verifySalt) && t1.sessions == t.sessions))
  {
    var hash := HashPassword(crypto, newPassword.value, None, e.hashSalt);
    UpsertReads(t.settings, PasswordKey, hash);
    VerifyMeansSameDerivation(crypto, newPassword.value, None, e.hashSalt, newPassword.value, e'.verifySalt);
  }

  // ------------------------------------------------------------------ authMiddleware

  /** What the middleware does with a request: pass it on to `next` once, or answer it itself. */
  datatype Gate = Proceed | Reject(reply: Http.Reply)

  function AuthGate(t: Tables, header: Option<string>, now: int): Gate {
    match BearerToken(header)
    case None => Reject(Http.ErrorReply(401, "Not authenticated"))
    case Some(token) =>
      if LiveSession(t.sessions, token, now).None? then Reject(Http.ErrorReply(401, "Invalid or expired session"))
      else Proceed
  }

  method AuthMiddleware(db: Queries, header: Option<string>, now: int) returns (gate: Gate)
    ensures gate == AuthGate(db.Snapshot(), header, now)
  {
    var token := BearerToken(header);
    if token.None? {
      return Reject(Http.ErrorReply(401, "Not authenticated"));
    }
    var session := db.GetSessionByToken(token.value, now);
    if session.None? {
      return Reject(Http.ErrorReply(401, "Invalid or expired session"));
    }
    gate := Proceed;
  }

  /**
   * The middleware lets a request through exactly when the status route would call it
   * authenticated, and otherwise answers 401.
   */
  lemma GateAgreesWithStatus(t: Tables, header: Option<string>, now: int)
    ensures AuthGate(t, header, now).Proceed? <==> AuthStatus(t, header, now).authenticated
    ensures AuthGate(t, header, now).Reject? ==> AuthGate(t, header, now).reply.status == 401
    ensures !AuthStatus(t, header, now).authenticated ==> AuthStatus(t, header, now).needsSetup == !Present(StoredHash(t))
  {
  }

  /** The token a login hands out opens the protected routes for seven days. */
  lemma LoginOpensGate(t: Tables, password: Option<string>, crypto: Crypto, e: Entropy, now: int, later: int)
    requires Drawn(e)
    requires Login(t, password, crypto, e, now).0.status == 200
    requires now <= later < now + SessionLifetime
    ensures AuthGate(Login(t, password, crypto, e, now).1, Some("Bearer " + NewSession(e, now).token), later) == Proceed
  {
    LoginCreatesSession(t, password, crypto, e, now);
    LoginWritesEffect(t, NewSession(e, now), now);
    BearerRoundTrip(NewSession(e, now).token);
  }
}
