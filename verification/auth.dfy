/**
 * Who is asking: the web identity Apache hands over, the Bearer tokens of
 * the VSCode extension, the VSCode browser-login sessions, the dev-mode
 * LDAP bypass and the direct-credential endpoint
 * (core/auth_service.py, responses-api-server/auth_service.py,
 * server/routes/auth.py). JWT signing and checking, the LDAP bind and the
 * session-id generator are parameters.
 */
module Auth {
  import opened Common

  /** `.lower().strip()`, applied to every identity before it is used. */
  function Normalize(u: string): string {
    Strip(Lower(u))
  }

  // ---------------------------------------------------------------------------
  // Web identity
  // ---------------------------------------------------------------------------

  /** The parts of a Flask request the identity lookup reads. */
  datatype WebRequest = WebRequest(
    envRemoteUser: Option<string>,       // os.environ REMOTE_USER
    headerRemoteUser: Option<string>,    // X-Remote-User
    environRemoteUser: Option<string>,   // request.environ REMOTE_USER
    basicAuthUser: Option<string>,       // request.authorization.username, None without basic auth
    devModeHeader: Option<string>,       // X-Development-Mode
    tuftsHeader: Option<string>,         // X-Tufts-Authenticated
    frontendDomain: Option<string>)      // X-Frontend-Domain

  function Or(current: Option<string>, next: Option<string>): Option<string> {
    if Truthy(current) then current else next
  }

  /** Method 5: with the development header, X-Remote-User again. */
  function DevHeaderStep(u: Option<string>, req: WebRequest): Option<string> {
    if !Truthy(u) && req.devModeHeader == Some("true") then req.headerRemoteUser else u
  }

  /** Method 6: a Tufts frontend vouching for X-Remote-User from a tufts.edu domain. */
  function TuftsStep(u: Option<string>, req: WebRequest): Option<string> {
    if !Truthy(u) && req.tuftsHeader == Some("true") then
      var domain := req.frontendDomain;
      var remote := req.headerRemoteUser;
      if Truthy(domain) && Truthy(remote) && (Contains(domain.value, ".tufts.edu") || Contains(domain.value, "eecs.tufts.edu"))
      then remote else u
    else u
  }

  /**
   * `extract_utln_from_web_request` step by step, including the
   * development-header and Tufts-frontend steps.
   */
  function ExtractUtln(req: WebRequest): (r: Option<string>)
  {
    var u1 := req.envRemoteUser;
    var u2 := Or(u1, req.headerRemoteUser);
    var u3 := Or(u2, req.environRemoteUser);
    var u4 := if !Truthy(u3) && req.basicAuthUser.Some? then req.basicAuthUser else u3;
    var u6 := TuftsStep(DevHeaderStep(u4, req), req);
    if Truthy(u6) then Some(Normalize(u6.value)) else None
  }

  /** Methods 5 and 6 only run on a falsy identity and when X-Remote-User is falsy they keep it falsy. */
  lemma LateStepsInert(u: Option<string>, req: WebRequest)
    requires !Truthy(req.headerRemoteUser)
    ensures Truthy(TuftsStep(DevHeaderStep(u, req), req)) <==> Truthy(u)
    ensures Truthy(u) ==> TuftsStep(DevHeaderStep(u, req), req) == u
  {
  }

  /** The first truthy of the four sources, the reference the lookup is measured against. */
  function FirstTruthy(sources: seq<Option<string>>): (r: Option<string>)
    ensures r.Some? <==> exists i :: 0 <= i < |sources| && Truthy(sources[i])
    ensures r.Some? ==> Truthy(r)
  {
    if sources == [] then None
    else if Truthy(sources[0]) then sources[0]
    else
      var r := FirstTruthy(sources[1..]);
      assert forall i :: 1 <= i < |sources| ==> sources[i] == sources[1..][i - 1];
      r
  }

  /**
   * The development-header and Tufts-frontend steps only run when
   * X-Remote-User is already known to be falsy and take their user from
   * that same header, so they never decide anything: the identity is the
   * first truthy of the four sources, normalized.
   */
  lemma WebIdentityPrecedence(req: WebRequest)
    ensures var first := FirstTruthy([req.envRemoteUser, req.headerRemoteUser, req.environRemoteUser, req.basicAuthUser]);
      ExtractUtln(req) == if first.Some? then Some(Normalize(first.value)) else None
  {
    var s := [req.envRemoteUser, req.headerRemoteUser, req.environRemoteUser, req.basicAuthUser];
    assert s[1..] == [req.headerRemoteUser, req.environRemoteUser, req.basicAuthUser];
    assert s[1..][1..] == [req.environRemoteUser, req.basicAuthUser];
    assert s[1..][1..][1..] == [req.basicAuthUser];
    if Truthy(req.envRemoteUser) {
      assert FirstTruthy(s) == req.envRemoteUser;
    } else if Truthy(req.headerRemoteUser) {
      assert FirstTruthy(s) == req.headerRemoteUser;
    } else {
      var u4 := if !Truthy(req.environRemoteUser) && req.basicAuthUser.Some? then req.basicAuthUser else req.environRemoteUser;
      LateStepsInert(u4, req);
      assert FirstTruthy(s) == FirstTruthy(s[1..]) == FirstTruthy(s[1..][1..]);
      if Truthy(req.environRemoteUser) {
        assert FirstTruthy(s) == req.environRemoteUser;
      } else if Truthy(req.basicAuthUser) {
        assert FirstTruthy(s[1..][1..]) == FirstTruthy(s[1..][1..][1..]);
        assert FirstTruthy(s) == req.basicAuthUser;
      } else {
        assert FirstTruthy(s) == None;
      }
    }
  }

  /** The development and Tufts headers make no difference to the identity. */
  lemma ExtraHeadersIrrelevant(req: WebRequest, dev: Option<string>, tufts: Option<string>, domain: Option<string>)
    ensures ExtractUtln(req.(devModeHeader := dev, tuftsHeader := tufts, frontendDomain := domain)) == ExtractUtln(req)
  {
    WebIdentityPrecedence(req);
    WebIdentityPrecedence(req.(devModeHeader := dev, tuftsHeader := tufts, frontendDomain := domain));
  }

  // ---------------------------------------------------------------------------
  // Bearer tokens
  // ---------------------------------------------------------------------------

  /** What `jwt.decode` yields: a rejected token (bad signature, expired, malformed) or its `utln` claim. */
  datatype Decoded = Rejected | Claims(utln: Option<string>)

  /** `verify_vscode_auth_token`. */
  function VerifyToken(token: string, decode: string -> Decoded): (r: Option<string>)
    ensures r.Some? <==> decode(token).Claims? && Truthy(decode(token).utln)
    ensures r.Some? ==> r.value == Normalize(decode(token).utln.value)
  {
    match decode(token)
    case Rejected => None
    case Claims(utln) => if Truthy(utln) then Some(Normalize(utln.value)) else None
  }

  /** The characters up to the first space. */
  function UpToSpace(s: string): (r: string)
    ensures StartsWith(s, r) && ' ' !in r
    ensures |r| == |s| || s[|r|] == ' '
  {
    if s == [] || s[0] == ' ' then [] else [s[0]] + UpToSpace(s[1..])
  }

  const BearerPrefix := "Bearer "

  /** `auth_header.split(' ')[1]` for a header that starts with "Bearer ". */
  function BearerToken(header: string): (token: string)
    requires StartsWith(header, BearerPrefix)
    ensures ' ' !in token && StartsWith(header[7..], token)
    ensures |header| == 7 + |token| || header[7 + |token|] == ' '
  {
    UpToSpace(header[7..])
  }

  /** What `authenticate_request` answers: the identity and the platform ("vscode", "web" or ""). */
  datatype Identity = Identity(utln: Option<string>, platform: string)

  /** `authenticate_request`: a verified Bearer token, then the web identity, then nobody. */
  function AuthenticateRequest(authorization: Option<string>, req: WebRequest, decode: string -> Decoded): (r: Identity)
    ensures r.utln.Some? <==> r.platform != ""
    ensures r.utln.Some? ==> r.utln.value != ""
    ensures r.platform == "vscode" <==>
      && authorization.Some? && StartsWith(authorization.value, BearerPrefix)
      && Truthy(VerifyToken(BearerToken(authorization.value), decode))
    ensures r.platform == "vscode" ==> r.utln == VerifyToken(BearerToken(authorization.value), decode)
    ensures r.platform == "web" ==> r.utln == ExtractUtln(req)
    ensures r.platform == "" ==> !Truthy(ExtractUtln(req))
  {
    var bearer :=
      if authorization.Some? && StartsWith(authorization.value, BearerPrefix)
      then VerifyToken(BearerToken(authorization.value), decode) else None;
    if Truthy(bearer) then Identity(bearer, "vscode")
    else
      var web := ExtractUtln(req);
      if Truthy(web) then Identity(web, "web") else Identity(None, "")
  }

  /** An identity that normalizes to "" (a whitespace-only REMOTE_USER, say) is treated as nobody. */
  lemma BlankIdentityIsNobody(req: WebRequest, decode: string -> Decoded)
    requires req.envRemoteUser == Some(" ")
    ensures AuthenticateRequest(None, req, decode) == Identity(None, "")
  {
    assert Lower(" ") == " ";
    assert IsPySpace(' ');
    StripEmptyIffBlank(" ");
    WebIdentityPrecedence(req);
  }

  // ---------------------------------------------------------------------------
  // VSCode browser-login sessions
  // ---------------------------------------------------------------------------

  datatype LoginStatus = Pending | Completed(token: string, utln: string)

  /** One `_vscode_sessions` entry; `createdAt` in seconds. */
  datatype LoginSession = LoginSession(createdAt: int, status: LoginStatus)

  type Sessions = map<string, LoginSession>

  const SessionLifetime := 3600

  /** Entries created within the last hour survive a pruning at `now`. */
  predicate Fresh(s: LoginSession, now: int) {
    s.createdAt > now - SessionLifetime
  }

  const LoginPath := "/vscode-auth?session_id="

  /**
   * `generate_vscode_login_url`: record a pending session under the drawn id,
   * drop everything older than an hour, and return the login URL.
   */
  function GenerateLoginUrl(store: Sessions, baseUrl: string, sessionId: string, now: int): (res: (Sessions, string))
    ensures sessionId in res.0 && res.0[sessionId] == LoginSession(now, Pending)
    ensures forall k :: k in res.0 ==> Fresh(res.0[k], now)
    ensures forall k :: k in store && k != sessionId ==> (k in res.0 <==> Fresh(store[k], now))
    ensures forall k :: k in res.0 && k != sessionId ==> k in store && res.0[k] == store[k]
    ensures res.1 == baseUrl + LoginPath + sessionId
  {
    var added := store[sessionId := LoginSession(now, Pending)];
    (map k | k in added && Fresh(added[k], now) :: added[k], baseUrl + LoginPath + sessionId)
  }

  /**
   * `handle_vscode_login_callback`: only a pending session is completed;
   * the token is signed for the normalized identity while the session
   * records the identity as given.
   */
  function HandleLoginCallback(store: Sessions, sessionId: string, utln: string, sign: string -> string): (res: (Sessions, Option<string>))
    ensures res.1.Some? <==> sessionId in store && store[sessionId].status == Pending
    ensures res.1.None? ==> res.0 == store
    ensures res.1.Some? ==>
      && res.1.value == sign(Normalize(utln))
      && res.0 == store[sessionId := store[sessionId].(status := Completed(res.1.value, utln))]
  {
    if sessionId !in store || store[sessionId].status != Pending then (store, None)
    else
      var token := sign(Normalize(utln));
      (store[sessionId := store[sessionId].(status := Completed(token, utln))], Some(token))
  }

  /** The reply of `get_vscode_session_status`. */
  datatype StatusReply = NotFound | PendingReply | CompletedReply(token: string, utln: string)

  function SessionStatus(store: Sessions, sessionId: string): (r: StatusReply)
    ensures r == NotFound <==> sessionId !in store
    ensures r.CompletedReply? <==> sessionId in store && store[sessionId].status.Completed?
    ensures r.CompletedReply? ==> r == CompletedReply(store[sessionId].status.token, store[sessionId].status.utln)
  {
    if sessionId !in store then NotFound
    else match store[sessionId].status
      case Pending => PendingReply
      case Completed(token, utln) => CompletedReply(token, utln)
  }

  /**
   * The whole login: a fresh id is pending, the first callback completes it
   * and the status then carries the same token; a second callback is refused
   * and changes nothing.
   */
  lemma LoginLifecycle(store: Sessions, baseUrl: string, sessionId: string, now: int, utln: string, sign: string -> string)
    ensures var (s1, _) := GenerateLoginUrl(store, baseUrl, sessionId, now);
      var (s2, token) := HandleLoginCallback(s1, sessionId, utln, sign);
      && SessionStatus(s1, sessionId) == PendingReply
      && token == Some(sign(Normalize(utln)))
      && SessionStatus(s2, sessionId) == CompletedReply(token.value, utln)
      && HandleLoginCallback(s2, sessionId, utln, sign) == (s2, None)
  {
  }

  /** Older server: the session store springs into being on the first login URL. */
  function LegacyGenerateLoginUrl(store: Option<Sessions>, baseUrl: string, sessionId: string, now: int): (res: (Option<Sessions>, string))
    ensures res.0.Some?
    ensures res == (var (s, url) := GenerateLoginUrl(if store.Some? then store.value else map[], baseUrl, sessionId, now); (Some(s), url))
  {
    var (s, url) := GenerateLoginUrl(if store.Some? then store.value else map[], baseUrl, sessionId, now);
    (Some(s), url)
  }

  function LegacyHandleLoginCallback(store: Option<Sessions>, sessionId: string, utln: string, sign: string -> string): (res: (Option<Sessions>, Option<string>))
    ensures store.None? ==> res == (None, None)
  {
    match store
    case None => (None, None)
    case Some(s) => var (s', t) := HandleLoginCallback(s, sessionId, utln, sign); (Some(s'), t)
  }

  function LegacySessionStatus(store: Option<Sessions>, sessionId: string): (r: StatusReply)
    ensures store.None? ==> r == NotFound
  {
    match store
    case None => NotFound
    case Some(s) => SessionStatus(s, sessionId)
  }

  /** Once the store exists the older server behaves exactly like the core one; before, nothing is found. */
  lemma LegacyStoreMatchesCore(store: Option<Sessions>, sessionId: string, utln: string, sign: string -> string)
    ensures LegacySessionStatus(store, sessionId) == SessionStatus(if store.Some? then store.value else map[], sessionId)
    ensures var (s', t) := LegacyHandleLoginCallback(store, sessionId, utln, sign);
      var (c', ct) := HandleLoginCallback(if store.Some? then store.value else map[], sessionId, utln, sign);
      t == ct && (store.Some? ==> s' == Some(c'))
  {
  }

  // ---------------------------------------------------------------------------
  // Credential check
  // ---------------------------------------------------------------------------

  const CoreDevUsers: seq<string> := ["dev_user", "test_user", "demo_user", "testuser"]
  const LegacyDevUsers: seq<string> := ["dev_user", "test_user", "demo_user"]

  /** `os.getenv('DEVELOPMENT_MODE', '').lower() == 'true'`. */
  predicate DevMode(env: Option<string>) {
    Lower(if env.Some? then env.value else "") == "true"
  }

  /**
   * `authenticate_vscode_user` with the bypass list as a parameter: a listed
   * user in development mode needs only a non-blank password, everyone else
   * must pass the LDAP bind; success is a token for the normalized name.
   */
  function AuthenticateVscodeUserWith(devUsers: seq<string>, username: string, password: string, env: Option<string>,
                                      ldapBind: (string, string) -> bool, sign: string -> string): (r: Option<string>)
    ensures r.Some? ==> r.value == sign(Normalize(username))
    ensures DevMode(env) && Normalize(username) in devUsers ==> (r.Some? <==> Strip(password) != "")
    ensures !(DevMode(env) && Normalize(username) in devUsers) ==> (r.Some? <==> ldapBind(Normalize(username), password))
  {
    var name := Normalize(username);
    var admitted :=
      if DevMode(env) && name in devUsers then Strip(password) != ""
      else ldapBind(name, password);
    if admitted then Some(sign(name)) else None
  }

  function AuthenticateVscodeUser(username: string, password: string, env: Option<string>,
                                  ldapBind: (string, string) -> bool, sign: string -> string): (r: Option<string>)
    ensures r == AuthenticateVscodeUserWith(CoreDevUsers, username, password, env, ldapBind, sign)
  {
    AuthenticateVscodeUserWith(CoreDevUsers, username, password, env, ldapBind, sign)
  }

  function LegacyAuthenticateVscodeUser(username: string, password: string, env: Option<string>,
                                        ldapBind: (string, string) -> bool, sign: string -> string): (r: Option<string>)
    ensures r == AuthenticateVscodeUserWith(LegacyDevUsers, username, password, env, ldapBind, sign)
  {
    AuthenticateVscodeUserWith(LegacyDevUsers, username, password, env, ldapBind, sign)
  }

  /**
   * The two servers differ on "testuser" in development mode: the core one
   * lets it in on any non-blank password, the older one asks LDAP.
   */
  lemma TestuserOnlyBypassesInCore(password: string, ldapBind: (string, string) -> bool, sign: string -> string)
    requires Strip(password) != "" && !ldapBind("testuser", password)
    ensures AuthenticateVscodeUser("testuser", password, Some("TRUE"), ldapBind, sign).Some?
    ensures LegacyAuthenticateVscodeUser("testuser", password, Some("TRUE"), ldapBind, sign).None?
  {
    DevModeOnUpperTrue();
    NormalizeTestuser();
    TestuserInCore();
    TestuserNotLegacy();
    ListsDiffer("testuser", password, Some("TRUE"), ldapBind, sign);
  }

  /** A name on the core bypass list only: admitted by the core server, left to LDAP by the older one. */
  lemma ListsDiffer(username: string, password: string, env: Option<string>, ldapBind: (string, string) -> bool, sign: string -> string)
    requires DevMode(env) && Normalize(username) in CoreDevUsers && Normalize(username) !in LegacyDevUsers
    requires Strip(password) != "" && !ldapBind(Normalize(username), password)
    ensures AuthenticateVscodeUser(username, password, env, ldapBind, sign).Some?
    ensures LegacyAuthenticateVscodeUser(username, password, env, ldapBind, sign).None?
  {
  }

  lemma TestuserInCore()
    ensures "testuser" in CoreDevUsers
  {
    assert CoreDevUsers[3] == "testuser";
  }

  lemma DevModeOnUpperTrue()
    ensures DevMode(Some("TRUE"))
  {
    var r := Lower("TRUE");
    assert r[0] == 't' && r[1] == 'r' && r[2] == 'u' && r[3] == 'e';
    assert r == "true";
  }

  lemma NormalizeTestuser()
    ensures Normalize("testuser") == "testuser"
  {
    var t := "testuser";
    assert t[0] == 't' && t[1] == 'e' && t[2] == 's' && t[3] == 't';
    assert t[4] == 'u' && t[5] == 's' && t[6] == 'e' && t[7] == 'r';
    NormalizeOfLowercase(t);
  }

  /** A name of lowercase letters normalizes to itself. */
  lemma NormalizeOfLowercase(s: string)
    requires forall i :: 0 <= i < |s| ==> 'a' <= s[i] <= 'z'
    ensures Normalize(s) == s
  {
    LowerOfLowercase(s);
    if s != [] {
      assert !IsPySpace(s[0]) && !IsPySpace(s[|s| - 1]);
    }
    StripOfTrimmed(s);
  }

  lemma LowerOfLowercase(s: string)
    requires forall i :: 0 <= i < |s| ==> 'a' <= s[i] <= 'z'
    ensures Lower(s) == s
  {
    var r := Lower(s);
    assert forall i :: 0 <= i < |s| ==> r[i] == s[i];
  }

  lemma TestuserNotLegacy()
    ensures "testuser" !in LegacyDevUsers
  {
    var t := "testuser";
    assert t != "dev_user" by { assert t[0] != "dev_user"[0]; }
    assert t != "demo_user" && t != "test_user" by { assert |t| == 8; }
  }

  /** A blank password never gets a dev user in, on either server. */
  lemma BlankPasswordRejectedForDevUsers(devUsers: seq<string>, username: string, password: string, env: Option<string>,
                                         ldapBind: (string, string) -> bool, sign: string -> string)
    requires AllSpace(password) && DevMode(env) && Normalize(username) in devUsers
    ensures AuthenticateVscodeUserWith(devUsers, username, password, env, ldapBind, sign).None?
  {
    StripEmptyIffBlank(password);
  }

  // ---------------------------------------------------------------------------
  // POST /vscode-direct-auth
  // ---------------------------------------------------------------------------

  /** A field of the JSON body: a string, or any other JSON value. */
  datatype Field = FStr(s: string) | FOther

  /** `^[a-zA-Z][a-zA-Z0-9]{2,15}` followed by the end of the text. */
  predicate WellFormedUsername(u: string) {
    3 <= |u| <= 16 && IsAsciiLetter(u[0]) && forall i :: 1 <= i < |u| ==> IsAsciiAlnum(u[i])
  }

  /** `re.match` with `$`, which also matches just before a final newline. */
  predicate UsernameRegexMatches(u: string) {
    WellFormedUsername(u) || (|u| >= 1 && u[|u| - 1] == '\n' && WellFormedUsername(u[..|u| - 1]))
  }

  /** On a stripped name the trailing-newline allowance of `$` never applies. */
  lemma StrippedRegexIsExact(raw: string)
    ensures UsernameRegexMatches(Strip(raw)) <==> WellFormedUsername(Strip(raw))
  {
    assert IsPySpace('\n');
  }

  /**
   * What `request.get_json()` makes of the request body: an exception (no
   * JSON content type or malformed JSON, which Werkzeug 2.1 and later
   * raise), a falsy JSON value (`null`, `false`, `0`, `""`, `[]`; the empty
   * object is `Object(map[])`), a truthy value that is not an object, or an
   * object.
   */
  datatype Body = Unparsable | FalsyValue | OtherTruthy | Object(fields: map<string, Field>)

  /** Python truthiness of the parsed body: `if not data` turns it away exactly when this fails. */
  predicate TruthyBody(body: Body) {
    body.OtherTruthy? || (body.Object? && body.fields != map[])
  }

  datatype DirectReply = DirectReply(status: int, token: Option<string>, username: Option<string>)

  /** `auth_method == 'username_only'` (default 'ldap') or the development header. */
  predicate UsernameOnly(data: map<string, Field>, devHeader: Option<string>) {
    ("auth_method" in data && data["auth_method"] == FStr("username_only")) || devHeader == Some("true")
  }

  /** `data.get(key, '').strip()`: None stands for the AttributeError on a non-string. */
  function StrippedField(data: map<string, Field>, key: string): Option<string> {
    if key !in data then Some("")
    else match data[key] case FStr(s) => Some(Strip(s)) case FOther => None
  }

  /**
   * The body of `vscode_direct_auth` once both fields are strings: 400
   * without a username; the username-only path issues a token for any
   * well-formed name and answers 401 otherwise; the LDAP path needs a
   * password and defers to `authenticate_vscode_user`, answering 401 when
   * that gives no token or an empty one (`if token:`). The name is issued
   * and echoed lowercased.
   */
  function CredentialReply(rawUsername: string, rawPassword: string, usernameOnly: bool, env: Option<string>,
                           ldapBind: (string, string) -> bool, sign: string -> string): (r: DirectReply)
    ensures r.status == 200 <==> r.token.Some?
    ensures Strip(rawUsername) == "" ==> r.status == 400
    ensures r.status == 200 ==> r.username == Some(Lower(Strip(rawUsername))) && r.token == Some(sign(Lower(Strip(rawUsername))))
    ensures usernameOnly && Strip(rawUsername) != "" ==> (r.status == 401 <==> !WellFormedUsername(Strip(rawUsername)))
    ensures !usernameOnly && Strip(rawUsername) != "" && Strip(rawPassword) == "" ==> r.status == 400
    ensures !usernameOnly && Strip(rawUsername) != "" && Strip(rawPassword) != "" ==>
      var t := AuthenticateVscodeUser(Strip(rawUsername), Strip(rawPassword), env, ldapBind, sign);
      (r.status == 200 <==> t.Some? && t.value != "") && (r.status == 401 <==> t.None? || t.value == "")
    ensures r.status == 200 ==> r.token.value != ""
  {
    var username := Strip(rawUsername);
    var password := Strip(rawPassword);
    if username == "" then DirectReply(400, None, None)
    else if usernameOnly then
      StrippedRegexIsExact(rawUsername);
      if |username| >= 3 && UsernameRegexMatches(username) then
        var name := Lower(username);
        var token := sign(name);
        if token != "" then DirectReply(200, Some(token), Some(name)) else DirectReply(500, None, None)
      else DirectReply(401, None, None)
    else if password == "" then DirectReply(400, None, None)
    else
      match AuthenticateVscodeUser(username, password, env, ldapBind, sign)
      case Some(token) =>
        if token != "" then
          LowerStripped(rawUsername);
          DirectReply(200, Some(token), Some(Lower(username)))
        else DirectReply(401, None, None)
      case None => DirectReply(401, None, None)
  }

  /**
   * `vscode_direct_auth`: 500 when the body cannot be parsed, 400 for a
   * falsy body, 500 for a truthy body that is not an object (its `.get`
   * raises) or when a field is not a string (its `.strip()` raises),
   * otherwise the reply above.
   */
  function DirectAuth(body: Body, devHeader: Option<string>, env: Option<string>,
                      ldapBind: (string, string) -> bool, sign: string -> string): (r: DirectReply)
    ensures body.Unparsable? || body.OtherTruthy? ==> r == DirectReply(500, None, None)
    ensures !body.Unparsable? && !TruthyBody(body) ==> r == DirectReply(400, None, None)
    ensures body.Object? && body.fields != map[]
      && (StrippedField(body.fields, "username").None? || StrippedField(body.fields, "password").None?)
      ==> r.status == 500
    ensures body.Object? && body.fields != map[]
      && ("username" !in body.fields || body.fields["username"] == FStr("")) && StrippedField(body.fields, "password").Some?
      ==> r.status == 400
    ensures body.Object? && body.fields != map[]
      && StrippedField(body.fields, "username").Some? && StrippedField(body.fields, "password").Some?
      ==> r == CredentialReply(if "username" in body.fields then body.fields["username"].s else "",
                               if "password" in body.fields then body.fields["password"].s else "",
                               UsernameOnly(body.fields, devHeader), env, ldapBind, sign)
  {
    match body
    case Unparsable => DirectReply(500, None, None)
    case FalsyValue => DirectReply(400, None, None)
    case OtherTruthy => DirectReply(500, None, None)
    case Object(d) => if d == map[] then DirectReply(400, None, None) else ObjectAuth(d, devHeader, env, ldapBind, sign)
  }

  /** A non-empty object body: read and strip the two fields, then reply to the credentials. */
  function ObjectAuth(d: map<string, Field>, devHeader: Option<string>, env: Option<string>,
                      ldapBind: (string, string) -> bool, sign: string -> string): (r: DirectReply)
    ensures StrippedField(d, "username").None? || StrippedField(d, "password").None? ==> r.status == 500
    ensures ("username" !in d || d["username"] == FStr("")) && StrippedField(d, "password").Some? ==> r.status == 400
    ensures StrippedField(d, "username").Some? && StrippedField(d, "password").Some? ==>
      r == CredentialReply(if "username" in d then d["username"].s else "", if "password" in d then d["password"].s else "",
                           UsernameOnly(d, devHeader), env, ldapBind, sign)
  {
    if "username" in d && d["username"].FOther? then DirectReply(500, None, None)
    else if "password" in d && d["password"].FOther? then DirectReply(500, None, None)
    else
      var u := if "username" in d then d["username"].s else "";
      var p := if "password" in d then d["password"].s else "";
      CredentialReply(u, p, UsernameOnly(d, devHeader), env, ldapBind, sign)
  }

  /**
   * A 200 carries a token signed for the name it echoes, and on the
   * username-only path that name passed the username pattern.
   */
  lemma DirectAuthSuccess(body: Body, devHeader: Option<string>, env: Option<string>,
                          ldapBind: (string, string) -> bool, sign: string -> string)
    ensures var r := DirectAuth(body, devHeader, env, ldapBind, sign);
      r.status == 200 ==> TruthyBody(body) && body.Object? && r.token.Some? && r.username.Some? && r.token == Some(sign(r.username.value))
    ensures var r := DirectAuth(body, devHeader, env, ldapBind, sign);
      body.Object? && r.status == 200 && UsernameOnly(body.fields, devHeader) ==>
      "username" in body.fields && body.fields["username"].FStr? && WellFormedUsername(Strip(body.fields["username"].s))
  {
  }

  /** Lowering a stripped name keeps it stripped. */
  lemma LowerStripped(raw: string)
    ensures Strip(Lower(Strip(raw))) == Lower(Strip(raw))
  {
    LowerKeepsEnds(Strip(raw));
    StripOfTrimmed(Lower(Strip(raw)));
  }

  /** Lowering keeps a text free of whitespace at both ends. */
  lemma LowerKeepsEnds(s: string)
    requires s == [] || (!IsPySpace(s[0]) && !IsPySpace(s[|s| - 1]))
    ensures var l := Lower(s); l == [] || (!IsPySpace(l[0]) && !IsPySpace(l[|l| - 1]))
  {
    if s != [] {
      LowerCharKeepsSpace(s[0]);
      LowerCharKeepsSpace(s[|s| - 1]);
    }
  }
}
