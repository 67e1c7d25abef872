/** The authentication controller: the token response, registration,
    login with its five-session cap, the `protect` middleware that admits a
    request only while its session is still listed, role restriction, the
    forgot-password placeholder and logout. */
module Auth {
  import opened Common
  import opened Text
  import opened Sessions
  import opened Crypto
  import opened UserModel
  import opened UserStore

  // ---------------------------------------------------------------------
  // Request metadata
  // ---------------------------------------------------------------------

  /** What the handlers read from the request besides its body: the
      `x-forwarded-for` and `user-agent` headers and the socket's address. */
  datatype Client = Client(forwardedFor: Option<string>, remoteAddress: string, userAgent: Option<string>)

  const UnknownDevice: string := "Unknown Device"

  /** `x-forwarded-for || socket.remoteAddress`. */
  function ClientIp(c: Client): (ip: string)
    ensures Truthy(c.forwardedFor) ==> ip == c.forwardedFor.value
    ensures !Truthy(c.forwardedFor) ==> ip == c.remoteAddress
  {
    OrElse(c.forwardedFor, c.remoteAddress)
  }

  /** `user-agent || 'Unknown Device'`: never empty. */
  function DeviceOf(c: Client): (d: string)
    ensures d != ""
    ensures Truthy(c.userAgent) ==> d == c.userAgent.value
    ensures !Truthy(c.userAgent) ==> d == UnknownDevice
  {
    OrElse(c.userAgent, UnknownDevice)
  }

  /** The session a login or registration from `c` at `now` records. */
  function NewSession(c: Client, sessionId: SessionId, now: int): (s: Session)
    ensures s.sessionId == sessionId && s.loginTime == now
    ensures s.device == DeviceOf(c) && s.ip == ClientIp(c)
  {
    Session(sessionId, now, DeviceOf(c), ClientIp(c))
  }

  // ---------------------------------------------------------------------
  // Token response
  // ---------------------------------------------------------------------

  /** `JWT_COOKIE_EXPIRE` (days) and whether `NODE_ENV` is `production`. */
  datatype Config = Config(cookieExpireDays: nat, production: bool)

  const MillisPerDay: nat := 24 * 60 * 60 * 1000

  datatype Cookie = Cookie(name: string, value: string, expires: int, httpOnly: bool, secure: bool, path: string)

  /** The user as the token response shows it: no password. */
  datatype PublicUser = PublicUser(id: UserId, email: string, firstName: string, role: Role)

  datatype TokenReply = TokenReply(token: string, authCookie: Cookie, statusCookie: Cookie, user: PublicUser)

  /** `sendTokenResponse`: signs a token for the session, sets it as the
      http-only `authToken` cookie and a script-readable `loggedIn` cookie
      with the same expiry, and drops the password from the document. */
  method SendTokenResponse(user: User, config: Config, sign: Signer, sessionId: SessionId, now: int)
    returns (reply: TokenReply)
    modifies user`password
    ensures user.password == Unselected
    ensures forall verify :: Agree(sign, verify) ==> verify(reply.token) == Some(Claims(user.base.id, sessionId))
    ensures var expires := now + config.cookieExpireDays * MillisPerDay;
      && reply.authCookie == Cookie("authToken", reply.token, expires, true, config.production, "/")
      && reply.statusCookie == Cookie("loggedIn", "true", expires, false, config.production, "/")
    ensures reply.user == PublicUser(user.base.id, user.base.email, user.base.firstName, user.base.role)
  {
    var token := user.GetSignedToken(sign, sessionId);
    var expires := now + config.cookieExpireDays * MillisPerDay;
    var optionsAuth := Cookie("authToken", token, expires, true, config.production, "/");
    var optionsStatus := Cookie("loggedIn", "true", expires, false, config.production, "/");
    user.ClearPassword();
    reply := TokenReply(token, optionsAuth, optionsStatus,
                        PublicUser(user.base.id, user.base.email, user.base.firstName, user.base.role));
  }

  // ---------------------------------------------------------------------
  // Registration
  // ---------------------------------------------------------------------

  /** A freshly created user after registration's save: one session, and
      tracking fields that describe it. */
  function Registered(doc: UserRecord, s: Session, now: int): (r: UserRecord)
    requires doc.sessions == []
    ensures r.sessions == [s]
    ensures r.lastActivity == Some(now) && r.currentDevice == s.device && r.currentIP == s.ip
    ensures forall k :: KeyOf(r, k) == KeyOf(doc, k)
    ensures ValidRecord(doc) ==> ValidRecord(r)
  {
    doc.(sessions := [s], lastActivity := Some(now), currentDevice := s.device, currentIP := s.ip)
  }

  /** Saving a document under its own keys never violates a unique index. */
  lemma SameKeysNoViolation(docs: seq<UserRecord>, i: nat, r: UserRecord)
    requires UniqueKeys(docs) && i < |docs|
    requires r.id == docs[i].id && r.username == docs[i].username && r.email == docs[i].email
    ensures Violated(docs, r, i).None?
  {
    assert forall k :: KeyOf(r, k) == KeyOf(docs[i], k);
    forall k, j | 0 <= j < |docs| && j != i ensures KeyOf(docs[j], k) != KeyOf(r, k) {
      if j < i {
        assert KeyOf(docs[j], k) != KeyOf(docs[i], k);
      } else {
        assert KeyOf(docs[i], k) != KeyOf(docs[j], k);
      }
    }
  }

  lemma AppendThenReplaceLast(docs: seq<UserRecord>, a: UserRecord, b: UserRecord)
    ensures (docs + [a])[|docs| := b] == docs + [b]
  {
  }

  /** The step register and login share: `user.save()` over the document
      at position `i` (the pre-save hook leaves an unmodified password
      alone), then the token response for the new session. */
  method SaveAndRespond(users: Users, i: nat, user: User, config: Config, sign: Signer,
                        sessionId: SessionId, now: int, salt: string)
    returns (reply: TokenReply)
    requires users.Valid() && i < |users.docs| && !user.passwordModified
    requires ValidRecord(user.Record())
    requires user.base.id == users.docs[i].id && user.base.username == users.docs[i].username
    requires user.base.email == users.docs[i].email
    modifies users, user`password, user`passwordModified
    ensures users.Valid()
    ensures users.docs == old(users.docs)[i := old(user.Record())]
    ensures forall verify :: Agree(sign, verify) ==> verify(reply.token) == Some(Claims(user.base.id, sessionId))
    ensures reply.user == PublicUser(user.base.id, user.base.email, user.base.firstName, user.base.role)
  {
    user.PreSave(salt);
    var saved := user.Record();
    SameKeysNoViolation(users.docs, i, saved);
    var _ := users.Put(i, saved);
    reply := SendTokenResponse(user, config, sign, sessionId, now);
  }

  /** `register`: validates and creates the user (400 on a validation
      error, 409 naming the first duplicated unique field), records the
      first session, saves without validation and answers 201 with a token
      for that session. */
  method Register(users: Users, reg: Registration, client: Client, config: Config, sign: Signer,
                  id: UserId, sessionId: SessionId, now: int, salt: string)
    returns (r: Response<TokenReply>)
    requires users.Valid() && IsCanonicalObjectId(id)
    modifies users
    ensures users.Valid()
    ensures !Acceptable(reg) ==> r == Failure(BadRequestStatus) && users.docs == old(users.docs)
    ensures Acceptable(reg) ==>
      var doc := CreateDocument(reg, id, now, salt).value;
      var dup := Violated(old(users.docs), doc, -1);
      && (dup.Some? ==> r == Conflict(dup.value.Field()) && users.docs == old(users.docs))
      && (dup.None? ==>
            && users.docs == old(users.docs) + [Registered(doc, NewSession(client, sessionId, now), now)]
            && r.Success? && r.code == CreatedStatus
            && r.value.user == PublicUser(id, doc.email, doc.firstName, DefaultRole)
            && forall verify :: Agree(sign, verify) ==> verify(r.value.token) == Some(Claims(id, sessionId)))
  {
    var created := CreateDocument(reg, id, now, salt);
    if created.None? {
      return Failure(BadRequestStatus);
    }
    r := Enroll(users, created.value, client, config, sign, sessionId, now, salt);
  }

  /** Registration once `User.create` has validated the fields: the insert
      (409 on a duplicated unique field), then the first session and the
      201 token response. */
  method Enroll(users: Users, doc: UserRecord, client: Client, config: Config, sign: Signer,
                sessionId: SessionId, now: int, salt: string)
    returns (r: Response<TokenReply>)
    requires users.Valid() && ValidRecord(doc) && doc.sessions == []
    modifies users
    ensures users.Valid()
    ensures var dup := Violated(old(users.docs), doc, -1);
      && (dup.Some? ==> r == Conflict(dup.value.Field()) && users.docs == old(users.docs))
      && (dup.None? ==>
            && users.docs == old(users.docs) + [Registered(doc, NewSession(client, sessionId, now), now)]
            && r.Success? && r.code == CreatedStatus
            && r.value.user == PublicUser(doc.id, doc.email, doc.firstName, doc.role)
            && forall verify :: Agree(sign, verify) ==> verify(r.value.token) == Some(Claims(doc.id, sessionId)))
  {
    var dup := users.Insert(doc);
    if dup.Some? {
      return Conflict(dup.value.Field());
    }
    var reply := FirstSession(users, doc, client, config, sign, sessionId, now, salt);
    AppendThenReplaceLast(old(users.docs), doc, Registered(doc, NewSession(client, sessionId, now), now));
    r := Success(CreatedStatus, reply);
  }

  /** Registration after the insert: the new document is loaded, gets its
      first session and tracking fields, is saved, and the token response
      is sent. */
  method FirstSession(users: Users, doc: UserRecord, client: Client, config: Config, sign: Signer,
                      sessionId: SessionId, now: int, salt: string)
    returns (reply: TokenReply)
    requires users.Valid() && |users.docs| >= 1 && users.docs[|users.docs| - 1] == doc && doc.sessions == []
    modifies users
    ensures users.Valid()
    ensures users.docs == old(users.docs)[|old(users.docs)| - 1 := Registered(doc, NewSession(client, sessionId, now), now)]
    ensures reply.user == PublicUser(doc.id, doc.email, doc.firstName, doc.role)
    ensures forall verify :: Agree(sign, verify) ==> verify(reply.token) == Some(Claims(doc.id, sessionId))
  {
    var user := new User.Load(doc, true);
    var s := NewSession(client, sessionId, now);
    user.PushSession(s);
    user.Track(now, s.device, s.ip);
    assert user.Record() == Registered(doc, s, now);
    reply := SaveAndRespond(users, |users.docs| - 1, user, config, sign, sessionId, now, salt);
  }

  // ---------------------------------------------------------------------
  // Login
  // ---------------------------------------------------------------------

  /** A user after a successful login with session `s`: `s` appended with
      the five-session cap, and the tracking fields describing `s`. */
  function LoggedIn(u: UserRecord, s: Session, now: int): (r: UserRecord)
    ensures r.sessions == PushCapped(u.sessions, s)
    ensures r.lastActivity == Some(now) && r.currentDevice == s.device && r.currentIP == s.ip
    ensures forall k :: KeyOf(r, k) == KeyOf(u, k)
    ensures r.password == u.password && r.role == u.role
  {
    u.(sessions := PushCapped(u.sessions, s), lastActivity := Some(now), currentDevice := s.device, currentIP := s.ip)
  }

  /** Logging in with a fresh session id keeps a user valid. */
  lemma LoggedInValid(u: UserRecord, s: Session, now: int)
    requires ValidRecord(u) && !HasSession(u.sessions, s.sessionId)
    ensures ValidRecord(LoggedIn(u, s, now))
  {
    PushCappedKeepsDistinct(u.sessions, s);
  }

  /** The user `login` would find for `email`: the query value goes through
      the schema's lowercase setter. */
  function FindLogin(docs: seq<UserRecord>, email: string): (r: Option<nat>)
    ensures r.None? <==> forall i :: 0 <= i < |docs| ==> docs[i].email != ToLower(email)
    ensures r.Some? ==> r.value < |docs| && docs[r.value].email == ToLower(email)
  {
    Find(docs, EmailKey, ToLower(email))
  }

  /** Whether `login` accepts these credentials. */
  predicate Authentic(docs: seq<UserRecord>, email: string, password: string)
    requires forall i :: 0 <= i < |docs| ==> docs[i].password.Stored?
  {
    var found := FindLogin(docs, email);
    found.Some? && Matches(password, docs[found.value].password.digest)
  }

  /** `login`: 400 without both credentials, 401 for an unknown email or a
      wrong password with nothing changed; otherwise the new session is
      appended (dropping the oldest beyond five), the tracking fields are
      updated, and the reply carries a token for the new session. */
  method Login(users: Users, email: Option<string>, password: Option<string>, client: Client,
               config: Config, sign: Signer, sessionId: SessionId, now: int, salt: string)
    returns (r: Response<TokenReply>)
    requires users.Valid()
    requires forall i :: 0 <= i < |users.docs| ==> !HasSession(users.docs[i].sessions, sessionId)
    modifies users
    ensures users.Valid()
    ensures !Truthy(email) || !Truthy(password) ==> r == Failure(BadRequestStatus) && users.docs == old(users.docs)
    ensures Truthy(email) && Truthy(password) && !Authentic(old(users.docs), email.value, password.value) ==>
      r == Failure(UnauthorizedStatus) && users.docs == old(users.docs)
    ensures Truthy(email) && Truthy(password) && Authentic(old(users.docs), email.value, password.value) ==>
      var i := FindLogin(old(users.docs), email.value).value;
      && users.docs == old(users.docs)[i := LoggedIn(old(users.docs)[i], NewSession(client, sessionId, now), now)]
      && r.Success? && r.code == OkStatus
      && forall verify :: Agree(sign, verify) ==> verify(r.value.token) == Some(Claims(old(users.docs)[i].id, sessionId))
  {
    if !Truthy(email) || !Truthy(password) {
      return Failure(BadRequestStatus);
    }
    var found := FindLogin(users.docs, email.value);
    if found.None? {
      return Failure(UnauthorizedStatus);
    }
    var i := found.value;
    var user := new User.Load(users.docs[i], true);
    if !user.MatchPassword(password.value) {
      return Failure(UnauthorizedStatus);
    }
    var reply := NextSession(users, i, user, client, config, sign, sessionId, now, salt);
    r := Success(OkStatus, reply);
  }

  /** Login after the password check: the new session is appended, the
      oldest dropped beyond five, the tracking fields set, the document
      saved and the token response sent. */
  method NextSession(users: Users, i: nat, user: User, client: Client, config: Config, sign: Signer,
                     sessionId: SessionId, now: int, salt: string)
    returns (reply: TokenReply)
    requires users.Valid() && i < |users.docs| && !HasSession(users.docs[i].sessions, sessionId)
    requires user.base == users.docs[i] && user.Record() == users.docs[i] && !user.passwordModified
    modifies users, user
    ensures users.Valid()
    ensures users.docs == old(users.docs)[i := LoggedIn(old(users.docs)[i], NewSession(client, sessionId, now), now)]
    ensures forall verify :: Agree(sign, verify) ==> verify(reply.token) == Some(Claims(old(users.docs)[i].id, sessionId))
  {
    var s := NewSession(client, sessionId, now);
    AppendCapped(user, s);
    user.Track(now, s.device, s.ip);
    assert user.Record() == LoggedIn(users.docs[i], s, now);
    LoggedInValid(users.docs[i], s, now);
    reply := SaveAndRespond(users, i, user, config, sign, sessionId, now, salt);
  }

  /** Login's `push`, then `shift` once the list has grown past five. */
  method AppendCapped(user: User, s: Session)
    modifies user`sessions
    ensures user.sessions == PushCapped(old(user.sessions), s)
  {
    user.PushSession(s);
    if |user.sessions| > MaxSessions {
      user.ShiftOldest();
    }
  }

  // ---------------------------------------------------------------------
  // protect
  // ---------------------------------------------------------------------

  /** Where `protect` finds the token: the `authToken` cookie if set,
      otherwise the second blank-separated word of an `Authorization`
      header that starts with `Bearer`; an empty token counts as none. */
  function ExtractToken(cookie: Option<string>, authorization: Option<string>): (t: Option<string>)
    ensures Truthy(cookie) ==> t == cookie
    ensures t.Some? ==> t.value != ""
    ensures !Truthy(cookie) && (authorization.None? || !StartsWith(authorization.value, "Bearer")) ==> t.None?
    ensures t.Some? ==> ' ' !in t.value || Truthy(cookie)
  {
    if Truthy(cookie) then cookie
    else if Truthy(authorization) && StartsWith(authorization.value, "Bearer") then
      var parts := SplitOn(authorization.value, ' ');
      if |parts| >= 2 && parts[1] != "" then Some(parts[1]) else None
    else None
  }

  /** A `Bearer <token>` header yields the token. */
  lemma BearerHeader(token: string)
    requires token != "" && ' ' !in token
    ensures ExtractToken(None, Some("Bearer " + token)) == Some(token)
  {
    var h := "Bearer " + token;
    assert h == "Bearer" + " " + token;
    SplitAfterWord("Bearer", token);
    SplitAlone(token, ' ');
    BearerParts(h, token, []);
  }

  /** So does a header with more words after the token. */
  lemma BearerHeaderMore(token: string, rest: string)
    requires token != "" && ' ' !in token
    ensures ExtractToken(None, Some("Bearer " + token + " " + rest)) == Some(token)
  {
    var h := "Bearer " + token + " " + rest;
    assert h == "Bearer" + " " + (token + " " + rest);
    SplitAfterWord("Bearer", token + " " + rest);
    SplitAfterWord(token, rest);
    BearerParts(h, token, SplitOn(rest, ' '));
  }

  /** A `Bearer` header whose second word is `token` yields `token`. */
  lemma BearerParts(h: string, token: string, more: seq<string>)
    requires token != ""
    requires SplitOn(h, ' ') == ["Bearer", token] + more
    ensures ExtractToken(None, Some(h)) == Some(token)
  {
    var parts := SplitOn(h, ' ');
    assert parts[0] == "Bearer";
    assert StartsWith(h, "Bearer") by {
      JoinSplit(h, ' ');
      assert parts == ["Bearer"] + parts[1..];
      JoinCons("Bearer", parts[1..], ' ');
    }
  }

  /** Splitting a word without blanks, a blank and the rest. */
  lemma SplitAfterWord(w: string, rest: string)
    requires ' ' !in w
    ensures SplitOn(w + " " + rest, ' ') == [w] + SplitOn(rest, ' ')
  {
    var h := w + " " + rest;
    assert h == w + [' '] + rest;
    IndexOfAfter(w, ' ', rest);
    assert h[..|w|] == w;
    assert h[|w| + 1..] == rest;
  }

  /** The authenticated request: its user, read without the password, and
      the session id from its token. */
  datatype Principal = Principal(user: UserRecord, sessionId: SessionId)

  /** A middleware verdict: call the next handler, or answer with a status. */
  datatype Gate = Admit(principal: Principal) | Deny(code: nat)

  /** `protect`: admits a request exactly when it carries a token that
      verifies, whose user exists, and whose session id is still in that
      user's list; every refusal is a 401. */
  function Protect(docs: seq<UserRecord>, cookie: Option<string>, authorization: Option<string>, verify: Verifier): (g: Gate)
    ensures g.Deny? ==> g.code == UnauthorizedStatus
    ensures g.Admit? ==>
      && ExtractToken(cookie, authorization).Some?
      && verify(ExtractToken(cookie, authorization).value) == Some(Claims(g.principal.user.id, g.principal.sessionId))
      && HasSession(g.principal.user.sessions, g.principal.sessionId)
      && g.principal.user.password == Unselected
      && Find(docs, IdKey, g.principal.user.id).Some?
      && g.principal.user == docs[Find(docs, IdKey, g.principal.user.id).value].(password := Unselected)
    ensures var token := ExtractToken(cookie, authorization);
      token.Some? && verify(token.value).Some? ==>
      var c := verify(token.value).value;
      var found := Find(docs, IdKey, c.id);
      found.Some? && HasSession(docs[found.value].sessions, c.sessionId) ==>
        g == Admit(Principal(docs[found.value].(password := Unselected), c.sessionId))
  {
    match ExtractToken(cookie, authorization)
    case None => Deny(UnauthorizedStatus)
    case Some(token) =>
      match verify(token)
      case None => Deny(UnauthorizedStatus)
      case Some(claims) =>
        match Find(docs, IdKey, claims.id)
        case None => Deny(UnauthorizedStatus)
        case Some(i) =>
          var user := docs[i].(password := Unselected);
          if HasSession(user.sessions, claims.sessionId) then Admit(Principal(user, claims.sessionId))
          else Deny(UnauthorizedStatus)
  }

  /** The token a login or registration hands out admits its holder, as a
      cookie or as a `Bearer` header, with the new session as the request's
      session. */
  lemma IssuedTokenAdmits(docs: seq<UserRecord>, i: nat, sign: Signer, verify: Verifier, s: Session, now: int)
    requires Agree(sign, verify) && UniqueKeys(docs) && i < |docs|
    ensures var after := docs[i := LoggedIn(docs[i], s, now)];
      var token := sign(Claims(docs[i].id, s.sessionId));
      Protect(after, Some(token), None, verify) == Admit(Principal(after[i].(password := Unselected), s.sessionId))
  {
    var after := docs[i := LoggedIn(docs[i], s, now)];
    var token := sign(Claims(docs[i].id, s.sessionId));
    assert verify(token) == Some(Claims(docs[i].id, s.sessionId));
    assert UniqueKeys(after) by {
      forall a, b, k | 0 <= a < b < |after| ensures KeyOf(after[a], k) != KeyOf(after[b], k) {
        assert KeyOf(after[a], k) == KeyOf(docs[a], k) && KeyOf(after[b], k) == KeyOf(docs[b], k);
      }
    }
    FindUnique(after, IdKey, docs[i].id, i);
    assert HasSession(after[i].sessions, s.sessionId) by {
      var ss := after[i].sessions;
      assert ss[|ss| - 1] == s;
    }
  }

  /** Once a session id is pulled from a user's list, no token carrying it
      is admitted any more, however it is presented. */
  lemma RevokedTokenDenied(docs: seq<UserRecord>, i: nat, sid: SessionId, verify: Verifier,
                           cookie: Option<string>, authorization: Option<string>)
    requires UniqueKeys(docs) && i < |docs|
    requires var t := ExtractToken(cookie, authorization);
      t.Some? && verify(t.value) == Some(Claims(docs[i].id, sid))
    ensures var after := docs[i := docs[i].(sessions := WithoutSession(docs[i].sessions, sid))];
      Protect(after, cookie, authorization, verify) == Deny(UnauthorizedStatus)
  {
    var after := docs[i := docs[i].(sessions := WithoutSession(docs[i].sessions, sid))];
    WithoutSessionChanges(docs[i].sessions, sid);
    assert UniqueKeys(after) by {
      forall a, b, k | 0 <= a < b < |after| ensures KeyOf(after[a], k) != KeyOf(after[b], k) {
        assert KeyOf(after[a], k) == KeyOf(docs[a], k) && KeyOf(after[b], k) == KeyOf(docs[b], k);
      }
    }
    FindUnique(after, IdKey, docs[i].id, i);
  }

  /** A sixth login with five sessions listed locks out the token of the
      oldest session and only that one. */
  lemma SixthLoginLocksOutOldest(docs: seq<UserRecord>, i: nat, sign: Signer, verify: Verifier, s: Session, now: int)
    requires Agree(sign, verify) && UniqueKeys(docs) && i < |docs|
    requires |docs[i].sessions| == MaxSessions && DistinctIds(docs[i].sessions)
    requires !HasSession(docs[i].sessions, s.sessionId)
    ensures var after := docs[i := LoggedIn(docs[i], s, now)];
      var oldest := sign(Claims(docs[i].id, docs[i].sessions[0].sessionId));
      Protect(after, Some(oldest), None, verify) == Deny(UnauthorizedStatus)
    ensures var after := docs[i := LoggedIn(docs[i], s, now)];
      forall k :: 1 <= k < MaxSessions ==>
        Protect(after, Some(sign(Claims(docs[i].id, docs[i].sessions[k].sessionId))), None, verify).Admit?
  {
    var after := docs[i := LoggedIn(docs[i], s, now)];
    SixthLoginEvictsOldest(docs[i].sessions, s);
    assert UniqueKeys(after) by {
      forall a, b, k | 0 <= a < b < |after| ensures KeyOf(after[a], k) != KeyOf(after[b], k) {
        assert KeyOf(after[a], k) == KeyOf(docs[a], k) && KeyOf(after[b], k) == KeyOf(docs[b], k);
      }
    }
    FindUnique(after, IdKey, docs[i].id, i);
    var oldest := sign(Claims(docs[i].id, docs[i].sessions[0].sessionId));
    assert verify(oldest) == Some(Claims(docs[i].id, docs[i].sessions[0].sessionId));
    forall k | 1 <= k < MaxSessions
      ensures Protect(after, Some(sign(Claims(docs[i].id, docs[i].sessions[k].sessionId))), None, verify).Admit?
    {
      var c := Claims(docs[i].id, docs[i].sessions[k].sessionId);
      assert verify(sign(c)) == Some(c);
    }
  }

  // ---------------------------------------------------------------------
  // restrictTo, forgotPassword, logout
  // ---------------------------------------------------------------------

  /** `restrictTo(...roles)`: `None` lets the request through, otherwise
      the refusal's status. */
  function RestrictTo(roles: seq<Role>, role: Role): (refusal: Option<nat>)
    ensures refusal.None? <==> role in roles
    ensures refusal.Some? ==> refusal.value == ForbiddenStatus
  {
    if role in roles then None else Some(ForbiddenStatus)
  }

  /** Only an admin passes `restrictTo('admin')`. */
  lemma AdminOnly(role: Role)
    ensures RestrictTo([AdminRole], role).None? <==> role == AdminRole
  {
  }

  /** `forgotPassword`: a placeholder that refuses a request with neither
      email nor phone and otherwise always reports success. */
  function ForgotPassword(email: Option<string>, phone: Option<string>): (r: Response<()>)
    ensures r.Status() == BadRequestStatus <==> !Truthy(email) && !Truthy(phone)
    ensures r.Status() != BadRequestStatus ==> r == Success(OkStatus, ())
  {
    if !Truthy(email) && !Truthy(phone) then Failure(BadRequestStatus) else Success(OkStatus, ())
  }

  /** How long the cookies logout overwrites stay set. */
  const ClearedCookieMillis: nat := 10 * 1000

  /** `logout`: pulls the request's session from its user and overwrites
      both cookies with `'none'`. */
  method Logout(users: Users, p: Principal, now: int) returns (r: Response<(Cookie, Cookie)>)
    requires users.Valid()
    modifies users
    ensures users.Valid()
    ensures Find(old(users.docs), IdKey, p.user.id).None? ==> users.docs == old(users.docs)
    ensures Find(old(users.docs), IdKey, p.user.id).Some? ==>
      var i := Find(old(users.docs), IdKey, p.user.id).value;
      users.docs == old(users.docs)[i := old(users.docs)[i].(sessions := WithoutSession(old(users.docs)[i].sessions, p.sessionId))]
    ensures r == Success(OkStatus, (Cookie("authToken", "none", now + ClearedCookieMillis, true, false, "/"),
                                    Cookie("loggedIn", "none", now + ClearedCookieMillis, false, false, "/")))
  {
    var _ := users.PullSession(p.user.id, p.sessionId);
    var authCookie := Cookie("authToken", "none", now + ClearedCookieMillis, true, false, "/");
    var statusCookie := Cookie("loggedIn", "none", now + ClearedCookieMillis, false, false, "/");
    r := Success(OkStatus, (authCookie, statusCookie));
  }
}
