/** The user controller: a user's own profile and sessions (listing,
    remote revocation, profile update, self-deletion) and the admin
    operations on other users (the user list with its activity status,
    deletion with its cascade, promotion to admin). */
module Account {
  import opened Common
  import opened Text
  import opened Sessions
  import opened Crypto
  import opened UserModel
  import opened UserStore
  import opened Auth
  import opened Orders

  // ---------------------------------------------------------------------
  // getSessions, getMe
  // ---------------------------------------------------------------------

  datatype SessionsReply = SessionsReply(count: nat, data: seq<SessionView>)

  /** `getSessions`: one view per stored session, newest login first, the
      request's own session marked current. */
  function GetSessions(p: Principal): (r: SessionsReply)
    ensures r.count == |r.data| == |p.user.sessions|
    ensures forall v :: v in r.data ==> (v.isCurrent <==> v.id == p.sessionId)
    ensures forall i, j :: 0 <= i < j < |r.data| ==> r.data[i].loginTime >= r.data[j].loginTime
  {
    ListingMarksCurrent(p.user.sessions, p.sessionId);
    SessionsReply(|p.user.sessions|, Listing(p.user.sessions, p.sessionId))
  }

  datatype MeReply = MeReply(user: UserRecord, sessions: seq<SessionView>)

  /** `getMe`: the request's user (read without its password) with its
      sessions replaced by the same listing. */
  function GetMe(p: Principal): (r: MeReply)
    ensures r.user == p.user
    ensures |r.sessions| == |p.user.sessions|
    ensures forall v :: v in r.sessions ==> (v.isCurrent <==> v.id == p.sessionId)
  {
    MeReply(p.user, GetSessions(p).data)
  }

  // ---------------------------------------------------------------------
  // logoutSpecificSession
  // ---------------------------------------------------------------------

  /** `logoutSpecificSession`: the request's own session cannot be revoked
      here (403); an id the user does not have is 404 with nothing changed;
      otherwise that id's entries are pulled and the others kept. */
  method LogoutSpecificSession(users: Users, p: Principal, target: SessionId) returns (r: Response<()>)
    requires users.Valid()
    modifies users
    ensures users.Valid()
    ensures target == p.sessionId ==> r == Failure(ForbiddenStatus) && users.docs == old(users.docs)
    ensures target != p.sessionId ==>
      match Find(old(users.docs), IdKey, p.user.id)
      case None => r == Failure(NotFoundStatus) && users.docs == old(users.docs)
      case Some(i) =>
        if HasSession(old(users.docs)[i].sessions, target) then
          && r == Success(OkStatus, ())
          && users.docs == old(users.docs)[i := old(users.docs)[i].(sessions := WithoutSession(old(users.docs)[i].sessions, target))]
        else
          r == Failure(NotFoundStatus) && users.docs == old(users.docs)
  {
    if target == p.sessionId {
      return Failure(ForbiddenStatus);
    }
    ghost var before := users.docs;
    var modified := users.PullSession(p.user.id, target);
    if Find(before, IdKey, p.user.id).Some? {
      var i := Find(before, IdKey, p.user.id).value;
      WithoutSessionChanges(before[i].sessions, target);
      if !HasSession(before[i].sessions, target) {
        assert before[i].(sessions := before[i].sessions) == before[i];
      }
    }
    if !modified {
      return Failure(NotFoundStatus);
    }
    r := Success(OkStatus, ());
  }

  /** Revoking another session never logs out the current one: the current
      session is listed afterwards exactly when it was before. */
  lemma RevocationKeepsCurrent(s: seq<Session>, current: SessionId, target: SessionId)
    requires target != current
    ensures HasSession(WithoutSession(s, target), current) <==> HasSession(s, current)
  {
    var r := WithoutSession(s, target);
    WithoutSessionMembers(s, target);
    if HasSession(s, current) {
      var k :| 0 <= k < |s| && s[k].sessionId == current;
      assert s[k] in r;
      var j :| 0 <= j < |r| && r[j] == s[k];
    }
    if HasSession(r, current) {
      var k :| 0 <= k < |r| && r[k].sessionId == current;
      assert r[k] in s;
      var j :| 0 <= j < |s| && s[j] == r[k];
    }
  }

  // ---------------------------------------------------------------------
  // updateMe
  // ---------------------------------------------------------------------

  /** The `updateFields` object of a profile update. */
  datatype ProfileFields = ProfileFields(
    firstName: Option<string>,
    lastName: Option<string>,
    username: Option<string>,
    phone: Option<string>,
    email: Option<string>,
    newPassword: Option<string>)

  /** The `updates` object the handler collects: a field for each truthy
      profile field, the new password aside. */
  datatype ProfileUpdate = ProfileUpdate(
    firstName: Option<string>,
    lastName: Option<string>,
    username: Option<string>,
    phone: Option<string>,
    email: Option<string>)
  {
    predicate IsEmpty() {
      firstName.None? && lastName.None? && username.None? && phone.None? && email.None?
    }
  }

  /** The `updates` object for these fields. */
  function Collected(f: ProfileFields): ProfileUpdate {
    ProfileUpdate(Kept(f.firstName), Kept(f.lastName), Kept(f.username), Kept(f.phone), Kept(f.email))
  }

  /** Collects the truthy profile fields into the `updates` object, one
      field at a time. */
  method CollectUpdates(f: ProfileFields) returns (u: ProfileUpdate)
    ensures u == Collected(f)
    ensures u.IsEmpty() <==> !(Truthy(f.firstName) || Truthy(f.lastName) || Truthy(f.username)
                              || Truthy(f.phone) || Truthy(f.email))
  {
    u := ProfileUpdate(None, None, None, None, None);
    if Truthy(f.firstName) { u := u.(firstName := f.firstName); }
    if Truthy(f.lastName) { u := u.(lastName := f.lastName); }
    if Truthy(f.username) { u := u.(username := f.username); }
    if Truthy(f.phone) { u := u.(phone := f.phone); }
    if Truthy(f.email) { u := u.(email := f.email); }
  }

  /** `findByIdAndUpdate(id, updates)`: the sent fields overwrite the
      stored ones, through the schema's setters (username lowercased and
      trimmed, email lowercased); nothing else changes. */
  function Apply(r: UserRecord, u: ProfileUpdate): (a: UserRecord)
    ensures a.id == r.id && a.password == r.password && a.sessions == r.sessions && a.role == r.role
    ensures a.createdAt == r.createdAt && a.lastActivity == r.lastActivity
    ensures u.IsEmpty() ==> a == r
    ensures u.username.Some? ==> a.username == NormalizeUsername(u.username.value)
    ensures u.username.None? ==> a.username == r.username
    ensures u.email.Some? ==> a.email == ToLower(u.email.value)
    ensures u.email.None? ==> a.email == r.email
  {
    r.(firstName := if u.firstName.Some? then u.firstName.value else r.firstName,
       lastName := if u.lastName.Some? then u.lastName else r.lastName,
       username := if u.username.Some? then NormalizeUsername(u.username.value) else r.username,
       phone := if u.phone.Some? then u.phone else r.phone,
       email := if u.email.Some? then ToLower(u.email.value) else r.email)
  }

  /** The update validators on the written document: the username and email
      patterns (the first name, when written, is a non-empty string). */
  predicate UpdateValid(a: UserRecord) {
    ValidUsername(a.username) && ValidEmail(a.email)
  }

  /** The profile the reply carries: read again without the password and
      without the sessions. */
  function Profile(r: UserRecord): (p: UserRecord)
    ensures p.password == Unselected && p.sessions == []
    ensures p.id == r.id && p.username == r.username && p.email == r.email
  {
    r.(password := Unselected, sessions := [])
  }

  /** What follows a correct current password, in the order the handler
      decides: a short new password (400); a new password alone is saved,
      the other fields not written; with neither new password nor fields,
      400; then the validators (400), the unique indexes (409), and the
      write. */
  ghost predicate ProfileOutcome(before: seq<UserRecord>, i: nat, f: ProfileFields, salt: string,
                                 r: Response<UserRecord>, after: seq<UserRecord>)
    requires i < |before|
  {
    if Truthy(f.newPassword) && |f.newPassword.value| < MinPasswordLength then
      r == Failure(BadRequestStatus) && after == before
    else if Truthy(f.newPassword) then
      && after == before[i := before[i].(password := Stored(Hash(f.newPassword.value, salt)))]
      && r == Success(OkStatus, Profile(after[i]))
    else if Collected(f).IsEmpty() then
      r == Failure(BadRequestStatus) && after == before
    else
      var a := Apply(before[i], Collected(f));
      if !UpdateValid(a) then r == Failure(BadRequestStatus) && after == before
      else match Violated(before, a, i)
        case Some(k) => r == Conflict(k.Field()) && after == before
        case None => after == before[i := a] && r == Success(OkStatus, Profile(a))
  }

  /** `updateMe`: 400 without the current password or the fields, 500 when
      the request's user is gone (the handler dereferences the missing
      document), 401 for a wrong current password; then `ProfileOutcome`. */
  method UpdateMe(users: Users, p: Principal, password: Option<string>, fields: Option<ProfileFields>, salt: string)
    returns (r: Response<UserRecord>)
    requires users.Valid()
    modifies users
    ensures users.Valid()
    ensures !Truthy(password) || fields.None? ==> r == Failure(BadRequestStatus) && users.docs == old(users.docs)
    ensures Truthy(password) && fields.Some? ==>
      match Find(old(users.docs), IdKey, p.user.id)
      case None => r == Failure(ServerErrorStatus) && users.docs == old(users.docs)
      case Some(i) =>
        if !Matches(password.value, old(users.docs)[i].password.digest) then
          r == Failure(UnauthorizedStatus) && users.docs == old(users.docs)
        else
          ProfileOutcome(old(users.docs), i, fields.value, salt, r, users.docs)
  {
    if !Truthy(password) || fields.None? {
      return Failure(BadRequestStatus);
    }
    var found := Find(users.docs, IdKey, p.user.id);
    if found.None? {
      return Failure(ServerErrorStatus);
    }
    var i := found.value;
    var user := new User.Load(users.docs[i], true);
    if !user.MatchPassword(password.value) {
      return Failure(UnauthorizedStatus);
    }
    var f := fields.value;
    var updates := CollectUpdates(f);
    if Truthy(f.newPassword) {
      if |f.newPassword.value| < MinPasswordLength {
        return Failure(BadRequestStatus);
      }
      r := ChangePassword(users, i, user, f.newPassword.value, salt);
    } else if !updates.IsEmpty() {
      r := WriteProfile(users, i, updates);
    } else {
      return Failure(BadRequestStatus);
    }
  }

  /** The password branch: `user.password = newPassword`, then `save()`,
      whose hook hashes it. */
  method ChangePassword(users: Users, i: nat, user: User, newPassword: string, salt: string)
    returns (r: Response<UserRecord>)
    requires users.Valid() && i < |users.docs| && |newPassword| >= MinPasswordLength
    requires user.base == users.docs[i] && user.Record() == users.docs[i] && !user.passwordModified
    modifies users, user`password, user`passwordModified
    ensures users.Valid()
    ensures users.docs == old(users.docs)[i := old(users.docs)[i].(password := Stored(Hash(newPassword, salt)))]
    ensures r == Success(OkStatus, Profile(users.docs[i]))
  {
    user.SetPassword(newPassword);
    user.PreSave(salt);
    var saved := user.Record();
    assert saved == users.docs[i].(password := Stored(Hash(newPassword, salt)));
    SameKeysNoViolation(users.docs, i, saved);
    var _ := users.Put(i, saved);
    r := Success(OkStatus, Profile(saved));
  }

  /** The fields branch: `findByIdAndUpdate` with the update validators. */
  method WriteProfile(users: Users, i: nat, updates: ProfileUpdate) returns (r: Response<UserRecord>)
    requires users.Valid() && i < |users.docs|
    requires updates.firstName.Some? ==> updates.firstName.value != ""
    modifies users
    ensures users.Valid()
    ensures var a := Apply(old(users.docs)[i], updates);
      if !UpdateValid(a) then r == Failure(BadRequestStatus) && users.docs == old(users.docs)
      else match Violated(old(users.docs), a, i)
        case Some(k) => r == Conflict(k.Field()) && users.docs == old(users.docs)
        case None => users.docs == old(users.docs)[i := a] && r == Success(OkStatus, Profile(a))
  {
    var a := Apply(users.docs[i], updates);
    if !UpdateValid(a) {
      return Failure(BadRequestStatus);
    }
    var dup := users.Put(i, a);
    if dup.Some? {
      return Conflict(dup.value.Field());
    }
    r := Success(OkStatus, Profile(a));
  }

  /** After a password change the stored hash accepts the new password and
      exactly the passwords bcrypt reads as the same 72 bytes: among them
      the new password followed by a NUL and by itself again, and, for a
      short ASCII password and a candidate without NUL characters, no other.
      The user's sessions are kept. */
  lemma PasswordChangeAuthenticates(docs: seq<UserRecord>, i: nat, newPassword: string, salt: string, q: string)
    requires i < |docs|
    ensures var after := docs[i := docs[i].(password := Stored(Hash(newPassword, salt)))];
      && Matches(newPassword, after[i].password.digest)
      && (Matches(q, after[i].password.digest) <==> PasswordKey(q) == PasswordKey(newPassword))
      && Matches(newPassword + "\0" + newPassword, after[i].password.digest)
      && (IsAscii(newPassword) && |newPassword| < MaxPasswordBytes && '\0' !in newPassword && '\0' !in q ==>
            (Matches(q, after[i].password.digest) <==> q == newPassword))
      && after[i].sessions == docs[i].sessions
  {
    NulRepeatAccepted(newPassword, salt);
    if IsAscii(newPassword) && |newPassword| < MaxPasswordBytes && '\0' !in newPassword && '\0' !in q {
      ShortAsciiPasswordExact(newPassword, q, salt);
    }
  }

  /** After an email change, a login with the address as typed finds the
      updated user. */
  lemma UpdatedEmailLogsIn(docs: seq<UserRecord>, i: nat, f: ProfileFields)
    requires i < |docs| && Truthy(f.email)
    requires UniqueKeys(docs[i := Apply(docs[i], Collected(f))])
    ensures FindLogin(docs[i := Apply(docs[i], Collected(f))], f.email.value) == Some(i)
  {
    var after := docs[i := Apply(docs[i], Collected(f))];
    assert KeyOf(after[i], EmailKey) == ToLower(f.email.value);
    FindUnique(after, EmailKey, ToLower(f.email.value), i);
  }

  // ---------------------------------------------------------------------
  // getUsers: the activity status
  // ---------------------------------------------------------------------

  /** Ten minutes. */
  const InactiveThresholdMillis: int := 10 * 60 * 1000

  /** When the user was last seen: the last activity, or the creation time
      when none is recorded. */
  function LastSeen(u: UserRecord): int {
    if u.lastActivity.Some? then u.lastActivity.value else u.createdAt
  }

  predicate IsActive(u: UserRecord, now: int) {
    now - LastSeen(u) < InactiveThresholdMillis
  }

  /** The status label of the user list. */
  function ActivityStatus(u: UserRecord, now: int): (s: string)
    ensures s == "Active" <==> IsActive(u, now)
    ensures s == "Active" || s == "Inactive"
  {
    if now - LastSeen(u) < InactiveThresholdMillis then "Active" else "Inactive"
  }

  /** A user who has just logged in is active, and stays so for ten
      minutes; an inactive user stays inactive until seen again. */
  lemma LoginMakesActive(u: UserRecord, s: Session, now: int, later: int)
    requires now <= later < now + InactiveThresholdMillis
    ensures ActivityStatus(LoggedIn(u, s, now), later) == "Active"
  {
  }

  lemma InactiveStaysInactive(u: UserRecord, now: int, later: int)
    requires now <= later && !IsActive(u, now)
    ensures ActivityStatus(u, later) == "Inactive"
  {
  }

  datatype UserRow = UserRow(
    id: UserId,
    firstName: string,
    lastName: Option<string>,
    email: string,
    profilePic: string,
    currentDevice: string,
    createdAt: int,
    lastSeen: int,
    sessionStatus: string)

  function RowOf(u: UserRecord, now: int): UserRow {
    UserRow(u.id, u.firstName, u.lastName, u.email, u.profilePic, u.currentDevice, u.createdAt,
            LastSeen(u), ActivityStatus(u, now))
  }

  /** `getUsers`: one row per user who is not an admin, in collection
      order. */
  function UserRows(docs: seq<UserRecord>, now: int): (rows: seq<UserRow>)
    ensures |rows| <= |docs|
  {
    if docs == [] then []
    else if docs[0].role == AdminRole then UserRows(docs[1..], now)
    else [RowOf(docs[0], now)] + UserRows(docs[1..], now)
  }

  /** The list holds a row for exactly the users who are not admins. */
  lemma {:induction false} UserRowsMembers(docs: seq<UserRecord>, now: int)
    ensures forall u :: u in docs && u.role != AdminRole ==> RowOf(u, now) in UserRows(docs, now)
    ensures forall row :: row in UserRows(docs, now) ==>
      exists u :: u in docs && u.role != AdminRole && row == RowOf(u, now)
  {
    if docs != [] {
      UserRowsMembers(docs[1..], now);
      assert docs == [docs[0]] + docs[1..];
      forall row | row in UserRows(docs, now)
        ensures exists u :: u in docs && u.role != AdminRole && row == RowOf(u, now)
      {
        if docs[0].role != AdminRole && row == RowOf(docs[0], now) {
          assert docs[0] in docs;
        } else {
          assert row in UserRows(docs[1..], now);
          var u :| u in docs[1..] && u.role != AdminRole && row == RowOf(u, now);
          assert u in docs;
        }
      }
    }
  }

  // ---------------------------------------------------------------------
  // deleteUser, deleteMyAccount
  // ---------------------------------------------------------------------

  /** `deleteUser`: 400 for an id that is not an object id, which is
      otherwise looked up as the object id it spells; 404 for an unknown
      user, 403 for an admin, with nothing deleted in each case;
      otherwise the user's orders and then the user are deleted, and the
      reply names the email. */
  method DeleteUser(users: Users, orders: OrderStore, id: string) returns (r: Response<string>)
    requires users.Valid() && orders.Valid()
    modifies users, orders
    ensures users.Valid() && orders.Valid()
    ensures !IsValidObjectId(id) ==>
      r == Failure(BadRequestStatus) && users.docs == old(users.docs) && orders.orders == old(orders.orders)
    ensures IsValidObjectId(id) ==>
      match Find(old(users.docs), IdKey, CastObjectId(id))
      case None =>
        r == Failure(NotFoundStatus) && users.docs == old(users.docs) && orders.orders == old(orders.orders)
      case Some(i) =>
        if old(users.docs)[i].role == AdminRole then
          r == Failure(ForbiddenStatus) && users.docs == old(users.docs) && orders.orders == old(orders.orders)
        else
          && r == Success(OkStatus, old(users.docs)[i].email)
          && users.docs == old(users.docs)[..i] + old(users.docs)[i + 1..]
          && orders.orders == WithoutCustomer(old(orders.orders), old(users.docs)[i].email)
  {
    if !IsValidObjectId(id) {
      return Failure(BadRequestStatus);
    }
    var key := CastObjectId(id);
    var found := Find(users.docs, IdKey, key);
    if found.None? {
      return Failure(NotFoundStatus);
    }
    var target := users.docs[found.value];
    if target.role == AdminRole {
      return Failure(ForbiddenStatus);
    }
    var _ := orders.DeleteByCustomer(target.email);
    var _ := users.Delete(key);
    r := Success(OkStatus, target.email);
  }

  /** `deleteMyAccount`: the request's user's orders and document are
      deleted and both cookies are overwritten with `'none'`. */
  method DeleteMyAccount(users: Users, orders: OrderStore, p: Principal, now: int)
    returns (r: Response<(Cookie, Cookie)>)
    requires users.Valid() && orders.Valid()
    modifies users, orders
    ensures users.Valid() && orders.Valid()
    ensures orders.orders == WithoutCustomer(old(orders.orders), p.user.email)
    ensures Find(old(users.docs), IdKey, p.user.id).None? ==> users.docs == old(users.docs)
    ensures Find(old(users.docs), IdKey, p.user.id).Some? ==>
      var i := Find(old(users.docs), IdKey, p.user.id).value;
      users.docs == old(users.docs)[..i] + old(users.docs)[i + 1..]
    ensures r == Success(OkStatus, (Cookie("authToken", "none", now + ClearedCookieMillis, true, false, "/"),
                                    Cookie("loggedIn", "none", now + ClearedCookieMillis, false, false, "/")))
  {
    var _ := orders.DeleteByCustomer(p.user.email);
    var _ := users.Delete(p.user.id);
    var authCookie := Cookie("authToken", "none", now + ClearedCookieMillis, true, false, "/");
    var statusCookie := Cookie("loggedIn", "none", now + ClearedCookieMillis, false, false, "/");
    r := Success(OkStatus, (authCookie, statusCookie));
  }

  /** A deleted account's session tokens are no longer admitted. */
  lemma DeletedUserDenied(docs: seq<UserRecord>, i: nat, verify: Verifier,
                          cookie: Option<string>, authorization: Option<string>)
    requires UniqueKeys(docs) && i < |docs|
    requires var t := ExtractToken(cookie, authorization);
      t.Some? && verify(t.value).Some? && verify(t.value).value.id == docs[i].id
    ensures Protect(docs[..i] + docs[i + 1..], cookie, authorization, verify) == Deny(UnauthorizedStatus)
  {
    var rest := docs[..i] + docs[i + 1..];
    forall j | 0 <= j < |rest| ensures rest[j].id != docs[i].id {
      var k := if j < i then j else j + 1;
      assert rest[j] == docs[k];
      assert KeyOf(docs[k], IdKey) != KeyOf(docs[i], IdKey);
    }
  }

  // ---------------------------------------------------------------------
  // makeAdmin
  // ---------------------------------------------------------------------

  datatype AdminReply = AdminReply(id: UserId, name: string, email: string, role: Role)

  /** The value the promotion query matches: the handler trims and
      lowercases the address, and the schema's setter lowercases it once
      more. */
  function PromotionKey(email: string): (k: string)
    ensures k == ToLower(Trim(email))
  {
    ToLowerIdempotent(Trim(email));
    ToLower(ToLower(Trim(email)))
  }

  /** Normalising an already normalised address changes nothing, so any
      spelling that trims and lowercases to a stored address reaches it. */
  lemma PromotionKeyCanonical(email: string)
    ensures PromotionKey(PromotionKey(email)) == PromotionKey(email)
  {
    var k := ToLower(Trim(email));
    TrimIdempotent(email);
    TrimLowerCommute(Trim(email));
    ToLowerIdempotent(Trim(email));
    assert Trim(k) == ToLower(Trim(Trim(email)));
  }

  /** The name the reply shows: first and last name joined by a blank, a
      missing last name printed as `undefined`. */
  function DisplayName(first: string, last: Option<string>): (n: string)
    ensures |n| > |first| && n[..|first|] == first && n[|first|] == ' '
    ensures last.Some? ==> n[|first| + 1..] == last.value
  {
    first + " " + (if last.Some? then last.value else "undefined")
  }

  /** `makeAdmin`: 403 unless the caller is an admin, 400 without an email,
      404 when no user has it; otherwise that user's role becomes admin and
      nothing else changes. */
  method MakeAdmin(users: Users, caller: Principal, email: Option<string>) returns (r: Response<AdminReply>)
    requires users.Valid()
    modifies users
    ensures users.Valid()
    ensures caller.user.role != AdminRole ==> r == Failure(ForbiddenStatus) && users.docs == old(users.docs)
    ensures caller.user.role == AdminRole && !Truthy(email) ==>
      r == Failure(BadRequestStatus) && users.docs == old(users.docs)
    ensures caller.user.role == AdminRole && Truthy(email) ==>
      match Find(old(users.docs), EmailKey, PromotionKey(email.value))
      case None => r == Failure(NotFoundStatus) && users.docs == old(users.docs)
      case Some(i) =>
        var u := old(users.docs)[i];
        && users.docs == old(users.docs)[i := u.(role := AdminRole)]
        && r == Success(OkStatus, AdminReply(u.id, DisplayName(u.firstName, u.lastName), u.email, AdminRole))
  {
    if caller.user.role != AdminRole {
      return Failure(ForbiddenStatus);
    }
    if !Truthy(email) {
      return Failure(BadRequestStatus);
    }
    var found := Find(users.docs, EmailKey, PromotionKey(email.value));
    if found.None? {
      return Failure(NotFoundStatus);
    }
    var i := found.value;
    var u := users.docs[i];
    var promoted := u.(role := AdminRole);
    SameKeysNoViolation(users.docs, i, promoted);
    var _ := users.Put(i, promoted);
    r := Success(OkStatus, AdminReply(u.id, DisplayName(u.firstName, u.lastName), u.email, AdminRole));
  }
}
