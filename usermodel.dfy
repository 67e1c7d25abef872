/** The user schema: the stored shape of a user, the constraints the
    schema puts on its fields, the values it fills in by default, and the
    loaded document that handlers change and save back, with its pre-save
    hook and instance methods. */
module UserModel {
  import opened Common
  import opened Text
  import opened Sessions
  import opened Crypto

  /** The `role` enum: `'user'` or `'admin'`. */
  datatype Role = UserRole | AdminRole
  {
    function Name(): (s: string)
      ensures s == "user" || s == "admin"
    {
      match this
      case UserRole => "user"
      case AdminRole => "admin"
    }
  }

  const DefaultRole: Role := UserRole
  const DefaultProfilePic: string := "/images/default_avatar.png"
  /** The default of `currentDevice` and `currentIP`. */
  const NotRecorded: string := "N/A"
  const MinPasswordLength: nat := 6

  /** The `password` path of a user: left out of a query result unless
      selected, the bcrypt hash as stored, or a plain password assigned by
      a handler and not yet hashed. */
  datatype PasswordField = Unselected | Stored(digest: Digest) | Plain(text: string)

  /** One document of the users collection. */
  datatype UserRecord = UserRecord(
    id: UserId,
    firstName: string,
    lastName: Option<string>,
    username: string,
    email: string,
    phone: Option<string>,
    password: PasswordField,
    role: Role,
    createdAt: int,
    lastActivity: Option<int>,
    currentDevice: string,
    currentIP: string,
    profilePic: string,
    sessions: seq<Session>)

  // ---------------------------------------------------------------------
  // Field constraints
  // ---------------------------------------------------------------------

  predicate IsAlnum(c: char) {
    ('a' <= c <= 'z') || ('A' <= c <= 'Z') || ('0' <= c <= '9')
  }

  /** The stored form of a username: the `lowercase` setter, then `trim`. */
  function NormalizeUsername(s: string): (r: string)
    ensures forall i :: 0 <= i < |r| ==> !IsUpper(r[i])
    ensures r == [] || (!IsSpace(r[0]) && !IsSpace(r[|r| - 1]))
  {
    TrimLowerCommute(s);
    Trim(ToLower(s))
  }

  /** Lower-casing does not create or remove white space, so trimming and
      lower-casing commute. */
  lemma TrimLowerCommute(s: string)
    ensures Trim(ToLower(s)) == ToLower(Trim(s))
  {
    TrimStartLower(s);
    TrimEndLower(TrimStart(s));
  }

  /** Lower-casing maps white space to white space and nothing else to it. */
  lemma LowerKeepsSpace(c: char)
    ensures IsSpace(LowerChar(c)) <==> IsSpace(c)
  {
  }

  lemma {:induction false} TrimStartLower(s: string)
    ensures TrimStart(ToLower(s)) == ToLower(TrimStart(s))
  {
    if s != [] {
      var l := ToLower(s);
      assert l[0] == LowerChar(s[0]);
      LowerKeepsSpace(s[0]);
      if IsSpace(s[0]) {
        assert l[1..] == ToLower(s[1..]);
        TrimStartLower(s[1..]);
      }
    }
  }

  lemma {:induction false} TrimEndLower(s: string)
    ensures TrimEnd(ToLower(s)) == ToLower(TrimEnd(s))
  {
    if s != [] {
      var l := ToLower(s);
      assert l[|s| - 1] == LowerChar(s[|s| - 1]);
      LowerKeepsSpace(s[|s| - 1]);
      if IsSpace(s[|s| - 1]) {
        assert l[..|s| - 1] == ToLower(s[..|s| - 1]);
        TrimEndLower(s[..|s| - 1]);
      }
    }
  }

  /** Normalizing a username twice changes nothing more. */
  lemma NormalizeUsernameIdempotent(s: string)
    ensures NormalizeUsername(NormalizeUsername(s)) == NormalizeUsername(s)
  {
    var n := NormalizeUsername(s);
    calc {
      NormalizeUsername(n);
      Trim(ToLower(n));
      { ToLowerFixed(n); }
      Trim(n);
      { TrimFixed(n); }
      n;
    }
  }

  /** The username pattern `^[a-zA-Z0-9]+$`. */
  predicate ValidUsername(u: string) {
    |u| >= 1 && forall i :: 0 <= i < |u| ==> IsAlnum(u[i])
  }

  /** A `\w` character: an ASCII letter, digit or underscore. */
  predicate IsWordChar(c: char) {
    IsAlnum(c) || c == '_'
  }

  predicate IsLocalChar(c: char) {
    IsWordChar(c) || c == '-' || c == '.'
  }

  predicate IsLabelChar(c: char) {
    IsWordChar(c) || c == '-'
  }

  predicate ValidLabel(l: string) {
    |l| >= 1 && forall i :: 0 <= i < |l| ==> IsLabelChar(l[i])
  }

  /** The email pattern `^[\w-\.]+@([\w-]+\.)+[\w-]{2,4}$`: a local part of
      word characters, hyphens and dots, then `@`, then at least two
      dot-separated labels of word characters and hyphens, the last of two
      to four characters. */
  predicate ValidEmail(e: string) {
    match IndexOf(e, '@')
    case None => false
    case Some(i) =>
      i >= 1 && (forall k :: 0 <= k < i ==> IsLocalChar(e[k])) && ValidDomain(e[i + 1..])
  }

  predicate ValidDomain(d: string) {
    ValidLabels(SplitOn(d, '.'))
  }

  predicate ValidLabels(labels: seq<string>) {
    |labels| >= 2
    && (forall k :: 0 <= k < |labels| ==> ValidLabel(labels[k]))
    && 2 <= |labels[|labels| - 1]| <= 4
  }

  /** An email is valid exactly when it is a local part, `@` and a list of
      labels of the pattern's shape joined by dots. */
  lemma EmailShape(local: string, labels: seq<string>)
    requires |local| >= 1 && forall k :: 0 <= k < |local| ==> IsLocalChar(local[k])
    requires |labels| >= 2 && forall k :: 0 <= k < |labels| ==> ValidLabel(labels[k])
    ensures ValidEmail(local + "@" + Join(labels, '.'))
        <==> 2 <= |labels[|labels| - 1]| <= 4
  {
    var d := Join(labels, '.');
    var e := local + "@" + d;
    LocalHasNoAt(local);
    EmailAt(local, d);
    LabelsHaveNoDot(labels);
    SplitJoin(labels, '.');
    calc {
      ValidEmail(e);
      ValidDomain(e[|local| + 1..]);
      ValidLabels(SplitOn(d, '.'));
      ValidLabels(labels);
    }
  }

  /** In a local part, `@` and a domain, the first `@` is the one after the
      local part. */
  lemma EmailAt(local: string, d: string)
    requires '@' !in local
    ensures var e := local + "@" + d;
      && IndexOf(e, '@') == Some(|local|)
      && (forall k :: 0 <= k < |local| ==> e[k] == local[k])
      && e[|local| + 1..] == d
  {
    assert local + "@" + d == local + ['@'] + d;
    IndexOfAfter(local, '@', d);
  }

  lemma LocalHasNoAt(local: string)
    requires forall k :: 0 <= k < |local| ==> IsLocalChar(local[k])
    ensures '@' !in local
  {
    forall k | 0 <= k < |local| ensures local[k] != '@' {
      assert IsLocalChar(local[k]);
    }
  }

  lemma LabelsHaveNoDot(labels: seq<string>)
    requires forall k :: 0 <= k < |labels| ==> ValidLabel(labels[k])
    ensures forall k :: 0 <= k < |labels| ==> '.' !in labels[k]
  {
    forall k | 0 <= k < |labels| ensures '.' !in labels[k] {
      var l := labels[k];
      assert ValidLabel(l);
      forall i | 0 <= i < |l| ensures l[i] != '.' {
        assert IsLabelChar(l[i]);
      }
    }
  }

  /** Conversely, a valid email is its local part, `@` and its labels. */
  lemma ValidEmailParts(e: string)
    requires ValidEmail(e)
    ensures var i := IndexOf(e, '@').value;
      e == e[..i] + "@" + Join(SplitOn(e[i + 1..], '.'), '.')
  {
    var i := IndexOf(e, '@').value;
    var d := e[i + 1..];
    calc {
      e;
      { Around(e, i); }
      e[..i] + [e[i]] + d;
      { JoinSplit(d, '.'); }
      e[..i] + "@" + Join(SplitOn(d, '.'), '.');
    }
  }

  /** The schema's constraints on a stored user, together with the facts
      about its sessions that every handler maintains. */
  predicate ValidRecord(r: UserRecord) {
    && IsCanonicalObjectId(r.id)
    && r.firstName != ""
    && ValidUsername(r.username)
    && ValidEmail(r.email)
    && r.password.Stored?
    && |r.sessions| <= MaxSessions
    && DistinctIds(r.sessions)
  }

  // ---------------------------------------------------------------------
  // Creation: validation and defaults
  // ---------------------------------------------------------------------

  /** The fields a registration submits. */
  datatype Registration = Registration(
    firstName: Option<string>,
    lastName: Option<string>,
    phone: Option<string>,
    username: Option<string>,
    email: Option<string>,
    password: Option<string>)

  /** Whether `User.create` passes validation on these fields: a first
      name, a username that is alphanumeric once lowercased and trimmed, an
      email that matches the pattern once lowercased, and a password of at
      least six characters. */
  predicate Acceptable(reg: Registration) {
    && Truthy(reg.firstName)
    && reg.username.Some? && ValidUsername(NormalizeUsername(reg.username.value))
    && reg.email.Some? && ValidEmail(ToLower(reg.email.value))
    && reg.password.Some? && |reg.password.value| >= MinPasswordLength
  }

  /** The document `User.create` inserts, with the schema's defaults and the
      pre-save hook's hash, or `None` on a validation error. */
  function CreateDocument(reg: Registration, id: UserId, now: int, salt: string): (r: Option<UserRecord>)
    requires IsCanonicalObjectId(id)
    ensures r.Some? <==> Acceptable(reg)
    ensures r.Some? ==> ValidRecord(r.value) && r.value.id == id
    ensures r.Some? ==>
      r.value.username == NormalizeUsername(reg.username.value) && r.value.email == ToLower(reg.email.value)
    ensures r.Some? ==> Matches(reg.password.value, r.value.password.digest)
    ensures r.Some? ==>
      forall p :: Matches(p, r.value.password.digest) <==> PasswordKey(p) == PasswordKey(reg.password.value)
    ensures r.Some? ==>
      && r.value.role == DefaultRole && r.value.sessions == []
      && r.value.createdAt == now && r.value.lastActivity == Some(now)
      && r.value.currentDevice == NotRecorded && r.value.currentIP == NotRecorded
      && r.value.profilePic == DefaultProfilePic
  {
    if Acceptable(reg) then
      Some(UserRecord(id, reg.firstName.value, reg.lastName, NormalizeUsername(reg.username.value),
                      ToLower(reg.email.value), reg.phone, Stored(Hash(reg.password.value, salt)),
                      DefaultRole, now, Some(now), NotRecorded, NotRecorded, DefaultProfilePic, []))
    else None
  }

  // ---------------------------------------------------------------------
  // The loaded document
  // ---------------------------------------------------------------------

  /** A user document loaded from the collection: handlers change its
      sessions, tracking fields and password, then save it. */
  class User {
    /** The document as loaded; the fields below override it. */
    const base: UserRecord
    var sessions: seq<Session>
    var lastActivity: Option<int>
    var currentDevice: string
    var currentIP: string
    var password: PasswordField
    /** Mongoose's `isModified('password')`. */
    var passwordModified: bool

    /** The document as it would be written back. */
    function Record(): (r: UserRecord)
      reads this
      ensures r.id == base.id && r.sessions == sessions && r.password == password
    {
      base.(sessions := sessions, lastActivity := lastActivity, currentDevice := currentDevice,
            currentIP := currentIP, password := password)
    }

    /** `findOne(...)`, with `.select('+password')` when `selectPassword`. */
    constructor Load(r: UserRecord, selectPassword: bool)
      ensures base == r && !passwordModified
      ensures Record() == r.(password := if selectPassword then r.password else Unselected)
    {
      base := r;
      sessions := r.sessions;
      lastActivity := r.lastActivity;
      currentDevice := r.currentDevice;
      currentIP := r.currentIP;
      password := if selectPassword then r.password else Unselected;
      passwordModified := false;
    }

    /** `sessions.push(s)`. */
    method PushSession(s: Session)
      modifies this`sessions
      ensures sessions == old(sessions) + [s]
    {
      sessions := sessions + [s];
    }

    /** `sessions.shift()`: drops the first entry, if any. */
    method ShiftOldest()
      modifies this`sessions
      ensures sessions == if old(sessions) == [] then [] else old(sessions)[1..]
    {
      if sessions != [] {
        sessions := sessions[1..];
      }
    }

    /** Assignments to `lastActivity`, `currentDevice` and `currentIP`. */
    method Track(now: int, device: string, ip: string)
      modifies this`lastActivity, this`currentDevice, this`currentIP
      ensures lastActivity == Some(now) && currentDevice == device && currentIP == ip
    {
      lastActivity := Some(now);
      currentDevice := device;
      currentIP := ip;
    }

    /** `user.password = p`: marks the password modified. */
    method SetPassword(p: string)
      modifies this`password, this`passwordModified
      ensures password == Plain(p) && passwordModified
    {
      password := Plain(p);
      passwordModified := true;
    }

    /** `user.password = undefined`, done on the response object after
        saving. */
    method ClearPassword()
      modifies this`password
      ensures password == Unselected
    {
      password := Unselected;
    }

    /** The pre-save hook: hashes the password when it was modified and
        leaves the stored hash alone otherwise; saving clears the modified
        flag. */
    method PreSave(salt: string)
      modifies this`password, this`passwordModified
      ensures !passwordModified
      ensures old(passwordModified) && old(password).Plain?
        ==> password == Stored(Hash(old(password).text, salt))
      ensures !(old(passwordModified) && old(password).Plain?) ==> password == old(password)
    {
      if passwordModified && password.Plain? {
        password := Stored(Hash(password.text, salt));
      }
      passwordModified := false;
    }

    /** `matchPassword(p)`, on a document loaded with its password: true
        exactly when bcrypt reads `p` as the same 72 bytes as the password
        that was hashed into it. */
    function MatchPassword(p: string): (r: bool)
      reads this
      requires password.Stored?
      ensures forall q, salt :: password == Stored(Hash(q, salt)) ==> (r <==> PasswordKey(p) == PasswordKey(q))
    {
      Matches(p, password.digest)
    }

    /** `getSignedToken(sessionId)`: a token whose claims are exactly this
        user's id and the session id. */
    function GetSignedToken(sign: Signer, sessionId: SessionId): (t: string)
      reads this
      ensures forall verify :: Agree(sign, verify) ==> verify(t) == Some(Claims(base.id, sessionId))
    {
      sign(Claims(base.id, sessionId))
    }
  }
}
