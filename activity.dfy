/** Activity logging: a page or action reported by the client is stored as
    an activity entry, and the reporting user's tracking fields are
    refreshed when a user is known. */
module Activity {
  import opened Common
  import opened UserModel
  import opened UserStore
  import Account

  /** The schema's defaults for fields the request leaves out. */
  const DefaultPageRoute: string := "N/A"
  const DefaultDurationMillis: int := 0
  /** The device recorded when the request has no `User-Agent`. */
  const UnknownDevice: string := "Unknown Device"

  /** One stored activity; `userId` is absent for an anonymous report. */
  datatype Entry = Entry(
    userId: Option<UserId>,
    kind: string,
    description: string,
    pageRoute: string,
    durationMs: int,
    timestamp: int)

  /** The body of a report. */
  datatype Report = Report(
    description: Option<string>,
    kind: Option<string>,
    pageRoute: Option<string>,
    durationMs: Option<int>)

  /** A schema default applies only when the field is left out, not when
      it is empty. */
  function Defaulted<T>(field: Option<T>, default: T): (r: T)
    ensures field.Some? ==> r == field.value
    ensures field.None? ==> r == default
  {
    match field
    case None => default
    case Some(v) => v
  }

  /** A report is recorded only with a description and a type. */
  predicate Complete(report: Report) {
    Truthy(report.description) && Truthy(report.kind)
  }

  /** The address a request came from: the forwarding header when present,
      else the socket's address. */
  function ClientAddress(forwardedFor: Option<string>, remoteAddress: string): (a: string)
    ensures Truthy(forwardedFor) ==> a == forwardedFor.value
    ensures !Truthy(forwardedFor) ==> a == remoteAddress
  {
    OrElse(forwardedFor, remoteAddress)
  }

  /** The entry stored for a complete report. */
  function EntryOf(user: Option<UserId>, report: Report, now: int): (e: Entry)
    requires Complete(report)
    ensures e.userId == user && e.timestamp == now
    ensures e.description == report.description.value && e.kind == report.kind.value
    ensures e.pageRoute == Defaulted(report.pageRoute, DefaultPageRoute)
    ensures e.durationMs == Defaulted(report.durationMs, DefaultDurationMillis)
  {
    Entry(user, report.kind.value, report.description.value, Defaulted(report.pageRoute, DefaultPageRoute),
          Defaulted(report.durationMs, DefaultDurationMillis), now)
  }

  /** The activities collection. */
  class ActivityLog {
    var entries: seq<Entry>

    constructor ()
      ensures entries == []
    {
      entries := [];
    }

    /** `POST /api/activity`: an incomplete report is refused with 400 and
        changes nothing; otherwise the entry is appended (201) and, only
        when a user is known, that user's last activity, address and device
        are refreshed. */
    method RecordActivity(users: Users, user: Option<UserId>, report: Report,
                          forwardedFor: Option<string>, remoteAddress: string,
                          userAgent: Option<string>, now: int) returns (code: nat)
      requires users.Valid()
      modifies this, users
      ensures users.Valid()
      ensures !Complete(report) ==>
        code == BadRequestStatus && entries == old(entries) && users.docs == old(users.docs)
      ensures Complete(report) ==> code == CreatedStatus && entries == old(entries) + [EntryOf(user, report, now)]
      ensures Complete(report) && user.Some? ==>
        users.docs == WithTracking(old(users.docs), user.value, now, OrElse(userAgent, UnknownDevice),
                                   ClientAddress(forwardedFor, remoteAddress))
      ensures user.None? ==> users.docs == old(users.docs)
    {
      if !Complete(report) {
        return BadRequestStatus;
      }
      entries := entries + [EntryOf(user, report, now)];
      if user.Some? {
        var _ := users.SetTracking(user.value, now, OrElse(userAgent, UnknownDevice), ClientAddress(forwardedFor, remoteAddress));
      }
      code := CreatedStatus;
    }
  }

  /** A user whose activity was just recorded is listed as active for the
      next ten minutes, and nobody else's status changes. */
  lemma RecordedUserActive(docs: seq<UserRecord>, id: UserId, now: int, later: int, device: string, ip: string)
    requires Find(docs, IdKey, id).Some?
    requires now <= later < now + Account.InactiveThresholdMillis
    ensures var after := WithTracking(docs, id, now, device, ip);
      Account.ActivityStatus(after[Find(docs, IdKey, id).value], later) == "Active"
    ensures var after := WithTracking(docs, id, now, device, ip);
      forall j :: 0 <= j < |docs| && j != Find(docs, IdKey, id).value ==>
        Account.ActivityStatus(after[j], later) == Account.ActivityStatus(docs[j], later)
  {
  }
}
