/** The users collection: its documents in natural order, the unique
    indexes on `_id`, `username` and `email`, and the single-document
    operations the handlers issue against it. */
module UserStore {
  import opened Common
  import opened Sessions
  import opened Crypto
  import opened UserModel

  /** The collection's unique indexes. */
  datatype Key = IdKey | UsernameKey | EmailKey
  {
    /** The field name a duplicate-key error reports. */
    function Field(): (f: string)
      ensures f in {"_id", "username", "email"}
    {
      match this
      case IdKey => "_id"
      case UsernameKey => "username"
      case EmailKey => "email"
    }
  }

  function KeyOf(r: UserRecord, k: Key): string {
    match k
    case IdKey => r.id
    case UsernameKey => r.username
    case EmailKey => r.email
  }

  /** `findOne({<k>: v})`: the position of the first document whose field
      `k` equals `v`. */
  function Find(docs: seq<UserRecord>, k: Key, v: string): (r: Option<nat>)
    ensures r.None? ==> forall i :: 0 <= i < |docs| ==> KeyOf(docs[i], k) != v
    ensures r.Some? ==> r.value < |docs| && KeyOf(docs[r.value], k) == v
    ensures r.Some? ==> forall i :: 0 <= i < r.value ==> KeyOf(docs[i], k) != v
  {
    if docs == [] then None
    else if KeyOf(docs[0], k) == v then Some(0)
    else match Find(docs[1..], k, v)
      case None => None
      case Some(i) => Some(i + 1)
  }

  /** No two documents share a value of any unique index. */
  predicate UniqueKeys(docs: seq<UserRecord>) {
    forall i, j, k :: 0 <= i < j < |docs| ==> KeyOf(docs[i], k) != KeyOf(docs[j], k)
  }

  /** Under the unique indexes, the document `Find` returns is the only one
      with that value. */
  lemma FindUnique(docs: seq<UserRecord>, k: Key, v: string, i: nat)
    requires UniqueKeys(docs) && i < |docs| && KeyOf(docs[i], k) == v
    ensures Find(docs, k, v) == Some(i)
  {
    assert Find(docs, k, v).Some?;
    var j := Find(docs, k, v).value;
    assert KeyOf(docs[j], k) == KeyOf(docs[i], k);
  }

  /** Removing a document keeps the rest valid and their keys unique. */
  lemma RemovePreserves(docs: seq<UserRecord>, i: nat)
    requires i < |docs| && UniqueKeys(docs)
    requires forall j :: 0 <= j < |docs| ==> ValidRecord(docs[j])
    ensures var rest := docs[..i] + docs[i + 1..];
      UniqueKeys(rest) && forall j :: 0 <= j < |rest| ==> ValidRecord(rest[j])
  {
    var rest := docs[..i] + docs[i + 1..];
    assert forall j :: 0 <= j < |rest| ==> rest[j] == docs[if j < i then j else j + 1];
  }

  /** The first unique index that a new document `r` would violate, in the
      order the indexes were declared, if any. */
  function Violated(docs: seq<UserRecord>, r: UserRecord, skip: int): (v: Option<Key>)
    ensures v.None? <==> forall k, i :: 0 <= i < |docs| && i != skip ==> KeyOf(docs[i], k) != KeyOf(r, k)
  {
    if Clash(docs, r, skip, IdKey) then Some(IdKey)
    else if Clash(docs, r, skip, UsernameKey) then Some(UsernameKey)
    else if Clash(docs, r, skip, EmailKey) then Some(EmailKey)
    else None
  }

  /** Some document other than the one at `skip` has `r`'s value of `k`. */
  predicate Clash(docs: seq<UserRecord>, r: UserRecord, skip: int, k: Key) {
    exists i :: 0 <= i < |docs| && i != skip && KeyOf(docs[i], k) == KeyOf(r, k)
  }

  /** The collection after `updateOne({_id: id}, {$set: {lastActivity,
      currentIP, currentDevice}})`: only those three fields of the matching
      document change, and nothing changes when no document matches. */
  function WithTracking(docs: seq<UserRecord>, id: UserId, now: int, device: string, ip: string): (r: seq<UserRecord>)
    ensures |r| == |docs|
    ensures Find(docs, IdKey, id).None? ==> r == docs
    ensures Find(docs, IdKey, id).Some? ==>
      var i := Find(docs, IdKey, id).value;
      && r[i].lastActivity == Some(now) && r[i].currentDevice == device && r[i].currentIP == ip
      && r[i] == docs[i].(lastActivity := r[i].lastActivity, currentDevice := r[i].currentDevice, currentIP := r[i].currentIP)
      && forall j :: 0 <= j < |docs| && j != i ==> r[j] == docs[j]
  {
    match Find(docs, IdKey, id)
    case None => docs
    case Some(i) => docs[i := docs[i].(lastActivity := Some(now), currentDevice := device, currentIP := ip)]
  }

  /** The users collection. */
  class Users {
    var docs: seq<UserRecord>

    /** Every document satisfies the schema, and the unique indexes hold. */
    ghost predicate Valid()
      reads this
    {
      (forall i :: 0 <= i < |docs| ==> ValidRecord(docs[i])) && UniqueKeys(docs)
    }

    constructor ()
      ensures docs == [] && Valid()
    {
      docs := [];
    }

    /** `insertOne(r)`: refused with the first violated unique index, if
        any; otherwise `r` is appended. */
    method Insert(r: UserRecord) returns (dup: Option<Key>)
      requires Valid() && ValidRecord(r)
      modifies this
      ensures Valid()
      ensures dup == Violated(old(docs), r, -1)
      ensures dup.None? ==> docs == old(docs) + [r]
      ensures dup.Some? ==> docs == old(docs)
    {
      dup := Violated(docs, r, -1);
      if dup.None? {
        docs := docs + [r];
      }
    }

    /** Writes `r` over the document at position `i` (a document save or an
        update by id): refused with the first unique index that `r` would
        share with another document, if any. */
    method Put(i: nat, r: UserRecord) returns (dup: Option<Key>)
      requires Valid() && i < |docs| && r.id == docs[i].id && ValidRecord(r)
      modifies this
      ensures Valid()
      ensures dup == Violated(old(docs), r, i)
      ensures dup.None? ==> docs == old(docs)[i := r]
      ensures dup.Some? ==> docs == old(docs)
    {
      dup := Violated(docs, r, i);
      if dup.None? {
        docs := docs[i := r];
      }
    }

    /** `updateOne({_id: id}, {$pull: {sessions: {sessionId: sid}}})`:
        reports whether a document was modified. */
    method PullSession(id: UserId, sid: SessionId) returns (modified: bool)
      requires Valid()
      modifies this
      ensures Valid()
      ensures Find(old(docs), IdKey, id).None? ==> docs == old(docs) && !modified
      ensures Find(old(docs), IdKey, id).Some? ==>
        var i := Find(old(docs), IdKey, id).value;
        && docs == old(docs)[i := old(docs)[i].(sessions := WithoutSession(old(docs)[i].sessions, sid))]
        && (modified <==> HasSession(old(docs)[i].sessions, sid))
    {
      var found := Find(docs, IdKey, id);
      if found.None? {
        return false;
      }
      var i := found.value;
      var before := docs[i].sessions;
      var after := WithoutSession(before, sid);
      WithoutSessionDistinct(before, sid);
      WithoutSessionChanges(before, sid);
      var r := docs[i].(sessions := after);
      assert forall k :: KeyOf(r, k) == KeyOf(docs[i], k);
      docs := docs[i := r];
      modified := after != before;
    }

    /** `updateOne` setting the tracking fields of the document with this
        id; reports whether a document matched. */
    method SetTracking(id: UserId, now: int, device: string, ip: string) returns (matched: bool)
      requires Valid()
      modifies this
      ensures Valid()
      ensures docs == WithTracking(old(docs), id, now, device, ip)
      ensures matched <==> Find(old(docs), IdKey, id).Some?
    {
      var found := Find(docs, IdKey, id);
      if found.None? {
        return false;
      }
      var i := found.value;
      var r := docs[i].(lastActivity := Some(now), currentDevice := device, currentIP := ip);
      assert forall k :: KeyOf(r, k) == KeyOf(docs[i], k);
      docs := docs[i := r];
      matched := true;
    }

    /** `deleteOne({_id: id})`: the number of documents deleted. */
    method Delete(id: UserId) returns (deleted: nat)
      requires Valid()
      modifies this
      ensures Valid()
      ensures Find(old(docs), IdKey, id).None? ==> docs == old(docs) && deleted == 0
      ensures Find(old(docs), IdKey, id).Some? ==>
        var i := Find(old(docs), IdKey, id).value;
        docs == old(docs)[..i] + old(docs)[i + 1..] && deleted == 1
    {
      var found := Find(docs, IdKey, id);
      if found.None? {
        return 0;
      }
      var i := found.value;
      RemovePreserves(docs, i);
      docs := docs[..i] + docs[i + 1..];
      deleted := 1;
    }
  }
}
