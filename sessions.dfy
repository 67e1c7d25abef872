/** The ordered list of login sessions embedded in a user document, and the
    rules that act on it: append with a cap of five dropping the oldest
    (login), pull by id (logout and remote revocation), the membership test
    of the authentication middleware, and the annotated, newest-first
    listing shown to the user. */
module Sessions {
  import opened Common

  /** One entry of a user's `sessions` array. */
  datatype Session = Session(sessionId: SessionId, loginTime: int, device: string, ip: string)

  /** The most sessions a user keeps; login drops the oldest beyond it. */
  const MaxSessions: nat := 5

  /** `sessions.some(s => s.sessionId === id)`. */
  predicate HasSession(s: seq<Session>, id: SessionId) {
    exists i :: 0 <= i < |s| && s[i].sessionId == id
  }

  /** No two entries share a session id. */
  predicate DistinctIds(s: seq<Session>) {
    forall i, j :: 0 <= i < j < |s| ==> s[i].sessionId != s[j].sessionId
  }

  // ---------------------------------------------------------------------
  // Login: push, then shift once when the list has grown past the cap
  // ---------------------------------------------------------------------

  /** The list after a login appends `x`: `x` is last, at most the single
      oldest entry is dropped, and a list within the cap stays within it. */
  function PushCapped(s: seq<Session>, x: Session): (r: seq<Session>)
    ensures |s| < MaxSessions ==> r == s + [x]
    ensures |s| >= MaxSessions ==> r == s[1..] + [x]
    ensures |s| <= MaxSessions ==> |r| <= MaxSessions
    ensures |r| >= 1 && r[|r| - 1] == x
  {
    var pushed := s + [x];
    if |pushed| > MaxSessions then
      assert pushed[1..] == s[1..] + [x];
      pushed[1..]
    else pushed
  }

  /** Login keeps ids distinct when the new id is fresh, and the new
      session is then found by the membership test. */
  lemma PushCappedKeepsDistinct(s: seq<Session>, x: Session)
    requires DistinctIds(s) && !HasSession(s, x.sessionId)
    ensures DistinctIds(PushCapped(s, x))
    ensures HasSession(PushCapped(s, x), x.sessionId)
  {
    var r := PushCapped(s, x);
    assert r[|r| - 1] == x;
    forall i, j | 0 <= i < j < |r| ensures r[i].sessionId != r[j].sessionId {
      if j == |r| - 1 {
        assert r[i] in s;
      } else {
        assert r[i] in s && r[j] in s;
        if |s| < MaxSessions {
          assert r[i] == s[i] && r[j] == s[j];
        } else {
          assert r[i] == s[i + 1] && r[j] == s[j + 1];
        }
      }
    }
  }

  /** A sixth session evicts the oldest one, and only it. */
  lemma SixthLoginEvictsOldest(s: seq<Session>, x: Session)
    requires |s| == MaxSessions && DistinctIds(s) && !HasSession(s, x.sessionId)
    ensures |PushCapped(s, x)| == MaxSessions
    ensures !HasSession(PushCapped(s, x), s[0].sessionId)
    ensures forall i :: 1 <= i < |s| ==> HasSession(PushCapped(s, x), s[i].sessionId)
  {
    var r := PushCapped(s, x);
    assert r == s[1..] + [x];
    forall i | 0 <= i < |r| ensures r[i].sessionId != s[0].sessionId {
      if i < |r| - 1 {
        assert r[i] == s[i + 1];
      }
    }
    forall i | 1 <= i < |s| ensures HasSession(r, s[i].sessionId) {
      assert r[i - 1] == s[i];
    }
  }

  /** A run of logins `xs` starting from `s`. */
  function LoginAll(s: seq<Session>, xs: seq<Session>): seq<Session>
    decreases |xs|
  {
    if xs == [] then s else LoginAll(PushCapped(s, xs[0]), xs[1..])
  }

  /** The newest `min(5, |all|)` entries of `all`, in their order. */
  function Newest(all: seq<Session>): seq<Session> {
    if |all| < MaxSessions then all else all[|all| - MaxSessions..]
  }

  /** One login does not change which entries are the newest. */
  lemma NewestAfterPush(s: seq<Session>, x: Session, rest: seq<Session>)
    requires |s| <= MaxSessions
    ensures Newest(PushCapped(s, x) + rest) == Newest(s + [x] + rest)
  {
    if |s| == MaxSessions {
      var all := s + [x] + rest;
      assert PushCapped(s, x) + rest == all[1..];
    } else {
      assert PushCapped(s, x) + rest == s + [x] + rest;
    }
  }

  /** FIFO eviction over any run of logins: starting within the cap, the
      list ends as the newest `min(5, total)` entries of the whole history,
      in login order. */
  lemma {:induction false} LoginAllKeepsNewest(s: seq<Session>, xs: seq<Session>)
    requires |s| <= MaxSessions
    ensures LoginAll(s, xs) == Newest(s + xs)
    decreases |xs|
  {
    if xs == [] {
      assert s + xs == s;
    } else {
      var s' := PushCapped(s, xs[0]);
      calc {
        LoginAll(s, xs);
        LoginAll(s', xs[1..]);
        { LoginAllKeepsNewest(s', xs[1..]); }
        Newest(s' + xs[1..]);
        { NewestAfterPush(s, xs[0], xs[1..]); }
        Newest(s + [xs[0]] + xs[1..]);
        { assert s + [xs[0]] + xs[1..] == s + xs; }
        Newest(s + xs);
      }
    }
  }

  // ---------------------------------------------------------------------
  // Logout and remote revocation: $pull by session id
  // ---------------------------------------------------------------------

  /** The list with every entry of session id `id` pulled out: exactly the
      entries of other ids are left. */
  function WithoutSession(s: seq<Session>, id: SessionId): (r: seq<Session>)
    ensures |r| <= |s|
  {
    if s == [] then []
    else if s[0].sessionId == id then WithoutSession(s[1..], id)
    else [s[0]] + WithoutSession(s[1..], id)
  }

  /** Exactly the entries of other ids are left. */
  lemma {:induction false} WithoutSessionMembers(s: seq<Session>, id: SessionId)
    ensures forall x :: x in WithoutSession(s, id) <==> x in s && x.sessionId != id
  {
    if s != [] {
      WithoutSessionMembers(s[1..], id);
      assert s == [s[0]] + s[1..];
    }
  }

  /** The membership test on a non-empty list: its head, or its tail. */
  lemma HasSessionCons(s: seq<Session>, id: SessionId)
    requires s != []
    ensures HasSession(s, id) <==> s[0].sessionId == id || HasSession(s[1..], id)
  {
    if HasSession(s[1..], id) {
      var i :| 0 <= i < |s[1..]| && s[1..][i].sessionId == id;
      assert s[i + 1] == s[1..][i];
    }
    if HasSession(s, id) && s[0].sessionId != id {
      var i :| 0 <= i < |s| && s[i].sessionId == id;
      assert s[1..][i - 1] == s[i];
    }
  }

  /** Pulling an id leaves no entry of it, changes the list exactly when
      the id is present, and then shortens the list. */
  lemma {:induction false} WithoutSessionChanges(s: seq<Session>, id: SessionId)
    ensures !HasSession(WithoutSession(s, id), id)
    ensures !HasSession(s, id) ==> WithoutSession(s, id) == s
    ensures HasSession(s, id) ==> |WithoutSession(s, id)| < |s|
  {
    var r := WithoutSession(s, id);
    WithoutSessionMembers(s, id);
    forall i | 0 <= i < |r| ensures r[i].sessionId != id {
      assert r[i] in r;
    }
    if s != [] {
      WithoutSessionChanges(s[1..], id);
      HasSessionCons(s, id);
      if s[0].sessionId != id {
        assert s == [s[0]] + s[1..];
      }
    }
  }

  /** Pulling distributes over concatenation, so it keeps the relative
      order of the entries it does not remove. */
  lemma {:induction false} WithoutSessionAppend(a: seq<Session>, b: seq<Session>, id: SessionId)
    ensures WithoutSession(a + b, id) == WithoutSession(a, id) + WithoutSession(b, id)
  {
    if a != [] {
      WithoutSessionAppend(a[1..], b, id);
      assert (a + b)[1..] == a[1..] + b;
    } else {
      assert a + b == b;
    }
  }

  /** Pulling keeps ids distinct and removes exactly one entry of a present
      id when ids are distinct. */
  lemma {:induction false} WithoutSessionDistinct(s: seq<Session>, id: SessionId)
    requires DistinctIds(s)
    ensures DistinctIds(WithoutSession(s, id))
    ensures HasSession(s, id) ==> |WithoutSession(s, id)| == |s| - 1
  {
    if s != [] {
      WithoutSessionDistinct(s[1..], id);
      var rest := WithoutSession(s[1..], id);
      if s[0].sessionId == id {
        assert !HasSession(s[1..], id);
        WithoutSessionChanges(s[1..], id);
      } else {
        var r := [s[0]] + rest;
        WithoutSessionMembers(s[1..], id);
        forall i, j | 0 <= i < j < |r| ensures r[i].sessionId != r[j].sessionId {
          if i == 0 {
            assert r[j] == rest[j - 1];
            assert r[j] in s[1..];
            var m :| 0 <= m < |s[1..]| && s[1..][m] == r[j];
            assert s[m + 1] == r[j];
          } else {
            assert r[i] == rest[i - 1] && r[j] == rest[j - 1];
          }
        }
      }
    }
  }

  // ---------------------------------------------------------------------
  // Listing: one entry per stored session, marked current or not,
  // sorted newest login first
  // ---------------------------------------------------------------------

  /** One element of the session listing. */
  datatype SessionView = SessionView(id: SessionId, loginTime: int, deviceName: string, location: string, isCurrent: bool)

  /** The `map` step of the listing. */
  function Annotate(s: seq<Session>, current: SessionId): (r: seq<SessionView>)
    ensures |r| == |s|
    ensures forall i :: 0 <= i < |s| ==>
      r[i] == SessionView(s[i].sessionId, s[i].loginTime, s[i].device, s[i].ip, s[i].sessionId == current)
  {
    if s == [] then []
    else [SessionView(s[0].sessionId, s[0].loginTime, s[0].device, s[0].ip, s[0].sessionId == current)]
         + Annotate(s[1..], current)
  }

  /** The two comparators of the listing: on the displayed login minute
      (as written) and on the login time (as meant). */
  datatype SortKey = DisplayedMinute | LoginTime

  /** The value a comparator compares: the displayed text carries whole
      minutes only. */
  function Key(v: SessionView, key: SortKey): int {
    match key
    case DisplayedMinute => v.loginTime / 60000
    case LoginTime => v.loginTime
  }

  /** Descending by key. */
  predicate SortedDesc(v: seq<SessionView>, key: SortKey) {
    forall i, j :: 0 <= i < j < |v| ==> Key(v[i], key) >= Key(v[j], key)
  }

  /** `Array.prototype.sort` with a comparator `b - a` on the key: a stable
      insertion sort, newest (largest key) first. */
  function SortDesc(v: seq<SessionView>, key: SortKey): (r: seq<SessionView>)
    ensures |r| == |v|
  {
    if v == [] then [] else InsertDesc(v[0], SortDesc(v[1..], key), key)
  }

  /** Places `x` before the first element whose key is not larger, so `x`
      stays ahead of later elements with an equal key. */
  function InsertDesc(x: SessionView, v: seq<SessionView>, key: SortKey): (r: seq<SessionView>)
    ensures |r| == |v| + 1
  {
    if v == [] || Key(v[0], key) <= Key(x, key) then [x] + v
    else [v[0]] + InsertDesc(x, v[1..], key)
  }

  /** No key in `v` exceeds `b`. */
  predicate AllAtMost(v: seq<SessionView>, key: SortKey, b: int) {
    forall k :: 0 <= k < |v| ==> Key(v[k], key) <= b
  }

  /** A list is sorted exactly when its head bounds its sorted tail. */
  lemma SortedCons(v: seq<SessionView>, key: SortKey)
    requires v != []
    ensures SortedDesc(v, key) <==> AllAtMost(v[1..], key, Key(v[0], key)) && SortedDesc(v[1..], key)
  {
    var t := v[1..];
    assert forall k :: 0 <= k < |t| ==> t[k] == v[k + 1];
    if AllAtMost(t, key, Key(v[0], key)) && SortedDesc(t, key) {
      forall i, j | 0 <= i < j < |v| ensures Key(v[i], key) >= Key(v[j], key) {
        assert v[j] == t[j - 1];
        if i > 0 {
          assert v[i] == t[i - 1];
        }
      }
    }
  }

  /** Inserting below a bound stays below it. */
  lemma {:induction false} InsertDescBounded(x: SessionView, v: seq<SessionView>, key: SortKey, b: int)
    requires AllAtMost(v, key, b) && Key(x, key) <= b
    ensures AllAtMost(InsertDesc(x, v, key), key, b)
  {
    var r := InsertDesc(x, v, key);
    if v != [] && Key(v[0], key) > Key(x, key) {
      var t := v[1..];
      assert forall k :: 0 <= k < |t| ==> t[k] == v[k + 1];
      InsertDescBounded(x, t, key, b);
      var rest := InsertDesc(x, t, key);
      assert r == [v[0]] + rest;
      forall k | 0 < k < |r| ensures Key(r[k], key) <= b {
        assert r[k] == rest[k - 1];
      }
    } else {
      assert r == [x] + v;
      forall k | 0 < k < |r| ensures Key(r[k], key) <= b {
        assert r[k] == v[k - 1];
      }
    }
  }

  /** Inserting into a sorted list keeps it sorted. */
  lemma {:induction false} InsertDescSorted(x: SessionView, v: seq<SessionView>, key: SortKey)
    requires SortedDesc(v, key)
    ensures SortedDesc(InsertDesc(x, v, key), key)
  {
    var r := InsertDesc(x, v, key);
    if v == [] {
      assert r == [x];
    } else if Key(v[0], key) > Key(x, key) {
      SortedCons(v, key);
      InsertDescSorted(x, v[1..], key);
      InsertDescBounded(x, v[1..], key, Key(v[0], key));
      assert r == [v[0]] + InsertDesc(x, v[1..], key);
      SortedCons(r, key);
    } else {
      assert r == [x] + v;
      assert AllAtMost(v, key, Key(x, key));
      SortedCons(r, key);
    }
  }

  /** Inserting adds exactly `x`. */
  lemma {:induction false} InsertDescPermutes(x: SessionView, v: seq<SessionView>, key: SortKey)
    ensures multiset(InsertDesc(x, v, key)) == multiset(v) + multiset{x}
  {
    if v != [] && Key(v[0], key) > Key(x, key) {
      InsertDescPermutes(x, v[1..], key);
      assert v == [v[0]] + v[1..];
    }
  }

  /** The sort returns a permutation of its input, in descending key order. */
  lemma {:induction false} SortDescSorted(v: seq<SessionView>, key: SortKey)
    ensures multiset(SortDesc(v, key)) == multiset(v)
    ensures SortedDesc(SortDesc(v, key), key)
  {
    if v != [] {
      SortDescSorted(v[1..], key);
      InsertDescSorted(v[0], SortDesc(v[1..], key), key);
      InsertDescPermutes(v[0], SortDesc(v[1..], key), key);
      assert v == [v[0]] + v[1..];
    }
  }

  /** The listing as written: sorted on the displayed minute. */
  function ListingAsWritten(s: seq<Session>, current: SessionId): (r: seq<SessionView>)
    ensures multiset(r) == multiset(Annotate(s, current))
    ensures SortedDesc(r, DisplayedMinute)
  {
    SortDescSorted(Annotate(s, current), DisplayedMinute);
    SortDesc(Annotate(s, current), DisplayedMinute)
  }

  /** Two logins within the same minute come out oldest first from the
      listing as written. */
  lemma ListingAsWrittenNotNewestFirst()
    ensures var s := [Session("a", 0, "d", "i"), Session("b", 30000, "d", "i")];
      var r := ListingAsWritten(s, "a");
      |r| == 2 && r[0].loginTime < r[1].loginTime
  {
    var s := [Session("a", 0, "d", "i"), Session("b", 30000, "d", "i")];
    var v := Annotate(s, "a");
    assert v == [SessionView("a", 0, "d", "i", true), SessionView("b", 30000, "d", "i", false)];
    assert v[1..] == [v[1]];
    var tail := SortDesc(v[1..], DisplayedMinute);
    assert [v[1]][1..] == [];
    assert tail == InsertDesc(v[1], [], DisplayedMinute) == [v[1]];
    assert Key(v[1], DisplayedMinute) <= Key(v[0], DisplayedMinute);
  }

  /** The listing, newest login first: one view per stored session, the
      current one marked. */
  function Listing(s: seq<Session>, current: SessionId): (r: seq<SessionView>)
    ensures |r| == |s|
    ensures multiset(r) == multiset(Annotate(s, current))
    ensures forall i, j :: 0 <= i < j < |r| ==> r[i].loginTime >= r[j].loginTime
  {
    SortDescSorted(Annotate(s, current), LoginTime);
    SortDesc(Annotate(s, current), LoginTime)
  }

  /** Every listed view is some stored session, marked current exactly when
      its id is the request's session id; every stored session is listed. */
  lemma ListingMarksCurrent(s: seq<Session>, current: SessionId)
    ensures forall v :: v in Listing(s, current) ==>
      (exists i :: 0 <= i < |s| && v.id == s[i].sessionId && v.loginTime == s[i].loginTime
                    && v.deviceName == s[i].device && v.location == s[i].ip)
      && (v.isCurrent <==> v.id == current)
    ensures forall i :: 0 <= i < |s| ==>
      SessionView(s[i].sessionId, s[i].loginTime, s[i].device, s[i].ip, s[i].sessionId == current) in Listing(s, current)
  {
    var a := Annotate(s, current);
    var r := Listing(s, current);
    forall v | v in r ensures
      (exists i :: 0 <= i < |s| && v.id == s[i].sessionId && v.loginTime == s[i].loginTime
                    && v.deviceName == s[i].device && v.location == s[i].ip)
      && (v.isCurrent <==> v.id == current)
    {
      assert v in multiset(r);
      assert v in multiset(a);
      var i :| 0 <= i < |a| && a[i] == v;
    }
    forall i | 0 <= i < |s| ensures
      SessionView(s[i].sessionId, s[i].loginTime, s[i].device, s[i].ip, s[i].sessionId == current) in r
    {
      assert a[i] in multiset(a);
    }
  }

  /** The views in reverse order. */
  function Reverse(v: seq<SessionView>): (r: seq<SessionView>)
    ensures |r| == |v|
    ensures forall k :: 0 <= k < |v| ==> r[k] == v[|v| - 1 - k]
  {
    if v == [] then [] else Reverse(v[1..]) + [v[0]]
  }

  /** Inserting an element whose key is below every other key appends it. */
  lemma {:induction false} InsertSmallest(x: SessionView, v: seq<SessionView>, key: SortKey)
    requires SortedDesc(v, key)
    requires forall k :: 0 <= k < |v| ==> Key(v[k], key) > Key(x, key)
    ensures InsertDesc(x, v, key) == v + [x]
  {
    if v != [] {
      InsertSmallest(x, v[1..], key);
      assert v == [v[0]] + v[1..];
    }
  }

  /** Sorting views whose keys strictly increase reverses them. */
  lemma {:induction false} SortIncreasing(v: seq<SessionView>, key: SortKey)
    requires Increasing(v, key)
    ensures SortDesc(v, key) == Reverse(v)
  {
    if v != [] {
      var tail := v[1..];
      IncreasingTail(v, key);
      SortIncreasing(tail, key);
      var r := Reverse(tail);
      forall k | 0 <= k < |r| ensures Key(r[k], key) > Key(v[0], key) {
        var j := |tail| - 1 - k;
        assert r[k] == tail[j];
        assert tail[j] == v[j + 1];
      }
      InsertSmallest(v[0], r, key);
    }
  }

  /** Keys strictly increase along `v`. */
  predicate Increasing(v: seq<SessionView>, key: SortKey) {
    forall i, j :: 0 <= i < j < |v| ==> Key(v[i], key) < Key(v[j], key)
  }

  lemma IncreasingTail(v: seq<SessionView>, key: SortKey)
    requires v != [] && Increasing(v, key)
    ensures Increasing(v[1..], key)
  {
    var tail := v[1..];
    forall i, j | 0 <= i < j < |tail| ensures Key(tail[i], key) < Key(tail[j], key) {
      assert tail[i] == v[i + 1] && tail[j] == v[j + 1];
    }
  }

  /** When sessions were stored in strictly increasing login time, as
      logins append them, the listing is the stored list reversed. */
  lemma ListingReversesLoginOrder(s: seq<Session>, current: SessionId)
    requires forall i, j :: 0 <= i < j < |s| ==> s[i].loginTime < s[j].loginTime
    ensures forall k :: 0 <= k < |s| ==> Listing(s, current)[k].id == s[|s| - 1 - k].sessionId
  {
    var a := Annotate(s, current);
    SortIncreasing(a, LoginTime);
  }
}
