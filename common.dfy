/** Shared vocabulary of the backend: optional values, handler responses,
    HTTP status codes, JavaScript truthiness and object-id syntax. */
module Common {

  datatype Option<+T> = None | Some(value: T)

  /** A document id, in its string form. */
  type UserId = string

  /** A login session's id, a version-4 uuid in its string form. */
  type SessionId = string

  /** What a request handler sends back: a success with its HTTP status and
      payload, a rejection with its HTTP status, or a unique-key violation
      (HTTP 409) naming the offending field. */
  datatype Response<+T> =
    | Success(code: nat, value: T)
    | Failure(code: nat)
    | Conflict(field: string)
  {
    function Status(): nat {
      match this
      case Success(c, _) => c
      case Failure(c) => c
      case Conflict(_) => ConflictStatus
    }
  }

  const OkStatus: nat := 200
  const CreatedStatus: nat := 201
  const BadRequestStatus: nat := 400
  const UnauthorizedStatus: nat := 401
  const ForbiddenStatus: nat := 403
  const NotFoundStatus: nat := 404
  const ConflictStatus: nat := 409
  const ServerErrorStatus: nat := 500

  /** JavaScript truthiness of an optional string field of a request:
      present (not undefined or null) and not the empty string. */
  predicate Truthy(s: Option<string>) {
    s.Some? && s.value != ""
  }

  /** `a || b` on an optional string with a string fallback. */
  function OrElse(s: Option<string>, fallback: string): (r: string)
    ensures Truthy(s) ==> r == s.value
    ensures !Truthy(s) ==> r == fallback
  {
    if Truthy(s) then s.value else fallback
  }

  /** `x || null`: keeps an optional string only when it is truthy. */
  function Kept(s: Option<string>): (r: Option<string>)
    ensures r.Some? <==> Truthy(s)
    ensures r.Some? ==> r == s
  {
    if Truthy(s) then s else None
  }

  predicate IsHexDigit(c: char) {
    ('0' <= c <= '9') || ('a' <= c <= 'f') || ('A' <= c <= 'F')
  }

  /** The string form of a document id accepted by the driver's id check:
      exactly 24 hexadecimal digits. */
  predicate IsValidObjectId(s: string) {
    |s| == 24 && forall i :: 0 <= i < |s| ==> IsHexDigit(s[i])
  }

  /** The value of one hexadecimal digit, in either case. */
  function HexValue(c: char): (v: nat)
    requires IsHexDigit(c)
    ensures v < 16
    ensures ('0' <= c <= '9') ==> v == c as int - '0' as int
    ensures ('a' <= c <= 'f') || ('A' <= c <= 'F') ==> v >= 10
  {
    if '0' <= c <= '9' then c as int - '0' as int
    else if 'a' <= c <= 'f' then c as int - 'a' as int + 10
    else c as int - 'A' as int + 10
  }

  /** The spelling the driver gives an id it hands back: lower-case
      hexadecimal. Every stored id is in this form. */
  predicate IsCanonicalObjectId(s: string) {
    |s| == 24 && forall i :: 0 <= i < |s| ==> IsLowerHexDigit(s[i])
  }

  predicate IsLowerHexDigit(c: char) {
    ('0' <= c <= '9') || ('a' <= c <= 'f')
  }

  function LowerHexDigit(c: char): (d: char)
    requires IsHexDigit(c)
    ensures IsLowerHexDigit(d) && HexValue(d) == HexValue(c)
  {
    if 'A' <= c <= 'F' then (c as int - 'A' as int + 'a' as int) as char else c
  }

  /** The cast of a well-formed id string to an object id, as a query
      filter sees it: the same twelve bytes, spelt in lower case. */
  function CastObjectId(s: string): (r: string)
    requires IsValidObjectId(s)
    ensures IsCanonicalObjectId(r) && |r| == |s|
    ensures forall i :: 0 <= i < |s| ==> HexValue(r[i]) == HexValue(s[i])
  {
    seq(|s|, i requires 0 <= i < |s| => LowerHexDigit(s[i]))
  }

  /** Two lower-case digits with the same value are the same digit. */
  lemma LowerDigitsEqual(c: char, d: char)
    requires IsLowerHexDigit(c) && IsLowerHexDigit(d)
    requires HexValue(c) == HexValue(d)
    ensures c == d
  {
    if '0' <= c <= '9' {
      assert '0' <= d <= '9';
    } else {
      assert 'a' <= d <= 'f';
    }
  }

  /** Two well-formed spellings denote the same object id exactly when they
      agree digit by digit in value: the lookup by id ignores the case of
      the letters. */
  lemma {:induction false} CastIgnoresCase(s: string, t: string)
    requires IsValidObjectId(s) && IsValidObjectId(t)
    ensures CastObjectId(s) == CastObjectId(t) <==> forall i :: 0 <= i < |s| ==> HexValue(s[i]) == HexValue(t[i])
  {
    var cs, ct := CastObjectId(s), CastObjectId(t);
    if forall i :: 0 <= i < |s| ==> HexValue(s[i]) == HexValue(t[i]) {
      forall i | 0 <= i < |s| ensures cs[i] == ct[i] {
        LowerDigitsEqual(cs[i], ct[i]);
      }
    }
  }

  /** A stored id is found under its own spelling. */
  lemma {:induction false} CastCanonical(s: string)
    requires IsCanonicalObjectId(s)
    ensures CastObjectId(s) == s
  {
    var r := CastObjectId(s);
    forall i | 0 <= i < |s| ensures r[i] == s[i] {
      LowerDigitsEqual(r[i], s[i]);
    }
  }

  /** `findById(id)` over a collection: the position of the first item
      whose id is `id`. */
  function FindById<T>(items: seq<T>, idOf: T -> string, id: string): (r: Option<nat>)
    ensures r.None? <==> forall i :: 0 <= i < |items| ==> idOf(items[i]) != id
    ensures r.Some? ==>
      && r.value < |items| && idOf(items[r.value]) == id
      && forall j :: 0 <= j < r.value ==> idOf(items[j]) != id
  {
    if items == [] then None
    else if idOf(items[0]) == id then Some(0)
    else match FindById(items[1..], idOf, id)
      case None => None
      case Some(i) => Some(i + 1)
  }

  /** A document whose stored id is in the driver's spelling is found by
      `findById` under every spelling of that id, whatever the case of its
      letters, when no other document carries the same id. */
  lemma FoundUnderAnySpelling<T>(items: seq<T>, idOf: T -> string, i: nat, id: string)
    requires i < |items| && IsCanonicalObjectId(idOf(items[i]))
    requires forall j :: 0 <= j < |items| && j != i ==> idOf(items[j]) != idOf(items[i])
    requires IsValidObjectId(id) && forall k :: 0 <= k < |id| ==> HexValue(id[k]) == HexValue(idOf(items[i])[k])
    ensures FindById(items, idOf, CastObjectId(id)) == Some(i)
  {
    CastIgnoresCase(id, idOf(items[i]));
    CastCanonical(idOf(items[i]));
  }
}
