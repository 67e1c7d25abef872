/** Product reviews: the schema's field constraints and the review routes —
    listing a product's reviews with their mean rating, submitting,
    editing and deleting a review. */
module Reviews {
  import opened Common
  import opened Text

  const MaxNameLength: nat := 50
  const MinRating: int := 1
  const MaxRating: int := 5

  /** One document of the reviews collection. Fields the schema does not
      declare (a reviewer's user id, an update stamp) are not stored. */
  datatype Review = Review(id: string, productId: string, name: string, review: string, rating: int, createdAt: int)

  /** The schema's constraints on a stored review: an id and a product id
      in the driver's spelling, a trimmed non-empty name of at most fifty
      characters, trimmed non-empty text, and a rating from one to five. */
  predicate ValidReview(r: Review) {
    && IsCanonicalObjectId(r.id) && IsCanonicalObjectId(r.productId)
    && r.name != "" && r.name == Trim(r.name) && |r.name| <= MaxNameLength
    && r.review != "" && r.review == Trim(r.review)
    && MinRating <= r.rating <= MaxRating
  }

  /** `parseInt(rating)` followed by the routes' range check. */
  function ParseRating(s: string): (r: Option<int>)
    ensures r.Some? <==> ParseInt(s).Some? && MinRating <= ParseInt(s).value <= MaxRating
    ensures r.Some? ==> r.value == ParseInt(s).value
  {
    match ParseInt(s)
    case None => None
    case Some(n) => if n < MinRating || n > MaxRating then None else Some(n)
  }

  /** Every star count, written as a numeral, is accepted as itself. */
  lemma RatingNumeralAccepted(n: nat)
    requires MinRating <= n <= MaxRating
    ensures ParseRating(NatToString(n)) == Some(n)
  {
    ParseIntOfNumeral(n);
  }

  // ---------------------------------------------------------------------
  // The mean rating
  // ---------------------------------------------------------------------

  /** The `reduce` over the ratings. */
  function SumRatings(rs: seq<Review>): int {
    if rs == [] then 0 else rs[0].rating + SumRatings(rs[1..])
  }

  /** The mean rating, 0 when there are no reviews. */
  function Average(rs: seq<Review>): (a: real)
    ensures rs == [] ==> a == 0.0
    ensures rs != [] ==> a * (|rs| as real) == SumRatings(rs) as real
  {
    if rs == [] then 0.0 else (SumRatings(rs) as real) / (|rs| as real)
  }

  lemma {:induction false} SumBounds(rs: seq<Review>)
    requires forall k :: 0 <= k < |rs| ==> MinRating <= rs[k].rating <= MaxRating
    ensures MinRating * |rs| <= SumRatings(rs) <= MaxRating * |rs|
  {
    if rs != [] {
      SumBounds(rs[1..]);
    }
  }

  /** The mean of valid ratings lies between one and five stars. */
  lemma AverageInRange(rs: seq<Review>)
    requires rs != [] && forall k :: 0 <= k < |rs| ==> ValidReview(rs[k])
    ensures MinRating as real <= Average(rs) <= MaxRating as real
  {
    SumBounds(rs);
    QuotientBounds(SumRatings(rs), |rs|);
  }

  /** A sum of `n` values from one to five, divided by `n`. */
  lemma QuotientBounds(sum: int, n: nat)
    requires n > 0 && MinRating * n <= sum <= MaxRating * n
    ensures MinRating as real <= (sum as real) / (n as real) <= MaxRating as real
  {
  }

  /** `find({productId})`: the product's reviews, in collection order. */
  function ForProduct(rs: seq<Review>, productId: string): (r: seq<Review>)
    ensures |r| <= |rs|
  {
    if rs == [] then []
    else if rs[0].productId == productId then [rs[0]] + ForProduct(rs[1..], productId)
    else ForProduct(rs[1..], productId)
  }

  lemma {:induction false} ForProductMembers(rs: seq<Review>, productId: string)
    ensures forall x :: x in ForProduct(rs, productId) <==> x in rs && x.productId == productId
  {
    if rs != [] {
      ForProductMembers(rs[1..], productId);
      assert rs == [rs[0]] + rs[1..];
    }
  }

  // ---------------------------------------------------------------------
  // The collection and the routes
  // ---------------------------------------------------------------------

  datatype ReviewsReply = ReviewsReply(total: nat, averageRating: real, data: seq<Review>)

  /** The fields a review submission carries; `None` is a field left out.
      The rating is taken in its string form. */
  datatype Submission = Submission(
    productId: Option<string>,
    name: Option<string>,
    review: Option<string>,
    rating: Option<string>,
    userId: Option<string>)

  /** What the route hands to `Review.create`: the parsed rating, and the
      user id or null. */
  datatype Payload = Payload(productId: string, name: string, review: string, rating: int, userId: Option<string>)

  /** `Review.create(payload)`: the schema trims the strings and drops the
      undeclared user id and casts the product id; `None` is a validation
      error. */
  function Create(p: Payload, id: string, now: int): (r: Option<Review>)
    requires IsCanonicalObjectId(id)
    ensures r.Some? ==> ValidReview(r.value) && r.value.id == id && r.value.rating == p.rating
    ensures r.Some? <==>
      && IsValidObjectId(p.productId) && MinRating <= p.rating <= MaxRating
      && Trim(p.name) != "" && |Trim(p.name)| <= MaxNameLength && Trim(p.review) != ""
    ensures r.Some? ==> r.value.productId == CastObjectId(p.productId)
  {
    if !IsValidObjectId(p.productId) || p.rating < MinRating || p.rating > MaxRating
       || Trim(p.name) == "" || |Trim(p.name)| > MaxNameLength || Trim(p.review) == "" then None
    else
      TrimIdempotent(p.name);
      TrimIdempotent(p.review);
      Some(Review(id, CastObjectId(p.productId), Trim(p.name), Trim(p.review), p.rating, now))
  }

  predicate DistinctReviewIds(rs: seq<Review>) {
    forall i, j :: 0 <= i < j < |rs| ==> rs[i].id != rs[j].id
  }

  function ReviewId(r: Review): string { r.id }

  /** `findById(id)` on the reviews collection. */
  function FindReview(rs: seq<Review>, id: string): Option<nat> {
    FindById(rs, ReviewId, id)
  }

  /** The reviews collection. */
  class ReviewStore {
    var reviews: seq<Review>

    ghost predicate Valid()
      reads this
    {
      DistinctReviewIds(reviews) && forall i :: 0 <= i < |reviews| ==> ValidReview(reviews[i])
    }

    constructor ()
      ensures reviews == [] && Valid()
    {
      reviews := [];
    }

    /** `GET /?productId=`: 400 without a product id or with a malformed
        one; otherwise the product's reviews, their count and their mean
        rating. */
    function List(productId: Option<string>): (r: Response<ReviewsReply>)
      reads this
      ensures !Truthy(productId) || !IsValidObjectId(productId.value) <==> r == Failure(BadRequestStatus)
      ensures r.Success? ==>
        && r.code == OkStatus
        && (forall x :: x in r.value.data <==> x in reviews && x.productId == CastObjectId(productId.value))
        && r.value.total == |r.value.data|
        && r.value.averageRating == Average(r.value.data)
    {
      if !Truthy(productId) || !IsValidObjectId(productId.value) then Failure(BadRequestStatus)
      else
        var key := CastObjectId(productId.value);
        ForProductMembers(reviews, key);
        var data := ForProduct(reviews, key);
        Success(OkStatus, ReviewsReply(|data|, Average(data), data))
    }

    /** `POST /`: 400 when a field is missing, the rating is not a whole
        number from one to five, the product id is malformed, or the schema
        refuses the review; otherwise the review is stored (201). */
    method Submit(s: Submission, id: string, now: int) returns (r: Response<Review>)
      requires Valid() && IsCanonicalObjectId(id) && FindReview(reviews, id).None?
      modifies this
      ensures Valid()
      ensures !Truthy(s.productId) || !Truthy(s.name) || !Truthy(s.review) || !Truthy(s.rating)
        ==> r == Failure(BadRequestStatus)
      ensures r.Success? <==>
        && Truthy(s.productId) && Truthy(s.name) && Truthy(s.review) && Truthy(s.rating)
        && ParseRating(s.rating.value).Some? && IsValidObjectId(s.productId.value)
        && Trim(s.name.value) != "" && |Trim(s.name.value)| <= MaxNameLength && Trim(s.review.value) != ""
      ensures r.Success? ==>
        && r.code == CreatedStatus
        && reviews == old(reviews) + [r.value]
        && r.value.rating == ParseRating(s.rating.value).value
        && r.value.name == Trim(s.name.value) && r.value.review == Trim(s.review.value)
        && r.value.productId == CastObjectId(s.productId.value)
      ensures !r.Success? ==> r == Failure(BadRequestStatus) && reviews == old(reviews)
    {
      if !Truthy(s.productId) || !Truthy(s.name) || !Truthy(s.review) || !Truthy(s.rating) {
        return Failure(BadRequestStatus);
      }
      var rating := ParseRating(s.rating.value);
      if rating.None? {
        return Failure(BadRequestStatus);
      }
      if !IsValidObjectId(s.productId.value) {
        return Failure(BadRequestStatus);
      }
      var payload := Payload(s.productId.value, s.name.value, s.review.value, rating.value, Kept(s.userId));
      var created := Create(payload, id, now);
      if created.None? {
        return Failure(BadRequestStatus);
      }
      Append(created.value);
      r := Success(CreatedStatus, created.value);
    }

    /** `PUT /:id`: 400 without text or rating, for a rating outside one to
        five, for a malformed id, or for text that trims to nothing; 404
        for an unknown review; otherwise only the text and the rating
        change. */
    method Edit(id: string, text: Option<string>, rating: Option<string>) returns (r: Response<Review>)
      requires Valid()
      modifies this
      ensures Valid()
      ensures !Truthy(text) || !Truthy(rating) || ParseRating(rating.value).None? || !IsValidObjectId(id)
              || Trim(text.value) == "" ==>
        r == Failure(BadRequestStatus) && reviews == old(reviews)
      ensures Truthy(text) && Truthy(rating) && ParseRating(rating.value).Some? && IsValidObjectId(id)
              && Trim(text.value) != "" ==>
        match FindReview(old(reviews), CastObjectId(id))
        case None => r == Failure(NotFoundStatus) && reviews == old(reviews)
        case Some(i) =>
          && reviews == old(reviews)[i := old(reviews)[i].(review := Trim(text.value), rating := ParseRating(rating.value).value)]
          && r == Success(OkStatus, reviews[i])
    {
      if !Truthy(text) || !Truthy(rating) {
        return Failure(BadRequestStatus);
      }
      var n := ParseRating(rating.value);
      if n.None? || !IsValidObjectId(id) {
        return Failure(BadRequestStatus);
      }
      var t := Trim(text.value);
      if t == "" {
        return Failure(BadRequestStatus);
      }
      var found := FindReview(reviews, CastObjectId(id));
      if found.None? {
        return Failure(NotFoundStatus);
      }
      var i := found.value;
      TrimIdempotent(text.value);
      var edited := reviews[i].(review := t, rating := n.value);
      Replace(i, edited);
      r := Success(OkStatus, edited);
    }

    /** Stores a new valid review under a fresh id. */
    method Append(doc: Review)
      requires Valid() && ValidReview(doc) && FindReview(reviews, doc.id).None?
      modifies this
      ensures Valid() && reviews == old(reviews) + [doc]
    {
      AppendValid(reviews, doc);
      reviews := reviews + [doc];
    }

    /** Overwrites the review at `i` with a valid one under the same id. */
    method Replace(i: nat, doc: Review)
      requires Valid() && i < |reviews| && ValidReview(doc) && doc.id == reviews[i].id
      modifies this
      ensures Valid() && reviews == old(reviews)[i := doc]
    {
      reviews := reviews[i := doc];
    }

    /** `DELETE /:id`: 400 for a malformed id, 404 for an unknown review,
        otherwise that review is removed. */
    method Delete(id: string) returns (r: Response<()>)
      requires Valid()
      modifies this
      ensures Valid()
      ensures !IsValidObjectId(id) ==> r == Failure(BadRequestStatus) && reviews == old(reviews)
      ensures IsValidObjectId(id) ==>
        match FindReview(old(reviews), CastObjectId(id))
        case None => r == Failure(NotFoundStatus) && reviews == old(reviews)
        case Some(i) => r == Success(OkStatus, ()) && reviews == old(reviews)[..i] + old(reviews)[i + 1..]
    {
      if !IsValidObjectId(id) {
        return Failure(BadRequestStatus);
      }
      var found := FindReview(reviews, CastObjectId(id));
      if found.None? {
        return Failure(NotFoundStatus);
      }
      var i := found.value;
      var rest := reviews[..i] + reviews[i + 1..];
      RemoveReviewValid(reviews, i);
      reviews := rest;
      r := Success(OkStatus, ());
    }
  }

  /** Appending a valid review under a fresh id keeps the collection valid. */
  lemma AppendValid(rs: seq<Review>, doc: Review)
    requires DistinctReviewIds(rs) && forall j :: 0 <= j < |rs| ==> ValidReview(rs[j])
    requires ValidReview(doc) && forall j :: 0 <= j < |rs| ==> rs[j].id != doc.id
    ensures var all := rs + [doc];
      DistinctReviewIds(all) && forall j :: 0 <= j < |all| ==> ValidReview(all[j])
  {
    var all := rs + [doc];
    assert forall j :: 0 <= j < |rs| ==> all[j] == rs[j];
  }

  lemma RemoveReviewValid(rs: seq<Review>, i: nat)
    requires i < |rs| && DistinctReviewIds(rs) && forall j :: 0 <= j < |rs| ==> ValidReview(rs[j])
    ensures var rest := rs[..i] + rs[i + 1..];
      DistinctReviewIds(rest) && forall j :: 0 <= j < |rest| ==> ValidReview(rest[j])
  {
    var rest := rs[..i] + rs[i + 1..];
    assert forall j :: 0 <= j < |rest| ==> rest[j] == rs[if j < i then j else j + 1];
  }
}
