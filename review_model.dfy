/** The Review model (models/Review.js): the schema's validators, the unique
    (bootcamp, user) index and the value `getAverageRating` computes. */
module ReviewModel {
  import opened Common
  import opened JsRuntime
  import opened Aggregates

  /** The longest title the `maxlength` validator admits, in UTF-16 code units. */
  const MaxTitleLength: nat := 100
  const MinRating: real := 1.0
  const MaxRating: real := 10.0

  /** A stored review. `createdAt` defaults to the clock reading at creation. */
  datatype Review = Review(
    id: Id, title: string, text: string, rating: real, createdAt: int, bootcamp: Id, user: Id)

  /** A request body for a review: every field may be absent. */
  datatype ReviewBody = ReviewBody(
    title: Option<string>, text: Option<string>, rating: Option<real>,
    createdAt: Option<int>, bootcamp: Option<Id>, user: Option<Id>)

  /** A review as the schema admits it: the title is stored trimmed, not empty and
      at most 100 UTF-16 units long; the text is not empty; the rating lies in 1..10. */
  predicate ValidReview(r: Review) {
    && r.title != "" && IsTrimmed(r.title) && Utf16Length(r.title) <= MaxTitleLength
    && r.text != ""
    && MinRating <= r.rating <= MaxRating
  }

  /** Lines 4-34 on create: every path is required; `title` is checked after the
      `trim` setter ran; `rating` must lie within `min` and `max`. */
  predicate CreatableReview(b: ReviewBody) {
    && b.title.Some? && Trim(b.title.value) != "" && Utf16Length(Trim(b.title.value)) <= MaxTitleLength
    && b.text.Some? && b.text.value != ""
    && b.rating.Some? && MinRating <= b.rating.value <= MaxRating
    && b.bootcamp.Some?
    && b.user.Some?
  }

  /** `new Review(body)` followed by validation: the document with the trimmed title
      and `createdAt` defaulted to now when the body leaves it out, or a
      validation error. */
  function CreateReview(b: ReviewBody, id: Id, now: int): (r: Result<Review>)
    ensures r.Ok? <==> CreatableReview(b)
    ensures r.Err? ==> r.error == ValidationError
    ensures r.Ok? ==> ValidReview(r.value)
    ensures r.Ok? ==> r.value.id == id
    ensures r.Ok? ==> r.value.createdAt == (if b.createdAt.Some? then b.createdAt.value else now)
    ensures r.Ok? ==> r.value.title == Trim(b.title.value) && r.value.rating == b.rating.value
    ensures r.Ok? ==> r.value.text == b.text.value
    ensures r.Ok? ==> r.value.bootcamp == b.bootcamp.value && r.value.user == b.user.value
  {
    if !CreatableReview(b) then Err(ValidationError)
    else
      TrimCharacterised(b.title.value);
      Ok(Review(id, Trim(b.title.value), b.text.value, b.rating.value,
                if b.createdAt.Some? then b.createdAt.value else now,
                b.bootcamp.value, b.user.value))
  }

  /** A rating outside 1..10 is refused whatever the other fields say. */
  lemma RatingOutOfRangeRefused(b: ReviewBody, id: Id, now: int)
    requires b.rating.Some? && (b.rating.value < 1.0 || b.rating.value > 10.0)
    ensures CreateReview(b, id, now) == Err(ValidationError)
  {
  }

  /** A title of 51 emoji (U+1F600) is 102 units, over `maxlength`, although it
      holds only 51 characters. */
  lemma {:induction false} AstralTitleTooLongRefused(b: ReviewBody, id: Id, now: int)
    requires b.title == Some(seq(51, i => '\U{1F600}'))
    ensures CreateReview(b, id, now) == Err(ValidationError)
  {
    var t := seq(51, i => '\U{1F600}');
    assert !IsStrWhiteSpace(t[0]) && !IsStrWhiteSpace(t[50]);
    assert TrimStart(t) == t;
    assert TrimEnd(t) == t;
    Utf16LengthAstral(t);
  }

  /** A title of 101 ASCII letters is one unit too long. */
  lemma {:induction false} TitleTooLongRefused(b: ReviewBody, id: Id, now: int)
    requires b.title == Some(seq(101, i => 'a'))
    ensures CreateReview(b, id, now) == Err(ValidationError)
  {
    var t := seq(101, i => 'a');
    assert !IsStrWhiteSpace(t[0]) && !IsStrWhiteSpace(t[100]);
    assert TrimStart(t) == t;
    assert TrimEnd(t) == t;
    assert Utf16Length(t) >= |t|;
  }

  // ---------------------------------------------------------------------------
  // The unique index on (bootcamp, user) (line 37)

  /** Whether some review in `rs` already holds the pair. */
  predicate HasPair(rs: seq<Review>, bootcamp: Id, user: Id) {
    exists i :: 0 <= i < |rs| && rs[i].bootcamp == bootcamp && rs[i].user == user
  }

  /** No two reviews share a (bootcamp, user) pair. */
  predicate UniquePairs(rs: seq<Review>) {
    forall i, j :: 0 <= i < j < |rs| ==>
      rs[i].bootcamp != rs[j].bootcamp || rs[i].user != rs[j].user
  }

  /** Appending a review keeps the index satisfied exactly when its pair is new. */
  lemma UniquePairsAppend(rs: seq<Review>, r: Review)
    requires UniquePairs(rs)
    ensures UniquePairs(rs + [r]) <==> !HasPair(rs, r.bootcamp, r.user)
  {
    var rs' := rs + [r];
    if HasPair(rs, r.bootcamp, r.user) {
      var i :| 0 <= i < |rs| && rs[i].bootcamp == r.bootcamp && rs[i].user == r.user;
      assert rs'[i] == rs[i] && rs'[|rs|] == r;
    } else {
      forall i, j | 0 <= i < j < |rs'|
        ensures rs'[i].bootcamp != rs'[j].bootcamp || rs'[i].user != rs'[j].user
      {
        if j == |rs| {
          assert rs'[i] == rs[i];
        } else {
          assert rs'[i] == rs[i] && rs'[j] == rs[j];
        }
      }
    }
  }

  /** Removing the review at index `k` keeps the index satisfied. */
  lemma UniquePairsRemove(rs: seq<Review>, k: nat)
    requires UniquePairs(rs) && k < |rs|
    ensures UniquePairs(rs[..k] + rs[k + 1..])
  {
    var rs' := rs[..k] + rs[k + 1..];
    forall i, j | 0 <= i < j < |rs'|
      ensures rs'[i].bootcamp != rs'[j].bootcamp || rs'[i].user != rs'[j].user
    {
      var i0 := if i < k then i else i + 1;
      var j0 := if j < k then j else j + 1;
      assert rs'[i] == rs[i0] && rs'[j] == rs[j0];
    }
  }

  // ---------------------------------------------------------------------------
  // getAverageRating (lines 40-62)

  /** The `$match: { bootcamp: bootcampID }` stage projected on `rating`: the
      ratings of that bootcamp's reviews, in store order. */
  function Ratings(rs: seq<Review>, bootcamp: Id): (xs: seq<real>)
    ensures |xs| <= |rs|
    ensures |xs| == 0 <==> forall i :: 0 <= i < |rs| ==> rs[i].bootcamp != bootcamp
  {
    if rs == [] then []
    else (if rs[0].bootcamp == bootcamp then [rs[0].rating] else []) + Ratings(rs[1..], bootcamp)
  }

  /** The value `getAverageRating` writes: the `$avg` of the group's ratings,
      unrounded; `None` when no review matches, where `obj[0]` is undefined and the
      resulting TypeError is caught and logged. */
  function AverageRating(rs: seq<Review>, bootcamp: Id): (r: Option<real>)
    ensures r.None? <==> forall i :: 0 <= i < |rs| ==> rs[i].bootcamp != bootcamp
  {
    var xs := Ratings(rs, bootcamp);
    if |xs| == 0 then None else Some(Mean(xs))
  }

  predicate AllValid(rs: seq<Review>) {
    forall i :: 0 <= i < |rs| ==> ValidReview(rs[i])
  }

  /** Every rating in the group comes from a valid review and so lies in 1..10. */
  lemma {:induction false} RatingsWithin(rs: seq<Review>, bootcamp: Id)
    requires AllValid(rs)
    ensures AllWithin(Ratings(rs, bootcamp), 1.0, 10.0)
  {
    if rs != [] {
      assert AllValid(rs[1..]) by {
        forall i | 0 <= i < |rs[1..]| ensures ValidReview(rs[1..][i]) {
          assert rs[1..][i] == rs[i + 1];
        }
      }
      RatingsWithin(rs[1..], bootcamp);
      assert ValidReview(rs[0]);
    }
  }

  /** Since every stored rating lies in 1..10, so does every average written. */
  lemma {:induction false} AverageRatingInRange(rs: seq<Review>, bootcamp: Id)
    requires AllValid(rs)
    ensures AverageRating(rs, bootcamp).Some? ==>
      1.0 <= AverageRating(rs, bootcamp).value <= 10.0
  {
    var xs := Ratings(rs, bootcamp);
    if |xs| > 0 {
      RatingsWithin(rs, bootcamp);
      MeanWithin(xs, 1.0, 10.0);
    }
  }

  lemma {:induction false} RatingsAppend(rs: seq<Review>, r: Review, bootcamp: Id)
    ensures Ratings(rs + [r], bootcamp) ==
      Ratings(rs, bootcamp) + (if r.bootcamp == bootcamp then [r.rating] else [])
  {
    var tail: seq<real> := if r.bootcamp == bootcamp then [r.rating] else [];
    if rs == [] {
      assert rs + [r] == [r];
      assert [r][1..] == [];
    } else {
      var rs' := rs + [r];
      var head: seq<real> := if rs[0].bootcamp == bootcamp then [rs[0].rating] else [];
      assert rs'[0] == rs[0] && rs'[1..] == rs[1..] + [r];
      RatingsAppend(rs[1..], r, bootcamp);
      assert Ratings(rs', bootcamp) == head + (Ratings(rs[1..], bootcamp) + tail);
      assert head + (Ratings(rs[1..], bootcamp) + tail) == (head + Ratings(rs[1..], bootcamp)) + tail;
    }
  }

  /** Appending another bootcamp's review leaves the rating list alone. */
  lemma {:induction false} RatingsIgnoresOther(rs: seq<Review>, r: Review, bootcamp: Id)
    requires r.bootcamp != bootcamp
    ensures Ratings(rs + [r], bootcamp) == Ratings(rs, bootcamp)
  {
    RatingsAppend(rs, r, bootcamp);
    assert Ratings(rs, bootcamp) + [] == Ratings(rs, bootcamp);
  }

  /** Only the reviews of the bootcamp count: adding a review of another bootcamp
      leaves its average where it was. */
  lemma {:induction false} AverageRatingIgnoresOthers(rs: seq<Review>, r: Review, bootcamp: Id)
    requires r.bootcamp != bootcamp
    ensures AverageRating(rs + [r], bootcamp) == AverageRating(rs, bootcamp)
  {
    RatingsIgnoresOther(rs, r, bootcamp);
  }

  /** The recomputation after a save includes the saved review. */
  lemma {:induction false} AverageRatingAfterSave(rs: seq<Review>, r: Review)
    ensures AverageRating(rs + [r], r.bootcamp) == Some(Mean(Ratings(rs, r.bootcamp) + [r.rating]))
  {
    RatingsAppend(rs, r, r.bootcamp);
  }

  /** Ratings of 7 and 8 average to 7.5: the mean is written without rounding. */
  lemma {:induction false} AverageRatingExample(r: Review)
    ensures AverageRating([r.(rating := 7.0), r.(rating := 8.0)], r.bootcamp) == Some(7.5)
  {
    var rs := [r.(rating := 7.0), r.(rating := 8.0)];
    assert Ratings(rs[1..], r.bootcamp) == [8.0] by {
      assert rs[1..][1..] == [];
    }
    assert Ratings(rs, r.bootcamp) == [7.0, 8.0];
    assert Sum([7.0, 8.0]) == 15.0;
  }
}
