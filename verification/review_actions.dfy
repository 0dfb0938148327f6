/** `createUpdateReview` of lib/actions/review.actions.ts: a review upsert
    keyed by (product, author), followed in the same transaction by a full
    recomputation of the product's review count and mean rating. */
module ReviewActions {
  import opened Common
  import opened Store

  /** A review as `insertReviewSchema.parse` returns it (the schema itself is
      not part of this model; a failed parse is passed in as `None`). */
  datatype ReviewInput = ReviewInput(productId: Id, userId: Id, title: string, description: string, rating: int)

  /** The number of reviews of a product (`review.count`). */
  function Count(reviews: seq<Review>, productId: Id): nat
    decreases |reviews|
  {
    if |reviews| == 0 then 0
    else (if reviews[0].productId == productId then 1 else 0) + Count(reviews[1..], productId)
  }

  /** The sum of a product's review ratings. */
  function RatingSum(reviews: seq<Review>, productId: Id): int
    decreases |reviews|
  {
    if |reviews| == 0 then 0
    else (if reviews[0].productId == productId then reviews[0].rating else 0) + RatingSum(reviews[1..], productId)
  }

  /** Every rating is between 1 and 5, the choices the review form offers;
      the server action itself does not check the range. */
  predicate RatingsInRange(reviews: seq<Review>) {
    forall k :: 0 <= k < |reviews| ==> 1 <= reviews[k].rating <= 5
  }

  lemma {:induction false} RatingSumBounds(reviews: seq<Review>, productId: Id)
    ensures RatingsInRange(reviews) ==>
              Count(reviews, productId) <= RatingSum(reviews, productId) <= 5 * Count(reviews, productId)
    decreases |reviews|
  {
    if |reviews| > 0 {
      RatingSumBounds(reviews[1..], productId);
      if RatingsInRange(reviews) {
        assert forall k :: 0 <= k < |reviews[1..]| ==> reviews[1..][k] == reviews[k + 1];
      }
    }
  }

  /** `_avg.rating || 0`: the mean rating, or 0 when there is no review (a
      null average) — and also when the mean is 0, which `||` maps to 0 too. */
  function MeanOrZero(reviews: seq<Review>, productId: Id): (m: real)
    ensures Count(reviews, productId) == 0 ==> m == 0.0
    // the mean: it times the number of reviews gives the rating sum
    ensures Count(reviews, productId) > 0 ==> m * Count(reviews, productId) as real == RatingSum(reviews, productId) as real
    // with ratings from 1 to 5 the mean is in that range too
    ensures Count(reviews, productId) > 0 && RatingsInRange(reviews) ==> 1.0 <= m <= 5.0
  {
    RatingSumBounds(reviews, productId);
    var n := Count(reviews, productId);
    if n == 0 then 0.0
    else
      var sum := RatingSum(reviews, productId) as real;
      QuotientBounds(sum, n as real);
      sum / n as real
  }

  /** A sum between n and 5n, divided by n, lies between 1 and 5. */
  lemma QuotientBounds(sum: real, n: real)
    requires n > 0.0
    ensures n <= sum <= 5.0 * n ==> 1.0 <= sum / n <= 5.0
  {
    if n <= sum <= 5.0 * n {
      assert sum / n * n == sum;
    }
  }

  lemma {:induction false} AppendAggregates(reviews: seq<Review>, r: Review, productId: Id)
    ensures Count(reviews + [r], productId) == Count(reviews, productId) + (if r.productId == productId then 1 else 0)
    ensures RatingSum(reviews + [r], productId) == RatingSum(reviews, productId) + (if r.productId == productId then r.rating else 0)
    decreases |reviews|
  {
    if |reviews| > 0 {
      assert (reviews + [r])[1..] == reviews[1..] + [r];
      AppendAggregates(reviews[1..], r, productId);
    }
  }

  lemma {:induction false} ReplaceAggregates(reviews: seq<Review>, i: nat, r: Review, productId: Id)
    requires i < |reviews| && reviews[i].productId == r.productId
    ensures Count(reviews[i := r], productId) == Count(reviews, productId)
    ensures RatingSum(reviews[i := r], productId) ==
              RatingSum(reviews, productId) + (if r.productId == productId then r.rating - reviews[i].rating else 0)
    decreases |reviews|
  {
    if i > 0 {
      assert reviews[i := r][1..] == reviews[1..][i - 1 := r];
      ReplaceAggregates(reviews[1..], i - 1, r, productId);
    }
  }

  /** The reviews of one product, in table order. */
  function ReviewsOf(reviews: seq<Review>, productId: Id): seq<Review> {
    Filter(reviews, (r: Review) => r.productId == productId)
  }

  /** The row of the review this author already wrote for this product. */
  function ExistingReview(reviews: seq<Review>, productId: Id, userId: Id): (r: Option<nat>)
    ensures r.Some? ==> r.value < |reviews| && reviews[r.value].productId == productId && reviews[r.value].userId == userId
    ensures r.Some? ==> forall k :: 0 <= k < r.value ==> !(reviews[k].productId == productId && reviews[k].userId == userId)
    ensures r.None? ==> forall k :: 0 <= k < |reviews| ==> !(reviews[k].productId == productId && reviews[k].userId == userId)
  {
    FirstIndex(reviews, (r: Review) => r.productId == productId && r.userId == userId)
  }

  /** The review table after the upsert: the existing row of the pair gets the
      new title, description and rating; otherwise a row is appended.
      `None` when the insert would reuse an existing review id. */
  function Upsert(reviews: seq<Review>, input: ReviewInput, newReviewId: Id): (r: Option<seq<Review>>)
    ensures r.Some? ==>
              var j := ExistingReview(r.value, input.productId, input.userId);
              && j.Some?
              && r.value[j.value].title == input.title
              && r.value[j.value].description == input.description
              && r.value[j.value].rating == input.rating
    // an edit: the row keeps its place, id, product and author, and no other row changes
    ensures ExistingReview(reviews, input.productId, input.userId).Some? ==>
              var i := ExistingReview(reviews, input.productId, input.userId).value;
              && r.Some? && |r.value| == |reviews|
              && r.value[i] == reviews[i].(title := input.title, description := input.description, rating := input.rating)
              && forall k :: 0 <= k < |reviews| && k != i ==> r.value[k] == reviews[k]
    // an insert: exactly one row is appended, unless its id is taken
    ensures ExistingReview(reviews, input.productId, input.userId).None? ==>
              && (r.None? <==> exists k :: 0 <= k < |reviews| && reviews[k].id == newReviewId)
              && (r.Some? ==> r.value == reviews + [Review(newReviewId, input.productId, input.userId,
                                                           input.title, input.description, input.rating)])
  {
    match ExistingReview(reviews, input.productId, input.userId)
    case Some(i) =>
      var reviews' := reviews[i := reviews[i].(title := input.title, description := input.description, rating := input.rating)];
      var j := ExistingReview(reviews', input.productId, input.userId);
      assert j == Some(i) by {
        assert forall k :: 0 <= k < i ==> reviews'[k] == reviews[k];
        assert reviews'[i].productId == input.productId && reviews'[i].userId == input.userId;
        if j.Some? && j.value > i { assert false; }
      }
      Some(reviews')
    case None =>
      if exists k :: 0 <= k < |reviews| && reviews[k].id == newReviewId then None
      else
        var reviews' := reviews + [Review(newReviewId, input.productId, input.userId, input.title, input.description, input.rating)];
        var j := ExistingReview(reviews', input.productId, input.userId);
        assert j == Some(|reviews|) by {
          assert forall k :: 0 <= k < |reviews| ==> reviews'[k] == reviews[k];
          assert reviews'[|reviews|].productId == input.productId && reviews'[|reviews|].userId == input.userId;
        }
        Some(reviews')
  }

  const Posted := Said("Your review is posted.")
  const NotPosted := Refused("Failed to post the review.")

  /** `createUpdateReview`. `parsed` is the result of the schema parse of the
      submitted values; `newReviewId` the id the database would give a new row. */
  function CreateUpdateReview(db: Db, session: Option<Session>, parsed: Option<ReviewInput>, newReviewId: Id): (out: Step)
    ensures out.reply == Posted || out.reply == NotPosted
    // when the review is posted
    ensures out.reply.success <==>
              && session.Some? && session.value.userId.Some? && parsed.Some?
              && parsed.value.productId in db.products
              && (|| ExistingReview(db.reviews, parsed.value.productId, session.value.userId.value).Some?
                  || forall k :: 0 <= k < |db.reviews| ==> db.reviews[k].id != newReviewId)
    // what the review table becomes: the author's earlier review edited in place, or one new row
    ensures out.reply.success ==>
              var pid := parsed.value.productId;
              var uid := session.value.userId.value;
              var input := parsed.value;
              match ExistingReview(db.reviews, pid, uid)
              case Some(i) =>
                && |out.db.reviews| == |db.reviews|
                && out.db.reviews[i] == db.reviews[i].(title := input.title, description := input.description, rating := input.rating)
                && forall k :: 0 <= k < |db.reviews| && k != i ==> out.db.reviews[k] == db.reviews[k]
              case None =>
                out.db.reviews == db.reviews + [Review(newReviewId, pid, uid, input.title, input.description, input.rating)]
    ensures !out.reply.success ==> out.db == db
    ensures session.None? || parsed.None? ==> out == Step(NotPosted, db)
    ensures parsed.Some? && parsed.value.productId !in db.products ==> out == Step(NotPosted, db)
    ensures out.reply.success ==>
              && session.Some? && session.value.userId.Some? && parsed.Some?
              && var pid := parsed.value.productId;
                 var uid := session.value.userId.value;
                 var i := ExistingReview(out.db.reviews, pid, uid);
                 // the author is the session user, whatever the submitted values say
                 && i.Some?
                 && out.db.reviews[i.value].title == parsed.value.title
                 && out.db.reviews[i.value].description == parsed.value.description
                 && out.db.reviews[i.value].rating == parsed.value.rating
                 // the product's aggregate is the live aggregate over its reviews
                 && pid in db.products
                 && out.db.products == db.products[pid := db.products[pid].(
                      numReviews := Count(out.db.reviews, pid),
                      rating := MeanOrZero(out.db.reviews, pid))]
                 && out.db.users == db.users && out.db.carts == db.carts && out.db.orders == db.orders
  {
    if session.None? || parsed.None? || session.value.userId.None? then Step(NotPosted, db)
    else
      var review := parsed.value.(userId := session.value.userId.value);
      var pid := review.productId;
      if pid !in db.products then Step(NotPosted, db)
      else
        match Upsert(db.reviews, review, newReviewId)
        case None => Step(NotPosted, db)
        case Some(reviews') =>
          var product := db.products[pid].(numReviews := Count(reviews', pid), rating := MeanOrZero(reviews', pid));
          Step(Posted, db.(reviews := reviews', products := db.products[pid := product]))
  }

  /** The upsert keeps "at most one review per (product, author)": a second
      review by the same author updates the first instead of adding a row. */
  lemma UpsertKeepsOnePerAuthor(reviews: seq<Review>, input: ReviewInput, newReviewId: Id)
    requires OneReviewPerAuthor(reviews)
    requires Upsert(reviews, input, newReviewId).Some?
    ensures OneReviewPerAuthor(Upsert(reviews, input, newReviewId).value)
    ensures ExistingReview(reviews, input.productId, input.userId).Some? ==>
              |Upsert(reviews, input, newReviewId).value| == |reviews|
  {
  }

  /** Posting a review keeps at most one review per (product, author) in the table. */
  lemma ReviewKeepsOnePerAuthor(db: Db, session: Option<Session>, parsed: Option<ReviewInput>, newReviewId: Id)
    requires OneReviewPerAuthor(db.reviews)
    ensures OneReviewPerAuthor(CreateUpdateReview(db, session, parsed, newReviewId).db.reviews)
  {
    if CreateUpdateReview(db, session, parsed, newReviewId).reply.success {
      var review := parsed.value.(userId := session.value.userId.value);
      UpsertKeepsOnePerAuthor(db.reviews, review, newReviewId);
    }
  }

  /** The full recomputation after the write agrees with an incremental
      running update of the old aggregate: an edit keeps the count and swaps
      the old rating for the new one in the sum; an insert adds one to the
      count and the new rating to the sum. */
  lemma {:induction false} RecomputeIsIncremental(db: Db, session: Option<Session>, parsed: Option<ReviewInput>, newReviewId: Id)
    requires CreateUpdateReview(db, session, parsed, newReviewId).reply.success
    ensures session.Some? && session.value.userId.Some? && parsed.Some? && parsed.value.productId in db.products
    ensures var out := CreateUpdateReview(db, session, parsed, newReviewId);
            var pid := parsed.value.productId;
            var prior := ExistingReview(db.reviews, pid, session.value.userId.value);
            var n := Count(db.reviews, pid) + (if prior.Some? then 0 else 1);
            var sum := RatingSum(db.reviews, pid) + parsed.value.rating - (if prior.Some? then db.reviews[prior.value].rating else 0);
            && n >= 1
            && out.db.products[pid].numReviews == n
            && out.db.products[pid].rating == sum as real / n as real
  {
    var out := CreateUpdateReview(db, session, parsed, newReviewId);
    var review := parsed.value.(userId := session.value.userId.value);
    var pid := review.productId;
    match ExistingReview(db.reviews, pid, review.userId)
    case Some(i) =>
      var r := db.reviews[i].(title := review.title, description := review.description, rating := review.rating);
      ReplaceAggregates(db.reviews, i, r, pid);
      assert Count(db.reviews, pid) >= 1 by { CountPositive(db.reviews, i, pid); }
    case None =>
      var r := Review(newReviewId, pid, review.userId, review.title, review.description, review.rating);
      AppendAggregates(db.reviews, r, pid);
  }

  lemma {:induction false} CountPositive(reviews: seq<Review>, i: nat, productId: Id)
    requires i < |reviews| && reviews[i].productId == productId
    ensures Count(reviews, productId) >= 1
    decreases |reviews|
  {
    if i > 0 {
      CountPositive(reviews[1..], i - 1, productId);
    }
  }

  /** The reviews of every other product are exactly as before, and so is
      every other product record. */
  lemma {:induction false} ReviewLeavesOtherProducts(db: Db, session: Option<Session>, parsed: Option<ReviewInput>, newReviewId: Id, other: Id)
    requires parsed.Some? && other != parsed.value.productId
    ensures var out := CreateUpdateReview(db, session, parsed, newReviewId);
            && ReviewsOf(out.db.reviews, other) == ReviewsOf(db.reviews, other)
            && (other in db.products <==> other in out.db.products)
            && (other in db.products ==> out.db.products[other] == db.products[other])
  {
    var out := CreateUpdateReview(db, session, parsed, newReviewId);
    if out.reply.success {
      var review := parsed.value.(userId := session.value.userId.value);
      var pid := review.productId;
      var p := (r: Review) => r.productId == other;
      match ExistingReview(db.reviews, pid, review.userId)
      case Some(i) =>
        var r := db.reviews[i].(title := review.title, description := review.description, rating := review.rating);
        FilterReplaceUnselected(db.reviews, i, r, p);
      case None =>
        var r := Review(newReviewId, pid, review.userId, review.title, review.description, review.rating);
        FilterAppend(db.reviews, [r], p);
        assert Filter([r], p) == [];
    }
  }

  lemma {:induction false} FilterReplaceUnselected(rows: seq<Review>, i: nat, r: Review, p: Review -> bool)
    requires i < |rows| && !p(rows[i]) && !p(r)
    ensures Filter(rows[i := r], p) == Filter(rows, p)
    decreases |rows|
  {
    if i > 0 {
      assert rows[i := r][1..] == rows[1..][i - 1 := r];
      FilterReplaceUnselected(rows[1..], i - 1, r, p);
    } else {
      assert rows[i := r][1..] == rows[1..];
    }
  }
}
