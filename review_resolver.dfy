/** src/graphql/resolvers/reviewResolver.ts: reviews of a piece of furniture. A rating must lie
    between 1 and 5 when it is given; the ORM's own failures are all reported as
    INTERNAL_SERVER_ERROR. */
module ReviewResolver {
  import opened Wrappers
  import opened Errors
  import opened Store

  /** The guard `rating < 1 || rating > 5` does not fire. */
  predicate RatingInRange(rating: int) {
    MinRating <= rating <= MaxRating
  }

  /** The reviews of one piece of furniture. */
  function ReviewsOfFurniture(reviews: map<int, Review>, furnitureId: int): (r: map<int, Review>)
    ensures forall k :: k in r <==> k in reviews && reviews[k].furnitureId == furnitureId
    ensures forall k | k in r :: r[k] == reviews[k]
  {
    map k | k in reviews && reviews[k].furnitureId == furnitureId :: reviews[k]
  }

  /** The `data` object `updateReview` hands to the ORM, applied to the stored review: a field
      changes exactly when it was supplied. */
  function PatchReview(rv: Review, rating: Option<int>, content: Option<string>): (r: Review)
    ensures r.id == rv.id && r.furnitureId == rv.furnitureId && r.userId == rv.userId
    ensures rating.None? ==> r.rating == rv.rating
    ensures rating.Some? ==> r.rating == rating.value
    ensures content.None? ==> r.content == rv.content
    ensures content.Some? ==> r.content == content.value
  {
    rv.(rating := rating.GetOr(rv.rating), content := content.GetOr(rv.content))
  }

  /** `getReviewsByFurnitureId(furnitureId)`: exactly the reviews of that furniture. */
  method GetReviewsByFurnitureId(db: Database, furnitureId: int) returns (r: map<int, Review>)
    requires db.Valid()
    ensures r == ReviewsOfFurniture(db.reviews, furnitureId)
    ensures forall k | k in r :: r[k].furnitureId == furnitureId && RatingInRange(r[k].rating)
  {
    r := ReviewsOfFurniture(db.reviews, furnitureId);
  }

  /** `addReview(furnitureId, userId, rating, content)`. A rating out of range is refused before the
      store is touched; a review of missing furniture or by a missing user breaks a foreign key. */
  method AddReview(db: Database, furnitureId: int, userId: int, rating: int, content: string)
    returns (r: Result<Review>)
    requires db.Valid()
    modifies db`reviews, db`nextReviewId
    ensures db.Valid()
    ensures !RatingInRange(rating) ==>
              r == Err(InvalidInput) && db.reviews == old(db.reviews) && db.nextReviewId == old(db.nextReviewId)
    ensures RatingInRange(rating) && (furnitureId !in db.furniture || !HasUserId(db.users, userId)) ==>
              r == Err(InternalServerError) && db.reviews == old(db.reviews) && db.nextReviewId == old(db.nextReviewId)
    ensures RatingInRange(rating) && furnitureId in db.furniture && HasUserId(db.users, userId) ==>
              r == Ok(Review(old(db.nextReviewId), furnitureId, userId, rating, content))
              && db.reviews == old(db.reviews)[old(db.nextReviewId) := r.value]
              && db.nextReviewId == old(db.nextReviewId) + 1
  {
    if rating < MinRating || rating > MaxRating {
      return Err(InvalidInput);
    }
    var body: Result<Review>;
    if furnitureId !in db.furniture || !HasUserId(db.users, userId) {
      body := Err(Orm(ForeignKeyConstraint));
    } else {
      var review := Review(db.nextReviewId, furnitureId, userId, rating, content);
      db.reviews := db.reviews[review.id := review];
      db.nextReviewId := db.nextReviewId + 1;
      body := Ok(review);
    }
    r := Rethrow(body, InternalServerError);
  }

  /** `updateReview(reviewId, rating?, content?)`: a supplied rating out of range is refused before
      the store is touched; otherwise the supplied fields replace the stored ones. */
  method UpdateReview(db: Database, reviewId: int, rating: Option<int>, content: Option<string>)
    returns (r: Result<Review>)
    requires db.Valid()
    modifies db`reviews
    ensures db.Valid()
    ensures rating.Some? && !RatingInRange(rating.value) ==> r == Err(InvalidInput) && db.reviews == old(db.reviews)
    ensures (rating.Some? ==> RatingInRange(rating.value)) && reviewId !in old(db.reviews) ==>
              r == Err(InternalServerError) && db.reviews == old(db.reviews)
    ensures (rating.Some? ==> RatingInRange(rating.value)) && reviewId in old(db.reviews) ==>
              r == Ok(PatchReview(old(db.reviews)[reviewId], rating, content))
              && db.reviews == old(db.reviews)[reviewId := r.value]
  {
    if rating.Some? {
      if rating.value < MinRating || rating.value > MaxRating {
        return Err(InvalidInput);
      }
    }
    var body: Result<Review>;
    if reviewId !in db.reviews {
      body := Err(Orm(RecordNotFound));
    } else {
      var updated := PatchReview(db.reviews[reviewId], rating, content);
      db.reviews := db.reviews[reviewId := updated];
      body := Ok(updated);
    }
    r := Rethrow(body, InternalServerError);
  }

  /** `deleteReview(reviewId)`: removes the review and returns it. */
  method DeleteReview(db: Database, reviewId: int) returns (r: Result<Review>)
    requires db.Valid()
    modifies db`reviews
    ensures db.Valid()
    ensures reviewId !in old(db.reviews) ==> r == Err(InternalServerError) && db.reviews == old(db.reviews)
    ensures reviewId in old(db.reviews) ==>
              r == Ok(old(db.reviews)[reviewId]) && db.reviews == old(db.reviews) - {reviewId}
  {
    var body: Result<Review>;
    if reviewId !in db.reviews {
      body := Err(Orm(RecordNotFound));
    } else {
      body := Ok(db.reviews[reviewId]);
      db.reviews := db.reviews - {reviewId};
    }
    r := Rethrow(body, InternalServerError);
  }

  /** An update that passes the rating guard keeps a stored rating in range. */
  lemma PatchKeepsRatingInRange(rv: Review, rating: Option<int>, content: Option<string>)
    requires RatingInRange(rv.rating)
    requires rating.Some? ==> RatingInRange(rating.value)
    ensures RatingInRange(PatchReview(rv, rating, content).rating)
  {
  }

  /** An update with neither field leaves the review as it was, and applying the same update twice
      is the same as applying it once. */
  lemma PatchIdentityAndIdempotent(rv: Review, rating: Option<int>, content: Option<string>)
    ensures PatchReview(rv, None, None) == rv
    ensures PatchReview(PatchReview(rv, rating, content), rating, content) == PatchReview(rv, rating, content)
  {
  }

  /** Adding a review of other furniture does not change what this furniture's query returns. */
  lemma AddOtherFurnitureReviewInvisible(reviews: map<int, Review>, rv: Review, furnitureId: int)
    requires rv.id !in reviews && rv.furnitureId != furnitureId
    ensures ReviewsOfFurniture(reviews[rv.id := rv], furnitureId) == ReviewsOfFurniture(reviews, furnitureId)
  {
  }
}
