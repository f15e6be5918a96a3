/** Reviews (resolvers/reviewResolvers.ts): a customer reviews a delivered
    order once, which recomputes the restaurant's mean rating; the vendor
    owning the restaurant may respond. */
module Reviews {
  import opened Common
  import opened RestaurantModel
  import opened OrderModel
  import opened ReviewModel
  import opened AuthGuard
  import opened UserModel
  import opened Store

  datatype ReviewInput = ReviewInput(
    orderId: Id, restaurantRating: int, riderRating: Option<int>,
    foodQuality: int, deliverySpeed: int, comment: Option<string>)

  /** The filter of Review.find({ restaurantId }). */
  function ForRestaurant(restaurantId: Id): Review -> bool {
    (r: Review) => r.restaurantId == restaurantId
  }

  /** The reviews of one restaurant, in insertion order. */
  function ReviewsOf(reviews: seq<Review>, restaurantId: Id): seq<Review> {
    Filter(reviews, ForRestaurant(restaurantId))
  }

  /** The sum of the restaurant ratings (the reduce in createReview). */
  function RatingSum(rs: seq<Review>): int {
    if |rs| == 0 then 0 else RatingSum(rs[..|rs| - 1]) + rs[|rs| - 1].restaurantRating
  }

  /** The mean restaurant rating of a non-empty list of reviews. */
  function MeanRating(rs: seq<Review>): real
    requires |rs| > 0
  {
    (RatingSum(rs) as real) / (|rs| as real)
  }

  /** createReview's checks, in the resolver's order, and the review it
      creates: the restaurant and rider are copied from the order, not
      taken from the input. */
  function ReviewCreation(orders: seq<Order>, reviews: seq<Review>, ctx: Context,
                          input: ReviewInput, reviewId: Id): (r: Result<Review>)
    ensures r.Ok? <==>
      && RequireRole(ctx, [Customer]).Ok?
      && 0 <= OrderIndex(orders, input.orderId)
      && orders[OrderIndex(orders, input.orderId)].customerId == ctx.user.value.userId
      && orders[OrderIndex(orders, input.orderId)].status == Delivered
      && ReviewOfOrder(reviews, input.orderId) < 0
      && InRatingRange(input.restaurantRating) && InRatingRange(input.foodQuality)
      && InRatingRange(input.deliverySpeed)
      && (input.riderRating.Some? ==> InRatingRange(input.riderRating.value))
    ensures RequireRole(ctx, [Customer]).Ok? ==>
      var i := OrderIndex(orders, input.orderId);
      && (i < 0 ==> r == Err(OrderNotFound))
      && (0 <= i && orders[i].customerId != ctx.user.value.userId ==> r == Err(NotAuthorized))
      && (0 <= i && orders[i].customerId == ctx.user.value.userId && orders[i].status != Delivered
          ==> r == Err(OrderNotDelivered))
      && ((0 <= i && orders[i].customerId == ctx.user.value.userId && orders[i].status == Delivered
           && 0 <= ReviewOfOrder(reviews, input.orderId)) ==> r == Err(ReviewAlreadyExists))
    ensures r.Ok? ==>
      var o := orders[OrderIndex(orders, input.orderId)];
      && r.value.id == reviewId && r.value.orderId == input.orderId
      && r.value.customerId == ctx.user.value.userId
      && r.value.restaurantId == o.restaurantId && r.value.riderId == o.riderId
      && r.value.restaurantRating == input.restaurantRating && r.value.riderRating == input.riderRating
      && r.value.foodQuality == input.foodQuality && r.value.deliverySpeed == input.deliverySpeed
      && r.value.comment == input.comment && r.value.response.None?
      && ReviewModel.SchemaValid(r.value)
  {
    match RequireRole(ctx, [Customer])
    case Err(e) => Err(e)
    case Ok(user) =>
      var i := OrderIndex(orders, input.orderId);
      if i < 0 then Err(OrderNotFound)
      else if orders[i].customerId != user.userId then Err(NotAuthorized)
      else if orders[i].status != Delivered then Err(OrderNotDelivered)
      else if ReviewOfOrder(reviews, input.orderId) >= 0 then Err(ReviewAlreadyExists)
      else
        var review := Review(reviewId, input.orderId, user.userId, orders[i].restaurantId,
                             orders[i].riderId, input.restaurantRating, input.riderRating,
                             input.foodQuality, input.deliverySpeed, input.comment, None);
        if !ReviewModel.SchemaValid(review) then Err(ValidationFailed) else Ok(review)
  }

  /** The restaurant after the recomputation: the mean rating and the
      count of the given reviews. */
  function Rerated(r: Restaurant, rs: seq<Review>): Restaurant
    requires |rs| > 0
  {
    r.(rating := MeanRating(rs), totalReviews := |rs|)
  }

  /** createReview: insert the review, then recompute the restaurant's
      rating over all its reviews, the new one included. */
  method CreateReview(db: Database, ctx: Context, input: ReviewInput, reviewId: Id)
    returns (r: Result<Review>)
    requires db.Valid()
    requires forall k :: 0 <= k < |db.reviews| ==> db.reviews[k].id != reviewId
    modifies db
    ensures db.Valid()
    ensures r == ReviewCreation(old(db.orders), old(db.reviews), ctx, input, reviewId)
    ensures r.Err? ==> db.reviews == old(db.reviews) && db.restaurants == old(db.restaurants)
    ensures r.Ok? ==> db.reviews == old(db.reviews) + [r.value]
    ensures r.Ok? ==>
      var rs := ReviewsOf(db.reviews, r.value.restaurantId);
      var ri := RestaurantIndex(old(db.restaurants), r.value.restaurantId);
      && |rs| > 0
      && db.restaurants == if ri < 0 then old(db.restaurants)
                           else old(db.restaurants)[ri := Rerated(old(db.restaurants)[ri], rs)]
    ensures db.users == old(db.users) && db.orders == old(db.orders)
    ensures db.menuItems == old(db.menuItems)
  {
    r := ReviewCreation(db.orders, db.reviews, ctx, input, reviewId);
    if r.Err? {
      return;
    }
    var review := r.value;
    AppendReview(db, review);
    var rs := ReviewsOf(db.reviews, review.restaurantId);
    NewReviewIsCounted(old(db.reviews), review);
    var ri := RestaurantIndex(db.restaurants, review.restaurantId);
    if ri >= 0 {
      ReviewsOfAreValid(db.reviews, review.restaurantId);
      StoreRerated(db, ri, rs);
    }
  }

  /** Inserts a created review. */
  method AppendReview(db: Database, review: Review)
    requires db.Valid() && ReviewModel.SchemaValid(review)
    requires forall k :: 0 <= k < |db.reviews| ==> db.reviews[k].id != review.id
    requires ReviewOfOrder(db.reviews, review.orderId) < 0
    modifies db
    ensures db.Valid()
    ensures db.reviews == old(db.reviews) + [review]
    ensures db.users == old(db.users) && db.restaurants == old(db.restaurants)
    ensures db.orders == old(db.orders) && db.menuItems == old(db.menuItems)
  {
    NewReviewKeepsValid(db.reviews, review);
    db.reviews := db.reviews + [review];
  }

  /** Writes the rating recomputed over `rs`, the stored reviews of the
      restaurant at position `ri`. */
  method StoreRerated(db: Database, ri: nat, rs: seq<Review>)
    requires db.Valid() && ri < |db.restaurants| && |rs| > 0
    requires forall k | 0 <= k < |rs| :: InRatingRange(rs[k].restaurantRating)
    modifies db
    ensures db.Valid()
    ensures db.restaurants == old(db.restaurants)[ri := Rerated(old(db.restaurants)[ri], rs)]
    ensures db.users == old(db.users) && db.reviews == old(db.reviews)
    ensures db.orders == old(db.orders) && db.menuItems == old(db.menuItems)
  {
    MeanInRange(rs);
    ReratedKeepsValid(db.restaurants, ri, rs);
    db.restaurants := db.restaurants[ri := Rerated(db.restaurants[ri], rs)];
  }

  /** Inserting a created review keeps the review collection valid. */
  lemma NewReviewKeepsValid(reviews: seq<Review>, review: Review)
    requires ReviewsValid(reviews) && ReviewModel.SchemaValid(review)
    requires forall k :: 0 <= k < |reviews| ==> reviews[k].id != review.id
    requires ReviewOfOrder(reviews, review.orderId) < 0
    ensures ReviewsValid(reviews + [review])
  {
    AppendFreshKey(reviews, review, ReviewKey);
    AppendFreshKey(reviews, review, ReviewOrderKey);
  }

  /** Every review of a restaurant taken from a valid collection has its
      ratings in range. */
  lemma ReviewsOfAreValid(reviews: seq<Review>, restaurantId: Id)
    requires forall i | 0 <= i < |reviews| :: ReviewModel.SchemaValid(reviews[i])
    ensures forall k | 0 <= k < |ReviewsOf(reviews, restaurantId)| ::
      InRatingRange(ReviewsOf(reviews, restaurantId)[k].restaurantRating)
  {
  }

  /** Writing a rating within [0,5] and a count keeps the restaurant
      collection valid. */
  lemma ReratedKeepsValid(rs: seq<Restaurant>, i: nat, reviews: seq<Review>)
    requires RestaurantsValid(rs) && i < |rs| && |reviews| > 0
    requires 1.0 <= MeanRating(reviews) <= 5.0
    ensures RestaurantsValid(rs[i := Rerated(rs[i], reviews)])
  {
    UpdateSameKey(rs, i, Rerated(rs[i], reviews), RestaurantKey);
    UpdateSameKey(rs, i, Rerated(rs[i], reviews), OwnerKey);
  }

  lemma {:induction false} RatingSumBounds(rs: seq<Review>)
    requires forall k | 0 <= k < |rs| :: InRatingRange(rs[k].restaurantRating)
    ensures |rs| <= RatingSum(rs) <= 5 * |rs|
  {
    if |rs| > 0 {
      RatingSumBounds(rs[..|rs| - 1]);
    }
  }

  /** The recomputed rating is a mean over at least one review, so there is
      no division by zero, and with every rating in [1,5] it stays in [1,5]. */
  lemma MeanInRange(rs: seq<Review>)
    requires |rs| > 0
    requires forall k | 0 <= k < |rs| :: InRatingRange(rs[k].restaurantRating)
    ensures 1.0 <= MeanRating(rs) <= 5.0
  {
    RatingSumBounds(rs);
    QuotientBounds(RatingSum(rs) as real, |rs| as real);
  }

  /** n <= s <= 5n with n > 0 puts s/n in [1,5]. */
  lemma QuotientBounds(s: real, n: real)
    requires n > 0.0 && n <= s <= 5.0 * n
    ensures 1.0 <= s / n <= 5.0
  {
    var q := s / n;
    assert q * n == s;
    assert (q - 1.0) * n == s - n;
    assert (5.0 - q) * n == 5.0 * n - s;
  }

  /** The new review is among the restaurant's reviews the rating is
      recomputed over: they are the earlier ones plus it, so the count grows
      by one and the sum by its rating. */
  lemma NewReviewIsCounted(reviews: seq<Review>, review: Review)
    ensures ReviewsOf(reviews + [review], review.restaurantId)
            == ReviewsOf(reviews, review.restaurantId) + [review]
    ensures |ReviewsOf(reviews + [review], review.restaurantId)|
            == |ReviewsOf(reviews, review.restaurantId)| + 1
    ensures RatingSum(ReviewsOf(reviews + [review], review.restaurantId))
            == RatingSum(ReviewsOf(reviews, review.restaurantId)) + review.restaurantRating
  {
    var p := ForRestaurant(review.restaurantId);
    FilterAppend(reviews, [review], p);
    assert Filter([review], p) == [review] by {
      assert [review][1..] == [];
    }
    var before := ReviewsOf(reviews, review.restaurantId);
    assert (before + [review])[..|before|] == before;
  }

  /** Once a review of an order exists, a second one is refused, whoever
      asks. */
  lemma SecondReviewRefused(orders: seq<Order>, reviews: seq<Review>, ctx: Context,
                            input: ReviewInput, reviewId: Id, ctx': Context,
                            input': ReviewInput, reviewId': Id)
    requires ReviewCreation(orders, reviews, ctx, input, reviewId).Ok?
    requires input'.orderId == input.orderId
    ensures var reviews' := reviews + [ReviewCreation(orders, reviews, ctx, input, reviewId).value];
      ReviewCreation(orders, reviews', ctx', input', reviewId').Err?
  {
    var review := ReviewCreation(orders, reviews, ctx, input, reviewId).value;
    var reviews' := reviews + [review];
    assert reviews'[|reviews|].orderId == input.orderId;
    assert ReviewOfOrder(reviews', input.orderId) >= 0;
  }

  /** respondToReview's checks and the updated review: only the vendor who
      owns the review's restaurant, and any earlier response is replaced. */
  function ReviewResponse(restaurants: seq<Restaurant>, reviews: seq<Review>, ctx: Context,
                          reviewId: Id, text: string, now: int): (r: Result<Review>)
    ensures r.Ok? <==> (RequireRole(ctx, [Vendor]).Ok? && 0 <= ReviewIndex(reviews, reviewId)
      && OwnedBy(restaurants, reviews[ReviewIndex(reviews, reviewId)].restaurantId, ctx.user.value.userId))
    ensures RequireRole(ctx, [Vendor]).Ok? && ReviewIndex(reviews, reviewId) < 0 ==> r == Err(ReviewNotFound)
    ensures RequireRole(ctx, [Vendor]).Ok? && 0 <= ReviewIndex(reviews, reviewId) && r.Err?
      ==> r == Err(NotAuthorized)
    ensures r.Ok? ==> r.value == reviews[ReviewIndex(reviews, reviewId)].(response := Some(Response(text, now)))
  {
    match RequireRole(ctx, [Vendor])
    case Err(e) => Err(e)
    case Ok(user) =>
      var i := ReviewIndex(reviews, reviewId);
      if i < 0 then Err(ReviewNotFound)
      else if !OwnedBy(restaurants, reviews[i].restaurantId, user.userId) then Err(NotAuthorized)
      else Ok(reviews[i].(response := Some(Response(text, now))))
  }

  /** respondToReview. */
  method RespondToReview(db: Database, ctx: Context, reviewId: Id, text: string, now: int)
    returns (r: Result<Review>)
    requires db.Valid()
    modifies db
    ensures db.Valid()
    ensures r == ReviewResponse(old(db.restaurants), old(db.reviews), ctx, reviewId, text, now)
    ensures r.Ok? ==> db.reviews == old(db.reviews)[ReviewIndex(old(db.reviews), reviewId) := r.value]
    ensures r.Err? ==> db.reviews == old(db.reviews)
    ensures db.users == old(db.users) && db.restaurants == old(db.restaurants)
    ensures db.orders == old(db.orders) && db.menuItems == old(db.menuItems)
  {
    r := ReviewResponse(db.restaurants, db.reviews, ctx, reviewId, text, now);
    if r.Ok? {
      var i := ReviewIndex(db.reviews, reviewId);
      UpdateSameKey(db.reviews, i, r.value, ReviewKey);
      UpdateSameKey(db.reviews, i, r.value, ReviewOrderKey);
      db.reviews := db.reviews[i := r.value];
    }
  }
}
