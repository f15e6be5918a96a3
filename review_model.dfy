/** The review record (models/Review.ts): one review per order, ratings
    from 1 to 5, an optional vendor response. */
module ReviewModel {
  import opened Common

  datatype Response = Response(text: string, respondedAt: int)

  datatype Review = Review(
    id: Id,
    orderId: Id,
    customerId: Id,
    restaurantId: Id,
    riderId: Option<Id>,
    restaurantRating: int,
    riderRating: Option<int>,
    foodQuality: int,
    deliverySpeed: int,
    comment: Option<string>,
    response: Option<Response>)   // absent until the vendor responds

  predicate InRatingRange(x: int) { 1 <= x <= 5 }

  /** The schema's validators, run when a review is created: the three
      required ratings, and the rider rating when present, lie in [1,5]. */
  predicate SchemaValid(r: Review) {
    && InRatingRange(r.restaurantRating)
    && InRatingRange(r.foodQuality)
    && InRatingRange(r.deliverySpeed)
    && (r.riderRating.Some? ==> InRatingRange(r.riderRating.value))
  }

  function ReviewKey(r: Review): Id { r.id }
  function ReviewOrderKey(r: Review): Id { r.orderId }

  /** The invariant of the review collection: unique ids, at most one
      review per order (the schema's unique index), every review valid. */
  ghost predicate ReviewsValid(reviews: seq<Review>) {
    && UniqueKeys(reviews, ReviewKey)
    && UniqueKeys(reviews, ReviewOrderKey)
    && (forall i | 0 <= i < |reviews| :: SchemaValid(reviews[i]))
  }

  /** Model.findById on the review collection. */
  function ReviewIndex(reviews: seq<Review>, id: Id): (i: int)
    ensures -1 <= i < |reviews|
    ensures i == -1 <==> forall k :: 0 <= k < |reviews| ==> reviews[k].id != id
    ensures 0 <= i ==> reviews[i].id == id
  {
    FirstIndex(reviews, (r: Review) => r.id == id)
  }

  /** Model.findOne({ orderId }). */
  function ReviewOfOrder(reviews: seq<Review>, orderId: Id): (i: int)
    ensures -1 <= i < |reviews|
    ensures i == -1 <==> forall k :: 0 <= k < |reviews| ==> reviews[k].orderId != orderId
    ensures 0 <= i ==> reviews[i].orderId == orderId
  {
    FirstIndex(reviews, (r: Review) => r.orderId == orderId)
  }
}
