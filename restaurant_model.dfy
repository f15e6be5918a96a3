/** The restaurant record (models/Restaurant.ts): its approval status, the
    derived rating, the open flag and the pricing settings checkout reads. */
module RestaurantModel {
  import opened Common

  datatype RestaurantStatus = Pending | Approved | Rejected | Suspended

  datatype OpeningHour = OpeningHour(day: string, open: string, close: string)

  datatype Restaurant = Restaurant(
    id: Id,
    name: string,
    description: string,
    ownerId: Id,
    logo: Option<string>,
    coverImage: Option<string>,
    cuisine: seq<string>,
    address: Location,
    phone: string,
    email: string,
    status: RestaurantStatus,
    rating: real,               // mean restaurant rating of its reviews
    totalReviews: int,
    isOpen: bool,
    openingHours: seq<OpeningHour>,
    deliveryFee: real,
    minimumOrder: real,
    estimatedDeliveryTime: int) // minutes

  /** The schema's min/max validators, run when a document is created. */
  predicate SchemaValid(r: Restaurant) {
    && 0.0 <= r.rating <= 5.0
    && r.deliveryFee >= 0.0
    && r.minimumOrder >= 0.0
    && r.estimatedDeliveryTime >= 0
  }

  /** The restaurant input of the create and update mutations. */
  datatype RestaurantInput = RestaurantInput(
    name: string, description: string, cuisine: seq<string>, address: Location,
    phone: string, email: string, deliveryFee: real, minimumOrder: real,
    estimatedDeliveryTime: int)

  /** A restaurant document as created for `ownerId`: no opening hours yet,
      and the schema's defaults for status, rating, review count and open flag. */
  function NewRestaurant(id: Id, ownerId: Id, input: RestaurantInput): (r: Restaurant)
    ensures r.id == id && r.ownerId == ownerId && r.openingHours == []
    ensures r.status == Pending && r.rating == 0.0 && r.totalReviews == 0 && r.isOpen
    ensures r.deliveryFee == input.deliveryFee && r.minimumOrder == input.minimumOrder
    ensures r.estimatedDeliveryTime == input.estimatedDeliveryTime
    ensures SchemaValid(r) <==>
      input.deliveryFee >= 0.0 && input.minimumOrder >= 0.0 && input.estimatedDeliveryTime >= 0
  {
    Restaurant(id, input.name, input.description, ownerId, None, None, input.cuisine,
               input.address, input.phone, input.email, Pending, 0.0, 0, true, [],
               input.deliveryFee, input.minimumOrder, input.estimatedDeliveryTime)
  }

  function RestaurantKey(r: Restaurant): Id { r.id }
  function OwnerKey(r: Restaurant): Id { r.ownerId }

  /** The invariant of the restaurant collection: unique ids, at most one
      restaurant per owner, and a rating within the schema's bounds.
      (Fee, minimum and delivery time are validated only on creation: the
      update mutation writes them unvalidated, so they are not invariant.) */
  ghost predicate RestaurantsValid(rs: seq<Restaurant>) {
    && UniqueKeys(rs, RestaurantKey)
    && UniqueKeys(rs, OwnerKey)
    && (forall i | 0 <= i < |rs| :: 0.0 <= rs[i].rating <= 5.0 && rs[i].totalReviews >= 0)
  }

  /** Model.findById on the restaurant collection. */
  function RestaurantIndex(rs: seq<Restaurant>, id: Id): (i: int)
    ensures -1 <= i < |rs|
    ensures i == -1 <==> forall k :: 0 <= k < |rs| ==> rs[k].id != id
    ensures 0 <= i ==> rs[i].id == id
  {
    FirstIndex(rs, (r: Restaurant) => r.id == id)
  }

  /** Model.findOne({ ownerId }). */
  function OwnedIndex(rs: seq<Restaurant>, ownerId: Id): (i: int)
    ensures -1 <= i < |rs|
    ensures i == -1 <==> forall k :: 0 <= k < |rs| ==> rs[k].ownerId != ownerId
    ensures 0 <= i ==> rs[i].ownerId == ownerId
  {
    FirstIndex(rs, (r: Restaurant) => r.ownerId == ownerId)
  }

  /** The ownership test the resolvers repeat: the restaurant exists and
      `userId` owns it. */
  predicate OwnedBy(rs: seq<Restaurant>, restaurantId: Id, userId: Id) {
    var i := RestaurantIndex(rs, restaurantId);
    0 <= i && rs[i].ownerId == userId
  }
}
