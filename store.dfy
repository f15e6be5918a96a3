/** The document store the resolvers read and write: one collection per
    model, each kept in the order documents were inserted. */
module Store {
  import opened UserModel
  import opened RestaurantModel
  import opened MenuItemModel
  import opened OrderModel
  import opened ReviewModel

  class Database {
    var users: seq<User>
    var restaurants: seq<Restaurant>
    var menuItems: seq<MenuItem>
    var orders: seq<Order>
    var reviews: seq<Review>

    /** The invariant every mutation keeps. */
    ghost predicate Valid()
      reads this
    {
      && UsersValid(users)
      && RestaurantsValid(restaurants)
      && MenuItemsValid(menuItems)
      && OrdersValid(orders)
      && ReviewsValid(reviews)
    }

    constructor ()
      ensures Valid()
      ensures users == [] && restaurants == [] && menuItems == [] && orders == [] && reviews == []
    {
      users, restaurants, menuItems, orders, reviews := [], [], [], [], [];
    }
  }
}
