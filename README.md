# Starides marketplace core, modelled in Dafny

Starides is a food-delivery marketplace: a GraphQL backend over a document
store serving customers, vendors, riders and admins, and a React client.
This project models the business rules of the backend resolvers, the
authorisation gate, the record schemas, and two pieces of client logic (the
shopping cart and the order progress bar), and proves what they promise.

Layout, one module per source file:

- `common.dfy` (Common): identifiers, `Option`/`Result`, one `Error`
  constructor per thrown message, Array.find/filter, String.includes,
  toLowerCase (for A-Z and the Latin-1 capitals), trim (every ECMAScript
  white-space and line-terminator character), String.length in UTF-16 code
  units, and uniqueness of keys in a collection.
- `user_model.dfy`, `restaurant_model.dfy`, `menu_item_model.dfy`,
  `order_model.dfy`, `review_model.dfy`: the records, their enums, the
  schema defaults (the `New*` constructors), the min/max validators
  (`SchemaValid`) and the invariants of each collection (unique ids, unique
  emails and order numbers, one review per order, one restaurant per owner,
  at most one default address).
- `store.dfy` (Store): the class `Database` whose five `seq` fields are
  the collections; every mutation is a method that `modifies` it and keeps
  `Valid()`.
- `auth_guard.dfy`: header parsing and the two guards.
- `orders.dfy`, `reviews.dfy`, `stats.dfy`, `users.dfy`,
  `restaurants.dfy`, `menu_items.dfy`, `password_reset.dfy`,
  `auth_resolvers.dfy`, `chat.dfy`: the resolvers. Each mutation is a pure
  decision function (which error, or the new record) whose contract states
  the rule, plus a method that performs the write on the store and is proved
  to do exactly what the decision says and nothing else.
- `cart.dfy` (Cart): the client cart as a class holding a `seq`.
- `order_tracker.dfy`: the step index of the progress bar.

Conventions: money is `real`, with exact arithmetic where the code uses
IEEE-754 doubles (see "Left out"); times are
milliseconds since the epoch passed in as `now`; a bcrypt hash is the
injective `Bcrypt(plain, salt)`, a SHA-256 digest the injective
`Sha256(token)`; verifying and signing a JWT are function parameters;
ids, order numbers, reset tokens and salts are parameters. A lookup that
Mongoose answers with null is an `Option`; a thrown error is `Err`.
PaymentStatus PENDING is named `Unpaid` so that it does not clash with
OrderStatus `Pending`.

Notes on the code:
- tax is the subtotal times 0.1, never rounded to cents;
- checkout checks the delivery address before the restaurant;
- the estimated delivery time is `now` plus the restaurant's minutes times
  60000 (see "Left out" for daylight-saving changes);
- assignRider does not check the order's status;
- checkout does not check that the items belong to the chosen restaurant.

## Model

| member | source | states |
|---|---|---|
| AuthGuard.CreateContext | starides-backend/src/middleware/auth.ts:8-22 | an identity is attached exactly when the header is "Bearer " followed by a token that verifies, and it is what the token verified to; otherwise there is none and nothing is thrown |
| AuthGuard.LowerCaseSchemeRejected | starides-backend/src/middleware/auth.ts:12-16 | the scheme is matched case-sensitively: "bearer " never yields an identity |
| AuthGuard.VerifiedTokenAuthenticates | starides-backend/src/middleware/auth.ts:8-29 | a header carrying a verifying token reaches requireAuth as exactly the verified identity |
| AuthGuard.RequireAuth | starides-backend/src/middleware/auth.ts:24-29 | fails with "Authentication required" exactly when there is no identity, else returns it unchanged |
| AuthGuard.RequireRole | starides-backend/src/middleware/auth.ts:31-37 | succeeds iff authenticated with a role in the list; an anonymous caller gets the authentication error, not the permission error |
| AuthGuard.NoRoleAllowedRefusesAll | starides-backend/src/middleware/auth.ts:33-35 | with an empty list of roles every caller is refused |
| UserModel.NewUser | starides-backend/src/models/User.ts:48-116 | a new user stores the given hash and role and a normalised email, is active, not verified, not available, and has no addresses, restaurant, avatar or pending reset |
| UserModel.EmailIndex | starides-backend/src/resolvers/authResolvers.ts:30 | findOne by email: the first user whose stored email equals the query lower-cased and trimmed, or none |
| Common.NormalizeEmailIdempotent | starides-backend/src/models/User.ts:47-53 | lower-casing and trimming an email twice is doing it once, so a stored email is found by itself |
| Common.NormalizedIsStored | starides-backend/src/models/User.ts:47-53 | a lower-cased, trimmed email has no upper-case letter and no white space at either end |
| Common.StoredIsNormalized | starides-backend/src/models/User.ts:47-53 | such an email is its own lower-cased, trimmed form |
| UserModel.EmailIndexFindsStored | starides-backend/src/models/User.ts:47-53 | in a valid collection every stored user is found again by its email, because emails are unique and stored normalised |
| UserModel.UpdateKeepsUsersValid | starides-backend/src/models/User.ts:48-54 | replacing a user without changing its id or email, keeping at most one default address, keeps the collection valid |
| UserModel.AppendKeepsUsersValid | starides-backend/src/models/User.ts:48-54 | inserting a user with a fresh id and a fresh normalised email keeps the collection valid |
| UserModel.UsersValid | starides-backend/src/models/User.ts:48-54 | the user collection's invariant: ids unique, emails unique (the unique index) and stored lower-cased and trimmed, at most one default address per user |
| RestaurantModel.NewRestaurant | starides-backend/src/models/Restaurant.ts:82-122 | a new restaurant is PENDING, rated 0 with 0 reviews, open, without opening hours, and passes the validators iff fee, minimum and delivery time are non-negative |
| RestaurantModel.OwnedIndex | starides-backend/src/resolvers/restaurantResolvers.ts:59 | finds the first restaurant of an owner, or reports that the owner has none |
| RestaurantModel.RestaurantsValid | starides-backend/src/models/Restaurant.ts:56-95 | the restaurant collection's invariant: ids unique, one restaurant per owner (what createRestaurant's existing-restaurant check upholds), rating within [0,5] and a non-negative review count |
| MenuItemModel.NewMenuItem | starides-backend/src/models/MenuItem.ts:47-84 | a new item is available; missing dietary flags are false, a missing spicy level is 0, missing ingredients and allergens are empty |
| MenuItemModel.Updated | starides-backend/src/resolvers/menuItemResolvers.ts:74 | an update keeps the item's id, restaurant and availability, sets name, price and category, and takes the dietary flag, spicy level and ingredients from the input only when given |
| OrderModel.NewOrder | starides-backend/src/models/Order.ts:116-130 | a new order is PENDING and unpaid, with no rider and no delivery time yet |
| OrderModel.SubtotalAppend | starides-backend/src/resolvers/orderResolvers.ts:103-126 | the subtotal of two runs of lines is the sum of their subtotals |
| OrderModel.AppendKeepsOrdersValid | starides-backend/src/models/Order.ts:64-115 | inserting a schema-valid order with a fresh id and a fresh order number keeps ids and order numbers unique |
| OrderModel.UpdateKeepsOrdersValid | starides-backend/src/models/Order.ts:64-115 | a change that keeps id, number, lines and amounts keeps the collection valid |
| OrderModel.OrdersValid | starides-backend/src/models/Order.ts:64-115 | the order collection's invariant: ids and order numbers unique (the unique index) and every order within the schema's validators |
| ReviewModel.ReviewOfOrder | starides-backend/src/models/Review.ts:23-28 | finds the review of an order, of which a valid collection has at most one |
| ReviewModel.ReviewsValid | starides-backend/src/models/Review.ts:23-70 | the review collection's invariant: ids unique, one review per order (the unique index on orderId) and every rating within [1,5] |
| Orders.ItemCheck | starides-backend/src/resolvers/orderResolvers.ts:106-114 | an item passes only if it exists and is available; otherwise the error names the missing id or the unavailable item |
| Orders.FirstBadItemAt | starides-backend/src/resolvers/orderResolvers.ts:103-114 | the first failing item is the failing one after a run of passing items |
| Orders.PriceItems | starides-backend/src/resolvers/orderResolvers.ts:103-126 | the checkout loop fails exactly when some item fails, with the first failing item's error; otherwise it records one line per item in input order with the item's current name and price and the requested quantity, and a subtotal equal to the sum of price times quantity |
| Orders.Pricing | starides-backend/src/resolvers/orderResolvers.ts:103-126 | what the checkout loop decides: success iff every item exists and is available, otherwise the error of the first failing item in input order; one line per requested item |
| Orders.Insertion | starides-backend/src/models/Order.ts:64-115 | an order is stored only if it passes the validators and its order number is new |
| Orders.DeliveryAddress | starides-backend/src/resolvers/orderResolvers.ts:79-90 | a customer with no saved address is refused, then an address id that is not one of theirs; otherwise it is that saved address |
| Orders.OpenRestaurant | starides-backend/src/resolvers/orderResolvers.ts:92-100 | an unknown restaurant is refused, then one that is not APPROVED or is closed; otherwise it is that restaurant |
| Orders.Placement | starides-backend/src/resolvers/orderResolvers.ts:135-165 | the order document created: the customer, the restaurant, the priced lines and subtotal, the restaurant's fee, a tax of a tenth of the subtotal, their total, the payment method, a copy of the chosen address, the instructions and the estimated delivery time |
| Orders.Placed | starides-backend/src/resolvers/orderResolvers.ts:103-165 | the items are priced, a subtotal below the restaurant's minimum is refused with both amounts, and the order is then inserted |
| Orders.Checkout | starides-backend/src/resolvers/orderResolvers.ts:76-168 | createOrder: customers only, then the delivery address, then the restaurant, then the items, the minimum and the insert, each refusal with its own error |
| Orders.CheckoutEarlyRefusals | starides-backend/src/resolvers/orderResolvers.ts:79-100 | checkout refuses a customer with no saved address, an unknown address, and a restaurant that is missing, not APPROVED or closed, before looking at any item |
| Orders.CheckoutStopsAtFirstBadItem | starides-backend/src/resolvers/orderResolvers.ts:103-114 | checkout fails once some item is missing or unavailable, and when it fails on an item it is with the error of the first such item in input order |
| Orders.CheckoutMinimum | starides-backend/src/resolvers/orderResolvers.ts:128-133 | once the caller, the address, the restaurant and every item pass, a subtotal strictly below the restaurant's minimum is refused with both amounts; a minimum refusal happens only below it, and a placed order's subtotal reaches it |
| Orders.CheckoutSuccess | starides-backend/src/resolvers/orderResolvers.ts:76-168 | a placed order belongs to the calling customer and an approved, open restaurant; it has one snapshot line per requested item in input order, subtotal = sum of price times quantity and at least the minimum, fee = the restaurant's fee, tax = subtotal/10, total = subtotal + fee + tax, an ETA of now plus the restaurant's minutes in milliseconds, status PENDING, unpaid, no rider and no delivery time yet, the payment method and instructions of the input, a copy of the chosen saved address, and passes the validators |
| Orders.CheckoutKeepsOrdersValid | starides-backend/src/resolvers/orderResolvers.ts:146-165 | a placed order keeps the order collection valid |
| Orders.LinesSnapshot | starides-backend/src/resolvers/orderResolvers.ts:106-125 | when every item passes, the k-th order line copies the id, name and price of the menu item the k-th request names, with the requested quantity and instructions |
| Orders.PlaceOrder | starides-backend/src/resolvers/orderResolvers.ts:103-165 | once the address and restaurant are settled, pricing the items, the minimum check and the insertion decide exactly what the last stage of Checkout decides |
| Orders.PrepareOrder | starides-backend/src/resolvers/orderResolvers.ts:76-145 | the step-by-step checks of createOrder decide exactly what Checkout decides |
| Orders.CreateOrder | starides-backend/src/resolvers/orderResolvers.ts:76-168 | the order is inserted only when every check passes, and nothing else in the store changes; a refused checkout writes nothing |
| Orders.AllOrders | starides-backend/src/resolvers/orderResolvers.ts:26-30 | admin only; exactly the orders with the requested status, or all of them |
| Orders.MyOrders | starides-backend/src/resolvers/orderResolvers.ts:37-40 | exactly the caller's orders as customer |
| Orders.RestaurantOrders | starides-backend/src/resolvers/orderResolvers.ts:42-59 | only for the vendor owning the restaurant; exactly its orders, narrowed to a status when one is given |
| Orders.AvailableDeliveries | starides-backend/src/resolvers/orderResolvers.ts:61-67 | riders only; exactly the orders ready for pickup without a rider |
| Orders.MyDeliveries | starides-backend/src/resolvers/orderResolvers.ts:69-72 | riders only; exactly the orders assigned to the caller |
| Orders.WithStatus | starides-backend/src/resolvers/orderResolvers.ts:196-204 | setting DELIVERED also marks the order paid and records now as the delivery time; any other status changes only the status |
| Orders.MayUpdateStatus | starides-backend/src/resolvers/orderResolvers.ts:183-196 | who may set an order's status: the vendor owning its restaurant, the rider assigned to it, any admin, never a customer |
| Orders.StatusUpdate | starides-backend/src/resolvers/orderResolvers.ts:170-205 | succeeds only for the vendor owning the order's restaurant, the assigned rider, or an admin, from any current status |
| Orders.CustomerCannotUpdateStatus | starides-backend/src/resolvers/orderResolvers.ts:183-196 | a customer's status update is always refused |
| Orders.UpdateOrderStatus | starides-backend/src/resolvers/orderResolvers.ts:170-205 | the stored order is replaced by the decided one, and nothing else changes |
| Orders.RiderAssignment | starides-backend/src/resolvers/orderResolvers.ts:207-224 | admin only; the named user must be a rider; the order gets that rider and becomes OUT_FOR_DELIVERY whatever its status; null for an unknown order |
| Orders.AssignRider | starides-backend/src/resolvers/orderResolvers.ts:207-224 | writes exactly the decided assignment |
| Orders.Acceptance | starides-backend/src/resolvers/orderResolvers.ts:226-247 | a rider takes an order only when it is ready for pickup and has no rider; it becomes out for delivery with the caller as rider |
| Orders.SecondAcceptanceFails | starides-backend/src/resolvers/orderResolvers.ts:234-246 | run one after the other, two acceptances of one order cannot both succeed |
| Orders.AcceptDelivery | starides-backend/src/resolvers/orderResolvers.ts:226-247 | writes exactly the accepted order |
| Orders.Cancellation | starides-backend/src/resolvers/orderResolvers.ts:249-276 | a customer may cancel only their own order while PENDING or CONFIRMED; other roles may cancel any order; a cancelled order is always marked refunded |
| Orders.CancelOrder | starides-backend/src/resolvers/orderResolvers.ts:249-276 | writes exactly the cancelled order |
| Cart.Cart.AddItem | starides-web/src/context/CartContext.tsx:34-52 | the cart becomes Added(items, item, confirmed) and its invariants are kept |
| Cart.Cart.RemoveItem | starides-web/src/context/CartContext.tsx:54-56 | the cart becomes the entries of other menu items, invariants kept |
| Cart.Cart.UpdateQuantity | starides-web/src/context/CartContext.tsx:58-66 | a quantity of zero or less removes the entry, otherwise the quantity is set; invariants kept |
| Cart.Cart.ClearCart | starides-web/src/context/CartContext.tsx:68-70 | the cart becomes empty |
| Cart.Total | starides-web/src/context/CartContext.tsx:72-74 | getTotal: the sum of price times quantity over the entries |
| Cart.ItemCount | starides-web/src/context/CartContext.tsx:76-78 | getItemCount: the sum of the quantities |
| Cart.Added | starides-web/src/context/CartContext.tsx:34-52 | addItem's update: an item of another restaurant replaces the cart only when confirmed; a present menu item gains the quantity; a new one is appended |
| Cart.Removed | starides-web/src/context/CartContext.tsx:54-56 | removeItem's update: the entries of other menu items |
| Cart.QuantityUpdated | starides-web/src/context/CartContext.tsx:58-66 | updateQuantity's update: zero or less removes the item, otherwise its entry takes the quantity |
| Cart.EmptyCartSums | starides-web/src/context/CartContext.tsx:72-78 | an empty cart totals 0 and counts 0 items |
| Cart.TotalAppend | starides-web/src/context/CartContext.tsx:72-74 | the total of two runs of entries is the sum of their totals |
| Cart.ItemCountAppend | starides-web/src/context/CartContext.tsx:76-78 | the item count of two runs of entries is the sum of their counts |
| Cart.AddFromOtherRestaurant | starides-web/src/context/CartContext.tsx:37-42 | an item of another restaurant leaves the cart unchanged when declined and makes it exactly that item when confirmed |
| Cart.AddExistingMerges | starides-web/src/context/CartContext.tsx:44-49 | an item already in the cart adds its quantity to that entry only; no entry is added |
| Cart.MergeSums | starides-web/src/context/CartContext.tsx:44-49 | merging adds the quantity to the count and price times quantity to the total |
| Cart.AddNewAppends | starides-web/src/context/CartContext.tsx:50 | a new item of the cart's restaurant, or any item into an empty cart, is appended at the end |
| Cart.AddedKeepsInvariant | starides-web/src/context/CartContext.tsx:34-52 | after addItem all entries share one restaurant and menu items are unique |
| Cart.RemovedContents | starides-web/src/context/CartContext.tsx:54-56 | removeItem keeps exactly the entries of other menu items, in order: a single entry is kept iff it is of another menu item, and the result for the whole cart is the result for any prefix followed by the result for the rest |
| Cart.RemovedIsRemoveAt | starides-web/src/context/CartContext.tsx:54-56 | with unique menu items, removing a present item deletes exactly its entry |
| Cart.RemoveExisting | starides-web/src/context/CartContext.tsx:54-56 | removing a present item takes exactly its share out of total and count |
| Cart.RemovedKeepsInvariant | starides-web/src/context/CartContext.tsx:54-56 | removeItem keeps both invariants |
| Cart.UpdateQuantityExisting | starides-web/src/context/CartContext.tsx:58-66 | a positive quantity sets that entry's quantity and changes nothing else; count and total move by the difference |
| Cart.UpdateQuantityNonPositive | starides-web/src/context/CartContext.tsx:58-61 | a quantity of zero or less behaves as removeItem |
| Cart.RequantifiedKeepsInvariant | starides-web/src/context/CartContext.tsx:62-66 | setting a quantity keeps both invariants |
| Reviews.ReviewCreation | starides-backend/src/resolvers/reviewResolvers.ts:25-59 | checks in order: customer, order exists, order is the caller's, order delivered, no review yet; ratings must lie in 1..5; the review copies restaurant and rider from the order, takes the caller as customer and the four ratings and the comment from the input, and has no response |
| Reviews.CreateReview | starides-backend/src/resolvers/reviewResolvers.ts:25-72 | inserts the review, then sets the restaurant's rating to the mean over all its reviews including the new one and its review count to their number |
| Reviews.ReviewsOf | starides-backend/src/resolvers/reviewResolvers.ts:61 | the restaurant's reviews, the new one included, in insertion order |
| Reviews.MeanRating | starides-backend/src/resolvers/reviewResolvers.ts:62-64 | the restaurant rating is the sum of the reviews' restaurant ratings over their number |
| Reviews.NewReviewKeepsValid | starides-backend/src/models/Review.ts:23-70 | a created review keeps one review per order and ratings in [1,5] |
| Reviews.RatingSumBounds | starides-backend/src/resolvers/reviewResolvers.ts:62-64 | with ratings in [1,5], the sum of n ratings lies in [n, 5n] |
| Reviews.MeanInRange | starides-backend/src/resolvers/reviewResolvers.ts:62-64 | the mean is over at least one review and lies in [1,5] |
| Reviews.ReratedKeepsValid | starides-backend/src/resolvers/reviewResolvers.ts:66-69 | writing the recomputed rating keeps the restaurant collection valid |
| Reviews.NewReviewIsCounted | starides-backend/src/resolvers/reviewResolvers.ts:61-69 | the new review is among those averaged: the count grows by one and the sum by its rating |
| Reviews.SecondReviewRefused | starides-backend/src/resolvers/reviewResolvers.ts:41-46 | once an order has a review, a second one is refused |
| Reviews.ReviewResponse | starides-backend/src/resolvers/reviewResolvers.ts:74-102 | only the vendor owning the review's restaurant may respond, and the response replaces any earlier one |
| Reviews.RespondToReview | starides-backend/src/resolvers/reviewResolvers.ts:74-102 | writes exactly the decided response |
| Stats.Average | starides-backend/src/resolvers/statsResolvers.ts:12 | average times count gives back the revenue when the count is positive; 0 otherwise |
| Stats.CustomerIdsMembers | starides-backend/src/resolvers/statsResolvers.ts:47-48 | the distinct customers are exactly those who placed one of the orders |
| Stats.CustomerIds | starides-backend/src/resolvers/statsResolvers.ts:47-48 | there are never more distinct customers than orders |
| Stats.AdminStats | starides-backend/src/resolvers/statsResolvers.ts:6-21 | admin only; the platform report |
| Stats.RestaurantStats | starides-backend/src/resolvers/statsResolvers.ts:23-56 | a vendor only for a restaurant they own, an admin for any; an anonymous or other caller gets the guard's error, a vendor of another restaurant NotAuthorized; the value is the restaurant's report |
| Stats.AdminReport | starides-backend/src/resolvers/statsResolvers.ts:9-20 | the platform report: the delivered orders, the sum of their totals, its mean, and the number of CUSTOMER accounts |
| Stats.RestaurantReport | starides-backend/src/resolvers/statsResolvers.ts:38-55 | a restaurant's report: its delivered orders, the sum of their subtotals, its mean, and their distinct customers |
| Stats.UndeliveredIgnored | starides-backend/src/resolvers/statsResolvers.ts:9-13 | an order that is not delivered changes nothing in the platform report |
| Stats.OtherOrderIgnored | starides-backend/src/resolvers/statsResolvers.ts:38-48 | an order that is not a delivered order of the restaurant changes nothing in its report |
| Stats.DeliveredCounted | starides-backend/src/resolvers/statsResolvers.ts:9-11 | a delivered order adds one to the platform count and its total to the revenue |
| Stats.RestaurantDeliveredCounted | starides-backend/src/resolvers/statsResolvers.ts:38-48 | a delivered order of the restaurant adds one to its count, its subtotal to the revenue, and its customer to the customers |
| Stats.AdminReportConsistent | starides-backend/src/resolvers/statsResolvers.ts:9-13 | average times count is the revenue; no orders means no revenue and average 0 |
| Stats.RestaurantReportConsistent | starides-backend/src/resolvers/statsResolvers.ts:38-48 | as for the platform, and distinct customers never exceed delivered orders |
| Users.UserListing | starides-backend/src/resolvers/userResolvers.ts:17-21 | admin only; exactly the users of the requested role, or all users |
| Users.ListingWithoutRoleIsAll | starides-backend/src/resolvers/userResolvers.ts:19 | without a role the listing is the whole collection |
| Users.UserById | starides-backend/src/resolvers/userResolvers.ts:23-26 | requires a signed-in caller; the user with that id, or null when there is none |
| Users.ProfileEditedFields | starides-backend/src/resolvers/userResolvers.ts:36-41 | each of first name, last name, phone and avatar changes iff its argument is non-empty; nothing else changes |
| Users.EmptyEditIsIdentity | starides-backend/src/resolvers/userResolvers.ts:38-41 | missing or empty arguments leave the user as it was |
| Users.ProfileEdited | starides-backend/src/resolvers/userResolvers.ts:36-41 | the edited profile: each non-empty argument replaces its field |
| Users.ProfileEditIdempotent | starides-backend/src/resolvers/userResolvers.ts:36-47 | applying the same edit twice is applying it once |
| Users.ProfileUpdate | starides-backend/src/resolvers/userResolvers.ts:30-48 | the caller's own record, edited, or null when it is gone |
| Users.UpdateProfile | starides-backend/src/resolvers/userResolvers.ts:30-48 | writes exactly the edited record |
| Users.NewAddress | starides-backend/src/resolvers/userResolvers.ts:53-64 | the address copies the input; it is default only if the input says true |
| Users.ClearedDefaults | starides-backend/src/resolvers/userResolvers.ts:67-72 | no address stays default, and nothing but the flag changes |
| Users.PushKeepsOneDefault | starides-backend/src/resolvers/userResolvers.ts:74-78 | pushing a non-default address, or a default one onto addresses with no default, keeps at most one default |
| Users.WithAddress | starides-backend/src/resolvers/userResolvers.ts:66-78 | the saved addresses after an addition: a new default first unsets the others, then the address is pushed last |
| Users.WithAddressSpec | starides-backend/src/resolvers/userResolvers.ts:66-78 | the new address is last; earlier ones keep their place and all but the flag; a new default is the only default; at most one default remains |
| Users.AddressAddition | starides-backend/src/resolvers/userResolvers.ts:50-79 | the caller's record with the address added, or null when it is gone |
| Users.AddAddress | starides-backend/src/resolvers/userResolvers.ts:50-79 | the two writes (clear the defaults, then push) leave exactly the decided record, and the store stays valid |
| Users.RiderAvailability | starides-backend/src/resolvers/userResolvers.ts:81-93 | riders only; exactly the availability flag changes |
| Users.UpdateRiderAvailability | starides-backend/src/resolvers/userResolvers.ts:81-93 | writes exactly that change |
| Restaurants.RestaurantListing | starides-backend/src/resolvers/restaurantResolvers.ts:23-28 | exactly the restaurants matching the given status and non-empty owner |
| Restaurants.ListingWithoutFilterIsAll | starides-backend/src/resolvers/restaurantResolvers.ts:24-27 | no filter (or an empty owner) returns every restaurant |
| Restaurants.Matches | starides-backend/src/resolvers/restaurantResolvers.ts:23-28 | the listing filter: the status when given, the owner when given and non-empty |
| Restaurants.RestaurantById | starides-backend/src/resolvers/restaurantResolvers.ts:30-32 | the restaurant with that id, or null |
| Restaurants.RestaurantCreation | starides-backend/src/resolvers/restaurantResolvers.ts:55-91 | vendors only; refused when the caller already owns a restaurant; the new restaurant is the caller's, with the schema defaults |
| Restaurants.CreationKeepsValid | starides-backend/src/resolvers/restaurantResolvers.ts:56-85 | a created restaurant keeps ids unique and one restaurant per owner |
| Restaurants.SecondRestaurantRefused | starides-backend/src/resolvers/restaurantResolvers.ts:58-62 | once a vendor's restaurant is stored, a second creation is refused |
| Restaurants.CreateRestaurant | starides-backend/src/resolvers/restaurantResolvers.ts:55-91 | stores the restaurant and points the owner's record at it; nothing else changes |
| Restaurants.UpdatedKeeps | starides-backend/src/resolvers/restaurantResolvers.ts:110-131 | an update replaces the listing, address and pricing fields and never touches id, owner, status, rating, review count, open flag, opening hours or images |
| Restaurants.Updated | starides-backend/src/resolvers/restaurantResolvers.ts:110-131 | the restaurant after an update: the listing, address and pricing fields from the input |
| Restaurants.RestaurantUpdate | starides-backend/src/resolvers/restaurantResolvers.ts:93-132 | the owning vendor or any admin; refused for an unknown restaurant or another vendor's |
| Restaurants.UpdateRestaurant | starides-backend/src/resolvers/restaurantResolvers.ts:93-132 | writes exactly the updated restaurant |
| Restaurants.StatusChange | starides-backend/src/resolvers/restaurantResolvers.ts:134-141 | admin only; any status from any status, only the status changes; null for an unknown id |
| Restaurants.UpdateRestaurantStatus | starides-backend/src/resolvers/restaurantResolvers.ts:134-141 | writes exactly that change |
| Restaurants.OpenToggle | starides-backend/src/resolvers/restaurantResolvers.ts:143-160 | the owning vendor only; the open flag is negated and nothing else changes |
| Restaurants.ToggleTwiceRestores | starides-backend/src/resolvers/restaurantResolvers.ts:155-159 | toggling twice restores the restaurant |
| Restaurants.ToggleRestaurantOpen | starides-backend/src/resolvers/restaurantResolvers.ts:143-160 | writes exactly the toggled restaurant |
| MenuItems.Menu | starides-backend/src/resolvers/menuItemResolvers.ts:21-23 | exactly the items of the restaurant |
| MenuItems.MenuItemById | starides-backend/src/resolvers/menuItemResolvers.ts:25-27 | the item with that id, or null |
| MenuItems.MenuItemCreation | starides-backend/src/resolvers/menuItemResolvers.ts:31-54 | a vendor owning the restaurant; unknown restaurant and another owner's restaurant are refused; the item takes the schema defaults |
| MenuItems.CreatedIsOnMenu | starides-backend/src/resolvers/menuItemResolvers.ts:48-53 | a created item is on its restaurant's menu and found by its id |
| MenuItems.ItemOwnership | starides-backend/src/resolvers/menuItemResolvers.ts:61-72 | update, delete and toggle need a vendor, an existing item and the caller owning its restaurant |
| MenuItems.MenuItemUpdate | starides-backend/src/resolvers/menuItemResolvers.ts:56-75 | the item with the input applied, under the shared guard |
| MenuItems.AvailabilityToggle | starides-backend/src/resolvers/menuItemResolvers.ts:95-114 | only the availability flag is negated |
| MenuItems.ToggleTwiceRestores | starides-backend/src/resolvers/menuItemResolvers.ts:109-113 | toggling twice restores the item |
| MenuItems.MenuItemDeletion | starides-backend/src/resolvers/menuItemResolvers.ts:77-93 | answers true under the shared guard |
| MenuItems.DeletedIsGone | starides-backend/src/resolvers/menuItemResolvers.ts:91-92 | after deletion no item has that id and every other item is still there |
| MenuItems.CreateMenuItem | starides-backend/src/resolvers/menuItemResolvers.ts:31-54 | appends exactly the created item |
| MenuItems.UpdateMenuItem | starides-backend/src/resolvers/menuItemResolvers.ts:56-75 | writes exactly the updated item |
| MenuItems.ToggleMenuItemAvailability | starides-backend/src/resolvers/menuItemResolvers.ts:95-114 | writes exactly the toggled item |
| MenuItems.DeleteMenuItem | starides-backend/src/resolvers/menuItemResolvers.ts:77-93 | removes exactly that item |
| PasswordReset.RequestedSpec | starides-backend/src/resolvers/passwordResetResolvers.ts:22-43 | an unknown email changes nothing; a known one stores the token's hash with an expiry one hour on, replacing any earlier token, and changes nothing else |
| PasswordReset.RequestTargetIsEmailLookup | starides-backend/src/resolvers/passwordResetResolvers.ts:22 | lower-casing the email before the lookup finds the same user as looking up the email as given |
| PasswordReset.Requested | starides-backend/src/resolvers/passwordResetResolvers.ts:22-43 | the users after a request: the addressed user holds the token's SHA-256 hash and an expiry an hour on |
| PasswordReset.RequestPasswordReset | starides-backend/src/resolvers/passwordResetResolvers.ts:17-59 | always answers true, and stores what RequestedSpec describes |
| PasswordReset.TokenHolder | starides-backend/src/resolvers/passwordResetResolvers.ts:77-80 | finds a user holding the token's hash with an expiry strictly after now, or none |
| PasswordReset.WithNewPassword | starides-backend/src/resolvers/passwordResetResolvers.ts:86-93 | the user after a reset: the bcrypt hash of the new password and no reset token or expiry |
| PasswordReset.ResetDecision | starides-backend/src/resolvers/passwordResetResolvers.ts:61-95 | a password shorter than 6 UTF-16 code units (JavaScript's length) is refused first; then the token must be held and unexpired; the user gets the new hash and loses both reset fields, nothing else changes |
| PasswordReset.ResetPassword | starides-backend/src/resolvers/passwordResetResolvers.ts:61-112 | writes exactly the decided user and answers true |
| PasswordReset.RequestThenReset | starides-backend/src/resolvers/passwordResetResolvers.ts:39-84 | right after a request the issued token resets that user's password before the hour is up and is refused from then on |
| PasswordReset.TokenSingleUse | starides-backend/src/resolvers/passwordResetResolvers.ts:91-95 | after a successful reset the same token is refused |
| PasswordReset.NewerRequestRevokesOlder | starides-backend/src/resolvers/passwordResetResolvers.ts:40-43 | a newer request makes the earlier token useless for that user |
| AuthResolvers.Me | starides-backend/src/resolvers/authResolvers.ts:21-24 | requires a signed-in caller and returns the caller's own record, or null |
| AuthResolvers.Registration | starides-backend/src/resolvers/authResolvers.ts:28-51 | a taken email is refused; the new user stores the bcrypt hash of the password |
| AuthResolvers.RegistrationKeepsValid | starides-backend/src/resolvers/authResolvers.ts:39-42 | a registered user keeps ids and emails unique |
| AuthResolvers.Register | starides-backend/src/resolvers/authResolvers.ts:28-51 | appends exactly the new user and answers a token signed over its id, email and role |
| AuthResolvers.Login | starides-backend/src/resolvers/authResolvers.ts:53-78 | succeeds iff the email is known, the password matches and the account is active; the deactivated error only after a matching password |
| AuthResolvers.LoginFailuresLookAlike | starides-backend/src/resolvers/authResolvers.ts:55-64 | an unknown email and a wrong password give the same error |
| AuthResolvers.RegisterThenLogin | starides-backend/src/resolvers/authResolvers.ts:28-78 | right after registering, the same password with any email of the same stored form (lower-cased and trimmed the same way) logs the new user in |
| AuthResolvers.LowerCaseEmailLogsIn | starides-backend/src/resolvers/authResolvers.ts:28-78 | in particular the email as typed and its lower case both log the new user in |
| AuthResolvers.SecondRegistrationRefused | starides-backend/src/resolvers/authResolvers.ts:30-33 | an email cannot be registered twice, not even in another letter case |
| Chat.SendMessage | starides-backend/src/resolvers/chatResolvers.ts:5-32 | always a bot message from "AI Assistant"; a keyword reply is one of the four canned texts, the fallback contains the message as typed |
| Chat.Classify | starides-backend/src/resolvers/chatResolvers.ts:11-23 | the kind of reply: greeting, order, menu, help or echo, by keywords in the lower-cased message, first group first |
| Chat.ReplyText | starides-backend/src/resolvers/chatResolvers.ts:13-23 | the canned reply of the group, or the echo of the message as typed |
| Common.EmojiCountTwice | starides-backend/src/resolvers/passwordResetResolvers.ts:66 | JavaScript's length counts UTF-16 code units: three emoji are six long |
| Chat.EchoQuotesText | starides-backend/src/resolvers/chatResolvers.ts:22 | the fallback quotes the original text, not the lower-cased one |
| Chat.ClassifyIgnoresCase | starides-backend/src/resolvers/chatResolvers.ts:11 | a message and its lower-cased form get the same kind of reply |
| Chat.PriorityOrder | starides-backend/src/resolvers/chatResolvers.ts:13-23 | greeting, then order, then menu, then help, then echo: a group wins iff it matches and no earlier one does |
| Chat.HiInsideWordGreets | starides-backend/src/resolvers/chatResolvers.ts:13 | matching is by substring: "Which ORDER is mine?" gets the greeting |
| Chat.NoKeywordEchoes | starides-backend/src/resolvers/chatResolvers.ts:21-23 | a message with no keyword is echoed |
| OrderTracker.CurrentStepIndex | starides-web/src/components/Orders/OrderTracker.tsx:17-23 | the index is -1 exactly for CANCELLED and REJECTED and otherwise one of the five steps |
| OrderTracker.StepsDistinct | starides-web/src/components/Orders/OrderTracker.tsx:9-15 | the five steps are pairwise different, and none of them is CANCELLED or READY_FOR_PICKUP |
| OrderTracker.StepTable | starides-web/src/components/Orders/OrderTracker.tsx:9-23 | PENDING 0, CONFIRMED 1, PREPARING 2, READY_FOR_PICKUP 2, OUT_FOR_DELIVERY 3, DELIVERED 4, CANCELLED and REJECTED -1 |
| OrderTracker.UnknownStatusIsFirstStep | starides-web/src/components/Orders/OrderTracker.tsx:22 | any other status shows step 0 |
| OrderTracker.ProgressNeverMovesBack | starides-web/src/components/Orders/OrderTracker.tsx:9-23 | along an order's normal life the index never decreases |
| OrderTracker.BarConsistent | starides-web/src/components/Orders/OrderTracker.tsx:27-48 | a cancelled order has no active step; a completed line joins two active steps; a delivered order has every step active and every line completed |

## Left out

- Persistence: the document store is five sequences in insertion order; sorting by creation date, the `select('-password')` projection, and failures of the store itself are not modelled.
- The `nearbyRestaurants` geo query is not modelled, because it needs a geospatial index and distances in floating point.
- The `order` query (a plain lookup by id) and the field resolvers that fetch related records are not modelled.
- Concurrency is not modelled: operations run one after the other. So the race between two riders accepting the same order, the check-then-insert in createRestaurant and the two separate writes of addAddress cannot interleave here.
- Cryptography is abstract: JWT signing and verification, bcrypt, SHA-256 and random bytes are injective constructors or parameters.
- Email sending, the chat reply's uuid, timestamp and one-second delay, console logging, and the cart's copy in browser storage are not modelled.
- Generating an order number is not modelled; it is a parameter, and a clash is refused by the unique index.
- Required-string validation, trimming of name fields and the enum checks of Mongoose are not modelled; the enums are Dafny datatypes, so an out-of-range value cannot be expressed.
- Updates by `findByIdAndUpdate` run no validators, so the model does not keep fee, minimum, price or spicy level within bounds after an update. Only creation checks them.
- PasswordReset.RequestPasswordReset: the generic "Failed to process password reset request" error, raised when the store fails, is not modelled.
- PasswordReset.TokenSingleUse and PasswordReset.RequestThenReset assume that no other user holds the same token hash. Tokens are 32 random bytes.
- Cart.Cart.AddItem: the confirm dialog is a boolean parameter.
- Register accepts whatever role the input names, including ADMIN, as the code does.
- Common.Lower: String.prototype.toLowerCase is modelled for A-Z and the Latin-1 capitals U+00C0-U+00DE only. Other case mappings are not: Latin Extended, Greek (with its final-sigma rule), Cyrillic and the rest stay unchanged, and "İ", which JavaScript lower-cases to two characters, stays as it is. A full Unicode case table is out of reach of this model.
- UserModel.EmailIndex: because of Common.Lower, two emails that differ only in letters outside A-Z and Latin-1 (say "ĀNA@x.com" and "āna@x.com") are different in the model, though the schema's lowercase setter stores both as "āna@x.com". Login, registration and the reset request inherit this.
- Common.NormalizedIsStored: "no upper-case letter" means none of the letters Common.IsUpper lists (A-Z and the Latin-1 capitals), not every Unicode capital.
- Chat.Classify: keywords are looked for after the same partial lower-casing, so "Hİ", which JavaScript lower-cases to text containing "hi", is echoed in the model instead of greeted.
- Orders.CheckoutSuccess: the estimated delivery time is `now` plus minutes times 60000 milliseconds. The code adds the minutes to the local wall-clock time (`setMinutes`), which differs by the offset when the interval crosses a daylight-saving change; time zones are not modelled.
- Floating point: money is exact `real` arithmetic, while the code computes in IEEE-754 doubles (the `+=` of price times quantity, `subtotal * 0.1`, the revenue sums, the averages and the mean review rating). Rounding is not modelled. For example, items priced 0.1 and 0.7, one of each, with a minimum order of 0.8: JavaScript sums them to 0.7999999999999999 and refuses the order as below the minimum, while the model sums them to 0.8 and accepts it. Likewise "average times count is the revenue" (Stats.AdminReportConsistent, Stats.RestaurantReportConsistent) and the bounds on the mean rating (Reviews.MeanInRange) hold exactly only in the reals.
