/** The menu item record (models/MenuItem.ts): category, price,
    availability and dietary flags, with the schema's defaults and bounds. */
module MenuItemModel {
  import opened Common

  datatype Category = Appetizer | MainCourse | Dessert | Beverage | SideDish

  datatype MenuItem = MenuItem(
    id: Id,
    restaurantId: Id,
    name: string,
    description: string,
    category: Category,
    price: real,
    image: Option<string>,
    isAvailable: bool,
    isVegetarian: bool,
    isVegan: bool,
    isGlutenFree: bool,
    spicyLevel: int,            // 0 to 5
    preparationTime: int,       // minutes
    calories: Option<int>,
    ingredients: seq<string>,
    allergens: seq<string>)

  /** The schema's min/max validators, run when a document is created. */
  predicate SchemaValid(m: MenuItem) {
    m.price >= 0.0 && 0 <= m.spicyLevel <= 5 && m.preparationTime >= 0
  }

  /** The menu item input; `None` is a field the client left out. */
  datatype MenuItemInput = MenuItemInput(
    name: string, description: string, category: Category, price: real,
    isVegetarian: Option<bool>, isVegan: Option<bool>, isGlutenFree: Option<bool>,
    spicyLevel: Option<int>, preparationTime: int, calories: Option<int>,
    ingredients: Option<seq<string>>, allergens: Option<seq<string>>)

  function OrElse<T>(o: Option<T>, default: T): T {
    match o
    case Some(v) => v
    case None => default
  }

  /** A menu item document created from input: the given fields are copied,
      the missing ones take the schema's defaults (available, not
      vegetarian, vegan or gluten-free, spicy level 0, no ingredients or
      allergens). */
  function NewMenuItem(id: Id, restaurantId: Id, input: MenuItemInput): (m: MenuItem)
    ensures m.id == id && m.restaurantId == restaurantId && m.isAvailable
    ensures m.name == input.name && m.price == input.price && m.category == input.category
    ensures input.isVegetarian.None? ==> !m.isVegetarian
    ensures input.isVegan.None? ==> !m.isVegan
    ensures input.isGlutenFree.None? ==> !m.isGlutenFree
    ensures input.spicyLevel.None? ==> m.spicyLevel == 0
    ensures input.ingredients.None? ==> m.ingredients == []
    ensures input.allergens.None? ==> m.allergens == []
  {
    MenuItem(id, restaurantId, input.name, input.description, input.category, input.price,
             None, true, OrElse(input.isVegetarian, false), OrElse(input.isVegan, false),
             OrElse(input.isGlutenFree, false), OrElse(input.spicyLevel, 0),
             input.preparationTime, input.calories, OrElse(input.ingredients, []),
             OrElse(input.allergens, []))
  }

  /** Model.findByIdAndUpdate(id, input): the fields present in the input
      overwrite the stored ones, the others are kept; no validator runs. */
  function Updated(m: MenuItem, input: MenuItemInput): (u: MenuItem)
    ensures u.id == m.id && u.restaurantId == m.restaurantId && u.isAvailable == m.isAvailable
    ensures u.name == input.name && u.price == input.price && u.category == input.category
    ensures u.isVegetarian == OrElse(input.isVegetarian, m.isVegetarian)
    ensures u.spicyLevel == OrElse(input.spicyLevel, m.spicyLevel)
    ensures u.ingredients == OrElse(input.ingredients, m.ingredients)
  {
    m.(name := input.name, description := input.description, category := input.category,
       price := input.price, isVegetarian := OrElse(input.isVegetarian, m.isVegetarian),
       isVegan := OrElse(input.isVegan, m.isVegan),
       isGlutenFree := OrElse(input.isGlutenFree, m.isGlutenFree),
       spicyLevel := OrElse(input.spicyLevel, m.spicyLevel),
       preparationTime := input.preparationTime, calories := if input.calories.Some? then input.calories else m.calories,
       ingredients := OrElse(input.ingredients, m.ingredients),
       allergens := OrElse(input.allergens, m.allergens))
  }

  function MenuItemKey(m: MenuItem): Id { m.id }

  /** The invariant of the menu item collection: unique ids. (Price and
      spicy level are validated only on creation: updates write them
      unvalidated.) */
  ghost predicate MenuItemsValid(items: seq<MenuItem>) {
    UniqueKeys(items, MenuItemKey)
  }

  /** Model.findById on the menu item collection. */
  function MenuItemIndex(items: seq<MenuItem>, id: Id): (i: int)
    ensures -1 <= i < |items|
    ensures i == -1 <==> forall k :: 0 <= k < |items| ==> items[k].id != id
    ensures 0 <= i ==> items[i].id == id
  {
    FirstIndex(items, (m: MenuItem) => m.id == id)
  }
}
