/**
 * `RestaurantFoodFactory`: a fixed table of nine named recipes, looked up
 * case-insensitively, and ad-hoc pizzas and pastas built from a food type
 * and a parameter map. The factory has no state; what it computes is the
 * recipe, and the methods build the `Food` object for it.
 */
module FoodFactory {
  import opened Wrappers
  import opened Text
  import opened MealTypes
  import opened Foods
  import PZ = PizzaToppings
  import PS = PastaToppings

  /** The message of the `IllegalArgumentException` thrown, or a
      `ClassCastException` from a parameter of the wrong type. */
  datatype FactoryError = IllegalArgument(message: string) | ClassCast

  /** `MENU_ITEMS`, in declared order. */
  const MenuItems: seq<string> := [
    "hawaiian_pizza",
    "meat_lovers_pizza",
    "vegetarian_supreme_pizza",
    "margherita_pizza",
    "seafood_deluxe_pizza",
    "classic_marinara_pasta",
    "creamy_primavera_pasta",
    "hearty_bolognese_pasta",
    "simple_tomato_pasta"
  ]

  /** The recipe the `createMenuItemByName` switch builds for the k-th name
      (`createHawaiianPizza` and the other private helpers). */
  function MenuEntry(k: nat): Recipe
    requires k < |MenuItems|
  {
    if k == 0 then PizzaRecipe([PZ.Ham, PZ.Pineapple, PZ.Cheese])
    else if k == 1 then PizzaRecipe([PZ.Ham, PZ.Seafood, PZ.Cheese])
    else if k == 2 then PizzaRecipe([PZ.Cheese, PZ.Mushrooms, PZ.Tomato, PZ.Pineapple])
    else if k == 3 then PizzaRecipe([PZ.Cheese, PZ.Tomato])
    else if k == 4 then PizzaRecipe([PZ.Seafood, PZ.Cheese, PZ.Tomato])
    else if k == 5 then PastaRecipe(Some(PS.Marinara))
    else if k == 6 then PastaRecipe(Some(PS.Primavera))
    else if k == 7 then PastaRecipe(Some(PS.Bolognese))
    else PastaRecipe(Some(PS.Tomato))
  }

  /** The text the `getMenuItemDescription` switch gives for the k-th name. */
  const MenuDescriptions: seq<string> := [
    "Ham, pineapple, and cheese",
    "Ham, seafood, and cheese",
    "Cheese, mushrooms, tomato, and pineapple",
    "Cheese and tomato",
    "Seafood, cheese, and tomato",
    "Pasta with marinara sauce (contains meat)",
    "Pasta with primavera sauce (vegetarian)",
    "Pasta with bolognese sauce (contains meat)",
    "Pasta with tomato sauce (vegan)"
  ]

  /** Position of the first occurrence of `key`. */
  function IndexOf(names: seq<string>, key: string): (k: nat)
    requires key in names
    ensures k < |names| && names[k] == key
    ensures forall j :: 0 <= j < k ==> names[j] != key
  {
    if names[0] == key then 0 else 1 + IndexOf(names[1..], key)
  }

  /** In a list without repetitions the position of an element is unique. */
  lemma {:induction false} IndexOfDistinct(names: seq<string>, k: nat)
    requires k < |names|
    requires forall i, j :: 0 <= i < j < |names| ==> names[i] != names[j]
    ensures IndexOf(names, names[k]) == k
  {
    if names[0] != names[k] {
      IndexOfDistinct(names[1..], k - 1);
    }
  }

  /** The nine names are different, so each case of the switch is reached by
      exactly one of them. */
  lemma MenuItemsDistinct()
    ensures forall i, j :: 0 <= i < j < |MenuItems| ==> MenuItems[i] != MenuItems[j]
  {
  }

  /** The switch of `createMenuItemByName` on a lower-cased name: a recipe
      exactly for the listed names. */
  function MenuRecipe(key: string): (r: Option<Recipe>)
    ensures r.Some? <==> key in MenuItems
  {
    if key in MenuItems then Some(MenuEntry(IndexOf(MenuItems, key))) else None
  }

  /** The k-th listed name selects the k-th recipe. */
  lemma {:induction false} MenuTable(k: nat)
    requires k < |MenuItems|
    ensures MenuRecipe(MenuItems[k]) == Some(MenuEntry(k))
    ensures DescriptionText(MenuItems[k]) == MenuDescriptions[k]
  {
    MenuItemsDistinct();
    IndexOfDistinct(MenuItems, k);
  }

  /** Names ending in "_pizza" give a pizza and names ending in "_pasta" a
      pasta, always with a sauce. */
  lemma MenuKinds(k: nat)
    requires k < |MenuItems|
    ensures MenuEntry(k).PizzaRecipe? <==> EndsWith(MenuItems[k], "_pizza")
    ensures MenuEntry(k).PastaRecipe? <==> EndsWith(MenuItems[k], "_pasta")
    ensures MenuEntry(k).PastaRecipe? ==> MenuEntry(k).topping.Some?
  {
    var n := MenuItems[k];
    if k < 5 {
      assert n[|n| - 6..] == "_pizza";
    } else {
      assert n[|n| - 6..] == "_pasta";
    }
  }

  /** What `createMenuItemByName` builds: `null` and names outside the
      table (after lower-casing) throw, every other name gives its recipe. */
  function MenuItemRecipe(name: Option<string>): (r: Result<Recipe, FactoryError>)
    ensures name.None? ==> r == Err(IllegalArgument("Menu item name cannot be null"))
    ensures name.Some? ==> (r.Ok? <==> Lower(name.value) in MenuItems)
    ensures name.Some? && r.Err? ==> r.error == IllegalArgument("Unknown menu item: " + name.value)
  {
    match name
    case None => Err(IllegalArgument("Menu item name cannot be null"))
    case Some(n) =>
      match MenuRecipe(Lower(n))
      case Some(recipe) => Ok(recipe)
      case None => Err(IllegalArgument("Unknown menu item: " + n))
  }

  /** The lookup ignores case: a name and its lower-cased form give the same
      recipe. */
  lemma MenuLookupIgnoresCase(n: string)
    ensures MenuItemRecipe(Some(n)).Ok? <==> MenuItemRecipe(Some(Lower(n))).Ok?
    ensures MenuItemRecipe(Some(n)).Ok? ==> MenuItemRecipe(Some(n)) == MenuItemRecipe(Some(Lower(n)))
    ensures MenuItemDescription(Some(n)) == MenuItemDescription(Some(Lower(n)))
  {
    LowerIdempotent(n);
  }

  /** Every name the factory advertises is one it accepts. */
  lemma ListedNamesAccepted(k: nat)
    requires k < |MenuItems|
    ensures MenuItemRecipe(Some(MenuItems[k])).Ok?
  {
    var key := MenuItems[k];
    LowerFixes(key);
  }

  /** The listed names are already lower case. */
  lemma LowerFixes(key: string)
    requires key in MenuItems
    ensures Lower(key) == key
  {
    FirstNamesLower();
    MiddleNamesLower();
    LastNamesLower();
    LowerOfLower(key);
  }

  lemma FirstNamesLower()
    ensures IsLower(MenuItems[0]) && IsLower(MenuItems[1]) && IsLower(MenuItems[2])
  {
    assert IsLower("hawaiian_pizza");
    assert IsLower("meat_lovers_pizza");
    assert IsLower("vegetarian_supreme_pizza");
  }

  lemma MiddleNamesLower()
    ensures IsLower(MenuItems[3]) && IsLower(MenuItems[4]) && IsLower(MenuItems[5])
  {
    assert IsLower("margherita_pizza");
    assert IsLower("seafood_deluxe_pizza");
    assert IsLower("classic_marinara_pasta");
  }

  lemma LastNamesLower()
    ensures IsLower(MenuItems[6]) && IsLower(MenuItems[7]) && IsLower(MenuItems[8])
  {
    assert IsLower("creamy_primavera_pasta");
    assert IsLower("hearty_bolognese_pasta");
    assert IsLower("simple_tomato_pasta");
  }

  /** The fixed recipes of the table. */
  lemma MenuRecipes()
    ensures MenuRecipe("hawaiian_pizza") == Some(PizzaRecipe([PZ.Ham, PZ.Pineapple, PZ.Cheese]))
    ensures MenuRecipe("meat_lovers_pizza") == Some(PizzaRecipe([PZ.Ham, PZ.Seafood, PZ.Cheese]))
    ensures MenuRecipe("vegetarian_supreme_pizza")
         == Some(PizzaRecipe([PZ.Cheese, PZ.Mushrooms, PZ.Tomato, PZ.Pineapple]))
    ensures MenuRecipe("margherita_pizza") == Some(PizzaRecipe([PZ.Cheese, PZ.Tomato]))
    ensures MenuRecipe("seafood_deluxe_pizza") == Some(PizzaRecipe([PZ.Seafood, PZ.Cheese, PZ.Tomato]))
    ensures MenuRecipe("classic_marinara_pasta") == Some(PastaRecipe(Some(PS.Marinara)))
    ensures MenuRecipe("creamy_primavera_pasta") == Some(PastaRecipe(Some(PS.Primavera)))
    ensures MenuRecipe("hearty_bolognese_pasta") == Some(PastaRecipe(Some(PS.Bolognese)))
    ensures MenuRecipe("simple_tomato_pasta") == Some(PastaRecipe(Some(PS.Tomato)))
  {
    MenuTable(0); MenuTable(1); MenuTable(2); MenuTable(3); MenuTable(4);
    MenuTable(5); MenuTable(6); MenuTable(7); MenuTable(8);
  }

  /** `getAvailableMenuItems()`: a fresh copy of the table's names, so a
      caller that changes it changes nothing here. */
  method GetAvailableMenuItems() returns (names: array<string>)
    ensures fresh(names)
    ensures names[..] == MenuItems
  {
    names := new string[|MenuItems|](i requires 0 <= i < |MenuItems| => MenuItems[i]);
  }

  /** `createMenuItemByName`: a new item with the recipe of the table entry,
      priced as that recipe. */
  method CreateMenuItemByName(name: Option<string>) returns (r: Result<Food, FactoryError>)
    ensures r.Ok? <==> MenuItemRecipe(name).Ok?
    ensures r.Err? ==> r.error == MenuItemRecipe(name).error
    ensures r.Ok? ==> fresh(r.value) && r.value.recipe == MenuItemRecipe(name).value
    ensures r.Ok? ==> r.value.PriceCurrent()
  {
    match MenuItemRecipe(name)
    case Err(e) =>
      r := Err(e);
    case Ok(recipe) =>
      var item := Build(recipe);
      r := Ok(item);
  }

  /** A new `Pizza` or `Pasta` object for a recipe. */
  method Build(recipe: Recipe) returns (item: Food)
    ensures fresh(item) && item.recipe == recipe && item.PriceCurrent()
  {
    if recipe.PizzaRecipe? {
      item := new Food.Pizza(recipe.toppings);
    } else {
      item := new Food.Pasta(recipe.topping);
    }
  }

  /** The switch of `getMenuItemDescription` on a lower-cased name, with
      its default. */
  function DescriptionText(key: string): (d: string)
    ensures d == "Description not available" <==> key !in MenuItems
  {
    NoDefaultDescription();
    if key in MenuItems then MenuDescriptions[IndexOf(MenuItems, key)] else "Description not available"
  }

  lemma NoDefaultDescription()
    ensures forall i :: 0 <= i < |MenuDescriptions| ==> MenuDescriptions[i] != "Description not available"
  {
  }

  /** `getMenuItemDescription`: `null` throws, but an unknown name is
      answered with "Description not available" instead. */
  function MenuItemDescription(name: Option<string>): (r: Result<string, FactoryError>)
    ensures r.Err? <==> name.None?
    ensures r.Err? ==> r.error == IllegalArgument("Menu item name cannot be null")
    ensures r.Ok? ==> (r.value == "Description not available" <==> MenuItemRecipe(name).Err?)
  {
    match name
    case None => Err(IllegalArgument("Menu item name cannot be null"))
    case Some(n) => Ok(DescriptionText(Lower(n)))
  }

  /** The dietary tag a pasta description ends with. */
  function DietaryTag(m: MealType): string {
    match m
    case Meat => "(contains meat)"
    case Vegetarian => "(vegetarian)"
    case Vegan => "(vegan)"
  }

  /** The tag in each pasta description agrees with the meal type the pasta
      it names computes (`MenuTable` ties both to the name). */
  lemma PastaDescriptionTags(k: nat)
    requires k < |MenuItems| && MenuEntry(k).PastaRecipe?
    ensures EndsWith(MenuDescriptions[k], DietaryTag(RecipeMealType(MenuEntry(k))))
  {
    MeatPastaTags();
    MeatlessPastaTags();
    if k == 5 || k == 7 {
      assert RecipeMealType(MenuEntry(k)) == Meat;
    } else if k == 6 {
      assert RecipeMealType(MenuEntry(k)) == Vegetarian;
    } else {
      assert RecipeMealType(MenuEntry(k)) == Vegan;
    }
  }

  lemma MeatPastaTags()
    ensures EndsWith(MenuDescriptions[5], "(contains meat)")
    ensures EndsWith(MenuDescriptions[7], "(contains meat)")
  {
  }

  lemma MeatlessPastaTags()
    ensures EndsWith(MenuDescriptions[6], "(vegetarian)")
    ensures EndsWith(MenuDescriptions[8], "(vegan)")
  {
  }

  /** A value in the parameter map of `createFood`: a topping list, a pasta
      topping, `null`, or anything else. */
  datatype ParamValue =
    | ToppingListValue(toppings: seq<PZ.PizzaTopping>)
    | PastaToppingValue(topping: PS.PastaTopping)
    | NullValue
    | OtherValue

  /** `createPizza`: plain for `null` or empty parameters and for a missing
      or `null` "toppings" entry, otherwise the given list. */
  function PizzaFromParams(params: Option<map<string, ParamValue>>): (r: Result<Recipe, FactoryError>)
    ensures r.Ok? ==> r.value.PizzaRecipe?
    ensures params.None? || params.value == map[] || "toppings" !in params.value ==> r == Ok(PizzaRecipe([]))
    ensures params.Some? && "toppings" in params.value ==>
              match params.value["toppings"]
              case ToppingListValue(ts) => r == Ok(PizzaRecipe(ts))
              case NullValue => r == Ok(PizzaRecipe([]))
              case _ => r == Err(ClassCast)
  {
    if params.None? || params.value == map[] || "toppings" !in params.value then Ok(PizzaRecipe([]))
    else
      match params.value["toppings"]
      case NullValue => Ok(PizzaRecipe([]))
      case ToppingListValue(ts) => Ok(PizzaRecipe(ts))
      case _ => Err(ClassCast)
  }

  /** `createPasta`: plain for `null` or empty parameters and for a missing
      or `null` "topping" entry, otherwise that topping. */
  function PastaFromParams(params: Option<map<string, ParamValue>>): (r: Result<Recipe, FactoryError>)
    ensures r.Ok? ==> r.value.PastaRecipe?
    ensures params.None? || params.value == map[] || "topping" !in params.value ==> r == Ok(PastaRecipe(None))
    ensures params.Some? && "topping" in params.value ==>
              match params.value["topping"]
              case PastaToppingValue(t) => r == Ok(PastaRecipe(Some(t)))
              case NullValue => r == Ok(PastaRecipe(None))
              case _ => r == Err(ClassCast)
  {
    if params.None? || params.value == map[] || "topping" !in params.value then Ok(PastaRecipe(None))
    else
      match params.value["topping"]
      case NullValue => Ok(PastaRecipe(None))
      case PastaToppingValue(t) => Ok(PastaRecipe(Some(t)))
      case _ => Err(ClassCast)
  }

  /** What `createFood` builds: a `null` type throws, "pizza" and "pasta"
      are recognised whatever their case, and any other type throws. */
  function FoodRecipe(foodType: Option<string>, params: Option<map<string, ParamValue>>)
    : (r: Result<Recipe, FactoryError>)
    ensures foodType.None? ==> r == Err(IllegalArgument("Food type cannot be null"))
    ensures foodType.Some? && Lower(foodType.value) == "pizza" ==> r == PizzaFromParams(params)
    ensures foodType.Some? && Lower(foodType.value) == "pasta" ==> r == PastaFromParams(params)
    ensures foodType.Some? && Lower(foodType.value) != "pizza" && Lower(foodType.value) != "pasta"
            ==> r == Err(IllegalArgument("Unknown food type: " + foodType.value))
  {
    match foodType
    case None => Err(IllegalArgument("Food type cannot be null"))
    case Some(t) =>
      var key := Lower(t);
      if key == "pizza" then PizzaFromParams(params)
      else if key == "pasta" then PastaFromParams(params)
      else Err(IllegalArgument("Unknown food type: " + t))
  }

  /** A recognised type with no usable parameters gives the plain item, priced
      at the base price. */
  lemma PlainWithoutParams(foodType: string)
    requires Lower(foodType) == "pizza" || Lower(foodType) == "pasta"
    ensures FoodRecipe(Some(foodType), None).Ok?
    ensures RecipePrice(FoodRecipe(Some(foodType), None).value) == BASE_PRICE
    ensures RecipeMealType(FoodRecipe(Some(foodType), None).value) == Vegan
  {
    BasePriceIsFloor(FoodRecipe(Some(foodType), None).value);
  }

  /** A recognised pizza type with a "toppings" list builds a pizza with
      exactly that list, in that order. */
  lemma PizzaWithToppings(foodType: string, ts: seq<PZ.PizzaTopping>)
    requires Lower(foodType) == "pizza"
    ensures FoodRecipe(Some(foodType), Some(map["toppings" := ToppingListValue(ts)])) == Ok(PizzaRecipe(ts))
    ensures RecipePrice(PizzaRecipe(ts)) >= BASE_PRICE
  {
    BasePriceIsFloor(PizzaRecipe(ts));
  }

  /** A recognised pasta type with a "topping" entry builds a pasta with that
      topping; any other kind of value under the key is a cast failure. */
  lemma PastaWithTopping(foodType: string, t: PS.PastaTopping, other: ParamValue)
    requires Lower(foodType) == "pasta"
    requires !other.PastaToppingValue? && !other.NullValue?
    ensures FoodRecipe(Some(foodType), Some(map["topping" := PastaToppingValue(t)])) == Ok(PastaRecipe(Some(t)))
    ensures FoodRecipe(Some(foodType), Some(map["topping" := other])) == Err(ClassCast)
  {
  }

  /** `createFood`: a new item with the recipe `FoodRecipe` gives. */
  method CreateFood(foodType: Option<string>, params: Option<map<string, ParamValue>>)
    returns (r: Result<Food, FactoryError>)
    ensures r.Ok? <==> FoodRecipe(foodType, params).Ok?
    ensures r.Err? ==> r.error == FoodRecipe(foodType, params).error
    ensures r.Ok? ==> fresh(r.value) && r.value.recipe == FoodRecipe(foodType, params).value
    ensures r.Ok? ==> r.value.PriceCurrent()
  {
    match FoodRecipe(foodType, params)
    case Err(e) =>
      r := Err(e);
    case Ok(recipe) =>
      var item := Build(recipe);
      r := Ok(item);
  }
}
