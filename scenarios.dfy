/**
 * The scenarios of the system's own test class (`OrderSystemTest`), with
 * the values it prints stated over the recipes of the items it builds.
 * Every constructor and topping mutator of `Food` keeps the stored price
 * equal to `RecipePrice` and `getMealType()` returns `RecipeMealType`, and an
 * order's class is `ByPrecedence` of its items' classes, so these are the
 * printed results. Prices are in cents.
 */
module Scenarios {
  import opened Wrappers
  import opened MealTypes
  import opened Foods
  import PZ = PizzaToppings
  import PS = PastaToppings

  const Hawaiian := PizzaRecipe([PZ.Ham, PZ.Cheese, PZ.Pineapple])

  /** `testPizzaCreation`: a plain pizza costs 11.50 and is VEGAN; ham,
      cheese and pineapple cost 18.00 and make it MEAT. */
  lemma PizzaCreation()
    ensures RecipePrice(PizzaRecipe([])) == 1150 && RecipeMealType(PizzaRecipe([])) == Vegan
    ensures RecipePrice(Hawaiian) == 1800 && RecipeMealType(Hawaiian) == Meat
  {
    ThreeToppingsPrice(PZ.Ham, PZ.Cheese, PZ.Pineapple);
    assert !Hawaiian.toppings[0].IsVegetarian();
  }

  lemma ThreeToppingsPrice(a: PZ.PizzaTopping, b: PZ.PizzaTopping, c: PZ.PizzaTopping)
    ensures RecipePrice(PizzaRecipe([a, b, c])) == BASE_PRICE + a.Price() + b.Price() + c.Price()
  {
    assert [a, b, c][..2] == [a, b] && [a, b][..1] == [a] && [a][..0] == [];
    assert ToppingsPrice([a]) == a.Price();
    assert ToppingsPrice([a, b]) == a.Price() + b.Price();
    assert ToppingsPrice([a, b, c]) == a.Price() + b.Price() + c.Price();
  }

  /** `testPastaCreation`: a plain pasta costs 11.50 and is VEGAN; a
      bolognese costs 16.70 and is MEAT. */
  lemma PastaCreation()
    ensures RecipePrice(PastaRecipe(None)) == 1150 && RecipeMealType(PastaRecipe(None)) == Vegan
    ensures RecipePrice(PastaRecipe(Some(PS.Bolognese))) == 1670
    ensures RecipeMealType(PastaRecipe(Some(PS.Bolognese))) == Meat
  {
  }

  /** `testOrderCreation`: a Hawaiian pizza and a marinara pasta total
      36.30, and the order is MEAT. */
  lemma OrderCreation()
    ensures RecipePrice(Hawaiian) + RecipePrice(PastaRecipe(Some(PS.Marinara))) == 3630
    ensures ByPrecedence([RecipeMealType(Hawaiian), RecipeMealType(PastaRecipe(Some(PS.Marinara)))]) == Meat
  {
    PizzaCreation();
  }

  /** `testMealTypeClassification`: tomato and mushrooms with tomato pasta
      is VEGAN, cheese and mushrooms with primavera is VEGETARIAN, ham and
      cheese with bolognese is MEAT. */
  lemma MealTypeClassification()
    ensures ByPrecedence([RecipeMealType(PizzaRecipe([PZ.Tomato, PZ.Mushrooms])),
                          RecipeMealType(PastaRecipe(Some(PS.Tomato)))]) == Vegan
    ensures ByPrecedence([RecipeMealType(PizzaRecipe([PZ.Cheese, PZ.Mushrooms])),
                          RecipeMealType(PastaRecipe(Some(PS.Primavera)))]) == Vegetarian
    ensures ByPrecedence([RecipeMealType(PizzaRecipe([PZ.Ham, PZ.Cheese])),
                          RecipeMealType(PastaRecipe(Some(PS.Bolognese)))]) == Meat
  {
    assert RecipeMealType(PizzaRecipe([PZ.Tomato, PZ.Mushrooms])) == Vegan;
    assert [PZ.Cheese, PZ.Mushrooms][0] == PZ.Cheese;
    assert RecipeMealType(PizzaRecipe([PZ.Cheese, PZ.Mushrooms])) == Vegetarian;
    assert [PZ.Ham, PZ.Cheese][0] == PZ.Ham;
    assert RecipeMealType(PizzaRecipe([PZ.Ham, PZ.Cheese])) == Meat;
  }

  /** `testPriceCalculation`: seafood, pineapple and ham cost 19.50, a
      marinara 18.30, and the two together 37.80. */
  lemma PriceCalculation()
    ensures RecipePrice(PizzaRecipe([PZ.Seafood, PZ.Pineapple, PZ.Ham])) == 1950
    ensures RecipePrice(PastaRecipe(Some(PS.Marinara))) == 1830
    ensures RecipePrice(PizzaRecipe([PZ.Seafood, PZ.Pineapple, PZ.Ham]))
            + RecipePrice(PastaRecipe(Some(PS.Marinara))) == 3780
  {
    ThreeToppingsPrice(PZ.Seafood, PZ.Pineapple, PZ.Ham);
  }
}
