/** The pizza topping catalog (enum `PizzaTopping`). */
module PizzaToppings {
  import opened MealTypes

  datatype PizzaTopping = Ham | Cheese | Pineapple | Mushrooms | Tomato | Seafood
  {
    /** `getPrice()`, in cents. */
    function Price(): nat {
      match this
      case Ham => 200
      case Cheese => 200
      case Pineapple => 250
      case Mushrooms => 200
      case Tomato => 200
      case Seafood => 350
    }

    /** `isVegetarian()`. */
    predicate IsVegetarian() {
      !(this == Ham || this == Seafood)
    }

    /** `isVegan()`. */
    predicate IsVegan() {
      this == Pineapple || this == Mushrooms || this == Tomato
    }

    /** `toString()`: the constant's name. */
    function Name(): string {
      match this
      case Ham => "HAM"
      case Cheese => "CHEESE"
      case Pineapple => "PINEAPPLE"
      case Mushrooms => "MUSHROOMS"
      case Tomato => "TOMATO"
      case Seafood => "SEAFOOD"
    }

    /** Position in declaration order (`ordinal()`). */
    function Ordinal(): nat {
      match this
      case Ham => 0
      case Cheese => 1
      case Pineapple => 2
      case Mushrooms => 3
      case Tomato => 4
      case Seafood => 5
    }

    /** The dietary class this topping gives on its own. */
    function Class(): MealType {
      Classify(IsVegetarian(), IsVegan())
    }
  }

  /** `PizzaTopping.values()`, in declaration order. */
  const Values: seq<PizzaTopping> := [Ham, Cheese, Pineapple, Mushrooms, Tomato, Seafood]

  /** The catalog as declared: six constants with these prices in cents. */
  lemma Catalog()
    ensures |Values| == 6
    ensures forall i, j :: 0 <= i < j < |Values| ==> Values[i] != Values[j]
    ensures forall i :: 0 <= i < |Values| ==> Values[i].Ordinal() == i
    ensures seq(|Values|, i requires 0 <= i < |Values| => Values[i].Price())
         == [200, 200, 250, 200, 200, 350]
  {
  }

  /** `values()` lists every constant, at its ordinal. */
  lemma ValuesEnumerate(t: PizzaTopping)
    ensures t.Ordinal() < |Values| && Values[t.Ordinal()] == t
  {
  }

  /** A vegan topping is always vegetarian. */
  lemma VeganIsVegetarian(t: PizzaTopping)
    ensures t.IsVegan() ==> t.IsVegetarian()
  {
  }

  /** HAM and SEAFOOD are the only toppings that are not vegetarian, and
      CHEESE is the only vegetarian one that is not vegan. */
  lemma DietaryFlags(t: PizzaTopping)
    ensures !t.IsVegetarian() <==> t in {Ham, Seafood}
    ensures t.IsVegetarian() && !t.IsVegan() <==> t == Cheese
    ensures t.Class() == (if t in {Ham, Seafood} then Meat else if t == Cheese then Vegetarian else Vegan)
  {
  }
}
