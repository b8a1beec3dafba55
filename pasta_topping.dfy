/** The pasta topping catalog (enum `PastaTopping`). */
module PastaToppings {
  import opened MealTypes

  datatype PastaTopping = Bolognese | Marinara | Primavera | Tomato
  {
    /** `getPrice()`, in cents. */
    function Price(): nat {
      match this
      case Bolognese => 520
      case Marinara => 680
      case Primavera => 520
      case Tomato => 400
    }

    /** `isVegetarian()`. */
    predicate IsVegetarian() {
      this == Primavera || this == Tomato
    }

    /** `isVegan()`. */
    predicate IsVegan() {
      this == Tomato
    }

    /** `toString()`: the constant's name. */
    function Name(): string {
      match this
      case Bolognese => "BOLOGNESE"
      case Marinara => "MARINARA"
      case Primavera => "PRIMAVERA"
      case Tomato => "TOMATO"
    }

    /** Position in declaration order (`ordinal()`). */
    function Ordinal(): nat {
      match this
      case Bolognese => 0
      case Marinara => 1
      case Primavera => 2
      case Tomato => 3
    }

    /** The dietary class this topping gives a pasta. */
    function Class(): MealType {
      Classify(IsVegetarian(), IsVegan())
    }
  }

  /** `PastaTopping.values()`, in declaration order. */
  const Values: seq<PastaTopping> := [Bolognese, Marinara, Primavera, Tomato]

  /** The catalog as declared: four constants with these prices in cents. */
  lemma Catalog()
    ensures |Values| == 4
    ensures forall i, j :: 0 <= i < j < |Values| ==> Values[i] != Values[j]
    ensures forall i :: 0 <= i < |Values| ==> Values[i].Ordinal() == i
    ensures seq(|Values|, i requires 0 <= i < |Values| => Values[i].Price()) == [520, 680, 520, 400]
  {
  }

  /** `values()` lists every constant, at its ordinal. */
  lemma ValuesEnumerate(t: PastaTopping)
    ensures t.Ordinal() < |Values| && Values[t.Ordinal()] == t
  {
  }

  /** A vegan topping is always vegetarian. */
  lemma VeganIsVegetarian(t: PastaTopping)
    ensures t.IsVegan() ==> t.IsVegetarian()
  {
  }

  /** BOLOGNESE and MARINARA are the only toppings that are not vegetarian,
      PRIMAVERA is vegetarian but not vegan, TOMATO is vegan. */
  lemma DietaryFlags(t: PastaTopping)
    ensures !t.IsVegetarian() <==> t in {Bolognese, Marinara}
    ensures t.IsVegetarian() && !t.IsVegan() <==> t == Primavera
    ensures t.IsVegan() <==> t == Tomato
  {
  }
}
