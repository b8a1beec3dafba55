/** The three dietary classes and the precedence MEAT > VEGETARIAN > VEGAN. */
module MealTypes {

  datatype MealType = Meat | Vegetarian | Vegan

  /** `MealType.toString()`: the constant's name. */
  function Name(m: MealType): string {
    match m
    case Meat => "MEAT"
    case Vegetarian => "VEGETARIAN"
    case Vegan => "VEGAN"
  }

  /** The class of one ingredient from its two flags: not vegetarian means
      MEAT, vegetarian but not vegan means VEGETARIAN, otherwise VEGAN. */
  function Classify(isVegetarian: bool, isVegan: bool): MealType {
    if !isVegetarian then Meat else if !isVegan then Vegetarian else Vegan
  }

  /** How many diets a class rules out: MEAT rules out vegetarians and
      vegans, VEGETARIAN rules out vegans, VEGAN rules out none. */
  function Rank(m: MealType): nat {
    match m
    case Meat => 2
    case Vegetarian => 1
    case Vegan => 0
  }

  /** The combination of two classes: the stricter label, the one ruling
      out more diets, wins. */
  function Strictest(a: MealType, b: MealType): (r: MealType)
    ensures r == a || r == b
    ensures Rank(r) >= Rank(a) && Rank(r) >= Rank(b)
  {
    if Rank(a) >= Rank(b) then a else b
  }

  /** Fold of `Strictest` over a sequence, starting from VEGAN. */
  function StrictestOf(ms: seq<MealType>): MealType {
    if |ms| == 0 then Vegan else Strictest(StrictestOf(ms[..|ms| - 1]), ms[|ms| - 1])
  }

  /** The precedence rule in the words of the code: MEAT if any element is
      MEAT, else VEGETARIAN if any is VEGETARIAN, else VEGAN. */
  function ByPrecedence(ms: seq<MealType>): MealType {
    if Meat in ms then Meat else if Vegetarian in ms then Vegetarian else Vegan
  }

  /** The flag-scanning rule and the fold of the precedence order agree on
      every sequence, so the order of the elements cannot matter. */
  lemma {:induction false} StrictestOfIsByPrecedence(ms: seq<MealType>)
    ensures StrictestOf(ms) == ByPrecedence(ms)
  {
    if |ms| > 0 {
      var init := ms[..|ms| - 1];
      StrictestOfIsByPrecedence(init);
      assert ms == init + [ms[|ms| - 1]];
    }
  }
}
