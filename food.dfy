/**
 * Food items: the abstract `Food` base with its two subclasses `Pizza` and
 * `Pasta`. A Dafny class cannot inherit, so one class `Food` carries the
 * shared `price` field and a `recipe` that says which subclass the object
 * is and holds that subclass's own field (a topping list for a pizza, an
 * optional single topping for a pasta).
 */
module Foods {
  import opened Wrappers
  import opened Text
  import opened MealTypes
  import PZ = PizzaToppings
  import PS = PastaToppings

  /** `Food.BASE_PRICE` (11.50) in cents; `Food.getBasePrice()` returns it. */
  const BASE_PRICE: nat := 1150

  /** What distinguishes a `Pizza` object from a `Pasta` object. A pizza's
      toppings are a list: order is kept and so are duplicates. A pasta's
      topping may be `null`, written `None`. */
  datatype Recipe =
    | PizzaRecipe(toppings: seq<PZ.PizzaTopping>)
    | PastaRecipe(topping: Option<PS.PastaTopping>)

  // ------------------------------------------------------------- pricing

  /** Sum of the topping prices, each occurrence counted. */
  function ToppingsPrice(ts: seq<PZ.PizzaTopping>): nat {
    if |ts| == 0 then 0 else ToppingsPrice(ts[..|ts| - 1]) + ts[|ts| - 1].Price()
  }

  /** What `calculatePrice()` returns for an item with this recipe. */
  function RecipePrice(r: Recipe): nat {
    match r
    case PizzaRecipe(ts) => BASE_PRICE + ToppingsPrice(ts)
    case PastaRecipe(None) => BASE_PRICE
    case PastaRecipe(Some(t)) => BASE_PRICE + t.Price()
  }

  /** The plain pizza and the plain pasta cost the base price, and no item
      costs less. */
  lemma BasePriceIsFloor(r: Recipe)
    ensures RecipePrice(r) >= BASE_PRICE
    ensures RecipePrice(PizzaRecipe([])) == BASE_PRICE == RecipePrice(PastaRecipe(None))
  {
  }

  lemma ToppingsPriceAppend(ts: seq<PZ.PizzaTopping>, t: PZ.PizzaTopping)
    ensures ToppingsPrice(ts + [t]) == ToppingsPrice(ts) + t.Price()
  {
    assert (ts + [t])[..|ts|] == ts;
  }

  /** How many times `t` occurs, times its price, summed over `catalog`. */
  function PriceByCount(ts: seq<PZ.PizzaTopping>, catalog: seq<PZ.PizzaTopping>): int {
    if |catalog| == 0 then 0
    else PriceByCount(ts, catalog[1..]) + multiset(ts)[catalog[0]] * catalog[0].Price()
  }

  lemma {:induction false} PriceByCountAppend(ts: seq<PZ.PizzaTopping>, t: PZ.PizzaTopping, catalog: seq<PZ.PizzaTopping>)
    requires forall i, j :: 0 <= i < j < |catalog| ==> catalog[i] != catalog[j]
    ensures PriceByCount(ts + [t], catalog) == PriceByCount(ts, catalog) + (if t in catalog then t.Price() else 0)
  {
    if |catalog| > 0 {
      var c := catalog[0];
      PriceByCountAppend(ts, t, catalog[1..]);
      assert t in catalog[1..] ==> t != c by {
        if t in catalog[1..] {
          var k :| 0 <= k < |catalog[1..]| && catalog[1..][k] == t;
          assert catalog[k + 1] == t;
        }
      }
      assert t in catalog <==> t == c || t in catalog[1..];
      var n := multiset(ts)[c];
      if t == c {
        assert multiset(ts + [t])[c] == n + 1;
        assert (n + 1) * c.Price() == n * c.Price() + c.Price();
      } else {
        assert multiset(ts + [t])[c] == n;
      }
    }
  }

  /** A pizza's topping charge is the bill computed per catalog line: for
      each topping, how often it was chosen times its price. Duplicates are
      charged each time they occur, and the order of the list is irrelevant. */
  lemma {:induction false} ToppingsPriceByCount(ts: seq<PZ.PizzaTopping>)
    ensures ToppingsPrice(ts) == PriceByCount(ts, PZ.Values)
  {
    PZ.Catalog();
    if |ts| == 0 {
      ZeroCount(PZ.Values);
    } else {
      var init, t := ts[..|ts| - 1], ts[|ts| - 1];
      assert ts == init + [t];
      ToppingsPriceByCount(init);
      PriceByCountAppend(init, t, PZ.Values);
      PZ.ValuesEnumerate(t);
    }
  }

  lemma {:induction false} ZeroCount(catalog: seq<PZ.PizzaTopping>)
    ensures PriceByCount([], catalog) == 0
  {
    if |catalog| > 0 {
      ZeroCount(catalog[1..]);
    }
  }

  /** Rearranging a pizza's toppings does not change its price. */
  lemma PizzaPriceIgnoresOrder(a: seq<PZ.PizzaTopping>, b: seq<PZ.PizzaTopping>)
    requires multiset(a) == multiset(b)
    ensures RecipePrice(PizzaRecipe(a)) == RecipePrice(PizzaRecipe(b))
  {
    ToppingsPriceByCount(a);
    ToppingsPriceByCount(b);
    SameCountSamePrice(a, b, PZ.Values);
  }

  lemma {:induction false} SameCountSamePrice(a: seq<PZ.PizzaTopping>, b: seq<PZ.PizzaTopping>, catalog: seq<PZ.PizzaTopping>)
    requires multiset(a) == multiset(b)
    ensures PriceByCount(a, catalog) == PriceByCount(b, catalog)
  {
    if |catalog| > 0 {
      SameCountSamePrice(a, b, catalog[1..]);
    }
  }

  // ------------------------------------------------------- classification

  /** `Pizza.getMealType()`: a topping that is not vegetarian makes MEAT
      whatever else is on the pizza; otherwise a topping that is not vegan
      makes VEGETARIAN; otherwise (and for a plain pizza) VEGAN. */
  function PizzaMealType(ts: seq<PZ.PizzaTopping>): MealType {
    if exists i :: 0 <= i < |ts| && !ts[i].IsVegetarian() then Meat
    else if exists i :: 0 <= i < |ts| && !ts[i].IsVegan() then Vegetarian
    else Vegan
  }

  /** `Pasta.getMealType()`: VEGAN without a topping, otherwise the class of
      the single topping. */
  function PastaMealType(t: Option<PS.PastaTopping>): MealType {
    match t
    case None => Vegan
    case Some(x) => if !x.IsVegetarian() then Meat else if !x.IsVegan() then Vegetarian else Vegan
  }

  function RecipeMealType(r: Recipe): MealType {
    match r
    case PizzaRecipe(ts) => PizzaMealType(ts)
    case PastaRecipe(t) => PastaMealType(t)
  }

  function ToppingClasses(ts: seq<PZ.PizzaTopping>): (ms: seq<MealType>)
    ensures |ms| == |ts|
  {
    seq(|ts|, i requires 0 <= i < |ts| => ts[i].Class())
  }

  /** The scan with its early exit computes the precedence order over the
      toppings' own classes: MEAT > VEGETARIAN > VEGAN, the plain pizza
      being VEGAN. */
  lemma PizzaMealTypeIsStrictest(ts: seq<PZ.PizzaTopping>)
    ensures PizzaMealType(ts) == StrictestOf(ToppingClasses(ts))
  {
    var ms := ToppingClasses(ts);
    StrictestOfIsByPrecedence(ms);
    if exists i :: 0 <= i < |ts| && !ts[i].IsVegetarian() {
      var i :| 0 <= i < |ts| && !ts[i].IsVegetarian();
      assert ms[i] == Meat;
    } else {
      assert Meat !in ms;
      if exists i :: 0 <= i < |ts| && !ts[i].IsVegan() {
        var i :| 0 <= i < |ts| && !ts[i].IsVegan();
        assert ms[i] == Vegetarian;
      } else {
        assert Vegetarian !in ms;
      }
    }
  }

  /** The class depends only on which toppings occur: not on their order and
      not on how many times each is repeated. */
  lemma PizzaMealTypeIgnoresOrder(a: seq<PZ.PizzaTopping>, b: seq<PZ.PizzaTopping>)
    requires forall t :: t in a <==> t in b
    ensures PizzaMealType(a) == PizzaMealType(b)
  {
    OccursRule(a);
    OccursRule(b);
  }

  /** The class stated over membership rather than positions. */
  lemma OccursRule(ts: seq<PZ.PizzaTopping>)
    ensures (exists i :: 0 <= i < |ts| && !ts[i].IsVegetarian()) <==> (exists t :: t in ts && !t.IsVegetarian())
    ensures (exists i :: 0 <= i < |ts| && !ts[i].IsVegan()) <==> (exists t :: t in ts && !t.IsVegan())
  {
    if exists t :: t in ts && !t.IsVegetarian() {
      var t :| t in ts && !t.IsVegetarian();
      var i :| 0 <= i < |ts| && ts[i] == t;
    }
    if exists t :: t in ts && !t.IsVegan() {
      var t :| t in ts && !t.IsVegan();
      var i :| 0 <= i < |ts| && ts[i] == t;
    }
  }

  /** A pasta with a topping has that topping's class. */
  lemma PastaMealTypeIsToppingClass(t: PS.PastaTopping)
    ensures PastaMealType(Some(t)) == t.Class()
  {
  }

  // ----------------------------------------------------------- rendering

  /** `topping.toString().toLowerCase()`, written out per constant;
      `LowerNames` and `PastaLowerNames` show it is exactly that. */
  function LowerName(t: PZ.PizzaTopping): string {
    match t
    case Ham => "ham"
    case Cheese => "cheese"
    case Pineapple => "pineapple"
    case Mushrooms => "mushrooms"
    case Tomato => "tomato"
    case Seafood => "seafood"
  }

  /** `topping.toString().toLowerCase()` for a pasta topping. */
  function PastaLowerName(t: PS.PastaTopping): string {
    match t
    case Bolognese => "bolognese"
    case Marinara => "marinara"
    case Primavera => "primavera"
    case Tomato => "tomato"
  }

  lemma LowerNames(t: PZ.PizzaTopping)
    ensures LowerName(t) == Lower(t.Name())
  {
    match t
    case Ham => LowerOfLetters("HAM", "ham");
    case Cheese => LowerOfLetters("CHEESE", "cheese");
    case Pineapple => LowerOfLetters("PINEAPPLE", "pineapple");
    case Mushrooms => LowerOfLetters("MUSHROOMS", "mushrooms");
    case Tomato => LowerOfLetters("TOMATO", "tomato");
    case Seafood => LowerOfLetters("SEAFOOD", "seafood");
  }

  lemma PastaLowerNames(u: PS.PastaTopping)
    ensures PastaLowerName(u) == Lower(u.Name())
  {
    match u
    case Bolognese => LowerOfLetters("BOLOGNESE", "bolognese");
    case Marinara => LowerOfLetters("MARINARA", "marinara");
    case Primavera => LowerOfLetters("PRIMAVERA", "primavera");
    case Tomato => LowerOfLetters("TOMATO", "tomato");
  }

  /** Lower-casing maps each letter to its lower-case form. */
  lemma LowerOfLetters(upper: string, lower: string)
    requires |upper| == |lower|
    requires forall i :: 0 <= i < |upper| ==> LowerChar(upper[i]) == lower[i]
    ensures Lower(upper) == lower
  {
  }

  /** The lower-case topping names separated by ", ", with " and " (and no
      comma) before the last: "ham", "ham and cheese", "ham, pineapple and cheese". */
  function ToppingList(ts: seq<PZ.PizzaTopping>): string
    requires |ts| >= 1
  {
    if |ts| == 1 then LowerName(ts[0])
    else if |ts| == 2 then LowerName(ts[0]) + " and " + LowerName(ts[1])
    else LowerName(ts[0]) + ", " + ToppingList(ts[1..])
  }

  /** What `toString()` returns for an item with this recipe and stored
      price, in the pieces the StringBuilder appends. */
  function Describe(r: Recipe, price: int): string {
    match r
    case PizzaRecipe(ts) =>
      if |ts| == 0 then "Pizza" + " (Plain)" + " - $" + FormatCents(price)
      else "Pizza" + " with " + ToppingList(ts) + " - $" + FormatCents(price)
    case PastaRecipe(None) => "Pasta" + " (Plain)" + " - $" + FormatCents(price)
    case PastaRecipe(Some(t)) => "Pasta" + " " + PastaLowerName(t) + " - $" + FormatCents(price)
  }

  /** The separator the rendering loop writes after the topping at `i`. */
  function Separator(i: nat, n: nat): string {
    if i + 2 < n then ", " else if i + 2 == n then " and " else ""
  }

  /** The text the rendering loop has written after `k` toppings. */
  ghost function Written(ts: seq<PZ.PizzaTopping>, k: nat): string
    requires k <= |ts|
  {
    if k == 0 then "" else Written(ts, k - 1) + LowerName(ts[k - 1]) + Separator(k - 1, |ts|)
  }

  lemma {:induction false} WrittenTail(ts: seq<PZ.PizzaTopping>, k: nat)
    requires 1 <= k <= |ts|
    ensures Written(ts, k) == LowerName(ts[0]) + Separator(0, |ts|) + Written(ts[1..], k - 1)
  {
    if k > 1 {
      WrittenTail(ts, k - 1);
      var rest := ts[1..];
      assert rest[k - 2] == ts[k - 1] && |rest| == |ts| - 1;
      assert Separator(k - 2, |rest|) == Separator(k - 1, |ts|);
      assert Written(rest, k - 1) == Written(rest, k - 2) + LowerName(rest[k - 2]) + Separator(k - 2, |rest|);
    }
  }

  lemma {:induction false} WrittenAll(ts: seq<PZ.PizzaTopping>)
    requires |ts| >= 1
    ensures Written(ts, |ts|) == ToppingList(ts)
    decreases |ts|
  {
    WrittenTail(ts, |ts|);
    if |ts| == 2 {
      assert ts[1..][0] == ts[1];
    } else if |ts| > 2 {
      WrittenAll(ts[1..]);
    }
  }

  /** The loop of `Pizza.toString()` that writes the topping names. */
  method JoinToppingNames(ts: seq<PZ.PizzaTopping>) returns (s: string)
    requires |ts| >= 1
    ensures s == ToppingList(ts)
  {
    s := "";
    for i := 0 to |ts|
      invariant s == Written(ts, i)
    {
      var name := LowerName(ts[i]);
      assert Written(ts, i + 1) == Written(ts, i) + name + Separator(i, |ts|);
      s := s + name;
      if i < |ts| - 2 {
        s := s + ", ";
      } else if i == |ts| - 2 {
        s := s + " and ";
      }
    }
    WrittenAll(ts);
  }

  // ---------------------------------------------------------------- class

  class Food {
    /** Which subclass this object is, with that subclass's field. */
    var recipe: Recipe
    /** `Food.price`, in cents: stored, not recomputed on reading. */
    var price: int

    /** The stored price is what `calculatePrice()` would return. Every
        constructor and topping mutator establishes it; `setPrice` may break it. */
    ghost predicate PriceCurrent()
      reads this
    {
      price == RecipePrice(recipe)
    }

    /** `new Pizza()`: no toppings. */
    constructor PlainPizza()
      ensures recipe == PizzaRecipe([]) && PriceCurrent() && price == BASE_PRICE
    {
      recipe := PizzaRecipe([]);
      price := 0;
      new;
      price := CalculatePrice();
    }

    /** `new Pizza(toppings)`: a copy of the caller's list. */
    constructor Pizza(toppings: seq<PZ.PizzaTopping>)
      ensures recipe == PizzaRecipe(toppings) && PriceCurrent()
    {
      recipe := PizzaRecipe(toppings);
      price := 0;
      new;
      price := CalculatePrice();
    }

    /** `new Pasta()`: no topping. */
    constructor PlainPasta()
      ensures recipe == PastaRecipe(None) && PriceCurrent() && price == BASE_PRICE
    {
      recipe := PastaRecipe(None);
      price := 0;
      new;
      price := CalculatePrice();
    }

    /** `new Pasta(topping)`, where the topping may be `null`. */
    constructor Pasta(topping: Option<PS.PastaTopping>)
      ensures recipe == PastaRecipe(topping) && PriceCurrent()
    {
      recipe := PastaRecipe(topping);
      price := 0;
      new;
      price := CalculatePrice();
    }

    /** `calculatePrice()`: the base price plus the toppings' prices. */
    method CalculatePrice() returns (total: int)
      ensures total == RecipePrice(recipe)
    {
      match recipe
      case PizzaRecipe(ts) =>
        total := BASE_PRICE;
        for i := 0 to |ts|
          invariant total == BASE_PRICE + ToppingsPrice(ts[..i])
        {
          assert ts[..i + 1][..i] == ts[..i];
          total := total + ts[i].Price();
        }
        assert ts[..|ts|] == ts;
      case PastaRecipe(t) =>
        total := BASE_PRICE;
        if t.Some? {
          total := total + t.value.Price();
        }
    }

    /** `getMealType()`: for a pizza, a scan over the toppings that stops at
        the first one that is not vegetarian. */
    method GetMealType() returns (m: MealType)
      ensures m == RecipeMealType(recipe)
    {
      match recipe
      case PizzaRecipe(ts) =>
        if |ts| == 0 {
          return Vegan;
        }
        var hasNonVegetarian, hasNonVegan := false, false;
        var i := 0;
        while i < |ts|
          invariant 0 <= i <= |ts|
          invariant !hasNonVegetarian
          invariant forall j :: 0 <= j < i ==> ts[j].IsVegetarian()
          invariant hasNonVegan <==> exists j :: 0 <= j < i && !ts[j].IsVegan()
        {
          if !ts[i].IsVegetarian() {
            hasNonVegetarian := true;
            break;
          }
          if !ts[i].IsVegan() {
            hasNonVegan := true;
          }
          i := i + 1;
        }
        if hasNonVegetarian {
          m := Meat;
        } else if hasNonVegan {
          m := Vegetarian;
        } else {
          m := Vegan;
        }
      case PastaRecipe(t) =>
        if t.None? {
          return Vegan;
        }
        if !t.value.IsVegetarian() {
          m := Meat;
        } else if !t.value.IsVegan() {
          m := Vegetarian;
        } else {
          m := Vegan;
        }
    }

    /** `Pizza.addTopping`: appends at the end and recomputes the price,
        which therefore rises by exactly that topping's price. */
    method AddTopping(t: PZ.PizzaTopping)
      requires recipe.PizzaRecipe?
      modifies this
      ensures recipe == PizzaRecipe(old(recipe.toppings) + [t])
      ensures PriceCurrent()
      ensures price == old(RecipePrice(recipe)) + t.Price()
    {
      ToppingsPriceAppend(recipe.toppings, t);
      recipe := PizzaRecipe(recipe.toppings + [t]);
      price := CalculatePrice();
    }

    /** `Pizza.setToppings`: replaces the list by a copy and recomputes the price. */
    method SetToppings(toppings: seq<PZ.PizzaTopping>)
      requires recipe.PizzaRecipe?
      modifies this
      ensures recipe == PizzaRecipe(toppings) && PriceCurrent()
    {
      recipe := PizzaRecipe(toppings);
      price := CalculatePrice();
    }

    /** `Pasta.setTopping`: replaces the topping (`None` makes the pasta
        plain again) and recomputes the price. */
    method SetTopping(topping: Option<PS.PastaTopping>)
      requires recipe.PastaRecipe?
      modifies this
      ensures recipe == PastaRecipe(topping) && PriceCurrent()
    {
      recipe := PastaRecipe(topping);
      price := CalculatePrice();
    }

    /** `Food.setPrice`: overwrites the stored price and nothing else, so the
        stored price stays current only if it is set to the computed one. */
    method SetPrice(newPrice: int)
      modifies this`price
      ensures price == newPrice
      ensures PriceCurrent() <==> newPrice == RecipePrice(recipe)
    {
      price := newPrice;
    }

    /** `toString()`, built piece by piece as the StringBuilder does. */
    method ToString() returns (s: string)
      ensures s == Describe(recipe, price)
    {
      if recipe.PizzaRecipe? {
        s := PizzaText(recipe.toppings, price);
      } else {
        s := PastaText(recipe.topping, price);
      }
    }
  }

  /** `Pizza.toString()`. */
  method PizzaText(ts: seq<PZ.PizzaTopping>, price: int) returns (s: string)
    ensures s == Describe(PizzaRecipe(ts), price)
  {
    s := "Pizza";
    if |ts| == 0 {
      s := s + " (Plain)";
    } else {
      var list := JoinToppingNames(ts);
      s := s + " with " + list;
    }
    s := s + " - $" + FormatCents(price);
  }

  /** The pieces of the pasta description run together. */
  lemma PastaWords(x: string, f: string)
    ensures "Pasta" + " (Plain)" + " - $" + f == "Pasta (Plain) - $" + f
    ensures "Pasta" + " " + x + " - $" + f == "Pasta " + x + " - $" + f
  {
    assert "Pasta" + " (Plain)" == "Pasta (Plain)";
    assert "Pasta (Plain)" + " - $" == "Pasta (Plain) - $";
    assert "Pasta" + " " == "Pasta ";
  }

  /** The pasta description in full: "Pasta (Plain)" or "Pasta " and the
      lower-cased topping name, then the price. */
  lemma PastaDescription(t: Option<PS.PastaTopping>, price: int)
    ensures t.None? ==> Describe(PastaRecipe(t), price) == "Pasta (Plain) - $" + FormatCents(price)
    ensures t.Some? ==> Describe(PastaRecipe(t), price) == "Pasta " + Lower(t.value.Name()) + " - $" + FormatCents(price)
  {
    var f := FormatCents(price);
    if t.Some? {
      var x := PastaLowerName(t.value);
      PastaLowerNames(t.value);
      PastaWords(x, f);
    } else {
      PastaWords("", f);
    }
  }

  /** `Pasta.toString()`. */
  method PastaText(t: Option<PS.PastaTopping>, price: int) returns (s: string)
    ensures t.None? ==> s == "Pasta (Plain) - $" + FormatCents(price)
    ensures t.Some? ==> s == "Pasta " + Lower(t.value.Name()) + " - $" + FormatCents(price)
    ensures s == Describe(PastaRecipe(t), price)
  {
    s := "Pasta";
    if t.None? {
      s := s + " (Plain)";
    } else {
      s := s + " " + PastaLowerName(t.value);
    }
    s := s + " - $" + FormatCents(price);
    PastaDescription(t, price);
  }
}
