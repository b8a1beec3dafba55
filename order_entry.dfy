/**
 * The decisions `OrderManager` takes while an order is being entered at the
 * console, with the reading of lines taken out: the menu-name formatter, the
 * custom-pizza choice parser, the custom-pasta choice and the popular-item
 * lists. Both copies of `OrderManager` parse pizza choices and map pasta
 * choices the same way.
 */
module OrderEntry {
  import opened Wrappers
  import opened Text
  import opened Foods
  import opened FoodFactory
  import opened Orders
  import PZ = PizzaToppings
  import PS = PastaToppings

  // ------------------------------------------------------ menu-name format

  /** `substring(0, 1)` of an empty word. */
  datatype FormatError = StringIndexOutOfBounds

  /** First character upper-cased, the rest lower-cased. */
  function TitleWord(w: string): string
    requires |w| >= 1
  {
    [UpperChar(w[0])] + Lower(w[1..])
  }

  function TitleWords(words: seq<string>): (ts: seq<string>)
    requires forall k :: 0 <= k < |words| ==> |words[k]| >= 1
    ensures |ts| == |words|
  {
    seq(|words|, i requires 0 <= i < |words| => TitleWord(words[i]))
  }

  /** Title-cased words joined by single spaces; an empty word makes
      `substring(0, 1)` throw. */
  function TitleJoin(words: seq<string>): Result<string, FormatError> {
    if exists k :: 0 <= k < |words| && |words[k]| == 0 then Err(StringIndexOutOfBounds)
    else Ok(Join(TitleWords(words), " "))
  }

  /** `formatMenuItemName`: the `_`-separated words of the name, title-cased
      and joined by single spaces. */
  function DisplayName(name: string): Result<string, FormatError> {
    TitleJoin(JavaSplit(name, '_'))
  }

  /** `formatMenuItemName`, with its loop over the words. */
  method FormatMenuItemName(name: string) returns (r: Result<string, FormatError>)
    ensures r == DisplayName(name)
  {
    var words := JavaSplit(name, '_');
    r := AppendTitleWords(words);
  }

  /** The formatter's loop: a space before every word but the first, then
      the word title-cased. */
  method AppendTitleWords(words: seq<string>) returns (r: Result<string, FormatError>)
    ensures r == TitleJoin(words)
  {
    var formatted := "";
    ghost var titled: seq<string> := [];
    for i := 0 to |words|
      invariant |titled| == i
      invariant forall k :: 0 <= k < i ==> |words[k]| >= 1 && titled[k] == TitleWord(words[k])
      invariant formatted == Join(titled, " ")
    {
      if |words[i]| == 0 {
        return Err(StringIndexOutOfBounds);
      }
      var word := TitleWord(words[i]);
      JoinSnoc(titled, word, " ");
      if i > 0 {
        formatted := formatted + " ";
      }
      formatted := formatted + word;
      titled := titled + [word];
    }
    assert titled == TitleWords(words);
    r := Ok(formatted);
  }

  lemma LowerTitleWord(w: string)
    requires |w| >= 1
    ensures Lower(TitleWord(w)) == Lower(w)
  {
    var t := TitleWord(w);
    assert |t| == |w|;
    forall i | 0 <= i < |w|
      ensures LowerChar(t[i]) == LowerChar(w[i])
    {
      if i == 0 {
        LowerOfUpper(w[0]);
      } else {
        assert t[i] == Lower(w[1..])[i - 1] == LowerChar(w[i]);
        LowerCharIdempotent(w[i]);
      }
    }
  }

  lemma LowerOfUpper(c: char)
    ensures LowerChar(UpperChar(c)) == LowerChar(c)
  {
  }

  lemma LowerCharIdempotent(c: char)
    ensures LowerChar(LowerChar(c)) == LowerChar(c)
  {
  }

  lemma NoSpaceAfterLower(w: string)
    requires ' ' !in w
    ensures ' ' !in Lower(w)
  {
    forall i | 0 <= i < |w|
      ensures Lower(w)[i] != ' '
    {
      assert w[i] in w;
    }
  }

  /** One word of the round trip: the title-cased word and its space come
      back as the lower-cased word and an underscore. */
  lemma TitleStep(w: string, rest: string)
    requires |w| >= 1 && ' ' !in w
    ensures Underscored(Lower(TitleWord(w) + " " + rest)) == Lower(w) + "_" + Underscored(Lower(rest))
  {
    LowerTitleWord(w);
    NoSpaceAfterLower(w);
    UnderscoredWithoutSpace(Lower(w));
    LowerAppend(TitleWord(w) + " ", rest);
    LowerAppend(TitleWord(w), " ");
    UnderscoredAppend(Lower(w) + " ", Lower(rest));
    UnderscoredAppend(Lower(w), " ");
  }

  lemma LowerJoinStep(w: string, rest: string)
    ensures Lower(w + "_" + rest) == Lower(w) + "_" + Lower(rest)
  {
    LowerAppend(w + "_", rest);
    LowerAppend(w, "_");
  }

  /** Lower-casing the title-cased words and turning spaces back into
      underscores gives the lower-cased `_`-joined words. */
  lemma {:induction false} TitleWordsBack(words: seq<string>)
    requires forall k :: 0 <= k < |words| ==> |words[k]| >= 1 && ' ' !in words[k]
    ensures Underscored(Lower(Join(TitleWords(words), " "))) == Lower(Join(words, "_"))
    decreases |words|
  {
    if |words| == 1 {
      LowerTitleWord(words[0]);
      NoSpaceAfterLower(words[0]);
      UnderscoredWithoutSpace(Lower(words[0]));
    } else if |words| > 1 {
      TitleWordsBack(words[1..]);
      assert TitleWords(words)[1..] == TitleWords(words[1..]);
      TitleStep(words[0], Join(TitleWords(words[1..]), " "));
      LowerJoinStep(words[0], Join(words[1..], "_"));
    }
  }

  /** A name made of non-empty `_`-separated words without spaces formats
      without error, and the display name leads back to the name: lower-cased,
      with its spaces turned into underscores, it is the lower-cased name. */
  lemma DisplayNameRoundTrip(name: string)
    requires ' ' !in name && "" !in SplitAll(name, '_')
    ensures DisplayName(name).Ok?
    ensures Underscored(Lower(DisplayName(name).value)) == Lower(name)
  {
    var pieces := SplitAll(name, '_');
    if '_' !in name {
      SplitAllWithoutSep(name, '_');
    }
    assert JavaSplit(name, '_') == pieces;
    forall k | 0 <= k < |pieces|
      ensures |pieces[k]| >= 1 && ' ' !in pieces[k]
    {
      assert pieces[k] != "";
      if ' ' in pieces[k] {
        SplitAllChars(name, '_', k, ' ');
      }
    }
    TitleWordsBack(pieces);
    JoinSplitAll(name, '_');
  }

  /** Two words joined by one underscore format as the two title-cased
      words joined by one space. */
  lemma TwoWordDisplayName(a: string, b: string)
    requires |a| >= 1 && |b| >= 1 && '_' !in a && '_' !in b
    ensures DisplayName(a + "_" + b) == Ok(TitleWord(a) + " " + TitleWord(b))
  {
    SplitAllWithoutSep(b, '_');
    assert a + "_" + b == a + ("_" + b);
    SplitAllPrefix(a, "_" + b, '_');
    assert ("_" + b)[0] == '_' && ("_" + b)[1..] == b;
    assert SplitAll("_" + b, '_') == ["", b];
    assert a + "" == a;
    assert SplitAll(a + "_" + b, '_') == [a, b];
    assert '_' in a + "_" + b by {
      assert (a + "_" + b)[|a|] == '_';
    }
    var words := [a, b];
    assert JavaSplit(a + "_" + b, '_') == words;
    var titled := [TitleWord(a), TitleWord(b)];
    assert TitleWords(words) == titled;
    assert titled[1..] == [TitleWord(b)];
    assert Join(titled, " ") == TitleWord(a) + " " + TitleWord(b);
    assert !exists k :: 0 <= k < |words| && |words[k]| == 0;
  }

  /** Splitting a word without the separator in front of the rest glues the
      word onto the rest's first piece. */
  lemma {:induction false} SplitAllPrefix(w: string, s: string, sep: char)
    requires sep !in w
    ensures SplitAll(w + s, sep) == [w + SplitAll(s, sep)[0]] + SplitAll(s, sep)[1..]
    decreases |w|
  {
    var tail := SplitAll(s, sep);
    if w != [] {
      assert w[0] in w;
      assert (w + s)[0] == w[0] && (w + s)[1..] == w[1..] + s;
      assert w == [w[0]] + w[1..];
      SplitAllPrefix(w[1..], s, sep);
      var rest := SplitAll(w[1..] + s, sep);
      assert rest[0] == w[1..] + tail[0] && rest[1..] == tail[1..];
      assert [w[0]] + (w[1..] + tail[0]) == w + tail[0];
    } else {
      assert w + s == s && w + tail[0] == tail[0];
      assert tail == [tail[0]] + tail[1..];
    }
  }

  // ------------------------------------------------------ custom pizza

  /** One choice token: `Integer.parseInt(token) - 1` when that is a valid
      index into the six toppings, `None` when the code throws
      `NumberFormatException` (not a number, or out of range). The 32-bit
      wrap-around of `- 1` at the smallest integer lands out of range too. */
  function ToppingIndex(token: string): (r: Option<nat>)
    ensures r.Some? ==> r.value < |PZ.Values| && ParseInt(token) == Some(r.value + 1)
    ensures r.None? ==> ParseInt(token).None? || !(1 <= ParseInt(token).value <= |PZ.Values|)
  {
    match ParseInt(token)
    case None => None
    case Some(v) => if 1 <= v <= |PZ.Values| then Some(v - 1) else None
  }

  /** Each token's index, or `None` where it is refused. */
  function TokenIndices(tokens: seq<string>): (ids: seq<Option<nat>>)
    ensures |ids| == |tokens|
  {
    seq(|tokens|, i requires 0 <= i < |tokens| => ToppingIndex(tokens[i]))
  }

  /** The set of indices collected left to right, or `None` as soon as one
      is refused. */
  function Collect(ids: seq<Option<nat>>): Option<set<nat>> {
    if |ids| == 0 then Some({})
    else
      var n := |ids| - 1;
      match Collect(ids[..n])
      case None => None
      case Some(chosen) =>
        match ids[n]
        case None => None
        case Some(k) => Some(chosen + {k})
  }

  /** The set `uniqueChoices` the token loop builds, or `None` when some
      token throws. */
  function Choices(tokens: seq<string>): Option<set<nat>> {
    Collect(TokenIndices(tokens))
  }

  /** The toppings at the chosen indices, by ascending index. */
  function InIndexOrder(chosen: set<nat>, n: nat): (ts: seq<PZ.PizzaTopping>)
    requires n <= |PZ.Values|
  {
    if n == 0 then []
    else InIndexOrder(chosen, n - 1) + (if n - 1 in chosen then [PZ.Values[n - 1]] else [])
  }

  /** The indices the tokens of a trimmed line name. */
  function LineIndices(line: string): seq<Option<nat>> {
    TokenIndices(Tokens(Trim(line)))
  }

  /** What the custom-pizza step puts on the pizza for one input line:
      nothing for "0", nothing when any token is refused ("Invalid input.
      Creating plain pizza."), otherwise each chosen topping once. The
      `HashSet<Integer>` of indices below six is iterated in ascending order,
      which is the order used here. */
  function CustomToppings(line: string): seq<PZ.PizzaTopping> {
    if Trim(line) == "0" then []
    else
      match Collect(LineIndices(line))
      case None => []
      case Some(chosen) => InIndexOrder(chosen, |PZ.Values|)
  }

  /** `addCustomPizzaToOrder`'s parsing of the line read. */
  method ParseCustomPizza(line: string) returns (selected: seq<PZ.PizzaTopping>)
    ensures selected == CustomToppings(line)
  {
    var input := Trim(line);
    selected := [];
    if input == "0" {
      return;
    }
    var unique := CollectChoices(Tokens(input));
    if unique.Some? {
      selected := InIndexOrderLoop(unique.value);
    }
  }

  /** The token loop: each token's index is added to the set, and the first
      refused token abandons the parse. */
  method CollectChoices(choices: seq<string>) returns (r: Option<set<nat>>)
    ensures r == Choices(choices)
  {
    ghost var ids := TokenIndices(choices);
    var unique: set<nat> := {};
    for i := 0 to |choices|
      invariant Collect(ids[..i]) == Some(unique)
    {
      assert ids[..i + 1][..i] == ids[..i];
      var index := ToppingIndex(choices[i]);
      if index.None? {
        CollectRefused(ids, i + 1);
        return None;
      }
      unique := unique + {index.value};
    }
    assert ids[..|choices|] == ids;
    r := Some(unique);
  }

  /** The loop over the index set, in ascending order. */
  method InIndexOrderLoop(unique: set<nat>) returns (selected: seq<PZ.PizzaTopping>)
    ensures selected == InIndexOrder(unique, |PZ.Values|)
  {
    selected := [];
    for index := 0 to |PZ.Values|
      invariant selected == InIndexOrder(unique, index)
    {
      if index in unique {
        selected := selected + [PZ.Values[index]];
      }
    }
  }

  /** Once a prefix is refused, so is the whole list. */
  lemma {:induction false} CollectRefused(ids: seq<Option<nat>>, m: nat)
    requires m <= |ids| && Collect(ids[..m]).None?
    ensures Collect(ids).None?
    decreases |ids| - m
  {
    if m < |ids| {
      assert ids[..m + 1][..m] == ids[..m];
      CollectRefused(ids, m + 1);
    } else {
      assert ids[..m] == ids;
    }
  }

  /** All or nothing: the indices are collected exactly when none is
      refused. */
  lemma {:induction false} CollectAccepted(ids: seq<Option<nat>>)
    ensures Collect(ids).Some? <==> forall i :: 0 <= i < |ids| ==> ids[i].Some?
  {
    if |ids| > 0 {
      var n := |ids| - 1;
      CollectAccepted(ids[..n]);
      assert forall i :: 0 <= i < n ==> ids[..n][i] == ids[i];
    }
  }

  /** When collected, an index is in the set exactly when some entry names
      it. */
  lemma {:induction false} CollectChosen(ids: seq<Option<nat>>, k: nat)
    requires Collect(ids).Some?
    ensures k in Collect(ids).value <==> Some(k) in ids
  {
    if |ids| > 0 {
      var n := |ids| - 1;
      CollectChosen(ids[..n], k);
      assert ids == ids[..n] + [ids[n]];
    }
  }

  /** The toppings taken in index order appear by strictly ascending
      ordinal, so none appears twice, and a topping appears exactly when its
      index was chosen. */
  lemma {:induction false} InIndexOrderProperties(chosen: set<nat>, n: nat)
    requires n <= |PZ.Values|
    ensures forall i, j :: 0 <= i < j < |InIndexOrder(chosen, n)| ==>
      InIndexOrder(chosen, n)[i].Ordinal() < InIndexOrder(chosen, n)[j].Ordinal()
    ensures forall i :: 0 <= i < |InIndexOrder(chosen, n)| ==> InIndexOrder(chosen, n)[i].Ordinal() < n
    ensures forall t :: t in InIndexOrder(chosen, n) <==> t.Ordinal() < n && t.Ordinal() in chosen
  {
    PZ.Catalog();
    if n > 0 {
      InIndexOrderProperties(chosen, n - 1);
      forall t: PZ.PizzaTopping {
        PZ.ValuesEnumerate(t);
      }
    }
  }

  /** A line other than "0" whose tokens are all valid yields each named
      topping exactly once, by ascending catalog position. */
  lemma CustomToppingsChosen(line: string, t: PZ.PizzaTopping)
    requires Trim(line) != "0"
    requires forall i :: 0 <= i < |LineIndices(line)| ==> LineIndices(line)[i].Some?
    ensures t in CustomToppings(line) <==> Some(t.Ordinal()) in LineIndices(line)
    ensures forall i, j :: 0 <= i < j < |CustomToppings(line)| ==>
      CustomToppings(line)[i].Ordinal() < CustomToppings(line)[j].Ordinal()
  {
    var ids := LineIndices(line);
    CollectAccepted(ids);
    CollectChosen(ids, t.Ordinal());
    InIndexOrderProperties(Collect(ids).value, |PZ.Values|);
    PZ.ValuesEnumerate(t);
  }

  /** One refused token makes the whole pizza plain. */
  lemma CustomToppingsRefused(line: string, i: nat)
    requires i < |LineIndices(line)| && LineIndices(line)[i].None?
    ensures CustomToppings(line) == []
  {
    CollectAccepted(LineIndices(line));
  }

  /** Repeated choices collapse: the indices of "1 3 1" give ham and
      pineapple once each. */
  lemma RepeatedChoicesCollapse()
    ensures Collect([Some(0), Some(2), Some(0)]) == Some({0, 2})
    ensures InIndexOrder({0, 2}, |PZ.Values|) == [PZ.Ham, PZ.Pineapple]
  {
    var chosen: set<nat> := {0, 2};
    var none: set<nat> := {};
    assert [Some(0)][..0] == [];
    assert Collect([Some(0)]) == Some(none + {0});
    assert none + {0} == {0};
    assert [Some(0), Some(2)][..1] == [Some(0)];
    assert Collect([Some(0), Some(2)]) == Some({0} + {2});
    assert {0} + {2} == chosen;
    assert Collect([Some(0), Some(2)]) == Some(chosen);
    assert [Some(0), Some(2), Some(0)][..2] == [Some(0), Some(2)];
    assert chosen + {0} == chosen;
    assert InIndexOrder(chosen, 1) == [PZ.Ham];
    assert InIndexOrder(chosen, 2) == [PZ.Ham];
    assert InIndexOrder(chosen, 3) == [PZ.Ham, PZ.Pineapple];
    assert InIndexOrder(chosen, 4) == [PZ.Ham, PZ.Pineapple];
    assert InIndexOrder(chosen, 5) == [PZ.Ham, PZ.Pineapple];
  }

  // ------------------------------------------------------ custom pasta

  /** The custom-pasta menu: choice 1 is plain pasta, choice k from 2 is the
      (k - 2)-th pasta topping in declaration order. The validated read
      guarantees the range. */
  function PastaChoice(choice: int): (t: Option<PS.PastaTopping>)
    requires 1 <= choice <= |PS.Values| + 1
  {
    if choice == 1 then None else Some(PS.Values[choice - 2])
  }

  /** Every topping is on the menu under its ordinal plus two, and no two
      choices give the same pasta. */
  lemma PastaChoiceCovers(t: PS.PastaTopping)
    ensures 2 <= t.Ordinal() + 2 <= |PS.Values| + 1
    ensures PastaChoice(t.Ordinal() + 2) == Some(t)
  {
    PS.ValuesEnumerate(t);
  }

  lemma PastaChoiceInjective(a: int, b: int)
    requires 1 <= a <= |PS.Values| + 1 && 1 <= b <= |PS.Values| + 1
    requires PastaChoice(a) == PastaChoice(b)
    ensures a == b
  {
    PS.Catalog();
  }

  /** The price the menu line shows (`getBasePrice() + getPrice()`, or the
      base price for plain pasta) is the price of the pasta added. */
  lemma PastaChoicePrice(choice: int)
    requires 1 <= choice <= |PS.Values| + 1
    ensures choice == 1 ==> RecipePrice(PastaRecipe(PastaChoice(choice))) == BASE_PRICE
    ensures choice > 1 ==> RecipePrice(PastaRecipe(PastaChoice(choice))) == BASE_PRICE + PS.Values[choice - 2].Price()
  {
  }

  // ------------------------------------------------------ popular items

  /** The names that contain the keyword (`item.contains(...)`), in menu
      order. */
  function ItemsContaining(names: seq<string>, keyword: string): seq<string> {
    if |names| == 0 then []
    else
      var n := |names| - 1;
      ItemsContaining(names[..n], keyword) + (if Contains(names[n], keyword) then [names[n]] else [])
  }

  lemma {:induction false} ItemsContainingMembers(names: seq<string>, keyword: string, x: string)
    ensures x in ItemsContaining(names, keyword) <==> x in names && Contains(x, keyword)
  {
    if |names| > 0 {
      var n := |names| - 1;
      ItemsContainingMembers(names[..n], keyword, x);
      assert names == names[..n] + [names[n]];
    }
  }

  /** The list a popular-dishes step shows, built from a copy of the menu. */
  method PopularItems(keyword: string) returns (items: seq<string>)
    ensures items == ItemsContaining(MenuItems, keyword)
  {
    var all := GetAvailableMenuItems();
    items := [];
    for i := 0 to all.Length
      invariant items == ItemsContaining(all[..i], keyword)
    {
      assert all[..i + 1][..i] == all[..i];
      if Contains(all[i], keyword) {
        items := items + [all[i]];
      }
    }
    assert all[..all.Length] == all[..];
  }

  /** Every popular item is accepted by `createMenuItemByName`, so the
      "Error creating" branch after the choice cannot be taken. */
  lemma PopularItemsAccepted(keyword: string, k: nat)
    requires k < |ItemsContaining(MenuItems, keyword)|
    ensures MenuItemRecipe(Some(ItemsContaining(MenuItems, keyword)[k])).Ok?
  {
    var x := ItemsContaining(MenuItems, keyword)[k];
    ItemsContainingMembers(MenuItems, keyword, x);
    LowerFixes(x);
  }

  // ------------------------------------------------------ adding to an order

  /** `addCustomPizzaToOrder` once the line is read: a new pizza with the
      parsed toppings goes to the end of the order. */
  method AddCustomPizzaToOrder(order: Order, line: string) returns (pizza: Food)
    modifies order
    ensures fresh(pizza) && pizza.recipe == PizzaRecipe(CustomToppings(line)) && pizza.PriceCurrent()
    ensures order.foodItems == old(order.foodItems) + [pizza] && order.Derived()
    ensures order.customerName == old(order.customerName) && order.contactNumber == old(order.contactNumber)
    ensures order.deliveryAddress == old(order.deliveryAddress)
  {
    var toppings := ParseCustomPizza(line);
    pizza := new Food.Pizza(toppings);
    order.AddFoodItem(pizza);
  }

  /** `addCustomPastaToOrder` once the choice is read. */
  method AddCustomPastaToOrder(order: Order, choice: int) returns (pasta: Food)
    requires 1 <= choice <= |PS.Values| + 1
    modifies order
    ensures fresh(pasta) && pasta.recipe == PastaRecipe(PastaChoice(choice)) && pasta.PriceCurrent()
    ensures order.foodItems == old(order.foodItems) + [pasta] && order.Derived()
    ensures order.customerName == old(order.customerName) && order.contactNumber == old(order.contactNumber)
    ensures order.deliveryAddress == old(order.deliveryAddress)
  {
    if choice == 1 {
      pasta := new Food.PlainPasta();
    } else {
      pasta := new Food.Pasta(Some(PS.Values[choice - 2]));
    }
    order.AddFoodItem(pasta);
  }

  /** The menu name behind a popular-dish choice. */
  method PopularChoice(keyword: string, choice: int) returns (name: string)
    requires 1 <= choice <= |ItemsContaining(MenuItems, keyword)|
    ensures name == ItemsContaining(MenuItems, keyword)[choice - 1]
  {
    var items := PopularItems(keyword);
    name := items[choice - 1];
  }

  /** A listed menu item built by the factory; building it cannot fail. */
  method CreateListedItem(name: string) returns (item: Food)
    requires name in MenuItems
    ensures MenuItemRecipe(Some(name)) == Ok(item.recipe)
    ensures fresh(item) && item.PriceCurrent()
  {
    LowerFixes(name);
    var r := CreateMenuItemByName(Some(name));
    item := r.value;
  }

  /** `addPopularPizzaToOrder` / `addPopularPastaToOrder` once the choice is
      read: the chosen menu item is always built and added. */
  method AddPopularItemToOrder(order: Order, keyword: string, choice: int) returns (item: Food)
    requires 1 <= choice <= |ItemsContaining(MenuItems, keyword)|
    modifies order
    ensures MenuItemRecipe(Some(ItemsContaining(MenuItems, keyword)[choice - 1])) == Ok(item.recipe)
    ensures fresh(item) && item.PriceCurrent()
    ensures order.foodItems == old(order.foodItems) + [item] && order.Derived()
    ensures order.customerName == old(order.customerName) && order.contactNumber == old(order.contactNumber)
    ensures order.deliveryAddress == old(order.deliveryAddress)
  {
    var name := PopularChoice(keyword, choice);
    ItemsContainingMembers(MenuItems, keyword, name);
    item := CreateListedItem(name);
    order.AddFoodItem(item);
  }
}
