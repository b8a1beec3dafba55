/**
 * The numbered topping menu shown before the custom-pizza choices are read,
 * against what typing one of its numbers alone puts on the pizza. The
 * packaged `addCustomPizzaToOrder` shows "0" for the plain pizza and every
 * topping at its ordinal plus one, which is what the parser selects; the
 * legacy `addPizzaToOrder` shows "1" for the plain pizza and starts its
 * topping lines at CHEESE, so HAM is never shown and "1" selects it.
 */
module ToppingMenus {
  import opened Wrappers
  import opened Text
  import opened OrderEntry
  import PZ = PizzaToppings

  /** One line of the menu: the number shown and what it announces. */
  datatype MenuLine = MenuLine(number: nat, offers: Option<PZ.PizzaTopping>)

  /** The packaged menu: "0" plain, then topping i under the number i + 1. */
  function PizzaMenu(): (m: seq<MenuLine>)
    ensures |m| == |PZ.Values| + 1
  {
    [MenuLine(0, None)]
    + seq(|PZ.Values|, i requires 0 <= i < |PZ.Values| => MenuLine(i + 1, Some(PZ.Values[i])))
  }

  /** The legacy menu: "1" plain, then topping i under the number i + 1,
      with the loop starting at i = 1. */
  function LegacyPizzaMenu(): (m: seq<MenuLine>)
    ensures |m| == |PZ.Values|
  {
    [MenuLine(1, None)]
    + seq(|PZ.Values| - 1, i requires 0 <= i < |PZ.Values| - 1 => MenuLine(i + 2, Some(PZ.Values[i + 1])))
  }

  /** What a line announces, as the toppings the pizza would get. */
  function Announced(line: MenuLine): seq<PZ.PizzaTopping> {
    match line.offers
    case None => []
    case Some(t) => [t]
  }

  /** A line keeps its word when typing its number alone gives what it
      announces. */
  predicate Keeps(line: MenuLine) {
    CustomToppings(NatToString(line.number)) == Announced(line)
  }

  /** No index below `n` is chosen, so nothing is selected. */
  lemma {:induction false} InIndexOrderNothingBelow(k: nat, n: nat)
    requires n <= k && n <= |PZ.Values|
    ensures InIndexOrder({k}, n) == []
  {
    if n > 0 {
      InIndexOrderNothingBelow(k, n - 1);
    }
  }

  /** A single chosen index selects exactly its topping. */
  lemma {:induction false} InIndexOrderSingle(k: nat, n: nat)
    requires k < n <= |PZ.Values|
    ensures InIndexOrder({k}, n) == [PZ.Values[k]]
  {
    if n == k + 1 {
      InIndexOrderNothingBelow(k, k);
    } else {
      InIndexOrderSingle(k, n - 1);
    }
  }

  /** A line of one printable character is its own trimmed line and its
      only token. */
  lemma OneCharLine(c: char)
    requires c > ' '
    ensures Trim([c]) == [c]
    ensures Tokens([c]) == [[c]]
  {
    assert TrimStart([c]) == [c];
    assert [c][..|[c]| - 1] == [];
    assert TrimEnd([c]) == [c];
    var none: string := [];
    assert Runs(none) == [];
    assert !IsSpace([c][0]);
    assert RunLength([c]) == 1;
    assert [c][..1] == [c] && [c][1..] == none;
    assert Runs([c]) == [[c]] + Runs(none);
    assert [c] != "";
  }

  /** Typing "0" alone gives the plain pizza. */
  lemma PlainChoice()
    ensures CustomToppings(NatToString(0)) == []
  {
    assert NatToString(0) == ['0'];
    OneCharLine('0');
  }

  /** The numbers from 1 to 6 are written as one digit other than "0". */
  lemma OneDigit(n: nat)
    requires 1 <= n <= |PZ.Values|
    ensures NatToString(n) == [DigitChar(n)]
    ensures DigitChar(n) > ' ' && DigitChar(n) != '0'
  {
  }

  /** The line holding just a number from 1 to 6 is not the plain choice. */
  lemma ChoiceNotPlain(n: nat)
    requires 1 <= n <= |PZ.Values|
    ensures Trim(NatToString(n)) != "0"
  {
    OneDigit(n);
    OneCharLine(DigitChar(n));
    assert Trim(NatToString(n))[0] != '0';
  }

  /** The number n from 1 to 6 names index n - 1. */
  lemma ChoiceIndex(n: nat)
    requires 1 <= n <= |PZ.Values|
    ensures ToppingIndex(NatToString(n)) == Some(n - 1)
  {
    ParseIntOfNat(n);
  }

  /** A one-character printable line is its only token. */
  lemma SingleTokenLine(s: string)
    requires |s| == 1 && s[0] > ' '
    ensures Tokens(Trim(s)) == [s]
  {
    assert s == [s[0]];
    OneCharLine(s[0]);
  }

  /** One token gets one verdict. */
  lemma OneTokenIndices(ts: seq<string>)
    requires |ts| == 1
    ensures TokenIndices(ts) == [ToppingIndex(ts[0])]
  {
  }

  /** One accepted index is collected on its own. */
  lemma CollectOne(k: nat)
    ensures Collect([Some(k)]) == Some({k})
  {
    var none: set<nat> := {};
    assert [Some(k)][..0] == [];
    assert none + {k} == {k};
  }

  /** A line other than "0" whose tokens are all accepted gives the chosen
      toppings in index order. */
  lemma ValidLine(line: string, chosen: set<nat>)
    requires Trim(line) != "0" && Collect(LineIndices(line)) == Some(chosen)
    ensures CustomToppings(line) == InIndexOrder(chosen, |PZ.Values|)
  {
  }

  /** Typing a number from 1 to 6 alone gives exactly the topping at that
      position minus one. */
  lemma SingleChoice(n: nat)
    requires 1 <= n <= |PZ.Values|
    ensures CustomToppings(NatToString(n)) == [PZ.Values[n - 1]]
  {
    var s := NatToString(n);
    OneDigit(n);
    ChoiceNotPlain(n);
    ChoiceIndex(n);
    SingleTokenLine(s);
    OneTokenIndices([s]);
    assert LineIndices(s) == [Some(n - 1)];
    CollectOne(n - 1);
    ValidLine(s, {n - 1});
    InIndexOrderSingle(n - 1, |PZ.Values|);
  }

  /** Every line of the packaged menu keeps its word. */
  lemma PizzaMenuKeepsItsWord()
    ensures forall k :: 0 <= k < |PizzaMenu()| ==> Keeps(PizzaMenu()[k])
  {
    forall k | 0 <= k < |PizzaMenu()|
      ensures Keeps(PizzaMenu()[k])
    {
      if k == 0 {
        PlainChoice();
      } else {
        SingleChoice(k);
      }
    }
  }

  /** The packaged menu offers every topping, under its ordinal plus one. */
  lemma PizzaMenuOffersAll(t: PZ.PizzaTopping)
    ensures MenuLine(t.Ordinal() + 1, Some(t)) in PizzaMenu()
  {
    PZ.ValuesEnumerate(t);
    assert PizzaMenu()[t.Ordinal() + 1] == MenuLine(t.Ordinal() + 1, Some(t));
  }

  /** The legacy menu announces a plain pizza under "1", but "1" gives HAM. */
  lemma LegacyPlainLineMisleads()
    ensures LegacyPizzaMenu()[0] == MenuLine(1, None)
    ensures CustomToppings(NatToString(1)) == [PZ.Ham]
    ensures !Keeps(LegacyPizzaMenu()[0])
  {
    SingleChoice(1);
  }

  /** The legacy menu never shows HAM, though the parser accepts it. */
  lemma LegacyMenuOmitsHam()
    ensures forall k :: 0 <= k < |LegacyPizzaMenu()| ==> LegacyPizzaMenu()[k].offers != Some(PZ.Ham)
  {
    PZ.Catalog();
  }

  /** The legacy menu's topping lines, from "2" on, do keep their word. */
  lemma LegacyToppingLinesKeepTheirWord()
    ensures forall k :: 1 <= k < |LegacyPizzaMenu()| ==> Keeps(LegacyPizzaMenu()[k])
  {
    forall k | 1 <= k < |LegacyPizzaMenu()|
      ensures Keeps(LegacyPizzaMenu()[k])
    {
      SingleChoice(k + 1);
    }
  }
}
