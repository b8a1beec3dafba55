# Takeaway order system, modelled in Dafny

A model of a Java console application for a pizza and pasta takeaway. A
customer's order holds food items. Each item is a `Pizza` with any number of
toppings or a `Pasta` with at most one. Each item has a price and a dietary
class (MEAT, VEGETARIAN or VEGAN). The order caches two values computed from
its items: the total cost and the strictest class among them, the label
that rules out the most diets.

`RestaurantFoodFactory` builds items from a fixed menu of nine named dishes,
or from a food type and a parameter map. `OrderManager` keeps two structures:
- a first-in first-out queue of orders waiting for delivery;
- a customer history that maps a lower-cased customer name to every order ever
  placed under it.

On top of these, `OrderManager` searches and filters the queue. It also parses
the console input that builds a custom pizza or pasta, and picks "popular"
dishes from the menu.

Modules, following the Java structure:

| module | file | Java source |
|---|---|---|
| `PizzaToppings`, `PastaToppings`, `MealTypes` | `pizza_topping.dfy`, `pasta_topping.dfy`, `meal_type.dfy` | the three enums |
| `Foods` | `food.dfy` | `Food`, `Pizza`, `Pasta` (one class `Food` whose `recipe` says which subclass it is) |
| `Orders` | `order.dfy` | `Order` |
| `FoodFactory` | `food_factory.dfy` | `RestaurantFoodFactory` |
| `OrderManagement` | `order_manager.dfy` | the queue and history of both `OrderManager` copies |
| `OrderEntry` | `order_entry.dfy` | the menu formatter, the custom-pizza parser, the pasta choice and the popular-dish filter of `OrderManager` |
| `ToppingMenus` | `topping_menu.dfy` | the numbered topping menus both copies print before reading the pizza choices |
| `Text` | `text.dfy` | the `String` operations used: `toLowerCase`, `contains`, `split`, `trim`, `Integer.parseInt`, `%.2f` |
| `Scenarios` | `scenarios.dfy` | the values checked by `OrderSystemTest` |
| `Wrappers` | `wrappers.dfy` | `Option` and `Result`: the `null` values the code tests for (a missing food type, menu-item name, parameter map or pasta topping), and exceptions as error values |

Prices are integer cents, so BASE_PRICE 11.50 is `1150`. An exception becomes
the `Err` case of a `Result`, carrying the exception's message. The repository
has two copies of `OrderManager`:
- the packaged one, `src/com/restaurant/orderManagement/service/OrderManager.java`;
- a legacy one, `src/OrderManager.java`.

Their queue, history, search, filter, pasta-choice and pizza-parsing logic is
the same. It is modelled once, and the table cites both copies where they
agree.

## Model

| member | source | states |
|---|---|---|
| PizzaToppings.Catalog | src/PizzaTopping.java:8-13 | six distinct constants in declaration order, each at its ordinal, priced 2.00, 2.00, 2.50, 2.00, 2.00, 3.50 |
| PizzaToppings.ValuesEnumerate | src/PizzaTopping.java:6-13 | `values()` lists every topping, at the position of its ordinal |
| PizzaToppings.VeganIsVegetarian | src/PizzaTopping.java:8-13 | no topping is vegan without being vegetarian |
| PizzaToppings.DietaryFlags | src/PizzaTopping.java:8-13 | HAM and SEAFOOD are exactly the non-vegetarian toppings and CHEESE the only vegetarian non-vegan one, which fixes each topping's class |
| PastaToppings.Catalog | src/com/restaurant/orderManagement/model/enums/PastaTopping.java:10-13 | four distinct constants in declaration order, each at its ordinal, priced 5.20, 6.80, 5.20, 4.00 |
| PastaToppings.ValuesEnumerate | src/com/restaurant/orderManagement/model/enums/PastaTopping.java:8-13 | `values()` lists every topping, at the position of its ordinal |
| PastaToppings.VeganIsVegetarian | src/com/restaurant/orderManagement/model/enums/PastaTopping.java:10-13 | no topping is vegan without being vegetarian |
| PastaToppings.DietaryFlags | src/com/restaurant/orderManagement/model/enums/PastaTopping.java:10-13 | BOLOGNESE and MARINARA are exactly the non-vegetarian toppings, PRIMAVERA the only vegetarian non-vegan one and TOMATO the only vegan one |
| MealTypes.Strictest | src/com/restaurant/orderManagement/model/entity/Order.java:91-119 | combining two classes gives one of them, the one ranked at least as high as both |
| MealTypes.StrictestOfIsByPrecedence | src/com/restaurant/orderManagement/model/entity/Order.java:91-119 | folding the precedence order over a list equals the code's flag rule: MEAT if any element is MEAT, else VEGETARIAN if any is, else VEGAN |
| Foods.BasePriceIsFloor | src/com/restaurant/orderManagement/model/entity/Food.java:14 | no item costs less than the base price, and the plain pizza and plain pasta cost exactly the base price |
| Foods.ToppingsPriceAppend | src/com/restaurant/orderManagement/model/entity/Pizza.java:43-47 | adding a topping raises the topping charge by exactly that topping's price |
| Foods.PriceByCountAppend | src/com/restaurant/orderManagement/model/entity/Pizza.java:54-62 | over a catalog without repetitions, one more topping adds its price to the per-catalog bill if it is listed there |
| Foods.ToppingsPriceByCount | src/com/restaurant/orderManagement/model/entity/Pizza.java:54-62 | the summing loop's charge equals the bill computed per catalog line (occurrences times price), so each occurrence is charged once |
| Foods.PizzaPriceIgnoresOrder | src/com/restaurant/orderManagement/model/entity/Pizza.java:54-62 | two pizzas whose toppings are permutations of each other cost the same |
| Foods.SameCountSamePrice | src/com/restaurant/orderManagement/model/entity/Pizza.java:54-62 | the per-catalog bill depends only on the multiset of toppings |
| Foods.ToppingClasses | src/com/restaurant/orderManagement/model/entity/Pizza.java:79-90 | one class per topping, in topping order |
| Foods.PizzaMealTypeIsStrictest | src/com/restaurant/orderManagement/model/entity/Pizza.java:69-104 | the scan with its early exit at the first non-vegetarian topping yields the strictest class among the toppings (VEGAN for none) |
| Foods.PizzaMealTypeIgnoresOrder | src/com/restaurant/orderManagement/model/entity/Pizza.java:69-104 | a pizza's class depends only on which toppings occur, not on their order or repetition |
| Foods.OccursRule | src/com/restaurant/orderManagement/model/entity/Pizza.java:79-90 | "some position holds a non-vegetarian (non-vegan) topping" is the same as "some such topping is in the list" |
| Foods.PastaMealTypeIsToppingClass | src/com/restaurant/orderManagement/model/entity/Pasta.java:56-75 | a pasta with a topping has exactly that topping's class |
| Foods.LowerNames | src/com/restaurant/orderManagement/model/entity/Pizza.java:142 | the name written for each pizza topping is the lower-cased constant name |
| Foods.PastaLowerNames | src/com/restaurant/orderManagement/model/entity/Pasta.java:101-114 | the name written for each pasta topping is the lower-cased constant name |
| Foods.WrittenAll | src/com/restaurant/orderManagement/model/entity/Pizza.java:140-151 | after the whole loop the separators form the list "a, b and c": commas before the last two, " and " between them, nothing after the last |
| Foods.JoinToppingNames | src/com/restaurant/orderManagement/model/entity/Pizza.java:140-151 | the loop writes exactly that list |
| Foods.Food.PlainPizza | src/com/restaurant/orderManagement/model/entity/Pizza.java:21-26 | a pizza with no toppings whose stored price is the base price |
| Foods.Food.Pizza | src/com/restaurant/orderManagement/model/entity/Pizza.java:32-37 | a pizza with the given toppings whose stored price is current |
| Foods.Food.PlainPasta | src/com/restaurant/orderManagement/model/entity/Pasta.java:18-23 | a pasta with no topping whose stored price is the base price |
| Foods.Food.Pasta | src/com/restaurant/orderManagement/model/entity/Pasta.java:29-34 | a pasta with the given (possibly absent) topping whose stored price is current |
| Foods.Food.CalculatePrice | src/com/restaurant/orderManagement/model/entity/Pizza.java:54-62 | returns the base price plus every topping's price (for a pasta, plus its topping's price, lines 41-49 of Pasta.java) |
| Foods.Food.GetMealType | src/com/restaurant/orderManagement/model/entity/Pizza.java:69-104 | returns the item's class: the pizza scan, or for a pasta VEGAN without a topping and the topping's class otherwise (Pasta.java:56-75) |
| Foods.Food.AddTopping | src/com/restaurant/orderManagement/model/entity/Pizza.java:43-47 | appends the topping at the end; the price rises by exactly its price and is current |
| Foods.Food.SetToppings | src/com/restaurant/orderManagement/model/entity/Pizza.java:119-123 | replaces the toppings; the price is current |
| Foods.Food.SetTopping | src/com/restaurant/orderManagement/model/entity/Pasta.java:90-94 | replaces the topping; the price is current |
| Foods.Food.SetPrice | src/com/restaurant/orderManagement/model/entity/Food.java:59-62 | overwrites the stored price only; it stays current exactly when the new value equals the computed price |
| Foods.Food.ToString | src/com/restaurant/orderManagement/model/entity/Pizza.java:130-155 | the item's description, by recipe and stored price (Pasta.java:101-114 for a pasta) |
| Foods.PizzaText | src/com/restaurant/orderManagement/model/entity/Pizza.java:130-155 | "Pizza (Plain)" or "Pizza with " and the topping list, then " - $" and the stored price with two decimals |
| Foods.PastaText | src/com/restaurant/orderManagement/model/entity/Pasta.java:101-114 | "Pasta (Plain)" or "Pasta " and the lower-cased topping, then " - $" and the stored price with two decimals |
| Foods.PastaDescription | src/com/restaurant/orderManagement/model/entity/Pasta.java:101-114 | the description every pasta gives (`Describe`) is "Pasta (Plain) - $" and the price for a plain pasta, and "Pasta ", the lower-cased topping name, " - $" and the price otherwise |
| Orders.ItemMealTypes | src/com/restaurant/orderManagement/model/entity/Order.java:94-96 | one class per item, in item order |
| Orders.OrderMealTypeIsStrictest | src/com/restaurant/orderManagement/model/entity/Order.java:83-120 | the order's class is the strictest of its items' classes, and VEGAN for an empty order |
| Orders.OneMeatItemMakesMeat | src/com/restaurant/orderManagement/model/entity/Order.java:94-111 | any single MEAT item makes the whole order MEAT, wherever it is |
| Orders.ItemLines | src/com/restaurant/orderManagement/model/entity/Order.java:241-244 | one numbered line per item |
| Orders.ItemLinesSnoc | src/com/restaurant/orderManagement/model/entity/Order.java:241-244 | one more item adds exactly one line, numbered one past the previous count |
| Orders.Descriptions | src/com/restaurant/orderManagement/model/entity/Order.java:243 | one description per item |
| Orders.Order.Blank | src/com/restaurant/orderManagement/model/entity/Order.java:29-38 | empty details, no items, total 0, VEGAN, the given order time |
| Orders.Order.constructor | src/com/restaurant/orderManagement/model/entity/Order.java:46-55 | the given details, no items, total 0, VEGAN, the given order time |
| Orders.Order.AddFoodItem | src/com/restaurant/orderManagement/model/entity/Order.java:61-66 | the item is appended after the earlier ones; total and class agree with the new list; the details are untouched |
| Orders.Order.SetFoodItems | src/com/restaurant/orderManagement/model/entity/Order.java:216-221 | the list is replaced; total and class agree with it; the details are untouched |
| Orders.Order.CalculateTotalCost | src/com/restaurant/orderManagement/model/entity/Order.java:71-78 | the total is the sum of the items' stored prices |
| Orders.Order.DetermineMealType | src/com/restaurant/orderManagement/model/entity/Order.java:83-120 | the class is the order class of the current items |
| Orders.Order.SetCustomerName | src/com/restaurant/orderManagement/model/entity/Order.java:198-201 | changes the customer name |
| Orders.Order.SetContactNumber | src/com/restaurant/orderManagement/model/entity/Order.java:189-192 | changes the contact number |
| Orders.Order.SetDeliveryAddress | src/com/restaurant/orderManagement/model/entity/Order.java:207-210 | changes the delivery address |
| Orders.Order.ToString | src/com/restaurant/orderManagement/model/entity/Order.java:228-249 | the header lines, the class, the items numbered from 1 in list order and the total with two decimals |
| Orders.LinesStep | src/com/restaurant/orderManagement/model/entity/Order.java:241-244 | each loop step adds exactly the line of the next item |
| Orders.RenderItems | src/com/restaurant/orderManagement/model/entity/Order.java:241-244 | the loop writes every item's line, numbered from 1, in list order |
| FoodFactory.IndexOf | src/com/restaurant/orderManagement/service/RestaurantFoodFactory.java:140-166 | the position found holds the key, and no earlier position does |
| FoodFactory.IndexOfDistinct | src/com/restaurant/orderManagement/service/RestaurantFoodFactory.java:14-24 | in a list without repetitions, looking up the element at a position gives back that position |
| FoodFactory.MenuItemsDistinct | src/com/restaurant/orderManagement/service/RestaurantFoodFactory.java:14-24 | the nine menu names are pairwise different |
| FoodFactory.MenuRecipe | src/com/restaurant/orderManagement/service/RestaurantFoodFactory.java:140-166 | the switch finds a recipe exactly for the listed names |
| FoodFactory.MenuTable | src/com/restaurant/orderManagement/service/RestaurantFoodFactory.java:140-162 | the k-th listed name selects the k-th dish and the k-th description (lines 275-297) |
| FoodFactory.MenuKinds | src/com/restaurant/orderManagement/service/RestaurantFoodFactory.java:14-24 | a name ending in "_pizza" builds a pizza and one ending in "_pasta" a pasta with a topping |
| FoodFactory.MenuItemRecipe | src/com/restaurant/orderManagement/service/RestaurantFoodFactory.java:133-167 | `null` is refused with "Menu item name cannot be null"; a name is accepted exactly when its lower-cased form is listed; any other name is refused with "Unknown menu item: " and the name as given |
| FoodFactory.MenuLookupIgnoresCase | src/com/restaurant/orderManagement/service/RestaurantFoodFactory.java:140 | a name and its lower-cased form build the same dish and get the same description |
| FoodFactory.ListedNamesAccepted | src/com/restaurant/orderManagement/service/RestaurantFoodFactory.java:257-260 | every advertised name is accepted by the factory |
| FoodFactory.LowerFixes | src/com/restaurant/orderManagement/service/RestaurantFoodFactory.java:14-24 | the listed names are already lower case, three names at a time: no upper-case letter in lines 15-17, 18-20 or 21-23 |
| FoodFactory.MenuRecipes | src/com/restaurant/orderManagement/service/RestaurantFoodFactory.java:38-125 | the toppings of each named dish, in the order the builder adds them (also lines 218-250) |
| FoodFactory.GetAvailableMenuItems | src/com/restaurant/orderManagement/service/RestaurantFoodFactory.java:257-260 | a fresh array holding the nine names in declared order, so callers cannot change the table |
| FoodFactory.CreateMenuItemByName | src/com/restaurant/orderManagement/service/RestaurantFoodFactory.java:133-167 | a new item exactly when the name is accepted, with that dish's recipe and a current price; otherwise the refusal message |
| FoodFactory.Build | src/com/restaurant/orderManagement/service/RestaurantFoodFactory.java:81-89 | a new item with the requested recipe and a current price |
| FoodFactory.DescriptionText | src/com/restaurant/orderManagement/service/RestaurantFoodFactory.java:275-301 | "Description not available" exactly for names outside the menu |
| FoodFactory.NoDefaultDescription | src/com/restaurant/orderManagement/service/RestaurantFoodFactory.java:278-297 | no listed dish has the fallback text as its description |
| FoodFactory.MenuItemDescription | src/com/restaurant/orderManagement/service/RestaurantFoodFactory.java:268-302 | only `null` throws; an unknown name gets the fallback text, and exactly the names the factory refuses get it |
| FoodFactory.PastaDescriptionTags | src/com/restaurant/orderManagement/service/RestaurantFoodFactory.java:290-297 | each pasta description ends with the tag of the pasta's actual class: "(contains meat)" for marinara and bolognese, "(vegetarian)" for primavera, "(vegan)" for tomato |
| FoodFactory.PizzaFromParams | src/com/restaurant/orderManagement/service/RestaurantFoodFactory.java:196-212 | always a pizza; plain for `null` or empty parameters and for a missing or `null` "toppings" entry; a topping list is used as given; any other value is a cast failure |
| FoodFactory.PastaFromParams | src/com/restaurant/orderManagement/service/RestaurantFoodFactory.java:174-189 | always a pasta; plain for `null` or empty parameters and for a missing or `null` "topping" entry; a pasta topping is used as given; any other value is a cast failure |
| FoodFactory.FoodRecipe | src/com/restaurant/orderManagement/service/RestaurantFoodFactory.java:59-75 | a `null` type is refused; "pizza" and "pasta", in any case, go to their builders; any other type is refused with "Unknown food type: " and the type |
| FoodFactory.PlainWithoutParams | src/com/restaurant/orderManagement/service/RestaurantFoodFactory.java:59-75 | a recognised type without parameters gives a plain VEGAN item at the base price |
| FoodFactory.PizzaWithToppings | src/com/restaurant/orderManagement/service/RestaurantFoodFactory.java:59-75 | "pizza" in any case with a "toppings" list builds a pizza with exactly that list, priced at least the base price (builder at lines 203-211) |
| FoodFactory.PastaWithTopping | src/com/restaurant/orderManagement/service/RestaurantFoodFactory.java:59-75 | "pasta" in any case with a "topping" entry builds a pasta with that topping, and a value of another type under the key is a cast failure (builder at lines 181-188) |
| FoodFactory.CreateFood | src/com/restaurant/orderManagement/service/RestaurantFoodFactory.java:59-75 | a new item exactly when the request is accepted, with that recipe and a current price; otherwise the error |
| OrderManagement.FiledUnderAbsent | src/com/restaurant/orderManagement/service/OrderManager.java:43-45 | a key under which nothing was added has an empty history |
| OrderManagement.FiledUnderSnoc | src/com/restaurant/orderManagement/service/OrderManager.java:43-45 | adding an order extends the history of its own key by that order and leaves every other key's history unchanged |
| OrderManagement.FilingKeepsLedger | src/com/restaurant/orderManagement/service/OrderManager.java:39-49 | queueing and filing one more order keeps the ledger invariant: the queue is the undelivered suffix and every key's history lists the orders added under it, in arrival order |
| OrderManagement.FiledUnderMembers | src/com/restaurant/orderManagement/service/OrderManager.java:43-45 | an order added under a key is in that key's history |
| OrderManagement.NameMatchesMembers | src/com/restaurant/orderManagement/service/OrderManager.java:790-798 | the search finds an order exactly when it is queued and its lower-cased name contains the query |
| OrderManagement.MealTypeMatchesMembers | src/com/restaurant/orderManagement/service/OrderManager.java:538-546 | the filter finds an order exactly when it is queued with that class |
| OrderManagement.MealTypeFiltersPartition | src/com/restaurant/orderManagement/service/OrderManager.java:521-546 | the three filters together find every queued order once |
| OrderManagement.OrderManager.constructor | src/com/restaurant/orderManagement/service/OrderManager.java:25-33 | an empty queue and an empty history, with the ledger invariant |
| OrderManagement.OrderManager.AddOrder | src/com/restaurant/orderManagement/service/OrderManager.java:39-49 | the order joins the tail of the queue and the end of its lower-cased name's history (created if absent); no other history changes; the invariant holds (also src/OrderManager.java:34-44) |
| OrderManagement.OrderManager.DeliverOrder | src/com/restaurant/orderManagement/service/OrderManager.java:408-421 | an empty queue is left alone and nothing is delivered; otherwise exactly the oldest order leaves and is returned; the history is untouched (also src/OrderManager.java:199-212) |
| OrderManagement.OrderManager.SubmitOrder | src/com/restaurant/orderManagement/service/OrderManager.java:78-107 | an order is added exactly when it has an item; an empty one leaves the ledger unchanged (also lines 133-171, and src/OrderManager.java:73-102) |
| OrderManagement.OrderManager.SearchByCustomer | src/com/restaurant/orderManagement/service/OrderManager.java:786-798 | the queued orders whose lower-cased name contains the lower-cased query, in queue order (also src/OrderManager.java:555-567) |
| OrderManagement.OrderManager.FilterByMealType | src/com/restaurant/orderManagement/service/OrderManager.java:537-546 | the queued orders of the selected class, in queue order (also src/OrderManager.java:306-315) |
| OrderManagement.OrderManager.HistoryFor | src/com/restaurant/orderManagement/service/OrderManager.java:817-835 | a history exists exactly for names some order was added under, and it lists every such order in arrival order, delivered or not (also src/OrderManager.java:586-604) |
| OrderManagement.OrderManager.HistoryKeepsEveryOrder | src/com/restaurant/orderManagement/service/OrderManager.java:408-421 | delivery does not remove anything from the history: every order ever added is still filed under its key |
| OrderManagement.OrderManager.QueuedOrdersInHistory | src/com/restaurant/orderManagement/service/OrderManager.java:39-49 | every queued order is in the history of the key it was filed under |
| OrderEntry.TitleWords | src/com/restaurant/orderManagement/service/OrderManager.java:472-480 | one title-cased word per word |
| OrderEntry.FormatMenuItemName | src/com/restaurant/orderManagement/service/OrderManager.java:466-483 | the name split at "_", each word with its first letter upper-cased and the rest lower-cased, joined by spaces; an empty word fails as `substring(0, 1)` does |
| OrderEntry.AppendTitleWords | src/com/restaurant/orderManagement/service/OrderManager.java:470-482 | the loop writes exactly the title-cased words separated by single spaces, or fails at an empty word |
| OrderEntry.LowerTitleWord | src/com/restaurant/orderManagement/service/OrderManager.java:478-479 | title-casing a word changes only letter case |
| OrderEntry.TitleWordsBack | src/com/restaurant/orderManagement/service/OrderManager.java:469-482 | lower-casing the joined title words and turning spaces into "_" gives back the lower-cased words joined by "_" |
| OrderEntry.DisplayNameRoundTrip | src/com/restaurant/orderManagement/service/OrderManager.java:466-483 | for a name without spaces or empty pieces, formatting succeeds and is undone by lower-casing and replacing spaces with "_" |
| OrderEntry.TwoWordDisplayName | src/com/restaurant/orderManagement/service/OrderManager.java:466-483 | "a_b" is shown as the two title-cased words with one space between them |
| OrderEntry.SplitAllPrefix | src/com/restaurant/orderManagement/service/OrderManager.java:469 | a prefix without the separator joins the first piece of the split |
| OrderEntry.ToppingIndex | src/com/restaurant/orderManagement/service/OrderManager.java:378-386 | a token is accepted exactly when it parses as an int from 1 to 6, and it then selects the topping one below its value |
| OrderEntry.TokenIndices | src/com/restaurant/orderManagement/service/OrderManager.java:376-387 | one verdict per token |
| OrderEntry.ParseCustomPizza | src/com/restaurant/orderManagement/service/OrderManager.java:367-398 | the toppings the parser selects for a trimmed input line (also src/OrderManager.java:158-189) |
| OrderEntry.CollectChoices | src/com/restaurant/orderManagement/service/OrderManager.java:373-387 | the loop gathers the chosen indices as a set, or gives up at the first invalid token |
| OrderEntry.InIndexOrderLoop | src/com/restaurant/orderManagement/service/OrderManager.java:389-392 | the loop over the set adds the chosen toppings in ascending index order |
| OrderEntry.CollectRefused | src/com/restaurant/orderManagement/service/OrderManager.java:385 | once one token is refused the whole line is refused, whatever follows |
| OrderEntry.CollectAccepted | src/com/restaurant/orderManagement/service/OrderManager.java:376-387 | a line is accepted exactly when every token is |
| OrderEntry.CollectChosen | src/com/restaurant/orderManagement/service/OrderManager.java:374-381 | an index is chosen exactly when some token names it |
| OrderEntry.InIndexOrderProperties | src/com/restaurant/orderManagement/service/OrderManager.java:389-392 | the selection is strictly ascending by ordinal, without repeats, and holds exactly the chosen toppings |
| OrderEntry.CustomToppingsChosen | src/com/restaurant/orderManagement/service/OrderManager.java:367-398 | on a valid line other than "0", a topping is on the pizza exactly when some token names it, each once, in catalog order |
| OrderEntry.CustomToppingsRefused | src/com/restaurant/orderManagement/service/OrderManager.java:394-397 | one invalid token gives a plain pizza |
| OrderEntry.RepeatedChoicesCollapse | src/com/restaurant/orderManagement/service/OrderManager.java:374-392 | the choices 1, 3, 1 give ham and pineapple, once each |
| OrderEntry.PastaChoiceCovers | src/com/restaurant/orderManagement/service/OrderManager.java:255-272 | every pasta topping is offered, under the number two above its ordinal (also src/OrderManager.java:116-133) |
| OrderEntry.PastaChoiceInjective | src/com/restaurant/orderManagement/service/OrderManager.java:262-272 | different menu numbers give different pastas |
| OrderEntry.PastaChoicePrice | src/com/restaurant/orderManagement/service/OrderManager.java:253-259 | the pasta chosen costs what its menu line shows: the base price for 1, the base plus the topping's price otherwise |
| OrderEntry.ItemsContainingMembers | src/com/restaurant/orderManagement/service/OrderManager.java:210-216 | a name is kept exactly when it is listed and contains the keyword |
| OrderEntry.PopularItems | src/com/restaurant/orderManagement/service/OrderManager.java:207-216 | the listed names containing the keyword, in menu order (also lines 309-318) |
| OrderEntry.PopularItemsAccepted | src/com/restaurant/orderManagement/service/OrderManager.java:232-243 | every popular dish offered is accepted by the factory, so its creation never fails |
| OrderEntry.AddCustomPizzaToOrder | src/com/restaurant/orderManagement/service/OrderManager.java:352-403 | appends a new pizza with the parsed toppings and a current price; the order's total and class follow; name, contact and address are unchanged |
| OrderEntry.AddCustomPastaToOrder | src/com/restaurant/orderManagement/service/OrderManager.java:250-276 | appends a new pasta for the chosen number and a current price; the order's total and class follow; name, contact and address are unchanged (also src/OrderManager.java:111-137) |
| OrderEntry.PopularChoice | src/com/restaurant/orderManagement/service/OrderManager.java:231-232 | the chosen number picks that line of the filtered list |
| OrderEntry.CreateListedItem | src/com/restaurant/orderManagement/service/OrderManager.java:236 | a new item with the listed dish's recipe and a current price |
| OrderEntry.AddPopularItemToOrder | src/com/restaurant/orderManagement/service/OrderManager.java:202-244 | appends the chosen popular dish with its menu recipe; the order's total and class follow; name, contact and address are unchanged (also lines 304-346) |
| ToppingMenus.PizzaMenu | src/com/restaurant/orderManagement/service/OrderManager.java:355-362 | the packaged menu has one line for the plain pizza and one per topping |
| ToppingMenus.LegacyPizzaMenu | src/OrderManager.java:146-153 | the legacy menu has one line for the plain pizza and one per topping after the first |
| ToppingMenus.InIndexOrderSingle | src/com/restaurant/orderManagement/service/OrderManager.java:389-392 | a single chosen index selects exactly the topping at that index |
| ToppingMenus.PlainChoice | src/com/restaurant/orderManagement/service/OrderManager.java:369 | typing "0" alone gives the plain pizza |
| ToppingMenus.SingleChoice | src/com/restaurant/orderManagement/service/OrderManager.java:367-398 | typing one number from 1 to 6 alone gives exactly the topping at that position minus one |
| ToppingMenus.PizzaMenuKeepsItsWord | src/com/restaurant/orderManagement/service/OrderManager.java:355-398 | every number on the packaged menu, typed alone, gives exactly what its line announces |
| ToppingMenus.PizzaMenuOffersAll | src/com/restaurant/orderManagement/service/OrderManager.java:357-362 | the packaged menu offers every topping, under its ordinal plus one |
| ToppingMenus.LegacyPlainLineMisleads | src/OrderManager.java:146-189 | the legacy menu shows "1" as the plain pizza, but typing "1" gives HAM |
| ToppingMenus.LegacyMenuOmitsHam | src/OrderManager.java:148-153 | no line of the legacy menu offers HAM |
| ToppingMenus.LegacyToppingLinesKeepTheirWord | src/OrderManager.java:149-189 | the legacy topping lines, from "2" on, give what they announce |
| Text.Lower | src/com/restaurant/orderManagement/service/OrderManager.java:43 | lower-casing keeps the length and maps each character on its own |
| Text.LowerIdempotent | src/com/restaurant/orderManagement/service/OrderManager.java:786 | lower-casing twice is lower-casing once, so a lower-cased query matches a lower-cased key |
| Text.ParseInt | src/com/restaurant/orderManagement/service/OrderManager.java:378 | a parsed value is within the 32-bit int range |
| Text.ParseIntOfNat | src/com/restaurant/orderManagement/service/OrderManager.java:378 | the decimal text of an int's value parses back to it |
| Text.FormatCentsRoundTrip | src/com/restaurant/orderManagement/model/entity/Pizza.java:153 | the two-decimal price text reads back as the price |
| Text.JoinSplitAll | src/com/restaurant/orderManagement/service/OrderManager.java:469 | joining the pieces of a split with the separator rebuilds the string |
| Scenarios.PizzaCreation | src/OrderSystemTest.java:101-118 | a plain pizza costs 11.50 and is VEGAN; ham, cheese and pineapple cost 18.00 and are MEAT |
| Scenarios.ThreeToppingsPrice | src/OrderSystemTest.java:101-118 | three toppings cost the base price plus their three prices |
| Scenarios.PastaCreation | src/OrderSystemTest.java:80-96 | a plain pasta costs 11.50 and is VEGAN; bolognese costs 16.70 and is MEAT |
| Scenarios.OrderCreation | src/OrderSystemTest.java:59-75 | the Hawaiian pizza and a marinara total 36.30 and the order is MEAT |
| Scenarios.MealTypeClassification | src/OrderSystemTest.java:32-54 | the three test orders are VEGAN, VEGETARIAN and MEAT |
| Scenarios.PriceCalculation | src/OrderSystemTest.java:123-140 | seafood, pineapple and ham cost 19.50, a marinara 18.30, together 37.80 |

## Left out

- Console input and output are left out, except the numbered pizza-topping menus, which `ToppingMenus` models as (number, offer) lines. The other menus, the prompts and the `printf` lines are not modelled. The read loops `getValidatedInput`, `getValidatedContactNumber` and `getValidatedMenuChoice` are left out; the model takes the line or number they would return as a parameter, and a menu number as already in range.
- `run`, `displayMainMenu`, `displayFoodMenu`, `displayMenuItems`, `printAllOrders` and both `Main` classes only print or dispatch, so they are left out.
- The loops of `createOrder` and `createQuickOrder` are left out. Only their outcome is modelled: an order with no item is refused (`SubmitOrder`).
- Persistence is left out: `saveOrdersToFile`, `saveCustomerHistoryToFile`, the two load methods and the legacy `exportOrdersToFile`. Object serialisation and the file system are outside the model.
- The clock is a parameter. `LocalDateTime.now()` becomes a `Timestamp` given to the constructor. `Order.toString` takes the `dd/MM/yyyy HH:mm` text as a parameter, because the date formatter is not modelled.
- Prices are exact integer cents, not `double`. Rounding in `%.2f` and floating-point summation are not modelled.
- Case mapping, `trim`, `split` and `Integer.parseInt` are modelled for ASCII text only. Unicode case rules and non-ASCII digits are not covered.
- OrderEntry.InIndexOrderLoop: iterates the `HashSet<Integer>` in ascending order. That is the order a small `HashSet` of integers yields, but `HashSet` does not promise it.
- OrderManagement.OrderManager.DeliverOrder: returns the delivered order instead of printing it and rewriting the orders file.
- Getters that only return a field (`getPrice`, `getToppings`, `getFoodItems`, `getTotalCost` and the like) are left out. The model reads the field itself. `getToppings` returning a copy is not modelled, because sequences are values.
- The `switch` statements of `RestaurantFoodFactory` are modelled as two tables indexed like `MENU_ITEMS`, with case labels and table positions shown to agree (`MenuTable`).
- Null arguments the code does not test for are not modelled: a `null` element of a topping list (a `NullPointerException` in `calculatePrice`), `new Pizza(null)`, `setToppings(null)`, `addTopping(null)` and `addFoodItem(null)`. The model's types have no `null` in those places, so these calls cannot be written.
- A `ClassCastException` from a parameter map holding the wrong type is modelled as an error value (`ClassCast`), not followed further.
- The one class `Foods.Food` stands for the abstract `Food` and its subclasses `Pizza` and `Pasta`. Methods of one subclass require the matching recipe, as Java's static types do.
- The legacy `src/Food.java` and `src/PizzaTopping.java` behave like the packaged `Food` and `PizzaTopping`, so one model covers both. The legacy `setPrice` is the same as the packaged one (`Foods.Food.SetPrice`).
- `MealType.java` and `FoodFactory.java` declare an enum and an interface only and have no behaviour of their own.
- The items in `src/OrderSystemTest.java` are stated over recipes, not over `Food` and `Order` objects. Each constructor's and mutator's contract ties the stored price and class to the recipe, so the test values follow.
- OrderEntry.TwoWordDisplayName: `formatMenuItemName` is stated for every name, for example two words around one "_", not for each of the nine menu names one by one.
- The queries and names entered at the console reach `searchOrdersByCustomer` and `viewCustomerHistory` through `getValidatedInput`, which trims them and refuses empty ones. The model takes the query as already validated.

## Findings

| source | as written | input that shows it | evidently intended | confidence | as-written member | corrected member |
|---|---|---|---|---|---|---|
| src/OrderManager.java:146-153 | the legacy pizza menu labels "1" as the plain pizza and prints its topping lines from index 1, so HAM is never listed, while the parser maps "1" to HAM and the prompt says "0" is plain | typing "1" after reading "1. Plain pizza" puts HAM on the pizza | the packaged menu: "0" for the plain pizza and every topping at its ordinal plus one, as in src/com/restaurant/orderManagement/service/OrderManager.java:355-362 | medium; not executed | ToppingMenus.LegacyPlainLineMisleads | ToppingMenus.PizzaMenuKeepsItsWord |
