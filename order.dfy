/**
 * A customer order (`Order`): customer details, the food items in the order
 * they were added, and the two derived fields `totalCost` and `mealType`
 * that every change to the item list recomputes.
 */
module Orders {
  import opened Text
  import opened MealTypes
  import opened Foods

  /** The `LocalDateTime.now()` reading taken when the order is made. The
      clock is outside the model, so the reading is a constructor argument. */
  datatype Timestamp = Timestamp(reading: int)

  /** Sum of the items' stored prices (`getPrice()`), in list order. */
  function TotalPrice(items: seq<Food>): int
    reads items
  {
    if |items| == 0 then 0 else TotalPrice(items[..|items| - 1]) + items[|items| - 1].price
  }

  /** The class of each item, as its `getMealType()` returns it. */
  function ItemMealTypes(items: seq<Food>): (ms: seq<MealType>)
    reads items
    ensures |ms| == |items|
  {
    seq(|items|, i reads items requires 0 <= i < |items| => RecipeMealType(items[i].recipe))
  }

  /** `determineMealType()`: VEGAN for an empty order, otherwise MEAT if any
      item is MEAT, else VEGETARIAN if any item is VEGETARIAN, else VEGAN. */
  function OrderMealType(items: seq<Food>): MealType
    reads items
  {
    ByPrecedence(ItemMealTypes(items))
  }

  /** The order's class is the strictest of its items' classes, whatever
      their order, and an empty order is VEGAN. */
  lemma OrderMealTypeIsStrictest(items: seq<Food>)
    ensures OrderMealType(items) == StrictestOf(ItemMealTypes(items))
    ensures |items| == 0 ==> OrderMealType(items) == Vegan
  {
    StrictestOfIsByPrecedence(ItemMealTypes(items));
  }

  /** One MEAT item makes the whole order MEAT. */
  lemma OneMeatItemMakesMeat(items: seq<Food>, k: nat)
    requires k < |items| && RecipeMealType(items[k].recipe) == Meat
    ensures OrderMealType(items) == Meat
  {
    assert ItemMealTypes(items)[k] == Meat;
  }

  /** One line of the numbered item list. */
  function ItemLine(number: nat, description: string): string {
    "  " + NatToString(number) + ". " + description + "\n"
  }

  /** The item lines, numbered from 1 in insertion order. */
  function ItemLines(descriptions: seq<string>): (lines: seq<string>)
    ensures |lines| == |descriptions|
  {
    seq(|descriptions|, i requires 0 <= i < |descriptions| => ItemLine(i + 1, descriptions[i]))
  }

  function Concat(parts: seq<string>): string {
    if |parts| == 0 then "" else Concat(parts[..|parts| - 1]) + parts[|parts| - 1]
  }

  lemma ItemLinesSnoc(ds: seq<string>, d: string)
    ensures ItemLines(ds + [d]) == ItemLines(ds) + [ItemLine(|ds| + 1, d)]
  {
  }

  lemma ConcatSnoc(parts: seq<string>, p: string)
    ensures Concat(parts + [p]) == Concat(parts) + p
  {
    assert (parts + [p])[..|parts|] == parts;
  }

  /** The descriptions the items give of themselves (`toString()`). */
  function Descriptions(items: seq<Food>): (ds: seq<string>)
    reads items
    ensures |ds| == |items|
  {
    seq(|items|, i reads items requires 0 <= i < |items| => Describe(items[i].recipe, items[i].price))
  }

  /** What `Order.toString()` returns, given the formatted order time.
      The labels are the code's own, package names included. */
  function OrderText(name: string, contact: string, address: string, timeText: string,
                     mealType: MealType, itemLines: string, totalCost: int): string
  {
    "com.restaurant.orderManagement.model.entity.Order Details:\n"
    + "Customer: " + name + "\n"
    + "Contact: " + contact + "\n"
    + "Address: " + address + "\n"
    + "com.restaurant.orderManagement.model.entity.Order Time: " + timeText + "\n"
    + "Meal Type: " + Name(mealType) + "\n"
    + "com.restaurant.orderManagement.model.entity.Food Items:\n"
    + itemLines
    + "Total Cost: $" + FormatCents(totalCost)
  }

  class Order {
    var foodItems: seq<Food>
    var customerName: string
    var contactNumber: string
    var deliveryAddress: string
    var totalCost: int
    var mealType: MealType
    const orderTime: Timestamp

    /** Both derived fields agree with the current items. */
    ghost predicate Derived()
      reads this, foodItems
    {
      totalCost == TotalPrice(foodItems) && mealType == OrderMealType(foodItems)
    }

    /** `new Order()`: empty details and no items. */
    constructor Blank(time: Timestamp)
      ensures customerName == "" && contactNumber == "" && deliveryAddress == ""
      ensures foodItems == [] && totalCost == 0 && mealType == Vegan && orderTime == time
      ensures Derived()
    {
      foodItems := [];
      customerName, contactNumber, deliveryAddress := "", "", "";
      totalCost := 0;
      mealType := Vegan;
      orderTime := time;
    }

    /** `new Order(customerName, contactNumber, deliveryAddress)`. */
    constructor (name: string, contact: string, address: string, time: Timestamp)
      ensures customerName == name && contactNumber == contact && deliveryAddress == address
      ensures foodItems == [] && totalCost == 0 && mealType == Vegan && orderTime == time
      ensures Derived()
    {
      foodItems := [];
      customerName, contactNumber, deliveryAddress := name, contact, address;
      totalCost := 0;
      mealType := Vegan;
      orderTime := time;
    }

    /** `addFoodItem`: appends the item, leaving the earlier ones in place,
        then recomputes both derived fields. */
    method AddFoodItem(item: Food)
      modifies this
      ensures foodItems == old(foodItems) + [item]
      ensures Derived()
      ensures customerName == old(customerName) && contactNumber == old(contactNumber)
      ensures deliveryAddress == old(deliveryAddress)
    {
      foodItems := foodItems + [item];
      CalculateTotalCost();
      DetermineMealType();
    }

    /** `setFoodItems`: replaces the list by a copy and recomputes both
        derived fields. */
    method SetFoodItems(items: seq<Food>)
      modifies this
      ensures foodItems == items
      ensures Derived()
      ensures customerName == old(customerName) && contactNumber == old(contactNumber)
      ensures deliveryAddress == old(deliveryAddress)
    {
      foodItems := items;
      CalculateTotalCost();
      DetermineMealType();
    }

    /** `calculateTotalCost()`: resets the total and accumulates the stored
        item prices. */
    method CalculateTotalCost()
      modifies this`totalCost
      ensures totalCost == TotalPrice(foodItems)
    {
      totalCost := 0;
      for i := 0 to |foodItems|
        invariant totalCost == TotalPrice(foodItems[..i])
      {
        assert foodItems[..i + 1][..i] == foodItems[..i];
        totalCost := totalCost + foodItems[i].price;
      }
      assert foodItems[..|foodItems|] == foodItems;
    }

    /** `determineMealType()`: a scan over the items' classes that stops at
        the first MEAT item. */
    method DetermineMealType()
      modifies this`mealType
      ensures mealType == OrderMealType(foodItems)
    {
      ghost var ms := ItemMealTypes(foodItems);
      if |foodItems| == 0 {
        mealType := Vegan;
        return;
      }
      var hasMeat, hasVegetarian := false, false;
      var i := 0;
      while i < |foodItems|
        invariant 0 <= i <= |foodItems|
        invariant !hasMeat
        invariant forall j :: 0 <= j < i ==> ms[j] != Meat
        invariant hasVegetarian <==> exists j :: 0 <= j < i && ms[j] == Vegetarian
      {
        var itemType := foodItems[i].GetMealType();
        if itemType == Meat {
          hasMeat := true;
          break;
        } else if itemType == Vegetarian {
          hasVegetarian := true;
        }
        i := i + 1;
      }
      if hasMeat {
        assert ms[i] == Meat;
        mealType := Meat;
      } else if hasVegetarian {
        assert Meat !in ms;
        mealType := Vegetarian;
      } else {
        assert Meat !in ms && Vegetarian !in ms;
        mealType := Vegan;
      }
    }

    /** `setCustomerName`: changes that field only. */
    method SetCustomerName(name: string)
      modifies this`customerName
      ensures customerName == name
    {
      customerName := name;
    }

    /** `setContactNumber`: changes that field only. */
    method SetContactNumber(contact: string)
      modifies this`contactNumber
      ensures contactNumber == contact
    {
      contactNumber := contact;
    }

    /** `setDeliveryAddress`: changes that field only. */
    method SetDeliveryAddress(address: string)
      modifies this`deliveryAddress
      ensures deliveryAddress == address
    {
      deliveryAddress := address;
    }

    /** `toString()`, given the order time as `DateTimeFormatter` renders it;
        items are numbered from 1 in the order they were added. */
    method ToString(timeText: string) returns (text: string)
      ensures text == OrderText(customerName, contactNumber, deliveryAddress, timeText,
                                mealType, Concat(ItemLines(Descriptions(foodItems))), totalCost)
    {
      var lines := RenderItems(foodItems);
      text := OrderText(customerName, contactNumber, deliveryAddress, timeText, mealType, lines, totalCost);
    }
  }

  /** One more item line extends the rendered list by that line. */
  lemma LinesStep(ds: seq<string>, i: nat)
    requires i < |ds|
    ensures Concat(ItemLines(ds[..i + 1])) == Concat(ItemLines(ds[..i])) + ItemLine(i + 1, ds[i])
  {
    assert ds[..i + 1] == ds[..i] + [ds[i]];
    ItemLinesSnoc(ds[..i], ds[i]);
    ConcatSnoc(ItemLines(ds[..i]), ItemLine(i + 1, ds[i]));
  }

  /** The numbered item lines of `Order.toString()`, one `Food.toString()`
      per item. */
  method RenderItems(items: seq<Food>) returns (lines: string)
    ensures lines == Concat(ItemLines(Descriptions(items)))
  {
    ghost var ds := Descriptions(items);
    lines := "";
    for i := 0 to |items|
      invariant lines == Concat(ItemLines(ds[..i]))
    {
      var d := items[i].ToString();
      assert d == ds[i];
      LinesStep(ds, i);
      lines := lines + ItemLine(i + 1, d);
    }
    assert ds[..|items|] == ds;
  }
}
