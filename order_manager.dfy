/**
 * The ledger of `OrderManager`: a FIFO queue of orders waiting for delivery
 * and a customer history that maps a lower-cased customer name to every
 * order ever filed under it. The same `Order` objects are referenced from
 * both. Both copies of `OrderManager` (the packaged one and the legacy one
 * at the top of `src/`) share this logic.
 */
module OrderManagement {
  import opened Wrappers
  import opened Text
  import opened MealTypes
  import opened Orders

  /** The orders among `added` whose filing key is `key`, in the order they
      were added. */
  ghost function FiledUnder(added: seq<Order>, keys: seq<string>, key: string): seq<Order>
    requires |added| == |keys|
  {
    if |added| == 0 then []
    else
      var n := |added| - 1;
      FiledUnder(added[..n], keys[..n], key) + (if keys[n] == key then [added[n]] else [])
  }

  lemma {:induction false} FiledUnderAbsent(added: seq<Order>, keys: seq<string>, key: string)
    requires |added| == |keys| && key !in keys
    ensures FiledUnder(added, keys, key) == []
  {
    if |added| > 0 {
      var n := |added| - 1;
      assert keys == keys[..n] + [keys[n]];
      FiledUnderAbsent(added[..n], keys[..n], key);
    }
  }

  lemma FiledUnderSnoc(added: seq<Order>, keys: seq<string>, o: Order, k: string, key: string)
    requires |added| == |keys|
    ensures FiledUnder(added + [o], keys + [k], key)
         == FiledUnder(added, keys, key) + (if k == key then [o] else [])
  {
    assert (added + [o])[..|added|] == added;
    assert (keys + [k])[..|keys|] == keys;
  }

  /** The history after `putIfAbsent(key, new ArrayList<>())` followed by
      appending `o` to the list under `key`. */
  function Filed(h: map<string, seq<Order>>, key: string, o: Order): map<string, seq<Order>> {
    h[key := (if key in h then h[key] else []) + [o]]
  }

  /** The ledger invariant over plain values: the queue holds the orders
      not yet delivered in arrival order, and the history files every order
      ever added under its key, delivered or not, in arrival order. */
  ghost predicate Ledger(queue: seq<Order>, history: map<string, seq<Order>>,
                         added: seq<Order>, keys: seq<string>, delivered: nat)
  {
    && |keys| == |added|
    && delivered <= |added|
    && queue == added[delivered..]
    && (forall k :: k in history <==> k in keys)
    && (forall k :: k in history ==> history[k] == FiledUnder(added, keys, k))
  }

  /** Filing one more order under `key` and queueing it keeps the
      invariant. */
  lemma FilingKeepsLedger(queue: seq<Order>, h: map<string, seq<Order>>, added: seq<Order>,
                          keys: seq<string>, delivered: nat, o: Order, key: string)
    requires Ledger(queue, h, added, keys, delivered)
    ensures Ledger(queue + [o], Filed(h, key, o), added + [o], keys + [key], delivered)
  {
    var h' := Filed(h, key, o);
    forall k | k in h'
      ensures h'[k] == FiledUnder(added + [o], keys + [key], k)
    {
      FiledUnderSnoc(added, keys, o, key, k);
      if k == key && key !in keys {
        FiledUnderAbsent(added, keys, key);
      }
    }
    assert (added + [o])[delivered..] == added[delivered..] + [o];
  }

  /** An order is filed under a key exactly when it was added under it. */
  lemma {:induction false} FiledUnderMembers(added: seq<Order>, keys: seq<string>, key: string, i: nat)
    requires |added| == |keys| && i < |added| && keys[i] == key
    ensures added[i] in FiledUnder(added, keys, key)
  {
    var n := |added| - 1;
    if i < n {
      FiledUnderMembers(added[..n], keys[..n], key, i);
    }
  }

  /** Orders whose lower-cased customer name contains `query`, in queue
      order. */
  function NameMatches(orders: seq<Order>, query: string): seq<Order>
    reads orders
  {
    if |orders| == 0 then []
    else
      var n := |orders| - 1;
      NameMatches(orders[..n], query)
      + (if Contains(Lower(orders[n].customerName), query) then [orders[n]] else [])
  }

  /** The search keeps exactly the matching orders. */
  lemma {:induction false} NameMatchesMembers(orders: seq<Order>, query: string, o: Order)
    ensures o in NameMatches(orders, query) <==> o in orders && Contains(Lower(o.customerName), query)
  {
    if |orders| > 0 {
      var n := |orders| - 1;
      NameMatchesMembers(orders[..n], query, o);
      assert orders == orders[..n] + [orders[n]];
    }
  }

  /** Orders whose stored meal type is `m`, in queue order. */
  function MealTypeMatches(orders: seq<Order>, m: MealType): seq<Order>
    reads orders
  {
    if |orders| == 0 then []
    else
      var n := |orders| - 1;
      MealTypeMatches(orders[..n], m) + (if orders[n].mealType == m then [orders[n]] else [])
  }

  /** The filter keeps exactly the orders of that meal type. */
  lemma {:induction false} MealTypeMatchesMembers(orders: seq<Order>, m: MealType, o: Order)
    ensures o in MealTypeMatches(orders, m) <==> o in orders && o.mealType == m
  {
    if |orders| > 0 {
      var n := |orders| - 1;
      MealTypeMatchesMembers(orders[..n], m, o);
      assert orders == orders[..n] + [orders[n]];
    }
  }

  /** The three meal-type filters split the queue: every order is found by
      exactly the filter of its own meal type, so together they find every
      order, and no order twice. */
  lemma {:induction false} MealTypeFiltersPartition(orders: seq<Order>)
    ensures |MealTypeMatches(orders, Meat)| + |MealTypeMatches(orders, Vegetarian)|
            + |MealTypeMatches(orders, Vegan)| == |orders|
  {
    if |orders| > 0 {
      MealTypeFiltersPartition(orders[..|orders| - 1]);
    }
  }

  class OrderManager {
    /** `orderQueue`: the orders waiting for delivery, oldest first. */
    var orderQueue: seq<Order>
    /** `customerHistory`: lower-cased customer name to that customer's orders. */
    var customerHistory: map<string, seq<Order>>

    /** Every order ever added, in the order `addOrder` received them. */
    ghost var added: seq<Order>
    /** The key each of those orders was filed under when it was added. */
    ghost var keys: seq<string>
    /** How many of them have been delivered. */
    ghost var deliveredCount: nat

    /** See `Ledger`. */
    ghost predicate Valid()
      reads this
    {
      Ledger(orderQueue, customerHistory, added, keys, deliveredCount)
    }

    /** `new OrderManager()` before anything is loaded from disk. */
    constructor ()
      ensures Valid()
      ensures orderQueue == [] && customerHistory == map[]
    {
      orderQueue := [];
      customerHistory := map[];
      added, keys, deliveredCount := [], [], 0;
    }

    /** `addOrder`: the order goes to the tail of the queue and to the end of
        the history list of its lower-cased customer name, which is created
        empty first if absent; no other history entry changes (`Filed`). */
    method AddOrder(order: Order)
      requires Valid()
      modifies this
      ensures Valid()
      ensures orderQueue == old(orderQueue) + [order]
      ensures customerHistory == Filed(old(customerHistory), Lower(order.customerName), order)
      ensures added == old(added) + [order] && keys == old(keys) + [Lower(order.customerName)]
      ensures deliveredCount == old(deliveredCount)
    {
      var key := Lower(order.customerName);
      var history := customerHistory;
      if key !in history {
        history := history[key := []];
      }
      history := history[key := history[key] + [order]];
      assert history == Filed(customerHistory, key, order);
      FilingKeepsLedger(orderQueue, customerHistory, added, keys, deliveredCount, order, key);
      orderQueue, customerHistory := orderQueue + [order], history;
      added, keys := added + [order], keys + [key];
    }

    /** `deliverOrder`: nothing changes on an empty queue; otherwise exactly
        the oldest order leaves the queue, and it is returned. The history is
        not touched. */
    method DeliverOrder() returns (delivered: Option<Order>)
      requires Valid()
      modifies this
      ensures Valid()
      ensures old(orderQueue) == [] ==> delivered == None && orderQueue == []
      ensures old(orderQueue) != [] ==>
        delivered == Some(old(orderQueue)[0]) && orderQueue == old(orderQueue)[1..]
      ensures customerHistory == old(customerHistory)
      ensures added == old(added) && keys == old(keys)
    {
      if orderQueue == [] {
        delivered := None;
        return;
      }
      delivered := Some(orderQueue[0]);
      orderQueue := orderQueue[1..];
      deliveredCount := deliveredCount + 1;
    }

    /** The "Finish adding items" step of `createOrder` and
        `createQuickOrder`: an order with no items is refused and the ledger
        is untouched; otherwise it is added. */
    method SubmitOrder(order: Order) returns (submitted: bool)
      requires Valid()
      modifies this
      ensures Valid()
      ensures submitted <==> |order.foodItems| > 0
      ensures !submitted ==> orderQueue == old(orderQueue) && customerHistory == old(customerHistory)
      ensures submitted ==> orderQueue == old(orderQueue) + [order]
      ensures submitted ==> added == old(added) + [order] && keys == old(keys) + [Lower(order.customerName)]
    {
      if |order.foodItems| == 0 {
        submitted := false;
        return;
      }
      AddOrder(order);
      submitted := true;
    }

    /** `searchOrdersByCustomer`: the queued orders whose lower-cased name
        contains the lower-cased query, in queue order. */
    method SearchByCustomer(query: string) returns (found: seq<Order>)
      ensures found == NameMatches(orderQueue, Lower(query))
    {
      var searchName := Lower(query);
      found := [];
      for i := 0 to |orderQueue|
        invariant found == NameMatches(orderQueue[..i], searchName)
      {
        var order := orderQueue[i];
        assert orderQueue[..i + 1][..i] == orderQueue[..i];
        if Contains(Lower(order.customerName), searchName) {
          found := found + [order];
        }
      }
      assert orderQueue[..|orderQueue|] == orderQueue;
    }

    /** `filterOrdersByMealType`: the queued orders whose stored meal type is
        the selected one, in queue order. */
    method FilterByMealType(selected: MealType) returns (found: seq<Order>)
      ensures found == MealTypeMatches(orderQueue, selected)
    {
      found := [];
      for i := 0 to |orderQueue|
        invariant found == MealTypeMatches(orderQueue[..i], selected)
      {
        var order := orderQueue[i];
        assert orderQueue[..i + 1][..i] == orderQueue[..i];
        if order.mealType == selected {
          found := found + [order];
        }
      }
      assert orderQueue[..|orderQueue|] == orderQueue;
    }

    /** `viewCustomerHistory`: the orders filed under the lower-cased name;
        `None` means "no history found". Every order ever added under that
        key is there, in arrival order, whether or not it was delivered. */
    function HistoryFor(name: string): (h: Option<seq<Order>>)
      reads this
      ensures Valid() ==> (h.Some? <==> Lower(name) in keys)
      ensures Valid() && h.Some? ==> h.value == FiledUnder(added, keys, Lower(name))
    {
      var key := Lower(name);
      if key in customerHistory then Some(customerHistory[key]) else None
    }

    /** Delivered or not, every order ever added stays in the history under
        the key it was filed with. */
    lemma HistoryKeepsEveryOrder(i: nat)
      requires Valid() && i < |added|
      ensures keys[i] in customerHistory
      ensures added[i] in customerHistory[keys[i]]
    {
      FiledUnderMembers(added, keys, keys[i], i);
    }

    /** Every order in the queue is in the history of its filing key. */
    lemma QueuedOrdersInHistory(j: nat)
      requires Valid() && j < |orderQueue|
      ensures keys[deliveredCount + j] in customerHistory
      ensures orderQueue[j] in customerHistory[keys[deliveredCount + j]]
    {
      HistoryKeepsEveryOrder(deliveredCount + j);
    }
  }
}
