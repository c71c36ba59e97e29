/** The order processor of the test-organisation tutorial: orders start pending, and
    processing a non-empty order records its total and completes it. Prices are whole cents. */
module OrderProcessor {
  import opened Wrappers

  datatype OrderStatus = Pending | Processing | Completed | Failed

  datatype OrderItem = OrderItem(productId: string, quantity: int, price: int)

  const EmptyOrder := ValueError("Order must contain items")

  /** `sum(item.quantity * item.price for item in items)`. */
  function ItemsTotal(items: seq<OrderItem>): int
  {
    if items == [] then 0 else items[0].quantity * items[0].price + ItemsTotal(items[1..])
  }

  /** What `validate_order` checks: both ids non-empty, at least one item, and every item
      with a positive quantity and a price that is not negative. */
  predicate ValidOrder(orderId: string, customerId: string, items: seq<OrderItem>)
  {
    |orderId| > 0 && |customerId| > 0 && |items| > 0 &&
    forall i :: 0 <= i < |items| ==> items[i].quantity > 0 && items[i].price >= 0
  }

  /** The total of items with positive quantities and prices that are not negative is not negative. */
  lemma {:induction false} ValidTotalNonNegative(items: seq<OrderItem>)
    requires forall i :: 0 <= i < |items| ==> items[i].quantity > 0 && items[i].price >= 0
    ensures ItemsTotal(items) >= 0
  {
    if items != [] {
      ValidTotalNonNegative(items[1..]);
    }
  }

  class Order {
    var orderId: string
    var customerId: string
    var items: seq<OrderItem>
    var status: OrderStatus
    var total: Option<int>

    /** A new order is pending and has no total yet. */
    constructor (orderId: string, customerId: string, items: seq<OrderItem>)
      ensures this.orderId == orderId && this.customerId == customerId && this.items == items
      ensures status == Pending && total == None
    {
      this.orderId := orderId;
      this.customerId := customerId;
      this.items := items;
      status := Pending;
      total := None;
    }
  }

  /** The order is processed: it holds its items' total and is completed. */
  ghost predicate Processed(order: Order)
    reads order
  {
    order.total == Some(ItemsTotal(order.items)) && order.status == Completed
  }

  /** Order `k` is the first without items (as the orders were on entry); the orders before
      it ended processed and every order not among them was left as it was. */
  twostate predicate FirstEmpty(orders: seq<Order>, k: int)
    reads set o | o in orders
  {
    0 <= k < |orders| && old(orders[k].items) == [] &&
    (forall i :: 0 <= i < k ==> old(orders[i].items) != [] && Processed(orders[i])) &&
    (forall o :: o in orders && o !in orders[..k] ==> o.status == old(o.status) && o.total == old(o.total))
  }

  class Processor {
    const dbUrl: string
    /** The operating system's name (`platform.system()`), supplied by the caller. */
    const platform: string

    constructor (dbUrl: string, platform: string)
      ensures this.dbUrl == dbUrl && this.platform == platform
    {
      this.dbUrl := dbUrl;
      this.platform := platform;
    }

    /** `process_order`: raises on an order without items, leaving it untouched; otherwise
        sets the total, passes through PROCESSING to COMPLETED and returns true. */
    method ProcessOrder(order: Order) returns (outcome: Outcome)
      modifies order
      ensures order.orderId == old(order.orderId) && order.customerId == old(order.customerId)
      ensures order.items == old(order.items)
      ensures outcome == if order.items == [] then Raised(EmptyOrder) else Done
      ensures order.items == [] ==> order.status == old(order.status) && order.total == old(order.total)
      ensures order.items != [] ==> Processed(order)
    {
      if order.items == [] {
        return Raised(EmptyOrder);
      }
      order.total := Some(ItemsTotal(order.items));
      order.status := Processing;
      order.status := Completed;
      outcome := Done;
    }

    /** `bulk_process`: processes the orders left to right. Every order of a list without an
        empty order ends processed; otherwise the first empty order raises, after the orders
        before it were processed and before any order after it is touched. */
    method BulkProcess(orders: seq<Order>) returns (results: seq<bool>, outcome: Outcome)
      modifies set o | o in orders
      ensures outcome.Done? <==> forall i :: 0 <= i < |orders| ==> old(orders[i].items) != []
      ensures outcome.Done? ==> |results| == |orders| && forall i :: 0 <= i < |results| ==> results[i]
      ensures outcome.Done? ==> forall i :: 0 <= i < |orders| ==> Processed(orders[i])
      ensures outcome.Raised? ==> outcome == Raised(EmptyOrder) && exists k :: FirstEmpty(orders, k)
      ensures forall o :: o in orders ==> o.items == old(o.items)
    {
      results := [];
      for n := 0 to |orders|
        invariant |results| == n && forall i :: 0 <= i < n ==> results[i]
        invariant forall o :: o in orders ==> o.items == old(o.items)
        invariant forall i :: 0 <= i < n ==> old(orders[i].items) != [] && Processed(orders[i])
        invariant forall o :: o in orders && o !in orders[..n] ==>
                    o.status == old(o.status) && o.total == old(o.total)
      {
        var order := orders[n];
        var step := ProcessOrder(order);
        if step.Raised? {
          assert FirstEmpty(orders, n);
          return results, step;
        }
        assert orders[..n + 1] == orders[..n] + [order];
        results := results + [true];
      }
      outcome := Done;
    }

    /** `validate_order`: the ids, then the item list, then each item in turn, returning
        false at the first failure. */
    method ValidateOrder(order: Order) returns (valid: bool)
      ensures valid == ValidOrder(order.orderId, order.customerId, order.items)
    {
      if order.orderId == "" || order.customerId == "" {
        return false;
      }
      if order.items == [] {
        return false;
      }
      for i := 0 to |order.items|
        invariant forall k :: 0 <= k < i ==> order.items[k].quantity > 0 && order.items[k].price >= 0
      {
        var item := order.items[i];
        if item.quantity <= 0 || item.price < 0 {
          return false;
        }
      }
      valid := true;
    }
  }

  /** Two items at 10.00 and one at 20.00 make a valid order totalling 40.00; the five
      malformed orders of the test suite are rejected. */
  lemma OrderExamples()
    ensures var items := [OrderItem("prod1", 2, 1000), OrderItem("prod2", 1, 2000)];
      ValidOrder("123", "456", items) && ItemsTotal(items) == 4000
    ensures !ValidOrder("", "c1", [OrderItem("p1", 1, 1000)])
    ensures !ValidOrder("o1", "", [OrderItem("p1", 1, 1000)])
    ensures !ValidOrder("o1", "c1", [])
    ensures !ValidOrder("o1", "c1", [OrderItem("p1", 0, 1000)])
    ensures !ValidOrder("o1", "c1", [OrderItem("p1", 1, -100)])
  {
    var items := [OrderItem("prod1", 2, 1000), OrderItem("prod2", 1, 2000)];
    assert items[1..][1..] == [];
    assert [OrderItem("p1", 0, 1000)][0].quantity == 0;
    assert [OrderItem("p1", 1, -100)][0].price == -100;
  }
}
