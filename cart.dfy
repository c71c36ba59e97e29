/** The shopping cart of the behaviour-driven tutorial: one line per product id, kept in
    the order the ids were first added, each with a positive quantity. Prices are whole
    cents, so totals are exact. */
module ShoppingCart {
  import opened Wrappers

  datatype Product = Product(id: string, name: string, price: int)

  datatype CartItem = CartItem(product: Product, quantity: int)
  {
    /** `CartItem.total`: price times quantity; nothing for no units, and never negative
        for a price and quantity that are not. */
    function Total(): (r: int)
      ensures quantity == 0 ==> r == 0
      ensures product.price >= 0 && quantity >= 0 ==> r >= 0
      ensures product.price > 0 && quantity > 0 ==> r >= product.price
    {
      product.price * quantity
    }
  }

  const NonPositive := ValueError("Quantity must be positive")

  /** No product id appears on two lines. */
  predicate DistinctIds(items: seq<CartItem>)
  {
    forall i, j :: 0 <= i < j < |items| ==> items[i].product.id != items[j].product.id
  }

  /** Every line has a positive quantity. */
  predicate Positive(items: seq<CartItem>)
  {
    forall i :: 0 <= i < |items| ==> items[i].quantity > 0
  }

  /** The product ids on the lines. */
  function Ids(items: seq<CartItem>): set<string>
  {
    set i | 0 <= i < |items| :: items[i].product.id
  }

  /** The position of the line for `id`, if there is one. */
  function Find(items: seq<CartItem>, id: string): (r: Option<nat>)
    ensures r.None? <==> id !in Ids(items)
    ensures r.Some? ==> r.value < |items| && items[r.value].product.id == id
  {
    if items == [] then None
    else if items[0].product.id == id then Some(0)
    else match Find(items[1..], id)
      case None => None
      case Some(i) => Some(i + 1)
  }

  /** The lines without line `i`, in the same order. */
  function RemoveAt(items: seq<CartItem>, i: nat): seq<CartItem>
    requires i < |items|
  {
    items[..i] + items[i + 1..]
  }

  /** `sum(item.total for item in items)`. */
  function CartTotal(items: seq<CartItem>): int
  {
    if items == [] then 0 else items[0].Total() + CartTotal(items[1..])
  }

  /** No line with a negative price: then no line total and no cart total is negative. */
  predicate Priced(items: seq<CartItem>)
  {
    forall i :: 0 <= i < |items| ==> items[i].product.price >= 0
  }

  /** A cart of positive quantities and non-negative prices has a non-negative total, at
      least as large as any one of its line totals. */
  lemma {:induction false} TotalBounds(items: seq<CartItem>)
    requires Positive(items) && Priced(items)
    ensures CartTotal(items) >= 0
    ensures forall i :: 0 <= i < |items| ==> CartTotal(items) >= items[i].Total()
  {
    if items != [] {
      TotalBounds(items[1..]);
      assert forall i :: 1 <= i < |items| ==> items[i] == items[1..][i - 1];
    }
  }

  /** The total of a cart grown by one line grows by that line's total. */
  lemma {:induction false} TotalAppend(items: seq<CartItem>, item: CartItem)
    ensures CartTotal(items + [item]) == CartTotal(items) + item.Total()
  {
    if items != [] {
      assert (items + [item])[1..] == items[1..] + [item];
      TotalAppend(items[1..], item);
    }
  }

  /** Replacing one line changes the total by the difference of the two line totals. */
  lemma {:induction false} TotalReplace(items: seq<CartItem>, i: nat, item: CartItem)
    requires i < |items|
    ensures CartTotal(items[i := item]) == CartTotal(items) - items[i].Total() + item.Total()
  {
    if i > 0 {
      assert items[i := item][1..] == items[1..][i - 1 := item];
      TotalReplace(items[1..], i - 1, item);
    }
  }

  /** Dropping one line lowers the total by that line's total. */
  lemma {:induction false} TotalRemove(items: seq<CartItem>, i: nat)
    requires i < |items|
    ensures CartTotal(RemoveAt(items, i)) == CartTotal(items) - items[i].Total()
  {
    if i == 0 {
      assert RemoveAt(items, i) == items[1..];
    } else {
      assert RemoveAt(items, i)[1..] == RemoveAt(items[1..], i - 1);
      TotalRemove(items[1..], i - 1);
    }
  }

  /** With distinct ids there are exactly as many lines as ids: `len(items)` counts products. */
  lemma {:induction false} DistinctCount(items: seq<CartItem>)
    requires DistinctIds(items)
    ensures |Ids(items)| == |items|
  {
    if items != [] {
      var rest := items[1..];
      DistinctCount(rest);
      assert Ids(items) == {items[0].product.id} + Ids(rest) by {
        forall x | x in Ids(items) ensures x in {items[0].product.id} + Ids(rest) {
          var i :| 0 <= i < |items| && x == items[i].product.id;
          if i > 0 {
            assert x == rest[i - 1].product.id;
          }
        }
        forall x | x in Ids(rest) ensures x in Ids(items) {
          var i :| 0 <= i < |rest| && x == rest[i].product.id;
          assert x == items[i + 1].product.id;
        }
      }
      assert items[0].product.id !in Ids(rest);
    }
  }

  /** Removing the line at `i` removes exactly its id and keeps the cart well formed. */
  lemma RemoveAtKeeps(items: seq<CartItem>, i: nat)
    requires i < |items| && DistinctIds(items) && Positive(items)
    ensures DistinctIds(RemoveAt(items, i)) && Positive(RemoveAt(items, i))
    ensures Ids(RemoveAt(items, i)) == Ids(items) - {items[i].product.id}
  {
    var r := RemoveAt(items, i);
    assert forall k :: 0 <= k < |r| ==> r[k] == if k < i then items[k] else items[k + 1];
    forall x | x in Ids(items) - {items[i].product.id} ensures x in Ids(r) {
      var k :| 0 <= k < |items| && x == items[k].product.id;
      assert x == r[if k < i then k else k - 1].product.id;
    }
  }

  /** With distinct ids, the line found for an id is the only line carrying it. */
  lemma {:induction false} FindUnique(items: seq<CartItem>, i: nat)
    requires DistinctIds(items) && i < |items|
    ensures Find(items, items[i].product.id) == Some(i)
  {
    if i > 0 {
      assert items[1..][i - 1] == items[i];
      FindUnique(items[1..], i - 1);
    }
  }

  /** Replacing a line by one for the same product keeps the ids and their positions. */
  lemma ReplaceKeeps(items: seq<CartItem>, i: nat, item: CartItem)
    requires i < |items| && DistinctIds(items) && item.product.id == items[i].product.id
    ensures DistinctIds(items[i := item])
    ensures Ids(items[i := item]) == Ids(items)
  {
    var r := items[i := item];
    assert forall k :: 0 <= k < |r| ==> r[k].product.id == items[k].product.id;
  }

  /** Appending a line for a new product adds its id and keeps the ids distinct. */
  lemma AppendKeeps(items: seq<CartItem>, item: CartItem)
    requires DistinctIds(items) && item.product.id !in Ids(items)
    ensures DistinctIds(items + [item])
    ensures Ids(items + [item]) == Ids(items) + {item.product.id}
  {
    var r := items + [item];
    assert forall k :: 0 <= k < |items| ==> r[k] == items[k];
    assert r[|items|] == item;
  }

  /** Raising the quantity of line `i`. */
  lemma AddToLine(items: seq<CartItem>, i: nat, quantity: int)
    requires DistinctIds(items) && Positive(items) && quantity > 0 && i < |items|
    ensures var r := items[i := items[i].(quantity := items[i].quantity + quantity)];
      DistinctIds(r) && Positive(r) && Ids(r) == Ids(items) && Find(r, items[i].product.id) == Some(i) &&
      CartTotal(r) == CartTotal(items) + items[i].product.price * quantity
  {
    var added := items[i].(quantity := items[i].quantity + quantity);
    var price := items[i].product.price;
    assert added.Total() == items[i].Total() + price * quantity by {
      assert price * (items[i].quantity + quantity) == price * items[i].quantity + price * quantity;
    }
    TotalReplace(items, i, added);
    ReplaceKeeps(items, i, added);
    FindUnique(items[i := added], i);
  }

  /** Setting the quantity of line `i`. */
  lemma SetLine(items: seq<CartItem>, i: nat, quantity: int)
    requires DistinctIds(items) && Positive(items) && quantity > 0 && i < |items|
    ensures var r := items[i := items[i].(quantity := quantity)];
      DistinctIds(r) && Positive(r) && Ids(r) == Ids(items) &&
      CartTotal(r) == CartTotal(items) + items[i].product.price * (quantity - items[i].quantity)
  {
    var updated := items[i].(quantity := quantity);
    TotalReplace(items, i, updated);
    ReplaceKeeps(items, i, updated);
  }

  /** Appending a line for a new product. */
  lemma AppendLine(items: seq<CartItem>, item: CartItem)
    requires DistinctIds(items) && Positive(items) && item.quantity > 0 && item.product.id !in Ids(items)
    ensures var r := items + [item];
      DistinctIds(r) && Positive(r) && Ids(r) == Ids(items) + {item.product.id} &&
      Find(r, item.product.id) == Some(|items|) && CartTotal(r) == CartTotal(items) + item.Total()
  {
    TotalAppend(items, item);
    AppendKeeps(items, item);
    FindUnique(items + [item], |items|);
  }

  /** The lines after `add_item(product, quantity)`: an existing line for the id gains the
      quantity and keeps its product; otherwise a new line goes at the end. */
  function Added(items: seq<CartItem>, product: Product, quantity: int): seq<CartItem>
  {
    match Find(items, product.id)
    case Some(i) => items[i := items[i].(quantity := items[i].quantity + quantity)]
    case None => items + [CartItem(product, quantity)]
  }

  /** The lines after `remove_item(id)`: the line for `id` is dropped if there is one. */
  function Removed(items: seq<CartItem>, id: string): seq<CartItem>
  {
    match Find(items, id)
    case Some(i) => RemoveAt(items, i)
    case None => items
  }

  /** The lines after setting the quantity of an existing line for `id`. */
  function Requantified(items: seq<CartItem>, id: string, quantity: int): seq<CartItem>
  {
    match Find(items, id)
    case Some(i) => items[i := items[i].(quantity := quantity)]
    case None => items
  }

  /** Adding a positive quantity keeps the cart well formed, leaves the product's id in it,
      and raises the total by the stored line's price (the first product added with that id)
      times the quantity added. */
  lemma AddedKeeps(items: seq<CartItem>, product: Product, quantity: int)
    requires DistinctIds(items) && Positive(items) && quantity > 0
    ensures var r := Added(items, product, quantity);
      DistinctIds(r) && Positive(r) && Ids(r) == Ids(items) + {product.id}
    ensures var r := Added(items, product, quantity);
      Find(r, product.id).Some? &&
      r[Find(r, product.id).value].quantity ==
        quantity + (if Find(items, product.id).Some? then items[Find(items, product.id).value].quantity else 0) &&
      CartTotal(r) == CartTotal(items) + r[Find(r, product.id).value].product.price * quantity
    ensures var r := Added(items, product, quantity);
      r[Find(r, product.id).value].product ==
        if Find(items, product.id).Some? then items[Find(items, product.id).value].product else product
  {
    match Find(items, product.id)
    case Some(i) =>
      AddToLine(items, i, quantity);
    case None =>
      AppendLine(items, CartItem(product, quantity));
  }

  /** Removing keeps the cart well formed, drops exactly the id, and lowers the total by the
      removed line's total (by nothing when there was no line). */
  lemma RemovedKeeps(items: seq<CartItem>, id: string)
    requires DistinctIds(items) && Positive(items)
    ensures var r := Removed(items, id);
      DistinctIds(r) && Positive(r) && Ids(r) == Ids(items) - {id}
    ensures CartTotal(Removed(items, id)) ==
      CartTotal(items) - if Find(items, id).Some? then items[Find(items, id).value].Total() else 0
  {
    match Find(items, id)
    case Some(i) =>
      TotalRemove(items, i);
      RemoveAtKeeps(items, i);
    case None =>
  }

  /** Setting a positive quantity keeps the cart well formed and its ids, and changes the
      total by the line's price times the change in quantity. */
  lemma RequantifiedKeeps(items: seq<CartItem>, id: string, quantity: int)
    requires DistinctIds(items) && Positive(items) && quantity > 0
    ensures var r := Requantified(items, id, quantity);
      DistinctIds(r) && Positive(r) && Ids(r) == Ids(items)
    ensures CartTotal(Requantified(items, id, quantity)) ==
      CartTotal(items) +
        if Find(items, id).Some?
        then items[Find(items, id).value].product.price * (quantity - items[Find(items, id).value].quantity)
        else 0
  {
    match Find(items, id)
    case Some(i) =>
      SetLine(items, i, quantity);
    case None =>
  }

  /** Two of a 10.00 product and one of a 20.00 product: two lines totalling 40.00; adding
      the first product again with a different price still charges the stored 10.00. */
  lemma CartExample()
    ensures var p1 := Product("PROD1", "Test Product 1", 1000);
      var p2 := Product("PROD2", "Test Product 2", 2000);
      var cart := Added(Added([], p1, 2), p2, 1);
      |cart| == 2 && CartTotal(cart) == 4000 &&
      CartTotal(Added(cart, p1.(price := 9999), 1)) == 5000
  {
    var p1 := Product("PROD1", "Test Product 1", 1000);
    var p2 := Product("PROD2", "Test Product 2", 2000);
    var one := Added([], p1, 2);
    assert one == [CartItem(p1, 2)];
    var cart := Added(one, p2, 1);
    assert Find(one, p2.id) == None;
    assert cart == [CartItem(p1, 2), CartItem(p2, 1)];
    assert Find(cart, p1.id) == Some(0);
    assert Added(cart, p1.(price := 9999), 1) == [CartItem(p1, 3), CartItem(p2, 1)];
  }

  class Cart {
    /** The lines of `_items`, in insertion order of their ids. */
    var entries: seq<CartItem>

    ghost predicate Valid()
      reads this
    {
      DistinctIds(entries) && Positive(entries)
    }

    constructor ()
      ensures Valid() && entries == []
    {
      entries := [];
    }

    /** `get_item`: the line for `id`, if any. */
    function GetItem(id: string): (r: Option<CartItem>)
      reads this
      ensures r.Some? <==> id in Ids(entries)
      ensures r.Some? ==> r.value in entries && r.value.product.id == id
    {
      match Find(entries, id)
      case None => None
      case Some(i) => Some(entries[i])
    }

    /** `items`: every line, each the one `get_item` finds for its id, one per distinct id. */
    function Items(): (r: seq<CartItem>)
      requires Valid()
      reads this
      ensures |r| == |Ids(entries)|
      ensures DistinctIds(r) && Ids(r) == Ids(entries)
      ensures forall k :: 0 <= k < |r| ==> GetItem(r[k].product.id) == Some(r[k])
    {
      DistinctCount(entries);
      entries
    }

    /** `total`: the sum of the line totals. Never negative when no price is, and at
        least the total of any one line. */
    function Total(): (r: int)
      reads this
      ensures entries == [] ==> r == 0
      ensures Positive(entries) && Priced(entries) ==>
        r >= 0 && forall i :: 0 <= i < |entries| ==> r >= entries[i].Total()
    {
      if Positive(entries) && Priced(entries) then
        TotalBounds(entries);
        CartTotal(entries)
      else
        CartTotal(entries)
    }

    /** `is_empty`: no line, that is, no product id. */
    function IsEmpty(): (r: bool)
      reads this
      ensures r <==> |entries| == 0
      ensures r <==> Ids(entries) == {}
    {
      assert |entries| > 0 ==> entries[0].product.id in Ids(entries);
      |entries| == 0
    }

    /** `add_item`: raises for a non-positive quantity and leaves the cart alone. */
    method AddItem(product: Product, quantity: int) returns (outcome: Outcome)
      requires Valid()
      modifies this
      ensures Valid()
      ensures outcome == if quantity <= 0 then Raised(NonPositive) else Done
      ensures entries == if quantity <= 0 then old(entries) else Added(old(entries), product, quantity)
    {
      if quantity <= 0 {
        return Raised(NonPositive);
      }
      AddedKeeps(entries, product, quantity);
      match Find(entries, product.id) {
        case Some(i) =>
          entries := entries[i := entries[i].(quantity := entries[i].quantity + quantity)];
        case None =>
          entries := entries + [CartItem(product, quantity)];
      }
      outcome := Done;
    }

    /** `remove_item`: no error when the id is absent. */
    method RemoveItem(id: string)
      requires Valid()
      modifies this
      ensures Valid()
      ensures entries == Removed(old(entries), id)
    {
      RemovedKeeps(entries, id);
      match Find(entries, id)
      case Some(i) =>
        entries := RemoveAt(entries, i);
      case None =>
    }

    /** `update_quantity`: a non-positive quantity removes the line; a positive one replaces
        the quantity of an existing line and is ignored for an absent id. */
    method UpdateQuantity(id: string, quantity: int)
      requires Valid()
      modifies this
      ensures Valid()
      ensures entries == if quantity <= 0 then Removed(old(entries), id) else Requantified(old(entries), id, quantity)
    {
      if quantity <= 0 {
        RemoveItem(id);
        return;
      }
      RequantifiedKeeps(entries, id, quantity);
      match Find(entries, id)
      case Some(i) =>
        entries := entries[i := entries[i].(quantity := quantity)];
      case None =>
    }

    /** `clear`: no lines are left. */
    method Clear()
      modifies this
      ensures Valid() && entries == []
      ensures IsEmpty() && Total() == 0
    {
      entries := [];
    }
  }
}
