/**
 * The till: the cart being built, its subtotal and total, the checks before an
 * order is placed, the order handed to the order book, and the reset afterwards.
 * The till's component state is a record that each handler replaces with a new one.
 */
module Pos {
  import opened Wrappers
  import opened Domain
  import opened Seqs
  import Orders

  /** JavaScript truthiness of an optional number: present and not 0. */
  predicate Truthy(n: Option<int>)
  {
    n.Some? && n.value != 0
  }

  /** `x || undefined`. */
  function OrUndefined(n: Option<int>): (r: Option<int>)
    ensures r.Some? <==> Truthy(n)
    ensures r.Some? ==> r == n
  {
    if Truthy(n) then n else None
  }

  /** No two cart lines hold the same menu item. */
  predicate UniqueIds(cart: seq<OrderLine>)
  {
    forall i, j :: 0 <= i < j < |cart| ==> cart[i].item.id != cart[j].item.id
  }

  /** Every line of the cart has a positive quantity. */
  predicate PositiveQuantities(cart: seq<OrderLine>)
  {
    forall i :: 0 <= i < |cart| ==> cart[i].quantity >= 1
  }

  function LineTotal(l: OrderLine): int
  {
    l.item.price * l.quantity
  }

  /** `Σ price × quantity` over the cart. */
  function Subtotal(cart: seq<OrderLine>): int
  {
    SumOf(cart, LineTotal)
  }

  /** `parseFloat(discount) || 0`: an empty or unreadable discount field counts as 0. */
  function DiscountValue(field: Option<int>): int
  {
    field.GetOr(0)
  }

  /** `max(0, subtotal − discount)`. */
  function Total(subtotal: int, discount: int): (t: int)
    ensures t >= 0 && t >= subtotal - discount
    ensures t == 0 || t == subtotal - discount
  {
    if subtotal - discount > 0 then subtotal - discount else 0
  }

  /**
   * Adding a menu item: a line already holding that item gains one unit, otherwise
   * a new line with quantity 1 is appended.
   */
  function AddToCart(cart: seq<OrderLine>, item: MenuItem): (r: seq<OrderLine>)
    ensures FindIndex(cart, (l: OrderLine) => l.item.id == item.id).Some? ==>
      |r| == |cart| &&
      forall i :: 0 <= i < |cart| ==>
        r[i] == if cart[i].item.id == item.id then cart[i].(quantity := cart[i].quantity + 1) else cart[i]
    ensures FindIndex(cart, (l: OrderLine) => l.item.id == item.id).None? ==>
      r == cart + [OrderLine(item, 1)]
    ensures UniqueIds(cart) ==> UniqueIds(r)
    ensures PositiveQuantities(cart) ==> PositiveQuantities(r)
  {
    var here := (l: OrderLine) => l.item.id == item.id;
    if FindIndex(cart, here).Some? then
      MapWhere(cart, here, (l: OrderLine) => l.(quantity := l.quantity + 1))
    else
      var r := cart + [OrderLine(item, 1)];
      assert forall i :: 0 <= i < |cart| ==> r[i] == cart[i];
      r
  }

  /**
   * Setting a line's quantity: zero or less removes the line, anything else sets the
   * quantity of that line only.
   */
  function UpdateQuantity(cart: seq<OrderLine>, id: int, q: int): (r: seq<OrderLine>)
    ensures q <= 0 ==>
      IsSubsequence(r, cart) &&
      forall l :: l in r <==> l in cart && l.item.id != id
    ensures q > 0 ==>
      |r| == |cart| &&
      forall i :: 0 <= i < |cart| ==>
        r[i] == if cart[i].item.id == id then cart[i].(quantity := q) else cart[i]
    ensures UniqueIds(cart) ==> UniqueIds(r)
    ensures PositiveQuantities(cart) ==> PositiveQuantities(r)
  {
    if q <= 0 then
      var keep := (l: OrderLine) => l.item.id != id;
      FilterKeepsUniqueIds(cart, keep);
      Filter(cart, keep)
    else MapWhere(cart, (l: OrderLine) => l.item.id == id, (l: OrderLine) => l.(quantity := q))
  }

  /** Dropping lines from a cart whose ids are unique leaves them unique. */
  lemma {:induction false} FilterKeepsUniqueIds(cart: seq<OrderLine>, p: OrderLine -> bool)
    ensures UniqueIds(cart) ==> UniqueIds(Filter(cart, p))
  {
    if cart != [] && UniqueIds(cart) {
      var rest := Filter(cart[1..], p);
      FilterKeepsUniqueIds(cart[1..], p);
      forall j | 0 <= j < |rest|
        ensures rest[j].item.id != cart[0].item.id
      {
        assert rest[j] in cart[1..];
        var i :| 0 <= i < |cart[1..]| && cart[1..][i] == rest[j];
        assert cart[i + 1] == rest[j];
      }
    }
  }

  /** The new price of a line, as the price editor sets it. */
  function WithLinePrice(cart: seq<OrderLine>, id: int, price: int): (r: seq<OrderLine>)
    ensures |r| == |cart|
    ensures forall i :: 0 <= i < |cart| ==>
      r[i] == if cart[i].item.id == id then cart[i].(item := cart[i].item.(price := price)) else cart[i]
  {
    MapWhere(cart, (l: OrderLine) => l.item.id == id,
             (l: OrderLine) => l.(item := l.item.(price := price)))
  }

  /** The till's component state. Number fields hold their parsed value; `None` is an empty field. */
  datatype PosState = PosState(
    cart: seq<OrderLine>,
    orderType: OrderType,
    tableNumber: Option<int>,
    customerId: Option<int>,
    driverId: Option<int>,
    discount: Option<int>,
    editingItem: Option<OrderLine>,
    orderToPrint: Option<Order>)

  const InitialPos := PosState([], DineIn, None, None, None, None, None, None)

  /** The table-number input keeps `parseInt(value) || ''`: 0 and an unreadable entry clear it. */
  function TableInput(parsed: Option<int>): (r: Option<int>)
    ensures r.Some? <==> Truthy(parsed)
    ensures r.Some? ==> r == parsed
  {
    OrUndefined(parsed)
  }

  /** What pressing "place order" leads to. */
  datatype Checkout = EmptyCart | NeedTable | NeedCustomer | Place(draft: Orders.OrderDraft)

  /**
   * The checks before placing, in the order the till makes them, and the order it
   * then hands on.
   */
  function CheckoutOf(st: PosState, user: User): (c: Checkout)
    ensures c == EmptyCart <==> st.cart == []
    ensures c == NeedTable <==> st.cart != [] && st.orderType == DineIn && !Truthy(st.tableNumber)
    ensures c == NeedCustomer <==> st.cart != [] && st.orderType == Delivery && !Truthy(st.customerId)
    ensures c.Place? ==>
      c.draft.items == st.cart && c.draft.orderType == st.orderType &&
      c.draft.salespersonId == Some(user.id) &&
      c.draft.discount == DiscountValue(st.discount) &&
      c.draft.totalAmount == Total(Subtotal(st.cart), DiscountValue(st.discount))
    ensures c.Place? && st.orderType == DineIn ==>
      c.draft.tableNumber == st.tableNumber && c.draft.customerId.None? && c.draft.driverId.None?
    ensures c.Place? && st.orderType == Delivery ==>
      c.draft.tableNumber.None? && c.draft.customerId == st.customerId &&
      c.draft.driverId == OrUndefined(st.driverId)
  {
    if st.cart == [] then EmptyCart
    else if st.orderType == DineIn && !Truthy(st.tableNumber) then NeedTable
    else if st.orderType == Delivery && !Truthy(st.customerId) then NeedCustomer
    else
      var d := DiscountValue(st.discount);
      Place(Orders.OrderDraft(
        st.cart,
        st.orderType,
        if st.orderType == DineIn then OrUndefined(st.tableNumber) else None,
        if st.orderType == Delivery then OrUndefined(st.customerId) else None,
        if st.orderType == Delivery then OrUndefined(st.driverId) else None,
        Some(user.id),
        d,
        Total(Subtotal(st.cart), d)))
  }

  /**
   * After the order book has accepted the order: it is staged for the receipt, and
   * the cart, table, customer, driver and discount are cleared. The order type stays.
   */
  function AfterPlaced(st: PosState, placed: Order): (r: PosState)
    ensures r.cart == [] && r.tableNumber.None? && r.customerId.None? && r.driverId.None? && r.discount.None?
    ensures r.orderToPrint == Some(placed)
    ensures r.orderType == st.orderType && r.editingItem == st.editingItem
  {
    st.(cart := [], tableNumber := None, customerId := None, driverId := None,
        discount := None, orderToPrint := Some(placed))
  }

  /**
   * Saving an edited price: the cart line takes it, the editor closes, and the same
   * id and price are passed on to the menu.
   */
  function SavePrice(st: PosState, id: int, price: int): (r: (PosState, (int, int)))
    ensures r.0.cart == WithLinePrice(st.cart, id, price)
    ensures r.0.editingItem.None?
    ensures r.0 == st.(cart := r.0.cart, editingItem := None)
    ensures r.1 == (id, price)
  {
    (st.(cart := WithLinePrice(st.cart, id, price), editingItem := None), (id, price))
  }

  // Properties

  /** With a non-negative discount the total never exceeds the subtotal. */
  lemma TotalBounds(subtotal: int, discount: int)
    requires discount >= 0 && subtotal >= 0
    ensures 0 <= Total(subtotal, discount) <= subtotal
  {
  }

  /** The discount is not clamped: a negative one raises the total above the subtotal. */
  lemma NegativeDiscountRaisesTotal(subtotal: int, discount: int)
    requires discount < 0 && subtotal >= 0
    ensures Total(subtotal, discount) == subtotal - discount > subtotal
  {
  }

  /** A cart with non-negative prices and positive quantities has a non-negative subtotal. */
  lemma {:induction false} SubtotalNonNegative(cart: seq<OrderLine>)
    requires forall i :: 0 <= i < |cart| ==> cart[i].item.price >= 0 && cart[i].quantity >= 0
    ensures Subtotal(cart) >= 0
  {
    if cart != [] {
      SubtotalNonNegative(cart[..|cart| - 1]);
    }
  }

  /**
   * Adding an item raises the subtotal by one unit of it: at the cart line's own
   * price when the item is already there, at the menu price otherwise.
   */
  lemma AddToCartSubtotal(cart: seq<OrderLine>, item: MenuItem)
    requires UniqueIds(cart)
    ensures var k := FindIndex(cart, (l: OrderLine) => l.item.id == item.id);
      Subtotal(AddToCart(cart, item)) ==
        Subtotal(cart) + (if k.Some? then cart[k.value].item.price else item.price)
  {
    var k := FindIndex(cart, (l: OrderLine) => l.item.id == item.id);
    var r := AddToCart(cart, item);
    if k.Some? {
      var l := cart[k.value];
      assert r[k.value] == l.(quantity := l.quantity + 1);
      assert LineTotal(r[k.value]) == LineTotal(l) + l.item.price by {
        assert l.item.price * (l.quantity + 1) == l.item.price * l.quantity + l.item.price;
      }
      assert forall i :: 0 <= i < |cart| && i != k.value ==> r[i] == cart[i];
      SumOfPointwise(cart, r, k.value, LineTotal);
    } else {
      SumOfConcat(cart, [OrderLine(item, 1)], LineTotal);
      assert [OrderLine(item, 1)][..0] == [];
    }
  }

  /** Setting the quantity of a line that is there changes the subtotal by that line alone. */
  lemma UpdateQuantitySubtotal(cart: seq<OrderLine>, k: nat, q: int)
    requires UniqueIds(cart) && k < |cart| && q > 0
    ensures Subtotal(UpdateQuantity(cart, cart[k].item.id, q)) ==
      Subtotal(cart) - LineTotal(cart[k]) + cart[k].item.price * q
  {
    var r := UpdateQuantity(cart, cart[k].item.id, q);
    SumOfPointwise(cart, r, k, LineTotal);
  }

  /** Removing a line (quantity 0) takes exactly that line's total off the subtotal. */
  lemma RemoveLineSubtotal(cart: seq<OrderLine>, k: nat)
    requires UniqueIds(cart) && k < |cart|
    ensures UpdateQuantity(cart, cart[k].item.id, 0) == cart[..k] + cart[k + 1..]
    ensures Subtotal(UpdateQuantity(cart, cart[k].item.id, 0)) == Subtotal(cart) - LineTotal(cart[k])
  {
    var id := cart[k].item.id;
    var keep := (l: OrderLine) => l.item.id != id;
    assert cart == cart[..k] + ([cart[k]] + cart[k + 1..]);
    FilterConcat(cart[..k], [cart[k]] + cart[k + 1..], keep);
    FilterConcat([cart[k]], cart[k + 1..], keep);
    FilterKeepsAll(cart[..k], keep);
    FilterKeepsAll(cart[k + 1..], keep);
    assert Filter([cart[k]], keep) == [];
    SumOfRemove(cart, k, LineTotal);
  }

  /** The order the book records from the till carries the total the till showed. */
  lemma PlacedOrderMatchesTill(st: PosState, user: User, orders: seq<Order>, id: int, now: int, tenant: string)
    requires CheckoutOf(st, user).Place?
    ensures var o := Orders.PlaceOrder(orders, CheckoutOf(st, user).draft, id, now, tenant).1;
      o.items == st.cart && o.status == Pending && o.restaurantId == tenant &&
      o.totalAmount == Total(Subtotal(st.cart), DiscountValue(st.discount)) && o.totalAmount >= 0 &&
      (o.tableNumber.Some? ==> o.orderType == DineIn) &&
      (o.customerId.Some? || o.driverId.Some? ==> o.orderType == Delivery)
  {
  }

  /** After the price editor saves, the cart line and the menu item agree on the price. */
  lemma SavedPriceAgrees(st: PosState, menu: seq<MenuItem>, id: int, price: int, i: nat, j: nat)
    requires i < |st.cart| && st.cart[i].item.id == id
    requires j < |menu| && menu[j].id == id
    ensures var r := SavePrice(st, id, price);
      r.0.cart[i].item.price == price &&
      Orders.WithPrice(menu, r.1.0, r.1.1)[j].price == price
  {
  }
}
