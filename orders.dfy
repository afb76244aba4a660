/**
 * The order book and the menu as the application's handlers rewrite them: placing
 * an order, moving it to another status, handing it to a driver, and repricing a
 * menu item. Each handler replaces the whole list with a new one.
 */
module Orders {
  import opened Wrappers
  import opened Domain
  import opened Seqs

  /** What the till supplies when it places an order: everything but id, time, status and tenant. */
  datatype OrderDraft = OrderDraft(
    items: seq<OrderLine>,
    orderType: OrderType,
    tableNumber: Option<int>,
    customerId: Option<int>,
    driverId: Option<int>,
    salespersonId: Option<int>,
    discount: int,
    totalAmount: int)

  /** The fields of an order that came from its draft. */
  function DraftOf(o: Order): OrderDraft
  {
    OrderDraft(o.items, o.orderType, o.tableNumber, o.customerId, o.driverId,
               o.salespersonId, o.discount, o.totalAmount)
  }

  /** The order built from a draft, stamped with its id and time, pending, in the given tenant. */
  function NewOrder(d: OrderDraft, id: int, now: int, tenant: string): (o: Order)
    ensures o.id == id && o.timestamp == now && o.status == Pending && o.restaurantId == tenant
    ensures DraftOf(o) == d
  {
    Order(id, tenant, d.items, Pending, now, d.orderType, d.tableNumber, d.customerId,
          d.driverId, d.salespersonId, d.discount, d.totalAmount)
  }

  /**
   * Placing an order appends exactly the new order, which is also the result; the
   * orders before it are kept as they were.
   */
  function PlaceOrder(orders: seq<Order>, d: OrderDraft, id: int, now: int, tenant: string)
    : (r: (seq<Order>, Order))
    ensures |r.0| == |orders| + 1 && r.0[..|orders|] == orders && r.0[|orders|] == r.1
    ensures r.1.status == Pending && r.1.restaurantId == tenant && r.1.id == id && r.1.timestamp == now
    ensures DraftOf(r.1) == d
  {
    var o := NewOrder(d, id, now, tenant);
    (orders + [o], o)
  }

  /**
   * Every order carrying the id gets the new status, whatever status it had; its
   * other fields and every other order stay as they were.
   */
  function WithStatus(orders: seq<Order>, id: int, s: OrderStatus): (r: seq<Order>)
    ensures |r| == |orders|
    ensures forall i :: 0 <= i < |orders| && orders[i].id == id ==> r[i] == orders[i].(status := s)
    ensures forall i :: 0 <= i < |orders| && orders[i].id != id ==> r[i] == orders[i]
  {
    MapWhere(orders, (o: Order) => o.id == id, (o: Order) => o.(status := s))
  }

  /**
   * Every order carrying the id gets the driver and goes out for delivery, whatever
   * its status and type were; nothing else changes.
   */
  function WithDriver(orders: seq<Order>, id: int, driver: int): (r: seq<Order>)
    ensures |r| == |orders|
    ensures forall i :: 0 <= i < |orders| && orders[i].id == id ==>
      r[i] == orders[i].(driverId := Some(driver), status := OutForDelivery)
    ensures forall i :: 0 <= i < |orders| && orders[i].id != id ==> r[i] == orders[i]
  {
    MapWhere(orders, (o: Order) => o.id == id,
             (o: Order) => o.(driverId := Some(driver), status := OutForDelivery))
  }

  /** Every menu item carrying the id gets the new price; nothing else changes. */
  function WithPrice(menu: seq<MenuItem>, id: int, price: int): (r: seq<MenuItem>)
    ensures |r| == |menu|
    ensures forall i :: 0 <= i < |menu| && menu[i].id == id ==> r[i] == menu[i].(price := price)
    ensures forall i :: 0 <= i < |menu| && menu[i].id != id ==> r[i] == menu[i]
  {
    MapWhere(menu, (m: MenuItem) => m.id == id, (m: MenuItem) => m.(price := price))
  }

  /** The status updater has no transition table: any status can be reached from any other. */
  lemma StatusUpdateUnrestricted(orders: seq<Order>, i: nat, s: OrderStatus)
    requires i < |orders|
    ensures WithStatus(orders, orders[i].id, s)[i].status == s
    ensures WithStatus(orders, orders[i].id, s)[i].items == orders[i].items
  {
  }

  /** Updating the status twice is the same as updating it once to the second status. */
  lemma {:induction false} WithStatusLastWins(orders: seq<Order>, id: int, s1: OrderStatus, s2: OrderStatus)
    ensures WithStatus(WithStatus(orders, id, s1), id, s2) == WithStatus(orders, id, s2)
  {
    var a := WithStatus(WithStatus(orders, id, s1), id, s2);
    var b := WithStatus(orders, id, s2);
    assert |a| == |b|;
    forall i | 0 <= i < |a| ensures a[i] == b[i] {
      if orders[i].id == id {
        assert WithStatus(orders, id, s1)[i].id == id;
      }
    }
  }

  /** The status of an order that does not carry the id is not touched by any handler. */
  lemma OtherOrdersUntouched(orders: seq<Order>, i: nat, id: int, s: OrderStatus, driver: int)
    requires i < |orders| && orders[i].id != id
    ensures WithStatus(orders, id, s)[i] == orders[i]
    ensures WithDriver(orders, id, driver)[i] == orders[i]
  {
  }

  /** Placing an order never disturbs an order already in the book. */
  lemma PlaceOrderKeepsHistory(orders: seq<Order>, d: OrderDraft, id: int, now: int, tenant: string, i: nat)
    requires i < |orders|
    ensures PlaceOrder(orders, d, id, now, tenant).0[i] == orders[i]
  {
    var r := PlaceOrder(orders, d, id, now, tenant).0;
    assert r[..|orders|][i] == r[i];
  }
}
