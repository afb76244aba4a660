/**
 * The drivers screen: the list of drivers with their count of deliveries on the
 * road, and for the selected driver the delivery orders assigned to them, newest
 * first, each with its customer's name.
 */
module Dispatch {
  import opened Wrappers
  import opened Domain
  import opened Seqs
  import Orders
  import Kitchen

  /** The orders of the selected driver that are deliveries. With no selection nothing matches. */
  predicate AssignedTo(o: Order, selected: Option<int>)
  {
    selected.Some? && o.driverId == selected && o.orderType == Delivery
  }

  function OrderTime(o: Order): real
  {
    o.timestamp as real
  }

  /** The selected driver's delivery orders, sorted by time, newest first. */
  function DriverOrders(orders: seq<Order>, selected: Option<int>): (r: seq<Order>)
    ensures forall i :: 0 <= i < |r| ==> AssignedTo(r[i], selected)
    ensures multiset(r) == multiset(Filter(orders, (o: Order) => AssignedTo(o, selected)))
    ensures forall o :: o in orders && AssignedTo(o, selected) ==> o in r
    ensures IsSortedDesc(r, OrderTime)
  {
    var mine := Filter(orders, (o: Order) => AssignedTo(o, selected));
    var r := SortDesc(mine, OrderTime);
    forall i | 0 <= i < |r| ensures AssignedTo(r[i], selected) {
      assert r[i] in multiset(mine);
    }
    forall o | o in orders && AssignedTo(o, selected) ensures o in r {
      assert o in multiset(mine);
    }
    r
  }

  /** An order of that driver that is out for delivery, whatever its order type. */
  predicate OnTheRoad(o: Order, driver: int)
  {
    o.driverId == Some(driver) && o.status == OutForDelivery
  }

  /** The badge count: the driver's orders out for delivery. */
  function ActiveDeliveriesCount(orders: seq<Order>, driver: int): (n: nat)
    ensures n == |Filter(orders, (o: Order) => OnTheRoad(o, driver))|
    ensures n == 0 <==> forall i :: 0 <= i < |orders| ==> !OnTheRoad(orders[i], driver)
  {
    var mine := Filter(orders, (o: Order) => OnTheRoad(o, driver));
    assert mine != [] ==> mine[0] in orders;
    assert forall i :: 0 <= i < |orders| && OnTheRoad(orders[i], driver) ==> orders[i] in mine;
    |mine|
  }

  /** The name of the first customer with that id; a missing customer or an empty name reads "N/A". */
  function CustomerName(customers: seq<Customer>, id: Option<int>): (name: string)
    ensures Kitchen.CustomerOf(customers, id).None? ==> name == "N/A"
    ensures Kitchen.CustomerOf(customers, id).Some? ==>
      name == if Kitchen.CustomerOf(customers, id).value.name != "" then Kitchen.CustomerOf(customers, id).value.name else "N/A"
    ensures name != "N/A" ==> exists i :: 0 <= i < |customers| && Some(customers[i].id) == id && customers[i].name == name
  {
    match Kitchen.CustomerOf(customers, id)
    case None => "N/A"
    case Some(c) =>
      if c.name != "" then
        assert exists i :: 0 <= i < |customers| && customers[i] == c;
        c.name
      else "N/A"
  }

  /** The style of a status badge on a driver's order: two special styles and a default. */
  function DriverStatusStyle(s: OrderStatus): (c: string)
    ensures c == "text-slate-600 bg-slate-100" <==> s != OutForDelivery && s != Served
  {
    match s
    case OutForDelivery => "text-purple-600 bg-purple-100"
    case Served => "text-green-600 bg-green-100"
    case _ => "text-slate-600 bg-slate-100"
  }

  lemma DriverStatusStylesDistinct(s: OrderStatus)
    requires s != OutForDelivery && s != Served
    ensures DriverStatusStyle(OutForDelivery) != DriverStatusStyle(Served)
    ensures DriverStatusStyle(s) != DriverStatusStyle(OutForDelivery)
    ensures DriverStatusStyle(s) != DriverStatusStyle(Served)
  {
  }

  /** Assigning an order to a driver puts it on that driver's badge, even a dine-in order. */
  lemma AssignedOrderCounts(orders: seq<Order>, k: nat, driver: int)
    requires k < |orders|
    ensures ActiveDeliveriesCount(Orders.WithDriver(orders, orders[k].id, driver), driver) >= 1
  {
    var r := Orders.WithDriver(orders, orders[k].id, driver);
    assert r[k].driverId == Some(driver) && r[k].status == OutForDelivery;
  }

  /** A dine-in order given a driver shows on the badge but not in the driver's order list. */
  lemma DineInCountedButNotListed()
    ensures var o := Order(7, "r", [], OutForDelivery, 0, DineIn, Some(3), None, Some(5), None, 0, 0);
      ActiveDeliveriesCount([o], 5) == 1 && DriverOrders([o], Some(5)) == []
  {
    var o := Order(7, "r", [], OutForDelivery, 0, DineIn, Some(3), None, Some(5), None, 0, 0);
    var p := (x: Order) => OnTheRoad(x, 5);
    assert Filter([o], p) == [o] + Filter([o][1..], p);
    assert Filter([o], (x: Order) => AssignedTo(x, Some(5))) == [];
  }
}
