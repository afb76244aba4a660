/**
 * The kitchen display: which orders it shows, and for each order card its colour,
 * its running clock and the single action it offers. The card holds the only
 * transition table of the system; the order book itself accepts any status.
 */
module Kitchen {
  import opened Wrappers
  import opened Domain
  import opened Seqs
  import opened Text
  import Orders

  /** The header colour of an order card. */
  function StatusColor(s: OrderStatus): (c: string)
    ensures c == "bg-slate-500" <==> s == Served
  {
    match s
    case Pending => "bg-blue-500"
    case Preparing => "bg-yellow-500"
    case Ready => "bg-green-500"
    case OutForDelivery => "bg-purple-500"
    case _ => "bg-slate-500"
  }

  /** The four working stages have four different colours; a served order has the neutral one. */
  lemma StatusColorsDistinct(a: OrderStatus, b: OrderStatus)
    requires a != b && a != Served && b != Served
    ensures StatusColor(a) != StatusColor(b)
    ensures StatusColor(Served) == "bg-slate-500" && StatusColor(a) != StatusColor(Served)
  {
  }

  /** What the bottom of a card offers. */
  datatype CardAction =
    | Advance(next: OrderStatus)        // one button moving the order on
    | DriverPicker(buttonEnabled: bool)  // a driver list and an "assign" button
    | NoAction

  /**
   * The card's transition table: pending → preparing → ready; a ready dine-in
   * order → served; a ready delivery order only through a driver; out for
   * delivery → served; nothing for a served order.
   */
  function ActionFor(o: Order, driverCount: nat, selectedDriver: string): (a: CardAction)
    ensures o.status == Pending <==> a == Advance(Preparing)
    ensures o.status == Preparing <==> a == Advance(Ready)
    ensures o.status == Ready ==> (a == Advance(Served) <==> o.orderType == DineIn)
    ensures (o.status == Ready && o.orderType == Delivery) <==> a.DriverPicker?
    ensures a.DriverPicker? ==> (a.buttonEnabled <==> selectedDriver != "" && driverCount > 0)
    ensures o.status == OutForDelivery ==> a == Advance(Served)
    ensures a == Advance(Served) ==> o.status == OutForDelivery || o.status == Ready
    ensures o.status == Served <==> a == NoAction
  {
    match o.status
    case Pending => Advance(Preparing)
    case Preparing => Advance(Ready)
    case Ready =>
      (match o.orderType
       case Delivery => DriverPicker(selectedDriver != "" && driverCount > 0)
       case DineIn => Advance(Served))
    case OutForDelivery => Advance(Served)
    case Served => NoAction
  }

  /** A rank along the card's path; every offered step goes one rank forward. */
  function Rank(s: OrderStatus): nat
  {
    match s
    case Pending => 0
    case Preparing => 1
    case Ready => 2
    case OutForDelivery => 3
    case Served => 4
  }

  /** The card never moves an order back and never skips straight to "out for delivery". */
  lemma CardOnlyMovesForward(o: Order, n: nat, sel: string)
    ensures ActionFor(o, n, sel).Advance? ==>
      Rank(ActionFor(o, n, sel).next) > Rank(o.status) &&
      ActionFor(o, n, sel).next != OutForDelivery
  {
  }

  /** A ready delivery order is never offered "served" directly. */
  lemma ReadyDeliveryNeedsDriver(o: Order, n: nat, sel: string)
    requires o.status == Ready && o.orderType == Delivery
    ensures ActionFor(o, n, sel) != Advance(Served)
  {
  }

  /**
   * The assign button's handler: it fires only with a selected driver, passing the
   * order's id and the selection read with `parseInt(…, 10)` (None is NaN).
   */
  function AssignClick(o: Order, selectedDriver: string): (r: Option<(int, Option<int>)>)
    ensures r.Some? <==> selectedDriver != ""
    ensures r.Some? ==> r.value == (o.id, ParseInt10(selectedDriver))
  {
    if selectedDriver != "" then Some((o.id, ParseInt10(selectedDriver))) else None
  }

  /** Selecting a listed driver assigns exactly that driver's id. */
  lemma AssignListedDriver(o: Order, d: User)
    requires d.id >= 0
    ensures AssignClick(o, NatToString(d.id)) == Some((o.id, Some(d.id)))
  {
    ParseIntOfToString(d.id);
  }

  /** JavaScript's `%`: the remainder takes the sign of the dividend. */
  function JsRem(a: int, b: int): (r: int)
    requires b > 0
    ensures a >= 0 ==> r == a % b
    ensures -b < r < b
  {
    if a >= 0 then a % b else -((-a) % b)
  }

  /** `mm:ss` of a number of seconds; the minutes are not capped at 99. */
  function FormatTime(seconds: int): string
  {
    Pad2(seconds / 60) + ":" + Pad2(JsRem(seconds, 60))
  }

  /** The clock: whole seconds since the order was placed, rounded down. */
  function ElapsedSeconds(now: int, timestamp: int): (s: int)
    ensures 1000 * s <= now - timestamp < 1000 * (s + 1)
  {
    (now - timestamp) / 1000
  }

  /** Two printed digits read back as the number. */
  lemma Pad2Value(n: nat)
    requires n < 100
    ensures |Pad2(n)| == 2 && AllDigits(Pad2(n)) && DigitsValue(Pad2(n)) == n
  {
    Pad2Fixed(n);
    FixedDigitsValue(n, 2);
  }

  /** Reading the two halves of a clock face. */
  lemma ClockHalves(p: string, q: string)
    requires |p| == 2 && AllDigits(p) && |q| == 2 && AllDigits(q)
    ensures var t := p + ":" + q;
      |t| == 5 && t[2] == ':' && t[..2] == p && t[3..] == q
  {
    var t := p + ":" + q;
    assert t[..2] == p;
    assert t[3..] == q;
  }

  /** Under 100 minutes the clock reads as five characters from which the seconds come back. */
  lemma FormatTimeRoundTrip(seconds: nat)
    requires seconds < 6000
    ensures var t := FormatTime(seconds);
      |t| == 5 && t[2] == ':' && AllDigits(t[..2]) && AllDigits(t[3..]) &&
      DigitsValue(t[..2]) * 60 + DigitsValue(t[3..]) == seconds &&
      DigitsValue(t[3..]) < 60
  {
    var m, s := seconds / 60, seconds % 60;
    assert FormatTime(seconds) == Pad2(m) + ":" + Pad2(s);
    Pad2Value(m);
    Pad2Value(s);
    ClockHalves(Pad2(m), Pad2(s));
  }

  lemma {:induction false} NatToStringLong(n: nat)
    requires n >= 100
    ensures |NatToString(n)| >= 3
  {
    assert NatToString(n) == NatToString(n / 10) + [DigitChar(n % 10)];
    assert NatToString(n / 10) == NatToString(n / 100) + [DigitChar(n / 10 % 10)];
  }

  /** From 100 minutes on the minutes take three or more digits: the clock is not capped. */
  lemma FormatTimeNotCapped(seconds: nat)
    requires seconds >= 6000
    ensures |FormatTime(seconds)| >= 6
  {
    NatToStringLong(seconds / 60);
    Pad2Fixed(seconds % 60);
  }

  // The kitchen display

  function ActiveOrders(orders: seq<Order>): (r: seq<Order>)
    ensures forall o :: o in r <==> o in orders && o.status != Served
    ensures IsSubsequence(r, orders)
    ensures forall o :: multiset(r)[o] == if o.status != Served then multiset(orders)[o] else 0
  {
    var keep := (o: Order) => o.status != Served;
    FilterMultiset(orders, keep);
    Filter(orders, keep)
  }

  function Drivers(users: seq<User>): (r: seq<User>)
    ensures forall u :: u in r <==> u in users && u.role == Driver
    ensures IsSubsequence(r, users)
    ensures forall u :: multiset(r)[u] == if u.role == Driver then multiset(users)[u] else 0
  {
    var keep := (u: User) => u.role == Driver;
    FilterMultiset(users, keep);
    Filter(users, keep)
  }

  /** One card per active order, with the first customer whose id matches, if any. */
  datatype Card = Card(order: Order, customer: Option<Customer>)

  datatype KdsScreen = NoActiveOrders | Cards(cards: seq<Card>)

  function CustomerOf(customers: seq<Customer>, id: Option<int>): (c: Option<Customer>)
    ensures c.Some? <==> exists i :: 0 <= i < |customers| && Some(customers[i].id) == id
    ensures c.Some? ==> c.value in customers && Some(c.value.id) == id
    ensures c.Some? ==>
      exists k :: 0 <= k < |customers| && customers[k] == c.value && (forall j :: 0 <= j < k ==> Some(customers[j].id) != id)
  {
    Find(customers, (c: Customer) => Some(c.id) == id)
  }

  function KdsView(orders: seq<Order>, customers: seq<Customer>): (v: KdsScreen)
    ensures v.NoActiveOrders? <==> forall i :: 0 <= i < |orders| ==> orders[i].status == Served
    ensures v.Cards? ==>
      |v.cards| == |ActiveOrders(orders)| &&
      forall i :: 0 <= i < |v.cards| ==>
        v.cards[i].order == ActiveOrders(orders)[i] &&
        v.cards[i].customer == CustomerOf(customers, v.cards[i].order.customerId)
  {
    var active := ActiveOrders(orders);
    if active == [] then
      assert forall i :: 0 <= i < |orders| ==> orders[i] in orders;
      NoActiveOrders
    else
      assert active[0] in orders;
      Cards(seq(|active|, i requires 0 <= i < |active| => Card(active[i], CustomerOf(customers, active[i].customerId))))
  }

  /** Marking an order served takes it off the kitchen display. */
  lemma ServedLeavesDisplay(orders: seq<Order>, id: int)
    ensures forall o :: o in ActiveOrders(Orders.WithStatus(orders, id, Served)) ==> o.id != id
  {
    var r := Orders.WithStatus(orders, id, Served);
    forall o | o in ActiveOrders(r) ensures o.id != id {
      var i :| 0 <= i < |r| && r[i] == o;
    }
  }

  /** Every order out for delivery has a driver. */
  predicate DriversAssigned(orders: seq<Order>)
  {
    forall i :: 0 <= i < |orders| && orders[i].status == OutForDelivery ==> orders[i].driverId.Some?
  }

  /**
   * Whatever a card offers keeps "out for delivery implies a driver": the buttons
   * never set that status, and the driver picker sets it together with the driver.
   */
  lemma CardActionsKeepDrivers(orders: seq<Order>, k: nat, n: nat, sel: string, driver: int)
    requires DriversAssigned(orders) && k < |orders|
    ensures var a := ActionFor(orders[k], n, sel);
      a.Advance? ==> DriversAssigned(Orders.WithStatus(orders, orders[k].id, a.next))
    ensures DriversAssigned(Orders.WithDriver(orders, orders[k].id, driver))
  {
    var a := ActionFor(orders[k], n, sel);
    if a.Advance? {
      CardOnlyMovesForward(orders[k], n, sel);
    }
  }

  /** The order book alone does not keep it: a status update can send an order out with no driver. */
  lemma StatusUpdateCanBreakDrivers()
    ensures var o := Order(1, "r", [], Ready, 0, Delivery, None, Some(2), None, None, 0, 0);
      DriversAssigned([o]) && !DriversAssigned(Orders.WithStatus([o], 1, OutForDelivery))
  {
    var o := Order(1, "r", [], Ready, 0, Delivery, None, Some(2), None, None, 0, 0);
    assert Orders.WithStatus([o], 1, OutForDelivery)[0].status == OutForDelivery;
  }
}
