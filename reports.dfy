/**
 * The reports screen: the served orders inside the chosen period, newest first;
 * the revenue, cost and profit totals; the sales per item name with each order's
 * discount spread over its lines; the inventory value and the total assets.
 */
module Reports {
  import opened Wrappers
  import opened Domain
  import opened Seqs
  import Pos
  import Inventory

  /**
   * The period filter. The bounds of "today", "last seven days" and "last month"
   * come from the local calendar and are supplied as an inclusive window.
   */
  datatype TimeFilter = All | Window(start: int, end: int)

  predicate InFilter(t: int, f: TimeFilter)
  {
    match f
    case All => true
    case Window(s, e) => s <= t <= e
  }

  predicate Completed(o: Order, f: TimeFilter)
  {
    o.status == Served && InFilter(o.timestamp, f)
  }

  function OrderTime(o: Order): real
  {
    o.timestamp as real
  }

  /** The served orders inside the period, sorted by time, newest first. */
  function CompletedOrders(orders: seq<Order>, f: TimeFilter): (r: seq<Order>)
    ensures forall i :: 0 <= i < |r| ==> Completed(r[i], f)
    ensures multiset(r) == multiset(Filter(orders, (o: Order) => Completed(o, f)))
    ensures forall o :: o in orders && Completed(o, f) ==> o in r
    ensures IsSortedDesc(r, OrderTime)
  {
    var done := Filter(orders, (o: Order) => Completed(o, f));
    var r := SortDesc(done, OrderTime);
    forall i | 0 <= i < |r| ensures Completed(r[i], f) {
      assert r[i] in multiset(done);
    }
    forall o | o in orders && Completed(o, f) ensures o in r {
      assert o in multiset(done);
    }
    r
  }

  /** With no period chosen, every served order is a completed one. */
  lemma AllAdmitsEveryServed(orders: seq<Order>, o: Order)
    requires o in orders && o.status == Served
    ensures o in CompletedOrders(orders, All)
  {
  }

  function Amount(o: Order): int
  {
    o.totalAmount
  }

  function LineCost(l: OrderLine): int
  {
    l.item.cost * l.quantity
  }

  function OrderCost(o: Order): int
  {
    SumOf(o.items, LineCost)
  }

  /** Revenue: the sum of the orders' final amounts (after discount). */
  function Revenue(orders: seq<Order>): int
  {
    SumOf(orders, Amount)
  }

  /** Cost: the sum of cost × quantity over every line of every order. */
  function Cost(orders: seq<Order>): int
  {
    SumOf(orders, OrderCost)
  }

  /** The financial summary's running totals, accumulated order by order and line by line. */
  method Financials(orders: seq<Order>) returns (revenue: int, cost: int, profit: int)
    ensures revenue == Revenue(orders)
    ensures cost == Cost(orders)
    ensures profit == revenue - cost
  {
    revenue, cost := 0, 0;
    var i := 0;
    while i < |orders|
      invariant 0 <= i <= |orders|
      invariant revenue == Revenue(orders[..i])
      invariant cost == Cost(orders[..i])
    {
      var o := orders[i];
      revenue := revenue + o.totalAmount;
      var j := 0;
      while j < |o.items|
        invariant 0 <= j <= |o.items|
        invariant cost == Cost(orders[..i]) + SumOf(o.items[..j], LineCost)
      {
        cost := cost + o.items[j].item.cost * o.items[j].quantity;
        assert o.items[..j + 1][..j] == o.items[..j];
        j := j + 1;
      }
      assert o.items[..j] == o.items;
      assert orders[..i + 1][..i] == orders[..i];
      i := i + 1;
    }
    assert orders[..i] == orders;
    profit := revenue - cost;
  }

  /** The totals do not depend on the order the completed list is sorted in. */
  lemma RevenueOfCompleted(orders: seq<Order>, f: TimeFilter)
    ensures Revenue(CompletedOrders(orders, f)) == Revenue(Filter(orders, (o: Order) => Completed(o, f)))
    ensures Cost(CompletedOrders(orders, f)) == Cost(Filter(orders, (o: Order) => Completed(o, f)))
  {
    var done := Filter(orders, (o: Order) => Completed(o, f));
    SumOfPermutation(CompletedOrders(orders, f), done, Amount);
    SumOfPermutation(CompletedOrders(orders, f), done, OrderCost);
  }

  // Sales by item

  /**
   * The share of each line's price an order actually collected:
   * `1 − discount / subtotal` when there is a discount and a positive subtotal, else 1.
   */
  function DiscountRatio(o: Order): real
  {
    var sub := Pos.Subtotal(o.items);
    if o.discount != 0 && sub > 0 then 1.0 - (o.discount as real) / (sub as real) else 1.0
  }

  /** One line's contribution to the per-item table. */
  datatype Contribution = Contribution(name: string, quantity: int, revenue: real, cost: int)

  function LineContribution(l: OrderLine, ratio: real): Contribution
  {
    Contribution(l.item.name, l.quantity, (Pos.LineTotal(l) as real) * ratio, l.quantity * l.item.cost)
  }

  function OrderContributions(o: Order): (cs: seq<Contribution>)
    ensures |cs| == |o.items|
    ensures forall k :: 0 <= k < |o.items| ==> cs[k] == LineContribution(o.items[k], DiscountRatio(o))
  {
    var ratio := DiscountRatio(o);
    seq(|o.items|, k requires 0 <= k < |o.items| => LineContribution(o.items[k], ratio))
  }

  /** Every line of every order, in the order the loops visit them. */
  function AllContributions(orders: seq<Order>): seq<Contribution>
  {
    if orders == [] then []
    else AllContributions(orders[..|orders| - 1]) + OrderContributions(orders[|orders| - 1])
  }

  /** A row of the per-item table. */
  datatype ItemSales = ItemSales(name: string, quantity: int, revenue: real, cost: int, profit: real)

  function Zero(name: string): ItemSales
  {
    ItemSales(name, 0, 0.0, 0, 0.0)
  }

  function AddTo(row: ItemSales, c: Contribution): ItemSales
  {
    row.(quantity := row.quantity + c.quantity,
         revenue := row.revenue + c.revenue,
         cost := row.cost + c.cost,
         profit := row.profit + (c.revenue - c.cost as real))
  }

  predicate HasRow(rows: seq<ItemSales>, name: string)
  {
    exists i :: 0 <= i < |rows| && rows[i].name == name
  }

  predicate Mentions(cs: seq<Contribution>, name: string)
  {
    exists k :: 0 <= k < |cs| && cs[k].name == name
  }

  /** `map.get(name)`: the position of the first row for that name, if there is one. */
  function RowFor(rows: seq<ItemSales>, name: string): (k: Option<nat>)
    ensures k.Some? ==> k.value < |rows| && rows[k.value].name == name
    ensures k.Some? ==> forall j :: 0 <= j < k.value ==> rows[j].name != name
    ensures k.None? <==> !HasRow(rows, name)
  {
    FindIndex(rows, (row: ItemSales) => row.name == name)
  }

  /** `map.set(name, existing + c)`: an existing entry keeps its place, a new one goes last. */
  function Credit(rows: seq<ItemSales>, c: Contribution): (r: seq<ItemSales>)
  {
    match RowFor(rows, c.name)
    case Some(k) => rows[k := AddTo(rows[k], c)]
    case None => rows + [AddTo(Zero(c.name), c)]
  }

  function Tally(cs: seq<Contribution>): seq<ItemSales>
  {
    if cs == [] then [] else Credit(Tally(cs[..|cs| - 1]), cs[|cs| - 1])
  }

  lemma TallyStep(cs: seq<Contribution>, c: Contribution)
    ensures Tally(cs + [c]) == Credit(Tally(cs), c)
  {
    assert (cs + [c])[..|cs + [c]| - 1] == cs;
  }

  /** What a row for `name` should hold: the sums over the contributions carrying that name. */
  function Totals(cs: seq<Contribution>, name: string): ItemSales
  {
    ItemSales(
      name,
      SumOf(cs, (c: Contribution) => if c.name == name then c.quantity else 0),
      SumR(cs, (c: Contribution) => if c.name == name then c.revenue else 0.0),
      SumOf(cs, (c: Contribution) => if c.name == name then c.cost else 0),
      SumR(cs, (c: Contribution) => if c.name == name then c.revenue - c.cost as real else 0.0))
  }

  predicate UniqueNames(rows: seq<ItemSales>)
  {
    forall i, j :: 0 <= i < j < |rows| ==> rows[i].name != rows[j].name
  }

  lemma {:induction false} TotalsOfAbsent(cs: seq<Contribution>, name: string)
    requires forall k :: 0 <= k < |cs| ==> cs[k].name != name
    ensures Totals(cs, name) == Zero(name)
  {
    if cs != [] {
      TotalsOfAbsent(cs[..|cs| - 1], name);
    }
  }

  lemma TotalsStep(cs: seq<Contribution>, c: Contribution, name: string)
    ensures Totals(cs + [c], name) == if c.name == name then AddTo(Totals(cs, name), c) else Totals(cs, name)
  {
    assert (cs + [c])[..|cs + [c]| - 1] == cs;
  }

  /** Crediting a contribution adds its name to the table and keeps the names distinct. */
  lemma CreditNames(rows: seq<ItemSales>, c: Contribution)
    requires UniqueNames(rows)
    ensures UniqueNames(Credit(rows, c))
    ensures forall name :: HasRow(Credit(rows, c), name) <==> HasRow(rows, name) || name == c.name
  {
    var r := Credit(rows, c);
    var k := RowFor(rows, c.name);
    if k.Some? {
      assert r == rows[k.value := AddTo(rows[k.value], c)];
      assert forall i :: 0 <= i < |r| ==> r[i].name == rows[i].name;
    } else {
      assert r == rows + [AddTo(Zero(c.name), c)];
      assert r[|rows|].name == c.name;
      assert forall i :: 0 <= i < |rows| ==> r[i] == rows[i];
    }
    forall name ensures HasRow(r, name) <==> HasRow(rows, name) || name == c.name {
      if HasRow(rows, name) {
        var i :| 0 <= i < |rows| && rows[i].name == name;
        assert r[i].name == name;
      }
      if HasRow(r, name) {
        var i :| 0 <= i < |r| && r[i].name == name;
        if i < |rows| {
          assert rows[i].name == name;
        }
      }
    }
  }

  /** Crediting a contribution keeps every row equal to the sums over its name. */
  lemma CreditTotals(rows: seq<ItemSales>, prev: seq<Contribution>, c: Contribution)
    requires UniqueNames(rows)
    requires forall i :: 0 <= i < |rows| ==> rows[i] == Totals(prev, rows[i].name)
    requires !HasRow(rows, c.name) ==> !Mentions(prev, c.name)
    ensures forall i :: 0 <= i < |Credit(rows, c)| ==> Credit(rows, c)[i] == Totals(prev + [c], Credit(rows, c)[i].name)
  {
    var r := Credit(rows, c);
    var k := RowFor(rows, c.name);
    if k.Some? {
      assert r == rows[k.value := AddTo(rows[k.value], c)];
      forall i | 0 <= i < |r| ensures r[i] == Totals(prev + [c], r[i].name) {
        TotalsStep(prev, c, r[i].name);
        if i != k.value {
          assert rows[i].name != c.name;
        }
      }
    } else {
      assert r == rows + [AddTo(Zero(c.name), c)];
      TotalsOfAbsent(prev, c.name);
      forall i | 0 <= i < |r| ensures r[i] == Totals(prev + [c], r[i].name) {
        TotalsStep(prev, c, r[i].name);
        if i < |rows| {
          assert r[i] == rows[i];
          assert rows[i].name != c.name;
        }
      }
    }
  }

  lemma MentionsStep(prev: seq<Contribution>, c: Contribution, name: string)
    ensures Mentions(prev + [c], name) <==> Mentions(prev, name) || c.name == name
  {
    var cs := prev + [c];
    if Mentions(prev, name) {
      var j :| 0 <= j < |prev| && prev[j].name == name;
      assert cs[j] == prev[j];
    }
    if Mentions(cs, name) {
      var j :| 0 <= j < |cs| && cs[j].name == name;
      if j < |prev| {
        assert prev[j] == cs[j];
      }
    }
    assert cs[|prev|] == c;
  }

  /**
   * The table groups by name: one row per name that occurs, each holding the sums
   * of quantity, revenue, cost and profit over that name's lines.
   */
  lemma {:induction false} TallyGroupsByName(cs: seq<Contribution>)
    ensures UniqueNames(Tally(cs))
    ensures forall name :: HasRow(Tally(cs), name) <==> Mentions(cs, name)
    ensures forall i :: 0 <= i < |Tally(cs)| ==> Tally(cs)[i] == Totals(cs, Tally(cs)[i].name)
  {
    if cs != [] {
      var prev, c := cs[..|cs| - 1], cs[|cs| - 1];
      TallyGroupsByName(prev);
      assert cs == prev + [c];
      var rows := Tally(prev);
      assert Tally(cs) == Credit(rows, c);
      CreditNames(rows, c);
      CreditTotals(rows, prev, c);
      forall name ensures HasRow(Tally(cs), name) <==> Mentions(cs, name) {
        MentionsStep(prev, c, name);
      }
    }
  }

  /** Each row's profit is its revenue less its cost. */
  lemma {:induction false} ProfitIsRevenueLessCost(cs: seq<Contribution>, name: string)
    ensures Totals(cs, name).profit == Totals(cs, name).revenue - Totals(cs, name).cost as real
  {
    if cs != [] {
      ProfitIsRevenueLessCost(cs[..|cs| - 1], name);
    }
  }

  function RowQuantity(r: ItemSales): real
  {
    r.quantity as real
  }

  /** The per-item table, built line by line, then sorted by quantity sold, largest first. */
  method SalesByItem(orders: seq<Order>) returns (rows: seq<ItemSales>)
    ensures rows == SortDesc(Tally(AllContributions(orders)), RowQuantity)
  {
    var table: seq<ItemSales> := [];
    var i := 0;
    while i < |orders|
      invariant 0 <= i <= |orders|
      invariant table == Tally(AllContributions(orders[..i]))
    {
      var cs := OrderContributions(orders[i]);
      table := CreditLines(table, AllContributions(orders[..i]), cs);
      AllContributionsStep(orders, i);
      i := i + 1;
    }
    assert orders[..i] == orders;
    rows := SortDesc(table, RowQuantity);
  }

  /** The inner loop over one order's lines. */
  method CreditLines(table0: seq<ItemSales>, ghost done: seq<Contribution>, cs: seq<Contribution>)
    returns (table: seq<ItemSales>)
    requires table0 == Tally(done)
    ensures table == Tally(done + cs)
  {
    table := table0;
    ghost var seen := done;
    var j := 0;
    assert done + cs[..0] == done;
    while j < |cs|
      invariant 0 <= j <= |cs|
      invariant seen == done + cs[..j]
      invariant table == Tally(seen)
    {
      TallyStep(seen, cs[j]);
      table := CreditRow(table, cs[j]);
      PrefixStep(done, cs, j);
      seen := seen + [cs[j]];
      j := j + 1;
    }
    assert cs[..j] == cs;
  }

  /** One line of the inner loop: `map.get`, then `map.set` with the line added. */
  method CreditRow(table: seq<ItemSales>, c: Contribution) returns (r: seq<ItemSales>)
    ensures r == Credit(table, c)
  {
    var k := RowFor(table, c.name);
    if k.Some? {
      r := table[k.value := AddTo(table[k.value], c)];
    } else {
      r := table + [AddTo(Zero(c.name), c)];
    }
  }

  lemma PrefixStep<T>(a: seq<T>, b: seq<T>, j: nat)
    requires j < |b|
    ensures a + b[..j + 1] == (a + b[..j]) + [b[j]]
  {
    assert b[..j + 1] == b[..j] + [b[j]];
  }

  lemma AllContributionsStep(orders: seq<Order>, i: nat)
    requires i < |orders|
    ensures AllContributions(orders[..i + 1]) == AllContributions(orders[..i]) + OrderContributions(orders[i])
  {
    assert orders[..i + 1][..i] == orders[..i];
  }

  /**
   * Spread over its lines by the ratio, an order's revenue is its subtotal less its
   * discount when it has a discount and a positive subtotal, and its subtotal otherwise.
   */
  lemma OrderLinesRevenue(o: Order)
    ensures var sub := Pos.Subtotal(o.items);
      SumR(OrderContributions(o), (c: Contribution) => c.revenue) ==
        if o.discount != 0 && sub > 0 then (sub - o.discount) as real else sub as real
  {
    var ratio := DiscountRatio(o);
    var sub := Pos.Subtotal(o.items);
    var cs := OrderContributions(o);
    SumRStep(o.items, cs, ratio);
    if o.discount != 0 && sub > 0 {
      assert (sub as real) * (1.0 - (o.discount as real) / (sub as real)) == (sub - o.discount) as real;
    }
  }

  lemma {:induction false} SumRStep(items: seq<OrderLine>, cs: seq<Contribution>, ratio: real)
    requires |cs| == |items|
    requires forall k :: 0 <= k < |items| ==> cs[k] == LineContribution(items[k], ratio)
    ensures SumR(cs, (c: Contribution) => c.revenue) == (Pos.Subtotal(items) as real) * ratio
  {
    if items != [] {
      SumRStep(items[..|items| - 1], cs[..|cs| - 1], ratio);
    }
  }

  /**
   * The per-item revenue and the order's recorded amount need not agree: a discount
   * larger than the subtotal gives the lines a negative revenue, while the recorded
   * amount stops at 0.
   */
  lemma OversizedDiscountDisagrees(o: Order)
    requires o.discount > Pos.Subtotal(o.items) > 0
    requires o.totalAmount == Pos.Total(Pos.Subtotal(o.items), o.discount)
    ensures SumR(OrderContributions(o), (c: Contribution) => c.revenue) < 0.0
    ensures o.totalAmount == 0
  {
    OrderLinesRevenue(o);
  }

  function ProfitKey(r: ItemSales): real
  {
    r.profit
  }

  /**
   * The most profitable items: the first five rows by profit, largest first (all of
   * them when there are fewer). No row is shown twice, and no row left out earns more
   * than a row shown.
   */
  function TopProfit(rows: seq<ItemSales>): (r: seq<ItemSales>)
    ensures |r| == if |rows| < 5 then |rows| else 5
    ensures IsSortedDesc(r, ProfitKey)
    ensures multiset(r) <= multiset(rows)
    ensures forall x, i :: x in multiset(rows) - multiset(r) && 0 <= i < |r| ==> x.profit <= r[i].profit
  {
    var sorted := SortDesc(rows, ProfitKey);
    var r := Take(sorted, 5);
    TakeOfSorted(sorted, |r|);
    r
  }

  /** The head of a sorted table bounds its tail, and both make up the whole. */
  lemma TakeOfSorted(sorted: seq<ItemSales>, n: nat)
    requires n <= |sorted| && IsSortedDesc(sorted, ProfitKey)
    ensures multiset(sorted) == multiset(sorted[..n]) + multiset(sorted[n..])
    ensures forall x, i :: x in multiset(sorted[n..]) && 0 <= i < n ==> x.profit <= sorted[i].profit
  {
    assert sorted == sorted[..n] + sorted[n..];
    forall x, i | x in multiset(sorted[n..]) && 0 <= i < n ensures x.profit <= sorted[i].profit {
      var k :| 0 <= k < |sorted[n..]| && sorted[n..][k] == x;
      assert ProfitKey(sorted[i]) >= ProfitKey(sorted[n + k]);
    }
  }

  // Inventory and financial position

  function ItemValue(it: InventoryItem): int
  {
    it.stock * it.costPerUnit
  }

  predicate Stocked(inv: seq<InventoryItem>)
  {
    forall i :: 0 <= i < |inv| ==> inv[i].stock >= 0 && inv[i].costPerUnit >= 0
  }

  /** The inventory's value: stock × unit cost summed over the items; never negative for a well-formed stock list. */
  function InventoryValue(inv: seq<InventoryItem>): (v: int)
    ensures Stocked(inv) ==> v >= 0
  {
    ValueNonNegative(inv);
    SumOf(inv, ItemValue)
  }

  lemma {:induction false} ValueNonNegative(inv: seq<InventoryItem>)
    ensures Stocked(inv) ==> SumOf(inv, ItemValue) >= 0
  {
    if inv != [] && Stocked(inv) {
      var last := inv[|inv| - 1];
      assert Stocked(inv[..|inv| - 1]);
      ValueNonNegative(inv[..|inv| - 1]);
      assert last.stock * last.costPerUnit >= 0;
    }
  }

  /**
   * Total assets: inventory value plus the revenue of the served orders in the
   * period, whatever order the completed list is shown in.
   */
  function TotalAssets(inv: seq<InventoryItem>, orders: seq<Order>, f: TimeFilter): (a: int)
    ensures a == InventoryValue(inv) + Revenue(Filter(orders, (o: Order) => Completed(o, f)))
    ensures Stocked(inv) ==> a >= Revenue(CompletedOrders(orders, f))
  {
    RevenueOfCompleted(orders, f);
    InventoryValue(inv) + Revenue(CompletedOrders(orders, f))
  }

  /** A row of the inventory report is flagged when fewer than ten units are left. */
  predicate LowStock(it: InventoryItem)
  {
    it.stock < 10
  }

  /** One row of the inventory table: the item, its line value and the low-stock flag. */
  datatype InventoryRow = InventoryRow(item: InventoryItem, value: int, low: bool)

  function RowValue(r: InventoryRow): int
  {
    r.value
  }

  /** The inventory table: one row per item, in order, flagged when fewer than ten units are left. */
  function InventoryReport(inv: seq<InventoryItem>): (rows: seq<InventoryRow>)
    ensures |rows| == |inv|
    ensures forall i :: 0 <= i < |inv| ==>
      rows[i].item == inv[i] && (rows[i].low <==> inv[i].stock < 10) &&
      rows[i].value == inv[i].stock * inv[i].costPerUnit
  {
    seq(|inv|, i requires 0 <= i < |inv| => InventoryRow(inv[i], ItemValue(inv[i]), LowStock(inv[i])))
  }

  /** The value column of the inventory table adds up to the total shown above it. */
  lemma {:induction false} ReportValuesAddUp(inv: seq<InventoryItem>)
    ensures SumOf(InventoryReport(inv), RowValue) == InventoryValue(inv)
  {
    if inv != [] {
      var n := |inv| - 1;
      assert InventoryReport(inv)[..n] == InventoryReport(inv[..n]);
      ReportValuesAddUp(inv[..n]);
    }
  }

  /** Recording an invoice line raises the inventory value by quantity × unit cost of the item credited. */
  lemma RestockRaisesValue(inv: seq<InventoryItem>, line: PurchaseItem)
    ensures var k := Inventory.FirstWithId(inv, line.inventoryItemId);
      InventoryValue(Inventory.Restock(inv, line)) ==
        InventoryValue(inv) + (if k.Some? then line.quantity * inv[k.value].costPerUnit else 0)
  {
    var k := Inventory.FirstWithId(inv, line.inventoryItemId);
    if k.Some? {
      var it := inv[k.value];
      var r := inv[k.value := it.(stock := it.stock + line.quantity)];
      Inventory.RestockIs(inv, line, k, r);
      StockValueGrows(it, line.quantity);
      SumOfPointwise(inv, r, k.value, ItemValue);
      assert InventoryValue(r) == InventoryValue(inv) + line.quantity * it.costPerUnit;
    } else {
      Inventory.RestockIs(inv, line, k, inv);
    }
  }

  lemma StockValueGrows(it: InventoryItem, q: int)
    ensures ItemValue(it.(stock := it.stock + q)) == ItemValue(it) + q * it.costPerUnit
  {
    assert (it.stock + q) * it.costPerUnit == it.stock * it.costPerUnit + q * it.costPerUnit;
  }
}
