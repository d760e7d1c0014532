/**
  The dashboard's read-only aggregates (lib/actions/get-total-revenue.ts,
  get-graph-revenue.ts, get-sales-count.ts, get-stock-count.ts). Each is a fold over a
  collection. An order item's price is the price of the product it refers to, given
  here as the function `price` from OrderItem id to amount.
*/
module Dashboard {
  import opened Wrappers
  import opened Documents
  import opened Sequences
  import opened OrderModel
  import opened ProductModel

  /** The query `{ storeId, isPaid: true }`: a paid order of the store. */
  predicate PaidOf(storeId: Id, o: Doc<Order>)
  {
    o.data.storeId == storeId && o.data.isPaid
  }

  function PaidIn(storeId: Id): Doc<Order> -> bool
  {
    o => PaidOf(storeId, o)
  }

  /** The sum of the prices of an order's items: each item once, with no quantity. */
  function ItemsTotal(items: seq<Id>, price: Id -> int): int
  {
    Sum(items, price)
  }

  /** What one order adds to the store's revenue. */
  function Contribution(storeId: Id, price: Id -> int): Doc<Order> -> int
  {
    o => if PaidOf(storeId, o) then ItemsTotal(o.data.orderItems, price) else 0
  }

  /** The store's revenue: the item totals of its paid orders, summed. */
  function Revenue(orders: seq<Doc<Order>>, storeId: Id, price: Id -> int): int
  {
    Sum(orders, Contribution(storeId, price))
  }

  /** What one order adds to the revenue of month `m`. */
  function MonthContribution(storeId: Id, price: Id -> int, m: Month): Doc<Order> -> int
  {
    o => if PaidOf(storeId, o) && o.data.createdMonth == m then ItemsTotal(o.data.orderItems, price) else 0
  }

  /** The revenue of the store's paid orders created in month `m`. */
  function MonthRevenue(orders: seq<Doc<Order>>, storeId: Id, price: Id -> int, m: Month): int
  {
    Sum(orders, MonthContribution(storeId, price, m))
  }

  /** The revenues of months 0 .. n - 1, added up. */
  function MonthsTotal(orders: seq<Doc<Order>>, storeId: Id, price: Id -> int, n: nat): int
    requires n <= 12
  {
    if n == 0 then 0 else MonthsTotal(orders, storeId, price, n - 1) + MonthRevenue(orders, storeId, price, n - 1)
  }

  /** One bar of the revenue graph. */
  datatype GraphData = GraphData(name: string, total: int)

  const MonthNames: seq<string> :=
    ["Jan", "Feb", "Mar", "Apr", "May", "Jun", "Jul", "Aug", "Sep", "Oct", "Nov", "Dec"]

  /** `getTotalRevenue`: the two nested `reduce`s over the store's paid orders and their items. */
  method GetTotalRevenue(orders: seq<Doc<Order>>, storeId: Id, price: Id -> int) returns (total: int)
    ensures total == Revenue(orders, storeId, price)
  {
    total := 0;
    for i := 0 to |orders|
      invariant total == Revenue(orders[..i], storeId, price)
    {
      var order := orders[i];
      var orderTotal := 0;
      if PaidOf(storeId, order) {
        var items := order.data.orderItems;
        for j := 0 to |items|
          invariant orderTotal == ItemsTotal(items[..j], price)
        {
          assert items[..j + 1] == items[..j] + [items[j]];
          SumSnoc(items[..j], items[j], price);
          orderTotal := orderTotal + price(items[j]);
        }
        assert items[..|items|] == items;
      }
      assert orders[..i + 1] == orders[..i] + [order];
      SumSnoc(orders[..i], order, Contribution(storeId, price));
      total := total + orderTotal;
    }
    assert orders[..|orders|] == orders;
  }

  /** Adding the order at position `i` to a prefix adds its share to every month. */
  lemma MonthRevenueStep(orders: seq<Doc<Order>>, i: nat, storeId: Id, price: Id -> int)
    requires i < |orders|
    ensures forall m: Month :: (MonthRevenue(orders[..i + 1], storeId, price, m) ==
      MonthRevenue(orders[..i], storeId, price, m) + MonthContribution(storeId, price, m)(orders[i]))
  {
    assert orders[..i + 1] == orders[..i] + [orders[i]];
    forall m: Month
      ensures MonthRevenue(orders[..i + 1], storeId, price, m) ==
        MonthRevenue(orders[..i], storeId, price, m) + MonthContribution(storeId, price, m)(orders[i])
    {
      SumSnoc(orders[..i], orders[i], MonthContribution(storeId, price, m));
    }
  }

  /**
    `getGraphRevenue`: group the store's paid orders by month into `monthlyRevenue`,
    then write each month found into a fixed Jan..Dec list of zeros.
  */
  method GetGraphRevenue(orders: seq<Doc<Order>>, storeId: Id, price: Id -> int) returns (graph: seq<GraphData>)
    ensures |graph| == 12
    ensures forall m: Month :: graph[m].name == MonthNames[m]
    ensures forall m: Month :: graph[m].total == MonthRevenue(orders, storeId, price, m)
  {
    var monthlyRevenue: map<int, int> := map[];
    for i := 0 to |orders|
      invariant forall m :: m in monthlyRevenue ==> 0 <= m < 12
      invariant forall m: Month :: m in monthlyRevenue ==> monthlyRevenue[m] == MonthRevenue(orders[..i], storeId, price, m)
      invariant forall m: Month :: m !in monthlyRevenue ==> MonthRevenue(orders[..i], storeId, price, m) == 0
    {
      MonthRevenueStep(orders, i, storeId, price);
      var order := orders[i];
      if PaidOf(storeId, order) {
        var month := order.data.createdMonth;
        var revenueForOrder := 0;
        var items := order.data.orderItems;
        for j := 0 to |items|
          invariant revenueForOrder == ItemsTotal(items[..j], price)
        {
          assert items[..j + 1] == items[..j] + [items[j]];
          SumSnoc(items[..j], items[j], price);
          revenueForOrder := revenueForOrder + price(items[j]);
        }
        assert items[..|items|] == items;
        var before := if month in monthlyRevenue then monthlyRevenue[month] else 0;
        monthlyRevenue := monthlyRevenue[month := before + revenueForOrder];
      }
    }
    assert orders[..|orders|] == orders;

    graph := [
      GraphData("Jan", 0), GraphData("Feb", 0), GraphData("Mar", 0), GraphData("Apr", 0),
      GraphData("May", 0), GraphData("Jun", 0), GraphData("Jul", 0), GraphData("Aug", 0),
      GraphData("Sep", 0), GraphData("Oct", 0), GraphData("Nov", 0), GraphData("Dec", 0)];
    // `for (const month in monthlyRevenue)`: every key is a month, so visiting the
    // months in calendar order and skipping those without a key visits exactly the keys.
    for month := 0 to 12
      invariant |graph| == 12
      invariant forall m: Month :: graph[m].name == MonthNames[m]
      invariant forall m: Month :: graph[m].total == if m in monthlyRevenue && m < month then monthlyRevenue[m] else 0
    {
      if month in monthlyRevenue {
        graph := graph[month := graph[month].(total := monthlyRevenue[month])];
      }
    }
  }

  /** The order in which the orders are visited does not change the revenue. */
  lemma RevenueIgnoresOrder(orders: seq<Doc<Order>>, reordered: seq<Doc<Order>>, storeId: Id, price: Id -> int)
    requires multiset(orders) == multiset(reordered)
    ensures Revenue(orders, storeId, price) == Revenue(reordered, storeId, price)
  {
    SumPermutation(orders, reordered, Contribution(storeId, price));
  }

  /** A store with no paid order has revenue 0. */
  lemma RevenueWithoutPaidOrders(orders: seq<Doc<Order>>, storeId: Id, price: Id -> int)
    requires forall i :: 0 <= i < |orders| ==> !PaidOf(storeId, orders[i])
    ensures Revenue(orders, storeId, price) == 0
  {
    SumOfZeros(orders, Contribution(storeId, price));
  }

  /**
    One more order adds the sum of its items' prices when it is a paid order of the
    store, and nothing otherwise (an unpaid order, another store's order, an order
    with no items).
  */
  lemma RevenueAddOrder(orders: seq<Doc<Order>>, o: Doc<Order>, storeId: Id, price: Id -> int)
    ensures Revenue(orders + [o], storeId, price) ==
      Revenue(orders, storeId, price) + (if PaidOf(storeId, o) then ItemsTotal(o.data.orderItems, price) else 0)
  {
    SumSnoc(orders, o, Contribution(storeId, price));
  }

  /** One more item adds its product's price exactly once. */
  lemma ItemsTotalAddItem(items: seq<Id>, item: Id, price: Id -> int)
    ensures ItemsTotal(items + [item], price) == ItemsTotal(items, price) + price(item)
  {
    SumSnoc(items, item, price);
  }

  /** A month in which the store has no paid order shows 0. */
  lemma EmptyMonthIsZero(orders: seq<Doc<Order>>, storeId: Id, price: Id -> int, m: Month)
    requires forall i :: 0 <= i < |orders| && PaidOf(storeId, orders[i]) ==> orders[i].data.createdMonth != m
    ensures MonthRevenue(orders, storeId, price, m) == 0
  {
    SumOfZeros(orders, MonthContribution(storeId, price, m));
  }

  /** One more order adds its share to the months before `n` only when it falls in one of them. */
  lemma {:induction false} MonthsTotalAddOrder(orders: seq<Doc<Order>>, o: Doc<Order>, storeId: Id, price: Id -> int, n: nat)
    requires n <= 12
    ensures MonthsTotal(orders + [o], storeId, price, n) == MonthsTotal(orders, storeId, price, n)
      + (if PaidOf(storeId, o) && o.data.createdMonth < n then ItemsTotal(o.data.orderItems, price) else 0)
  {
    if n > 0 {
      MonthsTotalAddOrder(orders, o, storeId, price, n - 1);
      SumSnoc(orders, o, MonthContribution(storeId, price, n - 1));
    }
  }

  /** With no orders every month is empty. */
  lemma {:induction false} MonthsTotalNoOrders(storeId: Id, price: Id -> int, n: nat)
    requires n <= 12
    ensures MonthsTotal([], storeId, price, n) == 0
  {
    if n > 0 {
      MonthsTotalNoOrders(storeId, price, n - 1);
    }
  }

  /** The twelve monthly totals add up to the store's revenue. */
  lemma {:induction false} MonthsAddUpToRevenue(orders: seq<Doc<Order>>, storeId: Id, price: Id -> int)
    ensures MonthsTotal(orders, storeId, price, 12) == Revenue(orders, storeId, price)
    decreases |orders|
  {
    if |orders| == 0 {
      MonthsTotalNoOrders(storeId, price, 12);
    } else {
      var n := |orders| - 1;
      assert orders == orders[..n] + [orders[n]];
      MonthsAddUpToRevenue(orders[..n], storeId, price);
      MonthsTotalAddOrder(orders[..n], orders[n], storeId, price, 12);
      RevenueAddOrder(orders[..n], orders[n], storeId, price);
    }
  }

  /** `getSalesCount`: how many orders of the store are paid. */
  function GetSalesCount(orders: seq<Doc<Order>>, storeId: Id): (n: nat)
    ensures n == |set i: nat | i < |orders| && orders[i].data.storeId == storeId && orders[i].data.isPaid|
  {
    assert Positions(orders, PaidIn(storeId)) ==
      set i: nat | i < |orders| && orders[i].data.storeId == storeId && orders[i].data.isPaid;
    Count(orders, PaidIn(storeId))
  }

  /** The sales count never exceeds the number of orders the store has. */
  lemma SalesCountAtMostStoreOrders(orders: seq<Doc<Order>>, storeId: Id)
    ensures GetSalesCount(orders, storeId) <= |set i: nat | i < |orders| && orders[i].data.storeId == storeId|
  {
    var ofStore: Doc<Order> -> bool := (o: Doc<Order>) => o.data.storeId == storeId;
    CountMonotone(orders, PaidIn(storeId), ofStore);
    assert Positions(orders, ofStore) == set i: nat | i < |orders| && orders[i].data.storeId == storeId;
  }

  /** One more order is counted exactly when it is a paid order of the store. */
  lemma SalesCountAddOrder(orders: seq<Doc<Order>>, o: Doc<Order>, storeId: Id)
    ensures GetSalesCount(orders + [o], storeId) == GetSalesCount(orders, storeId) + (if PaidOf(storeId, o) then 1 else 0)
  {
    CountSnoc(orders, o, PaidIn(storeId));
  }

  /** A newly created order is unpaid, so it changes neither the sales count nor any revenue figure. */
  lemma NewOrderInvisible(orders: seq<Doc<Order>>, id: Id, d: OrderDraft, storeId: Id, price: Id -> int, m: Month)
    requires OrderModel.Create(d).Success?
    ensures GetSalesCount(orders + [Doc(id, OrderModel.Create(d).value)], storeId) == GetSalesCount(orders, storeId)
    ensures Revenue(orders + [Doc(id, OrderModel.Create(d).value)], storeId, price) == Revenue(orders, storeId, price)
    ensures MonthRevenue(orders + [Doc(id, OrderModel.Create(d).value)], storeId, price, m) ==
      MonthRevenue(orders, storeId, price, m)
  {
    var o := Doc(id, OrderModel.Create(d).value);
    SalesCountAddOrder(orders, o, storeId);
    RevenueAddOrder(orders, o, storeId, price);
    SumSnoc(orders, o, MonthContribution(storeId, price, m));
  }

  /** The query `{ storeId, isArchived: false }`: an unarchived product of the store. */
  predicate InStock(storeId: Id, p: Doc<Product>)
  {
    p.data.storeId == storeId && !p.data.isArchived
  }

  function InStockOf(storeId: Id): Doc<Product> -> bool
  {
    p => InStock(storeId, p)
  }

  /** `getStockCount`: how many products of the store are not archived. */
  function GetStockCount(products: seq<Doc<Product>>, storeId: Id): (n: nat)
    ensures n == |set i: nat | i < |products| && products[i].data.storeId == storeId && !products[i].data.isArchived|
  {
    assert Positions(products, InStockOf(storeId)) ==
      set i: nat | i < |products| && products[i].data.storeId == storeId && !products[i].data.isArchived;
    Count(products, InStockOf(storeId))
  }

  /** Archiving one counted product lowers the stock count by exactly one. */
  lemma ArchivingLowersStock(products: seq<Doc<Product>>, i: nat, storeId: Id)
    requires i < |products| && InStock(storeId, products[i])
    ensures GetStockCount(products[i := products[i].(data := products[i].data.(isArchived := true))], storeId) ==
      GetStockCount(products, storeId) - 1
  {
    CountReplace(products, i, products[i].(data := products[i].data.(isArchived := true)), InStockOf(storeId));
  }

  /** A product created without an explicit `isArchived` counts toward its store's stock. */
  lemma NewProductCountsTowardStock(products: seq<Doc<Product>>, id: Id, d: ProductDraft)
    requires ProductModel.Create(d).Success? && d.isArchived.None?
    ensures GetStockCount(products + [Doc(id, ProductModel.Create(d).value)], d.storeId.value) ==
      GetStockCount(products, d.storeId.value) + 1
  {
    CountSnoc(products, Doc(id, ProductModel.Create(d).value), InStockOf(d.storeId.value));
  }

  // ---------------------------------------------------------------------------
  // getTotalRevenue as written populates the path "products", which the Order
  // schema does not have, so `orderItems` keeps bare OrderItem ids and
  // `item.productId.price` reads `price` off `undefined`.
  // ---------------------------------------------------------------------------

  /** The error a property read on `undefined` throws. */
  const UndefinedPrice := "TypeError: Cannot read properties of undefined (reading 'price')"

  /** `getTotalRevenue` with its populate path as written. */
  function TotalRevenueAsWritten(orders: seq<Doc<Order>>, storeId: Id): (r: Result<int, string>)
    ensures r.Success? <==> forall i :: 0 <= i < |orders| && PaidOf(storeId, orders[i]) ==> orders[i].data.orderItems == []
    ensures r.Success? ==> r.value == 0
    ensures r.Failure? ==> r.error == UndefinedPrice
    decreases |orders|
  {
    if |orders| == 0 then Success(0)
    else if PaidOf(storeId, orders[0]) && orders[0].data.orderItems != [] then Failure(UndefinedPrice)
    else
      var rest := TotalRevenueAsWritten(orders[1..], storeId);
      assert forall i :: 1 <= i < |orders| ==> orders[i] == orders[1..][i - 1];
      rest
  }

  /** One paid order with one item of price 100: the code as written throws, the intended total is 100. */
  lemma TotalRevenueAsWrittenThrows()
    ensures var orders := [Doc(1, Order(7, [3], true, "", "", 0))];
      && TotalRevenueAsWritten(orders, 7).Failure?
      && Revenue(orders, 7, _ => 100) == 100
  {
    var orders := [Doc(1, Order(7, [3], true, "", "", 0))];
    RevenueAddOrder([], orders[0], 7, _ => 100);
    ItemsTotalAddItem([], 3, _ => 100);
    assert [] + orders == orders;
  }
}
