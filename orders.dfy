/** Orders of BackEnd/OrderRoutes.js: placing an order (a header row in
    `orders`, then one snapshot row per item in `order_items`, without a
    transaction), the two listings that attach each order's items, and the
    status update limited to five values. */
module Orders {
  import opened Wrappers
  import opened Http
  import opened JsValues
  import opened Tables
  import opened Ordering
  import Users

  const DEFAULT_STATUS := "processing"

  /** The statuses PUT /orders/:orderId/status accepts. */
  const VALID_STATUSES: set<string> := {"processing", "shipped", "delivered", "cancelled", "completed"}

  /** `validStatuses.includes(status)` */
  predicate ValidStatus(v: JsValue) {
    v.Str? && v.s in VALID_STATUSES
  }

  /** A row of `orders`; body values are stored as sent, `created_at` is
      `NOW()`. */
  datatype Order = Order(userId: JsValue, totalPrice: JsValue, status: JsValue, shippingAddress: JsValue,
                         contactPhone: JsValue, comments: JsValue, createdAt: int)

  /** A row of `order_items`: the item as it was when the order was placed. */
  datatype OrderItem = OrderItem(orderId: int, productId: JsValue, quantity: JsValue, price: JsValue, name: JsValue)

  /** The body of POST /orders. */
  datatype OrderRequest = OrderRequest(userId: JsValue, totalPrice: JsValue, status: JsValue, items: JsValue,
                                       shippingAddress: JsValue, contactPhone: JsValue, comments: JsValue)

  /** A store failure while placing an order: the header INSERT, or the
      INSERTs of some items (by position), are rejected. */
  datatype OrderFaults = OrderFaults(headerFails: bool, failedItems: set<int>)

  /** `items = []` */
  function RequestItems(req: OrderRequest): (v: JsValue)
    ensures req.items.Undefined? ==> v == Arr([])
    ensures !req.items.Undefined? ==> v == req.items
  {
    DefaultIfUndefined(req.items, Arr([]))
  }

  /** A truthy user_id and a non-empty items array. */
  predicate Acceptable(req: OrderRequest) {
    Truthy(req.userId) && RequestItems(req).Arr? && |RequestItems(req).elems| > 0
  }

  /** The header row; the status is defaulted when absent and not checked
      against the valid set. */
  function NewOrder(req: OrderRequest, now: int): (o: Order)
    ensures req.status.Undefined? ==> o.status == Str(DEFAULT_STATUS)
    ensures !req.status.Undefined? ==> o.status == req.status
    ensures o.userId == req.userId && o.totalPrice == req.totalPrice && o.createdAt == now
    ensures o.shippingAddress == req.shippingAddress && o.contactPhone == req.contactPhone
            && o.comments == req.comments
  {
    Order(req.userId, req.totalPrice, DefaultIfUndefined(req.status, Str(DEFAULT_STATUS)),
          req.shippingAddress, req.contactPhone, req.comments, now)
  }

  /** `item.<key>` for an item the map has reached; an undefined or null
      item never gets this far (see Dispatched). */
  function Field(item: JsValue, key: string): (r: JsValue)
    ensures !Nullish(item) ==> Some(r) == Get(item, key)
  {
    if Nullish(item) then Undefined else Get(item, key).value
  }

  /** The row one reached item becomes. */
  function ItemRow(orderId: int, item: JsValue): (r: OrderItem)
    ensures r.orderId == orderId
  {
    OrderItem(orderId, Field(item, "product_id"), Field(item, "quantity"),
              Field(item, "price"), Field(item, "name"))
  }

  /** How many items `items.map(...)` reaches before an undefined or null
      item throws. */
  function Dispatched(items: seq<JsValue>): (n: nat)
    ensures n <= |items|
    ensures forall i :: 0 <= i < n ==> !Nullish(items[i])
    ensures n < |items| ==> Nullish(items[n])
  {
    if items == [] then 0
    else if Nullish(items[0]) then 0
    else 1 + Dispatched(items[1..])
  }

  /** The item rows that land from the first n dispatched items: each one
      whose INSERT is not rejected, in order. */
  function Landed(orderId: int, items: seq<JsValue>, failed: set<int>, n: nat): (r: seq<OrderItem>)
    requires n <= |items|
    ensures |r| <= n
  {
    if n == 0 then []
    else
      var prefix := Landed(orderId, items, failed, n - 1);
      if n - 1 in failed then prefix else prefix + [ItemRow(orderId, items[n - 1])]
  }

  /** With no rejected INSERT, the first n items land one row each, in
      order, each carrying the order's id and that item's fields. */
  lemma {:induction false} LandedAll(orderId: int, items: seq<JsValue>, failed: set<int>, n: nat)
    requires n <= Dispatched(items)
    requires forall i :: 0 <= i < n ==> i !in failed
    ensures var r := Landed(orderId, items, failed, n);
            |r| == n && forall k :: 0 <= k < n ==> r[k] == ItemRow(orderId, items[k])
  {
    if n > 0 {
      LandedAll(orderId, items, failed, n - 1);
    }
  }

  /** A rejected INSERT among the first n items leaves fewer than n rows. */
  lemma {:induction false} LandedFewer(orderId: int, items: seq<JsValue>, failed: set<int>, n: nat, i: int)
    requires n <= Dispatched(items)
    requires 0 <= i < n && i in failed
    ensures |Landed(orderId, items, failed, n)| < n
  {
    if i < n - 1 {
      LandedFewer(orderId, items, failed, n - 1, i);
    }
  }

  /** Every item row a create leaves behind, whatever the reply. */
  function NewItemRows(orderId: int, req: OrderRequest, faults: OrderFaults): (r: seq<OrderItem>)
    requires Acceptable(req)
    ensures |r| <= |RequestItems(req).elems|
  {
    var items := RequestItems(req).elems;
    Landed(orderId, items, faults.failedItems, Dispatched(items))
  }

  /** The create answers 201 exactly when every item was reached and every
      INSERT succeeded. */
  predicate CreateSucceeds(req: OrderRequest, faults: OrderFaults)
    requires Acceptable(req)
  {
    var items := RequestItems(req).elems;
    !faults.headerFails && Dispatched(items) == |items|
    && forall i :: 0 <= i < |items| ==> i !in faults.failedItems
  }

  /** A successful create stores one row per submitted item, in order, each
      carrying the new order's id and that item's fields. */
  lemma SuccessStoresEveryItem(orderId: int, req: OrderRequest, faults: OrderFaults)
    requires Acceptable(req) && CreateSucceeds(req, faults)
    ensures var items := RequestItems(req).elems;
            var r := NewItemRows(orderId, req, faults);
            |r| == |items| && forall k :: 0 <= k < |r| ==> r[k] == ItemRow(orderId, items[k])
  {
    var items := RequestItems(req).elems;
    LandedAll(orderId, items, faults.failedItems, |items|);
  }

  /** A create that answers 500 after its header went in leaves that header
      with fewer item rows than were submitted. */
  lemma FailureLeavesFewerItems(orderId: int, req: OrderRequest, faults: OrderFaults)
    requires Acceptable(req) && !faults.headerFails && !CreateSucceeds(req, faults)
    ensures |NewItemRows(orderId, req, faults)| < |RequestItems(req).elems|
  {
    var items := RequestItems(req).elems;
    var n := Dispatched(items);
    if n == |items| {
      var i :| 0 <= i < |items| && i in faults.failedItems;
      LandedFewer(orderId, items, faults.failedItems, n, i);
    }
  }

  /** `SELECT * FROM order_items WHERE order_id = ?` (getOrderItems). */
  function ItemsOf(items: seq<Row<OrderItem>>, orderId: int): (r: seq<Row<OrderItem>>)
    ensures forall x :: x in r <==> x in items && x.data.orderId == orderId
    ensures |r| <= |items|
  {
    if items == [] then []
    else (if items[0].data.orderId == orderId then [items[0]] else []) + ItemsOf(items[1..], orderId)
  }

  /** `SELECT * FROM orders WHERE user_id = ?` */
  function OrdersOf(orders: seq<Row<Order>>, userId: int): (r: seq<Row<Order>>)
    ensures forall x :: x in r <==> x in orders && KeyOf(x.data.userId) == Some(userId)
  {
    if orders == [] then []
    else (if KeyOf(orders[0].data.userId) == Some(userId) then [orders[0]] else []) + OrdersOf(orders[1..], userId)
  }

  function CreatedAt(o: Row<Order>): int {
    o.data.createdAt
  }

  /** `{ ...order, items }` */
  datatype EnrichedOrder = EnrichedOrder(order: Row<Order>, items: seq<Row<OrderItem>>)

  /** `{ ...order, userName, items }` for the admin listing; the name is
      absent (NULL) when the LEFT JOIN finds no account. */
  datatype AdminOrder = AdminOrder(order: Row<Order>, userName: Option<string>, items: seq<Row<OrderItem>>)

  /** `u.name` of the account the order's user_id names, if any. */
  function UserNameOf(users: seq<Row<Users.User>>, userId: JsValue): (r: Option<string>)
    ensures r.Some? <==> KeyOf(userId).Some? && HasId(users, KeyOf(userId).value)
    ensures r.Some? ==> r.value == users[Find(users, KeyOf(userId).value).value].data.name
  {
    match KeyOf(userId)
    case None => None
    case Some(id) =>
      match Find(users, id)
      case None => None
      case Some(k) => Some(users[k].data.name)
  }

  /** GET /orders/user/:userId: that user's orders, newest first, each with
      exactly its own items. */
  function UserOrders(orders: seq<Row<Order>>, items: seq<Row<OrderItem>>, userId: int): (r: seq<EnrichedOrder>)
    ensures var mine := SortDesc(OrdersOf(orders, userId), CreatedAt);
            |r| == |mine|
            && forall k :: 0 <= k < |r| ==> r[k].order == mine[k] && r[k].items == ItemsOf(items, mine[k].id)
  {
    var mine := SortDesc(OrdersOf(orders, userId), CreatedAt);
    seq(|mine|, k requires 0 <= k < |mine| => EnrichedOrder(mine[k], ItemsOf(items, mine[k].id)))
  }

  /** GET /orders/all: every order, newest first, with the name of its
      account and its items. */
  function AllOrders(orders: seq<Row<Order>>, users: seq<Row<Users.User>>, items: seq<Row<OrderItem>>)
    : (r: seq<AdminOrder>)
    ensures var all := SortDesc(orders, CreatedAt);
            |r| == |all|
            && forall k :: 0 <= k < |r| ==>
                 r[k] == AdminOrder(all[k], UserNameOf(users, all[k].data.userId), ItemsOf(items, all[k].id))
  {
    var all := SortDesc(orders, CreatedAt);
    seq(|all|, k requires 0 <= k < |all| =>
      AdminOrder(all[k], UserNameOf(users, all[k].data.userId), ItemsOf(items, all[k].id)))
  }

  /** The user listing holds only that user's orders... */
  lemma UserOrdersOnlyTheUsers(orders: seq<Row<Order>>, items: seq<Row<OrderItem>>, userId: int)
    ensures var r := UserOrders(orders, items, userId);
            forall k :: 0 <= k < |r| ==> r[k].order in orders && KeyOf(r[k].order.data.userId) == Some(userId)
  {
    var mine := SortDesc(OrdersOf(orders, userId), CreatedAt);
    forall k | 0 <= k < |mine| ensures mine[k] in OrdersOf(orders, userId) {
      assert mine[k] in multiset(mine);
    }
  }

  /** ...all of them... */
  lemma UserOrdersComplete(orders: seq<Row<Order>>, items: seq<Row<OrderItem>>, userId: int, o: Row<Order>)
    requires o in orders && KeyOf(o.data.userId) == Some(userId)
    ensures var r := UserOrders(orders, items, userId);
            exists k :: 0 <= k < |r| && r[k].order == o
  {
    var mine := SortDesc(OrdersOf(orders, userId), CreatedAt);
    assert o in multiset(OrdersOf(orders, userId));
    assert o in multiset(mine);
    var k :| 0 <= k < |mine| && mine[k] == o;
    assert UserOrders(orders, items, userId)[k].order == o;
  }

  /** ...newest first. */
  lemma UserOrdersNewestFirst(orders: seq<Row<Order>>, items: seq<Row<OrderItem>>, userId: int)
    ensures var r := UserOrders(orders, items, userId);
            forall i, j :: 0 <= i < j < |r| ==> r[i].order.data.createdAt >= r[j].order.data.createdAt
  {
    var mine := SortDesc(OrdersOf(orders, userId), CreatedAt);
    assert forall i, j :: 0 <= i < j < |mine| ==> CreatedAt(mine[i]) >= CreatedAt(mine[j]);
  }

  /** Each order of the user listing carries exactly the item rows with its
      id. */
  lemma UserOrdersCarryTheirItems(orders: seq<Row<Order>>, items: seq<Row<OrderItem>>, userId: int, k: int)
    requires 0 <= k < |UserOrders(orders, items, userId)|
    ensures var e := UserOrders(orders, items, userId)[k];
            forall x :: x in e.items <==> x in items && x.data.orderId == e.order.id
  {
  }

  /** Every item row belongs to an order. */
  predicate ItemsOwned(orders: seq<Row<Order>>, items: seq<Row<OrderItem>>) {
    forall k :: 0 <= k < |items| ==> HasId(orders, items[k].data.orderId)
  }

  lemma AddOwnedItem(orders: seq<Row<Order>>, items: seq<Row<OrderItem>>, nextId: int, d: OrderItem)
    requires ItemsOwned(orders, items) && HasId(orders, d.orderId)
    ensures ItemsOwned(orders, items + [Row(nextId, d)])
  {
    var items' := items + [Row(nextId, d)];
    forall k | 0 <= k < |items'| ensures HasId(orders, items'[k].data.orderId) {
      if k < |items| {
        assert items'[k] == items[k];
      }
    }
  }

  lemma AddOrderKeepsOwned(orders: seq<Row<Order>>, items: seq<Row<OrderItem>>, o: Row<Order>)
    requires ItemsOwned(orders, items)
    ensures ItemsOwned(orders + [o], items)
  {
    forall k | 0 <= k < |items| ensures HasId(orders + [o], items[k].data.orderId) {
      var m :| 0 <= m < |orders| && orders[m].id == items[k].data.orderId;
      assert (orders + [o])[m] == orders[m];
    }
  }

  /** `items.map(item => db.execute(INSERT ...))` followed by
      `Promise.all`: every reached item is sent, a rejected INSERT only
      makes the whole request fail, and an undefined or null item stops
      the map. Returns the new `order_items` rows, the next key and whether
      every INSERT went through. */
  method DispatchItems(owners: seq<Row<Order>>, rows: seq<Row<OrderItem>>, next: int, orderId: int,
                       reqItems: seq<JsValue>, failed: set<int>)
    returns (rows': seq<Row<OrderItem>>, next': int, ok: bool)
    requires ItemsOwned(owners, rows) && HasId(owners, orderId)
    ensures ItemsOwned(owners, rows')
    ensures rows' == InsertAll(rows, next, Landed(orderId, reqItems, failed, Dispatched(reqItems)))
    ensures next' == next + |Landed(orderId, reqItems, failed, Dispatched(reqItems))|
    ensures ok <==> Dispatched(reqItems) == |reqItems| && forall i :: 0 <= i < |reqItems| ==> i !in failed
  {
    rows', next', ok := rows, next, true;
    var n := Dispatched(reqItems);
    ghost var landed: seq<OrderItem> := [];
    var i := 0;
    while i < |reqItems|
      invariant 0 <= i <= n
      invariant landed == Landed(orderId, reqItems, failed, i)
      invariant rows' == InsertAll(rows, next, landed) && ItemsOwned(owners, rows')
      invariant next' == next + |landed|
      invariant ok <==> forall j :: 0 <= j < i ==> j !in failed
      decreases |reqItems| - i
    {
      if Nullish(reqItems[i]) {
        ok := false;                              // TypeError inside the map
        break;
      }
      if i in failed {
        ok := false;                              // the promise rejects
      } else {
        var row := ItemRow(orderId, reqItems[i]);
        InsertAllSnoc(rows, next, landed, row);
        AddOwnedItem(owners, rows', next', row);
        rows' := rows' + [Row(next', row)];
        next' := next' + 1;
        landed := landed + [row];
      }
      i := i + 1;
    }
    assert i == n;
  }

  // ---------------------------------------------------------------------
  // The two tables, updated in place

  class OrderStore {
    var orders: seq<Row<Order>>
    var nextOrderId: int
    var items: seq<Row<OrderItem>>
    var nextItemId: int

    /** Keys are well formed and every item row belongs to an order. */
    predicate Valid()
      reads this
    {
      && WellFormed(orders, nextOrderId)
      && WellFormed(items, nextItemId)
      && ItemsOwned(orders, items)
    }

    constructor ()
      ensures Valid()
      ensures orders == [] && items == []
    {
      orders, nextOrderId, items, nextItemId := [], 1, [], 1;
    }

    /** POST /orders. */
    method Create(req: OrderRequest, now: int, faults: OrderFaults) returns (r: Reply, orderId: Option<int>)
      requires Valid()
      modifies this
      ensures Valid()
      ensures !Acceptable(req) ==>
                r == Status(BAD_REQUEST) && orderId.None? && orders == old(orders) && items == old(items)
      ensures Acceptable(req) && faults.headerFails ==>
                r == Status(SERVER_ERROR) && orderId.None? && orders == old(orders) && items == old(items)
      ensures Acceptable(req) && !faults.headerFails ==>
                var id := old(nextOrderId);
                var rows := NewItemRows(id, req, faults);
                && orders == old(orders) + [Row(id, NewOrder(req, now))]
                && nextOrderId == id + 1
                && items == InsertAll(old(items), old(nextItemId), rows)
                && nextItemId == old(nextItemId) + |rows|
                && (r == Status(CREATED) <==> CreateSucceeds(req, faults))
                && (r == Status(CREATED) ==> orderId == Some(id))
                && (r != Status(CREATED) ==> r == Status(SERVER_ERROR) && orderId.None?)
    {
      if !Acceptable(req) {
        return Status(BAD_REQUEST), None;
      }
      if faults.headerFails {
        return Status(SERVER_ERROR), None;
      }
      var id := nextOrderId;
      orders := orders + [Row(id, NewOrder(req, now))];
      nextOrderId := nextOrderId + 1;
      AddOrderKeepsOwned(old(orders), items, Row(id, NewOrder(req, now)));
      assert orders[|orders| - 1].id == id;
      var ok := InsertItems(id, RequestItems(req).elems, faults.failedItems);
      if ok && CreateSucceeds(req, faults) {
        r, orderId := Status(CREATED), Some(id);
      } else {
        r, orderId := Status(SERVER_ERROR), None;
      }
    }

    /** The item INSERTs of POST /orders. */
    method InsertItems(orderId: int, reqItems: seq<JsValue>, failed: set<int>) returns (ok: bool)
      requires Valid() && HasId(orders, orderId)
      modifies this`items, this`nextItemId
      ensures Valid()
      ensures items == InsertAll(old(items), old(nextItemId), Landed(orderId, reqItems, failed, Dispatched(reqItems)))
      ensures nextItemId == old(nextItemId) + |Landed(orderId, reqItems, failed, Dispatched(reqItems))|
      ensures ok <==> Dispatched(reqItems) == |reqItems| && forall i :: 0 <= i < |reqItems| ==> i !in failed
    {
      InsertAllWellFormed(items, nextItemId, Landed(orderId, reqItems, failed, Dispatched(reqItems)));
      items, nextItemId, ok := DispatchItems(orders, items, nextItemId, orderId, reqItems, failed);
    }
    /** PUT /orders/:orderId/status. */
    method UpdateStatus(orderId: int, status: JsValue) returns (r: Reply)
      requires Valid()
      modifies this`orders
      ensures Valid()
      ensures !ValidStatus(status) ==> r == Status(BAD_REQUEST) && orders == old(orders)
      ensures ValidStatus(status) && !HasId(old(orders), orderId) ==>
                r == Status(NOT_FOUND) && orders == old(orders)
      ensures ValidStatus(status) && HasId(old(orders), orderId) ==>
                var k := Find(old(orders), orderId).value;
                r == Status(OK) && orders == old(orders)[k := Row(orderId, old(orders)[k].data.(status := status))]
    {
      if !ValidStatus(status) {
        return Status(BAD_REQUEST);
      }
      var k := Find(orders, orderId);
      if k.None? {
        return Status(NOT_FOUND);
      }
      var updated := orders[k.value].data.(status := status);
      UpdateWellFormed(orders, nextOrderId, k.value, updated);
      ghost var before := orders;
      orders := orders[k.value := Row(orderId, updated)];
      assert ItemsOwned(orders, items) by {
        forall j | 0 <= j < |items| ensures HasId(orders, items[j].data.orderId) {
          var m :| 0 <= m < |before| && before[m].id == items[j].data.orderId;
          assert orders[m].id == before[m].id;
        }
      }
      r := Status(OK);
    }

    /** GET /orders/user/:userId. */
    method ListForUser(userId: int) returns (r: seq<EnrichedOrder>)
      ensures r == UserOrders(orders, items, userId)
    {
      var mine := SortDesc(OrdersOf(orders, userId), CreatedAt);
      r := [];
      var i := 0;
      while i < |mine|
        invariant 0 <= i <= |mine|
        invariant r == UserOrders(orders, items, userId)[..i]
      {
        r := r + [EnrichedOrder(mine[i], ItemsOf(items, mine[i].id))];
        i := i + 1;
      }
    }

    /** GET /orders/all. */
    method ListAll(users: seq<Row<Users.User>>) returns (r: seq<AdminOrder>)
      ensures r == AllOrders(orders, users, items)
    {
      var all := SortDesc(orders, CreatedAt);
      r := [];
      var i := 0;
      while i < |all|
        invariant 0 <= i <= |all|
        invariant r == AllOrders(orders, users, items)[..i]
      {
        r := r + [AdminOrder(all[i], UserNameOf(users, all[i].data.userId), ItemsOf(items, all[i].id))];
        i := i + 1;
      }
    }
  }

  /** The create stores the status it is given without checking it, so
      an order holds a status the status update would accept exactly when
      it was defaulted or sent as one of the five. */
  lemma StatusChecks(req: OrderRequest, now: int)
    ensures ValidStatus(NewOrder(req, now).status) <==> req.status.Undefined? || ValidStatus(req.status)
  {
  }
}
