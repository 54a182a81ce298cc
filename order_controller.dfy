/**
 * The order request handlers: placing an order, reading it, marking it paid
 * or delivered, listing the caller's orders, deleting, and the stock update
 * that walks the order's line items and decrements each product in place.
 */
module OrderController {
  import opened Common
  import opened JsText
  import opened ProductModel

  /** A line item as the client sent it and the order keeps it: a plain object. */
  type LineItem = JsObject

  datatype PaymentResult = PaymentResult(
    id: Option<Json>, status: Option<Json>, updateTime: Option<Json>, emailAddress: Option<Json>)

  /** A stored order; prices and the address are kept exactly as the client sent them. */
  datatype Order = Order(
    orderItems: seq<LineItem>,
    user: Id,
    shippingAddress: Option<Json>,
    paymentMethod: Option<Json>,
    itemsPrice: Option<Json>,
    taxPrice: Option<Json>,
    shippingPrice: Option<Json>,
    totalPrice: Option<Json>,
    isPaid: bool,
    paidAt: Option<int>,
    paymentResult: Option<PaymentResult>,
    isDelivered: bool,
    deliveredAt: Option<int>)

  /** `obj[key]` on an object whose keys are unique. */
  function Get(o: JsObject, key: string): (r: Option<Json>)
    ensures r.Some? <==> key in o
    ensures r.Some? ==> r.value == o[key]
  {
    if key in o then Some(o[key]) else None
  }

  /** The own properties of a parsed object. */
  function ToObject(ms: seq<Member>): (o: JsObject)
    ensures forall k :: Get(o, k) == Lookup(ms, k)
  {
    var keys := set m | m in ms :: m.key;
    var o := map k | k in keys :: Lookup(ms, k).value;
    assert forall k :: k in o <==> Lookup(ms, k).Some? by {
      forall k ensures k in o <==> Lookup(ms, k).Some? {
        if Lookup(ms, k).Some? {
          assert Member(k, Lookup(ms, k).value) in ms;
        }
      }
    }
    o
  }

  // ---------------------------------------------------------------------
  // POST /orders
  // ---------------------------------------------------------------------

  /**
   * `{ ...x, product: x._id, _id: undefined }` for an object element: every
   * client field is kept, `product` takes the client's `_id`, and `_id` is
   * gone (a property set to `undefined` is not stored).
   */
  function NormalizeItem(x: Json): (r: LineItem)
    requires x != JNull
    ensures "_id" !in r
    ensures x.JObj? ==> Get(r, "product") == Lookup(x.members, "_id")
    ensures x.JObj? ==> forall k :: k != "_id" && k != "product" ==> Get(r, k) == Lookup(x.members, k)
    ensures !x.JObj? ==> r == map[]
  {
    var own := if x.JObj? then ToObject(x.members) else map[];
    var rest := own - {"_id", "product"};
    if "_id" in own then rest["product" := own["_id"]] else rest
  }

  /** `orderItems.length === 0`. */
  predicate LengthIsZero(v: Json) {
    match v
    case JArr(items) => items == []
    case JStr(s) => s == []
    case JObj(ms) => Lookup(ms, "length") == Some(JNum(0))
    case _ => false
  }

  /**
   * The order `addOrderItems` saves, or the status it fails with: 400 for a
   * present but empty item list; 500 when the items are missing or not an
   * array, or one of them is `null` (`.map` or `x._id` throws).
   */
  function NewOrder(body: JsObject, user: User): (r: Result<Order, nat>)
    ensures var v := Get(body, "orderItems");
      r == Failure(BadRequest) <==> Truthy(v) && LengthIsZero(v.value)
    ensures r.Failure? ==> r.error == BadRequest || r.error == ServerError
    ensures r.Success? ==>
      var v := Get(body, "orderItems");
      && v.Some? && v.value.JArr? && v.value.items != []
      && |r.value.orderItems| == |v.value.items|
      && (forall i :: 0 <= i < |v.value.items| ==>
            v.value.items[i] != JNull && r.value.orderItems[i] == NormalizeItem(v.value.items[i]))
      && r.value.user == user.id
      && r.value.shippingAddress == Get(body, "shippingAddress")
      && r.value.paymentMethod == Get(body, "paymentMethod")
      && r.value.itemsPrice == Get(body, "itemsPrice")
      && r.value.taxPrice == Get(body, "taxPrice")
      && r.value.shippingPrice == Get(body, "shippingPrice")
      && r.value.totalPrice == Get(body, "totalPrice")
      && !r.value.isPaid && !r.value.isDelivered
      && r.value.paidAt == None && r.value.deliveredAt == None && r.value.paymentResult == None
  {
    var v := Get(body, "orderItems");
    if Truthy(v) && LengthIsZero(v.value) then Failure(BadRequest)
    else if v.None? || !v.value.JArr? then Failure(ServerError)
    else if exists i :: 0 <= i < |v.value.items| && v.value.items[i] == JNull then Failure(ServerError)
    else
      var items := v.value.items;
      Success(Order(
        seq(|items|, i requires 0 <= i < |items| => NormalizeItem(items[i])),
        user.id,
        Get(body, "shippingAddress"), Get(body, "paymentMethod"),
        Get(body, "itemsPrice"), Get(body, "taxPrice"), Get(body, "shippingPrice"), Get(body, "totalPrice"),
        false, None, None, false, None))
  }

  /** `addOrderItems`: nothing is stored unless the order is accepted; then it is stored under a fresh id. */
  method AddOrderItems(orders: Collection<Order>, body: JsObject, user: User, newId: Id)
    returns (r: Response<Order>)
    requires newId !in orders.docs
    modifies orders
    ensures NewOrder(body, user).Failure? ==>
      r == Err(NewOrder(body, user).error) && orders.docs == old(orders.docs)
    ensures NewOrder(body, user).Success? ==>
      r == Ok(201, NewOrder(body, user).value) && orders.docs == old(orders.docs)[newId := r.body]
  {
    var order := NewOrder(body, user);
    if order.Failure? {
      return Err(order.error);
    }
    orders.Save(newId, order.value);
    return Ok(201, order.value);
  }

  // ---------------------------------------------------------------------
  // GET /orders/myorders, DELETE /orders/:id (GET /orders/:id is Common.GetById)
  // ---------------------------------------------------------------------

  /** `getMyOrders`: exactly the caller's orders. */
  function GetMyOrders(orders: map<Id, Order>, user: User): (r: map<Id, Order>)
    ensures forall k :: k in r <==> k in orders && orders[k].user == user.id
    ensures forall k :: k in r ==> r[k] == orders[k]
  {
    map k | k in orders && orders[k].user == user.id :: orders[k]
  }

  /** No order appears in two callers' lists. */
  lemma MyOrdersPartition(orders: map<Id, Order>, u1: User, u2: User)
    requires u1.id != u2.id
    ensures GetMyOrders(orders, u1).Keys !! GetMyOrders(orders, u2).Keys
  {
  }

  /** `deleteOrder`: removes the order, or 404 and nothing changes. */
  method DeleteOrder(orders: Collection<Order>, id: Id) returns (r: Response<string>)
    modifies orders
    ensures id !in old(orders.docs) ==> r == Err(NotFound) && orders.docs == old(orders.docs)
    ensures id in old(orders.docs) ==> r == Ok(200, "Order removed") && orders.docs == old(orders.docs) - {id}
  {
    if id !in orders.docs {
      return Err(NotFound);
    }
    orders.Remove(id);
    return Ok(200, "Order removed");
  }

  // ---------------------------------------------------------------------
  // PUT /orders/:id/pay and /orders/:id/deliver
  // ---------------------------------------------------------------------

  /**
   * The payment record built from the body; `None` when `payer` is missing
   * or `null`, where reading `payer.email_address` throws.
   */
  function PaymentOf(body: JsObject): (r: Option<PaymentResult>)
    ensures r.None? <==> Get(body, "payer") == None || Get(body, "payer") == Some(JNull)
    ensures r.Some? ==>
      && r.value.id == Get(body, "id") && r.value.status == Get(body, "status")
      && r.value.updateTime == Get(body, "update_time")
    ensures r.Some? && Get(body, "payer").value.JObj? ==>
      r.value.emailAddress == Lookup(Get(body, "payer").value.members, "email_address")
    ensures r.Some? && !Get(body, "payer").value.JObj? ==> r.value.emailAddress == None
  {
    match Get(body, "payer")
    case None => None
    case Some(payer) =>
      if payer == JNull then None
      else
        var email := if payer.JObj? then Lookup(payer.members, "email_address") else None;
        Some(PaymentResult(Get(body, "id"), Get(body, "status"), Get(body, "update_time"), email))
  }

  /** The order marked paid at `now`: only the payment fields change. */
  function Paid(o: Order, now: int, payment: PaymentResult): (r: Order)
    ensures r.isPaid && r.paidAt == Some(now) && r.paymentResult == Some(payment)
    ensures r.(isPaid := o.isPaid, paidAt := o.paidAt, paymentResult := o.paymentResult) == o
  {
    o.(isPaid := true, paidAt := Some(now), paymentResult := Some(payment))
  }

  /** The order marked delivered at `now`: only the delivery fields change. */
  function Delivered(o: Order, now: int): (r: Order)
    ensures r.isDelivered && r.deliveredAt == Some(now)
    ensures r.(isDelivered := o.isDelivered, deliveredAt := o.deliveredAt) == o
  {
    o.(isDelivered := true, deliveredAt := Some(now))
  }

  /** The two flags are independent: paying and delivering commute. */
  lemma PayDeliverCommute(o: Order, paidAt: int, payment: PaymentResult, deliveredAt: int)
    ensures Paid(Delivered(o, deliveredAt), paidAt, payment) == Delivered(Paid(o, paidAt, payment), deliveredAt)
    ensures Delivered(Paid(o, paidAt, payment), deliveredAt).isPaid
    ensures Paid(Delivered(o, deliveredAt), paidAt, payment).isDelivered
  {
  }

  /** `updateOrderToPaid`, with the clock reading `now`. */
  method UpdateOrderToPaid(orders: Collection<Order>, id: Id, body: JsObject, now: int)
    returns (r: Response<Order>)
    modifies orders
    ensures id !in old(orders.docs) ==> r == Err(NotFound) && orders.docs == old(orders.docs)
    ensures id in old(orders.docs) && PaymentOf(body).None? ==>
      r == Err(ServerError) && orders.docs == old(orders.docs)
    ensures id in old(orders.docs) && PaymentOf(body).Some? ==>
      var o := Paid(old(orders.docs)[id], now, PaymentOf(body).value);
      r == Ok(200, o) && orders.docs == old(orders.docs)[id := o]
  {
    if id !in orders.docs {
      return Err(NotFound);
    }
    var order := orders.docs[id];
    order := order.(isPaid := true);
    order := order.(paidAt := Some(now));
    var payment := PaymentOf(body);
    if payment.None? {
      return Err(ServerError);
    }
    order := order.(paymentResult := payment);
    orders.Save(id, order);
    return Ok(200, order);
  }

  /** `updateOrderToDelivered`, with the clock reading `now`. */
  method UpdateOrderToDelivered(orders: Collection<Order>, id: Id, now: int)
    returns (r: Response<Order>)
    modifies orders
    ensures id !in old(orders.docs) ==> r == Err(NotFound) && orders.docs == old(orders.docs)
    ensures id in old(orders.docs) ==>
      var o := Delivered(old(orders.docs)[id], now);
      r == Ok(200, o) && orders.docs == old(orders.docs)[id := o]
  {
    if id !in orders.docs {
      return Err(NotFound);
    }
    var order := orders.docs[id];
    order := order.(isDelivered := true);
    order := order.(deliveredAt := Some(now));
    orders.Save(id, order);
    return Ok(200, order);
  }

  // ---------------------------------------------------------------------
  // PUT /orders/:id/updatestock
  // ---------------------------------------------------------------------

  /** The product table after some line items, and whether an error stopped the walk. */
  datatype StockRun = StockRun(products: map<Id, Product>, failed: bool)

  /**
   * One line item: a missing or `null` product reference, or one that names
   * no stored product, is skipped; a non-string reference is treated
   * as uncastable (error); otherwise `countInStock -= qty`, which fails to
   * save when `qty` is not a number.
   */
  function StockStep(products: map<Id, Product>, item: LineItem): (r: StockRun)
    ensures r.products.Keys == products.Keys
  {
    match Get(item, "product")
    case None => StockRun(products, false)
    case Some(ref) =>
      if ref == JNull then StockRun(products, false)
      else if !ref.JStr? then StockRun(products, true)
      else if ref.s !in products then StockRun(products, false)
      else
        match ToNumber(Get(item, "qty"))
        case None => StockRun(products, true)
        case Some(q) =>
          var p := products[ref.s];
          StockRun(products[ref.s := p.(countInStock := p.countInStock - q)], false)
  }

  /** The walk over the line items in order, stopping at the first error with what was saved so far. */
  function StockAfter(products: map<Id, Product>, items: seq<LineItem>): (r: StockRun)
    ensures r.products.Keys == products.Keys
    ensures forall k :: k in products ==>
      r.products[k] == products[k].(countInStock := r.products[k].countInStock)
    decreases |items|
  {
    if items == [] then StockRun(products, false)
    else
      var prev := StockAfter(products, items[..|items| - 1]);
      if prev.failed then prev else StockStep(prev.products, items[|items| - 1])
  }

  /** Does the item refer to product `pid`? */
  predicate RefersTo(item: LineItem, pid: Id) {
    Get(item, "product") == Some(JStr(pid))
  }

  /** The total `qty` of the items that refer to `pid`. */
  function QtySum(items: seq<LineItem>, pid: Id): int
    decreases |items|
  {
    if items == [] then 0
    else
      var last := items[|items| - 1];
      QtySum(items[..|items| - 1], pid)
        + (if RefersTo(last, pid) then ToNumber(Get(last, "qty")).GetOr(0) else 0)
  }

  /** When the walk completes, each stored product's stock has fallen by the quantities ordered of it. */
  lemma {:induction false} StockFallsBySum(products: map<Id, Product>, items: seq<LineItem>, pid: Id)
    requires pid in products
    requires !StockAfter(products, items).failed
    ensures StockAfter(products, items).products[pid].countInStock
         == products[pid].countInStock - QtySum(items, pid)
    decreases |items|
  {
    if items != [] {
      var init := items[..|items| - 1];
      StockFallsBySum(products, init, pid);
    }
  }

  /** A product no line item refers to keeps its stock. */
  lemma UnreferencedUnchanged(products: map<Id, Product>, items: seq<LineItem>, pid: Id)
    requires pid in products
    requires !StockAfter(products, items).failed
    requires forall i :: 0 <= i < |items| ==> !RefersTo(items[i], pid)
    ensures StockAfter(products, items).products[pid] == products[pid]
  {
    QtySumUnreferenced(items, pid);
    StockFallsBySum(products, items, pid);
  }

  lemma {:induction false} QtySumUnreferenced(items: seq<LineItem>, pid: Id)
    requires forall i :: 0 <= i < |items| ==> !RefersTo(items[i], pid)
    ensures QtySum(items, pid) == 0
    decreases |items|
  {
    if items != [] {
      QtySumUnreferenced(items[..|items| - 1], pid);
    }
  }

  /** An item whose product is not in the table changes nothing. */
  lemma MissingProductSkipped(products: map<Id, Product>, items: seq<LineItem>, item: LineItem)
    requires !StockAfter(products, items).failed
    requires Get(item, "product") == None || Get(item, "product") == Some(JNull)
      || (Get(item, "product").value.JStr? && Get(item, "product").value.s !in products)
    ensures StockAfter(products, items + [item]) == StockAfter(products, items)
  {
    assert (items + [item])[..|items|] == items;
  }

  /** Whether the walk fails depends on which products exist, not on their stock. */
  lemma {:induction false} FailureIgnoresStock(p1: map<Id, Product>, p2: map<Id, Product>, items: seq<LineItem>)
    requires p1.Keys == p2.Keys
    ensures StockAfter(p1, items).failed == StockAfter(p2, items).failed
    decreases |items|
  {
    if items != [] {
      var init := items[..|items| - 1];
      FailureIgnoresStock(p1, p2, init);
      StepFailureIgnoresStock(StockAfter(p1, init).products, StockAfter(p2, init).products, items[|items| - 1]);
    }
  }

  lemma StepFailureIgnoresStock(p1: map<Id, Product>, p2: map<Id, Product>, item: LineItem)
    requires p1.Keys == p2.Keys
    ensures StockStep(p1, item).failed == StockStep(p2, item).failed
  {
  }

  /**
   * The update is not idempotent: the order records nothing, so running it
   * a second time takes the ordered quantities off again.
   */
  lemma StockTwice(products: map<Id, Product>, items: seq<LineItem>, pid: Id)
    requires pid in products
    requires !StockAfter(products, items).failed
    ensures var once := StockAfter(products, items).products;
      && !StockAfter(once, items).failed
      && StockAfter(once, items).products[pid].countInStock
         == products[pid].countInStock - 2 * QtySum(items, pid)
  {
    var once := StockAfter(products, items).products;
    FailureIgnoresStock(products, once, items);
    StockFallsBySum(products, items, pid);
    StockFallsBySum(once, items, pid);
  }

  /** Nothing stops the stock at zero: ordering more than is in stock drives it negative. */
  lemma StockCanGoNegative(products: map<Id, Product>, pid: Id, item: LineItem, qty: int)
    requires pid in products
    requires Get(item, "product") == Some(JStr(pid)) && Get(item, "qty") == Some(JNum(qty))
    requires qty > products[pid].countInStock
    ensures !StockAfter(products, [item]).failed
    ensures StockAfter(products, [item]).products[pid].countInStock == products[pid].countInStock - qty < 0
  {
    assert [item][..0] == [];
  }

  /** Once the walk has failed, later items are not looked at. */
  lemma {:induction false} FailedPrefix(products: map<Id, Product>, items: seq<LineItem>, n: nat)
    requires n <= |items|
    requires StockAfter(products, items[..n]).failed
    ensures StockAfter(products, items) == StockAfter(products, items[..n])
    decreases |items| - n
  {
    if n < |items| {
      var init := items[..|items| - 1];
      assert init[..n] == items[..n];
      FailedPrefix(products, init, n);
      assert items[..|items|] == items;
    } else {
      assert items[..n] == items;
    }
  }

  /** One more item extends the walk by one step, unless it has already failed. */
  lemma StockAfterStep(products: map<Id, Product>, items: seq<LineItem>, i: nat)
    requires i < |items|
    ensures var prev := StockAfter(products, items[..i]);
      StockAfter(products, items[..i + 1]) == if prev.failed then prev else StockStep(prev.products, items[i])
  {
    assert items[..i + 1][..i] == items[..i];
    assert items[..i + 1][i] == items[i];
  }

  /** The body of the loop: look the item's product up, decrement and save it. */
  method ApplyLineItem(products: Collection<Product>, item: LineItem) returns (failed: bool)
    modifies products
    ensures StockStep(old(products.docs), item) == StockRun(products.docs, failed)
  {
    var ref := Get(item, "product");
    if ref.None? || ref.value == JNull {
      return false;
    }
    if !ref.value.JStr? {
      return true;
    }
    var pid := ref.value.s;
    if pid !in products.docs {
      return false;
    }
    var qty := ToNumber(Get(item, "qty"));
    if qty.None? {
      return true;
    }
    var product := products.docs[pid];
    product := product.(countInStock := product.countInStock - qty.value);
    products.Save(pid, product);
    return false;
  }

  const StockUpdated: string := "Stock updated"

  /**
   * `updateOrderStock`: 404 for an absent order; otherwise each line item in
   * turn decrements its product's stock, saved one at a time.  An error
   * answers 500 and keeps the decrements already saved.
   */
  method UpdateOrderStock(orders: map<Id, Order>, products: Collection<Product>, id: Id)
    returns (r: Response<string>)
    modifies products
    ensures id !in orders ==> r == Err(NotFound) && products.docs == old(products.docs)
    ensures id in orders ==>
      var run := StockAfter(old(products.docs), orders[id].orderItems);
      && products.docs == run.products
      && r == if run.failed then Err(ServerError) else Ok(200, StockUpdated)
  {
    if id !in orders {
      return Err(NotFound);
    }
    var items := orders[id].orderItems;
    for i := 0 to |items|
      invariant products.docs == StockAfter(old(products.docs), items[..i]).products
      invariant !StockAfter(old(products.docs), items[..i]).failed
    {
      StockAfterStep(old(products.docs), items, i);
      var failed := ApplyLineItem(products, items[i]);
      if failed {
        FailedPrefix(old(products.docs), items, i + 1);
        return Err(ServerError);
      }
    }
    assert items[..|items|] == items;
    return Ok(200, StockUpdated);
  }
}
