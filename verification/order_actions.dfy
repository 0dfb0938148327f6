/** The order lifecycle of lib/actions/order.actions.ts: placing an order from
    the cart, the PayPal hand-shake, marking an order paid (which is where
    stock is decremented), delivering and deleting it, and the paging
    arithmetic of the order listings. Each `$transaction` block is one atomic
    step: a function from the state before to the state after. */
module OrderActions {
  import opened Common
  import opened Store

  /** No order disappears, none goes from paid back to unpaid and none
      forgets that it was delivered. */
  ghost predicate Progress(before: map<Id, Order>, after: map<Id, Order>) {
    forall id :: id in before ==>
      && id in after
      && (before[id].isPaid ==> after[id].isPaid)
      && (before[id].isDelivered ==> after[id].isDelivered)
  }

  /* ---------------------------------------------------------------------- */
  /* Order placement                                                        */
  /* ---------------------------------------------------------------------- */

  /** An order line made from a cart line: the cart item's fields spread
      into the row, tagged with the order's id. */
  function OrderLine(item: CartItem, orderId: Id): OrderItem {
    OrderItem(orderId, item.productId, item.name, item.slug, item.qnty, item.image, item.price)
  }

  /** The cart line an order line was copied from. */
  function CartLine(line: OrderItem): CartItem {
    CartItem(line.productId, line.name, line.slug, line.qnty, line.image, line.price)
  }

  /** One order line per cart line, in cart order. */
  function Snapshot(items: seq<CartItem>, orderId: Id): (lines: seq<OrderItem>)
    ensures |lines| == |items|
    ensures forall k :: 0 <= k < |lines| ==> lines[k].orderId == orderId
  {
    seq(|items|, k requires 0 <= k < |items| => OrderLine(items[k], orderId))
  }

  /** The order's lines, read back as cart lines. */
  function CartLines(lines: seq<OrderItem>): seq<CartItem> {
    seq(|lines|, k requires 0 <= k < |lines| => CartLine(lines[k]))
  }

  /** The snapshot loses nothing: reading the order lines back gives the cart. */
  lemma SnapshotRoundTrip(items: seq<CartItem>, orderId: Id)
    ensures CartLines(Snapshot(items, orderId)) == items
  {
  }

  /** The cart after checkout: same row, no items, four zero totals. */
  function Emptied(cart: Cart): Cart {
    cart.(items := [], price := 0, taxPrice := 0, shippingPrice := 0, totalPrice := 0)
  }

  /** The row of the cart `getMyCart` resolved to (its lookup of the session
      cart cookie is not part of this model, so its answer is a parameter). */
  function CartRow(carts: seq<Cart>, id: Option<Id>): (r: Option<nat>)
    ensures r.Some? ==> r.value < |carts| && id == Some(carts[r.value].id)
  {
    FirstIndex(carts, (c: Cart) => id == Some(c.id))
  }

  function Redirected(text: string, to: string): Reply {
    Reply(false, Plain(text), Some(to), None)
  }

  /** `createOrder`. `myCart` is the id of the cart `getMyCart` returned (if
      any); `newOrderId` is the id the database assigns to the new order. */
  function CreateOrder(db: Db, session: Option<Session>, myCart: Option<Id>, newOrderId: Id): (out: Step)
    // the guards, in the order the action runs them
    ensures session.None? ==> out == Step(Caught(Thrown("User is not authenticated!")), db)
    ensures session.Some? && UserRow(db.users, session.value.userId).None? ==>
              out == Step(Caught(Thrown("User not found!")), db)
    ensures session.Some? && UserRow(db.users, session.value.userId).Some? &&
            (CartRow(db.carts, myCart).None? || |db.carts[CartRow(db.carts, myCart).value].items| == 0) ==>
              out == Step(Redirected("Your cart is empty.", "/"), db)
    ensures session.Some? && UserRow(db.users, session.value.userId).Some? &&
            CartRow(db.carts, myCart).Some? && |db.carts[CartRow(db.carts, myCart).value].items| > 0 ==>
              var user := db.users[UserRow(db.users, session.value.userId).value];
              && (user.address.None? ==> out == Step(Redirected("No shipping address.", "/shipping-address"), db))
              && (user.address.Some? && user.paymentMethod.None? ==>
                    out == Step(Redirected("No payment method.", "/payment-method"), db))
    // what can change at all
    ensures out.db.users == db.users && out.db.products == db.products && out.db.reviews == db.reviews
    ensures |out.db.carts| == |db.carts|
    ensures forall id :: id in db.orders ==> id in out.db.orders && out.db.orders[id] == db.orders[id]
    ensures out.db.orders.Keys <= db.orders.Keys + {newOrderId}
    ensures out.db != db ==> newOrderId !in db.orders && newOrderId in out.db.orders
    // the order is placed exactly when every guard passes and the new id is fresh and non-empty
    ensures out.reply.success <==>
              && session.Some? && UserRow(db.users, session.value.userId).Some?
              && CartRow(db.carts, myCart).Some? && |db.carts[CartRow(db.carts, myCart).value].items| > 0
              && db.users[UserRow(db.users, session.value.userId).value].address.Some?
              && db.users[UserRow(db.users, session.value.userId).value].paymentMethod.Some?
              && newOrderId !in db.orders && newOrderId != ""
    ensures out.reply.success ==> out.reply.redirectTo == Some("/order/" + newOrderId)
    ensures Progress(db.orders, out.db.orders)
  {
    if session.None? then Step(Caught(Thrown("User is not authenticated!")), db)
    else
      var userRow := UserRow(db.users, session.value.userId);
      var cartRow := CartRow(db.carts, myCart);
      if userRow.None? then Step(Caught(Thrown("User not found!")), db)
      else if cartRow.None? || |db.carts[cartRow.value].items| == 0 then
        Step(Redirected("Your cart is empty.", "/"), db)
      else
        var user := db.users[userRow.value];
        var cart := db.carts[cartRow.value];
        if user.address.None? then Step(Redirected("No shipping address.", "/shipping-address"), db)
        else if user.paymentMethod.None? then Step(Redirected("No payment method.", "/payment-method"), db)
        else if newOrderId in db.orders then Step(Caught(RuntimeFault), db)   // the insert violates the primary key
        else
          var order := Order(
            newOrderId, user.id, user.address.value, user.paymentMethod.value,
            cart.price, cart.shippingPrice, cart.taxPrice, cart.totalPrice,
            false, None, false, None, None, Snapshot(cart.items, newOrderId));
          var db' := db.(orders := db.orders[newOrderId := order],
                         carts := db.carts[cartRow.value := Emptied(cart)]);
          // the transaction has committed; an empty id is still reported as a failure
          if newOrderId == "" then Step(Caught(Thrown("Order not created!")), db')
          else Step(Reply(true, Plain("Order created."), Some("/order/" + newOrderId), None), db')
  }

  /** A successful placement copies the cart into a new order and empties the
      cart in the same step: the order's four prices are the cart's, its
      address and payment method are the user's, there is exactly one order
      line per cart line, tagged with the new id, and nothing else in the
      carts table changes. */
  lemma {:induction false} CreateOrderSnapshot(db: Db, session: Option<Session>, myCart: Option<Id>, newOrderId: Id)
    requires CreateOrder(db, session, myCart, newOrderId).reply.success
    ensures session.Some?
    ensures var out := CreateOrder(db, session, myCart, newOrderId);
            var ui := UserRow(db.users, session.value.userId);
            var ci := CartRow(db.carts, myCart);
            && ui.Some? && ci.Some?
            && var user := db.users[ui.value];
               var cart := db.carts[ci.value];
               var order := out.db.orders[newOrderId];
               && |cart.items| > 0
               && newOrderId !in db.orders && newOrderId in out.db.orders
               && order.id == newOrderId && order.userId == user.id
               && order.itemsPrice == cart.price && order.taxPrice == cart.taxPrice
               && order.shippingPrice == cart.shippingPrice && order.totalPrice == cart.totalPrice
               && user.address == Some(order.shippingAddress)
               && user.paymentMethod == Some(order.paymentMethod)
               && !order.isPaid && !order.isDelivered
               && CartLines(order.orderItems) == cart.items
               && (forall k :: 0 <= k < |order.orderItems| ==> order.orderItems[k].orderId == newOrderId)
               && out.db.carts[ci.value] == Emptied(cart)
               && (forall k :: 0 <= k < |db.carts| && k != ci.value ==> out.db.carts[k] == db.carts[k])
  {
    var ui := UserRow(db.users, session.value.userId);
    var ci := CartRow(db.carts, myCart);
    var cart := db.carts[ci.value];
    SnapshotRoundTrip(cart.items, newOrderId);
  }

  /* ---------------------------------------------------------------------- */
  /* Payment                                                                */
  /* ---------------------------------------------------------------------- */

  /** The total quantity the lines order of one product. */
  function QtyFor(lines: seq<OrderItem>, productId: Id): (q: int)
    // no line of a positive count, no decrement that raises stock
    ensures (forall k :: 0 <= k < |lines| ==> lines[k].qnty >= 0) ==> q >= 0
    decreases |lines|
  {
    if |lines| == 0 then 0
    else (if lines[0].productId == productId then lines[0].qnty else 0) + QtyFor(lines[1..], productId)
  }

  lemma {:induction false} QtyForAbsent(lines: seq<OrderItem>, productId: Id)
    requires forall k :: 0 <= k < |lines| ==> lines[k].productId != productId
    ensures QtyFor(lines, productId) == 0
    decreases |lines|
  {
    if |lines| > 0 {
      QtyForAbsent(lines[1..], productId);
    }
  }

  /** The stock updates of the payment transaction, one `increment: -qnty`
      per order line in order. An update of a product that does not exist
      throws and rolls the whole transaction back (`None`). Stock has no
      floor and may go negative. */
  function DecrementStock(products: map<Id, Product>, lines: seq<OrderItem>): (r: Option<map<Id, Product>>)
    ensures r.Some? <==> forall k :: 0 <= k < |lines| ==> lines[k].productId in products
    ensures r.Some? ==> r.value.Keys == products.Keys
    ensures r.Some? ==> forall id :: id in products ==>
              r.value[id] == products[id].(stock := products[id].stock - QtyFor(lines, id))
    decreases |lines|
  {
    if |lines| == 0 then Some(products)
    else if lines[0].productId !in products then None
    else
      var p := products[lines[0].productId];
      var products' := products[lines[0].productId := p.(stock := p.stock - lines[0].qnty)];
      assert forall k :: 1 <= k < |lines| ==> lines[k] == lines[1..][k - 1];
      DecrementStock(products', lines[1..])
  }

  /** `updateOrderToPaid`: rejects a missing and an already-paid order;
      otherwise, in one transaction, decrements stock and marks the order paid
      at `now`, storing the payment result when one is given. (Prisma leaves a
      column alone when the value passed is `undefined`.) */
  function UpdateOrderToPaid(db: Db, orderId: Id, paymentResult: Option<PaymentResult>, now: Time): (r: Outcome<Db>)
    ensures orderId !in db.orders ==> r == Fail(Thrown("Order not found!"))
    ensures orderId in db.orders && db.orders[orderId].isPaid ==> r == Fail(Thrown("Order is already paid!"))
    // an unpaid order whose products all exist is paid
    ensures r.Done? <==>
              && orderId in db.orders && !db.orders[orderId].isPaid
              && forall k :: 0 <= k < |db.orders[orderId].orderItems| ==> db.orders[orderId].orderItems[k].productId in db.products
    ensures r.Done? ==>
              && orderId in db.orders && !db.orders[orderId].isPaid && orderId in r.value.orders
              && var before := db.orders[orderId];
                 var after := r.value.orders[orderId];
                 && r.value.orders == db.orders[orderId := after]
                 && after.isPaid && after.paidAt == Some(now)
                 && after.paymentResult == (if paymentResult.Some? then paymentResult else before.paymentResult)
                 && after == before.(isPaid := true, paidAt := Some(now), paymentResult := after.paymentResult)
                 && r.value.products.Keys == db.products.Keys
                 && (forall id :: id in db.products ==>
                       r.value.products[id] == db.products[id].(stock := db.products[id].stock - QtyFor(before.orderItems, id)))
                 && r.value.users == db.users && r.value.carts == db.carts && r.value.reviews == db.reviews
    ensures r.Done? && OrdersWf(db.orders) ==> OrdersWf(r.value.orders)
    ensures r.Done? ==> Progress(db.orders, r.value.orders)
  {
    if orderId !in db.orders then Fail(Thrown("Order not found!"))
    else
      var order := db.orders[orderId];
      if order.isPaid then Fail(Thrown("Order is already paid!"))
      else
        match DecrementStock(db.products, order.orderItems)
        case None => Fail(RuntimeFault)
        case Some(products') =>
          var paid := order.(isPaid := true, paidAt := Some(now),
                             paymentResult := if paymentResult.Some? then paymentResult else order.paymentResult);
          Done(db.(products := products', orders := db.orders[orderId := paid]))
  }

  /** Paying twice is refused the second time, and the refusal changes no
      stock: a replayed confirmation cannot decrement stock again. */
  lemma PayReplayRejected(db: Db, orderId: Id, p1: Option<PaymentResult>, p2: Option<PaymentResult>, t1: Time, t2: Time)
    requires UpdateOrderToPaid(db, orderId, p1, t1).Done?
    ensures UpdateOrderToPaid(UpdateOrderToPaid(db, orderId, p1, t1).value, orderId, p2, t2)
              == Fail(Thrown("Order is already paid!"))
  {
  }

  /** A product no line of the order mentions keeps its stock when the order is paid. */
  lemma PayLeavesOtherProducts(db: Db, orderId: Id, p: Option<PaymentResult>, now: Time, productId: Id)
    requires UpdateOrderToPaid(db, orderId, p, now).Done?
    requires productId in db.products
    requires forall k :: 0 <= k < |db.orders[orderId].orderItems| ==> db.orders[orderId].orderItems[k].productId != productId
    ensures UpdateOrderToPaid(db, orderId, p, now).value.products[productId] == db.products[productId]
  {
    QtyForAbsent(db.orders[orderId].orderItems, productId);
  }

  /** The capture PayPal returns for an approved order. */
  datatype Capture = Capture(id: string, status: string, payerEmail: string, amount: string)

  /** `createPaypalOrder`. `paypalOrderId` is the id PayPal assigns, or `None`
      when the PayPal call fails. The order's payment result is overwritten
      with that id and empty status, email and amount. */
  function CreatePaypalOrder(db: Db, orderId: Id, paypalOrderId: Option<string>): (out: Step)
    ensures orderId !in db.orders ==> out == Step(Caught(Thrown("Order not found!")), db)
    ensures out.reply.success <==> orderId in db.orders && paypalOrderId.Some?
    ensures out.reply.success ==>
              && out.reply.data == paypalOrderId
              && out.db == db.(orders := db.orders[orderId :=
                   db.orders[orderId].(paymentResult := Some(PaymentResult(paypalOrderId.value, "", "", "0")))])
    ensures !out.reply.success ==> out.db == db
    ensures OrdersWf(db.orders) ==> OrdersWf(out.db.orders)
    ensures Progress(db.orders, out.db.orders)
  {
    if orderId !in db.orders then Step(Caught(Thrown("Order not found!")), db)
    else if paypalOrderId.None? then Step(Caught(RuntimeFault), db)
    else
      var order := db.orders[orderId];
      var pending := PaymentResult(paypalOrderId.value, "", "", "0");
      Step(Reply(true, Plain("Order created successfully."), None, paypalOrderId),
           db.(orders := db.orders[orderId := order.(paymentResult := Some(pending))]))
  }

  /** The capture matches the PayPal order recorded on the order and is complete. */
  function CaptureAccepted(order: Order, capture: Option<Capture>): (a: bool)
    // an order never sent to PayPal, a missing capture, a capture of another
    // PayPal order and an incomplete one are all refused
    ensures order.paymentResult.None? || capture.None? ==> !a
    ensures capture.Some? && order.paymentResult.Some? && capture.value.id != order.paymentResult.value.id ==> !a
    ensures capture.Some? && capture.value.status != "COMPLETED" ==> !a
  {
    && capture.Some?
    && order.paymentResult.Some?
    && capture.value.id == order.paymentResult.value.id
    && capture.value.status == "COMPLETED"
  }

  /** `approvePaypalOrder`. `capture` is what `paypal.capturePayment` gave:
      `None` stands both for a falsy capture, which the guard refuses, and for
      a capture call that throws, which skips the guard; both end in
      "Error in PayPal payment!" here, while in the source a thrown error
      carries its own message. */
  function ApprovePaypalOrder(db: Db, orderId: Id, capture: Option<Capture>, now: Time): (out: Step)
    ensures orderId !in db.orders ==> out == Step(Caught(Thrown("Order not found!")), db)
    ensures orderId in db.orders && !CaptureAccepted(db.orders[orderId], capture) ==>
              out == Step(Caught(Thrown("Error in PayPal payment!")), db)
    ensures out.reply.success <==>
              && orderId in db.orders && CaptureAccepted(db.orders[orderId], capture)
              && !db.orders[orderId].isPaid
              && (forall k :: 0 <= k < |db.orders[orderId].orderItems| ==>
                    db.orders[orderId].orderItems[k].productId in db.products)
    ensures out.reply.success ==>
              && out.reply == Said("Your order has been paid")
              && orderId in out.db.orders && out.db.orders[orderId].isPaid
              && out.db.orders[orderId].paymentResult ==
                   Some(PaymentResult(capture.value.id, "COMPLETED", capture.value.payerEmail, capture.value.amount))
    ensures out.reply.success ==>
              out.db == UpdateOrderToPaid(db, orderId, Some(PaymentResult(capture.value.id, "COMPLETED",
                                                                          capture.value.payerEmail, capture.value.amount)), now).value
    ensures !out.reply.success ==> out.db == db
    ensures OrdersWf(db.orders) ==> OrdersWf(out.db.orders)
    ensures Progress(db.orders, out.db.orders)
  {
    if orderId !in db.orders then Step(Caught(Thrown("Order not found!")), db)
    else if !CaptureAccepted(db.orders[orderId], capture) then Step(Caught(Thrown("Error in PayPal payment!")), db)
    else
      var c := capture.value;
      match UpdateOrderToPaid(db, orderId, Some(PaymentResult(c.id, c.status, c.payerEmail, c.amount)), now)
      case Fail(f) => Step(Caught(f), db)
      case Done(db') => Step(Said("Your order has been paid"), db')
  }

  /** `updateCODOrderToPaid`: the admin marks a cash-on-delivery order paid;
      the stored payment result is left as it was. */
  function UpdateCODOrderToPaid(db: Db, orderId: Id, now: Time): (out: Step)
    ensures out.reply.success <==> UpdateOrderToPaid(db, orderId, None, now).Done?
    ensures out.reply.success ==>
              && out.reply == Said("Order marked as paid.")
              && orderId in db.orders && orderId in out.db.orders
              && out.db.orders[orderId].paymentResult == db.orders[orderId].paymentResult
              && out.db == UpdateOrderToPaid(db, orderId, None, now).value
    ensures !out.reply.success ==> out.db == db
    ensures OrdersWf(db.orders) ==> OrdersWf(out.db.orders)
    ensures Progress(db.orders, out.db.orders)
  {
    match UpdateOrderToPaid(db, orderId, None, now)
    case Fail(f) => Step(Caught(f), db)
    case Done(db') => Step(Said("Order marked as paid."), db')
  }

  /* ---------------------------------------------------------------------- */
  /* Delivery and deletion                                                  */
  /* ---------------------------------------------------------------------- */

  /** `deliverOrder`: only a paid order can be delivered. */
  function DeliverOrder(db: Db, orderId: Id, now: Time): (out: Step)
    ensures orderId !in db.orders ==> out == Step(Caught(Thrown("Order not found!")), db)
    ensures orderId in db.orders && !db.orders[orderId].isPaid ==> out == Step(Caught(Thrown("Order is not paid!")), db)
    ensures out.reply.success <==> orderId in db.orders && db.orders[orderId].isPaid
    ensures out.reply.success ==>
              && out.reply == Said("Order marked as delivered.")
              && out.db == db.(orders := db.orders[orderId :=
                   db.orders[orderId].(isDelivered := true, deliveredAt := Some(now))])
    ensures !out.reply.success ==> out.db == db
    ensures OrdersWf(db.orders) ==> OrdersWf(out.db.orders)
    ensures Progress(db.orders, out.db.orders)
  {
    if orderId !in db.orders then Step(Caught(Thrown("Order not found!")), db)
    else if !db.orders[orderId].isPaid then Step(Caught(Thrown("Order is not paid!")), db)
    else
      var order := db.orders[orderId];
      Step(Said("Order marked as delivered."),
           db.(orders := db.orders[orderId := order.(isDelivered := true, deliveredAt := Some(now))]))
  }

  /** `deleteOrder`: deleting a missing order is an error of the database. */
  function DeleteOrder(db: Db, orderId: Id): (out: Step)
    ensures out.reply.success <==> orderId in db.orders
    ensures out.reply.success ==> out.db == db.(orders := db.orders - {orderId})
    ensures !out.reply.success ==> out.db == db && out.reply == Caught(RuntimeFault)
    ensures OrdersWf(db.orders) ==> OrdersWf(out.db.orders)
  {
    if orderId !in db.orders then Step(Caught(RuntimeFault), db)
    else Step(Said("Order successfully deleted."), db.(orders := db.orders - {orderId}))
  }

  /* ---------------------------------------------------------------------- */
  /* The order invariant                                                    */
  /* ---------------------------------------------------------------------- */

  /** Placing an order keeps the order invariant: the new order is stored
      under its id, its lines point back to it, and it is neither paid nor
      delivered. */
  lemma CreateOrderKeepsInvariant(db: Db, session: Option<Session>, myCart: Option<Id>, newOrderId: Id)
    requires OrdersWf(db.orders)
    ensures OrdersWf(CreateOrder(db, session, myCart, newOrderId).db.orders)
  {
    var out := CreateOrder(db, session, myCart, newOrderId);
    if out.db != db {
      var ui := UserRow(db.users, session.value.userId);
      var ci := CartRow(db.carts, myCart);
      assert out.db.orders[newOrderId].orderItems == Snapshot(db.carts[ci.value].items, newOrderId);
    }
  }

  /* ---------------------------------------------------------------------- */
  /* Listing and paging                                                     */
  /* ---------------------------------------------------------------------- */

  /** The rows a `findMany` with `take: limit` and `skip: limit * (page - 1)`
      returns from an already ordered result. A negative `skip` is rejected by
      the query builder (`None`). */
  function Window<T>(rows: seq<T>, limit: nat, page: int): (r: Option<seq<T>>)
    ensures r.None? <==> page < 1 && limit > 0
    ensures r.Some? ==>
              var skip := limit * (page - 1);
              && |r.value| == (if skip >= |rows| then 0 else if skip + limit <= |rows| then limit else |rows| - skip)
              && forall i :: 0 <= i < |r.value| ==> r.value[i] == rows[skip + i]
  {
    var skip := limit * (page - 1);
    if skip < 0 then None
    else if skip >= |rows| then Some([])
    else if skip + limit <= |rows| then Some(rows[skip..skip + limit])
    else Some(rows[skip..])
  }

  /** `Math.ceil(count / limit)`. */
  function PageCount(count: nat, limit: nat): (pages: nat)
    requires limit > 0
    ensures pages * limit >= count
    ensures pages > 0 ==> (pages - 1) * limit < count
  {
    (count + limit - 1) / limit
  }

  /** The windows of pages 1..n, concatenated. */
  function FirstPages<T>(rows: seq<T>, limit: nat, n: nat): seq<T>
    requires limit > 0
  {
    if n == 0 then [] else FirstPages(rows, limit, n - 1) + Window(rows, limit, n).value
  }

  /** Paging loses and repeats nothing: walking pages 1 through n yields the
      first `n * limit` rows, in order. */
  lemma {:induction false} FirstPagesArePrefix<T>(rows: seq<T>, limit: nat, n: nat)
    requires limit > 0
    ensures FirstPages(rows, limit, n) == rows[..if n * limit <= |rows| then n * limit else |rows|]
  {
    if n > 0 {
      FirstPagesArePrefix(rows, limit, n - 1);
      var skip := limit * (n - 1);
      assert (n - 1) * limit == skip;
      var w := Window(rows, limit, n).value;
      if skip < |rows| {
        var end := if n * limit <= |rows| then n * limit else |rows|;
        assert rows[..skip] + rows[skip..end] == rows[..end];
      }
    }
  }

  /** The listing's page count is exactly enough: its pages together hold
      every row once, and the last of them is not empty. */
  lemma PagesCoverAllRows<T>(rows: seq<T>, limit: nat)
    requires limit > 0
    ensures FirstPages(rows, limit, PageCount(|rows|, limit)) == rows
    ensures PageCount(|rows|, limit) > 0 ==> |Window(rows, limit, PageCount(|rows|, limit)).value| > 0
  {
    FirstPagesArePrefix(rows, limit, PageCount(|rows|, limit));
  }

  datatype Listing = Listing(rows: seq<Order>, pages: nat)

  /** `getMyOrders`: the signed-in user's orders, newest first, one page of
      them and the page count. `newestFirst` is the orders table sorted by
      creation time, newest first. */
  function GetMyOrders(session: Option<Session>, newestFirst: seq<Order>, limit: nat, page: int): (r: Outcome<Listing>)
    requires limit > 0
    ensures (session.None? || session.value.userId.None?) ==> r == Fail(Thrown("User not found."))
    ensures r.Done? <==> session.Some? && session.value.userId.Some? && page >= 1
    ensures r.Done? ==>
              var mine := Filter(newestFirst, (o: Order) => Some(o.userId) == session.value.userId);
              && Window(mine, limit, page) == Some(r.value.rows)
              && r.value.pages == PageCount(|mine|, limit)
              && forall k :: 0 <= k < |r.value.rows| ==> Some(r.value.rows[k].userId) == session.value.userId
  {
    if session.None? || session.value.userId.None? then Fail(Thrown("User not found."))
    else
      var mine := Filter(newestFirst, (o: Order) => Some(o.userId) == session.value.userId);
      match Window(mine, limit, page)
      case None => Fail(RuntimeFault)
      case Some(rows) => Done(Listing(rows, PageCount(|mine|, limit)))
  }

  /** `getAllOrders`: one page of every order, newest first. */
  function GetAllOrders(newestFirst: seq<Order>, limit: nat, page: int): (r: Outcome<Listing>)
    requires limit > 0
    ensures r.Done? <==> page >= 1
    ensures r.Done? ==> Window(newestFirst, limit, page) == Some(r.value.rows) &&
                         r.value.pages == PageCount(|newestFirst|, limit)
  {
    match Window(newestFirst, limit, page)
    case None => Fail(RuntimeFault)
    case Some(rows) => Done(Listing(rows, PageCount(|newestFirst|, limit)))
  }
}
