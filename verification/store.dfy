/** The storefront's persistent state and the shape of a server action's reply.

    The relational store is abstract. Tables the code queries by a non-key
    column (users by email, carts by session cart id or owner, reviews by
    product and author) are row sequences, so that `findFirst` means "the
    first matching row". Tables only ever addressed by primary key (orders,
    products) are maps from id to record. An order owns its order items.
    Money is an exact number of cents; dates are opaque instants. */
module Store {
  import opened Common

  type Id = string
  type Money = int
  type Time = int

  datatype Address = Address(
    addressTitle: string, fullName: string, streetAddress: string,
    city: string, postalCode: string, country: string)

  datatype PaymentMethod = PayPal | Stripe | CashOnDelivery

  datatype User = User(
    id: Id, name: string, email: string,
    password: Option<string>,          // a bcrypt hash; absent for accounts made by an OAuth provider
    role: string, image: Option<string>,
    address: Option<Address>, paymentMethod: Option<PaymentMethod>)

  datatype CartItem = CartItem(
    productId: Id, name: string, slug: string, qnty: int, image: string, price: Money)

  datatype Cart = Cart(
    id: Id, sessionCartId: string, userId: Option<Id>, items: seq<CartItem>,
    price: Money, taxPrice: Money, shippingPrice: Money, totalPrice: Money)

  datatype OrderItem = OrderItem(
    orderId: Id, productId: Id, name: string, slug: string, qnty: int, image: string, price: Money)

  /** What a payment provider reported; `pricePaid` is the captured amount as text. */
  datatype PaymentResult = PaymentResult(id: string, status: string, emailAddress: string, pricePaid: string)

  datatype Order = Order(
    id: Id, userId: Id, shippingAddress: Address, paymentMethod: PaymentMethod,
    itemsPrice: Money, shippingPrice: Money, taxPrice: Money, totalPrice: Money,
    isPaid: bool, paidAt: Option<Time>, isDelivered: bool, deliveredAt: Option<Time>,
    paymentResult: Option<PaymentResult>, orderItems: seq<OrderItem>)

  /** `rating` is the denormalised mean of the product's review ratings. */
  datatype Product = Product(id: Id, name: string, slug: string, stock: int, rating: real, numReviews: int)

  datatype Review = Review(id: Id, productId: Id, userId: Id, title: string, description: string, rating: int)

  datatype Db = Db(
    users: seq<User>, carts: seq<Cart>,
    orders: map<Id, Order>, products: map<Id, Product>,
    reviews: seq<Review>)

  /** The authenticated session as the auth provider hands it to an action;
      `userId` is absent when the session carries no user. */
  datatype Session = Session(userId: Option<Id>)

  /** Why an action's `try` block was left: an `Error` thrown by the action
      itself with its text, a schema parse error, or an exception raised by
      the runtime or the database (a TypeError, a missing record, a unique
      constraint) whose wording the model does not fix. */
  datatype Failure = Thrown(text: string) | Invalid | RuntimeFault

  /** A reply's message: a literal text, or whatever the shared error
      formatter makes of a caught failure. */
  datatype Message = Plain(text: string) | Formatted(failure: Failure)

  /** The `{success, message, redirectTo?, data?}` object an action returns. */
  datatype Reply = Reply(success: bool, message: Message, redirectTo: Option<string>, data: Option<string>)

  /** A reply together with the state after the action. */
  datatype Step = Step(reply: Reply, db: Db)

  /** The outcome of a helper that throws. */
  datatype Outcome<+T> = Done(value: T) | Fail(failure: Failure)

  function Said(text: string): Reply {
    Reply(true, Plain(text), None, None)
  }

  function Refused(text: string): Reply {
    Reply(false, Plain(text), None, None)
  }

  function Caught(f: Failure): Reply {
    Reply(false, Formatted(f), None, None)
  }

  /** The row of the user with this id (`findUnique` by primary key). */
  function UserRow(users: seq<User>, id: Option<Id>): (r: Option<nat>)
    ensures r.Some? ==> r.value < |users| && id == Some(users[r.value].id)
    ensures r.None? ==> forall k :: 0 <= k < |users| ==> id != Some(users[k].id)
  {
    FirstIndex(users, (u: User) => id == Some(u.id))
  }

  /** Primary keys are unique in the row tables. */
  ghost predicate UniqueUserIds(users: seq<User>) {
    forall i, j :: 0 <= i < j < |users| ==> users[i].id != users[j].id
  }

  ghost predicate UniqueCartIds(carts: seq<Cart>) {
    forall i, j :: 0 <= i < j < |carts| ==> carts[i].id != carts[j].id
  }

  /** Every order is stored under its own id, its items point back to it,
      and an order is only ever delivered once it has been paid. */
  ghost predicate OrdersWf(orders: map<Id, Order>) {
    forall id :: id in orders ==>
      && orders[id].id == id
      && (orders[id].isDelivered ==> orders[id].isPaid)
      && (forall k :: 0 <= k < |orders[id].orderItems| ==> orders[id].orderItems[k].orderId == id)
  }

  /** At most one review per (product, author) pair. */
  ghost predicate OneReviewPerAuthor(reviews: seq<Review>) {
    forall i, j :: 0 <= i < j < |reviews| ==>
      !(reviews[i].productId == reviews[j].productId && reviews[i].userId == reviews[j].userId)
  }
}
