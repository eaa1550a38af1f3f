/** The order router: placing an order (validate, look the user up, number, save, empty the
    cart), listing a user's orders newest first, and fetching one order. */
module OrderRoutes {
  import opened Base
  import opened Strings
  import opened Sorting
  import opened UserModel
  import opened OrderModel
  import opened Store

  // ------------------------------------------------------------------ placing an order

  datatype OrderBody = OrderBody(userEmail: Option<string>, items: Option<seq<OrderItem>>,
                                 shippingAddress: Option<ShippingAddress>, totalAmount: Option<int>,
                                 notes: Option<string>)

  /** The up-front check: an email, a non-empty item list, an address and a truthy total
      (so a total of 0 is refused). */
  predicate OrderBodyComplete(b: OrderBody)
  {
    Truthy(b.userEmail) && b.items.Some? && |b.items.value| > 0 && b.shippingAddress.Some? && TruthyNumber(b.totalAmount)
  }

  /** The unique index on orderNumber already holds `number`. */
  predicate NumberTaken(orders: seq<Order>, number: string)
  {
    exists i :: 0 <= i < |orders| && orders[i].orderNumber == number
  }

  /** What placing an order yields: the reply, the orders and the users afterwards. */
  datatype Placement = Placement(reply: Reply<Order>, orders: seq<Order>, users: map<string, User>)

  /** The order POST /orders builds from a complete body for a known user: the fresh id, the
      user's id, the number made from the clock and the count, the body's fields, and the
      schema defaults Pending and Cash on Delivery. */
  predicate BuiltFrom(o: Order, users: map<string, User>, orders: seq<Order>, b: OrderBody,
                      freshId: ObjectId, now: nat)
    requires OrderBodyComplete(b) && b.userEmail.value in users
  {
    && ValidOrder(o) && o.id == freshId && o.createdAt == now
    && o.user == users[b.userEmail.value].id && o.orderNumber == OrderNumber(now, |orders|)
    && o.items == b.items.value && o.shippingAddress == b.shippingAddress.value
    && o.totalAmount == b.totalAmount.value && o.notes == OrElse(b.notes, "")
    && o.orderStatus == PENDING && o.paymentMethod == CASH_ON_DELIVERY
  }

  /** POST /orders. The user is looked up by the email exactly as given. The order is saved
      first; emptying the cart is a second write, and when that one fails (`cartWriteFails`)
      the order stays stored while the reply is 500. */
  function PlaceOrder(users: map<string, User>, orders: seq<Order>, b: OrderBody, freshId: ObjectId,
                      now: nat, cartWriteFails: bool): (r: Placement)
    ensures !OrderBodyComplete(b) ==> r == Placement(Err(BadRequest), orders, users)
    ensures OrderBodyComplete(b) && b.userEmail.value !in users ==> r == Placement(Err(NotFound), orders, users)
    ensures OrderBodyComplete(b) && b.userEmail.value in users && NumberTaken(orders, OrderNumber(now, |orders|))
            ==> r == Placement(Err(ServerError), orders, users)
    ensures r.reply.Done? <==> && OrderBodyComplete(b) && b.userEmail.value in users
                               && !NumberTaken(orders, OrderNumber(now, |orders|)) && !cartWriteFails
    ensures r.reply.Done? ==>
              var o := r.reply.data;
              var email := b.userEmail.value;
              && r.reply.status == Created
              && r.orders == orders + [o]
              && r.users == users[email := users[email].(cart := [])]
              && BuiltFrom(o, users, orders, b, freshId, now)
    ensures (OrderBodyComplete(b) && b.userEmail.value in users && !NumberTaken(orders, OrderNumber(now, |orders|)) &&
             cartWriteFails) ==> && r.reply == Err(ServerError) && r.users == users
                                 && |r.orders| == |orders| + 1 && r.orders[..|orders|] == orders
                                 && BuiltFrom(r.orders[|orders|], users, orders, b, freshId, now)
  {
    if !OrderBodyComplete(b) then Placement(Err(BadRequest), orders, users)
    else if b.userEmail.value !in users then Placement(Err(NotFound), orders, users)
    else
      var email := b.userEmail.value;
      var u := users[email];
      var count := |orders|;
      var draft := NewOrder(freshId, u.id, OrderNumber(now, count), b.items.value, b.shippingAddress.value,
                            b.totalAmount.value, OrElse(b.notes, ""), now);
      var saved := Save(draft, count, now).value;
      if NumberTaken(orders, saved.orderNumber) then Placement(Err(ServerError), orders, users)
      else if cartWriteFails then Placement(Err(ServerError), orders + [saved], users)
      else Placement(Done(Created, saved), orders + [saved], users[email := u.(cart := [])])
  }

  /** A failing cart write changes only the reply and the users: the orders stored are the
      same as when the write succeeds. */
  lemma CartFailureKeepsOrder(users: map<string, User>, orders: seq<Order>, b: OrderBody,
                              freshId: ObjectId, now: nat)
    ensures PlaceOrder(users, orders, b, freshId, now, true).orders
            == PlaceOrder(users, orders, b, freshId, now, false).orders
    ensures PlaceOrder(users, orders, b, freshId, now, true).reply.Err?
  {
  }

  method HandlePlaceOrder(db: Db, b: OrderBody, now: nat, cartWriteFails: bool) returns (reply: Reply<Order>)
    requires db.Valid()
    modifies db`orders, db`users, db`nextId
    ensures db.Valid()
    ensures Placement(reply, db.orders, db.users) == PlaceOrder(old(db.users), old(db.orders), b, old(db.nextId), now, cartWriteFails)
    ensures db.nextId == old(db.nextId) + (|db.orders| - |old(db.orders)|)
  {
    if !(Truthy(b.userEmail) && b.items.Some? && |b.items.value| > 0 && b.shippingAddress.Some? && TruthyNumber(b.totalAmount)) {
      return Err(BadRequest);
    }
    var email := b.userEmail.value;
    if email !in db.users {
      return Err(NotFound);
    }
    var user := db.users[email];
    var count := |db.orders|;
    var generatedOrderNumber := OrderNumber(now, count);
    var order := NewOrder(db.nextId, user.id, generatedOrderNumber, b.items.value, b.shippingAddress.value,
                          b.totalAmount.value, OrElse(b.notes, ""), now);
    order := NumberIfMissing(order, count, now);
    if NumberTaken(db.orders, order.orderNumber) {
      return Err(ServerError);
    }
    db.InsertOrder(order);
    if cartWriteFails {
      return Err(ServerError);
    }
    db.SetCart(email, []);
    reply := Done(Created, order);
  }

  // ------------------------------------------------------------------ numbering in sequence

  /** Orders placed one after another: order i carries the number made from its own
      timestamp and count i, and timestamps do not go back. */
  predicate PlacedInSequence(orders: seq<Order>)
  {
    && (forall i :: 0 <= i < |orders| ==> orders[i].orderNumber == OrderNumber(orders[i].createdAt, i))
    && (forall i, j :: 0 <= i < j < |orders| ==> orders[i].createdAt <= orders[j].createdAt)
  }

  /** With a clock that does not go back, the next number is never taken. */
  lemma {:induction false} NextNumberIsFree(orders: seq<Order>, now: nat)
    requires PlacedInSequence(orders)
    requires forall i :: 0 <= i < |orders| ==> orders[i].createdAt <= now
    ensures !NumberTaken(orders, OrderNumber(now, |orders|))
  {
    forall i | 0 <= i < |orders|
      ensures orders[i].orderNumber != OrderNumber(now, |orders|)
    {
      SequentialNumbersDistinct(orders[i].createdAt, i, now, |orders|);
    }
  }

  /** Placing orders one after another never hits the unique index, and keeps the orders
      in sequence. */
  lemma PlacementInSequence(users: map<string, User>, orders: seq<Order>, b: OrderBody, freshId: ObjectId,
                            now: nat, cartWriteFails: bool)
    requires PlacedInSequence(orders)
    requires |orders| > 0 ==> orders[|orders| - 1].createdAt <= now
    requires OrderBodyComplete(b) && b.userEmail.value in users
    ensures var r := PlaceOrder(users, orders, b, freshId, now, cartWriteFails);
            r.reply.Done? == !cartWriteFails && PlacedInSequence(r.orders)
  {
    assert forall i :: 0 <= i < |orders| ==> orders[i].createdAt <= now by {
      forall i | 0 <= i < |orders| ensures orders[i].createdAt <= now {
        assert i == |orders| - 1 || orders[i].createdAt <= orders[|orders| - 1].createdAt;
      }
    }
    NextNumberIsFree(orders, now);
    var r := PlaceOrder(users, orders, b, freshId, now, cartWriteFails);
    if |r.orders| > |orders| {
      var o := r.orders[|orders|];
      assert r.orders == orders + [o];
      AppendInSequence(orders, o, now);
    }
  }

  /** An order numbered from the clock and the current count extends the sequence. */
  lemma AppendInSequence(orders: seq<Order>, o: Order, now: nat)
    requires PlacedInSequence(orders)
    requires forall i :: 0 <= i < |orders| ==> orders[i].createdAt <= now
    requires o.orderNumber == OrderNumber(now, |orders|) && o.createdAt == now
    ensures PlacedInSequence(orders + [o])
  {
    var r := orders + [o];
    forall i | 0 <= i < |r|
      ensures r[i].orderNumber == OrderNumber(r[i].createdAt, i)
    {
      if i < |orders| {
        assert r[i] == orders[i];
      }
    }
    forall i, j | 0 <= i < j < |r|
      ensures r[i].createdAt <= r[j].createdAt
    {
      assert r[i] == orders[i];
    }
  }

  /** Placing an order keeps the store's invariants once the order's id is issued. */
  lemma PlacementKeepsWellFormed(users: map<string, User>, orders: seq<Order>, b: OrderBody, nextId: ObjectId,
                                 now: nat, cartWriteFails: bool)
    requires UsersWellFormed(users, nextId) && OrdersWellFormed(orders, nextId)
    ensures var r := PlaceOrder(users, orders, b, nextId, now, cartWriteFails);
            UsersWellFormed(r.users, nextId + 1) && OrdersWellFormed(r.orders, nextId + 1)
  {
    var r := PlaceOrder(users, orders, b, nextId, now, cartWriteFails);
    if r.reply.Done? {
      CartChangeKeepsWellFormed(users, nextId + 1, b.userEmail.value, []);
    }
  }

  /** Stored emails are lower-case, and the lookup is exact: an email with an upper-case
      letter never finds its user. */
  lemma MixedCaseEmailNotFound(users: map<string, User>, orders: seq<Order>, b: OrderBody, freshId: ObjectId,
                               nextId: ObjectId, now: nat, cartWriteFails: bool)
    requires UsersWellFormed(users, nextId)
    requires OrderBodyComplete(b) && !IsLowerCase(b.userEmail.value)
    ensures PlaceOrder(users, orders, b, freshId, now, cartWriteFails) == Placement(Err(NotFound), orders, users)
  {
  }

  // ------------------------------------------------------------------ reading orders

  /** `Order.find({ user })` */
  function OrdersOf(orders: seq<Order>, user: ObjectId): (r: seq<Order>)
    ensures forall o :: o in r <==> o in orders && o.user == user
    ensures |r| <= |orders|
  {
    if orders == [] then []
    else (if orders[0].user == user then [orders[0]] else []) + OrdersOf(orders[1..], user)
  }

  /** The sort key of `sort({ createdAt: -1 })`. */
  function NewestFirst(o: Order): int
  {
    -(o.createdAt as int)
  }

  /** GET /orders/user/:email: 404 for an unknown email (looked up as given); otherwise
      exactly that user's orders, newest first. */
  function UserOrders(users: map<string, User>, orders: seq<Order>, email: string): (r: Reply<seq<Order>>)
    ensures r.Done? <==> email in users
    ensures !r.Done? ==> r == Err(NotFound)
    ensures r.Done? ==> r.status == OK
    ensures r.Done? ==> forall o :: o in r.data <==> o in orders && o.user == users[email].id
    ensures r.Done? ==> multiset(r.data) == multiset(OrdersOf(orders, users[email].id))
    ensures r.Done? ==> forall i, j :: 0 <= i < j < |r.data| ==> r.data[i].createdAt >= r.data[j].createdAt
  {
    if email !in users then Err(NotFound)
    else
      var mine := OrdersOf(orders, users[email].id);
      var sorted := SortBy(mine, NewestFirst);
      assert forall o :: o in sorted <==> o in mine by {
        forall o ensures o in sorted <==> o in mine {
          assert o in sorted <==> o in multiset(sorted);
          assert o in mine <==> o in multiset(mine);
        }
      }
      assert forall i, j :: 0 <= i < j < |sorted| ==> NewestFirst(sorted[i]) <= NewestFirst(sorted[j]);
      Done(OK, sorted)
  }

  function OrderId(o: Order): ObjectId { o.id }

  /** `Order.findById`. */
  function OrderIndex(orders: seq<Order>, id: ObjectId): int
  {
    FindById(orders, id, OrderId)
  }

  /** GET /orders/:id: the order with that id, or 404. */
  function GetOrder(orders: seq<Order>, id: ObjectId): (r: Reply<Order>)
    ensures r.Done? <==> exists i :: 0 <= i < |orders| && orders[i].id == id
    ensures r.Done? ==> r.status == OK && r.data in orders && r.data.id == id
    ensures !r.Done? ==> r == Err(NotFound)
  {
    var i := OrderIndex(orders, id);
    if i < 0 then Err(NotFound) else Done(OK, orders[i])
  }

  /** A placed order can be fetched by its id and is listed among its user's orders. */
  lemma PlacedOrderIsReadable(users: map<string, User>, orders: seq<Order>, b: OrderBody, freshId: ObjectId,
                              now: nat, cartWriteFails: bool)
    requires PlaceOrder(users, orders, b, freshId, now, cartWriteFails).reply.Done?
    ensures var r := PlaceOrder(users, orders, b, freshId, now, cartWriteFails);
            && GetOrder(r.orders, freshId).Done?
            && r.reply.data in UserOrders(r.users, r.orders, b.userEmail.value).data
  {
    var r := PlaceOrder(users, orders, b, freshId, now, cartWriteFails);
    assert r.orders[|orders|] == r.reply.data;
  }
}
