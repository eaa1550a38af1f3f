/** The admin router: login, then — behind the admin guard — the order list, the order
    status overwrite, product create, update and delete, and the dashboard figures. */
module AdminRoutes {
  import opened Base
  import opened Sorting
  import opened OrderModel
  import opened ProductModel
  import opened AdminModel
  import opened Store
  import opened AdminAuth
  import OrderRoutes
  import ProductRoutes

  // ------------------------------------------------------------------ login

  /** `username` is matched exactly; a missing password makes the hash comparison throw. */
  datatype AdminLoginBody = AdminLoginBody(username: string, password: Option<string>)

  datatype AdminLoginStep = AdminLoginStep(reply: Reply<Claims>, admins: map<string, Admin>)

  /** POST /admin/login: the same 401 for an unknown username and for a wrong password; on
      success the admin's lastLogin becomes `now` and the token carries `{ id, username,
      isAdmin: true }`. */
  function AdminLogin(admins: map<string, Admin>, b: AdminLoginBody, now: nat): (r: AdminLoginStep)
    ensures b.username !in admins ==> r == AdminLoginStep(Err(Unauthorized), admins)
    ensures b.username in admins && b.password.None? ==> r == AdminLoginStep(Err(ServerError), admins)
    ensures b.username in admins && b.password.Some? && !PasswordMatches(b.password.value, admins[b.username].password)
            ==> r == AdminLoginStep(Err(Unauthorized), admins)
    ensures r.reply.Done? <==> b.username in admins && b.password.Some? && PasswordMatches(b.password.value, admins[b.username].password)
    ensures r.reply.Done? ==>
              && r.reply.status == OK
              && r.reply.data == AdminClaims(admins[b.username])
              && r.admins == admins[b.username := admins[b.username].(lastLogin := Some(now))]
  {
    if b.username !in admins then AdminLoginStep(Err(Unauthorized), admins)
    else
      var a := admins[b.username];
      if b.password.None? then AdminLoginStep(Err(ServerError), admins)
      else if !PasswordMatches(b.password.value, a.password) then AdminLoginStep(Err(Unauthorized), admins)
      else AdminLoginStep(Done(OK, AdminClaims(a)), admins[b.username := a.(lastLogin := Some(now))])
  }

  method HandleAdminLogin(db: Db, b: AdminLoginBody, now: nat) returns (reply: Reply<Claims>)
    requires db.Valid()
    modifies db`admins
    ensures db.Valid()
    ensures AdminLoginStep(reply, db.admins) == AdminLogin(old(db.admins), b, now)
  {
    if b.username !in db.admins {
      return Err(Unauthorized);
    }
    var admin := db.admins[b.username];
    if b.password.None? {
      return Err(ServerError);
    }
    var isMatch := PasswordMatches(b.password.value, admin.password);
    if !isMatch {
      return Err(Unauthorized);
    }
    admin := admin.(lastLogin := Some(now));
    db.SetAdmins(db.admins[b.username := admin]);
    reply := Done(OK, AdminClaims(admin));
  }

  /** The token issued at login opens the guarded routes as that admin. */
  lemma LoginTokenOpensAdminRoutes(admins: map<string, Admin>, b: AdminLoginBody, now: nat,
                                   token: string, verify: string -> Option<Claims>)
    requires AdminLogin(admins, b, now).reply.Done?
    requires token != "" && verify(token) == Some(AdminLogin(admins, b, now).reply.data)
    ensures Guard(Some(BEARER + token), verify) == Next(AdminClaims(admins[b.username]))
  {
    AdminTokenPasses(admins[b.username], token, verify);
  }

  // ------------------------------------------------------------------ orders

  /** GET /admin/orders: every order, newest first. */
  function AllOrders(orders: seq<Order>): (r: seq<Order>)
    ensures multiset(r) == multiset(orders)
    ensures forall i, j :: 0 <= i < j < |r| ==> r[i].createdAt >= r[j].createdAt
  {
    var sorted := SortBy(orders, OrderRoutes.NewestFirst);
    assert forall i, j :: 0 <= i < j < |sorted| ==> OrderRoutes.NewestFirst(sorted[i]) <= OrderRoutes.NewestFirst(sorted[j]);
    sorted
  }

  /** The status an update leaves: a missing `orderStatus` leaves the update empty. */
  function StatusAfter(o: Order, status: Option<string>): string
  {
    if status.Some? then status.value else o.orderStatus
  }

  datatype OrderUpdate = OrderUpdate(found: Option<Order>, orders: seq<Order>)

  /** PUT /admin/orders/:id: `findByIdAndUpdate` without validators. Whatever the current
      status, the given string replaces it — even one outside the enumeration — and no
      other field changes. An unknown id answers 200 with null. */
  function SetOrderStatus(orders: seq<Order>, id: ObjectId, status: Option<string>): (r: OrderUpdate)
    ensures |r.orders| == |orders|
    ensures forall i :: 0 <= i < |orders| && orders[i].id != id ==> r.orders[i] == orders[i]
    ensures forall i :: 0 <= i < |orders| && orders[i].id == id
              ==> r.orders[i] == orders[i].(orderStatus := StatusAfter(orders[i], status))
    ensures r.found.Some? <==> exists i :: 0 <= i < |orders| && orders[i].id == id
    ensures r.found.Some? ==> r.found.value in r.orders && r.found.value.id == id
  {
    var updated := seq(|orders|, i requires 0 <= i < |orders| =>
                         if orders[i].id == id then orders[i].(orderStatus := StatusAfter(orders[i], status)) else orders[i]);
    var k := OrderRoutes.OrderIndex(orders, id);
    OrderUpdate(if k < 0 then None else Some(updated[k]), updated)
  }

  /** An order can be given a status outside the enumeration, after which it no longer
      satisfies the schema. */
  lemma UnlistedStatusIsStored(orders: seq<Order>, i: nat, status: string)
    requires i < |orders| && status !in ORDER_STATUSES
    ensures var r := SetOrderStatus(orders, orders[i].id, Some(status));
            r.orders[i].orderStatus == status && !ValidOrder(r.orders[i])
  {
  }

  lemma SetOrderStatusKeepsWellFormed(orders: seq<Order>, nextId: ObjectId, id: ObjectId, status: Option<string>)
    requires OrdersWellFormed(orders, nextId)
    ensures OrdersWellFormed(SetOrderStatus(orders, id, status).orders, nextId)
  {
    var r := SetOrderStatus(orders, id, status).orders;
    assert forall i :: 0 <= i < |orders| ==> r[i].id == orders[i].id && r[i].orderNumber == orders[i].orderNumber;
  }

  // ------------------------------------------------------------------ products

  datatype ProductStep<+T> = ProductStep(reply: Reply<T>, products: seq<Product>)

  /** POST /admin/products: the body with `createdBy` replaced by the admin's id; a body
      the schema refuses answers 500. */
  function CreateProduct(products: seq<Product>, body: ProductInput, adminId: ObjectId, freshId: ObjectId,
                         now: nat): (r: ProductStep<Product>)
    ensures r.reply.Done? <==> AcceptsNew(body)
    ensures !r.reply.Done? ==> r == ProductStep(Err(ServerError), products)
    ensures r.reply.Done? ==>
              && r.reply.status == Created
              && r.products == products + [r.reply.data]
              && r.reply.data.createdBy == Some(adminId) && r.reply.data.id == freshId
              && ValidProduct(r.reply.data)
              && ProductModel.Created(r.reply.data, body.(createdBy := Some(adminId)), freshId, now)
  {
    var created := CreateDocument(body.(createdBy := Some(adminId)), freshId, now);
    if created.None? then ProductStep(Err(ServerError), products)
    else ProductStep(Done(Created, created.value), products + [created.value])
  }

  /** PUT /admin/products/:id: the update validators run first (500 when one fails),
      then an unknown id answers 404; otherwise the given paths overwrite the product. */
  function UpdateProduct(products: seq<Product>, id: ObjectId, body: ProductInput): (r: ProductStep<Product>)
    ensures !GivenFieldsOk(body) ==> r == ProductStep(Err(ServerError), products)
    ensures GivenFieldsOk(body) && (forall j :: 0 <= j < |products| ==> products[j].id != id)
            ==> r == ProductStep(Err(NotFound), products)
    ensures r.reply.Done? <==> GivenFieldsOk(body) && exists j :: 0 <= j < |products| && products[j].id == id
    ensures r.reply.Done? ==>
              var i := ProductRoutes.ProductIndex(products, id);
              && r.reply.status == OK
              && r.reply.data == ApplyPatch(products[i], body)
              && r.products == products[i := r.reply.data]
  {
    if !GivenFieldsOk(body) then ProductStep(Err(ServerError), products)
    else
      var i := ProductRoutes.ProductIndex(products, id);
      if i < 0 then ProductStep(Err(NotFound), products)
      else
        var updated := ApplyPatch(products[i], body);
        ProductStep(Done(OK, updated), products[i := updated])
  }

  /** DELETE /admin/products/:id: 404 for an unknown id, otherwise that product is removed. */
  function DeleteProduct(products: seq<Product>, id: ObjectId): (r: ProductStep<ObjectId>)
    ensures r.reply.Done? <==> exists j :: 0 <= j < |products| && products[j].id == id
    ensures !r.reply.Done? ==> r == ProductStep(Err(NotFound), products)
    ensures r.reply.Done? ==>
              && r.reply == Done(OK, id)
              && r.products == RemoveAt(products, ProductRoutes.ProductIndex(products, id))
  {
    var i := ProductRoutes.ProductIndex(products, id);
    if i < 0 then ProductStep(Err(NotFound), products)
    else ProductStep(Done(OK, id), RemoveAt(products, i))
  }

  /** `s` without its element at `i`. */
  function RemoveAt<T>(s: seq<T>, i: nat): seq<T>
    requires i < |s|
  {
    s[..i] + s[i + 1..]
  }

  /** With distinct ids, delete removes exactly the product with that id and keeps the rest. */
  lemma DeleteRemovesExactlyThatProduct(products: seq<Product>, id: ObjectId)
    requires forall i, j :: 0 <= i < j < |products| ==> products[i].id != products[j].id
    requires DeleteProduct(products, id).reply.Done?
    ensures var r := DeleteProduct(products, id).products;
            |r| == |products| - 1 && forall p :: p in r <==> p in products && p.id != id
  {
    var i := ProductRoutes.ProductIndex(products, id);
    var r := DeleteProduct(products, id).products;
    forall p ensures p in r <==> p in products && p.id != id {
      if p in r {
        var k :| 0 <= k < |r| && r[k] == p;
        if k < i {
          assert r[k] == products[k];
        } else {
          assert r[k] == products[k + 1];
        }
      }
      if p in products && p.id != id {
        var k :| 0 <= k < |products| && products[k] == p;
        if k < i {
          assert r[k] == p;
        } else {
          assert r[k - 1] == p;
        }
      }
    }
  }

  lemma UpdateProductKeepsWellFormed(products: seq<Product>, nextId: ObjectId, id: ObjectId, body: ProductInput)
    requires ProductsWellFormed(products, nextId)
    ensures ProductsWellFormed(UpdateProduct(products, id, body).products, nextId)
  {
    var u := UpdateProduct(products, id, body);
    if u.reply.Done? {
      var i := ProductRoutes.ProductIndex(products, id);
      PatchKeepsValid(products[i], body);
      ReplaceProductKeepsWellFormed(products, nextId, i, u.reply.data);
    }
  }

  lemma DeleteProductKeepsWellFormed(products: seq<Product>, nextId: ObjectId, id: ObjectId)
    requires ProductsWellFormed(products, nextId)
    ensures ProductsWellFormed(DeleteProduct(products, id).products, nextId)
  {
    var i := ProductRoutes.ProductIndex(products, id);
    if i >= 0 {
      RemoveProductKeepsWellFormed(products, nextId, i);
    }
  }

  // ------------------------------------------------------------------ dashboard

  datatype Stats = Stats(totalProducts: nat, totalOrders: nat, pendingOrders: nat, totalRevenue: int)

  /** `countDocuments({ orderStatus })` */
  function CountStatus(orders: seq<Order>, status: string): (n: nat)
    ensures n <= |orders|
    ensures n == 0 <==> forall i :: 0 <= i < |orders| ==> orders[i].orderStatus != status
    ensures n == |orders| <==> forall i :: 0 <= i < |orders| ==> orders[i].orderStatus == status
  {
    if orders == [] then 0
    else (if orders[0].orderStatus == status then 1 else 0) + CountStatus(orders[1..], status)
  }

  /** What one order adds to the revenue: its total unless it is cancelled. */
  function Contribution(o: Order): int
  {
    if o.orderStatus == CANCELLED then 0 else o.totalAmount
  }

  /** The `$match`/`$group` aggregation, or 0 when no order matches. */
  function Revenue(orders: seq<Order>): int
  {
    if orders == [] then 0 else Contribution(orders[0]) + Revenue(orders[1..])
  }

  /** GET /admin/stats */
  function DashboardStats(products: seq<Product>, orders: seq<Order>): (s: Stats)
    ensures s.totalProducts == |products| && s.totalOrders == |orders|
    ensures s.pendingOrders == CountStatus(orders, PENDING) && s.pendingOrders <= s.totalOrders
    ensures s.totalRevenue == Revenue(orders)
  {
    Stats(|products|, |orders|, CountStatus(orders, PENDING), Revenue(orders))
  }

  /** Counting over two runs of orders adds up. */
  lemma {:induction false} CountStatusAppend(a: seq<Order>, b: seq<Order>, status: string)
    ensures CountStatus(a + b, status) == CountStatus(a, status) + CountStatus(b, status)
  {
    if a != [] {
      assert (a + b)[0] == a[0];
      assert (a + b)[1..] == a[1..] + b;
      CountStatusAppend(a[1..], b, status);
    } else {
      assert a + b == b;
    }
  }

  /** A newly placed order is Pending, so it raises the dashboard's pending count by one. */
  lemma PlacementAddsPending(orders: seq<Order>, o: Order)
    requires o.orderStatus == PENDING
    ensures CountStatus(orders + [o], PENDING) == CountStatus(orders, PENDING) + 1
  {
    CountStatusAppend(orders, [o], PENDING);
  }

  /** Moving one order from Pending to another status lowers the pending count by one. */
  lemma {:induction false} LeavingPendingLowersCount(orders: seq<Order>, i: nat, status: string)
    requires i < |orders| && orders[i].orderStatus == PENDING && status != PENDING
    ensures CountStatus(orders[i := orders[i].(orderStatus := status)], PENDING) == CountStatus(orders, PENDING) - 1
  {
    var o := orders[i].(orderStatus := status);
    assert orders == orders[..i] + [orders[i]] + orders[i + 1..];
    assert orders[i := o] == orders[..i] + [o] + orders[i + 1..];
    CountStatusAppend(orders[..i] + [orders[i]], orders[i + 1..], PENDING);
    CountStatusAppend(orders[..i], [orders[i]], PENDING);
    CountStatusAppend(orders[..i] + [o], orders[i + 1..], PENDING);
    CountStatusAppend(orders[..i], [o], PENDING);
  }

  lemma {:induction false} RevenueAppend(a: seq<Order>, b: seq<Order>)
    ensures Revenue(a + b) == Revenue(a) + Revenue(b)
  {
    if a != [] {
      assert (a + b)[0] == a[0];
      assert (a + b)[1..] == a[1..] + b;
      RevenueAppend(a[1..], b);
    } else {
      assert a + b == b;
    }
  }

  /** The revenue is never negative while every total is not, and counts no cancelled order. */
  lemma {:induction false} RevenueNonNegative(orders: seq<Order>)
    requires forall i :: 0 <= i < |orders| ==> orders[i].totalAmount >= 0
    ensures Revenue(orders) >= 0
  {
    if orders != [] {
      RevenueNonNegative(orders[1..]);
    }
  }

  lemma {:induction false} AllCancelledEarnNothing(orders: seq<Order>)
    requires forall i :: 0 <= i < |orders| ==> orders[i].orderStatus == CANCELLED
    ensures Revenue(orders) == 0
  {
    if orders != [] {
      AllCancelledEarnNothing(orders[1..]);
    }
  }

  /** Changing one order moves the revenue by the change in that order's contribution. */
  lemma RevenueUpdate(orders: seq<Order>, i: nat, o: Order)
    requires i < |orders|
    ensures Revenue(orders[i := o]) == Revenue(orders) - Contribution(orders[i]) + Contribution(o)
  {
    assert orders == orders[..i] + [orders[i]] + orders[i + 1..];
    assert orders[i := o] == orders[..i] + [o] + orders[i + 1..];
    RevenueAppend(orders[..i] + [orders[i]], orders[i + 1..]);
    RevenueAppend(orders[..i], [orders[i]]);
    RevenueAppend(orders[..i] + [o], orders[i + 1..]);
    RevenueAppend(orders[..i], [o]);
  }

  /** A newly placed order adds its total to the revenue. */
  lemma PlacementAddsToRevenue(orders: seq<Order>, o: Order)
    requires o.orderStatus == PENDING
    ensures Revenue(orders + [o]) == Revenue(orders) + o.totalAmount
  {
    RevenueAppend(orders, [o]);
  }

  /** Cancelling an order that was not cancelled takes its total out of the revenue. */
  lemma CancellingRemovesRevenue(orders: seq<Order>, nextId: ObjectId, i: nat)
    requires OrdersWellFormed(orders, nextId)
    requires i < |orders| && orders[i].orderStatus != CANCELLED
    ensures Revenue(SetOrderStatus(orders, orders[i].id, Some(CANCELLED)).orders)
            == Revenue(orders) - orders[i].totalAmount
  {
    var r := SetOrderStatus(orders, orders[i].id, Some(CANCELLED)).orders;
    assert r == orders[i := orders[i].(orderStatus := CANCELLED)];
    RevenueUpdate(orders, i, orders[i].(orderStatus := CANCELLED));
  }

  // ------------------------------------------------------------------ behind the guard

  datatype AdminRoute =
    | ListOrders
    | UpdateOrderStatus(orderId: ObjectId, status: Option<string>)
    | NewProduct(body: ProductInput)
    | EditProduct(productId: ObjectId, patch: ProductInput)
    | RemoveProduct(productId: ObjectId)
    | Dashboard

  datatype AdminData =
    | OrderList(orders: seq<Order>)
    | MaybeOrder(order: Option<Order>)
    | OneProduct(product: Product)
    | RemovedProduct(id: ObjectId)
    | Figures(stats: Stats)

  datatype AdminOutcome = AdminOutcome(reply: Reply<AdminData>, orders: seq<Order>, products: seq<Product>)

  function WrapProduct(s: ProductStep<Product>, orders: seq<Order>): AdminOutcome
  {
    AdminOutcome(if s.reply.Done? then Done(s.reply.status, OneProduct(s.reply.data)) else Err(s.reply.status),
                 orders, s.products)
  }

  /** A guarded route, run by the admin the guard let through. */
  function Dispatch(orders: seq<Order>, products: seq<Product>, admin: Claims, route: AdminRoute,
                    freshId: ObjectId, now: nat): (r: AdminOutcome)
    ensures route.ListOrders? || route.Dashboard? ==> r.orders == orders && r.products == products && r.reply.Done?
    ensures route.UpdateOrderStatus? ==> r.products == products && r.reply.Done?
    ensures route.NewProduct? || route.EditProduct? || route.RemoveProduct? ==> r.orders == orders
    ensures route.NewProduct? && r.reply.Done? ==> r.reply.data.OneProduct? && r.reply.data.product.createdBy == Some(admin.id)
  {
    match route
    case ListOrders => AdminOutcome(Done(OK, OrderList(AllOrders(orders))), orders, products)
    case UpdateOrderStatus(id, status) =>
      var u := SetOrderStatus(orders, id, status);
      AdminOutcome(Done(OK, MaybeOrder(u.found)), u.orders, products)
    case NewProduct(body) => WrapProduct(CreateProduct(products, body, admin.id, freshId, now), orders)
    case EditProduct(id, patch) => WrapProduct(UpdateProduct(products, id, patch), orders)
    case RemoveProduct(id) =>
      var d := DeleteProduct(products, id);
      AdminOutcome(if d.reply.Done? then Done(OK, RemovedProduct(id)) else Err(d.reply.status), orders, d.products)
    case Dashboard => AdminOutcome(Done(OK, Figures(DashboardStats(products, orders))), orders, products)
  }

  method HandleSetOrderStatus(db: Db, id: ObjectId, status: Option<string>) returns (found: Option<Order>)
    requires db.Valid()
    modifies db`orders
    ensures db.Valid()
    ensures OrderUpdate(found, db.orders) == SetOrderStatus(old(db.orders), id, status)
  {
    var u := SetOrderStatus(db.orders, id, status);
    SetOrderStatusKeepsWellFormed(db.orders, db.nextId, id, status);
    db.SetOrders(u.orders);
    found := u.found;
  }

  method HandleCreateProduct(db: Db, body: ProductInput, adminId: ObjectId, now: nat) returns (reply: Reply<Product>)
    requires db.Valid()
    modifies db`products, db`nextId
    ensures db.Valid()
    ensures ProductStep(reply, db.products) == CreateProduct(old(db.products), body, adminId, old(db.nextId), now)
    ensures db.nextId == if reply.Done? then old(db.nextId) + 1 else old(db.nextId)
  {
    var s := CreateProduct(db.products, body, adminId, db.nextId, now);
    reply := s.reply;
    if s.reply.Done? {
      db.InsertProduct(s.reply.data);
    }
  }

  method HandleUpdateProduct(db: Db, id: ObjectId, body: ProductInput) returns (reply: Reply<Product>)
    requires db.Valid()
    modifies db`products
    ensures db.Valid()
    ensures ProductStep(reply, db.products) == UpdateProduct(old(db.products), id, body)
  {
    var s := UpdateProduct(db.products, id, body);
    UpdateProductKeepsWellFormed(db.products, db.nextId, id, body);
    db.SetProducts(s.products);
    reply := s.reply;
  }

  method HandleDeleteProduct(db: Db, id: ObjectId) returns (reply: Reply<ObjectId>)
    requires db.Valid()
    modifies db`products
    ensures db.Valid()
    ensures ProductStep(reply, db.products) == DeleteProduct(old(db.products), id)
  {
    var s := DeleteProduct(db.products, id);
    DeleteProductKeepsWellFormed(db.products, db.nextId, id);
    db.SetProducts(s.products);
    reply := s.reply;
  }

  /** Every admin request after login: the guard decides first; a refused request reaches
      no handler and changes nothing, an admitted one runs its route as that admin. */
  method HandleAdminRequest(db: Db, header: Option<string>, verify: string -> Option<Claims>,
                            route: AdminRoute, now: nat) returns (reply: Reply<AdminData>)
    requires db.Valid()
    modifies db`orders, db`products, db`nextId
    ensures db.Valid()
    ensures Guard(header, verify).Reject? ==>
              && reply == Err(Guard(header, verify).status)
              && db.orders == old(db.orders) && db.products == old(db.products) && db.nextId == old(db.nextId)
    ensures Guard(header, verify).Next? ==>
              AdminOutcome(reply, db.orders, db.products)
              == Dispatch(old(db.orders), old(db.products), Guard(header, verify).admin, route, old(db.nextId), now)
  {
    var decision := Guard(header, verify);
    if decision.Reject? {
      return Err(decision.status);
    }
    reply := ServeAdmin(db, decision.admin, route, now);
  }

  /** An admitted request: the route runs as `admin` against the store. */
  method ServeAdmin(db: Db, admin: Claims, route: AdminRoute, now: nat) returns (reply: Reply<AdminData>)
    requires db.Valid()
    modifies db`orders, db`products, db`nextId
    ensures db.Valid()
    ensures AdminOutcome(reply, db.orders, db.products)
            == Dispatch(old(db.orders), old(db.products), admin, route, old(db.nextId), now)
  {
    match route {
      case ListOrders =>
        reply := Done(OK, OrderList(AllOrders(db.orders)));
      case UpdateOrderStatus(id, status) =>
        var found := HandleSetOrderStatus(db, id, status);
        reply := Done(OK, MaybeOrder(found));
      case NewProduct(_) =>
        reply := ServeProductWrite(db, admin, route, now);
      case EditProduct(_, _) =>
        reply := ServeProductWrite(db, admin, route, now);
      case RemoveProduct(_) =>
        reply := ServeProductWrite(db, admin, route, now);
      case Dashboard =>
        reply := Done(OK, Figures(DashboardStats(db.products, db.orders)));
    }
  }

  /** The three product routes; the order list is left alone. */
  method ServeProductWrite(db: Db, admin: Claims, route: AdminRoute, now: nat) returns (reply: Reply<AdminData>)
    requires db.Valid()
    requires route.NewProduct? || route.EditProduct? || route.RemoveProduct?
    modifies db`products, db`nextId
    ensures db.Valid()
    ensures AdminOutcome(reply, db.orders, db.products)
            == Dispatch(old(db.orders), old(db.products), admin, route, old(db.nextId), now)
  {
    if route.NewProduct? {
      var r := HandleCreateProduct(db, route.body, admin.id, now);
      reply := if r.Done? then Done(r.status, OneProduct(r.data)) else Err(r.status);
    } else if route.EditProduct? {
      var r := HandleUpdateProduct(db, route.productId, route.patch);
      reply := if r.Done? then Done(r.status, OneProduct(r.data)) else Err(r.status);
    } else {
      var r := HandleDeleteProduct(db, route.productId);
      reply := if r.Done? then Done(OK, RemovedProduct(route.productId)) else Err(r.status);
    }
  }
}
