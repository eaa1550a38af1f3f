/** The database the handlers share: the users keyed by their stored (lower-case) email,
    the orders and products in insertion order, the admins keyed by username, and the
    counter that stands in for ObjectId generation. */
module Store {
  import opened Base
  import opened Strings
  import opened UserModel
  import opened Cart
  import opened OrderModel
  import opened ProductModel
  import opened AdminModel

  // ------------------------------------------------------------------ invariants

  /** A cart as the handlers keep it: one line per key, distinct line ids, ids already issued. */
  predicate CartWellFormed(cart: seq<CartLine>, nextId: ObjectId)
  {
    KeysUnique(cart) && IdsUnique(cart) && forall j :: 0 <= j < |cart| ==> cart[j].id < nextId
  }

  /** The user stored under `key`: the key is its email, and that email is lower-case. */
  predicate UserWellFormed(key: string, u: User, nextId: ObjectId)
  {
    u.email == key && IsLowerCase(key) && u.id < nextId && CartWellFormed(u.cart, nextId)
  }

  predicate UsersWellFormed(users: map<string, User>, nextId: ObjectId)
  {
    && (forall e :: e in users ==> UserWellFormed(e, users[e], nextId))
    && (forall e1, e2 :: e1 in users && e2 in users && e1 != e2 ==> users[e1].id != users[e2].id)
  }

  /** Issued ids, distinct ids, and the unique index on a non-empty orderNumber. */
  predicate OrdersWellFormed(orders: seq<Order>, nextId: ObjectId)
  {
    && (forall i :: 0 <= i < |orders| ==> orders[i].id < nextId && orders[i].orderNumber != "")
    && (forall i, j :: 0 <= i < j < |orders| ==> orders[i].id != orders[j].id)
    && (forall i, j :: 0 <= i < j < |orders| ==> orders[i].orderNumber != orders[j].orderNumber)
  }

  predicate ProductsWellFormed(products: seq<Product>, nextId: ObjectId)
  {
    && (forall i :: 0 <= i < |products| ==> products[i].id < nextId && ValidProduct(products[i]))
    && (forall i, j :: 0 <= i < j < |products| ==> products[i].id != products[j].id)
  }

  predicate AdminsWellFormed(admins: map<string, Admin>, nextId: ObjectId)
  {
    forall n :: n in admins ==> admins[n].username == n && admins[n].id < nextId
  }

  class Db {
    var users: map<string, User>
    var orders: seq<Order>
    var products: seq<Product>
    var admins: map<string, Admin>
    var nextId: ObjectId

    ghost predicate Valid()
      reads this
    {
      && UsersWellFormed(users, nextId)
      && OrdersWellFormed(orders, nextId)
      && ProductsWellFormed(products, nextId)
      && AdminsWellFormed(admins, nextId)
    }

    constructor ()
      ensures Valid()
      ensures users == map[] && orders == [] && products == [] && admins == map[] && nextId == 0
    {
      users, orders, products, admins, nextId := map[], [], [], map[], 0;
    }

    /** A new ObjectId, never issued before. */
    method FreshId() returns (id: ObjectId)
      requires Valid()
      modifies this`nextId
      ensures id == old(nextId) && nextId == id + 1
      ensures Valid()
    {
      id := nextId;
      nextId := nextId + 1;
      IssuedStaysIssued(users, orders, products, admins, id, nextId);
    }

    /** Writes to one collection, each keeping the invariants of the whole store. */
    method SetUsers(us: map<string, User>)
      requires Valid() && UsersWellFormed(us, nextId)
      modifies this`users
      ensures Valid() && users == us
    {
      users := us;
    }

    /** Overwrite one user's cart. */
    method SetCart(key: string, cart: seq<CartLine>)
      requires Valid() && key in users && CartWellFormed(cart, nextId)
      modifies this`users
      ensures Valid() && users == old(users)[key := old(users)[key].(cart := cart)]
    {
      CartChangeKeepsWellFormed(users, nextId, key, cart);
      users := users[key := users[key].(cart := cart)];
    }

    method SetOrders(os: seq<Order>)
      requires Valid() && OrdersWellFormed(os, nextId)
      modifies this`orders
      ensures Valid() && orders == os
    {
      orders := os;
    }

    method SetProducts(ps: seq<Product>)
      requires Valid() && ProductsWellFormed(ps, nextId)
      modifies this`products
      ensures Valid() && products == ps
    {
      products := ps;
    }

    /** `create`: store a valid product under the next id. */
    method InsertProduct(p: Product)
      requires Valid() && p.id == nextId && ValidProduct(p)
      modifies this`products, this`nextId
      ensures Valid() && products == old(products) + [p] && nextId == old(nextId) + 1
    {
      AppendProductKeepsWellFormed(products, nextId, p);
      IssuedStaysIssued(users, orders, products, admins, nextId, nextId + 1);
      products, nextId := products + [p], nextId + 1;
    }

    /** `save` of a new order under the next id; the unique index refuses a number already held. */
    method InsertOrder(o: Order)
      requires Valid() && o.id == nextId && o.orderNumber != ""
      requires forall i :: 0 <= i < |orders| ==> orders[i].orderNumber != o.orderNumber
      modifies this`orders, this`nextId
      ensures Valid() && orders == old(orders) + [o] && nextId == old(nextId) + 1
    {
      IssuedStaysIssued(users, orders, products, admins, nextId, nextId + 1);
      orders, nextId := orders + [o], nextId + 1;
    }

    method SetAdmins(stored: map<string, Admin>)
      requires Valid() && AdminsWellFormed(stored, nextId)
      modifies this`admins
      ensures Valid() && admins == stored
    {
      admins := stored;
    }
  }

  // ------------------------------------------------------------------ invariant lemmas

  /** Issuing more ids keeps every invariant. */
  lemma IssuedStaysIssued(users: map<string, User>, orders: seq<Order>, products: seq<Product>,
                          admins: map<string, Admin>, n: ObjectId, m: ObjectId)
    requires n <= m
    requires UsersWellFormed(users, n) && OrdersWellFormed(orders, n)
    requires ProductsWellFormed(products, n) && AdminsWellFormed(admins, n)
    ensures UsersWellFormed(users, m) && OrdersWellFormed(orders, m)
    ensures ProductsWellFormed(products, m) && AdminsWellFormed(admins, m)
  {
  }

  /** Replacing a stored user by a well-formed record with the same id keeps the users
      well-formed. */
  lemma ReplaceUserKeepsWellFormed(users: map<string, User>, nextId: ObjectId, key: string, u: User)
    requires UsersWellFormed(users, nextId)
    requires key in users && users[key].id == u.id
    requires UserWellFormed(key, u, nextId)
    ensures UsersWellFormed(users[key := u], nextId)
  {
  }

  /** Inserting a well-formed user whose id is the freshly issued one keeps the users
      well-formed once the counter has moved past it. */
  lemma InsertUserKeepsWellFormed(users: map<string, User>, nextId: ObjectId, key: string, u: User)
    requires UsersWellFormed(users, nextId)
    requires key !in users && u.id == nextId
    requires UserWellFormed(key, u, nextId + 1)
    ensures UsersWellFormed(users[key := u], nextId + 1)
  {
    var r := users[key := u];
    forall e1, e2 | e1 in r && e2 in r && e1 != e2
      ensures r[e1].id != r[e2].id
    {
      if e1 != key && e2 != key {
        assert r[e1] == users[e1] && r[e2] == users[e2];
      } else if e1 == key {
        assert r[e2] == users[e2];
      } else {
        assert r[e1] == users[e1];
      }
    }
  }

  /** Any cart of the handlers' making, over issued ids, keeps its user well-formed. */
  lemma CartChangeKeepsWellFormed(users: map<string, User>, nextId: ObjectId, key: string,
                                  cart: seq<CartLine>)
    requires UsersWellFormed(users, nextId) && key in users
    requires CartWellFormed(cart, nextId)
    ensures UsersWellFormed(users[key := users[key].(cart := cart)], nextId)
  {
    ReplaceUserKeepsWellFormed(users, nextId, key, users[key].(cart := cart));
  }

  // ------------------------------------------------------------------ product invariants

  /** Appending a valid product that carries the freshly issued id. */
  lemma AppendProductKeepsWellFormed(products: seq<Product>, nextId: ObjectId, p: Product)
    requires ProductsWellFormed(products, nextId)
    requires p.id == nextId && ValidProduct(p)
    ensures ProductsWellFormed(products + [p], nextId + 1)
  {
    var r := products + [p];
    forall k | 0 <= k < |r| ensures r[k].id < nextId + 1 && ValidProduct(r[k]) {
      if k < |products| {
        assert r[k] == products[k];
      }
    }
  }

  /** Overwriting a product by a valid one with the same id. */
  lemma ReplaceProductKeepsWellFormed(products: seq<Product>, nextId: ObjectId, i: nat, p: Product)
    requires ProductsWellFormed(products, nextId)
    requires i < |products| && p.id == products[i].id && ValidProduct(p)
    ensures ProductsWellFormed(products[i := p], nextId)
  {
  }

  /** Removing the product at one position. */
  lemma RemoveProductKeepsWellFormed(products: seq<Product>, nextId: ObjectId, i: nat)
    requires ProductsWellFormed(products, nextId)
    requires i < |products|
    ensures ProductsWellFormed(products[..i] + products[i + 1..], nextId)
  {
    var r := products[..i] + products[i + 1..];
    forall k | 0 <= k < |r| ensures r[k] == products[if k < i then k else k + 1] {
    }
    forall a, b | 0 <= a < b < |r| ensures r[a].id != r[b].id {
      assert r[a] == products[if a < i then a else a + 1];
      assert r[b] == products[if b < i then b else b + 1];
    }
  }

  // ------------------------------------------------------------------ cart invariants

  /** Merge-or-append with the freshly issued id keeps a cart well-formed. */
  lemma AddLineKeepsCartWellFormed(cart: seq<CartLine>, nextId: ObjectId, product: ObjectId,
                                   quantity: int, size: string, color: string)
    requires CartWellFormed(cart, nextId)
    ensures CartWellFormed(AddLine(cart, product, quantity, size, color, nextId), nextId + 1)
  {
    AddKeepsKeysUnique(cart, product, quantity, size, color, nextId);
    AddKeepsIdsUnique(cart, product, quantity, size, color, nextId);
    var r := AddLine(cart, product, quantity, size, color, nextId);
    if KeyIndex(cart, product, size, color) >= 0 {
      assert forall j :: 0 <= j < |r| ==> r[j].id == cart[j].id;
    } else {
      assert forall j :: 0 <= j < |cart| ==> r[j] == cart[j];
    }
  }

  lemma SetQuantityKeepsCartWellFormed(cart: seq<CartLine>, nextId: ObjectId, id: ObjectId, quantity: int)
    requires CartWellFormed(cart, nextId) && LineIndex(cart, id) >= 0
    ensures CartWellFormed(SetQuantity(cart, id, quantity), nextId)
  {
    SetQuantityKeepsUnique(cart, id, quantity);
  }

  lemma WithoutLineKeepsCartWellFormed(cart: seq<CartLine>, nextId: ObjectId, id: ObjectId)
    requires CartWellFormed(cart, nextId)
    ensures CartWellFormed(WithoutLine(cart, id), nextId)
  {
    WithoutLineKeepsUnique(cart, id);
    var w := WithoutLine(cart, id);
    forall j | 0 <= j < |w| ensures w[j].id < nextId {
      WithoutLineMembers(cart, id, w[j]);
    }
  }
}
