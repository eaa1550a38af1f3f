/** The cart operations both routers perform on a user's embedded `cart` array:
    merge-or-append on (product, size, color), `cart.id(itemId)`, setting a quantity,
    and `cart.filter(item => item._id != itemId)`. */
module Cart {
  import opened Base
  import opened UserModel

  /** The findIndex test of the add handlers: same product, size and color. */
  predicate HasKey(l: CartLine, product: ObjectId, size: string, color: string)
  {
    l.product == product && l.size == size && l.color == color
  }

  /** No two lines share a (product, size, color) key. */
  predicate KeysUnique(cart: seq<CartLine>)
  {
    forall i, j :: 0 <= i < j < |cart| ==> !HasKey(cart[j], cart[i].product, cart[i].size, cart[i].color)
  }

  /** No two lines share a line id. */
  predicate IdsUnique(cart: seq<CartLine>)
  {
    forall i, j :: 0 <= i < j < |cart| ==> cart[i].id != cart[j].id
  }

  /** `cart.findIndex(item => same key)` */
  function KeyIndex(cart: seq<CartLine>, product: ObjectId, size: string, color: string): (i: int)
    ensures -1 <= i < |cart|
    ensures i >= 0 ==> HasKey(cart[i], product, size, color)
    ensures i >= 0 ==> forall j :: 0 <= j < i ==> !HasKey(cart[j], product, size, color)
    ensures i < 0 ==> forall j :: 0 <= j < |cart| ==> !HasKey(cart[j], product, size, color)
  {
    if cart == [] then -1
    else if HasKey(cart[0], product, size, color) then 0
    else
      var k := KeyIndex(cart[1..], product, size, color);
      if k < 0 then -1 else k + 1
  }

  /** Merge-or-append: add `quantity` to the line with the same key, or push a new line
      whose sub-document id is `freshId`. */
  function AddLine(cart: seq<CartLine>, product: ObjectId, quantity: int, size: string, color: string,
                   freshId: ObjectId): (r: seq<CartLine>)
    ensures |r| == if KeyIndex(cart, product, size, color) >= 0 then |cart| else |cart| + 1
    ensures r[..|cart|] == cart || KeyIndex(cart, product, size, color) >= 0
  {
    var i := KeyIndex(cart, product, size, color);
    if i >= 0 then cart[i := cart[i].(quantity := cart[i].quantity + quantity)]
    else cart + [CartLine(freshId, product, quantity, size, color)]
  }

  /** `cart.id(itemId)`: the first line with that id, or -1. */
  function LineIndex(cart: seq<CartLine>, id: ObjectId): (i: int)
    ensures -1 <= i < |cart|
    ensures i >= 0 ==> cart[i].id == id && forall j :: 0 <= j < i ==> cart[j].id != id
    ensures i < 0 ==> forall j :: 0 <= j < |cart| ==> cart[j].id != id
  {
    if cart == [] then -1
    else if cart[0].id == id then 0
    else
      var k := LineIndex(cart[1..], id);
      if k < 0 then -1 else k + 1
  }

  /** `cartItem.quantity = quantity` on the line `cart.id(itemId)` found. */
  function SetQuantity(cart: seq<CartLine>, id: ObjectId, quantity: int): (r: seq<CartLine>)
    requires LineIndex(cart, id) >= 0
    ensures |r| == |cart|
  {
    var i := LineIndex(cart, id);
    cart[i := cart[i].(quantity := quantity)]
  }

  /** `cart.filter(item => item._id != id)` */
  function WithoutLine(cart: seq<CartLine>, id: ObjectId): (r: seq<CartLine>)
    ensures |r| <= |cart|
    ensures forall k :: 0 <= k < |r| ==> r[k].id != id
  {
    if cart == [] then []
    else
      var last := cart[|cart| - 1];
      WithoutLine(cart[..|cart| - 1], id) + (if last.id == id then [] else [last])
  }

  // ------------------------------------------------------------------ merge-or-append

  /** A matching line absorbs the added quantity; the length and every other line stay. */
  lemma AddMergesIntoMatchingLine(cart: seq<CartLine>, product: ObjectId, quantity: int, size: string,
                                  color: string, freshId: ObjectId)
    requires KeyIndex(cart, product, size, color) >= 0
    ensures var i := KeyIndex(cart, product, size, color);
            var r := AddLine(cart, product, quantity, size, color, freshId);
            |r| == |cart| &&
            r[i] == cart[i].(quantity := cart[i].quantity + quantity) &&
            forall j :: 0 <= j < |cart| && j != i ==> r[j] == cart[j]
  {
  }

  /** Without a matching line exactly one line is appended at the end. */
  lemma AddAppendsNewLine(cart: seq<CartLine>, product: ObjectId, quantity: int, size: string,
                          color: string, freshId: ObjectId)
    requires KeyIndex(cart, product, size, color) < 0
    ensures AddLine(cart, product, quantity, size, color, freshId)
            == cart + [CartLine(freshId, product, quantity, size, color)]
  {
  }

  /** Merge-or-append keeps at most one line per (product, size, color). */
  lemma AddKeepsKeysUnique(cart: seq<CartLine>, product: ObjectId, quantity: int, size: string,
                           color: string, freshId: ObjectId)
    requires KeysUnique(cart)
    ensures KeysUnique(AddLine(cart, product, quantity, size, color, freshId))
  {
    var r := AddLine(cart, product, quantity, size, color, freshId);
    var i := KeyIndex(cart, product, size, color);
    if i < 0 {
      forall a, b | 0 <= a < b < |r|
        ensures !HasKey(r[b], r[a].product, r[a].size, r[a].color)
      {
        if b < |cart| {
          assert r[a] == cart[a] && r[b] == cart[b];
        } else {
          assert r[a] == cart[a];
        }
      }
    }
  }

  /** A fresh line id keeps the line ids distinct. */
  lemma AddKeepsIdsUnique(cart: seq<CartLine>, product: ObjectId, quantity: int, size: string,
                          color: string, freshId: ObjectId)
    requires IdsUnique(cart)
    requires LineIndex(cart, freshId) < 0
    ensures IdsUnique(AddLine(cart, product, quantity, size, color, freshId))
  {
  }

  /** Total quantity the cart holds for one key: the reference the merge is checked against. */
  function QuantityOf(cart: seq<CartLine>, product: ObjectId, size: string, color: string): int
  {
    if cart == [] then 0
    else
      var last := cart[|cart| - 1];
      QuantityOf(cart[..|cart| - 1], product, size, color) + (if HasKey(last, product, size, color) then last.quantity else 0)
  }

  lemma {:induction false} QuantityOfUpdate(cart: seq<CartLine>, i: nat, l: CartLine,
                                            product: ObjectId, size: string, color: string)
    requires i < |cart|
    requires HasKey(l, product, size, color) == HasKey(cart[i], product, size, color)
    ensures QuantityOf(cart[i := l], product, size, color)
         == QuantityOf(cart, product, size, color)
            + (if HasKey(l, product, size, color) then l.quantity - cart[i].quantity else 0)
  {
    var n := |cart|;
    if i < n - 1 {
      assert cart[i := l][..n - 1] == cart[..n - 1][i := l];
      QuantityOfUpdate(cart[..n - 1], i, l, product, size, color);
    } else {
      assert cart[i := l][..n - 1] == cart[..n - 1];
    }
  }

  /** Adding q units of one key raises that key's total by q and no other key's total. */
  lemma AddRaisesOnlyItsKey(cart: seq<CartLine>, product: ObjectId, quantity: int, size: string,
                            color: string, freshId: ObjectId, p: ObjectId, s: string, c: string)
    ensures QuantityOf(AddLine(cart, product, quantity, size, color, freshId), p, s, c)
         == QuantityOf(cart, p, s, c) + (if p == product && s == size && c == color then quantity else 0)
  {
    var r := AddLine(cart, product, quantity, size, color, freshId);
    var i := KeyIndex(cart, product, size, color);
    if i >= 0 {
      QuantityOfUpdate(cart, i, cart[i].(quantity := cart[i].quantity + quantity), p, s, c);
    } else {
      assert r[..|r| - 1] == cart;
    }
  }

  /** Adding (P, M, Black) twice to a cart without that key leaves one line holding the sum. */
  lemma AddTwiceMerges(cart: seq<CartLine>, product: ObjectId, q1: int, q2: int, size: string,
                       color: string, id1: ObjectId, id2: ObjectId)
    requires KeyIndex(cart, product, size, color) < 0
    ensures AddLine(AddLine(cart, product, q1, size, color, id1), product, q2, size, color, id2)
            == cart + [CartLine(id1, product, q1 + q2, size, color)]
  {
    var line := CartLine(id1, product, q1, size, color);
    var once := AddLine(cart, product, q1, size, color, id1);
    assert once == cart + [line];
    KeyIndexOfAppended(cart, line);
    assert once[|cart| := line.(quantity := q1 + q2)] == cart + [CartLine(id1, product, q1 + q2, size, color)];
  }

  /** A line appended to a cart without its key is found at the end. */
  lemma {:induction false} KeyIndexOfAppended(cart: seq<CartLine>, l: CartLine)
    requires KeyIndex(cart, l.product, l.size, l.color) < 0
    ensures KeyIndex(cart + [l], l.product, l.size, l.color) == |cart|
  {
    if cart != [] {
      assert (cart + [l])[1..] == cart[1..] + [l];
      assert (cart + [l])[0] == cart[0];
      KeyIndexOfAppended(cart[1..], l);
    }
  }

  // ------------------------------------------------------------------ set quantity

  /** Setting a quantity changes that one line's quantity and nothing else. */
  lemma SetQuantityChangesOneLine(cart: seq<CartLine>, id: ObjectId, quantity: int)
    requires LineIndex(cart, id) >= 0
    ensures var i := LineIndex(cart, id);
            var r := SetQuantity(cart, id, quantity);
            r[i].quantity == quantity && r[i] == cart[i].(quantity := quantity) &&
            forall j :: 0 <= j < |cart| && j != i ==> r[j] == cart[j]
  {
  }

  lemma SetQuantityKeepsUnique(cart: seq<CartLine>, id: ObjectId, quantity: int)
    requires LineIndex(cart, id) >= 0
    requires KeysUnique(cart) && IdsUnique(cart)
    ensures KeysUnique(SetQuantity(cart, id, quantity)) && IdsUnique(SetQuantity(cart, id, quantity))
  {
    var r := SetQuantity(cart, id, quantity);
    assert forall j :: 0 <= j < |cart| ==> r[j].id == cart[j].id && r[j].product == cart[j].product
                                           && r[j].size == cart[j].size && r[j].color == cart[j].color;
  }

  // ------------------------------------------------------------------ remove

  /** The filter keeps exactly the lines whose id differs. */
  lemma {:induction false} WithoutLineMembers(cart: seq<CartLine>, id: ObjectId, l: CartLine)
    ensures l in WithoutLine(cart, id) <==> l in cart && l.id != id
  {
    if cart != [] {
      var front := cart[..|cart| - 1];
      WithoutLineMembers(front, id, l);
      assert cart == front + [cart[|cart| - 1]];
    }
  }

  lemma {:induction false} WithoutLineIdempotent(cart: seq<CartLine>, id: ObjectId)
    ensures WithoutLine(WithoutLine(cart, id), id) == WithoutLine(cart, id)
  {
    if cart != [] {
      var front := cart[..|cart| - 1];
      var last := cart[|cart| - 1];
      WithoutLineIdempotent(front, id);
      var w := WithoutLine(front, id);
      if last.id != id {
        assert WithoutLine(cart, id) == w + [last];
        var wl := w + [last];
        assert wl[..|wl| - 1] == w && wl[|wl| - 1] == last;
        assert WithoutLine(wl, id) == WithoutLine(w, id) + [last];
      } else {
        assert WithoutLine(cart, id) == w + [];
        assert w + [] == w;
      }
    }
  }

  /** Removing an id no line carries leaves the cart as it was. */
  lemma {:induction false} WithoutAbsentLine(cart: seq<CartLine>, id: ObjectId)
    requires LineIndex(cart, id) < 0
    ensures WithoutLine(cart, id) == cart
  {
    if cart != [] {
      var front := cart[..|cart| - 1];
      assert forall j :: 0 <= j < |front| ==> front[j] == cart[j];
      WithoutAbsentLine(front, id);
      assert cart == front + [cart[|cart| - 1]];
    }
  }

  /** With distinct ids, removing a present id takes out exactly the line `cart.id(id)` finds;
      the lines before and after it stay, in their order. */
  lemma {:induction false} WithoutPresentLine(cart: seq<CartLine>, id: ObjectId)
    requires IdsUnique(cart)
    requires LineIndex(cart, id) >= 0
    ensures |WithoutLine(cart, id)| == |cart| - 1
    ensures var i := LineIndex(cart, id); WithoutLine(cart, id) == cart[..i] + cart[i + 1..]
  {
    var n := |cart|;
    var i := LineIndex(cart, id);
    var front := cart[..n - 1];
    var last := cart[n - 1];
    if last.id == id {
      WithoutLastLine(cart, id);
    } else {
      FrontLineIndex(cart, id);
      FrontIdsUnique(cart);
      WithoutPresentLine(front, id);
      assert WithoutLine(cart, id) == WithoutLine(front, id) + [last];
      SpliceThenAppend(cart, i);
    }
  }

  /** A present id not on the last line is found at the same place without the last line. */
  lemma FrontLineIndex(cart: seq<CartLine>, id: ObjectId)
    requires IdsUnique(cart)
    requires LineIndex(cart, id) >= 0 && cart[|cart| - 1].id != id
    ensures LineIndex(cart[..|cart| - 1], id) == LineIndex(cart, id)
  {
    var i := LineIndex(cart, id);
    var front := cart[..|cart| - 1];
    assert front[i] == cart[i];
    assert forall j :: 0 <= j < i ==> front[j] == cart[j];
  }

  /** Cutting line `i` out of the front and appending the last line cuts `i` out of the whole. */
  lemma SpliceThenAppend(cart: seq<CartLine>, i: nat)
    requires i < |cart| - 1
    ensures var front := cart[..|cart| - 1];
            (front[..i] + front[i + 1..]) + [cart[|cart| - 1]] == cart[..i] + cart[i + 1..]
  {
    var front := cart[..|cart| - 1];
    assert front[..i] == cart[..i];
    assert front[i + 1..] + [cart[|cart| - 1]] == cart[i + 1..];
  }

  /** The present id sits on the last line: the filter drops exactly that line. */
  lemma WithoutLastLine(cart: seq<CartLine>, id: ObjectId)
    requires IdsUnique(cart)
    requires cart != [] && cart[|cart| - 1].id == id
    ensures LineIndex(cart, id) == |cart| - 1
    ensures WithoutLine(cart, id) == cart[..|cart| - 1]
  {
    var front := cart[..|cart| - 1];
    assert LineIndex(front, id) < 0 by {
      forall j | 0 <= j < |front|
        ensures front[j].id != id
      {
        assert front[j] == cart[j];
      }
    }
    WithoutAbsentLine(front, id);
  }

  lemma FrontIdsUnique(cart: seq<CartLine>)
    requires cart != [] && IdsUnique(cart)
    ensures IdsUnique(cart[..|cart| - 1])
  {
    var front := cart[..|cart| - 1];
    forall a, b | 0 <= a < b < |front|
      ensures front[a].id != front[b].id
    {
      assert front[a] == cart[a] && front[b] == cart[b];
    }
  }

  /** Filtering keeps line ids and keys distinct. */
  lemma {:induction false} WithoutLineKeepsUnique(cart: seq<CartLine>, id: ObjectId)
    requires KeysUnique(cart) && IdsUnique(cart)
    ensures KeysUnique(WithoutLine(cart, id)) && IdsUnique(WithoutLine(cart, id))
  {
    if cart != [] {
      var n := |cart|;
      var front := cart[..n - 1];
      var last := cart[n - 1];
      WithoutLineKeepsUnique(front, id);
      var w := WithoutLine(front, id);
      if last.id != id {
        var r := w + [last];
        forall a | 0 <= a < |w|
          ensures !HasKey(last, w[a].product, w[a].size, w[a].color) && w[a].id != last.id
        {
          assert w[a] in w;
          WithoutLineMembers(front, id, w[a]);
          var k :| 0 <= k < n - 1 && front[k] == w[a];
          assert cart[k] == w[a];
        }
        assert forall a :: 0 <= a < |w| ==> r[a] == w[a];
      }
    }
  }
}
