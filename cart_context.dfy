/**
 * The client-side cart of src/context/CartContext.js: the list of cart lines last fetched from
 * GET /api/cart, and the total, count, membership and quantity lookups computed from it.
 */
module CartContext {
  import opened Wrappers
  import opened Tables

  /** `cartItems.reduce((total, item) => total + item.price * item.quantity, 0)`. */
  function CartTotal(items: seq<CartLine>): (r: int)
    ensures r == LinesTotal(items)
    ensures items == [] ==> r == 0
  {
    FoldTotal(items, 0)
  }

  /** The sum of the quantities over all lines. */
  function QuantitySum(items: seq<CartLine>): (r: int)
    ensures items == [] ==> r == 0
    ensures (forall k :: 0 <= k < |items| ==> items[k].quantity >= 0) ==> r >= 0
  {
    if items == [] then 0 else items[0].quantity + QuantitySum(items[1..])
  }

  /** `reduce((count, item) => count + item.quantity, acc)`. */
  function FoldCount(items: seq<CartLine>, acc: int): (r: int)
    ensures r == acc + QuantitySum(items)
  {
    if items == [] then acc else FoldCount(items[1..], acc + items[0].quantity)
  }

  /** `getCartItemsCount`: the number of units in the cart, not the number of lines. */
  function ItemsCount(items: seq<CartLine>): (r: int)
    ensures r == QuantitySum(items)
    ensures items == [] ==> r == 0
  {
    FoldCount(items, 0)
  }

  /** `cartItems.some(item => item.product_id === productId)`. */
  function IsInCart(items: seq<CartLine>, p: int): (r: bool)
    ensures r <==> exists i :: 0 <= i < |items| && items[i].product == p
  {
    if items == [] then false
    else if items[0].product == p then true
    else
      var r := IsInCart(items[1..], p);
      assert r <==> exists i :: 0 <= i < |items| && items[i].product == p by {
        if r {
          var i :| 0 <= i < |items[1..]| && items[1..][i].product == p;
          assert items[i + 1].product == p;
        }
        if exists i :: 0 <= i < |items| && items[i].product == p {
          var i :| 0 <= i < |items| && items[i].product == p;
          assert items[1..][i - 1].product == p;
        }
      }
      r
  }

  /** Line `i` is the first line of product `p` (what `find` returns). */
  predicate IsFirst(items: seq<CartLine>, i: int, p: int)
  {
    0 <= i < |items| && items[i].product == p && forall j :: 0 <= j < i ==> items[j].product != p
  }

  /**
   * `getCartItemQuantity`: the quantity of the first line with that product (`find`), and 0
   * when no line has it.
   */
  function ItemQuantity(items: seq<CartLine>, p: int): (r: int)
    ensures !IsInCart(items, p) ==> r == 0
    ensures forall i :: IsFirst(items, i, p) ==> r == items[i].quantity
  {
    if items == [] then 0
    else if items[0].product == p then items[0].quantity
    else
      var r := ItemQuantity(items[1..], p);
      assert forall i :: IsFirst(items, i, p) ==> r == items[i].quantity by {
        forall i | IsFirst(items, i, p) ensures r == items[i].quantity {
          assert items[1..][i - 1] == items[i];
          forall j | 0 <= j < i - 1 ensures items[1..][j].product != p {
            assert items[1..][j] == items[j + 1];
          }
          assert IsFirst(items[1..], i - 1, p);
        }
      }
      r
  }

  /**
   * What the client shows for a product, after fetching GET /api/cart (the user's rows joined
   * with their products, in table order), is what the server holds: the product is in the
   * client's cart exactly when the server has a (user, product) row, and the client's quantity
   * is that row's quantity, 0 without one.
   */
  lemma {:induction false} ClientViewMatchesServer(rows: seq<CartRow>, ps: map<int, Product>, u: int, p: int)
    requires RefsValid(rows, ps)
    ensures IsInCart(Joined(rows, ps, u), p) <==> Entry(rows, u, p).Some?
    ensures ItemQuantity(Joined(rows, ps, u), p) == QuantityIn(rows, u, p)
  {
    if rows != [] {
      var h, t := rows[0], rows[1..];
      assert h in rows;
      assert RefsValid(t, ps) by {
        forall x | x in t ensures x.product in ps { assert x in rows; }
      }
      ClientViewMatchesServer(t, ps, u, p);
      var jt := Joined(t, ps, u);
      if IsKey(h, u, p) {
        var j := Joined(rows, ps, u);
        assert j[0] == LineOf(h, ps);
      } else {
        var head: seq<CartLine> := if h.user == u then [LineOf(h, ps)] else [];
        assert Joined(rows, ps, u) == head + jt;
        SkipNonMatching(head, jt, p);
        assert FindRow(rows, u, p) == (match FindRow(t, u, p) case None => None case Some(k) => Some(k + 1));
      }
    }
  }

  /** Lines of other products in front change neither the membership nor the quantity found. */
  lemma SkipNonMatching(head: seq<CartLine>, rest: seq<CartLine>, p: int)
    requires forall i :: 0 <= i < |head| ==> head[i].product != p
    ensures IsInCart(head + rest, p) == IsInCart(rest, p)
    ensures ItemQuantity(head + rest, p) == ItemQuantity(rest, p)
  {
    var all := head + rest;
    if IsInCart(rest, p) {
      FirstMatch(rest, p);
      var i :| IsFirst(rest, i, p);
      assert all[|head| + i] == rest[i];
      forall j | 0 <= j < |head| + i ensures all[j].product != p {
        if j >= |head| { assert all[j] == rest[j - |head|]; }
      }
      assert IsFirst(all, |head| + i, p);
    } else {
      forall j | 0 <= j < |all| ensures all[j].product != p {
        if j >= |head| { assert all[j] == rest[j - |head|]; }
      }
    }
  }

  /** A product in the cart has a first line. */
  lemma {:induction false} FirstMatch(items: seq<CartLine>, p: int)
    requires IsInCart(items, p)
    ensures exists i :: IsFirst(items, i, p)
  {
    if items[0].product == p {
      assert IsFirst(items, 0, p);
    } else {
      var k :| 0 <= k < |items| && items[k].product == p;
      assert items[1..][k - 1].product == p;
      FirstMatch(items[1..], p);
      var i :| IsFirst(items[1..], i, p);
      forall j | 0 <= j < i + 1 ensures items[j].product != p {
        if j > 0 { assert items[j] == items[1..][j - 1]; }
      }
      assert IsFirst(items, i + 1, p);
    }
  }

  /** The `CartProvider` state: the cart lines last loaded from the server. */
  class CartProvider {
    var cartItems: seq<CartLine>

    /** `useState([])`. */
    constructor ()
      ensures cartItems == []
    {
      cartItems := [];
    }

    /**
     * `fetchCartItems`: does nothing when the user is not authenticated; otherwise the lines of
     * a successful GET /api/cart replace the list, and a failed request (`None`) keeps it.
     */
    method FetchCartItems(authenticated: bool, response: Option<seq<CartLine>>)
      modifies this
      ensures cartItems == if authenticated && response.Some? then response.value else old(cartItems)
    {
      if !authenticated {
        return;
      }
      if response.Some? {
        cartItems := response.value;
      }
    }

    /** The effect run when the authentication state changes: fetch when signed in, else empty the list. */
    method OnAuthChange(authenticated: bool, response: Option<seq<CartLine>>)
      modifies this
      ensures !authenticated ==> cartItems == []
      ensures authenticated ==> cartItems == if response.Some? then response.value else old(cartItems)
    {
      if authenticated {
        FetchCartItems(authenticated, response);
      } else {
        cartItems := [];
      }
    }

    /** `clearCart`: the list becomes empty, so the total and the count are both 0. */
    method ClearCart()
      modifies this
      ensures cartItems == []
      ensures CartTotal(cartItems) == 0 && ItemsCount(cartItems) == 0
      ensures forall p :: !IsInCart(cartItems, p) && ItemQuantity(cartItems, p) == 0
    {
      cartItems := [];
    }
  }
}
