/**
 * The rows of the storefront's tables (products, cart, orders, order_items) as values, and the
 * table operations that the cart and order routes of server.js perform with single SQL
 * statements: the insert-or-increment upsert, the DELETE ... WHERE filters, the UPDATE of one
 * column, the cart/product JOIN and the order total. Prices are integer cents.
 */
module Tables {
  import opened Wrappers

  /** The columns of a `products` row that the cart and order routes read or write. */
  datatype Product = Product(price: int, stock: int, active: bool)

  /** A `cart` row: primary key `id`, unique key (`user`, `product`). */
  datatype CartRow = CartRow(id: int, user: int, product: int, quantity: int)

  /** A cart row joined with its product, as `SELECT c.*, p.price, p.stock_quantity ... JOIN products p` returns it. */
  datatype CartLine = CartLine(id: int, product: int, quantity: int, price: int, stock: int)

  datatype OrderStatus = Pending | Processing | Shipped | Delivered | Cancelled

  datatype PaymentStatus = PaymentPending | PaymentCompleted | PaymentFailed

  /** An `orders` row. */
  datatype Order = Order(id: int, user: int, total: int, status: OrderStatus,
                         shippingAddress: string, paymentMethod: string, paymentStatus: PaymentStatus)

  /** An `order_items` row: the unit price is the one copied at checkout. */
  datatype OrderItem = OrderItem(orderId: int, product: int, quantity: int, price: int)

  datatype Role = UserRole | AdminRole

  // ---------------------------------------------------------------------------------------
  // Table invariants
  // ---------------------------------------------------------------------------------------

  /** The primary key `id` and the unique key (`user_id`, `product_id`) of the cart table. */
  ghost predicate KeysUnique(rows: seq<CartRow>)
  {
    forall i, j :: 0 <= i < j < |rows| ==>
      rows[i].id != rows[j].id && (rows[i].user != rows[j].user || rows[i].product != rows[j].product)
  }

  /** The foreign key `cart.product_id -> products.id` (ON DELETE CASCADE). */
  ghost predicate RefsValid(rows: seq<CartRow>, ps: map<int, Product>)
  {
    forall r :: r in rows ==> r.product in ps
  }

  /** Every row id is below the next AUTO_INCREMENT value. */
  ghost predicate IdsBelow(rows: seq<CartRow>, next: int)
  {
    forall r :: r in rows ==> r.id < next
  }

  ghost predicate CartInvariant(rows: seq<CartRow>, ps: map<int, Product>, next: int)
  {
    KeysUnique(rows) && RefsValid(rows, ps) && IdsBelow(rows, next)
  }

  // ---------------------------------------------------------------------------------------
  // Looking up cart rows
  // ---------------------------------------------------------------------------------------

  predicate IsKey(r: CartRow, u: int, p: int)
  {
    r.user == u && r.product == p
  }

  predicate IsRow(r: CartRow, id: int, u: int)
  {
    r.id == id && r.user == u
  }

  /** The position of the row with key (`u`, `p`): `WHERE user_id = ? AND product_id = ?`. */
  function FindRow(rows: seq<CartRow>, u: int, p: int): (r: Option<nat>)
    ensures r.Some? ==> r.value < |rows| && IsKey(rows[r.value], u, p)
    ensures r.Some? ==> forall k :: 0 <= k < r.value ==> !IsKey(rows[k], u, p)
    ensures r.None? ==> forall k :: 0 <= k < |rows| ==> !IsKey(rows[k], u, p)
  {
    if rows == [] then None
    else if IsKey(rows[0], u, p) then Some(0)
    else match FindRow(rows[1..], u, p)
      case None => None
      case Some(k) => Some(k + 1)
  }

  /** The position of row `id` owned by `u`: `WHERE id = ? AND user_id = ?`. */
  function FindById(rows: seq<CartRow>, id: int, u: int): (r: Option<nat>)
    ensures r.Some? ==> r.value < |rows| && IsRow(rows[r.value], id, u)
    ensures r.None? ==> forall k :: 0 <= k < |rows| ==> !IsRow(rows[k], id, u)
  {
    if rows == [] then None
    else if IsRow(rows[0], id, u) then Some(0)
    else match FindById(rows[1..], id, u)
      case None => None
      case Some(k) => Some(k + 1)
  }

  /** The cart seen as the partial map (user, product) -> quantity. */
  function Entry(rows: seq<CartRow>, u: int, p: int): Option<int>
  {
    match FindRow(rows, u, p)
    case Some(k) => Some(rows[k].quantity)
    case None => None
  }

  /** The quantity of (u, p) in the cart, 0 for a key without a row. */
  function QuantityIn(rows: seq<CartRow>, u: int, p: int): int
  {
    match Entry(rows, u, p)
    case Some(q) => q
    case None => 0
  }

  /** With unique keys, FindRow locates every row by its key. */
  lemma KeyedRow(rows: seq<CartRow>, x: CartRow)
    requires KeysUnique(rows)
    requires x in rows
    ensures FindRow(rows, x.user, x.product).Some?
    ensures rows[FindRow(rows, x.user, x.product).value] == x
  {
  }

  /** A key that no row carries has no entry. */
  lemma NoKeyedRow(rows: seq<CartRow>, u: int, p: int)
    requires forall x :: x in rows ==> !IsKey(x, u, p)
    ensures FindRow(rows, u, p).None?
  {
  }

  /** Two tables whose rows carry the same keys position by position answer FindRow alike. */
  lemma FindRowSameKeys(a: seq<CartRow>, b: seq<CartRow>, u: int, p: int)
    requires |a| == |b|
    requires forall i :: 0 <= i < |a| ==> a[i].user == b[i].user && a[i].product == b[i].product
    ensures FindRow(a, u, p) == FindRow(b, u, p)
  {
  }

  /** Appending a row never hides an earlier match; it is found only when nothing earlier matches. */
  lemma {:induction false} FindRowAppend(rows: seq<CartRow>, x: CartRow, u: int, p: int)
    ensures FindRow(rows + [x], u, p) ==
      if FindRow(rows, u, p).Some? then FindRow(rows, u, p)
      else if IsKey(x, u, p) then Some(|rows|) else None
  {
    if rows == [] {
      assert rows + [x] == [x];
    } else {
      assert (rows + [x])[0] == rows[0];
      assert (rows + [x])[1..] == rows[1..] + [x];
      if !IsKey(rows[0], u, p) {
        FindRowAppend(rows[1..], x, u, p);
      }
    }
  }

  // ---------------------------------------------------------------------------------------
  // Insert-or-increment
  // ---------------------------------------------------------------------------------------

  /**
   * `INSERT INTO cart (user_id, product_id, quantity) VALUES (?, ?, ?)
   *  ON DUPLICATE KEY UPDATE quantity = quantity + VALUES(quantity)`:
   * an existing (u, p) row has q added; otherwise a row with the next id is appended.
   */
  function Upsert(rows: seq<CartRow>, nextId: int, u: int, p: int, q: int): (r: seq<CartRow>)
    ensures |r| == if FindRow(rows, u, p).Some? then |rows| else |rows| + 1
    ensures forall x :: x in r ==> x in rows || x.user == u
  {
    match FindRow(rows, u, p)
    case Some(k) =>
      var r := rows[k := rows[k].(quantity := rows[k].quantity + q)];
      assert forall x :: x in r ==> x in rows || x.user == u by {
        forall x | x in r ensures x in rows || x.user == u {
          var i :| 0 <= i < |r| && r[i] == x;
          if i != k { assert x == rows[i]; }
        }
      }
      r
    case None => rows + [CartRow(nextId, u, p, q)]
  }

  /** The id the next inserted row takes after an upsert: it moves only when a row was inserted. */
  function NextIdAfterUpsert(rows: seq<CartRow>, nextId: int, u: int, p: int): int
  {
    if FindRow(rows, u, p).Some? then nextId else nextId + 1
  }

  /** The upsert is additive: the entry (u, p) becomes its old quantity (0 if absent) plus q; no other entry changes. */
  lemma UpsertEntry(rows: seq<CartRow>, nextId: int, u: int, p: int, q: int, v: int, p2: int)
    ensures Entry(Upsert(rows, nextId, u, p, q), v, p2) ==
            if v == u && p2 == p then Some(QuantityIn(rows, u, p) + q) else Entry(rows, v, p2)
  {
    var r := Upsert(rows, nextId, u, p, q);
    match FindRow(rows, u, p)
    case Some(k) =>
      FindRowSameKeys(r, rows, v, p2);
      if FindRow(rows, v, p2).Some? && FindRow(rows, v, p2).value != k {
        assert r[FindRow(rows, v, p2).value] == rows[FindRow(rows, v, p2).value];
      }
    case None =>
      FindRowAppend(rows, CartRow(nextId, u, p, q), v, p2);
      if FindRow(rows, v, p2).Some? {
        assert r[FindRow(rows, v, p2).value] == rows[FindRow(rows, v, p2).value];
      }
  }

  /** The upsert keeps the cart's keys unique, its product references valid and its ids fresh. */
  lemma UpsertInvariant(rows: seq<CartRow>, ps: map<int, Product>, nextId: int, u: int, p: int, q: int)
    requires CartInvariant(rows, ps, nextId)
    requires p in ps
    ensures CartInvariant(Upsert(rows, nextId, u, p, q), ps, NextIdAfterUpsert(rows, nextId, u, p))
  {
  }

  // ---------------------------------------------------------------------------------------
  // DELETE ... WHERE
  // ---------------------------------------------------------------------------------------

  /** The rows a `DELETE ... WHERE` leaves: those `keep` holds of, in table order. */
  function Filter(rows: seq<CartRow>, keep: CartRow -> bool): (r: seq<CartRow>)
    ensures |r| <= |rows|
    ensures forall x :: x in r <==> x in rows && keep(x)
  {
    if rows == [] then []
    else (if keep(rows[0]) then [rows[0]] else []) + Filter(rows[1..], keep)
  }

  /** `DELETE FROM cart WHERE id = ? AND user_id = ?` */
  function DeleteRow(rows: seq<CartRow>, id: int, u: int): (r: seq<CartRow>)
    ensures forall x :: x in r <==> x in rows && !IsRow(x, id, u)
  {
    Filter(rows, (r: CartRow) => !IsRow(r, id, u))
  }

  /** `DELETE FROM cart WHERE user_id = ?` */
  function ClearUser(rows: seq<CartRow>, u: int): (r: seq<CartRow>)
    ensures forall x :: x in r <==> x in rows && x.user != u
  {
    Filter(rows, (r: CartRow) => r.user != u)
  }

  /** A filter that every row passes deletes nothing. */
  lemma {:induction false} FilterKeepsAll(rows: seq<CartRow>, keep: CartRow -> bool)
    requires forall x :: x in rows ==> keep(x)
    ensures Filter(rows, keep) == rows
  {
    if rows != [] {
      assert rows[0] in rows;
      forall x | x in rows[1..] ensures keep(x) { assert x in rows; }
      FilterKeepsAll(rows[1..], keep);
      assert [rows[0]] + rows[1..] == rows;
    }
  }

  /** Deleting fewer rows keeps the primary and unique keys unique. */
  lemma {:induction false} FilterKeysUnique(rows: seq<CartRow>, keep: CartRow -> bool)
    requires KeysUnique(rows)
    ensures KeysUnique(Filter(rows, keep))
  {
    if rows != [] {
      var t := Filter(rows[1..], keep);
      FilterKeysUnique(rows[1..], keep);
      if keep(rows[0]) {
        var r := [rows[0]] + t;
        assert Filter(rows, keep) == r;
        forall i, j | 0 <= i < j < |r|
          ensures r[i].id != r[j].id && (r[i].user != r[j].user || r[i].product != r[j].product)
        {
          if i == 0 {
            assert r[j] == t[j - 1] && t[j - 1] in t;
            assert r[j] in rows[1..];
            var k :| 0 <= k < |rows[1..]| && rows[1..][k] == r[j];
            assert rows[k + 1] == r[j];
          } else {
            assert r[i] == t[i - 1] && r[j] == t[j - 1];
          }
        }
      }
    }
  }

  /** Deletion keeps the whole cart invariant. */
  lemma FilterInvariant(rows: seq<CartRow>, ps: map<int, Product>, next: int, keep: CartRow -> bool)
    requires CartInvariant(rows, ps, next)
    ensures CartInvariant(Filter(rows, keep), ps, next)
  {
    FilterKeysUnique(rows, keep);
  }

  /** A deletion removes the entry of a deleted row and keeps every other entry. */
  lemma FilterEntry(rows: seq<CartRow>, keep: CartRow -> bool, v: int, p: int)
    requires KeysUnique(rows)
    ensures Entry(Filter(rows, keep), v, p) ==
      match FindRow(rows, v, p)
      case Some(k) => if keep(rows[k]) then Entry(rows, v, p) else None
      case None => None
  {
    var r := Filter(rows, keep);
    FilterKeysUnique(rows, keep);
    match FindRow(rows, v, p)
    case Some(k) =>
      var x := rows[k];
      assert x in rows;
      if keep(x) {
        KeyedRow(r, x);
      } else {
        forall y | y in r ensures !IsKey(y, v, p) {
          if IsKey(y, v, p) {
            KeyedRow(rows, y);
          }
        }
        NoKeyedRow(r, v, p);
      }
    case None =>
      forall y | y in r ensures !IsKey(y, v, p) {
        var i :| 0 <= i < |rows| && rows[i] == y;
      }
      NoKeyedRow(r, v, p);
  }

  /** Deleting row `id` of `u` removes exactly that row's entry; an unknown row changes no entry. */
  lemma DeleteRowEntry(rows: seq<CartRow>, id: int, u: int, v: int, p: int)
    requires KeysUnique(rows)
    ensures Entry(DeleteRow(rows, id, u), v, p) ==
      match FindById(rows, id, u)
      case Some(k) => if IsKey(rows[k], v, p) then None else Entry(rows, v, p)
      case None => Entry(rows, v, p)
  {
    FilterEntry(rows, (r: CartRow) => !IsRow(r, id, u), v, p);
    var found, target := FindRow(rows, v, p), FindById(rows, id, u);
    if found.Some? && target.Some? && found.value != target.value {
      assert rows[found.value].id != rows[target.value].id;
    }
    if found.None? && target.Some? {
      assert !IsKey(rows[target.value], v, p);
    }
  }

  /** Clearing the cart of `u` removes all of that user's entries and no one else's. */
  lemma ClearUserEntry(rows: seq<CartRow>, u: int, v: int, p: int)
    requires KeysUnique(rows)
    ensures Entry(ClearUser(rows, u), v, p) == if v == u then None else Entry(rows, v, p)
  {
    FilterEntry(rows, (r: CartRow) => r.user != u, v, p);
  }

  /** Deleting a row is idempotent: a second identical DELETE finds nothing more to remove. */
  lemma DeleteRowTwice(rows: seq<CartRow>, id: int, u: int)
    ensures DeleteRow(DeleteRow(rows, id, u), id, u) == DeleteRow(rows, id, u)
  {
    FilterKeepsAll(DeleteRow(rows, id, u), (r: CartRow) => !IsRow(r, id, u));
  }

  /** Deleting a row that is not there leaves the table as it was. */
  lemma DeleteMissingRow(rows: seq<CartRow>, id: int, u: int)
    requires FindById(rows, id, u).None?
    ensures DeleteRow(rows, id, u) == rows
  {
  }

  /** Deleting an existing row `id` of `u`: exactly that row is gone, every other row remains. */
  lemma DeleteExistingRow(rows: seq<CartRow>, id: int, u: int)
    requires FindById(rows, id, u).Some?
    ensures |DeleteRow(rows, id, u)| < |rows|
    ensures forall x :: x in DeleteRow(rows, id, u) <==> x in rows && !IsRow(x, id, u)
  {
  }

  // ---------------------------------------------------------------------------------------
  // UPDATE cart SET quantity
  // ---------------------------------------------------------------------------------------

  /** `UPDATE cart SET quantity = ? WHERE id = ? AND user_id = ?` */
  function SetRowQuantity(rows: seq<CartRow>, id: int, u: int, q: int): (r: seq<CartRow>)
    ensures |r| == |rows|
    ensures forall i :: 0 <= i < |rows| ==> r[i] == rows[i].(quantity := r[i].quantity)
  {
    seq(|rows|, i requires 0 <= i < |rows| =>
      if IsRow(rows[i], id, u) then rows[i].(quantity := q) else rows[i])
  }

  /**
   * Setting a quantity is absolute, not additive: the entry of the key of row `id` becomes q,
   * every other entry is kept, and an unknown row changes nothing.
   */
  lemma SetRowQuantityEntry(rows: seq<CartRow>, id: int, u: int, q: int, v: int, p: int)
    requires KeysUnique(rows)
    ensures FindById(rows, id, u).None? ==> SetRowQuantity(rows, id, u, q) == rows
    ensures Entry(SetRowQuantity(rows, id, u, q), v, p) ==
      match FindById(rows, id, u)
      case Some(k) => if IsKey(rows[k], v, p) then Some(q) else Entry(rows, v, p)
      case None => Entry(rows, v, p)
  {
    var r := SetRowQuantity(rows, id, u, q);
    FindRowSameKeys(r, rows, v, p);
    var found, target := FindRow(rows, v, p), FindById(rows, id, u);
    if found.Some? && target.Some? && found.value != target.value {
      assert rows[found.value].id != rows[target.value].id;
    }
    if found.None? && target.Some? {
      assert !IsKey(rows[target.value], v, p);
    }
  }

  /** The update keeps the cart invariant: it touches no key and no id. */
  lemma SetRowQuantityInvariant(rows: seq<CartRow>, ps: map<int, Product>, next: int, id: int, u: int, q: int)
    requires CartInvariant(rows, ps, next)
    ensures CartInvariant(SetRowQuantity(rows, id, u, q), ps, next)
  {
  }

  // ---------------------------------------------------------------------------------------
  // The cart/product JOIN
  // ---------------------------------------------------------------------------------------

  function LineOf(row: CartRow, ps: map<int, Product>): CartLine
    requires row.product in ps
  {
    CartLine(row.id, row.product, row.quantity, ps[row.product].price, ps[row.product].stock)
  }

  /**
   * `SELECT c.*, p.price, p.stock_quantity FROM cart c JOIN products p ON c.product_id = p.id
   *  WHERE c.user_id = ?`, in table order; the price and stock are the product's current ones.
   */
  function Joined(rows: seq<CartRow>, ps: map<int, Product>, u: int): (r: seq<CartLine>)
    requires RefsValid(rows, ps)
    ensures |r| <= |rows|
    ensures r == [] <==> forall i :: 0 <= i < |rows| ==> rows[i].user != u
  {
    if rows == [] then []
    else
      assert rows[0] in rows;
      assert forall x :: x in rows[1..] ==> x in rows;
      (if rows[0].user == u then [LineOf(rows[0], ps)] else []) + Joined(rows[1..], ps, u)
  }

  /** After `DELETE FROM cart WHERE user_id = u` the user's cart is empty. */
  lemma ClearUserEmpties(rows: seq<CartRow>, ps: map<int, Product>, u: int)
    requires RefsValid(rows, ps)
    ensures RefsValid(ClearUser(rows, u), ps)
    ensures Joined(ClearUser(rows, u), ps, u) == []
  {
  }

  /** `DELETE FROM cart WHERE user_id = u` leaves every other user's cart exactly as it was. */
  lemma {:induction false} ClearUserKeepsOthers(rows: seq<CartRow>, ps: map<int, Product>, u: int, v: int)
    requires RefsValid(rows, ps)
    requires v != u
    ensures RefsValid(ClearUser(rows, u), ps)
    ensures Joined(ClearUser(rows, u), ps, v) == Joined(rows, ps, v)
  {
    if rows != [] {
      assert rows[0] in rows;
      assert RefsValid(rows[1..], ps) by {
        forall x | x in rows[1..] ensures x.product in ps { assert x in rows; }
      }
      ClearUserKeepsOthers(rows[1..], ps, u, v);
      var t := ClearUser(rows[1..], u);
      if rows[0].user != u {
        var r := [rows[0]] + t;
        assert ClearUser(rows, u) == r;
        assert r[0] == rows[0] && r[1..] == t;
      } else {
        assert ClearUser(rows, u) == t;
      }
    }
  }

  // ---------------------------------------------------------------------------------------
  // Totals
  // ---------------------------------------------------------------------------------------

  /** The sum over lines of unit price times quantity. */
  function LinesTotal(lines: seq<CartLine>): (r: int)
    ensures lines == [] ==> r == 0
    ensures (forall k :: 0 <= k < |lines| ==> lines[k].price >= 0 && lines[k].quantity >= 0) ==> r >= 0
  {
    if lines == [] then 0 else lines[0].price * lines[0].quantity + LinesTotal(lines[1..])
  }

  /** `lines.reduce((sum, item) => sum + item.price * item.quantity, acc)`, a left fold. */
  function FoldTotal(lines: seq<CartLine>, acc: int): (r: int)
    ensures r == acc + LinesTotal(lines)
  {
    if lines == [] then acc else FoldTotal(lines[1..], acc + lines[0].price * lines[0].quantity)
  }

  /** The order lines written for a cart snapshot: one per line, copying product, quantity and price. */
  function OrderItemsFor(orderId: int, lines: seq<CartLine>): (r: seq<OrderItem>)
    ensures |r| == |lines|
  {
    seq(|lines|, k requires 0 <= k < |lines| =>
      OrderItem(orderId, lines[k].product, lines[k].quantity, lines[k].price))
  }

  /** The sum over order lines of unit price times quantity. */
  function ItemsTotal(items: seq<OrderItem>): int
  {
    if items == [] then 0 else items[0].price * items[0].quantity + ItemsTotal(items[1..])
  }

  /** The order lines of a checkout add up to the cart total the order header records. */
  lemma {:induction false} ItemsTotalOfLines(orderId: int, lines: seq<CartLine>)
    ensures ItemsTotal(OrderItemsFor(orderId, lines)) == LinesTotal(lines)
  {
    if lines != [] {
      ItemsTotalOfLines(orderId, lines[1..]);
      assert OrderItemsFor(orderId, lines)[1..] == OrderItemsFor(orderId, lines[1..]);
    }
  }

  /** `SELECT * FROM order_items WHERE order_id = ?` */
  function ItemsOf(items: seq<OrderItem>, orderId: int): seq<OrderItem>
  {
    if items == [] then []
    else (if items[0].orderId == orderId then [items[0]] else []) + ItemsOf(items[1..], orderId)
  }

  lemma {:induction false} ItemsOfConcat(a: seq<OrderItem>, b: seq<OrderItem>, orderId: int)
    ensures ItemsOf(a + b, orderId) == ItemsOf(a, orderId) + ItemsOf(b, orderId)
  {
    if a != [] {
      assert (a + b)[1..] == a[1..] + b;
      ItemsOfConcat(a[1..], b, orderId);
    } else {
      assert a + b == b;
    }
  }

  lemma {:induction false} ItemsOfNone(items: seq<OrderItem>, orderId: int)
    requires forall k :: 0 <= k < |items| ==> items[k].orderId != orderId
    ensures ItemsOf(items, orderId) == []
  {
    if items != [] {
      ItemsOfNone(items[1..], orderId);
    }
  }

  lemma {:induction false} ItemsOfAll(items: seq<OrderItem>, orderId: int)
    requires forall k :: 0 <= k < |items| ==> items[k].orderId == orderId
    ensures ItemsOf(items, orderId) == items
  {
    if items != [] {
      ItemsOfAll(items[1..], orderId);
      assert [items[0]] + items[1..] == items;
    }
  }

  /**
   * Order ids are unique and below the next AUTO_INCREMENT value, every order line belongs to an
   * id already handed out, and every order's total is the sum of its lines.
   */
  ghost predicate OrdersInvariant(orders: seq<Order>, items: seq<OrderItem>, next: int)
  {
    && (forall i, j :: 0 <= i < j < |orders| ==> orders[i].id != orders[j].id)
    && (forall i :: 0 <= i < |orders| ==> orders[i].id < next)
    && (forall k :: 0 <= k < |items| ==> items[k].orderId < next)
    && (forall i :: 0 <= i < |orders| ==> ItemsTotal(ItemsOf(items, orders[i].id)) == orders[i].total)
  }

  /** Appending a fresh order together with its lines keeps the orders invariant. */
  lemma AppendOrderInvariant(orders: seq<Order>, items: seq<OrderItem>, next: int, o: Order, lines: seq<CartLine>)
    requires OrdersInvariant(orders, items, next)
    requires o.id == next && o.total == LinesTotal(lines)
    ensures OrdersInvariant(orders + [o], items + OrderItemsFor(next, lines), next + 1)
  {
    var os, added := orders + [o], OrderItemsFor(next, lines);
    var all := items + added;
    forall i | 0 <= i < |os| ensures ItemsTotal(ItemsOf(all, os[i].id)) == os[i].total {
      ItemsOfConcat(items, added, os[i].id);
      if i < |orders| {
        assert os[i] == orders[i];
        ItemsOfNone(added, os[i].id);
        assert ItemsOf(items, os[i].id) + [] == ItemsOf(items, os[i].id);
      } else {
        ItemsOfNone(items, next);
        ItemsOfAll(added, next);
        assert [] + added == added;
        ItemsTotalOfLines(next, lines);
      }
    }
    forall k | 0 <= k < |all| ensures all[k].orderId < next + 1 {
      if k >= |items| {
        assert all[k] == added[k - |items|];
      }
    }
  }

  // ---------------------------------------------------------------------------------------
  // Stock decrement
  // ---------------------------------------------------------------------------------------

  /** Total quantity asked of product p by the lines. */
  function QuantityFor(lines: seq<CartLine>, p: int): int
  {
    if lines == [] then 0
    else QuantityFor(lines[..|lines| - 1], p) + (if lines[|lines| - 1].product == p then lines[|lines| - 1].quantity else 0)
  }

  /** `UPDATE products SET stock_quantity = stock_quantity - ? WHERE id = ?` once per line, in order. */
  function Decrement(ps: map<int, Product>, lines: seq<CartLine>): (r: map<int, Product>)
    requires forall k :: 0 <= k < |lines| ==> lines[k].product in ps
    ensures r.Keys == ps.Keys
    decreases |lines|
  {
    if lines == [] then ps
    else
      var r0 := Decrement(ps, lines[..|lines| - 1]);
      var l := lines[|lines| - 1];
      r0[l.product := r0[l.product].(stock := r0[l.product].stock - l.quantity)]
  }

  /** Each product's stock drops by the total quantity the lines ask of it; nothing else changes. */
  lemma {:induction false} DecrementEffect(ps: map<int, Product>, lines: seq<CartLine>, p: int)
    requires forall k :: 0 <= k < |lines| ==> lines[k].product in ps
    requires p in ps
    ensures Decrement(ps, lines)[p] == ps[p].(stock := ps[p].stock - QuantityFor(lines, p))
    decreases |lines|
  {
    if lines != [] {
      DecrementEffect(ps, lines[..|lines| - 1], p);
    }
  }

  lemma {:induction false} QuantityForConcat(a: seq<CartLine>, b: seq<CartLine>, p: int)
    ensures QuantityFor(a + b, p) == QuantityFor(a, p) + QuantityFor(b, p)
    decreases |b|
  {
    if b == [] {
      assert a + b == a;
    } else {
      assert (a + b)[..|a + b| - 1] == a + b[..|b| - 1];
      QuantityForConcat(a, b[..|b| - 1], p);
    }
  }

  /**
   * On a cart with unique keys, what checkout asks of product p is exactly the quantity of the
   * user's (u, p) row, and 0 for a product not in that user's cart.
   */
  lemma {:induction false} QuantityForJoined(rows: seq<CartRow>, ps: map<int, Product>, u: int, p: int)
    requires KeysUnique(rows) && RefsValid(rows, ps)
    ensures QuantityFor(Joined(rows, ps, u), p) == QuantityIn(rows, u, p)
  {
    if rows != [] {
      var h, t := rows[0], rows[1..];
      assert h in rows;
      assert RefsValid(t, ps) by {
        forall x | x in t ensures x.product in ps { assert x in rows; }
      }
      assert KeysUnique(t) by {
        forall i, j | 0 <= i < j < |t|
          ensures t[i].id != t[j].id && (t[i].user != t[j].user || t[i].product != t[j].product)
        {
          assert t[i] == rows[i + 1] && t[j] == rows[j + 1];
        }
      }
      QuantityForJoined(t, ps, u, p);
      var head: seq<CartLine> := if h.user == u then [LineOf(h, ps)] else [];
      assert Joined(rows, ps, u) == head + Joined(t, ps, u);
      QuantityForConcat(head, Joined(t, ps, u), p);
      if h.user == u {
        assert QuantityFor(head, p) == QuantityFor([], p) + (if h.product == p then h.quantity else 0);
      }
      if IsKey(h, u, p) {
        assert FindRow(t, u, p).None? by {
          forall k | 0 <= k < |t| ensures !IsKey(t[k], u, p) {
            assert t[k] == rows[k + 1];
          }
        }
      }
    }
  }

  // ---------------------------------------------------------------------------------------
  // Enumerations as the routes validate them
  // ---------------------------------------------------------------------------------------

  /** `['pending', 'processing', 'shipped', 'delivered', 'cancelled']` */
  const ValidStatuses: seq<string> := ["pending", "processing", "shipped", "delivered", "cancelled"]

  /** The ENUM text stored for a status. */
  function StatusName(st: OrderStatus): string
  {
    match st
    case Pending => "pending"
    case Processing => "processing"
    case Shipped => "shipped"
    case Delivered => "delivered"
    case Cancelled => "cancelled"
  }

  /** `validStatuses.includes(status)`, read as the status it names. */
  function ParseStatus(s: string): (r: Option<OrderStatus>)
    ensures r.Some? <==> s in ValidStatuses
    ensures r.Some? ==> StatusName(r.value) == s
    ensures forall st :: s == StatusName(st) ==> r == Some(st)
  {
    if s == "pending" then Some(Pending)
    else if s == "processing" then Some(Processing)
    else if s == "shipped" then Some(Shipped)
    else if s == "delivered" then Some(Delivered)
    else if s == "cancelled" then Some(Cancelled)
    else None
  }

  /** `['user', 'admin']` */
  const ValidRoles: seq<string> := ["user", "admin"]

  function RoleName(role: Role): string
  {
    match role
    case UserRole => "user"
    case AdminRole => "admin"
  }

  /** `['user', 'admin'].includes(role)`, read as the role it names. */
  function ParseRole(s: string): (r: Option<Role>)
    ensures r.Some? <==> s in ValidRoles
    ensures r.Some? ==> RoleName(r.value) == s
    ensures forall role :: s == RoleName(role) ==> r == Some(role)
  {
    if s == "user" then Some(UserRole) else if s == "admin" then Some(AdminRole) else None
  }

  /** `UPDATE orders SET status = ? WHERE id = ?` */
  function SetStatus(orders: seq<Order>, orderId: int, st: OrderStatus): (r: seq<Order>)
    ensures |r| == |orders|
  {
    seq(|orders|, i requires 0 <= i < |orders| =>
      if orders[i].id == orderId then orders[i].(status := st) else orders[i])
  }

  /** A status change keeps the orders invariant: it touches neither ids, totals nor lines. */
  lemma SetStatusInvariant(orders: seq<Order>, items: seq<OrderItem>, next: int, orderId: int, st: OrderStatus)
    requires OrdersInvariant(orders, items, next)
    ensures OrdersInvariant(SetStatus(orders, orderId, st), items, next)
  {
  }
}
