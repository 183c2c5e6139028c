/**
 * The cart, order and admin routes of server.js as one in-memory store. Each MySQL table is a
 * field of `Store`; each route is a method that runs as one atomic step and states which tables
 * it changes. The authenticated user's id and the admin's own id, which the routes take from
 * the verified token, are parameters.
 */
module Server {
  import opened Wrappers
  import opened Tables

  /** The error answers of the routes. */
  datatype Error =
    | ProductNotFound                // 404 'Product not found'
    | InsufficientStock              // 400 'Insufficient stock'
    | InsufficientStockForQuantity   // 400 'Insufficient stock for requested quantity'
    | ProductIdRequired              // 400 'Product ID is required'
    | QuantityTooSmall               // 400 'Quantity must be at least 1'
    | CartItemNotFound               // 404 'Cart item not found'
    | CartEmpty                      // 400 'Cart is empty'
    | InvalidStatus                  // 400 'Invalid status'
    | OrderNotFound                  // 404 'Order not found'
    | InvalidRole                    // 400 'Invalid role'
    | CannotDeleteSelf               // 400 'Cannot delete your own account'
    | ServerError                    // 500: a statement refused by a foreign key or a column width

  /** Does some order belong to user `id`? (`orders.user_id` references `users.id` without cascade.) */
  predicate HasOrders(orders: seq<Order>, id: int)
  {
    exists i :: 0 <= i < |orders| && orders[i].user == id
  }

  /** Is there an order with this id? (`affectedRows` of the status UPDATE is not 0.) */
  predicate OrderExists(orders: seq<Order>, id: int)
  {
    exists i :: 0 <= i < |orders| && orders[i].id == id
  }

  /**
   * The foreign keys into `users`: `cart.user_id` (ON DELETE CASCADE) and `orders.user_id`
   * (no cascade). Every cart row and every order belongs to an existing account.
   */
  ghost predicate UsersReferenced(cart: seq<CartRow>, orders: seq<Order>, users: map<int, Role>)
  {
    (forall r :: r in cart ==> r.user in users) && (forall o :: o in orders ==> o.user in users)
  }

  /** The width of `orders.payment_method`, a `VARCHAR(50)`. */
  const MaxPaymentMethod: int := 50

  class Store {
    /** `products`: id -> price (cents), stock_quantity, status = 'active'. */
    var products: map<int, Product>
    /** `cart`, in table order. */
    var cart: seq<CartRow>
    /** The next AUTO_INCREMENT id of `cart`. */
    var nextCartId: int
    /** `orders`, in insertion order. */
    var orders: seq<Order>
    /** `order_items`, in insertion order. */
    var orderItems: seq<OrderItem>
    /** The next AUTO_INCREMENT id of `orders`. */
    var nextOrderId: int
    /** `users`: id -> role. */
    var users: map<int, Role>

    ghost predicate Valid()
      reads this
    {
      CartInvariant(cart, products, nextCartId) && OrdersInvariant(orders, orderItems, nextOrderId)
      && UsersReferenced(cart, orders, users)
    }

    /** Only the cart table (and its id counter) may have changed. */
    twostate predicate OnlyCartChanged()
      reads this
    {
      products == old(products) && orders == old(orders) && orderItems == old(orderItems)
      && nextOrderId == old(nextOrderId) && users == old(users)
    }

    /** Nothing at all changed. */
    twostate predicate NothingChanged()
      reads this
    {
      OnlyCartChanged() && cart == old(cart) && nextCartId == old(nextCartId)
    }

    /** A store over a given catalog and set of accounts, with empty carts and no orders. */
    constructor (catalog: map<int, Product>, accounts: map<int, Role>)
      ensures Valid()
      ensures products == catalog && users == accounts
      ensures cart == [] && orders == [] && orderItems == []
    {
      products, users := catalog, accounts;
      cart, nextCartId := [], 1;
      orders, orderItems, nextOrderId := [], [], 1;
    }

    /**
     * POST /api/cart (the handler Express reaches). An unknown or inactive product is
     * 'Product not found'; a requested quantity above the current stock is 'Insufficient stock'
     * (the quantity already in the cart is not counted). An acting user without a `users` row
     * (a token that outlived its account) makes the INSERT fail on the `cart.user_id` foreign
     * key: a server error, cart unchanged. Otherwise the upsert adds the requested quantity to
     * the (user, product) entry, creating it when absent.
     */
    method Add(u: int, p: int, q: int) returns (r: Outcome<Error>)
      requires Valid()
      modifies this
      ensures Valid() && OnlyCartChanged()
      ensures r == if p !in old(products) || !old(products)[p].active then Fail(ProductNotFound)
                   else if old(products)[p].stock < q then Fail(InsufficientStock)
                   else if u !in old(users) then Fail(ServerError)
                   else Pass
      ensures r.Fail? ==> cart == old(cart) && nextCartId == old(nextCartId)
      ensures r.Pass? ==> cart == Upsert(old(cart), old(nextCartId), u, p, q)
      ensures r.Pass? ==> nextCartId == NextIdAfterUpsert(old(cart), old(nextCartId), u, p)
      ensures r.Pass? ==> forall v, p2 :: (Entry(cart, v, p2) ==
        if v == u && p2 == p then Some(QuantityIn(old(cart), u, p) + q) else Entry(old(cart), v, p2))
    {
      if p !in products || !products[p].active {
        return Fail(ProductNotFound);
      }
      if products[p].stock < q {
        return Fail(InsufficientStock);
      }
      if u !in users {
        return Fail(ServerError);
      }
      UpsertInvariant(cart, products, nextCartId, u, p, q);
      forall v, p2 ensures Entry(Upsert(cart, nextCartId, u, p, q), v, p2) ==
        if v == u && p2 == p then Some(QuantityIn(cart, u, p) + q) else Entry(cart, v, p2)
      {
        UpsertEntry(cart, nextCartId, u, p, q, v, p2);
      }
      var next := NextIdAfterUpsert(cart, nextCartId, u, p);
      cart, nextCartId := Upsert(cart, nextCartId, u, p, q), next;
      r := Pass;
    }

    /**
     * POST /api/cart as the later `cart_items` handler writes it (never reached, since Express
     * dispatches to the earlier handler). Product id 0 (a falsy id) is refused first. The stock
     * check is also applied to the cumulative quantity when the entry exists. A new entry for
     * an acting user without a `users` row fails on the foreign key (an existing entry cannot
     * belong to such a user); on success the effect is the same upsert as `Add`.
     */
    method AddChecked(u: int, p: int, q: int) returns (r: Outcome<Error>)
      requires Valid()
      modifies this
      ensures Valid() && OnlyCartChanged()
      ensures r == if p == 0 then Fail(ProductIdRequired)
                   else if p !in old(products) || !old(products)[p].active then Fail(ProductNotFound)
                   else if old(products)[p].stock < q then Fail(InsufficientStock)
                   else if Entry(old(cart), u, p).Some? && QuantityIn(old(cart), u, p) + q > old(products)[p].stock
                   then Fail(InsufficientStockForQuantity)
                   else if u !in old(users) then Fail(ServerError)
                   else Pass
      ensures r.Fail? ==> cart == old(cart) && nextCartId == old(nextCartId)
      ensures r.Pass? ==> cart == Upsert(old(cart), old(nextCartId), u, p, q)
      ensures r.Pass? ==> nextCartId == NextIdAfterUpsert(old(cart), old(nextCartId), u, p)
      ensures r.Pass? ==> QuantityIn(cart, u, p) <= products[p].stock
      ensures r.Pass? ==> forall v, p2 :: (Entry(cart, v, p2) ==
        if v == u && p2 == p then Some(QuantityIn(old(cart), u, p) + q) else Entry(old(cart), v, p2))
    {
      if p == 0 {
        return Fail(ProductIdRequired);
      }
      if p !in products || !products[p].active {
        return Fail(ProductNotFound);
      }
      if products[p].stock < q {
        return Fail(InsufficientStock);
      }
      var existing := FindRow(cart, u, p);
      if existing.Some? && cart[existing.value].quantity + q > products[p].stock {
        return Fail(InsufficientStockForQuantity);
      }
      r := Add(u, p, q);
    }

    /**
     * PUT /api/cart/:id (the handler Express reaches). A quantity <= 0 deletes row `id` of `u`;
     * any other quantity is set absolutely. No stock check; an unknown row is still a success.
     */
    method SetQuantity(u: int, id: int, q: int) returns (r: Outcome<Error>)
      requires Valid()
      modifies this
      ensures Valid() && OnlyCartChanged() && nextCartId == old(nextCartId)
      ensures r == Pass
      ensures q <= 0 ==> cart == DeleteRow(old(cart), id, u)
      ensures q > 0 ==> cart == SetRowQuantity(old(cart), id, u, q)
      ensures FindById(old(cart), id, u).None? ==> cart == old(cart)
      ensures forall v, p :: (Entry(cart, v, p) ==
        match FindById(old(cart), id, u)
        case Some(k) => if IsKey(old(cart)[k], v, p) then (if q <= 0 then None else Some(q)) else Entry(old(cart), v, p)
        case None => Entry(old(cart), v, p))
    {
      if q <= 0 {
        var _ := Remove(u, id);
      } else {
        forall v, p ensures Entry(SetRowQuantity(cart, id, u, q), v, p) ==
          match FindById(cart, id, u)
          case Some(k) => if IsKey(cart[k], v, p) then Some(q) else Entry(cart, v, p)
          case None => Entry(cart, v, p)
        {
          SetRowQuantityEntry(cart, id, u, q, v, p);
        }
        SetRowQuantityEntry(cart, id, u, q, 0, 0);
        SetRowQuantityInvariant(cart, products, nextCartId, id, u, q);
        cart := SetRowQuantity(cart, id, u, q);
      }
      r := Pass;
    }

    /**
     * DELETE /api/cart/:id (the handler Express reaches): deletes row `id` of `u` and always
     * reports success, so removing a row that is not there changes nothing.
     */
    method Remove(u: int, id: int) returns (r: Outcome<Error>)
      requires Valid()
      modifies this
      ensures Valid() && OnlyCartChanged() && nextCartId == old(nextCartId)
      ensures r == Pass
      ensures cart == DeleteRow(old(cart), id, u)
      ensures FindById(old(cart), id, u).None? ==> cart == old(cart)
      ensures forall v, p :: (Entry(cart, v, p) ==
        match FindById(old(cart), id, u)
        case Some(k) => if IsKey(old(cart)[k], v, p) then None else Entry(old(cart), v, p)
        case None => Entry(old(cart), v, p))
    {
      forall v, p ensures Entry(DeleteRow(cart, id, u), v, p) ==
        match FindById(cart, id, u)
        case Some(k) => if IsKey(cart[k], v, p) then None else Entry(cart, v, p)
        case None => Entry(cart, v, p)
      {
        DeleteRowEntry(cart, id, u, v, p);
      }
      if FindById(cart, id, u).None? {
        DeleteMissingRow(cart, id, u);
      }
      FilterInvariant(cart, products, nextCartId, (x: CartRow) => !IsRow(x, id, u));
      cart := DeleteRow(cart, id, u);
      r := Pass;
    }

    /**
     * PUT /api/cart/:id as the later `cart_items` handler writes it (never reached): a quantity
     * below 1 is refused, then an unknown row, then a quantity above the product's stock;
     * otherwise the quantity is set absolutely.
     */
    method SetQuantityChecked(u: int, id: int, q: int) returns (r: Outcome<Error>)
      requires Valid()
      modifies this
      ensures Valid() && OnlyCartChanged() && nextCartId == old(nextCartId)
      ensures r == if q < 1 then Fail(QuantityTooSmall)
                   else match FindById(old(cart), id, u)
                     case None => Fail(CartItemNotFound)
                     case Some(k) =>
                       if q > old(products)[old(cart)[k].product].stock then Fail(InsufficientStock) else Pass
      ensures r.Fail? ==> cart == old(cart)
      ensures r.Pass? ==> cart == SetRowQuantity(old(cart), id, u, q)
      ensures r.Pass? ==> forall v, p :: (Entry(cart, v, p) ==
        if IsKey(old(cart)[FindById(old(cart), id, u).value], v, p) then Some(q) else Entry(old(cart), v, p))
    {
      if q < 1 {
        return Fail(QuantityTooSmall);
      }
      var found := FindById(cart, id, u);
      if found.None? {
        return Fail(CartItemNotFound);
      }
      var row := cart[found.value];
      assert row in cart;
      if q > products[row.product].stock {
        return Fail(InsufficientStock);
      }
      forall v, p ensures Entry(SetRowQuantity(cart, id, u, q), v, p) ==
        if IsKey(row, v, p) then Some(q) else Entry(cart, v, p)
      {
        SetRowQuantityEntry(cart, id, u, q, v, p);
      }
      SetRowQuantityInvariant(cart, products, nextCartId, id, u, q);
      cart := SetRowQuantity(cart, id, u, q);
      r := Pass;
    }

    /**
     * DELETE /api/cart/:id as the later `cart_items` handler writes it (never reached): the
     * same delete, but a row that is not there is answered with 'Cart item not found'.
     */
    method RemoveChecked(u: int, id: int) returns (r: Outcome<Error>)
      requires Valid()
      modifies this
      ensures Valid() && OnlyCartChanged() && nextCartId == old(nextCartId)
      ensures r == if FindById(old(cart), id, u).None? then Fail(CartItemNotFound) else Pass
      ensures cart == DeleteRow(old(cart), id, u)
      ensures r.Fail? ==> cart == old(cart)
      ensures r.Pass? ==> |cart| == |old(cart)| - 1
    {
      var found := FindById(cart, id, u);
      r := Remove(u, id);
      if found.None? {
        r := Fail(CartItemNotFound);
      } else {
        DeleteExistingRow(old(cart), id, u);
        assert forall x :: x in cart <==> x in old(cart) && !IsRow(x, id, u);
        assert old(cart)[found.value] in old(cart);
        DeleteOneRow(old(cart), id, u);
      }
    }

    /** DELETE /api/cart: removes every cart row of `u`; other users' carts stay as they were. */
    method Clear(u: int) returns (r: Outcome<Error>)
      requires Valid()
      modifies this
      ensures Valid() && OnlyCartChanged() && nextCartId == old(nextCartId)
      ensures r == Pass
      ensures cart == ClearUser(old(cart), u)
      ensures Joined(cart, products, u) == []
      ensures forall v, p :: Entry(cart, v, p) == if v == u then None else Entry(old(cart), v, p)
    {
      forall v, p ensures Entry(ClearUser(cart, u), v, p) == if v == u then None else Entry(cart, v, p) {
        ClearUserEntry(cart, u, v, p);
      }
      FilterInvariant(cart, products, nextCartId, (x: CartRow) => x.user != u);
      ClearUserEmpties(cart, products, u);
      cart := ClearUser(cart, u);
      r := Pass;
    }

    /**
     * POST /api/orders. A user without cart rows gets 'Cart is empty' and nothing changes. A
     * payment method longer than the 50 characters of its `VARCHAR(50)` column makes the first
     * INSERT fail (MySQL's strict mode): a server error, and nothing changes. Otherwise one order is created with the next id, status and payment status pending, and a
     * total equal to the sum over the cart of current price times quantity; one order line per
     * cart line (in cart order) copies product, quantity and current price; every product's stock
     * drops by exactly that user's cart quantity of it (0 for products not in the cart, and with
     * no check that the stock suffices); and that user's cart is emptied, other carts untouched.
     */
    method Checkout(u: int, shippingAddress: string, paymentMethod: string) returns (r: Result<int, Error>)
      requires Valid()
      modifies this
      ensures Valid()
      ensures users == old(users) && nextCartId == old(nextCartId)
      ensures r.Err? <==> Joined(old(cart), old(products), u) == [] || |paymentMethod| > MaxPaymentMethod
      ensures r.Err? ==> NothingChanged()
      ensures r.Err? ==> r.error == if Joined(old(cart), old(products), u) == [] then CartEmpty else ServerError
      ensures r.Ok? ==>
        var snapshot := Joined(old(cart), old(products), u);
        && r.value == old(nextOrderId)
        && nextOrderId == old(nextOrderId) + 1
        && orders == old(orders) + [Order(r.value, u, LinesTotal(snapshot), Pending,
                                          shippingAddress, paymentMethod, PaymentPending)]
        && orderItems == old(orderItems) + OrderItemsFor(r.value, snapshot)
        && ItemsTotal(ItemsOf(orderItems, r.value)) == LinesTotal(snapshot)
        && cart == ClearUser(old(cart), u)
        && Joined(cart, products, u) == []
        && (forall v, p :: Entry(cart, v, p) == if v == u then None else Entry(old(cart), v, p))
        && products.Keys == old(products).Keys
        && (forall p :: p in products ==>
              products[p] == old(products)[p].(stock := old(products)[p].stock - QuantityIn(old(cart), u, p)))
    {
      var snapshot := Joined(cart, products, u);
      if snapshot == [] {
        return Err(CartEmpty);
      }
      if |paymentMethod| > MaxPaymentMethod {
        return Err(ServerError);
      }
      var orderId := RecordOrder(u, snapshot, shippingAddress, paymentMethod);
      var _ := Clear(u);
      r := Ok(orderId);
    }

    /**
     * The writes of POST /api/orders before the cart is cleared: the order row, then the order
     * lines and stock decrements of the cart snapshot.
     */
    method RecordOrder(u: int, snapshot: seq<CartLine>, shippingAddress: string, paymentMethod: string)
      returns (orderId: int)
      requires Valid()
      requires snapshot == Joined(cart, products, u) && snapshot != []
      modifies this
      ensures Valid()
      ensures users == old(users) && cart == old(cart) && nextCartId == old(nextCartId)
      ensures orderId == old(nextOrderId) && nextOrderId == old(nextOrderId) + 1
      ensures orders == old(orders) + [Order(orderId, u, LinesTotal(snapshot), Pending,
                                             shippingAddress, paymentMethod, PaymentPending)]
      ensures orderItems == old(orderItems) + OrderItemsFor(orderId, snapshot)
      ensures ItemsTotal(ItemsOf(orderItems, orderId)) == LinesTotal(snapshot)
      ensures products.Keys == old(products).Keys
      ensures forall p :: p in products ==>
        products[p] == old(products)[p].(stock := old(products)[p].stock - QuantityIn(old(cart), u, p))
    {
      assert u in users by {
        var i :| 0 <= i < |cart| && cart[i].user == u;
        assert cart[i] in cart;
      }
      var total := FoldTotal(snapshot, 0);
      orderId := nextOrderId;
      var o := Order(orderId, u, total, Pending, shippingAddress, paymentMethod, PaymentPending);
      AppendOrderInvariant(orders, orderItems, nextOrderId, o, snapshot);
      orders := orders + [o];
      nextOrderId := nextOrderId + 1;
      JoinedProducts(cart, products, u);
      WriteOrderLines(orderId, snapshot);
      forall p | p in products
        ensures products[p] == old(products)[p].(stock := old(products)[p].stock - QuantityIn(old(cart), u, p))
      {
        DecrementEffect(old(products), snapshot, p);
        QuantityForJoined(old(cart), old(products), u, p);
      }
      ItemsOfCheckout(old(orderItems), orderId, snapshot);
    }

    /**
     * The loop of POST /api/orders over the cart snapshot: for each line, one `order_items` row
     * with the line's product, quantity and price, then the unguarded stock decrement of its product.
     */
    method WriteOrderLines(orderId: int, snapshot: seq<CartLine>)
      requires forall k :: 0 <= k < |snapshot| ==> snapshot[k].product in products
      modifies this
      ensures orderItems == old(orderItems) + OrderItemsFor(orderId, snapshot)
      ensures products == Decrement(old(products), snapshot)
      ensures cart == old(cart) && nextCartId == old(nextCartId) && users == old(users)
      ensures orders == old(orders) && nextOrderId == old(nextOrderId)
    {
      var i := 0;
      while i < |snapshot|
        invariant 0 <= i <= |snapshot|
        invariant orderItems == old(orderItems) + OrderItemsFor(orderId, snapshot[..i])
        invariant products == Decrement(old(products), snapshot[..i])
        invariant cart == old(cart) && nextCartId == old(nextCartId) && users == old(users)
        invariant orders == old(orders) && nextOrderId == old(nextOrderId)
      {
        var line := snapshot[i];
        orderItems := orderItems + [OrderItem(orderId, line.product, line.quantity, line.price)];
        products := products[line.product := products[line.product].(stock := products[line.product].stock - line.quantity)];
        assert snapshot[..i + 1][..i] == snapshot[..i];
        assert OrderItemsFor(orderId, snapshot[..i + 1]) ==
               OrderItemsFor(orderId, snapshot[..i]) + [OrderItem(orderId, line.product, line.quantity, line.price)];
        i := i + 1;
      }
      assert snapshot[..i] == snapshot;
    }

    /**
     * PUT /api/admin/orders/:id/status. The status must be one of pending, processing, shipped,
     * delivered, cancelled; an id without an order is 'Order not found'. Only `status` of that
     * order changes: its total, its lines and every other order stay as they were.
     */
    method UpdateOrderStatus(orderId: int, status: string) returns (r: Outcome<Error>)
      requires Valid()
      modifies this
      ensures Valid()
      ensures r == if status !in ValidStatuses then Fail(InvalidStatus)
                   else if !OrderExists(old(orders), orderId) then Fail(OrderNotFound)
                   else Pass
      ensures r.Fail? ==> NothingChanged()
      ensures products == old(products) && cart == old(cart) && nextCartId == old(nextCartId)
      ensures orderItems == old(orderItems) && nextOrderId == old(nextOrderId) && users == old(users)
      ensures |orders| == |old(orders)|
      ensures forall i :: 0 <= i < |orders| ==>
        orders[i] == if r.Pass? && old(orders)[i].id == orderId
                     then old(orders)[i].(status := ParseStatus(status).value) else old(orders)[i]
    {
      var parsed := ParseStatus(status);
      if parsed.None? {
        return Fail(InvalidStatus);
      }
      if !OrderExists(orders, orderId) {
        return Fail(OrderNotFound);
      }
      SetStatusInvariant(orders, orderItems, nextOrderId, orderId, parsed.value);
      orders := SetStatus(orders, orderId, parsed.value);
      r := Pass;
    }

    /**
     * PUT /api/admin/users/:id/role. The role must be 'user' or 'admin'; the UPDATE does not
     * check that the user exists, so an unknown id is a success that changes nothing.
     */
    method UpdateUserRole(id: int, role: string) returns (r: Outcome<Error>)
      requires Valid()
      modifies this
      ensures Valid()
      ensures r == if role in ValidRoles then Pass else Fail(InvalidRole)
      ensures products == old(products) && cart == old(cart) && nextCartId == old(nextCartId)
      ensures orders == old(orders) && orderItems == old(orderItems) && nextOrderId == old(nextOrderId)
      ensures users == if r.Pass? && id in old(users) then old(users)[id := ParseRole(role).value] else old(users)
    {
      var parsed := ParseRole(role);
      if parsed.None? {
        return Fail(InvalidRole);
      }
      if id in users {
        users := users[id := parsed.value];
      }
      r := Pass;
    }

    /**
     * DELETE /api/admin/users/:id. An admin cannot delete their own account. A user who has
     * orders cannot be deleted either: `orders.user_id` references `users.id` without a cascade,
     * so the DELETE fails and the route answers 500. Otherwise the user is deleted and, by the
     * cart's ON DELETE CASCADE, so are that user's cart rows.
     */
    method DeleteUser(id: int, self: int) returns (r: Outcome<Error>)
      requires Valid()
      modifies this
      ensures Valid()
      ensures r == if id == self then Fail(CannotDeleteSelf)
                   else if HasOrders(old(orders), id) then Fail(ServerError)
                   else Pass
      ensures r.Fail? ==> NothingChanged()
      ensures products == old(products) && nextCartId == old(nextCartId)
      ensures orders == old(orders) && orderItems == old(orderItems) && nextOrderId == old(nextOrderId)
      ensures r.Pass? ==> users == old(users) - {id} && cart == ClearUser(old(cart), id)
    {
      if id == self {
        return Fail(CannotDeleteSelf);
      }
      if HasOrders(orders, id) {
        return Fail(ServerError);
      }
      FilterInvariant(cart, products, nextCartId, (x: CartRow) => x.user != id);
      users := users - {id};
      cart := ClearUser(cart, id);
      r := Pass;
    }
  }

  /** Every product a user's joined cart names is in the catalog. */
  lemma JoinedProducts(rows: seq<CartRow>, ps: map<int, Product>, u: int)
    requires RefsValid(rows, ps)
    ensures forall k :: 0 <= k < |Joined(rows, ps, u)| ==> Joined(rows, ps, u)[k].product in ps
  {
  }

  /** The lines of a fresh order are exactly those checkout appended. */
  lemma ItemsOfCheckout(items: seq<OrderItem>, orderId: int, lines: seq<CartLine>)
    requires forall k :: 0 <= k < |items| ==> items[k].orderId < orderId
    ensures ItemsTotal(ItemsOf(items + OrderItemsFor(orderId, lines), orderId)) == LinesTotal(lines)
  {
    ItemsOfConcat(items, OrderItemsFor(orderId, lines), orderId);
    ItemsOfNone(items, orderId);
    ItemsOfAll(OrderItemsFor(orderId, lines), orderId);
    assert [] + OrderItemsFor(orderId, lines) == OrderItemsFor(orderId, lines);
    ItemsTotalOfLines(orderId, lines);
  }

  /**
   * With unique row ids, deleting an existing row `id` of `u` removes exactly one row: the
   * `affectedRows` of the DELETE is 1.
   */
  lemma {:induction false} DeleteOneRow(rows: seq<CartRow>, id: int, u: int)
    requires KeysUnique(rows)
    requires FindById(rows, id, u).Some?
    ensures |DeleteRow(rows, id, u)| == |rows| - 1
  {
    var t := rows[1..];
    assert KeysUnique(t) by {
      forall i, j | 0 <= i < j < |t|
        ensures t[i].id != t[j].id && (t[i].user != t[j].user || t[i].product != t[j].product)
      {
        assert t[i] == rows[i + 1] && t[j] == rows[j + 1];
      }
    }
    if IsRow(rows[0], id, u) {
      forall x | x in t ensures !IsRow(x, id, u) {
        var k :| 0 <= k < |t| && t[k] == x;
        assert rows[k + 1] == x;
      }
      FilterKeepsAll(t, (r: CartRow) => !IsRow(r, id, u));
    } else {
      DeleteOneRow(t, id, u);
    }
  }
}
