/**
 * The order workflow: placing an order from a list of requested lines,
 * cancelling it, and the owner-scoped lookups. The shop holds the catalog
 * (products and the stock count of every size variant) and the orders placed
 * so far, in the order they were placed; an order's id is its position plus 1.
 */
module Views {
  import opened Wrappers
  import opened Models
  import opened Serializers
  import opened OrderSpec

  datatype CancelError = NotFound | NotCancellable(status: Status)

  /** Orders are numbered 1, 2, 3, ... in the order they were placed. */
  predicate IdsAreIndices(orders: seq<Order>) {
    forall i :: 0 <= i < |orders| ==> orders[i].id == i + 1
  }

  /**
   * The order with the given id, provided the user owns it. An order of another
   * user is not found, exactly like one that does not exist.
   */
  function OrderDetail(orders: seq<Order>, user: UserId, id: OrderId): (r: Option<Order>)
    requires IdsAreIndices(orders)
    ensures r.Some? <==> exists i :: 0 <= i < |orders| && orders[i].id == id && orders[i].owner == user
    ensures r.Some? ==> r.value in orders && r.value.id == id && r.value.owner == user
  {
    if 1 <= id <= |orders| && orders[id - 1].owner == user then Some(orders[id - 1]) else None
  }

  /** The user's orders, newest first. */
  function OrderList(orders: seq<Order>, user: UserId): (r: seq<Order>)
    requires IdsAreIndices(orders)
    ensures forall o :: o in r <==> o in orders && o.owner == user
    ensures forall i, j :: 0 <= i < j < |r| ==> r[i].id > r[j].id
  {
    if orders == [] then []
    else
      var n := |orders| - 1;
      var rest := OrderList(orders[..n], user);
      assert forall o :: o in rest ==> o.id <= n;
      if orders[n].owner == user then [orders[n]] + rest else rest
  }

  /**
   * What a placed order records: the caller as owner, status pending, unpaid,
   * the delivery details, payment method, delivery price and note of the
   * request, one item per requested line in the same order, each with the
   * product's price at the time, the variant its size name names and its
   * quantity, and totals that add up.
   */
  predicate PlacedAsRequested(o: Order, id: OrderId, user: UserId, req: OrderRequest, products: map<ProductId, Product>) {
    && o.id == id && o.owner == user
    && o.status == Pending && !o.isPaid && o.paidAt == None
    && o.delivery == req.delivery && o.payment == req.payment
    && o.deliveryPrice == req.deliveryPrice && o.note == req.note
    && o.subtotal == SumSubtotals(o.items)
    && o.totalPrice == o.subtotal + o.deliveryPrice
    && |o.items| == |req.items|
    && forall i :: 0 <= i < |req.items| ==>
         var line := req.items[i];
         line.productId in products &&
         o.items[i] == OrderItem(line.productId, LineKey(line), line.quantity, products[line.productId].price)
  }

  /** A store of orders: numbered by position, each well formed against the variants. */
  predicate StoreWellFormed(orders: seq<Order>, variants: set<SizeKey>) {
    IdsAreIndices(orders) && forall i :: 0 <= i < |orders| ==> OrderWellFormed(orders[i], variants)
  }

  /** Appending a well-formed order under the next id keeps the store well formed. */
  lemma StoreAppend(orders: seq<Order>, variants: set<SizeKey>, o: Order)
    requires StoreWellFormed(orders, variants)
    requires o.id == |orders| + 1 && OrderWellFormed(o, variants)
    ensures StoreWellFormed(orders + [o], variants)
  {
    var s := orders + [o];
    forall i | 0 <= i < |s| ensures s[i].id == i + 1 && OrderWellFormed(s[i], variants) {
      if i < |orders| {
        assert s[i] == orders[i];
      }
    }
  }

  /** Changing the status of a stored order keeps the store well formed. */
  lemma StoreSetStatus(orders: seq<Order>, variants: set<SizeKey>, k: nat, status: Status)
    requires StoreWellFormed(orders, variants) && k < |orders|
    ensures StoreWellFormed(orders[k := orders[k].(status := status)], variants)
  {
    var s := orders[k := orders[k].(status := status)];
    forall i | 0 <= i < |s| ensures s[i].id == i + 1 && OrderWellFormed(s[i], variants) {
      assert OrderWellFormed(orders[i], variants);
    }
  }

  /**
   * An order placed as requested, from a validated request with at least one
   * line whose named variants all exist, is well formed.
   */
  lemma PlacedOrderWellFormed(o: Order, id: OrderId, user: UserId, req: OrderRequest,
                              products: map<ProductId, Product>, variants: set<SizeKey>)
    requires PlacedAsRequested(o, id, user, req, products) && RequestWellFormed(req) && req.items != []
    requires forall i :: 0 <= i < |req.items| && LineKey(req.items[i]).Some? ==> LineKey(req.items[i]).value in variants
    ensures OrderWellFormed(o, variants)
  {
    forall i | 0 <= i < |o.items|
      ensures o.items[i].quantity >= 1 && (o.items[i].size.Some? ==> o.items[i].size.value in variants)
    {
      assert o.items[i].size == LineKey(req.items[i]);
    }
  }

  predicate NonNegative(stock: map<SizeKey, int>) {
    forall k :: k in stock ==> stock[k] >= 0
  }

  class Shop {
    var products: map<ProductId, Product>
    var stock: map<SizeKey, int>
    var orders: seq<Order>

    /** Every stored order is numbered by its position and is well formed against the catalog. */
    ghost predicate Valid()
      reads this
    {
      StoreWellFormed(orders, stock.Keys)
    }

    constructor (products: map<ProductId, Product>, stock: map<SizeKey, int>)
      ensures Valid()
      ensures this.products == products && this.stock == stock && orders == []
    {
      this.products := products;
      this.stock := stock;
      orders := [];
    }

    /**
     * Places an order. The request is validated, and an empty list of lines is
     * rejected, before anything else happens; the rest is PlaceOrder. Any
     * failure leaves everything as it was.
     */
    method CreateOrder(user: UserId, input: OrderInput) returns (r: Result<Order, CreateError>)
      requires Valid()
      modifies this
      ensures Valid()
      ensures products == old(products)
      ensures r.Err? ==> stock == old(stock) && orders == old(orders)
      ensures Validate(input).Err? ==> r == Err(ValidationFailed(Validate(input).error))
      ensures Validate(input).Ok? && Validate(input).value.items == [] ==> r == Err(EmptyItems)
      ensures Validate(input).Ok? && Validate(input).value.items != [] ==>
                var res := ReserveRunning(old(products), old(stock), Validate(input).value.items);
                (r.Ok? <==> res.Ok?) && (r.Err? ==> r == Err(res.error))
      ensures r.Ok? ==>
                && Validate(input).Ok?
                && PlacedAsRequested(r.value, |old(orders)| + 1, user, Validate(input).value, old(products))
                && orders == old(orders) + [r.value]
                && stock == ReserveRunning(old(products), old(stock), Validate(input).value.items).value
      ensures r.Ok? ==> forall k :: k in stock ==> stock[k] == old(stock)[k] - LinesQuantityOn(Validate(input).value.items, k)
      ensures NonNegative(old(stock)) ==> NonNegative(stock)
    {
      var validated := Validate(input);
      if validated.Err? {
        return Err(ValidationFailed(validated.error));
      }
      if validated.value.items == [] {
        return Err(EmptyItems);
      }
      r := PlaceOrder(user, validated.value);
    }

    /**
     * The all-or-nothing part of placing an order. Every line is checked in
     * input order against the catalog and against the stock the earlier lines
     * have left; only if all pass is the order stored, with one item per line,
     * and the stock reduced by what the lines take.
     */
    method PlaceOrder(user: UserId, req: OrderRequest) returns (r: Result<Order, CreateError>)
      requires Valid() && RequestWellFormed(req) && req.items != []
      modifies this
      ensures Valid()
      ensures products == old(products)
      ensures r.Err? ==> stock == old(stock) && orders == old(orders)
      ensures var res := ReserveRunning(old(products), old(stock), req.items);
              (r.Ok? <==> res.Ok?) && (r.Err? ==> r == Err(res.error))
      ensures r.Ok? ==>
                && PlacedAsRequested(r.value, |old(orders)| + 1, user, req, old(products))
                && orders == old(orders) + [r.value]
                && stock == ReserveRunning(old(products), old(stock), req.items).value
      ensures r.Ok? ==> forall k :: k in stock ==> stock[k] == old(stock)[k] - LinesQuantityOn(req.items, k)
      ensures NonNegative(old(stock)) ==> NonNegative(stock)
    {
      var lines := req.items;
      var reserved := ReserveLines(lines);
      if reserved.Err? {
        return Err(reserved.error);
      }
      var (items, subtotal, left) := reserved.value;
      var id := |orders| + 1;
      var order := NewOrder(id, user, req.delivery, req.payment, subtotal, req.deliveryPrice, req.note, items);
      PlacedOrderWellFormed(order, id, user, req, products, stock.Keys);
      StoreAppend(orders, stock.Keys, order);
      forall k | k in stock
        ensures left[k] == stock[k] - LinesQuantityOn(lines, k)
        ensures stock[k] >= 0 ==> left[k] >= 0
      {
        ReserveRunningExact(products, stock, lines, k);
      }
      orders := orders + [order];
      stock := left;
      r := Ok(order);
    }

    /**
     * Checks each line in input order against the catalog and against a
     * running copy of the stock, from which each sized line takes its
     * quantity; builds the items and accumulates the subtotal. It stops at the
     * first line that fails, with that line's error, and changes nothing.
     */
    method ReserveLines(lines: seq<ItemLine>) returns (r: Result<(seq<OrderItem>, Cents, map<SizeKey, int>), CreateError>)
      ensures r.Ok? <==> ReserveRunning(products, stock, lines).Ok?
      ensures r.Err? ==> r.error == ReserveRunning(products, stock, lines).error
      ensures r.Ok? ==> r.value.2 == ReserveRunning(products, stock, lines).value
      ensures r.Ok? ==> |r.value.0| == |lines| && r.value.1 == SumSubtotals(r.value.0)
      ensures r.Ok? ==> forall t :: 0 <= t < |lines| ==>
                lines[t].productId in products &&
                r.value.0[t] == OrderItem(lines[t].productId, LineKey(lines[t]), lines[t].quantity, products[lines[t].productId].price)
      ensures r.Ok? ==> forall t :: 0 <= t < |lines| && LineKey(lines[t]).Some? ==> LineKey(lines[t]).value in stock
    {
      var left := stock;
      var items: seq<OrderItem> := [];
      var subtotal := 0;
      var i := 0;
      while i < |lines|
        invariant 0 <= i <= |lines| && |items| == i
        invariant ReserveRunning(products, stock, lines[..i]) == Ok(left)
        invariant subtotal == SumSubtotals(items)
        invariant forall t :: 0 <= t < i ==>
                    lines[t].productId in products &&
                    items[t] == OrderItem(lines[t].productId, LineKey(lines[t]), lines[t].quantity, products[lines[t].productId].price)
        invariant forall t :: 0 <= t < i && LineKey(lines[t]).Some? ==> LineKey(lines[t]).value in stock
      {
        var checked := CheckLine(lines[i], left);
        ReserveRunningStep(products, stock, lines, i, left);
        if checked.Err? {
          r := Err(checked.error);
          ReserveRunningStopsAtFailure(products, stock, lines, i + 1);
          return;
        }
        var p := checked.value;
        left := Take(left, p);
        var item := ItemOf(p);
        subtotal := subtotal + item.Subtotal();
        assert (items + [item])[..i] == items;
        items := items + [item];
        i := i + 1;
      }
      assert lines[..i] == lines;
      r := Ok((items, subtotal, left));
    }

    /**
     * Checks one line against the catalog and the given stock counts: the
     * product must exist, and a named size variant must exist for it and hold
     * at least the requested quantity.
     */
    method CheckLine(line: ItemLine, left: map<SizeKey, int>) returns (r: Result<PendingItem, CreateError>)
      ensures r == ResolveLine(products, left, line)
    {
      if line.productId !in products {
        return Err(ProductNotFound(line.productId));
      }
      var product := products[line.productId];
      if line.size.Some? && line.size.value != "" {
        var key := SizeKey(line.productId, line.size.value);
        if key !in left {
          return Err(SizeNotFound(product.name, line.size.value));
        }
        if left[key] < line.quantity {
          return Err(InsufficientStock(product.name, line.size.value, left[key]));
        }
        return Ok(PendingItem(line.productId, Some(key), left[key], line.quantity, product.price));
      }
      return Ok(PendingItem(line.productId, None, 0, line.quantity, product.price));
    }

    /**
     * Cancels one of the user's orders. An order that is missing or owned by
     * someone else is not found; one past confirmation cannot be cancelled;
     * otherwise each item naming a size variant gives its quantity back to that
     * variant's current count, and the order becomes cancelled. No other order
     * changes.
     */
    method CancelOrder(user: UserId, id: OrderId) returns (r: Result<Order, CancelError>)
      requires Valid()
      modifies this
      ensures Valid()
      ensures products == old(products)
      ensures r.Err? ==> stock == old(stock) && orders == old(orders)
      ensures OrderDetail(old(orders), user, id).None? ==> r == Err(NotFound)
      ensures OrderDetail(old(orders), user, id).Some? ==>
                var o := OrderDetail(old(orders), user, id).value;
                && (!Cancellable(o.status) ==> r == Err(NotCancellable(o.status)))
                && (Cancellable(o.status) ==>
                      && r == Ok(o.(status := Cancelled))
                      && orders == old(orders)[id - 1 := r.value]
                      && stock == Restock(old(stock), o.items))
      ensures NonNegative(old(stock)) ==> NonNegative(stock)
    {
      if !(1 <= id <= |orders|) || orders[id - 1].owner != user {
        return Err(NotFound);
      }
      var order := orders[id - 1];
      if !Cancellable(order.status) {
        return Err(NotCancellable(order.status));
      }

      var i := 0;
      while i < |order.items|
        invariant 0 <= i <= |order.items|
        invariant stock == Restock(old(stock), order.items[..i])
        invariant products == old(products) && orders == old(orders)
      {
        var item := order.items[i];
        assert order.items[..i + 1][..i] == order.items[..i];
        // A size variant no longer in the catalog reads as no size at all.
        if item.size.Some? && item.size.value in stock {
          stock := stock[item.size.value := stock[item.size.value] + item.quantity];
        }
        i := i + 1;
      }
      assert order.items[..i] == order.items;

      StoreSetStatus(orders, stock.Keys, id - 1, Cancelled);
      order := order.(status := Cancelled);
      orders := orders[id - 1 := order];
      r := Ok(order);

      forall k | k in stock && NonNegative(old(stock)) ensures stock[k] >= 0 {
        RestockAddsQuantities(old(stock), old(orders)[id - 1].items, k);
        QuantityOnNonNegative(old(orders)[id - 1].items, k);
      }
    }
  }

  /**
   * A product priced 10.00 with size "M" in stock 5: a validated request for 3
   * pairs with a delivery price of 2.00 gives a subtotal of 30.00, a total of
   * 32.00 and leaves 2; cancelling the order right away brings the stock back to 5.
   */
  method PlaceAndCancelScenario()
  {
    var m := SizeKey(7, "M");
    var shop := new Shop(map[7 := Product("P", 1000)], map[m := 5]);
    var delivery := Delivery("Ali", "+998901234567", "Street 1", "Tashkent", "", "");
    var req := OrderRequest(delivery, Cash, 200, "", [ItemLine(7, Some("M"), 3)]);
    assert ResolveLine(shop.products, shop.stock, req.items[0]).Ok?;
    assert req.items[..0] == [];
    var created := shop.PlaceOrder(42, req);
    assert created.Ok?;
    var order := created.value;
    assert order.items == [OrderItem(7, Some(m), 3, 1000)];
    assert order.items[..0] == [];
    assert SumSubtotals(order.items) == 3000;
    assert order.subtotal == 3000;
    assert order.deliveryPrice == 200;
    assert order.subtotal == 3000 && order.totalPrice == 3200;
    assert shop.stock[m] == 2;

    var cancelled := shop.CancelOrder(42, order.id);
    assert cancelled.Ok? && cancelled.value.status == Cancelled;
    assert shop.stock[m] == 5;
  }
}
