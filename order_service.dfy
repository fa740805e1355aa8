/** order_service.py: the order lifecycle over the user, product and order
    stores. Creation validates and then reserves stock item by item;
    cancellation and refund release it again; submission moves an order
    from "created" to "pending". Order ids are parameters (generate_id is
    random). */
module OrderService {
  import opened Common
  import opened Json
  import opened Validators
  import opened Formatters
  import opened Models
  import opened ProductRepository
  import opened OrderRepository
  import opened UserRepository

  // ---------------------------------------------------------------------
  // Item validation

  /** f"{item.get('product_id')}" */
  function ProductIdText(item: ItemInput): string
  {
    if item.productId.Some? then item.productId.value else "None"
  }

  /** The reason the first failing check of validate_order_items gives for
      one item (quantity, then price, then product), None if it passes. The
      defaults are those of the item.get calls: quantity 0, price 0,
      product id "". */
  function ItemFailure(rows: Rows, item: ItemInput): (r: Option<string>)
    ensures r.None? <==>
              ValidateQuantity(GetOr(item.quantity, 0)) && ValidateAmount(GetOr(item.price, 0)) &&
              GetOr(item.productId, "") in rows
  {
    if !ValidateQuantity(GetOr(item.quantity, 0)) then Some("Invalid quantity")
    else if !ValidateAmount(GetOr(item.price, 0)) then Some("Invalid price")
    else if GetOr(item.productId, "") !in rows then Some("Product " + ProductIdText(item) + " not found")
    else None
  }

  function FailsOn(rows: Rows): ItemInput -> bool
  {
    (item: ItemInput) => ItemFailure(rows, item).Some?
  }

  /** The verdict of validate_order_items: None for a valid list, otherwise
      the reason; an empty list is refused, and otherwise the first failing
      item's reason is reported. */
  function ItemsVerdict(rows: Rows, items: seq<ItemInput>): (r: Option<string>)
    ensures items == [] ==> r == Some("No items")
    ensures r.None? <==> items != [] && forall i :: 0 <= i < |items| ==> ItemFailure(rows, items[i]).None?
    ensures items != [] && r.Some? ==>
              exists i :: 0 <= i < |items| && r == ItemFailure(rows, items[i]) &&
                          forall j :: 0 <= j < i ==> ItemFailure(rows, items[j]).None?
  {
    if items == [] then Some("No items")
    else
      var i := FirstIndex(items, FailsOn(rows));
      if i < |items| then ItemFailure(rows, items[i]) else None
  }

  /** check_product_exists */
  function CheckProductExists(products: ProductStore, productId: string): (r: bool)
    reads products
    ensures r <==> products.FindById(productId).Some?
  {
    productId in products.products.rows
  }

  /** validate_order_items: the early-return loop over the items. */
  method ValidateOrderItems(products: ProductStore, items: seq<ItemInput>) returns (r: Option<string>)
    ensures r == ItemsVerdict(products.products.rows, items)
  {
    if items == [] {
      return Some("No items");
    }
    ghost var rows := products.products.rows;
    var i := 0;
    while i < |items|
      invariant 0 <= i <= |items|
      invariant i <= FirstIndex(items, FailsOn(rows))
    {
      var item := items[i];
      if !ValidateQuantity(GetOr(item.quantity, 0)) {
        return Some("Invalid quantity");
      }
      if !ValidateAmount(GetOr(item.price, 0)) {
        return Some("Invalid price");
      }
      if !CheckProductExists(products, GetOr(item.productId, "")) {
        return Some("Product " + ProductIdText(item) + " not found");
      }
      i := i + 1;
    }
    return None;
  }

  /** Every item of an accepted list names a stored product and carries an
      explicit quantity in 1..10000 and a valid price, so the order built
      from it reserves a positive quantity of an existing product. */
  lemma ValidatedItems(rows: Rows, items: seq<ItemInput>)
    requires ItemsVerdict(rows, items).None?
    ensures forall i :: 0 <= i < |items| ==>
              var it := CreateOrderItem(items[i]);
              && items[i].quantity.Some? && it.quantity == items[i].quantity.value
              && 0 < it.quantity <= MaxQuantity && ValidateAmount(it.price)
              && it.productId in rows
  {
    forall i | 0 <= i < |items|
      ensures items[i].quantity.Some? && items[i].price.Some?
    {
      assert ItemFailure(rows, items[i]).None?;
    }
  }

  // ---------------------------------------------------------------------
  // Stock reservation and release

  /** The update_stock calls of reserve_order_stock: minus each quantity. */
  function Reservations(items: seq<OrderItem>): (cs: seq<StockChange>)
    ensures |cs| == |items|
    ensures forall i :: 0 <= i < |items| ==> cs[i] == StockChange(items[i].productId, -items[i].quantity)
  {
    seq(|items|, i requires 0 <= i < |items| => StockChange(items[i].productId, -items[i].quantity))
  }

  /** The update_stock calls of release_order_stock: plus each quantity. */
  function Releases(items: seq<OrderItem>): (cs: seq<StockChange>)
    ensures |cs| == |items|
    ensures forall i :: 0 <= i < |items| ==> cs[i] == StockChange(items[i].productId, items[i].quantity)
  {
    seq(|items|, i requires 0 <= i < |items| => StockChange(items[i].productId, items[i].quantity))
  }

  /** The loop shared by reserve_order_stock and release_order_stock: one
      update_stock call per change, each result ignored. */
  method RunStockChanges(products: ProductStore, cs: seq<StockChange>)
    requires products.Valid()
    modifies products
    ensures products.Valid()
    ensures products.products.rows == ApplyAll(old(products.products.rows), cs)
    ensures products.products.keys == old(products.products.keys) && products.skuIndex == old(products.skuIndex)
  {
    var i := 0;
    while i < |cs|
      invariant 0 <= i <= |cs|
      invariant products.Valid()
      invariant products.products.rows == ApplyAll(old(products.products.rows), cs[..i])
      invariant products.products.keys == old(products.products.keys) && products.skuIndex == old(products.skuIndex)
    {
      var ignored := products.UpdateStock(cs[i].productId, cs[i].delta);
      assert cs[..i + 1][..i] == cs[..i];
      i := i + 1;
    }
    assert cs[..i] == cs;
  }

  /** reserve_order_stock: decrements each item's product by its quantity;
      a decrement that would go negative is skipped and nothing is rolled
      back. */
  method ReserveOrderStock(products: ProductStore, order: Order)
    requires products.Valid()
    modifies products
    ensures products.Valid()
    ensures products.products.rows == ApplyAll(old(products.products.rows), Reservations(order.items))
    ensures products.products.keys == old(products.products.keys) && products.skuIndex == old(products.skuIndex)
  {
    RunStockChanges(products, Reservations(order.items));
  }

  /** release_order_stock: adds each item's quantity back. */
  method ReleaseOrderStock(products: ProductStore, order: Order)
    requires products.Valid()
    modifies products
    ensures products.Valid()
    ensures products.products.rows == ApplyAll(old(products.products.rows), Releases(order.items))
    ensures products.products.keys == old(products.products.keys) && products.skuIndex == old(products.skuIndex)
  {
    RunStockChanges(products, Releases(order.items));
  }

  /** No rollback: with 5 in stock, an order for 3 and then 3 more of the
      same product reserves the first 3, skips the second decrement, and
      leaves 2. */
  lemma NoRollbackExample(p: Product)
    requires p.stock == 5
    ensures var rows := map[p.id := p];
            var items := [OrderItem(p.id, 3, 100, 300), OrderItem(p.id, 3, 100, 300)];
            && !AllCommit(rows, Reservations(items))
            && ApplyAll(rows, Reservations(items)) == map[p.id := p.(stock := 2)]
  {
    var rows := map[p.id := p];
    var items := [OrderItem(p.id, 3, 100, 300), OrderItem(p.id, 3, 100, 300)];
    var cs := Reservations(items);
    assert cs[..1][..0] == [] && cs[..1] == [cs[0]];
    assert ApplyAll(rows, cs[..1]) == map[p.id := p.(stock := 2)];
    assert !Commits(ApplyAll(rows, cs[..1]), cs[1]);
  }

  /** A refused decrement is skipped: the stock table after it is the one
      before it, so the decrements before it stand. */
  lemma RefusedSkipped(rows: Rows, cs: seq<StockChange>, c: StockChange)
    requires !Commits(ApplyAll(rows, cs), c)
    ensures ApplyAll(rows, cs + [c]) == ApplyAll(rows, cs)
  {
    assert (cs + [c])[..|cs|] == cs;
  }

  /** Releasing an order's items undoes its reservation when every
      decrement committed and every quantity is positive (as validation
      guarantees). */
  lemma ReleaseUndoesReservation(rows: Rows, items: seq<OrderItem>)
    requires forall i :: 0 <= i < |items| ==> items[i].quantity > 0
    requires AllCommit(rows, Reservations(items))
    ensures AllCommit(ApplyAll(rows, Reservations(items)), Releases(items))
    ensures ApplyAll(ApplyAll(rows, Reservations(items)), Releases(items)) == rows
  {
    UndoRestores(rows, Reservations(items), Releases(items));
  }

  // ---------------------------------------------------------------------
  // create_order

  /** `if not user`: no record, or an empty one. */
  predicate UserFound(user: Option<Record>)
  {
    user.Some? && user.value != map[]
  }

  /** `user.get("active")` is truthy; an absent flag is falsy here. */
  predicate ActiveFlagSet(user: Record)
  {
    "active" in user && Truthy(user["active"])
  }

  /** create_order: refuses, in this order, an unknown user, an inactive
      user, an unsupported currency and invalid items, changing nothing;
      otherwise stores the new order and then tries every decrement,
      succeeding whatever the decrements do. */
  method CreateOrder(users: UserStore, products: ProductStore, orders: OrderStore,
                     userId: string, items: seq<ItemInput>, currency: string, orderId: string)
    returns (r: Response<Order>)
    requires products.Valid() && orders.Valid()
    modifies products, orders
    ensures products.Valid() && orders.Valid()
    ensures var user := users.FindById(userId);
            && (!UserFound(user) ==> r == Fail("USER_NOT_FOUND", "User does not exist"))
            && (UserFound(user) && !ActiveFlagSet(user.value) ==> r == Fail("USER_INACTIVE", "User account is inactive"))
            && (UserFound(user) && ActiveFlagSet(user.value) && !ValidateCurrency(currency) ==>
                  r == Fail("BAD_CURRENCY", "Unsupported currency"))
            && (UserFound(user) && ActiveFlagSet(user.value) && ValidateCurrency(currency) &&
                ItemsVerdict(old(products.products.rows), items).Some? ==>
                  r == Fail("INVALID_ITEMS", ItemsVerdict(old(products.products.rows), items).value))
            && (r.Ok? <==> UserFound(user) && ActiveFlagSet(user.value) && ValidateCurrency(currency) &&
                           ItemsVerdict(old(products.products.rows), items).None?)
    ensures r.Error? ==>
              && products.products == old(products.products) && products.skuIndex == old(products.skuIndex)
              && orders.orders == old(orders.orders) && orders.userIndex == old(orders.userIndex)
    ensures r.Ok? ==>
              && r.data == CreateOrderModel(orderId, userId, items, currency)
              && orders.orders == old(orders.orders)[orderId := r.data]
              && orders.userIndex == old(orders.userIndex)[userId := old(orders.IndexOf(userId)) + [orderId]]
              && products.products.rows == ApplyAll(old(products.products.rows), Reservations(r.data.items))
              && products.products.keys == old(products.products.keys) && products.skuIndex == old(products.skuIndex)
  {
    var user := users.FindById(userId);
    if !UserFound(user) {
      return Fail("USER_NOT_FOUND", "User does not exist");
    }
    if !ActiveFlagSet(user.value) {
      return Fail("USER_INACTIVE", "User account is inactive");
    }
    if !ValidateCurrency(currency) {
      return Fail("BAD_CURRENCY", "Unsupported currency");
    }
    var validation := ValidateOrderItems(products, items);
    if validation.Some? {
      return Fail("INVALID_ITEMS", validation.value);
    }
    var order := CreateOrderModel(orderId, userId, items, currency);
    orders.CreateRecord(order);
    ReserveOrderStock(products, order);
    r := Ok(order);
  }

  // ---------------------------------------------------------------------
  // cancel_order and process_refund

  /** cancel_order: NOT_FOUND, FORBIDDEN (another user's order) and
      INVALID_STATE, tested in this order, change nothing; a cancellable
      order ("created", "pending" or "processing") becomes "cancelled" and
      its quantities are added back. */
  method CancelOrder(products: ProductStore, orders: OrderStore, orderId: string, userId: string)
    returns (r: Response<Order>)
    requires products.Valid() && orders.Valid()
    modifies products, orders
    ensures products.Valid() && orders.Valid()
    ensures orders.userIndex == old(orders.userIndex)
    ensures orderId !in old(orders.orders) ==> r == Fail("NOT_FOUND", "Order not found")
    ensures orderId in old(orders.orders) && old(orders.orders)[orderId].userId != userId ==>
              r == Fail("FORBIDDEN", "Not your order")
    ensures orderId in old(orders.orders) && old(orders.orders)[orderId].userId == userId &&
            !IsValidTransition(old(orders.orders)[orderId].status, Cancelled) ==>
              r == Fail("INVALID_STATE", "Cannot cancel in current state")
    ensures r.Ok? <==> orderId in old(orders.orders) && old(orders.orders)[orderId].userId == userId &&
                       IsValidTransition(old(orders.orders)[orderId].status, Cancelled)
    ensures r.Error? ==>
              && products.products == old(products.products) && products.skuIndex == old(products.skuIndex)
              && orders.orders == old(orders.orders)
    ensures r.Ok? ==>
              var o := old(orders.orders)[orderId];
              && orderId in old(orders.orders) && o.userId == userId
              && (o.status == Created || o.status == Pending || o.status == Processing)
              && r.data == o.(status := Cancelled)
              && orders.orders == old(orders.orders)[orderId := r.data]
              && products.products.rows == ApplyAll(old(products.products.rows), Releases(o.items))
              && products.products.keys == old(products.products.keys) && products.skuIndex == old(products.skuIndex)
  {
    var order := orders.Find(orderId);
    if order.None? {
      return Fail("NOT_FOUND", "Order not found");
    }
    if order.value.userId != userId {
      return Fail("FORBIDDEN", "Not your order");
    }
    var updated := orders.UpdateStatus(orderId, Cancelled);
    if updated.None? {
      return Fail("INVALID_STATE", "Cannot cancel in current state");
    }
    ReleaseOrderStock(products, order.value);
    r := Ok(updated.value);
  }

  /** What process_refund reports. */
  datatype Refund = Refund(refunded: int, reason: string)

  /** process_refund: only a delivered order can be refunded; it becomes
      "returned", its quantities are added back, and the refund is the sum
      of its subtotals. */
  method ProcessRefund(products: ProductStore, orders: OrderStore, orderId: string, reason: string)
    returns (r: Response<Refund>)
    requires products.Valid() && orders.Valid()
    modifies products, orders
    ensures products.Valid() && orders.Valid()
    ensures orders.userIndex == old(orders.userIndex)
    ensures orderId !in old(orders.orders) ==> r == Fail("NOT_FOUND", "Order not found")
    ensures orderId in old(orders.orders) && old(orders.orders)[orderId].status != Delivered ==>
              r == Fail("INVALID_STATE", "Cannot refund in current state")
    ensures r.Ok? <==> orderId in old(orders.orders) && old(orders.orders)[orderId].status == Delivered
    ensures r.Error? ==>
              && products.products == old(products.products) && products.skuIndex == old(products.skuIndex)
              && orders.orders == old(orders.orders)
    ensures r.Ok? ==>
              var o := old(orders.orders)[orderId];
              && orderId in old(orders.orders) && o.status == Delivered
              && orders.orders == old(orders.orders)[orderId := o.(status := Returned)]
              && products.products.rows == ApplyAll(old(products.products.rows), Releases(o.items))
              && r.data == Refund(OrderTotal(o.items), reason)
              && products.products.keys == old(products.products.keys) && products.skuIndex == old(products.skuIndex)
  {
    var order := orders.Find(orderId);
    if order.None? {
      return Fail("NOT_FOUND", "Order not found");
    }
    var updated := orders.UpdateStatus(orderId, Returned);
    if updated.None? {
      return Fail("INVALID_STATE", "Cannot refund in current state");
    }
    ReleaseOrderStock(products, order.value);
    var amount := orders.CalculateOrderTotal(orderId);
    r := Ok(Refund(amount, reason));
  }

  // ---------------------------------------------------------------------
  // validate_order and submit_order

  /** validate_order: None when the order exists and has items, otherwise
      the reason. */
  function ValidateOrder(orders: OrderStore, orderId: string): (r: Option<string>)
    reads orders
    ensures r.None? <==> orderId in orders.orders && orders.orders[orderId].items != []
    ensures orderId !in orders.orders ==> r == Some("Order not found")
    ensures orderId in orders.orders && orders.orders[orderId].items == [] ==> r == Some("No items")
  {
    if orders.Find(orderId).None? then Some("Order not found")
    else if orders.GetOrderItems(orderId) == [] then Some("No items")
    else None
  }

  /** submit_order: succeeds exactly for an existing order with items in
      status "created", which becomes "pending"; otherwise nothing changes. */
  method SubmitOrder(orders: OrderStore, orderId: string) returns (r: Response<string>)
    requires orders.Valid()
    modifies orders
    ensures orders.Valid()
    ensures orders.userIndex == old(orders.userIndex)
    ensures old(ValidateOrder(orders, orderId)).Some? ==> r == Fail("INVALID", old(ValidateOrder(orders, orderId)).value)
    ensures old(ValidateOrder(orders, orderId)).None? && old(orders.orders)[orderId].status != Created ==>
              r == Fail("STATE_ERROR", "Cannot submit")
    ensures r.Ok? <==> orderId in old(orders.orders) && old(orders.orders)[orderId].items != [] &&
                       old(orders.orders)[orderId].status == Created
    ensures r.Ok? ==> r.data == orderId && orders.orders == old(orders.orders)[orderId := old(orders.orders)[orderId].(status := Pending)]
    ensures r.Error? ==> orders.orders == old(orders.orders)
  {
    var validation := ValidateOrder(orders, orderId);
    if validation.Some? {
      return Fail("INVALID", validation.value);
    }
    var updated := orders.UpdateStatus(orderId, Pending);
    if updated.None? {
      return Fail("STATE_ERROR", "Cannot submit");
    }
    r := Ok(orderId);
  }

  // ---------------------------------------------------------------------
  // Discount codes

  /** lookup_discount: the percentage of a known code, ignoring case. */
  function LookupDiscount(code: string): (r: Option<int>)
    ensures r.Some? <==> UpperStr(code) == "SAVE10" || UpperStr(code) == "SAVE20"
    ensures UpperStr(code) == "SAVE10" ==> r == Some(10)
    ensures UpperStr(code) == "SAVE20" ==> r == Some(20)
  {
    var codes := map["SAVE10" := 10, "SAVE20" := 20];
    var key := UpperStr(code);
    if key in codes then Some(codes[key]) else None
  }

  /** Every spelling of a code finds what its upper-case and its
      lower-case spellings find. */
  lemma DiscountIgnoresCase(code: string)
    ensures LookupDiscount(code) == LookupDiscount(UpperStr(code)) == LookupDiscount(LowerStr(code))
  {
    UpperOfCased(code);
  }

  /** Examples: lower-case and mixed-case spellings find the same
      percentage, and an unknown code finds none. */
  lemma DiscountCaseInsensitive()
    ensures LookupDiscount("save10") == LookupDiscount("Save10") == Some(10)
    ensures LookupDiscount("save20") == Some(20)
    ensures LookupDiscount("save30") == None
  {
    assert UpperStr("save10") == "SAVE10";
    assert UpperStr("Save10") == "SAVE10";
    assert UpperStr("save20") == "SAVE20";
    assert UpperStr("save30")[4] == '3';
  }
}
