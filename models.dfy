/** models.py: the shapes of the stored records and their constructors.
    Orders, products, notifications and payments are typed records; user
    records and the generic record helpers work on dicts (Json records).
    Fresh ids are parameters (generate_id is random). */
module Models {
  import opened Common
  import opened Json
  import opened Utils

  function GetOr<T>(o: Option<T>, default: T): T
  {
    if o.Some? then o.value else default
  }

  // ---------------------------------------------------------------------
  // Orders

  /** The status strings "created" .. "returned". */
  datatype OrderStatus = Created | Pending | Processing | Shipped | Delivered | Cancelled | Returned

  /** An item as a caller supplies it; every key may be absent. */
  datatype ItemInput = ItemInput(productId: Option<string>, quantity: Option<int>, price: Option<int>)

  /** Prices and subtotals are integer cents. */
  datatype OrderItem = OrderItem(productId: string, quantity: int, price: int, subtotal: int)

  datatype Order = Order(
    id: string, userId: string, items: seq<OrderItem>,
    total: int, currency: string, status: OrderStatus)

  /** create_order_item: defaults quantity 1, price 0, product_id "". */
  function CreateOrderItem(item: ItemInput): (r: OrderItem)
    ensures r.productId == GetOr(item.productId, "")
    ensures r.quantity == GetOr(item.quantity, 1) && r.price == GetOr(item.price, 0)
    ensures r.subtotal == r.quantity * r.price
  {
    var qty := GetOr(item.quantity, 1);
    var price := GetOr(item.price, 0);
    OrderItem(GetOr(item.productId, ""), qty, price, qty * price)
  }

  /** sum(i["subtotal"] for i in items) */
  function OrderTotal(items: seq<OrderItem>): int
  {
    if items == [] then 0 else items[0].subtotal + OrderTotal(items[1..])
  }

  /** Σ quantity · price, the amount an order is worth. */
  function LineValue(items: seq<OrderItem>): int
  {
    if items == [] then 0 else items[0].quantity * items[0].price + LineValue(items[1..])
  }

  function CreateOrderItems(items: seq<ItemInput>): (r: seq<OrderItem>)
    ensures |r| == |items|
    ensures forall i :: 0 <= i < |items| ==> r[i] == CreateOrderItem(items[i])
  {
    if items == [] then [] else [CreateOrderItem(items[0])] + CreateOrderItems(items[1..])
  }

  /** create_order_model: one item per input item, in order, status
      "created", total the sum of the subtotals. */
  function CreateOrderModel(id: string, userId: string, items: seq<ItemInput>, currency: string): (r: Order)
    ensures r.id == id && r.userId == userId && r.currency == currency
    ensures r.status == Created
    ensures |r.items| == |items|
    ensures forall i :: 0 <= i < |items| ==> r.items[i] == CreateOrderItem(items[i])
    ensures r.total == OrderTotal(r.items) == LineValue(r.items)
  {
    var orderItems := CreateOrderItems(items);
    CreatedTotal(orderItems);
    Order(id, userId, orderItems, OrderTotal(orderItems), currency, Created)
  }

  /** For items whose subtotal is quantity · price, the total is Σ quantity · price. */
  lemma {:induction false} CreatedTotal(items: seq<OrderItem>)
    requires forall i :: 0 <= i < |items| ==> items[i].subtotal == items[i].quantity * items[i].price
    ensures OrderTotal(items) == LineValue(items)
  {
    if items != [] {
      CreatedTotal(items[1..]);
    }
  }

  /** Totals add up over concatenation. */
  lemma {:induction false} OrderTotalAppend(a: seq<OrderItem>, b: seq<OrderItem>)
    ensures OrderTotal(a + b) == OrderTotal(a) + OrderTotal(b)
  {
    if a == [] {
      assert a + b == b;
    } else {
      assert (a + b)[1..] == a[1..] + b;
      OrderTotalAppend(a[1..], b);
    }
  }

  /** Non-negative quantities and prices give a non-negative total. */
  lemma {:induction false} OrderTotalNonNegative(items: seq<OrderItem>)
    requires forall i :: 0 <= i < |items| ==> items[i].subtotal >= 0
    ensures OrderTotal(items) >= 0
  {
    if items != [] {
      OrderTotalNonNegative(items[1..]);
    }
  }

  // ---------------------------------------------------------------------
  // Products, notifications, payments

  /** A product record. `sku`, `active` and `expected_stock` may be absent
      from a stored record; price is in cents. */
  datatype Product = Product(
    id: string, name: string, sku: Option<string>, price: int, stock: int,
    active: Option<bool>, expectedStock: Option<int>)

  /** create_product_model; `stock` None stands for the default argument. */
  function CreateProductModel(id: string, name: string, sku: string, price: int, stock: Option<int>): (r: Product)
    ensures r.id == id && r.sku == Some(sku) && r.price == price
    ensures r.name == Sanitized(name) && '<' !in r.name && '>' !in r.name
    ensures r.stock == GetOr(stock, 0)
    ensures r.active == Some(true) && r.expectedStock == None
  {
    Product(id, Sanitized(name), Some(sku), price, GetOr(stock, 0), Some(true), None)
  }

  /** A notification record; `to` and `message` are added by the senders. */
  datatype Notification = Notification(
    id: string, userId: string, channel: string, subject: string, body: string,
    read: bool, to: Option<string>, message: Option<string>)

  /** create_notification_model: sanitised subject and body, unread. */
  function CreateNotificationModel(id: string, userId: string, channel: string, subject: string, body: string): (r: Notification)
    ensures r.id == id && r.userId == userId && r.channel == channel
    ensures r.subject == Sanitized(subject) && r.body == Sanitized(body)
    ensures !r.read && r.to.None? && r.message.None?
  {
    Notification(id, userId, channel, Sanitized(subject), Sanitized(body), false, None, None)
  }

  datatype PaymentStatus = PaymentPending | Completed | Failed | Refunded

  /** A payment record; amount in cents. */
  datatype Payment = Payment(id: string, orderId: string, amount: int, payMethod: string, status: PaymentStatus)

  /** create_payment_model: a new payment is pending. */
  function CreatePaymentModel(id: string, orderId: string, amount: int, payMethod: string): (r: Payment)
    ensures r.id == id && r.orderId == orderId && r.amount == amount && r.payMethod == payMethod
    ensures r.status == PaymentPending
  {
    Payment(id, orderId, amount, payMethod, PaymentPending)
  }

  // ---------------------------------------------------------------------
  // Dict records

  /** create_user_model: a new user is active, with a sanitised name. */
  function CreateUserModel(id: string, name: string, email: string, role: string): (r: Record)
    ensures r.Keys == {"id", "name", "email", "role", "active"}
    ensures r["id"] == JStr(id) && r["email"] == JStr(email) && r["role"] == JStr(role)
    ensures r["name"] == JStr(Sanitized(name)) && r["active"] == JBool(true)
  {
    map["id" := JStr(id), "name" := JStr(Sanitized(name)), "email" := JStr(email),
        "role" := JStr(role), "active" := JBool(true)]
  }

  /** strip_none_values: drops exactly the keys whose value is None. */
  function StripNoneValues(d: Record): (r: Record)
    ensures forall k :: k in r <==> k in d && d[k] != JNull
    ensures forall k :: k in r ==> r[k] == d[k]
  {
    map k | k in d && d[k] != JNull :: d[k]
  }

  /** validate_model: every required field present and not None. */
  function ValidateModel(model: Record, requiredFields: seq<string>): (r: bool)
    ensures r <==> forall i :: 0 <= i < |requiredFields| ==>
                     requiredFields[i] in model && model[requiredFields[i]] != JNull
  {
    if requiredFields == [] then true
    else
      var field := requiredFields[0];
      if field !in model || model[field] == JNull then false
      else
        assert forall i :: 1 <= i < |requiredFields| ==> requiredFields[i] == requiredFields[1..][i - 1];
        ValidateModel(model, requiredFields[1..])
  }

  /** clone_model: a copy with a fresh id, then the overrides applied last
      (an empty or absent overrides dict changes nothing). Records are
      values, so the source record is left as it was. */
  function CloneModel(model: Record, newId: string, overrides: Option<Record>): (r: Record)
    ensures r.Keys == model.Keys + {"id"} + (if overrides.Some? then overrides.value.Keys else {})
    ensures overrides.Some? ==> forall k :: k in overrides.value ==> r[k] == overrides.value[k]
    ensures "id" !in GetOr(overrides, map[]) ==> r["id"] == JStr(newId)
    ensures forall k :: k in model && k != "id" && k !in GetOr(overrides, map[]) ==> r[k] == model[k]
  {
    var copy := model["id" := JStr(newId)];
    if overrides.Some? && overrides.value != map[] then copy + overrides.value else copy
  }
}
