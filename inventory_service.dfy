/** inventory_service.py: stock checks and adjustments over the product
    store, the low-stock reorder alert queued for the notification service,
    the external stock sync and the expected-stock audit. Notification and
    queue-entry ids are parameters (generate_id is random). */
module InventoryService {
  import opened Common
  import opened Json
  import opened Sorting
  import opened Formatters
  import opened Models
  import opened ProductRepository
  import opened NotificationService

  // ---------------------------------------------------------------------
  // Stock levels and availability

  /** classify_stock_level */
  function ClassifyStockLevel(stock: int): (r: string)
    ensures stock <= 0 ==> r == "out_of_stock"
    ensures 0 < stock <= 10 ==> r == "low"
    ensures 10 < stock <= 50 ==> r == "medium"
    ensures 50 < stock ==> r == "high"
  {
    if stock <= 0 then "out_of_stock"
    else if stock <= 10 then "low"
    else if stock <= 50 then "medium"
    else "high"
  }

  function LevelRank(level: string): int
  {
    if level == "out_of_stock" then 0 else if level == "low" then 1 else if level == "medium" then 2 else 3
  }

  /** More stock never gives a lower level. */
  lemma ClassifyMonotone(a: int, b: int)
    requires a <= b
    ensures LevelRank(ClassifyStockLevel(a)) <= LevelRank(ClassifyStockLevel(b))
  {
  }

  datatype Availability = Availability(available: bool, requested: int, inStock: int)

  /** check_availability: NOT_FOUND for an unknown product; otherwise
      whether its stock covers the quantity. It reads the store only. */
  function CheckAvailability(products: ProductStore, productId: string, quantity: int): (r: Response<Availability>)
    reads products
    ensures productId !in products.products.rows ==> r == Fail("NOT_FOUND", "Product not found")
    ensures productId in products.products.rows ==>
              && r.Ok? && r.data.requested == quantity
              && r.data.inStock == products.products.rows[productId].stock
              && (r.data.available <==> products.products.rows[productId].stock >= quantity)
  {
    var product := products.FindById(productId);
    if product.None? then Fail("NOT_FOUND", "Product not found")
    else Ok(Availability(product.value.stock >= quantity, quantity, product.value.stock))
  }

  // ---------------------------------------------------------------------
  // Reorder alerts

  /** The notification trigger_reorder_alert builds for a product. */
  function ReorderAlert(notificationId: string, product: Product): (n: Notification)
    ensures n.userId == "system" && n.channel == "email" && !n.read
  {
    CreateNotificationModel(notificationId, "system", "email",
      "Low stock: " + product.name,
      "Product " + GetOr(product.sku, "") + " has only " + IntToString(product.stock) + " units left.")
  }

  /** The queue entry of that alert: priority 1. */
  function ReorderEntry(entryId: string, notificationId: string, product: Product): (e: QueueEntry)
    ensures e.priority == 1 && e.status == Queued
  {
    QueueEntry(entryId, ReorderAlert(notificationId, product), 1, Queued)
  }

  const ReorderThreshold := 10

  /** trigger_reorder_alert */
  method TriggerReorderAlert(center: NotificationCenter, product: Product, notificationId: string, entryId: string)
    requires center.Valid()
    modifies center
    ensures center.Valid()
    ensures center.notifications == old(center.notifications)
    ensures center.queue == SortBy(old(center.queue) + [ReorderEntry(entryId, notificationId, product)], Priority)
  {
    var entry := center.QueueNotification(ReorderAlert(notificationId, product), 1, entryId);
  }

  /** check_reorder_needed: queues one alert exactly when the product
      exists with at most 10 in stock. */
  method CheckReorderNeeded(products: ProductStore, center: NotificationCenter, productId: string,
                            notificationId: string, entryId: string) returns (r: bool)
    requires center.Valid()
    modifies center
    ensures center.Valid()
    ensures center.notifications == old(center.notifications)
    ensures r <==> productId in products.products.rows && products.products.rows[productId].stock <= ReorderThreshold
    ensures r ==>
              center.queue == SortBy(old(center.queue) + [ReorderEntry(entryId, notificationId, products.products.rows[productId])], Priority)
    ensures !r ==> center.queue == old(center.queue)
  {
    var product := products.FindById(productId);
    if product.None? {
      return false;
    }
    if product.value.stock <= ReorderThreshold {
      TriggerReorderAlert(center, product.value, notificationId, entryId);
      return true;
    }
    return false;
  }

  // ---------------------------------------------------------------------
  // Reserve, release, set

  datatype Reserved = Reserved(reserved: int, remaining: int)

  /** reserve_stock: OUT_OF_STOCK, with nothing changed, for a missing
      product or too little stock; otherwise takes the quantity and runs
      the reorder check. (The RESERVE_FAILED branch of the source cannot be
      reached: stock >= quantity means the decrement commits.) */
  method ReserveStock(products: ProductStore, center: NotificationCenter, productId: string, quantity: int,
                      notificationId: string, entryId: string) returns (r: Response<Reserved>)
    requires products.Valid() && center.Valid()
    modifies products, center
    ensures products.Valid() && center.Valid()
    ensures center.notifications == old(center.notifications)
    ensures products.products.keys == old(products.products.keys) && products.skuIndex == old(products.skuIndex)
    ensures r.Error? <==> productId !in old(products.products.rows) || old(products.products.rows)[productId].stock < quantity
    ensures r.Error? ==>
              && r == Fail("OUT_OF_STOCK", "Insufficient stock")
              && products.products == old(products.products) && center.queue == old(center.queue)
    ensures r.Ok? ==>
              var p := old(products.products.rows)[productId];
              var remaining := p.stock - quantity;
              && r.data == Reserved(quantity, remaining) && remaining >= 0
              && products.products.rows == old(products.products.rows)[productId := p.(stock := remaining)]
              && (remaining <= ReorderThreshold ==>
                    center.queue == SortBy(old(center.queue) + [ReorderEntry(entryId, notificationId, p.(stock := remaining))], Priority))
              && (remaining > ReorderThreshold ==> center.queue == old(center.queue))
  {
    var availability := CheckAvailability(products, productId, quantity);
    if !(availability.Ok? && availability.data.available) {
      return Fail("OUT_OF_STOCK", "Insufficient stock");
    }
    var newStock := products.UpdateStock(productId, -quantity);
    if newStock.None? {
      assert false;
    }
    var reordered := CheckReorderNeeded(products, center, productId, notificationId, entryId);
    r := Ok(Reserved(quantity, newStock.value));
  }

  datatype Released = Released(released: int, currentStock: int)

  /** release_stock: RELEASE_FAILED when update_stock refuses (unknown
      product, or a negative result), otherwise the new stock. */
  method ReleaseStock(products: ProductStore, productId: string, quantity: int) returns (r: Response<Released>)
    requires products.Valid()
    modifies products
    ensures products.Valid()
    ensures products.products.rows == Adjusted(old(products.products.rows), productId, quantity)
    ensures products.products.keys == old(products.products.keys) && products.skuIndex == old(products.skuIndex)
    ensures StockResult(old(products.products.rows), productId, quantity).None? ==>
              r == Fail("RELEASE_FAILED", "Could not release stock")
    ensures StockResult(old(products.products.rows), productId, quantity).Some? ==>
              r == Ok(Released(quantity, old(products.products.rows)[productId].stock + quantity))
  {
    var newStock := products.UpdateStock(productId, quantity);
    if newStock.None? {
      return Fail("RELEASE_FAILED", "Could not release stock");
    }
    r := Ok(Released(quantity, newStock.value));
  }

  datatype InventorySet = InventorySet(productId: string, newStock: int)

  /** update_inventory: sets the stock to new_quantity through a delta; a
      negative target is refused by update_stock and the stock stays, yet
      the response still reports new_quantity. */
  method UpdateInventory(products: ProductStore, productId: string, newQuantity: int) returns (r: Response<InventorySet>)
    requires products.Valid()
    modifies products
    ensures products.Valid()
    ensures products.products.keys == old(products.products.keys) && products.skuIndex == old(products.skuIndex)
    ensures productId !in old(products.products.rows) ==>
              r == Fail("NOT_FOUND", "Product not found") && products.products == old(products.products)
    ensures productId in old(products.products.rows) ==> r == Ok(InventorySet(productId, newQuantity))
    ensures productId in old(products.products.rows) && newQuantity >= 0 ==>
              products.products.rows == old(products.products.rows)[productId := old(products.products.rows)[productId].(stock := newQuantity)]
    ensures newQuantity < 0 ==> products.products == old(products.products)
  {
    var product := products.FindById(productId);
    if product.None? {
      return Fail("NOT_FOUND", "Product not found");
    }
    var diff := newQuantity - product.value.stock;
    var ignored := products.UpdateStock(productId, diff);
    r := Ok(InventorySet(productId, newQuantity));
  }

  // ---------------------------------------------------------------------
  // External sync

  /** An external stock record; both keys may be absent. */
  datatype SyncItem = SyncItem(sku: Option<string>, quantity: Option<int>)

  /** The product a sync item names: its sku must be given, not empty, and
      indexed to a stored product id. `ids` is the set of stored ids. */
  function SyncTarget(ids: set<string>, skuIndex: map<string, string>, item: SyncItem): (r: Option<string>)
    ensures r.Some? ==> r.value in ids
  {
    if item.sku.None? || item.sku.value == "" then None
    else if item.sku.value !in skuIndex || skuIndex[item.sku.value] == "" then None
    else if skuIndex[item.sku.value] !in ids then None
    else Some(skuIndex[item.sku.value])
  }

  function Syncs(ids: set<string>, skuIndex: map<string, string>): SyncItem -> bool
  {
    (item: SyncItem) => SyncTarget(ids, skuIndex, item).Some?
  }

  /** How many items of a list sync_single_product accepts. */
  function SyncedCount(ids: set<string>, skuIndex: map<string, string>, items: seq<SyncItem>): nat
  {
    if items == [] then 0
    else SyncedCount(ids, skuIndex, items[..|items| - 1]) + (if SyncTarget(ids, skuIndex, items[|items| - 1]).Some? then 1 else 0)
  }

  lemma {:induction false} SyncedCountIsFilter(ids: set<string>, skuIndex: map<string, string>, items: seq<SyncItem>)
    ensures SyncedCount(ids, skuIndex, items) == |Filter(items, Syncs(ids, skuIndex))|
  {
    if items != [] {
      var init := items[..|items| - 1];
      SyncedCountIsFilter(ids, skuIndex, init);
      assert items == init + [items[|items| - 1]];
      FilterSnoc(init, items[|items| - 1], Syncs(ids, skuIndex));
    }
  }

  /** The table after sync_single_product(item). */
  function SyncStep(rows: Rows, skuIndex: map<string, string>, item: SyncItem): (r: Rows)
    ensures r.Keys == rows.Keys
  {
    var target := SyncTarget(rows.Keys, skuIndex, item);
    if target.None? then rows
    else Adjusted(rows, target.value, GetOr(item.quantity, 0) - rows[target.value].stock)
  }

  /** A synced product ends with exactly the external quantity when that is
      not negative; a negative quantity leaves the table as it was. */
  lemma SyncSetsStock(rows: Rows, skuIndex: map<string, string>, item: SyncItem)
    requires SyncTarget(rows.Keys, skuIndex, item).Some?
    ensures var id := SyncTarget(rows.Keys, skuIndex, item).value;
            && (GetOr(item.quantity, 0) >= 0 ==> SyncStep(rows, skuIndex, item) == rows[id := rows[id].(stock := GetOr(item.quantity, 0))])
            && (GetOr(item.quantity, 0) < 0 ==> SyncStep(rows, skuIndex, item) == rows)
  {
  }

  /** sync_inventory over a list of items, in order. */
  function SyncAll(rows: Rows, skuIndex: map<string, string>, items: seq<SyncItem>): (r: Rows)
    ensures r.Keys == rows.Keys
  {
    if items == [] then rows
    else SyncStep(SyncAll(rows, skuIndex, items[..|items| - 1]), skuIndex, items[|items| - 1])
  }

  lemma SyncAllSnoc(rows: Rows, skuIndex: map<string, string>, items: seq<SyncItem>, item: SyncItem)
    ensures SyncAll(rows, skuIndex, items + [item]) == SyncStep(SyncAll(rows, skuIndex, items), skuIndex, item)
  {
    assert (items + [item])[..|items|] == items;
  }

  /** sync_single_product: False, with nothing changed, when the sku is
      missing, empty or does not lead to a product; otherwise sets the stock
      through update_stock and answers True, even when update_stock refuses
      a negative quantity. */
  method SyncSingleProduct(products: ProductStore, item: SyncItem) returns (r: bool)
    requires products.Valid()
    modifies products
    ensures products.Valid()
    ensures products.products.keys == old(products.products.keys) && products.skuIndex == old(products.skuIndex)
    ensures r <==> SyncTarget(old(products.products.rows).Keys, products.skuIndex, item).Some?
    ensures products.products.rows == SyncStep(old(products.products.rows), products.skuIndex, item)
  {
    if item.sku.None? || item.sku.value == "" {
      return false;
    }
    var product := products.FindBySku(item.sku.value);
    if product.None? {
      return false;
    }
    var newQty := GetOr(item.quantity, 0);
    var diff := newQty - product.value.stock;
    var ignored := products.UpdateStock(product.value.id, diff);
    r := true;
  }

  datatype SyncReport = SyncReport(synced: nat, errors: nat)

  /** sync_inventory: every item is counted once, as synced or as an
      error. */
  method SyncInventory(products: ProductStore, items: seq<SyncItem>) returns (r: SyncReport)
    requires products.Valid()
    modifies products
    ensures products.Valid()
    ensures products.products.keys == old(products.products.keys) && products.skuIndex == old(products.skuIndex)
    ensures r.synced + r.errors == |items|
    ensures r.synced == |Filter(items, Syncs(old(products.products.rows).Keys, products.skuIndex))|
    ensures products.products.rows == SyncAll(old(products.products.rows), products.skuIndex, items)
  {
    ghost var rows0 := products.products.rows;
    ghost var ids := rows0.Keys;
    ghost var keys0 := products.products.keys;
    ghost var idx := products.skuIndex;
    var synced: nat := 0;
    var errors: nat := 0;
    var i := 0;
    while i < |items|
      invariant 0 <= i <= |items|
      invariant products.Valid()
      invariant products.products.keys == keys0 && products.skuIndex == idx
      invariant products.products.rows == SyncAll(rows0, idx, items[..i])
      invariant synced == SyncedCount(ids, idx, items[..i]) && synced + errors == i
    {
      var done := items[..i];
      assert items[..i + 1] == done + [items[i]];
      SyncAllSnoc(rows0, idx, done, items[i]);
      var result := SyncSingleProduct(products, items[i]);
      if result {
        synced := synced + 1;
      } else {
        errors := errors + 1;
      }
      i := i + 1;
    }
    assert items[..i] == items;
    SyncedCountIsFilter(ids, idx, items);
    r := SyncReport(synced, errors);
  }

  // ---------------------------------------------------------------------
  // Audit

  /** product.get("expected_stock", product.get("stock", 0)) */
  function Expected(p: Product): int
  {
    GetOr(p.expectedStock, p.stock)
  }

  datatype Discrepancy = Discrepancy(productId: string, expected: int, actual: int, diff: int)

  function DiscrepancyOf(p: Product): Discrepancy
  {
    Discrepancy(p.id, Expected(p), p.stock, p.stock - Expected(p))
  }

  /** The discrepancies audit_inventory lists for ps, in order: one per
      product whose expected stock differs from its stock. */
  function Discrepancies(ps: seq<Product>): (r: seq<Discrepancy>)
    ensures |r| <= |ps|
  {
    if ps == [] then []
    else
      var init := ps[..|ps| - 1];
      var last := ps[|ps| - 1];
      Discrepancies(init) + (if Mismatched(last) then [DiscrepancyOf(last)] else [])
  }

  /** A product whose expected stock differs from its stock. */
  predicate Mismatched(p: Product)
  {
    Expected(p) != p.stock
  }

  /** Every discrepancy listed has diff = actual - expected, which is not
      zero, and comes from a mismatched product of the list. */
  lemma {:induction false} DiscrepanciesSound(ps: seq<Product>)
    ensures forall d :: d in Discrepancies(ps) ==> d.diff == d.actual - d.expected && d.diff != 0
    ensures forall d :: d in Discrepancies(ps) ==> exists p :: p in ps && d == DiscrepancyOf(p) && Mismatched(p)
  {
    if ps != [] {
      var init := ps[..|ps| - 1];
      var last := ps[|ps| - 1];
      DiscrepanciesSound(init);
      var rest := Discrepancies(init);
      assert Discrepancies(ps) == rest + (if Mismatched(last) then [DiscrepancyOf(last)] else []);
      forall d | d in Discrepancies(ps) ensures exists p :: p in ps && d == DiscrepancyOf(p) && Mismatched(p) {
        if d in rest {
          var p :| p in init && d == DiscrepancyOf(p) && Mismatched(p);
          assert p in ps;
        } else {
          assert d == DiscrepancyOf(last) && last in ps;
        }
      }
    }
  }

  /** Every mismatched product of the list is listed. */
  lemma {:induction false} DiscrepanciesComplete(ps: seq<Product>)
    ensures forall p :: p in ps && Mismatched(p) ==> DiscrepancyOf(p) in Discrepancies(ps)
  {
    if ps != [] {
      var init := ps[..|ps| - 1];
      var last := ps[|ps| - 1];
      DiscrepanciesComplete(init);
      assert ps == init + [last];
      assert Discrepancies(ps) == Discrepancies(init) + (if Mismatched(last) then [DiscrepancyOf(last)] else []);
      forall p | p in ps && Mismatched(p) && p != last ensures DiscrepancyOf(p) in Discrepancies(ps) {
        assert p in init;
      }
    }
  }

  datatype AuditReport = AuditReport(totalChecked: nat, discrepancies: nat, details: seq<Discrepancy>)

  /** audit_inventory: checks the first 9999 products in table order. */
  method AuditInventory(products: ProductStore) returns (r: AuditReport)
    requires products.Valid()
    ensures r.totalChecked == |products.ListProducts(false, 9999)|
    ensures r.details == Discrepancies(products.ListProducts(false, 9999))
    ensures r.discrepancies == |r.details|
  {
    var ps := products.ListProducts(false, 9999);
    var details: seq<Discrepancy> := [];
    var i := 0;
    while i < |ps|
      invariant 0 <= i <= |ps|
      invariant details == Discrepancies(ps[..i])
    {
      assert ps[..i + 1][..i] == ps[..i];
      var p := ps[i];
      var expected := Expected(p);
      var actual := p.stock;
      if expected != actual {
        details := details + [Discrepancy(p.id, expected, actual, actual - expected)];
      }
      i := i + 1;
    }
    assert ps[..i] == ps;
    r := AuditReport(|ps|, |details|, details);
  }
}
