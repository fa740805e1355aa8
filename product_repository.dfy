/** product_repository.py: the product table, the SKU index and the stock
    ledger. The only mutator of stock is update_stock, which either commits
    stock + delta or refuses without any change. */
module ProductRepository {
  import opened Common
  import opened Tables
  import opened Models

  type Rows = map<string, Product>

  // ---------------------------------------------------------------------
  // Field updates (update_product_record)

  /** One `product[key] = value` of update_product_record, typed by key. */
  datatype ProductUpdate =
    | SetId(id: string)
    | SetName(name: string)
    | SetSku(sku: string)
    | SetPrice(price: int)
    | SetStock(stock: int)
    | SetActive(active: bool)
    | SetExpectedStock(expected: int)

  datatype FieldName = IdField | NameField | SkuField | PriceField | StockField | ActiveField | ExpectedField

  function FieldOf(u: ProductUpdate): FieldName
  {
    match u
    case SetId(_) => IdField
    case SetName(_) => NameField
    case SetSku(_) => SkuField
    case SetPrice(_) => PriceField
    case SetStock(_) => StockField
    case SetActive(_) => ActiveField
    case SetExpectedStock(_) => ExpectedField
  }

  /** p and q agree on field f. */
  predicate Agrees(p: Product, q: Product, f: FieldName)
  {
    match f
    case IdField => p.id == q.id
    case NameField => p.name == q.name
    case SkuField => p.sku == q.sku
    case PriceField => p.price == q.price
    case StockField => p.stock == q.stock
    case ActiveField => p.active == q.active
    case ExpectedField => p.expectedStock == q.expectedStock
  }

  /** p holds the value that u assigns (an id update is never applied). */
  predicate Holds(p: Product, u: ProductUpdate)
  {
    match u
    case SetId(_) => true
    case SetName(n) => p.name == n
    case SetSku(s) => p.sku == Some(s)
    case SetPrice(x) => p.price == x
    case SetStock(x) => p.stock == x
    case SetActive(b) => p.active == Some(b)
    case SetExpectedStock(x) => p.expectedStock == Some(x)
  }

  /** One iteration of the update loop: `if key != "id": product[key] = value`. */
  function ApplyUpdate(p: Product, u: ProductUpdate): (r: Product)
    ensures r.id == p.id
    ensures Holds(r, u)
    ensures forall f :: f != FieldOf(u) ==> Agrees(p, r, f)
  {
    match u
    case SetId(_) => p
    case SetName(n) => p.(name := n)
    case SetSku(s) => p.(sku := Some(s))
    case SetPrice(x) => p.(price := x)
    case SetStock(x) => p.(stock := x)
    case SetActive(b) => p.(active := Some(b))
    case SetExpectedStock(x) => p.(expectedStock := Some(x))
  }

  /** All updates, in order. */
  function ApplyUpdates(p: Product, us: seq<ProductUpdate>): Product
  {
    if us == [] then p else ApplyUpdate(ApplyUpdates(p, us[..|us| - 1]), us[|us| - 1])
  }

  /** A dict names each key once. */
  predicate DistinctFields(us: seq<ProductUpdate>)
  {
    forall i, j :: 0 <= i < j < |us| ==> FieldOf(us[i]) != FieldOf(us[j])
  }

  /** The id never changes, a field no update names keeps its value,
      and every named field holds its new value. */
  lemma {:induction false} ApplyUpdatesEffect(p: Product, us: seq<ProductUpdate>)
    ensures ApplyUpdates(p, us).id == p.id
    ensures forall f :: (forall i :: 0 <= i < |us| ==> FieldOf(us[i]) != f) ==> Agrees(p, ApplyUpdates(p, us), f)
    ensures DistinctFields(us) ==> forall i :: 0 <= i < |us| ==> Holds(ApplyUpdates(p, us), us[i])
  {
    if us != [] {
      var init := us[..|us| - 1];
      var last := us[|us| - 1];
      ApplyUpdatesEffect(p, init);
      var q := ApplyUpdates(p, init);
      var r := ApplyUpdate(q, last);
      forall f | forall i :: 0 <= i < |us| ==> FieldOf(us[i]) != f
        ensures Agrees(p, r, f)
      {
        assert forall i :: 0 <= i < |init| ==> init[i] == us[i];
        assert Agrees(p, q, f);
        assert FieldOf(last) != f;
        AgreesTrans(p, q, r, f);
      }
      if DistinctFields(us) {
        forall i | 0 <= i < |us| ensures Holds(r, us[i]) {
          if i < |init| {
            assert init[i] == us[i];
            assert DistinctFields(init);
            assert FieldOf(us[i]) != FieldOf(last);
            HoldsKept(q, r, us[i]);
          }
        }
      }
    }
  }

  lemma AgreesTrans(p: Product, q: Product, r: Product, f: FieldName)
    requires Agrees(p, q, f) && Agrees(q, r, f)
    ensures Agrees(p, r, f)
  {
  }

  lemma HoldsKept(q: Product, r: Product, u: ProductUpdate)
    requires Holds(q, u) && Agrees(q, r, FieldOf(u))
    ensures Holds(r, u)
  {
  }

  // ---------------------------------------------------------------------
  // The stock ledger

  /** update_stock's effect on the table: stock + delta when the product
      exists and the result is not negative; otherwise nothing changes. */
  function Adjusted(rows: Rows, id: string, delta: int): (r: Rows)
    ensures r.Keys == rows.Keys
    ensures forall k :: k in rows && k != id ==> r[k] == rows[k]
    ensures id in rows && rows[id].stock + delta >= 0 ==> r[id] == rows[id].(stock := rows[id].stock + delta)
    ensures id in rows && rows[id].stock + delta < 0 ==> r == rows
  {
    if id in rows && rows[id].stock + delta >= 0 then rows[id := rows[id].(stock := rows[id].stock + delta)]
    else rows
  }

  /** update_stock's return value. */
  function StockResult(rows: Rows, id: string, delta: int): Option<int>
  {
    if id in rows && rows[id].stock + delta >= 0 then Some(rows[id].stock + delta) else None
  }

  ghost predicate StocksNonNegative(rows: Rows)
  {
    forall k :: k in rows ==> rows[k].stock >= 0
  }

  /** One call update_stock(productId, delta). */
  datatype StockChange = StockChange(productId: string, delta: int)

  /** A sequence of update_stock calls, in order. */
  function ApplyAll(rows: Rows, cs: seq<StockChange>): (r: Rows)
    ensures r.Keys == rows.Keys
  {
    if cs == [] then rows
    else
      var c := cs[|cs| - 1];
      Adjusted(ApplyAll(rows, cs[..|cs| - 1]), c.productId, c.delta)
  }

  /** update_stock never makes a stock negative: from non-negative stocks,
      any sequence of calls keeps every stock non-negative. */
  lemma {:induction false} ApplyAllNonNegative(rows: Rows, cs: seq<StockChange>)
    requires StocksNonNegative(rows)
    ensures StocksNonNegative(ApplyAll(rows, cs))
  {
    if cs != [] {
      ApplyAllNonNegative(rows, cs[..|cs| - 1]);
    }
  }

  /** The call c would commit on rows. */
  predicate Commits(rows: Rows, c: StockChange)
  {
    c.productId in rows && rows[c.productId].stock + c.delta >= 0
  }

  /** Every call of the sequence committed. */
  predicate AllCommit(rows: Rows, cs: seq<StockChange>)
  {
    cs == [] || (AllCommit(rows, cs[..|cs| - 1]) && Commits(ApplyAll(rows, cs[..|cs| - 1]), cs[|cs| - 1]))
  }

  /** The sum of the deltas applied to product k. */
  function Net(cs: seq<StockChange>, k: string): int
  {
    if cs == [] then 0
    else Net(cs[..|cs| - 1], k) + (if cs[|cs| - 1].productId == k then cs[|cs| - 1].delta else 0)
  }

  /** Every stock moved by its net delta, nothing else changed. */
  function Shift(rows: Rows, cs: seq<StockChange>): Rows
  {
    map k | k in rows :: rows[k].(stock := rows[k].stock + Net(cs, k))
  }

  /** When every call commits, the calls add up: each stock moves by the
      sum of its deltas. */
  lemma {:induction false} CommittedShift(rows: Rows, cs: seq<StockChange>)
    requires AllCommit(rows, cs)
    ensures ApplyAll(rows, cs) == Shift(rows, cs)
  {
    if cs == [] {
      assert Shift(rows, cs) == rows;
    } else {
      var init := cs[..|cs| - 1];
      var c := cs[|cs| - 1];
      CommittedShift(rows, init);
      var r := ApplyAll(rows, cs);
      var s := Shift(rows, cs);
      assert r.Keys == s.Keys;
      forall k | k in r ensures r[k] == s[k] {
      }
    }
  }

  /** A product some committed call touched ends with non-negative stock. */
  lemma {:induction false} TouchedNonNegative(rows: Rows, cs: seq<StockChange>, i: nat)
    requires AllCommit(rows, cs) && i < |cs|
    ensures cs[i].productId in rows && ApplyAll(rows, cs)[cs[i].productId].stock >= 0
  {
    var init := cs[..|cs| - 1];
    var c := cs[|cs| - 1];
    if i == |cs| - 1 {
    } else {
      TouchedNonNegative(rows, init, i);
      assert init[i] == cs[i];
    }
  }

  /** Positive deltas on existing products with non-negative stocks all commit. */
  lemma {:induction false} PositiveCommit(rows: Rows, cs: seq<StockChange>)
    requires forall i :: 0 <= i < |cs| ==> cs[i].delta > 0 && cs[i].productId in rows && rows[cs[i].productId].stock >= 0
    ensures AllCommit(rows, cs)
  {
    if cs != [] {
      var init := cs[..|cs| - 1];
      var c := cs[|cs| - 1];
      assert forall i :: 0 <= i < |init| ==> init[i] == cs[i];
      PositiveCommit(rows, init);
      CommittedShift(rows, init);
      NetNonNegative(init, c.productId);
    }
  }

  lemma {:induction false} NetNonNegative(cs: seq<StockChange>, k: string)
    requires forall i :: 0 <= i < |cs| ==> cs[i].delta > 0
    ensures Net(cs, k) >= 0
  {
    if cs != [] {
      NetNonNegative(cs[..|cs| - 1], k);
    }
  }

  /** Undoing every committed call restores the table: the negated calls
      (applied after the originals, in the original order) all commit and
      bring every product back. Requires the originals to be decrements. */
  lemma UndoRestores(rows: Rows, cs: seq<StockChange>, undo: seq<StockChange>)
    requires AllCommit(rows, cs)
    requires |undo| == |cs|
    requires forall i :: 0 <= i < |cs| ==> cs[i].delta < 0 && undo[i] == StockChange(cs[i].productId, -cs[i].delta)
    ensures AllCommit(ApplyAll(rows, cs), undo)
    ensures ApplyAll(ApplyAll(rows, cs), undo) == rows
  {
    var mid := ApplyAll(rows, cs);
    forall i | 0 <= i < |undo|
      ensures undo[i].delta > 0 && undo[i].productId in mid && mid[undo[i].productId].stock >= 0
    {
      TouchedNonNegative(rows, cs, i);
    }
    PositiveCommit(mid, undo);
    CommittedShift(mid, undo);
    CommittedShift(rows, cs);
    var back := ApplyAll(mid, undo);
    forall k | k in rows ensures back[k] == rows[k] {
      NetUndo(cs, undo, k);
    }
  }

  lemma {:induction false} NetUndo(cs: seq<StockChange>, undo: seq<StockChange>, k: string)
    requires |undo| == |cs|
    requires forall i :: 0 <= i < |cs| ==> undo[i] == StockChange(cs[i].productId, -cs[i].delta)
    ensures Net(cs, k) + Net(undo, k) == 0
  {
    if cs != [] {
      var n := |cs| - 1;
      assert forall i :: 0 <= i < n ==> undo[..n][i] == undo[i];
      NetUndo(cs[..n], undo[..n], k);
    }
  }

  // ---------------------------------------------------------------------
  // The repository

  predicate IsActive(p: Product)
  {
    GetOr(p.active, true)
  }

  /** filter_active_products: a missing `active` flag counts as active. */
  function FilterActiveProducts(products: seq<Product>): (r: seq<Product>)
    ensures |r| <= |products|
    ensures forall p :: p in r <==> p in products && IsActive(p)
  {
    forall p ensures p in Filter(products, IsActive) <==> p in products && IsActive(p) {
      FilterMember(products, IsActive, p);
    }
    Filter(products, IsActive)
  }

  /** is_low_stock */
  predicate IsLowStock(p: Product, threshold: int)
  {
    p.stock <= threshold
  }

  /** The filter of get_low_stock. */
  function LowAt(threshold: int): Product -> bool
  {
    (p: Product) => IsLowStock(p, threshold)
  }

  /** The loop of get_low_stock over a list of products: those whose stock
      is at most the threshold, in order. */
  method SelectLowStock(ps: seq<Product>, threshold: int) returns (r: seq<Product>)
    ensures r == Filter(ps, LowAt(threshold))
  {
    r := [];
    var i := 0;
    while i < |ps|
      invariant 0 <= i <= |ps|
      invariant r == Filter(ps[..i], LowAt(threshold))
    {
      FilterSnoc(ps[..i], ps[i], LowAt(threshold));
      assert ps[..i + 1] == ps[..i] + [ps[i]];
      if IsLowStock(ps[i], threshold) {
        r := r + [ps[i]];
      }
      i := i + 1;
    }
    assert ps[..i] == ps;
  }

  class ProductStore {
    /** _products_db, in insertion order */
    var products: Table<Product>
    /** _sku_index: sku -> product id */
    var skuIndex: map<string, string>

    /** The table is well formed and each product is stored under its own id. */
    ghost predicate Valid()
      reads this
    {
      products.Valid() && forall k :: k in products.rows ==> products.rows[k].id == k
    }

    constructor()
      ensures Valid() && products == Empty() && skuIndex == map[]
    {
      products := Empty();
      skuIndex := map[];
    }

    /** find_product_by_id */
    function FindById(id: string): (r: Option<Product>)
      reads this
      ensures r.Some? <==> id in products.rows
      ensures r.Some? ==> r.value == products.rows[id]
    {
      products.Get(id)
    }

    /** find_product_by_sku: an unindexed sku, or one indexed to "" or to
        a deleted product, yields None. */
    function FindBySku(sku: string): (r: Option<Product>)
      reads this
      ensures r.Some? <==> sku in skuIndex && skuIndex[sku] != "" && skuIndex[sku] in products.rows
      ensures r.Some? ==> r.value == products.rows[skuIndex[sku]]
    {
      if sku !in skuIndex || skuIndex[sku] == "" then None else FindById(skuIndex[sku])
    }

    /** create_product_record */
    method Create(product: Product)
      requires Valid()
      modifies this
      ensures Valid()
      ensures products == old(products).Put(product.id, product)
      ensures skuIndex == if product.sku.Some? then old(skuIndex)[product.sku.value := product.id] else old(skuIndex)
      ensures FindById(product.id) == Some(product)
      ensures product.sku.Some? && product.id != "" ==> FindBySku(product.sku.value) == Some(product)
    {
      products := products.Put(product.id, product);
      if product.sku.Some? {
        skuIndex := skuIndex[product.sku.value := product.id];
      }
    }

    /** update_product_record: assigns every given field except `id`, one
        at a time, to the stored product. The sku index is not touched. */
    method Update(id: string, updates: seq<ProductUpdate>) returns (r: Option<Product>)
      requires Valid()
      modifies this
      ensures Valid()
      ensures id !in old(products.rows) ==> r.None? && products == old(products)
      ensures id in old(products.rows) ==>
                var p := ApplyUpdates(old(products.rows)[id], updates);
                r == Some(p) && products == old(products).Put(id, p)
      ensures skuIndex == old(skuIndex)
    {
      var found := FindById(id);
      if found.None? {
        return None;
      }
      var p := found.value;
      var i := 0;
      while i < |updates|
        invariant 0 <= i <= |updates|
        invariant p == ApplyUpdates(found.value, updates[..i])
        invariant p.id == id && skuIndex == old(skuIndex)
        invariant products == if i == 0 then old(products) else old(products).Put(id, p)
      {
        assert updates[..i + 1][..i] == updates[..i];
        if !updates[i].SetId? {
          p := ApplyUpdate(p, updates[i]);
          products := products.Put(id, p);
        }
        i := i + 1;
      }
      assert updates[..i] == updates;
      if i == 0 {
        assert old(products).Put(id, p) == old(products);
      }
      r := Some(p);
    }

    /** delete_product_record: drops the product and pops its sku from the
        index, whichever product that sku points to. */
    method Delete(id: string) returns (r: bool)
      requires Valid()
      modifies this
      ensures Valid()
      ensures r <==> id in old(products.rows)
      ensures !r ==> products == old(products) && skuIndex == old(skuIndex)
      ensures r ==> products == old(products).Remove(id) && id !in products.rows
      ensures r ==> skuIndex == if old(products.rows)[id].sku.Some? then old(skuIndex) - {old(products.rows)[id].sku.value} else old(skuIndex)
    {
      var found := FindById(id);
      if found.None? {
        return false;
      }
      if found.value.sku.Some? {
        skuIndex := skuIndex - {found.value.sku.value};
      }
      products := products.Remove(id);
      r := true;
    }

    /** The products list_products slices: the table's values in key
        order, only the active ones when activeOnly. */
    function Listable(activeOnly: bool): (r: seq<Product>)
      reads this
      requires Valid()
      ensures |r| <= |products.keys|
    {
      if activeOnly then FilterActiveProducts(products.Values()) else products.Values()
    }

    /** list_products: the first `limit` listable products, with Python's
        meaning of a negative limit (all but the last -limit). */
    function ListProducts(activeOnly: bool, limit: int): (r: seq<Product>)
      reads this
      requires Valid()
      ensures |r| <= |Listable(activeOnly)| && r == Listable(activeOnly)[..|r|]
      ensures 0 <= limit ==> |r| == if limit <= |Listable(activeOnly)| then limit else |Listable(activeOnly)|
      ensures limit < 0 ==> |r| == if |Listable(activeOnly)| + limit >= 0 then |Listable(activeOnly)| + limit else 0
      ensures forall p :: p in r ==> p in products.Values() && (activeOnly ==> IsActive(p))
      ensures limit >= |products.keys| ==>
                forall p :: p in products.Values() && (activeOnly ==> IsActive(p)) ==> p in r
    {
      var ps := products.Values();
      Take(if activeOnly then FilterActiveProducts(ps) else ps, limit)
    }

    /** update_stock */
    method UpdateStock(id: string, delta: int) returns (r: Option<int>)
      requires Valid()
      modifies this
      ensures Valid()
      ensures r == StockResult(old(products.rows), id, delta)
      ensures products.rows == Adjusted(old(products.rows), id, delta)
      ensures products.keys == old(products.keys) && skuIndex == old(skuIndex)
      ensures r.Some? ==> r.value >= 0
    {
      var found := FindById(id);
      if found.None? {
        return None;
      }
      var newStock := found.value.stock + delta;
      if newStock < 0 {
        return None;
      }
      products := products.Put(id, found.value.(stock := newStock));
      r := Some(newStock);
    }

    /** get_low_stock: the active products (among the first 9999) whose
        stock is at most the threshold, in table order. */
    method GetLowStock(threshold: int) returns (r: seq<Product>)
      requires Valid()
      ensures r == Filter(ListProducts(true, 9999), LowAt(threshold))
      ensures forall p :: p in r <==> p in ListProducts(true, 9999) && IsLowStock(p, threshold)
    {
      var ps := ListProducts(true, 9999);
      r := SelectLowStock(ps, threshold);
      forall p ensures p in r <==> p in ps && IsLowStock(p, threshold) {
        FilterMember(ps, LowAt(threshold), p);
      }
    }
  }
}
