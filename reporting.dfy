/** reporting.py: the report table (`_reports`) with create, get, list,
    publish, delete and aggregate, the status breakdown of a list of order
    records, and the counts of the inventory summary. Report ids are
    parameters (generate_id is random). */
module Reporting {
  import opened Common
  import opened Json
  import opened Tables
  import opened Counting
  import opened Utils
  import opened Formatters
  import opened Models
  import opened ProductRepository

  datatype ReportStatus = Draft | Published

  /** A report; `data` is the report's payload dict. */
  datatype Report = Report(id: string, title: string, reportType: string, data: Record, status: ReportStatus)

  function OfType(reportType: string): Report -> bool
  {
    (r: Report) => r.reportType == reportType
  }

  /** The body publish_report wraps in a success response: the report, or
      an error message for an unknown id. */
  datatype PublishBody = PublishedReport(report: Report) | PublishError(error: string)

  /** The body of aggregate_reports. `types` is list(set(...)), whose order
      Python leaves unspecified, so it is a set here. */
  datatype Aggregate = Aggregate(count: nat, types: set<string>, reports: seq<Report>)

  /** The reports that the ids resolve to, in id order; unknown ids are
      skipped. */
  function Resolved(rows: map<string, Report>, ids: seq<string>): (r: seq<Report>)
    ensures |r| <= |ids|
    ensures forall x :: x in r ==> exists id :: id in ids && id in rows && rows[id] == x
  {
    if ids == [] then []
    else
      var init := ids[..|ids| - 1];
      var last := ids[|ids| - 1];
      assert forall id :: id in init ==> id in ids;
      Resolved(rows, init) + (if last in rows then [rows[last]] else [])
  }

  function KnownIn(rows: map<string, Report>): string -> bool
  {
    (id: string) => id in rows
  }

  class ReportStore {
    /** _reports, in insertion order */
    var reports: Table<Report>

    ghost predicate Valid()
      reads this
    {
      reports.Valid() && forall k :: k in reports.rows ==> reports.rows[k].id == k
    }

    constructor()
      ensures Valid() && reports == Empty()
    {
      reports := Empty();
    }

    /** get_report */
    function GetReport(reportId: string): (r: Option<Report>)
      reads this
      ensures r.Some? <==> reportId in reports.rows
      ensures r.Some? ==> r.value == reports.rows[reportId]
    {
      reports.Get(reportId)
    }

    /** create_report: stores a draft with a sanitised title, which
        get_report then returns. */
    method CreateReport(title: string, reportType: string, data: Record, reportId: string) returns (report: Report)
      requires Valid()
      modifies this
      ensures Valid()
      ensures report == Report(reportId, Sanitized(title), reportType, data, Draft)
      ensures reports == old(reports).Put(reportId, report)
      ensures GetReport(reportId) == Some(report)
    {
      report := Report(reportId, Sanitized(title), reportType, data, Draft);
      reports := reports.Put(report.id, report);
    }

    /** generate_inventory_summary: stores the summary of the products as
        a draft "inventory" report through create_report. */
    method GenerateInventorySummary(products: seq<Product>, reportId: string) returns (report: Report)
      requires Valid()
      modifies this
      ensures Valid()
      ensures report == Report(reportId, Sanitized("Inventory Summary"), "inventory", SummaryData(products), Draft)
      ensures reports == old(reports).Put(reportId, report)
      ensures GetReport(reportId) == Some(report)
    {
      report := CreateReport("Inventory Summary", "inventory", SummaryData(products), reportId);
    }

    /** list_reports: with a non-empty type exactly the reports of that
        type, otherwise all, in table order. */
    function ListReports(reportType: Option<string>): (r: seq<Report>)
      reads this
      requires Valid()
      ensures reportType.Some? && reportType.value != "" ==>
                r == Filter(reports.Values(), OfType(reportType.value))
      ensures reportType.Some? && reportType.value != "" ==>
                forall x :: x in r <==> x in reports.Values() && x.reportType == reportType.value
      ensures !(reportType.Some? && reportType.value != "") ==> r == reports.Values()
    {
      var all := reports.Values();
      if reportType.Some? && reportType.value != "" then
        forall x ensures x in Filter(all, OfType(reportType.value)) <==> x in all && OfType(reportType.value)(x) {
          FilterMember(all, OfType(reportType.value), x);
        }
        Filter(all, OfType(reportType.value))
      else all
    }

    /** publish_report: a known report becomes published in place; an
        unknown id changes nothing. Both answers are success responses. */
    method PublishReport(reportId: string) returns (r: Response<PublishBody>)
      requires Valid()
      modifies this
      ensures Valid()
      ensures reportId !in old(reports.rows) ==>
                r == Ok(PublishError("Report not found")) && reports == old(reports)
      ensures reportId in old(reports.rows) ==>
                var published := old(reports.rows)[reportId].(status := Published);
                && r == Ok(PublishedReport(published))
                && reports == old(reports).Put(reportId, published)
                && reports.keys == old(reports.keys)
    {
      var report := GetReport(reportId);
      if report.None? {
        return Ok(PublishError("Report not found"));
      }
      var published := report.value.(status := Published);
      reports := reports.Put(reportId, published);
      r := Ok(PublishedReport(published));
    }

    /** delete_report: True exactly when the id existed; afterwards
        get_report finds nothing. */
    method DeleteReport(reportId: string) returns (r: bool)
      requires Valid()
      modifies this
      ensures Valid()
      ensures r <==> reportId in old(reports.rows)
      ensures reports == old(reports).Remove(reportId)
      ensures GetReport(reportId).None?
    {
      if reportId in reports.rows {
        reports := reports.Remove(reportId);
        return true;
      }
      return false;
    }

    /** aggregate_reports: the reports the ids resolve to, how many, and
        their types. */
    method AggregateReports(reportIds: seq<string>) returns (r: Response<Aggregate>)
      ensures r.Ok?
      ensures r.data.reports == Resolved(reports.rows, reportIds)
      ensures r.data.count == |r.data.reports| == |Filter(reportIds, KnownIn(reports.rows))|
      ensures forall t :: t in r.data.types <==> exists x :: x in r.data.reports && x.reportType == t
    {
      var found: seq<Report> := [];
      var i := 0;
      while i < |reportIds|
        invariant 0 <= i <= |reportIds|
        invariant found == Resolved(reports.rows, reportIds[..i])
        invariant |found| == |Filter(reportIds[..i], KnownIn(reports.rows))|
      {
        assert reportIds[..i + 1][..i] == reportIds[..i];
        assert reportIds[..i + 1] == reportIds[..i] + [reportIds[i]];
        FilterSnoc(reportIds[..i], reportIds[i], KnownIn(reports.rows));
        var report := GetReport(reportIds[i]);
        if report.Some? {
          found := found + [report.value];
        }
        i := i + 1;
      }
      assert reportIds[..i] == reportIds;
      var types := set x | x in found :: x.reportType;
      r := Ok(Aggregate(|found|, types, found));
    }
  }

  // ---------------------------------------------------------------------
  // Status breakdown

  /** order.get("status", "unknown") */
  function StatusOf(order: Record): Json
  {
    if "status" in order then order["status"] else JStr("unknown")
  }

  function Statuses(orders: seq<Record>): (r: seq<Json>)
    ensures |r| == |orders|
    ensures forall i :: 0 <= i < |orders| ==> r[i] == StatusOf(orders[i])
  {
    seq(|orders|, i requires 0 <= i < |orders| => StatusOf(orders[i]))
  }

  /** breakdown_by_status: one counter per status, in first-seen order;
      the counts add up to the number of orders. */
  method BreakdownByStatus(orders: seq<Record>) returns (r: seq<Bucket<Json>>)
    ensures r == TallyOf(Statuses(orders))
    ensures Total(r) == |orders|
    ensures forall k :: CountOf(r, k) == Count(Statuses(orders), k)
  {
    var statuses := Statuses(orders);
    r := [];
    var i := 0;
    while i < |orders|
      invariant 0 <= i <= |orders|
      invariant r == TallyOf(statuses[..i])
    {
      assert statuses[..i + 1][..i] == statuses[..i];
      r := Bump(r, StatusOf(orders[i]));
      i := i + 1;
    }
    assert statuses[..i] == statuses;
    TallyTotal(statuses);
    forall k ensures CountOf(r, k) == Count(statuses, k) {
      TallyCount(statuses, k);
    }
  }

  predicate NoStatus(order: Record)
  {
    "status" !in order
  }

  /** Every order without a status is counted under "unknown". */
  lemma {:induction false} MissingStatusIsUnknown(orders: seq<Record>)
    ensures Count(Statuses(orders), JStr("unknown")) >= |Filter(orders, NoStatus)|
  {
    if orders != [] {
      MissingStatusIsUnknown(orders[1..]);
      assert Statuses(orders)[1..] == Statuses(orders[1..]);
    }
  }

  // ---------------------------------------------------------------------
  // Inventory summary

  /** The counts of generate_inventory_summary; the value is in cents. */
  datatype InventoryCounts = InventoryCounts(totalProducts: nat, totalStock: int, totalValue: int, lowStockCount: nat)

  /** The summary's low-stock test: stock below 10. */
  predicate SummaryLow(p: Product)
  {
    p.stock < 10
  }

  function StockSum(ps: seq<Product>): int
  {
    if ps == [] then 0 else ps[0].stock + StockSum(ps[1..])
  }

  function ValueSum(ps: seq<Product>): int
  {
    if ps == [] then 0 else ps[0].price * ps[0].stock + ValueSum(ps[1..])
  }

  /** generate_inventory_summary, without the currency and percentage
      formatting: the number of products, their stock and value sums, and
      the number of those below 10. */
  function InventorySummary(products: seq<Product>): (r: InventoryCounts)
    ensures r.totalProducts == |products|
    ensures r.totalStock == StockSum(products) && r.totalValue == ValueSum(products)
    ensures r.lowStockCount == |Filter(products, SummaryLow)| <= r.totalProducts
  {
    InventoryCounts(|products|, StockSum(products), ValueSum(products), |Filter(products, SummaryLow)|)
  }

  /** The summary's data dict; total_value and low_stock_pct are
      formatted floats and are not part of it. */
  function SummaryData(products: seq<Product>): (r: Record)
    ensures r.Keys == {"total_products", "total_stock", "low_stock_count"}
    ensures r["total_products"] == JInt(|products|)
    ensures r["total_stock"] == JInt(StockSum(products))
    ensures r["low_stock_count"] == JInt(InventorySummary(products).lowStockCount)
  {
    var c := InventorySummary(products);
    map["total_products" := JInt(c.totalProducts), "total_stock" := JInt(c.totalStock),
        "low_stock_count" := JInt(c.lowStockCount)]
  }

  /** The products the low count counts are exactly those with stock
      below 10. */
  lemma SummaryLowExactly(products: seq<Product>, p: Product)
    ensures p in Filter(products, SummaryLow) <==> p in products && p.stock < 10
  {
    FilterMember(products, SummaryLow, p);
  }

  /** The summary of one product. */
  lemma SummaryOfOne(p: Product)
    ensures InventorySummary([p]) == InventoryCounts(1, p.stock, p.price * p.stock, if p.stock < 10 then 1 else 0)
  {
    assert [p][1..] == [];
    assert Filter([p], SummaryLow) == (if SummaryLow(p) then [p] else []) + Filter([], SummaryLow);
    assert StockSum([p]) == p.stock + StockSum([]);
    assert ValueSum([p]) == p.price * p.stock + ValueSum([]);
  }

  /** The summary of two lists concatenated adds up their summaries, field
      by field. */
  lemma {:induction false} SummaryOfAppend(a: seq<Product>, b: seq<Product>)
    ensures var s := InventorySummary(a + b);
            var sa := InventorySummary(a);
            var sb := InventorySummary(b);
            s.totalProducts == sa.totalProducts + sb.totalProducts &&
            s.totalStock == sa.totalStock + sb.totalStock &&
            s.totalValue == sa.totalValue + sb.totalValue &&
            s.lowStockCount == sa.lowStockCount + sb.lowStockCount
  {
    SumsOfAppend(a, b);
    FilterAppend(a, b, SummaryLow);
  }

  lemma {:induction false} SumsOfAppend(a: seq<Product>, b: seq<Product>)
    ensures StockSum(a + b) == StockSum(a) + StockSum(b)
    ensures ValueSum(a + b) == ValueSum(a) + ValueSum(b)
  {
    if a == [] {
      assert a + b == b;
    } else {
      assert (a + b)[1..] == a[1..] + b;
      SumsOfAppend(a[1..], b);
    }
  }

  /** The summary counts a product as low only below 10, while
      get_low_stock(10) also takes one with exactly 10. */
  lemma SummaryStricterThanLowStock(p: Product)
    ensures SummaryLow(p) ==> IsLowStock(p, 10)
    ensures p.stock == 10 ==> IsLowStock(p, 10) && !SummaryLow(p)
  {
  }

  /** A product with 10 in stock is low for get_low_stock(10), yet no
      summary counts it as low: it is never among the summary's low
      products, and adding it leaves the low count unchanged. */
  lemma TenIsLowOnlyForRepository(products: seq<Product>, p: Product)
    requires p.stock == 10
    ensures IsLowStock(p, 10)
    ensures p !in Filter(products, SummaryLow)
    ensures InventorySummary(products + [p]).lowStockCount == InventorySummary(products).lowStockCount
  {
    FilterMember(products, SummaryLow, p);
    FilterSnoc(products, p, SummaryLow);
  }
}
