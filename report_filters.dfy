/**
 * The inventory report filters. The report pages
 * (frontend/src/components/ComprehensiveReports.js and
 * frontend/src/components/ReportExport.js, which carry the same
 * `getFilterParams`) send a query parameter only for a filter that is set,
 * and `get_inventory_report` in backend/api.py adds a WHERE condition only
 * for a parameter that is truthy in Python. Expiry months are compared as
 * text by SQL, and a row with a NULL expiry month fails both date bounds.
 */
module ReportFilters {
  import opened Wrappers
  import opened Text
  import opened Ledger
  import opened Forms

  /** The query parameters of `GET /inventory/report`; an absent parameter is `None`. */
  datatype ReportQuery = ReportQuery(warehouseId: Option<int>, drugId: Option<int>,
                                     expireDateFrom: Option<string>, expireDateTo: Option<string>)

  /** Python truthiness of an optional number: `None` and 0 are false. */
  predicate IntGiven(x: Option<int>) { x.Some? && x.value != 0 }

  /** Python truthiness of an optional text: `None` and `""` are false. */
  predicate TextGiven(x: Option<string>) { x.Some? && x.value != "" }

  /** The WHERE clause of `get_inventory_report` for one row. */
  predicate Matches(q: ReportQuery, k: BatchKey) {
    (IntGiven(q.warehouseId) ==> k.warehouse == q.warehouseId) &&
    (IntGiven(q.drugId) ==> Some(k.drug) == q.drugId) &&
    (TextGiven(q.expireDateFrom) ==> k.expire.Some? && LexLessEq(q.expireDateFrom.value, k.expire.value)) &&
    (TextGiven(q.expireDateTo) ==> k.expire.Some? && LexLessEq(k.expire.value, q.expireDateTo.value))
  }

  /** The rows `get_inventory_report` returns, with their quantities. */
  function InventoryReport(stock: Stock, q: ReportQuery): (r: Stock)
    ensures r.Keys <= stock.Keys
    ensures forall k :: k in r ==> r[k] == stock[k] && Matches(q, k)
  {
    map k | k in stock && Matches(q, k) :: stock[k]
  }

  /** Without any truthy parameter the report is the whole ledger, TRANSIT rows included. */
  lemma UnfilteredReportIsEverything(stock: Stock, q: ReportQuery)
    requires !IntGiven(q.warehouseId) && !IntGiven(q.drugId)
    requires !TextGiven(q.expireDateFrom) && !TextGiven(q.expireDateTo)
    ensures InventoryReport(stock, q) == stock
  {
  }

  /** A report row passes every given condition, and a row of the ledger passing them all is reported. */
  lemma ReportIsExactlyMatches(stock: Stock, q: ReportQuery, k: BatchKey)
    ensures k in InventoryReport(stock, q) <==> k in stock && Matches(q, k)
  {
  }

  /** Either date bound drops every row without an expiry month. */
  lemma DateBoundDropsUndated(stock: Stock, q: ReportQuery, k: BatchKey)
    requires TextGiven(q.expireDateFrom) || TextGiven(q.expireDateTo)
    requires k.expire.None?
    ensures k !in InventoryReport(stock, q)
  {
  }

  /** A query that keeps every condition of another and adds more never reports more rows. */
  lemma NarrowerQueryFewerRows(stock: Stock, q: ReportQuery, q2: ReportQuery)
    requires IntGiven(q.warehouseId) ==> q2.warehouseId == q.warehouseId
    requires IntGiven(q.drugId) ==> q2.drugId == q.drugId
    requires TextGiven(q.expireDateFrom) ==> q2.expireDateFrom == q.expireDateFrom
    requires TextGiven(q.expireDateTo) ==> q2.expireDateTo == q.expireDateTo
    ensures InventoryReport(stock, q2).Keys <= InventoryReport(stock, q).Keys
  {
  }

  /**
   * For zero-padded `YYYY-MM` texts, SQL's text comparison `a <= b` is the
   * chronological order of the months, so the date bounds select a range
   * of months.
   */
  lemma {:induction false} MonthTextOrder(y1: string, m1: string, y2: string, m2: string)
    requires IsDigits(y1) && IsDigits(m1) && IsDigits(y2) && IsDigits(m2)
    requires |y1| == |y2| == 4 && |m1| == |m2| == 2
    ensures LexLessEq(y1 + "-" + m1, y2 + "-" + m2) <==>
              DigitsValue(y1) < DigitsValue(y2) || (DigitsValue(y1) == DigitsValue(y2) && DigitsValue(m1) <= DigitsValue(m2))
  {
    DigitsOrder(y1, y2);
    DigitsOrder(m1, m2);
    LexLessAppend(y1, y2, "-", "-");
    LexLessIrreflexive("-");
    LexLessAppend(y1 + "-", y2 + "-", m1, m2);
    assert y1 + "-" == y2 + "-" <==> y1 == y2 by {
      if y1 + "-" == y2 + "-" {
        assert y1 == (y1 + "-")[..4] && y2 == (y2 + "-")[..4];
      }
    }
    assert y1 + "-" + m1 == y2 + "-" + m2 <==> y1 == y2 && m1 == m2 by {
      if y1 + "-" + m1 == y2 + "-" + m2 {
        assert y1 == (y1 + "-" + m1)[..4] && y2 == (y2 + "-" + m2)[..4];
        assert m1 == (y1 + "-" + m1)[5..] && m2 == (y2 + "-" + m2)[5..];
      }
    }
  }

  /** The report page's filters: two selects and two text fields, `''` when unset. */
  datatype FilterForm = FilterForm(warehouse: Choice, drug: Choice, dateFrom: string, dateTo: string)

  /** `getFilterParams`: starts from `{}` and adds each parameter whose field is truthy. */
  function GetFilterParams(f: FilterForm): (q: ReportQuery)
    ensures q.warehouseId.Some? <==> Truthy(f.warehouse)
    ensures q.drugId.Some? <==> Truthy(f.drug)
    ensures q.expireDateFrom.Some? <==> f.dateFrom != ""
    ensures q.expireDateTo.Some? <==> f.dateTo != ""
  {
    var none := ReportQuery(None, None, None, None);
    var withWarehouse := if Truthy(f.warehouse) then none.(warehouseId := Some(f.warehouse.id)) else none;
    var withDrug := if Truthy(f.drug) then withWarehouse.(drugId := Some(f.drug.id)) else withWarehouse;
    var withFrom := if f.dateFrom != "" then withDrug.(expireDateFrom := Some(f.dateFrom)) else withDrug;
    if f.dateTo != "" then withFrom.(expireDateTo := Some(f.dateTo)) else withFrom
  }

  /**
   * What the page's filters mean for a row: the chosen warehouse, the
   * chosen drug, and an expiry month within the given bounds.
   */
  predicate FormSelects(f: FilterForm, k: BatchKey) {
    (Truthy(f.warehouse) ==> k.warehouse == Some(f.warehouse.id)) &&
    (Truthy(f.drug) ==> k.drug == f.drug.id) &&
    (f.dateFrom != "" ==> k.expire.Some? && LexLessEq(f.dateFrom, k.expire.value)) &&
    (f.dateTo != "" ==> k.expire.Some? && LexLessEq(k.expire.value, f.dateTo))
  }

  /**
   * The parameters the page sends make the backend select exactly the rows
   * the form describes: no set filter is lost on the way and no unset one
   * is added.
   */
  lemma FormAndBackendAgree(f: FilterForm, k: BatchKey)
    ensures Matches(GetFilterParams(f), k) <==> FormSelects(f, k)
  {
  }

  /** A blank form reports the whole ledger. */
  lemma BlankFormReportsEverything(stock: Stock)
    ensures InventoryReport(stock, GetFilterParams(FilterForm(Empty, Empty, "", ""))) == stock
  {
    UnfilteredReportIsEverything(stock, GetFilterParams(FilterForm(Empty, Empty, "", "")));
  }
}
