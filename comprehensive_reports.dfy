/**
 * The report page of frontend/src/components/ComprehensiveReports.js: the
 * report-type filter `handleSearch` applies to the rows the backend returns,
 * and the summary figures computed over the rows on display. A row is the
 * JSON object the backend sends; a field it does not carry reads as
 * `undefined`, and the model writes both `null` and `undefined` as `None`
 * wherever the page treats them alike.
 */
module ComprehensiveReports {
  import opened Wrappers
  import opened Ledger
  import opened ExpirationUtils
  import Models
  import opened Sequences

  /** The fields of a report row the page reads. */
  datatype ReportItem = ReportItem(drugId: Option<int>, quantity: Option<int>,
                                   hasExpiryDate: Option<bool>, expireDate: Option<string>)

  const AllReport: string := "all"
  const ExpiredReport: string := "expired"
  const ExpiringSoonReport: string := "expiring-soon"
  const LowStockReport: string := "low-stock"

  /** The horizon of "expiring soon", fixed at 90 days whatever the warning setting. */
  const SoonDays: int := 90

  /** The quantity below which a row is low on stock. */
  const LowStockLimit: int := 50

  /** `has_expiry_date === true && days < 0`. */
  predicate IsExpired(item: ReportItem, nowMs: int) {
    item.hasExpiryDate == Some(true) && Lt(DaysUntilExpiration(item.expireDate, nowMs), 0)
  }

  /** `has_expiry_date === true && days >= 0 && days < 90`. */
  predicate IsExpiringSoon(item: ReportItem, nowMs: int) {
    var days := DaysUntilExpiration(item.expireDate, nowMs);
    item.hasExpiryDate == Some(true) && Ge(days, 0) && Lt(days, SoonDays)
  }

  /** `item.quantity < 50`; a `null` quantity compares as 0. */
  predicate IsLowStock(item: ReportItem) {
    item.quantity.GetOr(0) < LowStockLimit
  }

  /** The rows of `items` satisfying `keep`, in their order (`Array.prototype.filter`). */
  function Filter(items: seq<ReportItem>, keep: ReportItem -> bool): (r: seq<ReportItem>)
    ensures |r| <= |items|
    ensures forall x :: x in r <==> x in items && keep(x)
  {
    if items == [] then []
    else
      var rest := Filter(items[1..], keep);
      assert forall x :: x in items <==> x == items[0] || x in items[1..];
      if keep(items[0]) then [items[0]] + rest else rest
  }

  /** A filter that keeps every row returns the rows unchanged. */
  lemma {:induction false} FilterKeepingAll(items: seq<ReportItem>, keep: ReportItem -> bool)
    requires forall x :: x in items ==> keep(x)
    ensures Filter(items, keep) == items
  {
    if items != [] {
      assert forall x :: x in items[1..] ==> x in items;
      FilterKeepingAll(items[1..], keep);
    }
  }

  /** A filter that keeps no row returns nothing. */
  lemma {:induction false} FilterKeepingNone(items: seq<ReportItem>, keep: ReportItem -> bool)
    requires forall x :: x in items ==> !keep(x)
    ensures Filter(items, keep) == []
  {
    if items != [] {
      assert forall x :: x in items[1..] ==> x in items;
      FilterKeepingNone(items[1..], keep);
    }
  }

  /** Two filters that no row passes both together keep at most every row once. */
  lemma {:induction false} DisjointFiltersBound(items: seq<ReportItem>, p: ReportItem -> bool, q: ReportItem -> bool)
    requires forall x :: x in items ==> !(p(x) && q(x))
    ensures |Filter(items, p)| + |Filter(items, q)| <= |items|
  {
    if items != [] {
      assert forall x :: x in items[1..] ==> x in items;
      DisjointFiltersBound(items[1..], p, q);
    }
  }

  /** Whether `handleSearch` keeps a row for the chosen report type. */
  predicate Kept(reportType: string, item: ReportItem, nowMs: int) {
    if reportType == ExpiredReport then IsExpired(item, nowMs)
    else if reportType == ExpiringSoonReport then IsExpiringSoon(item, nowMs)
    else if reportType == LowStockReport then IsLowStock(item)
    else true
  }

  /**
   * The report-type step of `handleSearch`: the expired, expiring-soon and
   * low-stock types keep the rows passing their test, in order; `all`, and
   * any other type, keep the rows as they came.
   */
  function ApplyReportType(items: seq<ReportItem>, reportType: string, nowMs: int): (r: seq<ReportItem>)
    ensures |r| <= |items|
    ensures forall x :: x in r <==> x in items && Kept(reportType, x, nowMs)
    ensures reportType !in {ExpiredReport, ExpiringSoonReport, LowStockReport} ==> r == items
  {
    if reportType !in {ExpiredReport, ExpiringSoonReport, LowStockReport} then
      FilterKeepingAll(items, x => Kept(reportType, x, nowMs));
      Filter(items, x => Kept(reportType, x, nowMs))
    else
      Filter(items, x => Kept(reportType, x, nowMs))
  }

  /** Filtering keeps the rows in the order the backend sent them. */
  lemma {:induction false} FilterInOrder(items: seq<ReportItem>, keep: ReportItem -> bool)
    ensures IsSublist(Filter(items, keep), items)
    decreases |items|
  {
    if items != [] {
      FilterInOrder(items[1..], keep);
      var r := Filter(items, keep);
      var rest := Filter(items[1..], keep);
      if keep(items[0]) {
        assert r == [items[0]] + rest;
        assert r[1..] == rest;
      } else {
        assert r == rest;
      }
    }
  }

  /** Every report type shows its rows in the order the backend sent them. */
  lemma ReportTypeKeepsOrder(items: seq<ReportItem>, reportType: string, nowMs: int)
    ensures IsSublist(ApplyReportType(items, reportType, nowMs), items)
  {
    FilterInOrder(items, x => Kept(reportType, x, nowMs));
  }

  /** No row is both expired and expiring soon, `null` days included. */
  lemma ExpiredExcludesSoon(item: ReportItem, nowMs: int)
    ensures !(IsExpired(item, nowMs) && IsExpiringSoon(item, nowMs))
  {
  }

  /**
   * A row marked as having an expiry date but holding none has `null` days,
   * which JavaScript compares as 0, so it is counted as expiring soon.
   */
  lemma UndatedCountsAsExpiringSoon(item: ReportItem, nowMs: int)
    requires item.hasExpiryDate == Some(true) && item.expireDate.None?
    ensures IsExpiringSoon(item, nowMs) && !IsExpired(item, nowMs)
  {
  }

  /** `totalItems`: the quantities summed left to right, a missing quantity adding 0. */
  function TotalItems(items: seq<ReportItem>): int {
    if items == [] then 0
    else TotalItems(items[..|items| - 1]) + items[|items| - 1].quantity.GetOr(0)
  }

  /** The total of two runs of rows is the sum of their totals. */
  lemma {:induction false} TotalItemsAppend(a: seq<ReportItem>, b: seq<ReportItem>)
    ensures TotalItems(a + b) == TotalItems(a) + TotalItems(b)
    decreases |b|
  {
    if b != [] {
      assert (a + b)[..|a + b| - 1] == a + b[..|b| - 1];
      assert (a + b)[|a + b| - 1] == b[|b| - 1];
      assert TotalItems(a + b) == TotalItems(a + b[..|b| - 1]) + b[|b| - 1].quantity.GetOr(0);
      assert TotalItems(b) == TotalItems(b[..|b| - 1]) + b[|b| - 1].quantity.GetOr(0);
      TotalItemsAppend(a, b[..|b| - 1]);
    } else {
      assert a + b == a;
    }
  }

  /** `uniqueDrugs`: the number of distinct `drug_id` values, `null` counting as one value. */
  function UniqueDrugs(items: seq<ReportItem>): nat {
    |set x | x in items :: x.drugId|
  }

  /** There are never more distinct drugs than rows, and a non-empty report has at least one. */
  lemma {:induction false} UniqueDrugsBounds(items: seq<ReportItem>)
    ensures UniqueDrugs(items) <= |items|
    ensures items != [] ==> UniqueDrugs(items) >= 1
  {
    if items != [] {
      var init := items[..|items| - 1];
      var last := items[|items| - 1];
      UniqueDrugsBounds(init);
      assert (set x | x in items :: x.drugId) == (set x | x in init :: x.drugId) + {last.drugId} by {
        assert forall x :: x in items <==> x in init || x == last;
      }
    }
  }

  /** `expiredItems`. */
  function ExpiredCount(items: seq<ReportItem>, nowMs: int): nat {
    |Filter(items, x => IsExpired(x, nowMs))|
  }

  /** `expiringSoon`. */
  function ExpiringSoonCount(items: seq<ReportItem>, nowMs: int): nat {
    |Filter(items, x => IsExpiringSoon(x, nowMs))|
  }

  /** The two expiry figures count disjoint sets of rows, so together they never exceed the rows shown. */
  lemma ExpiryCountsBounded(items: seq<ReportItem>, nowMs: int)
    ensures ExpiredCount(items, nowMs) + ExpiringSoonCount(items, nowMs) <= |items|
  {
    forall x | x in items ensures !(IsExpired(x, nowMs) && IsExpiringSoon(x, nowMs)) {
      ExpiredExcludesSoon(x, nowMs);
    }
    DisjointFiltersBound(items, x => IsExpired(x, nowMs), x => IsExpiringSoon(x, nowMs));
  }

  /**
   * A row of `GET /inventory/report` as the page receives it: the columns
   * of an inventory row, which do not include the drug's `has_expiry_date`.
   */
  function ItemOfRow(r: Models.Inventory): ReportItem {
    ReportItem(Some(r.drug), Some(r.quantity), None, r.expire)
  }

  function Items(rows: seq<Models.Inventory>): (items: seq<ReportItem>)
    ensures |items| == |rows|
    ensures forall i :: 0 <= i < |rows| ==> items[i] == ItemOfRow(rows[i])
  {
    seq(|rows|, i requires 0 <= i < |rows| => ItemOfRow(rows[i]))
  }

  /**
   * Over an unfiltered report, `totalItems` is the ledger's total quantity,
   * TRANSIT stock included: the figure the transfer endpoints conserve.
   */
  lemma {:induction false} TotalItemsIsLedgerTotal(rows: seq<Models.Inventory>)
    requires Models.KeysDistinct(rows)
    ensures TotalItems(Items(rows)) == Total(Models.StockOf(rows))
  {
    if rows != [] {
      var init := rows[..|rows| - 1];
      var last := rows[|rows| - 1];
      assert Models.KeysDistinct(init);
      assert Items(rows)[..|rows| - 1] == Items(init);
      TotalItemsIsLedgerTotal(init);
      assert Models.KeyOf(last) !in Models.StockOf(init) by {
        forall i | 0 <= i < |init| ensures Models.KeyOf(init[i]) != Models.KeyOf(last) {
          assert init[i] == rows[i];
        }
      }
      assert Models.StockOf(rows) == Models.StockOf(init)[Models.KeyOf(last) := last.quantity];
      SumInsert(Models.StockOf(init), Models.KeyOf(last), last.quantity);
    }
  }

  /**
   * As written, no report row carries `has_expiry_date`, so the expired and
   * expiring-soon report types always show nothing and both expiry figures
   * are always 0, whatever the rows' expiry months.
   */
  lemma ReportRowsNeverExpire(rows: seq<Models.Inventory>, nowMs: int)
    ensures ApplyReportType(Items(rows), ExpiredReport, nowMs) == []
    ensures ApplyReportType(Items(rows), ExpiringSoonReport, nowMs) == []
    ensures ExpiredCount(Items(rows), nowMs) == 0 && ExpiringSoonCount(Items(rows), nowMs) == 0
  {
    var items := Items(rows);
    FilterKeepingNone(items, x => IsExpired(x, nowMs));
    FilterKeepingNone(items, x => IsExpiringSoon(x, nowMs));
    FilterKeepingNone(items, x => Kept(ExpiredReport, x, nowMs));
    FilterKeepingNone(items, x => Kept(ExpiringSoonReport, x, nowMs));
  }

  /** The first drug with the id, as the backend would look it up. */
  function FindDrug(drugs: seq<Models.Drug>, id: int): (r: Option<Models.Drug>)
    ensures r.Some? ==> r.value in drugs && r.value.id == id
    ensures r.None? ==> forall d :: d in drugs ==> d.id != id
  {
    if drugs == [] then None
    else if drugs[0].id == id then Some(drugs[0])
    else FindDrug(drugs[1..], id)
  }

  /**
   * A report row with its drug's `has_expiry_date` joined in, as the page
   * evidently expects; a row whose drug is unknown gets no flag.
   */
  function JoinedItemOfRow(r: Models.Inventory, drugs: seq<Models.Drug>): (item: ReportItem)
    ensures item.drugId == Some(r.drug) && item.quantity == Some(r.quantity) && item.expireDate == r.expire
    ensures item.hasExpiryDate == Some(true) <==> exists d :: d in drugs && d.id == r.drug && FindDrug(drugs, r.drug) == Some(d) && d.hasExpiryDate
  {
    var d := FindDrug(drugs, r.drug);
    ReportItem(Some(r.drug), Some(r.quantity), if d.Some? then Some(d.value.hasExpiryDate) else None, r.expire)
  }

  /** An expired figure that only counts rows with a real expiry month, the flag joined from the drug. */
  predicate IsExpiredJoined(item: ReportItem, nowMs: int) {
    var days := DaysUntilExpiration(item.expireDate, nowMs);
    item.hasExpiryDate == Some(true) && days.Days? && days.n < 0
  }

  /** An expiring-soon figure that only counts rows with a real expiry month. */
  predicate IsExpiringSoonJoined(item: ReportItem, nowMs: int) {
    var days := DaysUntilExpiration(item.expireDate, nowMs);
    item.hasExpiryDate == Some(true) && days.Days? && 0 <= days.n < SoonDays
  }

  function JoinedItems(rows: seq<Models.Inventory>, drugs: seq<Models.Drug>): (items: seq<ReportItem>)
    ensures |items| == |rows|
    ensures forall i :: 0 <= i < |rows| ==> items[i] == JoinedItemOfRow(rows[i], drugs)
  {
    seq(|rows|, i requires 0 <= i < |rows| => JoinedItemOfRow(rows[i], drugs))
  }

  /**
   * With the flag joined in, a row of a drug that needs an expiry date is
   * counted as expired exactly when its month has begun to lie behind it,
   * and as expiring soon exactly when fewer than 90 days are left; a row
   * without an expiry month is in neither figure, and no row is in both.
   */
  lemma JoinedFiguresCorrect(rows: seq<Models.Inventory>, drugs: seq<Models.Drug>, i: int, nowMs: int)
    requires 0 <= i < |rows|
    requires FindDrug(drugs, rows[i].drug).Some? && FindDrug(drugs, rows[i].drug).value.hasExpiryDate
    ensures var item := JoinedItems(rows, drugs)[i];
            var days := DaysUntilExpiration(rows[i].expire, nowMs);
            (item in Filter(JoinedItems(rows, drugs), x => IsExpiredJoined(x, nowMs)) <==> days.Days? && days.n < 0) &&
            (item in Filter(JoinedItems(rows, drugs), x => IsExpiringSoonJoined(x, nowMs)) <==> days.Days? && 0 <= days.n < SoonDays)
  {
    var item := JoinedItems(rows, drugs)[i];
    assert item.hasExpiryDate == Some(true);
  }

  /** With the flag joined in, an undated row is in neither expiry figure. */
  lemma JoinedUndatedInNeither(item: ReportItem, nowMs: int)
    requires item.expireDate.None?
    ensures !IsExpiredJoined(item, nowMs) && !IsExpiringSoonJoined(item, nowMs)
  {
  }
}
