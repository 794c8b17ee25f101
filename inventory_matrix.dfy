/**
 * The warehouse-by-drug stock matrix (frontend/src/components/InventoryMatrix.js,
 * second effect). For each drug a row holds one cell per warehouse (the
 * drug's quantity there over every expiry date), the row total and the
 * earliest expiry date; an optional drug filter keeps one row; a final TOTAL
 * row holds the column sums and their sum.
 */
module InventoryMatrix {
  import opened Wrappers
  import opened Text

  datatype Drug = Drug(id: int, name: string)

  /** An inventory batch as the list endpoint returns it. */
  datatype InventoryItem = InventoryItem(warehouseId: int, drugId: int, expireDate: Option<string>, quantity: int)

  datatype RowId = DrugRow(drugId: int) | TotalRow

  /** A grid row: the `wh_<id>` cells are the map from warehouse id to quantity. */
  datatype Row = Row(id: RowId, drugName: string, minExpire: Option<string>, cells: map<int, int>, total: int)

  const TotalRowName: string := "Grand total"

  // ---------------------------------------------------------------- specification

  /** `inventory.filter(inv => inv.drug_id === drugId)`. */
  function ForDrug(inv: seq<InventoryItem>, drugId: int): (r: seq<InventoryItem>)
    ensures forall x :: x in r <==> x in inv && x.drugId == drugId
  {
    if inv == [] then []
    else ForDrug(inv[..|inv| - 1], drugId) + (if inv[|inv| - 1].drugId == drugId then [inv[|inv| - 1]] else [])
  }

  /** Sum of the quantities of the items held in warehouse `w`. */
  function QtyIn(items: seq<InventoryItem>, w: int): int {
    if items == [] then 0
    else QtyIn(items[..|items| - 1], w) + (if items[|items| - 1].warehouseId == w then items[|items| - 1].quantity else 0)
  }

  /** What a cell shows: the drug's quantity in the warehouse, over every expiry date. */
  function CellQty(inv: seq<InventoryItem>, drugId: int, w: int): int {
    QtyIn(ForDrug(inv, drugId), w)
  }

  /** Stock of drug `d` held in any warehouse of `ws`, summed straight over the inventory. */
  function StockIn(inv: seq<InventoryItem>, d: int, ws: set<int>): int {
    if inv == [] then 0
    else
      var x := inv[|inv| - 1];
      StockIn(inv[..|inv| - 1], d, ws) + (if x.drugId == d && x.warehouseId in ws then x.quantity else 0)
  }

  /** Every stock of drug `d`, wherever it is held. */
  function DrugStock(inv: seq<InventoryItem>, d: int): int {
    if inv == [] then 0
    else DrugStock(inv[..|inv| - 1], d) + (if inv[|inv| - 1].drugId == d then inv[|inv| - 1].quantity else 0)
  }

  /** The row total: the cells added in warehouse order (a repeated warehouse is added again). */
  function RowTotal(inv: seq<InventoryItem>, d: int, whIds: seq<int>): int {
    if whIds == [] then 0 else RowTotal(inv, d, whIds[..|whIds| - 1]) + CellQty(inv, d, whIds[|whIds| - 1])
  }

  predicate Dated(x: InventoryItem) {
    x.expireDate.Some? && x.expireDate.value != ""
  }

  /** `r` is the lexicographically smallest non-empty expiry date of `items`, or `None` when there is none. */
  predicate IsEarliest(r: Option<string>, items: seq<InventoryItem>) {
    (r.None? ==> forall i :: 0 <= i < |items| ==> !Dated(items[i])) &&
    (r.Some? ==>
      (exists i :: 0 <= i < |items| && Dated(items[i]) && items[i].expireDate == r) &&
      (forall i :: 0 <= i < |items| && Dated(items[i]) ==> LexLessEq(r.value, items[i].expireDate.value)))
  }

  /** The warehouse ids as a set: the keys a row's cells get. */
  function IdSet(whIds: seq<int>): (r: set<int>)
    ensures forall w :: w in r <==> w in whIds
  {
    set w | w in whIds
  }

  predicate Distinct(whIds: seq<int>) {
    forall i, j :: 0 <= i < j < |whIds| ==> whIds[i] != whIds[j]
  }

  /** The cells of a row sum to its total when each warehouse appears once. */
  function CellSum(cells: map<int, int>, whIds: seq<int>): int {
    if whIds == [] then 0
    else CellSum(cells, whIds[..|whIds| - 1]) + (if whIds[|whIds| - 1] in cells then cells[whIds[|whIds| - 1]] else 0)
  }

  /** What the row of `drug` must hold. */
  predicate RowFor(row: Row, drug: Drug, inv: seq<InventoryItem>, whIds: seq<int>) {
    row.id == DrugRow(drug.id) && row.drugName == drug.name &&
    IsEarliest(row.minExpire, ForDrug(inv, drug.id)) &&
    row.cells.Keys == IdSet(whIds) &&
    (forall w :: w in row.cells ==> row.cells[w] == CellQty(inv, drug.id, w)) &&
    row.total == RowTotal(inv, drug.id, whIds)
  }

  /** `data.reduce((sum, row) => sum + (row[wh_<w>] || 0), 0)`. */
  function ColumnTotal(rows: seq<Row>, w: int): int {
    if rows == [] then 0
    else ColumnTotal(rows[..|rows| - 1], w) + (if w in rows[|rows| - 1].cells then rows[|rows| - 1].cells[w] else 0)
  }

  /** The grand total: the column totals added in warehouse order. */
  function GrandTotal(rows: seq<Row>, whIds: seq<int>): int {
    if whIds == [] then 0 else GrandTotal(rows, whIds[..|whIds| - 1]) + ColumnTotal(rows, whIds[|whIds| - 1])
  }

  /** Sum of the row totals. */
  function TotalOfRows(rows: seq<Row>): int {
    if rows == [] then 0 else TotalOfRows(rows[..|rows| - 1]) + rows[|rows| - 1].total
  }

  /** What the TOTAL row must hold. */
  predicate IsTotalRow(row: Row, rows: seq<Row>, whIds: seq<int>) {
    row.id == TotalRow && row.drugName == TotalRowName && row.minExpire == None &&
    row.cells.Keys == IdSet(whIds) &&
    (forall w :: w in row.cells ==> row.cells[w] == ColumnTotal(rows, w)) &&
    row.total == GrandTotal(rows, whIds)
  }

  /** The drugs whose rows are displayed: all, or only the filtered one when the filter is truthy. */
  function Shown(drugs: seq<Drug>, filterDrug: Option<int>): (r: seq<Drug>)
    ensures filterDrug.None? || filterDrug.value == 0 ==> r == drugs
    ensures filterDrug.Some? && filterDrug.value != 0 ==> forall d :: d in r <==> d in drugs && d.id == filterDrug.value
  {
    if filterDrug.None? || filterDrug.value == 0 then drugs else WithId(drugs, filterDrug.value)
  }

  function WithId(drugs: seq<Drug>, id: int): (r: seq<Drug>)
    ensures forall d :: d in r <==> d in drugs && d.id == id
    ensures |r| <= |drugs|
  {
    KeepIf(drugs, (d: Drug) => d.id == id)
  }

  /** `s.filter(keep)`: the entries `keep` accepts, in order. */
  function KeepIf<T(!new)>(s: seq<T>, keep: T -> bool): (r: seq<T>)
    ensures forall x :: x in r <==> x in s && keep(x)
    ensures |r| <= |s|
  {
    if s == [] then [] else KeepIf(s[..|s| - 1], keep) + (if keep(s[|s| - 1]) then [s[|s| - 1]] else [])
  }

  /**
   * Filtering two lists that pair up entry by entry, with filters that agree
   * on each pair, gives two lists that still pair up entry by entry.
   */
  lemma {:induction false} KeepIfPaired<A(!new), B(!new)>(xs: seq<A>, ys: seq<B>, keepX: A -> bool, keepY: B -> bool, paired: (A, B) -> bool)
    requires |xs| == |ys|
    requires forall k :: 0 <= k < |xs| ==> paired(xs[k], ys[k]) && (keepX(xs[k]) <==> keepY(ys[k]))
    ensures |KeepIf(xs, keepX)| == |KeepIf(ys, keepY)|
    ensures forall k :: 0 <= k < |KeepIf(xs, keepX)| ==> paired(KeepIf(xs, keepX)[k], KeepIf(ys, keepY)[k])
  {
    if xs != [] {
      var n := |xs| - 1;
      assert forall k :: 0 <= k < n ==> xs[..n][k] == xs[k] && ys[..n][k] == ys[k];
      KeepIfPaired(xs[..n], ys[..n], keepX, keepY, paired);
      var a, b := KeepIf(xs[..n], keepX), KeepIf(ys[..n], keepY);
      if keepX(xs[n]) {
        assert KeepIf(xs, keepX) == a + [xs[n]] && KeepIf(ys, keepY) == b + [ys[n]];
        forall k | 0 <= k < |a| + 1 ensures paired((a + [xs[n]])[k], (b + [ys[n]])[k]) {
          if k < |a| {
            assert (a + [xs[n]])[k] == a[k] && (b + [ys[n]])[k] == b[k];
          }
        }
      } else {
        assert KeepIf(xs, keepX) == a && KeepIf(ys, keepY) == b;
      }
    }
  }

  // ---------------------------------------------------------------- properties

  /** A cell is the drug's stock in that warehouse, counted straight over the inventory. */
  lemma {:induction false} CellIsStock(inv: seq<InventoryItem>, d: int, w: int)
    ensures CellQty(inv, d, w) == StockIn(inv, d, {w})
  {
    if inv != [] {
      var init := inv[..|inv| - 1];
      CellIsStock(init, d, w);
      var x := inv[|inv| - 1];
      var f := ForDrug(init, d);
      if x.drugId == d {
        assert ForDrug(inv, d)[..|ForDrug(inv, d)| - 1] == f;
      } else {
        assert ForDrug(inv, d) == f;
      }
    }
  }

  /** Adding one more warehouse to the set adds exactly its stock. */
  lemma {:induction false} StockInAdd(inv: seq<InventoryItem>, d: int, ws: set<int>, w: int)
    requires w !in ws
    ensures StockIn(inv, d, ws + {w}) == StockIn(inv, d, ws) + StockIn(inv, d, {w})
  {
    if inv != [] {
      StockInAdd(inv[..|inv| - 1], d, ws, w);
    }
  }

  /** With distinct warehouses, the row total is the drug's stock in those warehouses. */
  lemma {:induction false} RowTotalIsStock(inv: seq<InventoryItem>, d: int, whIds: seq<int>)
    requires Distinct(whIds)
    ensures RowTotal(inv, d, whIds) == StockIn(inv, d, IdSet(whIds))
  {
    if whIds == [] {
      assert IdSet(whIds) == {};
      StockInNone(inv, d);
    } else {
      var init := whIds[..|whIds| - 1];
      var w := whIds[|whIds| - 1];
      RowTotalIsStock(inv, d, init);
      CellIsStock(inv, d, w);
      assert whIds == init + [w];
      assert IdSet(whIds) == IdSet(init) + {w};
      StockInAdd(inv, d, IdSet(init), w);
    }
  }

  lemma {:induction false} StockInNone(inv: seq<InventoryItem>, d: int)
    ensures StockIn(inv, d, {}) == 0
  {
    if inv != [] { StockInNone(inv[..|inv| - 1], d); }
  }

  /** When every batch of the drug sits in a listed warehouse, the row total is all of the drug's stock. */
  lemma {:induction false} RowTotalIsDrugStock(inv: seq<InventoryItem>, d: int, whIds: seq<int>)
    requires Distinct(whIds)
    requires forall x :: x in inv && x.drugId == d ==> x.warehouseId in whIds
    ensures RowTotal(inv, d, whIds) == DrugStock(inv, d)
  {
    RowTotalIsStock(inv, d, whIds);
    StockInAll(inv, d, IdSet(whIds));
  }

  lemma {:induction false} StockInAll(inv: seq<InventoryItem>, d: int, ws: set<int>)
    requires forall x :: x in inv && x.drugId == d ==> x.warehouseId in ws
    ensures StockIn(inv, d, ws) == DrugStock(inv, d)
  {
    if inv != [] { StockInAll(inv[..|inv| - 1], d, ws); }
  }

  /** A row's total is the sum of its cells (the warehouses being distinct). */
  lemma {:induction false} RowTotalIsCellSum(row: Row, drug: Drug, inv: seq<InventoryItem>, whIds: seq<int>)
    requires RowFor(row, drug, inv, whIds)
    ensures row.total == CellSum(row.cells, whIds)
  {
    assert forall w :: w in whIds ==> w in row.cells.Keys;
    CellSumOfCells(row.cells, inv, drug.id, whIds);
  }

  lemma {:induction false} CellSumOfCells(cells: map<int, int>, inv: seq<InventoryItem>, d: int, whIds: seq<int>)
    requires forall w :: w in whIds ==> w in cells && cells[w] == CellQty(inv, d, w)
    ensures CellSum(cells, whIds) == RowTotal(inv, d, whIds)
  {
    if whIds != [] {
      CellSumOfCells(cells, inv, d, whIds[..|whIds| - 1]);
    }
  }

  /** Summing columns then rows equals summing rows then columns. */
  lemma {:induction false} GrandTotalByRows(rows: seq<Row>, whIds: seq<int>)
    ensures GrandTotal(rows, whIds) == SumOfCellSums(rows, whIds)
  {
    if rows == [] {
      GrandTotalEmpty(whIds);
    } else {
      var init := rows[..|rows| - 1];
      GrandTotalByRows(init, whIds);
      GrandTotalStep(init, rows[|rows| - 1], whIds);
      assert init + [rows[|rows| - 1]] == rows;
    }
  }

  function SumOfCellSums(rows: seq<Row>, whIds: seq<int>): int {
    if rows == [] then 0 else SumOfCellSums(rows[..|rows| - 1], whIds) + CellSum(rows[|rows| - 1].cells, whIds)
  }

  lemma {:induction false} GrandTotalEmpty(whIds: seq<int>)
    ensures GrandTotal([], whIds) == 0
  {
    if whIds != [] { GrandTotalEmpty(whIds[..|whIds| - 1]); }
  }

  lemma {:induction false} GrandTotalStep(rows: seq<Row>, r: Row, whIds: seq<int>)
    ensures GrandTotal(rows + [r], whIds) == GrandTotal(rows, whIds) + CellSum(r.cells, whIds)
  {
    if whIds != [] {
      GrandTotalStep(rows, r, whIds[..|whIds| - 1]);
      assert (rows + [r])[..|rows + [r]| - 1] == rows;
    }
  }

  /** The TOTAL row's total is the sum of the displayed rows' totals. */
  lemma {:induction false} GrandTotalIsSumOfRowTotals(rows: seq<Row>, shown: seq<Drug>, inv: seq<InventoryItem>, whIds: seq<int>)
    requires |rows| == |shown|
    requires forall i :: 0 <= i < |rows| ==> RowFor(rows[i], shown[i], inv, whIds)
    ensures GrandTotal(rows, whIds) == TotalOfRows(rows)
  {
    GrandTotalByRows(rows, whIds);
    RowsSum(rows, shown, inv, whIds);
  }

  lemma {:induction false} RowsSum(rows: seq<Row>, shown: seq<Drug>, inv: seq<InventoryItem>, whIds: seq<int>)
    requires |rows| == |shown|
    requires forall i :: 0 <= i < |rows| ==> RowFor(rows[i], shown[i], inv, whIds)
    ensures SumOfCellSums(rows, whIds) == TotalOfRows(rows)
  {
    if rows != [] {
      var n := |rows| - 1;
      RowsSum(rows[..n], shown[..n], inv, whIds);
      RowTotalIsCellSum(rows[n], shown[n], inv, whIds);
    }
  }

  // ---------------------------------------------------------------- the computation

  /** `inventory.filter(inv => inv.drug_id === drug.id)`. */
  method FilterForDrug(inv: seq<InventoryItem>, drugId: int) returns (drugInventory: seq<InventoryItem>)
    ensures drugInventory == ForDrug(inv, drugId)
  {
    drugInventory := [];
    var k := 0;
    while k < |inv|
      invariant 0 <= k <= |inv|
      invariant drugInventory == ForDrug(inv[..k], drugId)
    {
      assert inv[..k + 1][..k] == inv[..k];
      if inv[k].drugId == drugId {
        drugInventory := drugInventory + [inv[k]];
      }
      k := k + 1;
    }
    assert inv[..|inv|] == inv;
  }

  /** The `minExpire` loop: keep a non-empty date when there is none yet or it sorts before the kept one. */
  method EarliestExpire(items: seq<InventoryItem>) returns (minExpire: Option<string>)
    ensures IsEarliest(minExpire, items)
  {
    minExpire := None;
    var k := 0;
    while k < |items|
      invariant 0 <= k <= |items|
      invariant IsEarliest(minExpire, items[..k])
    {
      var x := items[k];
      if Dated(x) {
        if minExpire.None? || LexLess(x.expireDate.value, minExpire.value) {
          if minExpire.Some? {
            forall i | 0 <= i < k && Dated(items[i])
              ensures LexLessEq(x.expireDate.value, items[i].expireDate.value)
            {
              if minExpire.value != items[i].expireDate.value {
                LexLessTransitive(x.expireDate.value, minExpire.value, items[i].expireDate.value);
              }
            }
          }
          minExpire := x.expireDate;
        } else if minExpire.value != x.expireDate.value {
          LexLessTotal(minExpire.value, x.expireDate.value);
        }
      }
      assert items[..k + 1] == items[..k] + [x];
      k := k + 1;
    }
    assert items[..|items|] == items;
  }

  /** `drugInventory.filter(inv => inv.warehouse_id === wh).reduce(add quantity, 0)`. */
  method SumInWarehouse(items: seq<InventoryItem>, wh: int) returns (totalQty: int)
    ensures totalQty == QtyIn(items, wh)
  {
    totalQty := 0;
    var t := 0;
    while t < |items|
      invariant 0 <= t <= |items|
      invariant totalQty == QtyIn(items[..t], wh)
    {
      assert items[..t + 1][..t] == items[..t];
      if items[t].warehouseId == wh {
        totalQty := totalQty + items[t].quantity;
      }
      t := t + 1;
    }
    assert items[..|items|] == items;
  }

  /** One drug's row, built as the nested `forEach` loops build it. */
  method BuildRow(drug: Drug, whIds: seq<int>, inv: seq<InventoryItem>) returns (row: Row)
    ensures RowFor(row, drug, inv, whIds)
  {
    var drugInventory := FilterForDrug(inv, drug.id);
    var minExpire := EarliestExpire(drugInventory);
    var cells: map<int, int> := map[];
    var rowTotal := 0;
    var j := 0;
    while j < |whIds|
      invariant 0 <= j <= |whIds|
      invariant cells.Keys == IdSet(whIds[..j])
      invariant forall w :: w in cells ==> cells[w] == CellQty(inv, drug.id, w)
      invariant rowTotal == RowTotal(inv, drug.id, whIds[..j])
    {
      var wh := whIds[j];
      var totalQty := SumInWarehouse(drugInventory, wh);
      cells := cells[wh := totalQty];
      rowTotal := rowTotal + totalQty;
      assert whIds[..j + 1] == whIds[..j] + [wh];
      assert IdSet(whIds[..j + 1]) == IdSet(whIds[..j]) + {wh};
      j := j + 1;
    }
    assert whIds[..|whIds|] == whIds;
    row := Row(DrugRow(drug.id), drug.name, minExpire, cells, rowTotal);
  }

  /** `data.reduce((sum, row) => sum + (row[wh_<w>] || 0), 0)`. */
  method SumColumn(data: seq<Row>, wh: int) returns (colTotal: int)
    ensures colTotal == ColumnTotal(data, wh)
  {
    colTotal := 0;
    var r := 0;
    while r < |data|
      invariant 0 <= r <= |data|
      invariant colTotal == ColumnTotal(data[..r], wh)
    {
      assert data[..r + 1][..r] == data[..r];
      colTotal := colTotal + (if wh in data[r].cells then data[r].cells[wh] else 0);
      r := r + 1;
    }
    assert data[..|data|] == data;
  }

  /** The TOTAL row of the displayed rows. */
  method BuildTotalRow(data: seq<Row>, whIds: seq<int>) returns (totalRow: Row)
    ensures IsTotalRow(totalRow, data, whIds)
  {
    var cells: map<int, int> := map[];
    var grandTotal := 0;
    var j := 0;
    while j < |whIds|
      invariant 0 <= j <= |whIds|
      invariant cells.Keys == IdSet(whIds[..j])
      invariant forall w :: w in cells ==> cells[w] == ColumnTotal(data, w)
      invariant grandTotal == GrandTotal(data, whIds[..j])
    {
      var wh := whIds[j];
      var colTotal := SumColumn(data, wh);
      cells := cells[wh := colTotal];
      grandTotal := grandTotal + colTotal;
      assert whIds[..j + 1] == whIds[..j] + [wh];
      assert IdSet(whIds[..j + 1]) == IdSet(whIds[..j]) + {wh};
      j := j + 1;
    }
    assert whIds[..|whIds|] == whIds;
    totalRow := Row(TotalRow, TotalRowName, None, cells, grandTotal);
  }

  /** `drugs.map(drug => row)`. */
  method BuildRows(drugs: seq<Drug>, whIds: seq<int>, inv: seq<InventoryItem>) returns (data: seq<Row>)
    ensures |data| == |drugs|
    ensures forall k :: 0 <= k < |drugs| ==> RowFor(data[k], drugs[k], inv, whIds)
  {
    data := [];
    var i := 0;
    while i < |drugs|
      invariant 0 <= i <= |drugs| && |data| == i
      invariant forall k :: 0 <= k < i ==> RowFor(data[k], drugs[k], inv, whIds)
    {
      var row := BuildRow(drugs[i], whIds, inv);
      data := data + [row];
      i := i + 1;
    }
  }

  /** The rows of drug `id`, in order. */
  function RowsWithId(rows: seq<Row>, id: int): (r: seq<Row>)
    ensures |r| <= |rows|
  {
    KeepIf(rows, (row: Row) => row.id == DrugRow(id))
  }

  /** Filtering the rows by drug id keeps exactly the rows of the drugs with that id. */
  lemma RowsWithIdMatch(data: seq<Row>, drugs: seq<Drug>, id: int, inv: seq<InventoryItem>, whIds: seq<int>)
    requires |data| == |drugs|
    requires forall k :: 0 <= k < |drugs| ==> RowFor(data[k], drugs[k], inv, whIds)
    ensures |RowsWithId(data, id)| == |WithId(drugs, id)|
    ensures forall k :: 0 <= k < |RowsWithId(data, id)| ==> RowFor(RowsWithId(data, id)[k], WithId(drugs, id)[k], inv, whIds)
  {
    KeepIfPaired(data, drugs, (row: Row) => row.id == DrugRow(id), (d: Drug) => d.id == id,
                 (row: Row, d: Drug) => RowFor(row, d, inv, whIds));
  }

  /** `data.filter(d => d.id === filterDrug)`. */
  method KeepDrug(data: seq<Row>, id: int) returns (kept: seq<Row>)
    ensures kept == RowsWithId(data, id)
  {
    kept := [];
    var i := 0;
    while i < |data|
      invariant 0 <= i <= |data|
      invariant kept == RowsWithId(data[..i], id)
    {
      assert data[..i + 1][..i] == data[..i];
      if data[i].id == DrugRow(id) {
        kept := kept + [data[i]];
      }
      i := i + 1;
    }
    assert data[..|data|] == data;
  }

  /**
   * The effect: nothing happens (`None`) until both lists are non-empty;
   * then one row per displayed drug and the TOTAL row last.
   */
  method BuildMatrix(drugs: seq<Drug>, whIds: seq<int>, inv: seq<InventoryItem>, filterDrug: Option<int>)
    returns (result: Option<seq<Row>>)
    ensures result.None? <==> drugs == [] || whIds == []
    ensures result.Some? ==>
              var shown := Shown(drugs, filterDrug);
              |result.value| == |shown| + 1 &&
              (forall i :: 0 <= i < |shown| ==> RowFor(result.value[i], shown[i], inv, whIds)) &&
              IsTotalRow(result.value[|shown|], result.value[..|shown|], whIds)
  {
    if drugs == [] || whIds == [] {
      return None;
    }
    var data := BuildRows(drugs, whIds, inv);
    if filterDrug.Some? && filterDrug.value != 0 {
      RowsWithIdMatch(data, drugs, filterDrug.value, inv, whIds);
      data := KeepDrug(data, filterDrug.value);
    }
    var totalRow := BuildTotalRow(data, whIds);
    result := Some(data + [totalRow]);
    assert result.value[..|data|] == data;
  }
}
