/**
 * The persistent records of backend/models.py, with the column defaults
 * SQLAlchemy fills in when a constructor leaves a column out, the unique
 * constraint on inventory rows, and the lookup of a warehouse by its unique
 * code (how the single virtual TRANSIT warehouse is found).
 */
module Models {
  import opened Wrappers
  import opened Ledger

  /** The life cycle of a transfer; the column stores these as the texts `pending`, `confirmed`, ... */
  datatype Status = Pending | Confirmed | Mismatch | Rejected | Resolved

  /** The one `transfer_type` text the endpoints test for; `consumer` and `disposal` are the documented others. */
  const WarehouseType: string := "warehouse"

  const DefaultAccessLevel: string := "warehouseman"

  /** The code that names the virtual in-transit warehouse. */
  const TransitCode: string := "TRANSIT"

  datatype Warehouse = Warehouse(id: int, name: string, code: string, address: Option<string>,
                                 manager: Option<string>, isVirtual: bool)

  datatype User = User(id: int, username: string, fullName: Option<string>, isActive: bool,
                       accessLevel: string, warehouses: seq<int>)

  datatype Drug = Drug(id: int, name: string, hasExpiryDate: bool)

  /** An inventory row; `expire` is a `YYYY-MM` text or NULL for drugs without expiry. */
  datatype Inventory = Inventory(id: int, warehouse: Option<int>, drug: int, supplier: Option<int>,
                                 expire: Option<string>, entryDate: Option<string>,
                                 quantity: int, isDisposed: bool)

  /**
   * A transfer record. The schema leaves `destination` and `consumer` both
   * nullable and does not require exactly one of them.
   */
  datatype Transfer = Transfer(source: int, destination: Option<int>, consumer: Option<int>,
                               transferType: string, drug: int, expire: Option<string>,
                               transferDate: Option<string>, quantitySent: int,
                               quantityReceived: int, status: Status)

  /** A warehouse created without `is_virtual` is a real one. */
  function NewWarehouse(id: int, name: string, code: string, isVirtual: Option<bool>): (w: Warehouse)
    ensures w.code == code && w.id == id
    ensures w.isVirtual <==> isVirtual == Some(true)
  {
    Warehouse(id, name, code, None, None, isVirtual.GetOr(false))
  }

  /** A user created without an access level is a warehouseman, active, with no warehouses yet. */
  function NewUser(id: int, username: string, accessLevel: Option<string>): (u: User)
    ensures accessLevel.None? ==> u.accessLevel == DefaultAccessLevel
    ensures u.isActive && u.warehouses == []
  {
    User(id, username, None, true, accessLevel.GetOr(DefaultAccessLevel), [])
  }

  /** A drug created without `has_expiry_date` needs one. */
  function NewDrug(id: int, name: string, hasExpiryDate: Option<bool>): (d: Drug)
    ensures d.hasExpiryDate <==> hasExpiryDate != Some(false)
  {
    Drug(id, name, hasExpiryDate.GetOr(true))
  }

  /** An inventory row created without a quantity holds none, and no new row is disposed. */
  function NewInventory(id: int, key: BatchKey, quantity: Option<int>): (r: Inventory)
    ensures KeyOf(r) == key
    ensures quantity.None? ==> r.quantity == 0
    ensures !r.isDisposed
  {
    Inventory(id, key.warehouse, key.drug, None, key.expire, None, quantity.GetOr(0), false)
  }

  /** A transfer created with only the required columns is a pending warehouse transfer with nothing received. */
  function NewTransfer(source: int, drug: int, quantitySent: int): (t: Transfer)
    ensures t.status == Pending && t.quantityReceived == 0 && t.transferType == WarehouseType
    ensures t.quantitySent == quantitySent && t.destination.None? && t.consumer.None?
  {
    Transfer(source, None, None, WarehouseType, drug, None, None, quantitySent, 0, Pending)
  }

  /** The (warehouse, drug, expiry) triple that identifies an inventory row. */
  function KeyOf(r: Inventory): BatchKey {
    BatchKey(r.warehouse, r.drug, r.expire)
  }

  /**
   * Two rows the UNIQUE(warehouse_id, drug_id, expire_date) constraint
   * refuses: SQL compares NULLs as unknown, so only rows whose three columns
   * are all present and equal clash.
   */
  predicate SqlClash(a: Inventory, b: Inventory) {
    a.warehouse.Some? && a.expire.Some? && KeyOf(a) == KeyOf(b)
  }

  predicate ConstraintHolds(rows: seq<Inventory>) {
    forall i, j :: 0 <= i < j < |rows| ==> !SqlClash(rows[i], rows[j])
  }

  /** What the endpoints maintain: no two rows share a key, NULLs included. */
  predicate KeysDistinct(rows: seq<Inventory>) {
    forall i, j :: 0 <= i < j < |rows| ==> KeyOf(rows[i]) != KeyOf(rows[j])
  }

  /** A table with distinct keys satisfies the constraint. */
  lemma DistinctKeysSatisfyConstraint(rows: seq<Inventory>)
    requires KeysDistinct(rows)
    ensures ConstraintHolds(rows)
  {
  }

  /** The constraint alone admits two rows of one drug in one warehouse when their expiry is NULL. */
  lemma ConstraintAdmitsUndatedTwins(a: Inventory, b: Inventory)
    requires KeyOf(a) == KeyOf(b) && a.expire.None?
    ensures ConstraintHolds([a, b]) && !KeysDistinct([a, b])
  {
    assert KeyOf([a, b][0]) == KeyOf([a, b][1]);
  }

  /**
   * The ledger a table stands for: each key maps to the quantity of its row.
   * With distinct keys this loses nothing, so the endpoints can be modelled
   * on the map.
   */
  function StockOf(rows: seq<Inventory>): (s: Stock)
    requires KeysDistinct(rows)
    ensures forall i :: 0 <= i < |rows| ==> KeyOf(rows[i]) in s && s[KeyOf(rows[i])] == rows[i].quantity
    ensures forall k :: k in s ==> exists i :: 0 <= i < |rows| && KeyOf(rows[i]) == k
  {
    if rows == [] then map[]
    else
      var init := rows[..|rows| - 1];
      var last := rows[|rows| - 1];
      assert forall i :: 0 <= i < |init| ==> init[i] == rows[i];
      assert KeysDistinct(init);
      var s0 := StockOf(init);
      assert forall i :: 0 <= i < |init| ==> KeyOf(init[i]) != KeyOf(last);
      s0[KeyOf(last) := last.quantity]
  }

  /** `.filter(Warehouse.code == code).first()`. */
  function FindByCode(ws: seq<Warehouse>, code: string): (r: Option<Warehouse>)
    ensures r.Some? <==> exists i :: 0 <= i < |ws| && ws[i].code == code
    ensures r.Some? ==> r.value in ws && r.value.code == code
  {
    if ws == [] then None
    else if ws[0].code == code then Some(ws[0])
    else
      var r := FindByCode(ws[1..], code);
      assert forall i :: 1 <= i < |ws| ==> ws[i] == ws[1..][i - 1];
      r
  }

  predicate CodesUnique(ws: seq<Warehouse>) {
    forall i, j :: 0 <= i < j < |ws| ==> ws[i].code != ws[j].code
  }

  /** With unique codes, the lookup finds the one warehouse carrying the code, wherever it sits. */
  lemma {:induction false} FindByCodeUnique(ws: seq<Warehouse>, i: int)
    requires CodesUnique(ws)
    requires 0 <= i < |ws|
    ensures FindByCode(ws, ws[i].code) == Some(ws[i])
  {
    if i > 0 {
      assert ws[0].code != ws[i].code;
      assert CodesUnique(ws[1..]);
      assert ws[1..][i - 1] == ws[i];
      FindByCodeUnique(ws[1..], i - 1);
    }
  }
}
