/**
 * The transfer endpoints of backend/api.py as one store object. A transfer
 * moves stock in two steps through the virtual TRANSIT warehouse: creation
 * moves the quantity from the source batch into TRANSIT, and confirmation,
 * rejection, deletion or mismatch resolution move it on.
 *
 * Every endpoint works inside one database session and commits only at its
 * end; an `HTTPException` raised earlier discards the session's edits. The
 * methods below therefore compute the new rows in local variables and
 * assign the fields only once every check has passed.
 *
 * The ghost predicate `Balanced` is the bookkeeping invariant of the system:
 * for each (drug, expiry month) the TRANSIT row holds exactly what the open
 * transfers still owe: the whole sent quantity of each pending transfer
 * and the shortfall of each mismatched one.
 */
module Transfers {
  import opened Wrappers
  import opened Ledger
  import opened Models

  /** The refusals of the endpoints (HTTP 404 and 400); the last three come only from the corrected variants. */
  datatype ApiError =
    | NotFound
    | SourceShort
    | NotPending
    | ReceivedNotPositive
    | ReceivedExceedsSent
    | TransitShort
    | ConfirmedOrRejected
    | NotMismatch
    | NoShortfall
    | NotWarehouseTransfer
    | InvalidAction
    | QuantityNotPositive
    | TransitEndpoint
    | OnlyPendingDeletable

  const DeleteAction: string := "delete"
  const ReturnSourceAction: string := "return_source"
  const AddDestinationAction: string := "add_destination"

  function SourceKey(t: Transfer): BatchKey {
    BatchKey(Some(t.source), t.drug, t.expire)
  }

  /** The destination batch; a NULL destination names the NULL-warehouse row. */
  function DestKey(t: Transfer): BatchKey {
    BatchKey(t.destination, t.drug, t.expire)
  }

  function TransitKey(transit: int, t: Transfer): BatchKey {
    BatchKey(Some(transit), t.drug, t.expire)
  }

  /** What one transfer still owes to the TRANSIT batch of drug `d` and month `e`. */
  function InFlight(t: Transfer, d: int, e: Option<string>): int {
    if t.drug != d || t.expire != e then 0
    else
      match t.status
      case Pending => t.quantitySent
      case Mismatch => t.quantitySent - t.quantityReceived
      case _ => 0
  }

  ghost function InFlightMap(ts: map<int, Transfer>, d: int, e: Option<string>): map<int, int> {
    map id | id in ts :: InFlight(ts[id], d, e)
  }

  /** What all open transfers owe to the TRANSIT batch of drug `d` and month `e`. */
  ghost function InTransit(ts: map<int, Transfer>, d: int, e: Option<string>): int {
    SumValues(InFlightMap(ts, d, e))
  }

  /** Storing a record replaces what the old record owed by what the new one owes. */
  lemma InTransitSet(ts: map<int, Transfer>, id: int, t: Transfer, d: int, e: Option<string>)
    ensures InTransit(ts[id := t], d, e) ==
              InTransit(ts, d, e) - (if id in ts then InFlight(ts[id], d, e) else 0) + InFlight(t, d, e)
  {
    var m := InFlightMap(ts, d, e);
    assert InFlightMap(ts[id := t], d, e) == m[id := InFlight(t, d, e)];
    if id in ts { SumUpdate(m, id, InFlight(t, d, e)); } else { SumInsert(m, id, InFlight(t, d, e)); }
  }

  /** Deleting a record forgets what it owed. */
  lemma InTransitRemove(ts: map<int, Transfer>, id: int, d: int, e: Option<string>)
    requires id in ts
    ensures InTransit(ts - {id}, d, e) == InTransit(ts, d, e) - InFlight(ts[id], d, e)
  {
    var m := InFlightMap(ts, d, e);
    assert InFlightMap(ts - {id}, d, e) == m - {id};
    SumRemove(m, id);
  }

  /**
   * What the endpoints rely on of an open record: a pending one sent a
   * non-negative quantity, a mismatched one received part of what was sent,
   * and neither leaves from or goes to TRANSIT itself.
   */
  ghost predicate WellFormed(transit: int, t: Transfer) {
    (t.status == Pending || t.status == Mismatch ==> t.source != transit && t.destination != Some(transit)) &&
    (t.status == Pending ==> t.quantitySent >= 0) &&
    (t.status == Mismatch ==> 0 < t.quantityReceived < t.quantitySent)
  }

  /** Every TRANSIT batch holds exactly what the open transfers owe it. */
  ghost predicate Balanced(transit: int, stock: Stock, ts: map<int, Transfer>) {
    (forall id :: id in ts ==> WellFormed(transit, ts[id])) &&
    (forall d, e :: Qty(stock, BatchKey(Some(transit), d, e)) == InTransit(ts, d, e))
  }

  /** In a balanced store, TRANSIT covers what any one transfer owes. */
  lemma TransitCovers(transit: int, stock: Stock, ts: map<int, Transfer>, id: int)
    requires Balanced(transit, stock, ts) && id in ts
    ensures InFlight(ts[id], ts[id].drug, ts[id].expire) <= Qty(stock, TransitKey(transit, ts[id]))
  {
    var t := ts[id];
    var m := InFlightMap(ts, t.drug, t.expire);
    forall j | j in m ensures m[j] >= 0 {
      assert WellFormed(transit, ts[j]);
    }
    SumCoversEach(m, id);
  }

  /** The record a confirmation with `q` received leaves: confirmed when everything arrived, else mismatched. */
  function Received(t: Transfer, q: int): (t2: Transfer)
    ensures t2.status == Confirmed <==> q == t.quantitySent
    ensures t2.status == Mismatch <==> q != t.quantitySent
    ensures t2.quantityReceived == q
    ensures t2.(quantityReceived := t.quantityReceived, status := t.status) == t
  {
    t.(quantityReceived := q, status := if q == t.quantitySent then Confirmed else Mismatch)
  }

  /**
   * The rows after `q` units of `t` arrive: TRANSIT loses them, and only a
   * warehouse transfer credits its destination; consumer and disposal
   * transfers take the units out of the ledger.
   */
  function Receive(transit: int, stock: Stock, t: Transfer, q: int): (r: Stock)
    requires TransitKey(transit, t) in stock
    ensures Total(r) == Total(stock) - (if t.transferType == WarehouseType then 0 else q)
  {
    if t.transferType == WarehouseType then Move(stock, TransitKey(transit, t), DestKey(t), q)
    else Debit(stock, TransitKey(transit, t), q)
  }

  /**
   * The rows after deleting a pending transfer: the source batch gets the
   * sent quantity back, while TRANSIT is debited only when its row exists
   * and covers that quantity; otherwise the units are created anew.
   */
  function Withdraw(transit: int, stock: Stock, t: Transfer): (r: Stock)
    ensures var tk := TransitKey(transit, t);
            Total(r) == Total(stock) + (if tk in stock && stock[tk] >= t.quantitySent then 0 else t.quantitySent)
  {
    var tk := TransitKey(transit, t);
    if tk in stock && stock[tk] >= t.quantitySent then Move(stock, tk, SourceKey(t), t.quantitySent)
    else Credit(stock, SourceKey(t), t.quantitySent)
  }

  /**
   * The rows after resolving a shortfall of `q`: TRANSIT loses it, and
   * `return_source` or `add_destination` credit the source or destination,
   * while `delete` writes it off.
   */
  function Settle(transit: int, stock: Stock, t: Transfer, action: string, q: int): (r: Stock)
    requires TransitKey(transit, t) in stock
    ensures Total(r) == Total(stock) - (if action == DeleteAction then q else 0)
  {
    var tk := TransitKey(transit, t);
    if action == DeleteAction then Debit(stock, tk, q)
    else if action == ReturnSourceAction then Move(stock, tk, SourceKey(t), q)
    else Move(stock, tk, DestKey(t), q)
  }

  /** Creation keeps the store balanced when the transfer neither starts nor ends at TRANSIT and sends a non-negative amount. */
  lemma CreateKeepsBalance(transit: int, stock: Stock, ts: map<int, Transfer>, id: int, t: Transfer)
    requires Balanced(transit, stock, ts) && id !in ts
    requires t.status == Pending && WellFormed(transit, t)
    requires SourceKey(t) in stock
    ensures Balanced(transit, Move(stock, SourceKey(t), TransitKey(transit, t), t.quantitySent), ts[id := t])
  {
    var s2 := Move(stock, SourceKey(t), TransitKey(transit, t), t.quantitySent);
    forall d, e ensures Qty(s2, BatchKey(Some(transit), d, e)) == InTransit(ts[id := t], d, e) {
      InTransitSet(ts, id, t, d, e);
    }
  }

  /** Receiving part or all of a pending transfer keeps the store balanced. */
  lemma ReceiveKeepsBalance(transit: int, stock: Stock, ts: map<int, Transfer>, id: int, q: int)
    requires Balanced(transit, stock, ts) && id in ts
    requires ts[id].status == Pending
    requires 0 < q <= ts[id].quantitySent || q == ts[id].quantitySent
    requires TransitKey(transit, ts[id]) in stock
    ensures Balanced(transit, Receive(transit, stock, ts[id], q), ts[id := Received(ts[id], q)])
  {
    var t := ts[id];
    var t2 := Received(t, q);
    var s2 := Receive(transit, stock, t, q);
    assert WellFormed(transit, t);
    forall d, e ensures Qty(s2, BatchKey(Some(transit), d, e)) == InTransit(ts[id := t2], d, e) {
      InTransitSet(ts, id, t2, d, e);
    }
  }

  /** Rejecting a pending transfer keeps the store balanced. */
  lemma RejectKeepsBalance(transit: int, stock: Stock, ts: map<int, Transfer>, id: int)
    requires Balanced(transit, stock, ts) && id in ts
    requires ts[id].status == Pending
    requires TransitKey(transit, ts[id]) in stock
    ensures Balanced(transit, Move(stock, TransitKey(transit, ts[id]), SourceKey(ts[id]), ts[id].quantitySent),
                     ts[id := ts[id].(status := Rejected)])
  {
    var t := ts[id];
    var t2 := t.(status := Rejected);
    var s2 := Move(stock, TransitKey(transit, t), SourceKey(t), t.quantitySent);
    assert WellFormed(transit, t);
    forall d, e ensures Qty(s2, BatchKey(Some(transit), d, e)) == InTransit(ts[id := t2], d, e) {
      InTransitSet(ts, id, t2, d, e);
    }
  }

  /**
   * In a balanced store the TRANSIT row always covers a pending transfer,
   * so deleting it takes the debiting branch, and the store stays balanced.
   */
  lemma DeletePendingKeepsBalance(transit: int, stock: Stock, ts: map<int, Transfer>, id: int)
    requires Balanced(transit, stock, ts) && id in ts
    requires ts[id].status == Pending
    ensures ts[id].quantitySent > 0 ==>
              TransitKey(transit, ts[id]) in stock && stock[TransitKey(transit, ts[id])] >= ts[id].quantitySent
    ensures Balanced(transit, Withdraw(transit, stock, ts[id]), ts - {id})
  {
    var t := ts[id];
    TransitCovers(transit, stock, ts, id);
    var s2 := Withdraw(transit, stock, t);
    assert WellFormed(transit, t);
    forall d, e ensures Qty(s2, BatchKey(Some(transit), d, e)) == InTransit(ts - {id}, d, e) {
      InTransitRemove(ts, id, d, e);
    }
  }

  /** Deleting a record that owes nothing (anything but pending or mismatched) keeps the store balanced. */
  lemma DeleteSettledKeepsBalance(transit: int, stock: Stock, ts: map<int, Transfer>, id: int)
    requires Balanced(transit, stock, ts) && id in ts
    requires ts[id].status != Pending && ts[id].status != Mismatch
    ensures Balanced(transit, stock, ts - {id})
  {
    forall d, e ensures Qty(stock, BatchKey(Some(transit), d, e)) == InTransit(ts - {id}, d, e) {
      InTransitRemove(ts, id, d, e);
    }
  }

  /**
   * Deleting a mismatched record leaves its shortfall in TRANSIT with no
   * record owing it: the store is no longer balanced.
   */
  lemma DeleteMismatchUnbalances(transit: int, stock: Stock, ts: map<int, Transfer>, id: int)
    requires Balanced(transit, stock, ts) && id in ts
    requires ts[id].status == Mismatch
    ensures !Balanced(transit, stock, ts - {id})
  {
    var t := ts[id];
    assert WellFormed(transit, t);
    InTransitRemove(ts, id, t.drug, t.expire);
    assert Qty(stock, BatchKey(Some(transit), t.drug, t.expire)) != InTransit(ts - {id}, t.drug, t.expire);
  }

  /** In a balanced store a mismatched record always has a positive shortfall that TRANSIT covers. */
  lemma ShortfallCovered(transit: int, stock: Stock, ts: map<int, Transfer>, id: int)
    requires Balanced(transit, stock, ts) && id in ts
    requires ts[id].status == Mismatch
    ensures var q := ts[id].quantitySent - ts[id].quantityReceived;
            q > 0 && TransitKey(transit, ts[id]) in stock && stock[TransitKey(transit, ts[id])] >= q
  {
    assert WellFormed(transit, ts[id]);
    TransitCovers(transit, stock, ts, id);
  }

  /** Resolving a mismatch with any accepted action keeps the store balanced. */
  lemma SettleKeepsBalance(transit: int, stock: Stock, ts: map<int, Transfer>, id: int, action: string)
    requires Balanced(transit, stock, ts) && id in ts
    requires ts[id].status == Mismatch
    requires TransitKey(transit, ts[id]) in stock
    ensures Balanced(transit, Settle(transit, stock, ts[id], action, ts[id].quantitySent - ts[id].quantityReceived),
                     ts[id := ts[id].(status := Resolved)])
  {
    var t := ts[id];
    var t2 := t.(status := Resolved);
    var s2 := Settle(transit, stock, t, action, t.quantitySent - t.quantityReceived);
    assert WellFormed(transit, t);
    forall d, e ensures Qty(s2, BatchKey(Some(transit), d, e)) == InTransit(ts[id := t2], d, e) {
      InTransitSet(ts, id, t2, d, e);
    }
  }

  /**
   * The session `resolve_mismatch` commits (TRANSIT debited, then the action
   * applied) is the settlement, and it keeps the balance and non-negativity.
   */
  lemma SessionIsSettle(transit: int, stock: Stock, ts: map<int, Transfer>, id: int, action: string, session: Stock)
    requires id in ts && ts[id].status == Mismatch
    requires var t := ts[id]; var tk := TransitKey(transit, t); var q := t.quantitySent - t.quantityReceived;
             tk in stock && 0 < q <= stock[tk] &&
             (action == DeleteAction ==> session == Debit(stock, tk, q)) &&
             (action == ReturnSourceAction ==> session == Credit(Debit(stock, tk, q), SourceKey(t), q)) &&
             (action != DeleteAction && action != ReturnSourceAction ==> session == Credit(Debit(stock, tk, q), DestKey(t), q))
    ensures var t := ts[id]; var q := t.quantitySent - t.quantityReceived;
            session == Settle(transit, stock, t, action, q) &&
            Total(session) == Total(stock) - (if action == DeleteAction then q else 0) &&
            (Balanced(transit, stock, ts) ==> Balanced(transit, session, ts[id := t.(status := Resolved)])) &&
            (Balanced(transit, stock, ts) && NonNegative(stock) ==> NonNegative(session))
  {
    var t := ts[id];
    var q := t.quantitySent - t.quantityReceived;
    assert session == Settle(transit, stock, t, action, q);
    if Balanced(transit, stock, ts) {
      SettleKeepsBalance(transit, stock, ts, id, action);
    }
    if NonNegative(stock) {
      SettleKeepsNonNegative(transit, stock, t, action, q);
    }
  }

  /** Settling a shortfall that TRANSIT covers keeps every row non-negative. */
  lemma SettleKeepsNonNegative(transit: int, stock: Stock, t: Transfer, action: string, q: int)
    requires NonNegative(stock)
    requires TransitKey(transit, t) in stock && 0 <= q <= stock[TransitKey(transit, t)]
    ensures NonNegative(Settle(transit, stock, t, action, q))
  {
    var tk := TransitKey(transit, t);
    if action == DeleteAction {
      DebitKeepsNonNegative(stock, tk, q);
    } else if action == ReturnSourceAction {
      MoveKeepsNonNegative(stock, tk, SourceKey(t), q);
    } else {
      MoveKeepsNonNegative(stock, tk, DestKey(t), q);
    }
  }

  /** Receiving stock into a real warehouse leaves every TRANSIT batch, and so the balance, alone. */
  lemma CreditKeepsBalance(transit: int, stock: Stock, ts: map<int, Transfer>, k: BatchKey, q: int)
    requires Balanced(transit, stock, ts)
    requires k.warehouse != Some(transit)
    ensures Balanced(transit, Credit(stock, k, q), ts)
  {
  }

  /** Create then reject moves the units out of the source batch and back: every quantity is restored. */
  lemma CreateThenRejectRestores(transit: int, stock: Stock, t: Transfer)
    requires SourceKey(t) in stock
    ensures forall k :: Qty(Move(Move(stock, SourceKey(t), TransitKey(transit, t), t.quantitySent),
                                 TransitKey(transit, t), SourceKey(t), t.quantitySent), k) == Qty(stock, k)
  {
    MoveBack(stock, SourceKey(t), TransitKey(transit, t), t.quantitySent);
  }

  /** Whether some record names `key` as its source batch: the query of `check_inventory_used`. */
  predicate UsedAsSource(ts: map<int, Transfer>, key: BatchKey) {
    exists id :: id in ts && SourceKey(ts[id]) == key
  }

  /**
   * The "used" flag lasts only as long as the records: deleting the one
   * record that names a batch as its source clears the flag again.
   */
  lemma DeleteClearsUsed(ts: map<int, Transfer>, id: int, key: BatchKey)
    requires id in ts && SourceKey(ts[id]) == key
    requires forall j :: j in ts && j != id ==> SourceKey(ts[j]) != key
    ensures UsedAsSource(ts, key)
    ensures !UsedAsSource(ts - {id}, key)
  {
  }

  /** Replacing a record by one with the same source batch, as confirm, reject and resolve do, leaves every flag as it was. */
  lemma StatusChangeKeepsUsed(ts: map<int, Transfer>, id: int, t2: Transfer, key: BatchKey)
    requires id in ts && SourceKey(t2) == SourceKey(ts[id])
    ensures UsedAsSource(ts[id := t2], key) <==> UsedAsSource(ts, key)
  {
    if UsedAsSource(ts, key) {
      var j :| j in ts && SourceKey(ts[j]) == key;
      assert j in ts[id := t2] && SourceKey(ts[id := t2][j]) == key;
    }
    if UsedAsSource(ts[id := t2], key) {
      var j :| j in ts[id := t2] && SourceKey(ts[id := t2][j]) == key;
      assert j in ts && SourceKey(ts[j]) == key;
    }
  }

  /** The database: the inventory rows, the transfer records and the id the next record gets. */
  class Store {
    /** The id of the warehouse whose code is TRANSIT. */
    const transit: int
    var stock: Stock
    var transfers: map<int, Transfer>
    var nextId: int

    /** Record ids are below the next id to hand out. */
    ghost predicate Valid()
      reads this
    {
      forall id :: id in transfers ==> id < nextId
    }

    constructor (transit: int)
      ensures Valid() && this.transit == transit
      ensures stock == map[] && transfers == map[]
      ensures Balanced(transit, stock, transfers)
    {
      this.transit := transit;
      stock := map[];
      transfers := map[];
      nextId := 1;
      new;
      forall d, e ensures Qty(stock, BatchKey(Some(transit), d, e)) == InTransit(transfers, d, e) {
        assert InFlightMap(transfers, d, e) == map[];
      }
    }

    /**
     * `add_inventory`: merges into the row for the key when it exists, else
     * inserts a row whose quantity defaults to 0. Either way the key's
     * quantity grows by the given amount.
     */
    method AddInventory(key: BatchKey, quantity: Option<int>) returns (onHand: int)
      requires Valid()
      modifies this
      ensures Valid() && transfers == old(transfers) && nextId == old(nextId)
      ensures stock == Credit(old(stock), key, quantity.GetOr(0))
      ensures onHand == Qty(stock, key)
      ensures Total(stock) == Total(old(stock)) + quantity.GetOr(0)
      ensures old(Balanced(transit, stock, transfers)) && key.warehouse != Some(transit) ==> Balanced(transit, stock, transfers)
      ensures old(NonNegative(stock)) && quantity.GetOr(0) >= 0 ==> NonNegative(stock)
    {
      if key in stock {
        stock := stock[key := stock[key] + quantity.GetOr(0)];
      } else {
        stock := stock[key := NewInventory(0, key, quantity).quantity];
      }
      onHand := stock[key];
      if old(Balanced(transit, stock, transfers)) && key.warehouse != Some(transit) {
        CreditKeepsBalance(transit, old(stock), transfers, key, quantity.GetOr(0));
      }
      if old(NonNegative(stock)) && quantity.GetOr(0) >= 0 {
        CreditKeepsNonNegative(old(stock), key, quantity.GetOr(0));
      }
    }

    /** `check_inventory_used`: a batch is used when any remaining transfer record, of any status, names it as its source. */
    function CheckInventoryUsed(key: BatchKey): (r: Result<bool, ApiError>)
      reads this
      ensures r.Err? <==> key !in stock
      ensures r.Ok? ==> (r.value <==> exists id :: id in transfers && SourceKey(transfers[id]) == key)
    {
      if key !in stock then Err(NotFound)
      else Ok(UsedAsSource(transfers, key))
    }

    /**
     * `create_transfer`: refused when the source batch is missing or holds
     * less than `quantity`; otherwise the quantity moves from the source
     * batch to TRANSIT and a pending record is stored under a fresh id.
     * Nothing checks that `quantity` is positive.
     */
    method CreateTransfer(source: int, drug: int, expire: string, quantity: int,
                          destination: Option<int>, consumer: Option<int>, transferType: string,
                          transferDate: Option<string>) returns (r: Result<int, ApiError>)
      requires Valid()
      modifies this
      ensures Valid()
      ensures var t := Transfer(source, destination, consumer, transferType, drug, Some(expire),
                                transferDate, quantity, 0, Pending);
              if SourceKey(t) !in old(stock) || old(stock)[SourceKey(t)] < quantity then
                r == Err(SourceShort) && stock == old(stock) && transfers == old(transfers) && nextId == old(nextId)
              else
                r == Ok(old(nextId)) && r.value !in old(transfers) && nextId == old(nextId) + 1 &&
                stock == Move(old(stock), SourceKey(t), TransitKey(transit, t), quantity) &&
                transfers == old(transfers)[r.value := t]
      ensures Total(stock) == Total(old(stock))
      ensures r.Ok? ==> CheckInventoryUsed(BatchKey(Some(source), drug, Some(expire))) == Ok(true)
      ensures old(Balanced(transit, stock, transfers)) && quantity >= 0 && source != transit && destination != Some(transit) ==>
                Balanced(transit, stock, transfers)
      ensures old(NonNegative(stock)) && quantity >= 0 ==> NonNegative(stock)
    {
      var t := Transfer(source, destination, consumer, transferType, drug, Some(expire),
                        transferDate, quantity, 0, Pending);
      var sk := SourceKey(t);
      if sk !in stock || stock[sk] < quantity {
        return Err(SourceShort);
      }
      var tk := TransitKey(transit, t);
      var afterSource := Debit(stock, sk, quantity);
      var afterTransit := Credit(afterSource, tk, quantity);
      var id := nextId;
      if Balanced(transit, stock, transfers) && quantity >= 0 && source != transit && destination != Some(transit) {
        CreateKeepsBalance(transit, stock, transfers, id, t);
      }
      if NonNegative(stock) && quantity >= 0 {
        MoveKeepsNonNegative(stock, sk, tk, quantity);
      }
      stock := afterTransit;
      transfers := transfers[id := t];
      nextId := nextId + 1;
      assert SourceKey(transfers[id]) == sk;
      r := Ok(id);
    }

    /**
     * `create_transfer` with the missing guards added: a quantity that is
     * not positive is refused, and so is a transfer from or to TRANSIT
     * itself, so a successful creation never drives a batch below zero and
     * always keeps TRANSIT balanced.
     */
    method CreateTransferChecked(source: int, drug: int, expire: string, quantity: int,
                                 destination: Option<int>, consumer: Option<int>, transferType: string,
                                 transferDate: Option<string>) returns (r: Result<int, ApiError>)
      requires Valid()
      modifies this
      ensures Valid()
      ensures quantity <= 0 ==>
                r == Err(QuantityNotPositive) && stock == old(stock) && transfers == old(transfers) && nextId == old(nextId)
      ensures quantity > 0 && (source == transit || destination == Some(transit)) ==>
                r == Err(TransitEndpoint) && stock == old(stock) && transfers == old(transfers) && nextId == old(nextId)
      ensures r.Ok? ==> quantity > 0 && source != transit && destination != Some(transit) &&
                        transfers == old(transfers)[r.value := Transfer(source, destination, consumer,
                                                      transferType, drug, Some(expire), transferDate, quantity, 0, Pending)]
      ensures Total(stock) == Total(old(stock))
      ensures old(NonNegative(stock)) ==> NonNegative(stock)
      ensures old(Balanced(transit, stock, transfers)) ==> Balanced(transit, stock, transfers)
    {
      if quantity <= 0 {
        return Err(QuantityNotPositive);
      }
      if source == transit || destination == Some(transit) {
        return Err(TransitEndpoint);
      }
      r := CreateTransfer(source, drug, expire, quantity, destination, consumer, transferType, transferDate);
    }

    /**
     * `confirm_transfer`: accepted only for a pending record, a received
     * quantity in (0, sent] and a TRANSIT row that covers it. TRANSIT loses
     * the received quantity, a warehouse transfer credits its destination,
     * and the record becomes confirmed, or mismatched when less arrived; the
     * shortfall stays in TRANSIT.
     */
    method ConfirmTransfer(id: int, received: int) returns (r: Result<Transfer, ApiError>)
      requires Valid()
      modifies this
      ensures Valid() && nextId == old(nextId)
      ensures forall key :: UsedAsSource(transfers, key) <==> UsedAsSource(old(transfers), key)
      ensures id !in old(transfers) ==> r == Err(NotFound)
      ensures id in old(transfers) ==>
                var t := old(transfers)[id];
                var tk := TransitKey(transit, t);
                r == (if t.status != Pending then Err(NotPending)
                      else if received <= 0 then Err(ReceivedNotPositive)
                      else if received > t.quantitySent then Err(ReceivedExceedsSent)
                      else if tk !in old(stock) || old(stock)[tk] < received then Err(TransitShort)
                      else Ok(Received(t, received)))
      ensures r.Err? ==> stock == old(stock) && transfers == old(transfers)
      ensures r.Ok? ==> id in old(transfers) && TransitKey(transit, old(transfers)[id]) in old(stock) &&
                        stock == Receive(transit, old(stock), old(transfers)[id], received) &&
                        transfers == old(transfers)[id := r.value]
      ensures Total(stock) == Total(old(stock)) - (if r.Ok? && r.value.transferType != WarehouseType then received else 0)
      ensures old(Balanced(transit, stock, transfers)) ==> Balanced(transit, stock, transfers)
      ensures old(Balanced(transit, stock, transfers) && NonNegative(stock)) ==> NonNegative(stock)
    {
      if id !in transfers {
        return Err(NotFound);
      }
      var t := transfers[id];
      if t.status != Pending {
        return Err(NotPending);
      }
      if received <= 0 {
        return Err(ReceivedNotPositive);
      }
      if received > t.quantitySent {
        return Err(ReceivedExceedsSent);
      }
      var tk := TransitKey(transit, t);
      if tk !in stock || stock[tk] < received {
        return Err(TransitShort);
      }
      var session := Debit(stock, tk, received);
      if t.transferType == WarehouseType {
        session := Credit(session, DestKey(t), received);
      }
      var t2 := Received(t, received);
      if Balanced(transit, stock, transfers) {
        ReceiveKeepsBalance(transit, stock, transfers, id, received);
        if NonNegative(stock) {
          assert WellFormed(transit, t);
          DebitKeepsNonNegative(stock, tk, received);
          if t.transferType == WarehouseType {
            CreditKeepsNonNegative(Debit(stock, tk, received), DestKey(t), received);
          }
        }
      }
      stock := session;
      transfers := transfers[id := t2];
      forall key ensures UsedAsSource(transfers, key) <==> UsedAsSource(old(transfers), key) {
        StatusChangeKeepsUsed(old(transfers), id, t2, key);
      }
      r := Ok(t2);
    }

    /**
     * `confirm_transfer_by_id`: confirms a pending record in full. TRANSIT
     * must cover the sent quantity; it moves on as in `ConfirmTransfer` and
     * the record becomes confirmed with everything received.
     */
    method ConfirmTransferById(id: int) returns (r: Result<Transfer, ApiError>)
      requires Valid()
      modifies this
      ensures Valid() && nextId == old(nextId)
      ensures forall key :: UsedAsSource(transfers, key) <==> UsedAsSource(old(transfers), key)
      ensures id !in old(transfers) ==> r == Err(NotFound)
      ensures id in old(transfers) ==>
                var t := old(transfers)[id];
                var tk := TransitKey(transit, t);
                r == (if t.status != Pending then Err(NotPending)
                      else if tk !in old(stock) || old(stock)[tk] < t.quantitySent then Err(TransitShort)
                      else Ok(t.(status := Confirmed, quantityReceived := t.quantitySent)))
      ensures r.Err? ==> stock == old(stock) && transfers == old(transfers)
      ensures r.Ok? ==> id in old(transfers) && TransitKey(transit, old(transfers)[id]) in old(stock) &&
                        stock == Receive(transit, old(stock), old(transfers)[id], old(transfers)[id].quantitySent) &&
                        transfers == old(transfers)[id := r.value]
      ensures Total(stock) == Total(old(stock)) - (if r.Ok? && r.value.transferType != WarehouseType then r.value.quantitySent else 0)
      ensures old(Balanced(transit, stock, transfers)) ==> Balanced(transit, stock, transfers)
      ensures old(Balanced(transit, stock, transfers) && NonNegative(stock)) ==> NonNegative(stock)
    {
      if id !in transfers {
        return Err(NotFound);
      }
      var t := transfers[id];
      if t.status != Pending {
        return Err(NotPending);
      }
      var tk := TransitKey(transit, t);
      if tk !in stock || stock[tk] < t.quantitySent {
        return Err(TransitShort);
      }
      var session := Debit(stock, tk, t.quantitySent);
      if t.transferType == WarehouseType {
        session := Credit(session, DestKey(t), t.quantitySent);
      }
      var t2 := t.(status := Confirmed, quantityReceived := t.quantitySent);
      assert t2 == Received(t, t.quantitySent);
      if Balanced(transit, stock, transfers) {
        ReceiveKeepsBalance(transit, stock, transfers, id, t.quantitySent);
        if NonNegative(stock) {
          assert WellFormed(transit, t);
          DebitKeepsNonNegative(stock, tk, t.quantitySent);
          if t.transferType == WarehouseType {
            CreditKeepsNonNegative(Debit(stock, tk, t.quantitySent), DestKey(t), t.quantitySent);
          }
        }
      }
      stock := session;
      transfers := transfers[id := t2];
      forall key ensures UsedAsSource(transfers, key) <==> UsedAsSource(old(transfers), key) {
        StatusChangeKeepsUsed(old(transfers), id, t2, key);
      }
      r := Ok(t2);
    }

    /**
     * `reject_transfer_by_id`: a pending record whose TRANSIT row covers the
     * sent quantity goes back to the source batch (recreated if it was
     * removed) and the record becomes rejected.
     */
    method RejectTransfer(id: int) returns (r: Result<Transfer, ApiError>)
      requires Valid()
      modifies this
      ensures Valid() && nextId == old(nextId)
      ensures forall key :: UsedAsSource(transfers, key) <==> UsedAsSource(old(transfers), key)
      ensures id !in old(transfers) ==> r == Err(NotFound)
      ensures id in old(transfers) ==>
                var t := old(transfers)[id];
                var tk := TransitKey(transit, t);
                r == (if t.status != Pending then Err(NotPending)
                      else if tk !in old(stock) || old(stock)[tk] < t.quantitySent then Err(TransitShort)
                      else Ok(t.(status := Rejected)))
      ensures r.Err? ==> stock == old(stock) && transfers == old(transfers)
      ensures r.Ok? ==> id in old(transfers) && TransitKey(transit, old(transfers)[id]) in old(stock) &&
                        stock == Move(old(stock), TransitKey(transit, old(transfers)[id]), SourceKey(old(transfers)[id]),
                                      old(transfers)[id].quantitySent) &&
                        transfers == old(transfers)[id := r.value]
      ensures Total(stock) == Total(old(stock))
      ensures old(Balanced(transit, stock, transfers)) ==> Balanced(transit, stock, transfers)
      ensures old(Balanced(transit, stock, transfers) && NonNegative(stock)) ==> NonNegative(stock)
    {
      if id !in transfers {
        return Err(NotFound);
      }
      var t := transfers[id];
      if t.status != Pending {
        return Err(NotPending);
      }
      var tk := TransitKey(transit, t);
      if tk !in stock || stock[tk] < t.quantitySent {
        return Err(TransitShort);
      }
      var afterTransit := Debit(stock, tk, t.quantitySent);
      var afterSource := Credit(afterTransit, SourceKey(t), t.quantitySent);
      var t2 := t.(status := Rejected);
      if Balanced(transit, stock, transfers) {
        RejectKeepsBalance(transit, stock, transfers, id);
        if NonNegative(stock) {
          assert WellFormed(transit, t);
          MoveKeepsNonNegative(stock, tk, SourceKey(t), t.quantitySent);
        }
      }
      stock := afterSource;
      transfers := transfers[id := t2];
      forall key ensures UsedAsSource(transfers, key) <==> UsedAsSource(old(transfers), key) {
        StatusChangeKeepsUsed(old(transfers), id, t2, key);
      }
      r := Ok(t2);
    }

    /**
     * `delete_transfer`, as written: refuses only confirmed and rejected
     * records. A pending record is withdrawn (see `Withdraw`); any other
     * record, a mismatched one included, is removed without touching stock.
     */
    method DeleteTransfer(id: int) returns (r: Result<(), ApiError>)
      requires Valid()
      modifies this
      ensures Valid() && nextId == old(nextId)
      ensures id !in old(transfers) ==> r == Err(NotFound) && stock == old(stock) && transfers == old(transfers)
      ensures id in old(transfers) ==>
                var t := old(transfers)[id];
                if t.status == Confirmed || t.status == Rejected then
                  r == Err(ConfirmedOrRejected) && stock == old(stock) && transfers == old(transfers)
                else
                  r == Ok(()) && transfers == old(transfers) - {id} &&
                  stock == (if t.status == Pending then Withdraw(transit, old(stock), t) else old(stock))
      ensures old(Balanced(transit, stock, transfers)) && (id in old(transfers) ==> old(transfers)[id].status != Mismatch) ==>
                Balanced(transit, stock, transfers)
      ensures r.Ok? && id in old(transfers) &&
              (forall j :: j in old(transfers) && j != id ==> SourceKey(old(transfers)[j]) != SourceKey(old(transfers)[id])) ==>
                !UsedAsSource(transfers, SourceKey(old(transfers)[id]))
    {
      if id !in transfers {
        return Err(NotFound);
      }
      var t := transfers[id];
      if t.status == Confirmed || t.status == Rejected {
        return Err(ConfirmedOrRejected);
      }
      var session := stock;
      if t.status == Pending {
        var tk := TransitKey(transit, t);
        if tk in session && session[tk] >= t.quantitySent {
          session := Debit(session, tk, t.quantitySent);
        }
        session := Credit(session, SourceKey(t), t.quantitySent);
      }
      if Balanced(transit, stock, transfers) && t.status != Mismatch {
        if t.status == Pending {
          DeletePendingKeepsBalance(transit, stock, transfers, id);
        } else {
          DeleteSettledKeepsBalance(transit, stock, transfers, id);
        }
      }
      if forall j :: j in transfers && j != id ==> SourceKey(transfers[j]) != SourceKey(t) {
        DeleteClearsUsed(transfers, id, SourceKey(t));
      }
      stock := session;
      transfers := transfers - {id};
      r := Ok(());
    }

    /**
     * `delete_transfer` with the intended rule: only a pending record may
     * be deleted, so no shortfall is ever stranded in TRANSIT and the store
     * stays balanced.
     */
    method DeleteTransferChecked(id: int) returns (r: Result<(), ApiError>)
      requires Valid()
      modifies this
      ensures Valid() && nextId == old(nextId)
      ensures r.Ok? <==> id in old(transfers) && old(transfers)[id].status == Pending
      ensures r.Err? ==> stock == old(stock) && transfers == old(transfers)
      ensures r.Ok? ==> transfers == old(transfers) - {id} && stock == Withdraw(transit, old(stock), old(transfers)[id])
      ensures old(Balanced(transit, stock, transfers)) ==> Balanced(transit, stock, transfers) && Total(stock) == Total(old(stock))
    {
      if id in transfers && transfers[id].status != Pending {
        return Err(OnlyPendingDeletable);
      }
      if Balanced(transit, stock, transfers) && id in transfers {
        DeletePendingKeepsBalance(transit, stock, transfers, id);
      }
      r := DeleteTransfer(id);
    }

    /**
     * The action branch of `resolve_mismatch`, applied to the session in
     * which TRANSIT has already been debited.
     */
    static method ApplyAction(session: Stock, t: Transfer, action: string, q: int) returns (r: Result<Stock, ApiError>)
      ensures action == DeleteAction ==> r == Ok(session)
      ensures action == ReturnSourceAction ==> r == Ok(Credit(session, SourceKey(t), q))
      ensures action == AddDestinationAction ==>
                r == if t.transferType != WarehouseType then Err(NotWarehouseTransfer) else Ok(Credit(session, DestKey(t), q))
      ensures action != DeleteAction && action != ReturnSourceAction && action != AddDestinationAction ==> r == Err(InvalidAction)
    {
      if action == DeleteAction {
        r := Ok(session);
      } else if action == ReturnSourceAction {
        r := Ok(Credit(session, SourceKey(t), q));
      } else if action == AddDestinationAction {
        if t.transferType != WarehouseType {
          return Err(NotWarehouseTransfer);
        }
        r := Ok(Credit(session, DestKey(t), q));
      } else {
        r := Err(InvalidAction);
      }
    }

    /**
     * `resolve_mismatch`: for a mismatched record with a positive shortfall
     * that TRANSIT covers, the shortfall leaves TRANSIT and is written off
     * (`delete`), returned to the source (`return_source`) or added to the
     * destination (`add_destination`, warehouse transfers only); any other
     * action is refused. The record becomes resolved. The TRANSIT debit is
     * made before the action is checked and is discarded with the session
     * when the action is refused.
     */
    method ResolveMismatch(id: int, action: string) returns (r: Result<int, ApiError>)
      requires Valid()
      modifies this
      ensures Valid() && nextId == old(nextId)
      ensures forall key :: UsedAsSource(transfers, key) <==> UsedAsSource(old(transfers), key)
      ensures id !in old(transfers) ==> r == Err(NotFound)
      ensures id in old(transfers) ==>
                var t := old(transfers)[id];
                var q := t.quantitySent - t.quantityReceived;
                var tk := TransitKey(transit, t);
                r == (if t.status != Mismatch then Err(NotMismatch)
                      else if q <= 0 then Err(NoShortfall)
                      else if tk !in old(stock) || old(stock)[tk] < q then Err(TransitShort)
                      else if action == DeleteAction || action == ReturnSourceAction then Ok(q)
                      else if action != AddDestinationAction then Err(InvalidAction)
                      else if t.transferType != WarehouseType then Err(NotWarehouseTransfer)
                      else Ok(q))
      ensures r.Err? ==> stock == old(stock) && transfers == old(transfers)
      ensures r.Ok? ==> id in old(transfers) && TransitKey(transit, old(transfers)[id]) in old(stock) &&
                        stock == Settle(transit, old(stock), old(transfers)[id], action, r.value) &&
                        transfers == old(transfers)[id := old(transfers)[id].(status := Resolved)]
      ensures Total(stock) == Total(old(stock)) - (if r.Ok? && action == DeleteAction then r.value else 0)
      ensures old(Balanced(transit, stock, transfers)) ==> Balanced(transit, stock, transfers)
      ensures old(Balanced(transit, stock, transfers) && NonNegative(stock)) ==> NonNegative(stock)
    {
      if id !in transfers {
        return Err(NotFound);
      }
      var t := transfers[id];
      if t.status != Mismatch {
        return Err(NotMismatch);
      }
      var q := t.quantitySent - t.quantityReceived;
      if q <= 0 {
        return Err(NoShortfall);
      }
      var tk := TransitKey(transit, t);
      if tk !in stock || stock[tk] < q {
        return Err(TransitShort);
      }
      var outcome := ApplyAction(Debit(stock, tk, q), t, action, q);
      if outcome.Err? {
        return Err(outcome.error);
      }
      var session := outcome.value;
      SessionIsSettle(transit, stock, transfers, id, action, session);
      stock := session;
      transfers := transfers[id := t.(status := Resolved)];
      forall key ensures UsedAsSource(transfers, key) <==> UsedAsSource(old(transfers), key) {
        StatusChangeKeepsUsed(old(transfers), id, t.(status := Resolved), key);
      }
      r := Ok(q);
    }
  }

  /**
   * A transfer created and then rejected leaves every batch as it was: the
   * TRANSIT row created for it always covers the rejection.
   */
  method CreateThenReject(s: Store, source: int, drug: int, expire: string, quantity: int,
                          destination: Option<int>) returns (created: Result<int, ApiError>, rejected: Result<Transfer, ApiError>)
    requires s.Valid()
    modifies s
    ensures s.Valid()
    ensures created.Ok? && old(NonNegative(s.stock)) ==>
              rejected.Ok? && rejected.value.status == Rejected &&
              forall k :: Qty(s.stock, k) == Qty(old(s.stock), k)
  {
    ghost var before := s.stock;
    created := s.CreateTransfer(source, drug, expire, quantity, destination, None, WarehouseType, None);
    if created.Err? {
      rejected := Err(NotFound);
      return;
    }
    ghost var t := s.transfers[created.value];
    ghost var sk := SourceKey(t);
    ghost var tk := TransitKey(s.transit, t);
    if NonNegative(before) {
      assert sk in before && before[sk] >= quantity;
      assert Qty(before, tk) >= 0;
      assert tk in s.stock && s.stock[tk] >= quantity;
    }
    rejected := s.RejectTransfer(created.value);
    if rejected.Ok? {
      CreateThenRejectRestores(s.transit, before, t);
    }
  }

  /** Once a mismatch is resolved, resolving it again is refused and changes nothing. */
  method ResolveTwice(s: Store, id: int, action: string) returns (first: Result<int, ApiError>, second: Result<int, ApiError>)
    requires s.Valid()
    modifies s
    ensures first.Ok? ==> second == Err(NotMismatch)
    ensures second.Err?
  {
    first := s.ResolveMismatch(id, action);
    second := s.ResolveMismatch(id, action);
    if first.Ok? {
      assert id in s.transfers && s.transfers[id].status == Resolved;
    }
  }

  /**
   * As written, `create_transfer` takes a negative quantity: 10 units in
   * warehouse 2 and a transfer of -5 leave 15 units at the source and -5 in
   * TRANSIT, so the rows are no longer all non-negative.
   */
  method NegativeQuantityScenario() returns (sourceLeft: int, transitHeld: int, nonNegative: bool)
    ensures sourceLeft == 15 && transitHeld == -5 && !nonNegative
  {
    var s := new Store(1);
    var key := BatchKey(Some(2), 3, Some("2026-01"));
    var transitKey := BatchKey(Some(1), 3, Some("2026-01"));
    var onHand := s.AddInventory(key, Some(10));
    var r := s.CreateTransfer(2, 3, "2026-01", -5, Some(4), None, WarehouseType, None);
    sourceLeft := Qty(s.stock, key);
    transitHeld := Qty(s.stock, transitKey);
    assert transitKey in s.stock && s.stock[transitKey] < 0;
    nonNegative := NonNegative(s.stock);
  }

  /**
   * As written, `create_transfer` accepts TRANSIT as the destination: 10
   * units sent from warehouse 2 to TRANSIT and then confirmed are debited
   * from and credited to the same TRANSIT batch, so they stay there although
   * the record is confirmed and nothing is in flight.
   */
  method TransitDestinationScenario() returns (s: Store, transitHeld: int, status: Status)
    ensures transitHeld == 10 && status == Confirmed
    ensures forall id :: id in s.transfers ==> s.transfers[id].status == Confirmed
    ensures !Balanced(s.transit, s.stock, s.transfers)
  {
    s := new Store(1);
    var key := BatchKey(Some(2), 3, Some("2026-01"));
    var transitKey := BatchKey(Some(1), 3, Some("2026-01"));
    var onHand := s.AddInventory(key, Some(10));
    var created := s.CreateTransfer(2, 3, "2026-01", 10, Some(1), None, WarehouseType, None);
    assert created.Ok?;
    var confirmed := s.ConfirmTransfer(created.value, 10);
    assert confirmed.Ok?;
    transitHeld := Qty(s.stock, transitKey);
    status := confirmed.value.status;
    assert s.transfers == map[created.value := confirmed.value];
    assert InFlightMap(s.transfers, 3, Some("2026-01")) == map[created.value := 0];
    SumInsert(map[], created.value, 0);
  }

  /**
   * As written, `delete_transfer` removes a mismatched record without
   * touching TRANSIT: 10 units sent, 6 received, then the record deleted,
   * leaves 4 units in TRANSIT that no transfer accounts for.
   */
  method MismatchDeleteScenario() returns (transitHeld: int, records: int)
    ensures transitHeld == 4 && records == 0
  {
    var s := new Store(1);
    var key := BatchKey(Some(2), 3, Some("2026-01"));
    var transitKey := BatchKey(Some(1), 3, Some("2026-01"));
    var onHand := s.AddInventory(key, Some(10));
    var created := s.CreateTransfer(2, 3, "2026-01", 10, Some(4), None, WarehouseType, None);
    assert created.Ok?;
    var confirmed := s.ConfirmTransfer(created.value, 6);
    assert confirmed.Ok? && confirmed.value.status == Mismatch;
    var deleted := s.DeleteTransfer(created.value);
    transitHeld := Qty(s.stock, transitKey);
    records := |s.transfers|;
  }

  /**
   * The "used" flag of a batch is not permanent: it is set while a pending
   * transfer from the batch exists, and cleared when that transfer is
   * deleted, because the query looks only at the remaining records.
   */
  method UsedFlagScenario() returns (before: Result<bool, ApiError>, after: Result<bool, ApiError>)
    ensures before == Ok(true) && after == Ok(false)
  {
    var s := new Store(1);
    var key := BatchKey(Some(2), 3, Some("2026-01"));
    var onHand := s.AddInventory(key, Some(10));
    var created := s.CreateTransfer(2, 3, "2026-01", 4, Some(5), None, WarehouseType, None);
    assert created.Ok?;
    before := s.CheckInventoryUsed(key);
    var deleted := s.DeleteTransfer(created.value);
    assert deleted.Ok?;
    after := s.CheckInventoryUsed(key);
  }
}
