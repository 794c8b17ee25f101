/**
 * The transfer request dialog (frontend/src/components/TransferDialog.js):
 * the batches offered for the chosen source warehouse, and the checks
 * `handleSubmit` makes before it hands a request to the caller. Select
 * values are ids or empty; the quantity field is text, read with
 * JavaScript's `parseInt`.
 */
module TransferDialog {
  import opened Wrappers
  import opened Text
  import opened Forms

  /** A number as `parseInt` returns it. */
  datatype JsInt = Int(n: int) | NaN

  /** Length of the run of digits at the start of `s`. */
  function DigitPrefix(s: string): (k: nat)
    ensures k <= |s| && IsDigits(s[..k])
    ensures k < |s| ==> !IsDigit(s[k])
  {
    if s == [] || !IsDigit(s[0]) then 0
    else
      var k := 1 + DigitPrefix(s[1..]);
      assert s[..k] == [s[0]] + s[1..][..k - 1];
      k
  }

  /**
   * `parseInt(s)`: leading spaces are skipped, an optional sign is read, then
   * the longest run of digits; no digits at all gives NaN.
   */
  function ParseInt(s: string): (r: JsInt)
    ensures IsDigits(s) && s != [] ==> r == Int(DigitsValue(s))
    decreases |s|
  {
    if s != [] && s[0] == ' ' then ParseInt(s[1..])
    else
      var neg := s != [] && s[0] == '-';
      var body := if s != [] && (s[0] == '-' || s[0] == '+') then s[1..] else s;
      var k := DigitPrefix(body);
      if k == 0 then NaN
      else
        assert IsDigits(s) ==> body == s && k == |s| && s[..k] == s;
        Int(if neg then -(DigitsValue(body[..k]) as int) else DigitsValue(body[..k]))
  }

  /** A batch as the inventory list holds it. */
  datatype Batch = Batch(id: int, warehouseId: int, drugId: int, expireDate: Option<string>, quantity: int)

  /** The batches offered: those of the source warehouse with stock left. */
  function AvailableInventory(inventory: seq<Batch>, sourceWarehouse: Choice): (r: seq<Batch>)
    ensures forall b :: b in r <==> b in inventory && sourceWarehouse.Picked? && b.warehouseId == sourceWarehouse.id && b.quantity > 0
    ensures |r| <= |inventory|
  {
    if inventory == [] then []
    else
      var b := inventory[0];
      (if sourceWarehouse.Picked? && b.warehouseId == sourceWarehouse.id && b.quantity > 0 then [b] else [])
        + AvailableInventory(inventory[1..], sourceWarehouse)
  }

  /** `inventory.find(inv => inv.id === id)`. */
  function FindBatch(inventory: seq<Batch>, id: int): (r: Option<Batch>)
    ensures r.Some? ==> r.value in inventory && r.value.id == id
    ensures r.None? ==> forall b :: b in inventory ==> b.id != id
  {
    if inventory == [] then None
    else if inventory[0].id == id then Some(inventory[0])
    else FindBatch(inventory[1..], id)
  }

  /** The dialog's fields. */
  datatype Form = Form(transferType: string, sourceWarehouse: Choice, destWarehouse: Choice, consumerId: Choice,
                       selectedInventoryId: Choice, quantity: string, transferDate: string)

  /** The request body handed to `onSubmit`. */
  datatype Request = Request(sourceWarehouseId: int, destinationWarehouseId: Option<int>, consumerId: Option<int>,
                             drugId: int, expireDate: Option<string>, quantity: JsInt, transferType: string, transferDate: string)

  /** The messages `handleSubmit` shows instead of submitting. */
  datatype DialogError = MissingFields | MissingDestination | MissingConsumer | BatchNotFound | ExceedsStock

  /** `parseInt(quantity) > selectedInv.quantity`, false when NaN. */
  predicate Exceeds(q: JsInt, stock: int) {
    q.Int? && q.n > stock
  }

  /** The first guard: a batch, a quantity and a source warehouse are given. */
  predicate FieldsFilled(form: Form) {
    Truthy(form.selectedInventoryId) && form.quantity != "" && Truthy(form.sourceWarehouse)
  }

  /** The type guards: a warehouse transfer names its destination, a consumer transfer its consumer. */
  predicate TypeFieldsFilled(form: Form) {
    (form.transferType == "warehouse" ==> Truthy(form.destWarehouse)) &&
    (form.transferType == "consumer" ==> Truthy(form.consumerId))
  }

  /** `handleSubmit`: the guards in order, then the request. */
  function Submit(form: Form, inventory: seq<Batch>): (r: Result<Request, DialogError>)
    ensures r == Err(MissingFields) <==> !FieldsFilled(form)
    ensures r == Err(MissingDestination) <==> FieldsFilled(form) && form.transferType == "warehouse" && !Truthy(form.destWarehouse)
    ensures r == Err(MissingConsumer) <==> FieldsFilled(form) && form.transferType == "consumer" && !Truthy(form.consumerId)
    ensures r == Err(BatchNotFound) <==>
              FieldsFilled(form) && TypeFieldsFilled(form) && FindBatch(inventory, form.selectedInventoryId.id).None?
    ensures r == Err(ExceedsStock) <==>
              FieldsFilled(form) && TypeFieldsFilled(form) && FindBatch(inventory, form.selectedInventoryId.id).Some? &&
              Exceeds(ParseInt(form.quantity), FindBatch(inventory, form.selectedInventoryId.id).value.quantity)
    ensures r.Ok? <==>
              FieldsFilled(form) && TypeFieldsFilled(form) && FindBatch(inventory, form.selectedInventoryId.id).Some? &&
              !Exceeds(ParseInt(form.quantity), FindBatch(inventory, form.selectedInventoryId.id).value.quantity)
    ensures r.Ok? ==>
              var batch := FindBatch(inventory, form.selectedInventoryId.id).value;
              r.value.sourceWarehouseId == form.sourceWarehouse.id &&
              (r.value.destinationWarehouseId.Some? <==> form.transferType == "warehouse") &&
              (r.value.consumerId.Some? <==> form.transferType == "consumer") &&
              !(r.value.destinationWarehouseId.Some? && r.value.consumerId.Some?) &&
              r.value.drugId == batch.drugId && r.value.expireDate == batch.expireDate &&
              r.value.quantity == ParseInt(form.quantity) && r.value.transferType == form.transferType &&
              r.value.transferDate == form.transferDate
  {
    if !Truthy(form.selectedInventoryId) || form.quantity == "" || !Truthy(form.sourceWarehouse) then Err(MissingFields)
    else if form.transferType == "warehouse" && !Truthy(form.destWarehouse) then Err(MissingDestination)
    else if form.transferType == "consumer" && !Truthy(form.consumerId) then Err(MissingConsumer)
    else
      match FindBatch(inventory, form.selectedInventoryId.id)
      case None => Err(BatchNotFound)
      case Some(selected) =>
        var q := ParseInt(form.quantity);
        if Exceeds(q, selected.quantity) then Err(ExceedsStock)
        else Ok(Request(
          form.sourceWarehouse.id,
          if form.transferType == "warehouse" then Some(form.destWarehouse.id) else None,
          if form.transferType == "consumer" then Some(form.consumerId.id) else None,
          selected.drugId, selected.expireDate, q, form.transferType, form.transferDate))
  }

  /** A quantity up to the batch's stock, for a batch in the list, with the fields the type needs, is always submitted. */
  lemma CompleteFormSubmits(form: Form, inventory: seq<Batch>, batch: Batch)
    requires Truthy(form.selectedInventoryId) && Truthy(form.sourceWarehouse)
    requires form.transferType == "warehouse" ==> Truthy(form.destWarehouse)
    requires form.transferType == "consumer" ==> Truthy(form.consumerId)
    requires FindBatch(inventory, form.selectedInventoryId.id) == Some(batch)
    requires IsDigits(form.quantity) && form.quantity != [] && DigitsValue(form.quantity) <= batch.quantity
    ensures Submit(form, inventory).Ok?
    ensures Submit(form, inventory).value.quantity == Int(DigitsValue(form.quantity))
  {
    assert ParseInt(form.quantity) == Int(DigitsValue(form.quantity));
    assert form.quantity != "";
    assert !(form.transferType == "warehouse" && !Truthy(form.destWarehouse));
    assert !(form.transferType == "consumer" && !Truthy(form.consumerId));
    assert !Exceeds(ParseInt(form.quantity), batch.quantity);
    assert Submit(form, inventory) == Ok(Request(
      form.sourceWarehouse.id,
      if form.transferType == "warehouse" then Some(form.destWarehouse.id) else None,
      if form.transferType == "consumer" then Some(form.consumerId.id) else None,
      batch.drugId, batch.expireDate, ParseInt(form.quantity), form.transferType, form.transferDate));
  }

  /**
   * The dialog lets through quantities the backend should never see: a
   * negative number, and text with no digits (NaN, which the request then
   * carries as `null`).
   */
  lemma NonPositiveQuantityPasses(form: Form, inventory: seq<Batch>)
    requires Truthy(form.selectedInventoryId) && Truthy(form.sourceWarehouse)
    requires form.transferType == "disposal"
    requires FindBatch(inventory, form.selectedInventoryId.id).Some?
    requires FindBatch(inventory, form.selectedInventoryId.id).value.quantity >= 0
    requires form.quantity == "-5" || form.quantity == "abc"
    ensures Submit(form, inventory).Ok?
    ensures Submit(form, inventory).value.quantity == (if form.quantity == "-5" then Int(-5) else NaN)
  {
    assert "-5"[1..] == "5";
    assert "5"[..1] == "5" && "5"[..0] == "";
  }
}
