/**
 * The dashboard card of frontend/src/components/ExpiringDrugsCard.js: each
 * expiring batch is listed with a status label computed from its days left
 * and a chip coloured by `getExpirationColor` with the user's warning
 * setting and the default danger band of 30 days. Rows are numbered by
 * their position in the fetched list.
 */
module ExpiringDrugsCard {
  import opened Wrappers
  import opened ExpirationUtils

  /** "no expiry date", "expired", "near expiry" and "healthy". */
  datatype StatusLabel = NoExpiry | ExpiredStatus | NearExpiry | Healthy

  /** `getStatusLabel(expireDate)` at time `nowMs`. */
  function GetStatusLabel(expireDate: Option<string>, nowMs: int, warningDays: int): (l: StatusLabel)
    ensures l == NoExpiry <==> DaysUntilExpiration(expireDate, nowMs).NullDays?
    ensures DaysUntilExpiration(expireDate, nowMs).NaNDays? ==> l == Healthy
    ensures DaysUntilExpiration(expireDate, nowMs).Days? ==>
              var n := DaysUntilExpiration(expireDate, nowMs).n;
              (l == ExpiredStatus <==> n <= 0) &&
              (l == NearExpiry <==> 0 < n < warningDays) &&
              (l == Healthy <==> n > 0 && n >= warningDays)
  {
    var days := DaysUntilExpiration(expireDate, nowMs);
    if days.NullDays? then NoExpiry
    else if Le(days, 0) then ExpiredStatus
    else if Lt(days, warningDays) then NearExpiry
    else Healthy
  }

  /** The chip colour of both the expiry and the status column. */
  function ChipColor(expireDate: Option<string>, nowMs: int, warningDays: int): Color {
    GetExpirationColor(expireDate, nowMs, warningDays, DefaultDangerDays)
  }

  /**
   * Where label and chip agree: no date is uncoloured, an expired batch is
   * red, and a batch labelled healthy with at least 30 days left is green.
   */
  lemma LabelAndChipAgree(expireDate: Option<string>, nowMs: int, warningDays: int)
    ensures var l := GetStatusLabel(expireDate, nowMs, warningDays);
            var c := ChipColor(expireDate, nowMs, warningDays);
            (l == NoExpiry <==> c == Default) &&
            (l == ExpiredStatus ==> c == Error) &&
            (l == NearExpiry ==> c in {Error, Warning}) &&
            ((l == Healthy && DaysUntilExpiration(expireDate, nowMs).Days? &&
              DaysUntilExpiration(expireDate, nowMs).n >= DefaultDangerDays) ==> c == Success)
  {
  }

  /**
   * Where they disagree: with fewer than 30 days left a batch is labelled
   * "near expiry", or "healthy" when the warning setting is below its days,
   * while its chip is the same red as an expired batch.
   */
  lemma NearExpiryShownInErrorColor(expireDate: Option<string>, nowMs: int, warningDays: int)
    requires DaysUntilExpiration(expireDate, nowMs).Days?
    requires 0 < DaysUntilExpiration(expireDate, nowMs).n < DefaultDangerDays
    ensures GetStatusLabel(expireDate, nowMs, warningDays) in {NearExpiry, Healthy}
    ensures ChipColor(expireDate, nowMs, warningDays) == Error
  {
  }

  /** A batch as `GET /expiring-drugs` lists it. */
  datatype ExpiringDrug = ExpiringDrug(name: string, warehouse: string, quantity: int, expire: Option<string>)

  /** A grid row: the batch with the `id` the grid keys on. */
  datatype Row = Row(drug: ExpiringDrug, id: int)

  /** `drugs.map((d, i) => ({ ...d, id: i }))`. */
  function WithRowIds(drugs: seq<ExpiringDrug>): (rows: seq<Row>)
    ensures |rows| == |drugs|
    ensures forall i :: 0 <= i < |rows| ==> rows[i].drug == drugs[i]
  {
    seq(|drugs|, i requires 0 <= i < |drugs| => Row(drugs[i], i))
  }

  /** The ids are the positions 0..n-1, so no two rows share an id, as the grid requires. */
  lemma RowIdsArePositions(drugs: seq<ExpiringDrug>)
    ensures forall i :: 0 <= i < |drugs| ==> WithRowIds(drugs)[i].id == i
    ensures forall i, j :: 0 <= i < j < |drugs| ==> WithRowIds(drugs)[i].id != WithRowIds(drugs)[j].id
  {
  }

  /** Dropping the ids gives back the fetched list. */
  lemma RowIdsRoundTrip(drugs: seq<ExpiringDrug>)
    ensures seq(|drugs|, i requires 0 <= i < |drugs| => WithRowIds(drugs)[i].drug) == drugs
  {
  }
}
