/**
 * The row highlighting of frontend/src/components/ReportExport.js: each row
 * of the exported-report grid gets a CSS class from its expiry month. The
 * critical band is fixed at 30 days and the warning band ends at the
 * user's `exp_warning_days` setting.
 */
module ReportExport {
  import opened Wrappers
  import opened ExpirationUtils

  /** `''`, `row-expired`, `row-critical` and `row-warning`. */
  datatype RowClass = NoClass | RowExpired | RowCritical | RowWarning

  /** The upper end of the critical band. */
  const CriticalDays: int := 30

  /** `getRowClassName` for a row with `expire_date` at time `nowMs`. */
  function RowClassName(expireDate: Option<string>, nowMs: int, warningDays: int): (c: RowClass)
    ensures expireDate.None? || expireDate == Some("") ==> c == NoClass
    ensures DaysUntilExpiration(expireDate, nowMs).NaNDays? ==> c == NoClass
    ensures DaysUntilExpiration(expireDate, nowMs).Days? ==>
              var n := DaysUntilExpiration(expireDate, nowMs).n;
              (c == RowExpired <==> n < 0) &&
              (c == RowCritical <==> 0 <= n < CriticalDays) &&
              (c == RowWarning <==> CriticalDays <= n < warningDays) &&
              (c == NoClass <==> n >= CriticalDays && n >= warningDays)
  {
    if expireDate.None? || expireDate.value == "" then NoClass
    else
      var days := DaysUntilExpiration(expireDate, nowMs);
      if days.NullDays? then NoClass
      else if Lt(days, 0) then RowExpired
      else if Lt(days, CriticalDays) then RowCritical
      else if Lt(days, warningDays) then RowWarning
      else NoClass
  }

  /**
   * The row class agrees with the colour `getExpirationColor` gives the
   * same month under the same warning setting and the default danger band:
   * expired and critical rows are the `error` ones, warning rows the
   * `warning` ones, and unhighlighted rows those coloured `success` or, for
   * a row without a month, `default`.
   */
  lemma RowClassAgreesWithColor(expireDate: Option<string>, nowMs: int, warningDays: int)
    ensures var c := RowClassName(expireDate, nowMs, warningDays);
            var color := GetExpirationColor(expireDate, nowMs, warningDays, DefaultDangerDays);
            (c in {RowExpired, RowCritical} <==> color == Error) &&
            (c == RowWarning <==> color == Warning) &&
            (c == NoClass <==> color in {Success, Default})
  {
  }

  /** A later month never gets a more urgent class: the classes order the days. */
  lemma RowClassMonotone(s1: Option<string>, s2: Option<string>, nowMs: int, warningDays: int)
    requires DaysUntilExpiration(s1, nowMs).Days? && DaysUntilExpiration(s2, nowMs).Days?
    requires DaysUntilExpiration(s1, nowMs).n <= DaysUntilExpiration(s2, nowMs).n
    ensures Urgency(RowClassName(s2, nowMs, warningDays)) <= Urgency(RowClassName(s1, nowMs, warningDays))
  {
  }

  /** How urgent a class is: expired, then critical, then warning, then none. */
  function Urgency(c: RowClass): int {
    match c
    case RowExpired => 3
    case RowCritical => 2
    case RowWarning => 1
    case NoClass => 0
  }
}
