/**
 * The stand-alone expiry script (test_expiry.js). It reads `YYYY-MM` as the
 * LAST day of the month at 23:59:59, counts days from today's midnight and
 * sorts each result into one of four tiers. Its driver walks a list of dates
 * and stops at the first one it cannot read: it formats that date with
 * `toLocaleDateString`, which throws on `null`.
 */
module ExpiryScript {
  import opened Wrappers
  import opened Text
  import opened Calendar
  import ExpirationUtils

  /** 23:59:59 as milliseconds into the day. */
  const EndOfDayMs: int := 86_399_000

  /** JavaScript's `!x` for a number: true for 0 and NaN. */
  predicate Falsy(x: ExpirationUtils.JsNumber) {
    x.NaN? || x.n == 0
  }

  /**
   * `parseExpireDate`: `null` for an absent or empty text, or when the year or
   * the month reads as 0 or NaN; else `new Date(year, month, 0, 23, 59, 59)`,
   * as milliseconds since the epoch.
   */
  function ParseExpireDate(s: Option<string>): (r: Option<int>)
    ensures r.None? <==> s == None || s == Some("") ||
                         Falsy(ExpirationUtils.YearNumber(s.value)) || Falsy(ExpirationUtils.MonthNumber(s.value))
    ensures r.Some? ==> r.value % MsPerDay == EndOfDayMs
  {
    if s == None || s == Some("") then None
    else
      var year := ExpirationUtils.YearNumber(s.value);
      var month := ExpirationUtils.MonthNumber(s.value);
      if Falsy(year) || Falsy(month) then None
      else
        var day := MakeDay(JsFullYear(year.n), month.n, 0);
        EndOfDaySplits(day);
        Some(day * MsPerDay + EndOfDayMs)
  }

  /** 23:59:59 of day `d` lies within day `d`. */
  lemma EndOfDaySplits(d: int)
    ensures (d * MsPerDay + EndOfDayMs) / MsPerDay == d
    ensures (d * MsPerDay + EndOfDayMs) % MsPerDay == EndOfDayMs
  {
  }

  /** A year without a month, and a month written as `00`, both read as `null`. */
  lemma {:induction false} MissingOrZeroMonthIsNull(ys: string)
    requires IsDigits(ys) && ys != []
    ensures ParseExpireDate(Some(ys)) == None
    ensures ParseExpireDate(Some(ys + "-00")) == None
  {
    DigitsHoldNoDash(ys);
    assert Split(ys, '-') == [ys];
    assert ExpirationUtils.MonthNumber(ys) == ExpirationUtils.NaN;
    DigitsHoldNoDash("00");
    SplitAround(ys, "00", '-');
    assert ys + "-00" == ys + ['-'] + "00";
    assert DigitsValue("00") == 0 by {
      assert "00"[..1] == "0";
      assert "0"[..0] == "";
    }
    assert ExpirationUtils.MonthNumber(ys + "-00") == ExpirationUtils.Num(0);
  }

  /** A well-formed `YYYY-MM` is read as the end of the last day of that month, February and December included. */
  lemma {:induction false} ParseYearMonth(ys: string, ms: string)
    requires IsDigits(ys) && IsDigits(ms)
    requires DigitsValue(ys) != 0 && 1 <= DigitsValue(ms) <= 12
    ensures ParseExpireDate(Some(ys + "-" + ms)) ==
              Some(LastDayOfMonth(JsFullYear(DigitsValue(ys)), DigitsValue(ms)) * MsPerDay + EndOfDayMs)
  {
    DigitsHoldNoDash(ys);
    DigitsHoldNoDash(ms);
    SplitAround(ys, ms, '-');
    MakeDayLast(JsFullYear(DigitsValue(ys)), DigitsValue(ms));
  }

  /**
   * `getDaysUntilExpiration`: today is first set back to midnight, then the
   * ceiling of the difference in days is taken. The result counts the days from
   * today to the expiry day, both included.
   */
  function DaysUntilExpiration(s: Option<string>, nowMs: int): (r: Option<int>)
    ensures r.None? <==> ParseExpireDate(s).None?
    ensures r.Some? ==> r.value == ParseExpireDate(s).value / MsPerDay - nowMs / MsPerDay + 1
  {
    match ParseExpireDate(s)
    case None => None
    case Some(expireMs) =>
      var midnight := (nowMs / MsPerDay) * MsPerDay;
      var k := expireMs / MsPerDay - nowMs / MsPerDay + 1;
      assert expireMs - midnight == k * MsPerDay + (EndOfDayMs - MsPerDay);
      CeilDaysOfSum(k, EndOfDayMs - MsPerDay);
      Some(CeilDays(expireMs - midnight))
  }

  /** The days the script prints for a well-formed `YYYY-MM`: up to and including the month's last day. */
  lemma {:induction false} DaysToEndOfMonth(ys: string, ms: string, nowMs: int)
    requires IsDigits(ys) && IsDigits(ms)
    requires DigitsValue(ys) != 0 && 1 <= DigitsValue(ms) <= 12
    ensures DaysUntilExpiration(Some(ys + "-" + ms), nowMs) ==
              Some(LastDayOfMonth(JsFullYear(DigitsValue(ys)), DigitsValue(ms)) - nowMs / MsPerDay + 1)
  {
    ParseYearMonth(ys, ms);
    var last := LastDayOfMonth(JsFullYear(DigitsValue(ys)), DigitsValue(ms));
    assert (last * MsPerDay + EndOfDayMs) / MsPerDay == last;
  }

  /** An expiry month that is not before the current month always leaves at least one day. */
  lemma {:induction false} CurrentMonthNotExpired(ys: string, ms: string, nowMs: int, ty: int, tm: int)
    requires IsDigits(ys) && IsDigits(ms)
    requires DigitsValue(ys) != 0 && 1 <= DigitsValue(ms) <= 12
    requires 1 <= tm <= 12 && nowMs / MsPerDay <= LastDayOfMonth(ty, tm)
    requires var y := JsFullYear(DigitsValue(ys)); ty < y || (ty == y && tm <= DigitsValue(ms))
    ensures DaysUntilExpiration(Some(ys + "-" + ms), nowMs).Some?
    ensures DaysUntilExpiration(Some(ys + "-" + ms), nowMs).value >= 1
  {
    DaysToEndOfMonth(ys, ms, nowMs);
    LastDayMonotone(ty, tm, JsFullYear(DigitsValue(ys)), DigitsValue(ms));
  }

  /**
   * The script counts a whole month more than the shared helper: at midnight
   * the helper measures to the first day of the month, the script past its last.
   */
  lemma {:induction false} ScriptCountsWholeMonth(ys: string, ms: string, today: int)
    requires IsDigits(ys) && IsDigits(ms)
    requires DigitsValue(ys) != 0 && 1 <= DigitsValue(ms) <= 12
    ensures var y := JsFullYear(DigitsValue(ys));
            var m := DigitsValue(ms);
            DaysUntilExpiration(Some(ys + "-" + ms), today * MsPerDay).Some? &&
            ExpirationUtils.DaysUntilExpiration(Some(ys + "-" + ms), today * MsPerDay) ==
              ExpirationUtils.Days(DaysUntilExpiration(Some(ys + "-" + ms), today * MsPerDay).value - DaysInMonth(y, m))
  {
    var y := JsFullYear(DigitsValue(ys));
    var m := DigitsValue(ms);
    DaysToEndOfMonth(ys, ms, today * MsPerDay);
    ExpirationUtils.ParseYearMonth(ys, ms);
    ExpirationUtils.DaysIgnoreTimeOfDay(Some(ys + "-" + ms), today, 0);
  }

  /** The four tiers of the driver loop. */
  datatype Tier = Expired | Critical | Warning | Safe

  /** The if-chain of the driver: below 0, below 30, below 90, the rest. */
  function TierOf(days: int): (t: Tier)
    ensures t == Expired <==> days < 0
    ensures t == Critical <==> 0 <= days < 30
    ensures t == Warning <==> 30 <= days < 90
    ensures t == Safe <==> 90 <= days
  {
    if days < 0 then Expired
    else if days < 30 then Critical
    else if days < 90 then Warning
    else Safe
  }

  function Rank(t: Tier): int {
    match t
    case Expired => 3
    case Critical => 2
    case Warning => 1
    case Safe => 0
  }

  /** More days never give a more urgent tier. */
  lemma TierMonotone(a: int, b: int)
    requires a <= b
    ensures Rank(TierOf(b)) <= Rank(TierOf(a))
  {
  }

  /** One printed line: the date text, the expiry day, the days left and the tier. */
  datatype Line = Line(date: string, lastDay: int, days: int, tier: Tier)

  /**
   * The `forEach` driver: one line per date, in order, until a date does not
   * parse, where the script throws and stops. `completed` says whether every
   * date was printed.
   */
  method Report(dates: seq<string>, nowMs: int) returns (lines: seq<Line>, completed: bool)
    ensures completed <==> forall i :: 0 <= i < |dates| ==> ParseExpireDate(Some(dates[i])).Some?
    ensures completed ==> |lines| == |dates|
    ensures !completed ==> |lines| < |dates| && ParseExpireDate(Some(dates[|lines|])).None?
    ensures forall i :: 0 <= i < |lines| ==>
              ParseExpireDate(Some(dates[i])).Some? &&
              lines[i].date == dates[i] &&
              lines[i].lastDay == ParseExpireDate(Some(dates[i])).value / MsPerDay &&
              lines[i].days == DaysUntilExpiration(Some(dates[i]), nowMs).value &&
              lines[i].tier == TierOf(lines[i].days)
  {
    lines := [];
    var i := 0;
    while i < |dates|
      invariant 0 <= i <= |dates| && |lines| == i
      invariant forall k :: 0 <= k < i ==>
                  ParseExpireDate(Some(dates[k])).Some? &&
                  lines[k].date == dates[k] &&
                  lines[k].lastDay == ParseExpireDate(Some(dates[k])).value / MsPerDay &&
                  lines[k].days == DaysUntilExpiration(Some(dates[k]), nowMs).value &&
                  lines[k].tier == TierOf(lines[k].days)
    {
      var days := DaysUntilExpiration(Some(dates[i]), nowMs);
      var expDate := ParseExpireDate(Some(dates[i]));
      if expDate.None? {
        return lines, false;
      }
      var status := TierOf(days.value);
      lines := lines + [Line(dates[i], expDate.value / MsPerDay, days.value, status)];
      i := i + 1;
    }
    completed := true;
  }
}
