/**
 * The frontend expiration helpers (frontend/src/utils/expirationUtils.js):
 * a `YYYY-MM` text is read as the FIRST day of that month, the days left are
 * the ceiling of the millisecond difference from "now", and a colour, a
 * label and a sort order are derived from them. JavaScript values are kept
 * as they are: a missing date gives `null`, an unreadable one an Invalid Date
 * whose difference is NaN, and `null`/NaN take part in comparisons the way
 * JavaScript compares them.
 */
module ExpirationUtils {
  import opened Wrappers
  import opened Text
  import opened Calendar

  const DefaultWarningDays: int := 90
  const DefaultDangerDays: int := 30

  /** `Number(part)` for one piece of the split text; an absent piece is `undefined`. */
  datatype JsNumber = Num(n: int) | NaN

  function ToNumber(part: Option<string>): JsNumber {
    match part
    case None => NaN
    case Some(t) => if IsDigits(t) then Num(DigitsValue(t)) else NaN
  }

  /** `Number` of the text before the first `-`: the year. */
  function YearNumber(t: string): JsNumber {
    ToNumber(Some(Split(t, '-')[0]))
  }

  /** `Number` of the text between the first and second `-`: the month, NaN when there is none. */
  function MonthNumber(t: string): JsNumber {
    var parts := Split(t, '-');
    ToNumber(if |parts| >= 2 then Some(parts[1]) else None)
  }

  /** The result of `parseExpireDate`: `null`, an Invalid Date, or a local midnight (as a day number). */
  datatype ParsedDate = NullDate | InvalidDate | ValidDate(day: int)

  /** `new Date(year, month - 1, 1)` of the first two `-`-separated numbers; `null` for an empty or absent text. */
  function ParseExpireDate(s: Option<string>): (r: ParsedDate)
    ensures r.NullDate? <==> s == None || s == Some("")
    ensures r.InvalidDate? <==> s != None && s != Some("") && (YearNumber(s.value).NaN? || MonthNumber(s.value).NaN?)
  {
    if s == None || s == Some("") then NullDate
    else
      var year := YearNumber(s.value);
      var month := MonthNumber(s.value);
      if year.NaN? || month.NaN? then InvalidDate
      else ValidDate(MakeDay(JsFullYear(year.n), month.n - 1, 1))
  }

  /** A well-formed `YYYY-MM` text is read as the first day of that month. */
  lemma ParseYearMonth(ys: string, ms: string)
    requires IsDigits(ys) && IsDigits(ms)
    requires 1 <= DigitsValue(ms) <= 12
    ensures ParseExpireDate(Some(ys + "-" + ms)) == ValidDate(DayNumber(JsFullYear(DigitsValue(ys)), DigitsValue(ms), 1))
  {
    DigitsHoldNoDash(ys);
    DigitsHoldNoDash(ms);
    SplitAround(ys, ms, '-');
    assert ys + "-" + ms == ys + ['-'] + ms;
    assert YearNumber(ys + "-" + ms) == Num(DigitsValue(ys));
    assert MonthNumber(ys + "-" + ms) == Num(DigitsValue(ms));
    MakeDayFirst(JsFullYear(DigitsValue(ys)), DigitsValue(ms));
  }

  /** What `getDaysUntilExpiration` returns: `null`, NaN, or a whole number of days. */
  datatype Days = NullDays | NaNDays | Days(n: int)

  /** JavaScript `days < x`: `null` compares as 0 and NaN compares false. */
  predicate Lt(d: Days, x: int) {
    match d
    case NullDays => 0 < x
    case NaNDays => false
    case Days(n) => n < x
  }

  /** JavaScript `days <= x`. */
  predicate Le(d: Days, x: int) {
    match d
    case NullDays => 0 <= x
    case NaNDays => false
    case Days(n) => n <= x
  }

  /** JavaScript `days >= x`. */
  predicate Ge(d: Days, x: int) {
    match d
    case NullDays => 0 >= x
    case NaNDays => false
    case Days(n) => n >= x
  }

  /** `Math.ceil((expireDate - now) / one day)`, with `now` in milliseconds since the epoch. */
  function DaysUntilExpiration(s: Option<string>, nowMs: int): (r: Days)
    ensures r.NullDays? <==> ParseExpireDate(s).NullDate?
    ensures r.NaNDays? <==> ParseExpireDate(s).InvalidDate?
    ensures ParseExpireDate(s).ValidDate? ==>
              r.Days? && (r.n - 1) * MsPerDay < ParseExpireDate(s).day * MsPerDay - nowMs <= r.n * MsPerDay
  {
    match ParseExpireDate(s)
    case NullDate => NullDays
    case InvalidDate => NaNDays
    case ValidDate(day) => Days(CeilDays(day * MsPerDay - nowMs))
  }

  /** At any moment of a day, the days left are the whole days from that day to the first of the expiry month. */
  lemma DaysIgnoreTimeOfDay(s: Option<string>, today: int, msIntoDay: int)
    requires 0 <= msIntoDay < MsPerDay
    requires ParseExpireDate(s).ValidDate?
    ensures DaysUntilExpiration(s, today * MsPerDay + msIntoDay) == Days(ParseExpireDate(s).day - today)
  {
    var day := ParseExpireDate(s).day;
    assert day * MsPerDay - (today * MsPerDay + msIntoDay) == (day - today) * MsPerDay + -msIntoDay;
    CeilDaysOfSum(day - today, -msIntoDay);
  }

  /** The MUI colour names the helpers return. */
  datatype Color = Default | Error | Warning | Success

  /** How alarming a colour is: error > warning > success. */
  function Severity(c: Color): int {
    match c
    case Error => 2
    case Warning => 1
    case Success => 0
    case Default => 0
  }

  /** `getExpirationColor` once the days are known. */
  function ColorOfDays(days: Days, warningDays: int, dangerDays: int): (c: Color)
    ensures c == Default <==> days.NullDays?
    ensures days.Days? ==> (c == Error <==> days.n <= 0 || days.n < dangerDays)
    ensures days.Days? ==> (c == Warning <==> !(days.n <= 0 || days.n < dangerDays) && days.n < warningDays)
    ensures days.Days? ==> (c == Success <==> days.n > 0 && days.n >= dangerDays && days.n >= warningDays)
    ensures days.NaNDays? ==> c == Success
  {
    if days.NullDays? then Default
    else if Le(days, 0) || Lt(days, dangerDays) then Error
    else if Lt(days, warningDays) then Warning
    else Success
  }

  /** `getExpirationColor(expireDateStr, warningDays, dangerDays)`. */
  function GetExpirationColor(s: Option<string>, nowMs: int, warningDays: int, dangerDays: int): Color {
    ColorOfDays(DaysUntilExpiration(s, nowMs), warningDays, dangerDays)
  }

  /** With the default thresholds the colour partitions the day line at 30 and 90. */
  lemma DefaultColorBands(n: int)
    ensures ColorOfDays(Days(n), DefaultWarningDays, DefaultDangerDays) ==
              if n < 30 then Error else if n < 90 then Warning else Success
  {
  }

  /** More days left never gives a more alarming colour. */
  lemma ColorMonotone(a: int, b: int, warningDays: int, dangerDays: int)
    requires a <= b
    ensures Severity(ColorOfDays(Days(b), warningDays, dangerDays)) <= Severity(ColorOfDays(Days(a), warningDays, dangerDays))
  {
  }

  /** `getExpirationBgColor`: one background per colour, white otherwise. */
  function BgColor(c: Color): (hex: string)
    ensures |hex| == 7 && hex[0] == '#'
    ensures c == Default <==> hex == "#ffffff"
  {
    match c
    case Error => "#ffebee"
    case Warning => "#fff3e0"
    case Success => "#e8f5e9"
    case Default => "#ffffff"
  }

  /** `getExpirationTextColor`: one text colour per colour, black otherwise. */
  function TextColor(c: Color): (hex: string)
    ensures |hex| == 7 && hex[0] == '#'
    ensures c == Default <==> hex == "#000000"
  {
    match c
    case Error => "#d32f2f"
    case Warning => "#f57c00"
    case Success => "#388e3c"
    case Default => "#000000"
  }

  /** Different colours get different backgrounds and different text colours. */
  lemma StylingInjective(c1: Color, c2: Color)
    requires c1 != c2
    ensures BgColor(c1) != BgColor(c2) && TextColor(c1) != TextColor(c2)
  {
  }

  /** The label texts of `getExpirationLabel` (unknown, expired, one day, n days, n months, and "NaN months"). */
  datatype Label = Unknown | Expired | OneDayLeft | DaysLeft(n: int) | MonthsLeft(months: int) | NaNMonthsLeft

  /** `getExpirationLabel` once the days are known; NaN falls through every test to "NaN months". */
  function ExpirationLabel(days: Days): (l: Label)
    ensures l == Unknown <==> days.NullDays?
    ensures l == NaNMonthsLeft <==> days.NaNDays?
    ensures l == Expired <==> days.Days? && days.n <= 0
    ensures l == OneDayLeft <==> days == Days(1)
    ensures l.DaysLeft? <==> days.Days? && 1 < days.n < 30
    ensures l.DaysLeft? ==> l.n == days.n
    ensures l.MonthsLeft? <==> days.Days? && days.n >= 30
    ensures l.MonthsLeft? ==> l.months >= 1 && 30 * l.months <= days.n < 30 * l.months + 30
  {
    match days
    case NullDays => Unknown
    case NaNDays => NaNMonthsLeft
    case Days(n) =>
      if n <= 0 then Expired
      else if n == 1 then OneDayLeft
      else if n < 30 then DaysLeft(n)
      else MonthsLeft(n / 30)
  }

  /**
   * The label and the default colour tell the same story: "expired" and the
   * day counts are red, a one- or two-month label is orange, and three
   * months or more is green.
   */
  lemma LabelMatchesDefaultColor(n: int)
    ensures var l := ExpirationLabel(Days(n));
            var c := ColorOfDays(Days(n), DefaultWarningDays, DefaultDangerDays);
            (c == Error <==> !l.MonthsLeft?) &&
            (c == Warning <==> l.MonthsLeft? && l.months < 3) &&
            (c == Success <==> l.MonthsLeft? && l.months >= 3)
  {
    if n >= 30 {
      assert n / 30 < 3 <==> n < 90;
    }
  }

  /** An item as the sort sees it: its `expire_date` and everything else, identified by `id`. */
  datatype DatedItem = DatedItem(id: int, expireDate: Option<string>)

  /** Where an item belongs in the sort: by its date, or after every dated item. */
  datatype SortKey = Dated(day: int) | Undated

  function KeyOf(item: DatedItem): SortKey {
    match ParseExpireDate(item.expireDate)
    case ValidDate(day) => Dated(day)
    case _ => Undated
  }

  predicate KeyLe(a: SortKey, b: SortKey) {
    match a
    case Dated(x) => b.Undated? || x <= b.day
    case Undated => b.Undated?
  }

  predicate SortedByExpiry(s: seq<DatedItem>) {
    forall i, j :: 0 <= i < j < |s| ==> KeyLe(KeyOf(s[i]), KeyOf(s[j]))
  }

  lemma KeyLeTransitive(a: SortKey, b: SortKey, c: SortKey)
    requires KeyLe(a, b) && KeyLe(b, c)
    ensures KeyLe(a, c)
  {
  }

  /** Puts `x` before the first item it does not follow. */
  function Insert(x: DatedItem, s: seq<DatedItem>): (r: seq<DatedItem>)
    ensures multiset(r) == multiset(s) + multiset{x}
    ensures |r| == |s| + 1
  {
    if s == [] then [x]
    else if KeyLe(KeyOf(x), KeyOf(s[0])) then [x] + s
    else
      assert s == [s[0]] + s[1..];
      [s[0]] + Insert(x, s[1..])
  }

  lemma {:induction false} InsertSorted(x: DatedItem, s: seq<DatedItem>)
    requires SortedByExpiry(s)
    ensures SortedByExpiry(Insert(x, s))
  {
    if s != [] {
      if KeyLe(KeyOf(x), KeyOf(s[0])) {
        forall j | 0 <= j < |s| ensures KeyLe(KeyOf(x), KeyOf(s[j])) {
          if j > 0 { KeyLeTransitive(KeyOf(x), KeyOf(s[0]), KeyOf(s[j])); }
        }
      } else {
        var rest := Insert(x, s[1..]);
        InsertSorted(x, s[1..]);
        forall k | 0 <= k < |rest| ensures KeyLe(KeyOf(s[0]), KeyOf(rest[k])) {
          assert rest[k] in multiset(rest);
          if rest[k] != x {
            assert rest[k] in multiset(s[1..]);
            var j :| 0 <= j < |s[1..]| && s[1..][j] == rest[k];
            assert s[j + 1] == rest[k];
          }
        }
      }
    }
  }

  /**
   * `sortByExpirationDate`: a sorted copy, nearest date first, undated items last.
   * Items with an unreadable date are placed with the undated ones.
   */
  function SortByExpirationDate(items: seq<DatedItem>): (r: seq<DatedItem>)
    ensures multiset(r) == multiset(items)
    ensures SortedByExpiry(r)
  {
    if items == [] then []
    else
      assert items == [items[0]] + items[1..];
      var rest := SortByExpirationDate(items[1..]);
      InsertSorted(items[0], rest);
      Insert(items[0], rest)
  }

  /** The items of `s` whose sort key is `k`, in their order in `s`. */
  function WithKey(s: seq<DatedItem>, k: SortKey): (r: seq<DatedItem>)
    ensures forall i :: 0 <= i < |r| ==> KeyOf(r[i]) == k
  {
    if s == [] then []
    else (if KeyOf(s[0]) == k then [s[0]] else []) + WithKey(s[1..], k)
  }

  /** Inserting `x` puts it before every item that shares its key, and moves no other item of that key. */
  lemma {:induction false} InsertWithKey(x: DatedItem, s: seq<DatedItem>, k: SortKey)
    ensures WithKey(Insert(x, s), k) == (if KeyOf(x) == k then [x] else []) + WithKey(s, k)
  {
    if s != [] {
      var r := Insert(x, s);
      if KeyLe(KeyOf(x), KeyOf(s[0])) {
        assert r[1..] == s;
      } else {
        assert r[1..] == Insert(x, s[1..]);
        InsertWithKey(x, s[1..], k);
      }
    }
  }

  /**
   * The sort is stable: the items that share a key (the same date, or both
   * undated) keep their input order, as `Array.prototype.sort` promises.
   */
  lemma {:induction false} SortIsStable(items: seq<DatedItem>, k: SortKey)
    ensures WithKey(SortByExpirationDate(items), k) == WithKey(items, k)
  {
    if items != [] {
      SortIsStable(items[1..], k);
      InsertWithKey(items[0], SortByExpirationDate(items[1..]), k);
    }
  }

  /**
   * The comparator handed to `Array.prototype.sort`: 1 when the first date is
   * missing, -1 when only the second is, else the difference of the dates (an
   * Invalid Date makes it NaN, which the sort reads as 0).
   */
  function Compare(a: DatedItem, b: DatedItem): int {
    match (ParseExpireDate(a.expireDate), ParseExpireDate(b.expireDate))
    case (NullDate, _) => 1
    case (_, NullDate) => -1
    case (ValidDate(x), ValidDate(y)) => (x - y) * MsPerDay
    case _ => 0
  }

  /**
   * The sorted copy never holds a pair the comparator asks to swap, except
   * after an item with no date (for which the comparator answers 1 against
   * everything, itself included, so no order can satisfy it).
   */
  lemma SortRespectsComparator(items: seq<DatedItem>, i: int, j: int)
    requires 0 <= i < j < |SortByExpirationDate(items)|
    requires !ParseExpireDate(SortByExpirationDate(items)[i].expireDate).NullDate?
    ensures Compare(SortByExpirationDate(items)[i], SortByExpirationDate(items)[j]) <= 0
  {
    var r := SortByExpirationDate(items);
    assert KeyLe(KeyOf(r[i]), KeyOf(r[j]));
  }
}
