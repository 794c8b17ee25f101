/**
 * The colour rule the backend test simulates (the helpers nested in
 * `test_color_logic` of backend/test_expiration_setting.py). A `YYYY-MM` text
 * is read as the LAST day of the month with Python's `int` and `datetime`,
 * whose failures are kept as errors; days are whole days from today's
 * midnight; and a single warning threshold splits the unexpired items.
 */
module ExpirationSetting {
  import opened Wrappers
  import opened Text
  import opened Calendar
  import ExpirationUtils

  /** The exceptions the helpers can raise: `int()` or `datetime()` rejecting a value, or a date before year 1. */
  datatype PyError = ValueError | OverflowError

  /** The whitespace `int()` strips from both ends (the ASCII part of it). */
  predicate IsPySpace(c: char) {
    c == ' ' || c == '\t' || c == '\n' || c == '\r' || c == '\U{000B}' || c == '\U{000C}'
  }

  /** A decimal digit `int()` accepts: ASCII, Arabic-Indic or Persian (Extended Arabic-Indic), with its value. */
  function PyDigit(c: char): (d: Option<int>)
    ensures d.Some? ==> 0 <= d.value <= 9
    ensures IsDigit(c) ==> d == Some(c as int - '0' as int)
  {
    if '0' <= c <= '9' then Some(c as int - '0' as int)
    else if '\U{0660}' <= c <= '\U{0669}' then Some(c as int - 0x0660)
    else if '\U{06F0}' <= c <= '\U{06F9}' then Some(c as int - 0x06F0)
    else None
  }

  function DropLeadingSpace(s: string): (r: string)
    ensures r == [] || !IsPySpace(r[0])
  {
    if s != [] && IsPySpace(s[0]) then DropLeadingSpace(s[1..]) else s
  }

  function DropTrailingSpace(s: string): (r: string)
    ensures r == [] || !IsPySpace(r[|r| - 1])
  {
    if s != [] && IsPySpace(s[|s| - 1]) then DropTrailingSpace(s[..|s| - 1]) else s
  }

  /** `str.strip()` with `int()`'s whitespace. */
  function Strip(s: string): string {
    DropTrailingSpace(DropLeadingSpace(s))
  }

  lemma {:induction false} DropLeadingIsSuffix(s: string)
    ensures |DropLeadingSpace(s)| <= |s| && DropLeadingSpace(s) == s[|s| - |DropLeadingSpace(s)|..]
  {
    if s != [] && IsPySpace(s[0]) {
      DropLeadingIsSuffix(s[1..]);
    }
  }

  lemma {:induction false} DropTrailingIsPrefix(s: string)
    ensures |DropTrailingSpace(s)| <= |s| && DropTrailingSpace(s) == s[..|DropTrailingSpace(s)|]
  {
    if s != [] && IsPySpace(s[|s| - 1]) {
      DropTrailingIsPrefix(s[..|s| - 1]);
    }
  }

  /** The first character left after stripping is a character of the text. */
  lemma StripFirstInText(s: string)
    ensures Strip(s) != [] ==> Strip(s)[0] in s
  {
    var l := DropLeadingSpace(s);
    DropLeadingIsSuffix(s);
    DropTrailingIsPrefix(l);
    if Strip(s) != [] {
      assert Strip(s)[0] == l[0];
      assert s[|s| - |l|] == l[0];
    }
  }

  /**
   * The value of digits with single underscores between them (`1_000`), or
   * `None` when the text is not of that form: empty, a stray character, or
   * an underscore at an end or next to another underscore.
   */
  function GroupedDigits(t: string): (v: Option<nat>)
    ensures v.Some? ==> t != [] && PyDigit(t[0]).Some? && PyDigit(t[|t| - 1]).Some?
  {
    if t == [] || PyDigit(t[|t| - 1]).None? then None
    else
      var d := PyDigit(t[|t| - 1]).value;
      var init := t[..|t| - 1];
      if init == [] then Some(d)
      else
        var pre := if init[|init| - 1] == '_' then init[..|init| - 1] else init;
        match GroupedDigits(pre)
        case None => None
        case Some(v) =>
          assert pre != [] && pre[0] == t[0];
          Some(v * 10 + d)
  }

  /** ASCII digit text is grouped digits with its decimal value. */
  lemma {:induction false} GroupedAsciiDigits(t: string)
    requires t != [] && IsDigits(t)
    ensures GroupedDigits(t) == Some(DigitsValue(t))
  {
    var init := t[..|t| - 1];
    assert IsDigits(init);
    if init != [] {
      assert init[|init| - 1] == t[|t| - 2];
      assert IsDigit(t[|t| - 2]);
      GroupedAsciiDigits(init);
    }
  }

  /** An optional sign, then grouped digits; a stripped text that is not of this form raises ValueError. */
  function ReadSigned(t: string): (r: Result<int, PyError>)
    ensures r.Ok? && r.value < 0 ==> t != [] && t[0] == '-'
  {
    var signed := t != [] && (t[0] == '+' || t[0] == '-');
    match GroupedDigits(if signed then t[1..] else t)
    case None => Err(ValueError)
    case Some(v) => Ok(if signed && t[0] == '-' then -(v as int) else v)
  }

  /** Digit text has nothing to strip and no sign, and reads as its decimal value. */
  lemma AsciiDigitsRead(part: string)
    ensures part != [] && IsDigits(part) ==> ReadSigned(Strip(part)) == Ok(DigitsValue(part))
  {
    if part != [] && IsDigits(part) {
      assert IsDigit(part[0]) && IsDigit(part[|part| - 1]);
      assert Strip(part) == part;
      GroupedAsciiDigits(part);
    }
  }

  /** A text made only of digits `int()` accepts, in any of the modelled scripts. */
  predicate IsPyDigits(s: string) {
    forall i :: 0 <= i < |s| ==> PyDigit(s[i]).Some?
  }

  /** The decimal value of such a text, read digit by digit. */
  function PyDigitsValue(s: string): nat
    requires IsPyDigits(s)
  {
    if s == [] then 0
    else PyDigitsValue(s[..|s| - 1]) * 10 + PyDigit(s[|s| - 1]).value
  }

  /** Digits of any modelled script, without underscores, are grouped digits with their decimal value. */
  lemma {:induction false} GroupedPyDigits(t: string)
    requires t != [] && IsPyDigits(t)
    ensures GroupedDigits(t) == Some(PyDigitsValue(t))
  {
    var init := t[..|t| - 1];
    assert IsPyDigits(init);
    if init != [] {
      assert init[|init| - 1] == t[|t| - 2];
      assert PyDigit(t[|t| - 2]).Some?;
      GroupedPyDigits(init);
    }
  }

  /** A text that does not start with whitespace and ends with a digit has nothing to strip. */
  lemma StripDigitEnd(t: string)
    requires t != [] && !IsPySpace(t[0]) && PyDigit(t[|t| - 1]).Some?
    ensures Strip(t) == t
  {
    assert DropLeadingSpace(t) == t;
    assert !IsPySpace(t[|t| - 1]);
  }

  /** A sign followed by digits is read as their value, negated for `-`. */
  lemma {:induction false} SignedPyDigitsRead(part: string)
    ensures |part| > 1 && (part[0] == '+' || part[0] == '-') && IsPyDigits(part[1..]) ==>
              ReadSigned(Strip(part)) == Ok(if part[0] == '-' then -(PyDigitsValue(part[1..]) as int) else PyDigitsValue(part[1..]))
  {
    if |part| > 1 && (part[0] == '+' || part[0] == '-') && IsPyDigits(part[1..]) {
      var digits := part[1..];
      assert part[|part| - 1] == digits[|digits| - 1];
      StripDigitEnd(part);
      GroupedPyDigits(digits);
    }
  }

  /** Digits alone have nothing to strip and no sign, and are read as their value. */
  lemma {:induction false} PyDigitsRead(part: string)
    ensures part != [] && IsPyDigits(part) ==> ReadSigned(Strip(part)) == Ok(PyDigitsValue(part))
  {
    if part != [] && IsPyDigits(part) {
      assert PyDigit(part[0]).Some? && PyDigit(part[|part| - 1]).Some?;
      StripDigitEnd(part);
      GroupedPyDigits(part);
    }
  }

  /**
   * `int(part)`: surrounding whitespace is stripped, an optional sign is
   * read, and the rest must be grouped digits; anything else raises
   * ValueError.
   */
  function ParseInt(part: string): (r: Result<int, PyError>)
    ensures part != [] && IsDigits(part) ==> r == Ok(DigitsValue(part))
    ensures part != [] && IsPyDigits(part) ==> r == Ok(PyDigitsValue(part))
    ensures |part| > 1 && part[0] == '+' && IsPyDigits(part[1..]) ==> r == Ok(PyDigitsValue(part[1..]))
    ensures |part| > 1 && part[0] == '-' && IsPyDigits(part[1..]) ==> r == Ok(-(PyDigitsValue(part[1..]) as int))
    ensures r.Ok? && '-' !in part ==> r.value >= 0
  {
    AsciiDigitsRead(part);
    PyDigitsRead(part);
    SignedPyDigitsRead(part);
    StripFirstInText(part);
    ReadSigned(Strip(part))
  }

  /** A blank before the text does not change what `int()` reads. */
  lemma LeadingSpaceIgnored(c: char, part: string)
    requires IsPySpace(c)
    ensures ParseInt([c] + part) == ParseInt(part)
  {
    assert ([c] + part)[1..] == part;
    assert DropLeadingSpace([c] + part) == DropLeadingSpace(part);
  }

  /** Stripping leading blanks commutes with appending a blank at the end, unless nothing is left. */
  lemma {:induction false} DropLeadingAppendSpace(x: string, c: char)
    requires IsPySpace(c)
    ensures DropLeadingSpace(x + [c]) == (if DropLeadingSpace(x) == [] then [] else DropLeadingSpace(x) + [c])
  {
    if x != [] {
      assert (x + [c])[0] == x[0] && (x + [c])[1..] == x[1..] + [c];
      if IsPySpace(x[0]) {
        DropLeadingAppendSpace(x[1..], c);
      }
    }
  }

  /** A blank after the text does not change what `int()` reads. */
  lemma TrailingSpaceIgnored(part: string, c: char)
    requires IsPySpace(c)
    ensures ParseInt(part + [c]) == ParseInt(part)
  {
    var l := DropLeadingSpace(part);
    DropLeadingAppendSpace(part, c);
    if l != [] {
      assert (l + [c])[..|l|] == l;
    }
  }

  /** Underscores between digits are read as if they were absent. */
  lemma {:induction false} GroupedWithUnderscore(a: string, b: string)
    requires a != [] && b != [] && IsPyDigits(a) && IsPyDigits(b)
    ensures IsPyDigits(a + b)
    ensures GroupedDigits(a + "_" + b) == Some(PyDigitsValue(a + b))
    decreases |b|
  {
    var t := a + "_" + b;
    var init := t[..|t| - 1];
    assert t[|t| - 1] == (a + b)[|a + b| - 1] == b[|b| - 1];
    var b' := b[..|b| - 1];
    assert IsPyDigits(b');
    if b' == [] {
      assert init == a + "_";
      assert init[..|init| - 1] == a;
      GroupedPyDigits(a);
      assert (a + b)[..|a + b| - 1] == a;
    } else {
      assert init == a + "_" + b';
      assert init[|init| - 1] == b'[|b'| - 1];
      GroupedWithUnderscore(a, b');
      assert (a + b)[..|a + b| - 1] == a + b';
    }
  }

  /** `int(a + "_" + b)` for digit texts `a` and `b` is the value of the digits of `a` then `b`. */
  lemma UnderscoreBetweenDigitsIgnored(a: string, b: string)
    requires a != [] && b != [] && IsPyDigits(a) && IsPyDigits(b)
    ensures IsPyDigits(a + b) && ParseInt(a + "_" + b) == Ok(PyDigitsValue(a + b))
  {
    var t := a + "_" + b;
    GroupedWithUnderscore(a, b);
    assert t[0] == a[0] && t[|t| - 1] == b[|b| - 1];
    assert PyDigit(a[0]).Some? && PyDigit(b[|b| - 1]).Some?;
    StripDigitEnd(t);
  }

  /** `int(" 05")` and `int("+5")` are 5: a blank and a plus sign are accepted. */
  lemma BlankAndPlusAccepted()
    ensures ParseInt(" 05") == Ok(5)
    ensures ParseInt("+5") == Ok(5)
  {
    LeadingSpaceIgnored(' ', "05");
    assert " 05" == [' '] + "05";
    assert DigitsValue("05") == 5 by {
      assert "05"[..1] == "0" && "0"[..0] == "";
    }
    assert Strip("+5") == "+5";
    assert "+5"[1..] == "5";
    assert GroupedDigits("5") == Some(5) by {
      assert "5"[..0] == [];
    }
  }

  /** `int("1_000")` is 1000: single underscores between digits are accepted. */
  lemma UnderscoresBetweenDigits()
    ensures ParseInt("1_000") == Ok(1000)
  {
    assert GroupedDigits("1") == Some(1) by { assert "1"[..0] == []; }
    assert GroupedDigits("1_0") == Some(10) by { assert "1_0"[..2] == "1_" && "1_"[..1] == "1"; }
    assert GroupedDigits("1_00") == Some(100) by { assert "1_00"[..3] == "1_0"; }
    assert GroupedDigits("1_000") == Some(1000) by { assert "1_000"[..4] == "1_00"; }
    assert Strip("1_000") == "1_000";
  }

  /** A doubled or a leading underscore makes `int()` raise. */
  lemma UnderscoresMisplaced()
    ensures ParseInt("1__0").Err? && ParseInt("_1").Err?
  {
    assert GroupedDigits("1_") == None;
    assert GroupedDigits("1__0") == None by { assert "1__0"[..3] == "1__" && "1__"[..2] == "1_"; }
    assert Strip("1__0") == "1__0";
    assert GroupedDigits("") == None;
    assert GroupedDigits("_1") == None by { assert "_1"[..1] == "_" && "_"[..0] == []; }
    assert Strip("_1") == "_1";
  }

  /** `int("۱۴۰۳")` is 1403: Persian digits are read like ASCII ones. */
  lemma PersianDigitsAccepted(t: string)
    requires t == "\U{06F1}\U{06F4}\U{06F0}\U{06F3}"
    ensures ParseInt(t) == Ok(1403)
  {
    assert GroupedDigits(t[..1]) == Some(1) by { assert t[..1][..0] == []; }
    assert GroupedDigits(t[..2]) == Some(14) by { assert t[..2][..1] == t[..1]; }
    assert GroupedDigits(t[..3]) == Some(140) by { assert t[..3][..2] == t[..2]; }
    assert GroupedDigits(t) == Some(1403) by { assert t[..3] == t[..|t| - 1]; }
    assert Strip(t) == t;
  }

  /** `datetime(year, month, 1) - timedelta(days=1)`: the range checks of `datetime`, then the day before. */
  function DayBeforeFirstOf(year: int, month: int): (r: Result<int, PyError>)
    ensures r.Ok? <==> 1 <= year <= 9999 && 1 <= month <= 12 && (year, month) != (1, 1)
    ensures r.Ok? ==> r.value == DayNumber(year, month, 1) - 1
  {
    if !(1 <= year <= 9999) || !(1 <= month <= 12) then Err(ValueError)
    else if year == 1 && month == 1 then Err(OverflowError)
    else Ok(DayNumber(year, month, 1) - 1)
  }

  /**
   * `parse_expire_date`: `None` for an empty or absent text or one that does
   * not split into exactly two parts; otherwise the day before the first of
   * the next month (December rolls into January of the next year).
   */
  function ParseExpireDate(s: Option<string>): (r: Result<Option<int>, PyError>)
    ensures s == None || s == Some("") ==> r == Ok(None)
    ensures s.Some? && |Split(s.value, '-')| != 2 ==> r == Ok(None)
  {
    if s == None || s == Some("") then Ok(None)
    else
      var parts := Split(s.value, '-');
      if |parts| != 2 then Ok(None)
      else
        LastDayOfParsed(ParseInt(parts[0]), ParseInt(parts[1]))
  }

  /** The last day of the month once `int()` has read both parts; the first exception raised wins. */
  function LastDayOfParsed(year: Result<int, PyError>, month: Result<int, PyError>): Result<Option<int>, PyError> {
    match (year, month)
    case (Err(e), _) => Err(e)
    case (_, Err(e)) => Err(e)
    case (Ok(y), Ok(m)) =>
      var last := if m == 12 then DayBeforeFirstOf(y + 1, 1) else DayBeforeFirstOf(y, m + 1);
      match last
      case Err(e) => Err(e)
      case Ok(day) => Ok(Some(day))
  }

  /** A text with one `-` is read by `int()` part by part. */
  lemma TwoParts(s: string, a: string, b: string)
    requires s != "" && Split(s, '-') == [a, b]
    ensures ParseExpireDate(Some(s)) == LastDayOfParsed(ParseInt(a), ParseInt(b))
  {
  }

  /** A text of two digit parts is read by `int()` part by part. */
  lemma {:induction false} TwoDigitParts(ys: string, ms: string)
    requires ys != [] && ms != [] && IsDigits(ys) && IsDigits(ms)
    ensures ParseExpireDate(Some(ys + "-" + ms)) == LastDayOfParsed(Ok(DigitsValue(ys)), Ok(DigitsValue(ms)))
  {
    DigitsHoldNoDash(ys);
    DigitsHoldNoDash(ms);
    SplitAround(ys, ms, '-');
    assert ys + "-" + ms == ys + ['-'] + ms;
    assert |ys + "-" + ms| > 0;
  }

  /** A well-formed `YYYY-MM` in `datetime`'s range is read as the last day of that month. */
  lemma {:induction false} ParseYearMonth(ys: string, ms: string)
    requires ys != [] && ms != [] && IsDigits(ys) && IsDigits(ms)
    requires 1 <= DigitsValue(ys) <= 9999 && 1 <= DigitsValue(ms) <= 12
    requires DigitsValue(ys) < 9999 || DigitsValue(ms) < 12
    ensures ParseExpireDate(Some(ys + "-" + ms)) == Ok(Some(LastDayOfMonth(DigitsValue(ys), DigitsValue(ms))))
  {
    TwoDigitParts(ys, ms);
    LastDayOfValidMonth(DigitsValue(ys), DigitsValue(ms));
  }

  lemma LastDayOfValidMonth(y: int, m: int)
    requires 1 <= y <= 9999 && 1 <= m <= 12 && (y < 9999 || m < 12)
    ensures LastDayOfParsed(Ok(y), Ok(m)) == Ok(Some(LastDayOfMonth(y, m)))
  {
    NextMonthStart(y, m);
  }

  /** Month 0 is accepted and read as 31 December of the year before; month 13 and beyond raise. */
  lemma {:induction false} MonthOutOfRange(ys: string, ms: string)
    requires ys != [] && ms != [] && IsDigits(ys) && IsDigits(ms)
    requires 2 <= DigitsValue(ys) <= 9999
    ensures DigitsValue(ms) == 0 ==> ParseExpireDate(Some(ys + "-" + ms)) == Ok(Some(LastDayOfMonth(DigitsValue(ys) - 1, 12)))
    ensures DigitsValue(ms) >= 13 ==> ParseExpireDate(Some(ys + "-" + ms)) == Err(ValueError)
  {
    TwoDigitParts(ys, ms);
    LastDayOfMonthOutOfRange(DigitsValue(ys), DigitsValue(ms));
  }

  lemma LastDayOfMonthOutOfRange(y: int, m: int)
    requires 2 <= y <= 9999 && m >= 0
    ensures m == 0 ==> LastDayOfParsed(Ok(y), Ok(m)) == Ok(Some(LastDayOfMonth(y - 1, 12)))
    ensures m >= 13 ==> LastDayOfParsed(Ok(y), Ok(m)) == Err(ValueError)
  {
    if m == 0 {
      NextMonthStart(y - 1, 12);
      assert DayBeforeFirstOf(y, 1) == Ok(LastDayOfMonth(y - 1, 12));
    }
  }

  /** A Persian-digit year is read like an ASCII one: `۱۴۰۳-05` is the last day of May 1403. */
  lemma PersianYearRead(ys: string)
    requires ys == "\U{06F1}\U{06F4}\U{06F0}\U{06F3}"
    ensures ParseExpireDate(Some(ys + "-05")) == Ok(Some(LastDayOfMonth(1403, 5)))
  {
    assert '-' !in ys;
    DigitsHoldNoDash("05");
    SplitAround(ys, "05", '-');
    assert ys + "-05" == ys + ['-'] + "05";
    TwoParts(ys + "-05", ys, "05");
    PersianDigitsAccepted(ys);
    assert DigitsValue("05") == 5 by {
      assert "05"[..1] == "0" && "0"[..0] == "";
    }
    LastDayOfValidMonth(1403, 5);
  }

  /** `get_days_until_expiration`: the exact number of days from today's midnight to the expiry day. */
  function DaysUntilExpiration(s: Option<string>, today: int): (r: Result<Option<int>, PyError>)
    ensures r.Err? <==> ParseExpireDate(s).Err?
    ensures r.Ok? ==> (r.value.None? <==> ParseExpireDate(s).value.None?)
    ensures r.Ok? && r.value.Some? ==> today + r.value.value == ParseExpireDate(s).value.value
  {
    match ParseExpireDate(s)
    case Err(e) => Err(e)
    case Ok(None) => Ok(None)
    case Ok(Some(expire)) => Ok(Some(expire - today))
  }

  /** `get_expiration_color` once the days are known. */
  function ColorOfDays(days: Option<int>, warningDays: int): (c: ExpirationUtils.Color)
    ensures c == ExpirationUtils.Default <==> days.None?
    ensures c == ExpirationUtils.Error <==> days.Some? && days.value <= 0
    ensures c == ExpirationUtils.Warning ==> days.Some? && 0 < days.value < warningDays
    ensures c == ExpirationUtils.Success ==> days.Some? && days.value > 0 && days.value >= warningDays
  {
    match days
    case None => ExpirationUtils.Default
    case Some(d) =>
      if d <= 0 then ExpirationUtils.Error
      else if d < warningDays then ExpirationUtils.Warning
      else ExpirationUtils.Success
  }

  /** `get_expiration_color(date_str, warning_days)`; an exception of the helpers propagates. */
  function GetExpirationColor(s: Option<string>, today: int, warningDays: int): Result<ExpirationUtils.Color, PyError> {
    match DaysUntilExpiration(s, today)
    case Err(e) => Err(e)
    case Ok(days) => Ok(ColorOfDays(days, warningDays))
  }

  /**
   * Changing the warning threshold only moves items between warning and
   * success: the error and default verdicts do not depend on it, and a larger
   * threshold never makes a verdict less severe.
   */
  lemma ThresholdOnlyMovesWarning(days: Option<int>, w1: int, w2: int)
    requires w1 <= w2
    ensures ColorOfDays(days, w1) == ExpirationUtils.Error <==> ColorOfDays(days, w2) == ExpirationUtils.Error
    ensures ColorOfDays(days, w1) == ExpirationUtils.Default <==> ColorOfDays(days, w2) == ExpirationUtils.Default
    ensures ExpirationUtils.Severity(ColorOfDays(days, w1)) <= ExpirationUtils.Severity(ColorOfDays(days, w2))
  {
  }

  /**
   * The scenarios of the test, for a `today` and the month `(y, m)` that
   * `strftime("%Y-%m")` gives for a shifted day: an item dated by the month of
   * today - 30 is always red, and one dated by the month of today + 120 is
   * always green at 90 and at 60.
   */
  lemma {:induction false} ExpiredScenario(today: int, y: int, m: int)
    requires 1 <= m <= 12
    requires DayNumber(y, m, 1) <= today - 30 <= LastDayOfMonth(y, m)
    ensures ColorOfDays(Some(LastDayOfMonth(y, m) - today), 90) == ExpirationUtils.Error
  {
  }

  lemma {:induction false} LaterScenario(today: int, y: int, m: int)
    requires 1 <= m <= 12
    requires DayNumber(y, m, 1) <= today + 120 <= LastDayOfMonth(y, m)
    ensures ColorOfDays(Some(LastDayOfMonth(y, m) - today), 90) == ExpirationUtils.Success
    ensures ColorOfDays(Some(LastDayOfMonth(y, m) - today), 60) == ExpirationUtils.Success
  {
  }

  /**
   * The "about 45 days" item counts between 45 and 75 days to the end of its
   * month: always warning at 90 and green at 30, but at 60 its colour depends
   * on the day of the month the test runs.
   */
  lemma {:induction false} FortyFiveDayScenario(today: int, y: int, m: int)
    requires 1 <= m <= 12
    requires DayNumber(y, m, 1) <= today + 45 <= LastDayOfMonth(y, m)
    ensures 45 <= LastDayOfMonth(y, m) - today <= 75
    ensures ColorOfDays(Some(LastDayOfMonth(y, m) - today), 90) == ExpirationUtils.Warning
    ensures ColorOfDays(Some(LastDayOfMonth(y, m) - today), 30) == ExpirationUtils.Success
  {
  }

  /**
   * Run on 17 March 2025, the item is dated 2025-05 and has 75 days left, so
   * at a threshold of 60 it is green where the test expects warning.
   */
  lemma FortyFiveDaysGreenAtSixty()
    ensures DayNumber(2025, 5, 1) <= DayNumber(2025, 3, 17) + 45 <= LastDayOfMonth(2025, 5)
    ensures GetExpirationColor(Some("2025-05"), DayNumber(2025, 3, 17), 60) == Ok(ExpirationUtils.Success)
  {
    MayOf2025();
    assert "2025-05" == "2025" + "-" + "05";
    ParseYearMonth("2025", "05");
    SeventyFiveDays();
  }

  /** The text `2025-05` reads as year 2025, month 5. */
  lemma MayOf2025()
    ensures IsDigits("2025") && IsDigits("05")
    ensures DigitsValue("2025") == 2025 && DigitsValue("05") == 5
  {
    assert "2025"[..3] == "202" && "202"[..2] == "20" && "20"[..1] == "2" && "2"[..0] == "";
    assert "05"[..1] == "0" && "0"[..0] == "";
  }

  /** From 17 March 2025, 45 days later is in May, whose last day is 75 days away. */
  lemma SeventyFiveDays()
    ensures DayNumber(2025, 5, 1) <= DayNumber(2025, 3, 17) + 45 <= LastDayOfMonth(2025, 5)
    ensures LastDayOfMonth(2025, 5) - DayNumber(2025, 3, 17) == 75
  {
  }
}
