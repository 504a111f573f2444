/** src/components/MyPage.tsx: the attendance calendar and watch statistics
    of the learner's own page. Dates are compared by their calendar fields;
    the local time zone is not modelled. */
module MyPage {
  import opened Common
  import opened Text
  import opened Json
  import opened Types
  import opened Browser
  import WatchProgressHook

  // ---------------------------------------------------------------- calendar

  /** The selected month; `month` runs from 1 to 12. */
  datatype YearMonth = YearMonth(year: int, month: int)

  predicate ValidMonth(ym: YearMonth) { 1 <= ym.month <= 12 }

  /** The year `new Date(y, …)` uses: 0 to 99 stand for 1900 to 1999. */
  function DateYear(y: int): int { if 0 <= y <= 99 then 1900 + y else y }

  predicate IsLeap(y: int) { y % 4 == 0 && (y % 100 != 0 || y % 400 == 0) }

  /** Gregorian month lengths. */
  function MonthLength(y: int, m: int): (n: int)
    requires 1 <= m <= 12
    ensures 28 <= n <= 31
    ensures m == 2 ==> (n == 29 <==> IsLeap(y))
  {
    if m == 2 then (if IsLeap(y) then 29 else 28)
    else if m == 4 || m == 6 || m == 9 || m == 11 then 30
    else 31
  }

  /** `new Date(year, month, 0).getDate()`: the length of the selected month. */
  function DaysInMonth(ym: YearMonth): (n: int)
    requires ValidMonth(ym)
    ensures 28 <= n <= 31
  {
    MonthLength(DateYear(ym.year), ym.month)
  }

  /** Days from 1 January of year 1 to 1 January of year `y` (proleptic Gregorian). */
  function DaysBeforeYear(y: int): int
  {
    var p := y - 1;
    365 * p + p / 4 - p / 100 + p / 400
  }

  function DaysBeforeMonth(y: int, m: int): int
    requires 1 <= m <= 12
  {
    if m == 1 then 0 else DaysBeforeMonth(y, m - 1) + MonthLength(y, m - 1)
  }

  /** Days since 1 January of year 1. */
  function DayNumber(y: int, m: int, d: int): int
    requires 1 <= m <= 12
  {
    DaysBeforeYear(y) + DaysBeforeMonth(y, m) + d - 1
  }

  /** `getDay()`: 0 is Sunday; 1 January of year 1 was a Monday. */
  function Weekday(y: int, m: int, d: int): (w: int)
    requires 1 <= m <= 12
    ensures 0 <= w < 7
  {
    (DayNumber(y, m, d) + 1) % 7
  }

  /** `new Date(year, month - 1, 1).getDay()`: the grid's leading empty cells. */
  function FirstWeekday(ym: YearMonth): (w: int)
    requires ValidMonth(ym)
    ensures 0 <= w < 7
  {
    Weekday(DateYear(ym.year), ym.month, 1)
  }

  /** A year has 365 days, 366 when it is a leap year. */
  lemma YearLength(y: int)
    ensures DaysBeforeYear(y + 1) == DaysBeforeYear(y) + (if IsLeap(y) then 366 else 365)
  {
    var p := y - 1;
    QuadStep(p);
    CenturyStep(p);
    QuadCenturyStep(p);
    LeapDivisors(y);
    assert DaysBeforeYear(y + 1) == 365 * y + y / 4 - y / 100 + y / 400;
    assert DaysBeforeYear(y) == 365 * p + p / 4 - p / 100 + p / 400;
  }

  /** A multiple of 400 is a multiple of 100, which is a multiple of 4. */
  lemma LeapDivisors(y: int)
    ensures y % 100 == 0 ==> y % 4 == 0
    ensures y % 400 == 0 ==> y % 100 == 0
  {
  }

  /** Stepping a year count by one raises each quotient exactly when it lands on a multiple. */
  lemma QuadStep(p: int)
    ensures (p + 1) / 4 == p / 4 + (if (p + 1) % 4 == 0 then 1 else 0)
  {
  }

  lemma CenturyStep(p: int)
    ensures (p + 1) / 100 == p / 100 + (if (p + 1) % 100 == 0 then 1 else 0)
  {
  }

  lemma QuadCenturyStep(p: int)
    ensures (p + 1) / 400 == p / 400 + (if (p + 1) % 400 == 0 then 1 else 0)
  {
  }

  /** January to November: 334 days, one more in a leap year. */
  lemma DaysBeforeDecember(y: int)
    ensures DaysBeforeMonth(y, 12) == 334 + (if IsLeap(y) then 1 else 0)
  {
    assert DaysBeforeMonth(y, 2) == 31;
    assert DaysBeforeMonth(y, 3) == 59 + (if IsLeap(y) then 1 else 0);
    assert DaysBeforeMonth(y, 4) == 90 + (if IsLeap(y) then 1 else 0);
    assert DaysBeforeMonth(y, 5) == 120 + (if IsLeap(y) then 1 else 0);
    assert DaysBeforeMonth(y, 6) == 151 + (if IsLeap(y) then 1 else 0);
    assert DaysBeforeMonth(y, 7) == 181 + (if IsLeap(y) then 1 else 0);
    assert DaysBeforeMonth(y, 8) == 212 + (if IsLeap(y) then 1 else 0);
    assert DaysBeforeMonth(y, 9) == 243 + (if IsLeap(y) then 1 else 0);
    assert DaysBeforeMonth(y, 10) == 273 + (if IsLeap(y) then 1 else 0);
    assert DaysBeforeMonth(y, 11) == 304 + (if IsLeap(y) then 1 else 0);
  }

  lemma ModSeven(a: int, b: int)
    ensures (a % 7 + b) % 7 == (a + b) % 7
  {
  }

  /** `new Date(y, monthIndex)`: a month index outside 0..11 carries into the year. */
  function MonthOf(y: int, monthIndex: int): (r: YearMonth)
    ensures ValidMonth(r)
  {
    YearMonth(DateYear(y) + monthIndex / 12, monthIndex % 12 + 1)
  }

  /** The previous-month button: `new Date(y, m - 2)`. */
  function Prev(ym: YearMonth): YearMonth { MonthOf(ym.year, ym.month - 2) }

  /** The next-month button: `new Date(y, m)`. */
  function Next(ym: YearMonth): YearMonth { MonthOf(ym.year, ym.month) }

  /** Months since January of year 0. */
  function MonthCount(ym: YearMonth): int { ym.year * 12 + ym.month - 1 }

  /** Each button moves exactly one month, wrapping the year at the ends. */
  lemma NavigationMovesOneMonth(ym: YearMonth)
    requires ValidMonth(ym) && ym.year >= 100
    ensures MonthCount(Next(ym)) == MonthCount(ym) + 1
    ensures MonthCount(Prev(ym)) == MonthCount(ym) - 1
    ensures ym.month == 12 ==> Next(ym) == YearMonth(ym.year + 1, 1)
    ensures ym.month == 1 ==> Prev(ym) == YearMonth(ym.year - 1, 12)
  {
  }

  /** Back then forward, or forward then back, returns to the same month. */
  lemma NavigationInverse(ym: YearMonth)
    requires ValidMonth(ym) && ym.year >= 101
    ensures Prev(Next(ym)) == ym && Next(Prev(ym)) == ym
  {
    NavigationMovesOneMonth(ym);
    var n, p := Next(ym), Prev(ym);
    NavigationMovesOneMonth(n);
    NavigationMovesOneMonth(p);
    MonthCountInjective(Prev(n), ym);
    MonthCountInjective(Next(p), ym);
  }

  /** A valid month is determined by its month count. */
  lemma MonthCountInjective(a: YearMonth, b: YearMonth)
    requires ValidMonth(a) && ValidMonth(b) && MonthCount(a) == MonthCount(b)
    ensures a == b
  {
    assert (a.year - b.year) * 12 == b.month - a.month;
  }

  /** The weekday of the next month's first day follows from this month's
      first weekday and length, as the grid layout presumes. */
  lemma NextMonthWeekday(ym: YearMonth)
    requires ValidMonth(ym) && ym.year >= 0
    ensures FirstWeekday(Next(ym)) == (FirstWeekday(ym) + DaysInMonth(ym)) % 7
  {
    var y := DateYear(ym.year);
    var n := if ym.month == 12 then YearMonth(y + 1, 1) else YearMonth(y, ym.month + 1);
    assert Next(ym) == n;
    assert DateYear(n.year) == n.year;
    NextMonthStart(y, ym.month);
    ModSeven(DayNumber(y, ym.month, 1) + 1, DaysInMonth(ym));
  }

  /** The first day of the next month comes this month's length later. */
  lemma NextMonthStart(y: int, m: int)
    requires 1 <= m <= 12
    ensures m < 12 ==> DayNumber(y, m + 1, 1) == DayNumber(y, m, 1) + MonthLength(y, m)
    ensures m == 12 ==> DayNumber(y + 1, 1, 1) == DayNumber(y, 12, 1) + 31
  {
    if m == 12 {
      YearLength(y);
      DaysBeforeDecember(y);
    }
  }

  /** February 2024 starts on a Thursday and has 29 days. */
  lemma February2024()
    ensures FirstWeekday(YearMonth(2024, 2)) == 4 && DaysInMonth(YearMonth(2024, 2)) == 29
  {
  }

  /** The month label and query value: `${year}-${month padded to 2}`. */
  function Label(ym: YearMonth): string
    requires ValidMonth(ym)
  {
    IntToString(ym.year) + "-" + PadStart2(NatToString(ym.month))
  }

  /** `yearMonth.split('-').map(Number)`, its first two numbers. */
  function ParseLabel(s: string): Option<YearMonth>
  {
    var parts := Split(s, '-');
    if |parts| < 2 then None
    else
      match (NumberOf(parts[0]), NumberOf(parts[1]))
      case (Some(y), Some(m)) => Some(YearMonth(y, m))
      case _ => None
  }

  lemma DigitsHaveNoDash(s: string)
    requires AllDigits(s)
    ensures !HasChar(s, '-')
  {
  }

  /** Reading a label back gives the month it was made from, so keeping the
      selected month as a pair loses nothing. */
  lemma LabelRoundTrip(ym: YearMonth)
    requires ValidMonth(ym) && ym.year >= 0
    ensures ParseLabel(Label(ym)) == Some(ym)
  {
    var ys := NatToString(ym.year);
    var ms := PadStart2(NatToString(ym.month));
    NatToStringRoundTrip(ym.year);
    PaddedTwoDigits(ym.month);
    assert Label(ym) == ys + "-" + ms;
    ParseDigitPair(ys, ms);
  }

  lemma ParseDigitPair(ys: string, ms: string)
    requires AllDigits(ys) && AllDigits(ms) && ys != [] && ms != []
    ensures ParseLabel(ys + "-" + ms) == Some(YearMonth(DigitsValue(ys), DigitsValue(ms)))
  {
    DigitsHaveNoDash(ys);
    DigitsHaveNoDash(ms);
    assert ys + "-" + ms == Join([ys, ms], '-');
    SplitJoin([ys, ms], '-');
  }

  // ---------------------------------------------------------------- ISO dates

  datatype Date = Date(year: int, month: int, day: int)

  predicate ValidDate(d: Date) { 1 <= d.month <= 12 && 1 <= d.day <= MonthLength(d.year, d.month) }

  /** The year as `toISOString` writes it: four digits, or a sign and six. */
  function YearText(y: int): string
  {
    if 0 <= y <= 9999 then PadZeros(NatToString(y), 4)
    else (if y < 0 then "-" else "+") + PadZeros(NatToString(if y < 0 then -y else y), 6)
  }

  /** `toISOString().slice(0, 10)` of a calendar date. */
  function IsoDay(d: Date): string
    requires ValidDate(d)
  {
    Take(YearText(d.year) + "-" + PadStart2(NatToString(d.month)) + "-" + PadStart2(NatToString(d.day)), 10)
  }

  function DigitAt(s: string, i: nat): int
    requires i < |s| && IsDigit(s[i])
  {
    DigitValue(s[i])
  }

  predicate IsoShape(s: string)
  {
    |s| == 10 && s[4] == '-' && s[7] == '-'
    && IsDigit(s[0]) && IsDigit(s[1]) && IsDigit(s[2]) && IsDigit(s[3])
    && IsDigit(s[5]) && IsDigit(s[6]) && IsDigit(s[8]) && IsDigit(s[9])
  }

  /** `new Date("YYYY-MM-DD")` for a date prefix: its calendar fields, or
      `None` (an invalid date) for any other text. */
  function ParseIsoDate(s: string): (r: Option<Date>)
    ensures r.Some? ==> ValidDate(r.value) && 0 <= r.value.year <= 9999 && IsoShape(s)
  {
    if !IsoShape(s) then None
    else
      var d := Date(
        1000 * DigitAt(s, 0) + 100 * DigitAt(s, 1) + 10 * DigitAt(s, 2) + DigitAt(s, 3),
        10 * DigitAt(s, 5) + DigitAt(s, 6),
        10 * DigitAt(s, 8) + DigitAt(s, 9));
      if ValidDate(d) then Some(d) else None
  }

  lemma SameDigit(a: char, b: char)
    requires IsDigit(a) && IsDigit(b) && DigitValue(a) == DigitValue(b)
    ensures a == b
  {
  }

  /** Different date texts never parse to the same date. */
  lemma ParseIsoDateInjective(s: string, t: string)
    requires ParseIsoDate(s).Some? && ParseIsoDate(s) == ParseIsoDate(t)
    ensures s == t
  {
    var d := ParseIsoDate(s).value;
    assert IsoShape(t);
    Radix4(DigitAt(s, 0), DigitAt(s, 1), DigitAt(s, 2), DigitAt(s, 3),
           DigitAt(t, 0), DigitAt(t, 1), DigitAt(t, 2), DigitAt(t, 3));
    Radix2(DigitAt(s, 5), DigitAt(s, 6), DigitAt(t, 5), DigitAt(t, 6));
    Radix2(DigitAt(s, 8), DigitAt(s, 9), DigitAt(t, 8), DigitAt(t, 9));
    forall i | 0 <= i < 10 && i != 4 && i != 7
      ensures s[i] == t[i]
    {
      SameDigit(s[i], t[i]);
    }
    assert forall i :: 0 <= i < 10 ==> s[i] == t[i];
  }

  lemma Radix2(a: int, b: int, c: int, d: int)
    requires 0 <= b < 10 && 0 <= d < 10
    requires 10 * a + b == 10 * c + d
    ensures a == c && b == d
  {
    assert 10 * (a - c) == d - b;
  }

  lemma Radix4(a0: int, a1: int, a2: int, a3: int, b0: int, b1: int, b2: int, b3: int)
    requires 0 <= a0 < 10 && 0 <= a1 < 10 && 0 <= a2 < 10 && 0 <= a3 < 10
    requires 0 <= b0 < 10 && 0 <= b1 < 10 && 0 <= b2 < 10 && 0 <= b3 < 10
    requires 1000 * a0 + 100 * a1 + 10 * a2 + a3 == 1000 * b0 + 100 * b1 + 10 * b2 + b3
    ensures a0 == b0 && a1 == b1 && a2 == b2 && a3 == b3
  {
    Radix2(100 * a0 + 10 * a1 + a2, a3, 100 * b0 + 10 * b1 + b2, b3);
    Radix2(10 * a0 + a1, a2, 10 * b0 + b1, b2);
    Radix2(a0, a1, b0, b1);
  }

  /** Four digits read left to right. */
  lemma FourDigits(s: string)
    requires |s| == 4 && AllDigits(s)
    ensures DigitsValue(s) == 1000 * DigitValue(s[0]) + 100 * DigitValue(s[1]) + 10 * DigitValue(s[2]) + DigitValue(s[3])
  {
    assert DigitsValue(s[..1]) == DigitValue(s[0]) by {
      assert s[..1][..0] == [];
    }
    assert DigitsValue(s[..2]) == DigitsValue(s[..1]) * 10 + DigitValue(s[1]) by {
      assert s[..2][..1] == s[..1];
    }
    assert DigitsValue(s[..3]) == DigitsValue(s[..2]) * 10 + DigitValue(s[2]) by {
      assert s[..3][..2] == s[..2];
    }
    assert s[..4] == s;
  }

  lemma TwoDigits(s: string)
    requires |s| == 2 && AllDigits(s)
    ensures DigitsValue(s) == 10 * DigitValue(s[0]) + DigitValue(s[1])
  {
    assert DigitsValue(s[..1]) == DigitValue(s[0]) by {
      assert s[..1][..0] == [];
    }
    assert s[..2] == s;
  }

  /** Formatting a date and parsing it back gives the date. */
  lemma IsoDayRoundTrip(d: Date)
    requires ValidDate(d) && 0 <= d.year <= 9999
    ensures ParseIsoDate(IsoDay(d)) == Some(d)
  {
    var ys := YearText(d.year);
    var ms := PadStart2(NatToString(d.month));
    var ds := PadStart2(NatToString(d.day));
    YearField(d.year);
    PaddedTwoDigits(d.month);
    PaddedTwoDigits(d.day);
    IsoDayFields(d, ys, ms, ds);
    FieldsRoundTrip(d, ys, ms, ds);
  }

  /** The ISO text of a date is its three fields joined by dashes. */
  lemma IsoDayFields(d: Date, ys: string, ms: string, ds: string)
    requires ValidDate(d)
    requires ys == YearText(d.year) && ms == PadStart2(NatToString(d.month)) && ds == PadStart2(NatToString(d.day))
    requires |ys| == 4 && |ms| == 2 && |ds| == 2
    ensures IsoDay(d) == ys + "-" + ms + "-" + ds
  {
    var s := ys + "-" + ms + "-" + ds;
    assert |s| == 10;
  }

  /** Digit fields that spell a valid date parse back to that date. */
  lemma FieldsRoundTrip(d: Date, ys: string, ms: string, ds: string)
    requires ValidDate(d)
    requires |ys| == 4 && |ms| == 2 && |ds| == 2 && AllDigits(ys) && AllDigits(ms) && AllDigits(ds)
    requires DigitsValue(ys) == d.year && DigitsValue(ms) == d.month && DigitsValue(ds) == d.day
    ensures ParseIsoDate(ys + "-" + ms + "-" + ds) == Some(d)
  {
    ParseParts(ys, ms, ds);
  }

  /** A year in 0..9999 is written as four digits that read back as the year. */
  lemma YearField(y: int)
    requires 0 <= y <= 9999
    ensures var ys := YearText(y); |ys| == 4 && AllDigits(ys) && DigitsValue(ys) == y
  {
    NatToStringShort(y);
    PaddedValue(y, 4);
  }

  /** Parsing a text assembled from digit fields reads the fields back. */
  lemma ParseParts(ys: string, ms: string, ds: string)
    requires |ys| == 4 && |ms| == 2 && |ds| == 2 && AllDigits(ys) && AllDigits(ms) && AllDigits(ds)
    ensures var d := Date(DigitsValue(ys), DigitsValue(ms), DigitsValue(ds));
      ParseIsoDate(ys + "-" + ms + "-" + ds) == if ValidDate(d) then Some(d) else None
  {
    FourDigits(ys);
    TwoDigits(ms);
    TwoDigits(ds);
    IsoDigits(ys, ms, ds);
  }

  /** The joined text has the `YYYY-MM-DD` shape, its digits those of the parts. */
  lemma IsoDigits(ys: string, ms: string, ds: string)
    requires |ys| == 4 && |ms| == 2 && |ds| == 2 && AllDigits(ys) && AllDigits(ms) && AllDigits(ds)
    ensures var s := ys + "-" + ms + "-" + ds;
      IsoShape(s)
      && DigitAt(s, 0) == DigitValue(ys[0]) && DigitAt(s, 1) == DigitValue(ys[1])
      && DigitAt(s, 2) == DigitValue(ys[2]) && DigitAt(s, 3) == DigitValue(ys[3])
      && DigitAt(s, 5) == DigitValue(ms[0]) && DigitAt(s, 6) == DigitValue(ms[1])
      && DigitAt(s, 8) == DigitValue(ds[0]) && DigitAt(s, 9) == DigitValue(ds[1])
  {
    var s := ys + "-" + ms + "-" + ds;
    assert s[0] == ys[0] && s[1] == ys[1] && s[2] == ys[2] && s[3] == ys[3] && s[4] == '-';
    assert s[5] == ms[0] && s[6] == ms[1] && s[7] == '-' && s[8] == ds[0] && s[9] == ds[1];
  }

  // ---------------------------------------------------------------- attendance

  /** `new Set(list.map(d => d.slice(0, 10)))` */
  function Prefixes(list: seq<string>): set<string>
  {
    set l | l in list :: Take(l, 10)
  }

  /** The date text falls in the selected month. */
  predicate InMonth(s: string, ym: YearMonth)
  {
    var p := ParseIsoDate(s);
    p.Some? && p.value.year == ym.year && p.value.month == ym.month
  }

  function MonthDates(dates: set<string>, ym: YearMonth): set<string>
  {
    set s | s in dates && InMonth(s, ym)
  }

  /** `attendanceCount`: one per distinct date prefix in the selected month. */
  method AttendanceCount(logs: seq<string>, ym: YearMonth) returns (count: nat)
    ensures count == |MonthDates(Prefixes(logs), ym)|
  {
    var remaining := Prefixes(logs);
    ghost var seen: set<string> := {};
    count := 0;
    while remaining != {}
      invariant remaining + seen == Prefixes(logs) && remaining !! seen
      invariant count == |MonthDates(seen, ym)|
      decreases |remaining|
    {
      var d :| d in remaining;
      MonthDatesAdd(seen, d, ym);
      if InMonth(d, ym) {
        count := count + 1;
      }
      remaining := remaining - {d};
      seen := seen + {d};
    }
    assert seen == Prefixes(logs);
  }

  /** Adding a date not seen yet adds one to the month's count exactly when
      the date is in the month. */
  lemma MonthDatesAdd(seen: set<string>, d: string, ym: YearMonth)
    requires d !in seen
    ensures |MonthDates(seen + {d}, ym)| == |MonthDates(seen, ym)| + (if InMonth(d, ym) then 1 else 0)
  {
    var before := MonthDates(seen, ym);
    if InMonth(d, ym) {
      assert MonthDates(seen + {d}, ym) == before + {d};
      assert d !in before;
    } else {
      assert MonthDates(seen + {d}, ym) == before;
    }
  }

  /** At most `n` elements carry distinct labels from 1 to `n`. */
  lemma {:induction false} DistinctLabels(dates: set<string>, tag: string -> int, n: nat)
    requires forall s :: s in dates ==> 1 <= tag(s) <= n
    requires forall s, t :: s in dates && t in dates && tag(s) == tag(t) ==> s == t
    ensures |dates| <= n
    decreases n
  {
    if n == 0 {
      assert forall s :: s !in dates;
    } else {
      var below := set s | s in dates && tag(s) < n;
      if exists s :: s in dates && tag(s) == n {
        var s0 :| s0 in dates && tag(s0) == n;
        assert dates == below + {s0};
      } else {
        assert dates == below;
      }
      DistinctLabels(below, tag, n - 1);
    }
  }

  /** The attendance count never exceeds the days of the selected month. */
  lemma AttendanceCountBound(dates: set<string>, ym: YearMonth)
    requires ValidMonth(ym) && ym.year >= 100
    ensures |MonthDates(dates, ym)| <= DaysInMonth(ym)
  {
    var inMonth := MonthDates(dates, ym);
    var day := (s: string) => if ParseIsoDate(s).Some? then ParseIsoDate(s).value.day else 0;
    forall s, t | s in inMonth && t in inMonth && day(s) == day(t)
      ensures s == t
    {
      ParseIsoDateInjective(s, t);
    }
    DistinctLabels(inMonth, day, DaysInMonth(ym));
  }

  /** `attendanceRate`: the share of the month's days attended, in percent to
      one decimal; 0 for a month without days. */
  function AttendanceRate(count: nat, days: int): (r: real)
    ensures days <= 0 ==> r == 0.0
    ensures days > 0 ==> var exact := count as real / days as real * 100.0;
      r == WatchProgressHook.RoundTenth(exact) && exact - 0.05 < r <= exact + 0.05
    ensures 0 < days && count <= days ==> 0.0 <= r <= 100.0
  {
    if days > 0 then
      var share := count as real / days as real;
      ShareBounds(count, days);
      var x := share * 1000.0;
      var n := WatchProgressHook.Round(x);
      assert x - 0.5 < n as real <= x + 0.5;
      assert count <= days ==> x <= 1000.0 && n <= 1000;
      n as real / 10.0
    else 0.0
  }

  /** The attended share of a month is non-negative, and at most 1 when no
      more days are counted than the month has. */
  lemma ShareBounds(count: nat, days: int)
    requires days > 0
    ensures 0.0 <= count as real / days as real
    ensures count <= days ==> count as real / days as real <= 1.0
  {
    var share := count as real / days as real;
    assert share * days as real == count as real;
    if share > 1.0 {
      assert share * days as real > 1.0 * days as real;
    }
  }

  /** One day of 29 is 3.4 %. */
  lemma AttendanceRateExample()
    ensures AttendanceRate(1, 29) == 3.4
  {
    assert 1.0 / 29.0 * 1000.0 + 0.5 == 2029.0 / 58.0;
    assert WatchProgressHook.Round(1.0 / 29.0 * 1000.0) == 34;
  }

  // ---------------------------------------------------------------- the grid

  datatype Cell = Empty | Day(day: int, checked: bool, isToday: bool)

  /** The cell for day number `d`: empty outside the month, otherwise checked
      when its date is in the logs or the forced dates. */
  function CellFor(ym: YearMonth, d: int, logsSet: set<string>, forced: set<string>, today: string): Cell
    requires ValidMonth(ym)
  {
    if d < 1 || d > DaysInMonth(ym) then Empty
    else
      var iso := IsoDay(Date(DateYear(ym.year), ym.month, d));
      Day(d, iso in logsSet || iso in forced, iso == today)
  }

  /** The cell index of day `d` when the month starts on weekday `first`. */
  function Slot(first: int, d: int): int { d - 1 + first }

  /** The calendar body: rows of seven cells after `FirstWeekday` empty ones.
      Every day of the month sits in exactly one cell, at its own position. */
  method CalendarGrid(ym: YearMonth, logsSet: set<string>, forced: set<string>, today: string)
    returns (rows: seq<seq<Cell>>)
    requires ValidMonth(ym)
    ensures |rows| == (FirstWeekday(ym) + DaysInMonth(ym) + 6) / 7
    ensures forall r :: 0 <= r < |rows| ==> |rows[r]| == 7
    ensures forall r, c :: 0 <= r < |rows| && 0 <= c < 7 ==>
      rows[r][c] == CellFor(ym, r * 7 + c - FirstWeekday(ym) + 1, logsSet, forced, today)
    ensures forall d :: 1 <= d <= DaysInMonth(ym) ==>
      var i := Slot(FirstWeekday(ym), d);
      i / 7 < |rows| && rows[i / 7][i % 7].Day? && rows[i / 7][i % 7].day == d
    ensures forall r, c :: 0 <= r < |rows| && 0 <= c < 7 && rows[r][c].Day? ==>
      r * 7 + c == rows[r][c].day - 1 + FirstWeekday(ym)
  {
    var firstDay := FirstWeekday(ym);
    var daysInMonth := DaysInMonth(ym);
    var rowCount := (firstDay + daysInMonth + 6) / 7;
    rows := [];
    var row := 0;
    while row < rowCount
      invariant 0 <= row <= rowCount && |rows| == row
      invariant forall r :: 0 <= r < row ==> WeekRow(ym, r, rows[r], logsSet, forced, today)
    {
      var cells := GridRow(ym, row, logsSet, forced, today);
      rows := rows + [cells];
      row := row + 1;
    }
    GridPositions(ym, logsSet, forced, today, rows);
  }

  /** `cells` is row `row` of the grid: seven cells, cell `c` showing day
      `row * 7 + c - FirstWeekday(ym) + 1` (or nothing outside the month). */
  predicate WeekRow(ym: YearMonth, row: int, cells: seq<Cell>, logsSet: set<string>, forced: set<string>, today: string)
    requires ValidMonth(ym)
  {
    |cells| == 7
    && forall c :: 0 <= c < 7 ==> cells[c] == CellFor(ym, row * 7 + c - FirstWeekday(ym) + 1, logsSet, forced, today)
  }

  /** One week of the grid: the seven cells of row `row`. */
  method GridRow(ym: YearMonth, row: nat, logsSet: set<string>, forced: set<string>, today: string)
    returns (cells: seq<Cell>)
    requires ValidMonth(ym)
    ensures WeekRow(ym, row, cells, logsSet, forced, today)
  {
    var firstDay := FirstWeekday(ym);
    cells := [];
    var col := 0;
    while col < 7
      invariant 0 <= col <= 7 && |cells| == col
      invariant forall c :: 0 <= c < col ==> cells[c] == CellFor(ym, row * 7 + c - firstDay + 1, logsSet, forced, today)
    {
      var dayIndex := row * 7 + col - firstDay + 1;
      cells := cells + [CellFor(ym, dayIndex, logsSet, forced, today)];
      col := col + 1;
    }
  }

  /** In rows laid out cell by cell, each day of the month sits at its own
      slot, and each day cell sits at the slot of its day. */
  lemma GridPositions(ym: YearMonth, logsSet: set<string>, forced: set<string>, today: string, rows: seq<seq<Cell>>)
    requires ValidMonth(ym)
    requires |rows| == (FirstWeekday(ym) + DaysInMonth(ym) + 6) / 7
    requires forall r :: 0 <= r < |rows| ==> |rows[r]| == 7
    requires forall r, c :: 0 <= r < |rows| && 0 <= c < 7 ==>
      rows[r][c] == CellFor(ym, r * 7 + c - FirstWeekday(ym) + 1, logsSet, forced, today)
    ensures forall d :: 1 <= d <= DaysInMonth(ym) ==>
      var i := Slot(FirstWeekday(ym), d);
      i / 7 < |rows| && rows[i / 7][i % 7].Day? && rows[i / 7][i % 7].day == d
    ensures forall r, c :: 0 <= r < |rows| && 0 <= c < 7 && rows[r][c].Day? ==>
      r * 7 + c == rows[r][c].day - 1 + FirstWeekday(ym)
  {
    var firstDay := FirstWeekday(ym);
    forall d | 1 <= d <= DaysInMonth(ym)
      ensures var i := Slot(firstDay, d); i / 7 < |rows| && rows[i / 7][i % 7].Day? && rows[i / 7][i % 7].day == d
    {
      var i := Slot(firstDay, d);
      var r, c := i / 7, i % 7;
      assert r * 7 + c == i;
      assert r * 7 + c - firstDay + 1 == d;
      assert rows[r][c] == CellFor(ym, d, logsSet, forced, today);
    }
  }

  // ---------------------------------------------------------------- forced dates

  /** `new Set(list.map(d => String(d).slice(0, 10)))` */
  function ShownPrefixes(items: seq<Json>): set<string>
  {
    set d | d in items :: Take(Show(Some(d)), 10)
  }

  /** The comma-separated form: trimmed, non-empty parts, cut to 10 characters. */
  function CommaDates(t: string): set<string>
  {
    set p | p in Split(t, ',') && Trim(p) != "" :: Take(Trim(p), 10)
  }

  /** `forcedDatesSet`. `raw` is the global override or else the stored text
      (`None` for null); `parsed` is what `JSON.parse` gives for the trimmed
      text when it starts with `[`, `None` when that throws. */
  function ForcedDates(raw: Option<Json>, parsed: Option<Json>): (r: set<string>)
    ensures !Truthy(raw) ==> r == {}
    ensures forall d :: d in r ==> |d| <= 10
  {
    if !Truthy(raw) then {}
    else
      match raw.value
      case JArr(items) => ShownPrefixes(items)
      case JStr(s) =>
        var t := Trim(s);
        if StartsWith(t, "[") && parsed.None? then {}
        else if StartsWith(t, "[") && parsed.value.JArr? then ShownPrefixes(parsed.value.items)
        else CommaDates(t)
      case _ => {}
  }

  lemma {:induction false} JoinNoSpace(parts: seq<string>, sep: char)
    requires |parts| >= 1 && !IsSpace(sep)
    requires forall k, i :: 0 <= k < |parts| && 0 <= i < |parts[k]| ==> !IsSpace(parts[k][i])
    ensures forall i :: 0 <= i < |Join(parts, sep)| ==> !IsSpace(Join(parts, sep)[i])
  {
    if |parts| > 1 {
      JoinNoSpace(parts[1..], sep);
      var a := parts[0];
      var rest := Join(parts[1..], sep);
      var s := a + [sep] + rest;
      forall i | 0 <= i < |s| ensures !IsSpace(s[i]) {
        if i < |a| {
          assert s[i] == parts[0][i];
        } else if i > |a| {
          assert s[i] == rest[i - |a| - 1];
        }
      }
    }
  }

  /** The dates a list of plain date texts forces. */
  function Cut(dates: seq<string>): set<string>
  {
    set d | d in dates :: Take(d, 10)
  }

  /** Plain date texts with no spaces, commas or leading `[`. */
  predicate PlainDates(dates: seq<string>)
  {
    |dates| >= 1 && dates[0] != "" && dates[0][0] != '['
    && (forall k :: 0 <= k < |dates| ==> dates[k] != "")
    && forall k, i :: 0 <= k < |dates| && 0 <= i < |dates[k]| ==> !IsSpace(dates[k][i]) && dates[k][i] != ','
  }

  /** A comma-separated override forces exactly the listed dates. */
  lemma CommaForm(dates: seq<string>, parsed: Option<Json>)
    requires PlainDates(dates)
    ensures ForcedDates(Some(JStr(Join(dates, ','))), parsed) == Cut(dates)
  {
    var joined := Join(dates, ',');
    JoinedIsPlain(dates);
    JoinedTrimmed(dates);
    ForcedOfText(joined, parsed);
    PartsTrimmed(dates);
    SplitJoin(dates, ',');
    CommaDatesOfTrimmed(dates);
  }

  lemma ForcedOfText(t: string, parsed: Option<Json>)
    requires t != "" && !StartsWith(Trim(t), "[")
    ensures ForcedDates(Some(JStr(t)), parsed) == CommaDates(Trim(t))
  {
  }

  lemma PartsTrimmed(dates: seq<string>)
    requires PlainDates(dates)
    ensures forall k :: 0 <= k < |dates| ==> !HasChar(dates[k], ',') && Trim(dates[k]) == dates[k]
  {
    forall k | 0 <= k < |dates| ensures !HasChar(dates[k], ',') && Trim(dates[k]) == dates[k] {
      TrimNoSpace(dates[k]);
    }
  }

  lemma JoinedIsPlain(dates: seq<string>)
    requires PlainDates(dates)
    ensures var joined := Join(dates, ','); joined != "" && !StartsWith(joined, "[")
  {
    var joined := Join(dates, ',');
    JoinHead(dates, ',');
    assert joined[0] == dates[0][0];
    assert joined[..1] != "[";
  }

  lemma JoinedTrimmed(dates: seq<string>)
    requires PlainDates(dates)
    ensures Trim(Join(dates, ',')) == Join(dates, ',')
  {
    assert forall k, i :: 0 <= k < |dates| && 0 <= i < |dates[k]| ==> !IsSpace(dates[k][i]);
    JoinNoSpace(dates, ',');
    TrimNoSpace(Join(dates, ','));
  }

  lemma JoinHead(parts: seq<string>, sep: char)
    requires |parts| >= 1
    ensures |Join(parts, sep)| >= |parts[0]| && Join(parts, sep)[..|parts[0]|] == parts[0]
  {
  }

  lemma CommaDatesOfTrimmed(dates: seq<string>)
    requires forall k :: 0 <= k < |dates| ==> dates[k] != "" && Trim(dates[k]) == dates[k]
    ensures (set p | p in dates && Trim(p) != "" :: Take(Trim(p), 10)) == Cut(dates)
  {
    forall p | p in dates ensures p != "" && Trim(p) == p {
      var k :| 0 <= k < |dates| && dates[k] == p;
    }
    var c := set p | p in dates && Trim(p) != "" :: Take(Trim(p), 10);
    forall x | x in Cut(dates) ensures x in c {
      var d :| d in dates && x == Take(d, 10);
      assert Trim(d) != "" && x == Take(Trim(d), 10);
    }
  }

  /** An array override forces exactly the listed dates. */
  lemma ArrayForm(dates: seq<string>, parsed: Option<Json>)
    ensures var items := seq(|dates|, k requires 0 <= k < |dates| => JStr(dates[k]));
      ForcedDates(Some(JArr(items)), parsed) == Cut(dates)
  {
    var items := seq(|dates|, k requires 0 <= k < |dates| => JStr(dates[k]));
    forall x | x in Cut(dates) ensures x in ShownPrefixes(items) {
      var d :| d in dates && x == Take(d, 10);
      var k :| 0 <= k < |dates| && dates[k] == d;
      assert items[k] == JStr(d) && items[k] in items;
      assert Show(Some(items[k])) == d;
    }
    forall x | x in ShownPrefixes(items) ensures x in Cut(dates) {
      var j :| j in items && x == Take(Show(Some(j)), 10);
      var k :| 0 <= k < |items| && items[k] == j;
      assert dates[k] in dates;
    }
  }

  // ---------------------------------------------------------------- watch rate

  /** The percentages of `getProgressPercentage`, summed over the videos. */
  function SumPercentages(progressData: map<string, WatchProgress>, videos: seq<Video>): (sum: real)
    requires forall k :: 0 <= k < |videos| ==> videos[k].duration > 0
    ensures sum <= 100.0 * |videos| as real
    ensures NonNegative(progressData) ==> sum >= 0.0
  {
    if videos == [] then 0.0
    else
      var v := videos[|videos| - 1];
      SumPercentages(progressData, videos[..|videos| - 1])
        + WatchProgressHook.ProgressPercentage(progressData, v.id, v.duration as real)
  }

  predicate NonNegative(progressData: map<string, WatchProgress>)
  {
    forall k :: k in progressData ==> progressData[k].watchedSeconds >= 0.0
  }

  lemma MeanBound(sum: real, n: real)
    requires n > 0.0 && sum <= 100.0 * n
    ensures sum / n <= 100.0
    ensures sum >= 0.0 ==> sum / n >= 0.0
  {
  }

  /** `averagePercentage`: 0 without videos, otherwise the mean percentage to
      one decimal, itself a percentage. */
  function AveragePercentage(progressData: map<string, WatchProgress>, videos: seq<Video>): (r: real)
    requires forall k :: 0 <= k < |videos| ==> videos[k].duration > 0
    ensures videos == [] ==> r == 0.0
    ensures videos != [] ==> var mean := SumPercentages(progressData, videos) / |videos| as real;
      r == WatchProgressHook.RoundTenth(mean) && mean - 0.05 < r <= mean + 0.05
    ensures NonNegative(progressData) ==> 0.0 <= r <= 100.0
  {
    if |videos| == 0 then 0.0
    else
      var sum := SumPercentages(progressData, videos);
      var mean := sum / |videos| as real;
      MeanBound(sum, |videos| as real);
      WatchProgressHook.RoundTenth(mean)
  }

  // ---------------------------------------------------------------- page state

  /** The logs read from the endpoint's JSON: `(data.logs || []).map(l =>
      new Date(l.timestamp).toISOString())`. `toIso` is that conversion of one
      timestamp (`None` for `undefined`), answering `None` where the date is
      invalid and `toISOString` throws a RangeError. `None` here is a thrown
      error: a `null` body, a `logs` value without `map`, a `null` entry, or
      a timestamp that does not convert. */
  function LogsOf(data: Json, toIso: Option<Json> -> Option<string>): (r: Option<seq<string>>)
    ensures data == JNull ==> r.None?
    ensures r.Some? ==> var list := Or(Prop(Some(data), "logs"), JArr([]));
      list.JArr? && |r.value| == |list.items|
      && forall k :: 0 <= k < |list.items| ==>
           list.items[k] != JNull && Some(r.value[k]) == toIso(Prop(Some(list.items[k]), "timestamp"))
    ensures data != JNull && Or(Prop(Some(data), "logs"), JArr([])).JArr? ==>
      var items := Or(Prop(Some(data), "logs"), JArr([])).items;
      (r.None? <==> exists k :: 0 <= k < |items| && (items[k] == JNull || toIso(Prop(Some(items[k]), "timestamp")).None?))
  {
    if data == JNull then None
    else
      var list := Or(Prop(Some(data), "logs"), JArr([]));
      if !list.JArr? then None
      else if exists k :: 0 <= k < |list.items| && (list.items[k] == JNull || toIso(Prop(Some(list.items[k]), "timestamp")).None?)
      then None
      else Some(seq(|list.items|, k requires 0 <= k < |list.items| => toIso(Prop(Some(list.items[k]), "timestamp")).value))
  }

  /** A reply whose only log has a timestamp the conversion rejects (such as
      `"x"`) is a thrown error, and one whose timestamps all convert (numbers
      of milliseconds, say) yields the converted texts in order. */
  lemma LogsOfTimestamps(toIso: Option<Json> -> Option<string>, bad: Json, good: seq<Json>)
    requires toIso(Some(bad)) == None
    requires forall k :: 0 <= k < |good| ==> toIso(Some(good[k])).Some?
    ensures LogsOf(JObj(map["logs" := JArr([JObj(map["timestamp" := bad])])]), toIso) == None
    ensures var entries := seq(|good|, k requires 0 <= k < |good| => JObj(map["timestamp" := good[k]]));
      LogsOf(JObj(map["logs" := JArr(entries)]), toIso)
        == Some(seq(|good|, k requires 0 <= k < |good| => toIso(Some(good[k])).value))
  {
    var one := JArr([JObj(map["timestamp" := bad])]);
    assert Prop(Some(one.items[0]), "timestamp") == Some(bad);
    var entries := seq(|good|, k requires 0 <= k < |good| => JObj(map["timestamp" := good[k]]));
    forall k | 0 <= k < |entries| ensures Prop(Some(entries[k]), "timestamp") == Some(good[k]) {
    }
    var data := JObj(map["logs" := JArr(entries)]);
    assert Or(Prop(Some(data), "logs"), JArr([])) == JArr(entries);
    var r := LogsOf(data, toIso);
    assert r.Some?;
    assert r.value == seq(|good|, k requires 0 <= k < |good| => toIso(Some(good[k])).value);
  }

  /** The `{ ...user }` copy taken before the optimistic write. */
  function Snapshot(user: Json): Json { JObj(Spread(user)) }

  /** The user shown after the attendance request settles: the server's user
      when it sends one, the optimistic one when it does not, and the snapshot
      on a non-ok status, a thrown error or an unreadable body. */
  function Settled(snapshot: Json, optimistic: Json, outcome: Fetch<Option<Json>>): (r: Json)
    ensures !outcome.Ok? || outcome.data.None? ==> r == snapshot
    ensures outcome.Ok? && outcome.data.Some? && Truthy(Prop(outcome.data, "user")) ==> Some(r) == Prop(outcome.data, "user")
    ensures outcome.Ok? && outcome.data.Some? && !Truthy(Prop(outcome.data, "user")) ==> r == optimistic
  {
    match outcome
    case Ok(Some(data)) =>
      var u := Prop(Some(data), "user");
      if Truthy(u) then u.value else optimistic
    case _ => snapshot
  }

  /** For a user object: a failed toggle restores it field for field, and a
      success without a server user keeps it with only `attendance` changed. */
  lemma ToggleOnObject(u: Record, newState: bool, outcome: Fetch<Option<Json>>)
    ensures var optimistic := JObj(Spread(JObj(u))["attendance" := JBool(newState)]);
      var r := Settled(Snapshot(JObj(u)), optimistic, outcome);
      (!outcome.Ok? || outcome.data.None? ==> r == JObj(u))
      && (outcome.Ok? && outcome.data.Some? && !Truthy(Prop(outcome.data, "user")) ==>
            r.JObj? && r.fields["attendance"] == JBool(newState)
            && forall k :: k in u && k != "attendance" ==> k in r.fields && r.fields[k] == u[k])
  {
  }

  /** The page's state. */
  class Page {
    var user: Json
    var logs: seq<string>
    var yearMonth: YearMonth

    /** The initial state: the stored user (or `null`), no logs, the current month. */
    constructor (items: map<string, Item>, current: YearMonth)
      ensures user == ParsedOrNull(items, CurrentUserKey) && logs == [] && yearMonth == current
    {
      user := ParsedOrNull(items, CurrentUserKey);
      logs := [];
      yearMonth := current;
    }

    /** `fetchLogs`: no request without an employee id; the logs change only
        when the response is ok, its body reads and every timestamp converts. */
    method FetchLogs(outcome: Fetch<Option<Json>>, toIso: Option<Json> -> Option<string>) returns (requested: bool)
      modifies this
      ensures user == old(user) && yearMonth == old(yearMonth)
      ensures requested == Truthy(Prop(Some(old(user)), "employeeId"))
      ensures var fetched := if outcome.Ok? && outcome.data.Some? then LogsOf(outcome.data.value, toIso) else None;
        logs == if requested && fetched.Some? then fetched.value else old(logs)
    {
      if !Truthy(Prop(Some(user), "employeeId")) {
        return false;
      }
      requested := true;
      if outcome.Ok? && outcome.data.Some? {
        var fetched := LogsOf(outcome.data.value, toIso);
        if fetched.Some? {
          logs := fetched.value;
        }
      }
    }

    /** The month navigation buttons. */
    method GoToPreviousMonth()
      modifies this
      ensures yearMonth == Prev(old(yearMonth)) && user == old(user) && logs == old(logs)
    {
      yearMonth := Prev(yearMonth);
    }

    method GoToNextMonth()
      modifies this
      ensures yearMonth == Next(old(yearMonth)) && user == old(user) && logs == old(logs)
    {
      yearMonth := Next(yearMonth);
    }

    /** `toggleAttendance`: nothing without a user; otherwise the optimistic
        user (returned as `pending`) is shown and stored while the request
        runs, and the settled user is shown and stored afterwards. */
    method ToggleAttendance(storage: LocalStorage, newState: bool, outcome: Fetch<Option<Json>>)
      returns (pending: Option<Json>)
      modifies this, storage
      ensures logs == old(logs) && yearMonth == old(yearMonth)
      ensures !Truthy(Some(old(user))) ==> pending.None? && user == old(user) && storage.items == old(storage.items)
      ensures Truthy(Some(old(user))) ==>
        var optimistic := JObj(Spread(old(user))["attendance" := JBool(newState)]);
        pending == Some(optimistic)
        && user == Settled(Snapshot(old(user)), optimistic, outcome)
        && storage.items == old(storage.items)[CurrentUserKey := Value(user)]
    {
      if !Truthy(Some(user)) {
        return None;
      }
      var prev := Snapshot(user);
      var optimistic := JObj(Spread(user)["attendance" := JBool(newState)]);
      user := optimistic;
      storage.SetItem(CurrentUserKey, Value(optimistic));
      pending := Some(optimistic);
      match outcome {
        case Ok(Some(data)) =>
          var u := Prop(Some(data), "user");
          if Truthy(u) {
            user := u.value;
            storage.SetItem(CurrentUserKey, Value(u.value));
          }
        case _ =>
          user := prev;
          storage.SetItem(CurrentUserKey, Value(prev));
      }
    }
  }
}
