/** Calendar dates as Python's `datetime.date` has them: proleptic Gregorian,
    years 1 to 9999, day ordinals counted from 0001-01-01 (ordinal 1), the
    ISO `YYYY-MM-DD` text form (the `full-date` of section 5.6 of RFC 3339) and
    the compact `YYYYMMDD` form. */
module Dates {
  import opened Wrappers
  import opened Text

  datatype Date = Date(year: int, month: int, day: int)

  const MinYear: int := 1
  const MaxYear: int := 9999
  /** The ordinal of 9999-12-31, Python's `date.max.toordinal()`. */
  const MaxOrdinal: int := 3652059

  predicate IsLeapYear(y: int) {
    y % 4 == 0 && (y % 100 != 0 || y % 400 == 0)
  }

  function DaysInYear(y: int): int {
    if IsLeapYear(y) then 366 else 365
  }

  /** `calendar.monthrange(y, m)[1]`. */
  function DaysInMonth(y: int, m: int): (n: int)
    requires 1 <= m <= 12
    ensures 28 <= n <= 31
  {
    if m == 2 then (if IsLeapYear(y) then 29 else 28)
    else if m == 4 || m == 6 || m == 9 || m == 11 then 30
    else 31
  }

  /** A date `datetime.date` accepts. */
  predicate ValidDate(d: Date) {
    && MinYear <= d.year <= MaxYear
    && 1 <= d.month <= 12
    && 1 <= d.day <= DaysInMonth(d.year, d.month)
  }

  /** Python's (and the Gregorian calendar's) order on dates. */
  predicate Before(a: Date, b: Date) {
    || a.year < b.year
    || (a.year == b.year && a.month < b.month)
    || (a.year == b.year && a.month == b.month && a.day < b.day)
  }

  /** Days in the years 1 .. y-1. */
  function DaysBeforeYear(y: int): int
    requires y >= 1
  {
    var p := y - 1;
    p * 365 + p / 4 - p / 100 + p / 400
  }

  /** Days in the months 1 .. m-1 of year y. */
  function DaysBeforeMonth(y: int, m: int): (n: int)
    requires 1 <= m <= 12
    ensures 28 * (m - 1) <= n <= 31 * (m - 1)
  {
    if m == 1 then 0 else DaysBeforeMonth(y, m - 1) + DaysInMonth(y, m - 1)
  }

  /** `date.toordinal()`. */
  function Ordinal(d: Date): int
    requires ValidDate(d)
  {
    DaysBeforeYear(d.year) + DaysBeforeMonth(d.year, d.month) + d.day
  }

  lemma DaysBeforeYearStep(y: int)
    requires y >= 1
    ensures DaysBeforeYear(y + 1) == DaysBeforeYear(y) + DaysInYear(y)
  {
    var p := y - 1;
    LeapCount(y);
    assert DaysBeforeYear(y) == p * 365 + p / 4 - p / 100 + p / 400;
    assert DaysBeforeYear(y + 1) == y * 365 + y / 4 - y / 100 + y / 400;
  }

  /** Of the multiples of 4, 100 and 400, the year y adds one of each it is,
      which in the leap-year rule's combination is one day exactly in leap
      years. */
  lemma LeapCount(y: int)
    requires y >= 1
    ensures (y / 4 - (y - 1) / 4) - (y / 100 - (y - 1) / 100) + (y / 400 - (y - 1) / 400)
      == if IsLeapYear(y) then 1 else 0
  {
    var p := y - 1;
    StepDiv4(p);
    StepDiv100(p);
    StepDiv400(p);
    assert p + 1 == y;
    if y % 400 == 0 {
      MultipleOf400(y);
    } else if y % 100 == 0 {
      MultipleOf100(y);
    }
  }

  lemma MultipleOf400(y: int)
    requires y % 400 == 0
    ensures y % 100 == 0 && y % 4 == 0
  {
    var k := y / 400;
    assert y == 100 * (4 * k) && y == 4 * (100 * k);
  }

  lemma MultipleOf100(y: int)
    requires y % 100 == 0
    ensures y % 4 == 0
  {
    var k := y / 100;
    assert y == 4 * (25 * k);
  }

  /** Counting one more year adds one multiple of 4, 100 or 400 exactly when
      that year is one. */
  lemma StepDiv4(p: nat)
    ensures (p + 1) / 4 == p / 4 + (if (p + 1) % 4 == 0 then 1 else 0)
  {
    var q, r := p / 4, p % 4;
    assert p == 4 * q + r;
    if r == 3 {
      assert p + 1 == 4 * (q + 1);
    } else {
      assert p + 1 == 4 * q + (r + 1);
    }
  }

  lemma StepDiv100(p: nat)
    ensures (p + 1) / 100 == p / 100 + (if (p + 1) % 100 == 0 then 1 else 0)
  {
    var q, r := p / 100, p % 100;
    assert p == 100 * q + r;
    if r == 99 {
      assert p + 1 == 100 * (q + 1);
    } else {
      assert p + 1 == 100 * q + (r + 1);
    }
  }

  lemma StepDiv400(p: nat)
    ensures (p + 1) / 400 == p / 400 + (if (p + 1) % 400 == 0 then 1 else 0)
  {
    var q, r := p / 400, p % 400;
    assert p == 400 * q + r;
    if r == 399 {
      assert p + 1 == 400 * (q + 1);
    } else {
      assert p + 1 == 400 * q + (r + 1);
    }
  }

  lemma {:induction false} DaysBeforeYearMonotone(a: int, b: int)
    requires 1 <= a <= b
    ensures DaysBeforeYear(a) + 365 * (b - a) <= DaysBeforeYear(b)
    decreases b - a
  {
    if a < b {
      DaysBeforeYearMonotone(a, b - 1);
      DaysBeforeYearStep(b - 1);
    }
  }

  lemma DaysBeforeYearMax()
    ensures DaysBeforeYear(MaxYear + 1) == MaxOrdinal
  {
  }

  /** The twelve months fill the year. */
  lemma MonthsFillYear(y: int)
    ensures DaysBeforeMonth(y, 12) + DaysInMonth(y, 12) == DaysInYear(y)
  {
    var f := if IsLeapYear(y) then 1 else 0;
    assert DaysBeforeMonth(y, 3) == 59 + f;
    assert DaysBeforeMonth(y, 4) == 90 + f;
    assert DaysBeforeMonth(y, 5) == 120 + f;
    assert DaysBeforeMonth(y, 6) == 151 + f;
    assert DaysBeforeMonth(y, 7) == 181 + f;
    assert DaysBeforeMonth(y, 8) == 212 + f;
    assert DaysBeforeMonth(y, 9) == 243 + f;
    assert DaysBeforeMonth(y, 10) == 273 + f;
    assert DaysBeforeMonth(y, 11) == 304 + f;
    assert DaysBeforeMonth(y, 12) == 334 + f;
  }

  lemma {:induction false} DaysBeforeMonthMonotone(y: int, a: int, b: int)
    requires 1 <= a < b <= 12
    ensures DaysBeforeMonth(y, a) + DaysInMonth(y, a) <= DaysBeforeMonth(y, b)
    decreases b - a
  {
    if a + 1 < b {
      DaysBeforeMonthMonotone(y, a, b - 1);
    }
  }

  /** A date's ordinal lies within the span of its year. */
  lemma OrdinalInYear(d: Date)
    requires ValidDate(d)
    ensures DaysBeforeYear(d.year) < Ordinal(d) <= DaysBeforeYear(d.year + 1)
  {
    DaysBeforeYearStep(d.year);
    MonthsFillYear(d.year);
    if d.month < 12 {
      DaysBeforeMonthMonotone(d.year, d.month, 12);
    }
  }

  /** Every date `datetime.date` accepts has an ordinal in 1 .. MaxOrdinal. */
  lemma OrdinalRange(d: Date)
    requires ValidDate(d)
    ensures 1 <= Ordinal(d) <= MaxOrdinal
  {
    OrdinalInYear(d);
    DaysBeforeYearMonotone(d.year + 1, MaxYear + 1);
    DaysBeforeYearMax();
  }

  /** Ordinals order dates as the calendar does. */
  lemma OrdinalOrder(a: Date, b: Date)
    requires ValidDate(a) && ValidDate(b)
    ensures Before(a, b) <==> Ordinal(a) < Ordinal(b)
  {
    if a.year < b.year {
      EarlierYear(a, b);
    } else if b.year < a.year {
      EarlierYear(b, a);
    } else if a.month < b.month {
      EarlierMonth(a, b);
    } else if b.month < a.month {
      EarlierMonth(b, a);
    }
  }

  lemma EarlierYear(a: Date, b: Date)
    requires ValidDate(a) && ValidDate(b) && a.year < b.year
    ensures Ordinal(a) < Ordinal(b)
  {
    OrdinalInYear(a);
    OrdinalInYear(b);
    DaysBeforeYearMonotone(a.year + 1, b.year);
  }

  lemma EarlierMonth(a: Date, b: Date)
    requires ValidDate(a) && ValidDate(b) && a.year == b.year && a.month < b.month
    ensures Ordinal(a) < Ordinal(b)
  {
    DaysBeforeMonthMonotone(a.year, a.month, b.month);
  }

  /** Distinct dates have distinct ordinals. */
  lemma OrdinalInjective(a: Date, b: Date)
    requires ValidDate(a) && ValidDate(b) && Ordinal(a) == Ordinal(b)
    ensures a == b
  {
    OrdinalOrder(a, b);
    OrdinalOrder(b, a);
  }

  /** The year whose span holds ordinal n, searched upward from year y. */
  function YearContaining(n: int, y: int): (r: int)
    requires y >= 1 && DaysBeforeYear(y) < n
    ensures r >= y && DaysBeforeYear(r) < n <= DaysBeforeYear(r + 1)
    decreases n - DaysBeforeYear(y)
  {
    DaysBeforeYearStep(y);
    if n <= DaysBeforeYear(y + 1) then y else YearContaining(n, y + 1)
  }

  /** The month of year y that holds day-of-year `doy`, searched from month m. */
  function MonthContaining(y: int, doy: int, m: int): (r: int)
    requires 1 <= m <= 12
    requires DaysBeforeMonth(y, m) < doy <= DaysInYear(y)
    ensures m <= r <= 12
    ensures DaysBeforeMonth(y, r) < doy <= DaysBeforeMonth(y, r) + DaysInMonth(y, r)
    decreases 12 - m
  {
    MonthsFillYear(y);
    if m == 12 || doy <= DaysBeforeMonth(y, m + 1) then m else MonthContaining(y, doy, m + 1)
  }

  /** `date.fromordinal(n)`. */
  function FromOrdinal(n: int): (d: Date)
    requires 1 <= n <= MaxOrdinal
  {
    var y := YearContaining(n, 1);
    var doy := n - DaysBeforeYear(y);
    DaysBeforeYearStep(y);
    var m := MonthContaining(y, doy, 1);
    Date(y, m, doy - DaysBeforeMonth(y, m))
  }

  /** `date.fromordinal` yields a date whose ordinal is the one asked for. */
  lemma FromOrdinalCorrect(n: int)
    requires 1 <= n <= MaxOrdinal
    ensures ValidDate(FromOrdinal(n))
    ensures Ordinal(FromOrdinal(n)) == n
  {
    var y := YearContaining(n, 1);
    if y > MaxYear {
      DaysBeforeYearMonotone(MaxYear + 1, y);
      DaysBeforeYearMax();
    }
  }

  /** `date.fromordinal(d.toordinal()) == d`. */
  lemma OrdinalRoundTrip(d: Date)
    requires ValidDate(d)
    ensures 1 <= Ordinal(d) <= MaxOrdinal
    ensures FromOrdinal(Ordinal(d)) == d
  {
    OrdinalRange(d);
    FromOrdinalCorrect(Ordinal(d));
    OrdinalInjective(FromOrdinal(Ordinal(d)), d);
  }

  /** `d - timedelta(days=n)`: None where Python raises OverflowError because
      the result would leave the range of `datetime.date`. */
  function SubtractDays(d: Date, n: int): (r: Option<Date>)
    requires ValidDate(d)
    ensures r.Some? <==> 1 <= Ordinal(d) - n <= MaxOrdinal
    ensures r.Some? ==> ValidDate(r.value) && Ordinal(r.value) == Ordinal(d) - n
  {
    var k := Ordinal(d) - n;
    if 1 <= k <= MaxOrdinal then
      FromOrdinalCorrect(k);
      Some(FromOrdinal(k))
    else None
  }

  /** Subtracting a positive number of days moves strictly backwards, and by
      exactly that many days. */
  lemma SubtractPositiveDays(d: Date, n: int)
    requires ValidDate(d) && n > 0 && SubtractDays(d, n).Some?
    ensures Before(SubtractDays(d, n).value, d)
    ensures Ordinal(d) - Ordinal(SubtractDays(d, n).value) == n
  {
    OrdinalOrder(SubtractDays(d, n).value, d);
  }

  /** The target month of adding `months` to a date: year and month advance by
      that many months, the day is clamped to the target month's length. None
      where `date(year, month, day)` raises ValueError (year past 9999). */
  function AddMonths(start: Date, months: nat): (r: Option<Date>)
    requires ValidDate(start)
  {
    var index := start.year * 12 + (start.month - 1) + months;
    var y := index / 12;
    var m := index % 12 + 1;
    if y > MaxYear then None
    else Some(Date(y, m, if start.day < DaysInMonth(y, m) then start.day else DaysInMonth(y, m)))
  }

  /** What adding months promises: a valid date exactly `months` calendar months
      later, whose day is the start's day unless the month is shorter, in which
      case it is that month's last day; so never earlier than the start, and
      strictly later when `months > 0`. It fails only past year 9999. */
  lemma AddMonthsProperties(start: Date, months: nat)
    requires ValidDate(start)
    ensures AddMonths(start, months).None? <==> (start.year * 12 + start.month - 1 + months) / 12 > MaxYear
    ensures AddMonths(start, months).Some? ==>
      var r := AddMonths(start, months).value;
      && ValidDate(r)
      && r.year * 12 + r.month == start.year * 12 + start.month + months
      && r.day <= start.day
      && (r.day == start.day || r.day == DaysInMonth(r.year, r.month))
      && !Before(r, start)
      && (months > 0 ==> Before(start, r) && Ordinal(start) < Ordinal(r))
  {
    if AddMonths(start, months).Some? {
      var r := AddMonths(start, months).value;
      if months > 0 {
        assert Before(start, r);
        OrdinalOrder(start, r);
      }
    }
  }

  /** The `while month > 12` loop of the month-addition fallback:
      `year`/`month` start at the start's year and its month plus `months`,
      and a year is carried while the month exceeds 12; then the day is
      clamped and `date(...)` is built, which raises for a year past 9999. */
  method AddMonthsFallback(start: Date, months: nat) returns (r: Option<Date>)
    requires ValidDate(start)
    ensures r == AddMonths(start, months)
  {
    var year := start.year;
    var month := start.month + months;
    while month > 12
      invariant month >= 1
      invariant year * 12 + month == start.year * 12 + start.month + months
      decreases month
    {
      year := year + 1;
      month := month - 12;
    }
    DivModUnique(start.year * 12 + (start.month - 1) + months, year, month - 1);
    var last := DaysInMonth(year, month);
    var day := if start.day < last then start.day else last;
    if year > MaxYear {
      r := None;
    } else {
      r := Some(Date(year, month, day));
    }
  }

  lemma DivModUnique(x: int, q: int, rem: int)
    requires 0 <= rem < 12 && x == q * 12 + rem
    ensures x / 12 == q && x % 12 == rem
  {
  }

  function Digits2(n: nat): (s: string)
    requires n < 100
    ensures |s| == 2 && AllDigits(s)
  {
    [DigitChar(n / 10), DigitChar(n % 10)]
  }

  function Digits4(n: nat): (s: string)
    requires n < 10000
    ensures |s| == 4 && AllDigits(s)
  {
    [DigitChar(n / 1000), DigitChar(n / 100 % 10), DigitChar(n / 10 % 10), DigitChar(n % 10)]
  }

  lemma Digits2RoundTrip(n: nat)
    requires n < 100
    ensures DecimalValue(Digits2(n)) == n
  {
    var s := Digits2(n);
    assert s[..1][..0] == [];
    assert DecimalValue(s[..1]) == n / 10;
    assert DecimalValue(s) == 10 * DecimalValue(s[..1]) + n % 10;
  }

  lemma Digits4RoundTrip(n: nat)
    requires n < 10000
    ensures DecimalValue(Digits4(n)) == n
  {
    Digits4Halves(n);
    Digits2RoundTrip(n / 100);
    Digits2RoundTrip(n % 100);
    DecimalValueAppend2(Digits2(n / 100), Digits2(n % 100));
  }

  /** The four digits of n are the two digits of n / 100 and the two of
      n % 100. */
  lemma Digits4Halves(n: nat)
    requires n < 10000
    ensures Digits4(n) == Digits2(n / 100) + Digits2(n % 100)
  {
    var q, r := n / 100, n % 100;
    assert n == 100 * q + r && r < 100;
    var q1, q0 := q / 10, q % 10;
    var r1, r0 := r / 10, r % 10;
    assert q == 10 * q1 + q0 && r == 10 * r1 + r0;
    assert n == 1000 * q1 + (100 * q0 + r) && 100 * q0 + r < 1000;
    assert n / 1000 == q1;
    assert n == 10 * (10 * q + r1) + r0;
    assert n / 10 == 10 * q + r1 && n % 10 == r0;
    assert (10 * q + r1) % 10 == r1;
  }

  /** Two more digits multiply the value read so far by 100. */
  lemma DecimalValueAppend2(a: string, b: string)
    requires AllDigits(a) && |b| == 2 && AllDigits(b)
    ensures AllDigits(a + b)
    ensures DecimalValue(a + b) == 100 * DecimalValue(a) + DecimalValue(b)
  {
    var s := a + b;
    var a1 := a + [b[0]];
    assert s[..|s| - 1] == a1 && s[|s| - 1] == b[1];
    assert a1[..|a1| - 1] == a && a1[|a1| - 1] == b[0];
    assert DecimalValue(a1) == 10 * DecimalValue(a) + DigitValue(b[0]);
    assert b[..1] == [b[0]] && [b[0]][..0] == [];
    assert DecimalValue(b[..1]) == DigitValue(b[0]);
    assert DecimalValue(b) == 10 * DigitValue(b[0]) + DigitValue(b[1]);
  }

  lemma DecimalValueDigits2(s: string)
    requires |s| == 2 && AllDigits(s)
    ensures DecimalValue(s) < 100 && Digits2(DecimalValue(s)) == s
  {
    assert s[..1][..0] == [];
    var v := DecimalValue(s);
    assert DecimalValue(s[..1]) == DigitValue(s[0]);
    assert v == 10 * DigitValue(s[0]) + DigitValue(s[1]);
    DigitCharOfValue(s[0]);
    DigitCharOfValue(s[1]);
  }

  lemma DecimalValueDigits4(s: string)
    requires |s| == 4 && AllDigits(s)
    ensures DecimalValue(s) < 10000 && Digits4(DecimalValue(s)) == s
  {
    var hi, lo := s[..2], s[2..];
    assert s == hi + lo;
    DecimalValueDigits2(hi);
    DecimalValueDigits2(lo);
    DecimalValueAppend2(hi, lo);
    var v := DecimalValue(s);
    assert v / 100 == DecimalValue(hi) && v % 100 == DecimalValue(lo);
    Digits4Halves(v);
  }

  /** `date.isoformat()`: `YYYY-MM-DD` with zero padding. */
  function FormatIso(d: Date): (s: string)
    requires ValidDate(d)
    ensures |s| == 10
  {
    Digits4(d.year) + "-" + Digits2(d.month) + "-" + Digits2(d.day)
  }

  /** The `YYYYMMDD` form `strftime("%Y%m%d")` gives, which is the DATE value
      of section 3.3.4 of RFC 5545. */
  function FormatBasic(d: Date): (s: string)
    requires ValidDate(d)
    ensures |s| == 8
  {
    Digits4(d.year) + Digits2(d.month) + Digits2(d.day)
  }

  /** `datetime.fromisoformat(s).date()` restricted to the `YYYY-MM-DD` form:
      None where Python raises ValueError. */
  function ParseIso(s: string): (r: Option<Date>)
    ensures r.Some? ==> ValidDate(r.value)
  {
    if |s| == 10 && s[4] == '-' && s[7] == '-'
       && AllDigits(s[..4]) && AllDigits(s[5..7]) && AllDigits(s[8..])
    then
      var d := Date(DecimalValue(s[..4]), DecimalValue(s[5..7]), DecimalValue(s[8..]));
      if ValidDate(d) then Some(d) else None
    else None
  }

  /** Formatting a date and parsing the text back gives the date. */
  lemma IsoRoundTrip(d: Date)
    requires ValidDate(d)
    ensures ParseIso(FormatIso(d)) == Some(d)
  {
    var s := FormatIso(d);
    assert s[..4] == Digits4(d.year);
    assert s[5..7] == Digits2(d.month);
    assert s[8..] == Digits2(d.day);
    Digits4RoundTrip(d.year);
    Digits2RoundTrip(d.month);
    Digits2RoundTrip(d.day);
  }

  /** A text that parses is exactly the ISO rendering of its date, so parsing
      then re-emitting with `isoformat()` gives the text back. */
  lemma IsoParseCanonical(s: string)
    requires ParseIso(s).Some?
    ensures FormatIso(ParseIso(s).value) == s
  {
    DecimalValueDigits4(s[..4]);
    DecimalValueDigits2(s[5..7]);
    DecimalValueDigits2(s[8..]);
    var t := FormatIso(ParseIso(s).value);
    assert t == s[..4] + "-" + s[5..7] + "-" + s[8..];
    assert s == s[..4] + [s[4]] + s[5..7] + [s[7]] + s[8..];
  }

  /** The compact form is the ISO form with its two dashes removed. */
  lemma BasicIsIsoWithoutDashes(d: Date)
    requires ValidDate(d)
    ensures var iso := FormatIso(d); FormatBasic(d) == iso[..4] + iso[5..7] + iso[8..]
  {
    var iso := FormatIso(d);
    assert iso[..4] == Digits4(d.year);
    assert iso[5..7] == Digits2(d.month);
    assert iso[8..] == Digits2(d.day);
  }

  /** Reads back a `YYYYMMDD` text: the digits of the ISO form without its
      dashes. */
  function ParseBasic(s: string): (r: Option<Date>)
    ensures r.Some? ==> ValidDate(r.value)
  {
    if |s| == 8 then ParseIso(s[..4] + "-" + s[4..6] + "-" + s[6..]) else None
  }

  lemma BasicRoundTrip(d: Date)
    requires ValidDate(d)
    ensures ParseBasic(FormatBasic(d)) == Some(d)
  {
    var iso := FormatIso(d);
    var b := FormatBasic(d);
    BasicIsIsoWithoutDashes(d);
    assert b[..4] == iso[..4] && b[4..6] == iso[5..7] && b[6..] == iso[8..];
    assert b[..4] + "-" + b[4..6] + "-" + b[6..] == iso;
    IsoRoundTrip(d);
  }
}
