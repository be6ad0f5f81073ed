/**
 * Calendar dates of the proleptic Gregorian calendar, their day numbers (Python's
 * `toordinal`, so one week is 7 days), the `strftime('%Y-%m-%d')` text that
 * `clean_date` and the dashboard's `Dates` column produce, and reading that text back.
 */
module Calendar {
  import opened Wrappers
  import opened Strings

  datatype Date = Date(year: int, month: int, day: int)

  predicate IsLeapYear(y: int)
  {
    y % 4 == 0 && (y % 100 != 0 || y % 400 == 0)
  }

  function DaysInYear(y: int): int
  {
    if IsLeapYear(y) then 366 else 365
  }

  function DaysInMonth(y: int, m: int): int
    requires 1 <= m <= 12
  {
    if m == 2 then (if IsLeapYear(y) then 29 else 28)
    else if m == 4 || m == 6 || m == 9 || m == 11 then 30
    else 31
  }

  /** A real calendar day within Python's `datetime` range (years 1 to 9999). */
  predicate Valid(d: Date)
  {
    1 <= d.year <= 9999 && 1 <= d.month <= 12 && 1 <= d.day <= DaysInMonth(d.year, d.month)
  }

  /** A real calendar day that Python's `date` can hold. */
  type ValidDate = d: Date | Valid(d) witness Date(1970, 1, 1)

  /**
   * A day that pandas' nanosecond timestamps can hold. The first representable instant
   * falls on 1677-09-21 shortly after midnight and the last on 2262-04-11 shortly before
   * midnight, so whole days run from 1677-09-22 to 2262-04-11.
   */
  predicate InTimestampRange(d: Date)
  {
    !Before(d, FirstStampDay) && !Before(Date(2262, 4, 11), d)
  }

  /** The first whole day a nanosecond timestamp holds. */
  const FirstStampDay: Date := Date(1677, 9, 22)

  /** A timestamp as pandas holds it in a datetime column: a day in the timestamp range. */
  type Timestamp = d: Date | Valid(d) && InTimestampRange(d) witness Date(1970, 1, 1)

  /** `a` is an earlier day than `b`: year first, then month, then day. */
  predicate Before(a: Date, b: Date)
  {
    a.year < b.year
    || (a.year == b.year && a.month < b.month)
    || (a.year == b.year && a.month == b.month && a.day < b.day)
  }

  function DaysBeforeYear(y: int): int
    requires 1 <= y
    decreases y
  {
    if y == 1 then 0 else DaysBeforeYear(y - 1) + DaysInYear(y - 1)
  }

  function DaysBeforeMonth(y: int, m: int): int
    requires 1 <= m <= 12
  {
    [0, 31, 59, 90, 120, 151, 181, 212, 243, 273, 304, 334][m - 1]
    + (if 2 < m && IsLeapYear(y) then 1 else 0)
  }

  /** Python's `date.toordinal()`: 0001-01-01 is day 1, and every day of a year follows the days of the years before it. */
  function Ordinal(d: Date): (n: int)
    requires Valid(d)
    ensures DaysBeforeYear(d.year) < n <= DaysBeforeYear(d.year) + DaysInYear(d.year)
    ensures d == Date(1, 1, 1) ==> n == 1
  {
    WithinYear(d);
    DaysBeforeYear(d.year) + DaysBeforeMonth(d.year, d.month) + d.day
  }

  /** The months of a year tile it: each month ends where the next begins. */
  lemma MonthsTileYear(y: int, m: int)
    requires 1 <= m <= 12
    ensures DaysBeforeMonth(y, m) + DaysInMonth(y, m)
            == if m < 12 then DaysBeforeMonth(y, m + 1) else DaysInYear(y)
  {
  }

  lemma {:induction false} YearsGrow(y1: int, y2: int)
    requires 1 <= y1 < y2
    ensures DaysBeforeYear(y1) + DaysInYear(y1) <= DaysBeforeYear(y2)
  {
    if y1 + 1 < y2 {
      YearsGrow(y1, y2 - 1);
    }
  }

  /** The last day of a date's year is at most this far from the start of the year. */
  lemma WithinYear(d: Date)
    requires Valid(d)
    ensures DaysBeforeMonth(d.year, d.month) + d.day <= DaysInYear(d.year)
  {
    MonthsTileYear(d.year, d.month);
    if d.month < 12 {
      MonthsTileYear(d.year, 12);
      MonthsGrow(d.year, d.month + 1, 12);
    }
  }

  lemma MonthsGrow(y: int, m1: int, m2: int)
    requires 1 <= m1 <= m2 <= 12
    ensures DaysBeforeMonth(y, m1) <= DaysBeforeMonth(y, m2)
  {
  }

  /** Day numbers follow the calendar: a smaller day number is exactly an earlier date. */
  lemma OrdinalOrder(a: Date, b: Date)
    requires Valid(a) && Valid(b)
    ensures Ordinal(a) < Ordinal(b) <==> Before(a, b)
    ensures Ordinal(a) == Ordinal(b) <==> a == b
  {
    if Before(a, b) {
      OrdinalBefore(a, b);
    } else if Before(b, a) {
      OrdinalBefore(b, a);
    }
  }

  lemma OrdinalBefore(a: Date, b: Date)
    requires Valid(a) && Valid(b) && Before(a, b)
    ensures Ordinal(a) < Ordinal(b)
  {
    if a.year < b.year {
      WithinYear(a);
      YearsGrow(a.year, b.year);
    } else if a.month < b.month {
      MonthsTileYear(a.year, a.month);
      MonthsGrow(a.year, a.month + 1, b.month);
    }
  }

  /** Two-digit, zero-padded field (`%m`, `%d`). */
  function Pad2(n: int): (s: string)
    requires 0 <= n < 100
    ensures |s| == 2 && AllDigits(s)
  {
    [DigitChar(n / 10), DigitChar(n % 10)]
  }

  /** Four-digit, zero-padded field (`%Y`). */
  function Pad4(n: int): (s: string)
    requires 0 <= n < 10000
    ensures |s| == 4 && AllDigits(s)
  {
    Pad2(n / 100) + Pad2(n % 100)
  }

  /** The shape of every `YYYY-MM-DD` text: ten characters, dashes at 4 and 7, digits elsewhere. */
  predicate IsoShaped(s: string)
  {
    |s| == 10 && s[4] == '-' && s[7] == '-'
    && forall i :: 0 <= i < 10 && i != 4 && i != 7 ==> IsDigit(s[i])
  }

  /** `strftime('%Y-%m-%d')`. */
  function Format(d: Date): (s: string)
    requires Valid(d)
    ensures IsoShaped(s)
  {
    Pad4(d.year) + "-" + Pad2(d.month) + "-" + Pad2(d.day)
  }

  /** Reading a `YYYY-MM-DD` text back into a date; fails on any other shape or a day that does not exist. */
  function ParseIso(s: string): Option<Date>
  {
    if IsoShaped(s) then
      var d := Date(DigitsValue(s[..4]), DigitsValue(s[5..7]), DigitsValue(s[8..]));
      if Valid(d) then Some(d) else None
    else None
  }

  lemma Pad2RoundTrip(n: int)
    requires 0 <= n < 100
    ensures DigitsValue(Pad2(n)) == n
  {
    DigitsValueTwo(Pad2(n));
  }

  lemma Pad2Read(s: string)
    requires |s| == 2 && AllDigits(s)
    ensures DigitsValue(s) < 100 && Pad2(DigitsValue(s)) == s
  {
    DigitsValueTwo(s);
  }

  lemma {:induction false} DigitsValueConcat(u: string, v: string)
    requires AllDigits(u) && AllDigits(v) && |v| == 2
    ensures AllDigits(u + v) && DigitsValue(u + v) == 100 * DigitsValue(u) + DigitsValue(v)
  {
    var w := u + v;
    var h := u + [v[0]];
    assert w[..|w| - 1] == h && w[|w| - 1] == v[1];
    assert h[..|h| - 1] == u && h[|h| - 1] == v[0];
    assert DigitsValue(w) == 10 * DigitsValue(h) + DigitValue(v[1]);
    assert DigitsValue(h) == 10 * DigitsValue(u) + DigitValue(v[0]);
    DigitsValueTwo(v);
  }

  lemma Pad4RoundTrip(n: int)
    requires 0 <= n < 10000
    ensures DigitsValue(Pad4(n)) == n
  {
    DigitsValueConcat(Pad2(n / 100), Pad2(n % 100));
    Pad2RoundTrip(n / 100);
    Pad2RoundTrip(n % 100);
  }

  lemma Pad4Read(s: string)
    requires |s| == 4 && AllDigits(s)
    ensures DigitsValue(s) < 10000 && Pad4(DigitsValue(s)) == s
  {
    var hi, lo := s[..2], s[2..];
    assert s == hi + lo;
    DigitsValueConcat(hi, lo);
    Pad2Read(hi);
    Pad2Read(lo);
    HundredsSplit(DigitsValue(hi), DigitsValue(lo));
  }

  lemma HundredsSplit(a: nat, b: nat)
    requires a < 100 && b < 100
    ensures (100 * a + b) / 100 == a && (100 * a + b) % 100 == b
  {
  }

  /** Formatting a date and reading it back gives the date. */
  lemma FormatThenParse(d: Date)
    requires Valid(d)
    ensures ParseIso(Format(d)) == Some(d)
  {
    var s := Format(d);
    assert s[..4] == Pad4(d.year);
    assert s[5..7] == Pad2(d.month);
    assert s[8..] == Pad2(d.day);
    Pad4RoundTrip(d.year);
    Pad2RoundTrip(d.month);
    Pad2RoundTrip(d.day);
  }

  /** Every text that reads as a date is exactly that date's formatted text. */
  lemma ParseThenFormat(s: string, d: Date)
    requires ParseIso(s) == Some(d)
    ensures Valid(d) && Format(d) == s
  {
    assert AllDigits(s[..4]) && AllDigits(s[5..7]) && AllDigits(s[8..]);
    Pad4Read(s[..4]);
    Pad2Read(s[5..7]);
    Pad2Read(s[8..]);
    assert s == s[..4] + "-" + s[5..7] + "-" + s[8..];
  }

  lemma DigitCharOrder(a: int, b: int)
    requires 0 <= a < 10 && 0 <= b < 10
    ensures DigitChar(a) < DigitChar(b) <==> a < b
    ensures DigitChar(a) == DigitChar(b) <==> a == b
  {
  }

  lemma Pad2Order(n: int, m: int)
    requires 0 <= n < 100 && 0 <= m < 100
    ensures Less(Pad2(n), Pad2(m)) <==> n < m
    ensures Pad2(n) == Pad2(m) <==> n == m
  {
    DigitCharOrder(n / 10, m / 10);
    DigitCharOrder(n % 10, m % 10);
    var u, v := Pad2(n), Pad2(m);
    assert u[1..][1..] == [] && v[1..][1..] == [];
    assert Less(u[1..], v[1..]) <==> u[1] < v[1];
    if u == v {
      assert u[0] == v[0] && u[1] == v[1];
    }
  }

  lemma Pad4Order(n: int, m: int)
    requires 0 <= n < 10000 && 0 <= m < 10000
    ensures Less(Pad4(n), Pad4(m)) <==> n < m
    ensures Pad4(n) == Pad4(m) <==> n == m
  {
    LessConcat(Pad2(n / 100), Pad2(n % 100), Pad2(m / 100), Pad2(m % 100));
    Pad2Order(n / 100, m / 100);
    Pad2Order(n % 100, m % 100);
    if Pad4(n) == Pad4(m) {
      assert Pad4(n)[..2] == Pad2(n / 100) && Pad4(m)[..2] == Pad2(m / 100);
      assert Pad4(n)[2..] == Pad2(n % 100) && Pad4(m)[2..] == Pad2(m % 100);
    }
  }

  /**
   * Comparing two formatted dates as text is comparing the dates: the fields are
   * fixed-width and zero-padded. The string sorts of the cleaning run and of the
   * dashboard's table rely on this.
   */
  lemma FormatOrder(a: Date, b: Date)
    requires Valid(a) && Valid(b)
    ensures Less(Format(a), Format(b)) <==> Before(a, b)
  {
    var ya, yb := Pad4(a.year), Pad4(b.year);
    var ma, mb := Pad2(a.month), Pad2(b.month);
    var da, db := Pad2(a.day), Pad2(b.day);
    assert Format(a) == ya + ("-" + ma + ("-" + da));
    assert Format(b) == yb + ("-" + mb + ("-" + db));
    LessConcat(ya, "-" + ma + ("-" + da), yb, "-" + mb + ("-" + db));
    Pad4Order(a.year, b.year);
    assert "-" + ma + ("-" + da) == "-" + (ma + ("-" + da));
    assert "-" + mb + ("-" + db) == "-" + (mb + ("-" + db));
    LessConcat("-", ma + ("-" + da), "-", mb + ("-" + db));
    LessConcat(ma, "-" + da, mb, "-" + db);
    Pad2Order(a.month, b.month);
    LessConcat("-", da, "-", db);
    Pad2Order(a.day, b.day);
    LessIrreflexive("-");
  }

  /** Text order of formatted dates is the order of their day numbers. */
  lemma FormatChronological(a: Date, b: Date)
    requires Valid(a) && Valid(b)
    ensures Less(Format(a), Format(b)) <==> Ordinal(a) < Ordinal(b)
  {
    FormatOrder(a, b);
    OrdinalOrder(a, b);
  }

  /** Four weeks before 2024-06-07 is 2024-05-10. */
  lemma FourWeeksBeforeJune7()
    ensures Ordinal(Date(2024, 6, 7)) - 28 == Ordinal(Date(2024, 5, 10))
  {
  }

  /** 1680-01-01 is 831 days after the first timestamp day. */
  lemma EarlyStampDays()
    ensures Ordinal(Date(1680, 1, 1)) - Ordinal(FirstStampDay) == 831
  {
    assert DaysBeforeYear(1680) == DaysBeforeYear(1677) + 365 + 365 + 365;
  }
}
