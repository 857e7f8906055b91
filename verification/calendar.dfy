/**
 * The proleptic Gregorian calendar that Python's `date` and PostgreSQL's
 * `date` and `timestamp` types share. A `Date` value counts the seconds
 * from the start of 1 January of year 1, without a time zone; a date is
 * the first second of its day.
 */
module Calendar {
  import opened Wrappers
  import opened PyValues

  const SecondsPerDay: nat := 86400

  predicate IsLeap(y: int) {
    y % 4 == 0 && (y % 100 != 0 || y % 400 == 0)
  }

  function DaysInMonth(y: int, m: int): (n: int)
    requires 1 <= m <= 12
    ensures 28 <= n <= 31
    ensures n == 29 <==> m == 2 && IsLeap(y)
  {
    if m == 2 then (if IsLeap(y) then 29 else 28)
    else if m == 4 || m == 6 || m == 9 || m == 11 then 30
    else 31
  }

  function DaysInYear(y: int): int {
    if IsLeap(y) then 366 else 365
  }

  /** A date `date(y, m, d)` accepts: years 1 to 9999, a month, a day of that month. */
  predicate ValidDate(y: int, m: int, d: int) {
    1 <= y <= 9999 && 1 <= m <= 12 && 1 <= d <= DaysInMonth(y, m)
  }

  /** The days of the years before `y`. */
  function DaysBeforeYear(y: int): int
    requires y >= 1
  {
    var p := y - 1;
    p * 365 + p / 4 - p / 100 + p / 400
  }

  /** The days of the months of year `y` before month `m`. */
  function DaysBeforeMonth(y: int, m: int): int
    requires 1 <= m <= 12
  {
    [0, 31, 59, 90, 120, 151, 181, 212, 243, 273, 304, 334][m - 1] + (if m > 2 && IsLeap(y) then 1 else 0)
  }

  /** The days from 1 January of year 1 to the date: `date.toordinal() - 1`. */
  function DayNumber(y: int, m: int, d: int): int
    requires ValidDate(y, m, d)
  {
    DaysBeforeYear(y) + DaysBeforeMonth(y, m) + d - 1
  }

  /** The first second of a date. */
  function Midnight(y: int, m: int, d: int): int
    requires ValidDate(y, m, d)
  {
    DayNumber(y, m, d) * SecondsPerDay
  }

  /** Calendar order: an earlier year, or the same year and an earlier month, or the same month and an earlier day. */
  predicate Earlier(y: int, m: int, d: int, y2: int, m2: int, d2: int) {
    y < y2 || (y == y2 && (m < m2 || (m == m2 && d < d2)))
  }

  /** A year has 365 days, or 366 when it is a leap year. */
  lemma YearLength(y: int)
    requires y >= 1
    ensures DaysBeforeYear(y + 1) == DaysBeforeYear(y) + DaysInYear(y)
  {
    DivStep(y, 4);
    DivStep(y, 100);
    DivStep(y, 400);
    assert y % 400 == 0 ==> y % 100 == 0;
    assert y % 100 == 0 ==> y % 4 == 0;
  }

  /** Counting up by one, the quotient steps exactly at the multiples. */
  lemma DivStep(y: int, k: int)
    requires y >= 1 && k > 0
    ensures y / k - (y - 1) / k == if y % k == 0 then 1 else 0
  {
    var q, r := (y - 1) / k, (y - 1) % k;
    assert y - 1 == q * k + r && 0 <= r < k;
    if r == k - 1 {
      assert y == (q + 1) * k;
      DivUnique(y, k, q + 1, 0);
    } else {
      assert y == q * k + (r + 1);
      DivUnique(y, k, q, r + 1);
    }
  }

  lemma DivUnique(y: int, k: int, q: int, r: int)
    requires k > 0 && 0 <= r < k && y == q * k + r
    ensures y / k == q && y % k == r
  {
    var q2, r2 := y / k, y % k;
    assert y == q2 * k + r2 && 0 <= r2 < k;
    assert (q2 - q) * k == r - r2;
    MultipleBounds(q2 - q, k);
  }

  lemma MultipleBounds(a: int, k: int)
    requires k > 0
    ensures a >= 1 ==> a * k >= k
    ensures a <= -1 ==> a * k <= -k
  {
  }

  /** Each month ends where the next one starts; December ends with the year. */
  lemma MonthsFillYear(y: int, m: int)
    requires 1 <= m <= 12
    ensures DaysBeforeMonth(y, m) + DaysInMonth(y, m) == if m < 12 then DaysBeforeMonth(y, m + 1) else DaysInYear(y)
  {
  }

  lemma MonthsIncrease(y: int, m: int, m2: int)
    requires 1 <= m < m2 <= 12
    ensures DaysBeforeMonth(y, m) + DaysInMonth(y, m) <= DaysBeforeMonth(y, m2)
  {
  }

  lemma {:induction false} YearsIncrease(y: int, y2: int)
    requires 1 <= y < y2
    ensures DaysBeforeYear(y) + DaysInYear(y) <= DaysBeforeYear(y2)
    decreases y2 - y
  {
    YearLength(y);
    if y + 1 < y2 {
      YearsIncrease(y + 1, y2);
    }
  }

  /** Every day of a year lies before the next year starts. */
  lemma WithinYear(y: int, m: int, d: int)
    requires ValidDate(y, m, d)
    ensures DaysBeforeYear(y) <= DayNumber(y, m, d) < DaysBeforeYear(y) + DaysInYear(y)
  {
    MonthsFillYear(y, m);
    if m < 12 {
      MonthsIncrease(y, m, 12);
      MonthsFillYear(y, 12);
    }
  }

  /** Day numbers follow the calendar: the earlier date has the smaller number. */
  lemma EarlierIsSmaller(y: int, m: int, d: int, y2: int, m2: int, d2: int)
    requires ValidDate(y, m, d) && ValidDate(y2, m2, d2)
    requires Earlier(y, m, d, y2, m2, d2)
    ensures DayNumber(y, m, d) < DayNumber(y2, m2, d2)
  {
    if y < y2 {
      WithinYear(y, m, d);
      WithinYear(y2, m2, d2);
      YearsIncrease(y, y2);
    } else if m < m2 {
      MonthsIncrease(y, m, m2);
    }
  }

  /** Day numbers order dates exactly as the calendar does, and name each date once. */
  lemma DayNumberOrdered(y: int, m: int, d: int, y2: int, m2: int, d2: int)
    requires ValidDate(y, m, d) && ValidDate(y2, m2, d2)
    ensures DayNumber(y, m, d) < DayNumber(y2, m2, d2) <==> Earlier(y, m, d, y2, m2, d2)
    ensures DayNumber(y, m, d) == DayNumber(y2, m2, d2) <==> (y, m, d) == (y2, m2, d2)
  {
    if Earlier(y, m, d, y2, m2, d2) {
      EarlierIsSmaller(y, m, d, y2, m2, d2);
    } else if Earlier(y2, m2, d2, y, m, d) {
      EarlierIsSmaller(y2, m2, d2, y, m, d);
    }
  }

  /** The Unix epoch, 1 January 1970, is day 719162 (`date(1970, 1, 1).toordinal()` is 719163). */
  lemma UnixEpoch()
    ensures DayNumber(1970, 1, 1) == 719162
  {
  }

  /** `n` written with exactly `width` decimal digits, zero-padded on the left (`%0*d`). */
  function Padded(n: nat, width: nat): (s: string)
    ensures |s| == width && AllDigits(s)
  {
    if width == 0 then [] else Padded(n / 10, width - 1) + [DigitChar(n % 10)]
  }

  function Pow10(k: nat): (p: nat)
    ensures p >= 1
  {
    if k == 0 then 1 else 10 * Pow10(k - 1)
  }

  /** A number below `10^width` is read back from its padded digits. */
  lemma {:induction false} PaddedValue(n: nat, width: nat)
    requires n < Pow10(width)
    ensures DecimalValue(Padded(n, width)) == n
  {
    if width > 0 {
      var s := Padded(n, width);
      assert s[..|s| - 1] == Padded(n / 10, width - 1);
      assert s[|s| - 1] == DigitChar(n % 10);
      PaddedValue(n / 10, width - 1);
    }
  }

  /** `date(y, m, d).isoformat()`: `YYYY-MM-DD`. */
  function IsoText(y: int, m: int, d: int): (s: string)
    requires ValidDate(y, m, d)
    ensures |s| == 10 && s[4] == '-' && s[7] == '-'
  {
    Padded(y, 4) + "-" + Padded(m, 2) + "-" + Padded(d, 2)
  }

  /**
   * The instant an ISO `YYYY-MM-DD` text names when PostgreSQL casts it to a
   * date or timestamp: the first second of that date. Any other text names
   * no instant.
   */
  function IsoDate(s: string): (r: Option<int>)
    ensures r.Some? ==> r.value % SecondsPerDay == 0
  {
    if |s| == 10 && s[4] == '-' && s[7] == '-' && AllDigits(s[..4]) && AllDigits(s[5..7]) && AllDigits(s[8..]) then
      var y, m, d := DecimalValue(s[..4]), DecimalValue(s[5..7]), DecimalValue(s[8..]);
      if ValidDate(y, m, d) then Some(Midnight(y, m, d)) else None
    else None
  }

  /** The ISO text of a date names that date's first second. */
  lemma IsoRoundTrip(y: int, m: int, d: int)
    requires ValidDate(y, m, d)
    ensures IsoDate(IsoText(y, m, d)) == Some(Midnight(y, m, d))
  {
    var s := IsoText(y, m, d);
    assert s[..4] == Padded(y, 4);
    assert s[5..7] == Padded(m, 2);
    assert s[8..] == Padded(d, 2);
    PaddedValue(y, 4);
    PaddedValue(m, 2);
    PaddedValue(d, 2);
  }
}
