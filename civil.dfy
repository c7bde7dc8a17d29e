/** Proleptic Gregorian dates and wall-clock times in the one configured
    zone, as Python's `datetime` computes them. An instant is a whole number
    of seconds on a single time line: the ordinal of the date times 86400
    plus the seconds since midnight. */
module Civil {
  import opened Text

  datatype Date = Date(year: int, month: int, day: int)

  predicate IsLeap(y: int)
  {
    y % 4 == 0 && (y % 100 != 0 || y % 400 == 0)
  }

  function DaysInMonth(y: int, m: int): (n: int)
    requires 1 <= m <= 12
    ensures 28 <= n <= 31
    ensures n == 29 <==> m == 2 && IsLeap(y)
  {
    if m == 2 then (if IsLeap(y) then 29 else 28)
    else if m == 4 || m == 6 || m == 9 || m == 11 then 30
    else 31
  }

  /** What `datetime(year, month, day)` accepts without raising ValueError,
      apart from the upper year bound (see NextDay). */
  predicate ValidDate(d: Date)
  {
    d.year >= 1 && 1 <= d.month <= 12 && 1 <= d.day <= DaysInMonth(d.year, d.month)
  }

  /** The number of days in the years before `y`, counted year by year;
      `DaysBeforeYearFormula` shows it equals the closed form datetime
      uses. */
  function DaysBeforeYear(y: int): int
    requires y >= 1
  {
    if y == 1 then 0 else DaysBeforeYear(y - 1) + (if IsLeap(y - 1) then 366 else 365)
  }

  lemma {:induction false} DaysBeforeYearFormula(y: int)
    requires y >= 1
    ensures var p := y - 1; DaysBeforeYear(y) == p * 365 + p / 4 - p / 100 + p / 400
  {
    if y > 1 {
      DaysBeforeYearFormula(y - 1);
      LeapCount(y - 1);
    }
  }

  /** Moving from year `p - 1` to `p` adds one leap day to the closed
      form exactly when `p` is a leap year. */
  lemma LeapCount(p: int)
    ensures (p / 4 - (p - 1) / 4) - (p / 100 - (p - 1) / 100) + (p / 400 - (p - 1) / 400)
            == if IsLeap(p) then 1 else 0
  {
    assert p / 4 - (p - 1) / 4 == (if p % 4 == 0 then 1 else 0);
    assert p / 100 - (p - 1) / 100 == (if p % 100 == 0 then 1 else 0);
    assert p / 400 - (p - 1) / 400 == (if p % 400 == 0 then 1 else 0);
    if p % 400 == 0 {
      assert p == 400 * (p / 400);
      assert p == 100 * (4 * (p / 400));
    }
    if p % 100 == 0 {
      assert p == 100 * (p / 100);
      assert p == 4 * (25 * (p / 100));
    }
  }

  function DaysBeforeMonth(y: int, m: int): int
    requires 1 <= m <= 12
  {
    var common :=
      if m == 1 then 0 else if m == 2 then 31 else if m == 3 then 59
      else if m == 4 then 90 else if m == 5 then 120 else if m == 6 then 151
      else if m == 7 then 181 else if m == 8 then 212 else if m == 9 then 243
      else if m == 10 then 273 else if m == 11 then 304 else 334;
    common + (if m > 2 && IsLeap(y) then 1 else 0)
  }

  /** `date.toordinal()`: 0001-01-01 is day 1. */
  function Ordinal(d: Date): int
    requires ValidDate(d)
  {
    DaysBeforeYear(d.year) + DaysBeforeMonth(d.year, d.month) + d.day
  }

  /** `date.weekday()`: Monday is 0 and Sunday is 6. */
  function Weekday(d: Date): (w: int)
    requires ValidDate(d)
    ensures 0 <= w < 7
  {
    (Ordinal(d) + 6) % 7
  }

  /** A year's last day is followed by the next year's first. */
  lemma YearLength(y: int)
    requires y >= 1
    ensures DaysBeforeYear(y + 1) == DaysBeforeYear(y) + DaysBeforeMonth(y, 12) + 31
  {
  }

  /** Each month starts where the previous one ended. */
  lemma MonthLength(y: int, m: int)
    requires 1 <= m < 12
    ensures DaysBeforeMonth(y, m + 1) == DaysBeforeMonth(y, m) + DaysInMonth(y, m)
  {
  }

  /** The calendar day after `d` (`d + timedelta(days=1)`). Python raises
      OverflowError after 9999-12-31; the model keeps counting. */
  function NextDay(d: Date): (r: Date)
    requires ValidDate(d)
    ensures ValidDate(r) && Ordinal(r) == Ordinal(d) + 1
  {
    if d.day < DaysInMonth(d.year, d.month) then d.(day := d.day + 1)
    else if d.month < 12 then Date(d.year, d.month + 1, 1)
    else
      YearLength(d.year);
      Date(d.year + 1, 1, 1)
  }

  /** `d + timedelta(days=n)`. */
  function AddDays(d: Date, n: nat): (r: Date)
    requires ValidDate(d)
    ensures ValidDate(r) && Ordinal(r) == Ordinal(d) + n
    decreases n
  {
    if n == 0 then d else AddDays(NextDay(d), n - 1)
  }

  /** Adding days moves the weekday on by the same number, modulo 7. */
  lemma WeekdayAfter(d: Date, n: nat)
    requires ValidDate(d)
    ensures Weekday(AddDays(d, n)) == (Weekday(d) + n) % 7
  {
    ModAdd(Ordinal(d) + 6, n);
  }

  lemma ModAdd(o: int, n: nat)
    ensures (o + n) % 7 == (o % 7 + n) % 7
  {
    var q, r := o / 7, o % 7;
    assert o + n == 7 * q + (r + n);
    ModShift(q, r + n);
  }

  lemma ModShift(q: int, k: int)
    requires k >= 0
    ensures (7 * q + k) % 7 == k % 7
  {
  }

  /** `date.strftime("%Y-%m-%d")`, the year zero-padded to four digits. */
  function FormatDate(d: Date): (s: string)
    requires ValidDate(d)
  {
    ZeroPad(d.year, 4) + "-" + ZeroPad(d.month, 2) + "-" + ZeroPad(d.day, 2)
  }

  /** Lexicographic order of calendar dates. */
  predicate OnOrAfter(a: Date, b: Date)
  {
    a.year > b.year || (a.year == b.year && (a.month > b.month || (a.month == b.month && a.day >= b.day)))
  }

  /** A naive wall-clock `datetime` in the configured zone. */
  datatype DateTime = DateTime(date: Date, hour: int, minute: int, second: int, micro: int)

  predicate ValidDateTime(t: DateTime)
  {
    ValidDate(t.date) && 0 <= t.hour < 24 && 0 <= t.minute < 60 && 0 <= t.second < 60
    && 0 <= t.micro < 1000000
  }

  /** A date-time `datetime` can hold (up to the year bound of NextDay). */
  type ClockTime = t: DateTime | ValidDateTime(t) witness DateTime(Date(1, 1, 1), 0, 0, 0, 0)

  const SecondsPerDay := 86400

  /** The instant of local midnight starting the day `d`. */
  function Midnight(d: Date): int
    requires ValidDate(d)
  {
    Ordinal(d) * SecondsPerDay
  }

  /** The instant of `d` at `h:m:s` local time. */
  function At(d: Date, h: int, m: int, s: int): int
    requires ValidDate(d)
  {
    Midnight(d) + h * 3600 + m * 60 + s
  }

  /** The instant of a date-time, to the second (microseconds dropped). */
  function Instant(t: DateTime): int
    requires ValidDate(t.date)
  {
    At(t.date, t.hour, t.minute, t.second)
  }

  const MicrosPerSecond := 1000000

  /** The instant of a date-time in microseconds, as `datetime` arithmetic
      and `total_seconds()` see it. */
  function Micros(t: DateTime): int
    requires ValidDate(t.date)
  {
    Instant(t) * MicrosPerSecond + t.micro
  }

  /** `strftime("%H:%M")`. */
  function FormatHM(h: nat, m: nat): string
  {
    ZeroPad(h, 2) + ":" + ZeroPad(m, 2)
  }

  lemma MidnightNext(d: Date)
    requires ValidDate(d)
    ensures Midnight(NextDay(d)) == Midnight(d) + SecondsPerDay
  {
  }
}
