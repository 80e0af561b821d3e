/**
 * Naive calendar timestamps at minute precision, as the timelog's `datetime` values are used:
 * the proleptic Gregorian calendar of years 1..9999, the day ordinal that orders them, and the
 * month carry of `datetime_add`.
 */
module Calendar {
  import opened Base

  const MinYear := 1
  const MaxYear := 9999
  const MinutesPerDay := 1440

  datatype DateTime = DateTime(year: int, month: int, day: int, hour: int, minute: int)

  predicate IsLeap(y: int) {
    y % 4 == 0 && (y % 100 != 0 || y % 400 == 0)
  }

  function DaysInMonth(y: int, m: int): (n: int)
    requires 1 <= m <= 12
    ensures 28 <= n <= 31
  {
    if m == 2 then (if IsLeap(y) then 29 else 28)
    else if m == 4 || m == 6 || m == 9 || m == 11 then 30
    else 31
  }

  /** A date and time that the `datetime` constructor accepts. */
  predicate Valid(dt: DateTime) {
    && MinYear <= dt.year <= MaxYear
    && 1 <= dt.month <= 12
    && 1 <= dt.day <= DaysInMonth(dt.year, dt.month)
    && 0 <= dt.hour < 24
    && 0 <= dt.minute < 60
  }

  type Timestamp = dt: DateTime | Valid(dt) witness DateTime(1, 1, 1, 0, 0)

  function DaysInYear(y: int): int {
    if IsLeap(y) then 366 else 365
  }

  /** Days in the years before year `y` (the number of the day before January 1 of `y`). */
  function DaysBeforeYear(y: int): int {
    var p := y - 1;
    p * 365 + p / 4 - p / 100 + p / 400
  }

  /** Days in the months of year `y` before month `m`. */
  function DaysBeforeMonth(y: int, m: int): (n: nat)
    requires 1 <= m <= 12
  {
    if m == 1 then 0 else DaysBeforeMonth(y, m - 1) + DaysInMonth(y, m - 1)
  }

  /** The day number of a date, January 1 of year 1 being day 1. */
  function Ordinal(dt: Timestamp): int {
    DaysBeforeYear(dt.year) + DaysBeforeMonth(dt.year, dt.month) + dt.day
  }

  const MaxOrdinal := Ordinal(DateTime(MaxYear, 12, 31, 0, 0))

  /** The first and the last minute the calendar can represent. */
  const FirstMoment: Timestamp := DateTime(MinYear, 1, 1, 0, 0)
  const LastMoment: Timestamp := DateTime(MaxYear, 12, 31, 23, 59)

  /** The minute key of a timestamp: the order and the differences of timestamps are those of their keys. */
  function Minutes(dt: Timestamp): int {
    Ordinal(dt) * MinutesPerDay + dt.hour * 60 + dt.minute
  }

  /** Monday is 0 and Sunday 6. */
  function Weekday(dt: Timestamp): (w: int)
    ensures 0 <= w < 7
  {
    (Ordinal(dt) + 6) % 7
  }

  /** `a` comes before `b` in the field-by-field order in which `datetime` values compare. */
  predicate Earlier(a: DateTime, b: DateTime) {
    || a.year < b.year
    || (a.year == b.year && a.month < b.month)
    || (a.year == b.year && a.month == b.month && a.day < b.day)
    || (a.year == b.year && a.month == b.month && a.day == b.day && a.hour < b.hour)
    || (a.year == b.year && a.month == b.month && a.day == b.day && a.hour == b.hour && a.minute < b.minute)
  }

  /** A year adds its own length to the days before the next year. */
  lemma YearLength(y: int)
    requires y >= 1
    ensures DaysBeforeYear(y + 1) == DaysBeforeYear(y) + DaysInYear(y)
  {
    var p := y - 1;
    assert (p + 1) / 4 - p / 4 == (if y % 4 == 0 then 1 else 0);
    assert (p + 1) / 100 - p / 100 == (if y % 100 == 0 then 1 else 0);
    assert (p + 1) / 400 - p / 400 == (if y % 400 == 0 then 1 else 0);
  }

  /** The twelve months fill the year. */
  lemma MonthsFillYear(y: int)
    ensures DaysBeforeMonth(y, 12) + DaysInMonth(y, 12) == DaysInYear(y)
  {
    var leap := if IsLeap(y) then 1 else 0;
    assert DaysBeforeMonth(y, 2) == 31;
    assert DaysBeforeMonth(y, 3) == 59 + leap;
    assert DaysBeforeMonth(y, 4) == 90 + leap;
    assert DaysBeforeMonth(y, 5) == 120 + leap;
    assert DaysBeforeMonth(y, 6) == 151 + leap;
    assert DaysBeforeMonth(y, 7) == 181 + leap;
    assert DaysBeforeMonth(y, 8) == 212 + leap;
    assert DaysBeforeMonth(y, 9) == 243 + leap;
    assert DaysBeforeMonth(y, 10) == 273 + leap;
    assert DaysBeforeMonth(y, 11) == 304 + leap;
    assert DaysBeforeMonth(y, 12) == 334 + leap;
  }

  lemma {:induction false} YearsIncrease(y: int, y': int)
    requires 1 <= y < y'
    ensures DaysBeforeYear(y) + DaysInYear(y) <= DaysBeforeYear(y')
    decreases y' - y
  {
    YearLength(y);
    if y + 1 < y' {
      YearsIncrease(y + 1, y');
    }
  }

  lemma {:induction false} MonthsIncrease(y: int, m: int, m': int)
    requires 1 <= m < m' <= 12
    ensures DaysBeforeMonth(y, m) + DaysInMonth(y, m) <= DaysBeforeMonth(y, m')
    decreases m' - m
  {
    if m + 1 < m' {
      MonthsIncrease(y, m + 1, m');
    }
  }

  /** Distinct dates have distinct ordinals, in date order. */
  lemma OrdinalIncreases(a: Timestamp, b: Timestamp)
    requires Earlier(a, b) && (a.year, a.month, a.day) != (b.year, b.month, b.day)
    ensures Ordinal(a) < Ordinal(b)
  {
    if a.year < b.year {
      assert DaysBeforeMonth(a.year, a.month) + a.day <= DaysInYear(a.year) by {
        if a.month < 12 {
          MonthsIncrease(a.year, a.month, 12);
        }
        MonthsFillYear(a.year);
      }
      YearsIncrease(a.year, b.year);
    } else if a.month < b.month {
      MonthsIncrease(a.year, a.month, b.month);
    }
  }

  /** Comparing minute keys is comparing timestamps: the key order is the field-by-field order. */
  lemma {:induction false} MinutesOrder(a: Timestamp, b: Timestamp)
    ensures Minutes(a) < Minutes(b) <==> Earlier(a, b)
    ensures Minutes(a) == Minutes(b) <==> a == b
  {
    if Earlier(a, b) {
      if (a.year, a.month, a.day) != (b.year, b.month, b.day) {
        OrdinalIncreases(a, b);
      }
    } else if Earlier(b, a) {
      if (a.year, a.month, a.day) != (b.year, b.month, b.day) {
        OrdinalIncreases(b, a);
      }
    }
  }

  /** The month index of a timestamp: twelve per year, January of year 0 being 0. */
  function MonthIndex(dt: DateTime): int {
    dt.year * 12 + (dt.month - 1)
  }

  /**
   * `datetime_add(dt, years=..., months=...)`: carry the month into 1..12 with a floored divmod, then
   * rebuild the timestamp, which fails when the day does not exist in the new month or the year
   * leaves 1..9999.
   */
  function DatetimeAdd(dt: Timestamp, years: int, months: int): (r: Option<Timestamp>)
    ensures r.Some? ==> && 1 <= r.value.month <= 12
                        && MonthIndex(r.value) == MonthIndex(dt) + 12 * years + months
                        && (r.value.day, r.value.hour, r.value.minute) == (dt.day, dt.hour, dt.minute)
    ensures r.None? <==> (var target := MonthIndex(dt) + 12 * years + months;
                          var y, m := target / 12, target % 12 + 1;
                          !(MinYear <= y <= MaxYear && dt.day <= DaysInMonth(y, m)))
  {
    var month := dt.month + months;
    // Dafny's division by a positive divisor floors, as Python's divmod does.
    var div, rem := (month - 1) / 12, (month - 1) % 12;
    var year := dt.year + years + div;
    assert MonthIndex(dt) + 12 * years + months == year * 12 + rem;
    assert (year * 12 + rem) / 12 == year && (year * 12 + rem) % 12 == rem;
    var candidate := DateTime(year, rem + 1, dt.day, dt.hour, dt.minute);
    if Valid(candidate) then Some(candidate) else None
  }
}
