/**
 * `ExpectedHoursPer`: the hours of work expected per day, week, month and year, from four settings.
 * Python computes in floating point and truncates with `int`; this model computes exactly.
 */
module ExpectedHours {

  datatype Config = Config(
    workdaysPerWeek: int,
    holidaysPerYear: int,
    vacationDaysPerYear: int,
    workhoursPerWeek: int)

  /** The class constants WORKDAYS_PER_WEEK, HOLIDAYS_PER_YEAR, VACATION_DAYS_PER_YEAR, WORKHOURS_PER_WEEK. */
  const Default := Config(5, 9, 30, 35)

  /** Settings with which no division is by zero. */
  predicate Usable(c: Config) {
    c.workdaysPerWeek != 0
  }

  /** Python's `int(x)` of a number: truncation toward zero. */
  function Trunc(x: real): (r: int)
    ensures x >= 0.0 ==> r as real <= x < r as real + 1.0
    ensures x < 0.0 ==> r as real - 1.0 < x <= r as real
  {
    if x >= 0.0 then x.Floor else -((-x).Floor)
  }

  /** `day()`: weekly hours over weekly workdays, truncated. */
  function Day(c: Config): int
    requires Usable(c)
  {
    Trunc(c.workhoursPerWeek as real / c.workdaysPerWeek as real)
  }

  /** Dividing both sides of a bound on `a` by a positive `w`. */
  lemma DivideBounds(a: real, w: real, lo: real, hi: real)
    requires w > 0.0 && lo * w <= a < hi * w
    ensures lo <= a / w < hi
  {
    var q := a / w;
    assert q * w == a;
    assert (q - lo) * w >= 0.0;
    assert (hi - q) * w > 0.0;
  }

  /** For positive settings, `day()` is the integer quotient: the most whole hours a day that fit the week. */
  lemma DayFitsWeek(c: Config)
    requires c.workdaysPerWeek > 0 && c.workhoursPerWeek >= 0
    ensures Day(c) == c.workhoursPerWeek / c.workdaysPerWeek
    ensures Day(c) * c.workdaysPerWeek <= c.workhoursPerWeek < (Day(c) + 1) * c.workdaysPerWeek
  {
    var h, d := c.workhoursPerWeek, c.workdaysPerWeek;
    var n := h / d;
    var w := d as real;
    assert n * d <= h < (n + 1) * d;
    assert (n * d) as real == n as real * w;
    assert ((n + 1) * d) as real == (n as real + 1.0) * w;
    DivideBounds(h as real, w, n as real, n as real + 1.0);
  }

  /** `week()`. */
  function Week(c: Config): int {
    c.workhoursPerWeek
  }

  /** `_workdays_per_year()`: workdays in a year's weeks after holidays, less vacation days. */
  function WorkdaysPerYear(c: Config): real {
    ((365 - c.holidaysPerYear) * c.workdaysPerWeek) as real / 7.0 - c.vacationDaysPerYear as real
  }

  /** `year()`: daily hours times yearly workdays, truncated. */
  function Year(c: Config): (r: int)
    requires Usable(c)
    ensures var x := Day(c) as real * WorkdaysPerYear(c);
      x >= 0.0 ==> r as real <= x < r as real + 1.0
  {
    Trunc(Day(c) as real * WorkdaysPerYear(c))
  }

  /** `month()`: yearly hours over twelve, truncated; for a non-negative year, the whole hours a month that fit. */
  function Month(c: Config): (r: int)
    requires Usable(c)
    ensures Year(c) >= 0 ==> 12 * r <= Year(c) < 12 * (r + 1)
  {
    Trunc(Year(c) as real / 12.0)
  }

  /** With the class constants: 7 hours a day, 35 a week, 1570 a year and 130 a month. */
  lemma DefaultExpectedHours()
    ensures Usable(Default)
    ensures Day(Default) == 7 && Week(Default) == 35
    ensures WorkdaysPerYear(Default) == 1570.0 / 7.0
    ensures Year(Default) == 1570 && Month(Default) == 130
  {
    assert Day(Default) == 7;
    assert Day(Default) as real * WorkdaysPerYear(Default) == 1570.0;
  }
}
