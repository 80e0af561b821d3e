/**
 * Narrowing a contiguous window of line indices to a time range by bisection (`Query`), the period
 * presets built on it, and materialising the window's lines.
 *
 * Timestamps enter the search as their minute keys (Calendar.Minutes), whose order is the order of
 * the timestamps (Calendar.MinutesOrder).
 */
module Query {
  import opened Base
  import opened Calendar
  import opened Timelog

  /** Every index of the window names a line. */
  predicate InBounds(src: seq<string>, w: seq<int>) {
    forall k :: 0 <= k < |w| ==> 0 <= w[k] < |src|
  }

  /** The window holds consecutive indices, like a Python `range` with step 1. */
  predicate Contiguous(w: seq<int>) {
    forall k :: 0 < k < |w| ==> w[k] == w[k - 1] + 1
  }

  /** `range(n)`. */
  function Indices(n: nat): (w: seq<int>)
    ensures |w| == n && forall k :: 0 <= k < n ==> w[k] == k
  {
    seq(n, k => k)
  }

  /** `get(i)` in `split`: the minute key of line `idx`'s timestamp; the empty-line marker has none. */
  function KeyAt(src: seq<string>, idx: int): (r: Result<int>)
    requires 0 <= idx < |src|
  {
    match ParseLine(src, idx)
    case Err(e) => Err(e)
    case Ok(EmptyLine) => Err(TypeError)
    case Ok(Entry(dt, _)) => Ok(Minutes(dt))
  }

  /** What `get` gives at each position of the window: a key, or the exception reading it raises. */
  function Probes(src: seq<string>, w: seq<int>): (p: seq<Result<int>>)
    requires InBounds(src, w)
    ensures |p| == |w| && forall k :: 0 <= k < |w| ==> p[k] == KeyAt(src, w[k])
  {
    seq(|w|, k requires 0 <= k < |w| => KeyAt(src, w[k]))
  }

  /**
   * The `while high - low > 1` loop of `split`, from bounds `low` and `high` over the probe results:
   * probe the middle, keep the upper half when its key is at most `bound`, the lower half otherwise,
   * and end with `high`. Only positions strictly between `low` and `high` are ever probed.
   */
  function Bisect(probes: seq<Result<int>>, bound: int, low: int, high: int): (r: Result<int>)
    requires 0 <= low && high < |probes| && low <= high + 1
    ensures r.Ok? ==> if low < high then low < r.value <= high else r.value == high
    ensures r.Err? ==> exists k :: low < k < high && probes[k] == Err(r.error)
    decreases high - low
  {
    if high - low > 1 then
      var mid := (low + high) / 2;
      match probes[mid]
      case Err(e) => Err(e)
      case Ok(key) =>
        if key <= bound then Bisect(probes, bound, mid, high) else Bisect(probes, bound, low, mid)
    else
      Ok(high)
  }

  /** The cut point `high` that `split` computes over the whole window. */
  function Cut(src: seq<string>, w: seq<int>, bound: int): (r: Result<int>)
    requires InBounds(src, w)
  {
    Bisect(Probes(src, w), bound, 0, |w| - 1)
  }

  /**
   * The window after `split(bound, after)`: the suffix from the cut point when `after`, the prefix
   * before it otherwise. The first index is never kept by `after` and the last never by `before`
   * (when there are two or more), whatever their timestamps; a failed probe leaves no window.
   */
  function SplitWindow(src: seq<string>, w: seq<int>, bound: int, after: bool): (r: Result<seq<int>>)
    requires InBounds(src, w)
    ensures r.Ok? ==> |r.value| <= |w|
    ensures r.Ok? && after ==> r.value == w[|w| - |r.value|..]
    ensures r.Ok? && !after ==> r.value == w[..|r.value|]
    ensures r.Ok? && |w| >= 2 ==> 1 <= |r.value| < |w|
    ensures r.Ok? && |w| == 1 ==> r.value == (if after then w else [])
    ensures r.Err? ==> exists k :: 0 < k < |w| - 1 && KeyAt(src, w[k]) == Err(r.error)
  {
    match Cut(src, w, bound)
    case Err(e) => Err(e)
    case Ok(h) =>
      // Python slices `w[-1:]` and `w[:-1]` of an empty range are empty.
      if |w| == 0 then Ok(w)
      else if after then Ok(w[h..])
      else Ok(w[..h])
  }

  /** Every probe gives a key. */
  predicate Keyed(probes: seq<Result<int>>) {
    forall k :: 0 <= k < |probes| ==> probes[k].Ok?
  }

  /** The keys of fully keyed probes. */
  function Keys(probes: seq<Result<int>>): (keys: seq<int>)
    requires Keyed(probes)
    ensures |keys| == |probes| && forall k :: 0 <= k < |probes| ==> probes[k] == Ok(keys[k])
  {
    seq(|probes|, k requires 0 <= k < |probes| => probes[k].value)
  }

  predicate Sorted(keys: seq<int>) {
    forall a, b :: 0 <= a <= b < |keys| ==> keys[a] <= keys[b]
  }

  /** Linear scan from `j`: the first position whose key exceeds `bound`, stopping at the last position. */
  function ScanFrom(keys: seq<int>, bound: int, j: int): (r: int)
    requires 1 <= j <= |keys| - 1
    ensures j <= r <= |keys| - 1
    ensures forall k :: j <= k < r ==> keys[k] <= bound
    ensures r == |keys| - 1 || keys[r] > bound
    decreases |keys| - j
  {
    if j == |keys| - 1 || keys[j] > bound then j else ScanFrom(keys, bound, j + 1)
  }

  /**
   * Reference for the cut point: scanning the positions strictly inside the window, the first whose
   * key exceeds `bound`, else the last position.
   */
  function ScanCut(keys: seq<int>, bound: int): (r: int)
    ensures |keys| >= 2 ==> 1 <= r <= |keys| - 1
    ensures |keys| < 2 ==> r == |keys| - 1
  {
    if |keys| >= 2 then ScanFrom(keys, bound, 1) else |keys| - 1
  }

  /**
   * The loop's bracket: the key at `low` is at most `bound` unless `low` is the first position, and
   * the key at `high` exceeds `bound` unless `high` is the last.
   */
  predicate Brackets(probes: seq<Result<int>>, bound: int, low: int, high: int)
    requires 0 <= low <= high < |probes|
  {
    && (low == 0 || (probes[low].Ok? && probes[low].value <= bound))
    && (high == |probes| - 1 || (probes[high].Ok? && probes[high].value > bound))
  }

  /**
   * A bisection that succeeds keeps the bracket from `low`/`high` to the end, where `high - low` is 1:
   * the cut point's key exceeds `bound` and the key just before it does not (ends excepted).
   */
  lemma {:induction false} BisectBrackets(probes: seq<Result<int>>, bound: int, low: int, high: int)
    requires 0 <= low < high < |probes| && Brackets(probes, bound, low, high)
    requires Bisect(probes, bound, low, high).Ok?
    ensures Brackets(probes, bound, Bisect(probes, bound, low, high).value - 1, Bisect(probes, bound, low, high).value)
    decreases high - low
  {
    if high - low > 1 {
      var mid := (low + high) / 2;
      var r := Bisect(probes, bound, low, high);
      if probes[mid].value <= bound {
        assert r == Bisect(probes, bound, mid, high);
        BisectBrackets(probes, bound, mid, high);
      } else {
        assert r == Bisect(probes, bound, low, mid);
        BisectBrackets(probes, bound, low, mid);
      }
    }
  }

  /** On keys in time order, the bisection finds the linear scan's cut point. */
  lemma CutIsScan(probes: seq<Result<int>>, bound: int)
    requires Keyed(probes) && Sorted(Keys(probes))
    ensures Bisect(probes, bound, 0, |probes| - 1) == Ok(ScanCut(Keys(probes), bound))
  {
    var keys := Keys(probes);
    if |keys| >= 2 {
      assert Bisect(probes, bound, 0, |keys| - 1).Ok?;
      BisectBrackets(probes, bound, 0, |keys| - 1);
    }
  }

  /**
   * Whatever the order of the lines, a cut point found over a window of two or more lines sits
   * between a line at or before `bound` and a line after it, except at the window's two ends, which
   * are never read.
   */
  lemma CutBrackets(src: seq<string>, w: seq<int>, bound: int)
    requires InBounds(src, w) && |w| >= 2 && Cut(src, w, bound).Ok?
    ensures var h, keys := Cut(src, w, bound).value, Probes(src, w);
      && 1 <= h <= |w| - 1
      && (h - 1 == 0 || (keys[h - 1].Ok? && keys[h - 1].value <= bound))
      && (h == |w| - 1 || (keys[h].Ok? && keys[h].value > bound))
  {
    BisectFromEnds(Probes(src, w), bound);
  }

  /** A whole-window bisection brackets its cut point, the two ends of the window excepted. */
  lemma BisectFromEnds(probes: seq<Result<int>>, bound: int)
    requires |probes| >= 2 && Bisect(probes, bound, 0, |probes| - 1).Ok?
    ensures var h := Bisect(probes, bound, 0, |probes| - 1).value;
      1 <= h <= |probes| - 1 && Brackets(probes, bound, h - 1, h)
  {
    BisectBrackets(probes, bound, 0, |probes| - 1);
  }

  /**
   * On a window of timestamped lines in time order, `after(bound)` keeps, of the lines strictly inside
   * the window, exactly those later than `bound`, and `before(bound)` exactly those at or before it.
   */
  lemma SplitByBound(src: seq<string>, w: seq<int>, bound: int)
    requires InBounds(src, w) && Keyed(Probes(src, w)) && Sorted(Keys(Probes(src, w))) && |w| >= 2
    ensures var keys := Keys(Probes(src, w));
      var h := ScanCut(keys, bound);
      && SplitWindow(src, w, bound, true) == Ok(w[h..])
      && SplitWindow(src, w, bound, false) == Ok(w[..h])
      && forall k :: 1 <= k < |w| - 1 ==> (h <= k <==> keys[k] > bound)
  {
    var keys := Keys(Probes(src, w));
    var h := ScanCut(keys, bound);
    CutIsScan(Probes(src, w), bound);
    forall k | 1 <= k < |w| - 1
      ensures h <= k <==> keys[k] > bound
    {
      if h <= k {
        assert keys[h] <= keys[k];
      }
    }
  }

  /** What reading each position of the window gives: its parsed line, or the exception. */
  function Parses(src: seq<string>, w: seq<int>): (p: seq<Result<Line>>)
    requires InBounds(src, w)
    ensures |p| == |w| && forall k :: 0 <= k < |w| ==> p[k] == ParseLine(src, w[k])
  {
    seq(|w|, k requires 0 <= k < |w| => ParseLine(src, w[k]))
  }

  /** Reading the results in order: all the lines, or the first exception. */
  function Collect(results: seq<Result<Line>>): (r: Result<seq<Line>>)
    ensures r.Ok? <==> forall k :: 0 <= k < |results| ==> results[k].Ok?
    ensures r.Ok? ==> |r.value| == |results| && forall k :: 0 <= k < |results| ==> results[k] == Ok(r.value[k])
    ensures r.Err? ==> exists k :: 0 <= k < |results| && results[k] == Err(r.error)
                                   && forall j :: 0 <= j < k ==> results[j].Ok?
  {
    if results == [] then Ok([])
    else
      var init := results[..|results| - 1];
      assert forall k :: 0 <= k < |init| ==> init[k] == results[k];
      match Collect(init)
      case Err(e) =>
        var k :| 0 <= k < |init| && init[k] == Err(e) && forall j :: 0 <= j < k ==> init[j].Ok?;
        assert results[k] == Err(e) && forall j :: 0 <= j < k ==> results[j].Ok?;
        Err(e)
      case Ok(lines) =>
        match results[|results| - 1]
        case Err(e) => Err(e)
        case Ok(line) => Ok(lines + [line])
  }

  /** Once a prefix of the results fails, reading all of them fails with the same exception. */
  lemma {:induction false} CollectFailsOnPrefix(results: seq<Result<Line>>, n: nat)
    requires n <= |results| && Collect(results[..n]).Err?
    ensures Collect(results) == Collect(results[..n])
    decreases |results| - n
  {
    if n < |results| {
      assert results[..n + 1][..n] == results[..n];
      CollectFailsOnPrefix(results, n + 1);
    } else {
      assert results[..n] == results;
    }
  }

  /** Reading one more result either appends its line or stops at its error. */
  lemma CollectStep(results: seq<Result<Line>>, i: nat, lines: seq<Line>)
    requires i < |results| && Collect(results[..i]) == Ok(lines)
    ensures Collect(results[..i + 1]) ==
      if results[i].Ok? then Ok(lines + [results[i].value]) else Err(results[i].error)
  {
    assert results[..i + 1][..i] == results[..i];
  }

  /**
   * The lines of the window, in window order (`all()`), or the error of the first line that does not
   * parse, which is what reading the generator in order raises.
   */
  function Materialize(src: seq<string>, w: seq<int>): (r: Result<seq<Line>>)
    requires InBounds(src, w)
    ensures r.Ok? <==> forall k :: 0 <= k < |w| ==> ParseLine(src, w[k]).Ok?
    ensures r.Ok? ==> |r.value| == |w| && forall k :: 0 <= k < |w| ==> ParseLine(src, w[k]) == Ok(r.value[k])
    ensures r.Err? ==> exists k :: 0 <= k < |w| && ParseLine(src, w[k]) == Err(r.error)
                                   && forall j :: 0 <= j < k ==> ParseLine(src, w[j]).Ok?
  {
    Collect(Parses(src, w))
  }

  /** A query never narrowed materialises every line, in file order. */
  lemma MaterializeAll(src: seq<string>)
    requires forall k :: 0 <= k < |src| ==> ParseLine(src, k).Ok?
    ensures var r := Materialize(src, Indices(|src|));
      r.Ok? && |r.value| == |src| && forall k :: 0 <= k < |src| ==> Ok(r.value[k]) == ParseLine(src, k)
  {
    var w := Indices(|src|);
    var r := Materialize(src, w);
    assert r.Ok? by {
      forall k | 0 <= k < |w|
        ensures ParseLine(src, w[k]).Ok?
      {
        assert w[k] == k;
      }
    }
    forall k | 0 <= k < |src|
      ensures r.value[k] == ParseLine(src, k).value
    {
      assert ParseLine(src, w[k]) == Ok(r.value[k]) && w[k] == k;
    }
  }

  /** Midnight of the day of `now`: `datetime(now.year, now.month, now.day)`. */
  function DayStart(now: Timestamp): Timestamp {
    DateTime(now.year, now.month, now.day, 0, 0)
  }

  /**
   * `datetime_add(start, days=n)`, as a minute key: whole days move the key by whole days, and a date
   * outside the years 1..9999 overflows.
   */
  function ShiftDays(start: Timestamp, days: int): (r: Result<int>)
    ensures r.Err? ==> r.error == OverflowError
  {
    if 1 <= Ordinal(start) + days <= MaxOrdinal then Ok(Minutes(start) + days * MinutesPerDay)
    else Err(OverflowError)
  }

  /**
   * Shifting by whole days keeps the time of day and fails exactly when the result would leave the
   * calendar, 0001-01-01 00:00 to 9999-12-31 23:59.
   */
  lemma ShiftDaysStaysInCalendar(start: Timestamp, days: int)
    ensures var r := ShiftDays(start, days);
      && (r.Ok? <==> Minutes(FirstMoment) <= Minutes(start) + days * MinutesPerDay <= Minutes(LastMoment))
      && (r.Ok? ==> r.value - Minutes(start) == days * MinutesPerDay)
  {
    var t := start.hour * 60 + start.minute;
    assert Minutes(start) == Ordinal(start) * MinutesPerDay + t;
    CalendarEnds();
    DayRange(Ordinal(start), t, days, MaxOrdinal);
  }

  /** A minute key shifted by whole days stays within days `1..last` exactly when its day does. */
  lemma DayRange(day: int, minute: int, days: int, last: int)
    requires 0 <= minute < MinutesPerDay
    ensures var key := day * MinutesPerDay + minute + days * MinutesPerDay;
      MinutesPerDay <= key <= last * MinutesPerDay + 1439 <==> 1 <= day + days <= last
  {
    var shifted := day + days;
    assert day * MinutesPerDay + days * MinutesPerDay == shifted * MinutesPerDay;
    if shifted < 1 {
      assert shifted * MinutesPerDay <= 0;
    }
    if shifted > last {
      assert shifted * MinutesPerDay >= (last + 1) * MinutesPerDay;
    }
  }

  lemma CalendarEnds()
    ensures Minutes(FirstMoment) == MinutesPerDay
    ensures Minutes(LastMoment) == MaxOrdinal * MinutesPerDay + 1439
  {
  }

  /** A calendar-built bound as a minute key, or the ValueError of a date that does not exist. */
  function KeyOf(t: Option<Timestamp>): Result<int> {
    match t
    case None => Err(ValueError)
    case Some(dt) => Ok(Minutes(dt))
  }

  /** A pair of bounds: the `after` bound and the `before` bound of a preset. */
  datatype Bounds = Bounds(lower: Result<int>, upper: Result<int>)

  /** `day(offset)`: midnight `offset` days from today, and midnight a day later. */
  function DayBounds(now: Timestamp, offset: int): Bounds {
    Bounds(ShiftDays(DayStart(now), offset), ShiftDays(DayStart(now), offset + 1))
  }

  /** `week(offset)`: midnight of this week's Monday moved by `offset` weeks, and a week later. */
  function WeekBounds(now: Timestamp, offset: int): Bounds {
    Bounds(ShiftDays(DayStart(now), 7 * offset - Weekday(now)),
           ShiftDays(DayStart(now), 7 * (offset + 1) - Weekday(now)))
  }

  /** The first of the month `offset` months from that of `now`. */
  function MonthStart(now: Timestamp, offset: int): Option<Timestamp> {
    DatetimeAdd(DateTime(now.year, now.month, 1, 0, 0), 0, offset)
  }

  /** `month(offset)`: the first of the month `offset` months away, and the first of the month after. */
  function MonthBounds(now: Timestamp, offset: int): Bounds {
    Bounds(KeyOf(MonthStart(now, offset)), KeyOf(MonthStart(now, offset + 1)))
  }

  /** January 1 of the year `offset` years from that of `now`. */
  function YearStart(now: Timestamp, offset: int): Option<Timestamp> {
    DatetimeAdd(DateTime(now.year, 1, 1, 0, 0), offset, 0)
  }

  /** `year(offset)`: January 1 of the year `offset` years away, and of the year after. */
  function YearBounds(now: Timestamp, offset: int): Bounds {
    Bounds(KeyOf(YearStart(now, offset)), KeyOf(YearStart(now, offset + 1)))
  }

  /** The window and outcome after a preset: compute the lower bound, `after` it, compute the upper bound, `before` it. */
  datatype Narrowed = Narrowed(outcome: Outcome, window: seq<int>)

  function Period(src: seq<string>, w: seq<int>, b: Bounds): (r: Narrowed)
    requires InBounds(src, w)
    ensures |r.window| <= |w|
    ensures exists i, j :: 0 <= i <= j <= |w| && r.window == w[i..j]
  {
    match b.lower
    case Err(e) => assert w == w[0..|w|]; Narrowed(Failed(e), w)
    case Ok(lo) =>
      match SplitWindow(src, w, lo, true)
      case Err(e) => assert w == w[0..|w|]; Narrowed(Failed(e), w)
      case Ok(w1) =>
        assert w1 == w[|w| - |w1|..|w|];
        match b.upper
        case Err(e) => Narrowed(Failed(e), w1)
        case Ok(hi) =>
          match SplitWindow(src, w1, hi, false)
          case Err(e) => Narrowed(Failed(e), w1)
          case Ok(w2) =>
            SuffixThenPrefix(w, w1, w2);
            Narrowed(Done, w2)
  }

  /** A prefix of a suffix is a slice. */
  lemma SuffixThenPrefix(w: seq<int>, w1: seq<int>, w2: seq<int>)
    requires |w1| <= |w| && w1 == w[|w| - |w1|..] && |w2| <= |w1| && w2 == w1[..|w2|]
    ensures w2 == w[|w| - |w1|..|w| - |w1| + |w2|]
  {
  }

  /** The day window starts at a midnight and spans exactly one day. */
  lemma DayWindowIsOneDay(now: Timestamp, offset: int)
    requires DayBounds(now, offset).lower.Ok? && DayBounds(now, offset).upper.Ok?
    ensures var b := DayBounds(now, offset);
      && b.lower.value == Minutes(DayStart(now)) + offset * MinutesPerDay
      && b.lower.value % MinutesPerDay == 0
      && b.upper.value - b.lower.value == MinutesPerDay
  {
    var start := DayStart(now);
    var day := Ordinal(start) + offset;
    assert Minutes(start) + offset * MinutesPerDay == day * MinutesPerDay;
    WholeDays(day);
  }

  /**
   * The week window starts at midnight of a Monday, the Monday of `now`'s week moved by `offset`
   * weeks, and spans exactly seven days.
   */
  lemma WeekStartsOnMonday(now: Timestamp, offset: int)
    requires WeekBounds(now, offset).lower.Ok? && WeekBounds(now, offset).upper.Ok?
    ensures var b := WeekBounds(now, offset);
      && b.lower.value % MinutesPerDay == 0
      && (b.lower.value / MinutesPerDay + 6) % 7 == 0
      && Minutes(DayStart(now)) + (7 * offset - 6) * MinutesPerDay <= b.lower.value
      && b.lower.value <= Minutes(DayStart(now)) + 7 * offset * MinutesPerDay
      && b.upper.value - b.lower.value == 7 * MinutesPerDay
  {
    var b := WeekBounds(now, offset);
    var o := Ordinal(now);
    assert Ordinal(DayStart(now)) == o;
    var day := o + 7 * offset - Weekday(now);
    assert b.lower.value == day * MinutesPerDay;
    assert Minutes(DayStart(now)) == o * MinutesPerDay;
    assert day * MinutesPerDay == o * MinutesPerDay + (7 * offset - Weekday(now)) * MinutesPerDay;
    WholeDays(day);
    MondayAfterShift(o, offset);
  }

  lemma WholeDays(day: int)
    ensures (day * MinutesPerDay) % MinutesPerDay == 0 && (day * MinutesPerDay) / MinutesPerDay == day
  {
  }

  /** Going back from day `o` by its weekday, then by whole weeks, lands on a Monday. */
  lemma MondayAfterShift(o: int, weeks: int)
    ensures (o + 7 * weeks - (o + 6) % 7 + 6) % 7 == 0
  {
    var q := (o + 6) / 7;
    assert o + 6 == 7 * q + (o + 6) % 7;
    assert o + 7 * weeks - (o + 6) % 7 + 6 == 7 * (q + weeks);
  }

  /**
   * The month window runs from the first of the month `offset` months away to the first of the next
   * month, across year ends in either direction; it fails only when the year leaves 1..9999.
   */
  lemma MonthWindowIsOneMonth(now: Timestamp, offset: int)
    ensures var t := MonthIndex(now) + offset;
      MonthStart(now, offset).Some? <==> MinYear <= t / 12 <= MaxYear
    ensures MonthStart(now, offset).Some? ==>
      var s := MonthStart(now, offset).value;
      && (s.day, s.hour, s.minute) == (1, 0, 0)
      && MonthIndex(s) == MonthIndex(now) + offset
  {
  }

  /** Asked in March for the previous month, the window runs from February 1 to March 1 of the same year. */
  lemma PreviousMonthInMarch(now: Timestamp)
    requires now.month == 3
    ensures MonthBounds(now, -1) ==
      Bounds(Ok(Minutes(DateTime(now.year, 2, 1, 0, 0))), Ok(Minutes(DateTime(now.year, 3, 1, 0, 0))))
  {
    var first := DateTime(now.year, 3, 1, 0, 0);
    assert (3 + -1 - 1) / 12 == 0 && (3 + -1 - 1) % 12 == 1;
    assert (3 + 0 - 1) / 12 == 0 && (3 + 0 - 1) % 12 == 2;
    assert DatetimeAdd(first, 0, -1) == Some(DateTime(now.year, 2, 1, 0, 0));
    assert DatetimeAdd(first, 0, 0) == Some(first);
  }

  /** The year window runs from January 1 of the year `offset` years away to January 1 of the next. */
  lemma YearWindowIsOneYear(now: Timestamp, offset: int)
    requires MinYear <= now.year + offset <= MaxYear
    ensures YearStart(now, offset) == Some(DateTime(now.year + offset, 1, 1, 0, 0))
  {
  }

  /**
   * A window over a timelog (`Query`): `data` is the window of line indices, narrowed by `after` and
   * `before`. Reading lines fills the timelog's cache.
   */
  class Query {
    const timelog: LazyTimelog
    var data: seq<int>

    ghost predicate Valid()
      reads this, timelog, timelog.data
    {
      timelog.Valid() && InBounds(timelog.src, data) && Contiguous(data)
    }

    /** Filled cache slots stay as they were. */
    twostate predicate CacheKept()
      reads timelog, timelog.data
    {
      forall k :: 0 <= k < timelog.data.Length && old(timelog.data[k]).Some? ==> timelog.data[k] == old(timelog.data[k])
    }

    /** `Query.__init__`: the window of all lines. */
    constructor (log: LazyTimelog)
      requires log.Valid()
      ensures timelog == log && data == Indices(|log.src|) && Valid()
    {
      timelog := log;
      data := Indices(|log.src|);
    }

    /**
     * `split(bound, after)`: bisect the window on the keys of its lines and keep the part after the
     * cut point or before it; an exception from reading a line leaves the window as it was.
     */
    method Split(bound: int, after: bool) returns (r: Outcome)
      requires Valid()
      modifies this, timelog.data
      ensures Valid() && CacheKept()
      ensures match SplitWindow(timelog.src, old(data), bound, after)
        case Ok(w) => r == Done && data == w
        case Err(e) => r == Failed(e) && data == old(data)
    {
      var cut := Bisection(bound);
      if cut.Err? {
        return Failed(cut.error);
      }
      var high := cut.value;
      if |data| == 0 {
        // Both slices of an empty range are empty.
      } else if after {
        data := data[high..];
      } else {
        data := data[..high];
      }
      r := Done;
    }

    /** The `while high - low > 1` loop of `split`: the cut point, or the exception of a probe. */
    method Bisection(bound: int) returns (r: Result<int>)
      requires Valid()
      modifies timelog.data
      ensures Valid() && CacheKept()
      ensures r == Cut(timelog.src, data, bound)
    {
      var low, high := 0, |data| - 1;
      ghost var probes := Probes(timelog.src, data);
      while high - low > 1
        invariant 0 <= low && high < |data| && low <= high + 1
        invariant Bisect(probes, bound, low, high) == Cut(timelog.src, data, bound)
        invariant timelog.Valid() && CacheKept()
        decreases high - low
      {
        var mid := (low + high) / 2;
        var key := Probe(mid);
        if key.Err? {
          return key;
        }
        if key.value <= bound {
          low := mid;
        } else {
          high := mid;
        }
      }
      r := Ok(high);
    }

    /** The line at window position `pos`, read through the cache (`self.timelog[self.data[pos]]`). */
    method ReadAt(pos: int) returns (r: Result<Line>)
      requires Valid() && 0 <= pos < |data|
      modifies timelog.data
      ensures Valid() && CacheKept()
      ensures r == ParseLine(timelog.src, data[pos])
    {
      r := timelog.Get(data[pos]);
    }

    /** `get(pos)` inside `split`: the key of the line at window position `pos`. */
    method Probe(pos: int) returns (r: Result<int>)
      requires Valid() && 0 <= pos < |data|
      modifies timelog.data
      ensures Valid() && CacheKept()
      ensures r == KeyAt(timelog.src, data[pos])
    {
      var line := ReadAt(pos);
      if line.Err? {
        return Err(line.error);
      }
      match line.value
      case EmptyLine => r := Err(TypeError);
      case Entry(dt, _) => r := Ok(Minutes(dt));
    }

    /** `before(bound)`. */
    method Before(bound: int) returns (r: Outcome)
      requires Valid()
      modifies this, timelog.data
      ensures Valid() && CacheKept()
      ensures match SplitWindow(timelog.src, old(data), bound, false)
        case Ok(w) => r == Done && data == w
        case Err(e) => r == Failed(e) && data == old(data)
    {
      r := Split(bound, false);
    }

    /** `after(bound)`. */
    method After(bound: int) returns (r: Outcome)
      requires Valid()
      modifies this, timelog.data
      ensures Valid() && CacheKept()
      ensures match SplitWindow(timelog.src, old(data), bound, true)
        case Ok(w) => r == Done && data == w
        case Err(e) => r == Failed(e) && data == old(data)
    {
      r := Split(bound, true);
    }

    /** The body shared by the presets: `after` the lower bound, then `before` the upper one. */
    method Narrow(b: Bounds) returns (r: Outcome)
      requires Valid()
      modifies this, timelog.data
      ensures Valid() && CacheKept()
      ensures Period(timelog.src, old(data), b) == Narrowed(r, data)
    {
      if b.lower.Err? {
        return Failed(b.lower.error);
      }
      r := After(b.lower.value);
      if r.Failed? {
        return;
      }
      if b.upper.Err? {
        return Failed(b.upper.error);
      }
      r := Before(b.upper.value);
    }

    /** `day(offset)`, with the wall clock's `now` as a parameter. */
    method Day(now: Timestamp, offset: int) returns (r: Outcome)
      requires Valid()
      modifies this, timelog.data
      ensures Valid() && CacheKept()
      ensures Period(timelog.src, old(data), DayBounds(now, offset)) == Narrowed(r, data)
    {
      r := Narrow(DayBounds(now, offset));
    }

    /** `week(offset)`, with the wall clock's `now` as a parameter. */
    method Week(now: Timestamp, offset: int) returns (r: Outcome)
      requires Valid()
      modifies this, timelog.data
      ensures Valid() && CacheKept()
      ensures Period(timelog.src, old(data), WeekBounds(now, offset)) == Narrowed(r, data)
    {
      r := Narrow(WeekBounds(now, offset));
    }

    /** `month(offset)`, with the wall clock's `now` as a parameter. */
    method Month(now: Timestamp, offset: int) returns (r: Outcome)
      requires Valid()
      modifies this, timelog.data
      ensures Valid() && CacheKept()
      ensures Period(timelog.src, old(data), MonthBounds(now, offset)) == Narrowed(r, data)
    {
      r := Narrow(MonthBounds(now, offset));
    }

    /** `year(offset)`, with the wall clock's `now` as a parameter. */
    method Year(now: Timestamp, offset: int) returns (r: Outcome)
      requires Valid()
      modifies this, timelog.data
      ensures Valid() && CacheKept()
      ensures Period(timelog.src, old(data), YearBounds(now, offset)) == Narrowed(r, data)
    {
      r := Narrow(YearBounds(now, offset));
    }

    /** `all()`: the lines of the window in order, each read through the cache. */
    method All() returns (r: Result<seq<Line>>)
      requires Valid()
      modifies timelog.data
      ensures Valid() && CacheKept()
      ensures r == Materialize(timelog.src, data)
    {
      ghost var parses := Parses(timelog.src, data);
      var lines: seq<Line> := [];
      var i := 0;
      while i < |data|
        invariant 0 <= i <= |data|
        invariant Collect(parses[..i]) == Ok(lines)
        invariant timelog.Valid() && CacheKept()
      {
        var line := ReadAt(i);
        CollectStep(parses, i, lines);
        if line.Err? {
          CollectFailsOnPrefix(parses, i + 1);
          return Err(line.error);
        }
        lines := lines + [line.value];
        i := i + 1;
      }
      assert parses[..i] == parses;
      r := Ok(lines);
    }
  }
}
