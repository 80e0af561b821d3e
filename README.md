# timelog parser, modelled in Dafny

A model of `parser.py`, the parser behind a plain-text work log. Each line of the log reads
`YYYY-MM-DD HH:MM: comment`; blank lines are allowed. The program

- parses lines lazily and memoises them (`LazyTuple`, `LazyTimelog`): a cache slot per line, filled
  on first read; an empty line becomes the `EMPTY_LINE` marker and a malformed one raises
  `ParseError` carrying the line's index;
- narrows a window of line indices to a time range by bisection (`Query.split`, `before`, `after`),
  with presets for the day, week, month and year around "now" (`datetime_add` carries months into
  years), and materialises the window (`all`);
- adds up the time between consecutive entries (`Extractor.sum`) and per comment
  (`Extractor.by_comment`), skipping every gap that ends at an entry whose comment contains `**`;
- prints durations as `h:mm:ss` (`timedelta2str`) and derives expected working hours from four
  settings (`ExpectedHoursPer`).

Modules: `Base` (Option, Result, the exceptions), `Digits` (digit strings), `Calendar` (timestamps,
day ordinals, minute keys, `datetime_add`), `Timelog` (line parsing and the `LazyTimelog` class with
its cache array), `Query` (the bisection, its specification and the `Query` class), `Extractor`
(the aggregation functions and the `Extractor` class), `Clock` (`timedelta2str`) and
`ExpectedHours`.

Timestamps are compared through their minute key, `Calendar.Minutes`: the day ordinal of the date
(January 1 of year 1 is day 1, as Python's `date.toordinal`) times 1440 plus the minutes of the day.
`Calendar.MinutesOrder` proves that key order is the field-by-field order in which `datetime`
values compare, so bisection on keys is bisection on timestamps, and key differences are durations
in minutes.

Exceptions are values: `Result`/`Outcome` carry `ParseError(i)`, `TypeError` (reading the timestamp
or comment of the empty-line marker), `IndexError`, `ValueError` (a date `datetime` rejects) and
`OverflowError` (day arithmetic leaving years 1..9999). A method that raises half-way leaves exactly
the state the Python code leaves: `split` keeps the old window, and slots filled before the
exception stay filled.

Some consequences of the code worth knowing:

- `split` tests `get(new) <= dt` and keeps `data[high:]` for `after`, `data[:high]` for `before`.
  On lines in time order, `after(t)` therefore keeps the lines strictly later than `t` and
  `before(t)` keeps those at or before `t` (`Query.SplitByBound`). A line stamped exactly at a
  period boundary belongs to the period that ends there.
- `split` never reads the first or the last index of the window: for two or more lines `after`
  always drops the first and keeps the last, and `before` always drops the last, whatever their
  timestamps (`Query.SplitWindow`, `Query.CutBrackets`).
- For a day of 09:00 coding, 12:00 `lunch **`, 13:00 coding, 17:00 coding, the code counts 5 hours:
  the gap it skips is the one that ends at the `**` entry, 09:00 to 12:00
  (`Extractor.LunchScenario`).
- Expected hours exist only per day, week, month and year; there is no function for an arbitrary
  span.

## Model

| member | source | states |
|---|---|---|
| Timelog.LazyTimelog.constructor | parser.py:20-24 | one cache slot per source line, every slot empty, cache consistent |
| Timelog.LazyTimelog.Length | parser.py:26-27 | the length is the number of source lines, which is the number of cache slots |
| Timelog.LazyTimelog.Get | parser.py:33-36 | out of range (Python indexing, negatives from the end) is IndexError with nothing changed; otherwise the result is the parse of the line; a filled slot is returned as stored and kept; an empty slot is filled exactly when the parse succeeds; no other slot changes |
| Timelog.ReadTwice | parser.py:33-36 | reading an index twice gives the same result and leaves the line cached |
| Timelog.ParseLine | parser.py:43-54 | a failure is always ParseError carrying the index asked for; the result is the empty-line marker exactly when the line is `''` |
| Timelog.DecodeEntry | parser.py:46-52 | a non-empty line decodes to an entry with timestamp `dt` and comment `c` exactly when it is the formatted `dt`, `": "`, then `c`, so the comment is everything after the first `": "`, further `": "` included |
| Timelog.NoSepIsParseError | parser.py:48-54 | a non-empty line without `": "` is a ParseError with its index |
| Timelog.MalformedLine | parser.py:48-54 | `"not-a-date: oops"` at index 2 is ParseError(2) |
| Timelog.SplitFirst | parser.py:48 | `s.split(': ', 1)`: the two parts joined by `": "` give the line back, the head holds no `": "`, and there is no split exactly when the line has no `": "` |
| Timelog.FormatThenParse | parser.py:50 | the timestamp format `%Y-%m-%d %H:%M` read back gives the timestamp |
| Timelog.ParseThenFormat | parser.py:50 | a timestamp is accepted only in its own formatting |
| Calendar.MinutesOrder | parser.py:98 | comparing minute keys is comparing timestamps: `<` and `==` on keys are the timestamp order and equality |
| Calendar.DatetimeAdd | parser.py:68-74 | the month lands in 1..12, `year*12 + (month-1)` moves by exactly `12*years + months` (negative offsets included), day and time are kept, and the call fails exactly when the year leaves 1..9999 or the day does not exist in the new month |
| Query.Query.constructor | parser.py:85-87 | the window is `range(len(timelog))` |
| Query.Bisect | parser.py:96-101 | the loop ends with `high`, strictly above `low` when `low < high`; an exception comes from a probe strictly between `low` and `high`, never from the ends |
| Query.BisectBrackets | parser.py:96-101 | a successful search ends with `high - low == 1`, the key at `low` at most the bound unless `low` is the first index, the key at `high` above it unless `high` is the last |
| Query.CutBrackets | parser.py:89-101 | on any window of two or more lines, sorted or not, the cut point lies in 1..len-1 between a line whose `get` is a key at or below the bound and one whose key is above it, the ends excepted |
| Query.CutIsScan | parser.py:96-101 | on keys in time order the bisection finds the first inner position whose key exceeds the bound, else the last position |
| Query.SplitWindow | parser.py:89-106 | the new window never grows, is a suffix (`after`) or a prefix (`before`) of the old one in the same order, keeps 1..len-1 lines of a window of two or more, keeps a one-line window for `after` and empties it for `before`, and an error comes from reading an inner line |
| Query.SplitByBound | parser.py:89-106 | on lines in time order, of the inner lines `after(t)` keeps exactly those later than `t` and `before(t)` exactly those at or before `t` |
| Query.Query.Bisection | parser.py:90-101 | the loop computes the cut point of the specification, or the probe's exception; filled cache slots stay filled |
| Query.Query.Probe | parser.py:93-94 | `get(i)` is the minute key of the line at window position `i`, TypeError on the empty-line marker, the line's ParseError otherwise |
| Query.Query.ReadAt | parser.py:94 | reading a window position through the cache gives the parse of that line |
| Query.Query.Split | parser.py:89-106 | the window becomes the one the specification gives, or stays as it was when a probe raises |
| Query.Query.Before | parser.py:108-109 | `before(dt)` keeps the prefix of the window that `split(dt, False)` specifies, or keeps the window on an exception |
| Query.Query.After | parser.py:111-112 | `after(dt)` keeps the suffix of the window that `split(dt, True)` specifies, or keeps the window on an exception |
| Query.Period | parser.py:114-136 | a preset leaves a window that is a contiguous slice of the old one and never longer |
| Query.Query.Narrow | parser.py:117-118 | after the lower bound, then before the upper bound, stopping at the first exception with the window reached so far |
| Query.Query.Day | parser.py:114-118 | the window after `day(offset)` is the one `Period` gives for that day's bounds |
| Query.DayWindowIsOneDay | parser.py:116-118 | the day window starts at midnight `offset` days from today and spans exactly one day |
| Query.Query.Week | parser.py:120-124 | the window after `week(offset)` is the one `Period` gives for that week's bounds |
| Query.ShiftDays | parser.py:59-65 | adding whole days fails only with OverflowError |
| Query.ShiftDaysStaysInCalendar | parser.py:59-65 | adding whole days keeps the time of day and moves the minute key by `days * 1440`; it fails exactly when the result would fall outside 0001-01-01 00:00 .. 9999-12-31 23:59 |
| Query.WeekStartsOnMonday | parser.py:122-124 | the week window starts at midnight of a Monday, the Monday of today's week moved by `offset` weeks (between `7*offset - 6` and `7*offset` days from today), and spans exactly seven days |
| Query.Query.Month | parser.py:126-130 | the window after `month(offset)` is the one `Period` gives for that month's bounds |
| Query.MonthWindowIsOneMonth | parser.py:128-130 | the month bound is the first of the month `offset` months away, across year ends, and fails exactly when the year leaves 1..9999 |
| Query.PreviousMonthInMarch | parser.py:126-130 | asked in March of any year, year 1 included, for the previous month, the bounds are February 1 and March 1 of the same year |
| Query.Query.Year | parser.py:132-136 | the window after `year(offset)` is the one `Period` gives for that year's bounds |
| Query.YearWindowIsOneYear | parser.py:134-136 | the year bound is January 1 of the year `offset` years away |
| Query.Collect | parser.py:139 | reading results in order gives all lines, in order, exactly when none failed, and otherwise the exception of the first that failed |
| Query.Materialize | parser.py:138-139 | the window's lines, one per index in window order, exactly when every one parses; otherwise the ParseError of the first line in window order that does not |
| Query.MaterializeAll | parser.py:138-139 | an unnarrowed query of a well-formed log yields every line in file order |
| Query.Query.All | parser.py:138-139 | `all()` gives what `Materialize` specifies and keeps filled cache slots |
| Extractor.Extractor.constructor | parser.py:144-145 | the extractor holds the lines it is given |
| Extractor.Gap | parser.py:151-153 | the gap to a break entry counts nowhere; a counted gap lies between two entries; reading the empty-line marker's comment or timestamp raises TypeError, and only then |
| Extractor.Breakdown | parser.py:157-169 | no comment containing `**` ever appears as a key |
| Extractor.Extractor.Sum | parser.py:147-155 | the loop computes `Total` of all the lines |
| Extractor.Extractor.ByComment | parser.py:157-169 | the loop computes `Breakdown` of all the lines |
| Extractor.TotalIsSumOfBreakdown | parser.py:147-169 | `sum()` equals the sum of the values of `by_comment()`, and the two raise together with the same exception |
| Extractor.BreakCountsNowhere | parser.py:150-163 | a gap ending at an entry whose comment contains `**` adds to neither the total nor any comment |
| Extractor.NoGapNoTime | parser.py:147-169 | no line or one line gives zero and an empty map |
| Extractor.ErrorPersists | parser.py:150-163 | once a prefix raises, the whole run raises the same exception |
| Extractor.LunchScenario | parser.py:147-169 | the lunch example gives 300 minutes, all for "coding" |
| Clock.HoursMinutesSeconds | parser.py:78-80 | minutes and seconds lie in 0..59 and `h*3600 + m*60 + s` is the input |
| Clock.HoursMinutesSecondsUnique | parser.py:78-80 | that split is the only one with minutes and seconds in 0..59 |
| Clock.TimedeltaToStrRoundTrip | parser.py:77-81 | the printed `h:mm:ss` reads back to the same number of seconds, negative durations included |
| ExpectedHours.DayFitsWeek | parser.py:180-181 | `day()` is weekly hours over workdays rounded down: the most whole hours a day that fit the week |
| ExpectedHours.Year | parser.py:192-193 | `year()` is `day()` times the yearly workdays, truncated |
| ExpectedHours.Month | parser.py:188-189 | `month()` is the most whole hours a month with twelve months fitting in `year()` |
| ExpectedHours.DefaultExpectedHours | parser.py:174-198 | with the class constants: 7 a day, 35 a week, 1570/7 workdays a year, 1570 a year, 130 a month |

## Left out

- `timelog2csv` and the `__main__` block: file I/O and printing; the per-day grouping there repeats
  the `Extractor.sum` accumulation.
- `datetime.now()`: the wall clock; the presets take `now` as a parameter.
- `datetime.strptime`: modelled as a fixed-width parser of `YYYY-MM-DD HH:MM` with ASCII digits that
  checks the date exists. The library's leniencies are not modelled: shorter digit widths (such as
  `2024-1-5 9:00`), a leading space in the day (`%d` reading `" 5"`), any run of whitespace where the
  format has one space, and non-ASCII decimal digits.
- Seconds and microseconds of `datetime` and `timedelta`: log timestamps carry minutes only, so
  timestamps are minute keys and `datetime_add`'s `weeks`/`days` part is day arithmetic on those
  keys; hours, minutes, seconds and microseconds offsets are never used by the program.
- Floating point: `_workdays_per_year` and `timedelta2str` compute in floats; the model uses exact
  reals and integers. For the class constants the float result of `year()` is 1570 as well.
- ExpectedHours.Day: requires a non-zero workdays setting instead of modelling Python's
  ZeroDivisionError, because the class constants are fixed at 5.
- `ParseError.__str__` and the library's exception messages: only the exception kind and the line
  index are modelled.
- `LazyTuple.__iter__` and the generator that `all()` returns: `all()` is modelled as reading the
  window in order and collecting the lines at once, which is what `Extractor.__init__` does with it
  through `tuple(data)`; interleaving a lazy iteration with other calls is not captured.
- `LazyTuple` and `LazyTimelog` are one class, with the parse of `LazyTimelog` built in.
- The `Query.data` field is a `seq` of indices rather than a Python `range`; the slices give the same
  indices.
- Timelog.LazyTimelog.Get: a cache slot holds the parsed line as a value, so the identity of the
  stored Python dict (the same object returned on each read) is not modelled, only its equality.
