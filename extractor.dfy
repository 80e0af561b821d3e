/**
 * Time spent between consecutive entries (`Extractor`): the total, and the total per comment. The
 * gap that ends at an entry whose comment contains "**" is a break and counts nowhere. Durations are
 * in minutes.
 */
module Extractor {
  import opened Base
  import opened Calendar
  import opened Timelog

  /** The comment contains the break marker "**". */
  predicate IsBreak(comment: string) {
    exists j :: 0 <= j < |comment| - 1 && comment[j] == '*' && comment[j + 1] == '*'
  }

  /**
   * One step of the loops, for the gap from `last` to `entry`: None for a break, the length of the gap
   * otherwise. Reading the comment or the timestamp of the empty-line marker is a TypeError; the
   * comment of `entry` is read first and the timestamp of `last` only for a gap that counts.
   */
  function Gap(last: Line, entry: Line): (r: Result<Option<int>>)
    ensures r == Ok(None) <==> entry.Entry? && IsBreak(entry.comment)
    ensures r.Ok? && r.value.Some? ==> last.Entry? && entry.Entry? && !IsBreak(entry.comment)
    ensures r.Err? <==> entry.EmptyLine? || (!IsBreak(entry.comment) && last.EmptyLine?)
    ensures r.Err? ==> r.error == TypeError
  {
    if entry.EmptyLine? then Err(TypeError)
    else if IsBreak(entry.comment) then Ok(None)
    else if last.EmptyLine? then Err(TypeError)
    else Ok(Some(Minutes(entry.dt) - Minutes(last.dt)))
  }

  /** `sum()` over the first `n` lines. */
  function Total(lines: seq<Line>, n: nat): Result<int>
    requires n <= |lines|
  {
    if n <= 1 then Ok(0)
    else
      match Total(lines, n - 1)
      case Err(e) => Err(e)
      case Ok(x) =>
        match Gap(lines[n - 2], lines[n - 1])
        case Err(e) => Err(e)
        case Ok(None) => Ok(x)
        case Ok(Some(delta)) => Ok(x + delta)
  }

  /** Add `delta` to the value under `comment`, which starts at nothing. */
  function Credit(d: map<string, int>, comment: string, delta: int): (d': map<string, int>)
    ensures d'.Keys == d.Keys + {comment}
    ensures forall c :: c in d && c != comment ==> d'[c] == d[c]
  {
    if comment in d then d[comment := d[comment] + delta] else d[comment := delta]
  }

  /** `by_comment()` over the first `n` lines: each counted gap is credited to the comment of the entry that ends it. */
  function Breakdown(lines: seq<Line>, n: nat): (r: Result<map<string, int>>)
    requires n <= |lines|
    ensures r.Ok? ==> forall c :: c in r.value ==> !IsBreak(c)
  {
    if n <= 1 then Ok(map[])
    else
      match Breakdown(lines, n - 1)
      case Err(e) => Err(e)
      case Ok(d) =>
        match Gap(lines[n - 2], lines[n - 1])
        case Err(e) => Err(e)
        case Ok(None) => Ok(d)
        case Ok(Some(delta)) => Ok(Credit(d, lines[n - 1].comment, delta))
  }

  /** The sum of the values of a map. */
  ghost function SumValues(m: map<string, int>): int
    decreases |m.Keys|
  {
    if m.Keys == {} then 0
    else
      var k :| k in m.Keys;
      assert (m - {k}).Keys == m.Keys - {k};
      m[k] + SumValues(m - {k})
  }

  /** The sum does not depend on which key is taken out first. */
  lemma {:induction false} SumValuesRemove(m: map<string, int>, k: string)
    requires k in m
    ensures SumValues(m) == m[k] + SumValues(m - {k})
    decreases |m.Keys|, 1
  {
    var j :| j in m.Keys && SumValues(m) == m[j] + SumValues(m - {j});
    if j != k {
      SwapRemoved(m, j, k);
    }
  }

  /** Taking out `j` then `k` leaves what taking out `k` then `j` does. */
  lemma {:induction false} SwapRemoved(m: map<string, int>, j: string, k: string)
    requires j in m && k in m && j != k
    ensures m[j] + SumValues(m - {j}) == m[k] + SumValues(m - {k})
    decreases |m.Keys|, 0
  {
    var mj, mk := m - {j}, m - {k};
    assert |mj.Keys| < |m.Keys| && |mk.Keys| < |m.Keys| by {
      assert mj.Keys == m.Keys - {j} && mk.Keys == m.Keys - {k};
    }
    SumValuesRemove(mj, k);
    SumValuesRemove(mk, j);
    assert mj - {k} == mk - {j};
  }

  /** Crediting `delta` to a comment raises the sum of the breakdown by `delta`. */
  lemma SumValuesCredit(d: map<string, int>, comment: string, delta: int)
    ensures SumValues(Credit(d, comment, delta)) == SumValues(d) + delta
  {
    var d' := Credit(d, comment, delta);
    SumValuesRemove(d', comment);
    if comment in d {
      SumValuesRemove(d, comment);
      assert d' - {comment} == d - {comment};
    } else {
      assert d' - {comment} == d;
    }
  }

  /**
   * The total is the sum of the breakdown, and the two fail together: no gap is counted twice or
   * dropped by either.
   */
  lemma {:induction false} TotalIsSumOfBreakdown(lines: seq<Line>, n: nat)
    requires n <= |lines|
    ensures Total(lines, n).Ok? <==> Breakdown(lines, n).Ok?
    ensures Total(lines, n).Ok? ==> Total(lines, n).value == SumValues(Breakdown(lines, n).value)
    ensures Total(lines, n).Err? ==> Total(lines, n).error == Breakdown(lines, n).error
  {
    if n > 1 {
      TotalIsSumOfBreakdown(lines, n - 1);
      if Total(lines, n - 1).Ok? {
        var g := Gap(lines[n - 2], lines[n - 1]);
        if g.Ok? && g.value.Some? {
          SumValuesCredit(Breakdown(lines, n - 1).value, lines[n - 1].comment, g.value.value);
        }
      }
    }
  }

  /** The gap ending at a break entry adds to neither the total nor any comment. */
  lemma BreakCountsNowhere(lines: seq<Line>, n: nat)
    requires 2 <= n <= |lines| && lines[n - 1].Entry? && IsBreak(lines[n - 1].comment)
    ensures Total(lines, n) == Total(lines, n - 1)
    ensures Breakdown(lines, n) == Breakdown(lines, n - 1)
  {
  }

  /** No line or a single line gives a zero total and an empty breakdown. */
  lemma NoGapNoTime(lines: seq<Line>)
    requires |lines| <= 1
    ensures Total(lines, |lines|) == Ok(0) && Breakdown(lines, |lines|) == Ok(map[])
  {
  }

  /** A working day with a marked lunch: coding from 09:00, "lunch **" at 12:00, coding again at 13:00 and at 17:00. */
  function LunchDay(): (lines: seq<Line>)
    ensures |lines| == 4
  {
    [Entry(DateTime(2024, 1, 1, 9, 0), "coding"),
     Entry(DateTime(2024, 1, 1, 12, 0), "lunch **"),
     Entry(DateTime(2024, 1, 1, 13, 0), "coding"),
     Entry(DateTime(2024, 1, 1, 17, 0), "coding")]
  }

  /** The three gaps of that day: the break, one hour, four hours. */
  lemma LunchGaps()
    ensures var lines := LunchDay();
      && Gap(lines[0], lines[1]) == Ok(None)
      && Gap(lines[1], lines[2]) == Ok(Some(60))
      && Gap(lines[2], lines[3]) == Ok(Some(240))
  {
    assert IsBreak("lunch **") by {
      assert "lunch **"[6] == '*' && "lunch **"[7] == '*';
    }
    assert !IsBreak("coding");
  }

  /**
   * The gap that ends at the lunch entry is the break, so five hours count, all of them for
   * "coding", and the lunch comment gets no entry.
   */
  lemma LunchScenario()
    ensures Total(LunchDay(), 4) == Ok(300)
    ensures Breakdown(LunchDay(), 4) == Ok(map["coding" := 300])
  {
    var lines := LunchDay();
    LunchGaps();
    assert Total(lines, 2) == Ok(0);
    assert Total(lines, 3) == Ok(60);
    assert Breakdown(lines, 2) == Ok(map[]);
    assert Breakdown(lines, 3) == Ok(map["coding" := 60]);
    assert map["coding" := 60]["coding" := 60 + 240] == map["coding" := 300];
  }

  /** `Extractor`: the lines of a materialised window. */
  class Extractor {
    const data: seq<Line>

    constructor (lines: seq<Line>)
      ensures data == lines
    {
      data := lines;
    }

    /** `sum()`: the total of the gaps between consecutive entries, breaks excluded. */
    method Sum() returns (r: Result<int>)
      ensures r == Total(data, |data|)
    {
      var x := 0;
      var last: Option<Line> := None;
      var i := 0;
      while i < |data|
        invariant 0 <= i <= |data|
        invariant last == if i == 0 then None else Some(data[i - 1])
        invariant Total(data, i) == Ok(x)
      {
        var entry := data[i];
        if last.Some? {
          var gap := Gap(last.value, entry);
          if gap.Err? {
            ErrorPersists(data, i + 1);
            return Err(gap.error);
          }
          if gap.value.Some? {
            x := x + gap.value.value;
          }
        }
        last := Some(entry);
        i := i + 1;
      }
      r := Ok(x);
    }

    /** `by_comment()`: the gaps' total per comment of the entry that ends them, breaks excluded. */
    method ByComment() returns (r: Result<map<string, int>>)
      ensures r == Breakdown(data, |data|)
    {
      var d: map<string, int> := map[];
      var last: Option<Line> := None;
      var i := 0;
      while i < |data|
        invariant 0 <= i <= |data|
        invariant last == if i == 0 then None else Some(data[i - 1])
        invariant Breakdown(data, i) == Ok(d)
      {
        var entry := data[i];
        if last.Some? {
          var gap := Gap(last.value, entry);
          if gap.Err? {
            ErrorPersists(data, i + 1);
            return Err(gap.error);
          }
          if gap.value.Some? {
            if entry.comment in d {
              d := d[entry.comment := d[entry.comment] + gap.value.value];
            } else {
              d := d[entry.comment := gap.value.value];
            }
          }
        }
        last := Some(entry);
        i := i + 1;
      }
      r := Ok(d);
    }
  }

  /** Once a prefix fails, every longer prefix fails with the same error. */
  lemma {:induction false} ErrorPersists(lines: seq<Line>, n: nat)
    requires n <= |lines|
    requires Total(lines, n).Err? || Breakdown(lines, n).Err?
    ensures Total(lines, |lines|) == Total(lines, n)
    ensures Breakdown(lines, |lines|) == Breakdown(lines, n)
    decreases |lines| - n
  {
    TotalIsSumOfBreakdown(lines, n);
    if n < |lines| {
      ErrorPersists(lines, n + 1);
    }
  }
}
