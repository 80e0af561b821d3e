/**
 * Parsing timelog lines "YYYY-MM-DD HH:MM: comment", and the lazily parsed, memoised sequence of
 * lines (`LazyTuple` with `LazyTimelog.parse`).
 */
module Timelog {
  import opened Base
  import opened Digits
  import opened Calendar

  /** A parsed line: the empty-line marker or an entry. */
  datatype Line = EmptyLine | Entry(dt: Timestamp, comment: string)

  /** The two-character separator ": " starts at index `j` of `s`. */
  predicate SepAt(s: string, j: int) {
    0 <= j && j + 1 < |s| && s[j] == ':' && s[j + 1] == ' '
  }

  /** The first index at or after `from` where ": " starts. */
  function FindSep(s: string, from: nat): (r: Option<nat>)
    ensures r.Some? ==> from <= r.value && SepAt(s, r.value)
    ensures r.Some? ==> forall j :: from <= j < r.value ==> !SepAt(s, j)
    ensures r.None? ==> forall j :: from <= j ==> !SepAt(s, j)
    decreases |s| - from
  {
    if from + 1 >= |s| then None
    else if SepAt(s, from) then Some(from)
    else FindSep(s, from + 1)
  }

  /** `s.split(': ', 1)` when it yields two parts: the text before the first ": " and all text after it. */
  function SplitFirst(s: string): (r: Option<(string, string)>)
    ensures r.Some? ==> s == r.value.0 + ": " + r.value.1
    ensures r.Some? ==> forall j :: 0 <= j < |r.value.0| ==> !SepAt(s, j)
    ensures r.None? <==> forall j :: 0 <= j < |s| ==> !SepAt(s, j)
  {
    match FindSep(s, 0)
    case None => None
    case Some(j) =>
      assert s == s[..j] + ": " + s[j + 2..];
      Some((s[..j], s[j + 2..]))
  }

  /** The positions of the five numeric fields of "YYYY-MM-DD HH:MM" are digits and the rest are separators. */
  predicate TimestampShape(t: string) {
    && |t| == 16
    && t[4] == '-' && t[7] == '-' && t[10] == ' ' && t[13] == ':'
    && AllDigits(t[0..4]) && AllDigits(t[5..7]) && AllDigits(t[8..10])
    && AllDigits(t[11..13]) && AllDigits(t[14..16])
  }

  /**
   * `datetime.strptime(t, '%Y-%m-%d %H:%M')`, restricted to fields of exactly their printed width.
   * Fails when the text is not of that shape or names a date or time that does not exist.
   */
  function ParseTimestamp(t: string): (r: Option<Timestamp>)
    ensures r.Some? ==> TimestampShape(t)
  {
    if TimestampShape(t) then
      var dt := DateTime(Value(t[0..4]), Value(t[5..7]), Value(t[8..10]), Value(t[11..13]), Value(t[14..16]));
      if Valid(dt) then Some(dt) else None
    else None
  }

  /** `dt.strftime('%Y-%m-%d %H:%M')`. */
  function FormatTimestamp(dt: Timestamp): (t: string)
    ensures |t| == 16
  {
    Padded(dt.year, 4) + "-" + Padded(dt.month, 2) + "-" + Padded(dt.day, 2) + " "
      + Padded(dt.hour, 2) + ":" + Padded(dt.minute, 2)
  }

  lemma FormatFields(dt: Timestamp)
    ensures var t := FormatTimestamp(dt);
      && t[0..4] == Padded(dt.year, 4) && t[5..7] == Padded(dt.month, 2) && t[8..10] == Padded(dt.day, 2)
      && t[11..13] == Padded(dt.hour, 2) && t[14..16] == Padded(dt.minute, 2)
      && t[4] == '-' && t[7] == '-' && t[10] == ' ' && t[13] == ':'
  {
  }

  /** Formatting then parsing a timestamp gives it back. */
  lemma FormatThenParse(dt: Timestamp)
    ensures ParseTimestamp(FormatTimestamp(dt)) == Some(dt)
  {
    var t := FormatTimestamp(dt);
    FormatFields(dt);
    PaddedValue(dt.year, 4);
    PaddedValue(dt.month, 2);
    PaddedValue(dt.day, 2);
    PaddedValue(dt.hour, 2);
    PaddedValue(dt.minute, 2);
  }

  /** A timestamp parses only from its own formatting: the parser accepts one spelling per timestamp. */
  lemma ParseThenFormat(t: string)
    requires ParseTimestamp(t).Some?
    ensures FormatTimestamp(ParseTimestamp(t).value) == t
  {
    var dt := ParseTimestamp(t).value;
    var f := FormatTimestamp(dt);
    FormatFields(dt);
    ValuePadded(t[0..4]);
    ValuePadded(t[5..7]);
    ValuePadded(t[8..10]);
    ValuePadded(t[11..13]);
    ValuePadded(t[14..16]);
    forall k | 0 <= k < 16
      ensures f[k] == t[k]
    {
      if k < 4 {
        assert f[k] == f[0..4][k] && t[k] == t[0..4][k];
      } else if 4 < k < 7 {
        assert f[k] == f[5..7][k - 5] && t[k] == t[5..7][k - 5];
      } else if 7 < k < 10 {
        assert f[k] == f[8..10][k - 8] && t[k] == t[8..10][k - 8];
      } else if 10 < k < 13 {
        assert f[k] == f[11..13][k - 11] && t[k] == t[11..13][k - 11];
      } else if 13 < k {
        assert f[k] == f[14..16][k - 14] && t[k] == t[14..16][k - 14];
      }
    }
  }

  /** No formatted timestamp contains ": ", so an entry's line splits right after its timestamp. */
  lemma FormatHasNoSep(dt: Timestamp, rest: string)
    ensures forall j :: 0 <= j < 16 ==> !SepAt(FormatTimestamp(dt) + rest, j)
  {
    var t := FormatTimestamp(dt);
    FormatFields(dt);
    forall j | 0 <= j < 16
      ensures !SepAt(t + rest, j)
    {
      if j == 13 {
        assert (t + rest)[14] == t[14..16][0];
      } else if j < 15 {
        assert (t + rest)[j] == t[j];
      }
    }
  }

  /** What one line of text parses to, or None when it does not parse. */
  function Decode(s: string): (r: Option<Line>)
  {
    if s == "" then Some(EmptyLine)
    else
      match SplitFirst(s)
      case None => None
      case Some((head, comment)) =>
        match ParseTimestamp(head)
        case None => None
        case Some(dt) => Some(Entry(dt, comment))
  }

  /**
   * `LazyTimelog.parse(i)`: the line at index `i` (Python indexing, so negative indices count from the
   * end) parsed, or a ParseError carrying `i`.
   */
  function ParseLine(src: seq<string>, i: int): (r: Result<Line>)
    requires -|src| <= i < |src|
    ensures r.Err? ==> r.error == ParseError(i)
    ensures r == Ok(EmptyLine) <==> src[if i < 0 then i + |src| else i] == ""
  {
    var s := src[if i < 0 then i + |src| else i];
    match Decode(s)
    case None => Err(ParseError(i))
    case Some(line) => Ok(line)
  }

  /**
   * A non-empty line parses exactly when it is a formatted timestamp, ": ", and a comment; the comment
   * is everything after the first ": ", further ": " included.
   */
  lemma {:induction false} DecodeEntry(s: string, dt: Timestamp, comment: string)
    ensures Decode(s) == Some(Entry(dt, comment)) <==> s == FormatTimestamp(dt) + ": " + comment
  {
    var line := FormatTimestamp(dt) + ": " + comment;
    if s == line {
      FormatHasNoSep(dt, ": " + comment);
      assert SepAt(s, 16);
      var sp := SplitFirst(s);
      assert sp.Some?;
      var h := |sp.value.0|;
      assert SepAt(s, h) by {
        assert s == sp.value.0 + ": " + sp.value.1;
        assert s[h] == ':' && s[h + 1] == ' ';
      }
      assert h == 16;
      assert sp.value.0 == FormatTimestamp(dt);
      assert sp.value.1 == comment;
      FormatThenParse(dt);
    }
    if Decode(s) == Some(Entry(dt, comment)) {
      var sp := SplitFirst(s);
      ParseThenFormat(sp.value.0);
    }
  }

  /** A non-empty line without ": " is a parse error, whatever follows. */
  lemma NoSepIsParseError(src: seq<string>, i: int)
    requires 0 <= i < |src| && src[i] != ""
    requires forall j :: 0 <= j < |src[i]| ==> !SepAt(src[i], j)
    ensures ParseLine(src, i) == Err(ParseError(i))
  {
  }

  /** A line whose text before ": " is not a timestamp is a parse error that names its own index. */
  lemma MalformedLine()
    ensures ParseLine(["", "2024-01-01 09:00: coding", "not-a-date: oops"], 2) == Err(ParseError(2))
  {
    var s := "not-a-date: oops";
    // Whatever the split, the text before ": " is shorter than a timestamp.
    assert |s| == 16;
    var sp := SplitFirst(s);
    assert sp.Some? ==> |sp.value.0| <= 14;
  }

  /**
   * A fixed sequence of lines with one cache slot per line (`LazyTuple._src` and `_data`). A slot
   * holds None until the line is first read; afterwards it holds what the line parsed to.
   */
  class LazyTimelog {
    const src: seq<string>
    const data: array<Option<Line>>

    /** Every filled slot holds the parse of its own line. */
    ghost predicate Valid()
      reads this, data
    {
      && data.Length == |src|
      && forall k :: 0 <= k < data.Length && data[k].Some? ==> Decode(src[k]) == Some(data[k].value)
    }

    /** `LazyTuple.__init__`: one empty slot per line. */
    constructor (lines: seq<string>)
      ensures src == lines && fresh(data) && Valid()
      ensures forall k :: 0 <= k < data.Length ==> data[k] == None
    {
      src := lines;
      var cache := new Option<Line>[|lines|];
      var i := 0;
      while i < |lines|
        invariant 0 <= i <= |lines|
        invariant forall k :: 0 <= k < i ==> cache[k] == None
      {
        cache[i] := None;
        i := i + 1;
      }
      data := cache;
    }

    /** `LazyTuple.__len__`: the number of lines, which is also the number of cache slots. */
    function Length(): (n: nat)
      reads this, data
      requires Valid()
      ensures n == data.Length
    {
      |src|
    }

    /**
     * `LazyTuple.__getitem__`: parse the line on first read and store the result in its slot; a later
     * read returns the stored value. A failed parse is raised and leaves the slot empty. Only slot `i`
     * can change.
     */
    method Get(i: int) returns (r: Result<Line>)
      requires Valid()
      modifies data
      ensures Valid()
      ensures !(-|src| <= i < |src|) ==> r == Err(IndexError) && unchanged(data)
      ensures -|src| <= i < |src| ==>
        var k := if i < 0 then i + |src| else i;
        && r == ParseLine(src, i)
        && (old(data[k]).Some? ==> r == Ok(old(data[k]).value) && data[k] == old(data[k]))
        && (old(data[k]).None? ==> data[k] == (if r.Ok? then Some(r.value) else None))
        && forall j :: 0 <= j < data.Length && j != k ==> data[j] == old(data[j])
    {
      if !(-data.Length <= i < data.Length) {
        return Err(IndexError);
      }
      var k := if i < 0 then i + data.Length else i;
      if data[k] == None {
        var parsed := ParseLine(src, i);
        if parsed.Err? {
          return parsed;
        }
        data[k] := Some(parsed.value);
      }
      r := Ok(data[k].value);
    }
  }

  /** Reading the same index twice gives the same answer, and the second read finds the line cached. */
  method ReadTwice(log: LazyTimelog, i: int) returns (first: Result<Line>, second: Result<Line>)
    requires log.Valid() && 0 <= i < |log.src|
    modifies log.data
    ensures log.Valid() && first == second
    ensures first.Ok? ==> log.data[i] == Some(first.value)
  {
    first := log.Get(i);
    second := log.Get(i);
  }
}
