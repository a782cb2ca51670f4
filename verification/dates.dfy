/** Payment-date normalisation `_parse_fecha_serie`. A column whose values
    are all numeric holds spreadsheet serial dates, counted in days from
    1899-12-30; any other column goes through pandas' day-first text
    parser, which infers one format for the whole column and whose
    routines this model takes as parameters. Dates are day numbers:
    days since 1970-01-01. */
module Dates {
  import opened Wrappers
  import opened Records
  import opened Numbers

  /** Days from 1970-01-01 to the proleptic Gregorian date `y-m-d`
      (Dafny's `/` is floor division for a positive divisor). */
  function DaysFromCivil(y: int, m: int, d: int): int
    requires 1 <= m <= 12 && 1 <= d <= 31
  {
    var y' := if m <= 2 then y - 1 else y;
    var era := y' / 400;
    var yoe := y' - era * 400;
    var mp := if m > 2 then m - 3 else m + 9;
    var doy := (153 * mp + 2) / 5 + d - 1;
    var doe := yoe * 365 + yoe / 4 - yoe / 100 + doy;
    era * 146097 + doe - 719468
  }

  /** `pd.Timestamp('1899-12-30')`, the origin of spreadsheet serial dates. */
  const SerialOrigin: int := -25569

  lemma SerialOriginIsDecember30th1899()
    ensures DaysFromCivil(1899, 12, 30) == SerialOrigin
  {
  }

  /** `origin + pd.to_timedelta(int(v), unit='D')`: the serial is truncated
      toward zero, so any time of day is dropped, and a negative fraction
      moves toward the origin rather than to the day before it. */
  function SerialDay(v: real): (d: int)
    ensures v >= 0.0 ==> (d - SerialOrigin) as real <= v < (d - SerialOrigin + 1) as real
    ensures v < 0.0 ==> (d - SerialOrigin - 1) as real < v <= (d - SerialOrigin) as real
  {
    SerialOrigin + Trunc(v)
  }

  /** Consecutive whole serials are consecutive days. */
  lemma SerialConsecutive(n: int)
    ensures SerialDay((n + 1) as real) == SerialDay(n as real) + 1
  {
  }

  /** Later serials never give earlier days. */
  lemma SerialMonotonic(v: real, w: real)
    requires v <= w
    ensures SerialDay(v) <= SerialDay(w)
  {
  }

  lemma SerialExamples()
    ensures SerialDay(1.0) == DaysFromCivil(1899, 12, 31)
    ensures SerialDay(25569.0) == DaysFromCivil(1970, 1, 1) == 0
    ensures SerialDay(45962.75) == DaysFromCivil(2025, 11, 1)
    ensures SerialDay(-0.5) == SerialOrigin
  {
  }

  /** pandas' `is_numeric_dtype` of the column: every present value is a number. */
  predicate NumericColumn(cells: seq<Cell>) {
    forall i :: 0 <= i < |cells| ==> cells[i].Blank? || cells[i].Num?
  }

  /** The largest whole serial `pd.to_timedelta(int(v), unit='D')` accepts:
      a timedelta holds at most 2^63 - 1 nanoseconds, 106751 whole days. */
  const MaxSerial: int := 106751

  /** The smallest whole serial whose day pandas can hold: the earliest
      timestamp is 1677-09-21 00:12:43, so the first whole day is 1677-09-22. */
  const MinSerial: int := -81182

  lemma SerialBounds()
    ensures SerialOrigin + MinSerial == DaysFromCivil(1677, 9, 22)
    ensures MaxSerial * NanosPerDay <= MaxNanos < (MaxSerial + 1) * NanosPerDay
  {
  }

  /** A serial whose day the numeric branch can build without overflow. */
  predicate SerialFits(v: real) {
    MinSerial <= Trunc(v) <= MaxSerial
  }

  /** Every number in the column fits; one that does not raises inside the
      `try`, and the whole column goes to the fallback parser. */
  predicate SerialsFit(cells: seq<Cell>) {
    forall i :: 0 <= i < |cells| && cells[i].Num? ==> SerialFits(cells[i].x)
  }

  const NanosPerDay: int := 86400000000000

  /** The largest nanosecond count a pandas timestamp holds, 2^63 - 1. */
  const MaxNanos: int := 9223372036854775807

  /** The fallback `pd.to_datetime(..., errors='coerce')` on a number: the
      number counts nanoseconds from 1970-01-01, its fraction dropped, and
      the date is the day that instant falls on. */
  function NanosDay(v: real): (r: Option<int>)
    ensures -MaxNanos <= Trunc(v) <= MaxNanos ==>
              r.Some? && r.value * NanosPerDay <= Trunc(v) < (r.value + 1) * NanosPerDay
  {
    if -MaxNanos <= Trunc(v) <= MaxNanos then Some(Trunc(v) / NanosPerDay) else None
  }

  /** Any serial a spreadsheet plausibly holds, read as nanoseconds, lands on
      1970-01-01, or on 1969-12-31 when it is negative. */
  lemma NanosNearEpoch(v: real)
    requires -1000000000.0 < v < 1000000000.0
    ensures NanosDay(v) == Some(if Trunc(v) >= 0 then 0 else -1)
  {
  }

  /** The text path of pandas 2's `pd.to_datetime(..., dayfirst=True,
      errors='coerce')`, as three library routines: `guess` infers a format
      from one string (`None` when it cannot), `withFormat` reads a cell
      with a given format (`None` when the cell does not match it), and
      `each` reads a cell on its own, which pandas does only when no format
      was inferred for the column. */
  datatype TextParser = TextParser(
    guess: string -> Option<string>,
    withFormat: (string, Cell) -> Option<int>,
    each: Cell -> Option<int>)

  /** The strings pandas reads as a missing timestamp. */
  const NatStrings: set<string> := {"NaT", "nat", "NAT", "nan", "NaN", "NAN"}

  /** A cell pandas reads as no date: a missing cell, an empty string, or a
      spelling of NaT. */
  predicate Absent(c: Cell) {
    c.Blank? || (c.Text? && (c.s == "" || c.s in NatStrings))
  }

  /** The strings pandas reads as the current time, not as a date layout. */
  const NowStrings: set<string> := {"now", "today"}

  /** A cell pandas passes over when it picks the value to guess a column's
      format from: an absent cell, or "now" or "today". */
  predicate SkippedForFormat(c: Cell) {
    Absent(c) || (c.Text? && c.s in NowStrings)
  }

  /** The index of a column's first present cell, the one pandas guesses
      the format from, or the column's length when every cell is skipped. */
  function FirstPresent(cells: seq<Cell>): (k: nat)
    ensures k <= |cells|
    ensures forall i :: 0 <= i < k ==> SkippedForFormat(cells[i])
    ensures k < |cells| ==> !SkippedForFormat(cells[k])
  {
    if |cells| == 0 || !SkippedForFormat(cells[0]) then 0 else 1 + FirstPresent(cells[1..])
  }

  /** The one format pandas 2 infers for a whole column: guessed from the
      first present cell when that cell is text, and none when it is not
      text or every cell is skipped. */
  function ColumnFormat(cells: seq<Cell>, p: TextParser): Option<string>
  {
    var k := FirstPresent(cells);
    if k < |cells| && cells[k].Text? then p.guess(cells[k].s) else None
  }

  /** Whatever index has only skipped cells before it and a cell not skipped
      at it, or is the column's end, decides the column's format. */
  lemma FormatOfFirstPresent(cells: seq<Cell>, k: nat, p: TextParser)
    requires k <= |cells| && forall i :: 0 <= i < k ==> SkippedForFormat(cells[i])
    requires k < |cells| ==> !SkippedForFormat(cells[k])
    ensures ColumnFormat(cells, p) == if k < |cells| && cells[k].Text? then p.guess(cells[k].s) else None
  {
  }

  /** The text path on one cell of a column whose inferred format is
      `format`: an absent cell is no date, a timestamp is kept, and anything
      else is read with the column's format, or on its own when there is
      none. */
  function Coerce(c: Cell, format: Option<string>, p: TextParser): (r: Option<int>)
    ensures Absent(c) ==> r == None
    ensures c.Day? ==> r == Some(c.d)
  {
    if Absent(c) then None
    else if c.Day? then Some(c.d)
    else if format.Some? then p.withFormat(format.value, c)
    else p.each(c)
  }

  /** `_parse_fecha_serie` over a whole column: serial days when the column
      is numeric and every serial fits, nanoseconds from 1970 when some
      serial overflows, and otherwise the text path with the one format
      inferred from the column's first present cell. */
  function ParseDateColumn(cells: seq<Cell>, parseText: TextParser): (r: seq<Option<int>>)
    ensures |r| == |cells|
    ensures forall i :: 0 <= i < |cells| && cells[i].Blank? ==> r[i] == None
    ensures NumericColumn(cells) && SerialsFit(cells) ==>
              forall i :: 0 <= i < |cells| && cells[i].Num? ==> r[i] == Some(SerialDay(cells[i].x))
    ensures NumericColumn(cells) && !SerialsFit(cells) ==>
              forall i :: 0 <= i < |cells| && cells[i].Num? ==> r[i] == NanosDay(cells[i].x)
    ensures !NumericColumn(cells) ==>
              forall i :: 0 <= i < |cells| ==> r[i] == Coerce(cells[i], ColumnFormat(cells, parseText), parseText)
  {
    if NumericColumn(cells) && SerialsFit(cells) then
      seq(|cells|, i requires 0 <= i < |cells| =>
        if cells[i].Num? then Some(SerialDay(cells[i].x)) else None)
    else if NumericColumn(cells) then
      seq(|cells|, i requires 0 <= i < |cells| =>
        if cells[i].Num? then NanosDay(cells[i].x) else None)
    else
      var format := ColumnFormat(cells, parseText);
      seq(|cells|, i requires 0 <= i < |cells| => Coerce(cells[i], format, parseText))
  }

  /** With a date-like first text, a later text in another layout is missing:
      "2025-11-05" fixes the format, and "05/11/2025" does not match it. */
  lemma MixedFormatsExample(p: TextParser)
    requires p.guess("2025-11-05") == Some("%Y-%m-%d")
    requires p.withFormat("%Y-%m-%d", Text("05/11/2025")) == None
    ensures ParseDateColumn([Text("2025-11-05"), Text("05/11/2025")], p)[1] == None
  {
    var cells := [Text("2025-11-05"), Text("05/11/2025")];
    assert !NumericColumn(cells) by { assert cells[0].Text?; }
    FormatOfFirstPresent(cells, 0, p);
  }

  /** "today" names the current time, so pandas passes over it: the format
      comes from "05/11/2025", and a later "2025-11-06" that does not match
      it gets no date. */
  lemma TodaySkippedExample(p: TextParser)
    requires p.guess("05/11/2025") == Some("%d/%m/%Y")
    requires p.withFormat("%d/%m/%Y", Text("2025-11-06")) == None
    ensures ParseDateColumn([Text("today"), Text("05/11/2025"), Text("2025-11-06")], p)[2] == None
  {
    var cells := [Text("today"), Text("05/11/2025"), Text("2025-11-06")];
    assert !NumericColumn(cells) by { assert cells[0].Text?; }
    assert SkippedForFormat(cells[0]) && !SkippedForFormat(cells[1]);
    FormatOfFirstPresent(cells, 1, p);
  }

  /** Missing cells keep a column numeric, or not numeric. */
  lemma NumericWithBlanks(cells: seq<Cell>, extra: seq<Cell>)
    requires forall i :: 0 <= i < |extra| ==> extra[i].Blank?
    ensures NumericColumn(cells + extra) == NumericColumn(cells)
    ensures NumericColumn(extra + cells) == NumericColumn(cells)
  {
    var after := cells + extra;
    var before := extra + cells;
    if NumericColumn(cells) {
      forall i | 0 <= i < |after| ensures after[i].Blank? || after[i].Num? {
        assert after[i] == if i < |cells| then cells[i] else extra[i - |cells|];
      }
      forall i | 0 <= i < |before| ensures before[i].Blank? || before[i].Num? {
        assert before[i] == if i < |extra| then extra[i] else cells[i - |extra|];
      }
    } else {
      var k :| 0 <= k < |cells| && !(cells[k].Blank? || cells[k].Num?);
      assert after[k] == cells[k];
      assert before[k + |extra|] == cells[k];
    }
  }

  /** Missing cells keep every serial of a column fitting, or not. */
  lemma FitWithBlanks(cells: seq<Cell>, extra: seq<Cell>)
    requires forall i :: 0 <= i < |extra| ==> extra[i].Blank?
    ensures SerialsFit(cells + extra) == SerialsFit(cells)
    ensures SerialsFit(extra + cells) == SerialsFit(cells)
  {
    var after := cells + extra;
    var before := extra + cells;
    assert forall i :: 0 <= i < |cells| ==> after[i] == cells[i] && before[i + |extra|] == cells[i];
    assert forall i :: 0 <= i < |extra| ==> after[i + |cells|].Blank? && before[i].Blank?;
    if SerialsFit(cells) {
      forall i | 0 <= i < |after| && after[i].Num? ensures SerialFits(after[i].x) {
        assert i < |cells|;
      }
      forall i | 0 <= i < |before| && before[i].Num? ensures SerialFits(before[i].x) {
        assert i >= |extra| && before[i] == cells[i - |extra|];
      }
    } else {
      var k :| 0 <= k < |cells| && cells[k].Num? && !SerialFits(cells[k].x);
      assert after[k] == cells[k];
      assert before[k + |extra|] == cells[k];
    }
  }

  /** Missing cells keep the format inferred for a column. */
  lemma FormatWithBlanks(cells: seq<Cell>, extra: seq<Cell>, p: TextParser)
    requires forall i :: 0 <= i < |extra| ==> extra[i].Blank?
    ensures ColumnFormat(cells + extra, p) == ColumnFormat(cells, p)
    ensures ColumnFormat(extra + cells, p) == ColumnFormat(cells, p)
  {
    var after := cells + extra;
    var before := extra + cells;
    var k := FirstPresent(cells);
    if k < |cells| {
      assert after[k] == cells[k] && before[k + |extra|] == cells[k];
      FormatOfFirstPresent(after, k, p);
      forall i | 0 <= i < k + |extra| ensures SkippedForFormat(before[i]) {
        if i >= |extra| { assert before[i] == cells[i - |extra|]; }
      }
      FormatOfFirstPresent(before, k + |extra|, p);
    } else {
      forall i | 0 <= i < |after| ensures SkippedForFormat(after[i]) {
        if i >= |cells| { assert after[i] == extra[i - |cells|]; }
      }
      forall i | 0 <= i < |before| ensures SkippedForFormat(before[i]) {
        if i >= |extra| { assert before[i] == cells[i - |extra|]; }
      }
      FormatOfFirstPresent(after, |after|, p);
      FormatOfFirstPresent(before, |before|, p);
    }
  }

  /** Two columns that take the same branch, and infer the same format when
      they go down the text path, give equal cells equal dates. */
  lemma SameBranchSameDate(u: seq<Cell>, v: seq<Cell>, i: nat, j: nat, parseText: TextParser)
    requires i < |u| && j < |v| && u[i] == v[j]
    requires NumericColumn(u) == NumericColumn(v) && SerialsFit(u) == SerialsFit(v)
    requires ColumnFormat(u, parseText) == ColumnFormat(v, parseText)
    ensures ParseDateColumn(u, parseText)[i] == ParseDateColumn(v, parseText)[j]
  {
  }

  /** Missing cells added after a column change neither the branch
      `_parse_fecha_serie` takes nor any other cell's date. */
  lemma BlanksAfter(cells: seq<Cell>, extra: seq<Cell>, parseText: TextParser)
    requires forall i :: 0 <= i < |extra| ==> extra[i].Blank?
    ensures ParseDateColumn(cells + extra, parseText)[..|cells|] == ParseDateColumn(cells, parseText)
  {
    var after := cells + extra;
    NumericWithBlanks(cells, extra);
    FitWithBlanks(cells, extra);
    FormatWithBlanks(cells, extra, parseText);
    forall i | 0 <= i < |cells|
      ensures ParseDateColumn(after, parseText)[i] == ParseDateColumn(cells, parseText)[i]
    {
      SameBranchSameDate(after, cells, i, i, parseText);
    }
  }

  /** Missing cells added before a column change neither the branch
      `_parse_fecha_serie` takes nor any other cell's date. */
  lemma BlanksBefore(cells: seq<Cell>, extra: seq<Cell>, parseText: TextParser)
    requires forall i :: 0 <= i < |extra| ==> extra[i].Blank?
    ensures ParseDateColumn(extra + cells, parseText)[|extra|..] == ParseDateColumn(cells, parseText)
  {
    var before := extra + cells;
    NumericWithBlanks(cells, extra);
    FitWithBlanks(cells, extra);
    FormatWithBlanks(cells, extra, parseText);
    var dated, own := ParseDateColumn(before, parseText), ParseDateColumn(cells, parseText);
    forall j | |extra| <= j < |before| ensures dated[j] == own[j - |extra|] {
      SameBranchSameDate(before, cells, j, j - |extra|, parseText);
    }
    assert dated[|extra|..] == own;
  }

  /** A column of serials that all fit gives their days. */
  lemma SerialColumnExample(parseText: TextParser)
    ensures ParseDateColumn([Num(45962.0), Blank], parseText) == [Some(DaysFromCivil(2025, 11, 1)), None]
  {
    var cells := [Num(45962.0), Blank];
    assert NumericColumn(cells) && SerialsFit(cells);
  }

  /** One serial past 106751 days sends the whole column to the fallback,
      and 2025-11-01 becomes 1970-01-01. */
  lemma OverflowColumnExample(parseText: TextParser)
    ensures ParseDateColumn([Num(45962.0), Num(200000.0)], parseText) == [Some(0), Some(0)]
  {
    var cells := [Num(45962.0), Num(200000.0)];
    assert NumericColumn(cells);
    assert !SerialFits(cells[1].x);
    NanosNearEpoch(45962.0);
    NanosNearEpoch(200000.0);
  }
}
