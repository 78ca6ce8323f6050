/** Row preprocessing and the cohort-wide headline metrics of the dashboard. */
module Data {
  import opened Stats
  import opened Records
  import opened Text

  // ------------------------------------------------------------ preprocess

  /** The text columns that preprocessing trims. */
  datatype TextColumn = StudentName | CourseName | ClassLevel

  /** The value of a text column. */
  function TextOf(r: Row, column: TextColumn): string
  {
    match column
    case StudentName => r.studentName
    case CourseName => r.courseName
    case ClassLevel => r.classLevel
  }

  /** The columns that are not text: equal when two rows agree on them. */
  predicate SameNonText(r: Row, t: Row)
  {
    t.(studentName := r.studentName, courseName := r.courseName, classLevel := r.classLevel) == r
  }

  /** `str.strip()` applied to one text column of one row: that column has
      no whitespace at either end, and every other column is unchanged. */
  function StripColumn(r: Row, column: TextColumn): (t: Row)
    ensures NoEdgeSpace(TextOf(t, column))
    ensures forall other: TextColumn :: other != column ==> TextOf(t, other) == TextOf(r, other)
    ensures SameNonText(r, t)
  {
    var stripped := Strip(TextOf(r, column));
    match column
    case StudentName => r.(studentName := stripped)
    case CourseName => r.(courseName := stripped)
    case ClassLevel => r.(classLevel := stripped)
  }

  /** The given columns stripped one after the other, in order: each of
      them is left without edge whitespace, and the rest of the row as it was. */
  function StripColumns(r: Row, columns: seq<TextColumn>): (t: Row)
    ensures forall c :: c in columns ==> NoEdgeSpace(TextOf(t, c))
    ensures forall c :: c !in columns ==> TextOf(t, c) == TextOf(r, c)
    ensures SameNonText(r, t)
  {
    if columns == [] then r
    else StripColumn(StripColumns(r, columns[..|columns| - 1]), columns[|columns| - 1])
  }

  /** A row with its three text columns trimmed: no text column starts or
      ends with whitespace, and every other column is unchanged. */
  function TrimRow(r: Row): (t: Row)
    ensures NoEdgeSpace(t.studentName) && NoEdgeSpace(t.courseName) && NoEdgeSpace(t.classLevel)
    ensures t.(studentName := r.studentName, courseName := r.courseName, classLevel := r.classLevel) == r
  {
    r.(studentName := Strip(r.studentName), courseName := Strip(r.courseName), classLevel := Strip(r.classLevel))
  }

  /** Stripping the three text columns one after the other trims the row. */
  lemma {:induction false} StripEachColumn(r: Row)
    ensures StripColumns(r, [StudentName, CourseName, ClassLevel]) == TrimRow(r)
  {
    var columns, first2, first1 := [StudentName, CourseName, ClassLevel], [StudentName, CourseName], [StudentName];
    assert columns[..2] == first2 && first2[..1] == first1 && first1[..0] == [];
    assert StripColumns(r, first1) == StripColumn(r, StudentName);
    assert StripColumns(r, first2) == StripColumn(StripColumns(r, first1), CourseName);
    assert StripColumns(r, columns) == StripColumn(StripColumns(r, first2), ClassLevel);
  }

  /** Trimming a trimmed row changes nothing. */
  lemma {:induction false} TrimRowIdempotent(r: Row)
    ensures TrimRow(TrimRow(r)) == TrimRow(r)
  {
    StripIdempotent(r.studentName);
    StripIdempotent(r.courseName);
    StripIdempotent(r.classLevel);
  }

  /** A row after preprocessing, with its two derived columns. */
  datatype PreparedRow = PreparedRow(row: Row, isPassing: bool, engagementScore: real)

  /** Preprocessing works on its own copy of the table (sequences are values,
      so the caller's table cannot change): it trims the three text columns,
      one column at a time, then adds `is_passing` and `engagement_score`.
      The rows keep their number and order. */
  method Preprocess(df: seq<Row>, passingScore: real) returns (out: seq<PreparedRow>)
    ensures |out| == |df|
    ensures forall i :: 0 <= i < |df| ==> out[i].row == TrimRow(df[i])
    ensures forall i :: 0 <= i < |df| ==> (out[i].isPassing <==> passingScore <= df[i].assessmentScore)
    ensures forall i :: 0 <= i < |df| ==>
      out[i].engagementScore == df[i].raisedHandCount + df[i].moodleViews as real + df[i].resourcesDownloads as real
  {
    var frame := df;
    var columns := [StudentName, CourseName, ClassLevel];
    for c := 0 to |columns|
      invariant |frame| == |df|
      invariant forall i :: 0 <= i < |frame| ==> frame[i] == StripColumns(df[i], columns[..c])
    {
      assert columns[..c + 1][..c] == columns[..c];
      // The column is overwritten as a whole.
      frame := seq(|frame|, i requires 0 <= i < |frame| => StripColumn(frame[i], columns[c]));
    }
    assert columns[..|columns|] == columns;
    forall i | 0 <= i < |frame|
      ensures frame[i] == TrimRow(df[i])
    {
      StripEachColumn(df[i]);
    }
    out := seq(|frame|, i requires 0 <= i < |frame| =>
      PreparedRow(frame[i], frame[i].assessmentScore >= passingScore,
                  frame[i].raisedHandCount + frame[i].moodleViews as real + frame[i].resourcesDownloads as real));
  }

  // --------------------------------------------------------- overall metrics

  function Rows(df: seq<PreparedRow>): (r: seq<Row>)
    ensures |r| == |df|
    ensures forall i :: 0 <= i < |df| ==> r[i] == df[i].row
  {
    if df == [] then [] else [df[0].row] + Rows(df[1..])
  }

  /** The `is_passing` values of one student's rows, in table order. */
  function PassFlags(df: seq<PreparedRow>, id: int): (flags: seq<bool>)
    ensures |flags| > 0 <==> id in IdColumn(Rows(df))
  {
    if df == [] then []
    else (if df[0].row.studentId == id then [df[0].isPassing] else []) + PassFlags(df[1..], id)
  }

  /** The number of `True` values, as `sum()` counts them. */
  function CountTrue(flags: seq<bool>): (n: nat)
    ensures n == multiset(flags)[true]
    ensures n <= |flags|
  {
    if flags == [] then 0
    else
      assert flags == [flags[0]] + flags[1..];
      (if flags[0] then 1 else 0) + CountTrue(flags[1..])
  }

  lemma {:induction false} FractionWithin(part: nat, whole: nat)
    requires 0 < whole && part <= whole
    ensures 0.0 <= part as real / whole as real <= 1.0
  {
    var q := part as real / whole as real;
    assert q * (whole as real) == part as real;
  }

  lemma {:induction false} WholeFraction(whole: nat)
    requires 0 < whole
    ensures whole as real / whole as real == 1.0
  {
  }

  /** Percentage of one student's rows that pass. */
  function StudentPassRate(df: seq<PreparedRow>, id: int): (rate: real)
    requires id in IdColumn(Rows(df))
    ensures 0.0 <= rate <= 100.0
  {
    var flags := PassFlags(df, id);
    FractionWithin(CountTrue(flags), |flags|);
    (CountTrue(flags) as real / |flags| as real) * 100.0
  }

  function PassRates(df: seq<PreparedRow>, ids: seq<int>): (rates: seq<real>)
    requires forall id :: id in ids ==> id in IdColumn(Rows(df))
    ensures |rates| == |ids|
    ensures forall i :: 0 <= i < |ids| ==> rates[i] == StudentPassRate(df, ids[i])
  {
    if ids == [] then [] else [StudentPassRate(df, ids[0])] + PassRates(df, ids[1..])
  }

  datatype OverallMetrics = OverallMetrics(overallAvg: real, passRate: real, failRate: real, avgAttendance: real)

  /** Cohort headline figures: the mean score and mean attendance over all
      rows, and the pass rate as the mean over students of each student's
      percentage of passing rows, with the fail rate its complement. */
  function ComputeOverallMetrics(df: seq<PreparedRow>): (m: OverallMetrics)
    requires |df| > 0
    ensures 0.0 <= m.passRate <= 100.0
    ensures 0.0 <= m.failRate <= 100.0
    ensures m.passRate + m.failRate == 100.0
  {
    var rows := Rows(df);
    var ids := StudentIds(rows);
    assert rows[0].studentId in IdColumn(rows);
    var rates := PassRates(df, ids);
    MeanWithin(rates, 0.0, 100.0);
    var passRate := Mean(rates);
    OverallMetrics(Mean(Scores(rows)), passRate, 100.0 - passRate, Mean(AttendanceRates(rows)))
  }

  lemma {:induction false} CountAllTrue(flags: seq<bool>)
    requires forall i :: 0 <= i < |flags| ==> flags[i]
    ensures CountTrue(flags) == |flags|
  {
    if flags != [] {
      CountAllTrue(flags[1..]);
    }
  }

  lemma {:induction false} CountNoneTrue(flags: seq<bool>)
    requires forall i :: 0 <= i < |flags| ==> !flags[i]
    ensures CountTrue(flags) == 0
  {
    if flags != [] {
      CountNoneTrue(flags[1..]);
    }
  }

  lemma {:induction false} PassFlagsOf(df: seq<PreparedRow>, id: int, value: bool)
    requires forall i :: 0 <= i < |df| && df[i].row.studentId == id ==> df[i].isPassing == value
    ensures forall j :: 0 <= j < |PassFlags(df, id)| ==> PassFlags(df, id)[j] == value
  {
    if df != [] {
      PassFlagsOf(df[1..], id, value);
    }
  }

  /** A student all of whose rows pass has a pass rate of 100, one none of
      whose rows pass a pass rate of 0, whatever the other students' rows. */
  lemma {:induction false} UniformPassRate(df: seq<PreparedRow>, id: int, value: bool)
    requires id in IdColumn(Rows(df))
    requires forall i :: 0 <= i < |df| && df[i].row.studentId == id ==> df[i].isPassing == value
    ensures StudentPassRate(df, id) == if value then 100.0 else 0.0
  {
    var flags := PassFlags(df, id);
    PassFlagsOf(df, id, value);
    if value {
      CountAllTrue(flags);
      WholeFraction(|flags|);
    } else {
      CountNoneTrue(flags);
      assert 0.0 / (|flags| as real) == 0.0;
    }
  }

  /** When every row passes the pass rate is 100 and the fail rate 0. */
  lemma {:induction false} AllPassingMeansFullPassRate(df: seq<PreparedRow>)
    requires |df| > 0
    requires forall i :: 0 <= i < |df| ==> df[i].isPassing
    ensures ComputeOverallMetrics(df).passRate == 100.0
    ensures ComputeOverallMetrics(df).failRate == 0.0
  {
    var ids := StudentIds(Rows(df));
    var rates := PassRates(df, ids);
    forall k | 0 <= k < |rates|
      ensures rates[k] == 100.0
    {
      assert ids[k] in ids;
      UniformPassRate(df, ids[k], true);
    }
    MeanWithin(rates, 100.0, 100.0);
  }

  /** When no row passes the pass rate is 0 and the fail rate 100. */
  lemma {:induction false} NonePassingMeansZeroPassRate(df: seq<PreparedRow>)
    requires |df| > 0
    requires forall i :: 0 <= i < |df| ==> !df[i].isPassing
    ensures ComputeOverallMetrics(df).passRate == 0.0
    ensures ComputeOverallMetrics(df).failRate == 100.0
  {
    var ids := StudentIds(Rows(df));
    var rates := PassRates(df, ids);
    forall k | 0 <= k < |rates|
      ensures rates[k] == 0.0
    {
      assert ids[k] in ids;
      UniformPassRate(df, ids[k], false);
    }
    MeanWithin(rates, 0.0, 0.0);
  }

  lemma {:induction false} RowColumnsAppend(a: seq<PreparedRow>, b: seq<PreparedRow>)
    ensures Scores(Rows(a + b)) == Scores(Rows(a)) + Scores(Rows(b))
    ensures AttendanceRates(Rows(a + b)) == AttendanceRates(Rows(a)) + AttendanceRates(Rows(b))
  {
    RowsAppend(a, b);
    ScoresAppend(Rows(a), Rows(b));
    AttendanceRatesAppend(Rows(a), Rows(b));
  }

  lemma {:induction false} RowsAppend(a: seq<PreparedRow>, b: seq<PreparedRow>)
    ensures Rows(a + b) == Rows(a) + Rows(b)
  {
    assert Rows(a + b) == Rows(a) + Rows(b);
  }

  lemma {:induction false} RowMeansAppend(a: seq<PreparedRow>, b: seq<PreparedRow>)
    requires |a| > 0 && |b| > 0
    ensures Mean(Scores(Rows(a + b))) == Weighted(|a|, Mean(Scores(Rows(a))), |b|, Mean(Scores(Rows(b))))
    ensures Mean(AttendanceRates(Rows(a + b)))
         == Weighted(|a|, Mean(AttendanceRates(Rows(a))), |b|, Mean(AttendanceRates(Rows(b))))
  {
    RowColumnsAppend(a, b);
    MeanAppend(Scores(Rows(a)), Scores(Rows(b)));
    MeanAppend(AttendanceRates(Rows(a)), AttendanceRates(Rows(b)));
  }

  /** The overall mean score and mean attendance weight every row equally:
      over two stacked tables they are the row-count-weighted average of the
      two tables' figures. */
  lemma {:induction false} OverallMeansWeightRows(a: seq<PreparedRow>, b: seq<PreparedRow>)
    requires |a| > 0 && |b| > 0
    ensures var ma, mb, m := ComputeOverallMetrics(a), ComputeOverallMetrics(b), ComputeOverallMetrics(a + b);
      && m.overallAvg == Weighted(|a|, ma.overallAvg, |b|, mb.overallAvg)
      && m.avgAttendance == Weighted(|a|, ma.avgAttendance, |b|, mb.avgAttendance)
  {
    RowMeansAppend(a, b);
  }
}
