/** The Student Performance Index (SPI): a weighted blend of a student's mean
    score, mean attendance and raised-hand engagement, less a step penalty for
    failed courses and a penalty for a falling trend, clamped to [0, 100] and
    classified into four status tiers; and the cohort table that scores every
    student. */
module Spi {
  import opened Stats
  import opened Records

  // ----------------------------------------------------------------- tiers

  datatype Status = Excellent | Satisfactory | AtRisk | Critical
  {
    /** The label the dashboard shows and filters on: one of four literals. */
    function Label(): (l: string)
      ensures l == "EXCELLENT" || l == "SATISFACTORY" || l == "AT RISK" || l == "CRITICAL"
    {
      match this
      case Excellent => "EXCELLENT"
      case Satisfactory => "SATISFACTORY"
      case AtRisk => "AT RISK"
      case Critical => "CRITICAL"
    }

    /** The key of the tier's colour in the dashboard palette; the palette's
        colour values are configuration outside this model, so the colour is
        carried as this key. */
    function PaletteKey(): (k: string)
      ensures k == "dark_green" || k == "amber" || k == "deep_orange" || k == "dark_red"
    {
      match this
      case Excellent => "dark_green"
      case Satisfactory => "amber"
      case AtRisk => "deep_orange"
      case Critical => "dark_red"
    }

    /** Tiers ordered from worst (0) to best (3). */
    function Rank(): nat
    {
      match this
      case Critical => 0
      case AtRisk => 1
      case Satisfactory => 2
      case Excellent => 3
    }

    /** The tiers that cohort reporting counts as at risk: those whose label
        is "AT RISK" or "CRITICAL". */
    predicate IsAtRisk()
      ensures IsAtRisk() <==> Label() == "AT RISK" || Label() == "CRITICAL"
    {
      this == AtRisk || this == Critical
    }
  }

  /** Tier of a score, checked from the top down. Each tier is a half-open
      band with an inclusive lower bound, and the four bands cover every score. */
  function Classify(score: real): (s: Status)
    ensures s == Excellent <==> 80.0 <= score
    ensures s == Satisfactory <==> 65.0 <= score < 80.0
    ensures s == AtRisk <==> 50.0 <= score < 65.0
    ensures s == Critical <==> score < 50.0
  {
    if score >= 80.0 then Excellent
    else if score >= 65.0 then Satisfactory
    else if score >= 50.0 then AtRisk
    else Critical
  }

  /** A lower score never gets a better tier. */
  lemma {:induction false} ClassifyMonotone(lower: real, higher: real)
    requires lower <= higher
    ensures Classify(lower).Rank() <= Classify(higher).Rank()
  {
  }

  /** The four labels are distinct, so a label determines its tier. */
  lemma {:induction false} LabelsDistinct(a: Status, b: Status)
    ensures a.Label() == b.Label() <==> a == b
  {
    if a != b {
      assert a.Label()[0] != b.Label()[0] || |a.Label()| != |b.Label()|;
    }
  }

  /** Being at risk is the same as scoring below 65. */
  lemma {:induction false} AtRiskIffBelow65(score: real)
    ensures Classify(score).IsAtRisk() <==> score < 65.0
  {
  }

  // ------------------------------------------------------------ components

  // The weights (0.60 academic, 0.25 attendance, 0.15 engagement) and the
  // 30-hand engagement target are written as literals: a named constant in a
  // product turns the solver's arithmetic nonlinear.

  /** Mean raised hands mapped onto a 0-100 scale (30 hands is 100), capped at 100. */
  function NormalizedEngagement(meanRaisedHands: real): (n: real)
    ensures n <= 100.0
    ensures meanRaisedHands <= 30.0 ==> n == meanRaisedHands / 30.0 * 100.0
    ensures meanRaisedHands >= 30.0 ==> n == 100.0
    ensures meanRaisedHands >= 0.0 ==> n >= 0.0
  {
    var scaled := meanRaisedHands / 30.0 * 100.0;
    if 100.0 < scaled then 100.0 else scaled
  }

  /** Flat step penalty for failed courses: 0, 5, or 10 for two or more. */
  function FailurePenalty(failedCourses: nat): (p: nat)
    ensures p == 0 <==> failedCourses == 0
    ensures p == 5 <==> failedCourses == 1
    ensures p == 10 <==> failedCourses >= 2
  {
    if failedCourses == 1 then 5
    else if failedCourses >= 2 then 10
    else 0
  }

  /** A drop of more than 10 points costs 5 points. */
  function TrendPenalty(change: real): (p: nat)
    ensures p == 5 <==> change < -10.0
    ensures p == 0 <==> change >= -10.0
  {
    if change < -10.0 then 5 else 0
  }

  /** `max(0, min(100, x))`. */
  function Clamp(x: real): (r: real)
    ensures 0.0 <= r <= 100.0
    ensures 0.0 <= x <= 100.0 ==> r == x
    ensures x < 0.0 ==> r == 0.0
    ensures x > 100.0 ==> r == 100.0
  {
    var capped := if 100.0 < x then 100.0 else x;
    if capped > 0.0 then capped else 0.0
  }

  /** The courses met while scanning `scan` whose mean score over all of
      `rows` is strictly below the passing score. */
  function FailedAmong(rows: seq<Row>, scan: seq<Row>, passingScore: real): (failed: set<string>)
    requires CourseSet(scan) <= CourseSet(rows)
    ensures failed <= CourseSet(scan)
  {
    if scan == [] then {}
    else
      var course := scan[0].courseName;
      (if Mean(CourseScores(rows, course)) < passingScore then {course} else {})
        + FailedAmong(rows, scan[1..], passingScore)
  }

  /** The courses whose mean score is strictly below the passing score. */
  function FailedCourses(rows: seq<Row>, passingScore: real): (failed: set<string>)
    ensures failed <= CourseSet(rows)
  {
    FailedAmong(rows, rows, passingScore)
  }

  lemma {:induction false} FailedAmongMembers(rows: seq<Row>, scan: seq<Row>, passingScore: real, course: string)
    requires CourseSet(scan) <= CourseSet(rows)
    ensures course in FailedAmong(rows, scan, passingScore)
        <==> course in CourseSet(scan) && Mean(CourseScores(rows, course)) < passingScore
  {
    if scan != [] {
      FailedAmongMembers(rows, scan[1..], passingScore, course);
    }
  }

  /** A course is failed exactly when it is present and its mean score is
      strictly below the passing score. */
  lemma {:induction false} FailedCoursesMembers(rows: seq<Row>, passingScore: real, course: string)
    ensures course in FailedCourses(rows, passingScore)
        <==> course in CourseSet(rows) && Mean(CourseScores(rows, course)) < passingScore
  {
    FailedAmongMembers(rows, rows, passingScore, course);
  }

  /** There are never more failed courses than courses. */
  lemma {:induction false} FailedCoursesBound(rows: seq<Row>, passingScore: real)
    ensures |FailedCourses(rows, passingScore)| <= |CourseSet(rows)|
  {
    SubsetCardinality(FailedCourses(rows, passingScore), CourseSet(rows));
  }

  /** Raising the passing score can only add failed courses. */
  lemma {:induction false} FailedCoursesMonotone(rows: seq<Row>, lower: real, higher: real)
    requires lower <= higher
    ensures FailedCourses(rows, lower) <= FailedCourses(rows, higher)
    ensures |FailedCourses(rows, lower)| <= |FailedCourses(rows, higher)|
  {
    forall c | c in FailedCourses(rows, lower)
      ensures c in FailedCourses(rows, higher)
    {
      FailedCoursesMembers(rows, lower, c);
      FailedCoursesMembers(rows, higher, c);
    }
    SubsetCardinality(FailedCourses(rows, lower), FailedCourses(rows, higher));
  }

  /** When every row passes, no course is failed. */
  lemma {:induction false} NoFailedCourseWhenAllPass(rows: seq<Row>, passingScore: real)
    requires forall i :: 0 <= i < |rows| ==> passingScore <= rows[i].assessmentScore
    ensures FailedCourses(rows, passingScore) == {}
    ensures FailurePenalty(|FailedCourses(rows, passingScore)|) == 0
  {
    forall c | c in FailedCourses(rows, passingScore)
      ensures false
    {
      FailedCoursesMembers(rows, passingScore, c);
      CourseScoresAtLeast(rows, c, passingScore);
      MeanAtLeast(CourseScores(rows, c), passingScore);
    }
  }

  /** Last-minus-first change of the per-assessment-number mean scores, or
      0.0 when fewer than two assessment numbers are present. Both cases are
      the change between the means at the largest and the smallest number. */
  function PerformanceTrend(rows: seq<Row>): (t: real)
    requires |rows| > 0
    ensures t == Mean(ScoresAt(rows, LastAssessmentNo(rows))) - Mean(ScoresAt(rows, FirstAssessmentNo(rows)))
  {
    TwoAssessmentsIffEndsDiffer(rows);
    if |AssessmentNoSet(rows)| >= 2 then
      Mean(ScoresAt(rows, LastAssessmentNo(rows))) - Mean(ScoresAt(rows, FirstAssessmentNo(rows)))
    else 0.0
  }

  /** The trend compares the first and the last assessment: it is the change
      between their mean scores when they differ, and 0 when every row has the
      same assessment number. */
  lemma {:induction false} TrendOfEnds(rows: seq<Row>)
    requires |rows| > 0
    ensures var first, last := FirstAssessmentNo(rows), LastAssessmentNo(rows);
      && (first == last ==> PerformanceTrend(rows) == 0.0)
      && (first != last ==> PerformanceTrend(rows) == Mean(ScoresAt(rows, last)) - Mean(ScoresAt(rows, first)))
  {
    TwoAssessmentsIffEndsDiffer(rows);
  }

  lemma {:induction false} AssessmentNosBetween(extra: seq<Row>, lo: int, hi: int)
    requires forall i :: 0 <= i < |extra| ==> lo < extra[i].assessmentNo < hi
    ensures forall j :: j in AssessmentNoSet(extra) ==> lo < j < hi
  {
    if extra != [] {
      AssessmentNosBetween(extra[1..], lo, hi);
    }
  }

  /** Only the first and last assessment numbers matter: adding rows whose
      assessment numbers lie strictly between them leaves the trend unchanged. */
  lemma {:induction false} IntermediateAssessmentsIgnored(rows: seq<Row>, extra: seq<Row>)
    requires |rows| > 0
    requires forall i :: 0 <= i < |extra| ==>
      FirstAssessmentNo(rows) < extra[i].assessmentNo < LastAssessmentNo(rows)
    ensures PerformanceTrend(rows + extra) == PerformanceTrend(rows)
  {
    var first, last := FirstAssessmentNo(rows), LastAssessmentNo(rows);
    var all := rows + extra;
    AssessmentNoSetAppend(rows, extra);
    AssessmentNosBetween(extra, first, last);
    assert FirstAssessmentNo(all) == first by {
      FirstIsSmallest(all, first);
      if FirstAssessmentNo(all) in AssessmentNoSet(rows) {
        FirstIsSmallest(rows, FirstAssessmentNo(all));
      }
    }
    assert LastAssessmentNo(all) == last by {
      LastIsLargest(all, last);
      if LastAssessmentNo(all) in AssessmentNoSet(rows) {
        LastIsLargest(rows, LastAssessmentNo(all));
      }
    }
    TwoAssessmentsIffEndsDiffer(rows);
    TwoAssessmentsIffEndsDiffer(all);
    if first != last {
      ScoresAtAppend(rows, extra, first);
      ScoresAtAppend(rows, extra, last);
      assert ScoresAt(extra, first) == [];
      assert ScoresAt(extra, last) == [];
      assert ScoresAt(all, first) == ScoresAt(rows, first);
      assert ScoresAt(all, last) == ScoresAt(rows, last);
    }
  }

  // ------------------------------------------------------------------ score

  /** The explanation the dashboard prints beside a score. */
  datatype Breakdown = Breakdown(
    baseSpi: real,
    academicComponent: real,
    attendanceComponent: real,
    engagementComponent: real,
    failurePenalty: nat,
    trendPenalty: nat,
    failedCourses: nat,
    performanceTrend: real,
    normalizedEngagement: real)

  /** The score, its tier, the tier's colour (as its palette key) and the
      breakdown. */
  datatype SpiResult = SpiResult(score: real, status: Status, color: string, details: Breakdown)

  /** The SPI of one student, from all of that student's rows. */
  function CalculateStudentPerformanceIndex(rows: seq<Row>, passingScore: real): (r: SpiResult)
    requires |rows| > 0
    ensures 0.0 <= r.score <= 100.0
    ensures r.status == Classify(r.score)
    ensures r.color == r.status.PaletteKey()
    ensures r.details.engagementComponent == r.details.normalizedEngagement * 0.15 <= 15.0
    ensures r.details.baseSpi
         == r.details.academicComponent + r.details.attendanceComponent + r.details.engagementComponent
    ensures r.details.failurePenalty == FailurePenalty(r.details.failedCourses)
    ensures r.details.trendPenalty == TrendPenalty(r.details.performanceTrend)
    ensures r.score
         == Clamp(r.details.baseSpi - r.details.failurePenalty as real - r.details.trendPenalty as real)
  {
    var academic := Mean(Scores(rows)) * 0.60;
    var attendance := Mean(AttendanceRates(rows)) * 0.25;
    var normalized := NormalizedEngagement(Mean(RaisedHands(rows)));
    var engagement := normalized * 0.15;
    var base := academic + attendance + engagement;
    var failedSet := FailedCourses(rows, passingScore);
    var failed := |failedSet|;
    var failurePenalty := FailurePenalty(failed);
    var change := PerformanceTrend(rows);
    var trendPenalty := TrendPenalty(change);
    var score := Clamp(base - failurePenalty as real - trendPenalty as real);
    var status := Classify(score);
    SpiResult(score, status, status.PaletteKey(),
      Breakdown(base, academic, attendance, engagement, failurePenalty, trendPenalty,
                failed, change, normalized))
  }

  /** Where each part of the breakdown comes from: the three weighted means,
      the number of failed courses and the first-to-last trend. */
  lemma {:induction false} SpiInputs(rows: seq<Row>, passingScore: real)
    requires |rows| > 0
    ensures var d := CalculateStudentPerformanceIndex(rows, passingScore).details;
      && d.academicComponent == Mean(Scores(rows)) * 0.60
      && d.attendanceComponent == Mean(AttendanceRates(rows)) * 0.25
      && d.normalizedEngagement == NormalizedEngagement(Mean(RaisedHands(rows)))
      && d.failedCourses == |FailedCourses(rows, passingScore)|
      && d.performanceTrend == PerformanceTrend(rows)
  {
  }

  /** With scores and attendance in [0, 100] and no negative hand counts, the
      base SPI (before penalties) is itself in [0, 100]. */
  lemma {:induction false} BaseSpiInRange(rows: seq<Row>, passingScore: real)
    requires |rows| > 0
    requires forall i :: 0 <= i < |rows| ==> 0.0 <= rows[i].assessmentScore <= 100.0
    requires forall i :: 0 <= i < |rows| ==> 0.0 <= rows[i].attendanceRate <= 100.0
    requires forall i :: 0 <= i < |rows| ==> 0.0 <= rows[i].raisedHandCount
    ensures 0.0 <= CalculateStudentPerformanceIndex(rows, passingScore).details.baseSpi <= 100.0
  {
    MeanWithin(Scores(rows), 0.0, 100.0);
    MeanWithin(AttendanceRates(rows), 0.0, 100.0);
    MeanAtLeast(RaisedHands(rows), 0.0);
  }

  // ------------------------------------------------------------ cohort table

  /** One row of the per-student aggregate table. */
  datatype StudentAverage = StudentAverage(
    studentId: int,
    assessmentScore: real,
    attendanceRate: real,
    raisedHandCount: real,
    classLevel: string,
    studentName: string)

  /** The aggregates of one student: means of the three numeric columns and
      the first class level and name in table order. */
  function AverageOf(df: seq<Row>, id: int): (a: StudentAverage)
    requires id in IdColumn(df)
    ensures a.studentId == id
  {
    var rows := RowsOfStudent(df, id);
    StudentAverage(id, Mean(Scores(rows)), Mean(AttendanceRates(rows)), Mean(RaisedHands(rows)),
                   rows[0].classLevel, rows[0].studentName)
  }

  function AveragesFor(df: seq<Row>, ids: seq<int>): (r: seq<StudentAverage>)
    requires forall id :: id in ids ==> id in IdColumn(df)
    ensures |r| == |ids|
    ensures forall i :: 0 <= i < |ids| ==> r[i] == AverageOf(df, ids[i])
  {
    if ids == [] then [] else [AverageOf(df, ids[0])] + AveragesFor(df, ids[1..])
  }

  /** The group-by-student aggregate table, one row per distinct id, ascending. */
  function StudentAverages(df: seq<Row>): (r: seq<StudentAverage>)
    ensures |r| == |StudentIds(df)|
    ensures forall i :: 0 <= i < |r| ==> r[i] == AverageOf(df, StudentIds(df)[i])
  {
    AveragesFor(df, StudentIds(df))
  }

  /** The aggregate rows are keyed by the distinct ids, ascending. */
  lemma {:induction false} AverageKeys(df: seq<Row>)
    ensures var a := StudentAverages(df);
      && (forall k :: 0 <= k < |a| ==> a[k].studentId == StudentIds(df)[k] && a[k].studentId in IdColumn(df))
      && (forall i, j :: 0 <= i < j < |a| ==> a[i].studentId < a[j].studentId)
  {
    var a, ids := StudentAverages(df), StudentIds(df);
    forall k | 0 <= k < |a|
      ensures a[k].studentId == ids[k] && a[k].studentId in IdColumn(df)
    {
      assert ids[k] in ids;
    }
  }

  /** One row of the intermediate list of scores. */
  datatype SpiRow = SpiRow(studentId: int, spiScore: real, status: Status, statusColor: string)

  /** The score row of one student: the score and tier that scoring that
      student's rows alone gives. */
  function ScoreRow(df: seq<Row>, id: int, passingScore: real): (s: SpiRow)
    requires id in IdColumn(df)
    ensures s.studentId == id
  {
    var result := CalculateStudentPerformanceIndex(RowsOfStudent(df, id), passingScore);
    SpiRow(id, result.score, result.status, result.color)
  }

  /** One row of the cohort table: the aggregates, the SPI, its tier and
      colour, and the at-risk flag. */
  datatype StudentSpiRow = StudentSpiRow(
    average: StudentAverage,
    spiScore: real,
    status: Status,
    statusColor: string,
    atRisk: bool)

  /** `entry` is what the cohort table holds for its student: the student's
      aggregates, and the score, tier and colour that scoring that student
      alone gives. */
  predicate IsEntryFor(entry: StudentSpiRow, df: seq<Row>, passingScore: real)
  {
    var id := entry.average.studentId;
    && id in IdColumn(df)
    && entry.average == AverageOf(df, id)
    && var result := CalculateStudentPerformanceIndex(RowsOfStudent(df, id), passingScore);
    && entry.spiScore == result.score
    && entry.status == result.status
    && entry.statusColor == result.color
    && entry.atRisk == entry.status.IsAtRisk()
  }

  /** A cohort row made of a student's aggregates and that student's score
      row, flagged by its tier, is that student's entry, and it is flagged at
      risk exactly below 65. */
  lemma {:induction false} MergedEntry(df: seq<Row>, passingScore: real, e: StudentSpiRow, s: SpiRow)
    requires s.studentId in IdColumn(df)
    requires s == ScoreRow(df, s.studentId, passingScore)
    requires e.average == AverageOf(df, s.studentId)
    requires e.spiScore == s.spiScore && e.status == s.status && e.statusColor == s.statusColor
    requires e.atRisk == e.status.IsAtRisk()
    ensures IsEntryFor(e, df, passingScore)
    ensures e.atRisk <==> e.spiScore < 65.0
  {
    AtRiskIffBelow65(s.spiScore);
  }

  /** A table whose key column is the ascending list of distinct ids holds
      every student exactly once. */
  lemma {:induction false} TableKeys(df: seq<Row>, table: seq<StudentSpiRow>)
    requires |table| == |StudentIds(df)|
    requires forall i :: 0 <= i < |table| ==> table[i].average.studentId == StudentIds(df)[i]
    ensures forall i, j :: 0 <= i < j < |table| ==> table[i].average.studentId < table[j].average.studentId
    ensures forall id :: id in IdColumn(df) <==> exists i :: 0 <= i < |table| && table[i].average.studentId == id
  {
    var ids := StudentIds(df);
    forall id | id in IdColumn(df)
      ensures exists i :: 0 <= i < |table| && table[i].average.studentId == id
    {
      assert id in ids;
      var i :| 0 <= i < |ids| && ids[i] == id;
      assert table[i].average.studentId == id;
    }
    forall i | 0 <= i < |table|
      ensures table[i].average.studentId in IdColumn(df)
    {
      assert ids[i] in ids;
    }
  }

  /** `score` applied to the student of each aggregate row, in order: the
      list the scoring loop builds when `score` is `ScoreRow`. */
  function ScoreEach(df: seq<Row>, studentAvg: seq<StudentAverage>, passingScore: real,
                     score: (seq<Row>, int, real) --> SpiRow): (r: seq<SpiRow>)
    requires forall k :: 0 <= k < |studentAvg| ==> score.requires(df, studentAvg[k].studentId, passingScore)
    ensures |r| == |studentAvg|
  {
    if studentAvg == [] then []
    else
      var last := |studentAvg| - 1;
      ScoreEach(df, studentAvg[..last], passingScore, score) + [score(df, studentAvg[last].studentId, passingScore)]
  }

  /** Each entry of the list is the score of the aggregate row at the same
      position. */
  lemma {:induction false} ScoreEachAt(df: seq<Row>, studentAvg: seq<StudentAverage>, passingScore: real,
                                       score: (seq<Row>, int, real) --> SpiRow, k: int)
    requires forall j :: 0 <= j < |studentAvg| ==> score.requires(df, studentAvg[j].studentId, passingScore)
    requires 0 <= k < |studentAvg|
    ensures ScoreEach(df, studentAvg, passingScore, score)[k] == score(df, studentAvg[k].studentId, passingScore)
  {
    var last := |studentAvg| - 1;
    if k < last {
      ScoreEachAt(df, studentAvg[..last], passingScore, score, k);
    }
  }

  /** The score rows hold the same ids in the same order as the aggregate
      rows. */
  lemma {:induction false} ScoreEachIds(df: seq<Row>, studentAvg: seq<StudentAverage>, passingScore: real)
    requires forall j :: 0 <= j < |studentAvg| ==> studentAvg[j].studentId in IdColumn(df)
    ensures forall k :: 0 <= k < |studentAvg| ==>
      ScoreEach(df, studentAvg, passingScore, ScoreRow)[k].studentId == studentAvg[k].studentId
  {
    forall k | 0 <= k < |studentAvg|
      ensures ScoreEach(df, studentAvg, passingScore, ScoreRow)[k].studentId == studentAvg[k].studentId
    {
      ScoreEachAt(df, studentAvg, passingScore, ScoreRow, k);
    }
  }

  /** The student id column of the score rows. */
  function ScoreIds(spiRows: seq<SpiRow>): (ids: seq<int>)
    ensures |ids| == |spiRows|
    ensures forall j :: 0 <= j < |spiRows| ==> ids[j] == spiRows[j].studentId
  {
    seq(|spiRows|, j requires 0 <= j < |spiRows| => spiRows[j].studentId)
  }

  /** The left merge of the aggregate rows with the score rows on the
      student id, with the at-risk column added. The score rows hold the
      aggregate rows' ids in the same order, so aggregate row k is paired
      with score row k; `MergeOnStudentId` shows that this is the merge on
      the id when the ids are distinct. */
  function MergeScores(studentAvg: seq<StudentAverage>, spiRows: seq<SpiRow>): (table: seq<StudentSpiRow>)
    requires |spiRows| == |studentAvg|
    requires forall k :: 0 <= k < |spiRows| ==> spiRows[k].studentId == studentAvg[k].studentId
    ensures |table| == |studentAvg|
    ensures forall k :: 0 <= k < |table| ==> table[k].average == studentAvg[k]
  {
    seq(|studentAvg|, k requires 0 <= k < |studentAvg| =>
      var s := spiRows[k];
      StudentSpiRow(studentAvg[k], s.spiScore, s.status, s.statusColor, s.status.IsAtRisk()))
  }

  /** The merge is on the student id: every aggregate row finds a score row
      with its id, takes that row's score, tier and colour, and is flagged at
      risk exactly when the tier is AT RISK or CRITICAL. */
  lemma {:induction false} MergeOnStudentId(studentAvg: seq<StudentAverage>, spiRows: seq<SpiRow>)
    requires forall i, j :: 0 <= i < j < |studentAvg| ==> studentAvg[i].studentId < studentAvg[j].studentId
    requires |spiRows| == |studentAvg|
    requires forall k :: 0 <= k < |spiRows| ==> spiRows[k].studentId == studentAvg[k].studentId
    ensures var table := MergeScores(studentAvg, spiRows);
      && (forall k :: 0 <= k < |table| ==> table[k].average.studentId in ScoreIds(spiRows))
      && (forall k, j :: 0 <= k < |table| && 0 <= j < |spiRows| && spiRows[j].studentId == table[k].average.studentId ==>
            && table[k].spiScore == spiRows[j].spiScore
            && table[k].status == spiRows[j].status
            && table[k].statusColor == spiRows[j].statusColor)
      && (forall k :: 0 <= k < |table| ==>
            (table[k].atRisk <==> table[k].status.Label() == "AT RISK" || table[k].status.Label() == "CRITICAL"))
  {
    var table := MergeScores(studentAvg, spiRows);
    forall k | 0 <= k < |table|
      ensures table[k].average.studentId in ScoreIds(spiRows)
    {
      assert ScoreIds(spiRows)[k] == table[k].average.studentId;
    }
    forall k, j | 0 <= k < |table| && 0 <= j < |spiRows| && spiRows[j].studentId == table[k].average.studentId
      ensures j == k
    {
    }
  }

  /** Merging each student's aggregates with that student's own score row
      gives that student's cohort entry, flagged at risk exactly below 65. */
  lemma {:induction false} MergedEntries(df: seq<Row>, passingScore: real, studentAvg: seq<StudentAverage>,
                      spiRows: seq<SpiRow>, table: seq<StudentSpiRow>)
    requires forall k :: 0 <= k < |studentAvg| ==>
      studentAvg[k].studentId in IdColumn(df) && studentAvg[k] == AverageOf(df, studentAvg[k].studentId)
    requires spiRows == ScoreEach(df, studentAvg, passingScore, ScoreRow)
    requires forall k :: 0 <= k < |spiRows| ==> spiRows[k].studentId == studentAvg[k].studentId
    requires table == MergeScores(studentAvg, spiRows)
    ensures forall i :: 0 <= i < |table| ==> IsEntryFor(table[i], df, passingScore)
    ensures forall i :: 0 <= i < |table| ==> (table[i].atRisk <==> table[i].spiScore < 65.0)
  {
    forall i | 0 <= i < |table|
      ensures IsEntryFor(table[i], df, passingScore) && (table[i].atRisk <==> table[i].spiScore < 65.0)
    {
      ScoreEachAt(df, studentAvg, passingScore, ScoreRow, i);
      MergedEntry(df, passingScore, table[i], spiRows[i]);
    }
  }

  /** The loop of the table builder that scores each student of the
      aggregate table on that student's rows alone, appending one score row
      per student. */
  method ScoreStudents(df: seq<Row>, studentAvg: seq<StudentAverage>, passingScore: real)
    returns (spiRows: seq<SpiRow>)
    requires forall k :: 0 <= k < |studentAvg| ==> studentAvg[k].studentId in IdColumn(df)
    ensures spiRows == ScoreEach(df, studentAvg, passingScore, ScoreRow)
  {
    spiRows := [];
    for k := 0 to |studentAvg|
      invariant spiRows == ScoreEach(df, studentAvg[..k], passingScore, ScoreRow)
    {
      assert studentAvg[..k + 1][..k] == studentAvg[..k];
      var sid := studentAvg[k].studentId;
      var sdata := RowsOfStudent(df, sid);
      var result := CalculateStudentPerformanceIndex(sdata, passingScore);
      spiRows := spiRows + [SpiRow(sid, result.score, result.status, result.color)];
    }
    assert studentAvg[..|studentAvg|] == studentAvg;
  }

  /** Scores every distinct student of `df` and flags those at risk. An
      empty table has no student to merge on, which the program rejects. */
  method BuildStudentSpiTable(df: seq<Row>, passingScore: real) returns (table: seq<StudentSpiRow>)
    requires |df| > 0
    ensures |table| == |StudentIds(df)|
    ensures forall i :: 0 <= i < |table| ==> table[i].average.studentId == StudentIds(df)[i]
    ensures forall i, j :: 0 <= i < j < |table| ==> table[i].average.studentId < table[j].average.studentId
    ensures forall id :: id in IdColumn(df) <==> exists i :: 0 <= i < |table| && table[i].average.studentId == id
    ensures forall i :: 0 <= i < |table| ==> IsEntryFor(table[i], df, passingScore)
    ensures forall i :: 0 <= i < |table| ==> (table[i].atRisk <==> table[i].spiScore < 65.0)
  {
    var studentAvg := StudentAverages(df);
    AverageKeys(df);
    var spiRows := ScoreStudents(df, studentAvg, passingScore);
    ScoreEachIds(df, studentAvg, passingScore);
    table := MergeScores(studentAvg, spiRows);
    MergedEntries(df, passingScore, studentAvg, spiRows, table);
    TableKeys(df, table);
  }
}
