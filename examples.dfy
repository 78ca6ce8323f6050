/** Worked cases of the SPI scorer and the cohort metrics on small tables. */
module SpiExamples {
  import opened Stats
  import opened Records
  import opened Spi
  import opened Data

  /** A row of the given student, course, assessment number, score,
      attendance and raised hands, with no Moodle activity. */
  function R(id: int, course: string, no: int, score: real, attendance: real, hands: real): Row
  {
    Row(id, "Ana", "Grade 9", course, no, score, attendance, hands, 0, 0)
  }

  /** A mean of 45 raised hands is over the 30-hand target: engagement is
      capped at 100 and contributes exactly 15 points. */
  lemma {:induction false} EngagementCapped()
    ensures NormalizedEngagement(45.0) == 100.0
    ensures NormalizedEngagement(45.0) * 0.15 == 15.0
  {
  }

  /** 15 raised hands are half the target. */
  lemma {:induction false} EngagementHalf()
    ensures NormalizedEngagement(15.0) == 50.0
  {
  }

  /** The failed-course penalty steps from 0 to 5 to 10 and then stays at 10. */
  lemma {:induction false} FailurePenaltySteps()
    ensures FailurePenalty(0) == 0 && FailurePenalty(1) == 5
    ensures FailurePenalty(2) == 10 && FailurePenalty(7) == 10
  {
  }

  /** A drop of exactly 10 points is not penalised; a drop of 10.5 is. */
  lemma {:induction false} TrendPenaltyBoundary()
    ensures TrendPenalty(-10.0) == 0
    ensures TrendPenalty(-10.5) == 5
    ensures TrendPenalty(25.0) == 0
  {
  }

  /** The tier bands at their edges: 80 is excellent, 65 satisfactory, 63
      at risk (and flagged), 49.9 critical. */
  lemma {:induction false} TierEdges()
    ensures Classify(80.0) == Excellent && Classify(79.99) == Satisfactory
    ensures Classify(65.0) == Satisfactory
    ensures Classify(63.0) == AtRisk && Classify(63.0).IsAtRisk()
    ensures Classify(49.9) == Critical && Classify(49.9).Label() == "CRITICAL"
  {
  }

  /** One row: 95 points, 90% attendance, 30 raised hands. The base is
      57 + 22.5 + 15 = 94.5, nothing is failed and one assessment gives no
      trend, so the SPI is 94.5 and the student is excellent. */
  lemma {:induction false} SingleRowScore()
    ensures var r := CalculateStudentPerformanceIndex([R(1, "Math", 1, 95.0, 90.0, 30.0)], 60.0);
      r.score == 94.5 && r.status == Excellent
  {
    var rows := [R(1, "Math", 1, 95.0, 90.0, 30.0)];
    assert Scores(rows) == [95.0] && Mean([95.0]) == 95.0;
    assert AttendanceRates(rows) == [90.0] && Mean([90.0]) == 90.0;
    assert RaisedHands(rows) == [30.0] && Mean([30.0]) == 30.0;
    NoFailedCourseWhenAllPass(rows, 60.0);
    assert AssessmentNoSet(rows) == {1};
    SpiInputs(rows, 60.0);
  }
  /** Two Math assessments of one student, 80 then 60, with full attendance
      and 30 raised hands. */
  function Declining(): seq<Row>
  {
    [R(1, "Math", 1, 80.0, 100.0, 30.0), R(1, "Math", 2, 60.0, 100.0, 30.0)]
  }

  lemma {:induction false} DecliningMeans()
    ensures Mean(Scores(Declining())) == 70.0
    ensures Mean(AttendanceRates(Declining())) == 100.0
    ensures Mean(RaisedHands(Declining())) == 30.0
  {
    var rows := Declining();
    assert rows[1..] == [rows[1]];
    assert Scores(rows) == [80.0, 60.0] && Mean([80.0, 60.0]) == 70.0;
    assert AttendanceRates(rows) == [100.0, 100.0] && Mean([100.0, 100.0]) == 100.0;
    assert RaisedHands(rows) == [30.0, 30.0] && Mean([30.0, 30.0]) == 30.0;
  }

  /** The Math mean of 70 is not below 60: no course is failed. */
  lemma {:induction false} DecliningPassesMath()
    ensures FailedCourses(Declining(), 60.0) == {}
  {
    var rows := Declining();
    assert rows[1..] == [rows[1]];
    assert CourseSet(rows) == {"Math"};
    assert CourseScores(rows, "Math") == [80.0, 60.0] && Mean([80.0, 60.0]) == 70.0;
    FailedCoursesMembers(rows, 60.0, "Math");
  }

  /** The last assessment's mean is 20 below the first's. */
  lemma {:induction false} DecliningTrend()
    ensures PerformanceTrend(Declining()) == -20.0
  {
    var rows := Declining();
    assert rows[1..] == [rows[1]];
    assert FirstAssessmentNo(rows) == 1 && LastAssessmentNo(rows) == 2;
    assert ScoresAt(rows, 1) == [80.0] && ScoresAt(rows, 2) == [60.0];
    assert Mean([80.0]) == 80.0 && Mean([60.0]) == 60.0;
    TrendOfEnds(rows);
  }

  /** The base is 42 + 25 + 15 = 82 and no course is failed, but the drop
      of 20 points costs 5, so the SPI is 77 and the student falls from
      excellent to satisfactory. */
  lemma {:induction false} DecliningTrendScore()
    ensures var r := CalculateStudentPerformanceIndex(Declining(), 60.0);
      r.score == 77.0 && r.status == Satisfactory
  {
    DecliningMeans();
    DecliningPassesMath();
    DecliningTrend();
    SpiInputs(Declining(), 60.0);
  }

  /** The ascending distinct ids of the ids 1, 1, 1, 2. */
  lemma {:induction false} DistinctIdsOf()
    ensures SortedKeys([1, 1, 1, 2]) == [1, 2]
  {
    assert [1, 1, 1, 2][1..] == [1, 1, 2] && [1, 1, 2][1..] == [1, 2] && [1, 2][1..] == [2];
    assert SortedKeys([2]) == [2];
    assert SortedKeys([1, 2]) == [1, 2];
    assert SortedKeys([1, 1, 2]) == [1, 2];
  }

  /** A table of four rows: student 1 passes all three of theirs, student 2
      fails their only one. */
  predicate OnePassingOneFailing(df: seq<PreparedRow>)
  {
    && |df| == 4
    && df[0].row.studentId == 1 && df[0].isPassing
    && df[1].row.studentId == 1 && df[1].isPassing
    && df[2].row.studentId == 1 && df[2].isPassing
    && df[3].row.studentId == 2 && !df[3].isPassing
  }

  lemma {:induction false} MixedIds(df: seq<PreparedRow>)
    requires OnePassingOneFailing(df)
    ensures IdColumn(Rows(df)) == [1, 1, 1, 2]
    ensures StudentIds(Rows(df)) == [1, 2]
  {
    var rows := Rows(df);
    assert IdColumn(rows) == [1, 1, 1, 2];
    DistinctIdsOf();
  }

  /** The cohort pass rate is the mean of the students' pass rates. */
  lemma {:induction false} CohortPassRate(df: seq<PreparedRow>)
    requires |df| > 0
    ensures forall id :: id in StudentIds(Rows(df)) ==> id in IdColumn(Rows(df))
    ensures |StudentIds(Rows(df))| > 0
    ensures ComputeOverallMetrics(df).passRate == Mean(PassRates(df, StudentIds(Rows(df))))
  {
    assert Rows(df)[0].studentId in IdColumn(Rows(df));
  }

  /** Student 1 passes all their rows, student 2 none of theirs. */
  lemma {:induction false} MixedRates(df: seq<PreparedRow>)
    requires OnePassingOneFailing(df)
    ensures PassRates(df, StudentIds(Rows(df))) == [100.0, 0.0]
  {
    MixedIds(df);
    assert 1 in StudentIds(Rows(df)) && 2 in StudentIds(Rows(df));
    UniformPassRate(df, 1, true);
    UniformPassRate(df, 2, false);
  }

  lemma {:induction false} HalfOfHundred()
    ensures Mean([100.0, 0.0]) == 50.0
  {
    assert [100.0, 0.0][1..] == [0.0];
  }

  /** The `is_passing` column as percentages, row by row. */
  function RowPassPercents(df: seq<PreparedRow>): (r: seq<real>)
    ensures |r| == |df|
    ensures forall i :: 0 <= i < |df| ==> r[i] == if df[i].isPassing then 100.0 else 0.0
  {
    seq(|df|, i requires 0 <= i < |df| => if df[i].isPassing then 100.0 else 0.0)
  }

  lemma {:induction false} ThreeQuarters()
    ensures Mean([100.0, 100.0, 100.0, 0.0]) == 75.0
  {
    var xs := [100.0, 100.0, 100.0, 0.0];
    assert xs[1..] == [100.0, 100.0, 0.0] && xs[1..][1..] == [100.0, 0.0] && xs[1..][1..][1..] == [0.0];
  }

  /** Averaging the rows instead would give 75. */
  lemma {:induction false} RowLevelPassRate(df: seq<PreparedRow>)
    requires OnePassingOneFailing(df)
    ensures Mean(RowPassPercents(df)) == 75.0
  {
    assert RowPassPercents(df) == [100.0, 100.0, 100.0, 0.0];
    ThreeQuarters();
  }

  /** The pass rate averages the students, not the rows: with three passing
      rows of student 1 and one failing row of student 2 it is 50, not the 75
      a row-level mean would give. */
  lemma {:induction false} PassRateWeighsStudents(df: seq<PreparedRow>)
    requires OnePassingOneFailing(df)
    ensures ComputeOverallMetrics(df).passRate == 50.0
    ensures ComputeOverallMetrics(df).failRate == 50.0
    ensures Mean(RowPassPercents(df)) == 75.0
  {
    RowLevelPassRate(df);
    CohortPassRate(df);
    MixedRates(df);
    HalfOfHundred();
  }
}
