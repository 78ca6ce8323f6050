/** The dashboard's input table: one row per student per assessment, and the
    column projections and groupings (by student, by course, by assessment
    number) that the scorer and the cohort metrics are built from. */
module Records {

  /** One input row. Column names follow the dataset's schema. */
  datatype Row = Row(
    studentId: int,
    studentName: string,
    classLevel: string,
    courseName: string,
    assessmentNo: int,
    assessmentScore: real,
    attendanceRate: real,
    raisedHandCount: real,
    moodleViews: int,
    resourcesDownloads: int)

  // ---------------------------------------------------------------- columns

  function Scores(rows: seq<Row>): (r: seq<real>)
    ensures |r| == |rows|
    ensures forall i :: 0 <= i < |rows| ==> r[i] == rows[i].assessmentScore
  {
    if rows == [] then [] else [rows[0].assessmentScore] + Scores(rows[1..])
  }

  function AttendanceRates(rows: seq<Row>): (r: seq<real>)
    ensures |r| == |rows|
    ensures forall i :: 0 <= i < |rows| ==> r[i] == rows[i].attendanceRate
  {
    if rows == [] then [] else [rows[0].attendanceRate] + AttendanceRates(rows[1..])
  }

  function RaisedHands(rows: seq<Row>): (r: seq<real>)
    ensures |r| == |rows|
    ensures forall i :: 0 <= i < |rows| ==> r[i] == rows[i].raisedHandCount
  {
    if rows == [] then [] else [rows[0].raisedHandCount] + RaisedHands(rows[1..])
  }

  lemma {:induction false} ScoresAppend(a: seq<Row>, b: seq<Row>)
    ensures Scores(a + b) == Scores(a) + Scores(b)
  {
    assert Scores(a + b) == Scores(a) + Scores(b);
  }

  lemma {:induction false} AttendanceRatesAppend(a: seq<Row>, b: seq<Row>)
    ensures AttendanceRates(a + b) == AttendanceRates(a) + AttendanceRates(b)
  {
    assert AttendanceRates(a + b) == AttendanceRates(a) + AttendanceRates(b);
  }

  // ------------------------------------------------------ grouping by course

  /** The distinct course names present (the keys of a group-by on course). */
  function CourseSet(rows: seq<Row>): set<string>
  {
    if rows == [] then {} else {rows[0].courseName} + CourseSet(rows[1..])
  }

  /** The scores of one course's group, in row order. */
  function CourseScores(rows: seq<Row>, course: string): (r: seq<real>)
    ensures |r| > 0 <==> course in CourseSet(rows)
  {
    if rows == [] then []
    else (if rows[0].courseName == course then [rows[0].assessmentScore] else []) + CourseScores(rows[1..], course)
  }

  /** A lower bound on every row's score bounds every course group's scores. */
  lemma {:induction false} CourseScoresAtLeast(rows: seq<Row>, course: string, lo: real)
    requires forall i :: 0 <= i < |rows| ==> lo <= rows[i].assessmentScore
    ensures forall j :: 0 <= j < |CourseScores(rows, course)| ==> lo <= CourseScores(rows, course)[j]
  {
    if rows != [] {
      CourseScoresAtLeast(rows[1..], course, lo);
    }
  }

  // ------------------------------------------- grouping by assessment number

  /** The distinct assessment numbers present. */
  function AssessmentNoSet(rows: seq<Row>): set<int>
  {
    if rows == [] then {} else {rows[0].assessmentNo} + AssessmentNoSet(rows[1..])
  }

  /** The scores of one assessment number's group, in row order. */
  function ScoresAt(rows: seq<Row>, no: int): (r: seq<real>)
    ensures |r| > 0 <==> no in AssessmentNoSet(rows)
  {
    if rows == [] then []
    else (if rows[0].assessmentNo == no then [rows[0].assessmentScore] else []) + ScoresAt(rows[1..], no)
  }

  /** The smallest assessment number: the first key of the ascending group-by. */
  function FirstAssessmentNo(rows: seq<Row>): (k: int)
    requires |rows| > 0
    ensures k in AssessmentNoSet(rows)
  {
    if |rows| == 1 then rows[0].assessmentNo
    else
      var rest := FirstAssessmentNo(rows[1..]);
      if rows[0].assessmentNo <= rest then rows[0].assessmentNo else rest
  }

  /** The largest assessment number: the last key of the ascending group-by. */
  function LastAssessmentNo(rows: seq<Row>): (k: int)
    requires |rows| > 0
    ensures k in AssessmentNoSet(rows)
  {
    if |rows| == 1 then rows[0].assessmentNo
    else
      var rest := LastAssessmentNo(rows[1..]);
      if rows[0].assessmentNo >= rest then rows[0].assessmentNo else rest
  }

  /** No assessment number present is below the first one. */
  lemma {:induction false} FirstIsSmallest(rows: seq<Row>, no: int)
    requires |rows| > 0
    requires no in AssessmentNoSet(rows)
    ensures FirstAssessmentNo(rows) <= no
  {
    if |rows| > 1 && no != rows[0].assessmentNo {
      FirstIsSmallest(rows[1..], no);
    }
  }

  /** No assessment number present is above the last one. */
  lemma {:induction false} LastIsLargest(rows: seq<Row>, no: int)
    requires |rows| > 0
    requires no in AssessmentNoSet(rows)
    ensures no <= LastAssessmentNo(rows)
  {
    if |rows| > 1 && no != rows[0].assessmentNo {
      LastIsLargest(rows[1..], no);
    }
  }

  /** There are at least two distinct assessment numbers exactly when the
      first and the last of them differ. */
  lemma {:induction false} TwoAssessmentsIffEndsDiffer(rows: seq<Row>)
    requires |rows| > 0
    ensures |AssessmentNoSet(rows)| >= 2 <==> FirstAssessmentNo(rows) != LastAssessmentNo(rows)
  {
    var s := AssessmentNoSet(rows);
    var first, last := FirstAssessmentNo(rows), LastAssessmentNo(rows);
    if first != last {
      assert {first, last} <= s;
      assert |{first, last}| == 2;
      SubsetCardinality({first, last}, s);
    } else {
      forall no | no in s
        ensures no == first
      {
        FirstIsSmallest(rows, no);
        LastIsLargest(rows, no);
      }
      assert s <= {first};
      SubsetCardinality(s, {first});
    }
  }

  lemma {:induction false} SubsetCardinality<T>(a: set<T>, b: set<T>)
    requires a <= b
    ensures |a| <= |b|
  {
    assert b == a + (b - a);
  }

  lemma {:induction false} AssessmentNoSetAppend(a: seq<Row>, b: seq<Row>)
    ensures AssessmentNoSet(a + b) == AssessmentNoSet(a) + AssessmentNoSet(b)
  {
    if a == [] {
      assert a + b == b;
    } else {
      assert (a + b)[1..] == a[1..] + b;
      AssessmentNoSetAppend(a[1..], b);
    }
  }

  lemma {:induction false} ScoresAtAppend(a: seq<Row>, b: seq<Row>, no: int)
    ensures ScoresAt(a + b, no) == ScoresAt(a, no) + ScoresAt(b, no)
  {
    if a == [] {
      assert a + b == b;
    } else {
      assert (a + b)[1..] == a[1..] + b;
      ScoresAtAppend(a[1..], b, no);
    }
  }

  // ----------------------------------------------------- grouping by student

  function IdColumn(rows: seq<Row>): (r: seq<int>)
    ensures |r| == |rows|
    ensures forall i :: 0 <= i < |rows| ==> r[i] == rows[i].studentId
  {
    if rows == [] then [] else [rows[0].studentId] + IdColumn(rows[1..])
  }

  predicate StrictlyIncreasing(xs: seq<int>)
  {
    forall i, j :: 0 <= i < j < |xs| ==> xs[i] < xs[j]
  }

  /** Inserts a key into a strictly increasing sequence of keys, keeping it so. */
  function InsertKey(xs: seq<int>, x: int): (r: seq<int>)
    requires StrictlyIncreasing(xs)
    ensures StrictlyIncreasing(r)
    ensures forall y :: y in r <==> y in xs || y == x
  {
    if xs == [] then [x]
    else if x < xs[0] then [x] + xs
    else if x == xs[0] then xs
    else
      var tail := InsertKey(xs[1..], x);
      HeadBelowTail(xs, x, tail);
      [xs[0]] + tail
  }

  /** Putting the head of `xs` back in front of the insertion into its tail
      keeps the keys increasing and holds `xs` and `x`. */
  lemma {:induction false} HeadBelowTail(xs: seq<int>, x: int, tail: seq<int>)
    requires StrictlyIncreasing(xs) && xs != [] && xs[0] < x
    requires StrictlyIncreasing(tail)
    requires forall y :: y in tail <==> y in xs[1..] || y == x
    ensures StrictlyIncreasing([xs[0]] + tail)
    ensures forall y :: y in [xs[0]] + tail <==> y in xs || y == x
  {
    var h := xs[0];
    forall y | y in tail
      ensures h < y
    {
      if y != x {
        var j :| 0 <= j < |xs[1..]| && xs[1..][j] == y;
        assert xs[j + 1] == y;
      }
    }
    var r := [h] + tail;
    forall i, j | 0 <= i < j < |r|
      ensures r[i] < r[j]
    {
      assert r[j] == tail[j - 1];
      if i == 0 {
        assert tail[j - 1] in tail;
      } else {
        assert r[i] == tail[i - 1];
      }
    }
    assert xs == [h] + xs[1..];
  }

  /** The distinct values of a key column in ascending order: the index of a
      group-by on that column. */
  function SortedKeys(xs: seq<int>): (r: seq<int>)
    ensures StrictlyIncreasing(r)
    ensures forall y :: y in r <==> y in xs
  {
    if xs == [] then [] else InsertKey(SortedKeys(xs[1..]), xs[0])
  }

  /** The distinct student ids, ascending. */
  function StudentIds(rows: seq<Row>): (r: seq<int>)
    ensures StrictlyIncreasing(r)
    ensures forall id :: id in r <==> id in IdColumn(rows)
  {
    SortedKeys(IdColumn(rows))
  }

  /** The rows of one student, in table order (`df[df.student_id == id]`). */
  function RowsOfStudent(rows: seq<Row>, id: int): (r: seq<Row>)
    ensures |r| > 0 <==> id in IdColumn(rows)
    ensures |r| <= |rows|
    ensures forall i :: 0 <= i < |r| ==> r[i].studentId == id
  {
    if rows == [] then []
    else (if rows[0].studentId == id then [rows[0]] else []) + RowsOfStudent(rows[1..], id)
  }

  /** The rows of a student in a concatenation are theirs in the first part
      followed by theirs in the second: the selection keeps the input order. */
  lemma {:induction false} RowsOfStudentAppend(a: seq<Row>, b: seq<Row>, id: int)
    ensures RowsOfStudent(a + b, id) == RowsOfStudent(a, id) + RowsOfStudent(b, id)
  {
    if a == [] {
      assert a + b == b;
    } else {
      var head := if a[0].studentId == id then [a[0]] else [];
      assert (a + b)[0] == a[0] && (a + b)[1..] == a[1..] + b;
      RowsOfStudentAppend(a[1..], b, id);
      calc {
        RowsOfStudent(a + b, id);
        head + RowsOfStudent(a[1..] + b, id);
        head + (RowsOfStudent(a[1..], id) + RowsOfStudent(b, id));
        (head + RowsOfStudent(a[1..], id)) + RowsOfStudent(b, id);
      }
    }
  }

  /** The selection holds every row of the student exactly as often as the
      table does, and no other row. */
  lemma {:induction false} RowsOfStudentSelects(rows: seq<Row>, id: int)
    ensures forall x :: multiset(RowsOfStudent(rows, id))[x] ==
                        (if x.studentId == id then multiset(rows)[x] else 0)
  {
    if rows != [] {
      RowsOfStudentSelects(rows[1..], id);
      assert rows == [rows[0]] + rows[1..];
      assert multiset(rows) == multiset([rows[0]]) + multiset(rows[1..]);
    }
  }
}
