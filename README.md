# Student Performance Index: a verified model

This project models the scoring core of a student-performance dashboard.
The dashboard reads a table with one row per student per assessment. It
scores every student with a **Student Performance Index (SPI)**: 60% mean
score, 25% mean attendance and 15% raised-hand engagement (30 hands count as
100, capped at 100). From that base it subtracts:

- a step penalty for failed courses: 0, 5, or 10 for two or more;
- 5 points when the mean of the last assessment number is more than 10
  points below the mean of the first.

The result is clamped to [0, 100] and placed in one of four tiers: EXCELLENT,
SATISFACTORY, AT RISK and CRITICAL. The model also covers three more
pieces:

- the cohort table, which scores every distinct student and flags those at
  risk;
- preprocessing, which trims three text columns and adds `is_passing` and
  `engagement_score`;
- the cohort headline metrics: the overall mean score, the per-student pass
  rate and its complement, and mean attendance.

Modules:

- `Stats` (`stats.dfy`): sums and means over exact reals, their bounds, and
  the mean of a concatenation.
- `Records` (`records.dfy`): the input row and its columns. It also holds
  the group-bys the scorer uses: by course, by assessment number (with its
  first and last keys), and by student (the distinct ids in ascending
  order).
- `Text` (`text.dfy`): Python's `str.strip()` over the characters
  `str.isspace()` accepts.
- `Spi` (`spi.dfy`): the tiers, the scorer `CalculateStudentPerformanceIndex`,
  and the imperative table builder `BuildStudentSpiTable`.
- `Data` (`data.dfy`): the imperative `Preprocess` and the pure
  `ComputeOverallMetrics`.
- `SpiExamples` (`examples.dfy`): worked cases on concrete rows.

Arithmetic is exact (`real`). The passing score, a configuration constant
in the program, is a parameter. Every mean is taken over a non-empty group,
so the scorer and the metrics require a non-empty table.

## Model

| member | source | states |
|---|---|---|
| Spi.CalculateStudentPerformanceIndex | app/spi.py:5-69 | The score lies in [0, 100]. It is the clamp of base − failure penalty − trend penalty. The base is exactly the sum of the three components, and the engagement component is the normalised engagement × 0.15, so at most 15. The penalties are the step functions of the failed-course count and of the trend. The status is the tier of the score, and the colour is that tier's palette key. |
| Spi.SpiInputs | app/spi.py:7-40 | The academic component is mean score × 0.60 and the attendance component is mean attendance × 0.25. Normalised engagement comes from the mean raised hands. The failed-course count is the number of failed courses, and the trend is `PerformanceTrend` of the rows. |
| Spi.BaseSpiInRange | app/spi.py:7-19 | With scores and attendance in [0, 100] and no negative hand counts, the base SPI lies in [0, 100]. |
| Spi.NormalizedEngagement | app/spi.py:15-16 | Never above 100. It equals mean/30 × 100 up to 30 hands and is exactly 100 from 30 hands on. It is non-negative for a non-negative mean. |
| Spi.FailurePenalty | app/spi.py:25-30 | 0 iff no course failed, 5 iff exactly one failed, 10 iff two or more failed. |
| Spi.TrendPenalty | app/spi.py:34-43 | 5 iff the change is strictly below −10, otherwise 0. |
| Spi.Clamp | app/spi.py:46 | The result lies in [0, 100]. It is the input when the input is in range, 0 below the range and 100 above it. |
| Spi.FailedCourses | app/spi.py:22-23 | Only courses that occur in the rows can be failed. |
| Spi.FailedAmong | app/spi.py:22-23 | A scan over part of the rows fails only courses that occur in that part. |
| Spi.FailedCoursesMembers | app/spi.py:22-23 | A course is failed iff it occurs in the rows and its mean score is strictly below the passing score. |
| Spi.FailedAmongMembers | app/spi.py:22-23 | The same membership law for the scan over any part of the rows, which counts each distinct course once. |
| Spi.FailedCoursesBound | app/spi.py:22-23 | There are never more failed courses than distinct courses. |
| Spi.FailedCoursesMonotone | app/spi.py:22-23 | Raising the passing score can only add failed courses, and never lowers their count. |
| Spi.NoFailedCourseWhenAllPass | app/spi.py:22-30 | When every row reaches the passing score no course is failed, and the failure penalty is 0. |
| Spi.PerformanceTrend | app/spi.py:33-40 | The trend is the mean score at the last assessment number minus the mean at the first. With a single assessment number the two coincide and the trend is 0. |
| Spi.TrendOfEnds | app/spi.py:33-40 | The trend is 0 when the smallest and largest assessment numbers coincide. Otherwise it is the mean at the largest minus the mean at the smallest. |
| Spi.IntermediateAssessmentsIgnored | app/spi.py:37-40 | Adding rows whose assessment numbers lie strictly between the first and the last leaves the trend unchanged. |
| Spi.AssessmentNosBetween | app/spi.py:33 | Rows with numbers strictly inside (lo, hi) only contribute group keys inside (lo, hi). |
| Spi.Classify | app/spi.py:48-56 | Each tier holds iff the score is in its band: ≥ 80, [65, 80), [50, 65), < 50. The bands partition the reals. |
| Spi.ClassifyMonotone | app/spi.py:48-56 | A lower score never gets a better tier. |
| Spi.Status.Label | app/spi.py:49-56 | The label is one of EXCELLENT, SATISFACTORY, AT RISK and CRITICAL. |
| Spi.Status.PaletteKey | app/spi.py:49-56 | The palette key is one of dark_green, amber, deep_orange and dark_red. |
| Spi.Status.IsAtRisk | app/spi.py:95 | The at-risk test holds iff the label is AT RISK or CRITICAL. |
| Spi.LabelsDistinct | app/spi.py:49-56 | Two tiers have the same label iff they are the same tier. |
| Spi.AtRiskIffBelow65 | app/spi.py:95 | The status is AT RISK or CRITICAL iff the score is below 65. |
| Spi.AverageOf | app/spi.py:73-83 | The aggregate row of a student carries that student's id. |
| Spi.AveragesFor | app/spi.py:73-83 | One aggregate row per listed id, each the aggregates of that id. |
| Spi.StudentAverages | app/spi.py:73-83 | One aggregate row per distinct id in ascending order, each the aggregates of that id. |
| Spi.AverageKeys | app/spi.py:73-83 | The aggregate rows are keyed by the distinct ids in ascending order, and each id occurs in the input. |
| Spi.ScoreRow | app/spi.py:87-90 | The score row of a student carries that student's id. |
| Spi.ScoreEach | app/spi.py:85-92 | One score row per aggregate row. |
| Spi.ScoreEachAt | app/spi.py:86-91 | Entry k of the list is the scorer applied to the student of aggregate row k. |
| Spi.ScoreEachIds | app/spi.py:86-91 | Score row k carries the id of aggregate row k: both lists hold the same ids in the same order. |
| Spi.ScoreStudents | app/spi.py:85-92 | The loop builds exactly the list of score rows, in aggregate-row order, each from scoring that student's rows alone. |
| Spi.MergeScores | app/spi.py:93-94 | The left merge keeps the aggregate rows: one merged row per aggregate row, row k holding aggregate row k unchanged. |
| Spi.MergeOnStudentId | app/spi.py:93-95 | With distinct aggregate ids, every aggregate row finds a score row with its `student_id`. The merged row takes exactly that row's score, status and colour. `at_risk` holds iff the status is AT RISK or CRITICAL. |
| Spi.MergedEntry | app/spi.py:93-95 | Merging a student's aggregates with that student's score row gives their cohort entry, flagged exactly below 65. |
| Spi.MergedEntries | app/spi.py:93-95 | Every merged row is the entry of its student, and is at risk iff its score is below 65. |
| Spi.TableKeys | app/spi.py:73-83 | A table keyed by the ascending distinct ids has strictly increasing ids. It contains a student iff the student occurs in the input. |
| Spi.BuildStudentSpiTable | app/spi.py:72-96 | One row per distinct student id, ascending, with no student missing or repeated. Each row holds the student's aggregates and exactly the score, status and colour that scoring the student's own rows gives. `at_risk` is true iff the status is AT RISK or CRITICAL, iff the score is below 65. |
| Records.Scores | app/spi.py:7 | The score column, row by row. |
| Records.AttendanceRates | app/spi.py:11 | The attendance column, row by row. |
| Records.RaisedHands | app/spi.py:15 | The raised-hand column, row by row. |
| Records.CourseScores | app/spi.py:22 | A course's score group is non-empty iff the course occurs. |
| Records.CourseScoresAtLeast | app/spi.py:22 | A lower bound on every score bounds each course group. |
| Records.ScoresAt | app/spi.py:33 | An assessment number's score group is non-empty iff the number occurs. |
| Records.FirstAssessmentNo | app/spi.py:38 | The first key of the ascending group-by on assessment number occurs in the rows. |
| Records.LastAssessmentNo | app/spi.py:39 | The last key of the ascending group-by on assessment number occurs in the rows. |
| Records.FirstIsSmallest | app/spi.py:38 | No assessment number present is below the first key. |
| Records.LastIsLargest | app/spi.py:39 | No assessment number present is above the last key. |
| Records.TwoAssessmentsIffEndsDiffer | app/spi.py:37 | There are two or more distinct assessment numbers iff the first and last keys differ. |
| Records.AssessmentNoSetAppend | app/spi.py:33 | The group keys of stacked rows are the union of the keys. |
| Records.ScoresAtAppend | app/spi.py:33 | A group of stacked rows is the first table's group followed by the second's. |
| Records.ScoresAppend | app/data.py:25 | The score column of stacked rows is the two columns stacked. |
| Records.AttendanceRatesAppend | app/data.py:28 | The attendance column of stacked rows is the two columns stacked. |
| Records.IdColumn | app/spi.py:86 | The id column, row by row. |
| Records.InsertKey | app/spi.py:74 | Inserting a key into an ascending duplicate-free key list keeps it ascending and duplicate-free, with exactly the old keys plus the new one. |
| Records.SortedKeys | app/spi.py:74 | The group-by keys are strictly ascending and are exactly the values present. |
| Records.StudentIds | app/spi.py:74-82 | The distinct student ids, strictly ascending, are exactly the ids present. |
| Records.RowsOfStudent | app/spi.py:87 | The selection is non-empty iff the id occurs, is no longer than the table, and holds only that student's rows. |
| Records.RowsOfStudentSelects | app/spi.py:87 | Each row of the student occurs in the selection exactly as often as in the table, and no other row occurs. |
| Records.RowsOfStudentAppend | app/spi.py:87 | The selection keeps the table's order: selecting from stacked tables gives the two selections stacked. |
| Stats.SumAppend | app/data.py:25 | The sum over stacked columns is the sum of the sums. |
| Stats.SumAtLeast | app/data.py:25 | A lower bound on every value, times the count, bounds the sum from below. |
| Stats.SumAtMost | app/data.py:25 | An upper bound on every value, times the count, bounds the sum from above. |
| Stats.ScaledMean | app/spi.py:7 | The mean times the count is the sum. |
| Stats.MeanAtLeast | app/spi.py:7 | A mean is at least any lower bound of its values. |
| Stats.MeanAtMost | app/spi.py:7 | A mean is at most any upper bound of its values. |
| Stats.MeanWithin | app/data.py:26 | A mean of values in [lo, hi] lies in [lo, hi]. |
| Stats.MeanAppend | app/data.py:25 | The mean of stacked columns is the count-weighted average of their means. |
| Text.StripLeading | app/data.py:16 | It removes only a whitespace prefix, and the result does not start with whitespace. |
| Text.StripTrailing | app/data.py:16 | It removes only a whitespace suffix, and the result does not end with whitespace. |
| Text.Strip | app/data.py:16 | The result has whitespace at neither end. |
| Text.StripKeepsClean | app/data.py:16 | A string without edge whitespace is left unchanged. |
| Text.StripIdempotent | app/data.py:16 | Stripping twice is stripping once. |
| Text.StripUnique | app/data.py:16 | Whitespace, then a piece without edge whitespace, then whitespace, strips to exactly that piece. |
| Data.StripColumn | app/data.py:14-16 | The stripped column has no edge whitespace. The other text columns and every non-text column are unchanged. |
| Data.StripColumns | app/data.py:14-16 | Each listed column has no edge whitespace. Unlisted text columns and every non-text column are unchanged. |
| Data.TrimRow | app/data.py:14-16 | The three text columns have no edge whitespace, and every other column is unchanged. |
| Data.StripEachColumn | app/data.py:14-16 | Stripping the three columns one after the other, in the loop's order, is `TrimRow`. |
| Data.TrimRowIdempotent | app/data.py:14-16 | Trimming a trimmed row changes nothing. |
| Data.Preprocess | app/data.py:11-21 | Same number of rows, same order. Each row is the input row with its text columns trimmed. `is_passing` holds iff score ≥ passing score. `engagement_score` is raised hands + Moodle views + downloads. |
| Data.Rows | app/data.py:25 | The original columns of the prepared rows, in order. |
| Data.PassFlags | app/data.py:26 | A student's `is_passing` group is non-empty iff the student occurs. |
| Data.StudentPassRate | app/data.py:26 | A student's pass percentage lies in [0, 100]. |
| Data.PassRates | app/data.py:26 | One pass percentage per listed student, in order. |
| Data.ComputeOverallMetrics | app/data.py:24-35 | The pass rate and the fail rate both lie in [0, 100] and sum to exactly 100. |
| Data.CountTrue | app/data.py:26 | The count is the number of `True` flags, at most the number of flags. |
| Data.CountAllTrue | app/data.py:26 | All flags true means the count of true flags is the length. |
| Data.CountNoneTrue | app/data.py:26 | No flag true means the count is 0. |
| Data.PassFlagsOf | app/data.py:26 | A student whose rows all have one `is_passing` value has only that value in their group. |
| Data.UniformPassRate | app/data.py:26 | A student all of whose rows pass has pass rate 100. One none of whose rows pass has 0, whatever the other students' rows. |
| Data.AllPassingMeansFullPassRate | app/data.py:26-27 | Every row passing gives pass rate 100 and fail rate 0. |
| Data.NonePassingMeansZeroPassRate | app/data.py:26-27 | No row passing gives pass rate 0 and fail rate 100. |
| Data.RowsAppend | app/data.py:25 | The rows of stacked tables are the two tables' rows stacked. |
| Data.RowColumnsAppend | app/data.py:25-28 | The score and attendance columns of stacked tables are the columns stacked. |
| Data.RowMeansAppend | app/data.py:25-28 | The mean score and mean attendance of stacked tables are the row-count-weighted averages of the two tables' means. |
| Data.OverallMeansWeightRows | app/data.py:25-28 | `overall_avg` and `avg_attendance` weight rows equally: over two stacked tables they are the row-count-weighted averages of each table's figure. |
| SpiExamples.EngagementCapped | app/spi.py:15-17 | A mean of 45 raised hands normalises to 100 and contributes exactly 15. |
| SpiExamples.EngagementHalf | app/spi.py:16 | A mean of 15 raised hands normalises to 50. |
| SpiExamples.FailurePenaltySteps | app/spi.py:25-30 | The failure penalty for 0, 1, 2 and 7 failed courses is 0, 5, 10 and 10. |
| SpiExamples.TrendPenaltyBoundary | app/spi.py:42-43 | A drop of exactly 10 is not penalised, a drop of 10.5 is, and a rise is not. |
| SpiExamples.TierEdges | app/spi.py:48-56 | 80 is EXCELLENT, 79.99 and 65 are SATISFACTORY, 63 is AT RISK (and flagged), and 49.9 is CRITICAL. |
| SpiExamples.SingleRowScore | app/spi.py:5-69 | One row (95, 90%, 30 hands) scores 94.5 and is EXCELLENT. |
| SpiExamples.DecliningMeans | app/spi.py:7-15 | For the declining student: mean score 70, mean attendance 100, mean hands 30. |
| SpiExamples.DecliningPassesMath | app/spi.py:22-23 | The course mean of 70 passes at 60, so no course is failed. |
| SpiExamples.DecliningTrend | app/spi.py:33-40 | Assessments 1 then 2, at 80 then 60, give a trend of −20. |
| SpiExamples.DecliningTrendScore | app/spi.py:5-69 | The base is 82 and the −20 trend costs 5, so the SPI is 77 and the tier is SATISFACTORY. |
| SpiExamples.MixedRates | app/data.py:26 | Three passing rows of student 1 and one failing row of student 2 give per-student rates 100 and 0. |
| SpiExamples.RowLevelPassRate | app/data.py:26 | On the same table, the mean of the `is_passing` column as percentages is 75. |
| SpiExamples.PassRateWeighsStudents | app/data.py:26-27 | The same table has pass rate 50 and fail rate 50, while the row-level mean of `is_passing` as percentages is 75. |

## Left out

- `load_data` (`app/data.py:6-8`): reading the CSV file behind a Streamlit
  cache. The model starts from a table already in memory.
- The Streamlit pages, the Plotly charts, the HTML helpers, the CSS and the
  application entry point. They are presentation only.
- The status colour values. The palette lives in `app/config.py`, which is
  not part of this model. The score result and the table rows carry the
  tier's palette key (`Status.PaletteKey`) in place of the colour it maps to.
- `PASSING_SCORE`: the constant also lives in `app/config.py`. It is a
  parameter of every operation that uses it.
- Empty tables and empty groups. pandas would give NaN means; the scorer
  and the metrics require at least one row instead.
- Spi.BuildStudentSpiTable: requires a non-empty table. On an empty table
  the list of score rows is empty, so the frame built from it has no
  `student_id` column and the merge raises a `KeyError`; that error is not
  modelled.
- Floating-point rounding: all arithmetic is over exact reals.
- `astype(str)` on the text columns: the columns are strings already, so a
  non-string cell turned into text is not modelled.
- The `if col in df.columns` test in `preprocess`: the row type always has
  the three text columns, so the test always succeeds.
- `df.copy()` in `preprocess`: sequences are values, so the caller's table
  cannot change and no copy is needed.
- Spi.MergeScores: the merge on `student_id` is computed as a pairing by
  position, for score rows that carry the aggregate rows' ids in the same
  order (which Spi.ScoreEachIds shows the loop produces). Spi.MergeOnStudentId
  shows that this pairing is the merge on the id. A merge that finds no
  partner (a NaN score) cannot occur and is not modelled.
- Spi.BuildStudentSpiTable: the aggregate table's column order and the
  pandas index are not modelled.
- Data.ComputeOverallMetrics: `overall_avg` and `avg_attendance` are stated
  through Data.OverallMeansWeightRows and the Stats lemmas rather than in
  its own contract.
