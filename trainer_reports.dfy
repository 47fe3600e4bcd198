/** The trainer's reports page: figures over the trainer's courses, the per-course chart rows,
    the performance distribution, completion and attendance rates, and the two lists that sort
    the page's own arrays in place (students by progress, sessions by date). */
module TrainerReports {
  import opened Seqs
  import opened Sorting
  import opened Rounding
  import opened Text
  import opened Types
  import opened Scoping

  /** The course selector: `"all"` keeps every trainer course, any other value keeps the courses
      with that id. */
  function FilteredCourses(trainerCourses: seq<Course>, selected: string): (r: seq<Course>)
    ensures selected == "all" ==> r == trainerCourses
    ensures forall i :: 0 <= i < |r| ==> r[i] in trainerCourses
    ensures selected != "all" ==> forall i :: 0 <= i < |r| ==> r[i].id == selected
    ensures forall i :: 0 <= i < |trainerCourses| && trainerCourses[i].id == selected ==> trainerCourses[i] in r
  {
    if selected == "all" then trainerCourses
    else Filter(trainerCourses, (c: Course) => c.id == selected)
  }

  /** A course title on the chart axis: at most 15 characters, longer titles cut to their first
      15 characters followed by `...`. */
  function ChartLabel(title: string): (r: string)
    ensures |r| <= 18
    ensures |title| <= 15 ==> r == title
    ensures |title| > 15 ==> |r| == 18 && r[..15] == title[..15] && r[15..] == "..."
  {
    if |title| > 15 then Prefix(title, 15) + "..." else title
  }

  /** The course shown for a trend point: the first 10 characters of the title, or `Unknown` when
      the course is missing or its title is empty. */
  function TrendLabel(course: Option<Course>): (r: string)
    ensures r != [] && |r| <= 10
    ensures course.Some? && course.value.title != [] ==> r == Prefix(course.value.title, 10)
    ensures course.None? || course.value.title == [] ==> r == "Unknown"
  {
    if course.Some? && Prefix(course.value.title, 10) != [] then Prefix(course.value.title, 10)
    else "Unknown"
  }

  datatype PerformanceRow = PerformanceRow(name: string, enrollment: nat, avgProgress: nat, capacity: nat)

  /** One bar of the performance chart. */
  function PerformanceRowOf(course: Course, enrollments: seq<Enrollment>): PerformanceRow
  {
    var ce := CourseEnrollments(enrollments, course.id);
    PerformanceRow(ChartLabel(course.title), |ce|, RoundedMean(ProgressTotal(ce), |ce|), course.maxCapacity)
  }

  /** The performance chart: one bar per filtered course, in order, labelled with the course's
      chart label and counting no more enrollments than there are. */
  function PerformanceData(filteredCourses: seq<Course>, enrollments: seq<Enrollment>): (r: seq<PerformanceRow>)
    ensures |r| == |filteredCourses|
    ensures forall i :: 0 <= i < |r| ==> r[i].name == ChartLabel(filteredCourses[i].title)
                                         && r[i].enrollment <= |enrollments|
                                         && r[i].capacity == filteredCourses[i].maxCapacity
  {
    Map(filteredCourses, (c: Course) => PerformanceRowOf(c, enrollments))
  }

  /** With progress values within 0..100, every chart row's average is too, and its enrollment
      count is at most the number of enrollments. */
  lemma PerformanceRowBounded(course: Course, enrollments: seq<Enrollment>)
    requires forall i :: 0 <= i < |enrollments| ==> enrollments[i].progress <= 100
    ensures PerformanceRowOf(course, enrollments).avgProgress <= 100
    ensures PerformanceRowOf(course, enrollments).enrollment <= |enrollments|
  {
    var ce := CourseEnrollments(enrollments, course.id);
    MeanAtMost(ce, (e: Enrollment) => e.progress, 100);
  }

  // The four progress ranges of the distribution chart.
  predicate Below50(e: Enrollment) { e.progress < 50 }
  predicate From50To70(e: Enrollment) { e.progress >= 50 && e.progress < 70 }
  predicate From70To85(e: Enrollment) { e.progress >= 70 && e.progress < 85 }
  predicate From85(e: Enrollment) { e.progress >= 85 }

  datatype Distribution = Distribution(low: nat, fair: nat, good: nat, top: nat)

  function PerformanceDistribution(es: seq<Enrollment>): Distribution
  {
    Distribution(Count(es, Below50), Count(es, From50To70), Count(es, From70To85), Count(es, From85))
  }

  /** The four ranges are disjoint and cover every value, so the bars add up to the number of
      enrollments. */
  lemma {:induction false} DistributionTotal(es: seq<Enrollment>)
    ensures var d := PerformanceDistribution(es);
            d.low + d.fair + d.good + d.top == |es|
  {
    if es != [] {
      DistributionTotal(es[1..]);
    }
  }

  predicate Completed80(e: Enrollment) { e.progress >= 80 }

  /** The share of enrollments at 80% progress or more, rounded; 0 with no enrollments. */
  function CompletionRate(es: seq<Enrollment>): nat
  {
    Percent(Count(es, Completed80), |es|)
  }

  lemma CompletionRateBounds(es: seq<Enrollment>)
    ensures CompletionRate(es) <= 100
    ensures es == [] ==> CompletionRate(es) == 0
    ensures es != [] && (forall i :: 0 <= i < |es| ==> es[i].progress >= 80) ==> CompletionRate(es) == 100
  {
    PercentAtMost100(Count(es, Completed80), |es|);
    if forall i :: 0 <= i < |es| ==> es[i].progress >= 80 {
      FilterAll(es, Completed80);
      if |es| > 0 {
        RoundDivExact(100, |es|);
        assert 100 * |es| == 100 * Count(es, Completed80);
      }
    }
  }

  /** Progress 40, 60 and 90 fall in the first, second and fourth range, and one in three of
      them is at 80% or more. */
  lemma DistributionExample(e: Enrollment)
    ensures var es := [e.(progress := 40), e.(progress := 60), e.(progress := 90)];
            && PerformanceDistribution(es) == Distribution(1, 1, 0, 1)
            && CompletionRate(es) == 33
  {
    var a, b, c := e.(progress := 40), e.(progress := 60), e.(progress := 90);
    FilterOfThree(a, b, c, Below50);
    FilterOfThree(a, b, c, From50To70);
    FilterOfThree(a, b, c, From70To85);
    FilterOfThree(a, b, c, From85);
    FilterOfThree(a, b, c, Completed80);
    assert RoundDiv(100, 3) == 33;
  }

  datatype AttendanceRow = AttendanceRow(avgSessionAttendance: nat, rate: nat, good: bool)

  /** The attendance tab's row for one course: the rounded average attendance of its sessions,
      divided by the number of its enrollments as a rounded percentage (0 with none), labelled
      good from 70% up. */
  function CourseAttendance(course: Course, sessions: seq<Session>, enrollments: seq<Enrollment>): (r: AttendanceRow)
    ensures r.good <==> r.rate >= 70
  {
    var cs := CourseSessions(sessions, course.id);
    var ce := CourseEnrollments(enrollments, course.id);
    var avg := MeanAttendance(cs);
    var rate := Percent(avg, |ce|);
    AttendanceRow(avg, rate, rate >= 70)
  }

  /** The rate is 0 for a course without enrollments, and at most 100 when no session of the
      course has more attendees than the course has enrollments. */
  lemma CourseAttendanceBounded(course: Course, sessions: seq<Session>, enrollments: seq<Enrollment>)
    ensures CourseEnrollments(enrollments, course.id) == [] ==> CourseAttendance(course, sessions, enrollments).rate == 0
    ensures (forall s :: s in CourseSessions(sessions, course.id)
               ==> |s.attendance| <= |CourseEnrollments(enrollments, course.id)|)
            ==> CourseAttendance(course, sessions, enrollments).rate <= 100
  {
    var cs := CourseSessions(sessions, course.id);
    var ce := CourseEnrollments(enrollments, course.id);
    if forall s :: s in cs ==> |s.attendance| <= |ce| {
      MeanAttendanceBounded(cs, |ce|);
      PercentAtMost100(MeanAttendance(cs), |ce|);
    }
  }

  datatype CourseSummary = CourseSummary(enrolled: nat, avgProgress: nat, avgPerformance: nat, completionRate: nat)

  /** The performance tab's card for one course. */
  function CourseSummaryOf(course: Course, enrollments: seq<Enrollment>, records: seq<ProgressRecord>): CourseSummary
  {
    var ce := CourseEnrollments(enrollments, course.id);
    var cr := CourseRecords(records, course.id);
    CourseSummary(|ce|, RoundedMean(ProgressTotal(ce), |ce|), RoundedMean(PerformanceTotal(cr), |cr|), CompletionRate(ce))
  }

  /** With progress and performance within 0..100, each figure of the card is too. */
  lemma CourseSummaryBounded(course: Course, enrollments: seq<Enrollment>, records: seq<ProgressRecord>)
    requires forall i :: 0 <= i < |enrollments| ==> enrollments[i].progress <= 100
    requires forall i :: 0 <= i < |records| ==> records[i].performance <= 100
    ensures var c := CourseSummaryOf(course, enrollments, records);
            c.avgProgress <= 100 && c.avgPerformance <= 100 && c.completionRate <= 100
  {
    var ce := CourseEnrollments(enrollments, course.id);
    var cr := CourseRecords(records, course.id);
    MeanAtMost(ce, (e: Enrollment) => e.progress, 100);
    MeanAtMost(cr, (p: ProgressRecord) => p.performance, 100);
    CompletionRateBounds(ce);
  }

  predicate AtRisk(e: Enrollment) { e.progress < 60 }

  /** The students tab: sorts the trainer's enrollments in place by descending progress, shows
      the first 10 as top performers, and then lists, in the new order, those below 60%. */
  method StudentsTab(totalEnrollments: array<Enrollment>) returns (top: seq<Enrollment>, atRisk: seq<Enrollment>)
    modifies totalEnrollments
    ensures totalEnrollments[..] == Sort(old(totalEnrollments[..]), MoreProgress)
    ensures top == Take(totalEnrollments[..], 10)
    ensures atRisk == Filter(totalEnrollments[..], AtRisk)
  {
    SortInPlace(totalEnrollments, MoreProgress);
    top := Take(totalEnrollments[..], 10);
    atRisk := Filter(totalEnrollments[..], AtRisk);
  }

  /** The top performers have at least the progress of every enrollment not shown, and the
      sorted array holds the same enrollments as before. */
  lemma TopPerformersAreBest(es: seq<Enrollment>)
    ensures var sorted := Sort(es, MoreProgress);
            var top := Take(sorted, 10);
            && multiset(sorted) == multiset(es)
            && forall i, j :: 0 <= i < |top| <= j < |sorted| ==> top[i].progress >= sorted[j].progress
  {
    MoreProgressPreorder();
    SortSortedAll(es, MoreProgress);
  }

  /** The at-risk list read after the sort is ordered by descending progress and holds exactly
      the enrollments below 60%. */
  lemma AtRiskAfterSort(es: seq<Enrollment>)
    ensures var atRisk := Filter(Sort(es, MoreProgress), AtRisk);
            && SortedAll(atRisk, MoreProgress)
            && multiset(atRisk) == multiset(Filter(es, AtRisk))
  {
    var sorted := Sort(es, MoreProgress);
    MoreProgressPreorder();
    SortSortedAll(es, MoreProgress);
    FilterSortedAll(sorted, AtRisk, MoreProgress);
    forall x ensures multiset(Filter(sorted, AtRisk))[x] == multiset(Filter(es, AtRisk))[x] {
      FilterMultiset(sorted, AtRisk, x);
      FilterMultiset(es, AtRisk, x);
    }
  }

  datatype TrendPoint = TrendPoint(date: int, attendance: nat, course: string)

  /** One point of the trend chart: the session's date and attendee count, labelled with the
      first 10 characters of the title of the first trainer course with the session's course id,
      or `Unknown` when there is none or its title is empty. */
  function TrendPointOf(s: Session, trainerCourses: seq<Course>): (r: TrendPoint)
    ensures r.date == s.date && r.attendance == |s.attendance|
    ensures r.course != [] && |r.course| <= 10
    ensures r.course == TrendLabel(CourseById(trainerCourses, s.courseId))
    ensures !HasCourse(trainerCourses, s.courseId) ==> r.course == "Unknown"
    ensures forall i :: 0 <= i < |trainerCourses| && trainerCourses[i].id == s.courseId
                        && (forall j :: 0 <= j < i ==> trainerCourses[j].id != s.courseId)
                        ==> r.course == TrendLabel(Some(trainerCourses[i]))
  {
    FirstCourseIsFound(trainerCourses, s.courseId);
    TrendPoint(s.date, |s.attendance|, TrendLabel(CourseById(trainerCourses, s.courseId)))
  }

  /** The attendance trend: sorts the trainer's sessions in place by ascending date and charts
      the last 10. */
  method AttendanceTrend(totalSessions: array<Session>, trainerCourses: seq<Course>) returns (points: seq<TrendPoint>)
    modifies totalSessions
    ensures totalSessions[..] == Sort(old(totalSessions[..]), EarlierSession)
    ensures points == Map(Last(totalSessions[..], 10), (s: Session) => TrendPointOf(s, trainerCourses))
  {
    SortInPlace(totalSessions, EarlierSession);
    points := Map(Last(totalSessions[..], 10), (s: Session) => TrendPointOf(s, trainerCourses));
  }

  /** The trend shows the latest sessions, oldest first: at most 10, in date order, none of them
      earlier than a session left out. */
  lemma TrendShowsLatest(sessions: seq<Session>)
    ensures var sorted := Sort(sessions, EarlierSession);
            var shown := Last(sorted, 10);
            && |shown| == (if |sessions| < 10 then |sessions| else 10)
            && SortedAll(shown, EarlierSession)
            && forall i, j :: 0 <= i < |sorted| - |shown| && 0 <= j < |shown| ==> sorted[i].date <= shown[j].date
  {
    EarlierSessionPreorder();
    SortSortedAll(sessions, EarlierSession);
    LastOfSortedAll(Sort(sessions, EarlierSession), 10, EarlierSession);
  }
}
