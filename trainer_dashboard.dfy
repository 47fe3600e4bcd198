/** The trainer dashboard component: its own scoping to the trainer with id "2", the student
    count, the average attendance figure, the upcoming sessions and the attendance tab's rates. */
module TrainerDashboard {
  import opened Seqs
  import opened Sorting
  import opened Rounding
  import opened Types
  import opened Scoping

  /** The component ignores the current user: its trainer id is fixed. */
  const DashboardTrainer: Id := "2"

  function MyCourses(courses: seq<Course>): (r: seq<Course>)
    ensures forall i :: 0 <= i < |r| ==> r[i] in courses && r[i].trainerId == DashboardTrainer
    ensures forall i :: 0 <= i < |courses| && courses[i].trainerId == DashboardTrainer ==> courses[i] in r
  {
    Filter(courses, (c: Course) => c.trainerId == DashboardTrainer)
  }

  /** `myEnrollments.map(e => e.clientId)` as a set: the clients that appear at least once. */
  function ClientIds(es: seq<Enrollment>): (r: set<Id>)
    ensures forall id :: id in r <==> exists i :: 0 <= i < |es| && es[i].clientId == id
  {
    if es == [] then {}
    else
      var rest := ClientIds(es[1..]);
      assert forall i :: 0 < i < |es| ==> es[i] == es[1..][i - 1];
      {es[0].clientId} + rest
  }

  /** `new Set(myEnrollments.map(e => e.clientId)).size`. */
  function TotalStudents(es: seq<Enrollment>): nat
  {
    |ClientIds(es)|
  }

  /** A client enrolled twice counts once, so there are never more students than enrollments,
      and at least one when there is an enrollment. */
  lemma {:induction false} TotalStudentsBounded(es: seq<Enrollment>)
    ensures TotalStudents(es) <= |es|
    ensures es != [] ==> TotalStudents(es) >= 1
  {
    if es != [] {
      TotalStudentsBounded(es[1..]);
      assert es[0].clientId in ClientIds(es);
      assert ClientIds(es) == {es[0].clientId} + ClientIds(es[1..]);
    }
  }

  /** The stat card as written: `Math.round((total / #sessions) / #enrollments * 100)` when
      there are sessions, 0 otherwise. The division by the enrollment count is not guarded. */
  function AverageAttendanceAsWritten(mySessions: seq<Session>, myEnrollments: seq<Enrollment>): Shown
  {
    if |mySessions| > 0 then RoundDivShown(100 * AttendanceTotal(mySessions), |mySessions| * |myEnrollments|)
    else Num(0)
  }

  /** With sessions but no enrollments the card shows `Infinity` (some attendance) or `NaN`
      (none) instead of a percentage. */
  lemma AverageAttendanceUnguarded(mySessions: seq<Session>)
    requires mySessions != []
    ensures AverageAttendanceAsWritten(mySessions, []) == (if AttendanceTotal(mySessions) > 0 then Infinity else NaN)
  {
  }

  /** The figure evidently intended: the same percentage, and 0 when either count is 0. */
  function AverageAttendance(mySessions: seq<Session>, myEnrollments: seq<Enrollment>): nat
  {
    if |mySessions| > 0 && |myEnrollments| > 0
    then RoundDiv(100 * AttendanceTotal(mySessions), |mySessions| * |myEnrollments|)
    else 0
  }

  /** The guarded figure agrees with the card wherever the card shows a number, and is at most
      100 when no session has more attendees than there are enrollments. */
  lemma AverageAttendanceCorrected(mySessions: seq<Session>, myEnrollments: seq<Enrollment>)
    ensures AverageAttendanceAsWritten(mySessions, myEnrollments).Num?
            ==> AverageAttendanceAsWritten(mySessions, myEnrollments).n == AverageAttendance(mySessions, myEnrollments)
    ensures mySessions != [] && myEnrollments != []
            ==> AverageAttendanceAsWritten(mySessions, myEnrollments) == Num(AverageAttendance(mySessions, myEnrollments))
    ensures (forall i :: 0 <= i < |mySessions| ==> |mySessions[i].attendance| <= |myEnrollments|)
            ==> AverageAttendance(mySessions, myEnrollments) <= 100
  {
    if forall i :: 0 <= i < |mySessions| ==> |mySessions[i].attendance| <= |myEnrollments| {
      SumBounded(mySessions, (s: Session) => |s.attendance|, |myEnrollments|);
      if |mySessions| > 0 && |myEnrollments| > 0 {
        var q := |mySessions| * |myEnrollments|;
        assert AttendanceTotal(mySessions) <= q;
        RoundDivAtMost(100 * AttendanceTotal(mySessions), q, 100);
      }
    }
  }

  /** The next five sessions: those dated after `now`, earliest first. */
  function UpcomingSessions(mySessions: seq<Session>, now: int): seq<Session>
  {
    NextSessions(mySessions, now, 5)
  }

  /** The attendance tab's rate for a course: total attendance over sessions times the course's
      cached `currentEnrollment`, as a rounded percentage, 0 when that product is 0. */
  function CourseRate(course: Course, mySessions: seq<Session>): nat
  {
    var cs := CourseSessions(mySessions, course.id);
    Percent(AttendanceTotal(cs), |cs| * course.currentEnrollment)
  }

  /** The rate is 0 for a course with no sessions or a zero cached count, and at most 100 when no
      session of the course has more attendees than the cached count. */
  lemma CourseRateBounded(course: Course, mySessions: seq<Session>)
    ensures course.currentEnrollment == 0 ==> CourseRate(course, mySessions) == 0
    ensures (forall s :: s in CourseSessions(mySessions, course.id) ==> |s.attendance| <= course.currentEnrollment)
            ==> CourseRate(course, mySessions) <= 100
  {
    var cs := CourseSessions(mySessions, course.id);
    if forall s :: s in cs ==> |s.attendance| <= course.currentEnrollment {
      SumBounded(cs, (s: Session) => |s.attendance|, course.currentEnrollment);
      assert course.currentEnrollment * |cs| == |cs| * course.currentEnrollment;
      PercentAtMost100(AttendanceTotal(cs), |cs| * course.currentEnrollment);
    }
  }

  /** The attendance column of an upcoming session: its attendees over the course's cached
      `currentEnrollment`, or over 0 when the course is not among the trainer's. */
  function UpcomingRow(s: Session, myCourses: seq<Course>): (r: (nat, nat))
    ensures r.0 == |s.attendance|
    ensures !HasCourse(myCourses, s.courseId) ==> r.1 == 0
    ensures HasCourse(myCourses, s.courseId)
            ==> r.1 == CourseById(myCourses, s.courseId).value.currentEnrollment
    ensures forall i :: 0 <= i < |myCourses| && myCourses[i].id == s.courseId
                        && (forall j :: 0 <= j < i ==> myCourses[j].id != s.courseId)
                        ==> r.1 == myCourses[i].currentEnrollment
  {
    FirstCourseIsFound(myCourses, s.courseId);
    match CourseById(myCourses, s.courseId)
    case Some(c) => (|s.attendance|, c.currentEnrollment)
    case None => (|s.attendance|, 0)
  }
}
