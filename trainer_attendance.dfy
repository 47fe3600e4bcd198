/** The trainer's attendance page: the trainer's sessions narrowed by the course selector and
    listed latest first, the page's averages and rates, and each session's list of enrolled
    students with an attended flag. */
module TrainerAttendance {
  import opened Seqs
  import opened Sorting
  import opened Rounding
  import opened Types
  import opened Scoping

  predicate Selected(selected: string, s: Session)
  {
    selected == "all" || s.courseId == selected
  }

  /** The trainer's sessions in the selected course (every course for `"all"`), latest first. */
  function FilteredSessions(sessions: seq<Session>, trainerCourses: seq<Course>, selected: string): seq<Session>
  {
    Sort(Filter(SessionsOf(sessions, trainerCourses), (s: Session) => Selected(selected, s)), LaterSession)
  }

  /** The list holds each session of a trainer course that passes the selector, as often as
      the session list does, and is ordered latest first. */
  lemma FilteredSessionsExactly(sessions: seq<Session>, trainerCourses: seq<Course>, selected: string)
    ensures var r := FilteredSessions(sessions, trainerCourses, selected);
            && SortedAll(r, LaterSession)
            && forall s :: multiset(r)[s]
                 == if HasCourse(trainerCourses, s.courseId) && Selected(selected, s) then multiset(sessions)[s] else 0
  {
    var mine := SessionsOf(sessions, trainerCourses);
    var chosen := Filter(mine, (s: Session) => Selected(selected, s));
    LaterSessionPreorder();
    SortSortedAll(chosen, LaterSession);
    forall s ensures multiset(Sort(chosen, LaterSession))[s]
                     == if HasCourse(trainerCourses, s.courseId) && Selected(selected, s) then multiset(sessions)[s] else 0
    {
      FilterMultiset(mine, (x: Session) => Selected(selected, x), s);
      FilterMultiset(sessions, (x: Session) => HasCourse(trainerCourses, x.courseId), s);
    }
  }

  /** The attendance-rate card as written: total attendance over #sessions times the number of
      enrollments in all the trainer's courses (whatever course is selected), as a rounded
      percentage when there are sessions. The division by the enrollment count is not guarded. */
  function OverallRateAsWritten(filtered: seq<Session>, trainerEnrollments: seq<Enrollment>): Shown
  {
    if |filtered| > 0 then RoundDivShown(100 * AttendanceTotal(filtered), |filtered| * |trainerEnrollments|)
    else Num(0)
  }

  /** With sessions but no enrollment in any of the trainer's courses the card shows `Infinity`
      or `NaN`. */
  lemma OverallRateUnguarded(filtered: seq<Session>)
    requires filtered != []
    ensures OverallRateAsWritten(filtered, []) == (if AttendanceTotal(filtered) > 0 then Infinity else NaN)
  {
  }

  /** The rate evidently intended: 0 when either count is 0. */
  function OverallRate(filtered: seq<Session>, trainerEnrollments: seq<Enrollment>): nat
  {
    if |filtered| > 0 && |trainerEnrollments| > 0
    then RoundDiv(100 * AttendanceTotal(filtered), |filtered| * |trainerEnrollments|)
    else 0
  }

  /** The "Avg Attendance" card: the mean attendee count of the filtered sessions rounded half
      up, so within half a student of the exact mean, and 0 with no session. */
  function AvgAttendanceCard(filtered: seq<Session>): (r: nat)
    ensures filtered == [] ==> r == 0
    ensures filtered != [] ==> |filtered| * (2 * r - 1) <= 2 * AttendanceTotal(filtered) < |filtered| * (2 * r + 1)
  {
    MeanAttendance(filtered)
  }

  /** The guarded rate agrees with the card wherever the card shows a number, and is at most 100
      when no session has more attendees than the trainer has enrollments. */
  lemma OverallRateCorrected(filtered: seq<Session>, trainerEnrollments: seq<Enrollment>)
    ensures OverallRateAsWritten(filtered, trainerEnrollments).Num?
            ==> OverallRateAsWritten(filtered, trainerEnrollments).n == OverallRate(filtered, trainerEnrollments)
    ensures (forall i :: 0 <= i < |filtered| ==> |filtered[i].attendance| <= |trainerEnrollments|)
            ==> OverallRate(filtered, trainerEnrollments) <= 100
  {
    if forall i :: 0 <= i < |filtered| ==> |filtered[i].attendance| <= |trainerEnrollments| {
      SumBounded(filtered, (s: Session) => |s.attendance|, |trainerEnrollments|);
      if |filtered| > 0 && |trainerEnrollments| > 0 {
        var q := |filtered| * |trainerEnrollments|;
        assert AttendanceTotal(filtered) <= q;
        RoundDivAtMost(100 * AttendanceTotal(filtered), q, 100);
      }
    }
  }

  /** `users.some(u => u.id === id)`. */
  predicate HasUser(users: seq<User>, id: Id)
  {
    exists i | 0 <= i < |users| :: users[i].id == id
  }

  /** `users.find(u => u.id === id)`. */
  function UserById(users: seq<User>, id: Id): (r: Option<User>)
    ensures r.None? <==> !HasUser(users, id)
    ensures r.Some? ==> r.value in users && r.value.id == id
    ensures r.Some? ==> exists i :: 0 <= i < |users| && users[i] == r.value
                                    && forall j :: 0 <= j < i ==> users[j].id != id
  {
    Find(users, (u: User) => u.id == id)
  }

  datatype StudentRow = StudentRow(enrollment: Enrollment, student: User, attended: bool)

  function RowEnrollment(r: StudentRow): Enrollment { r.enrollment }

  /** The enrollments of the session's course that belong to a known user, each with that user
      and whether the client's id is in the session's attendance. */
  function EnrolledStudents(es: seq<Enrollment>, users: seq<User>, session: Session): (r: seq<StudentRow>)
    ensures |r| <= |es|
    ensures forall i :: 0 <= i < |r| ==>
              && r[i].enrollment in es
              && r[i].enrollment.courseId == session.courseId
              && r[i].student in users
              && r[i].student.id == r[i].enrollment.clientId
              && UserById(users, r[i].enrollment.clientId) == Some(r[i].student)
              && (r[i].attended <==> r[i].enrollment.clientId in session.attendance)
  {
    if es == [] then []
    else
      var rest := EnrolledStudents(es[1..], users, session);
      if es[0].courseId != session.courseId then rest
      else
        match UserById(users, es[0].clientId)
        case None => rest
        case Some(u) => [StudentRow(es[0], u, es[0].clientId in session.attendance)] + rest
  }

  predicate Listed(users: seq<User>, session: Session, e: Enrollment)
  {
    e.courseId == session.courseId && HasUser(users, e.clientId)
  }

  /** The rows are exactly the enrollments of the session's course whose client is a known user,
      in enrollment order. */
  lemma {:induction false} EnrolledStudentsAreFilter(es: seq<Enrollment>, users: seq<User>, session: Session)
    ensures Map(EnrolledStudents(es, users, session), RowEnrollment)
         == Filter(es, (e: Enrollment) => Listed(users, session, e))
  {
    if es != [] {
      EnrolledStudentsAreFilter(es[1..], users, session);
      var rest := EnrolledStudents(es[1..], users, session);
      if Listed(users, session, es[0]) {
        var u := UserById(users, es[0].clientId).value;
        var row := StudentRow(es[0], u, es[0].clientId in session.attendance);
        assert Map([row] + rest, RowEnrollment) == [es[0]] + Map(rest, RowEnrollment);
      }
    }
  }

  /** A session's rate: its attendee count over its listed students, as a rounded percentage,
      0 with no students. */
  function SessionRate(session: Session, rows: seq<StudentRow>): nat
  {
    Percent(|session.attendance|, |rows|)
  }

  /** Attendance is not checked against enrollment, so a session rate can exceed 100: two
      attendees for a course with one enrolled, known client show as 200%. */
  lemma SessionRateCanExceed100(u: User, e: Enrollment, s: Session)
    requires e.courseId == s.courseId && e.clientId == u.id
    requires s.attendance == [u.id, "walk-in"]
    ensures SessionRate(s, EnrolledStudents([e], [u], s)) == 200
  {
    assert [e][1..] == [];
    assert UserById([u], e.clientId) == Some(u);
    RoundDivExact(200, 1);
  }

  /** The rate is at most 100 when the session has no more attendees than listed students. */
  lemma SessionRateBounded(session: Session, rows: seq<StudentRow>)
    requires |session.attendance| <= |rows|
    ensures SessionRate(session, rows) <= 100
  {
    PercentAtMost100(|session.attendance|, |rows|);
  }

  /** The save button is offered only for past sessions; saving only shows a message and
      changes no data. */
  function SaveButtonShown(session: Session, now: int): (r: bool)
    ensures r <==> session.date < now
  {
    IsPast(session, now)
  }
}
