/** The client's course browser: the catalogue over every course, told which courses the client
    is enrolled in, and the enrollment command an "Enroll" click dispatches. */
module ClientCoursesPage {
  import opened Seqs
  import opened Types
  import opened Scoping
  import opened DataStore
  import opened CourseList

  /** The enrollment record `handleEnroll` builds: no progress, no sessions attended, and the
      default of 12 sessions. */
  function NewEnrollment(id: Id, client: User, courseId: Id, now: int): (e: Enrollment)
    ensures e.clientId == client.id && e.courseId == courseId && e.enrolledAt == now
    ensures e.progress == 0 && e.sessionsAttended == 0 && e.totalSessions == 12
  {
    Enrollment(id, client.id, courseId, now, 0, 0, 12)
  }

  /** The one command an "Enroll" click dispatches; with nobody signed in, reading
      `currentUser.id` throws before anything is dispatched. */
  function EnrollCommand(id: Id, user: Option<User>, courseId: Id, now: int): (r: Option<Command>)
    ensures r.Some? <==> user.Some?
    ensures r.Some? ==> r.value.AddEnrollment? && r.value.enrollment.clientId == user.value.id
                        && r.value.enrollment.courseId == courseId
  {
    match user
    case None => None
    case Some(u) => Some(AddEnrollment(NewEnrollment(id, u, courseId, now)))
  }

  /** Enrolling appends the new enrollment to the client's list and marks the course enrolled in
      the catalogue; it leaves the courses, and so every cached `currentEnrollment`, as they were. */
  lemma EnrollAppears(s: State, id: Id, client: User, courseId: Id, now: int)
    ensures var t := Step(s, EnrollCommand(id, Some(client), courseId, now).value);
            && ClientEnrollments(t.enrollments, Some(client))
               == ClientEnrollments(s.enrollments, Some(client)) + [NewEnrollment(id, client, courseId, now)]
            && IsEnrolled(ClientEnrollments(t.enrollments, Some(client)), courseId)
            && t.courses == s.courses
  {
    var e := NewEnrollment(id, client, courseId, now);
    var mine := (x: Enrollment) => BelongsTo(Some(client), x.clientId);
    FilterConcat(s.enrollments, [e], mine);
    assert Filter([e], mine) == [e];
    var after := ClientEnrollments(s.enrollments, Some(client)) + [e];
    assert after[|after| - 1].courseId == courseId;
  }

  /** Nothing is checked before enrolling: a client already enrolled in a course, or a full
      course, gets one more enrollment in it all the same. */
  lemma EnrollUnchecked(s: State, id: Id, client: User, courseId: Id, now: int)
    ensures var t := Step(s, EnrollCommand(id, Some(client), courseId, now).value);
            var inCourse := (x: Enrollment) => x.clientId == client.id && x.courseId == courseId;
            Count(t.enrollments, inCourse) == Count(s.enrollments, inCourse) + 1
  {
    var e := NewEnrollment(id, client, courseId, now);
    var inCourse := (x: Enrollment) => x.clientId == client.id && x.courseId == courseId;
    FilterConcat(s.enrollments, [e], inCourse);
    assert Filter([e], inCourse) == [e];
  }
}
