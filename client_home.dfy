/** The client's home dashboard: the client's enrollments joined with their courses, the session
    totals, the average progress, the attendance rate and the badge count. */
module ClientHome {
  import opened Seqs
  import opened Rounding
  import opened Types
  import opened Scoping

  /** The client's enrollments, in order, each with its course; those without one are dropped. */
  function EnrolledCourses(es: seq<Enrollment>, courses: seq<Course>, user: Option<User>): seq<Enrolled>
  {
    JoinCourses(ClientEnrollments(es, user), courses)
  }

  /** The joined list holds exactly the client's enrollments that have a course, in order, and
      nothing with no client signed in. */
  lemma EnrolledCoursesExactly(es: seq<Enrollment>, courses: seq<Course>, user: Option<User>)
    ensures var joined := EnrolledCourses(es, courses, user);
            && Map(joined, EnrollmentOf)
               == Filter(ClientEnrollments(es, user), (e: Enrollment) => HasCourse(courses, e.courseId))
            && (forall i :: 0 <= i < |joined| ==> BelongsTo(user, joined[i].enrollment.clientId))
            && (user.None? ==> joined == [])
  {
    var mine := ClientEnrollments(es, user);
    var joined := EnrolledCourses(es, courses, user);
    JoinKeepsOrder(mine, courses);
    if user.None? {
      assert multiset(mine) == multiset{};
    }
  }

  // The reductions over the joined list.
  function ScheduledSessions(joined: seq<Enrolled>): nat { Sum(joined, (x: Enrolled) => x.enrollment.totalSessions) }
  function AttendedSessions(joined: seq<Enrolled>): nat { Sum(joined, (x: Enrolled) => x.enrollment.sessionsAttended) }
  function ProgressSum(joined: seq<Enrolled>): nat { Sum(joined, (x: Enrolled) => x.enrollment.progress) }

  /** The average progress: the rounded mean, 0 with no enrolled course. */
  function AvgProgress(joined: seq<Enrolled>): nat
  {
    RoundedMean(ProgressSum(joined), |joined|)
  }

  /** The attendance rate: attended over scheduled sessions as a rounded percentage, 0 when no
      session is scheduled. */
  function AttendanceRate(joined: seq<Enrolled>): nat
  {
    Percent(AttendedSessions(joined), ScheduledSessions(joined))
  }

  /** With every progress at most 100 the average is at most 100, and with no client attending
      more sessions than scheduled the rate is at most 100. */
  lemma ClientStatsBounded(joined: seq<Enrolled>)
    ensures (forall i :: 0 <= i < |joined| ==> joined[i].enrollment.progress <= 100) ==> AvgProgress(joined) <= 100
    ensures (forall i :: 0 <= i < |joined| ==> joined[i].enrollment.sessionsAttended <= joined[i].enrollment.totalSessions)
            ==> AttendanceRate(joined) <= 100
    ensures joined == [] ==> AvgProgress(joined) == 0 && AttendanceRate(joined) == 0
  {
    if forall i :: 0 <= i < |joined| ==> joined[i].enrollment.progress <= 100 {
      MeanAtMost(joined, (x: Enrolled) => x.enrollment.progress, 100);
    }
    if forall i :: 0 <= i < |joined| ==> joined[i].enrollment.sessionsAttended <= joined[i].enrollment.totalSessions {
      SumPointwise(joined, (x: Enrolled) => x.enrollment.sessionsAttended, (x: Enrolled) => x.enrollment.totalSessions);
      PercentAtMost100(AttendedSessions(joined), ScheduledSessions(joined));
    }
  }

  /** Badges earned: 3 from ten sessions attended, 2 from five, 1 otherwise. */
  function BadgeCount(attended: nat): (r: nat)
    ensures 1 <= r <= 3
    ensures r == 3 <==> attended >= 10
    ensures r == 1 <==> attended < 5
  {
    if attended >= 10 then 3 else if attended >= 5 then 2 else 1
  }

  /** Attending more never earns fewer badges. */
  lemma BadgeMonotone(a: nat, b: nat)
    requires a <= b
    ensures BadgeCount(a) <= BadgeCount(b)
  {
  }

  /** The "No Active Courses" card: shown exactly when the client has no enrollment with a
      course. */
  lemma NoActiveCoursesExactly(es: seq<Enrollment>, courses: seq<Course>, user: Option<User>)
    ensures EnrolledCourses(es, courses, user) == []
            <==> forall i :: 0 <= i < |es| && BelongsTo(user, es[i].clientId) ==> !HasCourse(courses, es[i].courseId)
  {
    var mine := ClientEnrollments(es, user);
    var kept := Filter(mine, (e: Enrollment) => HasCourse(courses, e.courseId));
    JoinKeepsOrder(mine, courses);
    assert |EnrolledCourses(es, courses, user)| == |kept|;
    if kept != [] {
      KeptHasWitness(es, courses, user);
    }
    if exists i :: 0 <= i < |es| && BelongsTo(user, es[i].clientId) && HasCourse(courses, es[i].courseId) {
      var i :| 0 <= i < |es| && BelongsTo(user, es[i].clientId) && HasCourse(courses, es[i].courseId);
      WitnessIsKept(es, courses, user, i);
    }
  }

  /** An enrollment kept by the join is one of the client's with a course. */
  lemma KeptHasWitness(es: seq<Enrollment>, courses: seq<Course>, user: Option<User>)
    requires Filter(ClientEnrollments(es, user), (e: Enrollment) => HasCourse(courses, e.courseId)) != []
    ensures exists i :: 0 <= i < |es| && BelongsTo(user, es[i].clientId) && HasCourse(courses, es[i].courseId)
  {
    var mine := ClientEnrollments(es, user);
    var kept := Filter(mine, (e: Enrollment) => HasCourse(courses, e.courseId));
    var j :| 0 <= j < |mine| && mine[j] == kept[0];
    var i :| 0 <= i < |es| && es[i] == mine[j];
    assert BelongsTo(user, es[i].clientId) && HasCourse(courses, es[i].courseId);
  }

  /** A client's enrollment with a course is kept by the join. */
  lemma WitnessIsKept(es: seq<Enrollment>, courses: seq<Course>, user: Option<User>, i: nat)
    requires i < |es| && BelongsTo(user, es[i].clientId) && HasCourse(courses, es[i].courseId)
    ensures Filter(ClientEnrollments(es, user), (e: Enrollment) => HasCourse(courses, e.courseId)) != []
  {
    var mine := ClientEnrollments(es, user);
    var hasCourse := (e: Enrollment) => HasCourse(courses, e.courseId);
    var j :| 0 <= j < |mine| && mine[j] == es[i];
    assert hasCourse(mine[j]);
    assert mine[j] in Filter(mine, hasCourse);
  }
}
