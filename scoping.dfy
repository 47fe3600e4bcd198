/** The selections the pages share: a trainer's courses, the sessions and enrollments of a list
    of courses, one course's or one client's records, the enrollment-to-course join, the totals
    the pages reduce over, and the comparators they sort with. */
module Scoping {
  import opened Seqs
  import opened Sorting
  import opened Rounding
  import opened Types

  /** `c.trainerId === currentUser?.id`: with no current user no course matches. */
  predicate OwnedBy(user: Option<User>, c: Course)
  {
    user.Some? && c.trainerId == user.value.id
  }

  /** `courses.filter(c => c.trainerId === currentUser?.id)`. */
  function TrainerCourses(courses: seq<Course>, user: Option<User>): (r: seq<Course>)
    ensures forall i :: 0 <= i < |r| ==> r[i] in courses && OwnedBy(user, r[i])
    ensures forall i :: 0 <= i < |courses| && OwnedBy(user, courses[i]) ==> courses[i] in r
  {
    Filter(courses, (c: Course) => OwnedBy(user, c))
  }

  /** The trainer's courses keep the store's order: narrowing a list made of two parts gives the
      trainer's part of the first followed by the trainer's part of the second. */
  lemma TrainerCoursesConcat(a: seq<Course>, b: seq<Course>, user: Option<User>)
    ensures TrainerCourses(a + b, user) == TrainerCourses(a, user) + TrainerCourses(b, user)
  {
    FilterConcat(a, b, (c: Course) => OwnedBy(user, c));
  }

  /** A course of the trainer's added at the end of the list comes last in the trainer's list. */
  lemma TrainerCoursesAppend(courses: seq<Course>, c: Course, user: Option<User>)
    requires OwnedBy(user, c)
    ensures TrainerCourses(courses + [c], user) == TrainerCourses(courses, user) + [c]
  {
    TrainerCoursesConcat(courses, [c], user);
    assert TrainerCourses([c], user) == [c];
  }

  /** `cs.some(c => c.id === id)`. */
  predicate HasCourse(cs: seq<Course>, id: Id)
  {
    exists i | 0 <= i < |cs| :: cs[i].id == id
  }

  /** The sessions whose course is one of `cs`. */
  function SessionsOf(sessions: seq<Session>, cs: seq<Course>): (r: seq<Session>)
    ensures forall i :: 0 <= i < |r| ==> r[i] in sessions && HasCourse(cs, r[i].courseId)
    ensures forall i :: 0 <= i < |sessions| && HasCourse(cs, sessions[i].courseId) ==> sessions[i] in r
  {
    Filter(sessions, (s: Session) => HasCourse(cs, s.courseId))
  }

  /** The enrollments whose course is one of `cs`. */
  function EnrollmentsOf(es: seq<Enrollment>, cs: seq<Course>): (r: seq<Enrollment>)
    ensures forall i :: 0 <= i < |r| ==> r[i] in es && HasCourse(cs, r[i].courseId)
    ensures forall i :: 0 <= i < |es| && HasCourse(cs, es[i].courseId) ==> es[i] in r
  {
    Filter(es, (e: Enrollment) => HasCourse(cs, e.courseId))
  }

  /** A trainer's sessions are exactly the sessions of some course that trainer owns. */
  lemma TrainerSessionsExactly(sessions: seq<Session>, courses: seq<Course>, user: Option<User>, s: Session)
    ensures s in SessionsOf(sessions, TrainerCourses(courses, user))
            <==> s in sessions && exists c :: c in courses && OwnedBy(user, c) && c.id == s.courseId
  {
    var mine := TrainerCourses(courses, user);
    var r := SessionsOf(sessions, mine);
    if s in r {
      var k :| 0 <= k < |r| && r[k] == s;
      var i :| 0 <= i < |mine| && mine[i].id == s.courseId;
      assert mine[i] in courses && OwnedBy(user, mine[i]);
    }
    if s in sessions && exists c :: c in courses && OwnedBy(user, c) && c.id == s.courseId {
      var c :| c in courses && OwnedBy(user, c) && c.id == s.courseId;
      var i :| 0 <= i < |courses| && courses[i] == c;
      var j :| 0 <= j < |mine| && mine[j] == c;
      var k :| 0 <= k < |sessions| && sessions[k] == s;
      assert HasCourse(mine, sessions[k].courseId);
    }
  }

  /** `sessions.filter(s => s.courseId === id)`. */
  function CourseSessions(sessions: seq<Session>, id: Id): (r: seq<Session>)
    ensures forall i :: 0 <= i < |r| ==> r[i] in sessions && r[i].courseId == id
    ensures forall i :: 0 <= i < |sessions| && sessions[i].courseId == id ==> sessions[i] in r
  {
    Filter(sessions, (s: Session) => s.courseId == id)
  }

  /** `enrollments.filter(e => e.courseId === id)`. */
  function CourseEnrollments(es: seq<Enrollment>, id: Id): (r: seq<Enrollment>)
    ensures forall i :: 0 <= i < |r| ==> r[i] in es && r[i].courseId == id
    ensures forall i :: 0 <= i < |es| && es[i].courseId == id ==> es[i] in r
  {
    Filter(es, (e: Enrollment) => e.courseId == id)
  }

  /** `progressRecords.filter(p => p.courseId === id)`. */
  function CourseRecords(rs: seq<ProgressRecord>, id: Id): (r: seq<ProgressRecord>)
    ensures forall i :: 0 <= i < |r| ==> r[i] in rs && r[i].courseId == id
    ensures forall i :: 0 <= i < |rs| && rs[i].courseId == id ==> rs[i] in r
  {
    Filter(rs, (p: ProgressRecord) => p.courseId == id)
  }

  /** `clientId === currentUser?.id`: with no current user nothing belongs to anyone. */
  predicate BelongsTo(user: Option<User>, clientId: Id)
  {
    user.Some? && clientId == user.value.id
  }

  /** `enrollments.filter(e => e.clientId === currentUser?.id)`: each of the client's
      enrollments as often as in the store, and nothing else. */
  function ClientEnrollments(es: seq<Enrollment>, user: Option<User>): (r: seq<Enrollment>)
    ensures forall i :: 0 <= i < |r| ==> r[i] in es && BelongsTo(user, r[i].clientId)
    ensures forall i :: 0 <= i < |es| && BelongsTo(user, es[i].clientId) ==> es[i] in r
    ensures forall e :: multiset(r)[e] == if BelongsTo(user, e.clientId) then multiset(es)[e] else 0
  {
    var mine := (e: Enrollment) => BelongsTo(user, e.clientId);
    assert forall e :: multiset(Filter(es, mine))[e] == if mine(e) then multiset(es)[e] else 0 by {
      forall e ensures multiset(Filter(es, mine))[e] == if mine(e) then multiset(es)[e] else 0 {
        FilterMultiset(es, mine, e);
      }
    }
    Filter(es, mine)
  }

  /** The client's enrollments keep the store's order: narrowing a list made of two parts gives
      the client's part of the first followed by the client's part of the second. */
  lemma ClientEnrollmentsConcat(a: seq<Enrollment>, b: seq<Enrollment>, user: Option<User>)
    ensures ClientEnrollments(a + b, user) == ClientEnrollments(a, user) + ClientEnrollments(b, user)
  {
    FilterConcat(a, b, (e: Enrollment) => BelongsTo(user, e.clientId));
  }

  /** `progressRecords.filter(p => p.clientId === currentUser?.id)`: each of the client's
      records as often as in the store, and nothing else. */
  function ClientRecords(rs: seq<ProgressRecord>, user: Option<User>): (r: seq<ProgressRecord>)
    ensures forall i :: 0 <= i < |r| ==> r[i] in rs && BelongsTo(user, r[i].clientId)
    ensures forall i :: 0 <= i < |rs| && BelongsTo(user, rs[i].clientId) ==> rs[i] in r
    ensures forall p :: multiset(r)[p] == if BelongsTo(user, p.clientId) then multiset(rs)[p] else 0
  {
    var mine := (p: ProgressRecord) => BelongsTo(user, p.clientId);
    assert forall p :: multiset(Filter(rs, mine))[p] == if mine(p) then multiset(rs)[p] else 0 by {
      forall p ensures multiset(Filter(rs, mine))[p] == if mine(p) then multiset(rs)[p] else 0 {
        FilterMultiset(rs, mine, p);
      }
    }
    Filter(rs, mine)
  }

  /** The client's records keep the store's order, in the sense of ClientEnrollmentsConcat. */
  lemma ClientRecordsConcat(a: seq<ProgressRecord>, b: seq<ProgressRecord>, user: Option<User>)
    ensures ClientRecords(a + b, user) == ClientRecords(a, user) + ClientRecords(b, user)
  {
    FilterConcat(a, b, (p: ProgressRecord) => BelongsTo(user, p.clientId));
  }

  // The sums the pages reduce over.
  function AttendanceTotal(ss: seq<Session>): nat { Sum(ss, (s: Session) => |s.attendance|) }
  function ProgressTotal(es: seq<Enrollment>): nat { Sum(es, (e: Enrollment) => e.progress) }
  function AttendedTotal(es: seq<Enrollment>): nat { Sum(es, (e: Enrollment) => e.sessionsAttended) }
  function ScheduledTotal(es: seq<Enrollment>): nat { Sum(es, (e: Enrollment) => e.totalSessions) }
  function PerformanceTotal(rs: seq<ProgressRecord>): nat { Sum(rs, (p: ProgressRecord) => p.performance) }

  /** Students per session: the rounded mean attendance, 0 with no sessions. */
  function MeanAttendance(ss: seq<Session>): nat
  {
    RoundedMean(AttendanceTotal(ss), |ss|)
  }

  /** No session has more attendees than `bound`, so neither does the mean; with no sessions
      it is 0. */
  lemma MeanAttendanceBounded(ss: seq<Session>, bound: nat)
    requires forall i :: 0 <= i < |ss| ==> |ss[i].attendance| <= bound
    ensures MeanAttendance(ss) <= bound
    ensures ss == [] ==> MeanAttendance(ss) == 0
  {
    MeanAtMost(ss, (s: Session) => |s.attendance|, bound);
  }

  /** A session is past when it is dated before `now`. */
  predicate IsPast(s: Session, now: int)
  {
    s.date < now
  }

  predicate After(now: int, s: Session) { s.date > now }

  /** `ss.filter(s => new Date(s.date) > now).sort(earliest first).slice(0, n)`. */
  function NextSessions(ss: seq<Session>, now: int, n: nat): seq<Session>
  {
    Take(Sort(Filter(ss, (s: Session) => After(now, s)), EarlierSession), n)
  }

  /** The first `n` upcoming sessions, or all of them when there are fewer; all of them after
      `now`, in date order, none later than an upcoming session left out. */
  lemma NextSessionsAreNext(ss: seq<Session>, now: int, n: nat)
    ensures var upcoming := Filter(ss, (s: Session) => After(now, s));
            var sorted := Sort(upcoming, EarlierSession);
            var shown := NextSessions(ss, now, n);
            && |shown| == (if n <= |upcoming| then n else |upcoming|)
            && (forall i :: 0 <= i < |shown| ==> shown[i].date > now && shown[i] in ss)
            && SortedAll(shown, EarlierSession)
            && forall i, j :: 0 <= i < |shown| <= j < |sorted| ==> shown[i].date <= sorted[j].date
  {
    var upcoming := Filter(ss, (s: Session) => After(now, s));
    var sorted := Sort(upcoming, EarlierSession);
    EarlierSessionPreorder();
    SortSortedAll(upcoming, EarlierSession);
    forall i | 0 <= i < |sorted| ensures sorted[i].date > now && sorted[i] in ss {
      assert sorted[i] in multiset(upcoming);
    }
  }

  /** `courses.find(c => c.id === id)`. */
  function CourseById(courses: seq<Course>, id: Id): (r: Option<Course>)
    ensures r.None? <==> !HasCourse(courses, id)
    ensures r.Some? ==> r.value in courses && r.value.id == id
    ensures r.Some? ==> exists i :: 0 <= i < |courses| && courses[i] == r.value
                                    && forall j :: 0 <= j < i ==> courses[j].id != id
  {
    Find(courses, (c: Course) => c.id == id)
  }

  /** The course at the first position holding `id` is the one `find` returns. */
  lemma FirstCourseIsFound(courses: seq<Course>, id: Id)
    ensures forall i :: 0 <= i < |courses| && courses[i].id == id
                        && (forall j :: 0 <= j < i ==> courses[j].id != id)
                        ==> CourseById(courses, id) == Some(courses[i])
  {
    forall i | 0 <= i < |courses| && courses[i].id == id && (forall j :: 0 <= j < i ==> courses[j].id != id)
      ensures CourseById(courses, id) == Some(courses[i])
    {
      var r := CourseById(courses, id);
      var k :| 0 <= k < |courses| && courses[k] == r.value && forall j :: 0 <= j < k ==> courses[j].id != id;
      assert !(k < i) && !(i < k);
    }
  }

  /** An enrollment together with its course. */
  datatype Enrolled = Enrolled(enrollment: Enrollment, course: Course)

  function EnrollmentOf(x: Enrolled): Enrollment { x.enrollment }

  /** `es.map(e => ({ ...e, course: courses.find(c => c.id === e.courseId) })).filter(e => e.course)`:
      each enrollment paired with the first course of its id, those without a course dropped. */
  function JoinCourses(es: seq<Enrollment>, courses: seq<Course>): (r: seq<Enrolled>)
    ensures |r| <= |es|
    ensures forall i :: 0 <= i < |r| ==>
              && r[i].enrollment in es
              && r[i].course in courses
              && r[i].course.id == r[i].enrollment.courseId
              && CourseById(courses, r[i].enrollment.courseId) == Some(r[i].course)
  {
    if es == [] then []
    else
      match CourseById(courses, es[0].courseId)
      case None => JoinCourses(es[1..], courses)
      case Some(c) => [Enrolled(es[0], c)] + JoinCourses(es[1..], courses)
  }

  /** The join keeps exactly the enrollments that have a course, in their order. */
  lemma {:induction false} JoinKeepsOrder(es: seq<Enrollment>, courses: seq<Course>)
    ensures Map(JoinCourses(es, courses), EnrollmentOf)
         == Filter(es, (e: Enrollment) => HasCourse(courses, e.courseId))
  {
    if es != [] {
      JoinKeepsOrder(es[1..], courses);
      var rest := JoinCourses(es[1..], courses);
      if HasCourse(courses, es[0].courseId) {
        var c := CourseById(courses, es[0].courseId).value;
        assert Map([Enrolled(es[0], c)] + rest, EnrollmentOf) == [es[0]] + Map(rest, EnrollmentOf);
      }
    }
  }

  // The comparators the pages sort with, as `compare(a, b) <= 0`.

  /** `new Date(a.date) - new Date(b.date)`: earliest first. */
  predicate EarlierSession(a: Session, b: Session) { a.date <= b.date }

  /** `new Date(b.date) - new Date(a.date)`: latest first. */
  predicate LaterSession(a: Session, b: Session) { b.date <= a.date }

  /** `b.progress - a.progress`: most progress first. */
  predicate MoreProgress(a: Enrollment, b: Enrollment) { b.progress <= a.progress }

  /** `new Date(b.date) - new Date(a.date)` on progress records: latest first. */
  predicate LaterRecord(a: ProgressRecord, b: ProgressRecord) { b.date <= a.date }

  lemma EarlierSessionPreorder()
    ensures TotalPreorder(EarlierSession)
  {
  }

  lemma LaterSessionPreorder()
    ensures TotalPreorder(LaterSession)
  {
  }

  lemma MoreProgressPreorder()
    ensures TotalPreorder(MoreProgress)
  {
  }

  lemma LaterRecordPreorder()
    ensures TotalPreorder(LaterRecord)
  {
  }
}
