/** The trainer's sessions page: the sessions of the trainer's courses, latest first, with the
    attendee count shown for past sessions only. */
module TrainerSessions {
  import opened Seqs
  import opened Sorting
  import opened Types
  import opened Scoping

  function TrainerSessionList(sessions: seq<Session>, courses: seq<Course>, user: Option<User>): seq<Session>
  {
    Sort(SessionsOf(sessions, TrainerCourses(courses, user)), LaterSession)
  }

  /** The list is the trainer's sessions, each as often as in the session list, latest first;
      with no current user it is empty. */
  lemma TrainerSessionListExactly(sessions: seq<Session>, courses: seq<Course>, user: Option<User>)
    ensures var r := TrainerSessionList(sessions, courses, user);
            && SortedAll(r, LaterSession)
            && multiset(r) == multiset(SessionsOf(sessions, TrainerCourses(courses, user)))
            && (forall i :: 0 <= i < |r| ==> exists c :: c in courses && OwnedBy(user, c) && c.id == r[i].courseId)
            && (user.None? ==> r == [])
  {
    var mine := TrainerCourses(courses, user);
    var r := TrainerSessionList(sessions, courses, user);
    LaterSessionPreorder();
    SortSortedAll(SessionsOf(sessions, mine), LaterSession);
    forall i | 0 <= i < |r| ensures exists c :: c in courses && OwnedBy(user, c) && c.id == r[i].courseId {
      assert r[i] in multiset(SessionsOf(sessions, mine));
      TrainerSessionsExactly(sessions, courses, user, r[i]);
    }
    if user.None? {
      assert |mine| > 0 ==> OwnedBy(user, mine[0]);
    }
  }

  /** The attendee count line: shown, with the count, exactly for past sessions. */
  function AttendedShown(s: Session, now: int): (r: Option<nat>)
    ensures r.Some? <==> s.date < now
    ensures r.Some? ==> r.value == |s.attendance|
  {
    if IsPast(s, now) then Some(|s.attendance|) else None
  }
}
