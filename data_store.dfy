/** The entity store: four collections changed only by the commands of a pure reducer. Adds
    append, updates replace by id, and the one delete removes courses by id. No command checks
    for duplicate ids, and deleting a course does not cascade to what refers to it. */
module DataStore {
  import opened Seqs
  import opened Types

  datatype State = State(
    courses: seq<Course>,
    sessions: seq<Session>,
    enrollments: seq<Enrollment>,
    progressRecords: seq<ProgressRecord>)

  /** The actions the reducer recognises, and any other tag. */
  datatype Command =
    | AddCourse(course: Course)
    | UpdateCourse(course: Course)
    | DeleteCourse(courseId: Id)
    | AddEnrollment(enrollment: Enrollment)
    | UpdateEnrollment(enrollment: Enrollment)
    | AddSession(session: Session)
    | UpdateSession(session: Session)
    | AddProgressRecord(record: ProgressRecord)
    | Unrecognized(tag: string)

  /** `xs.map(x => x.id === payload.id ? payload : x)`: every element with the payload's id is
      replaced by the payload, every other element stays where it was. */
  function ReplaceById<T>(xs: seq<T>, idOf: T -> Id, payload: T): (r: seq<T>)
    ensures |r| == |xs|
    ensures forall i :: 0 <= i < |xs| && idOf(xs[i]) == idOf(payload) ==> r[i] == payload
    ensures forall i :: 0 <= i < |xs| && idOf(xs[i]) != idOf(payload) ==> r[i] == xs[i]
  {
    if xs == [] then []
    else [if idOf(xs[0]) == idOf(payload) then payload else xs[0]] + ReplaceById(xs[1..], idOf, payload)
  }

  /** The courses kept by a delete of `id`. */
  function KeepOtherIds(id: Id): Course -> bool
  {
    (c: Course) => c.id != id
  }

  /** `courses.filter(course => course.id !== id)`. */
  function RemoveCourse(courses: seq<Course>, id: Id): (r: seq<Course>)
    ensures forall i :: 0 <= i < |r| ==> r[i].id != id && r[i] in courses
    ensures forall i :: 0 <= i < |courses| && courses[i].id != id ==> courses[i] in r
    ensures forall c :: multiset(r)[c] == if c.id != id then multiset(courses)[c] else 0
  {
    assert forall c :: multiset(Filter(courses, KeepOtherIds(id)))[c] == if c.id != id then multiset(courses)[c] else 0 by {
      forall c ensures multiset(Filter(courses, KeepOtherIds(id)))[c] == if c.id != id then multiset(courses)[c] else 0 {
        FilterMultiset(courses, KeepOtherIds(id), c);
      }
    }
    Filter(courses, KeepOtherIds(id))
  }

  /** A delete keeps the remaining courses in their order: deleting from a list made of two parts
      deletes from each part and keeps the parts in place. */
  lemma RemoveCourseConcat(a: seq<Course>, b: seq<Course>, id: Id)
    ensures RemoveCourse(a + b, id) == RemoveCourse(a, id) + RemoveCourse(b, id)
  {
    FilterConcat(a, b, KeepOtherIds(id));
  }

  /** The reducer. */
  function Step(s: State, cmd: Command): (r: State)
    ensures |r.sessions| >= |s.sessions| && |r.enrollments| >= |s.enrollments|
    ensures s.progressRecords <= r.progressRecords
  {
    match cmd
    case AddCourse(c) => s.(courses := s.courses + [c])
    case UpdateCourse(c) => s.(courses := ReplaceById(s.courses, CourseId, c))
    case DeleteCourse(id) => s.(courses := RemoveCourse(s.courses, id))
    case AddEnrollment(e) => s.(enrollments := s.enrollments + [e])
    case UpdateEnrollment(e) => s.(enrollments := ReplaceById(s.enrollments, EnrollmentId, e))
    case AddSession(x) => s.(sessions := s.sessions + [x])
    case UpdateSession(x) => s.(sessions := ReplaceById(s.sessions, SessionId, x))
    case AddProgressRecord(p) => s.(progressRecords := s.progressRecords + [p])
    case Unrecognized(_) => s
  }

  /** The state after dispatching `cmds` in order. */
  function Run(s: State, cmds: seq<Command>): State
    decreases |cmds|
  {
    if cmds == [] then s else Run(Step(s, cmds[0]), cmds[1..])
  }

  datatype Collection = Courses | Sessions | Enrollments | ProgressRecords

  /** The one collection a command may change, if any. */
  function Target(cmd: Command): Option<Collection>
  {
    match cmd
    case AddCourse(_) => Some(Courses)
    case UpdateCourse(_) => Some(Courses)
    case DeleteCourse(_) => Some(Courses)
    case AddEnrollment(_) => Some(Enrollments)
    case UpdateEnrollment(_) => Some(Enrollments)
    case AddSession(_) => Some(Sessions)
    case UpdateSession(_) => Some(Sessions)
    case AddProgressRecord(_) => Some(ProgressRecords)
    case Unrecognized(_) => None
  }

  predicate SameCollection(s: State, t: State, c: Collection)
  {
    match c
    case Courses => s.courses == t.courses
    case Sessions => s.sessions == t.sessions
    case Enrollments => s.enrollments == t.enrollments
    case ProgressRecords => s.progressRecords == t.progressRecords
  }

  /** Every command leaves the collections other than its own exactly as they were; an
      unrecognised command leaves the whole state as it was. */
  lemma OnlyTargetChanges(s: State, cmd: Command, c: Collection)
    requires Target(cmd) != Some(c)
    ensures SameCollection(Step(s, cmd), s, c)
  {
  }

  lemma UnrecognizedIsNoOp(s: State, tag: string)
    ensures Step(s, Unrecognized(tag)) == s
  {
  }

  /** The four adds put the payload after the existing elements. */
  lemma AddsAppend(s: State, c: Course, e: Enrollment, x: Session, p: ProgressRecord)
    ensures Step(s, AddCourse(c)).courses == s.courses + [c]
    ensures Step(s, AddEnrollment(e)).enrollments == s.enrollments + [e]
    ensures Step(s, AddSession(x)).sessions == s.sessions + [x]
    ensures Step(s, AddProgressRecord(p)).progressRecords == s.progressRecords + [p]
  {
  }

  /** An update whose id matches nothing returns the collection unchanged. */
  lemma {:induction false} ReplaceAbsent<T>(xs: seq<T>, idOf: T -> Id, payload: T)
    requires forall i :: 0 <= i < |xs| ==> idOf(xs[i]) != idOf(payload)
    ensures ReplaceById(xs, idOf, payload) == xs
  {
    if xs != [] {
      ReplaceAbsent(xs[1..], idOf, payload);
    }
  }

  /** Applying the same update twice is applying it once. */
  lemma ReplaceIdempotent<T>(xs: seq<T>, idOf: T -> Id, payload: T)
    ensures ReplaceById(ReplaceById(xs, idOf, payload), idOf, payload) == ReplaceById(xs, idOf, payload)
  {
    var once := ReplaceById(xs, idOf, payload);
    var twice := ReplaceById(once, idOf, payload);
    forall i | 0 <= i < |xs| ensures twice[i] == once[i] {
    }
  }

  /** The three updates, stated on the store: absent ids change nothing, repeats change nothing. */
  lemma UpdatesIdempotent(s: State, c: Course, e: Enrollment, x: Session)
    ensures Step(Step(s, UpdateCourse(c)), UpdateCourse(c)) == Step(s, UpdateCourse(c))
    ensures Step(Step(s, UpdateEnrollment(e)), UpdateEnrollment(e)) == Step(s, UpdateEnrollment(e))
    ensures Step(Step(s, UpdateSession(x)), UpdateSession(x)) == Step(s, UpdateSession(x))
  {
    ReplaceIdempotent(s.courses, CourseId, c);
    ReplaceIdempotent(s.enrollments, EnrollmentId, e);
    ReplaceIdempotent(s.sessions, SessionId, x);
  }

  lemma UpdateCourseAbsent(s: State, c: Course)
    requires forall i :: 0 <= i < |s.courses| ==> s.courses[i].id != c.id
    ensures Step(s, UpdateCourse(c)) == s
  {
    ReplaceAbsent(s.courses, CourseId, c);
  }

  lemma UpdateEnrollmentAbsent(s: State, e: Enrollment)
    requires forall i :: 0 <= i < |s.enrollments| ==> s.enrollments[i].id != e.id
    ensures Step(s, UpdateEnrollment(e)) == s
  {
    ReplaceAbsent(s.enrollments, EnrollmentId, e);
  }

  lemma UpdateSessionAbsent(s: State, x: Session)
    requires forall i :: 0 <= i < |s.sessions| ==> s.sessions[i].id != x.id
    ensures Step(s, UpdateSession(x)) == s
  {
    ReplaceAbsent(s.sessions, SessionId, x);
  }

  /** Adding a course and then deleting its id gives back the original course list exactly
      when no course had that id before: the delete also removes any earlier namesake. */
  lemma AddThenDelete(s: State, c: Course)
    ensures Step(Step(s, AddCourse(c)), DeleteCourse(c.id)).courses == s.courses
            <==> forall i :: 0 <= i < |s.courses| ==> s.courses[i].id != c.id
  {
    var keep := KeepOtherIds(c.id);
    FilterConcat(s.courses, [c], keep);
    assert Filter([c], keep) == [];
    if forall i :: 0 <= i < |s.courses| ==> s.courses[i].id != c.id {
      FilterAll(s.courses, keep);
    } else {
      var i :| 0 <= i < |s.courses| && s.courses[i].id == c.id;
      FilterDrops(s.courses, keep, i);
    }
  }

  /** Adding never checks for duplicates: the number of courses with the new id goes up by one. */
  lemma AddCourseAllowsDuplicates(s: State, c: Course)
    ensures Count(Step(s, AddCourse(c)).courses, (x: Course) => x.id == c.id)
         == Count(s.courses, (x: Course) => x.id == c.id) + 1
  {
    FilterConcat(s.courses, [c], (x: Course) => x.id == c.id);
  }

  /** Deleting a course leaves the sessions and enrollments that refer to it in place. */
  lemma DeleteDoesNotCascade(s: State, id: Id, i: nat, j: nat)
    requires i < |s.sessions| && s.sessions[i].courseId == id
    requires j < |s.enrollments| && s.enrollments[j].courseId == id
    ensures var t := Step(s, DeleteCourse(id));
            && t.sessions[i] == s.sessions[i] && t.enrollments[j] == s.enrollments[j]
            && forall k :: 0 <= k < |t.courses| ==> t.courses[k].id != id
  {
  }

  /** No command removes a session, an enrollment or a progress record; progress records are
      only ever appended. */
  lemma {:induction false} RunNeverShrinks(s: State, cmds: seq<Command>)
    ensures |Run(s, cmds).sessions| >= |s.sessions|
    ensures |Run(s, cmds).enrollments| >= |s.enrollments|
    ensures s.progressRecords <= Run(s, cmds).progressRecords
    decreases |cmds|
  {
    if cmds != [] {
      RunNeverShrinks(Step(s, cmds[0]), cmds[1..]);
    }
  }
}
