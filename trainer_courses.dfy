/** The trainer's course management page: the trainer's course list with its enrollment counts,
    and the commands it dispatches to create and delete courses. */
module TrainerCoursesPage {
  import opened Seqs
  import opened Text
  import opened Types
  import opened Scoping
  import opened DataStore

  /** The fields of the create-course form; the capacity is taken as already parsed. */
  datatype CourseForm = CourseForm(
    title: string,
    description: string,
    duration: string,
    difficulty: Difficulty,
    capacity: nat,
    schedule: string,
    objectives: string)

  /** `objectives.split(",").map(obj => obj.trim())`. */
  function ParseObjectives(text: string): seq<string>
  {
    Map(Split(text, ','), Trim)
  }

  /** A trimmed piece of comma-split text has no comma and no whitespace at either end. */
  lemma TrimmedPiece(piece: string)
    requires ',' !in piece
    ensures var o := Trim(piece);
            && ',' !in o
            && (o != [] ==> !IsSpace(o[0]) && !IsSpace(o[|o| - 1]))
  {
    TrimWithin(piece);
    TrimEnds(piece);
  }

  /** An empty field gives one empty objective. */
  lemma EmptyObjectives()
    ensures ParseObjectives([]) == [[]]
  {
    assert Split([], ',') == [[]];
    assert Trim([]) == [];
  }

  /** One objective per comma-separated piece. */
  lemma ObjectivesCount(text: string)
    ensures |ParseObjectives(text)| == CountChar(text, ',') + 1
  {
    SplitCount(text, ',');
  }

  /** No objective contains a comma or starts or ends with whitespace. */
  lemma ObjectivesTrimmed(text: string)
    ensures var objs := ParseObjectives(text);
            forall i :: 0 <= i < |objs| ==>
              && ',' !in objs[i]
              && (objs[i] != [] ==> !IsSpace(objs[i][0]) && !IsSpace(objs[i][|objs[i]| - 1]))
  {
    forall i | 0 <= i < |ParseObjectives(text)| {
      ObjectiveTrimmed(text, i);
    }
  }

  /** The `i`th objective is the trimmed `i`th piece, so it has the shape of a trimmed piece. */
  lemma ObjectiveTrimmed(text: string, i: nat)
    requires i < |ParseObjectives(text)|
    ensures var o := ParseObjectives(text)[i];
            && ',' !in o
            && (o != [] ==> !IsSpace(o[0]) && !IsSpace(o[|o| - 1]))
  {
    var parts := Split(text, ',');
    assert ParseObjectives(text)[i] == Trim(parts[i]);
    TrimmedPiece(parts[i]);
  }

  /** The record `handleCreateCourse` builds for the signed-in trainer. */
  function NewCourse(id: Id, form: CourseForm, trainer: User): (c: Course)
    ensures c.id == id && c.currentEnrollment == 0
    ensures c.trainer == trainer.name && c.trainerId == trainer.id
    ensures c.title == form.title && c.description == form.description && c.duration == form.duration
    ensures c.difficulty == form.difficulty && c.maxCapacity == form.capacity && c.schedule == form.schedule
    ensures c.objectives == ParseObjectives(form.objectives)
    ensures c.image == Some("/placeholder.svg")
  {
    Course(id, form.title, form.description, trainer.name, trainer.id, form.duration, form.difficulty,
           form.capacity, 0, form.schedule, ParseObjectives(form.objectives), Some("/placeholder.svg"))
  }

  /** The single command `handleCreateCourse` dispatches. */
  function CreateCourse(id: Id, form: CourseForm, trainer: User): (cmd: Command)
    ensures cmd.AddCourse? && cmd.course == NewCourse(id, form, trainer)
  {
    AddCourse(NewCourse(id, form, trainer))
  }

  /** Creating a course adds it, unenrolled and owned by the trainer, at the end of that
      trainer's list, and changes nothing else in the store. */
  lemma CreateAppearsLast(s: State, id: Id, form: CourseForm, trainer: User)
    ensures var c := NewCourse(id, form, trainer);
            var t := Step(s, CreateCourse(id, form, trainer));
            && c.currentEnrollment == 0 && c.trainerId == trainer.id && c.id == id
            && TrainerCourses(t.courses, Some(trainer)) == TrainerCourses(s.courses, Some(trainer)) + [c]
            && t.sessions == s.sessions && t.enrollments == s.enrollments && t.progressRecords == s.progressRecords
  {
    var c := NewCourse(id, form, trainer);
    var t := Step(s, CreateCourse(id, form, trainer));
    assert t == s.(courses := s.courses + [c]);
    TrainerCoursesAppend(s.courses, c, Some(trainer));
  }

  /** After deleting `id` no course of the trainer's list has that id, and every other course
      of the list remains. */
  lemma DeleteLeavesList(s: State, id: Id, user: Option<User>)
    ensures var after := TrainerCourses(Step(s, DeleteCourse(id)).courses, user);
            && (forall i :: 0 <= i < |after| ==> after[i].id != id)
            && forall c :: c in TrainerCourses(s.courses, user) && c.id != id ==> c in after
  {
    var after := TrainerCourses(Step(s, DeleteCourse(id)).courses, user);
    forall c | c in TrainerCourses(s.courses, user) && c.id != id ensures c in after {
      var i :| 0 <= i < |s.courses| && s.courses[i] == c;
      var kept := RemoveCourse(s.courses, id);
      var j :| 0 <= j < |kept| && kept[j] == c;
    }
  }

  /** The count shown on a course card: its enrollments in the store. */
  function EnrollmentCount(enrollments: seq<Enrollment>, course: Course): nat
  {
    |CourseEnrollments(enrollments, course.id)|
  }

  /** The count ignores the cached `currentEnrollment`, and each new enrollment in the course
      raises it by one. */
  lemma EnrollmentCountFromStore(enrollments: seq<Enrollment>, course: Course, k: nat, e: Enrollment)
    ensures EnrollmentCount(enrollments, course.(currentEnrollment := k)) == EnrollmentCount(enrollments, course)
    ensures EnrollmentCount(enrollments + [e], course)
         == EnrollmentCount(enrollments, course) + (if e.courseId == course.id then 1 else 0)
  {
    FilterConcat(enrollments, [e], (x: Enrollment) => x.courseId == course.id);
  }
}
