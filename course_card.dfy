/** A course card in the catalogue and on the client's course list: the spots left and the
    almost-full badge, the enroll button with its disabled rule, the progress bar, and the
    difficulty badge's colour. */
module CourseCard {
  import opened Seqs
  import opened Types

  /** `maxCapacity - currentEnrollment`: nothing stops enrollment past capacity, so this is
      negative for an over-full course. */
  function SpotsLeft(c: Course): (r: int)
    ensures r == 0 <==> c.currentEnrollment == c.maxCapacity
    ensures r < 0 <==> c.currentEnrollment > c.maxCapacity
    ensures r <= c.maxCapacity
  {
    c.maxCapacity - c.currentEnrollment
  }

  /** `spotsLeft <= 3`, which a full or over-full course also satisfies. */
  predicate AlmostFull(c: Course)
  {
    SpotsLeft(c) <= 3
  }

  /** The "N spots left" badge: shown, with the spots left, exactly for an almost-full course. */
  function SpotsBadge(c: Course): (r: Option<int>)
    ensures r.Some? <==> c.maxCapacity <= c.currentEnrollment + 3
    ensures r.Some? ==> r.value <= 3 && r.value + c.currentEnrollment == c.maxCapacity
  {
    if AlmostFull(c) then Some(SpotsLeft(c)) else None
  }

  /** What the card is given: the course, whether an `onEnroll` handler was supplied, whether the
      client is enrolled, and the progress to show, if any. */
  datatype CardProps = CardProps(course: Course, canEnroll: bool, isEnrolled: bool, progress: Option<nat>)

  datatype Button = Button(text: string, disabled: bool)

  /** The enroll button: present for a course the client is not enrolled in when a handler was
      supplied; disabled and labelled "Full" exactly when no spot is left. */
  function EnrollButton(p: CardProps): (r: Option<Button>)
    ensures r.Some? <==> !p.isEnrolled && p.canEnroll
    ensures r.Some? ==> (r.value.disabled <==> p.course.currentEnrollment == p.course.maxCapacity)
    ensures r.Some? ==> (r.value.text == "Full" <==> r.value.disabled)
    ensures r.Some? ==> r.value.text in {"Full", "Enroll Now"}
  {
    if !p.isEnrolled && p.canEnroll then
      var full := SpotsLeft(p.course) == 0;
      Some(Button(if full then "Full" else "Enroll Now", full))
    else None
  }

  /** The disabled rule tests for exactly zero spots, so an over-full course can still be
      enrolled in, although its badge reports a negative number of spots. */
  lemma OverFullStaysEnabled(p: CardProps)
    requires !p.isEnrolled && p.canEnroll
    requires p.course.currentEnrollment > p.course.maxCapacity
    ensures EnrollButton(p) == Some(Button("Enroll Now", false))
    ensures SpotsBadge(p.course).Some? && SpotsBadge(p.course).value < 0
  {
  }

  /** The progress bar: shown, with the given progress, exactly when the client is enrolled
      and a progress value was given. */
  function ProgressShown(p: CardProps): (r: Option<nat>)
    ensures r.Some? <==> p.isEnrolled && p.progress.Some?
    ensures r.Some? ==> r == p.progress
  {
    if p.isEnrolled then p.progress else None
  }

  /** The difficulty badge's colour classes. */
  function DifficultyColor(d: Difficulty): string
  {
    match d
    case Beginner => "bg-green-500/10 text-green-700 dark:text-green-400"
    case Intermediate => "bg-yellow-500/10 text-yellow-700 dark:text-yellow-400"
    case Advanced => "bg-red-500/10 text-red-700 dark:text-red-400"
  }

  /** Each difficulty has a colour of its own. */
  lemma DifficultyColorsDistinct(a: Difficulty, b: Difficulty)
    ensures DifficultyColor(a) == DifficultyColor(b) <==> a == b
  {
    if a != b {
      assert |DifficultyColor(Beginner)| == 50;
      assert |DifficultyColor(Intermediate)| == 53;
      assert |DifficultyColor(Advanced)| == 44;
    }
  }
}
