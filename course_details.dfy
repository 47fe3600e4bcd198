/** The course details view: the same capacity rules as the card, shown as an enroll panel with a
    spots warning, plus the progress card and the difficulty badge. */
module CourseDetails {
  import opened Seqs
  import opened Types
  import opened CourseCard

  /** The sidebar's action card: an "Enrolled" note, or the enroll panel with an optional
      spots warning and the enroll button. */
  datatype Action = EnrolledNote | EnrollPanel(warning: Option<int>, button: Button)

  /** The note for an enrolled client; otherwise the panel, warning exactly when the course is
      almost full, its button disabled and labelled "Course Full" exactly when no spot is left. */
  function EnrollAction(course: Course, isEnrolled: bool): (r: Action)
    ensures r.EnrolledNote? <==> isEnrolled
    ensures r.EnrollPanel? ==> (r.warning.Some? <==> course.maxCapacity <= course.currentEnrollment + 3)
    ensures r.EnrollPanel? && r.warning.Some? ==> r.warning.value == SpotsLeft(course)
    ensures r.EnrollPanel? ==> (r.button.disabled <==> course.currentEnrollment == course.maxCapacity)
    ensures r.EnrollPanel? ==> r.button.text == (if r.button.disabled then "Course Full" else "Enroll Now")
  {
    if isEnrolled then EnrolledNote
    else
      var full := SpotsLeft(course) == 0;
      EnrollPanel(if AlmostFull(course) then Some(SpotsLeft(course)) else None,
                  Button(if full then "Course Full" else "Enroll Now", full))
  }

  /** The details view and a card with a handler disable enrolling for the same courses, and
      warn about the same ones, with different wording. */
  lemma DetailsAgreeWithCard(course: Course)
    ensures var card := EnrollButton(CardProps(course, true, false, None));
            var panel := EnrollAction(course, false);
            && card.Some? && panel.EnrollPanel?
            && card.value.disabled == panel.button.disabled
            && panel.warning == SpotsBadge(course)
  {
  }

  /** The progress card: shown, for the given enrollment, exactly when the client is enrolled
      and an enrollment was given. */
  function ProgressCard(isEnrolled: bool, enrollment: Option<Enrollment>): (r: Option<Enrollment>)
    ensures r.Some? <==> isEnrolled && enrollment.Some?
    ensures r.Some? ==> r == enrollment
  {
    if isEnrolled then enrollment else None
  }

  /** The hero badge: green for Beginner, yellow for Intermediate, red otherwise. */
  function BadgeColor(d: Difficulty): (r: string)
    ensures r == "bg-green-500" <==> d == Beginner
    ensures r == "bg-yellow-500" <==> d == Intermediate
    ensures r == "bg-red-500" <==> d == Advanced
  {
    assert |"bg-red-500"| == 10 && |"bg-green-500"| == 12 && |"bg-yellow-500"| == 13;
    match d
    case Beginner => "bg-green-500"
    case Intermediate => "bg-yellow-500"
    case _ => "bg-red-500"
  }
}
