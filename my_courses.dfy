/** The client's "My Courses" page: one card per enrollment of the client that has a course,
    each marked enrolled and showing that enrollment's progress. */
module MyCourses {
  import opened Seqs
  import opened Types
  import opened Scoping
  import opened CourseCard
  import opened ClientHome

  /** The card for a joined enrollment; no enroll handler is passed. */
  function MyCard(x: Enrolled): CardProps
  {
    CardProps(x.course, false, true, Some(x.enrollment.progress))
  }

  /** The cards, in enrollment order. */
  function MyCourseCards(es: seq<Enrollment>, courses: seq<Course>, user: Option<User>): (r: seq<CardProps>)
    ensures |r| == |EnrolledCourses(es, courses, user)|
  {
    Map(EnrolledCourses(es, courses, user), MyCard)
  }

  /** Every card shows a course of one of the client's enrollments with that enrollment's
      progress, and none offers to enroll. */
  lemma MyCardsShowProgress(es: seq<Enrollment>, courses: seq<Course>, user: Option<User>)
    ensures var joined := EnrolledCourses(es, courses, user);
            var cards := MyCourseCards(es, courses, user);
            forall i :: 0 <= i < |cards| ==>
              && cards[i].course == joined[i].course
              && cards[i].course in courses
              && cards[i].course.id == joined[i].enrollment.courseId
              && BelongsTo(user, joined[i].enrollment.clientId)
              && ProgressShown(cards[i]) == Some(joined[i].enrollment.progress)
              && EnrollButton(cards[i]).None?
  {
    EnrolledCoursesExactly(es, courses, user);
  }

  /** The "No Enrolled Courses" prompt: shown exactly when there are no cards, that is when no
      enrollment of the client has a course. */
  lemma EmptyStateExactly(es: seq<Enrollment>, courses: seq<Course>, user: Option<User>)
    ensures MyCourseCards(es, courses, user) == []
            <==> forall i :: 0 <= i < |es| && BelongsTo(user, es[i].clientId) ==> !HasCourse(courses, es[i].courseId)
  {
    NoActiveCoursesExactly(es, courses, user);
  }
}
