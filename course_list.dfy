/** The course catalogue: a case-insensitive search over title and description, a difficulty
    filter, one of three sort orders applied to the filtered copy, and each card's enrolled flag
    and progress looked up in the client's enrollments. */
module CourseList {
  import opened Seqs
  import opened Sorting
  import opened Text
  import opened Types
  import opened CourseCard

  /** The lower-cased title or description contains the lower-cased search term. */
  predicate MatchesSearch(c: Course, term: string)
  {
    Contains(Lower(c.title), Lower(term)) || Contains(Lower(c.description), Lower(term))
  }

  /** `"all"` passes every course; any other value must name the course's difficulty. */
  predicate MatchesDifficulty(c: Course, filter: string)
  {
    filter == "all" || DifficultyName(c.difficulty) == filter
  }

  predicate Passes(term: string, filter: string, c: Course)
  {
    MatchesSearch(c, term) && MatchesDifficulty(c, filter)
  }

  /** The empty search term matches every course. */
  lemma EmptySearchMatchesAll(c: Course)
    ensures MatchesSearch(c, "")
  {
    assert OccursAt(Lower(c.title), Lower(""), 0);
  }

  lemma {:induction false} LowerIdempotent(s: string)
    ensures Lower(Lower(s)) == Lower(s)
  {
    if s != [] {
      LowerIdempotent(s[1..]);
    }
  }

  /** Lower-casing commutes with taking a slice. */
  lemma LowerSlice(s: string, i: nat, j: nat)
    requires i <= j <= |s|
    ensures Lower(s)[i..j] == Lower(s[i..j])
  {
    forall k | 0 <= k < j - i {
      LowerSliceAt(s, i, j, k);
    }
  }

  lemma LowerSliceAt(s: string, i: nat, j: nat, k: nat)
    requires i <= j <= |s| && k < j - i
    ensures Lower(s)[i..j][k] == Lower(s[i..j])[k]
  {
    var t := s[i..j];
    assert t[k] == s[i + k];
    assert Lower(t)[k] == LowerChar(t[k]);
    assert Lower(s)[i + k] == LowerChar(s[i + k]);
  }

  /** Text containing the term as typed contains it once both are lower-cased. */
  lemma ContainsLower(hay: string, term: string)
    requires Contains(hay, term)
    ensures Contains(Lower(hay), Lower(term))
  {
    var i: nat :| i <= |hay| - |term| && OccursAt(hay, term, i);
    LowerSlice(hay, i, i + |term|);
    assert OccursAt(Lower(hay), Lower(term), i);
  }

  /** The search ignores case: a term and its lower-cased form match the same courses, and a
      title or description containing the term as typed always matches. */
  lemma SearchIgnoresCase(c: Course, term: string)
    ensures MatchesSearch(c, Lower(term)) == MatchesSearch(c, term)
    ensures Contains(c.title, term) || Contains(c.description, term) ==> MatchesSearch(c, term)
  {
    LowerIdempotent(term);
    if Contains(c.title, term) {
      ContainsLower(c.title, term);
    } else if Contains(c.description, term) {
      ContainsLower(c.description, term);
    }
  }

  /** The difficulty filter passes a course exactly when it is `"all"` or reads back as that
      course's difficulty. */
  lemma DifficultyFilterExactly(c: Course, filter: string)
    ensures MatchesDifficulty(c, filter) <==> filter == "all" || ParseDifficulty(filter) == Some(c.difficulty)
  {
  }

  // The three orders, as `compare(a, b) <= 0`.

  /** `a.title.localeCompare(b.title)`. */
  predicate TitleOrder(a: Course, b: Course) { LexLeq(a.title, b.title) }

  /** `{ Beginner: 1, Intermediate: 2, Advanced: 3 }`. */
  function Rank(d: Difficulty): nat
  {
    match d
    case Beginner => 1
    case Intermediate => 2
    case Advanced => 3
  }

  /** `order[a.difficulty] - order[b.difficulty]`. */
  predicate DifficultyOrder(a: Course, b: Course) { Rank(a.difficulty) <= Rank(b.difficulty) }

  /** `b.currentEnrollment - a.currentEnrollment`: most enrolled first. */
  predicate PopularityOrder(a: Course, b: Course) { b.currentEnrollment <= a.currentEnrollment }

  /** `0`: every pair is tied. */
  predicate AnyOrder(a: Course, b: Course) { true }

  /** The comparator the `sortBy` key selects. */
  function Order(sortBy: string): (Course, Course) -> bool
  {
    if sortBy == "title" then TitleOrder
    else if sortBy == "difficulty" then DifficultyOrder
    else if sortBy == "enrollment" then PopularityOrder
    else AnyOrder
  }

  lemma TitleOrderPreorder()
    ensures TotalPreorder(TitleOrder)
  {
    forall a: Course, b: Course ensures TitleOrder(a, b) || TitleOrder(b, a) {
      LexTotal(a.title, b.title);
    }
    forall a: Course, b: Course, c: Course | TitleOrder(a, b) && TitleOrder(b, c) ensures TitleOrder(a, c) {
      LexTransitive(a.title, b.title, c.title);
    }
  }

  lemma DifficultyOrderPreorder()
    ensures TotalPreorder(DifficultyOrder)
  {
  }

  lemma PopularityOrderPreorder()
    ensures TotalPreorder(PopularityOrder)
  {
  }

  /** Every selectable order is total and transitive. */
  lemma OrderPreorder(sortBy: string)
    ensures TotalPreorder(Order(sortBy))
  {
    TitleOrderPreorder();
    DifficultyOrderPreorder();
    PopularityOrderPreorder();
  }

  /** The courses passing both filters, in input order. */
  function Passing(courses: seq<Course>, term: string, filter: string): seq<Course>
  {
    Filter(courses, (c: Course) => Passes(term, filter, c))
  }

  /** The list the catalogue shows: the passing courses, sorted by the selected key. */
  function FilteredCourses(courses: seq<Course>, term: string, filter: string, sortBy: string): seq<Course>
  {
    Sort(Passing(courses, term, filter), Order(sortBy))
  }

  /** The list is a permutation of exactly the courses that pass both filters, ordered by the
      selected key, with courses the key ties kept in input order. */
  lemma FilteredCoursesExactly(courses: seq<Course>, term: string, filter: string, sortBy: string)
    ensures var passing := Passing(courses, term, filter);
            var r := FilteredCourses(courses, term, filter, sortBy);
            && multiset(r) == multiset(passing)
            && (forall c :: c in r <==> c in courses && Passes(term, filter, c))
            && SortedAll(r, Order(sortBy))
            && forall k :: Filter(r, TiedWith(Order(sortBy), k)) == Filter(passing, TiedWith(Order(sortBy), k))
  {
    var passing := Passing(courses, term, filter);
    var r := FilteredCourses(courses, term, filter, sortBy);
    OrderPreorder(sortBy);
    SortSortedAll(passing, Order(sortBy));
    forall c ensures c in r <==> c in courses && Passes(term, filter, c) {
      assert c in r <==> c in multiset(passing);
    }
    forall k ensures Filter(r, TiedWith(Order(sortBy), k)) == Filter(passing, TiedWith(Order(sortBy), k)) {
      SortStable(passing, Order(sortBy), k);
    }
  }

  /** An unrecognised sort key leaves the filtered courses in input order. */
  lemma UnknownKeyKeepsOrder(courses: seq<Course>, term: string, filter: string, sortBy: string)
    requires sortBy != "title" && sortBy != "difficulty" && sortBy != "enrollment"
    ensures FilteredCourses(courses, term, filter, sortBy) == Passing(courses, term, filter)
  {
    SortAllTied(Passing(courses, term, filter), AnyOrder);
  }

  /** The "No courses found" message: shown exactly when no course passes both filters. */
  lemma NoneFoundExactly(courses: seq<Course>, term: string, filter: string, sortBy: string)
    ensures FilteredCourses(courses, term, filter, sortBy) == []
            <==> forall i :: 0 <= i < |courses| ==> !Passes(term, filter, courses[i])
  {
    var passing := Passing(courses, term, filter);
    if passing != [] {
      assert passing[0] in courses;
    }
  }

  /** `enrolledCourses.some(ec => ec.courseId === courseId)`. */
  predicate IsEnrolled(enrolled: seq<Enrollment>, courseId: Id)
  {
    exists i | 0 <= i < |enrolled| :: enrolled[i].courseId == courseId
  }

  /** `enrolledCourses.find(ec => ec.courseId === courseId)?.progress`: the progress of the first
      enrollment in the course, defined exactly when there is one. */
  function EnrolledProgress(enrolled: seq<Enrollment>, courseId: Id): (r: Option<nat>)
    ensures r.Some? <==> IsEnrolled(enrolled, courseId)
    ensures r.Some? ==> exists i :: 0 <= i < |enrolled| && enrolled[i].courseId == courseId
                                    && r.value == enrolled[i].progress
                                    && forall j :: 0 <= j < i ==> enrolled[j].courseId != courseId
  {
    match Find(enrolled, (e: Enrollment) => e.courseId == courseId)
    case None => None
    case Some(e) => Some(e.progress)
  }

  /** The card the list renders for a course. */
  function CardFor(course: Course, canEnroll: bool, enrolled: seq<Enrollment>): CardProps
  {
    CardProps(course, canEnroll, IsEnrolled(enrolled, course.id), EnrolledProgress(enrolled, course.id))
  }

  /** On a listed card the progress bar shows exactly for an enrolled course, and the enroll
      button exactly for a course not enrolled in when a handler was supplied. */
  lemma ListedCardFlags(course: Course, canEnroll: bool, enrolled: seq<Enrollment>)
    ensures ProgressShown(CardFor(course, canEnroll, enrolled)).Some? <==> IsEnrolled(enrolled, course.id)
    ensures EnrollButton(CardFor(course, canEnroll, enrolled)).Some? <==> !IsEnrolled(enrolled, course.id) && canEnroll
  {
  }

  /** The cards of the catalogue, in list order. */
  function Cards(courses: seq<Course>, term: string, filter: string, sortBy: string,
                 canEnroll: bool, enrolled: seq<Enrollment>): (r: seq<CardProps>)
    ensures |r| == |FilteredCourses(courses, term, filter, sortBy)|
    ensures forall i :: 0 <= i < |r| ==> r[i].course == FilteredCourses(courses, term, filter, sortBy)[i]
  {
    Map(FilteredCourses(courses, term, filter, sortBy), (c: Course) => CardFor(c, canEnroll, enrolled))
  }

  /** What the course grid renders: placeholder skeletons while the store is loading, otherwise
      the cards together with whether the "No courses found" message shows beneath them. */
  datatype Grid = Placeholders(count: nat) | CardGrid(cards: seq<CardProps>, noneFound: bool)

  /** The grid shows six placeholders exactly while loading, and neither cards nor the empty
      message then; once loaded it shows the catalogue's cards, and the message exactly when no
      course passes both filters. */
  function CourseGrid(loading: bool, courses: seq<Course>, term: string, filter: string, sortBy: string,
                      canEnroll: bool, enrolled: seq<Enrollment>): (r: Grid)
    ensures r.Placeholders? <==> loading
    ensures r.Placeholders? ==> r.count == 6
    ensures r.CardGrid? ==> r.cards == Cards(courses, term, filter, sortBy, canEnroll, enrolled)
    ensures r.CardGrid? ==> (r.noneFound <==> forall i :: 0 <= i < |courses| ==> !Passes(term, filter, courses[i]))
  {
    if loading then Placeholders(6)
    else
      NoneFoundExactly(courses, term, filter, sortBy);
      CardGrid(Cards(courses, term, filter, sortBy, canEnroll, enrolled),
               FilteredCourses(courses, term, filter, sortBy) == [])
  }
}
