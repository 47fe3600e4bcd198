# Fitness course management: a verified model of the state and statistics layer

This project models the logic of a small fitness-course web application. Trainers publish
courses and hold sessions. Clients enroll, attend and are graded.

The model covers five parts of the application:

- the entity store, a reducer over four collections (courses, sessions, enrollments and
  progress records) driven by tagged commands;
- the current-user context, with its role switch;
- the statistics and selections the trainer and client pages compute inline: trainer and
  client scoping, rounded means and percentages, the performance buckets, completion and
  attendance rates, top-N and last-N lists after sorting, and the enrollment-to-course join;
- the course catalogue's search, filter and sort, and the capacity rules of course cards and the
  details view;
- the enrollment form's validator and submit flow, the record construction behind "create
  course" and "enroll", the header's role-to-navigation mapping, and the one-off codemod that
  rewrites `.jsx` files.

Each source file becomes one module. The pure parts are functions over datatypes:

- the reducer (`DataStore.Step`);
- every page computation;
- the regular-expression rewrite.

The imperative parts are methods:

- the identity context is a class (`UserContext.UserProvider`) whose methods replace its
  current user;
- the enrollment form is a class (`EnrollmentForm.Form`) with its data, error map, submitting
  flag and failure message;
- the three places that sort the caller's array in place are methods on an `array`, proved
  equal to a stable sort:
  - the reports page's students tab and its attendance trend;
  - the progress dashboard's recent sessions;
- the codemod's directory walk is a loop proved equal to a recursive tree function.

`Math.round` of a ratio is exact half-up rounding over naturals: `Rounding.RoundDiv(p, q)` is
`(2p + q) / (2q)`, characterised by `p/q - 1/2 <= r < p/q + 1/2`.

Array sorting is `Sorting.Sort`, a stable insertion sort by a comparator `compare(a, b) <= 0`.
It is proved to be a permutation, to be sorted for every total preorder, and to be stable.
JavaScript's `Array.prototype.sort` is stable.

Two divisions in the source are not guarded. Instead of requiring them away, the model shows
them as written with `Rounding.Shown = Num | Infinity | NaN` (see "## Findings").

Session attendance is a list of client ids (lib/types.ts:32), and nothing in the code keeps
it duplicate-free. The model keeps it as a `seq<Id>`, so an attendance list may repeat an id or
name a client who is not enrolled. `TrainerAttendance.SessionRateCanExceed100` shows what a
session's rate then does.

## Model

| member | source | states |
|---|---|---|
| DataStore.Step | contexts/data-context.jsx:15-54 | no command shortens the sessions or enrollments, and progress records are only ever appended to |
| DataStore.ReplaceById | contexts/data-context.jsx:19-25 | an update keeps length and order, puts the payload wherever the id matches and leaves every other element as it was |
| DataStore.RemoveCourse | contexts/data-context.jsx:26-30 | no kept course has the deleted id, kept courses come from the list, and every course with another id is kept as many times as it was listed |
| DataStore.RemoveCourseConcat | contexts/data-context.jsx:26-30 | deleting from a list made of two parts deletes from each part and keeps them in order, so the kept courses stay in list order |
| DataStore.AddsAppend | contexts/data-context.jsx:17-50 | each of the four adds appends its payload after the unchanged old elements |
| DataStore.OnlyTargetChanges | contexts/data-context.jsx:15-54 | every command leaves the three collections other than its own exactly as they were |
| DataStore.UnrecognizedIsNoOp | contexts/data-context.jsx:51-52 | an unknown command type returns the state unchanged |
| DataStore.ReplaceAbsent | contexts/data-context.jsx:19-25 | an update whose id matches nothing returns the collection unchanged |
| DataStore.ReplaceIdempotent | contexts/data-context.jsx:19-25 | replacing by id twice with the same payload equals replacing once |
| DataStore.UpdatesIdempotent | contexts/data-context.jsx:19-48 | UPDATE_COURSE, UPDATE_ENROLLMENT and UPDATE_SESSION applied twice equal applied once |
| DataStore.UpdateCourseAbsent | contexts/data-context.jsx:19-25 | UPDATE_COURSE with an absent id leaves the whole state unchanged |
| DataStore.UpdateEnrollmentAbsent | contexts/data-context.jsx:33-39 | UPDATE_ENROLLMENT with an absent id leaves the whole state unchanged |
| DataStore.UpdateSessionAbsent | contexts/data-context.jsx:42-48 | UPDATE_SESSION with an absent id leaves the whole state unchanged |
| DataStore.AddThenDelete | contexts/data-context.jsx:17-30 | ADD_COURSE then DELETE_COURSE of its id restores the course list exactly when no course had that id before |
| DataStore.AddCourseAllowsDuplicates | contexts/data-context.jsx:17-18 | adding never checks ids: the number of courses with the new id rises by one |
| DataStore.DeleteDoesNotCascade | contexts/data-context.jsx:26-30 | deleting a course leaves the sessions and enrollments referring to it in place, and no course with that id remains |
| DataStore.RunNeverShrinks | contexts/data-context.jsx:15-54 | over any command sequence, sessions and enrollments never shrink and the old progress records stay a prefix |
| Types.ParseRole | lib/types.ts:1 | a stored role string reads back as the role whose name it is, and any other string is no role |
| Types.ParseDifficulty | lib/types.ts:18 | a stored difficulty string reads back as the difficulty whose name it is, and any other string is none |
| UserContext.FirstWithRole | contexts/user-context.jsx:12 | the result is the first listed user with the role, and none exactly when no user has it |
| UserContext.SwitchedRoleOrUnchanged | contexts/user-context.jsx:11-16 | after a switch the current user has the requested role or is unchanged, and it is unchanged when no user has the role |
| UserContext.SwitchIdempotent | contexts/user-context.jsx:11-16 | switching twice to the same role equals switching once |
| UserContext.SwitchKeepsFromList | contexts/user-context.jsx:12-14 | a switch installs only users from the fixed list |
| UserContext.UserProvider.constructor | contexts/user-context.jsx:9 | the current user starts as the first listed user (none for an empty list) |
| UserContext.UserProvider.SwitchRole | contexts/user-context.jsx:11-16 | the new current user is the switched user of the old one, and a user from the list stays one from the list |
| UserContext.UserProvider.SetCurrentUser | contexts/user-context.jsx:18 | the exposed setter installs any value, listed or not |
| UserContext.SwitchedUser | contexts/user-context.jsx:11-16 | the user a role switch installs; FirstWithRole, SwitchedRoleOrUnchanged, SwitchIdempotent and SwitchKeepsFromList state what it is |
| Header.NavLinks | components/header.jsx:23-39 | a trainer gets exactly the five trainer links and a client exactly the four client links, each under its own area; an admin or nobody gets the single Home link |
| Header.DistinctHrefs | components/header.jsx:23-39 | within each role's list no two links share an href |
| Header.AtMostOneActive | components/header.jsx:53-59 | a link is active when the pathname equals its href, so at most one link is active |
| Header.AccountMenu | components/header.jsx:67-93 | the menu exists exactly when a user is signed in, and offers the client role and then the trainer role |
| Header.MenuSwitchesLinks | components/header.jsx:86-93 | choosing a menu role that some listed user has switches the navigation to that role's links |
| Header.IsActive | components/header.jsx:53-59 | a link is highlighted when the pathname equals its href; AtMostOneActive shows that at most one link is |
| Scoping.TrainerCourses | app/trainer/courses/page.jsx:33 | exactly the courses whose trainer id is the current user's id; none without a user |
| Scoping.TrainerCoursesConcat | app/trainer/courses/page.jsx:33 | the trainer's courses keep the store's order: the trainer's part of a list made of two parts is the trainer's part of each, in order |
| Scoping.TrainerCoursesAppend | app/trainer/courses/page.jsx:33 | a course of the trainer's appended to the store comes last in the trainer's list |
| Scoping.SessionsOf | app/trainer/reports/page.jsx:38 | exactly the sessions whose course is one of the given courses |
| Scoping.EnrollmentsOf | app/trainer/reports/page.jsx:37 | exactly the enrollments whose course is one of the given courses |
| Scoping.TrainerSessionsExactly | app/trainer/sessions/page.jsx:31-33 | a session is the trainer's exactly when it belongs to a course the trainer owns |
| Scoping.CourseSessions | app/trainer/reports/page.jsx:258 | exactly the sessions of one course |
| Scoping.CourseEnrollments | app/trainer/reports/page.jsx:300 | exactly the enrollments of one course |
| Scoping.CourseRecords | app/trainer/reports/page.jsx:306 | exactly the progress records of one course |
| Scoping.ClientEnrollments | app/client/progress/page.jsx:11 | exactly the enrollments whose client is the current user, each as many times as in the store; none without a user |
| Scoping.ClientEnrollmentsConcat | app/client/progress/page.jsx:11 | the client's enrollments keep the store's order: the client's part of a list made of two parts is the client's part of each, in order |
| Scoping.ClientRecords | app/client/progress/page.jsx:12 | exactly the progress records whose client is the current user, each as many times as in the store; none without a user |
| Scoping.ClientRecordsConcat | app/client/progress/page.jsx:12 | the client's records keep the store's order: the client's part of a list made of two parts is the client's part of each, in order |
| Scoping.MeanAttendanceBounded | app/trainer/reports/page.jsx:39-42 | the rounded mean attendance is 0 with no sessions and never exceeds a bound every session respects |
| Scoping.NextSessionsAreNext | components/trainer-dashboard.jsx:24-27 | exactly n sessions, or every upcoming one when fewer are upcoming, all after now and from the list, in date order, none later than an upcoming session left out |
| Scoping.CourseById | app/trainer/reports/page.jsx:64 | the first listed course with the id, and none exactly when no course has it |
| Scoping.JoinCourses | app/client/page.jsx:17-23 | each joined entry pairs a given enrollment with the first listed course of its course id, the one `find` returns |
| Scoping.JoinKeepsOrder | app/client/page.jsx:17-23 | the join keeps exactly the enrollments that have a course, in their order |
| Scoping.EarlierSessionPreorder | components/trainer-dashboard.jsx:26 | the earliest-first session comparator is total and transitive |
| Scoping.LaterSessionPreorder | app/trainer/sessions/page.jsx:34 | the latest-first session comparator is total and transitive |
| Scoping.MoreProgressPreorder | app/trainer/reports/page.jsx:365 | the descending-progress comparator is total and transitive |
| Scoping.LaterRecordPreorder | components/progress-dashboard.jsx:17 | the latest-first record comparator is total and transitive |
| Scoping.MeanAttendance | app/trainer/reports/page.jsx:39-42 | the rounded mean attendee count per session, 0 without sessions; MeanAttendanceBounded bounds it |
| TrainerAttendance.AvgAttendanceCard | app/trainer/attendance/page.jsx:77-81 | the "Avg Attendance" card: the filtered sessions' mean attendee count rounded half up, within half a student of the exact mean, and 0 with no session |
| Scoping.NextSessions | components/trainer-dashboard.jsx:24-27 | the sessions after now, earliest first, cut to n; NextSessionsAreNext states the count (n, or every upcoming session when fewer), membership, order and that none later was kept over one earlier |
| Rounding.RoundDiv | app/trainer/reports/page.jsx:41 | the rounded quotient lies within one half of the exact ratio, rounding halves up |
| Rounding.RoundDivShown | components/trainer-dashboard.jsx:21 | a nonzero divisor shows the rounded quotient; a zero divisor shows Infinity for a positive dividend and NaN for zero |
| Rounding.RoundedMean | components/progress-dashboard.jsx:12-14 | a guarded rounded mean, 0 for no terms; MeanAtMost keeps it within any bound every term respects |
| Rounding.Percent | app/trainer/reports/page.jsx:171-173 | a guarded rounded percentage, 0 for an empty whole; PercentAtMost100 and PercentMonotone bound it and order it |
| Sorting.SortStable | components/course-list.jsx:24-36 | sorting keeps the input order among elements the comparator ties |
| Sorting.SortInPlace | app/trainer/reports/page.jsx:60-61 | the array afterwards holds the stable sort of its old contents |
| Sorting.Sort | components/course-list.jsx:24 | the array sort: a permutation of its input (its own contract), sorted for a total preorder (SortSortedAll) and stable (SortStable) |
| TrainerDashboard.MyCourses | components/trainer-dashboard.jsx:15 | exactly the courses of the hard-coded trainer "2", whoever is signed in |
| TrainerDashboard.ClientIds | components/trainer-dashboard.jsx:19 | an id is in the set exactly when some enrollment has it as client |
| TrainerDashboard.TotalStudentsBounded | components/trainer-dashboard.jsx:19 | there are never more distinct students than enrollments, and at least one when there is an enrollment |
| TrainerDashboard.AverageAttendanceUnguarded | components/trainer-dashboard.jsx:20-22 | with sessions but no enrollments the card shows Infinity or NaN |
| TrainerDashboard.AverageAttendanceCorrected | components/trainer-dashboard.jsx:20-22 | the guarded figure equals the card wherever the card shows a number, and is at most 100 when no session has more attendees than enrollments |
| TrainerDashboard.CourseRateBounded | components/trainer-dashboard.jsx:178-181 | the per-course rate over the cached enrollment count is 0 when that count is 0, and at most 100 when no session exceeds it |
| TrainerDashboard.UpcomingRow | components/trainer-dashboard.jsx:145-151 | the row shows the attendee count over the cached count of the first of the trainer's courses with the session's course id, the one `find` returns, or over 0 when no such course exists |
| TrainerDashboard.TotalStudents | components/trainer-dashboard.jsx:19 | the number of distinct client ids among the enrollments; ClientIds gives the set and TotalStudentsBounded its bounds |
| TrainerDashboard.AverageAttendanceAsWritten | components/trainer-dashboard.jsx:20-22 | the card as written, with only the session count guarded; AverageAttendanceUnguarded shows it reaching Infinity or NaN |
| TrainerDashboard.AverageAttendance | components/trainer-dashboard.jsx:20-22 | the card with the enrollment count guarded as well; AverageAttendanceCorrected ties it to the card and bounds it |
| TrainerDashboard.UpcomingSessions | components/trainer-dashboard.jsx:24-27 | the next five sessions after now; NextSessionsAreNext states which they are |
| TrainerDashboard.CourseRate | components/trainer-dashboard.jsx:178-181 | the per-course attendance rate over the cached enrollment count; CourseRateBounded bounds it |
| TrainerReports.FilteredCourses | app/trainer/reports/page.jsx:33-34 | "all" keeps every trainer course; any other value keeps exactly the trainer courses with that id |
| TrainerReports.ChartLabel | app/trainer/reports/page.jsx:52 | titles of at most 15 characters are unchanged; longer ones become their first 15 characters and "..." |
| TrainerReports.TrendLabel | app/trainer/reports/page.jsx:68 | the first 10 characters of the course title, or "Unknown" when the course is missing or its title empty |
| TrainerReports.PerformanceRowBounded | app/trainer/reports/page.jsx:45-57 | a chart row's average progress is at most 100 when every progress is, and its count is at most the number of enrollments |
| TrainerReports.DistributionTotal | app/trainer/reports/page.jsx:73-90 | the four progress buckets add up to the number of enrollments |
| TrainerReports.DistributionExample | app/trainer/reports/page.jsx:73-90 | progress 40, 60 and 90 fall into the first, second and fourth bucket, and the completion rate is 33 |
| TrainerReports.CompletionRateBounds | app/trainer/reports/page.jsx:171-173 | the completion rate lies in 0..100, is 0 with no enrollments and 100 when all are at 80% or more |
| TrainerReports.CourseAttendance | app/trainer/reports/page.jsx:258-281 | a course's row is labelled good exactly when its rate is at least 70 |
| TrainerReports.CourseAttendanceBounded | app/trainer/reports/page.jsx:258-270 | the rate is 0 without enrollments and at most 100 when no session has more attendees than the course has enrollments |
| TrainerReports.CourseSummaryBounded | app/trainer/reports/page.jsx:300-343 | with progress and performance within 0..100, the card's average progress, average performance and completion rate are too |
| TrainerReports.StudentsTab | app/trainer/reports/page.jsx:364-403 | the enrollments array is sorted in place by descending progress; the top list is its first 10 and the at-risk list is filtered from the new order |
| TrainerReports.TopPerformersAreBest | app/trainer/reports/page.jsx:364-366 | the sort is a permutation, and every top performer has at least the progress of every enrollment not shown |
| TrainerReports.AtRiskAfterSort | app/trainer/reports/page.jsx:400-403 | the at-risk list read after the sort is in descending progress and holds exactly the enrollments below 60% |
| TrainerReports.AttendanceTrend | app/trainer/reports/page.jsx:60-70 | the sessions array is sorted in place by ascending date and the chart plots its last 10 |
| TrainerReports.TrendShowsLatest | app/trainer/reports/page.jsx:60-62 | the trend shows min(n, 10) sessions in date order, none earlier than a session left out |
| TrainerReports.PerformanceRowOf | app/trainer/reports/page.jsx:45-57 | one course's chart row; PerformanceRowBounded bounds its average and its count |
| TrainerReports.PerformanceData | app/trainer/reports/page.jsx:45-57 | one bar per filtered course, in order, with the course's chart label and capacity and never more enrollments than exist |
| TrainerReports.PerformanceDistribution | app/trainer/reports/page.jsx:73-90 | the four progress buckets; DistributionTotal shows they partition the enrollments and DistributionExample gives an instance |
| TrainerReports.CompletionRate | app/trainer/reports/page.jsx:171-173 | the share of enrollments at 80% or more; CompletionRateBounds states its range and extremes |
| TrainerReports.CourseSummaryOf | app/trainer/reports/page.jsx:300-343 | a course's summary card; CourseSummaryBounded keeps its three figures within 0..100 |
| TrainerReports.TrendPointOf | app/trainer/reports/page.jsx:63-69 | a trend point carries the session's date and attendee count, and its label is the trend label of the first trainer course with the session's course id, the one `find` returns, or "Unknown" when no such course exists |
| Scoping.FirstCourseIsFound | app/trainer/reports/page.jsx:64 | the course at the first position holding an id is the one `find` returns for it |
| TrainerAttendance.FilteredSessionsExactly | app/trainer/attendance/page.jsx:22-25 | the list holds each trainer session passing the selector, as often as in the input, latest first |
| TrainerAttendance.OverallRateUnguarded | app/trainer/attendance/page.jsx:93-100 | with sessions but no enrollment in the trainer's courses the card shows Infinity or NaN |
| TrainerAttendance.OverallRateCorrected | app/trainer/attendance/page.jsx:93-100 | the guarded rate equals the card wherever the card shows a number, and is at most 100 when no session has more attendees than the trainer has enrollments |
| TrainerAttendance.UserById | app/trainer/attendance/page.jsx:115 | the first listed user with the id, and none exactly when no user has it |
| TrainerAttendance.EnrolledStudents | app/trainer/attendance/page.jsx:112-119 | each row is an enrollment of the session's course with the first listed user of its client id, the one `find` returns, marked attended exactly when the client id is in the attendance |
| TrainerAttendance.EnrolledStudentsAreFilter | app/trainer/attendance/page.jsx:112-119 | the rows are exactly the session-course enrollments whose client is a known user, in order |
| TrainerAttendance.SessionRateCanExceed100 | app/trainer/attendance/page.jsx:121-122 | two attendees for one enrolled client give a session rate of 200 |
| TrainerAttendance.SessionRateBounded | app/trainer/attendance/page.jsx:121-122 | the session rate is at most 100 when attendees do not outnumber listed students |
| TrainerAttendance.SaveButtonShown | app/trainer/attendance/page.jsx:124 | the save button is offered exactly for sessions dated before now |
| TrainerAttendance.FilteredSessions | app/trainer/attendance/page.jsx:22-25 | the trainer's sessions passing the course selector, latest first; FilteredSessionsExactly states which and in what order |
| TrainerAttendance.OverallRateAsWritten | app/trainer/attendance/page.jsx:93-100 | the overall rate as written, with only the session count guarded; OverallRateUnguarded shows it reaching Infinity or NaN |
| TrainerAttendance.OverallRate | app/trainer/attendance/page.jsx:93-100 | the overall rate with both factors of the divisor guarded; OverallRateCorrected ties it to the card and bounds it |
| TrainerAttendance.SessionRate | app/trainer/attendance/page.jsx:121-122 | a session's attendees over its listed students; SessionRateBounded and SessionRateCanExceed100 say when it stays within 100 |
| TrainerSessions.TrainerSessionListExactly | app/trainer/sessions/page.jsx:31-34 | the list is a permutation of the trainer's sessions, latest first, each from a course the trainer owns, and empty without a user |
| TrainerSessions.AttendedShown | app/trainer/sessions/page.jsx:158-163 | the attendee count is shown, with the right number, exactly for past sessions |
| TrainerSessions.TrainerSessionList | app/trainer/sessions/page.jsx:31-34 | the trainer's sessions, latest first; TrainerSessionListExactly states which and in what order |
| TrainerCoursesPage.TrimmedPiece | app/trainer/courses/page.jsx:49 | a trimmed comma-free piece has no comma and no whitespace at either end |
| TrainerCoursesPage.EmptyObjectives | app/trainer/courses/page.jsx:49 | an empty objectives field yields one empty objective |
| TrainerCoursesPage.ObjectivesCount | app/trainer/courses/page.jsx:49 | there is one objective more than there are commas |
| TrainerCoursesPage.ObjectivesTrimmed | app/trainer/courses/page.jsx:49 | no objective contains a comma or begins or ends with whitespace |
| TrainerCoursesPage.ObjectiveTrimmed | app/trainer/courses/page.jsx:49 | the objective at any one position contains no comma and neither begins nor ends with whitespace |
| TrainerCoursesPage.CreateAppearsLast | app/trainer/courses/page.jsx:35-58 | the new course has no enrollments, is owned by the trainer, comes last in the trainer's list and changes no other collection |
| TrainerCoursesPage.DeleteLeavesList | app/trainer/courses/page.jsx:60-67 | after a delete no listed course has the id and every other course of the list remains |
| TrainerCoursesPage.EnrollmentCountFromStore | app/trainer/courses/page.jsx:152 | the displayed count ignores the cached counter and rises by one with each enrollment in the course |
| TrainerCoursesPage.ParseObjectives | app/trainer/courses/page.jsx:49 | the objectives field split at commas and trimmed; ObjectivesCount, ObjectivesTrimmed and EmptyObjectives state its shape |
| TrainerCoursesPage.NewCourse | app/trainer/courses/page.jsx:38-51 | the new course record: the given id, the form's title, description, duration, difficulty, capacity and schedule, the trainer's name and id, no enrollments, the parsed objectives and the placeholder image |
| TrainerCoursesPage.CreateCourse | app/trainer/courses/page.jsx:52 | the ADD_COURSE command carrying the new record; CreateAppearsLast states its effect on the store |
| TrainerCoursesPage.EnrollmentCount | app/trainer/courses/page.jsx:152 | the displayed enrollment count; EnrollmentCountFromStore shows it is counted from the store, not the cached counter |
| Text.Split | app/trainer/courses/page.jsx:49 | `split(",")`; SplitCount gives one piece more than commas and SplitJoin rejoins the pieces to the text |
| Text.SplitJoin | app/trainer/courses/page.jsx:49 | joining the pieces of a split with the separator gives back the text |
| CourseCard.SpotsLeft | components/course-card.jsx:17 | spots left is 0 exactly at capacity, negative exactly when over-full, and never above capacity |
| CourseCard.SpotsBadge | components/course-card.jsx:53 | the badge shows exactly when at most 3 spots are left, and shows the spots left |
| CourseCard.EnrollButton | components/course-card.jsx:69-72 | the button exists exactly when not enrolled and a handler is given; it is disabled and labelled "Full" exactly at zero spots |
| CourseCard.OverFullStaysEnabled | components/course-card.jsx:69-72 | an over-full course keeps an enabled "Enroll Now" button and a negative spots badge |
| CourseCard.ProgressShown | components/course-card.jsx:55 | the progress bar shows, with the given value, exactly when enrolled and a value is given |
| CourseCard.DifficultyColorsDistinct | components/course-card.jsx:11-15 | each difficulty has a colour of its own |
| CourseCard.AlmostFull | components/course-card.jsx:18 | at most three spots left, over-full courses included; SpotsBadge shows the badge for exactly these |
| CourseCard.DifficultyColor | components/course-card.jsx:11-15 | the colour class per difficulty; DifficultyColorsDistinct shows the three differ |
| CourseDetails.EnrollAction | components/course-details.jsx:145-158 | enrolled clients get a note; others get a warning exactly when almost full, and a button disabled and labelled "Course Full" exactly at zero spots |
| CourseDetails.DetailsAgreeWithCard | components/course-details.jsx:12-13 | the details view disables and warns for exactly the courses a card does |
| CourseDetails.ProgressCard | components/course-details.jsx:115 | the progress card shows, for the given enrollment, exactly when enrolled and an enrollment is given |
| CourseDetails.BadgeColor | components/course-details.jsx:35 | green exactly for Beginner, yellow exactly for Intermediate, red exactly for Advanced |
| CourseList.EmptySearchMatchesAll | components/course-list.jsx:19-20 | the empty search term matches every course |
| CourseList.SearchIgnoresCase | components/course-list.jsx:19-20 | a term and its lower-cased form match the same courses, and text containing the term as typed always matches |
| CourseList.DifficultyFilterExactly | components/course-list.jsx:21 | a course passes exactly when the filter is "all" or names its difficulty |
| CourseList.TitleOrderPreorder | components/course-list.jsx:27 | the title order is total and transitive |
| CourseList.DifficultyOrderPreorder | components/course-list.jsx:29-30 | the difficulty order is total and transitive |
| CourseList.PopularityOrderPreorder | components/course-list.jsx:32 | the descending-enrollment order is total and transitive |
| CourseList.OrderPreorder | components/course-list.jsx:24-36 | every comparator a sort key selects is total and transitive |
| CourseList.FilteredCoursesExactly | components/course-list.jsx:17-36 | the list is a permutation of exactly the passing courses, sorted by the key, keeping input order among ties |
| CourseList.UnknownKeyKeepsOrder | components/course-list.jsx:33-34 | an unrecognised sort key leaves the passing courses in input order |
| CourseList.NoneFoundExactly | components/course-list.jsx:106-110 | once loading is over, "No courses found" shows exactly when no course passes both filters |
| CourseList.EnrolledProgress | components/course-list.jsx:90-91 | the progress is defined exactly when enrolled and comes from the first enrollment in the course |
| CourseList.ListedCardFlags | components/course-list.jsx:90-99 | a listed card shows progress exactly when enrolled, and offers enrolling exactly when not enrolled and a handler is given |
| CourseList.Cards | components/course-list.jsx:89-102 | once loading is over, one card per listed course, in list order |
| CourseList.MatchesSearch | components/course-list.jsx:19-20 | case-insensitive search in title or description; EmptySearchMatchesAll and SearchIgnoresCase state its behaviour |
| CourseList.MatchesDifficulty | components/course-list.jsx:21 | the difficulty filter; DifficultyFilterExactly states which courses pass |
| CourseList.Passing | components/course-list.jsx:17-23 | the courses passing both filters, in input order; NoneFoundExactly and UnknownKeyKeepsOrder use it |
| CourseList.Order | components/course-list.jsx:24-36 | the comparator a sort key selects; OrderPreorder shows each is a total preorder |
| CourseList.FilteredCourses | components/course-list.jsx:17-36 | filter then sort; FilteredCoursesExactly states it is a stable sorted permutation of exactly the passing courses |
| CourseList.CardFor | components/course-list.jsx:90-99 | the props a listed card gets; ListedCardFlags and EnrolledProgress state them |
| CourseList.CourseGrid | components/course-list.jsx:74-110 | six placeholders exactly while loading; otherwise the cards, and the "No courses found" message exactly when no course passes both filters |
| ClientCoursesPage.NewEnrollment | app/client/courses/page.jsx:19-27 | the new enrollment belongs to the client and course, dated now, with progress 0, 0 attended and 12 sessions |
| ClientCoursesPage.EnrollCommand | app/client/courses/page.jsx:17-28 | a click dispatches one ADD_ENROLLMENT for the signed-in client and course, and nothing without a user |
| ClientCoursesPage.EnrollAppears | app/client/courses/page.jsx:15-34 | enrolling appends to the client's enrollments, marks the course enrolled and leaves the courses and their counters as they were |
| ClientCoursesPage.EnrollUnchecked | app/client/courses/page.jsx:17-28 | no duplicate or capacity check: the client's enrollments in the course rise by one every time |
| ClientHome.EnrolledCoursesExactly | app/client/page.jsx:17-23 | the joined list is the client's enrollments that have a course, in order, and empty without a user |
| ClientHome.ClientStatsBounded | app/client/page.jsx:25-61 | average progress and attendance rate are 0 with no courses, and at most 100 when progress and attended sessions respect their bounds |
| ClientHome.BadgeCount | app/client/page.jsx:84 | the badge count lies in 1..3: 3 exactly from 10 attended, 1 exactly below 5 |
| ClientHome.BadgeMonotone | app/client/page.jsx:84 | attending more never earns fewer badges |
| ClientHome.NoActiveCoursesExactly | app/client/page.jsx:98 | the "No Active Courses" card shows exactly when no enrollment of the client has a course |
| ClientHome.EnrolledCourses | app/client/page.jsx:17-23 | the client's enrollments joined to their courses; EnrolledCoursesExactly and NoActiveCoursesExactly state which |
| ClientHome.AvgProgress | app/client/page.jsx:27-29 | the rounded mean progress, 0 for none; ClientStatsBounded bounds it |
| ClientHome.AttendanceRate | app/client/page.jsx:61 | attended over scheduled sessions as a percentage, 0 when none are scheduled; ClientStatsBounded bounds it |
| MyCourses.MyCourseCards | app/client/my-courses/page.jsx:36-46 | one card per joined enrollment |
| MyCourses.MyCardsShowProgress | app/client/my-courses/page.jsx:36-46 | every card shows a listed course of one of the client's enrollments with that enrollment's progress, and none offers to enroll |
| MyCourses.EmptyStateExactly | app/client/my-courses/page.jsx:34-60 | the empty-state prompt shows exactly when no enrollment of the client has a course |
| MyCourses.MyCard | app/client/my-courses/page.jsx:36-46 | the card for one joined enrollment; MyCardsShowProgress states its course, progress and lack of an enroll button |
| ClientProgress.ProgressPageProps | app/client/progress/page.jsx:11-25 | the dashboard gets exactly the client's enrollments and records, with their multiplicities, and every session |
| ClientProgress.ProgressPagePropsInOrder | app/client/progress/page.jsx:11-12 | a record added for the client appears last in the records the dashboard gets |
| ClientProgress.ProgressPagePropsKeepOrder | app/client/progress/page.jsx:11-12 | the enrollments and records the dashboard gets keep the store's order: for a store made of two parts they are the client's part of each, in order |
| ProgressDashboard.ProgressStatsBounded | components/progress-dashboard.jsx:10-14 | completed is at most total; the average is 0 on none, at most 100 when progress is, and 100 when all are completed |
| ProgressDashboard.RecentSessions | components/progress-dashboard.jsx:16-18 | the caller's records array is sorted in place, latest first, and the first five are shown |
| ProgressDashboard.RecentAreLatest | components/progress-dashboard.jsx:16-18 | the sort is a permutation, and the five shown are the latest records, latest first |
| ProgressDashboard.Status | components/progress-dashboard.jsx:102-103 | "Completed" exactly at 100% progress, otherwise "In Progress" |
| ProgressDashboard.PerformanceRating | components/progress-dashboard.jsx:135-136 | the three ratings are disjoint and total: Excellent from 80, Good from 60 to 79, Needs Improvement below 60 |
| ProgressDashboard.RatingMonotone | components/progress-dashboard.jsx:135-136 | better performance never earns a worse rating |
| ProgressDashboard.CompletedCourses | components/progress-dashboard.jsx:11 | the enrollments at 100%; ProgressStatsBounded keeps it within the total |
| ProgressDashboard.AverageProgress | components/progress-dashboard.jsx:12-14 | the rounded mean progress; ProgressStatsBounded states 0 on none, the bound and 100 when all are completed |
| ProgressDashboard.UpcomingSessions | components/progress-dashboard.jsx:20-23 | the next three sessions after now; NextSessionsAreNext states which they are |
| ProgressDashboard.RatingText | components/progress-dashboard.jsx:135-136 | the badge label of a rating; BadgeText ties it to the thresholds |
| ProgressDashboard.BadgeText | components/progress-dashboard.jsx:135-136 | the record badge reads "Excellent" exactly from 80, "Good" exactly from 60 to 79 and "Needs Improvement" exactly below 60 |
| EnrollmentForm.WithField | components/enrollment-form.jsx:62 | an input change sets its own field to the value sent and leaves every other field unchanged |
| EnrollmentForm.EmailExamples | components/enrollment-form.jsx:33 | the pattern accepts a plain and a space-padded address, and rejects a space before the at sign and an empty domain |
| EnrollmentForm.EmailNeedsAtAndDot | components/enrollment-form.jsx:33 | text matching the pattern contains an at sign and a dot |
| EnrollmentForm.ErrorFor | components/enrollment-form.jsx:31-36 | required texts get an error exactly when blank; email is required or invalid; the terms must be accepted; the optional fields never get one |
| EnrollmentForm.FormErrors | components/enrollment-form.jsx:28-40 | the error map has an entry, with the field's message, exactly for the fields with an error |
| EnrollmentForm.CompleteHasNoErrors | components/enrollment-form.jsx:28-40 | a complete form gets an empty error map |
| EnrollmentForm.ValidExactlyWhenComplete | components/enrollment-form.jsx:28-40 | the error map is empty exactly when the form is complete |
| EnrollmentForm.SameRequiredSameErrors | components/enrollment-form.jsx:31-36 | forms that agree on the required fields get the same errors |
| EnrollmentForm.OptionalFieldsIgnored | components/enrollment-form.jsx:15-40 | changing the medical conditions or the fitness goals never changes the errors |
| EnrollmentForm.Form.constructor | components/enrollment-form.jsx:15-26 | the form starts empty, with no errors, not submitting and no failure message |
| EnrollmentForm.Form.ValidateForm | components/enrollment-form.jsx:28-40 | the whole error map is replaced, and the result is true exactly when the form is complete |
| EnrollmentForm.Form.HandleInputChange | components/enrollment-form.jsx:61-66 | sets one field, removes that field's error and leaves every other field and error as it was |
| EnrollmentForm.Form.Submit | components/enrollment-form.jsx:42-49 | the enroll call is made exactly when the form is complete, with the course id and data; submission then starts with no failure shown |
| EnrollmentForm.Form.Settle | components/enrollment-form.jsx:50-58 | submitting ends; success closes the form, failure shows the fixed message and leaves it open |
| EnrollmentForm.EmailMatches | components/enrollment-form.jsx:33 | the email pattern; EmailNeedsAtAndDot and EmailExamples state what it accepts |
| EnrollmentForm.Complete | components/enrollment-form.jsx:28-40 | every required field filled, a valid email and the terms accepted; ValidExactlyWhenComplete shows this is exactly an empty error map |
| Codemod.FirstClose | fix.js:6 | the first closing brace at or after a position, and none exactly when there is none |
| Codemod.MatchLength | fix.js:6 | the pattern matches at the start for exactly one length, the one returned, and not at all when none is returned |
| Codemod.RewriteLength | fix.js:6 | each replacement removes at least five characters |
| Codemod.NoMatchUnchanged | fix.js:6 | text without a match comes back unchanged |
| Codemod.ShorterExactly | fix.js:6 | the rewrite shortens the text exactly when it replaced something |
| Codemod.NoMarkerNoMatch | fix.js:6 | text in which "} & {" never occurs has no match |
| Codemod.RewriteExample | fix.js:6 | the intersection in a destructured parameter list is dropped |
| Codemod.FixEntry | fix.js:10-21 | names and kinds never change; a .jsx file gets the rewritten text and any other file stays as it was |
| Codemod.CleanUnchanged | fix.js:10-21 | a tree in which no .jsx file has a match comes through the walk unchanged |
| Codemod.WalkDir | fix.js:10-21 | the loop over a directory's entries, recursing into subdirectories, produces exactly the fixed tree |
| Codemod.Rewrite | fix.js:6 | the global replace; MatchLength, RewriteLength, NoMatchUnchanged, ShorterExactly and RewriteExample state its behaviour |
| Codemod.Matches | fix.js:6 | the number of replacements; ShorterExactly and RewriteLength relate it to the length change |

## Left out

- The asynchronous dispatch wrapper, with its simulated delay and its loading and error flags: the store is the synchronous reducer step.
- React hooks and context plumbing, the provider-missing errors, routing, toasts, icons, charts and markup.
- components/enrollment-form.jsx imports `Alert` and `AlertDescription` twice (lines 10 and 12), which an ES module rejects as a duplicate declaration, so the component as written does not load; the model describes the form as its code evidently intends, with one import.
- The trainer sessions page's create handler and the attendance page's save handler only show messages and close dialogs, so no data changes to model; the save button's visibility is modelled.
- The codemod's file-system calls: the directory tree is a value, and the walk returns the rewritten tree instead of writing files.
- Floating point: `Math.round` of a division is exact half-up rounding over naturals, with no IEEE behaviour at .5 boundaries.
- Locale and Unicode: trimming and the regular expression's `\s` use the six ASCII whitespace characters; lower-casing maps only A to Z; `localeCompare` is lexicographic character order.
- `parseInt` on the capacity field: the form's capacity is taken as an already parsed natural number.
- The seed lists of users, courses, sessions, enrollments and records are parameters.
- Date formatting with `toLocaleDateString`: dates are integer timestamps, and "now" is a parameter.
- Fresh ids from `Date.now()` are caller-supplied.
- The client home page, the My Courses page, the trainer reports page (app/trainer/reports/page.jsx), the attendance page (app/trainer/attendance/page.jsx) and the sessions page (app/trainer/sessions/page.jsx) read the seed lists of courses, sessions, enrollments and users rather than the store; the model passes the lists they read as parameters, so a course created in the store, as in TrainerCoursesPage.CreateAppearsLast, does not reach those pages.
- TrainerCoursesPage.CreateAppearsLast: creating a course needs a signed-in trainer, since the handler reads the current user's id and name; the no-user path, which throws, is not modelled.
- EnrollmentForm.Form.HandleInputChange: requires that a text input sends text and the checkbox a flag; a value of the wrong kind is not modelled.
- EnrollmentForm.Form.HandleInputChange: a cleared error is removed from the map rather than kept as `undefined`; every reader of the map treats the two alike.
- EnrollmentForm.Form.Submit: the asynchronous submit handler is split at its `await` into `Submit` and `Settle`; the wait between them is not modelled.
- The enrollment form's "Already Enrolled" view for an enrolled client is markup only.
- CourseDetails.BadgeColor: the source's catch-all red branch can only meet Advanced, since a difficulty outside the three is not representable in the model.
- A course difficulty, role or other enumerated string outside its declared values is not representable.

## Findings

| source | as written | input that shows it | evidently intended | confidence | as-written member | corrected member |
|---|---|---|---|---|---|---|
| components/trainer-dashboard.jsx:20-22 | the average attendance guards only the session count and divides by the enrollment count unguarded | trainer "2" has a course with one session attended by one client, and no enrollments: the card shows Infinity (NaN with no attendees) | 0 when there are no enrollments, as when there are no sessions | not executed | TrainerDashboard.AverageAttendanceUnguarded | TrainerDashboard.AverageAttendanceCorrected |
| app/trainer/attendance/page.jsx:93-100 | the overall attendance rate guards only the session count and divides by the trainer's enrollment count unguarded | the signed-in trainer's course has one session with one attendee and no enrollments: the card shows Infinity% (NaN% with no attendees) | 0 when the trainer's courses have no enrollments | not executed | TrainerAttendance.OverallRateUnguarded | TrainerAttendance.OverallRateCorrected |
