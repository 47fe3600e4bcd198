/** The progress dashboard: course totals and the average progress over the enrollments it is
    given, the five latest progress records (after sorting the caller's array in place), the
    next three sessions, and the status and performance labels. */
module ProgressDashboard {
  import opened Seqs
  import opened Sorting
  import opened Rounding
  import opened Types
  import opened Scoping

  /** An enrollment counts as completed only at exactly 100% progress. */
  predicate IsCompleted(e: Enrollment) { e.progress == 100 }

  function TotalCourses(es: seq<Enrollment>): nat { |es| }

  function CompletedCourses(es: seq<Enrollment>): nat { Count(es, IsCompleted) }

  /** The rounded mean progress, 0 with no enrollment. */
  function AverageProgress(es: seq<Enrollment>): nat
  {
    RoundedMean(ProgressTotal(es), |es|)
  }

  /** No more completed courses than courses; with every progress at most 100 the average is at
      most 100, and it is exactly 100 when every course is completed. */
  lemma ProgressStatsBounded(es: seq<Enrollment>)
    ensures CompletedCourses(es) <= TotalCourses(es)
    ensures (forall i :: 0 <= i < |es| ==> es[i].progress <= 100) ==> AverageProgress(es) <= 100
    ensures es != [] && (forall i :: 0 <= i < |es| ==> IsCompleted(es[i])) ==> AverageProgress(es) == 100
    ensures es == [] ==> AverageProgress(es) == 0
  {
    if forall i :: 0 <= i < |es| ==> es[i].progress <= 100 {
      MeanAtMost(es, (e: Enrollment) => e.progress, 100);
    }
    if es != [] && forall i :: 0 <= i < |es| ==> IsCompleted(es[i]) {
      AllCompletedTotal(es);
      RoundDivExact(100, |es|);
    }
  }

  lemma {:induction false} AllCompletedTotal(es: seq<Enrollment>)
    requires forall i :: 0 <= i < |es| ==> IsCompleted(es[i])
    ensures ProgressTotal(es) == 100 * |es|
  {
    if es != [] {
      AllCompletedTotal(es[1..]);
    }
  }

  /** The recent-sessions list: sorts the caller's records in place, latest first, and shows
      the first five. */
  method RecentSessions(progressRecords: array<ProgressRecord>) returns (recent: seq<ProgressRecord>)
    modifies progressRecords
    ensures progressRecords[..] == Sort(old(progressRecords[..]), LaterRecord)
    ensures recent == Take(progressRecords[..], 5)
  {
    SortInPlace(progressRecords, LaterRecord);
    recent := Take(progressRecords[..], 5);
  }

  /** The sort only reorders the caller's records, and the five shown are the latest ones,
      latest first. */
  lemma RecentAreLatest(records: seq<ProgressRecord>)
    ensures var sorted := Sort(records, LaterRecord);
            var recent := Take(sorted, 5);
            && multiset(sorted) == multiset(records)
            && |recent| == (if |records| < 5 then |records| else 5)
            && SortedAll(recent, LaterRecord)
            && forall i, j :: 0 <= i < |recent| <= j < |sorted| ==> recent[i].date >= sorted[j].date
  {
    LaterRecordPreorder();
    SortSortedAll(records, LaterRecord);
  }

  /** The next three sessions after `now`, earliest first. */
  function UpcomingSessions(sessions: seq<Session>, now: int): seq<Session>
  {
    NextSessions(sessions, now, 3)
  }

  /** The status badge. */
  function Status(e: Enrollment): (r: string)
    ensures r == "Completed" <==> IsCompleted(e)
    ensures r == "In Progress" <==> !IsCompleted(e)
  {
    assert |"Completed"| != |"In Progress"|;
    if IsCompleted(e) then "Completed" else "In Progress"
  }

  datatype Rating = Excellent | Good | NeedsImprovement

  /** A record's performance badge: Excellent from 80, Good from 60, Needs Improvement below. */
  function PerformanceRating(performance: nat): (r: Rating)
    ensures r == Excellent <==> performance >= 80
    ensures r == Good <==> 60 <= performance < 80
    ensures r == NeedsImprovement <==> performance < 60
  {
    if performance >= 80 then Excellent else if performance >= 60 then Good else NeedsImprovement
  }

  /** The label the record badge shows for a rating. */
  function RatingText(r: Rating): string
  {
    match r
    case Excellent => "Excellent"
    case Good => "Good"
    case NeedsImprovement => "Needs Improvement"
  }

  /** The record badge reads "Excellent" from 80, "Good" from 60 to 79 and "Needs Improvement"
      below 60, and the three labels differ. */
  lemma BadgeText(performance: nat)
    ensures RatingText(PerformanceRating(performance)) == "Excellent" <==> performance >= 80
    ensures RatingText(PerformanceRating(performance)) == "Good" <==> 60 <= performance < 80
    ensures RatingText(PerformanceRating(performance)) == "Needs Improvement" <==> performance < 60
  {
    assert |"Excellent"| == 9 && |"Good"| == 4 && |"Needs Improvement"| == 17;
  }

  /** A better performance never earns a worse rating. */
  lemma RatingMonotone(p: nat, q: nat)
    requires p <= q
    ensures PerformanceRating(p) == Excellent ==> PerformanceRating(q) == Excellent
    ensures PerformanceRating(q) == NeedsImprovement ==> PerformanceRating(p) == NeedsImprovement
  {
  }
}
