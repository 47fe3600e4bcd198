/** The client's progress page: the store's enrollments and progress records narrowed to the
    signed-in client, and every session, handed to the progress dashboard. */
module ClientProgress {
  import opened Seqs
  import opened Types
  import opened Scoping
  import opened DataStore

  datatype DashboardProps = DashboardProps(
    enrollments: seq<Enrollment>,
    progressRecords: seq<ProgressRecord>,
    sessions: seq<Session>)

  /** The dashboard gets exactly the client's enrollments and records, each as often as in the
      store and nothing of any other client, and the sessions unfiltered. */
  function ProgressPageProps(s: State, user: Option<User>): (r: DashboardProps)
    ensures r.sessions == s.sessions
    ensures forall e :: multiset(r.enrollments)[e] == if BelongsTo(user, e.clientId) then multiset(s.enrollments)[e] else 0
    ensures forall p :: multiset(r.progressRecords)[p] == if BelongsTo(user, p.clientId) then multiset(s.progressRecords)[p] else 0
  {
    var es := ClientEnrollments(s.enrollments, user);
    var rs := ClientRecords(s.progressRecords, user);
    assert forall e :: multiset(es)[e] == if BelongsTo(user, e.clientId) then multiset(s.enrollments)[e] else 0 by {
      forall e ensures multiset(es)[e] == if BelongsTo(user, e.clientId) then multiset(s.enrollments)[e] else 0 {
        FilterMultiset(s.enrollments, (x: Enrollment) => BelongsTo(user, x.clientId), e);
      }
    }
    assert forall p :: multiset(rs)[p] == if BelongsTo(user, p.clientId) then multiset(s.progressRecords)[p] else 0 by {
      forall p ensures multiset(rs)[p] == if BelongsTo(user, p.clientId) then multiset(s.progressRecords)[p] else 0 {
        FilterMultiset(s.progressRecords, (x: ProgressRecord) => BelongsTo(user, x.clientId), p);
      }
    }
    DashboardProps(es, rs, s.sessions)
  }

  /** Narrowing keeps the store's order: for a store whose lists are made of two parts, the
      dashboard gets the client's part of the first followed by the client's part of the second. */
  lemma ProgressPagePropsKeepOrder(s: State, user: Option<User>,
                                   e1: seq<Enrollment>, e2: seq<Enrollment>,
                                   r1: seq<ProgressRecord>, r2: seq<ProgressRecord>)
    requires s.enrollments == e1 + e2 && s.progressRecords == r1 + r2
    ensures ProgressPageProps(s, user).enrollments == ClientEnrollments(e1, user) + ClientEnrollments(e2, user)
    ensures ProgressPageProps(s, user).progressRecords == ClientRecords(r1, user) + ClientRecords(r2, user)
  {
    ClientEnrollmentsConcat(e1, e2, user);
    ClientRecordsConcat(r1, r2, user);
  }

  /** In particular a record added later for the client comes last. */
  lemma ProgressPagePropsInOrder(s: State, user: Option<User>, p: ProgressRecord)
    requires BelongsTo(user, p.clientId)
    ensures ProgressPageProps(Step(s, AddProgressRecord(p)), user).progressRecords
         == ProgressPageProps(s, user).progressRecords + [p]
  {
    var t := Step(s, AddProgressRecord(p));
    assert t.progressRecords == s.progressRecords + [p];
    RecordsAppend(s.progressRecords, user, p);
    assert ProgressPageProps(t, user).progressRecords == ClientRecords(t.progressRecords, user);
  }

  lemma RecordsAppend(rs: seq<ProgressRecord>, user: Option<User>, p: ProgressRecord)
    requires BelongsTo(user, p.clientId)
    ensures ClientRecords(rs + [p], user) == ClientRecords(rs, user) + [p]
  {
    var mine := (x: ProgressRecord) => BelongsTo(user, x.clientId);
    FilterConcat(rs, [p], mine);
    assert Filter([p], mine) == [p];
  }
}
