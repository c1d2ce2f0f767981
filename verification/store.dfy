/** The database as relations, and the meaning of each bulk query the
    activity class issues against it. Queries scoped to the viewing user (the
    viewer's submission and grade rows) are left abstract: the store answers
    them through functions. */
module Store {
  import opened Base
  import opened Adapters

  /** Seconds in a (365-day) year. */
  const YearSecs: int := 365 * 24 * 60 * 60

  /** A row of an activity table (`{assign}`, `{quiz}`, ...), together with the
      id of the course module that shows it. */
  datatype Instance = Instance(course: int, cmid: int, columns: Row)

  /** A row of a kind's submission table: the activity it belongs to, its
      author, its status or state column, and whether `timefinish` is set. */
  datatype Submission = Submission(instance: int, user: int, status: string, finished: bool)

  /** The (activity, user) pair of a row of a kind's grade table. */
  datatype GradeKey = GradeKey(instance: int, user: int)

  /** The tables of one kind: activities and submissions by primary key, and the
      pairs that have a grade row. */
  datatype ModTables = ModTables(
    instances: map<int, Instance>,
    submissions: map<int, Submission>,
    grades: set<GradeKey>)

  /** The submission-row query of get_submission_row. */
  datatype SubmissionQuery = SubmissionQuery(course: int, modName: ModName, table: string, keyField: string, filter: SubmitFilter)

  /** The grade-row query of grade_row. */
  datatype GradeQuery = GradeQuery(course: int, modName: ModName, keyField: string)

  datatype Store = Store(
    tables: ModName -> ModTables,
    /** Users enrolled in a course who hold moodle/grade:viewall. */
    graders: int -> set<int>,
    /** The viewer's submission rows, by activity id. */
    viewerSubmissions: SubmissionQuery -> map<int, Row>,
    /** The viewer's grade rows, by activity id. */
    viewerGrades: GradeQuery -> map<int, Row>)

  /** Open and close time of an activity; a NULL column is None. */
  datatype Dates = Dates(timeOpen: Option<int>, timeClose: Option<int>)

  predicate InCourse(t: ModTables, id: int, course: int)
  {
    id in t.instances && t.instances[id].course == course
  }

  /** Meaning of the dates query: every activity of the course, by id, with the
      two named columns. */
  function DatesQuery(t: ModTables, course: int, openField: string, closeField: string): map<int, Dates>
  {
    map id | id in t.instances && t.instances[id].course == course ::
      Dates(Get(t.instances[id].columns, openField), Get(t.instances[id].columns, closeField))
  }

  /** The distinct non-grader users with a submission row for activity `id`:
      the population of `COUNT(DISTINCT sb.userid)` in std_num_submissions. */
  function Submitters(t: ModTables, id: int, graders: set<int>): set<int>
  {
    set k | k in t.submissions && t.submissions[k].instance == id && t.submissions[k].user !in graders
      :: t.submissions[k].user
  }

  /** Meaning of the std_num_submissions query: one entry per activity of the
      course that has at least one joined row (inner join, GROUP BY). */
  function SubmissionTotals(t: ModTables, course: int, graders: set<int>): map<int, int>
  {
    map id | id in t.instances && t.instances[id].course == course && Submitters(t, id, graders) != {} ::
      |Submitters(t, id, graders)|
  }

  /** Which submission rows count as awaiting a grade. */
  datatype Pending = StatusIs(status: string) | TimeFinished

  predicate Qualifies(s: Submission, p: Pending)
  {
    match p
    case StatusIs(status) => s.status == status
    case TimeFinished => s.finished
  }

  /** Whether a submission row passes the ungraded filter: it qualifies, the
      left join finds no grade row (`gd.id IS NULL`), and its author is not a
      grader (`NOT IN`). */
  predicate Ungraded(t: ModTables, s: Submission, graders: set<int>, p: Pending)
  {
    Qualifies(s, p) && GradeKey(s.instance, s.user) !in t.grades && s.user !in graders
  }

  /** The submission rows (by id) for activity `id` awaiting a grade:
      `count(*)` of the per-instance ungraded counters counts these rows. */
  function PendingRows(t: ModTables, id: int, graders: set<int>, p: Pending): set<int>
  {
    set k | k in t.submissions && t.submissions[k].instance == id && Ungraded(t, t.submissions[k], graders, p)
  }

  /** Meaning of the assign/quiz ungraded-count queries. */
  function PendingTotals(t: ModTables, course: int, graders: set<int>, p: Pending): map<int, int>
  {
    map id | id in t.instances && t.instances[id].course == course && PendingRows(t, id, graders, p) != {} ::
      |PendingRows(t, id, graders, p)|
  }

  /** The distinct users behind PendingRows: `count(DISTINCT userid)` of the
      ungraded listing. */
  function PendingUsers(t: ModTables, id: int, graders: set<int>, p: Pending): set<int>
  {
    set k | k in t.submissions && t.submissions[k].instance == id && Ungraded(t, t.submissions[k], graders, p)
      :: t.submissions[k].user
  }

  /** Reading one activity out of the std_num_submissions totals gives its
      number of distinct submitters, or 0 when it is not in the course. */
  lemma SubmissionTotalsAt(t: ModTables, course: int, graders: set<int>, id: int)
    ensures OrZero(Get(SubmissionTotals(t, course, graders), id))
      == (if InCourse(t, id, course) then |Submitters(t, id, graders)| else 0)
  {
  }

  /** Reading one activity out of the ungraded totals gives its number of
      pending submission rows, or 0 when it is not in the course. */
  lemma PendingTotalsAt(t: ModTables, course: int, graders: set<int>, p: Pending, id: int)
    ensures OrZero(Get(PendingTotals(t, course, graders, p), id))
      == (if InCourse(t, id, course) then |PendingRows(t, id, graders, p)| else 0)
  {
  }

  /** The six-month cutoff: open-ended (close 0) or closing after now - YEARSECS/2. */
  predicate Recent(close: int, now: int)
  {
    close == 0 || close > now - YearSecs / 2
  }

  /** Grader exclusion: a submission row written by a grader changes neither
      the submission counts nor the ungraded counts nor the ungraded users. */
  lemma GraderSubmissionIgnored(t: ModTables, course: int, graders: set<int>, p: Pending, k: int, s: Submission)
    requires k !in t.submissions && s.user in graders
    ensures var t' := t.(submissions := t.submissions[k := s]);
      && SubmissionTotals(t', course, graders) == SubmissionTotals(t, course, graders)
      && PendingTotals(t', course, graders, p) == PendingTotals(t, course, graders, p)
      && forall id :: PendingUsers(t', id, graders, p) == PendingUsers(t, id, graders, p)
  {
    SubmissionTotalsIgnoreGrader(t, course, graders, k, s);
    PendingTotalsIgnoreGrader(t, course, graders, p, k, s);
    forall id ensures PendingUsers(t.(submissions := t.submissions[k := s]), id, graders, p) == PendingUsers(t, id, graders, p) {
      GraderRowIgnoredByPending(t, graders, p, k, s, id);
    }
  }

  lemma SubmissionTotalsIgnoreGrader(t: ModTables, course: int, graders: set<int>, k: int, s: Submission)
    requires k !in t.submissions && s.user in graders
    ensures SubmissionTotals(t.(submissions := t.submissions[k := s]), course, graders) == SubmissionTotals(t, course, graders)
  {
    forall id ensures Submitters(t.(submissions := t.submissions[k := s]), id, graders) == Submitters(t, id, graders) {
      GraderRowIgnoredBySubmitters(t, graders, k, s, id);
    }
  }

  lemma PendingTotalsIgnoreGrader(t: ModTables, course: int, graders: set<int>, p: Pending, k: int, s: Submission)
    requires k !in t.submissions && s.user in graders
    ensures PendingTotals(t.(submissions := t.submissions[k := s]), course, graders, p) == PendingTotals(t, course, graders, p)
  {
    forall id ensures PendingRows(t.(submissions := t.submissions[k := s]), id, graders, p) == PendingRows(t, id, graders, p) {
      GraderRowIgnoredByPending(t, graders, p, k, s, id);
    }
  }

  lemma GraderRowIgnoredBySubmitters(t: ModTables, graders: set<int>, k: int, s: Submission, id: int)
    requires k !in t.submissions && s.user in graders
    ensures Submitters(t.(submissions := t.submissions[k := s]), id, graders) == Submitters(t, id, graders)
  {
    var t' := t.(submissions := t.submissions[k := s]);
    forall u | u in Submitters(t', id, graders) ensures u in Submitters(t, id, graders) {
      var j :| j in t'.submissions && t'.submissions[j].instance == id && t'.submissions[j].user !in graders
        && t'.submissions[j].user == u;
      assert j != k && t'.submissions[j] == t.submissions[j];
    }
    forall u | u in Submitters(t, id, graders) ensures u in Submitters(t', id, graders) {
      var j :| j in t.submissions && t.submissions[j].instance == id && t.submissions[j].user !in graders
        && t.submissions[j].user == u;
      assert t'.submissions[j] == t.submissions[j];
    }
  }

  lemma GraderRowIgnoredByPending(t: ModTables, graders: set<int>, p: Pending, k: int, s: Submission, id: int)
    requires k !in t.submissions && s.user in graders
    ensures PendingRows(t.(submissions := t.submissions[k := s]), id, graders, p) == PendingRows(t, id, graders, p)
    ensures PendingUsers(t.(submissions := t.submissions[k := s]), id, graders, p) == PendingUsers(t, id, graders, p)
  {
    var t' := t.(submissions := t.submissions[k := s]);
    assert !Ungraded(t', s, graders, p);
    forall j | j in t.submissions ensures t'.submissions[j] == t.submissions[j] && Ungraded(t', t.submissions[j], graders, p) == Ungraded(t, t.submissions[j], graders, p) {
    }
    forall u | u in PendingUsers(t', id, graders, p) ensures u in PendingUsers(t, id, graders, p) {
      var j :| j in t'.submissions && t'.submissions[j].instance == id && Ungraded(t', t'.submissions[j], graders, p)
        && t'.submissions[j].user == u;
      assert j != k;
    }
  }
}
