/** The activity class: the request-scoped memo tables, the per-instance
    counters and lookups built on them, and the meta resolver `StdMeta` with
    its per-kind entry points. The static tables of the source are the fields
    of `Caches`, threaded explicitly through every call; each call also
    reports the store queries it issued. */
module Activity {
  import opened Base
  import opened Adapters
  import opened Store
  import Memo

  /** The course-module record handed to the meta functions. */
  datatype Mod = Mod(modName: ModName, instance: int, available: bool)

  /** Host services, capability checks and the clock, as inputs. */
  datatype Host = Host(
    canManage: bool,                     // moodle/course:manageactivities on the course
    canViewHidden: bool,                 // moodle/grade:viewhidden on the course
    gradeHidden: (ModName, int) -> bool, // grade_grade::is_hidden of the viewer's grade
    now: int,                            // time()
    userTime: int -> int,                // usertime()
    getString: string -> string)         // get_string(key, 'theme_snap')

  /** Scope of one bulk query: the `courseid_modname` key of the source. */
  datatype Key = Key(course: int, modName: ModName)

  /** A bulk query sent to the store. */
  datatype Query =
    | DatesFetch(key: Key)
    | SubmissionsFetch(key: Key)
    | GradesFetch(key: Key)
    | TotalsFetch(key: Key)
    | AssignUngradedFetch(course: int)
    | QuizUngradedFetch(course: int)

  /** The number of submission-row queries in a trace. */
  function SubmissionQueries(fs: seq<Query>): nat
  {
    if |fs| == 0 then 0
    else SubmissionQueries(fs[..|fs| - 1]) + (if fs[|fs| - 1].SubmissionsFetch? then 1 else 0)
  }

  lemma {:induction false} SubmissionQueriesAppend(a: seq<Query>, b: seq<Query>)
    ensures SubmissionQueries(a + b) == SubmissionQueries(a) + SubmissionQueries(b)
    decreases |b|
  {
    if |b| == 0 {
      assert a + b == a;
    } else {
      assert (a + b)[..|a + b| - 1] == a + b[..|b| - 1];
      SubmissionQueriesAppend(a, b[..|b| - 1]);
    }
  }

  /** A trace without submission-row queries counts none, and a trace that
      counts none has none. */
  lemma {:induction false} NoSubmissionQueries(fs: seq<Query>)
    ensures SubmissionQueries(fs) == 0 <==> forall q | q in fs :: !q.SubmissionsFetch?
    decreases |fs|
  {
    if |fs| > 0 {
      var init := fs[..|fs| - 1];
      NoSubmissionQueries(init);
      assert fs == init + [fs[|fs| - 1]];
      assert forall q | q in init :: q in fs;
    }
  }

  /** A leading dates query for this course and kind keeps a trace of the
      call's other queries free of repeats. */
  lemma DatesJoin(dates: seq<Query>, fs: seq<Query>, course: int, m: ModName)
    requires dates == [] || dates == [DatesFetch(Key(course, m))]
    requires forall q | q in fs :: !q.DatesFetch? && q in CallQueries(course, m)
    requires |fs| <= 2 && Memo.Distinct(fs)
    ensures |dates + fs| <= 3 && Memo.Distinct(dates + fs)
    ensures forall q | q in dates + fs :: q in CallQueries(course, m)
  {
    DistinctJoin(dates, fs);
  }

  /** A trace of the manager path of std_meta: the dates query at most once
      ahead of the counter queries. */
  lemma ManagerTrace(dates: seq<Query>, counters: seq<Query>, course: int, m: ModName)
    requires dates == [] || dates == [DatesFetch(Key(course, m))]
    requires forall q | q in counters :: q.TotalsFetch? || q.AssignUngradedFetch? || q.QuizUngradedFetch?
    requires forall q | q in counters :: q in CallQueries(course, m)
    requires |counters| <= 2 && Memo.Distinct(counters)
    ensures var fs := dates + counters;
      && (forall q | q in fs :: !q.SubmissionsFetch? && !q.GradesFetch?)
      && SubmissionQueries(fs) == 0
      && |fs| <= 3 && Memo.Distinct(fs)
      && (forall q | q in fs :: q in CallQueries(course, m))
  {
    DatesJoin(dates, counters, course, m);
    NoSubmissionQueries(dates + counters);
  }

  /** The queries one std_meta call may issue for an activity of kind `m` in
      `course`: its dates, submission and grade rows, and the counters the
      kind has. */
  function CallQueries(course: int, m: ModName): set<Query>
  {
    var key := Key(course, m);
    {DatesFetch(key), SubmissionsFetch(key), GradesFetch(key)}
    + (if HasNumSubmissions(m) then {TotalsFetch(key)} else {})
    + (if m == Assign then {AssignUngradedFetch(course)} else {})
    + (if m == Quiz then {QuizUngradedFetch(course)} else {})
  }

  /** Two traces without a common query join into one without repeats. */
  lemma DistinctJoin(a: seq<Query>, b: seq<Query>)
    requires Memo.Distinct(a) && Memo.Distinct(b)
    requires forall q | q in a :: q !in b
    ensures Memo.Distinct(a + b)
  {
    var ab := a + b;
    forall i, j | 0 <= i < j < |ab|
      ensures ab[i] != ab[j]
    {
      if i < |a| && |a| <= j {
        assert ab[i] in a && ab[j] == b[j - |a|];
      }
    }
  }

  /** The static tables, for one request. */
  datatype Caches = Caches(
    dates: map<Key, map<int, Dates>>,        // instance_activity_dates
    submissions: map<Key, map<int, Row>>,    // get_submission_row
    grades: map<Key, map<int, Row>>,         // grade_row
    totals: map<Key, map<int, int>>,         // std_num_submissions
    assignUngraded: Option<map<int, int>>,   // assign_num_submissions_ungraded
    quizUngraded: Option<map<int, int>>)     // quiz_num_submissions_ungraded

  /** The tables at the start of a request. */
  const NoCaches: Caches := Caches(map[], map[], map[], map[], None, None)

  /** A result, the tables after computing it, and the queries it cost. */
  datatype Step<T> = Step(value: T, caches: Caches, fetches: seq<Query>)

  /** The activity_meta record. */
  datatype Meta = Meta(
    submitStrKey: string,
    submittedStr: string,
    notSubmittedStr: string,
    timeOpen: Option<int>,
    timeClose: Option<int>,
    isTeacher: bool,
    numSubmissions: Option<int>,
    numRequireGrading: Option<int>,
    submitted: bool,
    timeSubmitted: Option<int>,
    grade: bool)

  /** Every field except the three labels is at its default. */
  predicate OnlyLabels(m: Meta)
  {
    && m.timeOpen.None? && m.timeClose.None?
    && !m.isTeacher && m.numSubmissions.None? && m.numRequireGrading.None?
    && !m.submitted && m.timeSubmitted.None? && !m.grade
  }

  // ---------------------------------------------------------------------------
  // What the store answers for each table's key

  /** The dates query for a course and kind, with the kind's date columns. */
  function DatesFor(store: Store, key: Key): map<int, Dates>
  {
    var a := AdapterOf(key.modName);
    DatesQuery(store.tables(key.modName), key.course, a.timeOpenField, a.timeCloseField)
  }

  /** A column of the instance's activity row, absent when the activity is
      not in the course or the column is NULL. */
  function Column(store: Store, course: int, mod: Mod, field: string): Option<int>
  {
    var t := store.tables(mod.modName);
    if InCourse(t, mod.instance, course) then Get(t.instances[mod.instance].columns, field) else None
  }

  /** The viewer's submission rows for a course and kind. */
  function SubmissionsFor(store: Store, key: Key): map<int, Row>
  {
    store.viewerSubmissions(SubmissionQueryOf(key.course, key.modName, AdapterOf(key.modName)))
  }

  /** The viewer's grade rows for a course and kind. */
  function GradesFor(store: Store, key: Key): map<int, Row>
  {
    store.viewerGrades(GradeQuery(key.course, key.modName, AdapterOf(key.modName).keyField))
  }

  /** The std_num_submissions totals for a course and kind. */
  function TotalsFor(store: Store, key: Key): map<int, int>
  {
    SubmissionTotals(store.tables(key.modName), key.course, store.graders(key.course))
  }

  /** The assign_num_submissions_ungraded totals of a course. */
  function AssignPending(store: Store, course: int): map<int, int>
  {
    PendingTotals(store.tables(Assign), course, store.graders(course), StatusIs("submitted"))
  }

  /** The quiz_num_submissions_ungraded totals of a course. */
  function QuizPending(store: Store, course: int): map<int, int>
  {
    PendingTotals(store.tables(Quiz), course, store.graders(course), TimeFinished)
  }

  /** Every table entry is what the store answers for its key, and each
      ungraded-count slot, once filled, holds the totals of the course named
      for it (the course of the call that filled it). */
  predicate Coherent(c: Caches, store: Store, assignCourse: int, quizCourse: int)
  {
    && DatesCoherent(c.dates, store)
    && SubmissionsCoherent(c.submissions, store)
    && GradesCoherent(c.grades, store)
    && TotalsCoherent(c.totals, store)
    && SlotCoherent(c.assignUngraded, AssignPending(store, assignCourse))
    && SlotCoherent(c.quizUngraded, QuizPending(store, quizCourse))
  }

  predicate DatesCoherent(t: map<Key, map<int, Dates>>, store: Store)
  {
    forall k | k in t :: t[k] == DatesFor(store, k)
  }

  predicate SubmissionsCoherent(t: map<Key, map<int, Row>>, store: Store)
  {
    forall k | k in t :: t[k] == SubmissionsFor(store, k)
  }

  predicate GradesCoherent(t: map<Key, map<int, Row>>, store: Store)
  {
    forall k | k in t :: t[k] == GradesFor(store, k)
  }

  predicate TotalsCoherent(t: map<Key, map<int, int>>, store: Store)
  {
    forall k | k in t :: t[k] == TotalsFor(store, k)
  }

  /** An unkeyed slot, once filled, holds the given totals. */
  predicate SlotCoherent(slot: Option<map<int, int>>, totals: map<int, int>)
  {
    slot.Some? ==> slot.value == totals
  }

  /** The course whose totals an ungraded-count slot holds after a call for
      `course`: that course if the slot was empty, the earlier one otherwise. */
  function Filler(slot: Option<map<int, int>>, earlier: int, course: int): int
  {
    if slot.None? then course else earlier
  }

  /** The tables start empty, which is coherent with any store. */
  lemma NoCachesCoherent(store: Store, assignCourse: int, quizCourse: int)
    ensures Coherent(NoCaches, store, assignCourse, quizCourse)
  {
  }

  // ---------------------------------------------------------------------------
  // Lookups through the memo tables

  /** instance_activity_dates: a cached entry is used only if the instance is
      in it; otherwise every activity of the kind in the course is fetched again. */
  function InstanceActivityDates(c: Caches, store: Store, course: int, mod: Mod, openField: string, closeField: string): (r: Step<Option<Dates>>)
    ensures r.caches == c.(dates := r.caches.dates)
    ensures var key := Key(course, mod.modName);
      if key in c.dates && mod.instance in c.dates[key] then
        r.value == Some(c.dates[key][mod.instance]) && r.caches == c && r.fetches == []
      else
        var t := store.tables(mod.modName);
        && r.fetches == [DatesFetch(key)]
        && r.caches.dates == c.dates[key := DatesQuery(t, course, openField, closeField)]
        && (r.value.Some? <==> InCourse(t, mod.instance, course))
        && (r.value.Some? ==>
              r.value.value.timeOpen == Get(t.instances[mod.instance].columns, openField) &&
              r.value.value.timeClose == Get(t.instances[mod.instance].columns, closeField))
  {
    var key := Key(course, mod.modName);
    var l := Memo.FetchUnlessPresent(c.dates, key, mod.instance,
                                     DatesQuery(store.tables(mod.modName), course, openField, closeField));
    Step(l.found, c.(dates := l.table), if l.fetched then [DatesFetch(key)] else [])
  }

  /** The query get_submission_row sends for a kind. */
  function SubmissionQueryOf(course: int, m: ModName, a: Adapter): SubmissionQuery
  {
    SubmissionQuery(course, m, Name(m) + "_" + a.submissionTable, a.keyField, a.submitSelect)
  }

  /** get_submission_row: the viewer's rows for a course and kind are fetched
      once; afterwards an instance without a row is absent without a query. */
  function GetSubmissionRow(c: Caches, store: Store, course: int, mod: Mod, a: Adapter): (r: Step<Option<Row>>)
    ensures r.caches == c.(submissions := r.caches.submissions)
    ensures var key := Key(course, mod.modName);
      && key in r.caches.submissions
      && r.value == Get(r.caches.submissions[key], mod.instance)
      && (if key in c.submissions then
            r.caches == c && r.fetches == []
          else
            r.fetches == [SubmissionsFetch(key)] &&
            r.caches.submissions == c.submissions[key := store.viewerSubmissions(SubmissionQueryOf(course, mod.modName, a))])
  {
    var key := Key(course, mod.modName);
    var l := Memo.FetchOnce(c.submissions, key, mod.instance, store.viewerSubmissions(SubmissionQueryOf(course, mod.modName, a)));
    Step(l.found, c.(submissions := l.table), if l.fetched then [SubmissionsFetch(key)] else [])
  }

  /** grade_row: like instance_activity_dates, re-fetched whenever the
      instance is missing from the cached entry. */
  function GradeRow(c: Caches, store: Store, course: int, mod: Mod, keyField: string): (r: Step<Option<Row>>)
    ensures r.caches == c.(grades := r.caches.grades)
    ensures var key := Key(course, mod.modName);
      && key in r.caches.grades
      && r.value == Get(r.caches.grades[key], mod.instance)
      && (if key in c.grades && mod.instance in c.grades[key] then
            r.caches == c && r.fetches == []
          else
            r.fetches == [GradesFetch(key)] &&
            r.caches.grades == c.grades[key := store.viewerGrades(GradeQuery(course, mod.modName, keyField))])
  {
    var key := Key(course, mod.modName);
    var l := Memo.FetchUnlessPresent(c.grades, key, mod.instance, store.viewerGrades(GradeQuery(course, mod.modName, keyField)));
    Step(l.found, c.(grades := l.table), if l.fetched then [GradesFetch(key)] else [])
  }

  // ---------------------------------------------------------------------------
  // Teacher counters

  /** std_num_submissions: per (table, course) one query counting, per
      activity, the distinct non-grader users with a submission row. The
      extra select the callers pass is accepted and never used. */
  function StdNumSubmissions(c: Caches, store: Store, course: int, modId: int, mainTable: ModName, extraSelect: string): (r: Step<int>)
    ensures r.caches == c.(totals := r.caches.totals)
    ensures var key := Key(course, mainTable);
      && key in r.caches.totals
      && (if key in c.totals then
            r.caches == c && r.fetches == [] && r.value == OrZero(Get(c.totals[key], modId))
          else
            var t := store.tables(mainTable);
            && r.fetches == [TotalsFetch(key)]
            && r.caches.totals == c.totals[key := TotalsFor(store, key)]
            && r.value == (if InCourse(t, modId, course) then |Submitters(t, modId, store.graders(course))| else 0))
  {
    var key := Key(course, mainTable);
    var l := Memo.FetchOnce(c.totals, key, modId, TotalsFor(store, key));
    Step(OrZero(l.found), c.(totals := l.table), if l.fetched then [TotalsFetch(key)] else [])
  }

  /** The extra select each `<kind>_num_submissions` passes along. */
  function ExtraSelect(m: ModName): string
  {
    match m
    case Assign => "sb.status='submitted' AND"
    case Quiz => "sb.timefinish IS NOT NULL AND"
    case _ => ""
  }

  /** assign/choice/feedback/lesson/quiz_num_submissions. The status and
      timefinish conditions that assign and quiz pass make no difference: the
      count is the one an empty extra select gives. */
  function NumSubmissions(c: Caches, store: Store, course: int, m: ModName, modId: int): (r: Step<int>)
    requires HasNumSubmissions(m)
    ensures r == StdNumSubmissions(c, store, course, modId, m, "")
  {
    StdNumSubmissions(c, store, course, modId, m, ExtraSelect(m))
  }

  /** assign_num_submissions_ungraded: one unkeyed table, filled by the first
      call of the request with the counts of the course passed to that call. */
  function AssignNumSubmissionsUngraded(c: Caches, store: Store, course: int, modId: int): (r: Step<int>)
    ensures r.caches == c.(assignUngraded := r.caches.assignUngraded) && r.caches.assignUngraded.Some?
    ensures match c.assignUngraded
      case Some(totals) =>
        r.caches == c && r.fetches == [] && r.value == OrZero(Get(totals, modId))
      case None =>
        var t := store.tables(Assign);
        && r.fetches == [AssignUngradedFetch(course)]
        && r.caches.assignUngraded == Some(AssignPending(store, course))
        && r.value == (if InCourse(t, modId, course)
                       then |PendingRows(t, modId, store.graders(course), StatusIs("submitted"))| else 0)
  {
    match c.assignUngraded
    case Some(totals) => Step(OrZero(Get(totals, modId)), c, [])
    case None =>
      var totals := AssignPending(store, course);
      Step(OrZero(Get(totals, modId)), c.(assignUngraded := Some(totals)), [AssignUngradedFetch(course)])
  }

  /** quiz_num_submissions_ungraded: as above, over finished attempts. */
  function QuizNumSubmissionsUngraded(c: Caches, store: Store, course: int, quizId: int): (r: Step<int>)
    ensures r.caches == c.(quizUngraded := r.caches.quizUngraded) && r.caches.quizUngraded.Some?
    ensures match c.quizUngraded
      case Some(totals) =>
        r.caches == c && r.fetches == [] && r.value == OrZero(Get(totals, quizId))
      case None =>
        var t := store.tables(Quiz);
        && r.fetches == [QuizUngradedFetch(course)]
        && r.caches.quizUngraded == Some(QuizPending(store, course))
        && r.value == (if InCourse(t, quizId, course)
                       then |PendingRows(t, quizId, store.graders(course), TimeFinished)| else 0)
  {
    match c.quizUngraded
    case Some(totals) => Step(OrZero(Get(totals, quizId)), c, [])
    case None =>
      var totals := QuizPending(store, course);
      Step(OrZero(Get(totals, quizId)), c.(quizUngraded := Some(totals)), [QuizUngradedFetch(course)])
  }

  /** The ungraded-count tables are not keyed by course: once filled, a call
      for any other course, against any store, answers from the first course's
      counts without a query. */
  lemma UngradedCountIgnoresLaterCourse(c: Caches, store: Store, course: int, id: int, store2: Store, course2: int, id2: int)
    requires c.assignUngraded.None?
    ensures var r1 := AssignNumSubmissionsUngraded(c, store, course, id);
      var r2 := AssignNumSubmissionsUngraded(r1.caches, store2, course2, id2);
      var t := store.tables(Assign);
      && r2.fetches == []
      && r2.value == (if InCourse(t, id2, course)
                      then |PendingRows(t, id2, store.graders(course), StatusIs("submitted"))| else 0)
  {
    PendingTotalsAt(store.tables(Assign), course, store.graders(course), StatusIs("submitted"), id2);
  }

  /** The same holds for quizzes. */
  lemma QuizCountIgnoresLaterCourse(c: Caches, store: Store, course: int, id: int, store2: Store, course2: int, id2: int)
    requires c.quizUngraded.None?
    ensures var r1 := QuizNumSubmissionsUngraded(c, store, course, id);
      var r2 := QuizNumSubmissionsUngraded(r1.caches, store2, course2, id2);
      var t := store.tables(Quiz);
      && r2.fetches == []
      && r2.value == (if InCourse(t, id2, course)
                      then |PendingRows(t, id2, store.graders(course), TimeFinished)| else 0)
  {
    PendingTotalsAt(store.tables(Quiz), course, store.graders(course), TimeFinished, id2);
  }

  /** std_num_submissions is keyed by course: after the first call for a course
      and kind, a call for another activity of the same course and kind issues
      no query and still gives that activity's own count. */
  lemma NumSubmissionsLaterActivity(c: Caches, store: Store, course: int, m: ModName, id: int, id2: int)
    requires Key(course, m) !in c.totals
    ensures var r1 := StdNumSubmissions(c, store, course, id, m, "");
      var r2 := StdNumSubmissions(r1.caches, store, course, id2, m, "");
      var t := store.tables(m);
      && r2.fetches == []
      && r2.value == (if InCourse(t, id2, course) then |Submitters(t, id2, store.graders(course))| else 0)
  {
    SubmissionTotalsAt(store.tables(m), course, store.graders(course), id2);
  }

  /** The `_num_submissions` count of the kind, when it has that counter: at
      most one totals query, for this course and kind. */
  function SubmissionCount(c: Caches, store: Store, course: int, mod: Mod): (r: Step<Option<int>>)
    ensures r.value.Some? <==> HasNumSubmissions(mod.modName)
    ensures HasNumSubmissions(mod.modName) ==>
      var x := NumSubmissions(c, store, course, mod.modName, mod.instance);
      r.value == Some(x.value) && r.caches == x.caches
    ensures !HasNumSubmissions(mod.modName) ==> r.caches == c
    ensures r.caches == c.(totals := r.caches.totals)
    ensures r.fetches == [] || (HasNumSubmissions(mod.modName) && r.fetches == [TotalsFetch(Key(course, mod.modName))])
  {
    if HasNumSubmissions(mod.modName) then
      var x := NumSubmissions(c, store, course, mod.modName, mod.instance);
      Step(Some(x.value), x.caches, x.fetches)
    else Step(None, c, [])
  }

  /** The `_num_submissions_ungraded` count of the kind, when it has that
      counter (assign, quiz): at most one query, for this course. */
  function GradingCount(c: Caches, store: Store, course: int, mod: Mod): (r: Step<Option<int>>)
    ensures r.value.Some? <==> HasNumUngraded(mod.modName)
    ensures mod.modName == Assign ==>
      var y := AssignNumSubmissionsUngraded(c, store, course, mod.instance);
      r.value == Some(y.value) && r.caches == y.caches
    ensures mod.modName == Quiz ==>
      var y := QuizNumSubmissionsUngraded(c, store, course, mod.instance);
      r.value == Some(y.value) && r.caches == y.caches
    ensures !HasNumUngraded(mod.modName) ==> r.caches == c
    ensures r.caches == c.(assignUngraded := r.caches.assignUngraded, quizUngraded := r.caches.quizUngraded)
    ensures || r.fetches == []
            || (mod.modName == Assign && r.fetches == [AssignUngradedFetch(course)])
            || (mod.modName == Quiz && r.fetches == [QuizUngradedFetch(course)])
  {
    if mod.modName == Assign then
      var y := AssignNumSubmissionsUngraded(c, store, course, mod.instance);
      Step(Some(y.value), y.caches, y.fetches)
    else if mod.modName == Quiz then
      var y := QuizNumSubmissionsUngraded(c, store, course, mod.instance);
      Step(Some(y.value), y.caches, y.fetches)
    else Step(None, c, [])
  }

  /** Collects the teacher counts the kind supports: a number of submissions
      for every kind but data, a number awaiting grading for assign and quiz. */
  function TeacherCounts(c: Caches, store: Store, course: int, mod: Mod): (r: Step<(Option<int>, Option<int>)>)
    ensures r.value.0.Some? <==> HasNumSubmissions(mod.modName)
    ensures r.value.1.Some? <==> HasNumUngraded(mod.modName)
    ensures HasNumSubmissions(mod.modName) ==>
      r.value.0 == Some(NumSubmissions(c, store, course, mod.modName, mod.instance).value)
    ensures mod.modName == Assign ==>
      r.value.1 == Some(AssignNumSubmissionsUngraded(c, store, course, mod.instance).value)
    ensures mod.modName == Quiz ==>
      r.value.1 == Some(QuizNumSubmissionsUngraded(c, store, course, mod.instance).value)
    ensures r.caches.dates == c.dates && r.caches.submissions == c.submissions && r.caches.grades == c.grades
    ensures forall q | q in r.fetches :: q.TotalsFetch? || q.AssignUngradedFetch? || q.QuizUngradedFetch?
    // At most one query per counter the kind has, for this course and kind.
    ensures |r.fetches| <= 2 && Memo.Distinct(r.fetches)
    ensures forall q | q in r.fetches :: q in CallQueries(course, mod.modName)
  {
    var s := SubmissionCount(c, store, course, mod);
    var u := GradingCount(s.caches, store, course, mod);
    CounterTrace(s.fetches, u.fetches, course, mod.modName);
    Step((s.value, u.value), u.caches, s.fetches + u.fetches)
  }

  /** The two counter traces join into a trace of counter queries of this
      course and kind, none repeated. */
  lemma CounterTrace(totals: seq<Query>, ungraded: seq<Query>, course: int, m: ModName)
    requires totals == [] || (HasNumSubmissions(m) && totals == [TotalsFetch(Key(course, m))])
    requires || ungraded == []
             || (m == Assign && ungraded == [AssignUngradedFetch(course)])
             || (m == Quiz && ungraded == [QuizUngradedFetch(course)])
    ensures var fs := totals + ungraded;
      && (forall q | q in fs :: q.TotalsFetch? || q.AssignUngradedFetch? || q.QuizUngradedFetch?)
      && |fs| <= 2 && Memo.Distinct(fs)
      && (forall q | q in fs :: q in CallQueries(course, m))
  {
  }

  // ---------------------------------------------------------------------------
  // The meta resolver

  /** The time shown as submitted, from the viewer's submission row. The
      submitted-on column is used when it is non-empty; otherwise, because the
      fallback condition of std_meta in classes/activity.php is an assignment
      and so always true, `timemodified`
      is used whenever the row has that column (even when it is 0), and
      `timecreated` otherwise. */
  function TimeSubmitted(row: Row, submittedOnField: string): (t: Option<int>)
    ensures submittedOnField in row && row[submittedOnField] != 0 ==> t == Some(row[submittedOnField])
    ensures !(submittedOnField in row && row[submittedOnField] != 0) ==>
      t == (if "timemodified" in row then Some(row["timemodified"]) else Get(row, "timecreated"))
  {
    var first := if submittedOnField in row && row[submittedOnField] != 0 then Some(row[submittedOnField]) else None;
    // The second conjunct of the submitted-on condition of std_meta in
    // classes/activity.php assigns a non-empty string, so only the first decides.
    if Empty(first) then
      if "timemodified" in row then Some(row["timemodified"]) else Get(row, "timecreated")
    else first
  }

  /** The student gate: no open time, or the open time (in the viewer's
      time) has passed. */
  predicate Opened(timeOpen: Option<int>, host: Host)
  {
    Empty(timeOpen) || host.userTime(timeOpen.value) <= host.now
  }

  /** The student branch of std_meta, once the activity is available: if it
      has opened, the viewer's submission row and, for a gradeable kind, grade
      row decide `submitted`, `timeSubmitted` and `grade`; nothing else of the
      record changes. */
  function StudentMeta(c: Caches, store: Store, host: Host, course: int, mod: Mod, a: Adapter, dated: Meta): (r: Step<Meta>)
    requires !dated.submitted && dated.timeSubmitted.None? && !dated.grade
    ensures r.value == dated.(submitted := r.value.submitted, timeSubmitted := r.value.timeSubmitted, grade := r.value.grade)
    ensures !Opened(dated.timeOpen, host) ==> r.value == dated && r.caches == c && r.fetches == []
    ensures r.value.timeSubmitted.Some? ==> r.value.submitted
    ensures r.value.grade ==>
      r.value.submitted && a.isGradeable && (!host.gradeHidden(mod.modName, mod.instance) || host.canViewHidden)
    ensures r.value.submitted ==> Opened(dated.timeOpen, host)
    // Once opened, the viewer's submission row decides `submitted` and the
    // time, and the grade row and its visibility decide `grade`.
    ensures Opened(dated.timeOpen, host) ==>
      var s := GetSubmissionRow(c, store, course, mod, a);
      && (r.value.submitted <==> s.value.Some?)
      && (s.value.Some? ==> r.value.timeSubmitted == TimeSubmitted(s.value.value, a.submittedOnField))
      && (r.value.grade <==>
            && s.value.Some? && a.isGradeable
            && GradeRow(s.caches, store, course, mod, a.keyField).value.Some?
            && (!host.gradeHidden(mod.modName, mod.instance) || host.canViewHidden))
    ensures r.caches.dates == c.dates && r.caches.totals == c.totals
    ensures r.caches.assignUngraded == c.assignUngraded && r.caches.quizUngraded == c.quizUngraded
    ensures forall q | q in r.fetches :: q.SubmissionsFetch? || q.GradesFetch?
    // At most one submission and one grade query; a grade query only for a
    // submitted activity of a gradeable kind.
    ensures |r.fetches| <= 2 && Memo.Distinct(r.fetches)
    ensures forall q | q in r.fetches :: q in CallQueries(course, mod.modName)
    ensures r.fetches in StudentTraces(Key(course, mod.modName))
    ensures forall q | q in r.fetches && q.GradesFetch? ::
      q.key == Key(course, mod.modName) && r.value.submitted && a.isGradeable
    ensures var key := Key(course, mod.modName);
      && (forall q | q in r.fetches && q.SubmissionsFetch? :: q.key == key && key !in c.submissions)
      && SubmissionQueries(r.fetches) == (if SubmissionsFetch(key) in r.fetches then 1 else 0)
      && r.caches.submissions.Keys == c.submissions.Keys + (if SubmissionsFetch(key) in r.fetches then {key} else {})
  {
    if Opened(dated.timeOpen, host) then
      var r := OpenedStudentMeta(c, store, host, course, mod, a, dated);
      StudentTraceFacts(r.fetches, course, mod.modName);
      r
    else
      NoSubmissionQueries([]);
      Step(dated, c, [])
  }

  /** The student branch once the activity has opened: the viewer's
      submission row, then the grade row through Recorded. */
  function OpenedStudentMeta(c: Caches, store: Store, host: Host, course: int, mod: Mod, a: Adapter, dated: Meta): (r: Step<Meta>)
    requires !dated.submitted && dated.timeSubmitted.None? && !dated.grade
    ensures r.value == dated.(submitted := r.value.submitted, timeSubmitted := r.value.timeSubmitted, grade := r.value.grade)
    ensures var s := GetSubmissionRow(c, store, course, mod, a);
      && (r.value.submitted <==> s.value.Some?)
      && (s.value.Some? ==> r.value.timeSubmitted == TimeSubmitted(s.value.value, a.submittedOnField))
      && (r.value.grade <==>
            && s.value.Some? && a.isGradeable
            && GradeRow(s.caches, store, course, mod, a.keyField).value.Some?
            && (!host.gradeHidden(mod.modName, mod.instance) || host.canViewHidden))
    ensures r.caches.dates == c.dates && r.caches.totals == c.totals
    ensures r.caches.assignUngraded == c.assignUngraded && r.caches.quizUngraded == c.quizUngraded
    ensures var key := Key(course, mod.modName);
      && r.fetches in StudentTraces(key)
      && (GradesFetch(key) in r.fetches ==> r.value.submitted && a.isGradeable)
      && (SubmissionsFetch(key) in r.fetches ==> key !in c.submissions)
      && r.caches.submissions.Keys == c.submissions.Keys + (if SubmissionsFetch(key) in r.fetches then {key} else {})
  {
    var s := GetSubmissionRow(c, store, course, mod, a);
    var g := Recorded(s, store, host, course, mod, a, dated);
    StudentTrace(s.fetches, g.fetches, course, mod.modName);
    Step(g.value, g.caches, s.fetches + g.fetches)
  }

  /** What a trace of the student branch satisfies. */
  lemma StudentTraceFacts(fs: seq<Query>, course: int, m: ModName)
    requires fs in StudentTraces(Key(course, m))
    ensures forall q | q in fs :: q.SubmissionsFetch? || q.GradesFetch?
    ensures |fs| <= 2 && Memo.Distinct(fs)
    ensures forall q | q in fs :: q in CallQueries(course, m)
    ensures forall q | q in fs :: q.key == Key(course, m)
    ensures SubmissionQueries(fs) == (if SubmissionsFetch(Key(course, m)) in fs then 1 else 0)
  {
    StudentTrace(if SubmissionsFetch(Key(course, m)) in fs then [SubmissionsFetch(Key(course, m))] else [],
                 if GradesFetch(Key(course, m)) in fs then [GradesFetch(Key(course, m))] else [], course, m);
  }

  /** The traces the student branch can issue: the viewer's submission rows
      at most once, then the grade rows at most once. */
  function StudentTraces(key: Key): set<seq<Query>>
  {
    {[], [SubmissionsFetch(key)], [GradesFetch(key)], [SubmissionsFetch(key), GradesFetch(key)]}
  }

  /** A trace of the available, non-manager path of std_meta: the dates
      query at most once ahead of the student branch's trace. */
  lemma ViewerTrace(dates: seq<Query>, student: seq<Query>, course: int, m: ModName)
    requires dates == [] || dates == [DatesFetch(Key(course, m))]
    requires student in StudentTraces(Key(course, m))
    ensures var fs := dates + student;
      && |fs| <= 3 && Memo.Distinct(fs)
      && (forall q | q in fs :: q in CallQueries(course, m))
      && (forall q | q in fs && (q.SubmissionsFetch? || q.GradesFetch?) :: q in student)
      && SubmissionQueries(fs) == (if SubmissionsFetch(Key(course, m)) in fs then 1 else 0)
  {
    var key := Key(course, m);
    SubmissionQueriesAppend(dates, student);
    NoSubmissionQueries(dates);
    NoSubmissionQueries([]);
    NoSubmissionQueries([GradesFetch(key)]);
    SubmissionQueriesAppend([SubmissionsFetch(key)], [GradesFetch(key)]);
    assert [SubmissionsFetch(key)][..0] == [];
    assert [SubmissionsFetch(key)] + [GradesFetch(key)] == [SubmissionsFetch(key), GradesFetch(key)];
  }

  /** The submission-row and grade-row traces of the student branch join
      into a trace of at most one of each, for this course and kind. */
  lemma StudentTrace(rows: seq<Query>, grades: seq<Query>, course: int, m: ModName)
    requires rows == [] || rows == [SubmissionsFetch(Key(course, m))]
    requires grades == [] || grades == [GradesFetch(Key(course, m))]
    ensures var fs := rows + grades;
      && |fs| <= 2 && Memo.Distinct(fs)
      && (forall q | q in fs :: q in CallQueries(course, m))
      && (forall q | q in fs && q.GradesFetch? :: q in grades)
      && SubmissionQueries(fs) == (if SubmissionsFetch(Key(course, m)) in fs then 1 else 0)
      && fs in StudentTraces(Key(course, m))
  {
    var key := Key(course, m);
    NoSubmissionQueries(grades);
    if rows == [] {
      assert rows + grades == grades;
    } else {
      SubmissionQueriesAppend(rows, grades);
      NoSubmissionQueries([]);
      assert rows[..0] == [];
      if grades == [] {
        assert rows + grades == rows;
      } else {
        assert rows + grades == [SubmissionsFetch(key), GradesFetch(key)];
      }
    }
  }

  /** The student fields once the viewer's submission row `s` has been looked
      up: with a row, `submitted`, its time and, for a gradeable kind, the
      grade flag through grade_row; the step's own queries are grade queries. */
  function Recorded(s: Step<Option<Row>>, store: Store, host: Host, course: int, mod: Mod, a: Adapter, dated: Meta): (r: Step<Meta>)
    requires !dated.submitted && dated.timeSubmitted.None? && !dated.grade
    ensures r.value == dated.(submitted := r.value.submitted, timeSubmitted := r.value.timeSubmitted, grade := r.value.grade)
    ensures s.value.None? ==> r.value == dated && r.caches == s.caches && r.fetches == []
    ensures r.value.submitted <==> s.value.Some?
    ensures s.value.Some? ==> r.value.timeSubmitted == TimeSubmitted(s.value.value, a.submittedOnField)
    ensures r.value.grade <==>
      && s.value.Some? && a.isGradeable
      && GradeRow(s.caches, store, course, mod, a.keyField).value.Some?
      && (!host.gradeHidden(mod.modName, mod.instance) || host.canViewHidden)
    ensures r.caches == s.caches.(grades := r.caches.grades)
    ensures s.value.Some? && a.isGradeable ==> r.caches == GradeRow(s.caches, store, course, mod, a.keyField).caches
    ensures !(s.value.Some? && a.isGradeable) ==> r.caches == s.caches
    ensures forall q | q in r.fetches :: q.GradesFetch?
    ensures |r.fetches| <= 1
    ensures r.fetches != [] ==> s.value.Some? && a.isGradeable && r.fetches == [GradesFetch(Key(course, mod.modName))]
  {
    match s.value
    case None => Step(dated, s.caches, [])
    case Some(row) =>
      var g := if a.isGradeable then GradeRow(s.caches, store, course, mod, a.keyField) else Step(None, s.caches, []);
      var visible := g.value.Some? && (!host.gradeHidden(mod.modName, mod.instance) || host.canViewHidden);
      Step(dated.(submitted := true, timeSubmitted := TimeSubmitted(row, a.submittedOnField), grade := visible),
           g.caches, g.fetches)
  }

  /** The record of an available activity before the role-specific fields. */
  function Dated(labels: Meta, d: Option<Dates>): (m: Meta)
    ensures m == labels.(timeOpen := m.timeOpen, timeClose := m.timeClose)
    ensures d.Some? ==> m.timeOpen == d.value.timeOpen && m.timeClose == d.value.timeClose
    ensures d.None? ==> m == labels
  {
    match d
    case Some(dates) => labels.(timeOpen := dates.timeOpen, timeClose := dates.timeClose)
    case None => labels
  }

  /** The teacher branch of std_meta: the teacher flag and the counts the
      kind supports; nothing else of the record changes. */
  function TeacherMeta(c: Caches, store: Store, course: int, mod: Mod, dated: Meta): (r: Step<Meta>)
    ensures r.value == dated.(isTeacher := true, numSubmissions := r.value.numSubmissions,
                              numRequireGrading := r.value.numRequireGrading)
    ensures r.value.numSubmissions.Some? <==> HasNumSubmissions(mod.modName)
    ensures r.value.numRequireGrading.Some? <==> HasNumUngraded(mod.modName)
    ensures HasNumSubmissions(mod.modName) ==>
      r.value.numSubmissions == Some(NumSubmissions(c, store, course, mod.modName, mod.instance).value)
    ensures mod.modName == Assign ==>
      r.value.numRequireGrading == Some(AssignNumSubmissionsUngraded(c, store, course, mod.instance).value)
    ensures mod.modName == Quiz ==>
      r.value.numRequireGrading == Some(QuizNumSubmissionsUngraded(c, store, course, mod.instance).value)
    ensures r.caches.submissions == c.submissions
    ensures forall q | q in r.fetches :: !q.SubmissionsFetch? && !q.GradesFetch?
    ensures forall q | q in r.fetches :: q.TotalsFetch? || q.AssignUngradedFetch? || q.QuizUngradedFetch?
    ensures |r.fetches| <= 2 && Memo.Distinct(r.fetches)
    ensures forall q | q in r.fetches :: q in CallQueries(course, mod.modName)
  {
    var t := TeacherCounts(c, store, course, mod);
    Step(dated.(isTeacher := true, numSubmissions := t.value.0, numRequireGrading := t.value.1), t.caches, t.fetches)
  }

  /** The record every call starts from: the three labels, all else default. */
  function Labels(host: Host, a: Adapter): (m: Meta)
    ensures OnlyLabels(m)
    ensures m.submitStrKey == a.submitStrKey
    ensures m.submittedStr == host.getString(a.submitStrKey)
    ensures m.notSubmittedStr == host.getString("not" + a.submitStrKey)
  {
    Meta(a.submitStrKey, host.getString(a.submitStrKey), host.getString("not" + a.submitStrKey),
         None, None, false, None, None, false, None, false)
  }

  /** std_meta: fills the meta record for one activity and viewer. */
  function StdMeta(c: Caches, store: Store, host: Host, course: int, mod: Mod, a: Adapter): (r: Step<Meta>)
    // The labels are always set.
    ensures r.value.submitStrKey == a.submitStrKey
    ensures r.value.submittedStr == host.getString(a.submitStrKey)
    ensures r.value.notSubmittedStr == host.getString("not" + a.submitStrKey)
    // An unavailable activity costs nothing and carries only its labels.
    ensures !mod.available ==> OnlyLabels(r.value) && r.caches == c && r.fetches == []
    // An available activity shows the dates instance_activity_dates finds.
    ensures mod.available ==>
      var d := InstanceActivityDates(c, store, course, mod, a.timeOpenField, a.timeCloseField).value;
      && r.value.timeOpen == (if d.Some? then d.value.timeOpen else None)
      && r.value.timeClose == (if d.Some? then d.value.timeClose else None)
    // A manager gets the teacher fields and never the student ones.
    ensures mod.available && host.canManage ==>
      && r.value.isTeacher
      && !r.value.submitted && r.value.timeSubmitted.None? && !r.value.grade
      && (r.value.numSubmissions.Some? <==> mod.modName in {Assign, Choice, Feedback, Lesson, Quiz})
      && (r.value.numRequireGrading.Some? <==> mod.modName in {Assign, Quiz})
      && (forall q | q in r.fetches :: !q.SubmissionsFetch? && !q.GradesFetch?)
    ensures !host.canManage ==>
      !r.value.isTeacher && r.value.numSubmissions.None? && r.value.numRequireGrading.None?
    // Student fields need an available activity that has opened.
    ensures r.value.submitted ==> mod.available && !host.canManage && Opened(r.value.timeOpen, host)
    ensures forall q | q in r.fetches && (q.SubmissionsFetch? || q.GradesFetch?) ::
      mod.available && !host.canManage && Opened(r.value.timeOpen, host)
    ensures r.value.timeSubmitted.Some? ==> r.value.submitted
    ensures r.value.grade ==>
      r.value.submitted && a.isGradeable && (!host.gradeHidden(mod.modName, mod.instance) || host.canViewHidden)
    // At most one submission query, for this activity's key, and only on a miss.
    ensures var key := Key(course, mod.modName);
      && (forall q | q in r.fetches && q.SubmissionsFetch? :: q.key == key && key !in c.submissions)
      && SubmissionQueries(r.fetches) == (if SubmissionsFetch(key) in r.fetches then 1 else 0)
      && r.caches.submissions.Keys == c.submissions.Keys + (if SubmissionsFetch(key) in r.fetches then {key} else {})
    // No query twice: at most the dates, then either the kind's counters or
    // the submission and grade rows, all for this course and kind; a grade
    // query only for a submitted activity of a gradeable kind.
    ensures |r.fetches| <= 3 && Memo.Distinct(r.fetches)
    ensures forall q | q in r.fetches :: q in CallQueries(course, mod.modName)
    ensures forall q | q in r.fetches && q.GradesFetch? :: r.value.submitted && a.isGradeable
  {
    var labels := Labels(host, a);
    if !mod.available then
      NoSubmissionQueries([]);
      Step(labels, c, [])
    else if host.canManage then ManagerMeta(c, store, host, course, mod, a, labels)
    else ViewerMeta(c, store, host, course, mod, a, labels)
  }

  /** std_meta for an available activity and a viewer who may manage
      activities: the dates, then the teacher fields. */
  function ManagerMeta(c: Caches, store: Store, host: Host, course: int, mod: Mod, a: Adapter, labels: Meta): (r: Step<Meta>)
    requires OnlyLabels(labels)
    ensures r.value == labels.(timeOpen := r.value.timeOpen, timeClose := r.value.timeClose, isTeacher := true,
                               numSubmissions := r.value.numSubmissions, numRequireGrading := r.value.numRequireGrading)
    ensures var d := InstanceActivityDates(c, store, course, mod, a.timeOpenField, a.timeCloseField).value;
      && r.value.timeOpen == (if d.Some? then d.value.timeOpen else None)
      && r.value.timeClose == (if d.Some? then d.value.timeClose else None)
    ensures r.value.numSubmissions.Some? <==> HasNumSubmissions(mod.modName)
    ensures r.value.numRequireGrading.Some? <==> HasNumUngraded(mod.modName)
    ensures forall q | q in r.fetches :: !q.SubmissionsFetch? && !q.GradesFetch?
    ensures SubmissionQueries(r.fetches) == 0 && r.caches.submissions == c.submissions
    ensures |r.fetches| <= 3 && Memo.Distinct(r.fetches)
    ensures forall q | q in r.fetches :: q in CallQueries(course, mod.modName)
  {
    var d := InstanceActivityDates(c, store, course, mod, a.timeOpenField, a.timeCloseField);
    var t := TeacherMeta(d.caches, store, course, mod, Dated(labels, d.value));
    ManagerTrace(d.fetches, t.fetches, course, mod.modName);
    Step(t.value, t.caches, d.fetches + t.fetches)
  }

  /** std_meta for an available activity and any other viewer: the dates,
      then the student fields. */
  function ViewerMeta(c: Caches, store: Store, host: Host, course: int, mod: Mod, a: Adapter, labels: Meta): (r: Step<Meta>)
    requires OnlyLabels(labels)
    ensures r.value == labels.(timeOpen := r.value.timeOpen, timeClose := r.value.timeClose, submitted := r.value.submitted,
                               timeSubmitted := r.value.timeSubmitted, grade := r.value.grade)
    ensures var d := InstanceActivityDates(c, store, course, mod, a.timeOpenField, a.timeCloseField).value;
      && r.value.timeOpen == (if d.Some? then d.value.timeOpen else None)
      && r.value.timeClose == (if d.Some? then d.value.timeClose else None)
    ensures r.value.submitted ==> Opened(r.value.timeOpen, host)
    ensures forall q | q in r.fetches && (q.SubmissionsFetch? || q.GradesFetch?) :: Opened(r.value.timeOpen, host)
    ensures r.value.timeSubmitted.Some? ==> r.value.submitted
    ensures r.value.grade ==>
      r.value.submitted && a.isGradeable && (!host.gradeHidden(mod.modName, mod.instance) || host.canViewHidden)
    ensures var key := Key(course, mod.modName);
      && (forall q | q in r.fetches && q.SubmissionsFetch? :: q.key == key && key !in c.submissions)
      && SubmissionQueries(r.fetches) == (if SubmissionsFetch(key) in r.fetches then 1 else 0)
      && r.caches.submissions.Keys == c.submissions.Keys + (if SubmissionsFetch(key) in r.fetches then {key} else {})
    ensures |r.fetches| <= 3 && Memo.Distinct(r.fetches)
    ensures forall q | q in r.fetches :: q in CallQueries(course, mod.modName)
    ensures forall q | q in r.fetches && q.GradesFetch? :: r.value.submitted && a.isGradeable
  {
    var d := InstanceActivityDates(c, store, course, mod, a.timeOpenField, a.timeCloseField);
    var s := StudentMeta(d.caches, store, host, course, mod, a, Dated(labels, d.value));
    ViewerTrace(d.fetches, s.fetches, course, mod.modName);
    Step(s.value, s.caches, d.fetches + s.fetches)
  }

  /** The six `<kind>_meta` entry points: the resolver with the kind's adapter. */
  function ModMeta(c: Caches, store: Store, host: Host, course: int, mod: Mod): (r: Step<Meta>)
    ensures r.value.submitStrKey == AdapterOf(mod.modName).submitStrKey
    ensures r.value.grade ==> mod.modName in {Assign, Lesson, Quiz}
    ensures !mod.available ==> OnlyLabels(r.value)
    ensures var key := Key(course, mod.modName);
      && (forall q | q in r.fetches && q.SubmissionsFetch? :: q.key == key && key !in c.submissions)
      && SubmissionQueries(r.fetches) == (if SubmissionsFetch(key) in r.fetches then 1 else 0)
      && r.caches.submissions.Keys == c.submissions.Keys + (if SubmissionsFetch(key) in r.fetches then {key} else {})
    ensures |r.fetches| <= 3 && Memo.Distinct(r.fetches)
    ensures forall q | q in r.fetches :: q in CallQueries(course, mod.modName)
    ensures forall q | q in r.fetches && q.GradesFetch? :: r.value.submitted && mod.modName in {Assign, Lesson, Quiz}
  {
    StdMeta(c, store, host, course, mod, AdapterOf(mod.modName))
  }

  // ---------------------------------------------------------------------------
  // Coherent tables: each lookup answers what the store answers

  /** Through coherent tables, instance_activity_dates gives the store's
      dates of the instance, and the tables stay coherent. */
  lemma DatesThroughCoherent(c: Caches, store: Store, course: int, mod: Mod, ac: int, qc: int)
    requires Coherent(c, store, ac, qc)
    ensures var a := AdapterOf(mod.modName);
      var r := InstanceActivityDates(c, store, course, mod, a.timeOpenField, a.timeCloseField);
      && r.value == Get(DatesFor(store, Key(course, mod.modName)), mod.instance)
      && Coherent(r.caches, store, ac, qc)
  {
  }

  /** Through coherent tables, get_submission_row gives the store's row of
      the instance, and the tables stay coherent. */
  lemma SubmissionRowThroughCoherent(c: Caches, store: Store, course: int, mod: Mod, ac: int, qc: int)
    requires Coherent(c, store, ac, qc)
    ensures var r := GetSubmissionRow(c, store, course, mod, AdapterOf(mod.modName));
      && r.value == Get(SubmissionsFor(store, Key(course, mod.modName)), mod.instance)
      && Coherent(r.caches, store, ac, qc)
  {
  }

  /** Through coherent tables, grade_row gives the store's grade row of the
      instance, and the tables stay coherent. */
  lemma GradeRowThroughCoherent(c: Caches, store: Store, course: int, mod: Mod, ac: int, qc: int)
    requires Coherent(c, store, ac, qc)
    ensures var r := GradeRow(c, store, course, mod, AdapterOf(mod.modName).keyField);
      && r.value == Get(GradesFor(store, Key(course, mod.modName)), mod.instance)
      && Coherent(r.caches, store, ac, qc)
  {
  }

  /** Through coherent tables, std_num_submissions gives the activity's
      number of distinct non-grader submitters, hit or miss. */
  lemma TotalsThroughCoherent(c: Caches, store: Store, course: int, id: int, m: ModName, ac: int, qc: int)
    requires Coherent(c, store, ac, qc)
    ensures var r := StdNumSubmissions(c, store, course, id, m, "");
      var t := store.tables(m);
      && r.value == (if InCourse(t, id, course) then |Submitters(t, id, store.graders(course))| else 0)
      && Coherent(r.caches, store, ac, qc)
  {
    SubmissionTotalsAt(store.tables(m), course, store.graders(course), id);
  }

  /** Through coherent tables, assign_num_submissions_ungraded gives the
      pending count of the course that filled its slot: this call's course if
      the slot was empty, the earlier one otherwise. */
  lemma AssignPendingThroughCoherent(c: Caches, store: Store, course: int, id: int, ac: int, qc: int)
    requires Coherent(c, store, ac, qc)
    ensures var r := AssignNumSubmissionsUngraded(c, store, course, id);
      var ac' := Filler(c.assignUngraded, ac, course);
      var t := store.tables(Assign);
      && r.value == (if InCourse(t, id, ac') then |PendingRows(t, id, store.graders(ac'), StatusIs("submitted"))| else 0)
      && Coherent(r.caches, store, ac', qc)
  {
    var ac' := Filler(c.assignUngraded, ac, course);
    PendingTotalsAt(store.tables(Assign), ac', store.graders(ac'), StatusIs("submitted"), id);
  }

  /** The same for quiz_num_submissions_ungraded. */
  lemma QuizPendingThroughCoherent(c: Caches, store: Store, course: int, id: int, ac: int, qc: int)
    requires Coherent(c, store, ac, qc)
    ensures var r := QuizNumSubmissionsUngraded(c, store, course, id);
      var qc' := Filler(c.quizUngraded, qc, course);
      var t := store.tables(Quiz);
      && r.value == (if InCourse(t, id, qc') then |PendingRows(t, id, store.graders(qc'), TimeFinished)| else 0)
      && Coherent(r.caches, store, ac, qc')
  {
    var qc' := Filler(c.quizUngraded, qc, course);
    PendingTotalsAt(store.tables(Quiz), qc', store.graders(qc'), TimeFinished, id);
  }

  /** The student fields through coherent tables, stated against the store:
      `submitted` holds exactly when the activity has opened and the store has
      the viewer's row, and `grade` exactly when also the kind is gradeable,
      the store has a grade row, and the grade may be shown. */
  lemma StudentThroughCoherent(c: Caches, store: Store, host: Host, course: int, mod: Mod, dated: Meta, ac: int, qc: int)
    requires Coherent(c, store, ac, qc)
    requires !dated.submitted && dated.timeSubmitted.None? && !dated.grade
    ensures var a := AdapterOf(mod.modName);
      var r := StudentMeta(c, store, host, course, mod, a, dated);
      var key := Key(course, mod.modName);
      var rows := SubmissionsFor(store, key);
      && (r.value.submitted <==> Opened(dated.timeOpen, host) && mod.instance in rows)
      && (r.value.submitted ==> r.value.timeSubmitted == TimeSubmitted(rows[mod.instance], a.submittedOnField))
      && (r.value.grade <==>
            r.value.submitted && a.isGradeable && mod.instance in GradesFor(store, key) &&
            (!host.gradeHidden(mod.modName, mod.instance) || host.canViewHidden))
      && Coherent(r.caches, store, ac, qc)
  {
    var a := AdapterOf(mod.modName);
    if Opened(dated.timeOpen, host) {
      var s := GetSubmissionRow(c, store, course, mod, a);
      SubmissionRowThroughCoherent(c, store, course, mod, ac, qc);
      var g := Recorded(s, store, host, course, mod, a, dated);
      assert StudentMeta(c, store, host, course, mod, a, dated) == Step(g.value, g.caches, s.fetches + g.fetches);
      if s.value.Some? && a.isGradeable {
        GradeRowThroughCoherent(s.caches, store, course, mod, ac, qc);
      }
    }
  }

  /** The teacher counts through coherent tables, stated against the store.
      The ungraded counts are those of the course that filled their slot. */
  lemma CountsThroughCoherent(c: Caches, store: Store, course: int, mod: Mod, ac: int, qc: int)
    requires Coherent(c, store, ac, qc)
    ensures var r := TeacherCounts(c, store, course, mod);
      var t := store.tables(mod.modName);
      var id := mod.instance;
      var ac' := Filler(c.assignUngraded, ac, course);
      var qc' := Filler(c.quizUngraded, qc, course);
      && (HasNumSubmissions(mod.modName) ==>
            r.value.0 == Some(if InCourse(t, id, course) then |Submitters(t, id, store.graders(course))| else 0))
      && (mod.modName == Assign ==>
            r.value.1 == Some(if InCourse(t, id, ac') then |PendingRows(t, id, store.graders(ac'), StatusIs("submitted"))| else 0))
      && (mod.modName == Quiz ==>
            r.value.1 == Some(if InCourse(t, id, qc') then |PendingRows(t, id, store.graders(qc'), TimeFinished)| else 0))
  {
    var m := mod.modName;
    if HasNumSubmissions(m) {
      var x := NumSubmissions(c, store, course, m, mod.instance);
      TotalsThroughCoherent(c, store, course, mod.instance, m, ac, qc);
      if m == Assign {
        AssignPendingThroughCoherent(x.caches, store, course, mod.instance, ac, qc);
      } else if m == Quiz {
        QuizPendingThroughCoherent(x.caches, store, course, mod.instance, ac, qc);
      }
    }
  }

  /** The teacher counts keep the tables coherent; an ungraded slot that was
      empty now holds the totals of this call's course. */
  lemma CountsKeepCoherent(c: Caches, store: Store, course: int, mod: Mod, ac: int, qc: int)
    requires Coherent(c, store, ac, qc)
    ensures Coherent(TeacherCounts(c, store, course, mod).caches, store,
                     Filler(c.assignUngraded, ac, course), Filler(c.quizUngraded, qc, course))
  {
    var m := mod.modName;
    if HasNumSubmissions(m) {
      var x := NumSubmissions(c, store, course, m, mod.instance);
      TotalsThroughCoherent(c, store, course, mod.instance, m, ac, qc);
      if m == Assign {
        AssignPendingThroughCoherent(x.caches, store, course, mod.instance, ac, qc);
      } else if m == Quiz {
        QuizPendingThroughCoherent(x.caches, store, course, mod.instance, ac, qc);
      }
    }
  }

  /** A student visit with coherent tables, stated against the store alone:
      the dates are the activity's columns, `submitted` holds exactly when the
      activity has opened and the viewer has a row, the time comes from that
      row, and `grade` needs a gradeable kind, a grade row, and a grade that is
      visible or a viewer who may see hidden grades. The tables stay coherent. */
  lemma StudentVisit(c: Caches, store: Store, host: Host, course: int, mod: Mod, ac: int, qc: int)
    requires Coherent(c, store, ac, qc)
    requires mod.available && !host.canManage
    ensures var r := ModMeta(c, store, host, course, mod);
      var a := AdapterOf(mod.modName);
      var key := Key(course, mod.modName);
      var open := Column(store, course, mod, a.timeOpenField);
      var rows := SubmissionsFor(store, key);
      && r.value.timeOpen == open
      && r.value.timeClose == Column(store, course, mod, a.timeCloseField)
      && (r.value.submitted <==> Opened(open, host) && mod.instance in rows)
      && (r.value.submitted ==>
            mod.instance in rows && r.value.timeSubmitted == TimeSubmitted(rows[mod.instance], a.submittedOnField))
      && (r.value.grade <==>
            r.value.submitted && a.isGradeable && mod.instance in GradesFor(store, key) &&
            (!host.gradeHidden(mod.modName, mod.instance) || host.canViewHidden))
      && Coherent(r.caches, store, ac, qc)
  {
    var a := AdapterOf(mod.modName);
    var d := InstanceActivityDates(c, store, course, mod, a.timeOpenField, a.timeCloseField);
    DatesThroughCoherent(c, store, course, mod, ac, qc);
    var dated := Dated(Labels(host, a), d.value);
    var s := StudentMeta(d.caches, store, host, course, mod, a, dated);
    StudentThroughCoherent(d.caches, store, host, course, mod, dated, ac, qc);
    assert ModMeta(c, store, host, course, mod) == StdMeta(c, store, host, course, mod, a);
    assert StdMeta(c, store, host, course, mod, a) == Step(s.value, s.caches, d.fetches + s.fetches);
  }

  /** A teacher visit with coherent tables, stated against the store alone:
      the submission count is the number of distinct non-grader submitters;
      the grading count is the number of pending rows of the activity as the
      course that filled the ungraded slot sees it. */
  lemma TeacherVisit(c: Caches, store: Store, host: Host, course: int, mod: Mod, ac: int, qc: int)
    requires Coherent(c, store, ac, qc)
    requires mod.available && host.canManage
    ensures var r := ModMeta(c, store, host, course, mod);
      var t := store.tables(mod.modName);
      var id := mod.instance;
      var ac' := Filler(c.assignUngraded, ac, course);
      var qc' := Filler(c.quizUngraded, qc, course);
      && (HasNumSubmissions(mod.modName) ==>
            r.value.numSubmissions == Some(if InCourse(t, id, course) then |Submitters(t, id, store.graders(course))| else 0))
      && (mod.modName == Assign ==>
            r.value.numRequireGrading == Some(if InCourse(t, id, ac') then |PendingRows(t, id, store.graders(ac'), StatusIs("submitted"))| else 0))
      && (mod.modName == Quiz ==>
            r.value.numRequireGrading == Some(if InCourse(t, id, qc') then |PendingRows(t, id, store.graders(qc'), TimeFinished)| else 0))
      && Coherent(r.caches, store, ac', qc')
  {
    var a := AdapterOf(mod.modName);
    var d := InstanceActivityDates(c, store, course, mod, a.timeOpenField, a.timeCloseField);
    DatesThroughCoherent(c, store, course, mod, ac, qc);
    var dated := Dated(Labels(host, a), d.value);
    var t := TeacherMeta(d.caches, store, course, mod, dated);
    var counts := TeacherCounts(d.caches, store, course, mod);
    CountsThroughCoherent(d.caches, store, course, mod, ac, qc);
    CountsKeepCoherent(d.caches, store, course, mod, ac, qc);
    assert ModMeta(c, store, host, course, mod) == StdMeta(c, store, host, course, mod, a);
    assert StdMeta(c, store, host, course, mod, a) == Step(t.value, t.caches, d.fetches + t.fetches);
  }

  /** Every entry point keeps the tables coherent with the store; an
      ungraded slot that was empty now holds the totals of this call's course. */
  lemma ModMetaKeepsCoherent(c: Caches, store: Store, host: Host, course: int, mod: Mod, ac: int, qc: int)
    requires Coherent(c, store, ac, qc)
    ensures Coherent(ModMeta(c, store, host, course, mod).caches, store,
                     Filler(c.assignUngraded, ac, course), Filler(c.quizUngraded, qc, course))
  {
    if mod.available {
      if host.canManage {
        TeacherVisit(c, store, host, course, mod, ac, qc);
      } else {
        StudentVisit(c, store, host, course, mod, ac, qc);
      }
    }
  }

  // ---------------------------------------------------------------------------
  // Properties of the resolver

  /** The first student visit of a request, stated against the store alone:
      the open time comes from the activity's row, `submitted` holds exactly
      when the activity has opened and the viewer has a row, the time comes
      from that row, and `grade` needs a gradeable kind, a grade row, and a
      grade that is visible or a viewer who may see hidden grades. */
  lemma FirstStudentVisit(store: Store, host: Host, course: int, mod: Mod, a: Adapter)
    requires mod.available && !host.canManage
    ensures var r := StdMeta(NoCaches, store, host, course, mod, a);
      var open := Column(store, course, mod, a.timeOpenField);
      var rows := store.viewerSubmissions(SubmissionQueryOf(course, mod.modName, a));
      var grades := store.viewerGrades(GradeQuery(course, mod.modName, a.keyField));
      && r.value.timeOpen == open
      && (r.value.submitted <==> Opened(open, host) && mod.instance in rows)
      && (r.value.submitted ==>
            mod.instance in rows && r.value.timeSubmitted == TimeSubmitted(rows[mod.instance], a.submittedOnField))
      && (r.value.grade <==>
            r.value.submitted && a.isGradeable && mod.instance in grades &&
            (!host.gradeHidden(mod.modName, mod.instance) || host.canViewHidden))
  {
  }

  /** The first teacher visit of a request, stated against the store alone:
      the counts are the relational ones of the kind's tables. */
  lemma FirstTeacherVisit(store: Store, host: Host, course: int, mod: Mod, a: Adapter)
    requires mod.available && host.canManage
    ensures var r := StdMeta(NoCaches, store, host, course, mod, a);
      var t := store.tables(mod.modName);
      var id := mod.instance;
      var graders := store.graders(course);
      && (HasNumSubmissions(mod.modName) ==>
            r.value.numSubmissions == Some(if InCourse(t, id, course) then |Submitters(t, id, graders)| else 0))
      && (mod.modName == Assign ==>
            r.value.numRequireGrading == Some(if InCourse(t, id, course) then |PendingRows(t, id, graders, StatusIs("submitted"))| else 0))
      && (mod.modName == Quiz ==>
            r.value.numRequireGrading == Some(if InCourse(t, id, course) then |PendingRows(t, id, graders, TimeFinished)| else 0))
  {
  }

  /** A grade-visibility function under which no grade is hidden. */
  function NeverHidden(m: ModName, id: int): bool
  {
    false
  }

  /** For a hidden grade, the view-hidden capability alone decides `grade`:
      without it the flag is off; with it the flag is what it would be for a
      visible grade. Nothing else about the result, the tables or the queries
      depends on the capability. */
  lemma ViewHiddenDecidesHiddenGrade(c: Caches, store: Store, host: Host, course: int, mod: Mod, a: Adapter)
    requires host.gradeHidden(mod.modName, mod.instance)
    ensures var shown := StdMeta(c, store, host.(canViewHidden := true), course, mod, a);
      var withheld := StdMeta(c, store, host.(canViewHidden := false), course, mod, a);
      var visible := StdMeta(c, store, host.(gradeHidden := NeverHidden), course, mod, a);
      && !withheld.value.grade
      && shown.value.grade == visible.value.grade
      && shown.value == withheld.value.(grade := shown.value.grade)
      && shown.caches == withheld.caches && shown.fetches == withheld.fetches
  {
    if mod.available && !host.canManage {
      var d := InstanceActivityDates(c, store, course, mod, a.timeOpenField, a.timeCloseField);
      StudentViewHidden(d.caches, store, host, course, mod, a, Dated(Labels(host, a), d.value));
    }
  }

  /** ViewHiddenDecidesHiddenGrade for the student branch alone. */
  lemma StudentViewHidden(c: Caches, store: Store, host: Host, course: int, mod: Mod, a: Adapter, dated: Meta)
    requires host.gradeHidden(mod.modName, mod.instance)
    requires !dated.submitted && dated.timeSubmitted.None? && !dated.grade
    ensures var shown := StudentMeta(c, store, host.(canViewHidden := true), course, mod, a, dated);
      var withheld := StudentMeta(c, store, host.(canViewHidden := false), course, mod, a, dated);
      var visible := StudentMeta(c, store, host.(gradeHidden := NeverHidden), course, mod, a, dated);
      && !withheld.value.grade
      && shown.value.grade == visible.value.grade
      && shown.value == withheld.value.(grade := shown.value.grade)
      && shown.caches == withheld.caches && shown.fetches == withheld.fetches
  {
    if Opened(dated.timeOpen, host) {
      RecordedViewHidden(GetSubmissionRow(c, store, course, mod, a), store, host, course, mod, a, dated);
    }
  }

  /** ViewHiddenDecidesHiddenGrade once the submission row is looked up. */
  lemma RecordedViewHidden(s: Step<Option<Row>>, store: Store, host: Host, course: int, mod: Mod, a: Adapter, dated: Meta)
    requires host.gradeHidden(mod.modName, mod.instance)
    requires !dated.submitted && dated.timeSubmitted.None? && !dated.grade
    ensures var shown := Recorded(s, store, host.(canViewHidden := true), course, mod, a, dated);
      var withheld := Recorded(s, store, host.(canViewHidden := false), course, mod, a, dated);
      var visible := Recorded(s, store, host.(gradeHidden := NeverHidden), course, mod, a, dated);
      && !withheld.value.grade
      && shown.value.grade == visible.value.grade
      && shown.value == withheld.value.(grade := shown.value.grade)
      && shown.caches == withheld.caches && shown.fetches == withheld.fetches
  {
  }

  /** A `timemodified` of 0 is set, so it is reported as is rather than
      replaced by `timecreated`. */
  lemma ZeroModifiedIsKept(created: int)
    ensures TimeSubmitted(map["timemodified" := 0, "timecreated" := created], "timemodified") == Some(0)
  {
  }

  /** The fallback also applies to kinds whose submitted-on column is
      `timeseen` (choice, lesson): an empty `timeseen` yields `timemodified`. */
  lemma FallbackForEveryKind(m: ModName, row: Row)
    requires AdapterOf(m).submittedOnField !in row
    requires "timemodified" in row
    ensures TimeSubmitted(row, AdapterOf(m).submittedOnField) == Some(row["timemodified"])
  {
  }

  /** The kinds (as table keys) a sequence of activities of one course uses. */
  function KeysOf(course: int, mods: seq<Mod>): set<Key>
  {
    if |mods| == 0 then {} else KeysOf(course, mods[..|mods| - 1]) + {Key(course, mods[|mods| - 1].modName)}
  }

  /** Computes the meta record of each activity of a course in turn, threading
      the tables, and collects the queries issued. Record `i` is what ModMeta
      gives for activity `i` from the tables left by the activities before it,
      and the trace is the concatenation of those calls' traces. Each kind
      present is queried for submission rows at most once, however many
      activities there are. */
  method MetaForCourse(c: Caches, store: Store, host: Host, course: int, mods: seq<Mod>)
    returns (metas: seq<Meta>, last: Caches, fetches: seq<Query>, ghost states: seq<Caches>, ghost traces: seq<seq<Query>>)
    ensures |metas| == |mods|
    ensures |states| == |mods| + 1 && states[0] == c && states[|mods|] == last
    ensures |traces| == |mods| && fetches == Concat(traces)
    ensures forall i | 0 <= i < |mods| :: Resolved(states[i], store, host, course, mods[i], metas[i], states[i + 1], traces[i])
    ensures forall i | 0 <= i < |mods| :: metas[i].isTeacher <==> mods[i].available && host.canManage
    ensures forall i | 0 <= i < |mods| && !mods[i].available :: OnlyLabels(metas[i])
    ensures c.submissions.Keys <= last.submissions.Keys
    ensures forall k :: SubmissionsFetch(k) in fetches <==> k in last.submissions.Keys - c.submissions.Keys
    ensures SubmissionQueries(fetches) == |last.submissions.Keys - c.submissions.Keys|
    ensures last.submissions.Keys - c.submissions.Keys <= KeysOf(course, mods)
    ensures SubmissionQueries(fetches) <= |KeysOf(course, mods)|
  {
    metas, last, fetches, states, traces := RunPage(c, store, host, course, mods);
    ChainedResolved(states, store, host, course, mods, metas, traces);
    SubsetCardinality(last.submissions.Keys - c.submissions.Keys, KeysOf(course, mods));
  }

  /** The loop of MetaForCourse, its promises kept in the loop's own terms. */
  method RunPage(c: Caches, store: Store, host: Host, course: int, mods: seq<Mod>)
    returns (metas: seq<Meta>, last: Caches, fetches: seq<Query>, ghost states: seq<Caches>, ghost traces: seq<seq<Query>>)
    ensures Summarizes(metas, mods, host)
    ensures Tally(c.submissions.Keys, last.submissions.Keys, fetches, KeysOf(course, mods))
    ensures |states| == |mods| + 1 && states[0] == c && states[|mods|] == last
    ensures |traces| == |mods| && fetches == Concat(traces)
    ensures Chained(ResolvedBy(store, host, course), states, mods, metas, traces, |mods|)
  {
    metas, last, fetches := [], c, [];
    states, traces := [c], [];
    var i := 0;
    while i < |mods|
      invariant 0 <= i <= |mods|
      invariant Summarizes(metas, mods[..i], host)
      invariant Tally(c.submissions.Keys, last.submissions.Keys, fetches, KeysOf(course, mods[..i]))
      invariant |states| == i + 1 && states[0] == c && states[i] == last
      invariant |traces| == i && fetches == Concat(traces)
      invariant Chained(ResolvedBy(store, host, course), states, mods, metas, traces, i)
    {
      metas, last, fetches, states, traces := Advance(c, store, host, course, mods, i, metas, last, fetches, states, traces);
      i := i + 1;
    }
    assert mods[..i] == mods;
  }

  /** The loop step of MetaForCourse: resolves activity `i` and extends the
      records, the trace and the tally by it. */
  method Advance(c: Caches, store: Store, host: Host, course: int, mods: seq<Mod>, i: int,
                 metas: seq<Meta>, last: Caches, fetches: seq<Query>,
                 ghost states: seq<Caches>, ghost traces: seq<seq<Query>>)
    returns (metas': seq<Meta>, last': Caches, fetches': seq<Query>,
             ghost states': seq<Caches>, ghost traces': seq<seq<Query>>)
    requires 0 <= i < |mods|
    requires Summarizes(metas, mods[..i], host)
    requires Tally(c.submissions.Keys, last.submissions.Keys, fetches, KeysOf(course, mods[..i]))
    requires |states| == i + 1 && states[0] == c && states[i] == last
    requires |traces| == i && fetches == Concat(traces)
    requires Chained(ResolvedBy(store, host, course), states, mods, metas, traces, i)
    ensures Summarizes(metas', mods[..i + 1], host)
    ensures Tally(c.submissions.Keys, last'.submissions.Keys, fetches', KeysOf(course, mods[..i + 1]))
    ensures |states'| == i + 2 && states'[0] == c && states'[i + 1] == last'
    ensures |traces'| == i + 1 && fetches' == Concat(traces')
    ensures Chained(ResolvedBy(store, host, course), states', mods, metas', traces', i + 1)
  {
    var meta, step;
    meta, last', step := ResolveOne(last, store, host, course, mods[i]);
    KeysOfSnoc(course, mods, i);
    NewKeyCount(c.submissions.Keys, last.submissions.Keys, last'.submissions.Keys, Key(course, mods[i].modName),
                fetches, step, KeysOf(course, mods[..i]));
    SummarizesSnoc(metas, mods, i, host, meta);
    metas', fetches' := metas + [meta], fetches + step;
    ResolvedStep(states, store, host, course, mods, metas, traces, i, meta, last', step);
    states', traces' := states + [last'], traces + [step];
  }

  /** One step of MetaForCourse: the activity's meta record, the tables
      afterwards, and the queries issued; a submission-row query is issued
      only for a key not yet in the table, and adds exactly that key. */
  method ResolveOne(c: Caches, store: Store, host: Host, course: int, mod: Mod)
    returns (meta: Meta, next: Caches, fetches: seq<Query>)
    ensures Resolved(c, store, host, course, mod, meta, next, fetches)
    ensures !mod.available ==> OnlyLabels(meta)
    ensures meta.isTeacher <==> mod.available && host.canManage
    ensures var key := Key(course, mod.modName);
      && (forall q | q in fetches && q.SubmissionsFetch? :: q.key == key && key !in c.submissions)
      && SubmissionQueries(fetches) == (if SubmissionsFetch(key) in fetches then 1 else 0)
      && next.submissions.Keys == c.submissions.Keys + (if SubmissionsFetch(key) in fetches then {key} else {})
  {
    var r := ModMeta(c, store, host, course, mod);
    meta, next, fetches := r.value, r.caches, r.fetches;
  }

  /** `meta`, `next` and `fs` are what ModMeta gives for `mod` from tables `c`. */
  ghost predicate Resolved(c: Caches, store: Store, host: Host, course: int, mod: Mod,
                           meta: Meta, next: Caches, fs: seq<Query>)
  {
    var r := ModMeta(c, store, host, course, mod);
    meta == r.value && next == r.caches && fs == r.fetches
  }

  /** ModMeta over a page as a step relation: from tables `s`, activity `m`
      gives record `meta`, tables `s'` and trace `t`. */
  ghost function ResolvedBy(store: Store, host: Host, course: int): (Caches, Mod, Meta, Caches, seq<Query>) -> bool
  {
    (s, m, meta, s', t) => Resolved(s, store, host, course, m, meta, s', t)
  }

  /** The first `n` steps of a run are steps of `step`, each starting from
      the state the one before left. */
  ghost predicate Chained<S, X, M, T>(step: (S, X, M, S, T) -> bool, states: seq<S>, xs: seq<X>,
                                      outs: seq<M>, traces: seq<T>, n: nat)
  {
    && n <= |xs| && n < |states| && n <= |outs| && n <= |traces|
    && forall j | 0 <= j < n :: step(states[j], xs[j], outs[j], states[j + 1], traces[j])
  }

  lemma ChainedSnoc<S, X, M, T>(step: (S, X, M, S, T) -> bool, states: seq<S>, xs: seq<X>,
                                outs: seq<M>, traces: seq<T>, i: nat, out: M, next: S, t: T)
    requires Chained(step, states, xs, outs, traces, i)
    requires i < |xs| && |states| == i + 1 && |outs| == i && |traces| == i
    requires step(states[i], xs[i], out, next, t)
    ensures Chained(step, states + [next], xs, outs + [out], traces + [t], i + 1)
  {
    var ss, os, ts := states + [next], outs + [out], traces + [t];
    forall j | 0 <= j < i + 1
      ensures step(ss[j], xs[j], os[j], ss[j + 1], ts[j])
    {
      if j < i {
        assert ss[j] == states[j] && ss[j + 1] == states[j + 1] && ts[j] == traces[j] && os[j] == outs[j];
      }
    }
  }

  /** One more ModMeta call extends a run of them, and its trace the joined trace. */
  lemma ResolvedStep(states: seq<Caches>, store: Store, host: Host, course: int, mods: seq<Mod>,
                     metas: seq<Meta>, traces: seq<seq<Query>>, i: nat, meta: Meta, next: Caches, step: seq<Query>)
    requires i < |mods| && |states| == i + 1 && |metas| == i && |traces| == i
    requires Chained(ResolvedBy(store, host, course), states, mods, metas, traces, i)
    requires Resolved(states[i], store, host, course, mods[i], meta, next, step)
    ensures Concat(traces + [step]) == Concat(traces) + step
    ensures Chained(ResolvedBy(store, host, course), states + [next], mods, metas + [meta], traces + [step], i + 1)
  {
    ConcatSnoc(traces, step);
    assert ResolvedBy(store, host, course)(states[i], mods[i], meta, next, step);
    ChainedSnoc(ResolvedBy(store, host, course), states, mods, metas, traces, i, meta, next, step);
  }

  lemma ChainedResolved(states: seq<Caches>, store: Store, host: Host, course: int, mods: seq<Mod>,
                        metas: seq<Meta>, traces: seq<seq<Query>>)
    requires |states| == |mods| + 1 && |metas| == |mods| && |traces| == |mods|
    requires Chained(ResolvedBy(store, host, course), states, mods, metas, traces, |mods|)
    ensures forall i | 0 <= i < |mods| :: Resolved(states[i], store, host, course, mods[i], metas[i], states[i + 1], traces[i])
  {
    forall i | 0 <= i < |mods|
      ensures Resolved(states[i], store, host, course, mods[i], metas[i], states[i + 1], traces[i])
    {
      assert ResolvedBy(store, host, course)(states[i], mods[i], metas[i], states[i + 1], traces[i]);
    }
  }

  /** The traces of successive calls, joined in order. */
  ghost function Concat(traces: seq<seq<Query>>): seq<Query>
  {
    if |traces| == 0 then [] else Concat(traces[..|traces| - 1]) + traces[|traces| - 1]
  }

  lemma ConcatSnoc(traces: seq<seq<Query>>, t: seq<Query>)
    ensures Concat(traces + [t]) == Concat(traces) + t
  {
    assert (traces + [t])[..|traces|] == traces;
  }

  /** What MetaForCourse promises of each record: the teacher flag follows
      availability and capability, and an unavailable activity has only labels. */
  ghost predicate Summarizes(metas: seq<Meta>, mods: seq<Mod>, host: Host)
  {
    && |metas| == |mods|
    && (forall j | 0 <= j < |mods| :: metas[j].isTeacher <==> mods[j].available && host.canManage)
    && (forall j | 0 <= j < |mods| && !mods[j].available :: OnlyLabels(metas[j]))
  }

  lemma SummarizesSnoc(metas: seq<Meta>, mods: seq<Mod>, i: int, host: Host, meta: Meta)
    requires 0 <= i < |mods|
    requires Summarizes(metas, mods[..i], host)
    requires meta.isTeacher <==> mods[i].available && host.canManage
    requires !mods[i].available ==> OnlyLabels(meta)
    ensures Summarizes(metas + [meta], mods[..i + 1], host)
  {
    var ms := metas + [meta];
    forall j | 0 <= j < i + 1
      ensures ms[j].isTeacher <==> mods[..i + 1][j].available && host.canManage
      ensures !mods[..i + 1][j].available ==> OnlyLabels(ms[j])
    {
      if j < i {
        assert ms[j] == metas[j] && mods[..i + 1][j] == mods[..i][j];
      }
    }
  }

  /** Bookkeeping of MetaForCourse: the keys added to `start` are among
      `seen`, and the trace holds one submission-row query for each of them
      and no other. */
  ghost predicate Tally(start: set<Key>, now: set<Key>, fetches: seq<Query>, seen: set<Key>)
  {
    && start <= now && now - start <= seen
    && SubmissionQueries(fetches) == |now - start|
    && (forall q | q in fetches && q.SubmissionsFetch? :: q.key in now - start)
    && (forall k | k in now - start :: SubmissionsFetch(k) in fetches)
  }

  /** A step that queries a fresh key raises the tally by one; a step
      without a submission-row query leaves it unchanged. */
  lemma NewKeyCount(start: set<Key>, before: set<Key>, after: set<Key>, key: Key,
                    fetches: seq<Query>, step: seq<Query>, seen: set<Key>)
    requires Tally(start, before, fetches, seen)
    requires forall q | q in step && q.SubmissionsFetch? :: q.key == key && key !in before
    requires SubmissionQueries(step) == (if SubmissionsFetch(key) in step then 1 else 0)
    requires after == before + (if SubmissionsFetch(key) in step then {key} else {})
    ensures Tally(start, after, fetches + step, seen + {key})
  {
    SubmissionQueriesAppend(fetches, step);
    if SubmissionsFetch(key) in step {
      assert after - start == (before - start) + {key};
    }
  }

  lemma KeysOfSnoc(course: int, mods: seq<Mod>, i: int)
    requires 0 <= i < |mods|
    ensures KeysOf(course, mods[..i + 1]) == KeysOf(course, mods[..i]) + {Key(course, mods[i].modName)}
  {
    assert mods[..i + 1][..i] == mods[..i];
  }

  lemma {:induction false} SubsetCardinality<T>(a: set<T>, b: set<T>)
    requires a <= b
    ensures |a| <= |b|
    decreases |a|
  {
    if a != {} {
      var x :| x in a;
      SubsetCardinality(a - {x}, b - {x});
    }
  }
}
