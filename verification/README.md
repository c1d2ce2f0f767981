# Activity meta data of the Snap theme, modelled in Dafny

This project models the `theme_snap\activity` class of the Snap theme for
Moodle. For each activity a user sees, the class builds an `activity_meta` record
with these fields:

- the submitted / not-submitted labels;
- the open and close times;
- for a teacher, how many users submitted and how many submissions await a grade;
- for a student, whether they have submitted, when, and whether a visible grade exists.

It also counts submissions per activity and lists the assignments and quizzes
that are waiting to be graded across several courses. Lookups are memoised in
per-request static tables, each with its own rule:

- submission rows and submission totals: one query per course and kind;
- dates and grade rows: a cached entry is used only when it holds the instance;
  otherwise the course and kind are queried again;
- ungraded counts: one query per request, for the course of the first call,
  whatever course later calls pass.

The model is pure. The static tables are the fields of `Activity.Caches`, threaded through every call.
Each call returns a `Step`: its value, the tables afterwards, and the trace of store queries it issued.
The tables are *coherent* with a store (`Activity.Coherent`) when every entry is what the store answers
for its key, and each ungraded-count slot holds the counts of the course whose call filled it.
The database is `Store.Store`:

- activity rows and submission rows per kind;
- the pairs that have a grade row;
- the users of each course who may view all grades;
- the viewer's own submission and grade rows, given as functions.

Each bulk query has a relational meaning in `Store`. For example, `SubmissionTotals` counts
the distinct non-grader users with a submission. Capability checks, the clock,
`usertime`, `get_string` and grade visibility come in as `Activity.Host`.

Modules, in dependency order:

- `Base` holds optional values, rows, and PHP `empty()` on timestamps.
- `Adapters` holds the six kinds and the argument tuple each `<kind>_meta` passes to `std_meta`.
- `Memo` holds the two memo rules of the class, with lemmas about sequences of lookups:
  - fetch a key once, and report a missing instance as absent;
  - re-fetch whenever the instance is missing.
- `Store` holds the tables and the meaning of each bulk query.
- `Activity` holds the lookups, the counters, the meta resolver `StdMeta`, its per-kind entry points, and a whole-course loop.
- `Listing` holds `assign_ungraded` and `quiz_ungraded`.

The class's own comments describe its code differently in two places; this model follows the code:

- The comment on line 88 says the fallback applies when the submitted-on column is the
  modified column, and falls back to `timecreated` when the modified time is 0. Line 89 instead
  assigns `$submittedonfld = 'timemodified'`, which is always true. So whenever the submitted-on
  column is empty, the time falls back to `timemodified` for every kind, including choice and lesson,
  whose column is `timeseen`. The fallback then tests `isset`, so a `timemodified` of 0 is kept as 0;
  `timecreated` is used only when the row has no `timemodified` at all.
- The docblocks of `assign_ungraded` (line 190) and `quiz_ungraded` (line 236) say they return an
  array. For an empty course list they return `false`, here `None`.

One more behaviour is kept as written: `std_num_submissions` ignores its `$extraselect` argument.
The status condition of assignments and the `timefinish` condition of quizzes therefore have no
effect on the submission counts.

## Model

| member | source | states |
|---|---|---|
| Adapters.AdapterOf | classes/activity.php:131-184 | The kinds that look up grade rows are exactly assign, lesson and quiz. Only quiz adds a submission filter (finished attempts). The submitted-on column is `timeseen` for choice and lesson and `timemodified` for every other kind. |
| Memo.FetchOnce | classes/activity.php:481-510 | The store is queried iff the key is not yet in the table. The table afterwards holds the key. The answer is the instance's entry of that key, or absent. |
| Memo.FetchUnlessPresent | classes/activity.php:522-545 | The store is queried iff the instance is missing from the key's entry. The key is then overwritten by the new answer. |
| Memo.FetchOnceIsStale | classes/activity.php:488-494 | Once a key is populated, FetchOnce issues no query, and its answer does not depend on what the store would return. An instance missing from the entry is reported absent. |
| Memo.RefetchOnMissingInstance | classes/activity.php:528-544 | With the key populated but the instance missing, FetchUnlessPresent still queries and replaces the key's entry. |
| Memo.RunOnceFetchesEachKeyOnce | classes/activity.php:481-510 | Over any sequence of lookups, the fetch-once rule queries no key twice. It queries a key iff the key was requested and not already present. The final table holds the old keys plus the requested ones. |
| Memo.RunOnceFetchCount | classes/activity.php:481-510 | The number of queries equals the number of requested keys that were not already present. |
| Memo.RunUnlessPresentRefetches | classes/activity.php:522-545 | The re-fetch rule has no such bound: two lookups of an instance the store lacks issue two queries for the same key. |
| Store.GraderSubmissionIgnored | classes/activity.php:192-470 | Adding a submission by a grader changes none of these: the per-activity submission totals of std_num_submissions (lines 336-371), the ungraded counts of the assignment and quiz counters (lines 292-324 and 437-470), and the distinct ungraded users the listings count (lines 192-280). |
| Activity.InstanceActivityDates | classes/activity.php:522-545 | On a hit the cached dates are returned without a query. Otherwise the course's activities of the kind are queried and stored. The result is present iff the activity belongs to the course, with its open and close columns. |
| Activity.GetSubmissionRow | classes/activity.php:481-510 | The viewer's rows for a course and kind are queried only the first time. The result is the instance's row from the stored entry, absent when it has none. Only the submissions table changes. |
| Activity.GradeRow | classes/activity.php:555-579 | A cached grade row is used only when the instance has one. Otherwise the viewer's grade rows for the course and kind are queried and the entry is overwritten. |
| Activity.StdNumSubmissions | classes/activity.php:336-371 | On the first call for a (table, course) key, one query stores the course's totals, and the count is the number of distinct non-grader users with a submission row for the activity, or 0 when the activity is not in the course. Later calls answer from the stored totals without a query. |
| Activity.NumSubmissionsLaterActivity | classes/activity.php:342-370 | After the first call for a course and kind, a call for another activity of that course and kind issues no query and still gives that activity's own number of submitters. |
| Store.SubmissionTotalsAt | classes/activity.php:348-369 | Reading one activity out of the totals gives its number of distinct non-grader submitters, or 0 when it has none or is not in the course. |
| Activity.NumSubmissions | classes/activity.php:380-428 | The per-kind counters give exactly what std_num_submissions gives with no extra select: the status and timefinish conditions they pass have no effect. |
| Activity.AssignNumSubmissionsUngraded | classes/activity.php:292-324 | The first call of the request stores, in one unkeyed slot, the per-assignment counts of its course: submitted non-grader submission rows with no grade row. It answers the activity's count, 0 when absent. Every later call reads that slot without a query, and reads 0 for a missing id. |
| Activity.QuizNumSubmissionsUngraded | classes/activity.php:437-470 | Same as the assignment counter, over finished attempts with no grade row: the first call stores its course's counts in the slot. |
| Activity.UngradedCountIgnoresLaterCourse | classes/activity.php:295-323 | After the first call, a call for any other course, against any store, issues no query. It answers from the first course's counts. |
| Activity.QuizCountIgnoresLaterCourse | classes/activity.php:440-468 | The same for quizzes: a later call for another course answers from the first course's finished, ungraded attempts. |
| Store.PendingTotalsAt | classes/activity.php:301-323 | Reading one activity out of the ungraded totals gives its number of pending rows, or 0 when it has none or is not in the course. |
| Activity.TeacherCounts | classes/activity.php:67-79 | A submission count exists exactly for the kinds with a `_num_submissions` counter (all but data), and is that counter's answer. A grading count exists exactly for assign and quiz, and is the answer of `assign_num_submissions_ungraded` or `quiz_num_submissions_ungraded`. No date, submission or grade table is touched. At most two queries are issued, no two alike, each one a counter query of this call: the totals of this course and kind, or the ungraded counts of this course for assign or quiz. |
| Activity.SubmissionCount | classes/activity.php:74-76 | A count exists iff the kind has a `_num_submissions` counter, and it is that counter's answer. Only the totals table changes. The trace is empty, or the one totals query of this course and kind. |
| Activity.GradingCount | classes/activity.php:77-79 | A count exists iff the kind is assign or quiz, and it is the answer of that kind's ungraded counter. Only the two ungraded slots change. The trace is empty, or the ungraded query of this course for the kind's own counter. |
| Activity.TimeSubmitted | classes/activity.php:85-95 | A non-empty submitted-on column is the time. Otherwise, whatever the kind, the time is `timemodified` when set (even 0), and `timecreated` otherwise. |
| Activity.TeacherMeta | classes/activity.php:67-79 | The manager branch sets the teacher flag. A submission count is present exactly for the kinds with a `_num_submissions` counter, and is that counter's answer; a grading count is present exactly for assign and quiz, and is the ungraded counter's answer. No other field changes, and the submission table is untouched. Only counter queries are issued: at most two, no two alike, each among the queries this call may make. |
| Activity.StudentMeta | classes/activity.php:80-121 | The student branch changes only `submitted`, `timeSubmitted` and `grade`. Before the open time it changes nothing and issues no query. Once opened, `submitted` holds iff get_submission_row finds a row, the time is that row's submitted time, and `grade` holds iff also the kind is gradeable, grade_row finds a row, and the grade is visible or the viewer may see hidden grades. The trace is one of: nothing, the submission query, the grade query, or the submission query then the grade query, all for this course and kind. The submission query comes only on a miss. A grade query implies `submitted` and a gradeable kind. |
| Activity.OpenedStudentMeta | classes/activity.php:82-121 | Once the activity has opened, only the three student fields change. `submitted` holds iff get_submission_row finds a row, the time comes from it, and `grade` holds iff also the kind is gradeable, grade_row finds a row, and the grade may be shown. Dates, totals and ungraded slots are unchanged. The trace is one of: nothing, the submission query, the grade query, or both in that order. The submission query comes only on a miss and adds exactly this key. A grade query implies `submitted` and a gradeable kind. |
| Activity.Recorded | classes/activity.php:84-117 | Given the submission row lookup: without a row nothing changes and nothing is queried. With a row, `submitted` is set, the time is the row's submitted time, and `grade` holds iff the kind is gradeable, grade_row finds a row, and the grade may be shown. Only the grade table changes. At most one query is issued, the grade query for this course and kind, and only when a row exists and the kind is gradeable. |
| Activity.Labels | classes/activity.php:53-56 | A fresh record holds the kind's vocabulary key and the two strings looked up for it, the second under the key prefixed with `not`. Every other field is at its default: no times, no counts, no flags. |
| Activity.Dated | classes/activity.php:63-66 | Only the open and close times change. They are the found dates when instance_activity_dates finds the instance; otherwise the record stays as it was. |
| Activity.StdMeta | classes/activity.php:40-123 | The labels are always set. An unavailable activity gets nothing else, and costs no query and no table change. An available one shows the open and close times instance_activity_dates finds. A manager gets only the teacher fields, with the counts present exactly for the kinds that have them, and no submission or grade query. `submitted` and any submission or grade query need an available, opened activity and a non-manager. A submission time implies `submitted`. `grade` needs `submitted`, a gradeable kind, and a grade that is visible or a viewer who may see hidden grades. The trace has at most three queries, no two alike, each among the queries this call may make (dates, rows and grades of this course and kind, and the counters of its kind). A grade query implies `submitted` and a gradeable kind. At most one submission query, for this key, and only on a miss. |
| Activity.ManagerMeta | classes/activity.php:63-79 | For a manager and an available activity: the labels, the dates instance_activity_dates finds, the teacher flag, and counts present exactly for the kinds that have them. No submission or grade query, and the submission table is unchanged. At most three queries, no two alike, each among the queries of this call. |
| Activity.ViewerMeta | classes/activity.php:63-121 | For any other viewer and an available activity: the labels and the dates found; `submitted` and every submission or grade query need the activity to have opened; a submission time implies `submitted`; `grade` needs a gradeable kind and a grade that may be shown. At most three queries, no two alike, each among the queries of this call. A grade query implies `submitted` and a gradeable kind. At most one submission query, for this key, on a miss. |
| Activity.ModMeta | classes/activity.php:131-184 | Each entry point labels with its kind's vocabulary key. Only assign, lesson and quiz can report a grade or issue a grade query, and a grade query implies `submitted`. An unavailable activity carries only labels. At most three queries, no two alike, each among the queries of this call. At most one submission query, for this activity's key, only on a miss, and it adds exactly that key. |
| Activity.FirstStudentVisit | classes/activity.php:62-121 | On the first visit of a request, for a student: the open time is the activity's column. `submitted` holds iff the activity has opened and the viewer has a submission row. The time comes from that row. `grade` holds iff also the kind is gradeable, a grade row exists, and the grade is visible or the viewer may see hidden grades. |
| Activity.FirstTeacherVisit | classes/activity.php:67-79 | On the first visit of a request, for a manager: the submission count is the number of distinct non-grader submitters. The grading count is the number of pending submission rows (assign) or finished attempts (quiz). |
| Activity.DatesThroughCoherent | classes/activity.php:522-545 | With tables that hold what the store answers, instance_activity_dates gives the store's dates of the instance, hit or miss, and the tables stay so. |
| Activity.SubmissionRowThroughCoherent | classes/activity.php:481-510 | With such tables, get_submission_row gives the store's row of the instance, and the tables stay so. |
| Activity.GradeRowThroughCoherent | classes/activity.php:555-579 | With such tables, grade_row gives the store's grade row of the instance, and the tables stay so. |
| Activity.TotalsThroughCoherent | classes/activity.php:336-371 | With such tables, std_num_submissions gives the activity's number of distinct non-grader submitters, hit or miss, and the tables stay so. |
| Activity.AssignPendingThroughCoherent | classes/activity.php:292-324 | With such tables, the assignment ungraded count is that of the course that filled the slot: this call's course when it was empty, the earlier course otherwise. |
| Activity.QuizPendingThroughCoherent | classes/activity.php:437-470 | The same for the quiz ungraded count. |
| Activity.StudentThroughCoherent | classes/activity.php:80-121 | With such tables, the student branch answers from the store: `submitted` iff opened and the viewer has a row, its time from that row, `grade` iff also gradeable, a grade row exists, and the grade may be shown. The tables stay so. |
| Activity.CountsThroughCoherent | classes/activity.php:67-79 | With such tables, the teacher counts are the relational ones: the number of distinct non-grader submitters, and the pending rows of the course that filled the ungraded slot. |
| Activity.CountsKeepCoherent | classes/activity.php:67-79 | The teacher counts keep the tables coherent; an empty ungraded slot now holds this call's course's counts. |
| Activity.StudentVisit | classes/activity.php:62-121 | For any coherent tables, a student visit shows the activity's open and close columns; `submitted` holds iff it has opened and the viewer has a row; the time comes from that row; `grade` iff also gradeable, a grade row exists, and the grade may be shown. The tables stay coherent. |
| Activity.TeacherVisit | classes/activity.php:62-79 | For any coherent tables, a manager's visit shows the number of distinct non-grader submitters, and the pending rows (assign) or finished, ungraded attempts (quiz) of the course that filled the ungraded slot. |
| Activity.ModMetaKeepsCoherent | classes/activity.php:131-184 | Every entry point keeps the tables holding what the store answers; an ungraded slot it fills holds its own course's counts. |
| Activity.ViewHiddenDecidesHiddenGrade | classes/activity.php:97-116 | For a hidden grade, `grade` is off without the view-hidden capability. With the capability, it is what it would be for a visible grade. Nothing else depends on the capability. |
| Activity.ZeroModifiedIsKept | classes/activity.php:89-94 | A submission row whose `timemodified` is 0 reports 0, not its `timecreated`. |
| Activity.FallbackForEveryKind | classes/activity.php:87-95 | For every kind, choice and lesson included, a row without the submitted-on column reports its `timemodified`. |
| Activity.ResolveOne | classes/activity.php:131-184 | One step of the page: the record, the tables afterwards and the trace are those of the kind's entry point for this activity. A submission-row query is issued only for a key not yet in the table, and adds exactly that key. |
| Activity.MetaForCourse | classes/activity.php:40-184 | Over all activities of a course in one request, record `i` is exactly what the kind's entry point gives for activity `i`, starting from the tables the activities before it left. The final tables are those after the last activity, and the trace is the calls' traces joined in order. The teacher flag follows availability and capability, and unavailable activities carry only labels. The trace has a submission-row query for a key iff the key was added to the table, and the number of such queries equals the number of keys added. These keys are among the kinds present, so there are at most that many submission-row queries, however many activities there are; dates and grade queries may repeat per activity. |
| Listing.InsertByClose | classes/activity.php:225 | Inserting into a list sorted by close time keeps it sorted and adds exactly the new row. |
| Listing.CourseUngraded | classes/activity.php:203-228 | One course's list, ascending by close time, holds each listed activity exactly once. An activity is listed when it is in the course, its close time is set and either 0 or later than half a year ago, and some non-grader has a qualifying submission without a grade row. The count is the number of such users. |
| Listing.Ungraded | classes/activity.php:192-231 | No courses gives `false`. Otherwise the result is the per-course lists concatenated in the given order, each sorted and holding exactly that course's listed activities. |
| Listing.AssignUngraded | classes/activity.php:192-231 | As Listing.Ungraded, for assignments with submitted, ungraded submissions, between `allowsubmissionsfromdate` and `duedate`. |
| Listing.QuizUngraded | classes/activity.php:239-280 | As Listing.Ungraded, for quizzes with finished, ungraded attempts, between `timeopen` and `timeclose`. |

## Left out

- `events_graded` is not modelled: it reads the grade history and event logs, outside the class's meta data.
- Query failures are not modelled. A `get_records_sql` call that throws (in get_submission_row, std_num_submissions, the two ungraded counters, instance_activity_dates and grade_row) would end the request with the exception. The source caches nothing for a failed query, so a later call would query again. Every query here returns a result.
- SQL text and its parameters are not built. Each query is modelled by its result, as a relation over the store.
- The viewer's submission and grade rows are functions of the store. When several rows share an activity id, `get_records_sql` keeps one of them; which one is not modelled.
- The quiz adapter's submission filter (`state = 'finished'`) only selects which entry of the viewer's abstract submission rows is read. Since those rows are a host-side function, the filter has no effect of its own in the model.
- `array_merge` renumbering and the record objects of `get_records_sql` are not modelled. The list holds one `UngradedRow` per activity.
- The joins with `course`, `modules` and `course_modules` are assumed to match each activity. An activity row carries its course module id directly.
- Listing.CourseUngraded: among activities with the same close time, no order is fixed. The database's tie order is not specified, so the list is stated as sorted and as the right multiset.
- Listing.Ungraded: the ghost `blocks` name the per-course lists. The result is stated as their concatenation, not as a function of the store alone.
- The per-request lifetime of the static tables is the `Caches` value. Concurrency between requests, and PHP process lifetime, are not modelled.
- Looking up the users who may view all grades (`get_enrolled_sql`), which the ungraded counters do before checking their table, has no effect on the result and is not modelled as a query.
- The `activity_meta` class is not part of this model. Its defaults are taken as absent times and counts and false flags.
- `grade_item::fetch` and `grade_grade::is_hidden` are a host function, `Host.gradeHidden`.
- Capability checks, `time()`, `usertime()` and `get_string()` are `Host` inputs.
- PHP warnings, such as reading `timecreated` of a row that lacks it, are not modelled. Such a read gives an absent time.
- Activity.StdNumSubmissions: the table is keyed by kind rather than by the table name string, since each kind calls it with its own table.
- Activity.NumSubmissions: data has no `_num_submissions` counter, so the function requires another kind. The resolver calls it only for those kinds, as `method_exists` does.
- Timestamps are unbounded integers; PHP integer overflow is not modelled.
- Coherence of the tables is proved for the entry points (`ModMeta`), whose adapter is the kind's own. `std_meta` is protected and only called from them; with a foreign adapter it would store one kind's columns under another kind's key.
