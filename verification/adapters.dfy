/** The six activity kinds and the constant argument tuples with which the
    per-kind meta functions call the shared meta resolver. */
module Adapters {

  /** The activity kinds the theme knows how to describe. */
  datatype ModName = Assign | Choice | Data | Feedback | Lesson | Quiz

  /** The extra predicate a kind adds to its submission-row query. */
  datatype SubmitFilter = AnyRow | StateIs(state: string)

  /** Field and table names plus flags that tailor the meta resolver to one kind. */
  datatype Adapter = Adapter(
    timeOpenField: string,     // column of the activity holding its open time
    timeCloseField: string,    // column of the activity holding its close time
    keyField: string,          // column of a submission or grade row naming the activity
    submissionTable: string,   // suffix of the submission table, after "<modname>_"
    submittedOnField: string,  // column of a submission row holding its time
    submitStrKey: string,      // vocabulary key of the submitted/not-submitted labels
    isGradeable: bool,         // whether a grade row is looked up for a submission
    submitSelect: SubmitFilter)

  /** The module name as it appears in table names. */
  function Name(m: ModName): string
  {
    match m
    case Assign => "assign"
    case Choice => "choice"
    case Data => "data"
    case Feedback => "feedback"
    case Lesson => "lesson"
    case Quiz => "quiz"
  }

  /** The argument tuple each `<kind>_meta` passes to the resolver. */
  function AdapterOf(m: ModName): (a: Adapter)
    ensures a.isGradeable <==> m in {Assign, Lesson, Quiz}
    ensures a.submitSelect == AnyRow <==> m != Quiz
    ensures a.submittedOnField in {"timemodified", "timeseen"}
    ensures a.submittedOnField == "timeseen" <==> m in {Choice, Lesson}
  {
    match m
    case Assign =>
      Adapter("allowsubmissionsfromdate", "duedate", "assignment", "submission",
              "timemodified", "submitted", true, AnyRow)
    case Choice =>
      Adapter("timeopen", "timeclose", "choiceid", "answers",
              "timeseen", "answered", false, AnyRow)
    case Data =>
      Adapter("timeavailablefrom", "timeavailableto", "dataid", "records",
              "timemodified", "contributed", false, AnyRow)
    case Feedback =>
      Adapter("timeopen", "timeclose", "feedback", "completed",
              "timemodified", "submitted", false, AnyRow)
    case Lesson =>
      Adapter("available", "deadline", "lessonid", "attempts",
              "timeseen", "attempted", true, AnyRow)
    case Quiz =>
      Adapter("timeopen", "timeclose", "quiz", "attempts",
              "timemodified", "attempted", true, StateIs("finished"))
  }

  /** Whether a `<modname>_num_submissions` counter exists for the kind. */
  predicate HasNumSubmissions(m: ModName)
  {
    m != Data
  }

  /** Whether a `<modname>_num_submissions_ungraded` counter exists for the kind. */
  predicate HasNumUngraded(m: ModName)
  {
    m == Assign || m == Quiz
  }
}
