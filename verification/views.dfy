/** The read-only views of the log on the page: the "today" panel and the
    filter tab, where each of five choice lists either names a value the
    records must carry or is left on "Alle". */
module Views {
  import opened Records
  import opened Seqs
  import opened IncidentLog
  import opened Sidebar

  // ---------------------------------------------------------------------
  // Filter tab

  /** The first option of every filter list, meaning "any value". */
  const Wildcard: string := "Alle"

  datatype Column = LearnerName | ClassName | TeacherName | IncidentKind | CategoryName

  function Field(r: Record, c: Column): string
  {
    match c
    case LearnerName => r.learnerName
    case ClassName => r.className
    case TeacherName => r.teacher
    case IncidentKind => r.incident
    case CategoryName => r.category
  }

  datatype Filters = Filters(
    learnerName: string,
    className: string,
    teacher: string,
    incident: string,
    category: string)

  predicate AllWildcards(f: Filters)
  {
    && f.learnerName == Wildcard
    && f.className == Wildcard
    && f.teacher == Wildcard
    && f.incident == Wildcard
    && f.category == Wildcard
  }

  /** A filter choice lets a value through when it is the wildcard or the
      value itself. */
  predicate Admits(choice: string, value: string)
  {
    choice == Wildcard || value == choice
  }

  /** The reference meaning of the filter tab: a record is shown when every
      one of the five choices admits the record's value. */
  predicate Matches(f: Filters, r: Record)
  {
    && Admits(f.learnerName, r.learnerName)
    && Admits(f.className, r.className)
    && Admits(f.teacher, r.teacher)
    && Admits(f.incident, r.incident)
    && Admits(f.category, r.category)
  }

  function HasValue(c: Column, value: string): Record -> bool
  {
    r => Field(r, c) == value
  }

  function AdmittedBy(c: Column, choice: string): Record -> bool
  {
    r => Admits(choice, Field(r, c))
  }

  /** One step of the filter block: a choice other than the wildcard keeps
      the rows whose column equals it. */
  function Narrow(log: seq<Record>, c: Column, choice: string): seq<Record>
  {
    if choice == Wildcard then log else Keep(log, HasValue(c, choice))
  }

  /** The five steps in the order the page applies them. */
  function Narrowed(log: seq<Record>, f: Filters): seq<Record>
  {
    var byLearner := Narrow(log, LearnerName, f.learnerName);
    var byClass := Narrow(byLearner, ClassName, f.className);
    var byTeacher := Narrow(byClass, TeacherName, f.teacher);
    var byIncident := Narrow(byTeacher, IncidentKind, f.incident);
    Narrow(byIncident, CategoryName, f.category)
  }

  lemma NarrowAsKeep(log: seq<Record>, c: Column, choice: string)
    ensures Narrow(log, c, choice) == Keep(log, AdmittedBy(c, choice))
  {
    if choice == Wildcard {
      KeepEverything(log, AdmittedBy(c, choice));
    } else {
      KeepAgrees(log, HasValue(c, choice), AdmittedBy(c, choice));
    }
  }

  /** One more step on a log already narrowed by `b`. */
  lemma NarrowStep(log: seq<Record>, s: seq<Record>, b: Record -> bool, c: Column, choice: string)
    requires s == Keep(log, b)
    ensures Narrow(s, c, choice) == Keep(log, Both(b, AdmittedBy(c, choice)))
  {
    NarrowAsKeep(s, c, choice);
    KeepTwice(log, b, AdmittedBy(c, choice));
  }

  /** The five admitted-by conditions together are the reference predicate. */
  function AllAdmitted(f: Filters): Record -> bool
  {
    Both(Both(Both(Both(AdmittedBy(LearnerName, f.learnerName),
                        AdmittedBy(ClassName, f.className)),
                   AdmittedBy(TeacherName, f.teacher)),
              AdmittedBy(IncidentKind, f.incident)),
         AdmittedBy(CategoryName, f.category))
  }

  lemma AllAdmittedMeansMatches(f: Filters, r: Record)
    ensures AllAdmitted(f)(r) == Matches(f, r)
  {
  }

  /** Applying the five steps one after the other keeps exactly the records
      the reference predicate matches, in log order. */
  lemma NarrowedIsOneMask(log: seq<Record>, f: Filters)
    ensures Narrowed(log, f) == Keep(log, r => Matches(f, r))
  {
    var a1 := AdmittedBy(LearnerName, f.learnerName);
    var s1 := Narrow(log, LearnerName, f.learnerName);
    NarrowAsKeep(log, LearnerName, f.learnerName);
    var s2 := Narrow(s1, ClassName, f.className);
    NarrowStep(log, s1, a1, ClassName, f.className);
    var b2 := Both(a1, AdmittedBy(ClassName, f.className));
    var s3 := Narrow(s2, TeacherName, f.teacher);
    NarrowStep(log, s2, b2, TeacherName, f.teacher);
    var b3 := Both(b2, AdmittedBy(TeacherName, f.teacher));
    var s4 := Narrow(s3, IncidentKind, f.incident);
    NarrowStep(log, s3, b3, IncidentKind, f.incident);
    var b4 := Both(b3, AdmittedBy(IncidentKind, f.incident));
    NarrowStep(log, s4, b4, CategoryName, f.category);
    assert Narrowed(log, f) == Keep(log, AllAdmitted(f));
    forall k | 0 <= k < |log|
      ensures AllAdmitted(f)(log[k]) == Matches(f, log[k])
    {
      AllAdmittedMeansMatches(f, log[k]);
    }
    KeepAgrees(log, AllAdmitted(f), r => Matches(f, r));
  }

  /** The filter tab: the rows shown are the log's records that every
      choice admits, in log order and with their multiplicity; with every
      choice on the wildcard the whole log is shown. */
  function FilterLog(log: seq<Record>, f: Filters): (r: seq<Record>)
    ensures IsSubsequence(r, log)
    ensures forall x :: x in r <==> x in log && Matches(f, x)
    ensures forall x :: multiset(r)[x] == if Matches(f, x) then multiset(log)[x] else 0
    ensures AllWildcards(f) ==> r == log
  {
    NarrowedIsOneMask(log, f);
    assert AllWildcards(f) ==> Narrowed(log, f) == log by {
      if AllWildcards(f) {
        KeepEverything(log, r => Matches(f, r));
      }
    }
    Narrowed(log, f)
  }

  // ---------------------------------------------------------------------
  // Today panel

  /** The record has a date, and it falls on calendar day `today`. */
  predicate DatedOn(r: Record, today: int)
  {
    r.date.Some? && r.date.value.day == today
  }

  /** The records dated on `today`, in log order. */
  function TodayView(log: seq<Record>, today: int): (r: seq<Record>)
    ensures IsSubsequence(r, log)
    ensures forall x :: x in r <==> x in log && DatedOn(x, today)
    ensures forall x :: multiset(r)[x] == if DatedOn(x, today) then multiset(log)[x] else 0
  {
    Keep(log, x => DatedOn(x, today))
  }

  /** A row whose stored date does not parse loads without a date and so
      never appears in the today panel. */
  lemma UnparsedDateNeverToday(f: LogFile, k: nat, today: int)
    requires f.Present? && k < |f.rows|
    requires f.rows[k].date.Unparsed?
    ensures LoadLog(f).value[k].date.None?
    ensures LoadLog(f).value[k] !in TodayView(LoadLog(f).value, today)
  {
  }

  /** Why the page stops while drawing the today panel. */
  datatype ViewError = LogNotLoaded(cause: LoadError) | NotDatetimeColumn

  /** The today panel as the page computes it, after the sidebar was
      handled. When the log file was missing and nothing was saved during
      this render, the log on display is the empty seven-column frame, whose
      date column holds no dates at all; taking calendar days of such a
      column raises. */
  function TodayPanelAsWritten(f: LogFile, form: Entry, clicked: bool, now: Timestamp, today: int)
    : (r: Result<seq<Record>, ViewError>)
    ensures f.Missing? && !(clicked && ReadyToSave(form)) ==> r == Err(NotDatetimeColumn)
  {
    match Submit(f, form, clicked, now)
    case Err(e) => Err(LogNotLoaded(e))
    case Ok(sub) =>
      if f.Missing? && sub.notice != SavedNotice then Err(NotDatetimeColumn)
      else Ok(TodayView(sub.log, today))
  }

  /** The today panel as intended: the records of the displayed log dated
      today; an empty log simply has none. */
  function TodayPanel(f: LogFile, form: Entry, clicked: bool, now: Timestamp, today: int)
    : (r: Result<seq<Record>, ViewError>)
    ensures r.Err? <==> f.Unreadable?
    ensures f.Missing? && !(clicked && ReadyToSave(form)) ==> r == Ok([])
    ensures f.Missing? && clicked && ReadyToSave(form) && now.day == today ==>
              r == Ok([Stamped(form, now)])
    ensures r.Ok? ==> r.value == TodayView(Submit(f, form, clicked, now).value.log, today)
    ensures r.Ok? ==> forall x :: x in r.value <==>
              x in Submit(f, form, clicked, now).value.log && DatedOn(x, today)
  {
    match Submit(f, form, clicked, now)
    case Err(e) => Err(LogNotLoaded(e))
    case Ok(sub) =>
      assert f.Missing? && clicked && ReadyToSave(form) && now.day == today ==>
               TodayView(sub.log, today) == sub.log by {
        if f.Missing? && clicked && ReadyToSave(form) && now.day == today {
          KeepEverything(sub.log, x => DatedOn(x, today));
        }
      }
      Ok(TodayView(sub.log, today))
  }

  /** The page's today panel and the intended one differ exactly on a first
      render without a log file where nothing is saved. */
  lemma TodayPanelDiscrepancy(f: LogFile, form: Entry, clicked: bool, now: Timestamp, today: int)
    ensures TodayPanelAsWritten(f, form, clicked, now, today) != TodayPanel(f, form, clicked, now, today)
            <==> f.Missing? && !(clicked && ReadyToSave(form))
  {
  }
}
