/** The report form in the sidebar: five choices that start on the
    placeholder "Kies", a free-text comment, and a save button. The log is
    loaded once when the page renders; a click saves only when every choice
    was made and the comment is not empty. */
module Sidebar {
  import opened Records
  import opened IncidentLog
  import Learners

  /** The first option of every choice list, meaning "nothing chosen". */
  const Placeholder: string := "Kies"

  /** The message the sidebar shows after the button was handled. */
  datatype Notice = NoNotice | SavedNotice | FillInAllFields

  /** The file after the render, the log the page goes on to show, and the
      sidebar message. */
  datatype Submission = Submission(file: LogFile, log: seq<Record>, notice: Notice)

  /** The guard in front of the save: no choice is the placeholder and the
      comment is not empty. */
  predicate ReadyToSave(form: Entry)
  {
    && form.learnerName != Placeholder
    && form.className != Placeholder
    && form.teacher != Placeholder
    && form.incident != Placeholder
    && form.category != Placeholder
    && form.comment != ""
  }

  /** One render of the page up to the save button: load the log, then
      handle the button (`clicked`) with the form as it stands. */
  function Submit(f: LogFile, form: Entry, clicked: bool, now: Timestamp): (r: Result<Submission, LoadError>)
    ensures r.Err? <==> LoadLog(f).Err?
    ensures r.Ok? ==> (r.value.file != f <==> clicked && ReadyToSave(form))
    ensures r.Ok? ==> (r.value.log == LoadLog(f).value <==> !(clicked && ReadyToSave(form)))
    ensures r.Ok? ==> (r.value.notice == SavedNotice <==> clicked && ReadyToSave(form))
    ensures r.Ok? ==> (r.value.notice == FillInAllFields <==> clicked && !ReadyToSave(form))
    ensures r.Ok? && clicked && ReadyToSave(form) ==>
              r.value.log == LoadLog(f).value + [Stamped(form, now)]
    ensures r.Ok? && clicked && ReadyToSave(form) ==>
              r.value.file == Present(WriteRows(r.value.log))
  {
    match LoadLog(f)
    case Err(err) => Err(err)
    case Ok(log) =>
      if !clicked then Ok(Submission(f, log, NoNotice))
      else if !ReadyToSave(form) then Ok(Submission(f, log, FillInAllFields))
      else
        match SaveIncident(f, form, now)
        case Err(err) => Err(err)
        case Ok(step) =>
          assert step.log == log + [Stamped(form, now)] by {
            assert step.log[..|log|] == log;
          }
          Ok(Submission(step.file, step.log, SavedNotice))
  }

  /** A category offered by the learner list (the category of any loaded
      learner row) survives the log file: after a save, reloading the file
      gives the log the page shows. */
  lemma SavedChoiceReloads(f: LogFile, form: Entry, now: Timestamp,
                           raw: Learners.RawLearner, offset: int)
    requires 0 <= offset < Learners.MockSpan
    requires form.category == Learners.Normalise(raw, offset).category
    requires LoadLog(f).Ok?
    requires ReadyToSave(form)
    ensures LoadLog(Submit(f, form, true, now).value.file) == Ok(Submit(f, form, true, now).value.log)
  {
    assert CategoryKept(form.category);
    SaveThenLoad(f, form, now);
  }
}
