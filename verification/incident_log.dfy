/** The incident log file and the three functions that touch it:
    `load_incident_log`, `save_incident` and `clear_incident`. The file is a
    single piece of state: absent, unreadable, or a sequence of stored rows
    under the seven-column header. Every write replaces the whole file. */
module IncidentLog {
  import opened Records
  import opened Seqs

  /** The date field as written in the file: a moment the date parser
      accepts, or any other text (an empty field among them). */
  datatype DateCell = Stamp(moment: Timestamp) | Unparsed(text: string)

  /** One row of the log file. The category is kept as the text of its
      field; the other text fields read back as written. */
  datatype StoredRow = StoredRow(
    learnerName: string,
    className: string,
    teacher: string,
    incident: string,
    category: string,
    comment: string,
    date: DateCell)

  /** The contents of `incident_log.csv`. `Unreadable` stands for a file
      the CSV reader rejects or one without a Category or Date column. */
  datatype LogFile = Missing | Unreadable | Present(rows: seq<StoredRow>)

  /** What a log-changing call leaves behind: the file, and the log it
      returns to the page. */
  datatype Step = Step(file: LogFile, log: seq<Record>)

  /** The values the report form supplies for a new incident. */
  datatype Entry = Entry(
    learnerName: string,
    className: string,
    teacher: string,
    incident: string,
    category: string,
    comment: string)

  // ---------------------------------------------------------------------
  // Reading and writing rows

  /** A category that reads back as itself once written: any text that is
      not a missing-value token, or the text "nan" itself. */
  predicate CategoryKept(category: string)
  {
    category !in MissingTokens || category == "nan"
  }

  /** The category column is converted to text on load. */
  function LoadCategory(text: string): (c: string)
    ensures CategoryKept(c)
    ensures text in MissingTokens ==> c == "nan"
    ensures text !in MissingTokens ==> c == text
  {
    AsText(ReadCell(text))
  }

  /** The date column is parsed with errors coerced: unparseable text
      becomes an absent date. */
  function LoadDate(cell: DateCell): (d: Option<Timestamp>)
    ensures d.None? <==> cell.Unparsed?
    ensures cell.Stamp? ==> d == Some(cell.moment)
  {
    match cell
    case Stamp(m) => Some(m)
    case Unparsed(_) => None
  }

  function LoadRow(row: StoredRow): Record
  {
    Record(row.learnerName, row.className, row.teacher, row.incident,
           LoadCategory(row.category), row.comment, LoadDate(row.date))
  }

  function LoadRows(rows: seq<StoredRow>): (log: seq<Record>)
    ensures |log| == |rows|
    ensures forall k :: 0 <= k < |rows| ==> log[k] == LoadRow(rows[k])
    decreases |rows|
  {
    if |rows| == 0 then [] else [LoadRow(rows[0])] + LoadRows(rows[1..])
  }

  /** An absent date is written as an empty field. */
  function WriteDate(d: Option<Timestamp>): DateCell
  {
    match d
    case Some(m) => Stamp(m)
    case None => Unparsed("")
  }

  function WriteRow(r: Record): StoredRow
  {
    StoredRow(r.learnerName, r.className, r.teacher, r.incident,
              r.category, r.comment, WriteDate(r.date))
  }

  function WriteRows(log: seq<Record>): (rows: seq<StoredRow>)
    ensures |rows| == |log|
    ensures forall k :: 0 <= k < |log| ==> rows[k] == WriteRow(log[k])
    decreases |log|
  {
    if |log| == 0 then [] else [WriteRow(log[0])] + WriteRows(log[1..])
  }

  /** Every record of `log` survives a write and a reload. */
  predicate Reloadable(log: seq<Record>)
  {
    forall k :: 0 <= k < |log| ==> CategoryKept(log[k].category)
  }

  /** One record reads back as itself exactly when its category does. */
  lemma RowRoundTrip(r: Record)
    ensures LoadRow(WriteRow(r)) == r <==> CategoryKept(r.category)
  {
  }

  /** A written log reads back unchanged exactly when every category is
      kept by the text conversion. */
  lemma LogRoundTrip(log: seq<Record>)
    ensures LoadRows(WriteRows(log)) == log <==> Reloadable(log)
  {
  }

  // ---------------------------------------------------------------------
  // The three file operations

  /** `load_incident_log`. */
  function LoadLog(f: LogFile): (r: Result<seq<Record>, LoadError>)
    ensures f.Missing? ==> r == Ok([])
    ensures r.Err? <==> f.Unreadable?
    ensures r.Ok? ==> Reloadable(r.value)
    ensures f.Present? ==> |r.value| == |f.rows|
    ensures f.Present? ==> forall k :: 0 <= k < |f.rows| ==>
              && r.value[k].learnerName == f.rows[k].learnerName
              && r.value[k].className == f.rows[k].className
              && r.value[k].teacher == f.rows[k].teacher
              && r.value[k].incident == f.rows[k].incident
              && r.value[k].comment == f.rows[k].comment
              && r.value[k].category == LoadCategory(f.rows[k].category)
              && (r.value[k].date.None? <==> f.rows[k].date.Unparsed?)
              && (f.rows[k].date.Stamp? ==> r.value[k].date == Some(f.rows[k].date.moment))
  {
    match f
    case Missing => Ok([])
    case Unreadable => Err(UnreadableCsv)
    case Present(rows) => Ok(LoadRows(rows))
  }

  /** The record `save_incident` appends, stamped with the current moment. */
  function Stamped(e: Entry, now: Timestamp): Record
  {
    Record(e.learnerName, e.className, e.teacher, e.incident, e.category, e.comment, Some(now))
  }

  /** `save_incident`: reload, append one record, rewrite the file. */
  function SaveIncident(f: LogFile, e: Entry, now: Timestamp): (r: Result<Step, LoadError>)
    ensures r.Err? <==> LoadLog(f).Err?
    ensures r.Ok? ==>
              var before := LoadLog(f).value;
              var after := r.value.log;
              && |after| == |before| + 1
              && after[..|before|] == before
              && after[|before|].learnerName == e.learnerName
              && after[|before|].className == e.className
              && after[|before|].teacher == e.teacher
              && after[|before|].incident == e.incident
              && after[|before|].category == e.category
              && after[|before|].comment == e.comment
              && after[|before|].date == Some(now)
    ensures r.Ok? ==> r.value.file == Present(WriteRows(r.value.log))
  {
    match LoadLog(f)
    case Err(err) => Err(err)
    case Ok(log) =>
      var log' := log + [Stamped(e, now)];
      Ok(Step(Present(WriteRows(log')), log'))
  }

  /** Reloading after a save gives back the returned log, holding the new
      record once more than before, provided its category survives the
      text conversion. */
  lemma SaveThenLoad(f: LogFile, e: Entry, now: Timestamp)
    requires LoadLog(f).Ok?
    requires CategoryKept(e.category)
    ensures LoadLog(SaveIncident(f, e, now).value.file) == Ok(SaveIncident(f, e, now).value.log)
    ensures multiset(SaveIncident(f, e, now).value.log)[Stamped(e, now)]
            == multiset(LoadLog(f).value)[Stamped(e, now)] + 1
  {
    var log := LoadLog(f).value;
    var log' := log + [Stamped(e, now)];
    assert Reloadable(log') by {
      forall k | 0 <= k < |log'|
        ensures CategoryKept(log'[k].category)
      {
        if k < |log| {
          assert log'[k] == log[k];
        }
      }
    }
    LogRoundTrip(log');
  }

  /** `clear_incident`: reload; if `index` is a position of the reloaded
      log, drop that row and rewrite the file; otherwise leave the file as
      it is. */
  function ClearIncident(f: LogFile, index: int): (r: Result<Step, LoadError>)
    ensures r.Err? <==> LoadLog(f).Err?
    ensures r.Ok? && !(0 <= index < |LoadLog(f).value|) ==> r.value == Step(f, LoadLog(f).value)
    ensures r.Ok? && 0 <= index < |LoadLog(f).value| ==>
              var before := LoadLog(f).value;
              var after := r.value.log;
              && |after| == |before| - 1
              && (forall k :: 0 <= k < index ==> after[k] == before[k])
              && (forall k :: index <= k < |after| ==> after[k] == before[k + 1])
              && r.value.file == Present(WriteRows(after))
  {
    match LoadLog(f)
    case Err(err) => Err(err)
    case Ok(log) =>
      if 0 <= index < |log| then
        var log' := RemoveAt(log, index);
        Ok(Step(Present(WriteRows(log')), log'))
      else
        Ok(Step(f, log))
  }

  /** A deletion loses exactly the chosen record, keeps the order of the
      rest, and the rewritten file reloads to the returned log. */
  lemma ClearThenLoad(f: LogFile, index: int)
    requires LoadLog(f).Ok?
    requires 0 <= index < |LoadLog(f).value|
    ensures IsSubsequence(ClearIncident(f, index).value.log, LoadLog(f).value)
    ensures multiset(ClearIncident(f, index).value.log) + multiset{LoadLog(f).value[index]}
            == multiset(LoadLog(f).value)
    ensures LoadLog(ClearIncident(f, index).value.file) == Ok(ClearIncident(f, index).value.log)
  {
    var log := LoadLog(f).value;
    var log' := ClearIncident(f, index).value.log;
    RemoveAtIsSubsequence(log, index);
    assert Reloadable(log') by {
      forall k | 0 <= k < |log'|
        ensures CategoryKept(log'[k].category)
      {
        if k < index {
          assert log'[k] == log[k];
        } else {
          assert log'[k] == log[k + 1];
        }
      }
    }
    LogRoundTrip(log');
  }
}
