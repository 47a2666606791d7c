# Incident log of the "Insident Spoorder" dashboard, in Dafny

The dashboard (`report.py`) lets a teacher report a learner incident from a
sidebar form and browse the log of incidents. Its only real logic is the
incident log: a CSV file that is read from scratch on every render, appended
to by `save_incident`, shrunk by position by `clear_incident`, and shown
through a "today" panel and a five-way filter. This project models that
logic as pure functions over one piece of state, the contents of the log
file, and proves what each operation does to it.

Modules, one per part of the page:

- `Records` (records.dfy): `Option`/`Result`, the `Timestamp` (calendar day
  plus time of day), the incident `Record`, and how the CSV reader turns a
  field into a value (pandas' default missing-value tokens; `astype(str)`
  turning a missing value into the text `"nan"`; `fillna`).
- `Seqs` (seqs.dfy): keeping the elements that satisfy a predicate (a
  boolean mask), removing one position (dropping a row), and the
  subsequence relation.
- `Learners` (learners.dfy): `load_learner_data`: header names trimmed as
  Python's `str.strip` does and renamed from Afrikaans, required columns
  checked in the order the code reads them, defaults filled in, mock dates.
- `IncidentLog` (incident_log.dfy): the log file as `Missing`, `Unreadable`
  or `Present(rows)`; `load_incident_log`, `save_incident`,
  `clear_incident`, and the write-then-reload round trip.
- `Sidebar` (sidebar.dfy): the save guard behind the "Stoor Insident"
  button.
- `Views` (views.dfy): the filter tab and the today panel.

"Now" (`datetime.now()`), "today" and the pseudo-random mock-date offsets
are parameters. A moment is a day, counted from 1970-01-01 (so 2024-01-01
is day 19723), and a time of day below 24 hours in microseconds.

`report.py` has no alerting, no per-record resolution flag and no remote
copy of the file. The defaults `'Onbekend'` and `'Geen Kommentaar'` apply to
the learner list only, the category stays text throughout, and deleting a
position the log does not have returns the log unchanged without writing
the file.

## Model

| member | source | states |
|---|---|---|
| `Learners.Strip` | report.py:24 | the trimmed header has no white space at either end and is a contiguous piece of the input with only white space cut from both sides |
| `Learners.StripRemovesPadding` | report.py:24 | trimming removes exactly the padding: an unpadded name surrounded by any white space comes back unchanged |
| `Learners.LegacyHeadersRenamed` | report.py:24-32 | every Afrikaans header, with any surrounding white space, ends up as its canonical column name |
| `Learners.Normalise` | report.py:33-43 | missing name, class, teacher and incident become 'Onbekend', a missing comment 'Geen Kommentaar', present cells are kept as their text; a missing category becomes the text "nan" and the 'Onbekend' fill never applies to it; the mock date lies in the 365 days from 2024-01-01 |
| `Learners.LoadLearners` | report.py:22-44 | no learner file is an error, and so is an empty or unreadable one; otherwise the load fails exactly when a required column is absent after trimming and renaming, naming the first absent one in reading order; on success there is one normalised learner per row |
| `IncidentLog.LoadCategory` | report.py:50 | the loaded category is always text: a missing field reads as "nan", any other text as itself, and the result survives another write and reload |
| `IncidentLog.LoadDate` | report.py:51 | a stored date that does not parse loads as an absent date, and only then; a parsed date loads as that very moment |
| `IncidentLog.LoadLog` | report.py:47-54 | a missing file gives the empty log, an unreadable one an error; otherwise one record per stored row, in order, whose name, class, teacher, incident and comment are the row's, whose category is the row's category as text, and whose date is the parsed moment, absent exactly where the field does not parse |
| `IncidentLog.RowRoundTrip` | report.py:49-51 | one record reads back as itself after being written exactly when its category is kept by the text conversion |
| `IncidentLog.LogRoundTrip` | report.py:49-51 | writing a log and reading it back gives the same log if and only if every category is kept by the text conversion |
| `IncidentLog.SaveIncident` | report.py:57-70 | a failed load is passed on; otherwise the returned log is one longer, the old log is an unchanged prefix, and the last record carries the six supplied values and the current moment; the file is replaced by the written form of the returned log |
| `IncidentLog.SaveThenLoad` | report.py:57-70 | when the new category survives the text conversion (it is not a missing-value token other than "nan"), reloading the file after a save gives exactly the returned log, which holds the new record once more than before |
| `IncidentLog.ClearIncident` | report.py:73-79 | an index outside 0..n-1 returns the reloaded log and leaves the file untouched; an index inside drops that record, keeps the others in order at shifted positions, and rewrites the file |
| `IncidentLog.ClearThenLoad` | report.py:75-78 | a delete keeps the other records as a subsequence, loses exactly one copy of the chosen record, and the rewritten file reloads to the returned log |
| `Sidebar.Submit` | report.py:194-199 | the file changes, the log changes and the success notice appears exactly when the button is clicked with no choice on 'Kies' and a non-empty comment; a click otherwise shows the fill-in message and leaves file and log as loaded; a save appends the form's record and leaves the file holding the written form of the whole returned log |
| `Sidebar.SavedChoiceReloads` | report.py:190-196 | the category of any loaded learner row, once saved, survives the log file: after the save the reloaded file equals the log on display |
| `Views.FilterLog` | report.py:285-295 | the filtered rows are a subsequence of the log holding every record that all five choices admit, with its multiplicity, and nothing else; all five on 'Alle' gives the whole log |
| `Views.NarrowedIsOneMask` | report.py:285-295 | the five filter steps applied in turn equal one mask with the reference predicate "each choice is 'Alle' or equals the record's value" |
| `Views.TodayView` | report.py:224-225 | the today panel holds exactly the records whose date is present and falls on today's calendar day, in log order and with their multiplicity |
| `Views.UnparsedDateNeverToday` | report.py:51 | a row whose stored date does not parse loads without a date and never appears in the today panel |
| `Views.TodayPanelAsWritten` | report.py:224-225 | as written: with no log file and nothing saved in the render, the today panel raises instead of showing an empty panel |
| `Views.TodayPanel` | report.py:224-225 | corrected: only an unreadable file stops the panel; a missing file shows no incidents, or just the record saved in this render when it is dated today; otherwise the panel shows exactly the records of the displayed log dated today, in log order |
| `Views.TodayPanelDiscrepancy` | report.py:224-225 | the written and the corrected panel differ exactly on a render without a log file in which nothing is saved |

## Findings

| source | as written | input that shows it | evidently intended | confidence | as-written member | corrected member |
|---|---|---|---|---|---|---|
| report.py:225 | takes `.dt.date` of the Date column of whatever log is displayed; when the file is missing, that log is the empty frame built at line 54, whose Date column has no datetime type, and pandas raises "Can only use .dt accessor with datetimelike values" | first render with no `incident_log.csv` and no save in that render | the panel shows "Geen insidente vandag gerapporteer nie." | medium; not executed | `Views.TodayPanelAsWritten` | `Views.TodayPanel` |

## Left out

- The Streamlit widgets, page layout, download button and `st.rerun` flow: presentation only; the model handles one render at a time.
- The Word report and all charts (report.py:82-178, 229-271): document and plot rendering in libraries outside the model.
- The weekly, monthly and quarterly summaries (report.py:299-324): they depend on pandas' calendar anchoring of `pd.Grouper`.
- Sorting of the choice lists (report.py:186-190, 280-284): display order only; any value may be chosen in the model.
- CSV parsing and serialisation: the file is a sequence of rows aligned to the seven columns. Only the category's text conversion, pandas' default missing-value tokens for that column and the coerced date parsing are modelled; the other text fields are assumed to read back as written (a blank or "NA" comment would in fact read back as a missing value).
- Pandas' numeric type inference on every column of both CSV files (a class "10" reading as "10.0" when another row of that column is blank, or a category "1" reading back as "1.0"): it depends on the whole column's contents; the model reads every present cell as its text.
- IncidentLog.SaveIncident: the write is assumed to succeed; a `to_csv` that raises (permissions, a full disk; report.py:69) or a partly written file is not modelled, because both depend on the I/O layer.
- IncidentLog.ClearIncident: the same holds for the rewrite after a delete (report.py:77).
- Duplicate column names after renaming, and how pandas lines up cells with headers: the learner rows come already aligned to the six columns.
- The numpy generator seeded with 42 (report.py:40-42): its offsets are a parameter, constrained only to [0, 365).
- Time zones and the clock: `now` and `today` are parameters; a timestamp's calendar day is its `day` field.
- Two sessions writing the file at once: the model has a single file state and no interleaving.
- The learner list's date column is only computed, never used by the incident log.
