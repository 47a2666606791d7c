/** Loading the learner list (`load_learner_data`): header names are trimmed
    and the Afrikaans column names renamed to the canonical ones, every
    required column must be present, and missing cells are filled with
    defaults. The list only feeds the choices of the report form. */
module Learners {
  import opened Records

  const Unknown: string := "Onbekend"
  const NoComment: string := "Geen Kommentaar"

  /** 2024-01-01 as a day count from 1970-01-01: the first possible mock date. */
  const MockStart: int := 19723
  /** Mock dates are drawn from this many consecutive days. */
  const MockSpan: int := 365

  // ---------------------------------------------------------------------
  // Header names

  /** White space as Python's `str.strip` understands it. */
  predicate IsSpace(c: char)
  {
    || c == ' '
    || ('\t' <= c <= '\r')
    || ('\U{1C}' <= c <= '\U{1F}')
    || c == '\U{85}' || c == '\U{A0}' || c == '\U{1680}'
    || ('\U{2000}' <= c <= '\U{200A}')
    || c == '\U{2028}' || c == '\U{2029}' || c == '\U{202F}' || c == '\U{205F}'
    || c == '\U{3000}'
  }

  predicate AllSpace(s: string)
  {
    forall k :: 0 <= k < |s| ==> IsSpace(s[k])
  }

  /** Neither starts nor ends with white space. */
  predicate Unpadded(s: string)
  {
    |s| == 0 || (!IsSpace(s[0]) && !IsSpace(s[|s| - 1]))
  }

  /** The length of the white-space run at the start of `s`. */
  function LeadingSpaces(s: string): (k: nat)
    ensures k <= |s|
    ensures AllSpace(s[..k])
    ensures k == |s| || !IsSpace(s[k])
    decreases |s|
  {
    if |s| > 0 && IsSpace(s[0]) then
      var k := 1 + LeadingSpaces(s[1..]);
      assert s[..k] == [s[0]] + s[1..][..k - 1];
      k
    else 0
  }

  /** The length of the white-space run at the end of `s`. */
  function TrailingSpaces(s: string): (k: nat)
    ensures k <= |s|
    ensures AllSpace(s[|s| - k..])
    ensures k == |s| || !IsSpace(s[|s| - 1 - k])
    decreases |s|
  {
    if |s| > 0 && IsSpace(s[|s| - 1]) then
      var k := 1 + TrailingSpaces(s[..|s| - 1]);
      assert s[|s| - k..] == s[..|s| - 1][|s| - k..] + [s[|s| - 1]];
      k
    else 0
  }

  /** `str.strip()`: `s` without its leading and trailing white space. */
  function Strip(s: string): (r: string)
    ensures Unpadded(r)
    ensures exists a :: 0 <= a <= |s| - |r| && s[a..a + |r|] == r
                        && AllSpace(s[..a]) && AllSpace(s[a + |r|..])
  {
    var a := LeadingSpaces(s);
    var t := s[a..];
    var b := TrailingSpaces(t);
    var r := t[..|t| - b];
    assert 0 <= a <= |s| && |t| == |s| - a && 0 <= b <= |t|;
    assert |r| == |t| - b;
    assert s[a..a + |r|] == r;
    assert s[a + |r|..] == t[|t| - b..];
    assert AllSpace(s[..a]) && AllSpace(s[a + |r|..]);
    assert |r| > 0 ==> r[0] == t[0] && r[|r| - 1] == t[|t| - 1 - b];
    assert |r| == 0 || (!IsSpace(r[0]) && !IsSpace(r[|r| - 1]));
    r
  }

  /** Only padding is removed: an unpadded name surrounded by white space
      comes back exactly. */
  lemma StripRemovesPadding(pre: string, core: string, post: string)
    requires AllSpace(pre) && AllSpace(post) && Unpadded(core)
    ensures Strip(pre + core + post) == core
  {
    var s := pre + core + post;
    var a := LeadingSpaces(s);
    if |core| == 0 {
      assert AllSpace(s);
      assert a == |s|;
    } else {
      assert s[|pre|] == core[0];
      assert a == |pre|;
      var t := s[a..];
      assert t == core + post;
      var b := TrailingSpaces(t);
      assert t[|t| - 1 - |post|] == core[|core| - 1];
      assert b == |post|;
      assert t[..|t| - b] == core;
    }
  }

  /** Afrikaans header names and the column each is renamed to. */
  const RenamedColumns: seq<(string, string)> := [
    ("Leerner se naam", "Learner_Name"),
    ("klasgroep", "Class"),
    ("Opvoeder betrokke", "Teacher"),
    ("Wat het gebeur", "Incident"),
    ("Kategorie", "Category"),
    ("Kommentaar", "Comment")
  ]

  /** The rename table applied to one trimmed name; other names are kept. */
  function Rename(name: string): string
  {
    RenameFrom(RenamedColumns, name)
  }

  function RenameFrom(table: seq<(string, string)>, name: string): string
    decreases |table|
  {
    if |table| == 0 then name
    else if table[0].0 == name then table[0].1
    else RenameFrom(table[1..], name)
  }

  /** The name a raw header cell ends up with: trimmed, then renamed. */
  function ColumnName(header: string): string
  {
    Rename(Strip(header))
  }

  /** Every Afrikaans header, with any padding, becomes its canonical
      column. */
  lemma LegacyHeadersRenamed(pre: string, post: string, i: nat)
    requires AllSpace(pre) && AllSpace(post)
    requires i < |RenamedColumns|
    ensures ColumnName(pre + RenamedColumns[i].0 + post) == RenamedColumns[i].1
  {
    StripRemovesPadding(pre, RenamedColumns[i].0, post);
    assert Strip(pre + RenamedColumns[i].0 + post) == RenamedColumns[i].0;
    assert ColumnName(pre + RenamedColumns[i].0 + post) == Rename(RenamedColumns[i].0);
    assert forall j :: 0 <= j < i ==> RenamedColumns[j].0 != RenamedColumns[i].0;
    RenameFromEarliest(RenamedColumns, i);
  }

  /** A name found at position `i` of a table, and at no earlier position,
      is renamed by that entry. */
  lemma {:induction false} RenameFromEarliest(table: seq<(string, string)>, i: nat)
    requires i < |table|
    requires forall j :: 0 <= j < i ==> table[j].0 != table[i].0
    ensures RenameFrom(table, table[i].0) == table[i].1
    decreases i
  {
    if i > 0 {
      assert table[1..][i - 1] == table[i];
      RenameFromEarliest(table[1..], i - 1);
    }
  }

  // ---------------------------------------------------------------------
  // Rows

  /** The columns read in turn after renaming; the first one absent raises
      a key error. */
  const Required: seq<string> :=
    ["Learner_Name", "Class", "Teacher", "Incident", "Category", "Comment"]

  /** One row of the learner file, aligned to the required columns, each
      cell as the text written in the file. */
  datatype RawLearner = RawLearner(
    learnerName: string,
    className: string,
    teacher: string,
    incident: string,
    category: string,
    comment: string)

  /** A learner after defaults were applied, with its mock date. */
  datatype Learner = Learner(
    learnerName: string,
    className: string,
    teacher: string,
    incident: string,
    category: string,
    comment: string,
    date: Timestamp)

  /** The contents of `learner_list.csv`. `UnreadableLearnerFile` stands
      for an empty file or one the CSV reader rejects. */
  datatype LearnerFile =
    | NoLearnerFile
    | UnreadableLearnerFile
    | LearnerTable(header: seq<string>, rows: seq<RawLearner>)

  /** Fills one row. `offset` is the row's draw from the pseudo-random day
      offsets in [0, 365). */
  function Normalise(raw: RawLearner, offset: int): (l: Learner)
    requires 0 <= offset < MockSpan
    ensures raw.learnerName in MissingTokens ==> l.learnerName == Unknown
    ensures raw.className in MissingTokens ==> l.className == Unknown
    ensures raw.teacher in MissingTokens ==> l.teacher == Unknown
    ensures raw.incident in MissingTokens ==> l.incident == Unknown
    ensures raw.comment in MissingTokens ==> l.comment == NoComment
    ensures raw.category in MissingTokens ==> l.category == "nan"
    ensures raw.learnerName !in MissingTokens ==> l.learnerName == raw.learnerName
    ensures raw.className !in MissingTokens ==> l.className == raw.className
    ensures raw.teacher !in MissingTokens ==> l.teacher == raw.teacher
    ensures raw.incident !in MissingTokens ==> l.incident == raw.incident
    ensures raw.comment !in MissingTokens ==> l.comment == raw.comment
    ensures raw.category !in MissingTokens ==> l.category == raw.category
    ensures l.category == Unknown ==> raw.category == Unknown
    ensures MockStart <= l.date.day < MockStart + MockSpan && l.date.micros == 0
  {
    Learner(
      FillMissing(ReadCell(raw.learnerName), Unknown),
      FillMissing(ReadCell(raw.className), Unknown),
      FillMissing(ReadCell(raw.teacher), Unknown),
      FillMissing(ReadCell(raw.incident), Unknown),
      // the text conversion runs first and leaves nothing missing for the fill
      FillMissing(Some(AsText(ReadCell(raw.category))), Unknown),
      FillMissing(ReadCell(raw.comment), NoComment),
      Timestamp(MockStart + offset, 0))
  }

  /** The set of column names a header row provides. */
  function Columns(header: seq<string>): set<string>
  {
    set h | h in header :: ColumnName(h)
  }

  /** Position of the first name of `names` not in `present`, or |names|. */
  function FirstAbsent(names: seq<string>, present: set<string>): (k: nat)
    ensures k <= |names|
    ensures forall j :: 0 <= j < k ==> names[j] in present
    ensures k < |names| ==> names[k] !in present
    decreases |names|
  {
    if |names| == 0 || names[0] !in present then 0
    else 1 + FirstAbsent(names[1..], present)
  }

  function NormaliseAll(rows: seq<RawLearner>, offsets: seq<int>): (ls: seq<Learner>)
    requires |offsets| == |rows|
    requires forall k :: 0 <= k < |offsets| ==> 0 <= offsets[k] < MockSpan
    ensures |ls| == |rows|
    ensures forall k :: 0 <= k < |rows| ==> ls[k] == Normalise(rows[k], offsets[k])
    decreases |rows|
  {
    if |rows| == 0 then []
    else [Normalise(rows[0], offsets[0])] + NormaliseAll(rows[1..], offsets[1..])
  }

  /** `load_learner_data`. `offsets` stands for the pseudo-random day
      offsets, one per row. */
  function LoadLearners(file: LearnerFile, offsets: seq<int>): (r: Result<seq<Learner>, LoadError>)
    requires file.LearnerTable? ==> |offsets| == |file.rows|
    requires forall k :: 0 <= k < |offsets| ==> 0 <= offsets[k] < MockSpan
    ensures file.NoLearnerFile? ==> r == Err(FileNotFound)
    ensures file.UnreadableLearnerFile? ==> r == Err(UnreadableCsv)
    ensures file.LearnerTable? ==>
              (r.Err? <==> exists k :: 0 <= k < |Required| && Required[k] !in Columns(file.header))
    ensures file.LearnerTable? && r.Err? ==>
              && r.error.MissingColumn?
              && r.error.name in Required
              && r.error.name !in Columns(file.header)
    ensures file.LearnerTable? && r.Err? ==>
              exists k :: 0 <= k < |Required| && Required[k] == r.error.name
                          && forall j :: 0 <= j < k ==> Required[j] in Columns(file.header)
    ensures r.Ok? ==> |r.value| == |file.rows|
    ensures r.Ok? ==> forall k :: 0 <= k < |file.rows| ==> r.value[k] == Normalise(file.rows[k], offsets[k])
  {
    match file
    case NoLearnerFile => Err(FileNotFound)
    case UnreadableLearnerFile => Err(UnreadableCsv)
    case LearnerTable(header, rows) =>
      var k := FirstAbsent(Required, Columns(header));
      if k < |Required| then Err(MissingColumn(Required[k]))
      else Ok(NormaliseAll(rows, offsets))
  }
}
