/** The vocabulary shared by the incident tracker: result wrappers, moments in
    time, the way the CSV reader turns a cell into a value, and the incident
    record as the page sees it after loading the log. */
module Records {

  datatype Option<+T> = None | Some(value: T)

  datatype Result<+T, +E> = Ok(value: T) | Err(error: E)

  /** An exception a loader lets escape; the page stops with a traceback. */
  datatype LoadError =
    | FileNotFound
    | UnreadableCsv
    | MissingColumn(name: string)

  /** Microseconds in one day. */
  const MicrosPerDay: int := 86_400_000_000

  /** A time of day in microseconds since midnight. */
  type TimeOfDay = m: int | 0 <= m < MicrosPerDay

  /** A moment as pandas stores it: a calendar day, counted in days from
      1970-01-01, and a time of day. Since the time of day stays below one
      day, two moments fall on the same calendar day exactly when their
      `day` fields agree. */
  datatype Timestamp = Timestamp(day: int, micros: TimeOfDay)

  /** The texts pandas' CSV reader turns into a missing value by default
      (an empty field among them). */
  const MissingTokens: set<string> :=
    { "", "#N/A", "#N/A N/A", "#NA", "-1.#IND", "-1.#QNAN", "-NaN", "-nan",
      "1.#IND", "1.#QNAN", "<NA>", "N/A", "NA", "NULL", "NaN", "None", "n/a",
      "nan", "null" }

  /** What the CSV reader makes of one field: absent for a missing-value
      token, the text itself otherwise. */
  function ReadCell(text: string): (v: Option<string>)
    ensures v.None? <==> text in MissingTokens
    ensures v.Some? ==> v.value == text
  {
    if text in MissingTokens then None else Some(text)
  }

  /** Conversion of a cell to text (`astype(str)`): a missing value becomes
      the three letters "nan". */
  function AsText(v: Option<string>): string
  {
    match v
    case None => "nan"
    case Some(s) => s
  }

  /** Replacement of a missing value by a default (`fillna`). */
  function FillMissing(v: Option<string>, default: string): string
  {
    match v
    case None => default
    case Some(s) => s
  }

  /** One incident of the log: five values picked from the learner list, the
      teacher's comment, and the moment it was saved (absent when the stored
      date could not be parsed). */
  datatype Record = Record(
    learnerName: string,
    className: string,
    teacher: string,
    incident: string,
    category: string,
    comment: string,
    date: Option<Timestamp>)
}
