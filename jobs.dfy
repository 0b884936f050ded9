/**
 * The record normaliser of the job engine: one spreadsheet row becomes one job
 * record, with trimmed text fields, parsed timestamps and the derived status
 * and duration (app.py, `load_jobs_from_excel` row body, `process_job_data`,
 * `parse_datetime`, `determine_status`, `calculate_duration`).
 *
 * Timestamps are whole seconds on one time line. The concrete date formats are
 * not modelled: `parse` stands for the chain of `strptime` formats and the
 * pandas fallback, and is applied only to non-blank, stripped text.
 */
module Jobs {
  import opened Options
  import opened Text
  import opened Durations

  /** The four statuses a job can be given. */
  datatype Status = Completed | Running | Failed | Delayed

  /** The string the source stores in a job's `status`. */
  function StatusName(s: Status): (r: string)
    ensures |r| > 0
  {
    match s
    case Completed => "completed"
    case Running => "running"
    case Failed => "failed"
    case Delayed => "delayed"
  }

  /** Distinct statuses have distinct names, so comparing names compares statuses. */
  lemma StatusNameInjective(a: Status, b: Status)
    ensures StatusName(a) == StatusName(b) <==> a == b
  {
  }

  /** A spreadsheet row as read: each cell is text, or missing (an empty cell). */
  datatype Row = Row(
    jobName: Option<string>,
    startTime: Option<string>,
    endTime: Option<string>,
    dependency: Option<string>,
    description: Option<string>,
    priority: Option<string>)

  /** The id minted per row per load: the raw name cell, the row index and the clock reading. */
  datatype JobId = JobId(rawName: Option<string>, index: nat, stamp: int)

  /** The record a row becomes before its derived fields are attached. */
  datatype JobFields = JobFields(
    id: JobId,
    jobName: string,
    startTime: string,
    endTime: string,
    dependency: string,
    description: string,
    priority: string)

  /** A normalised job: the row's fields plus what `process_job_data` attaches. */
  datatype Job = Job(
    id: JobId,
    jobName: string,
    startTime: string,
    endTime: string,
    dependency: string,
    description: string,
    priority: string,
    status: Status,
    duration: Option<string>,
    startTimeParsed: Option<int>,
    endTimeParsed: Option<int>)

  /** The part of a job that came from its row. */
  function FieldsOf(j: Job): JobFields {
    JobFields(j.id, j.jobName, j.startTime, j.endTime, j.dependency, j.description, j.priority)
  }

  /** One cell as the row body reads it: the stripped text, or `default` when the cell is missing. */
  function CellText(cell: Option<string>, default: string): (r: string)
    ensures cell.None? ==> r == default
    ensures cell.Some? ==> IsTrimmed(r) && |r| <= |cell.value|
  {
    match cell
    case None => default
    case Some(text) => Trim(text)
  }

  const DEFAULT_PRIORITY := "normal"

  /** The dictionary built for the row at `index` (app.py:69-77). */
  function NormalizeRow(row: Row, index: nat, stamp: int): (r: JobFields)
    ensures r.id.index == index
  {
    JobFields(
      JobId(row.jobName, index, stamp),
      CellText(row.jobName, ""),
      CellText(row.startTime, ""),
      CellText(row.endTime, ""),
      CellText(row.dependency, ""),
      CellText(row.description, ""),
      CellText(row.priority, DEFAULT_PRIORITY))
  }

  /** Every text field of a normalised record is stripped. */
  predicate FieldsTrimmed(f: JobFields) {
    IsTrimmed(f.jobName) && IsTrimmed(f.startTime) && IsTrimmed(f.endTime) &&
    IsTrimmed(f.dependency) && IsTrimmed(f.description) && IsTrimmed(f.priority)
  }

  /** The row whose every cell is present and holds the given text. */
  function RowOfFields(f: JobFields): Row {
    Row(Some(f.jobName), Some(f.startTime), Some(f.endTime), Some(f.dependency),
        Some(f.description), Some(f.priority))
  }

  /**
   * What the normaliser does to each cell: a missing cell gives `""` (or `"normal"`
   * for the priority), a present cell gives its stripped text, whatever that text is:
   * the priority is neither lower-cased nor checked against high/normal/low, and a
   * cell holding only blanks gives `""`, not the default.
   */
  lemma NormalizeRowFields(row: Row, index: nat, stamp: int)
    ensures var f := NormalizeRow(row, index, stamp);
      && FieldsTrimmed(f)
      && f.id == JobId(row.jobName, index, stamp)
      && f.jobName == (if row.jobName.Some? then Trim(row.jobName.value) else "")
      && f.startTime == (if row.startTime.Some? then Trim(row.startTime.value) else "")
      && f.endTime == (if row.endTime.Some? then Trim(row.endTime.value) else "")
      && f.dependency == (if row.dependency.Some? then Trim(row.dependency.value) else "")
      && f.description == (if row.description.Some? then Trim(row.description.value) else "")
      && f.priority == (if row.priority.Some? then Trim(row.priority.value) else "normal")
  {
    assert IsTrimmed(DEFAULT_PRIORITY) by {
      assert !IsSpace('n') && !IsSpace('l');
    }
  }

  /** A cell that already holds normalised text reads back unchanged. */
  lemma CellTextIdempotent(cell: Option<string>, default: string, other: string)
    requires IsTrimmed(default)
    ensures CellText(Some(CellText(cell, default)), other) == CellText(cell, default)
  {
    TrimmedIsFixpoint(CellText(cell, default));
  }

  /** Normalising the row made of a normalised record's own fields changes no field. */
  lemma NormalizeRowIdempotent(row: Row, index: nat, stamp: int)
    ensures var f := NormalizeRow(row, index, stamp);
      NormalizeRow(RowOfFields(f), index, stamp) == f.(id := JobId(Some(f.jobName), index, stamp))
  {
    assert IsTrimmed("");
    assert IsTrimmed(DEFAULT_PRIORITY) by {
      assert !IsSpace('n') && !IsSpace('l');
    }
    CellTextIdempotent(row.jobName, "", "");
    CellTextIdempotent(row.startTime, "", "");
    CellTextIdempotent(row.endTime, "", "");
    CellTextIdempotent(row.dependency, "", "");
    CellTextIdempotent(row.description, "", "");
    CellTextIdempotent(row.priority, DEFAULT_PRIORITY, DEFAULT_PRIORITY);
  }

  /**
   * `parse_datetime`: blank or all-whitespace text gives no timestamp; otherwise the
   * stripped text is handed to `parse`, which returns `None` when no format matches.
   */
  function ParseDatetime(parse: string -> Option<int>, text: string): (r: Option<int>)
    ensures AllSpace(text) ==> r == None
    ensures !AllSpace(text) ==> r == parse(Trim(text))
  {
    var t := Trim(text);
    if t == [] then None else parse(t)
  }

  const DELAY_THRESHOLD_SECONDS := 2 * 60 * 60

  /** `determine_status` (app.py:150-161). */
  function DetermineStatus(start: Option<int>, end: Option<int>): Status {
    if start.None? then Failed
    else if end.None? then Running
    else if end.value - start.value > DELAY_THRESHOLD_SECONDS then Delayed
    else Completed
  }

  /**
   * The status rule stated status by status: failed exactly when there is no start,
   * running exactly when there is a start and no end, delayed exactly when both are
   * present more than two hours apart, and completed otherwise, which includes an
   * elapsed time of exactly two hours and an end before the start.
   */
  lemma StatusRule(start: Option<int>, end: Option<int>)
    ensures DetermineStatus(start, end) == Failed <==> start.None?
    ensures DetermineStatus(start, end) == Running <==> start.Some? && end.None?
    ensures DetermineStatus(start, end) == Delayed <==>
      start.Some? && end.Some? && end.value - start.value > 7200
    ensures DetermineStatus(start, end) == Completed <==>
      start.Some? && end.Some? && end.value - start.value <= 7200
  {
  }

  /** `calculate_duration` (app.py:128-145). */
  function CalculateDuration(start: Option<int>, end: Option<int>): (r: Option<string>)
    ensures r.None? <==> start.None?
  {
    if start.None? then None
    else if end.None? then Some("Running")
    else
      var seconds := end.value - start.value;
      if seconds < 0 then Some("Invalid")
      else Some(FormatMinutes(seconds / 60))
  }

  /**
   * The duration rule: no start gives `None`, a start alone gives `"Running"`, an end
   * before the start gives `"Invalid"`, and otherwise the text decodes to the elapsed
   * whole minutes `m` (seconds divided by 60, rounded down): `"<m>m"` below an hour and
   * `"<m / 60>h <m % 60>m"` from an hour on.
   */
  lemma DurationRule(start: Option<int>, end: Option<int>)
    ensures start.None? ==> CalculateDuration(start, end) == None
    ensures start.Some? && end.None? ==> CalculateDuration(start, end) == Some("Running")
    ensures start.Some? && end.Some? && end.value < start.value ==>
      CalculateDuration(start, end) == Some("Invalid")
    ensures start.Some? && end.Some? && end.value >= start.value ==>
      CalculateDuration(start, end).Some? &&
      ParseDuration(CalculateDuration(start, end).value) == Some((end.value - start.value) / 60)
    ensures start.Some? && end.Some? && 0 <= end.value - start.value < 3600 ==>
      CalculateDuration(start, end) == Some(NatToString((end.value - start.value) / 60) + "m")
    ensures start.Some? && end.Some? && end.value - start.value >= 3600 ==>
      var m := (end.value - start.value) / 60;
      CalculateDuration(start, end) == Some(NatToString(m / 60) + "h " + NatToString(m % 60) + "m")
  {
    if start.Some? && end.Some? && end.value >= start.value {
      FormatMinutesRoundTrip((end.value - start.value) / 60);
    }
  }

  /** The derived fields of a job agree with its parsed timestamps. */
  predicate Derived(j: Job) {
    j.status == DetermineStatus(j.startTimeParsed, j.endTimeParsed) &&
    j.duration == CalculateDuration(j.startTimeParsed, j.endTimeParsed)
  }

  /** The test `job['status'] == s` of the list comprehensions over the store. */
  function HasStatus(s: Status): Job -> bool {
    (j: Job) => j.status == s
  }

  /** `process_job_data` (app.py:89-99): parse both times and attach the four derived fields. */
  function ProcessJobData(fields: JobFields, parse: string -> Option<int>): (r: Job)
    ensures FieldsOf(r) == fields
    ensures r.startTimeParsed == ParseDatetime(parse, fields.startTime)
    ensures r.endTimeParsed == ParseDatetime(parse, fields.endTime)
    ensures Derived(r)
  {
    var start := ParseDatetime(parse, fields.startTime);
    var end := ParseDatetime(parse, fields.endTime);
    Job(fields.id, fields.jobName, fields.startTime, fields.endTime, fields.dependency,
        fields.description, fields.priority,
        DetermineStatus(start, end), CalculateDuration(start, end), start, end)
  }

  /**
   * The derived fields depend on nothing but the two parsed timestamps: two records
   * whose times parse alike get the same status, duration and parsed times.
   */
  lemma DerivedDependsOnlyOnTimes(a: JobFields, b: JobFields, parse: string -> Option<int>)
    requires ParseDatetime(parse, a.startTime) == ParseDatetime(parse, b.startTime)
    requires ParseDatetime(parse, a.endTime) == ParseDatetime(parse, b.endTime)
    ensures var ja, jb := ProcessJobData(a, parse), ProcessJobData(b, parse);
      ja.status == jb.status && ja.duration == jb.duration &&
      ja.startTimeParsed == jb.startTimeParsed && ja.endTimeParsed == jb.endTimeParsed
  {
  }

  /**
   * Status and duration tell the same story, with the one exception the source has:
   * failed exactly when the duration is null, running exactly when it is `"Running"`,
   * a delayed job shows at least 120 minutes (7201 s shows `"2h 0m"`), and `"Invalid"`
   * (an end before the start) comes with status completed.
   */
  lemma StatusMatchesDuration(j: Job)
    requires Derived(j)
    ensures j.status == Failed <==> j.duration.None?
    ensures j.status == Running <==> j.duration == Some("Running")
    ensures j.duration == Some("Invalid") ==> j.status == Completed
    ensures j.status == Delayed ==>
      j.duration.Some? && ParseDuration(j.duration.value).Some? && ParseDuration(j.duration.value).value >= 120
    ensures j.status == Completed && j.duration != Some("Invalid") ==>
      j.duration.Some? && ParseDuration(j.duration.value).Some? && ParseDuration(j.duration.value).value <= 120
  {
    DurationRule(j.startTimeParsed, j.endTimeParsed);
    var d := CalculateDuration(j.startTimeParsed, j.endTimeParsed);
    if j.startTimeParsed.Some? && j.endTimeParsed.Some? && j.endTimeParsed.value >= j.startTimeParsed.value {
      var m := (j.endTimeParsed.value - j.startTimeParsed.value) / 60;
      FormatMinutesRoundTrip(m);
      if d == Some("Running") || d == Some("Invalid") {
        MarkersAreNotDurations();
      }
    }
  }
}
