# Job data engine of the Tidal job monitor, in Dafny

This project models the data engine of the job monitor's Flask backend (`app.py`).
The engine reads the rows of a job spreadsheet and turns each row into a normalised job
record. Each cell is stripped, and missing cells get defaults. Every job then gets a
status (`completed`, `running`, `failed`, `delayed`) and a duration text derived from its
parsed start and end times. The jobs are kept in an in-memory store, which the engine
queries in five ways:

- the filtered, paginated listing;
- the export rows;
- the metrics;
- the alerts;
- the load itself.

Modules, one per component:

- `Options`: the option type.
- `Text`: Python's `strip()`, `lower()`, the substring test and `str(n)`, with a decimal reader.
- `Seqs`: the list comprehension, an indexed accumulation loop, and Python slicing.
- `Durations`: the duration text and a decoder for it.
- `Jobs`: rows, the row normaliser, `parse_datetime`, `determine_status`,
  `calculate_duration` and `process_job_data`.
- `Query`: the filters, the pagination and the export rows.
- `Metrics`: the counts and the truncated average.
- `Alerts`: the three alert rules.
- `Store`: the class `JobStore`. Its fields `jobsData` and `lastUpdated` are the globals
  `jobs_data` and `last_updated`. It has the `Load` and `GetAlerts` methods.

Timestamps are whole seconds (`int`). `parse_datetime` is modelled with its blank check
and its stripping. The actual date parsing is a function parameter
`parse: string -> Option<int>`, where `None` stands for "no format matched". The clock is
read once and passed in as `now`.

Where the project's documentation and the code disagree, the model follows the
code:

- A job is `delayed` only when it ran strictly more than two hours. Exactly two hours is
  `completed`.
- A missing file or a failed read empties the job list. The previous list is not kept.
  `last_updated` is set in every branch.
- The priority is stored as the stripped cell text. It is neither lower-cased nor
  checked against high/normal/low.
- A timestamp that no format parses becomes `None`, as a blank cell does. An unparsable
  start therefore makes the job `failed` with no duration. An unparsable end makes it
  `running` with the duration `"Running"`.

## Model

| member | source | states |
|---|---|---|
| `Text.TrimIsInfix` | app.py:71-76 | the text `strip()` leaves is the cell with only whitespace removed before and after it |
| `Text.TrimIdempotent` | app.py:71-76 | stripping an already-stripped cell changes nothing |
| `Text.Lower` | app.py:234-238 | `lower()` keeps the length, folds each letter, and leaves no upper-case letter |
| `Text.ContainsIff` | app.py:235-238 | the substring test holds exactly when the term occurs at some offset of the text |
| `Text.NatToStringRoundTrip` | app.py:144-145 | the decimal rendering of a count reads back as that count |
| `Seqs.FilterIsSubsequence` | app.py:235-247 | a list comprehension returns an order-preserving subsequence of its input |
| `Seqs.FilterMultiset` | app.py:235-247 | a comprehension keeps every satisfying element as often as it occurs and drops the others |
| `Jobs.NormalizeRow` | app.py:69-77 | the record built for a row; its id carries the row index. Its full contract is `Jobs.NormalizeRowFields` and `Jobs.NormalizeRowIdempotent` |
| `Jobs.NormalizeRowFields` | app.py:69-77 | each field is the stripped cell, or `""` when the cell is missing; a missing priority is `"normal"`; a present priority is kept as stripped, unvalidated; the id carries the raw name cell and the row index |
| `Jobs.NormalizeRowIdempotent` | app.py:71-76 | normalising a row made of an already-normalised record gives the same fields back |
| `Jobs.ParseDatetime` | app.py:101-104 | empty or all-whitespace text gives no timestamp; other text is stripped before it is parsed |
| `Jobs.StatusNameInjective` | app.py:152-161 | the four status strings are distinct, so comparing names compares statuses |
| `Jobs.DetermineStatus` | app.py:150-161 | `determine_status`. Its contract is `Jobs.StatusRule` |
| `Jobs.StatusRule` | app.py:150-161 | no start gives `failed`; a start without an end gives `running`; more than 7200 s elapsed gives `delayed`; everything else gives `completed`, including exactly 7200 s and negative elapsed times |
| `Jobs.CalculateDuration` | app.py:128-145 | `calculate_duration`: none exactly when there is no start. The rest of its contract is `Jobs.DurationRule` |
| `Jobs.DurationRule` | app.py:128-145 | no start gives none; a start without an end gives `"Running"`; an end before the start gives `"Invalid"`; otherwise `m` is the elapsed seconds divided by 60, rounded down, and the text is `"<m>m"` below an hour or `"<m/60>h <m%60>m"` from an hour on, and decodes back to `m` |
| `Durations.FormatMinutesRoundTrip` | app.py:140-145 | the rendered duration decodes back to the minutes it was rendered from |
| `Durations.FormatMinutesInjective` | app.py:140-145 | different minute counts are rendered as different texts |
| `Durations.MarkersAreNotDurations` | app.py:133-138 | `"Running"` and `"Invalid"` are not rendered durations |
| `Jobs.ProcessJobData` | app.py:89-99 | the row's fields are unchanged; the parsed times are `parse_datetime` of the two cells; status and duration are derived from those times |
| `Jobs.DerivedDependsOnlyOnTimes` | app.py:89-99 | records whose times parse alike get identical derived fields |
| `Jobs.StatusMatchesDuration` | app.py:128-161 | `failed` exactly when the duration is none; `running` exactly when it is `"Running"`; `"Invalid"` goes with `completed`; a delayed job shows at least 120 minutes; any other completed job shows at most 120 |
| `Query.FilterJobs` | app.py:233-247 | the search, status and priority passes. Its contract is `Query.FilterJobsIsOnePass`, `Query.FilterJobsSpec`, `Query.NoFiltersKeepsAll` and `Query.StatusFilterByName` |
| `Query.StatusFilterByName` | app.py:241-242 | the status filter compares names, and filtering by a status's name keeps exactly the jobs with that status |
| `Query.FilterJobsIsOnePass` | app.py:233-247 | the three optional filter passes equal one pass with their conjunction |
| `Query.FilterJobsSpec` | app.py:233-247 | the filtered list is an order-preserving subsequence of the job list; a job is in it exactly when it matches the lower-cased search in its name, its dependency or its non-empty description, and the status and priority filters; it keeps each such job's multiplicity |
| `Query.NoFiltersKeepsAll` | app.py:233-247 | with no search, and with status and priority absent, empty or `all`, nothing is removed |
| `Query.Paginate` | app.py:250-253 | `filtered_jobs[start_idx:end_idx]` with Python's slice bounds. Its contract is `Query.PageIsSlice`, `Query.PagesCoverAll` and `Query.PagesPastEndAreEmpty` |
| `Query.PageIsSlice` | app.py:250-253 | for page and page size at least 1, a page is `filtered[(page-1)*size .. min(page*size, total)]`, and it is empty once the start reaches the total |
| `Query.PagesCoverAll` | app.py:250-253 | concatenating pages 1 to ceil(total/size) gives back the filtered list |
| `Query.PagesPastEndAreEmpty` | app.py:250-253 | every page after the last one is empty |
| `Query.GetJobs` | app.py:230-258 | `totalCount` is the length of the filtered list, the page is no longer than that, and the load time is reported as stored |
| `Query.ListingPage` | app.py:250-257 | `totalCount` is the filtered length, and the listing's jobs are the filtered list's slice for the requested page, or nothing once the start index reaches the total |
| `Query.PageRows` | app.py:250-253 | the export row of each job on a page is the export row at that job's offset in the whole list |
| `Query.ExportRows` | app.py:341-367 | one export row per filtered job. Its contents are stated by `Query.ExportJobs` and `Query.ExportMatchesListing` |
| `Query.ExportJobs` | app.py:356-367 | one export row per filtered job, in order, each carrying the job's fields in the export's column order |
| `Query.ExportMatchesListing` | app.py:341-367 | the export applies the listing's filters: it has `totalCount` rows, and each listed job's export row sits at the job's position in the filtered list |
| `Metrics.TruncDiv` | app.py:302 | `int(a / d)` truncates toward zero: the bounds for a non-negative and for a negative total |
| `Metrics.GetMetrics` | app.py:270-308 | `total` is the number of jobs; the load time is reported as stored |
| `Metrics.StatusCountsSum` | app.py:270-274 | completed + running + failed + delayed == total |
| `Metrics.PriorityCounts` | app.py:276-278 | the three priority counts add up to the total minus the jobs with some other priority text; they reach the total exactly when every priority is exactly `high`, `normal` or `low` |
| `Metrics.AvgRunTimeMinutes` | app.py:281-302 | the average run time. Its contract is `Metrics.AverageIsTruncatedMean`, `Metrics.AverageOfNone` and `Metrics.AverageBounds` |
| `Metrics.AverageOfNone` | app.py:281-289 | with no completed job that has both parsed times, the average is 0 |
| `Metrics.AverageIsTruncatedMean` | app.py:281-302 | the average is the total elapsed time of the completed jobs with both times, divided by 60 times their number and truncated toward zero |
| `Metrics.TimedCompletedAreCompleted` | app.py:281-286 | in a normalised list, the averaged jobs are exactly the completed jobs |
| `Metrics.AverageBounds` | app.py:281-302 | in a normalised list the average is at most 120 minutes, and it is negative only if some completed job ends before it starts |
| `Metrics.AveragePermutation` | app.py:281-302 | two job lists holding the same jobs, each as often, give the same average run time |
| `Metrics.MetricsIgnoreOrder` | app.py:270-302 | two job lists holding the same jobs, each as often, in any order, give equal metrics: every count and the average |
| `Alerts.AlertsFor` | app.py:388-424 | there are at most three alerts |
| `Alerts.AlertsOrdered` | app.py:402-424 | the alerts come strictly in the order warning, error, info, with the severities medium, high and low |
| `Alerts.AlertsPresence` | app.py:390-424 | each alert is present exactly when its job list is non-empty; its message starts with the count, and its `jobs` are the names of its jobs in store order |
| `Alerts.IsLongRunning` | app.py:396-399 | the test of the long-running loop. Its contract is `Alerts.LongRunningSpec` and `Alerts.LongRunningAreNotDelayed` |
| `Alerts.LongRunningSpec` | app.py:394-400 | the long-running list holds exactly the running jobs that have a parsed start more than 10800 s before `now`, in store order |
| `Alerts.LongRunningAreNotDelayed` | app.py:390-400 | in a normalised list a long-running job has no end time, so it is never in the delayed alert |
| `Alerts.LongRunningListNotDelayed` | app.py:390-400 | in a normalised list no job of the long-running list has an end time or is in the delayed list |
| `Alerts.MessageCountsJobs` | app.py:402-424 | the number at the head of every alert message is the number of jobs the alert lists |
| `Store.LoadRow` | app.py:68-78 | the job one sheet row becomes. Its contract is `Store.LoadRowWellFormed`, and `Store.JobStore.Load` builds one per row |
| `Store.LoadRowWellFormed` | app.py:68-78 | a loaded row has consistent derived fields, stripped text fields, and an id carrying its row index |
| `Store.IdsDistinct` | app.py:70 | no two jobs of a load share an id, even when their names are equal |
| `Store.JobStore.constructor` | app.py:51-52 | the store starts with no jobs and no load time |
| `Store.JobStore.Load` | app.py:55-87 | a missing or unreadable file leaves no jobs; a successful load gives one job per row, in row order, each the row normalised and processed; the load time is `now` in every branch; the store's invariant holds after the load |
| `Store.JobStore.LongRunningJobs` | app.py:394-400 | the loop collects exactly the jobs `LongRunningSpec` characterises, in store order; under the store's invariant none of them has an end time or is a delayed job |
| `Store.JobStore.GetAlerts` | app.py:385-426 | given the store's invariant, the two comprehensions, the long-running loop and the three conditional appends produce exactly `AlertsFor(jobsData, now)`, stamped with `now` |

## Left out

- Flask routing, JWT, the parsing of `request.args` (including the `int(...)` conversion that can raise), JSON encoding and HTTP status codes: these are transport. The argument parser is not part of this model.
- bcrypt, the users table, the login route and `get_user_by_username` (app.py:28-45, 166-168, 186-217): these are cryptography and authentication, outside the engine.
- `pd.read_excel`, `pd.notna` and `os.path.exists`: a row is given as its six cells, each text or missing. `Load` receives `None` when the file is missing, cannot be read, or raises while its rows are converted, for example when a column is missing. In every such case the source ends up with an empty list.
- Store.JobStore.Load: the case where the row loop itself raises is folded into `None`. The model does not say which rows would raise.
- The concrete date formats of `parse_datetime` (app.py:105-126): the five `strptime` formats and the `pd.to_datetime` fallback are the parameter `parse`.
- The clock: `datetime.now()` is read once and passed in as `now`. The source reads it again for every row id, for the load time, and in the long-running loop for each running job that has a parsed start (app.py:396-397). The id's stamp is therefore the same for all rows of one load.
- Timestamps that cannot be compared. `pd.to_datetime` (app.py:122) can return a timezone-aware time, for example for `"2024-01-01T00:00:00Z"`, which none of the five formats accepts. The `strptime` formats return naive times. Subtracting a naive time from an aware one raises, and the `except` branches then give the status `failed` with a parsed start (app.py:162-164) and the duration `"Invalid"` (app.py:146-148). The model has a single integer time line, on which every two times can be subtracted, so it does not represent this case.
- Jobs.StatusRule: "failed exactly when there is no start" holds on the model's single time line only. In the source, a start and an end that cannot be compared also give `failed` (app.py:162-164).
- Jobs.StatusMatchesDuration: "failed exactly when the duration is none" and "`"Invalid"` only with `completed`" hold on the model's single time line only. In the source, times that cannot be compared give `failed` together with `"Invalid"`.
- Float arithmetic: `total_seconds()` and `total_duration / len / 60` are modelled with whole seconds and exact integer truncation toward zero.
- `lower()` beyond ASCII: only `A`-`Z` are folded.
- The CSV text produced by `DataFrame.to_csv` (app.py:370-371) and the download headers: the model stops at the list of export rows, whose fields follow the export's column order. The duration column is kept as an option, since the source writes `None` for a failed job.
- The `or ''` on the export's description (app.py:366) is the identity, because a normalised description is always a string.
- The watchdog observer and its thread (app.py:171-180), the refresh route, `/api/config` and `/api/health`: these are I/O and concurrency.
- Python's negative-index slicing for `page < 1`: `Paginate` models Python slices in full. The pagination lemmas assume a page and a page size of at least 1.
- Recomputing the metrics on an unchanged job list gives an identical result, because every function of the model is deterministic. No lemma is stated for it. `Metrics.MetricsIgnoreOrder` proves more: any reordering of the list gives the same metrics.
- `process_job_data` updating the job dictionary in place and returning it: it is modelled as a function from the row's fields to the finished job. No other code holds the dictionary.
- Dependency resolution and the relational data source: these are not part of this model, because no code for them exists in `app.py`.
- `setup.py` and `backend/run_server.py`: these are installation and process start-up.
