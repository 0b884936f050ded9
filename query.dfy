/**
 * The query surface over the current job list: the search, status and priority
 * filters shared by the listing and the export, 1-based pagination, and the
 * rows of the export (app.py, `get_jobs` and `export_jobs`).
 */
module Query {
  import opened Options
  import opened Text
  import opened Seqs
  import opened Jobs

  /** The optional query arguments `search`, `status` and `priority`. */
  datatype Filters = Filters(search: Option<string>, status: Option<string>, priority: Option<string>)

  /** `if search:` — an absent or empty search term does not filter. */
  predicate SearchActive(search: Option<string>) {
    search.Some? && search.value != ""
  }

  /** `if status and status != 'all':` — the same test for the status and the priority argument. */
  predicate ChoiceActive(choice: Option<string>) {
    choice.Some? && choice.value != "" && choice.value != "all"
  }

  /** The search test for one job, against an already lower-cased term. */
  predicate MatchesSearch(j: Job, term: string) {
    Contains(Lower(j.jobName), term) ||
    Contains(Lower(j.dependency), term) ||
    (j.description != "" && Contains(Lower(j.description), term))
  }

  function SearchPred(term: string): Job -> bool {
    (j: Job) => MatchesSearch(j, term)
  }

  function StatusPred(status: string): Job -> bool {
    (j: Job) => StatusName(j.status) == status
  }

  function PriorityPred(priority: string): Job -> bool {
    (j: Job) => j.priority == priority
  }

  /**
   * The status filter compares status names, and since distinct statuses have distinct
   * names, filtering by a status's name keeps exactly the jobs with that status.
   */
  lemma StatusFilterByName(jobs: seq<Job>, s: Status)
    ensures Filter(jobs, StatusPred(StatusName(s))) == Filter(jobs, HasStatus(s))
  {
    forall j: Job
      ensures StatusPred(StatusName(s))(j) == HasStatus(s)(j)
    {
      StatusNameInjective(j.status, s);
    }
    FilterSame(jobs, HasStatus(s), StatusPred(StatusName(s)));
  }

  /** The three filters of app.py:233-247 (repeated verbatim at app.py:341-353), applied in turn. */
  function FilterJobs(jobs: seq<Job>, f: Filters): seq<Job> {
    var afterSearch :=
      if SearchActive(f.search) then Filter(jobs, SearchPred(Lower(f.search.value))) else jobs;
    var afterStatus :=
      if ChoiceActive(f.status) then Filter(afterSearch, StatusPred(f.status.value)) else afterSearch;
    if ChoiceActive(f.priority) then Filter(afterStatus, PriorityPred(f.priority.value)) else afterStatus
  }

  /**
   * Whether a job survives all three filters: it matches the search term case-insensitively
   * in its name, its dependency or its non-empty description (or there is no search), its
   * status name equals the status argument (or that is absent or `all`), and its priority
   * equals the priority argument (or that is absent or `all`).
   */
  predicate Keep(f: Filters, j: Job) {
    (!SearchActive(f.search) || MatchesSearch(j, Lower(f.search.value))) &&
    (!ChoiceActive(f.status) || StatusName(j.status) == f.status.value) &&
    (!ChoiceActive(f.priority) || j.priority == f.priority.value)
  }

  function KeepPred(f: Filters): Job -> bool {
    (j: Job) => Keep(f, j)
  }

  /** A pass that may be skipped is a filter whose predicate is true when skipped. */
  lemma OptionalPass(s: seq<Job>, active: bool, p: Job -> bool, q: Job -> bool)
    requires forall j :: q(j) == (!active || p(j))
    ensures (if active then Filter(s, p) else s) == Filter(s, q)
  {
    if active {
      FilterSame(s, p, q);
    } else {
      FilterAll(s, q);
    }
  }

  /** The argument of an active filter; only read where the filter is active. */
  function ValueOr(choice: Option<string>): string {
    if choice.Some? then choice.value else ""
  }

  lemma {:induction false} FilterSame(s: seq<Job>, p: Job -> bool, q: Job -> bool)
    requires forall j :: q(j) == p(j)
    ensures Filter(s, p) == Filter(s, q)
  {
    if s != [] {
      FilterSame(s[1..], p, q);
    }
  }

  /** The three passes together are one pass that keeps exactly the jobs satisfying `Keep`. */
  lemma FilterJobsIsOnePass(jobs: seq<Job>, f: Filters)
    ensures FilterJobs(jobs, f) == Filter(jobs, KeepPred(f))
  {
    var term, status, priority := Lower(ValueOr(f.search)), ValueOr(f.status), ValueOr(f.priority);
    var q1 := (j: Job) => !SearchActive(f.search) || MatchesSearch(j, term);
    var q2 := (j: Job) => !ChoiceActive(f.status) || StatusName(j.status) == status;
    var q3 := (j: Job) => !ChoiceActive(f.priority) || j.priority == priority;
    var q12 := (j: Job) => q1(j) && q2(j);
    var s1 := if SearchActive(f.search) then Filter(jobs, SearchPred(term)) else jobs;
    OptionalPass(jobs, SearchActive(f.search), SearchPred(term), q1);
    var s2 := if ChoiceActive(f.status) then Filter(s1, StatusPred(status)) else s1;
    OptionalPass(s1, ChoiceActive(f.status), StatusPred(status), q2);
    FilterFuse(jobs, q1, q2, q12);
    OptionalPass(s2, ChoiceActive(f.priority), PriorityPred(priority), q3);
    FilterFuse(jobs, q12, q3, KeepPred(f));
  }

  /**
   * The filtered list is an order-preserving subsequence of the job list that holds a
   * job exactly when `Keep` holds of it, as many times as the job list holds it.
   */
  lemma FilterJobsSpec(jobs: seq<Job>, f: Filters, j: Job)
    ensures IsSubsequence(FilterJobs(jobs, f), jobs)
    ensures j in FilterJobs(jobs, f) <==> j in jobs && Keep(f, j)
    ensures multiset(FilterJobs(jobs, f))[j] == if Keep(f, j) then multiset(jobs)[j] else 0
  {
    FilterJobsIsOnePass(jobs, f);
    FilterIsSubsequence(jobs, KeepPred(f));
    FilterMultiset(jobs, KeepPred(f), j);
  }

  /** With no search and `all` (or nothing) for status and priority, nothing is filtered out. */
  lemma NoFiltersKeepsAll(jobs: seq<Job>, f: Filters)
    requires !SearchActive(f.search) && !ChoiceActive(f.status) && !ChoiceActive(f.priority)
    ensures FilterJobs(jobs, f) == jobs
  {
  }

  /** The page of the filtered list that `filtered_jobs[start_idx:end_idx]` gives (app.py:250-253). */
  function Paginate<T>(filtered: seq<T>, page: int, pageSize: int): seq<T> {
    var startIdx := (page - 1) * pageSize;
    var endIdx := startIdx + pageSize;
    PySlice(filtered, startIdx, endIdx)
  }

  function Min(a: int, b: int): int {
    if a <= b then a else b
  }

  /**
   * For a page number and a page size of at least one, a page is the slice of the filtered
   * list from `(page - 1) * pageSize` up to the next `pageSize` elements or the end, and
   * it is empty once the start index reaches the length.
   */
  lemma PageIsSlice<T>(filtered: seq<T>, page: int, pageSize: int)
    requires page >= 1 && pageSize >= 1
    ensures var start := (page - 1) * pageSize;
      && start >= 0
      && (start >= |filtered| ==> Paginate(filtered, page, pageSize) == [])
      && (start < |filtered| ==>
            Paginate(filtered, page, pageSize) == filtered[start..Min(start + pageSize, |filtered|)])
  {
  }

  /** All the pages numbered 1 to `count`, one after the other. */
  function PagesUpTo<T>(filtered: seq<T>, pageSize: int, count: nat): seq<T> {
    if count == 0 then [] else PagesUpTo(filtered, pageSize, count - 1) + Paginate(filtered, count, pageSize)
  }

  /** The first `count` pages are the prefix of length `count * pageSize` (or the whole list). */
  lemma {:induction false} PagesUpToIsPrefix<T>(filtered: seq<T>, pageSize: int, count: nat)
    requires pageSize >= 1
    ensures count * pageSize >= 0
    ensures PagesUpTo(filtered, pageSize, count) == filtered[..Min(count * pageSize, |filtered|)]
  {
    if count > 0 {
      PagesUpToIsPrefix(filtered, pageSize, count - 1);
      PageIsSlice(filtered, count, pageSize);
      var start := (count - 1) * pageSize;
      assert start + pageSize == count * pageSize;
      if start < |filtered| {
        assert filtered[..start] + filtered[start..Min(start + pageSize, |filtered|)]
          == filtered[..Min(count * pageSize, |filtered|)];
      }
    }
  }

  /** The number of pages a list of `total` jobs fills: `ceil(total / pageSize)`. */
  function PageCount(total: nat, pageSize: int): nat
    requires pageSize >= 1
  {
    (total + pageSize - 1) / pageSize
  }

  /** `PageCount` pages hold at least `total` jobs. */
  lemma PageCountCovers(total: nat, pageSize: int)
    requires pageSize >= 1
    ensures PageCount(total, pageSize) * pageSize >= total
  {
    var n := total + pageSize - 1;
    var c := n / pageSize;
    var r := n % pageSize;
    assert n == c * pageSize + r && r < pageSize;
  }

  /** Concatenating pages 1 to `PageCount` gives back the filtered list: no job twice, none missing. */
  lemma PagesCoverAll<T>(filtered: seq<T>, pageSize: int)
    requires pageSize >= 1
    ensures PagesUpTo(filtered, pageSize, PageCount(|filtered|, pageSize)) == filtered
  {
    var c := PageCount(|filtered|, pageSize);
    PagesUpToIsPrefix(filtered, pageSize, c);
    PageCountCovers(|filtered|, pageSize);
    assert Min(c * pageSize, |filtered|) == |filtered|;
  }

  lemma MulMonotone(a: int, b: int, k: nat)
    requires a >= b
    ensures a * k >= b * k
  {
    assert a * k == b * k + (a - b) * k;
  }

  /** A page past the last one is empty. */
  lemma PagesPastEndAreEmpty<T>(filtered: seq<T>, pageSize: int, page: int)
    requires pageSize >= 1 && page > PageCount(|filtered|, pageSize)
    ensures Paginate(filtered, page, pageSize) == []
  {
    var c := PageCount(|filtered|, pageSize);
    PageCountCovers(|filtered|, pageSize);
    MulMonotone(page - 1, c, pageSize);
    PageIsSlice(filtered, page, pageSize);
  }

  /** The body of a `/api/jobs` reply. */
  datatype JobsPage = JobsPage(jobs: seq<Job>, totalCount: nat, lastUpdated: Option<int>)

  /** `get_jobs` over the store's job list and load time (app.py:230-258). */
  function GetJobs(jobs: seq<Job>, lastUpdated: Option<int>, f: Filters, page: int, pageSize: int): (r: JobsPage)
    ensures r.totalCount == |FilterJobs(jobs, f)| && |r.jobs| <= r.totalCount
    ensures r.lastUpdated == lastUpdated
  {
    var filtered := FilterJobs(jobs, f);
    JobsPage(Paginate(filtered, page, pageSize), |filtered|, lastUpdated)
  }

  /** Element `i` of a page is element `(page - 1) * pageSize + i` of the filtered list. */
  lemma PageIndex<T>(filtered: seq<T>, page: int, pageSize: int, i: int)
    requires page >= 1 && pageSize >= 1
    requires 0 <= i < |Paginate(filtered, page, pageSize)|
    ensures 0 <= (page - 1) * pageSize + i < |filtered|
    ensures Paginate(filtered, page, pageSize)[i] == filtered[(page - 1) * pageSize + i]
  {
    PageIsSlice(filtered, page, pageSize);
  }

  /**
   * The listing's page: for a page number and a page size of at least one, the jobs are
   * the filtered list from index `(page - 1) * pageSize`, at most `pageSize` of them, and
   * none once that index reaches `totalCount`.
   */
  lemma ListingPage(jobs: seq<Job>, lastUpdated: Option<int>, f: Filters, page: int, pageSize: int)
    requires page >= 1 && pageSize >= 1
    ensures var r, filtered := GetJobs(jobs, lastUpdated, f, page, pageSize), FilterJobs(jobs, f);
      var start := (page - 1) * pageSize;
      && r.totalCount == |filtered|
      && (start >= |filtered| ==> r.jobs == [])
      && (start < |filtered| ==> r.jobs == filtered[start..Min(start + pageSize, |filtered|)])
  {
    var filtered := FilterJobs(jobs, f);
    assert GetJobs(jobs, lastUpdated, f, page, pageSize).jobs == Paginate(filtered, page, pageSize);
    PageIsSlice(filtered, page, pageSize);
  }

  /**
   * One row of the export, its fields in the column order of app.py:359-366: Job Name,
   * Start Time, End Time, Duration, Status, Dependencies, Priority, Description.
   */
  datatype ExportRow = ExportRow(
    jobName: string,
    startTime: string,
    endTime: string,
    duration: Option<string>,
    status: string,
    dependencies: string,
    priority: string,
    description: string)

  /** The export row of one job: its text fields as stored, its status by name. */
  function ToExportRow(j: Job): ExportRow {
    ExportRow(j.jobName, j.startTime, j.endTime, j.duration, StatusName(j.status),
              j.dependency, j.priority, j.description)
  }

  /** The export rows the source builds for a filter: one per filtered job, in order. */
  function ExportRows(jobs: seq<Job>, f: Filters): (rows: seq<ExportRow>)
    ensures |rows| == |FilterJobs(jobs, f)|
  {
    RowsOf(FilterJobs(jobs, f))
  }

  /** The export rows of a list of jobs, one per job, in order. */
  function RowsOf(js: seq<Job>): (rows: seq<ExportRow>)
    ensures |rows| == |js|
    ensures forall i :: 0 <= i < |js| ==> rows[i] == ToExportRow(js[i])
  {
    seq(|js|, i requires 0 <= i < |js| => ToExportRow(js[i]))
  }

  /**
   * The csv_data loop of `export_jobs` (app.py:356-367): one row per job the filters keep,
   * in the order of the job list.
   */
  method ExportJobs(jobs: seq<Job>, f: Filters) returns (rows: seq<ExportRow>)
    ensures |rows| == |FilterJobs(jobs, f)|
    ensures forall i :: 0 <= i < |rows| ==> rows[i] == ToExportRow(FilterJobs(jobs, f)[i])
    ensures rows == ExportRows(jobs, f)
  {
    var filtered := FilterJobs(jobs, f);
    rows := [];
    for i := 0 to |filtered|
      invariant |rows| == i
      invariant forall k :: 0 <= k < i ==> rows[k] == ToExportRow(filtered[k])
    {
      rows := rows + [ToExportRow(filtered[i])];
    }
  }

  /** The export rows of a page are the export rows of the whole list at the page's offset. */
  lemma PageRows(filtered: seq<Job>, page: int, pageSize: int)
    requires page >= 1 && pageSize >= 1
    ensures var listed := Paginate(filtered, page, pageSize);
      forall i :: 0 <= i < |listed| ==>
        0 <= (page - 1) * pageSize + i < |RowsOf(filtered)| &&
        ToExportRow(listed[i]) == RowsOf(filtered)[(page - 1) * pageSize + i]
  {
    var listed := Paginate(filtered, page, pageSize);
    var rows := RowsOf(filtered);
    forall i | 0 <= i < |listed|
      ensures 0 <= (page - 1) * pageSize + i < |rows|
      ensures ToExportRow(listed[i]) == rows[(page - 1) * pageSize + i]
    {
      PageIndex(filtered, page, pageSize, i);
      var k := (page - 1) * pageSize + i;
      assert rows[k] == ToExportRow(filtered[k]);
    }
  }

  /**
   * The export applies the listing's filters: for any page, it has as many rows as the
   * listing's `totalCount`, and the rows of a page are the export rows of that page's jobs.
   */
  lemma ExportMatchesListing(jobs: seq<Job>, lastUpdated: Option<int>, f: Filters, page: int, pageSize: int)
    requires page >= 1 && pageSize >= 1
    ensures |ExportRows(jobs, f)| == GetJobs(jobs, lastUpdated, f, page, pageSize).totalCount
    ensures var listed := GetJobs(jobs, lastUpdated, f, page, pageSize).jobs;
      forall i :: 0 <= i < |listed| ==>
        0 <= (page - 1) * pageSize + i < |ExportRows(jobs, f)| &&
        ToExportRow(listed[i]) == ExportRows(jobs, f)[(page - 1) * pageSize + i]
  {
    var filtered := FilterJobs(jobs, f);
    assert GetJobs(jobs, lastUpdated, f, page, pageSize).jobs == Paginate(filtered, page, pageSize);
    assert ExportRows(jobs, f) == RowsOf(filtered);
    PageRows(filtered, page, pageSize);
  }
}
