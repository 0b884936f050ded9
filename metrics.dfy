/**
 * The metrics over the whole job list (app.py, `get_metrics`): counts by status and
 * by priority, and the average run time of completed jobs in whole minutes.
 */
module Metrics {
  import opened Options
  import opened Seqs
  import opened Jobs

  datatype PriorityDistribution = PriorityDistribution(high: nat, normal: nat, low: nat)

  /** The body of a `/api/jobs/metrics` reply. */
  datatype JobMetrics = JobMetrics(
    total: nat,
    completed: nat,
    running: nat,
    failed: nat,
    delayed: nat,
    avgRunTimeMinutes: int,
    priorityDistribution: PriorityDistribution,
    lastUpdated: Option<int>)

  function HasPriority(p: string): Job -> bool {
    (j: Job) => j.priority == p
  }

  /** The jobs that enter the average: completed, with both timestamps parsed. */
  predicate IsTimedCompleted(j: Job) {
    j.status == Completed && j.startTimeParsed.Some? && j.endTimeParsed.Some?
  }

  /** Elapsed seconds of a job with both timestamps. */
  function Elapsed(j: Job): int {
    if j.startTimeParsed.Some? && j.endTimeParsed.Some?
    then j.endTimeParsed.value - j.startTimeParsed.value
    else 0
  }

  /** `sum((job['endTimeParsed'] - job['startTimeParsed']).total_seconds() for job in jobs)`. */
  function SumElapsed(jobs: seq<Job>): int {
    if jobs == [] then 0 else Elapsed(jobs[0]) + SumElapsed(jobs[1..])
  }

  /** Python's `int(a / d)` for a positive `d`: the quotient truncated toward zero. */
  function TruncDiv(a: int, d: int): (q: int)
    requires d > 0
    ensures a >= 0 ==> 0 <= q && q * d <= a < q * d + d
    ensures a < 0 ==> q <= 0 && q * d - d < a <= q * d
  {
    if a >= 0 then
      DivBounds(a, d);
      a / d
    else
      DivBounds(-a, d);
      -((-a) / d)
  }

  /** Euclidean division of a natural number: the quotient times the divisor is within one divisor. */
  lemma DivBounds(n: nat, d: int)
    requires d > 0
    ensures 0 <= n / d && (n / d) * d <= n < (n / d) * d + d
    ensures -(n / d) * d == -((n / d) * d)
  {
    var q, r := n / d, n % d;
    assert n == q * d + r && 0 <= r < d;
  }

  /** The average run time in whole minutes, truncated toward zero (app.py:281-294, 302). */
  function AvgRunTimeMinutes(jobs: seq<Job>): int {
    var done := Filter(jobs, IsTimedCompleted);
    MeanMinutes(SumElapsed(done), |done|)
  }

  /** `int(total / count / 60)`, or 0 when nothing was counted. */
  function MeanMinutes(total: int, count: nat): int {
    if count == 0 then 0 else TruncDiv(total, count * 60)
  }

  /** `get_metrics` over the store's job list and load time (app.py:270-308). */
  function GetMetrics(jobs: seq<Job>, lastUpdated: Option<int>): (m: JobMetrics)
    ensures m.total == |jobs| && m.lastUpdated == lastUpdated
  {
    JobMetrics(
      |jobs|,
      |Filter(jobs, HasStatus(Completed))|,
      |Filter(jobs, HasStatus(Running))|,
      |Filter(jobs, HasStatus(Failed))|,
      |Filter(jobs, HasStatus(Delayed))|,
      AvgRunTimeMinutes(jobs),
      PriorityDistribution(
        |Filter(jobs, HasPriority("high"))|,
        |Filter(jobs, HasPriority("normal"))|,
        |Filter(jobs, HasPriority("low"))|),
      lastUpdated)
  }

  /** Every job has exactly one of the four statuses. */
  lemma {:induction false} StatusCountsPartition(jobs: seq<Job>)
    ensures |Filter(jobs, HasStatus(Completed))| + |Filter(jobs, HasStatus(Running))| +
            |Filter(jobs, HasStatus(Failed))| + |Filter(jobs, HasStatus(Delayed))| == |jobs|
  {
    if jobs != [] {
      StatusCountsPartition(jobs[1..]);
    }
  }

  /** The four status counts add up to the total. */
  lemma StatusCountsSum(jobs: seq<Job>, lastUpdated: Option<int>)
    ensures var m := GetMetrics(jobs, lastUpdated);
      m.completed + m.running + m.failed + m.delayed == m.total
  {
    StatusCountsPartition(jobs);
  }

  /** A job whose priority is none of high, normal and low. */
  predicate OtherPriority(j: Job) {
    j.priority != "high" && j.priority != "normal" && j.priority != "low"
  }

  lemma {:induction false} PriorityCountsPartition(jobs: seq<Job>)
    ensures |Filter(jobs, HasPriority("high"))| + |Filter(jobs, HasPriority("normal"))| +
            |Filter(jobs, HasPriority("low"))| + |Filter(jobs, OtherPriority)| == |jobs|
  {
    if jobs != [] {
      PriorityCountsPartition(jobs[1..]);
    }
  }

  /**
   * The priority counts count exact matches only: they add up to the total less the jobs
   * whose priority is some other text, so they reach the total exactly when every job
   * has priority high, normal or low.
   */
  lemma PriorityCounts(jobs: seq<Job>, lastUpdated: Option<int>)
    ensures var d := GetMetrics(jobs, lastUpdated).priorityDistribution;
      d.high + d.normal + d.low == |jobs| - |Filter(jobs, OtherPriority)|
    ensures var d := GetMetrics(jobs, lastUpdated).priorityDistribution;
      d.high + d.normal + d.low == |jobs| <==> forall i :: 0 <= i < |jobs| ==> !OtherPriority(jobs[i])
  {
    PriorityCountsPartition(jobs);
    FilterEmpty(jobs, OtherPriority);
  }

  /** With no completed job carrying both timestamps, the average is 0. */
  lemma AverageOfNone(jobs: seq<Job>)
    requires forall i :: 0 <= i < |jobs| ==> !IsTimedCompleted(jobs[i])
    ensures AvgRunTimeMinutes(jobs) == 0
  {
    FilterEmpty(jobs, IsTimedCompleted);
  }

  /** Every completed job of a normalised list has both timestamps, so all completed jobs are averaged. */
  lemma {:induction false} TimedCompletedAreCompleted(jobs: seq<Job>)
    requires forall i :: 0 <= i < |jobs| ==> Derived(jobs[i])
    ensures Filter(jobs, IsTimedCompleted) == Filter(jobs, HasStatus(Completed))
  {
    if jobs != [] {
      TimedCompletedAreCompleted(jobs[1..]);
    }
  }

  /**
   * The average is the mean elapsed time of the averaged jobs, in minutes, truncated toward
   * zero: `avg * 60 * n` is the largest multiple of `60 * n` not beyond the total, on the
   * total's side of zero.
   */
  lemma AverageIsTruncatedMean(jobs: seq<Job>)
    ensures var done := Filter(jobs, IsTimedCompleted);
      var avg, n, total := AvgRunTimeMinutes(jobs), |done| * 60, SumElapsed(done);
      (done == [] ==> avg == 0) &&
      (done != [] && total >= 0 ==> 0 <= avg && avg * n <= total < avg * n + n) &&
      (done != [] && total < 0 ==> avg <= 0 && avg * n - n < total <= avg * n)
  {
  }

  /**
   * For a normalised list the average never exceeds 120 minutes, since a completed job ran
   * for at most two hours, and it is negative only when some completed job ends before it
   * starts.
   */
  lemma AverageBounds(jobs: seq<Job>)
    requires forall i :: 0 <= i < |jobs| ==> Derived(jobs[i])
    ensures AvgRunTimeMinutes(jobs) <= 120
    ensures (forall i :: 0 <= i < |jobs| && IsTimedCompleted(jobs[i]) ==> Elapsed(jobs[i]) >= 0) ==>
      AvgRunTimeMinutes(jobs) >= 0
  {
    var done := Filter(jobs, IsTimedCompleted);
    if done != [] {
      var n := |done|;
      forall i | 0 <= i < n
        ensures Elapsed(done[i]) <= 7200
      {
        assert done[i] in jobs;
        StatusRule(done[i].startTimeParsed, done[i].endTimeParsed);
      }
      SumElapsedBoundsUpper(done, 7200);
      var q := TruncDiv(SumElapsed(done), n * 60);
      if SumElapsed(done) >= 0 {
        assert q * (n * 60) <= 7200 * n;
        assert q * (n * 60) <= 120 * (n * 60);
        if q > 120 {
          MulStrict(q, 120, n * 60);
        }
      }
      if forall i :: 0 <= i < |jobs| && IsTimedCompleted(jobs[i]) ==> Elapsed(jobs[i]) >= 0 {
        forall i | 0 <= i < n
          ensures Elapsed(done[i]) >= 0
        {
          assert done[i] in jobs;
          var k :| 0 <= k < |jobs| && jobs[k] == done[i];
        }
        SumElapsedNonNegative(done);
      }
    }
  }

  lemma {:induction false} SumElapsedBoundsUpper(jobs: seq<Job>, hi: int)
    requires forall i :: 0 <= i < |jobs| ==> Elapsed(jobs[i]) <= hi
    ensures SumElapsed(jobs) <= hi * |jobs|
  {
    if jobs != [] {
      SumElapsedBoundsUpper(jobs[1..], hi);
      assert hi * |jobs| == hi + hi * |jobs[1..]|;
    }
  }

  lemma {:induction false} SumElapsedNonNegative(jobs: seq<Job>)
    requires forall i :: 0 <= i < |jobs| ==> Elapsed(jobs[i]) >= 0
    ensures SumElapsed(jobs) >= 0
  {
    if jobs != [] {
      SumElapsedNonNegative(jobs[1..]);
    }
  }

  lemma MulStrict(a: int, b: int, k: int)
    requires a > b && k > 0
    ensures a * k > b * k
  {
    assert a * k == b * k + (a - b) * k;
  }

  lemma {:induction false} SumElapsedConcat(a: seq<Job>, b: seq<Job>)
    ensures SumElapsed(a + b) == SumElapsed(a) + SumElapsed(b)
  {
    if a != [] {
      assert (a + b)[1..] == a[1..] + b;
      SumElapsedConcat(a[1..], b);
    } else {
      assert a + b == b;
    }
  }

  /** The total elapsed time does not depend on the order of the jobs. */
  lemma {:induction false} SumElapsedPermutation(a: seq<Job>, b: seq<Job>)
    requires multiset(a) == multiset(b)
    ensures SumElapsed(a) == SumElapsed(b)
    decreases |a|
  {
    if a == [] {
      assert |multiset(b)| == 0;
    } else {
      var k := MatchFirst(a, b);
      var left, right := b[..k], b[k + 1..];
      SumElapsedConcat(left, [a[0]] + right);
      assert ([a[0]] + right)[1..] == right;
      assert b == left + ([a[0]] + right);
      SumElapsedConcat(left, right);
      SumElapsedPermutation(a[1..], left + right);
    }
  }

  /** The average does not depend on the order of the job list. */
  lemma AveragePermutation(a: seq<Job>, b: seq<Job>)
    requires multiset(a) == multiset(b)
    ensures AvgRunTimeMinutes(a) == AvgRunTimeMinutes(b)
  {
    var da, db := Filter(a, IsTimedCompleted), Filter(b, IsTimedCompleted);
    FilterPermutation(a, b, IsTimedCompleted);
    SumElapsedPermutation(da, db);
    assert AvgRunTimeMinutes(a) == MeanMinutes(SumElapsed(da), |da|);
    assert AvgRunTimeMinutes(b) == MeanMinutes(SumElapsed(db), |db|);
  }

  /**
   * The metrics do not depend on the order of the job list: two lists holding the same
   * jobs, each as often, give the same counts and the same average.
   */
  lemma MetricsIgnoreOrder(a: seq<Job>, b: seq<Job>, lastUpdated: Option<int>)
    requires multiset(a) == multiset(b)
    ensures GetMetrics(a, lastUpdated) == GetMetrics(b, lastUpdated)
  {
    assert |a| == |multiset(a)| == |multiset(b)| == |b|;
    FilterPermutation(a, b, HasStatus(Completed));
    FilterPermutation(a, b, HasStatus(Running));
    FilterPermutation(a, b, HasStatus(Failed));
    FilterPermutation(a, b, HasStatus(Delayed));
    FilterPermutation(a, b, HasPriority("high"));
    FilterPermutation(a, b, HasPriority("normal"));
    FilterPermutation(a, b, HasPriority("low"));
    AveragePermutation(a, b);
  }
}
