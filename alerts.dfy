/**
 * The alert rules of `/api/alerts` (app.py:388-424): one alert for delayed jobs, one for
 * failed jobs and one for jobs that have been running for more than three hours.
 */
module Alerts {
  import opened Options
  import opened Text
  import opened Seqs
  import opened Jobs

  /** One entry of the `alerts` list. */
  datatype Alert = Alert(alertType: string, message: string, jobs: seq<string>, severity: string)

  /** The reply: the alerts and the time they were computed at. */
  datatype AlertReport = AlertReport(alerts: seq<Alert>, timestamp: int)

  /** A running job counts as long-running past three hours (app.py:399). */
  const LONG_RUNNING_SECONDS := 3 * 60 * 60

  const DELAYED_SUFFIX := " job(s) are running longer than expected"
  const FAILED_SUFFIX := " job(s) have failed to start"
  const LONG_RUNNING_SUFFIX := " job(s) have been running for more than 3 hours"

  /** `[job['jobName'] for job in jobs]`. */
  function Names(jobs: seq<Job>): (r: seq<string>)
    ensures |r| == |jobs|
    ensures forall i :: 0 <= i < |jobs| ==> r[i] == jobs[i].jobName
  {
    seq(|jobs|, i requires 0 <= i < |jobs| => jobs[i].jobName)
  }

  /** The test of the long-running loop, with the one clock reading `now` (app.py:396-399). */
  predicate IsLongRunning(j: Job, now: int) {
    j.status == Running && j.startTimeParsed.Some? &&
    now - j.startTimeParsed.value > LONG_RUNNING_SECONDS
  }

  function LongRunningPred(now: int): Job -> bool {
    (j: Job) => IsLongRunning(j, now)
  }

  /** The alert raised for the matched jobs, or none when nothing matched. */
  function AlertFor(alertType: string, suffix: string, severity: string, matched: seq<Job>): seq<Alert> {
    if matched == [] then []
    else [Alert(alertType, NatToString(|matched|) + suffix, Names(matched), severity)]
  }

  function DelayedAlert(jobs: seq<Job>): seq<Alert> {
    AlertFor("warning", DELAYED_SUFFIX, "medium", Filter(jobs, HasStatus(Delayed)))
  }

  function FailedAlert(jobs: seq<Job>): seq<Alert> {
    AlertFor("error", FAILED_SUFFIX, "high", Filter(jobs, HasStatus(Failed)))
  }

  function LongRunningAlert(jobs: seq<Job>, now: int): seq<Alert> {
    AlertFor("info", LONG_RUNNING_SUFFIX, "low", Filter(jobs, LongRunningPred(now)))
  }

  /** The `alerts` list, built in the order of the three `if` statements (app.py:402-424). */
  function AlertsFor(jobs: seq<Job>, now: int): (r: seq<Alert>)
    ensures |r| <= 3
  {
    DelayedAlert(jobs) + FailedAlert(jobs) + LongRunningAlert(jobs, now)
  }

  /** The position of an alert type in the reply. */
  function Rank(alertType: string): nat {
    if alertType == "warning" then 0 else if alertType == "error" then 1 else 2
  }

  /** The severity that goes with each alert type. */
  predicate SeverityMatches(a: Alert) {
    (a.alertType == "warning" && a.severity == "medium") ||
    (a.alertType == "error" && a.severity == "high") ||
    (a.alertType == "info" && a.severity == "low")
  }

  /** The first alert of the given type, if any. */
  function AlertOfType(alerts: seq<Alert>, alertType: string): (r: Option<Alert>)
    ensures r.Some? ==> r.value in alerts && r.value.alertType == alertType
    ensures r.None? ==> forall i :: 0 <= i < |alerts| ==> alerts[i].alertType != alertType
  {
    if alerts == [] then None
    else if alerts[0].alertType == alertType then Some(alerts[0])
    else AlertOfType(alerts[1..], alertType)
  }

  /**
   * Every alert carries the severity of its type, and the alerts come strictly in the
   * order warning, error, info, so no type occurs twice.
   */
  lemma AlertsOrdered(jobs: seq<Job>, now: int)
    ensures var r := AlertsFor(jobs, now);
      forall i :: 0 <= i < |r| ==> SeverityMatches(r[i])
    ensures var r := AlertsFor(jobs, now);
      forall i, k :: 0 <= i < k < |r| ==> Rank(r[i].alertType) < Rank(r[k].alertType)
  {
  }

  /** What the alert of one type is, given the jobs it is raised for. */
  function Expected(alertType: string, suffix: string, severity: string, matched: seq<Job>): Option<Alert> {
    if matched == [] then None
    else Some(Alert(alertType, NatToString(|matched|) + suffix, Names(matched), severity))
  }

  /**
   * Each alert is present exactly when its job list is non-empty, and then its message
   * counts those jobs and its `jobs` are their names in store order.
   */
  lemma AlertsPresence(jobs: seq<Job>, now: int)
    ensures AlertOfType(AlertsFor(jobs, now), "warning") ==
      Expected("warning", DELAYED_SUFFIX, "medium", Filter(jobs, HasStatus(Delayed)))
    ensures AlertOfType(AlertsFor(jobs, now), "error") ==
      Expected("error", FAILED_SUFFIX, "high", Filter(jobs, HasStatus(Failed)))
    ensures AlertOfType(AlertsFor(jobs, now), "info") ==
      Expected("info", LONG_RUNNING_SUFFIX, "low", Filter(jobs, LongRunningPred(now)))
  {
    var d, f, l := DelayedAlert(jobs), FailedAlert(jobs), LongRunningAlert(jobs, now);
    AlertOfTypeConcat(d, f + l, "warning");
    AlertOfTypeConcat(f, l, "warning");
    AlertOfTypeConcat(l, [], "warning");
    AlertOfTypeConcat(d, f + l, "error");
    AlertOfTypeConcat(f, l, "error");
    AlertOfTypeConcat(l, [], "error");
    AlertOfTypeConcat(d, f + l, "info");
    AlertOfTypeConcat(f, l, "info");
    AlertOfTypeConcat(l, [], "info");
    assert AlertsFor(jobs, now) == d + (f + l);
    assert l + [] == l;
  }

  lemma {:induction false} AlertOfTypeConcat(a: seq<Alert>, b: seq<Alert>, alertType: string)
    ensures AlertOfType(a + b, alertType) ==
      if AlertOfType(a, alertType).Some? then AlertOfType(a, alertType) else AlertOfType(b, alertType)
  {
    if a != [] {
      assert (a + b)[1..] == a[1..] + b;
      AlertOfTypeConcat(a[1..], b, alertType);
    } else {
      assert a + b == b;
    }
  }

  /**
   * The long-running list holds exactly the running jobs with a parsed start more than
   * three hours before `now`, in store order.
   */
  lemma LongRunningSpec(jobs: seq<Job>, now: int)
    ensures IsSubsequence(Filter(jobs, LongRunningPred(now)), jobs)
    ensures forall i :: 0 <= i < |jobs| ==>
      (jobs[i] in Filter(jobs, LongRunningPred(now)) <==>
       jobs[i].status == Running && jobs[i].startTimeParsed.Some? &&
       now - jobs[i].startTimeParsed.value > 10800)
  {
    FilterIsSubsequence(jobs, LongRunningPred(now));
  }

  /** The long-running list of a normalised list holds no job with an end time and no delayed job. */
  lemma LongRunningListNotDelayed(jobs: seq<Job>, now: int)
    requires forall i :: 0 <= i < |jobs| ==> Derived(jobs[i])
    ensures forall j :: j in Filter(jobs, LongRunningPred(now)) ==>
      j.endTimeParsed.None? && j !in Filter(jobs, HasStatus(Delayed))
  {
    LongRunningAreNotDelayed(jobs, now);
    forall j | j in Filter(jobs, LongRunningPred(now))
      ensures j.endTimeParsed.None? && j !in Filter(jobs, HasStatus(Delayed))
    {
      var k :| 0 <= k < |jobs| && jobs[k] == j;
    }
  }

  /** Every long-running job of a normalised list has been reported as running, never as delayed. */
  lemma LongRunningAreNotDelayed(jobs: seq<Job>, now: int)
    requires forall i :: 0 <= i < |jobs| ==> Derived(jobs[i])
    ensures forall i :: 0 <= i < |jobs| && IsLongRunning(jobs[i], now) ==>
      jobs[i].endTimeParsed.None? && jobs[i] !in Filter(jobs, HasStatus(Delayed))
  {
    forall i | 0 <= i < |jobs| && IsLongRunning(jobs[i], now)
      ensures jobs[i].endTimeParsed.None?
    {
      StatusRule(jobs[i].startTimeParsed, jobs[i].endTimeParsed);
    }
  }

  /** The number at the head of each message is the number of jobs the alert lists. */
  lemma MessageCountsJobs(jobs: seq<Job>, now: int, a: Alert)
    requires a in AlertsFor(jobs, now)
    ensures 0 < DigitSpan(a.message) <= |a.message|
    ensures DigitsValue(a.message[..DigitSpan(a.message)]) == |a.jobs| > 0
  {
    var n := |a.jobs|;
    var d, f, l := DelayedAlert(jobs), FailedAlert(jobs), LongRunningAlert(jobs, now);
    assert a in d || a in f || a in l;
    var suffix :=
      if a in d then DELAYED_SUFFIX else if a in f then FAILED_SUFFIX else LONG_RUNNING_SUFFIX;
    assert a.message == NatToString(n) + suffix;
    assert DELAYED_SUFFIX[0] == FAILED_SUFFIX[0] == LONG_RUNNING_SUFFIX[0] == ' ';
    DigitSpanOf(NatToString(n), suffix);
    assert a.message[..DigitSpan(a.message)] == NatToString(n);
    NatToStringRoundTrip(n);
  }
}
