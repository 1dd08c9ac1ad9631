/** The velocity features that the workers of `src/pipeline/scoring_pipeline.py`
    extract, in terms of the jobs that arrived. */
module JobFeatures {
  import opened Common
  import opened Velocity
  import opened Pipeline

  /** The first `k` jobs as transactions of their senders. */
  function JobLog(jobs: seq<Job>, k: nat): (log: seq<Event>)
    requires k <= |jobs|
    ensures |log| == k
  {
    seq(k, i requires 0 <= i < k => Event(jobs[i].from, Point(jobs[i].timestamp, jobs[i].value)))
  }

  /** Timestamps and values of the jobs of `a` among the first `k`. */
  function PointsOf(jobs: seq<Job>, k: nat, a: Address): seq<Point>
    requires k <= |jobs|
  {
    LogOf(JobLog(jobs, k), a)
  }

  lemma JobLogStep(jobs: seq<Job>, k: nat)
    requires k < |jobs|
    ensures JobLog(jobs, k + 1) == JobLog(jobs, k) + [Event(jobs[k].from, Point(jobs[k].timestamp, jobs[k].value))]
  {
  }

  lemma PointsStep(jobs: seq<Job>, k: nat, a: Address)
    requires k < |jobs|
    ensures PointsOf(jobs, 0, a) == []
    ensures PointsOf(jobs, k + 1, a)
         == PointsOf(jobs, k, a) + (if jobs[k].from == a then [Point(jobs[k].timestamp, jobs[k].value)] else [])
  {
    JobLogStep(jobs, k);
    hide JobLog;
    LogStep(JobLog(jobs, k), Event(jobs[k].from, Point(jobs[k].timestamp, jobs[k].value)), a);
  }

  /** The history after `k` jobs is what pruning keeps of every sender's points. */
  lemma {:induction false} HistorySummarises(jobs: seq<Job>, k: nat)
    requires k <= |jobs|
    ensures Summarises(HistoryAfter(jobs, k), JobLog(jobs, k), HISTORY_WINDOW)
  {
    if k > 0 {
      HistorySummarises(jobs, k - 1);
      JobLogStep(jobs, k - 1);
      var j := jobs[k - 1];
      RecordedSummarises(HistoryAfter(jobs, k - 1), JobLog(jobs, k - 1), j.from, Point(j.timestamp, j.value), HISTORY_WINDOW);
      hide Summarises, Recorded, JobLog;
    }
  }

  /** The features of job `n` in order of arrival are those of what pruning keeps
      of its sender's points up to and including its own. */
  lemma FeaturesAreOfKept(jobs: seq<Job>, n: nat)
    requires n < |jobs|
    ensures FeaturesInOrder(jobs, n) == FeaturesOf(Kept(PointsOf(jobs, n + 1, jobs[n].from), 3600.0), jobs[n].timestamp)
  {
    hide Summarises, FeaturesOf, Kept, HistoryAfter, JobLog, LogOf, ExtractFeatures;
    HistorySummarises(jobs, n);
    JobLogStep(jobs, n);
    ExtractIsOfKept(HistoryAfter(jobs, n), JobLog(jobs, n), jobs[n]);
  }

  /** A job is recorded before its features are read. */
  lemma ExtractIsOfKept(hs: Histories, log: seq<Event>, j: Job)
    requires Summarises(hs, log, HISTORY_WINDOW)
    ensures var after := log + [Event(j.from, Point(j.timestamp, j.value))];
            ExtractFeatures(hs, j) == FeaturesOf(Kept(LogOf(after, j.from), 3600.0), j.timestamp)
  {
    hide Summarises, FeaturesOf, Kept, Since, LogOf;
    RecordedSummarises(hs, log, j.from, Point(j.timestamp, j.value), HISTORY_WINDOW);
  }

  /** In every run, the features of a scored job are those of its sender's points
      up to and including its own, whatever else happened. */
  lemma ScoredFeatures(workers: nat, fates: Fates, schedule: seq<Action>, i: nat)
    requires i < |Run(workers, fates, schedule).scored|
    ensures var m := Run(workers, fates, schedule);
            var n := m.scored[i].n;
            n < |m.arrived|
            && m.scored[i].features
               == FeaturesOf(Kept(PointsOf(m.arrived, n + 1, m.arrived[n].from), 3600.0), m.arrived[n].timestamp)
  {
    hide Run, FeaturesOf, PointsOf, FeaturesInOrder, Kept;
    FeaturesAreScheduleIndependent(workers, fates, schedule, i);
    FeaturesAreOfKept(Run(workers, fates, schedule).arrived, Run(workers, fates, schedule).scored[i].n);
  }

  // ---- timestamps in order ----

  /** The jobs up to `n` of its sender are ordered by timestamp. */
  ghost predicate SenderInOrder(jobs: seq<Job>, n: nat)
    requires n < |jobs|
  {
    forall i, j :: 0 <= i <= j <= n && jobs[i].from == jobs[j].from == jobs[n].from ==>
      jobs[i].timestamp <= jobs[j].timestamp
  }

  /** The positions before `k` of jobs of `a` at most an hour older than `now`. */
  function InHour(jobs: seq<Job>, k: nat, a: Address, now: real): set<nat>
    requires k <= |jobs|
  {
    set i: nat | i < k && jobs[i].from == a && 0.0 <= now - jobs[i].timestamp <= 3600.0
  }

  /** The sum of the values of those jobs. */
  function HourSum(jobs: seq<Job>, k: nat, a: Address, now: real): real
    requires k <= |jobs|
  {
    if k == 0 then 0.0
    else HourSum(jobs, k - 1, a, now) + (if k - 1 in InHour(jobs, k, a, now) then jobs[k - 1].value else 0.0)
  }

  lemma InWindowAppend(ps: seq<Point>, p: Point, now: real, window: real)
    ensures InWindow(ps + [p], now, window) == InWindow(ps, now, window) + (if 0.0 <= now - p.time <= window then [p] else [])
  {
    assert (ps + [p])[..|ps|] == ps;
  }

  lemma SumAppend(ps: seq<Point>, p: Point)
    ensures SumValues(ps + [p]) == SumValues(ps) + p.value && SumValues([]) == 0.0
  {
    assert (ps + [p])[..|ps|] == ps;
  }

  lemma InHourStep(jobs: seq<Job>, k: nat, a: Address, now: real)
    requires k < |jobs|
    ensures var on := jobs[k].from == a && 0.0 <= now - jobs[k].timestamp <= 3600.0;
            && InHour(jobs, k + 1, a, now) == InHour(jobs, k, a, now) + (if on then {k} else {})
            && |InHour(jobs, k + 1, a, now)| == |InHour(jobs, k, a, now)| + (if on then 1 else 0)
            && HourSum(jobs, k + 1, a, now) == HourSum(jobs, k, a, now) + (if on then jobs[k].value else 0.0)
  {
    assert k !in InHour(jobs, k, a, now);
    assert InHour(jobs, k + 1, a, now)
        == InHour(jobs, k, a, now) + (if jobs[k].from == a && 0.0 <= now - jobs[k].timestamp <= 3600.0 then {k} else {});
  }

  /** The points of `a` among the first `k` jobs that lie in the hour before `now`. */
  function HourPoints(jobs: seq<Job>, k: nat, a: Address, now: real): seq<Point>
    requires k <= |jobs|
  {
    InWindow(PointsOf(jobs, k, a), now, 3600.0)
  }

  lemma HourPointsStep(jobs: seq<Job>, k: nat, a: Address, now: real)
    requires k < |jobs|
    ensures HourPoints(jobs, k + 1, a, now)
         == if jobs[k].from == a && 0.0 <= now - jobs[k].timestamp <= 3600.0
            then HourPoints(jobs, k, a, now) + [Point(jobs[k].timestamp, jobs[k].value)]
            else HourPoints(jobs, k, a, now)
  {
    PointsStep(jobs, k, a);
    hide PointsOf;
    InWindowAppend(PointsOf(jobs, k, a), Point(jobs[k].timestamp, jobs[k].value), now, 3600.0);
    hide InWindow;
    var ps := PointsOf(jobs, k, a);
    assert ps + [] == ps && HourPoints(jobs, k, a, now) + [] == HourPoints(jobs, k, a, now);
  }

  lemma NoHourPoints(jobs: seq<Job>, a: Address, now: real)
    ensures HourPoints(jobs, 0, a, now) == []
  {
    assert PointsOf(jobs, 0, a) == [];
  }

  lemma EmptyHour(jobs: seq<Job>, a: Address, now: real)
    ensures |InHour(jobs, 0, a, now)| == 0 && HourSum(jobs, 0, a, now) == SumValues([]) == 0.0
  {
    assert InHour(jobs, 0, a, now) == {};
  }

  lemma {:induction false} WindowIsHour(jobs: seq<Job>, k: nat, a: Address, now: real)
    requires k <= |jobs|
    ensures |HourPoints(jobs, k, a, now)| == |InHour(jobs, k, a, now)|
    ensures SumValues(HourPoints(jobs, k, a, now)) == HourSum(jobs, k, a, now)
  {
    hide *;
    if k == 0 {
      EmptyHour(jobs, a, now);
      NoHourPoints(jobs, a, now);
    } else {
      WindowIsHour(jobs, k - 1, a, now);
      HourPointsStep(jobs, k - 1, a, now);
      InHourStep(jobs, k - 1, a, now);
      SumAppend(HourPoints(jobs, k - 1, a, now), Point(jobs[k - 1].timestamp, jobs[k - 1].value));
    }
  }

  lemma {:induction false} PointsAreJobs(jobs: seq<Job>, k: nat, a: Address, i: nat) returns (p: nat)
    requires k <= |jobs| && i < |PointsOf(jobs, k, a)|
    ensures p < k && jobs[p].from == a && PointsOf(jobs, k, a)[i] == Point(jobs[p].timestamp, jobs[p].value)
  {
    if k > 0 {
      PointsStep(jobs, k - 1, a);
      hide PointsOf;
      if i < |PointsOf(jobs, k - 1, a)| {
        p := PointsAreJobs(jobs, k - 1, a, i);
      } else {
        p := k - 1;
      }
    }
  }

  lemma {:induction false} PointsInOrder(jobs: seq<Job>, n: nat, k: nat)
    requires n < |jobs| && k <= n + 1 && SenderInOrder(jobs, n)
    ensures NonDecreasing(PointsOf(jobs, k, jobs[n].from))
  {
    var a := jobs[n].from;
    if k > 0 {
      PointsInOrder(jobs, n, k - 1);
      PointsStep(jobs, k - 1, a);
      var ps := PointsOf(jobs, k - 1, a);
      if jobs[k - 1].from == a {
        forall i | 0 <= i < |ps|
          ensures ps[i].time <= jobs[k - 1].timestamp
        {
          var p := PointsAreJobs(jobs, k - 1, a, i);
        }
      }
      hide PointsOf;
    }
  }

  /** `p` is the latest position before `n` of a job of the same sender. */
  ghost predicate Predecessor(jobs: seq<Job>, n: nat, p: nat)
    requires n < |jobs|
  {
    p < n && jobs[p].from == jobs[n].from && forall k :: p < k < n ==> jobs[k].from != jobs[n].from
  }

  lemma {:induction false} PredecessorIsLast(jobs: seq<Job>, n: nat, p: nat, k: nat)
    requires n < |jobs| && Predecessor(jobs, n, p) && p < k <= n
    ensures var ps := PointsOf(jobs, k, jobs[n].from);
            ps != [] && ps[|ps| - 1] == Point(jobs[p].timestamp, jobs[p].value)
  {
    PointsStep(jobs, k - 1, jobs[n].from);
    if k - 1 > p {
      PredecessorIsLast(jobs, n, p, k - 1);
    }
    hide PointsOf;
  }

  lemma {:induction false} NoPoints(jobs: seq<Job>, k: nat, a: Address)
    requires k <= |jobs| && forall i :: 0 <= i < k ==> jobs[i].from != a
    ensures PointsOf(jobs, k, a) == []
  {
    if k > 0 {
      NoPoints(jobs, k - 1, a);
      PointsStep(jobs, k - 1, a);
      hide PointsOf;
    }
  }

  /** The features are the number and the total value of the sender's jobs of the
      last hour, job `n` included, and the gap to the sender's previous job if
      that is in the hour, else -1. */
  ghost predicate OfTheHour(f: Features, jobs: seq<Job>, n: nat)
    requires n < |jobs|
  {
    var a, now := jobs[n].from, jobs[n].timestamp;
    && f.count == |InHour(jobs, n + 1, a, now)|
    && f.valueSum == HourSum(jobs, n + 1, a, now)
    && (forall p: nat :: Predecessor(jobs, n, p) ==>
          f.sinceLast == if now - jobs[p].timestamp <= 3600.0 then now - jobs[p].timestamp else -1.0)
    && ((forall k :: 0 <= k < n ==> jobs[k].from != a) ==> f.sinceLast == -1.0)
  }

  lemma LastPoint(jobs: seq<Job>, n: nat)
    requires n < |jobs|
    ensures var ps := PointsOf(jobs, n + 1, jobs[n].from);
            && ps == PointsOf(jobs, n, jobs[n].from) + [Point(jobs[n].timestamp, jobs[n].value)]
            && ps[|ps| - 1].time == jobs[n].timestamp
  {
    PointsStep(jobs, n, jobs[n].from);
    hide PointsOf;
  }

  /** Count, sum and gap in terms of the sender's points. */
  lemma FeaturesOfPoints(jobs: seq<Job>, n: nat)
    requires n < |jobs| && SenderInOrder(jobs, n)
    ensures var a, now := jobs[n].from, jobs[n].timestamp;
            var f, front := FeaturesInOrder(jobs, n), PointsOf(jobs, n, a);
            && f.count == |HourPoints(jobs, n + 1, a, now)|
            && f.valueSum == SumValues(HourPoints(jobs, n + 1, a, now))
            && f.sinceLast == if front != [] && now - front[|front| - 1].time <= 3600.0
                              then now - front[|front| - 1].time
                              else -1.0
  {
    hide PointsOf, FeaturesInOrder, Kept, InWindow, FeaturesOf, SumValues;
    FeaturesAreOfKept(jobs, n);
    LastPoint(jobs, n);
    PointsInOrder(jobs, n, n + 1);
    hide SenderInOrder, NonDecreasing;
    IncrementalMatchesLog(PointsOf(jobs, n + 1, jobs[n].from), 3600.0);
  }

  lemma GapIsToPredecessorJob(jobs: seq<Job>, n: nat, p: nat)
    requires n < |jobs| && Predecessor(jobs, n, p)
    ensures var front := PointsOf(jobs, n, jobs[n].from);
            front != [] && front[|front| - 1].time == jobs[p].timestamp
  {
    hide PointsOf;
    PredecessorIsLast(jobs, n, p, n);
  }

  lemma FeaturesOfTheHour(jobs: seq<Job>, n: nat)
    requires n < |jobs| && SenderInOrder(jobs, n)
    ensures OfTheHour(FeaturesInOrder(jobs, n), jobs, n)
  {
    hide PointsOf, FeaturesInOrder, HourPoints, SumValues, InHour, HourSum;
    var a, now := jobs[n].from, jobs[n].timestamp;
    FeaturesOfPoints(jobs, n);
    hide SenderInOrder;
    WindowIsHour(jobs, n + 1, a, now);
    forall p: nat | Predecessor(jobs, n, p)
      ensures var front := PointsOf(jobs, n, a);
              front != [] && front[|front| - 1].time == jobs[p].timestamp
    {
      GapIsToPredecessorJob(jobs, n, p);
    }
    if forall k :: 0 <= k < n ==> jobs[k].from != a {
      NoPoints(jobs, n, a);
    }
  }

  /** In every run, whatever the schedule, a scored job whose sender's timestamps
      are in order has the features of the hour before it. */
  lemma ScoredFeaturesOfTheHour(workers: nat, fates: Fates, schedule: seq<Action>, i: nat)
    requires i < |Run(workers, fates, schedule).scored|
    ensures var m := Run(workers, fates, schedule);
            var n := m.scored[i].n;
            n < |m.arrived| && (SenderInOrder(m.arrived, n) ==> OfTheHour(m.scored[i].features, m.arrived, n))
  {
    hide Run, FeaturesInOrder, OfTheHour, SenderInOrder;
    FeaturesAreScheduleIndependent(workers, fates, schedule, i);
    var m := Run(workers, fates, schedule);
    if SenderInOrder(m.arrived, m.scored[i].n) {
      FeaturesOfTheHour(m.arrived, m.scored[i].n);
    }
  }
}
