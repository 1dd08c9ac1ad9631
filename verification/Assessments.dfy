/** From what a worker of `src/pipeline/scoring_pipeline.py` reads to the action
    taken on the transaction. */
module Assessments {
  import opened Common
  import opened Pipeline
  import opened Velocity
  import opened JobFeatures
  import opened Snapshots
  import opened Schedules
  import opened RiskScorer
  import opened ScoreFields
  import opened CrossChain

  /** What the models return for a job.  Unless `trusted`, only the one trained on
      live features is used. */
  datatype Outputs = Outputs(trusted: bool, gnn: real, autoencoder: real, isolationForest: real, live: real)

  /** More than 20 transactions in the window. */
  function VelocityFlag(f: Features): bool {
    f.count > 20
  }

  /** The scores built for a job. */
  function ScoresOf(o: Outputs, f: Features, centrality: real): ModelScores {
    if o.trusted then ModelScores(o.gnn, o.autoencoder, o.isolationForest, centrality, VelocityFlag(f), false)
    else ModelScores(o.live, -1.0, -1.0, centrality, VelocityFlag(f), false)
  }

  function ActionFor(o: Outputs, w: Weights, c: Scored): Tier {
    TierOf(ScoresOf(o, c.features, c.centrality), w, c.boost, !o.trusted)
  }

  /** Model scores are at most 1. */
  predicate UnitOutputs(o: Outputs) {
    o.gnn <= 1.0 && o.autoencoder <= 1.0 && o.isolationForest <= 1.0 && o.live <= 1.0
  }

  /** The score before adjustments: in trusted mode the weighted mean over the
      three models and centrality, otherwise over the live model in the place of
      the first and centrality, halved if there is no live score. */
  lemma AverageOfOutputs(o: Outputs, f: Features, centrality: real, w: Weights)
    ensures var average := Average(Terms(ScoresOf(o, f, centrality), w, !o.trusted));
            if o.trusted then
              var total := IfAvailable(o.gnn, w.gnn) + IfAvailable(o.autoencoder, w.autoencoder)
                           + IfAvailable(o.isolationForest, w.isolationForest) + w.centrality;
              total != 0.0 ==>
                average * total == Weighed(o.gnn, w.gnn) + Weighed(o.autoencoder, w.autoencoder)
                                   + Weighed(o.isolationForest, w.isolationForest) + centrality * w.centrality
            else
              var total := IfAvailable(o.live, w.gnn) + w.centrality;
              total != 0.0 ==>
                average * total == Weighed(o.live, w.gnn)
                                   + (if o.live >= 0.0 then centrality else centrality / 2.0) * w.centrality
  {
    AverageIsWeightedMean(ScoresOf(o, f, centrality), w, !o.trusted);
    hide Average, Terms, VelocityFlag;
  }

  /** In every run, a job is flagged exactly if its sender, whose timestamps are in
      order, made at least 21 transactions in the hour that ends with it. */
  lemma FlaggedIffBusy(workers: nat, fates: Fates, schedule: seq<Action>, i: nat)
    requires i < |Run(workers, fates, schedule).scored|
    ensures var m := Run(workers, fates, schedule);
            var n := m.scored[i].n;
            n < |m.arrived|
            && (SenderInOrder(m.arrived, n) ==>
                  (VelocityFlag(m.scored[i].features)
                   <==> |InHour(m.arrived, n + 1, m.arrived[n].from, m.arrived[n].timestamp)| >= 21))
  {
    ScoredFeaturesOfTheHour(workers, fates, schedule, i);
    hide Run, InHour, HourSum, SenderInOrder;
  }

  // ---- which runs lead to the same action ----

  /** The action on job `n` if its worker reads the state after the jobs of `c`. */
  function ActionAfter(jobs: seq<Job>, n: nat, c: set<nat>, o: Outputs, w: Weights): Tier
    requires n < |jobs|
  {
    TierOf(ScoresOf(o, FeaturesInOrder(jobs, n), CappedDegree(jobs, c, jobs[n].from)), w,
           SnapshotBoost(jobs, c, jobs[n].from), !o.trusted)
  }

  lemma CappedIsUnit(jobs: seq<Job>, c: set<nat>, a: Address)
    ensures 0.0 <= CappedDegree(jobs, c, a) <= 1.0
  {
    hide Degree;
  }

  /** More committed jobs never lead to a milder action. */
  lemma ActionIsMonotone(jobs: seq<Job>, n: nat, c: set<nat>, d: set<nat>, o: Outputs, w: Weights)
    requires n < |jobs| && c <= d && UnitOutputs(o) && NonNegative(w)
    ensures Level(ActionAfter(jobs, n, c, o, w)) <= Level(ActionAfter(jobs, n, d, o, w))
  {
    hide CappedDegree, SnapshotBoost, FeaturesInOrder, TierOf, VelocityFlag;
    var a, f := jobs[n].from, FeaturesInOrder(jobs, n);
    ReadingsAreMonotone(jobs, c, d, a);
    CappedIsUnit(jobs, c, a);
    CappedIsUnit(jobs, d, a);
    CompositeIsMonotone(ScoresOf(o, f, CappedDegree(jobs, c, a)), ScoresOf(o, f, CappedDegree(jobs, d, a)), w,
                        SnapshotBoost(jobs, c, a), SnapshotBoost(jobs, d, a), !o.trusted);
  }

  lemma LevelsDiffer(t: Tier, u: Tier)
    ensures Level(t) == Level(u) <==> t == u
  {
  }

  /** In every run the action is that of the jobs that had committed by then. */
  lemma ActionIsOfSnapshot(workers: nat, fates: Fates, s: seq<Action>, jobs: seq<Job>, n: nat, c: Scored,
                           o: Outputs, w: Weights) returns (seen: set<nat>)
    requires Reports(workers, fates, s, jobs, n, c)
    ensures n < |jobs| && Snapshot(jobs, fates, workers, n, seen)
    ensures ActionFor(o, w, c) == ActionAfter(jobs, n, seen, o, w)
  {
    seen := ReportIsASnapshot(workers, fates, s, jobs, n, c);
    ReportedFeatures(workers, fates, s, jobs, n, c);
    hide Reports, CappedDegree, SnapshotBoost, Snapshot, FeaturesInOrder, TierOf, VelocityFlag;
  }

  lemma ReportedFeatures(workers: nat, fates: Fates, s: seq<Action>, jobs: seq<Job>, n: nat, c: Scored)
    requires Reports(workers, fates, s, jobs, n, c)
    ensures n < |jobs| && c.features == FeaturesInOrder(jobs, n)
  {
    var m := Run(workers, fates, s);
    var i :| 0 <= i < |m.scored| && m.scored[i] == c;
    FeaturesAreScheduleIndependent(workers, fates, s, i);
    hide Run, FeaturesInOrder;
  }

  /** Keeping back fewer earlier jobs than there are workers leads to the same
      action as letting everything commit first. */
  ghost predicate ActionSettled(workers: nat, fates: Fates, jobs: seq<Job>, n: nat, o: Outputs, w: Weights)
    requires n < |jobs|
  {
    forall late :: late <= Earlier(fates, n) && |late| < workers ==>
      ActionAfter(jobs, n, Seen(fates, n, late), o, w) == ActionAfter(jobs, n, Earlier(fates, |jobs|), o, w)
  }

  lemma SettledAction(workers: nat, fates: Fates, s: seq<Action>, jobs: seq<Job>, n: nat, c: Scored, o: Outputs, w: Weights)
    requires n < |jobs| && UnitOutputs(o) && NonNegative(w) && Reports(workers, fates, s, jobs, n, c)
    requires ActionSettled(workers, fates, jobs, n, o, w)
    ensures ActionFor(o, w, c) == ActionAfter(jobs, n, Earlier(fates, |jobs|), o, w)
  {
    hide Reports, Snapshot, ActionAfter, ActionFor, Earlier, UnitOutputs, NonNegative, Seen;
    var all := Earlier(fates, |jobs|);
    var seen := ActionIsOfSnapshot(workers, fates, s, jobs, n, c, o, w);
    var late := SnapshotIsBetween(jobs, fates, workers, n, seen);
    ActionIsMonotone(jobs, n, Seen(fates, n, late), seen, o, w);
    ActionIsMonotone(jobs, n, seen, all, o, w);
    LevelsDiffer(ActionAfter(jobs, n, seen, o, w), ActionAfter(jobs, n, all, o, w));
  }

  /** With at least two workers, every run over the same arrivals, failures and
      model outputs takes the same action on job `n` if and only if the action is
      settled: a condition on the queue alone. */
  lemma ActionIsFixedIffSettled(workers: nat, fates: Fates, jobs: seq<Job>, n: nat, o: Outputs, w: Weights)
    requires n < |jobs| && fates(n).Succeeds? && workers > 1 && UnitOutputs(o) && NonNegative(w)
    ensures (forall s, t, c, d :: Reports(workers, fates, s, jobs, n, c) && Reports(workers, fates, t, jobs, n, d) ==>
               ActionFor(o, w, c) == ActionFor(o, w, d))
       <==> ActionSettled(workers, fates, jobs, n, o, w)
  {
    hide Reports, ActionAfter, ActionFor, Earlier, UnitOutputs, NonNegative, Seen;
    var all := Earlier(fates, |jobs|);
    var t, d := LateRun(workers, fates, jobs, n);
    ActionOfScore(workers, fates, t, jobs, n, d, all, o, w);
    if ActionSettled(workers, fates, jobs, n, o, w) {
      forall s, c | Reports(workers, fates, s, jobs, n, c)
        ensures ActionFor(o, w, c) == ActionAfter(jobs, n, all, o, w)
      {
        SettledAction(workers, fates, s, jobs, n, c, o, w);
      }
    } else {
      var late :| late <= Earlier(fates, n) && |late| < workers
                  && ActionAfter(jobs, n, Seen(fates, n, late), o, w) != ActionAfter(jobs, n, all, o, w);
      var s, c := EarlyRun(workers, fates, jobs, n, late);
      EarlySeen(fates, n, late);
      ActionOfScore(workers, fates, s, jobs, n, c, Seen(fates, n, late), o, w);
    }
  }

  lemma EarlySeen(fates: Fates, n: nat, late: set<nat>)
    ensures Seen(fates, n, late) == Earlier(fates, n) - late + {n}
  {
  }

  lemma ActionOfScore(workers: nat, fates: Fates, s: seq<Action>, jobs: seq<Job>, n: nat, c: Scored, seen: set<nat>,
                      o: Outputs, w: Weights)
    requires n < |jobs| && Reports(workers, fates, s, jobs, n, c) && ScoreIs(c, jobs, n, seen)
    ensures ActionFor(o, w, c) == ActionAfter(jobs, n, seen, o, w)
  {
    ReportedFeatures(workers, fates, s, jobs, n, c);
    hide Reports, CappedDegree, SnapshotBoost, FeaturesInOrder, TierOf, VelocityFlag;
  }

  /** Without any other signal, a job is a threat exactly if its sender had at
      least 100 counterparties, senders and recipients counted apart, among the
      jobs that had committed by then. */
  lemma LoneSignalIsThreatIff(workers: nat, fates: Fates, s: seq<Action>, jobs: seq<Job>, n: nat, c: Scored,
                              o: Outputs, w: Weights) returns (seen: set<nat>)
    requires Reports(workers, fates, s, jobs, n, c) && !o.trusted && o.live < 0.0
    requires !VelocityFlag(c.features) && c.boost == 1.0
    ensures n < |jobs| && Snapshot(jobs, fates, workers, n, seen)
    ensures ActionFor(o, w, c) != LogOnly
       <==> |Sources(jobs, seen, jobs[n].from)| + |Targets(jobs, seen, jobs[n].from)| >= 100
  {
    hide Reports, SnapshotBoost, Snapshot, TierOf, VelocityFlag, Sources, Targets;
    seen := ReportIsASnapshot(workers, fates, s, jobs, n, c);
    CappedIsUnit(jobs, seen, jobs[n].from);
    LoneCentralityIsThreatIffOne(ScoresOf(o, c.features, c.centrality), w, c.boost);
  }

  // ---- an action that depends on the schedule ----

  /** The live model says 0.5. */
  const UNDECIDED: Outputs := Outputs(false, -1.0, -1.0, -1.0, 0.5)
  const ENSEMBLE_WEIGHTS: Weights := Weights(0.55, 0.25, 0.10, 0.10)

  /** `j` shows no cross-chain signal; `k`, from the same wallet, goes to a bridge. */
  predicate BridgeFollows(j: Job, k: Job) {
    && j.from == k.from != NoAddress && j.chain == k.chain
    && BridgeName(j.to).None? && BridgeName(j.from).None? && AssetName(j.to).None? && BridgeName(k.to).Some?
  }

  lemma BoostsOfTwo(j: Job, k: Job)
    requires BridgeFollows(j, k)
    ensures SnapshotBoost([j, k], {0}, j.from) == 1.0 && SnapshotBoost([j, k], {0, 1}, j.from) == 1.25
  {
    hide BridgeName, AssetName;
    var jobs := [j, k];
    OneChain(j, k);
    assert !BridgeUsed(jobs, {0}, j.from) && !AssetUsed(jobs, {0}, j.from);
    assert UsesBridge(Sighting(jobs[1].from, jobs[1].to, jobs[1].chain), j.from) && BridgeUsed(jobs, {0, 1}, j.from);
  }

  lemma OneChain(j: Job, k: Job)
    requires j.chain == k.chain
    ensures |ChainsSeen([j, k], {0}, j.from)| <= 1 && |ChainsSeen([j, k], {0, 1}, j.from)| <= 1
  {
    SubsetSize(ChainsSeen([j, k], {0}, j.from), {j.chain});
    SubsetSize(ChainsSeen([j, k], {0, 1}, j.from), {j.chain});
  }

  lemma FirstIsNotBusy(j: Job, k: Job)
    ensures !VelocityFlag(FeaturesInOrder([j, k], 0))
  {
    hide FeaturesInOrder, InHour, HourSum;
    FeaturesOfTheHour([j, k], 0);
    OneInHour([j, k], j.from, j.timestamp);
  }

  lemma OneInHour(jobs: seq<Job>, a: Address, now: real)
    requires jobs != []
    ensures |InHour(jobs, 1, a, now)| <= 1
  {
    SubsetSize(InHour(jobs, 1, a, now), {0});
  }

  lemma FewCounterparties(j: Job, k: Job, c: set<nat>, a: Address)
    ensures 0.0 <= CappedDegree([j, k], c, a) <= 0.04
  {
    SubsetSize(Sources([j, k], c, a), {j.from, k.from});
    SubsetSize(Targets([j, k], c, a), {j.to, k.to});
    hide Sources, Targets;
  }

  lemma UndecidedAction(f: Features, centrality: real)
    requires !VelocityFlag(f) && 0.0 <= centrality <= 0.04
    ensures var s := ScoresOf(UNDECIDED, f, centrality);
            && TierOf(s, ENSEMBLE_WEIGHTS, 1.0, true) == LogOnly
            && TierOf(s, ENSEMBLE_WEIGHTS, 1.25, true) == Watchlist
  {
    var s := ScoresOf(UNDECIDED, f, centrality);
    var average := Average(Terms(s, ENSEMBLE_WEIGHTS, true));
    AverageOfOutputs(UNDECIDED, f, centrality, ENSEMBLE_WEIGHTS);
    assert average * 0.65 == 0.5 * 0.55 + centrality * 0.10;
    hide Average, Terms, VelocityFlag, Weighed;
    OnlyTheLastClampActs(average, s, 1.0);
    OnlyTheLastClampActs(average, s, 1.25);
  }

  /** With the weights of the source, two schedules of two such jobs: the first is
      let pass or put on the watchlist, depending on when its worker gets to run. */
  lemma ActionDependsOnSchedule(j: Job, k: Job) returns (s: seq<Action>, t: seq<Action>, c: Scored, d: Scored)
    requires BridgeFollows(j, k)
    ensures Reports(2, ALL_SUCCEED, s, [j, k], 0, c) && Reports(2, ALL_SUCCEED, t, [j, k], 0, d)
    ensures ActionFor(UNDECIDED, ENSEMBLE_WEIGHTS, c) == LogOnly
    ensures ActionFor(UNDECIDED, ENSEMBLE_WEIGHTS, d) == Watchlist
  {
    hide Reports, BridgeFollows, CappedDegree, SnapshotBoost, FeaturesInOrder, VelocityFlag, TierOf, ScoresOf;
    var jobs := [j, k];
    SeenOfTwo();
    BoostsOfTwo(j, k);
    FirstIsNotBusy(j, k);
    s, c := EarlyRun(2, ALL_SUCCEED, jobs, 0, {});
    t, d := LateRun(2, ALL_SUCCEED, jobs, 0);
    ReportedFeatures(2, ALL_SUCCEED, s, jobs, 0, c);
    ReportedFeatures(2, ALL_SUCCEED, t, jobs, 0, d);
    FewCounterparties(j, k, {0}, j.from);
    FewCounterparties(j, k, {0, 1}, j.from);
    UndecidedAction(c.features, c.centrality);
    UndecidedAction(d.features, d.centrality);
  }
}
