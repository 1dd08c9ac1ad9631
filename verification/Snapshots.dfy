/** What a worker reads from the shared graph and index when it scores a job:
    exactly when that is the same under every schedule. */
module Snapshots {
  import opened Common
  import opened Walks
  import opened DiGraphs
  import opened Ledger
  import opened CrossChain
  import opened Pipeline
  import opened Velocity

  // ---- degree and boost over a set of committed jobs ----

  /** The wallets with an edge into `a` once the jobs at positions `c` have committed. */
  function Sources(jobs: seq<Job>, c: set<nat>, a: Address): set<Address> {
    set k | k in c && k < |jobs| && jobs[k].to == a && a != NoAddress :: jobs[k].from
  }

  /** The wallets with an edge from `a`. */
  function Targets(jobs: seq<Job>, c: set<nat>, a: Address): set<Address> {
    set k | k in c && k < |jobs| && jobs[k].from == a && jobs[k].to != NoAddress :: jobs[k].to
  }

  function Degree(jobs: seq<Job>, c: set<nat>, a: Address): nat {
    |Sources(jobs, c, a)| + |Targets(jobs, c, a)|
  }

  function CappedDegree(jobs: seq<Job>, c: set<nat>, a: Address): real {
    Min(1.0, Degree(jobs, c, a) as real / 100.0)
  }

  /** The chains on which the jobs at positions `c` show `a`. */
  function ChainsSeen(jobs: seq<Job>, c: set<nat>, a: Address): set<string> {
    set k | k in c && k < |jobs| && Involves(Sighting(jobs[k].from, jobs[k].to, jobs[k].chain), a) :: jobs[k].chain
  }

  predicate BridgeUsed(jobs: seq<Job>, c: set<nat>, a: Address) {
    exists k :: k in c && k < |jobs| && UsesBridge(Sighting(jobs[k].from, jobs[k].to, jobs[k].chain), a)
  }

  predicate AssetUsed(jobs: seq<Job>, c: set<nat>, a: Address) {
    exists k :: k in c && k < |jobs| && UsesAsset(Sighting(jobs[k].from, jobs[k].to, jobs[k].chain), a)
  }

  function SnapshotBoost(jobs: seq<Job>, c: set<nat>, a: Address): real {
    Multiplier(|ChainsSeen(jobs, c, a)| > 1, BridgeUsed(jobs, c, a), AssetUsed(jobs, c, a))
  }

  ghost predicate Within(c: set<nat>, n: nat) {
    forall k :: k in c ==> k < n
  }

  /** More committed jobs never lower the degree or the boost. */
  lemma ReadingsAreMonotone(jobs: seq<Job>, c: set<nat>, d: set<nat>, a: Address)
    requires c <= d
    ensures CappedDegree(jobs, c, a) <= CappedDegree(jobs, d, a)
    ensures SnapshotBoost(jobs, c, a) <= SnapshotBoost(jobs, d, a)
  {
    SubsetSize(Sources(jobs, c, a), Sources(jobs, d, a));
    SubsetSize(Targets(jobs, c, a), Targets(jobs, d, a));
    SubsetSize(ChainsSeen(jobs, c, a), ChainsSeen(jobs, d, a));
  }

  /** Readings over early jobs do not depend on what arrives later. */
  lemma ReadingsAreLocal(jobs: seq<Job>, more: seq<Job>, c: set<nat>, a: Address)
    requires jobs <= more && Within(c, |jobs|)
    ensures CappedDegree(more, c, a) == CappedDegree(jobs, c, a)
    ensures SnapshotBoost(more, c, a) == SnapshotBoost(jobs, c, a)
  {
    assert forall k :: k in c ==> more[k] == jobs[k];
    assert Sources(more, c, a) == Sources(jobs, c, a);
    assert Targets(more, c, a) == Targets(jobs, c, a);
    assert ChainsSeen(more, c, a) == ChainsSeen(jobs, c, a);
  }

  /** The committed jobs are the arrivals at the recorded positions. */
  ghost predicate Positions(m: Machine, fates: Fates) {
    && |m.order| == |m.committed| && m.taken <= |m.arrived|
    && (forall i :: 0 <= i < |m.order| ==> m.order[i] < m.taken && m.committed[i] == m.arrived[m.order[i]])
    && (forall k :: k in m.order ==> Commits(fates(k)))
  }

  lemma EdgeIffCommitted(m: Machine, fates: Fates, a: Address, b: Address)
    requires Built(m) && Positions(m, fates)
    ensures (a, b) in m.graph.edges
       <==> b != NoAddress && exists k :: k in m.order && k < |m.arrived| && m.arrived[k].from == a && m.arrived[k].to == b
  {
    Conservation(m.applied, a, b);
    var ms := Moves(m.applied);
    if (a, b) in m.graph.edges {
      var i :| 0 <= i < |ms| && Pays(ms[i], a, b);
      assert m.order[i] in m.order && JobMoves(m.committed)[i] == ms[i];
    }
    if k :| k in m.order && k < |m.arrived| && m.arrived[k].from == a && m.arrived[k].to == b && b != NoAddress {
      var i :| 0 <= i < |m.order| && m.order[i] == k;
      assert Pays(JobMoves(m.committed)[i], a, b) && JobMoves(m.committed)[i] in ms;
    }
  }

  /** The degree read from the graph is that of the committed positions. */
  lemma DegreeIsRead(m: Machine, fates: Fates, a: Address)
    requires Built(m) && Positions(m, fates)
    ensures Centrality(m.graph, a) == CappedDegree(m.arrived, Elements(m.order), a)
  {
    ReplayIsSound(m.applied);
    assert m.graph == Replay(m.applied);
    hide Replay, BooksBalance, Positions, Built;
    NeighboursAreCommitted(m, fates, a);
    hide WellFormed, Next, Sources, Targets;
    DistinctSize(Next(m.graph.pred, a));
    DistinctSize(Next(m.graph.succ, a));
  }

  lemma NeighboursAreCommitted(m: Machine, fates: Fates, a: Address)
    requires Built(m) && Positions(m, fates) && WellFormed(m.graph)
    ensures var g, c := m.graph, Elements(m.order);
            && Distinct(Next(g.pred, a)) && Elements(Next(g.pred, a)) == Sources(m.arrived, c, a)
            && Distinct(Next(g.succ, a)) && Elements(Next(g.succ, a)) == Targets(m.arrived, c, a)
  {
    var g, c := m.graph, Elements(m.order);
    forall x
      ensures x in Next(g.pred, a) <==> x in Sources(m.arrived, c, a)
      ensures x in Next(g.succ, a) <==> x in Targets(m.arrived, c, a)
    {
      EdgeIffCommitted(m, fates, x, a);
      EdgeIffCommitted(m, fates, a, x);
    }
    hide Next, Sources, Targets, Distinct, Built, Positions;
  }

  lemma SightingAt(m: Machine, fates: Fates, i: nat)
    requires Positions(m, fates) && i < |m.order|
    ensures |Sightings(m.committed)| == |m.order| && m.order[i] < |m.arrived|
    ensures Sightings(m.committed)[i] == SightingOf(m.arrived[m.order[i]])
  {
  }

  lemma ChainsAreRead(m: Machine, fates: Fates, a: Address, name: string)
    requires Positions(m, fates)
    ensures (exists s :: s in Sightings(m.committed) && Involves(s, a) && s.chain == name)
       <==> name in ChainsSeen(m.arrived, Elements(m.order), a)
  {
    hide Involves, Positions, Sightings;
    var ss, c := Sightings(m.committed), Elements(m.order);
    if s :| s in ss && Involves(s, a) && s.chain == name {
      var i :| 0 <= i < |ss| && ss[i] == s;
      PositionsLength(m, fates);
      SightingAt(m, fates, i);
      assert m.order[i] in c;
    }
    if k :| k in c && k < |m.arrived| && Involves(SightingOf(m.arrived[k]), a) && m.arrived[k].chain == name {
      var i :| 0 <= i < |m.order| && m.order[i] == k;
      SightingAt(m, fates, i);
      assert ss[i] in ss;
    }
  }

  lemma PositionsLength(m: Machine, fates: Fates)
    requires Positions(m, fates)
    ensures |Sightings(m.committed)| == |m.order|
  {
  }

  /** The boost read from the index is that of the committed positions. */
  lemma BoostIsRead(m: Machine, fates: Fates, a: Address)
    requires Built(m) && Positions(m, fates)
    ensures RiskBoost(m.index, a) == SnapshotBoost(m.arrived, Elements(m.order), a)
  {
    var ss, c := Sightings(m.committed), Elements(m.order);
    assert m.index == ObservedAll(ss);
    PositionsLength(m, fates);
    hide UsesBridge, UsesAsset, Involves, Built, ObservedAll, ChainsSeen, Sightings, BridgeUsed, AssetUsed;
    IndexIsCensus(ss, a, "");
    UsesPositive(ss, a);
    forall i | 0 <= i < |ss|
      ensures m.order[i] < |m.arrived| && ss[i] == SightingOf(m.arrived[m.order[i]])
    {
      SightingAt(m, fates, i);
    }
    UsedIffSeen(m, fates, ss, a);
    forall name
      ensures name in SetOf(m.index.chains, a) <==> name in ChainsSeen(m.arrived, c, a)
    {
      IndexIsCensus(ss, a, name);
      ChainsAreRead(m, fates, a, name);
    }
    assert SetOf(m.index.chains, a) == ChainsSeen(m.arrived, c, a);
  }

  lemma UsedIffSeen(m: Machine, fates: Fates, ss: seq<Sighting>, a: Address)
    requires Positions(m, fates) && |ss| == |m.order|
    requires forall i :: 0 <= i < |ss| ==> ss[i] == SightingOf(m.arrived[m.order[i]])
    ensures (exists i :: 0 <= i < |ss| && UsesBridge(ss[i], a)) <==> BridgeUsed(m.arrived, Elements(m.order), a)
    ensures (exists i :: 0 <= i < |ss| && UsesAsset(ss[i], a)) <==> AssetUsed(m.arrived, Elements(m.order), a)
  {
    hide UsesBridge, UsesAsset;
    var c := Elements(m.order);
    forall k | k in c
      ensures exists i :: 0 <= i < |ss| && ss[i] == SightingOf(m.arrived[k])
    {
      var i :| 0 <= i < |m.order| && m.order[i] == k;
      assert ss[i] == SightingOf(m.arrived[k]);
    }
    forall i | 0 <= i < |ss|
      ensures m.order[i] in c && m.order[i] < |m.arrived|
    {
    }
  }

  // ---- what a worker can have seen ----

  /** The positions before `n` whose jobs reach the graph. */
  function Earlier(fates: Fates, n: nat): set<nat> {
    set k: nat | k < n && Commits(fates(k))
  }

  /** Job `n` read the state after exactly the jobs of `c` had committed: all of
      them arrived, and fewer earlier ones are missing than there are workers. */
  ghost predicate Snapshot(jobs: seq<Job>, fates: Fates, workers: nat, n: nat, c: set<nat>) {
    n in c && c <= Earlier(fates, |jobs|) && |Earlier(fates, n) - c| < workers
  }

  /** Some snapshot explains what was read for job `n`. */
  ghost predicate Explained(jobs: seq<Job>, fates: Fates, workers: nat, n: nat, centrality: real, boost: real) {
    n < |jobs|
    && exists c :: Snapshot(jobs, fates, workers, n, c)
                   && centrality == CappedDegree(jobs, c, jobs[n].from)
                   && boost == SnapshotBoost(jobs, c, jobs[n].from)
  }

  predicate Holds(v: Worker, k: nat) {
    (v.InTabular? || v.InGnn?) && v.n == k
  }

  /** Every job taken that is to commit has committed or is still held. */
  ghost predicate Covered(m: Machine, fates: Fates) {
    forall k :: 0 <= k < m.taken && Commits(fates(k)) ==>
      k in m.order || exists w :: 0 <= w < |m.workers| && Holds(m.workers[w], k)
  }

  ghost predicate WorkerExplained(v: Worker, m: Machine, fates: Fates) {
    v.InLive? ==> Explained(m.arrived, fates, |m.workers|, v.n, v.centrality, v.boost)
  }

  ghost predicate ScoreExplained(c: Scored, m: Machine, fates: Fates) {
    Explained(m.arrived, fates, |m.workers|, c.n, c.centrality, c.boost)
  }

  ghost predicate AllExplained(m: Machine, fates: Fates) {
    && (forall w :: 0 <= w < |m.workers| ==> WorkerExplained(m.workers[w], m, fates))
    && (forall i :: 0 <= i < |m.scored| ==> ScoreExplained(m.scored[i], m, fates))
  }

  ghost predicate Tracked(m: Machine, fates: Fates) {
    Positions(m, fates) && Covered(m, fates) && AllExplained(m, fates)
  }

  lemma ExplainedIsKept(jobs: seq<Job>, j: Job, fates: Fates, workers: nat, n: nat, centrality: real, boost: real)
    requires Explained(jobs, fates, workers, n, centrality, boost)
    ensures Explained(jobs + [j], fates, workers, n, centrality, boost)
  {
    hide CappedDegree, SnapshotBoost;
    var c :| Snapshot(jobs, fates, workers, n, c)
             && centrality == CappedDegree(jobs, c, jobs[n].from)
             && boost == SnapshotBoost(jobs, c, jobs[n].from);
    ReadingsAreLocal(jobs, jobs + [j], c, jobs[n].from);
    assert (jobs + [j])[n] == jobs[n];
    assert Snapshot(jobs + [j], fates, workers, n, c);
  }

  lemma PutTracked(m: Machine, fates: Fates, j: Job)
    requires Tracked(m, fates)
    ensures Tracked(Arrived(m, j), fates)
  {
    hide Explained;
    var m' := Arrived(m, j);
    forall w | 0 <= w < |m'.workers|
      ensures WorkerExplained(m'.workers[w], m', fates)
    {
      var v := m.workers[w];
      assert WorkerExplained(v, m, fates);
      if v.InLive? {
        ExplainedIsKept(m.arrived, j, fates, |m.workers|, v.n, v.centrality, v.boost);
      }
    }
    forall i | 0 <= i < |m'.scored|
      ensures ScoreExplained(m'.scored[i], m', fates)
    {
      var c := m.scored[i];
      assert ScoreExplained(c, m, fates);
      ExplainedIsKept(m.arrived, j, fates, |m.workers|, c.n, c.centrality, c.boost);
    }
  }

  /** A worker that lets go of no job that is still to commit keeps the account. */
  lemma CoveredAfter(m: Machine, m': Machine, fates: Fates, w: nat)
    requires Covered(m, fates) && w < |m.workers| && |m'.workers| == |m.workers|
    requires forall v :: 0 <= v < |m.workers| && v != w ==> m'.workers[v] == m.workers[v]
    requires forall k :: k in m.order ==> k in m'.order
    requires forall k: nat :: Holds(m.workers[w], k) && Commits(fates(k)) ==> k in m'.order || Holds(m'.workers[w], k)
    requires m'.taken == m.taken || (m'.taken == m.taken + 1 && Holds(m'.workers[w], m.taken))
    ensures Covered(m', fates)
  {
    hide Holds;
    forall k | 0 <= k < m'.taken && Commits(fates(k))
      ensures k in m'.order || exists v :: 0 <= v < |m'.workers| && Holds(m'.workers[v], k)
    {
      if k < m.taken && k !in m.order {
        var v :| 0 <= v < |m.workers| && Holds(m.workers[v], k);
        assert v != w ==> Holds(m'.workers[v], k);
      }
    }
  }

  lemma ExplainedAfter(m: Machine, m': Machine, fates: Fates, w: nat)
    requires AllExplained(m, fates) && w < |m.workers| && |m'.workers| == |m.workers|
    requires forall v :: 0 <= v < |m.workers| && v != w ==> m'.workers[v] == m.workers[v]
    requires m'.arrived == m.arrived && WorkerExplained(m'.workers[w], m', fates)
    requires m'.scored == m.scored
             || (|m'.scored| == |m.scored| + 1 && m'.scored[..|m.scored|] == m.scored
                 && ScoreExplained(m'.scored[|m.scored|], m', fates))
    ensures AllExplained(m', fates)
  {
    hide Explained;
    forall v | 0 <= v < |m'.workers|
      ensures WorkerExplained(m'.workers[v], m', fates)
    {
      assert WorkerExplained(m.workers[v], m, fates);
    }
    forall i | 0 <= i < |m'.scored|
      ensures ScoreExplained(m'.scored[i], m', fates)
    {
      if i < |m.scored| {
        assert m'.scored[i] == m.scored[i] && ScoreExplained(m.scored[i], m, fates);
      }
    }
  }

  lemma ImageSize(f: nat -> nat, s: set<nat>)
    ensures |set v | v in s :: f(v)| <= |s|
  {
    if v :| v in s {
      ImageSize(f, s - {v});
      assert (set u | u in s :: f(u)) == (set u | u in s - {v} :: f(u)) + {f(v)};
    } else {
      assert (set u | u in s :: f(u)) == {};
    }
  }

  function Below(n: nat): (r: set<nat>)
    ensures |r| == n && forall k: nat :: k in r <==> k < n
  {
    if n == 0 then {} else Below(n - 1) + {n - 1}
  }

  /** The job a worker is at, as a function of the worker's number. */
  function JobAt(ws: seq<Worker>): nat -> nat {
    (w: nat) => if w < |ws| && !ws[w].Idle? then ws[w].n else 0
  }

  /** When worker `w` commits, only the other workers can keep earlier jobs back. */
  lemma FewMissing(m: Machine, fates: Fates, w: nat)
    requires Covered(m, fates) && w < |m.workers| && m.workers[w].InGnn? && m.workers[w].n < m.taken
    ensures |Earlier(fates, m.workers[w].n) - (Elements(m.order) + {m.workers[w].n})| < |m.workers|
  {
    var n := m.workers[w].n;
    var missing := Earlier(fates, n) - (Elements(m.order) + {n});
    var f, others := JobAt(m.workers), Below(|m.workers|) - {w};
    ImageSize(f, others);
    var kept := set v | v in others :: f(v);
    forall k | k in missing
      ensures k in kept
    {
      var v := Keeper(m, fates, k, w);
      assert v in others && f(v) == k;
    }
    hide Covered, Earlier, Below, JobAt;
    SubsetSize(missing, kept);
  }

  /** An earlier job that has not committed is held by another worker. */
  lemma Keeper(m: Machine, fates: Fates, k: nat, w: nat) returns (v: nat)
    requires Covered(m, fates) && w < |m.workers| && m.workers[w].InGnn? && m.workers[w].n < m.taken
    requires k in Earlier(fates, m.workers[w].n) - (Elements(m.order) + {m.workers[w].n})
    ensures v in Below(|m.workers|) - {w} && JobAt(m.workers)(v) == k
  {
    assert k < m.taken && Commits(fates(k)) && k !in m.order && !Holds(m.workers[w], k);
    v :| 0 <= v < |m.workers| && Holds(m.workers[v], k);
  }

  /** What a commit reads is the state after the jobs committed so far and its own. */
  lemma CommitReads(m: Machine, fates: Fates, w: nat, now: real)
    requires Inv(m, fates) && Positions(m, fates)
    requires w < |m.workers| && m.workers[w].InGnn? && !fates(m.workers[w].n).GnnFails?
    ensures m.workers[w].n < m.taken <= |m.arrived| && m.workers[w].job == m.arrived[m.workers[w].n]
    ensures var v := m.workers[w];
            var m' := Commit(m, w, v.job, v.n, v.features, now);
            && Positions(m', fates) && Elements(m'.order) == Elements(m.order) + {v.n}
            && m'.workers[w].InLive? && m'.workers[w].n == v.n
            && m'.workers[w].centrality == CappedDegree(m.arrived, Elements(m'.order), v.job.from)
            && m'.workers[w].boost == SnapshotBoost(m.arrived, Elements(m'.order), v.job.from)
  {
    var v := m.workers[w];
    CommitPositions(m, fates, w, now);
    CommitBuilds(m, w, v.job, v.n, v.features, now);
    var m' := Commit(m, w, v.job, v.n, v.features, now);
    hide Built, Inv, Positions, Added, Observed, Centrality, RiskBoost, CappedDegree, SnapshotBoost;
    DegreeIsRead(m', fates, v.job.from);
    BoostIsRead(m', fates, v.job.from);
  }

  lemma CommitPositions(m: Machine, fates: Fates, w: nat, now: real)
    requires Inv(m, fates) && Positions(m, fates)
    requires w < |m.workers| && m.workers[w].InGnn? && !fates(m.workers[w].n).GnnFails?
    ensures Built(m) && m.workers[w].n < m.taken <= |m.arrived| && m.workers[w].job == m.arrived[m.workers[w].n]
    ensures var v := m.workers[w];
            var m' := Commit(m, w, v.job, v.n, v.features, now);
            Positions(m', fates) && Elements(m'.order) == Elements(m.order) + {v.n}
  {
    HeldIsSound(m, fates, w);
    var v := m.workers[w];
    assert Built(m) && WorkerSound(v, m.arrived, m.taken, fates);
    hide FeaturesInOrder, Added, Observed, Centrality, RiskBoost, Inv, Built, Positions;
    var m' := Commit(m, w, v.job, v.n, v.features, now);
    OnePosition(m, m', fates, v.n);
  }

  lemma OnePosition(m: Machine, m': Machine, fates: Fates, n: nat)
    requires Positions(m, fates) && n < m.taken <= |m.arrived| && Commits(fates(n))
    requires m'.arrived == m.arrived && m'.taken == m.taken
    requires m'.order == m.order + [n] && m'.committed == m.committed + [m.arrived[n]]
    ensures Positions(m', fates) && Elements(m'.order) == Elements(m.order) + {n}
  {
  }

  // ---- every run is tracked ----

  /** A step that changes one worker and no commit. */
  lemma MoveTracked(m: Machine, m': Machine, fates: Fates, w: nat)
    requires Tracked(m, fates) && w < |m.workers| && |m'.workers| == |m.workers|
    requires m'.arrived == m.arrived && m'.committed == m.committed && m'.order == m.order
    requires m.taken <= m'.taken <= |m.arrived|
    requires forall v :: 0 <= v < |m.workers| && v != w ==> m'.workers[v] == m.workers[v]
    requires forall k: nat :: Holds(m.workers[w], k) && Commits(fates(k)) ==> Holds(m'.workers[w], k)
    requires m'.taken == m.taken || (m'.taken == m.taken + 1 && Holds(m'.workers[w], m.taken))
    requires WorkerExplained(m'.workers[w], m', fates)
    requires m'.scored == m.scored
             || (|m'.scored| == |m.scored| + 1 && m'.scored[..|m.scored|] == m.scored
                 && ScoreExplained(m'.scored[|m.scored|], m', fates))
    ensures Tracked(m', fates)
  {
    CoveredAfter(m, m', fates, w);
    ExplainedAfter(m, m', fates, w);
    hide Covered, AllExplained, WorkerExplained, ScoreExplained, Holds;
  }

  lemma CommitTracked(m: Machine, fates: Fates, w: nat, now: real)
    requires Inv(m, fates) && Tracked(m, fates)
    requires w < |m.workers| && m.workers[w].InGnn? && !fates(m.workers[w].n).GnnFails?
    ensures var v := m.workers[w];
            Tracked(Commit(m, w, v.job, v.n, v.features, now), fates)
  {
    var v := m.workers[w];
    var m' := Commit(m, w, v.job, v.n, v.features, now);
    CommitReads(m, fates, w, now);
    FewMissing(m, fates, w);
    hide Inv, CappedDegree, SnapshotBoost, Added, Observed, Centrality, RiskBoost, Positions;
    CommitIsSnapshot(m', fates, v.n);
    assert WorkerExplained(m'.workers[w], m', fates);
    hide WorkerExplained, ScoreExplained;
    CoveredAfter(m, m', fates, w);
    ExplainedAfter(m, m', fates, w);
  }

  lemma CommitIsSnapshot(m: Machine, fates: Fates, n: nat)
    requires Positions(m, fates) && n in m.order
    requires |Earlier(fates, n) - Elements(m.order)| < |m.workers|
    ensures Snapshot(m.arrived, fates, |m.workers|, n, Elements(m.order))
  {
  }

  lemma StepTracked(m: Machine, fates: Fates, a: Action)
    requires Inv(m, fates) && Tracked(m, fates)
    ensures Tracked(Step(m, fates, a), fates)
  {
    match a
    case Put(j) =>
      hide Tracked;
      PutTracked(m, fates, j);
    case Resume(w, now) =>
      if w < |m.workers| {
        var v := m.workers[w];
        hide Tracked;
        if v.InGnn? && !fates(v.n).GnnFails? {
          hide Inv;
          CommitTracked(m, fates, w, now);
        } else if v.Idle? && m.queue != [] {
          assert m.taken < |m.arrived|;
          hide Inv;
          TakeTracked(m, fates, w);
        } else if !v.Idle? {
          hide Inv;
          ClockIrrelevant(m, fates, w, now);
          hide Step;
          if v.InLive? {
            ReturnTracked(m, fates, w);
          } else {
            AdvanceTracked(m, fates, w);
          }
        }
      }
  }

  lemma AdvanceTracked(m: Machine, fates: Fates, w: nat)
    requires Tracked(m, fates) && w < |m.workers|
    requires m.workers[w].InTabular? || (m.workers[w].InGnn? && fates(m.workers[w].n).GnnFails?)
    ensures Tracked(Step(m, fates, Resume(w, 0.0)), fates)
  {
    assert m.taken <= |m.arrived|;
    hide Tracked, Explained, Take, Commit;
    MoveTracked(m, Step(m, fates, Resume(w, 0.0)), fates, w);
  }

  lemma TakeTracked(m: Machine, fates: Fates, w: nat)
    requires Tracked(m, fates) && w < |m.workers| && m.workers[w].Idle? && m.queue != [] && m.taken < |m.arrived|
    ensures Tracked(Take(m, w), fates)
  {
    hide Tracked, Recorded, ExtractFeatures, Explained;
    MoveTracked(m, Take(m, w), fates, w);
  }

  lemma ReturnTracked(m: Machine, fates: Fates, w: nat)
    requires Tracked(m, fates) && w < |m.workers| && m.workers[w].InLive?
    ensures Tracked(Step(m, fates, Resume(w, 0.0)), fates)
  {
    assert WorkerExplained(m.workers[w], m, fates) && m.taken <= |m.arrived|;
    LiveTurn(m, fates, w);
    hide Tracked, Explained, Step;
    MoveTracked(m, Step(m, fates, Resume(w, 0.0)), fates, w);
  }

  lemma StartTracked(workers: nat, fates: Fates)
    ensures Tracked(Start(workers), fates)
  {
  }

  lemma {:induction false} RunTracked(workers: nat, fates: Fates, schedule: seq<Action>)
    ensures Inv(Run(workers, fates, schedule), fates) && Tracked(Run(workers, fates, schedule), fates)
    ensures |Run(workers, fates, schedule).workers| == workers
  {
    RunKeeps(workers, fates, schedule);
    hide Inv, Tracked;
    if schedule == [] {
      StartTracked(workers, fates);
    } else {
      var m, a := Run(workers, fates, schedule[..|schedule| - 1]), schedule[|schedule| - 1];
      RunTracked(workers, fates, schedule[..|schedule| - 1]);
      StepTracked(m, fates, a);
      SameWorkers(m, fates, a);
    }
  }

  lemma SameWorkers(m: Machine, fates: Fates, a: Action)
    ensures |Step(m, fates, a).workers| == |m.workers|
  {
  }

  // ---- what every run reports ----

  /** The run handles `jobs` to the end and reports `c` for job `n`. */
  ghost predicate Reports(workers: nat, fates: Fates, schedule: seq<Action>, jobs: seq<Job>, n: nat, c: Scored) {
    var m := Run(workers, fates, schedule);
    Quiescent(m) && m.arrived == jobs && c in m.scored && c.n == n
  }

  /** In every run, what is reported for a job is the capped degree and the boost
      over the jobs that had committed by then; it lies between the values for
      the job alone and for all committing arrivals. */
  lemma ReportIsASnapshot(workers: nat, fates: Fates, schedule: seq<Action>, jobs: seq<Job>, n: nat, c: Scored)
    returns (seen: set<nat>)
    requires Reports(workers, fates, schedule, jobs, n, c)
    ensures n < |jobs| && Snapshot(jobs, fates, workers, n, seen)
    ensures c.centrality == CappedDegree(jobs, seen, jobs[n].from)
    ensures c.boost == SnapshotBoost(jobs, seen, jobs[n].from)
    ensures var a, all := jobs[n].from, Earlier(fates, |jobs|);
            && CappedDegree(jobs, {n}, a) <= c.centrality <= CappedDegree(jobs, all, a)
            && SnapshotBoost(jobs, {n}, a) <= c.boost <= SnapshotBoost(jobs, all, a)
  {
    RunTracked(workers, fates, schedule);
    hide CappedDegree, SnapshotBoost, Run, Inv, Positions, Covered, Explained, Earlier;
    ReportIsExplained(Run(workers, fates, schedule), fates, c);
    seen := SnapshotOf(jobs, fates, workers, n, c.centrality, c.boost);
    ReadingsAreMonotone(jobs, {n}, seen, jobs[n].from);
    ReadingsAreMonotone(jobs, seen, Earlier(fates, |jobs|), jobs[n].from);
  }

  lemma ReportIsExplained(m: Machine, fates: Fates, c: Scored)
    requires AllExplained(m, fates) && c in m.scored
    ensures ScoreExplained(c, m, fates)
  {
    hide ScoreExplained, WorkerExplained;
    var i :| 0 <= i < |m.scored| && m.scored[i] == c;
    assert ScoreExplained(m.scored[i], m, fates);
  }

  lemma SnapshotOf(jobs: seq<Job>, fates: Fates, workers: nat, n: nat, centrality: real, boost: real) returns (seen: set<nat>)
    requires Explained(jobs, fates, workers, n, centrality, boost)
    ensures n < |jobs| && Snapshot(jobs, fates, workers, n, seen)
    ensures centrality == CappedDegree(jobs, seen, jobs[n].from) && boost == SnapshotBoost(jobs, seen, jobs[n].from)
  {
    hide CappedDegree, SnapshotBoost, Snapshot;
    seen :| Snapshot(jobs, fates, workers, n, seen)
            && centrality == CappedDegree(jobs, seen, jobs[n].from)
            && boost == SnapshotBoost(jobs, seen, jobs[n].from);
  }
}
