/** Runs of the scoring workers that realise the extreme snapshots, and with
    them the exact condition under which a report is the same under every
    schedule. */
module Schedules {
  import opened Common
  import opened DiGraphs
  import opened CrossChain
  import opened Velocity
  import opened Pipeline
  import opened Snapshots

  // ---- single turns of a worker ----

  /** The machine after the actions `t`, first to last. */
  function Resumed(m: Machine, fates: Fates, t: seq<Action>): Machine {
    if t == [] then m else Step(Resumed(m, fates, t[..|t| - 1]), fates, t[|t| - 1])
  }

  lemma {:induction false} ResumedFromStart(workers: nat, fates: Fates, t: seq<Action>)
    ensures Run(workers, fates, t) == Resumed(Start(workers), fates, t)
  {
    hide Step, Start;
    if t != [] {
      ResumedFromStart(workers, fates, t[..|t| - 1]);
    }
  }

  lemma {:induction false} ResumedAppend(m: Machine, fates: Fates, s: seq<Action>, t: seq<Action>)
    ensures Resumed(m, fates, s + t) == Resumed(Resumed(m, fates, s), fates, t)
  {
    hide Step;
    if t == [] {
      assert s + t == s;
    } else {
      ResumedAppend(m, fates, s, t[..|t| - 1]);
      assert (s + t)[..|s + t| - 1] == s + t[..|t| - 1];
    }
  }

  /** `k` steps in a row of worker `w`. */
  function Turns(w: nat, k: nat): seq<Action> {
    seq(k, _ => Resume(w, 0.0))
  }

  lemma TurnsStep(m: Machine, fates: Fates, w: nat, k: nat)
    requires k > 0
    ensures Resumed(m, fates, Turns(w, k)) == Step(Resumed(m, fates, Turns(w, k - 1)), fates, Resume(w, 0.0))
    ensures Resumed(m, fates, Turns(w, 0)) == m
  {
    assert Turns(w, k)[..k - 1] == Turns(w, k - 1);
  }

  lemma TakeTurn(m: Machine, fates: Fates, w: nat)
    requires w < |m.workers| && m.workers[w].Idle? && m.queue != []
    ensures Resumed(m, fates, Turns(w, 1)) == Take(m, w)
  {
    TurnsStep(m, fates, w, 1);
  }

  lemma GnnTurn(m: Machine, fates: Fates, w: nat)
    requires w < |m.workers| && m.workers[w].InTabular? && !fates(m.workers[w].n).TabularFails?
    ensures var v := m.workers[w];
            Step(m, fates, Resume(w, 0.0)) == m.(workers := m.workers[w := InGnn(v.n, v.job, v.features)])
  {
  }

  lemma DropTurn(m: Machine, fates: Fates, w: nat)
    requires w < |m.workers|
    requires (m.workers[w].InTabular? && fates(m.workers[w].n).TabularFails?)
             || (m.workers[w].InGnn? && fates(m.workers[w].n).GnnFails?)
    ensures Step(m, fates, Resume(w, 0.0)) == m.(workers := m.workers[w := Idle])
  {
  }

  lemma CommitTurn(m: Machine, fates: Fates, w: nat)
    requires w < |m.workers| && m.workers[w].InGnn? && !fates(m.workers[w].n).GnnFails?
    ensures var v := m.workers[w];
            Step(m, fates, Resume(w, 0.0)) == Commit(m, w, v.job, v.n, v.features, 0.0)
  {
    hide Commit;
  }

  // ---- runs that realise the extremes ----

  /** The machine reported for job `n` what holds after the jobs of `c`. */
  ghost predicate ScoredFor(m: Machine, n: nat, c: set<nat>) {
    && n < |m.arrived| && Within(c, |m.arrived|)
    && exists i :: 0 <= i < |m.scored| && ScoreIs(m.scored[i], m.arrived, n, c)
  }

  ghost predicate ScoreIs(x: Scored, jobs: seq<Job>, n: nat, c: set<nat>)
    requires n < |jobs|
  {
    x.n == n && x.centrality == CappedDegree(jobs, c, jobs[n].from) && x.boost == SnapshotBoost(jobs, c, jobs[n].from)
  }

  lemma StaysScored(m: Machine, m': Machine, n: nat, c: set<nat>)
    requires ScoredFor(m, n, c) && m.scored <= m'.scored && m.arrived <= m'.arrived
    ensures ScoredFor(m', n, c)
  {
    hide CappedDegree, SnapshotBoost;
    var i :| 0 <= i < |m.scored| && ScoreIs(m.scored[i], m.arrived, n, c);
    assert m'.scored[i] == m.scored[i] && m'.arrived[n] == m.arrived[n];
    ReadingsAreLocal(m.arrived, m'.arrived, c, m.arrived[n].from);
    assert ScoreIs(m'.scored[i], m'.arrived, n, c);
  }

  /** Scores and arrivals are never taken back. */
  lemma {:induction false} ScoresGrow(m: Machine, fates: Fates, t: seq<Action>)
    ensures m.scored <= Resumed(m, fates, t).scored && m.arrived <= Resumed(m, fates, t).arrived
  {
    hide Step;
    if t != [] {
      ScoresGrow(m, fates, t[..|t| - 1]);
      StepGrows(Resumed(m, fates, t[..|t| - 1]), fates, t[|t| - 1]);
    }
  }

  lemma StepGrows(m: Machine, fates: Fates, a: Action)
    ensures m.scored <= Step(m, fates, a).scored && m.arrived <= Step(m, fates, a).arrived
  {
    hide Added, Observed, Centrality, RiskBoost, Recorded, ExtractFeatures;
  }

  lemma {:induction false} ResumedTracked(m: Machine, fates: Fates, t: seq<Action>)
    requires Inv(m, fates) && Tracked(m, fates)
    ensures var m' := Resumed(m, fates, t);
            Inv(m', fates) && Tracked(m', fates) && |m'.workers| == |m.workers|
  {
    hide Inv, Tracked, Step;
    if t != [] {
      var front := Resumed(m, fates, t[..|t| - 1]);
      ResumedTracked(m, fates, t[..|t| - 1]);
      StepKeeps(front, fates, t[|t| - 1]);
      StepTracked(front, fates, t[|t| - 1]);
      SameWorkers(front, fates, t[|t| - 1]);
    }
  }

  lemma RunThen(workers: nat, fates: Fates, s: seq<Action>, t: seq<Action>)
    ensures Run(workers, fates, s + t) == Resumed(Run(workers, fates, s), fates, t)
  {
    hide Run, Resumed, Start;
    ResumedFromStart(workers, fates, s);
    ResumedFromStart(workers, fates, s + t);
    ResumedAppend(Start(workers), fates, s, t);
  }

  /** Worker `w` has finished the job it held, and nothing else happened. */
  ghost predicate Finished(m: Machine, after: Machine, fates: Fates, w: nat)
    requires w < |m.workers| && !m.workers[w].Idle?
  {
    var n := m.workers[w].n;
    && after.workers == m.workers[w := Idle]
    && after.queue == m.queue && after.arrived == m.arrived && after.taken == m.taken
    && Elements(after.order) == Elements(m.order) + (if Commits(fates(n)) then {n} else {})
    && (fates(n).Succeeds? ==> ScoredFor(after, n, Elements(m.order) + {n}))
  }

  /** A worker with nothing to take does nothing. */
  lemma IdleTurn(m: Machine, fates: Fates, w: nat)
    requires w < |m.workers| && m.workers[w].Idle? && m.queue == []
    ensures Step(m, fates, Resume(w, 0.0)) == m
  {
  }

  lemma ThreeTurns(m: Machine, fates: Fates, w: nat)
    ensures var r := Resume(w, 0.0);
            Resumed(m, fates, Turns(w, 3)) == Step(Step(Step(m, fates, r), fates, r), fates, r)
  {
    hide Step, Resumed;
    TurnsStep(m, fates, w, 1);
    TurnsStep(m, fates, w, 2);
    TurnsStep(m, fates, w, 3);
  }

  lemma DropFinishes(m: Machine, m1: Machine, fates: Fates, w: nat)
    requires w < |m.workers| && !m.workers[w].Idle? && !Commits(fates(m.workers[w].n))
    requires m1 == m.(workers := m.workers[w := Idle])
    ensures Finished(m, m1, fates, w)
  {
    hide ScoredFor;
  }

  /** Three undisturbed turns finish a job, whatever becomes of it. */
  lemma FinishTurns(m: Machine, fates: Fates, w: nat)
    requires Inv(m, fates) && Tracked(m, fates) && w < |m.workers| && m.workers[w].InTabular? && m.queue == []
    ensures Finished(m, Resumed(m, fates, Turns(w, 3)), fates, w)
  {
    hide Resumed, Turns, Step, Inv, Tracked, Finished;
    ThreeTurns(m, fates, w);
    if Commits(fates(m.workers[w].n)) {
      CommitFinishes(m, fates, w);
    } else if fates(m.workers[w].n).TabularFails? {
      TabularFailureFinishes(m, fates, w);
    } else {
      GnnFailureFinishes(m, fates, w);
    }
  }

  lemma TabularFailureFinishes(m: Machine, fates: Fates, w: nat)
    requires w < |m.workers| && m.workers[w].InTabular? && m.queue == [] && fates(m.workers[w].n).TabularFails?
    ensures var r := Resume(w, 0.0);
            Finished(m, Step(Step(Step(m, fates, r), fates, r), fates, r), fates, w)
  {
    hide Step, Finished;
    var dropped := m.(workers := m.workers[w := Idle]);
    DropTurn(m, fates, w);
    IdleTurn(dropped, fates, w);
    DropFinishes(m, dropped, fates, w);
  }

  lemma GnnFailureFinishes(m: Machine, fates: Fates, w: nat)
    requires w < |m.workers| && m.workers[w].InTabular? && m.queue == [] && fates(m.workers[w].n).GnnFails?
    ensures var r := Resume(w, 0.0);
            Finished(m, Step(Step(Step(m, fates, r), fates, r), fates, r), fates, w)
  {
    hide Step, Finished;
    var v, dropped := m.workers[w], m.(workers := m.workers[w := Idle]);
    var m1 := m.(workers := m.workers[w := InGnn(v.n, v.job, v.features)]);
    GnnTurn(m, fates, w);
    DropTurn(m1, fates, w);
    assert m1.workers[w := Idle] == m.workers[w := Idle];
    IdleTurn(dropped, fates, w);
    DropFinishes(m, dropped, fates, w);
  }

  lemma CommitFinishes(m: Machine, fates: Fates, w: nat)
    requires Inv(m, fates) && Tracked(m, fates) && w < |m.workers| && m.workers[w].InTabular?
    requires Commits(fates(m.workers[w].n))
    ensures var r := Resume(w, 0.0);
            Finished(m, Step(Step(Step(m, fates, r), fates, r), fates, r), fates, w)
  {
    hide Step, Inv, Tracked, Finished;
    var v := m.workers[w];
    GnnTurn(m, fates, w);
    var m1 := m.(workers := m.workers[w := InGnn(v.n, v.job, v.features)]);
    StepKeeps(m, fates, Resume(w, 0.0));
    StepTracked(m, fates, Resume(w, 0.0));
    CommitTurn(m1, fates, w);
    FinishCommit(m, m1, fates, w);
  }

  lemma FinishCommit(m: Machine, m1: Machine, fates: Fates, w: nat)
    requires Inv(m1, fates) && Tracked(m1, fates) && w < |m.workers| && m.workers[w].InTabular?
    requires var v := m.workers[w];
             Commits(fates(v.n)) && m1 == m.(workers := m.workers[w := InGnn(v.n, v.job, v.features)])
    ensures var v := m.workers[w];
            Finished(m, Step(Commit(m1, w, v.job, v.n, v.features, 0.0), fates, Resume(w, 0.0)), fates, w)
  {
    hide Inv, Step, Commit, CappedDegree, SnapshotBoost, Finished, Positions, Covered, AllExplained;
    var v := m.workers[w];
    var m2 := Commit(m1, w, v.job, v.n, v.features, 0.0);
    CommitReads(m1, fates, w, 0.0);
    CommitFields(m1, fates, w);
    LiveTurn(m2, fates, w);
    LiveFinishes(m, m2, Step(m2, fates, Resume(w, 0.0)), fates, w);
  }

  lemma LiveFinishes(m: Machine, m2: Machine, after: Machine, fates: Fates, w: nat)
    requires w < |m.workers| == |m2.workers| && m.workers[w].InTabular? && m2.workers[w].InLive?
    requires m2.workers == m.workers[w := m2.workers[w]] && m2.workers[w].n == m.workers[w].n < |m.arrived|
    requires m2.queue == m.queue && m2.arrived == m.arrived && m2.taken == m.taken && m2.scored == m.scored
    requires Commits(fates(m.workers[w].n)) && Elements(m2.order) == Elements(m.order) + {m.workers[w].n}
    requires Within(Elements(m2.order), |m.arrived|)
    requires var v, a := m2.workers[w], m.arrived[m.workers[w].n].from;
             && v.centrality == CappedDegree(m.arrived, Elements(m2.order), a)
             && v.boost == SnapshotBoost(m.arrived, Elements(m2.order), a)
             && after == m2.(workers := m2.workers[w := Idle],
                             scored := if fates(v.n).LiveFails? then m2.scored
                                       else m2.scored + [Scored(v.n, v.features, v.centrality, v.boost)])
    ensures Finished(m, after, fates, w)
  {
    hide CappedDegree, SnapshotBoost, ScoredFor;
    var v := m2.workers[w];
    assert after.workers == m.workers[w := Idle];
    if fates(v.n).Succeeds? {
      LastIsScored(m, after, Scored(v.n, v.features, v.centrality, v.boost), Elements(m2.order));
    }
  }

  /** What a commit leaves alone. */
  lemma CommitFields(m: Machine, fates: Fates, w: nat)
    requires Positions(m, fates) && w < |m.workers| && m.workers[w].InGnn? && m.workers[w].n < m.taken
    ensures var v := m.workers[w];
            var m' := Commit(m, w, v.job, v.n, v.features, 0.0);
            && m'.queue == m.queue && m'.arrived == m.arrived && m'.taken == m.taken && m'.scored == m.scored
            && |m'.workers| == |m.workers| && m'.workers == m.workers[w := m'.workers[w]]
            && m'.workers[w].InLive? && m'.workers[w].features == v.features
    ensures Within(Elements(m.order) + {m.workers[w].n}, |m.arrived|)
  {
    hide Added, Observed, Centrality, RiskBoost;
  }

  lemma LastIsScored(m: Machine, after: Machine, x: Scored, c: set<nat>)
    requires after.scored == m.scored + [x] && after.arrived == m.arrived && x.n < |m.arrived|
    requires ScoreIs(x, m.arrived, x.n, c) && Within(c, |m.arrived|)
    ensures ScoredFor(after, x.n, c)
  {
    hide ScoreIs;
    assert after.scored[|m.scored|] == x;
  }

  /** How many of the jobs in `held` are among the first `k`. */
  function HeldBefore(held: set<nat>, k: nat): nat {
    |held * Below(k)|
  }

  lemma HeldStep(held: set<nat>, k: nat)
    ensures HeldBefore(held, k + 1) == HeldBefore(held, k) + (if k in held then 1 else 0)
    ensures HeldBefore(held, k + 1) <= |held|
  {
    var before, after := held * Below(k), held * Below(k + 1);
    hide Below;
    SubsetSize(after, held);
    if k in held {
      assert after == before + {k};
    } else {
      assert after == before;
    }
  }

  /** The job at `k` arrives.  One to be held is taken by a worker of its own and
      left in its first call; worker 0 handles any other. */
  function Serve(jobs: seq<Job>, held: set<nat>, k: nat): seq<Action>
    requires k < |jobs|
  {
    [Put(jobs[k])] + (if k in held then Turns(1 + HeldBefore(held, k), 1) else Turns(0, 1) + Turns(0, 3))
  }

  function Holding(jobs: seq<Job>, held: set<nat>, k: nat): seq<Action>
    requires k <= |jobs|
  {
    if k == 0 then [] else Holding(jobs, held, k - 1) + Serve(jobs, held, k - 1)
  }

  /** Where that schedule stands after `k` jobs: the first workers but worker 0
      hold the held jobs among them, everybody else is idle. */
  ghost predicate Parked(m: Machine, jobs: seq<Job>, fates: Fates, held: set<nat>, k: nat)
    requires k <= |jobs|
  {
    && m.arrived == jobs[..k] && m.taken == k && m.queue == [] && |held| < |m.workers|
    && Elements(m.order) == Earlier(fates, k) - held
    && AllParked(m.workers, held, k)
  }

  ghost predicate AllParked(ws: seq<Worker>, held: set<nat>, k: nat) {
    forall w :: 0 <= w < |ws| ==> WorkerParked(ws[w], w, held, k)
  }

  ghost predicate WorkerParked(v: Worker, w: nat, held: set<nat>, k: nat) {
    if 1 <= w <= HeldBefore(held, k) then v.InTabular? && v.n in held && v.n < k else v.Idle?
  }

  lemma PutTurn(m: Machine, fates: Fates, j: Job, t: seq<Action>)
    requires m.queue == []
    ensures Resumed(m, fates, [Put(j)] + t) == Resumed(Arrived(m, j), fates, t)
  {
    ResumedAppend(m, fates, [Put(j)], t);
    assert [Put(j)][..0] == [];
    assert Resumed(m, fates, [Put(j)]) == Step(m, fates, Put(j));
    hide Step, Resumed;
  }

  /** A job that arrives while the queue is empty is taken by worker `w`. */
  lemma ArriveAndTake(m: Machine, fates: Fates, j: Job, w: nat) returns (m': Machine)
    requires Inv(m, fates) && Tracked(m, fates) && m.queue == [] && w < |m.workers| && m.workers[w].Idle?
    ensures m' == Resumed(Arrived(m, j), fates, Turns(w, 1))
    ensures Inv(m', fates) && Tracked(m', fates)
    ensures m'.queue == [] && m'.arrived == m.arrived + [j] && m'.taken == m.taken + 1 && m'.order == m.order
    ensures |m'.workers| == |m.workers| && m'.workers == m.workers[w := m'.workers[w]]
    ensures m'.workers[w].InTabular? && m'.workers[w].n == m.taken
  {
    var arrived, t := Arrived(m, j), Turns(w, 1);
    TakenFields(m, j, w);
    TakeTurn(arrived, fates, w);
    ArrivalTracked(m, fates, j, t);
    hide *;
    m' := Resumed(arrived, fates, t);
  }

  lemma ArrivalTracked(m: Machine, fates: Fates, j: Job, t: seq<Action>)
    requires Inv(m, fates) && Tracked(m, fates) && m.queue == []
    ensures Inv(Resumed(Arrived(m, j), fates, t), fates) && Tracked(Resumed(Arrived(m, j), fates, t), fates)
  {
    hide *;
    ResumedTracked(m, fates, [Put(j)] + t);
    PutTurn(m, fates, j, t);
  }

  lemma TakenFields(m: Machine, j: Job, w: nat)
    requires m.queue == [] && w < |m.workers|
    ensures Arrived(m, j).queue != [] && Arrived(m, j).workers == m.workers
    ensures var m' := Take(Arrived(m, j), w);
            && m'.queue == [] && m'.arrived == m.arrived + [j] && m'.taken == m.taken + 1 && m'.order == m.order
            && |m'.workers| == |m.workers| && m'.workers == m.workers[w := m'.workers[w]]
            && m'.workers[w].InTabular? && m'.workers[w].n == m.taken
  {
    hide Recorded, ExtractFeatures;
  }

  /** The machine after one more job, kept back by `w` or handled by worker 0. */
  lemma ParkedNext(m: Machine, m': Machine, jobs: seq<Job>, fates: Fates, held: set<nat>, k: nat, w: nat)
    requires k < |jobs| && Parked(m, jobs, fates, held, k) && w < |m.workers|
    requires w == if k in held then 1 + HeldBefore(held, k) else 0
    requires m'.arrived == m.arrived + [jobs[k]] && m'.taken == k + 1 && m'.queue == []
    requires |m'.workers| == |m.workers| && m'.workers == m.workers[w := m'.workers[w]]
    requires if k in held then m'.workers[w].InTabular? && m'.workers[w].n == k else m'.workers[w].Idle?
    requires Elements(m'.order)
          == Elements(m.order) + (if k !in held && Commits(fates(k)) then {k} else {})
    ensures Parked(m', jobs, fates, held, k + 1)
  {
    assert jobs[..k] + [jobs[k]] == jobs[..k + 1];
    EarlierNext(fates, held, k);
    AllParkedNext(m.workers, m'.workers, held, k, w);
    hide HeldBefore, Earlier, AllParked;
  }

  lemma EarlierNext(fates: Fates, held: set<nat>, k: nat)
    ensures Earlier(fates, k + 1) - held
         == (Earlier(fates, k) - held) + (if k !in held && Commits(fates(k)) then {k} else {})
  {
  }

  lemma AllParkedNext(ws: seq<Worker>, ws': seq<Worker>, held: set<nat>, k: nat, w: nat)
    requires AllParked(ws, held, k) && w < |ws| == |ws'| && ws' == ws[w := ws'[w]]
    requires w == if k in held then 1 + HeldBefore(held, k) else 0
    requires if k in held then ws'[w].InTabular? && ws'[w].n == k else ws'[w].Idle?
    ensures AllParked(ws', held, k + 1)
  {
    HeldStep(held, k);
    hide HeldBefore;
    forall v | 0 <= v < |ws'|
      ensures WorkerParked(ws'[v], v, held, k + 1)
    {
      assert WorkerParked(ws[v], v, held, k);
    }
  }

  lemma ServeHeld(m: Machine, jobs: seq<Job>, fates: Fates, held: set<nat>, k: nat)
    requires Inv(m, fates) && Tracked(m, fates) && k < |jobs| && k in held && Parked(m, jobs, fates, held, k)
    ensures Parked(Resumed(m, fates, Serve(jobs, held, k)), jobs, fates, held, k + 1)
  {
    var w := 1 + HeldBefore(held, k);
    HeldStep(held, k);
    assert WorkerParked(m.workers[w], w, held, k);
    hide Inv, Tracked, Resumed, Turns, HeldBefore;
    PutTurn(m, fates, jobs[k], Turns(w, 1));
    var m' := ArriveAndTake(m, fates, jobs[k], w);
    ParkedNext(m, m', jobs, fates, held, k, w);
  }

  lemma ServeFree(m: Machine, jobs: seq<Job>, fates: Fates, held: set<nat>, k: nat)
    requires Inv(m, fates) && Tracked(m, fates) && k < |jobs| && k !in held && Parked(m, jobs, fates, held, k)
    ensures Parked(Resumed(m, fates, Serve(jobs, held, k)), jobs, fates, held, k + 1)
    ensures fates(k).Succeeds? ==> ScoredFor(Resumed(m, fates, Serve(jobs, held, k)), k, Earlier(fates, k) - held + {k})
  {
    assert WorkerParked(m.workers[0], 0, held, k);
    assert m.taken == k && m.queue == [] && Elements(m.order) == Earlier(fates, k) - held;
    PutTurn(m, fates, jobs[k], Turns(0, 1) + Turns(0, 3));
    ResumedAppend(Arrived(m, jobs[k]), fates, Turns(0, 1), Turns(0, 3));
    var m1 := ArriveAndTake(m, fates, jobs[k], 0);
    hide Inv, Tracked, Resumed, Turns, HeldBefore, ScoredFor, Parked, Earlier, Arrived;
    FinishTurns(m1, fates, 0);
    FreeIsServed(m, m1, Resumed(m1, fates, Turns(0, 3)), jobs, fates, held, k);
  }

  lemma FreeIsServed(m: Machine, m1: Machine, m2: Machine, jobs: seq<Job>, fates: Fates, held: set<nat>, k: nat)
    requires k < |jobs| && k !in held && Parked(m, jobs, fates, held, k)
    requires m1.queue == [] && m1.arrived == m.arrived + [jobs[k]] && m1.taken == k + 1 && m1.order == m.order
    requires |m.workers| > 0 && |m1.workers| == |m.workers| && m1.workers == m.workers[0 := m1.workers[0]]
    requires m1.workers[0].InTabular? && m1.workers[0].n == k && Finished(m1, m2, fates, 0)
    ensures Parked(m2, jobs, fates, held, k + 1)
  {
    hide Parked, ScoredFor;
    assert m2.workers == m.workers[0 := Idle];
    ParkedNext(m, m2, jobs, fates, held, k, 0);
  }

  /** Each job handled so far has seen the earlier ones that were not kept back. */
  ghost predicate ScoredSoFar(m: Machine, fates: Fates, held: set<nat>, k: nat) {
    forall n :: 0 <= n < k && n !in held && fates(n).Succeeds? ==> ScoredFor(m, n, Earlier(fates, n) - held + {n})
  }

  lemma ScoredSoFarNext(m: Machine, m': Machine, fates: Fates, held: set<nat>, k: nat)
    requires ScoredSoFar(m, fates, held, k) && m.scored <= m'.scored && m.arrived <= m'.arrived
    requires k !in held && fates(k).Succeeds? ==> ScoredFor(m', k, Earlier(fates, k) - held + {k})
    ensures ScoredSoFar(m', fates, held, k + 1)
  {
    hide ScoredFor, Earlier;
    forall n | 0 <= n < k && n !in held && fates(n).Succeeds?
      ensures ScoredFor(m', n, Earlier(fates, n) - held + {n})
    {
      StaysScored(m, m', n, Earlier(fates, n) - held + {n});
    }
  }

  /** The schedule that keeps the jobs of `held` back does what it is for. */
  lemma {:induction false} HoldingParks(workers: nat, jobs: seq<Job>, fates: Fates, held: set<nat>, k: nat)
    requires k <= |jobs| && |held| < workers
    ensures var m := Run(workers, fates, Holding(jobs, held, k));
            Parked(m, jobs, fates, held, k) && ScoredSoFar(m, fates, held, k)
  {
    hide *;
    if k == 0 {
      StartParked(workers, jobs, fates, held);
    } else {
      var s := Holding(jobs, held, k - 1);
      HoldingParks(workers, jobs, fates, held, k - 1);
      RunTracked(workers, fates, s);
      RunThen(workers, fates, s, Serve(jobs, held, k - 1));
      ServeParks(Run(workers, fates, s), jobs, fates, held, k - 1);
      HoldingStep(jobs, held, k);
    }
  }

  lemma HoldingStep(jobs: seq<Job>, held: set<nat>, k: nat)
    requires 0 < k <= |jobs|
    ensures Holding(jobs, held, k) == Holding(jobs, held, k - 1) + Serve(jobs, held, k - 1)
  {
  }

  lemma ServeParks(m: Machine, jobs: seq<Job>, fates: Fates, held: set<nat>, k: nat)
    requires Inv(m, fates) && Tracked(m, fates) && k < |jobs|
    requires Parked(m, jobs, fates, held, k) && ScoredSoFar(m, fates, held, k)
    ensures var m' := Resumed(m, fates, Serve(jobs, held, k));
            Parked(m', jobs, fates, held, k + 1) && ScoredSoFar(m', fates, held, k + 1)
  {
    hide *;
    ScoresGrow(m, fates, Serve(jobs, held, k));
    if k in held {
      ServeHeld(m, jobs, fates, held, k);
    } else {
      ServeFree(m, jobs, fates, held, k);
    }
    ScoredSoFarNext(m, Resumed(m, fates, Serve(jobs, held, k)), fates, held, k);
  }

  lemma StartParked(workers: nat, jobs: seq<Job>, fates: Fates, held: set<nat>)
    requires |held| < workers
    ensures var m := Run(workers, fates, Holding(jobs, held, 0));
            Parked(m, jobs, fates, held, 0) && ScoredSoFar(m, fates, held, 0)
  {
    assert held * Below(0) == {};
    assert Earlier(fates, 0) - held == {};
  }

  /** The first `w` workers after worker 0 finish what they hold. */
  function Release(w: nat): seq<Action> {
    if w == 0 then [] else Release(w - 1) + Turns(w, 3)
  }

  function Released(ws: seq<Worker>, w: nat): (r: seq<Worker>)
    requires w < |ws|
    ensures |r| == |ws|
    ensures forall v :: 0 <= v < |ws| ==> r[v] == if 1 <= v <= w then Idle else ws[v]
  {
    if w == 0 then ws else Released(ws, w - 1)[w := Idle]
  }

  lemma {:induction false} ReleaseEmpties(m: Machine, fates: Fates, w: nat)
    requires Inv(m, fates) && Tracked(m, fates) && m.queue == [] && w < |m.workers|
    requires forall v :: 0 <= v < |m.workers| ==> m.workers[v].Idle? || m.workers[v].InTabular?
    ensures var m' := Resumed(m, fates, Release(w));
            && Inv(m', fates) && Tracked(m', fates)
            && m'.queue == [] && m'.arrived == m.arrived && m'.workers == Released(m.workers, w)
  {
    hide Inv, Tracked, Turns, Finished;
    if w > 0 {
      ReleaseEmpties(m, fates, w - 1);
      ResumedAppend(m, fates, Release(w - 1), Turns(w, 3));
      var m1 := Resumed(m, fates, Release(w - 1));
      hide Resumed, Release;
      ReleaseOne(m1, fates, w);
    }
  }

  lemma ReleaseOne(m: Machine, fates: Fates, w: nat)
    requires Inv(m, fates) && Tracked(m, fates) && m.queue == [] && w < |m.workers|
    requires m.workers[w].Idle? || m.workers[w].InTabular?
    ensures var m' := Resumed(m, fates, Turns(w, 3));
            && Inv(m', fates) && Tracked(m', fates)
            && m'.queue == [] && m'.arrived == m.arrived && m'.workers == m.workers[w := Idle]
  {
    hide Inv, Tracked, Turns, Resumed, ScoredFor, Step;
    ResumedTracked(m, fates, Turns(w, 3));
    if m.workers[w].Idle? {
      ThreeTurns(m, fates, w);
      IdleTurn(m, fates, w);
    } else {
      FinishTurns(m, fates, w);
    }
  }

  /** From a parked machine the remaining workers can finish, which ends the run. */
  lemma ReleaseEndsRun(m: Machine, jobs: seq<Job>, fates: Fates, held: set<nat>)
    requires Inv(m, fates) && Tracked(m, fates) && Parked(m, jobs, fates, held, |jobs|)
    ensures var m' := Resumed(m, fates, Release(|m.workers| - 1));
            Quiescent(m') && m'.arrived == jobs && m.scored <= m'.scored
  {
    var w := |m.workers| - 1;
    assert jobs[..|jobs|] == jobs;
    forall v | 0 <= v < |m.workers|
      ensures m.workers[v].Idle? || m.workers[v].InTabular?
      ensures v == 0 ==> m.workers[v].Idle?
    {
      assert WorkerParked(m.workers[v], v, held, |jobs|);
    }
    hide Inv, Tracked, Resumed, Release, HeldBefore, Earlier, AllParked;
    ReleaseEmpties(m, fates, w);
    ScoresGrow(m, fates, Release(w));
  }

  /** A whole run in which the other workers keep the jobs of `late` back until
      job `n` is done. */
  lemma EarlyRun(workers: nat, fates: Fates, jobs: seq<Job>, n: nat, late: set<nat>)
    returns (schedule: seq<Action>, c: Scored)
    requires n < |jobs| && fates(n).Succeeds? && late <= Earlier(fates, n) && |late| < workers
    ensures Reports(workers, fates, schedule, jobs, n, c)
    ensures ScoreIs(c, jobs, n, Earlier(fates, n) - late + {n})
  {
    hide *;
    var s, t := Holding(jobs, late, |jobs|), Release(workers - 1);
    schedule := s + t;
    var m := HeldBack(workers, fates, jobs, n, late);
    RunThen(workers, fates, s, t);
    ReleaseEndsRun(m, jobs, fates, late);
    ScoresGrow(m, fates, t);
    StaysScored(m, Resumed(m, fates, t), n, Earlier(fates, n) - late + {n});
    c := ReportOf(Resumed(m, fates, t), n, Earlier(fates, n) - late + {n});
    ReportsIf(workers, fates, schedule, jobs, n, c);
  }

  lemma ReportsIf(workers: nat, fates: Fates, schedule: seq<Action>, jobs: seq<Job>, n: nat, c: Scored)
    requires var m := Run(workers, fates, schedule);
             Quiescent(m) && m.arrived == jobs && c in m.scored && c.n == n
    ensures Reports(workers, fates, schedule, jobs, n, c)
  {
  }

  lemma HeldBack(workers: nat, fates: Fates, jobs: seq<Job>, n: nat, late: set<nat>) returns (m: Machine)
    requires n < |jobs| && fates(n).Succeeds? && late <= Earlier(fates, n) && |late| < workers
    ensures m == Run(workers, fates, Holding(jobs, late, |jobs|)) && |m.workers| == workers
    ensures Inv(m, fates) && Tracked(m, fates) && Parked(m, jobs, fates, late, |jobs|)
    ensures m.arrived == jobs && ScoredFor(m, n, Earlier(fates, n) - late + {n})
  {
    m := Run(workers, fates, Holding(jobs, late, |jobs|));
    HoldingParks(workers, jobs, fates, late, |jobs|);
    RunTracked(workers, fates, Holding(jobs, late, |jobs|));
    assert jobs[..|jobs|] == jobs && n !in late;
    hide Inv, Tracked, Run, Holding, ScoredFor, Earlier, AllParked;
  }

  lemma ReportOf(m: Machine, n: nat, c: set<nat>) returns (x: Scored)
    requires ScoredFor(m, n, c)
    ensures x in m.scored && x.n == n && ScoreIs(x, m.arrived, n, c)
  {
    var i :| 0 <= i < |m.scored| && ScoreIs(m.scored[i], m.arrived, n, c);
    x := m.scored[i];
  }

  /** A whole run in which another worker keeps job `n` back until all others are done. */
  lemma LateRun(workers: nat, fates: Fates, jobs: seq<Job>, n: nat) returns (schedule: seq<Action>, c: Scored)
    requires n < |jobs| && fates(n).Succeeds? && workers > 1
    ensures Reports(workers, fates, schedule, jobs, n, c) && ScoreIs(c, jobs, n, Earlier(fates, |jobs|))
  {
    var s, t, u := Holding(jobs, {n}, |jobs|), Turns(1, 3), Release(workers - 1);
    schedule := s + t + u;
    HoldingParks(workers, jobs, fates, {n}, |jobs|);
    RunTracked(workers, fates, s);
    RunThen(workers, fates, s, t);
    RunThen(workers, fates, s + t, u);
    hide Run, Resumed, Inv, Tracked, Parked, ScoreIs, Turns;
    var m := Run(workers, fates, s);
    LastOneOut(m, jobs, fates, n);
    var m1 := Resumed(m, fates, t);
    ReleaseEndsRun(m1, jobs, fates, {});
    ScoresGrow(m1, fates, u);
    StaysScored(m1, Resumed(m1, fates, u), n, Earlier(fates, |jobs|));
    c := ReportOf(Resumed(m1, fates, u), n, Earlier(fates, |jobs|));
  }

  lemma LastOneOut(m: Machine, jobs: seq<Job>, fates: Fates, n: nat)
    requires Inv(m, fates) && Tracked(m, fates) && n < |jobs| && fates(n).Succeeds?
    requires Parked(m, jobs, fates, {n}, |jobs|)
    ensures var m' := Resumed(m, fates, Turns(1, 3));
            && Inv(m', fates) && Tracked(m', fates) && |m'.workers| == |m.workers|
            && Parked(m', jobs, fates, {}, |jobs|) && ScoredFor(m', n, Earlier(fates, |jobs|))
  {
    hide Inv, Tracked, Resumed, Turns, ScoredFor, Earlier, Parked;
    LastIsHeld(m, jobs, fates, n);
    FinishTurns(m, fates, 1);
    ResumedTracked(m, fates, Turns(1, 3));
    NoneParked(m, Resumed(m, fates, Turns(1, 3)), jobs, fates, n);
  }

  lemma LastIsHeld(m: Machine, jobs: seq<Job>, fates: Fates, n: nat)
    requires n < |jobs| && fates(n).Succeeds? && Parked(m, jobs, fates, {n}, |jobs|)
    ensures |m.workers| > 1 && m.workers[1].InTabular? && m.workers[1].n == n && m.queue == []
    ensures Elements(m.order) + {n} == Earlier(fates, |jobs|)
  {
    assert m.queue == [] && Elements(m.order) == Earlier(fates, |jobs|) - {n} && n in Earlier(fates, |jobs|);
    OneHeld(n, |jobs|);
    assert WorkerParked(m.workers[1], 1, {n}, |jobs|);
    hide HeldBefore, Earlier, AllParked;
  }

  lemma NoneParked(m: Machine, m': Machine, jobs: seq<Job>, fates: Fates, n: nat)
    requires n < |jobs| && Parked(m, jobs, fates, {n}, |jobs|)
    requires m'.workers == m.workers[1 := Idle]
    requires m'.arrived == m.arrived && m'.taken == m.taken && m'.queue == m.queue
    requires Elements(m'.order) == Earlier(fates, |jobs|)
    ensures Parked(m', jobs, fates, {}, |jobs|)
  {
    OneHeld(n, |jobs|);
    assert {} * Below(|jobs|) == {};
    assert HeldBefore({}, |jobs|) == 0;
    hide HeldBefore, Earlier;
    assert Earlier(fates, |jobs|) - {} == Earlier(fates, |jobs|);
    forall v | 0 <= v < |m'.workers|
      ensures WorkerParked(m'.workers[v], v, {}, |jobs|)
    {
      assert WorkerParked(m.workers[v], v, {n}, |jobs|);
    }
    assert AllParked(m'.workers, {}, |jobs|);
  }

  lemma OneHeld(n: nat, k: nat)
    requires n < k
    ensures HeldBefore({n}, k) == 1
  {
    assert {n} * Below(k) == {n};
  }

  // ---- when a report depends on the schedule ----

  /** What job `n` has seen when the earlier jobs of `late` were kept back. */
  function Seen(fates: Fates, n: nat, late: set<nat>): set<nat> {
    Earlier(fates, n) - late + {n}
  }

  /** Neither the later jobs nor keeping back fewer earlier ones than there are
      workers changes the degree of the sender. */
  ghost predicate DegreeSettled(workers: nat, fates: Fates, jobs: seq<Job>, n: nat)
    requires n < |jobs|
  {
    forall late :: late <= Earlier(fates, n) && |late| < workers ==>
      CappedDegree(jobs, Seen(fates, n, late), jobs[n].from)
      == CappedDegree(jobs, Earlier(fates, |jobs|), jobs[n].from)
  }

  ghost predicate BoostSettled(workers: nat, fates: Fates, jobs: seq<Job>, n: nat)
    requires n < |jobs|
  {
    forall late :: late <= Earlier(fates, n) && |late| < workers ==>
      SnapshotBoost(jobs, Seen(fates, n, late), jobs[n].from)
      == SnapshotBoost(jobs, Earlier(fates, |jobs|), jobs[n].from)
  }

  /** Any snapshot lies between one that some jobs were kept back from and that of all jobs. */
  lemma SnapshotIsBetween(jobs: seq<Job>, fates: Fates, workers: nat, n: nat, c: set<nat>) returns (late: set<nat>)
    requires n < |jobs| && Snapshot(jobs, fates, workers, n, c)
    ensures late <= Earlier(fates, n) && |late| < workers
    ensures Seen(fates, n, late) <= c <= Earlier(fates, |jobs|)
  {
    late := Earlier(fates, n) - c;
  }

  /** With at least two workers, every run over the same arrivals and failures
      reports the same centrality for job `n` if and only if the degree of its
      sender is settled: a condition on the queue alone. */
  lemma CentralityIsFixedIffSettled(workers: nat, fates: Fates, jobs: seq<Job>, n: nat)
    requires n < |jobs| && fates(n).Succeeds? && workers > 1
    ensures (forall s, t, c, d :: Reports(workers, fates, s, jobs, n, c) && Reports(workers, fates, t, jobs, n, d) ==>
               c.centrality == d.centrality)
       <==> DegreeSettled(workers, fates, jobs, n)
  {
    hide Reports, CappedDegree, SnapshotBoost, Snapshot, Earlier;
    var a, all := jobs[n].from, Earlier(fates, |jobs|);
    var t, d := LateRun(workers, fates, jobs, n);
    if DegreeSettled(workers, fates, jobs, n) {
      forall s, c | Reports(workers, fates, s, jobs, n, c)
        ensures c.centrality == CappedDegree(jobs, all, a)
      {
        var seen := ReportIsASnapshot(workers, fates, s, jobs, n, c);
        var late := SnapshotIsBetween(jobs, fates, workers, n, seen);
        ReadingsAreMonotone(jobs, Seen(fates, n, late), seen, a);
        ReadingsAreMonotone(jobs, seen, all, a);
      }
    } else {
      var late :| late <= Earlier(fates, n) && |late| < workers
                  && CappedDegree(jobs, Seen(fates, n, late), a) != CappedDegree(jobs, all, a);
      var s, c := EarlyRun(workers, fates, jobs, n, late);
      assert c.centrality != d.centrality;
    }
  }

  /** The same for the cross-chain boost. */
  lemma BoostIsFixedIffSettled(workers: nat, fates: Fates, jobs: seq<Job>, n: nat)
    requires n < |jobs| && fates(n).Succeeds? && workers > 1
    ensures (forall s, t, c, d :: Reports(workers, fates, s, jobs, n, c) && Reports(workers, fates, t, jobs, n, d) ==>
               c.boost == d.boost)
       <==> BoostSettled(workers, fates, jobs, n)
  {
    hide Reports, CappedDegree, SnapshotBoost, Snapshot, Earlier;
    var a, all := jobs[n].from, Earlier(fates, |jobs|);
    var t, d := LateRun(workers, fates, jobs, n);
    if BoostSettled(workers, fates, jobs, n) {
      forall s, c | Reports(workers, fates, s, jobs, n, c)
        ensures c.boost == SnapshotBoost(jobs, all, a)
      {
        var seen := ReportIsASnapshot(workers, fates, s, jobs, n, c);
        var late := SnapshotIsBetween(jobs, fates, workers, n, seen);
        ReadingsAreMonotone(jobs, Seen(fates, n, late), seen, a);
        ReadingsAreMonotone(jobs, seen, all, a);
      }
    } else {
      var late :| late <= Earlier(fates, n) && |late| < workers
                  && SnapshotBoost(jobs, Seen(fates, n, late), a) != SnapshotBoost(jobs, all, a);
      var s, c := EarlyRun(workers, fates, jobs, n, late);
      assert c.boost != d.boost;
    }
  }

  /** For the two workers the pipeline starts: the degree is settled exactly if
      neither the later jobs nor leaving out any one earlier job changes it. */
  lemma SettledForTwoWorkers(fates: Fates, jobs: seq<Job>, n: nat)
    requires n < |jobs|
    ensures DegreeSettled(2, fates, jobs, n)
       <==> var all := CappedDegree(jobs, Earlier(fates, |jobs|), jobs[n].from);
            && CappedDegree(jobs, Seen(fates, n, {}), jobs[n].from) == all
            && forall k :: k in Earlier(fates, n) ==> CappedDegree(jobs, Seen(fates, n, {k}), jobs[n].from) == all
    ensures BoostSettled(2, fates, jobs, n)
       <==> var all := SnapshotBoost(jobs, Earlier(fates, |jobs|), jobs[n].from);
            && SnapshotBoost(jobs, Seen(fates, n, {}), jobs[n].from) == all
            && forall k :: k in Earlier(fates, n) ==> SnapshotBoost(jobs, Seen(fates, n, {k}), jobs[n].from) == all
  {
    hide CappedDegree, SnapshotBoost, Seen;
    forall late: set<nat> | |late| < 2
      ensures late == {} || exists k :: late == {k}
    {
      if k :| k in late {
        assert late == {k} + (late - {k});
        assert |late - {k}| == 0;
      }
    }
  }

  /** Everything handed to the scorer for job `n` is the same in every run if and
      only if both readings are settled. */
  lemma ReportIsFixedIffSettled(workers: nat, fates: Fates, jobs: seq<Job>, n: nat)
    requires n < |jobs| && fates(n).Succeeds? && workers > 1
    ensures (forall s, t, c, d :: Reports(workers, fates, s, jobs, n, c) && Reports(workers, fates, t, jobs, n, d) ==> c == d)
       <==> DegreeSettled(workers, fates, jobs, n) && BoostSettled(workers, fates, jobs, n)
  {
    CentralityIsFixedIffSettled(workers, fates, jobs, n);
    BoostIsFixedIffSettled(workers, fates, jobs, n);
    forall s, c | Reports(workers, fates, s, jobs, n, c)
      ensures c.features == FeaturesInOrder(jobs, n)
    {
      var m := Run(workers, fates, s);
      var i :| 0 <= i < |m.scored| && m.scored[i] == c;
      FeaturesAreScheduleIndependent(workers, fates, s, i);
    }
    hide Reports, DegreeSettled, BoostSettled;
  }

  /** No executor call fails. */
  const ALL_SUCCEED: Fates := (n: nat) => Succeeds

  /** `k` puts a new edge at the sender of `j`. */
  predicate AddsEdgeAtSender(j: Job, k: Job) {
    k.to != NoAddress && (k.from == j.from || k.to == j.from) && (k.from, k.to) != (j.from, j.to)
  }

  /** With two jobs, the first one's centrality is the same in every run unless
      the second puts a new edge at its sender. */
  lemma FirstOfTwoIsFixedIff(j: Job, k: Job)
    ensures (forall s, t, c, d :: Reports(2, ALL_SUCCEED, s, [j, k], 0, c) && Reports(2, ALL_SUCCEED, t, [j, k], 0, d) ==>
               c.centrality == d.centrality)
       <==> !AddsEdgeAtSender(j, k)
  {
    CentralityIsFixedIffSettled(2, ALL_SUCCEED, [j, k], 0);
    FirstOfTwoIsSettledIff(j, k);
    hide Reports, DegreeSettled, AddsEdgeAtSender;
  }

  lemma FirstOfTwoIsSettledIff(j: Job, k: Job)
    ensures DegreeSettled(2, ALL_SUCCEED, [j, k], 0) <==> !AddsEdgeAtSender(j, k)
  {
    hide DegreeSettled, BoostSettled, Earlier, Seen, CappedDegree, SnapshotBoost;
    SettledForTwoWorkers(ALL_SUCCEED, [j, k], 0);
    SeenOfTwo();
    SecondJobCounts(j, k);
  }

  lemma SeenOfTwo()
    ensures Earlier(ALL_SUCCEED, 0) == {} && Seen(ALL_SUCCEED, 0, {}) == {0} && Earlier(ALL_SUCCEED, 2) == {0, 1}
    ensures Earlier(ALL_SUCCEED, 0) - {} + {0} == {0}
  {
  }

  predicate NewSource(jobs: seq<Job>, c: set<nat>, k: nat, a: Address)
    requires k < |jobs|
  {
    jobs[k].to == a && a != NoAddress && forall i :: i in c && i < |jobs| && jobs[i].to == a ==> jobs[i].from != jobs[k].from
  }

  predicate NewTarget(jobs: seq<Job>, c: set<nat>, k: nat, a: Address)
    requires k < |jobs|
  {
    jobs[k].from == a && jobs[k].to != NoAddress
    && forall i :: i in c && i < |jobs| && jobs[i].from == a ==> jobs[i].to != jobs[k].to
  }

  /** One more committed job raises the degree by its new ends. */
  lemma OneMoreJob(jobs: seq<Job>, c: set<nat>, k: nat, a: Address)
    requires k < |jobs|
    ensures Degree(jobs, c + {k}, a)
         == Degree(jobs, c, a) + (if NewSource(jobs, c, k, a) then 1 else 0) + (if NewTarget(jobs, c, k, a) then 1 else 0)
  {
    OneMoreSource(jobs, c, k, a);
    OneMoreTarget(jobs, c, k, a);
  }

  lemma OneMoreSource(jobs: seq<Job>, c: set<nat>, k: nat, a: Address)
    requires k < |jobs|
    ensures |Sources(jobs, c + {k}, a)| == |Sources(jobs, c, a)| + (if NewSource(jobs, c, k, a) then 1 else 0)
  {
    var before, after := Sources(jobs, c, a), Sources(jobs, c + {k}, a);
    if NewSource(jobs, c, k, a) {
      assert after == before + {jobs[k].from};
    } else {
      assert after == before;
    }
  }

  lemma OneMoreTarget(jobs: seq<Job>, c: set<nat>, k: nat, a: Address)
    requires k < |jobs|
    ensures |Targets(jobs, c + {k}, a)| == |Targets(jobs, c, a)| + (if NewTarget(jobs, c, k, a) then 1 else 0)
  {
    var before, after := Targets(jobs, c, a), Targets(jobs, c + {k}, a);
    if NewTarget(jobs, c, k, a) {
      assert after == before + {jobs[k].to};
    } else {
      assert after == before;
    }
  }

  lemma NoJobsYet(jobs: seq<Job>, a: Address)
    ensures Degree(jobs, {}, a) == 0
  {
    assert Sources(jobs, {}, a) == {} && Targets(jobs, {}, a) == {};
  }

  lemma SmallDegrees(jobs: seq<Job>, c: set<nat>, d: set<nat>, a: Address)
    requires Degree(jobs, c, a) <= 100 && Degree(jobs, d, a) <= 100
    ensures CappedDegree(jobs, c, a) == CappedDegree(jobs, d, a) <==> Degree(jobs, c, a) == Degree(jobs, d, a)
  {
  }

  lemma SecondJobCounts(j: Job, k: Job)
    ensures CappedDegree([j, k], {0}, j.from) == CappedDegree([j, k], {0, 1}, j.from) <==> !AddsEdgeAtSender(j, k)
  {
    var jobs, a := [j, k], j.from;
    hide Degree, CappedDegree;
    NoJobsYet(jobs, a);
    OneMoreJob(jobs, {}, 0, a);
    OneMoreJob(jobs, {0}, 1, a);
    assert {} + {0} == {0} && {0} + {1} == {0, 1};
    SmallDegrees(jobs, {0}, {0, 1}, a);
    assert NewSource(jobs, {0}, 1, a) <==> k.to == a && a != NoAddress && (j.to == a ==> j.from != k.from);
    assert NewTarget(jobs, {0}, 1, a) <==> k.from == a && k.to != NoAddress && j.to != k.to;
  }

  /** The scores are not confluent: the same two jobs, all handled, give the
      first one's sender a different centrality when the second overtakes it. */
  lemma CentralityDependsOnSchedule(j: Job, k: Job) returns (s: seq<Action>, t: seq<Action>, c: Scored, d: Scored)
    requires j.from != j.to && k.to == j.from && k.from != j.from && k.from != j.to
    requires j.from.Wallet? && j.to.Wallet?
    ensures Reports(2, ALL_SUCCEED, s, [j, k], 0, c) && c.centrality == 0.01
    ensures Reports(2, ALL_SUCCEED, t, [j, k], 0, d) && d.centrality == 0.02
  {
    hide Reports, Earlier, CappedDegree, SnapshotBoost, Seen;
    SeenOfTwo();
    s, c := EarlyRun(2, ALL_SUCCEED, [j, k], 0, {});
    t, d := LateRun(2, ALL_SUCCEED, [j, k], 0);
    DegreesOfTwo(j, k);
  }

  lemma DegreesOfTwo(j: Job, k: Job)
    requires j.from != j.to && k.to == j.from && k.from != j.from && k.from != j.to
    requires j.from.Wallet? && j.to.Wallet?
    ensures CappedDegree([j, k], {0}, j.from) == 0.01 && CappedDegree([j, k], {0, 1}, j.from) == 0.02
  {
    var jobs, a := [j, k], j.from;
    hide Degree;
    NoJobsYet(jobs, a);
    OneMoreJob(jobs, {}, 0, a);
    OneMoreJob(jobs, {0}, 1, a);
    assert {} + {0} == {0} && {0} + {1} == {0, 1};
    assert NewSource(jobs, {0}, 1, a) && !NewTarget(jobs, {0}, 1, a);
    assert NewTarget(jobs, {}, 0, a) && !NewSource(jobs, {}, 0, a);
  }

  /** With three workers two jobs can be kept back at once: here leaving out any
      one earlier job changes nothing, leaving out both does. */
  lemma OneLateJobIsNotEnough(x: Job, y: Job)
    requires x.from != x.to && x.to == y.from && x.to != NoAddress && y.to == NoAddress
    ensures DegreeSettled(2, ALL_SUCCEED, [x, x, y], 2) && !DegreeSettled(3, ALL_SUCCEED, [x, x, y], 2)
  {
    var jobs, a := [x, x, y], y.from;
    SettledForTwoWorkers(ALL_SUCCEED, jobs, 2);
    SeenOfThree();
    ThreeDegrees(x, y);
    hide Earlier, Seen, CappedDegree, SnapshotBoost, BoostSettled;
    assert |{0, 1}| == 2;
    assert CappedDegree(jobs, Seen(ALL_SUCCEED, 2, {0, 1}), a) != CappedDegree(jobs, Earlier(ALL_SUCCEED, 3), a);
  }

  lemma SeenOfThree()
    ensures Earlier(ALL_SUCCEED, 2) == {0, 1} && Earlier(ALL_SUCCEED, 3) == {0, 1, 2}
    ensures Seen(ALL_SUCCEED, 2, {}) == {0, 1, 2} && Seen(ALL_SUCCEED, 2, {0, 1}) == {2}
    ensures Seen(ALL_SUCCEED, 2, {0}) == {1, 2} && Seen(ALL_SUCCEED, 2, {1}) == {0, 2}
  {
  }

  lemma ThreeDegrees(x: Job, y: Job)
    requires x.from != x.to && x.to == y.from && x.to != NoAddress && y.to == NoAddress
    ensures var jobs, a := [x, x, y], y.from;
            var all := CappedDegree(jobs, {0, 1, 2}, a);
            CappedDegree(jobs, {0, 2}, a) == CappedDegree(jobs, {1, 2}, a) == all && CappedDegree(jobs, {2}, a) != all
  {
    var jobs, a := [x, x, y], y.from;
    hide Degree, CappedDegree;
    NoJobsYet(jobs, a);
    OneMoreJob(jobs, {}, 2, a);
    OneMoreJob(jobs, {2}, 0, a);
    OneMoreJob(jobs, {2}, 1, a);
    OneMoreJob(jobs, {0, 2}, 1, a);
    assert {} + {2} == {2} && {2} + {0} == {0, 2} && {2} + {1} == {1, 2} && {0, 2} + {1} == {0, 1, 2};
    assert NewSource(jobs, {2}, 0, a) && NewSource(jobs, {2}, 1, a) && !NewSource(jobs, {0, 2}, 1, a);
    SmallDegrees(jobs, {2}, {0, 1, 2}, a);
    SmallDegrees(jobs, {0, 2}, {0, 1, 2}, a);
    SmallDegrees(jobs, {1, 2}, {0, 1, 2}, a);
  }
}
