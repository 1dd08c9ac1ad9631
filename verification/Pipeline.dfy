/** The scoring workers of `src/pipeline/scoring_pipeline.py` as a step machine:
    any number of workers share one FIFO queue, and a step runs one worker from
    one await to the next. */
module Pipeline {
  import opened Common
  import opened Walks
  import opened DiGraphs
  import opened Ledger
  import opened CrossChain
  import opened Velocity

  const QUEUE_MAX_SIZE: nat := 10000
  const HISTORY_WINDOW: real := 3600.0

  /** A queued transaction. */
  datatype Job = Job(
    hash: string,
    from: Address,
    to: Address,
    value: real,
    timestamp: real,
    block: int,
    contractCall: bool,
    chain: string)

  /** Which executor call, if any, raises for a job.  The worker then drops the
      job; only a failure of the third call comes after the graph update. */
  datatype Fate = Succeeds | TabularFails | GnnFails | LiveFails

  type Fates = nat -> Fate

  predicate Commits(f: Fate) {
    f.Succeeds? || f.LiveFails?
  }

  /** A worker, named after the await it is suspended at; `n` is the position of
      its job in the order of arrival. */
  datatype Worker =
    | Idle
    | InTabular(n: nat, job: Job, features: Features)
    | InGnn(n: nat, job: Job, features: Features)
    | InLive(n: nat, job: Job, features: Features, centrality: real, boost: real)

  /** What reaches the risk scorer for one job. */
  datatype Scored = Scored(n: nat, features: Features, centrality: real, boost: real)

  /** `arrived`, `taken`, `applied`, `committed` and `order` record the run so
      far: the jobs put into the queue, how many left it, the `add_transaction`
      calls, the jobs that made them and the positions of those jobs. */
  datatype Machine = Machine(
    queue: seq<Job>,
    workers: seq<Worker>,
    history: Histories,
    graph: DiGraph,
    index: Index,
    scored: seq<Scored>,
    arrived: seq<Job>,
    taken: nat,
    applied: seq<Tx>,
    committed: seq<Job>,
    order: seq<nat>)

  /** A schedule is a list of these.  `now` is the clock read by the step. */
  datatype Action = Put(job: Job) | Resume(worker: nat, now: real)

  function Start(workers: nat): Machine {
    Machine([], seq(workers, _ => Idle), map[], EMPTY_GRAPH, EMPTY_INDEX, [], [], 0, [], [], [])
  }

  function PointOf(j: Job): Point {
    Point(j.timestamp, j.value)
  }

  function TxOf(j: Job, now: real): Tx {
    Tx(j.hash, j.from, j.to, j.value, j.timestamp, j.block, j.contractCall, 0.0, now)
  }

  function SightingOf(j: Job): Sighting {
    Sighting(j.from, j.to, j.chain)
  }

  /** A degree over 100, at most 1. */
  function Capped(degree: nat): real {
    if degree > 100 then 1.0 else degree as real / 100.0
  }

  /** In- plus out-degree over 100, at most 1. */
  function Centrality(g: DiGraph, a: Address): real {
    Capped(|Next(g.pred, a)| + |Next(g.succ, a)|)
  }

  function ExtractFeatures(hs: Histories, j: Job): Features {
    FeaturesOf(Since(HistoryOf(Recorded(hs, j.from, PointOf(j), HISTORY_WINDOW), j.from),
                     j.timestamp - HISTORY_WINDOW), j.timestamp)
  }

  /** From `queue.get` to the first await. */
  function Take(m: Machine, w: nat): Machine
    requires w < |m.workers| && m.queue != []
  {
    var j := m.queue[0];
    m.(queue := m.queue[1..],
       taken := m.taken + 1,
       history := Recorded(m.history, j.from, PointOf(j), HISTORY_WINDOW),
       workers := m.workers[w := InTabular(m.taken, j, ExtractFeatures(m.history, j))])
  }

  /** From the second await to the third: the graph and index are updated and read. */
  function Commit(m: Machine, w: nat, j: Job, n: nat, f: Features, now: real): Machine
    requires w < |m.workers|
  {
    var g, ix := Added(m.graph, TxOf(j, now)), Observed(m.index, SightingOf(j));
    m.(graph := g,
       index := ix,
       applied := m.applied + [TxOf(j, now)],
       committed := m.committed + [j],
       order := m.order + [n],
       workers := m.workers[w := InLive(n, j, f, Centrality(g, j.from), RiskBoost(ix, j.from))])
  }

  /** The machine after one more arrival. */
  function Arrived(m: Machine, j: Job): Machine {
    m.(queue := m.queue + [j], arrived := m.arrived + [j])
  }

  function Step(m: Machine, fates: Fates, a: Action): Machine {
    match a
    case Put(j) =>
      if |m.queue| >= QUEUE_MAX_SIZE then m
      else Arrived(m, j)
    case Resume(w, now) =>
      if w >= |m.workers| then m
      else
        match m.workers[w]
        case Idle => if m.queue == [] then m else Take(m, w)
        case InTabular(n, j, f) =>
          m.(workers := m.workers[w := if fates(n).TabularFails? then Idle else InGnn(n, j, f)])
        case InGnn(n, j, f) =>
          if fates(n).GnnFails? then m.(workers := m.workers[w := Idle]) else Commit(m, w, j, n, f, now)
        case InLive(n, j, f, c, b) =>
          m.(workers := m.workers[w := Idle],
             scored := if fates(n).LiveFails? then m.scored else m.scored + [Scored(n, f, c, b)])
  }

  function Run(workers: nat, fates: Fates, schedule: seq<Action>): Machine {
    if schedule == [] then Start(workers)
    else Step(Run(workers, fates, schedule[..|schedule| - 1]), fates, schedule[|schedule| - 1])
  }

  /** Everything that arrived has been handled. */
  predicate Quiescent(m: Machine) {
    m.queue == [] && forall w :: 0 <= w < |m.workers| ==> m.workers[w].Idle?
  }

  // ---- the sequential run ----

  /** The jobs among the first `k` that reach the graph. */
  function Committing(jobs: seq<Job>, fates: Fates, k: nat): seq<Job>
    requires k <= |jobs|
  {
    if k == 0 then []
    else Committing(jobs, fates, k - 1) + (if Commits(fates(k - 1)) then [jobs[k - 1]] else [])
  }

  function HistoryAfter(jobs: seq<Job>, k: nat): Histories
    requires k <= |jobs|
  {
    if k == 0 then map[]
    else Recorded(HistoryAfter(jobs, k - 1), jobs[k - 1].from, PointOf(jobs[k - 1]), HISTORY_WINDOW)
  }

  /** The feature vector of job `n` when jobs are handled in order of arrival. */
  function FeaturesInOrder(jobs: seq<Job>, n: nat): Features
    requires n < |jobs|
  {
    ExtractFeatures(HistoryAfter(jobs, n), jobs[n])
  }

  function Applied(jobs: seq<Job>, now: real): seq<Tx> {
    seq(|jobs|, i requires 0 <= i < |jobs| => TxOf(jobs[i], now))
  }

  function Sightings(jobs: seq<Job>): seq<Sighting> {
    seq(|jobs|, i requires 0 <= i < |jobs| => SightingOf(jobs[i]))
  }

  function JobMoves(jobs: seq<Job>): seq<Move> {
    seq(|jobs|, i requires 0 <= i < |jobs| => Move(jobs[i].from, jobs[i].to, jobs[i].value))
  }

  // ---- invariants of every schedule ----

  /** The job a worker will still commit. */
  function Pending(w: Worker, fates: Fates): multiset<Job> {
    if (w.InTabular? || w.InGnn?) && Commits(fates(w.n)) then multiset{w.job} else multiset{}
  }

  function PendingAll(ws: seq<Worker>, fates: Fates): multiset<Job> {
    if ws == [] then multiset{} else PendingAll(ws[..|ws| - 1], fates) + Pending(ws[|ws| - 1], fates)
  }

  /** The queue holds the arrivals not yet taken, and the history is that of the sequential run. */
  ghost predicate InOrder(m: Machine) {
    && m.taken <= |m.arrived|
    && m.queue == m.arrived[m.taken..]
    && m.history == HistoryAfter(m.arrived, m.taken)
  }

  /** Each taken job that is not dropped is either committed or pending, once. */
  ghost predicate Accounted(m: Machine, fates: Fates) {
    && m.taken <= |m.arrived|
    && multiset(m.committed) + PendingAll(m.workers, fates) == multiset(Committing(m.arrived, fates, m.taken))
  }

  /** A worker holds a job that was taken, with the features of the sequential
      run, and is past no call that fails for it. */
  ghost predicate WorkerSound(w: Worker, jobs: seq<Job>, taken: nat, fates: Fates) {
    w.Idle? || (w.n < taken <= |jobs| && w.job == jobs[w.n] && w.features == FeaturesInOrder(jobs, w.n)
                && (w.InGnn? ==> !fates(w.n).TabularFails?)
                && (w.InLive? ==> Commits(fates(w.n))))
  }

  /** A job reached the scorer with the features of the sequential run. */
  ghost predicate ScoredSound(c: Scored, jobs: seq<Job>, taken: nat, fates: Fates) {
    c.n < taken <= |jobs| && c.features == FeaturesInOrder(jobs, c.n) && fates(c.n).Succeeds?
  }

  ghost predicate WorkersSound(m: Machine, fates: Fates) {
    && (forall w :: 0 <= w < |m.workers| ==> WorkerSound(m.workers[w], m.arrived, m.taken, fates))
    && (forall i :: 0 <= i < |m.scored| ==> ScoredSound(m.scored[i], m.arrived, m.taken, fates))
  }

  /** The calls that the jobs made, each at some time. */
  ghost predicate MadeBy(txs: seq<Tx>, jobs: seq<Job>) {
    |txs| == |jobs| && forall i :: 0 <= i < |txs| ==> txs[i] == TxOf(jobs[i], txs[i].now)
  }

  /** The graph and the index are what the commits so far built. */
  ghost predicate Built(m: Machine) {
    && m.graph == Replay(m.applied)
    && MadeBy(m.applied, m.committed)
    && Moves(m.applied) == JobMoves(m.committed)
    && m.index == ObservedAll(Sightings(m.committed))
  }

  ghost predicate Inv(m: Machine, fates: Fates) {
    InOrder(m) && Accounted(m, fates) && WorkersSound(m, fates) && Built(m)
  }

  // ---- auxiliary facts ----

  lemma {:induction false} PendingUpdate(ws: seq<Worker>, w: nat, v: Worker, fates: Fates)
    requires w < |ws|
    ensures PendingAll(ws[w := v], fates) == PendingAll(ws, fates) - Pending(ws[w], fates) + Pending(v, fates)
    ensures Pending(ws[w], fates) <= PendingAll(ws, fates)
    decreases |ws|
  {
    hide Pending;
    var last := |ws| - 1;
    var front, changed := ws[..last], ws[w := v];
    if w == last {
      assert changed[..last] == front;
    } else {
      PendingUpdate(front, w, v, fates);
      assert changed[..last] == front[w := v] && changed[last] == ws[last];
      assert PendingAll(changed, fates) == PendingAll(front[w := v], fates) + Pending(ws[last], fates);
      assert PendingAll(ws, fates) == PendingAll(front, fates) + Pending(ws[last], fates);
      hide PendingAll;
    }
  }

  lemma {:induction false} NothingPending(ws: seq<Worker>, fates: Fates)
    requires forall w :: 0 <= w < |ws| ==> ws[w].Idle?
    ensures PendingAll(ws, fates) == multiset{}
  {
    if ws != [] {
      NothingPending(ws[..|ws| - 1], fates);
    }
  }

  /** Arrivals only append, so nothing said about earlier jobs changes. */
  lemma {:induction false} ArrivalKeeps(jobs: seq<Job>, j: Job, fates: Fates, k: nat)
    requires k <= |jobs|
    ensures Committing(jobs + [j], fates, k) == Committing(jobs, fates, k)
    ensures HistoryAfter(jobs + [j], k) == HistoryAfter(jobs, k)
  {
    hide Recorded;
    if k > 0 {
      ArrivalKeeps(jobs, j, fates, k - 1);
    }
  }

  lemma FeaturesAreKept(jobs: seq<Job>, j: Job, fates: Fates, n: nat)
    requires n < |jobs|
    ensures FeaturesInOrder(jobs + [j], n) == FeaturesInOrder(jobs, n)
  {
    hide ExtractFeatures;
    ArrivalKeeps(jobs, j, fates, n);
  }

  // ---- each step keeps the invariant ----

  lemma PutKeepsWorkers(m: Machine, fates: Fates, j: Job)
    requires WorkersSound(m, fates)
    ensures WorkersSound(Arrived(m, j), fates)
  {
    hide FeaturesInOrder;
    var m' := Arrived(m, j);
    forall w | 0 <= w < |m.workers|
      ensures WorkerSound(m'.workers[w], m'.arrived, m'.taken, fates)
    {
      var v := m.workers[w];
      assert WorkerSound(v, m.arrived, m.taken, fates);
      if !v.Idle? {
        FeaturesAreKept(m.arrived, j, fates, v.n);
      }
    }
    forall i | 0 <= i < |m.scored|
      ensures ScoredSound(m'.scored[i], m'.arrived, m'.taken, fates)
    {
      assert ScoredSound(m.scored[i], m.arrived, m.taken, fates);
      FeaturesAreKept(m.arrived, j, fates, m.scored[i].n);
    }
  }

  lemma PutAccounts(m: Machine, fates: Fates, j: Job)
    requires InOrder(m) && Accounted(m, fates)
    ensures InOrder(Arrived(m, j)) && Accounted(Arrived(m, j), fates)
  {
    hide Committing, HistoryAfter, PendingAll;
    ArrivalKeeps(m.arrived, j, fates, m.taken);
    assert (m.arrived + [j])[m.taken..] == m.queue + [j];
  }

  lemma PutKeeps(m: Machine, fates: Fates, j: Job)
    requires Inv(m, fates)
    ensures Inv(Arrived(m, j), fates)
  {
    hide Built, InOrder, Accounted, WorkersSound;
    PutKeepsWorkers(m, fates, j);
    PutAccounts(m, fates, j);
    BuiltElsewhere(m, Arrived(m, j));
  }

  lemma BuiltElsewhere(m: Machine, m': Machine)
    requires Built(m) && m'.graph == m.graph && m'.applied == m.applied
    requires m'.committed == m.committed && m'.index == m.index
    ensures Built(m')
  {
  }

  lemma TakeKeepsOrder(m: Machine, w: nat)
    requires InOrder(m) && w < |m.workers| && m.queue != []
    ensures InOrder(Take(m, w))
  {
    hide ExtractFeatures, Recorded;
    assert m.queue[0] == m.arrived[m.taken];
    assert Take(m, w).queue == m.arrived[m.taken + 1..];
  }

  lemma CommittingStep(jobs: seq<Job>, fates: Fates, k: nat)
    requires k < |jobs|
    ensures multiset(Committing(jobs, fates, k + 1))
         == multiset(Committing(jobs, fates, k)) + (if Commits(fates(k)) then multiset{jobs[k]} else multiset{})
  {
  }

  lemma TakeAccounts(m: Machine, fates: Fates, w: nat)
    requires InOrder(m) && Accounted(m, fates) && w < |m.workers| && m.workers[w].Idle? && m.queue != []
    ensures Accounted(Take(m, w), fates)
  {
    hide ExtractFeatures, Recorded, Committing, PendingAll, HistoryAfter;
    var m' := Take(m, w);
    assert m.queue[0] == m.arrived[m.taken];
    CommittingStep(m.arrived, fates, m.taken);
    PendingUpdate(m.workers, w, m'.workers[w], fates);
  }

  lemma TakeKeepsWorkers(m: Machine, fates: Fates, w: nat)
    requires InOrder(m) && WorkersSound(m, fates) && w < |m.workers| && m.queue != []
    ensures WorkersSound(Take(m, w), fates)
  {
    hide ExtractFeatures, Recorded;
    var m' := Take(m, w);
    assert m.queue[0] == m.arrived[m.taken];
    forall v | 0 <= v < |m'.workers|
      ensures WorkerSound(m'.workers[v], m'.arrived, m'.taken, fates)
    {
      assert WorkerSound(m.workers[v], m.arrived, m.taken, fates);
    }
    forall i | 0 <= i < |m'.scored|
      ensures ScoredSound(m'.scored[i], m'.arrived, m'.taken, fates)
    {
      assert ScoredSound(m.scored[i], m.arrived, m.taken, fates);
    }
  }

  lemma TakeKeeps(m: Machine, fates: Fates, w: nat)
    requires Inv(m, fates) && w < |m.workers| && m.workers[w].Idle? && m.queue != []
    ensures Inv(Take(m, w), fates)
  {
    hide Built, InOrder, Accounted, WorkersSound, Recorded, ExtractFeatures;
    TakeKeepsOrder(m, w);
    TakeAccounts(m, fates, w);
    TakeKeepsWorkers(m, fates, w);
    BuiltElsewhere(m, Take(m, w));
  }

  /** A worker that moves on without touching graph or index. */
  lemma MoveKeeps(m: Machine, fates: Fates, w: nat, v: Worker)
    requires Inv(m, fates) && w < |m.workers|
    requires WorkerSound(v, m.arrived, m.taken, fates) && Pending(v, fates) == Pending(m.workers[w], fates)
    ensures Inv(m.(workers := m.workers[w := v]), fates)
  {
    hide Built, FeaturesInOrder, WorkerSound, ScoredSound, Pending, PendingAll, Committing, HistoryAfter;
    PendingUpdate(m.workers, w, v, fates);
    Swapped(PendingAll(m.workers, fates), Pending(v, fates));
    BuiltElsewhere(m, m.(workers := m.workers[w := v]));
  }

  lemma Swapped<T>(a: multiset<T>, b: multiset<T>)
    ensures b <= a ==> a - b + b == a
  {
  }

  lemma CommitBuilds(m: Machine, w: nat, j: Job, n: nat, f: Features, now: real)
    requires Built(m) && w < |m.workers|
    ensures Built(Commit(m, w, j, n, f, now))
  {
    hide Added, Observed, Centrality, RiskBoost;
    var m' := Commit(m, w, j, n, f, now);
    assert m'.applied[..|m.applied|] == m.applied;
    MovesStep(m'.applied);
    assert Moves(m'.applied) == JobMoves(m'.committed);
    assert Sightings(m'.committed) == Sightings(m.committed) + [SightingOf(j)];
    ObservedOneMore(Sightings(m.committed), SightingOf(j));
  }

  lemma ObservedOneMore(ss: seq<Sighting>, s: Sighting)
    ensures ObservedAll(ss + [s]) == Observed(ObservedAll(ss), s)
  {
    assert (ss + [s])[..|ss|] == ss;
  }

  lemma CommitAccounts(m: Machine, fates: Fates, w: nat, now: real)
    requires Accounted(m, fates) && w < |m.workers| && m.workers[w].InGnn? && Commits(fates(m.workers[w].n))
    ensures Accounted(Commit(m, w, m.workers[w].job, m.workers[w].n, m.workers[w].features, now), fates)
  {
    hide Centrality, RiskBoost, Added, Observed, Committing, PendingAll;
    var v := m.workers[w];
    var m' := Commit(m, w, v.job, v.n, v.features, now);
    PendingUpdate(m.workers, w, m'.workers[w], fates);
    assert Pending(v, fates) == multiset{v.job};
    assert multiset(m'.committed) == multiset(m.committed) + multiset{v.job};
  }

  lemma CommitKeepsWorkers(m: Machine, fates: Fates, w: nat, now: real)
    requires InOrder(m) && WorkersSound(m, fates)
    requires w < |m.workers| && m.workers[w].InGnn? && !fates(m.workers[w].n).GnnFails?
    ensures Commits(fates(m.workers[w].n))
    ensures var m' := Commit(m, w, m.workers[w].job, m.workers[w].n, m.workers[w].features, now);
            InOrder(m') && WorkersSound(m', fates)
  {
    hide FeaturesInOrder, Centrality, RiskBoost, Added, Observed, HistoryAfter;
    assert WorkerSound(m.workers[w], m.arrived, m.taken, fates);
  }

  lemma CommitKeeps(m: Machine, fates: Fates, w: nat, now: real)
    requires Inv(m, fates) && w < |m.workers| && m.workers[w].InGnn? && !fates(m.workers[w].n).GnnFails?
    ensures Inv(Commit(m, w, m.workers[w].job, m.workers[w].n, m.workers[w].features, now), fates)
  {
    hide Built, InOrder, Accounted, WorkersSound, Commit;
    CommitKeepsWorkers(m, fates, w, now);
    CommitAccounts(m, fates, w, now);
    CommitBuilds(m, w, m.workers[w].job, m.workers[w].n, m.workers[w].features, now);
  }

  lemma ScoreKeeps(m: Machine, fates: Fates, c: Scored)
    requires Inv(m, fates) && ScoredSound(c, m.arrived, m.taken, fates)
    ensures Inv(m.(scored := m.scored + [c]), fates)
  {
    hide Built, PendingAll, Committing, HistoryAfter, WorkerSound, ScoredSound;
    BuiltElsewhere(m, m.(scored := m.scored + [c]));
  }

  lemma HeldIsSound(m: Machine, fates: Fates, w: nat)
    requires Inv(m, fates) && w < |m.workers|
    ensures WorkerSound(m.workers[w], m.arrived, m.taken, fates)
  {
  }

  lemma ReturnKeeps(m: Machine, fates: Fates, w: nat)
    requires Inv(m, fates) && w < |m.workers| && m.workers[w].InLive?
    ensures Inv(Step(m, fates, Resume(w, 0.0)), fates)
  {
    hide Inv, FeaturesInOrder;
    var v := m.workers[w];
    HeldIsSound(m, fates, w);
    MoveKeeps(m, fates, w, Idle);
    var m' := m.(workers := m.workers[w := Idle]);
    if !fates(v.n).LiveFails? {
      ScoreKeeps(m', fates, Scored(v.n, v.features, v.centrality, v.boost));
    }
  }

  lemma DropKeeps(m: Machine, fates: Fates, w: nat)
    requires Inv(m, fates) && w < |m.workers| && !m.workers[w].Idle? && !Commits(fates(m.workers[w].n))
    ensures Inv(m.(workers := m.workers[w := Idle]), fates)
  {
    hide Inv;
    MoveKeeps(m, fates, w, Idle);
  }

  lemma TabularKeeps(m: Machine, fates: Fates, w: nat)
    requires Inv(m, fates) && w < |m.workers| && m.workers[w].InTabular? && !fates(m.workers[w].n).TabularFails?
    ensures var v := m.workers[w];
            Inv(m.(workers := m.workers[w := InGnn(v.n, v.job, v.features)]), fates)
  {
    hide Inv, FeaturesInOrder;
    var v := m.workers[w];
    HeldIsSound(m, fates, w);
    MoveKeeps(m, fates, w, InGnn(v.n, v.job, v.features));
  }

  lemma AdvanceKeeps(m: Machine, fates: Fates, w: nat)
    requires Inv(m, fates) && w < |m.workers|
    requires m.workers[w].InTabular? || (m.workers[w].InGnn? && fates(m.workers[w].n).GnnFails?)
    ensures Inv(Step(m, fates, Resume(w, 0.0)), fates)
  {
    hide Inv, Take, Commit;
    var v := m.workers[w];
    if v.InTabular? && !fates(v.n).TabularFails? {
      TabularKeeps(m, fates, w);
    } else {
      DropKeeps(m, fates, w);
    }
  }

  /** Steps that make no commit do not look at the clock. */
  lemma ClockIrrelevant(m: Machine, fates: Fates, w: nat, now: real)
    requires w < |m.workers| && !(m.workers[w].InGnn? && !fates(m.workers[w].n).GnnFails?)
    ensures Step(m, fates, Resume(w, now)) == Step(m, fates, Resume(w, 0.0))
  {
    hide Take;
  }

  lemma StepKeeps(m: Machine, fates: Fates, a: Action)
    requires Inv(m, fates)
    ensures Inv(Step(m, fates, a), fates)
  {
    hide Inv;
    match a
    case Put(j) =>
      PutKeeps(m, fates, j);
    case Resume(w, now) =>
      if w < |m.workers| {
        var v := m.workers[w];
        if v.InGnn? && !fates(v.n).GnnFails? {
          CommitKeeps(m, fates, w, now);
        } else if v.Idle? && m.queue != [] {
          TakeKeeps(m, fates, w);
        } else if !v.Idle? {
          ClockIrrelevant(m, fates, w, now);
          hide Step;
          if v.InLive? {
            ReturnKeeps(m, fates, w);
          } else {
            AdvanceKeeps(m, fates, w);
          }
        }
      }
  }

  lemma StartHolds(workers: nat, fates: Fates)
    ensures Inv(Start(workers), fates)
  {
    NothingPending(Start(workers).workers, fates);
    assert Moves([]) == JobMoves([]) && Sightings([]) == [];
  }

  lemma {:induction false} RunKeeps(workers: nat, fates: Fates, schedule: seq<Action>)
    ensures Inv(Run(workers, fates, schedule), fates)
    decreases |schedule|
  {
    hide Inv, Step, Start;
    if schedule == [] {
      StartHolds(workers, fates);
    } else {
      RunKeeps(workers, fates, schedule[..|schedule| - 1]);
      StepKeeps(Run(workers, fates, schedule[..|schedule| - 1]), fates, schedule[|schedule| - 1]);
    }
  }

  lemma StepKeepsBound(m: Machine, fates: Fates, a: Action)
    requires |m.queue| <= 10000
    ensures |Step(m, fates, a).queue| <= 10000
    ensures a.Put? && |m.queue| < 10000 ==> Step(m, fates, a).arrived == m.arrived + [a.job]
  {
    hide Recorded, ExtractFeatures, Added, Observed, Centrality, RiskBoost;
  }

  /** The queue holds the arrivals not yet taken, in order, and never more than
      10000 of them. */
  lemma {:induction false} QueueIsBounded(workers: nat, fates: Fates, schedule: seq<Action>)
    ensures var m := Run(workers, fates, schedule);
            m.taken <= |m.arrived| && m.queue == m.arrived[m.taken..] && |m.queue| <= 10000
    decreases |schedule|
  {
    RunKeeps(workers, fates, schedule);
    if schedule != [] {
      hide Step, Accounted, WorkersSound, Built, HistoryAfter;
      QueueIsBounded(workers, fates, schedule[..|schedule| - 1]);
      StepKeepsBound(Run(workers, fates, schedule[..|schedule| - 1]), fates, schedule[|schedule| - 1]);
    }
  }

  // ---- confluence ----

  lemma {:induction false} JobMovesPermute(js: seq<Job>, ks: seq<Job>)
    requires multiset(js) == multiset(ks)
    ensures multiset(JobMoves(js)) == multiset(JobMoves(ks))
    ensures multiset(Sightings(js)) == multiset(Sightings(ks))
    decreases |js|
  {
    hide JobMoves, Sightings;
    SameLength(js, ks);
    if js == [] {
      NoJobs();
    } else {
      var i := FindLast(js, ks);
      var last := |js| - 1;
      JobMovesPermute(js[..last], ks[..i] + ks[i + 1..]);
      assert js[..last] + js[last + 1..] == js[..last];
      WithoutJob(js, last);
      WithoutJob(ks, i);
    }
  }

  lemma NoJobs()
    ensures JobMoves([]) == [] && Sightings([]) == []
  {
  }

  lemma WithoutJob(js: seq<Job>, i: nat)
    requires i < |js|
    ensures multiset(JobMoves(js)) == multiset(JobMoves(js[..i] + js[i + 1..]))
                                      + multiset{Move(js[i].from, js[i].to, js[i].value)}
    ensures multiset(Sightings(js)) == multiset(Sightings(js[..i] + js[i + 1..])) + multiset{SightingOf(js[i])}
  {
    RemoveOne(JobMoves(js), i);
    RemoveOne(Sightings(js), i);
    MovesWithout(js, i);
    SightingsWithout(js, i);
    hide JobMoves, Sightings;
  }

  lemma MovesWithout(js: seq<Job>, i: nat)
    requires i < |js|
    ensures |JobMoves(js)| == |js| && JobMoves(js)[i] == Move(js[i].from, js[i].to, js[i].value)
    ensures JobMoves(js)[..i] + JobMoves(js)[i + 1..] == JobMoves(js[..i] + js[i + 1..])
  {
  }

  lemma SightingsWithout(js: seq<Job>, i: nat)
    requires i < |js|
    ensures |Sightings(js)| == |js| && Sightings(js)[i] == SightingOf(js[i])
    ensures Sightings(js)[..i] + Sightings(js)[i + 1..] == Sightings(js[..i] + js[i + 1..])
  {
  }

  /** What handling `jobs` one after the other leaves behind. */
  function SequentialGraph(jobs: seq<Job>, fates: Fates, now: real): DiGraph {
    Replay(Applied(Committing(jobs, fates, |jobs|), now))
  }

  function SequentialIndex(jobs: seq<Job>, fates: Fates): Index {
    ObservedAll(Sightings(Committing(jobs, fates, |jobs|)))
  }

  /** Confluence: whatever the number of workers, the schedule, the failures and
      the clock, once all arrivals are handled the graph's nodes, edges, counts,
      totals and weights, the whole cross-chain index and the feature history
      are those of the sequential run in order of arrival. */
  lemma Confluence(workers: nat, fates: Fates, schedule: seq<Action>, now: real, a: Address, b: Address)
    requires Quiescent(Run(workers, fates, schedule))
    ensures var m := Run(workers, fates, schedule);
            && SameRecords(m.graph, SequentialGraph(m.arrived, fates, now), a, b)
            && m.index == SequentialIndex(m.arrived, fates)
            && m.history == HistoryAfter(m.arrived, |m.arrived|)
  {
    hide Run, SameRecords, Replay, ObservedAll;
    RunKeeps(workers, fates, schedule);
    var m := Run(workers, fates, schedule);
    assert m.taken == |m.arrived|;
    NothingPending(m.workers, fates);
    var inOrder := Committing(m.arrived, fates, |m.arrived|);
    JobMovesPermute(m.committed, inOrder);
    assert Moves(Applied(inOrder, now)) == JobMoves(inOrder);
    OrderIndependence(m.applied, Applied(inOrder, now), a, b);
    ObservationOrder(Sightings(m.committed), Sightings(inOrder));
  }

  /** The jobs that pay along one edge, in order. */
  function PayingJobs(jobs: seq<Job>, a: Address, b: Address): seq<Job> {
    if jobs == [] then []
    else
      var last := jobs[|jobs| - 1];
      PayingJobs(jobs[..|jobs| - 1], a, b)
      + (if last.from == a && last.to == b && b != NoAddress then [last] else [])
  }

  lemma {:induction false} PayingMadeBy(txs: seq<Tx>, jobs: seq<Job>, a: Address, b: Address)
    requires MadeBy(txs, jobs)
    ensures MadeBy(Paying(txs, a, b), PayingJobs(jobs, a, b))
  {
    if txs != [] {
      PayingMadeBy(txs[..|txs| - 1], jobs[..|jobs| - 1], a, b);
    }
  }

  /** What the pipeline writes: wallets without risk, cluster or flag, and edges
      with hash, block and kind of the first paying job and the time of the last. */
  ghost predicate WrittenBy(g: DiGraph, jobs: seq<Job>, a: Address, b: Address) {
    && (a in g.nodes ==> g.nodes[a].risk == 0.0 && g.nodes[a].clusterId.None? && !g.nodes[a].flagged)
    && ((a, b) in g.edges <==> PayingJobs(jobs, a, b) != [])
    && ((a, b) in g.edges ==>
          var ps := PayingJobs(jobs, a, b);
          g.edges[(a, b)] == Edge(ps[0].hash, g.edges[(a, b)].value, ps[|ps| - 1].timestamp,
                                  ps[0].block, ps[0].contractCall))
  }

  lemma {:induction false} NoRiskReported(txs: seq<Tx>, jobs: seq<Job>, a: Address)
    requires MadeBy(txs, jobs)
    ensures ReportedRisk(txs, a) == 0.0
  {
    if txs != [] {
      NoRiskReported(txs[..|txs| - 1], jobs[..|jobs| - 1], a);
    }
  }

  lemma ReplayIsWrittenBy(txs: seq<Tx>, jobs: seq<Job>, a: Address, b: Address)
    requires MadeBy(txs, jobs)
    ensures WrittenBy(Replay(txs), jobs, a, b)
  {
    NoRiskReported(txs, jobs, a);
    RiskIsHighestReported(txs, a);
    NeverLabelled(txs, a);
    EdgeWriters(txs, a, b);
    PayingMadeBy(txs, jobs, a, b);
    hide Replay, PayingJobs, Paying, ReportedRisk;
  }

  /** The rest of confluence: once all arrivals are handled, two graphs differ at
      most in the clock fields of their wallets and in who was first and last to
      pay along an edge, among the same jobs. */
  lemma OnlyWritersDiffer(workers: nat, fates: Fates, schedule: seq<Action>, now: real, a: Address, b: Address)
    requires Quiescent(Run(workers, fates, schedule))
    ensures var m := Run(workers, fates, schedule);
            var g, h := m.graph, SequentialGraph(m.arrived, fates, now);
            var inOrder := Committing(m.arrived, fates, |m.arrived|);
            && multiset(m.committed) == multiset(inOrder)
            && WrittenBy(g, m.committed, a, b) && WrittenBy(h, inOrder, a, b)
            && (a in g.nodes <==> a in h.nodes)
            && (a in g.nodes ==>
                  g.nodes[a] == h.nodes[a].(firstSeen := g.nodes[a].firstSeen, lastSeen := g.nodes[a].lastSeen))
  {
    RunKeeps(workers, fates, schedule);
    hide Run, SameRecords, Replay, WrittenBy, Inv, Quiescent, Committing, Applied, MadeBy;
    Confluence(workers, fates, schedule, now, a, b);
    var m := Run(workers, fates, schedule);
    AllCommitted(m, fates);
    var inOrder := Committing(m.arrived, fates, |m.arrived|);
    AppliedMadeBy(inOrder, now);
    ReplayIsWrittenBy(m.applied, m.committed, a, b);
    ReplayIsWrittenBy(Applied(inOrder, now), inOrder, a, b);
    SameNode(m.graph, SequentialGraph(m.arrived, fates, now), m.committed, inOrder, a, b);
  }

  lemma AllCommitted(m: Machine, fates: Fates)
    requires Inv(m, fates) && Quiescent(m)
    ensures m.taken == |m.arrived| && multiset(m.committed) == multiset(Committing(m.arrived, fates, |m.arrived|))
    ensures m.graph == Replay(m.applied) && MadeBy(m.applied, m.committed)
  {
    NothingPending(m.workers, fates);
    hide WorkersSound, Committing, HistoryAfter;
  }

  lemma AppliedMadeBy(jobs: seq<Job>, now: real)
    ensures MadeBy(Applied(jobs, now), jobs)
  {
  }

  lemma SameNode(g: DiGraph, h: DiGraph, js: seq<Job>, ks: seq<Job>, a: Address, b: Address)
    requires SameRecords(g, h, a, b) && WrittenBy(g, js, a, b) && WrittenBy(h, ks, a, b)
    ensures a in g.nodes <==> a in h.nodes
    ensures a in g.nodes ==>
              g.nodes[a] == h.nodes[a].(firstSeen := g.nodes[a].firstSeen, lastSeen := g.nodes[a].lastSeen)
  {
    hide PayingJobs;
  }

  /** The features given to the models do not depend on the schedule. */
  lemma FeaturesAreScheduleIndependent(workers: nat, fates: Fates, schedule: seq<Action>, i: nat)
    requires i < |Run(workers, fates, schedule).scored|
    ensures var m := Run(workers, fates, schedule);
            m.scored[i].n < |m.arrived| && m.scored[i].features == FeaturesInOrder(m.arrived, m.scored[i].n)
  {
    hide Run, FeaturesInOrder;
    RunKeeps(workers, fates, schedule);
    var m := Run(workers, fates, schedule);
    assert ScoredSound(m.scored[i], m.arrived, m.taken, fates);
  }

  /** A worker whose third call returns hands its job to the scorer. */
  lemma LiveTurn(m: Machine, fates: Fates, w: nat)
    requires w < |m.workers| && m.workers[w].InLive?
    ensures var v := m.workers[w];
            Step(m, fates, Resume(w, 0.0))
            == m.(workers := m.workers[w := Idle],
                  scored := if fates(v.n).LiveFails? then m.scored
                            else m.scored + [Scored(v.n, v.features, v.centrality, v.boost)])
  {
  }
}
