# Verified model of the transaction analysis core

The repository watches a stream of blockchain transactions, keeps a directed graph of
wallets, groups wallets into clusters, scores every transaction and raises alerts. This
project models that stateful core in Dafny and proves what it keeps over every run.

| file | models |
|---|---|
| `UnionFind.dfy` | the union-find forest over wallets (theory in `Forests`, the class in `WalletClusters`) |
| `DiGraph.dfy`, `Ledger.dfy` | the attributed directed graph, and the running totals over whole runs of `add_transaction` |
| `Walks.dfy`, `Search.dfy` | simple paths, backward reachability, and the progress of the breadth-first path search |
| `ClusterRisk.dfy`, `ThreatGraph.dfy` | clustering by co-inputs, risk propagation, and the graph class itself |
| `CrossChain.dfy` | the cross-chain index and its risk boost |
| `Velocity.dfy` | the pruned address history against the batch velocity |
| `Pipeline.dfy` | the scoring workers as a step machine over one queue, under every schedule |
| `JobFeatures.dfy` | the velocity features of a scored job in terms of the jobs that arrived |
| `Snapshots.dfy`, `Schedules.dfy` | what a job's centrality and boost are read from, runs that realise the extremes, and the exact condition for reading the same in every run |
| `Assessments.dfy` | from the readings of a worker to the action, and the exact condition for the same action in every run |
| `RateLimiter.dfy` | the sliding-window limiter |
| `Producer.dfy`, `Ingester.dfy`, `Consumer.dfy` | the three delivery loops under failures and crashes |
| `Bytecode.dfy` | the EVM bytecode walk |
| `RiskScorer.dfy`, `ScoreFields.dfy` | the composite score and its laws, and what it is in terms of each model and weight |
| `AlertManager.dfy`, `Acknowledgements.dfy` | the alert store, and what acknowledging does to it over a run |
| `Backtester.dfy` | threshold sweeps |
| `Common.dfy` | addresses, options, and folds whose steps commute |

Code that changes an object in place is a class whose methods are proved against a
function of the old state; what the repository promises is then proved about that
function, over every sequence of calls.

## Conventions

- Numbers that Python keeps as floats are `real`; counts are unbounded. Clocks are
  parameters.
- An address is `NoAddress` (the empty string, or None for a recipient) or a named wallet.
- RPC, broker, executor and handler outcomes are arbitrary inputs of each step.
- Where Python iterates over a dictionary, the insertion order is an explicit sequence;
  where it iterates over a set, the order is arbitrary.
- Ghost fields record the run so far (pairs united, messages sent, alerts evicted); no
  non-ghost code reads them.

## Where the code differs from its documentation

Each of these is proved about the code as it is.

- `add_transaction` is documented as idempotent (`src/graph/threat_graph.py:143-147`). A
  repeated call adds no node and no edge, but leaves the graph unchanged exactly when the
  transaction has no recipient (`Ledger.RepeatIsHarmlessIffNoRecipient`). The comment at
  line 190 says that an edge keeps the higher value; it keeps the sum, and the two agree
  exactly when the lower value is 0 (`Ledger.SumIsHigherIff`).
- The consumer promises no silent data loss (`src/streaming/consumer.py:27`). A message
  whose handler raised can be delivered again exactly as long as no later message was
  committed (`Consumer.RedeliveredIffNothingLaterCommitted`); `Consumer.SilentLoss` gives a
  run of two messages that loses the first. Bytes that are not UTF-8 take the same path
  as a raising handler, and a handler that raises JSONDecodeError has its message
  committed as malformed.
- A lone centrality is said to stay below the watchlist threshold in live mode
  (`src/response/risk_scorer.py:214-221`). It does so exactly when it is not 1
  (`RiskScorer.LoneCentralityIsThreatIffOne`).
- `find_laundering_paths` is said to be limited to `max_paths` paths
  (`src/graph/threat_graph.py:249`). The limit is not looked at while paths of full length are
  taken from the queue: the result keeps within it exactly when at least `max_paths` simple
  paths are shorter than `max_depth`, or there are no more than `max_paths` in all
  (`Walks.LimitHoldsIff`). Around a hub any number of leaves is returned at depth 1 and limit
  1 (`ThreatGraphs.HubIgnoresLimit`).
- `propagate_cluster_risk` raises ValueError exactly when some cluster has no member in the
  graph, after having raised the scores of the clusters before it
  (`ThreatGraphs.ThreatGraph.PropagateClusterRisk`). Clustering two wallets that no
  transaction has mentioned is enough (`ThreatGraphs.UnknownClusterRaises`).
- The producer re-sends a message whose `poll` raised after its `produce` had succeeded:
  each message is in exactly one place if and only if no attempt ended that way
  (`Producer.ExactlyOnceIffNoPollFailure`); `Producer.PollFailureDuplicates` is the shortest
  run that duplicates. Without such attempts it sends messages out of order exactly when the
  broker refuses a buffered message and accepts the next attempt
  (`Producer.OrderKeptIffNotOvertaken` for a call, `Producer.RunInOrderIffNeverRecovers` for
  a run), as in `Producer.RecoveryOvertakes`.
- `_queue` of the alert manager is pushed to and never popped: its length is the number of
  alerts ever created (`AlertManager.EveryRun`).
- The accumulated state of the pipeline does not depend on the schedule
  (`Pipeline.Confluence`), but what a job is scored on may: `Schedules.CentralityDependsOnSchedule`
  gives two schedules of two jobs. With at least two workers, all runs over the same arrivals
  and failures score a job on the same centrality and boost if and only if neither the later
  jobs nor keeping back fewer earlier jobs than there are workers changes the degree and the
  boost of its sender (`Schedules.ReportIsFixedIffSettled`). That can be read off the queue;
  for the two workers of the pipeline it is enough to leave out one earlier job at a time
  (`Schedules.SettledForTwoWorkers`), for three it is not (`Schedules.OneLateJobIsNotEnough`).
- So may the action: with the weights of the source two schedules of the same two jobs let the
  first one pass or put it on the watchlist (`Assessments.ActionDependsOnSchedule`). All runs
  take the same action on a job if and only if keeping back fewer earlier jobs than there are
  workers does not make it milder than all arrivals together do
  (`Assessments.ActionIsFixedIffSettled`).
- The pruned history of an address is its last hour exactly when the newest transaction
  also has the latest timestamp (`Velocity.HistoryIsWindowIffLatest`); otherwise it holds
  transactions later than that timestamp as well. The gap feature is negative exactly when at least two
  recorded times are later (`Velocity.GapIsNonNegativeIff`).
- A gap of -1 is documented as "first seen" (`src/ml/tabular/feature_engineer.py:61`). With
  times in order it also marks a transaction whose predecessor lies before the window
  (`Velocity.MarkedFirstInOrderIff`); in any order it also results when the second greatest
  recorded time is one second after the transaction's own, and in no other case
  (`Velocity.MarkedFirstIff`, with an input in `Velocity.GapCollidesWithMarker`).

## Model

| member | source | states |
|---|---|---|
| WalletClusters.UnionFind.Find | src/graph/threat_graph.py:89-96 | returns the root of the wallet; no other wallet's root and no rank changes, an unknown wallet becomes a cluster of its own, exactly the path walked is flattened, and the recursion is one call deeper than the path is long |
| Forests.FlattenedPoints | src/graph/threat_graph.py:94-95 | path compression points exactly the wallets on the path at the root and leaves every other parent alone |
| Forests.Compress | src/graph/threat_graph.py:94-95 | pointing a wallet at its root keeps every root, the rank order and the size bound |
| WalletClusters.UnionFind.Union | src/graph/threat_graph.py:98-107 | the forest then represents the pairs united so far plus this one; both wallets get the root of higher rank, that of the first one if the ranks are equal, whose rank then rises by one; no other root changes; unknown wallets are appended in the order looked up |
| Forests.Hang | src/graph/threat_graph.py:103-107 | hanging the root of lower rank merges exactly two clusters; rank still rises from child to parent and a root of rank r still has at least 2^r members |
| Forests.RootMapIsUnique | src/graph/threat_graph.py:89-96 | the parents alone determine the root of every wallet |
| Forests.SameRootIffLinked | src/graph/threat_graph.py:89-110 | two known wallets have one root exactly when they are in the reflexive, symmetric and transitive closure of the united pairs |
| Forests.DepthIsLogarithmic | src/graph/threat_graph.py:89-107 | a chain of k parent links needs at least 2^k known wallets |
| WalletClusters.UnionFind.FindIsShallow | src/graph/threat_graph.py:89-96 | the recursion of `find` is at most log2(n) + 1 calls deep |
| WalletClusters.UnionFind.SameCluster | src/graph/threat_graph.py:109-110 | answers true exactly for wallets linked by the pairs united so far, unites nothing itself, and makes unknown wallets known in the order given |
| WalletClusters.UnionFind.GetClusters | src/graph/threat_graph.py:112-117 | splits the known wallets by root, in insertion order, changes no root, and lists the clusters in the order of their first members |
| Forests.MetInOrderGrows | src/graph/threat_graph.py:114-116 | a cluster met for the first time goes to the end, and the clusters stay listed by their first members |
| Forests.PositionCountsEarlier | src/graph/threat_graph.py:392 | the number that enumeration gives to a cluster is the number of clusters whose first member became known before its own |
| ClusterRisk.ClustersAreClasses | src/graph/threat_graph.py:112-117 | every known wallet is listed once, in one cluster, and shares it with exactly the wallets linked to it |
| ClusterRisk.LinkedIffCoInputChain | src/graph/threat_graph.py:384-387 | uniting the first input with each other input links two wallets exactly when a chain of co-input transactions joins them |
| ClusterRisk.IntroducedByFirstOccurrence | src/graph/threat_graph.py:384-387 | the wallets of transactions with at least two inputs are known once each, in the order in which the inputs first name them |
| ThreatGraphs.ThreatGraph.ClusterWalletsUnionFind | src/graph/threat_graph.py:372-403 | over all calls so far, two graph wallets known to the forest share a cluster id exactly when co-input transactions link them; the id is the number of clusters whose first wallet was named earlier; nothing else in the graph changes |
| ClusterRisk.LabelsAreClasses | src/graph/threat_graph.py:391-395 | numbering clusters in the order of their roots gives equal ids exactly to linked wallets and leaves wallets unknown to the forest alone |
| ThreatGraphs.ThreatGraph.PropagateClusterRisk | src/graph/threat_graph.py:442-468 | clusters are visited in the order of their first wallets; it completes exactly when every cluster has a member in the graph, and then each member of a cluster with maximum M > 0.5 has max(own, 0.7 M); otherwise exactly the clusters before the first one without a graph member were done |
| ThreatGraphs.UnknownClusterRaises | src/graph/threat_graph.py:450-460 | on a fresh graph, clustering any two wallets makes the propagation end in ValueError |
| ClusterRisk.VisitIsComplete | src/graph/threat_graph.py:450-460 | whatever the order of the clusters, the visit ends early exactly when some cluster has no member in the graph |
| ClusterRisk.PeakIsMaximum | src/graph/threat_graph.py:454-457 | the maximum over a cluster is attained by a member in the graph, bounds all of them, and is missing exactly if there is none |
| ClusterRisk.SpreadIsShareOfPeak | src/graph/threat_graph.py:462-468 | a wallet of a visited cluster ends with 0.7 of the greatest risk in its cluster if that risk is above 0.5 and the share exceeds its own, and is otherwise unchanged |
| ClusterRisk.SpreadSkips | src/graph/threat_graph.py:450-468 | a wallet outside the visited clusters keeps all its attributes |
| ClusterRisk.SpreadKeepsPeaks | src/graph/threat_graph.py:462-468 | propagation lowers no score and keeps the maximum of every cluster, whichever clusters were visited |
| ClusterRisk.SpreadIsIdempotent | src/graph/threat_graph.py:450-468 | propagating a second time changes nothing |
| ThreatGraphs.ThreatGraph.AddTransaction | src/graph/threat_graph.py:132-204 | the new graph is the specified one, its successor and predecessor lists still agree with its edges, and its books and clocks are those of all transactions added so far |
| DiGraphs.AddedWellFormed | src/graph/threat_graph.py:150-204 | every edge joins present nodes and is listed once on each side, after any transaction, self-transfers included |
| Ledger.ReplayIsSound | src/graph/threat_graph.py:150-204 | after any run each wallet's total equals what its out-edges carry, and its count is at least its out-degree |
| ThreatGraphs.ThreatGraph.BooksAlwaysBalance | src/graph/threat_graph.py:132-468 | conservation over every mixed run of adding, clustering and propagating: counts, totals and edge weights are those of the transactions added so far |
| ThreatGraphs.ThreatGraph.ClocksAreOfTransactions | src/graph/threat_graph.py:132-468 | the same over every mixed run of adding, clustering and propagating |
| Ledger.Conservation | src/graph/threat_graph.py:180-204 | after any run counts, totals and edge weights are the number and sums of the matching sends, and nodes and edges are exactly those mentioned |
| Ledger.OrderIndependence | src/graph/threat_graph.py:150-204 | nodes, edges, counts, totals and weights depend only on the multiset of (from, to, value) |
| Ledger.ShapeDependsOnEndsOnly | src/graph/threat_graph.py:150-192 | nodes and edges depend only on the set of (from, to) pairs, not on order or repetition |
| Ledger.RepeatIsHarmlessIffNoRecipient | src/graph/threat_graph.py:143-204 | a repeated call adds no node or edge, and changes nothing exactly when there is no recipient |
| Ledger.SumIsHigherIff | src/graph/threat_graph.py:190-203 | a later payment leaves the higher value on the edge exactly if the lower of the two is 0 |
| Ledger.EdgeWriters | src/graph/threat_graph.py:190-204 | an edge exists exactly if something was paid along it; it keeps hash, block and kind of the first such transaction and the timestamp of the last |
| Ledger.WalletClocks | src/graph/threat_graph.py:152-180 | after any run a wallet is present exactly if a transaction mentions it; first_seen is the clock of the first one that does, last_seen that of its last payment to a recipient, or first_seen if there is none |
| Ledger.RiskIsHighestReported | src/graph/threat_graph.py:185-187 | a wallet's risk is the highest positive one reported with its own sends, else 0 |
| ThreatGraphs.ThreatGraph.FindLaunderingPaths | src/graph/threat_graph.py:235-288 | the search loop terminates and returns the specified list of paths, for any depth and limit, also for an absent source |
| Walks.SearchResultIsExact | src/graph/threat_graph.py:257-278 | the list is duplicate-free, in non-decreasing length and holds only simple paths from the source; it is all simple paths of 1 to max_depth edges, or, exactly when at least max_paths are shorter than max_depth, max_paths of those |
| Walks.LimitHoldsIff | src/graph/threat_graph.py:267-278 | at most max_paths paths are returned if and only if at least that many are shorter than max_depth or no more exist |
| ThreatGraphs.HubIgnoresLimit | src/graph/threat_graph.py:269-278 | around a hub built by transactions all leaves are returned at depth 1 and limit 1 |
| Walks.LevelIsExact | src/graph/threat_graph.py:262-275 | the k-th level of the search holds every simple path of k edges and nothing else |
| Search.PoppedSearches | src/graph/threat_graph.py:262-278 | taking one path from the queue keeps the invariant of the search and shrinks its measure |
| Search.CutIsResult | src/graph/threat_graph.py:277-278 | when the limit strikes, the reported paths are the first max_paths of the enumeration |
| ThreatGraphs.ThreatGraph.PeelBack | src/graph/threat_graph.py:290-327 | returns the wallets of the backward closure within max_depth steps, without the address itself |
| Walks.BackIsReaches | src/graph/threat_graph.py:307-320 | that closure is exactly the set of wallets with a directed walk of at most that many edges to the address |
| Walks.WalkToSimplePath | src/graph/threat_graph.py:273-275 | every walk contains a simple path with the same ends and no more edges |
| ThreatGraphs.PeelBackMeetsPaths | src/graph/threat_graph.py:235-327 | when the forward search from w is not cut off, it contains a path that ends at a exactly when peeling back from a finds w |
| CrossChain.CrossChainAnalyzer.Observe | src/graph/cross_chain.py:102-140 | the new index is that of one more sighting; the flags report the bridge and the wallet that used it, the bridged asset, and the chains of a sender seen on more than one |
| CrossChain.ObservedCommutes | src/graph/cross_chain.py:114-132 | two observations in either order leave the same four dictionaries |
| CrossChain.ObservationOrder | src/graph/cross_chain.py:114-132 | the whole index depends only on the multiset of sightings |
| CrossChain.IndexIsCensus | src/graph/cross_chain.py:114-132 | an address's chains are those of the sightings that involve it, its bridges those it used, the recipient being looked up before the sender, and its hits are the numbers of uses |
| CrossChain.BoostIsTable | src/graph/cross_chain.py:152-171 | after any run the boost is 1.4 for a wallet that used a bridge and was seen on two chains, 1.25 for a bridge alone, 1.15 for two chains alone, 1.08 for a bridged asset alone and 1 otherwise |
| CrossChain.LookupIgnoresCase | src/graph/cross_chain.py:61-83 | a registered contract is recognised whatever the case of the letters of its address |
| CrossChain.BoostNeverDrops | src/graph/cross_chain.py:152-171 | one more observation lowers no address's boost, which stays between 1 and 1.4 |
| CrossChain.BoostOverRun | src/graph/cross_chain.py:152-171 | along any run the boost of an address never decreases |
| Pipeline.Confluence | src/pipeline/scoring_pipeline.py:55-113 | for any number of workers, schedule, executor failures and clocks, once all arrivals are handled the graph's records, the whole cross-chain index and the feature history are those of the sequential run |
| Pipeline.OnlyWritersDiffer | src/graph/threat_graph.py:150-204 | beyond that, a wallet's node differs from the sequential run's at most in its two clock fields, with no risk, cluster or flag, and an edge only in who among the same paying jobs was first and last to commit |
| Pipeline.StepKeeps | src/pipeline/scoring_pipeline.py:55-130 | every step keeps the accounting: each job taken and not dropped is committed or still held, once |
| Pipeline.QueueIsBounded | src/pipeline/scoring_pipeline.py:233 | in every run the queue holds the arrivals not yet taken, in order, and at most 10000 |
| Pipeline.FeaturesAreScheduleIndependent | src/pipeline/scoring_pipeline.py:55-80 | the features of each job are those it has when jobs are handled in order of arrival, whatever the schedule |
| JobFeatures.HistorySummarises | src/ml/tabular/feature_engineer.py:176-192 | the history dictionary after the first k jobs holds for every wallet exactly what pruning keeps of its jobs among them |
| JobFeatures.ScoredFeatures | src/pipeline/scoring_pipeline.py:74 | in every run the features of a scored job are those of what pruning keeps of its sender's timestamps and values up to and including its own |
| JobFeatures.ScoredFeaturesOfTheHour | src/ml/tabular/feature_engineer.py:126-139 | in every run, for a sender with timestamps in order, the count is the number of its jobs up to the scored one that are at most 3600 seconds older, the sum is over their values, and the gap is to the sender's previous job if that is among them, else -1 |
| Snapshots.DegreeIsRead | src/pipeline/scoring_pipeline.py:99-105 | the centrality read from the graph is the capped number of distinct counterparties, both ways, over the committed jobs |
| Snapshots.BoostIsRead | src/pipeline/scoring_pipeline.py:110-113 | the boost read from the index is that of the chains, bridges and assets over the committed jobs |
| Snapshots.StepTracked | src/pipeline/scoring_pipeline.py:78-130 | every step keeps that each reading is explained by a set of committed jobs from which fewer earlier ones are missing than there are workers |
| Snapshots.ReportIsASnapshot | src/pipeline/scoring_pipeline.py:88-155 | in every run a job is scored on the degree and boost over the jobs committed by then, between those for the job alone and for all committing arrivals |
| Schedules.EarlyRun | src/pipeline/scoring_pipeline.py:78-130 | any set of earlier jobs smaller than the number of workers can be kept back until the job is scored |
| Schedules.LateRun | src/pipeline/scoring_pipeline.py:78-130 | with two workers a job can be kept back until all others have committed |
| Schedules.CentralityIsFixedIffSettled | src/pipeline/scoring_pipeline.py:98-105 | with at least two workers every run gives a job the same centrality if and only if neither the later jobs nor keeping back fewer earlier ones than there are workers changes its sender's capped degree |
| Schedules.BoostIsFixedIffSettled | src/pipeline/scoring_pipeline.py:110-113 | the same for the cross-chain boost |
| Schedules.ReportIsFixedIffSettled | src/pipeline/scoring_pipeline.py:74-155 | everything handed to the scorer for a job is the same in every run if and only if both are settled |
| Schedules.SettledForTwoWorkers | src/pipeline/scoring_pipeline.py:251-255 | for two workers the conditions say that neither the later jobs nor leaving out any one earlier job matters |
| Schedules.OneLateJobIsNotEnough | src/pipeline/scoring_pipeline.py:98-105 | three jobs whose degree is settled for two workers and not for three |
| Schedules.FirstOfTwoIsFixedIff | src/pipeline/scoring_pipeline.py:98-105 | of two jobs, the first one's centrality is the same in every run of two workers exactly if the second puts no new edge at its sender |
| Schedules.CentralityDependsOnSchedule | src/pipeline/scoring_pipeline.py:98-105 | two whole runs over the same two jobs that give the first sender centrality 0.01 and 0.02 |
| Assessments.FlaggedIffBusy | src/pipeline/scoring_pipeline.py:108 | in every run, for a sender with timestamps in order, the velocity flag is set exactly from its 21st job within an hour on |
| Assessments.AverageOfOutputs | src/pipeline/scoring_pipeline.py:130-155 | which model output is weighed by which weight: three models in trusted mode, else the live one in the first place with centrality halved in its absence |
| Assessments.ActionIsMonotone | src/pipeline/scoring_pipeline.py:98-155 | more committed jobs never lead to a milder action |
| Assessments.ActionIsFixedIffSettled | src/pipeline/scoring_pipeline.py:74-165 | with at least two workers every run takes the same action on a job if and only if keeping back fewer earlier jobs than there are workers leads to the same action as all arrivals |
| Assessments.LoneSignalIsThreatIff | src/pipeline/scoring_pipeline.py:99-105 | in live mode and without any other signal a job is a threat exactly if its sender had at least 100 counterparties among the jobs committed by then |
| Assessments.ActionDependsOnSchedule | src/response/risk_scorer.py:47-60 | with the weights of the source, a job followed by a bridge transfer of its sender is let pass in one run and put on the watchlist in another |
| Velocity.FeatureEngineer.Extract | src/ml/tabular/feature_engineer.py:116-139 | the features are those of what pruning keeps of the sender's full log, and the stored histories still summarise all logs |
| Velocity.PruningIsHarmless | src/ml/tabular/feature_engineer.py:188-192 | pruning loses nothing that a cutoff at or after all earlier ones would keep |
| Velocity.HistoryIsWindowIffLatest | src/ml/tabular/feature_engineer.py:176-203 | the pruned history is the window of the full log exactly when the newest transaction has the latest timestamp |
| Velocity.IncrementalMatchesLog | src/ml/tabular/feature_engineer.py:126-139 | for timestamps in order, count and sum are those over the full log's window, and the gap is to the predecessor if in the window, else -1 |
| Velocity.IncrementalMatchesBatch | src/ml/tabular/vectorized_features.py:54-67 | for timestamps in order, the incremental count equals the batch velocity at the last index |
| Velocity.RecordedSummarises | src/ml/tabular/feature_engineer.py:176-192 | updating one address's history keeps the summary of every address |
| Velocity.SortedEndsInMax | src/ml/tabular/feature_engineer.py:135-137 | sorting puts the greatest time last |
| Velocity.SortedIsPermutation | src/ml/tabular/feature_engineer.py:136 | sorting yields an ascending permutation |
| Velocity.SecondIsGreatestOfRest | src/ml/tabular/feature_engineer.py:135-137 | the time before the last is the greatest of those beside one occurrence of the maximum |
| Velocity.GapIsNonNegativeIff | src/ml/tabular/feature_engineer.py:134-139 | for times in any order, the gap is not negative exactly if at most one recorded time is later than the transaction's own |
| Velocity.MarkedFirstIff | src/ml/tabular/feature_engineer.py:134-139 | the gap is -1 exactly for at most one recorded time or when two recorded times are at least, and not two more than, one second after the transaction's own |
| Velocity.MarkedFirstInOrderIff | src/ml/tabular/feature_engineer.py:134-139 | for times in order, the gap is -1 exactly for a first transaction or one whose predecessor lies before the window |
| Velocity.GapCollidesWithMarker | src/ml/tabular/feature_engineer.py:134-139 | times 101, 102, 100 give a gap of -1 with three entries recorded |
| Velocity.ComputeVelocity | src/ml/tabular/vectorized_features.py:30-51 | the compiled loop agrees with the array expression at every index |
| Velocity.DetectBurst | src/ml/tabular/vectorized_features.py:127-148 | a burst is flagged exactly where the velocity reaches the threshold |
| RateLimiter.GetLimit | src/api/middleware/rate_limiter.py:44-48 | the limit of the first matching prefix, the default exactly if none matches |
| RateLimiter.AcceptedIffRoom | src/api/middleware/rate_limiter.py:62-71 | a request is accepted exactly if fewer than limit of the accepted ones are less than a window old |
| RateLimiter.Limiter.CheckRateLimit | src/api/middleware/rate_limiter.py:51-72 | refuses exactly when the live entries fill the limit, reports the room left, and touches no other key |
| RateLimiter.StoredIsRecentlyAccepted | src/api/middleware/rate_limiter.py:62-71 | the stored list is exactly the accepted times newer than the window start |
| RateLimiter.AcceptedAreSpaced | src/api/middleware/rate_limiter.py:51-72 | among limit + 1 consecutive accepted requests the last comes at least a window after the first |
| RateLimiter.KeysAreIndependent | src/api/middleware/rate_limiter.py:59-71 | a key's entries are a function of that key's own requests |
| RateLimiter.DecisionIsExact | src/api/middleware/rate_limiter.py:63-69 | after any run over all keys, the live entries that decide are as many as requests of the key accepted, without pruning, in the window |
| Producer.ThreatIntelProducer.ProduceTransaction | src/streaming/producer.py:86-109 | the state after one call with any broker behaviour |
| Producer.ThreatIntelProducer.DrainBuffer | src/streaming/producer.py:111-128 | re-sends from the oldest on until one attempt fails |
| Producer.CopiesAreConserved | src/streaming/producer.py:86-128 | over every run sent, buffered and evicted together hold every message once, plus one copy per failed poll |
| Producer.ExactlyOnceIffNoPollFailure | src/streaming/producer.py:116-124 | every message is in exactly one place if and only if none of the attempts that the calls make ends in a raising poll |
| Producer.ExactlyOnceIfOnlyProduceFails | src/streaming/producer.py:88-128 | with failures only in produce calls every message is in exactly one of the three places |
| Producer.PollFailureDuplicates | src/streaming/producer.py:91-102 | a first poll that raises leaves the message sent and buffered |
| Producer.BufferStaysSound | src/streaming/producer.py:40-47 | the buffer stays within 10000 and in submission order, and everything evicted is older than everything buffered |
| Producer.OrderKeptIffNotOvertaken | src/streaming/producer.py:88-102 | absent poll failures, a call keeps sending order exactly unless the broker refuses a buffered message and accepts the attempt after it |
| Producer.OvertakesIffRecovers | src/streaming/producer.py:115-124 | a message is sent while older ones stay buffered exactly when the first attempt not accepted is among those of the drain and the next is accepted |
| Producer.RunInOrderIffNeverRecovers | src/streaming/producer.py:86-128 | absent poll failures, every prefix of a run has sent in submission order if and only if the broker recovers that way in no call |
| Producer.RecoveryOvertakes | src/streaming/producer.py:88-102 | a broker that recovers between drain and send has the second message sent while the first is buffered |
| Producer.SteadyRun | src/streaming/producer.py:86-128 | with a broker that is up or down for whole calls, sending order is submission order and each message is in one place |
| Producer.OutageBuffers | src/streaming/producer.py:98-102 | after k calls without a broker the newest 10000 messages are buffered in order and exactly the others were evicted, oldest first |
| Producer.OutageRecovers | src/streaming/producer.py:111-128 | an outage of at most 10000 messages, once over, has lost, duplicated and reordered nothing |
| Ingester.BlockIngester.StreamViaPolling | src/blockchain/ingester.py:110-166 | the loop ends in the specified state for any sequence of failing and completing iterations |
| Ingester.NothingIsMissed | src/blockchain/ingester.py:113-166 | `last_block` never decreases and the queue received every transaction of the blocks up to it, plus what failed iterations had put there |
| Ingester.BlockStands | src/blockchain/ingester.py:124-150 | in what is enqueued for a range every block stands after those before it and before those after it |
| Ingester.PartialIsPrefix | src/blockchain/ingester.py:124-166 | an iteration that raises has enqueued a prefix of its work: the whole blocks it did and the transactions of the next one up to there |
| Ingester.LastBlockIsHighestDone | src/blockchain/ingester.py:113-152 | `last_block` is the highest head among the start and the iterations that ran to their end |
| Ingester.ExactlyOnceIffNothingWasted | src/blockchain/ingester.py:113-166 | each transaction was enqueued once, in chain order, if and only if no iteration raised after it had enqueued something |
| Ingester.ExactlyOnceWithoutFailures | src/blockchain/ingester.py:113-154 | if no iteration is cut short, everything up to `last_block` was enqueued once and in chain order |
| Consumer.ThreatIntelConsumer.Iterate | src/streaming/consumer.py:86-143 | one uninterrupted iteration is poll, process and commit in turn; the committed offset moves exactly for a message handled or taken for malformed whose commit succeeds; the loop ends exactly when the commit of one taken for malformed raises, at the committed offset |
| Consumer.AtLeastOnceUnlessRaised | src/streaming/consumer.py:85-143 | in every run with crashes anywhere, each offset below the committed one was handled, is malformed JSON, or had a delivery that raised |
| Consumer.RecordsAreEvents | src/streaming/consumer.py:105-143 | an offset counts as handled, raised or misread exactly if some event of the run ended a delivery of it with that outcome |
| Consumer.AtLeastOnceOverEvents | src/streaming/consumer.py:85-143 | each offset below the committed one is malformed JSON or some delivery of it came to an end |
| Consumer.AtLeastOnceIfNothingRaises | src/streaming/consumer.py:85-143 | if no handler raises and every payload is UTF-8, each offset below the committed one was handled or is malformed JSON |
| Consumer.CommitsAreDeserved | src/streaming/consumer.py:105-134 | a commit is made only for a message handled, malformed, or whose handler raised JSONDecodeError |
| Consumer.NeverAgain | src/streaming/consumer.py:112-143 | an offset below the committed one is never delivered or handled again |
| Consumer.RedeliveredIffNothingLaterCommitted | src/streaming/consumer.py:136-143 | after a crash at any point a message can be delivered again if and only if neither it nor a later one was committed |
| Consumer.NeverSkipped | src/streaming/consumer.py:85-143 | after such a crash, if nothing from the message on was committed, every continuation that gets past it delivers it |
| Consumer.SilentLoss | src/streaming/consumer.py:136-143 | after a run of two messages the first is never handled, whatever follows |
| Bytecode.CountOpcodes | src/scanner/ml_classifier.py:109-119 | the loop counts, for every opcode, the walk's visits |
| Bytecode.Extract | src/scanner/ml_classifier.py:92-145 | counts are numbers of instruction starts per opcode, flags are set exactly when the opcode is at one, text that is not hexadecimal gives the empty features |
| Bytecode.CountIsStarts | src/scanner/ml_classifier.py:111-119 | on any bytes the walk visits exactly the instruction starts of section 9.4.3 of the Yellow Paper, truncated last PUSH included |
| Bytecode.PushCarriesData | src/scanner/ml_classifier.py:114-119 | PUSHk carries k bytes of data, 1 to 32, no other opcode carries any, and the walk steps over them |
| Bytecode.DecodeEncode | src/scanner/ml_classifier.py:111-119 | decoding the encoding of a program returns it |
| Bytecode.EncodeDecode | src/scanner/ml_classifier.py:111-119 | re-encoding what was decoded from any bytes returns the bytes |
| Bytecode.CountIsHistogram | src/scanner/ml_classifier.py:111-119 | on any bytes the counts are the histogram of the decoded program |
| Bytecode.CountOfEncoding | src/scanner/ml_classifier.py:108-119 | on the encoding of a program the counts are its opcode histogram: PUSH data is never counted |
| Bytecode.HexTextIsRead | src/scanner/ml_classifier.py:97-103 | text that spells bytes with digits in either case parses to them, with or without the prefix and a stray last character |
| Bytecode.BlanksAreIgnored | src/scanner/ml_classifier.py:98 | a blank anywhere in text without a prefix changes nothing |
| Bytecode.PrefixIsDropped | src/scanner/ml_classifier.py:98 | the prefix is dropped wherever it first stands |
| Bytecode.HexRoundTrip | src/scanner/ml_classifier.py:97-103 | hex text of any bytes, with the prefix or without, parses back to them |
| RiskScorer.Score | src/response/risk_scorer.py:198-270 | composite, tier and confidence of the specification whose laws follow |
| ScoreFields.AverageIsWeightedMean | src/response/risk_scorer.py:222-239 | before adjustments the composite times the weight of the available models is the sum of each available score times its own weight, centrality halved in live mode without a model; at total weight 0 it is the plain mean |
| ScoreFields.WeightlessModelIsIgnored | src/response/risk_scorer.py:232-239 | neither the score nor the absence of a model of weight 0 shows in the composite while other weights are left |
| ScoreFields.SoleWeightDecides | src/response/risk_scorer.py:232-239 | the signal that carries all the weight is the composite before adjustments |
| ScoreFields.OnlyTheLastClampActs | src/response/risk_scorer.py:240-268 | for an average in [0, 1] the composite is the average times 1.3 when flagged, at least 0.9 for a known bad address, times the boost, and at most 1: no earlier clamp shows |
| ScoreFields.TierIsByThreshold | src/response/risk_scorer.py:142-150 | EMERGENCY from 0.85 on, QUARANTINE from 0.70, WATCHLIST from 0.50, else LOG_ONLY |
| ScoreFields.ConfidenceIsShare | src/response/risk_scorer.py:153-172 | confidence is the share of available signals on the side of 0.5 on which their undamped mean lies |
| RiskScorer.AverageIsConvex | src/response/risk_scorer.py:232-239 | before adjustments the composite lies between the least and the greatest contributing score, zero weights included |
| RiskScorer.AverageIsMonotone | src/response/risk_scorer.py:232-239 | raising contributing scores never lowers the average |
| RiskScorer.CompositeIsMonotone | src/response/risk_scorer.py:222-270 | the final score is in [0, 1] and score and tier are monotone in every available score, both flags and the boost |
| RiskScorer.KnownBadIsEmergency | src/response/risk_scorer.py:249-251 | a known bad address is EMERGENCY whatever else holds |
| RiskScorer.TierNeverDrops | src/response/risk_scorer.py:259-269 | for fixed model scores the tier never drops along any run of cross-chain observations |
| RiskScorer.LoneCentralityIsThreatIffOne | src/response/risk_scorer.py:222-228 | in live mode a lone centrality reaches WATCHLIST exactly at 1 and otherwise stays LOG_ONLY |
| RiskScorer.ConfidenceBounds | src/response/risk_scorer.py:153-172 | confidence over n scores is between 1/n and 1 |
| AlertManager.Manager.AddOrUpdate | src/response/alert_manager.py:100-141 | the store after one report |
| AlertManager.Manager.Acknowledge | src/response/alert_manager.py:156-169 | the store is that of the specification whose laws follow, and the answer is whether the address has an alert |
| Acknowledgements.AcknowledgementMarks | src/response/alert_manager.py:156-169 | acknowledging a stored address sets the analyst on its alert and changes no other field, alert or counter |
| Acknowledgements.AcknowledgedIsNotShown | src/response/alert_manager.py:143-161 | an acknowledged address is not in the ranked view |
| Acknowledgements.MarkedIffAcknowledged | src/response/alert_manager.py:100-169 | over every run a stored alert is marked exactly if its address was acknowledged while it was stored without interruption since, and it names the latest analyst |
| AlertManager.VictimIsLeast | src/response/alert_manager.py:184-197 | the alert chosen for eviction is the first non-EMERGENCY one of least priority; none is chosen exactly if all are EMERGENCY |
| AlertManager.EveryRun | src/response/alert_manager.py:100-146 | over every run the store is within max(max_alerts, most EMERGENCY alerts stored after any prefix of the run), evicts no EMERGENCY alert, and created = stored + evicted = pushed, created + deduplicated = calls |
| AlertManager.EvictionIsMinimal | src/response/alert_manager.py:184-197 | a call evicts at most one alert, not EMERGENCY, of no higher priority than any non-EMERGENCY alert it leaves |
| AlertManager.EvictsIffFull | src/response/alert_manager.py:120-139 | a call evicts exactly when a new address meets a full store with a non-EMERGENCY alert; then the store is the grown one without the first such alert of least priority; otherwise a new alert goes to the end, and a known address has its alert updated in place |
| AlertManager.LatestReportWins | src/response/alert_manager.py:108-121 | the stored alert of an address carries its latest report and time, one more update, and its old creation time and acknowledgement; other alerts are untouched |
| AlertManager.TopAlertsIsTop | src/response/alert_manager.py:143-146 | the view is the n unacknowledged alerts of highest priority, or all but the last -n for a negative n, in descending order |
| AlertManager.RankingIsStable | src/response/alert_manager.py:146 | alerts of equal priority are ranked in the order in which they are stored |
| AlertManager.ShownIsUnacknowledged | src/response/alert_manager.py:145 | the alerts ranked are exactly the stored ones not acknowledged |
| Backtester.CountsAddUp | src/backtesting/backtester.py:36-42 | the four counts add up to the number of samples at every threshold |
| Backtester.CountsAreCensus | src/backtesting/backtester.py:36-42 | tp, fp, tn and fn are the numbers of illicit flagged, other flagged, other unflagged and illicit unflagged samples |
| Backtester.PrecisionAndRecallAreShares | src/backtesting/backtester.py:45-49 | precision is the illicit share of the flagged samples, recall the flagged share of the illicit ones |
| Backtester.CountsMonotone | src/backtesting/backtester.py:62-73 | raising the threshold never raises tp or fp nor lowers tn or fn, and keeps positives and negatives |
| Backtester.RecallNeverRises | src/backtesting/backtester.py:45-68 | recall never rises with the threshold |
| Backtester.F1Exact | src/backtesting/backtester.py:48-51 | F1 is 2tp / (2tp + fp + fn), and 0 where that is undefined |
| Backtester.F1IsBetween | src/backtesting/backtester.py:48-51 | F1 lies between precision and recall |
| Backtester.ThresholdsAreSpaced | src/backtesting/backtester.py:82 | the thresholds run from 0.05 to 0.95 in equal steps |
| Backtester.SweepIsMonotone | src/backtesting/backtester.py:76-83 | along the sweep tp, fp and recall never rise, tn and fn never fall, and every entry counts all samples |
| Backtester.Round4IsNearest | src/backtesting/backtester.py:57 | rounding gives the nearest multiple of 0.0001, and of two equally near ones the even one |
| Backtester.FindBestThreshold | src/backtesting/backtester.py:86-88 | the first sweep entry of greatest F1 as reported, rounded to four digits; its exact F1 is at most 0.0001 below the greatest |

## Left out

- Model inference, training, explainability and drift detection: library calls; their scores are arbitrary inputs here.
- Louvain communities, Kafka, web3, Redis, SQL, Vault, post-quantum cryptography, JWT and the HTTP API: libraries and plumbing.
- The Solidity rule engine and `BytecodeRiskScorer.score`: fixed tables of patterns and thresholds.
- `flag_address`, `detect_round_trips`, `get_wallet_stats` and the constant `entity_label`: one pass over neighbours each, easy members.
- `get_critical_alerts`, `get_stats` and `chains_for`: filters over state that is modelled.
- Floating point: the model is exact; of the rounded display fields only the F1 that `find_best_threshold` compares is modelled.
- Feature fields other than the three velocity features: computed from one transaction.
- AlertManager.Manager.AddOrUpdate: alerts are values, so the sharing of one alert object between `_alerts` and `_queue` and the heap order of `_queue` are not modelled; priority is an arbitrary function of alert and time, so the decay formula is not either.
- Pipeline.Confluence: ends at what is handed to the risk scorer (`Assessments.dfy` goes on to the action); whether an executor call fails depends on the job alone, and arrivals are those put while the queue has room (a full queue makes the ingester wait).
- ThreatGraphs.ThreatGraph.AddTransaction: a sender of None, for which networkx raises; senders are strings here.
- Ingester.BlockIngester.StreamViaPolling: sampling below rate 1, the WebSocket path and a failing first request for the head are not modelled; the chain does not reorganise.
- Consumer.ThreatIntelConsumer.Iterate: polls that return nothing or end-of-partition change nothing and are left out; a fatal poll error is a crash.
- Producer.ThreatIntelProducer.ProduceTransaction: delivery after `produce` has accepted a message is the broker's; `produce_alert` does not buffer and is not modelled.
- RateLimiter.Limiter.CheckRateLimit: how a request's key is derived, and the response headers.
- CrossChain.CrossChainAnalyzer.Observe: the chains of the flag are a set, not a sorted list; lower-casing is that of ASCII letters, enough for hexadecimal addresses.
- WalletClusters.UnionFind.Find: Python's recursion limit; the proved depth bound keeps far below it.
