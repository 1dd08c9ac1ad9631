/** The threat graph of `src/graph/threat_graph.py`. */
module ThreatGraphs {
  import opened Common
  import opened Forests
  import opened WalletClusters
  import opened Walks
  import opened Search
  import opened DiGraphs
  import opened Ledger
  import opened ClusterRisk

  /** Python's ValueError from `max` over no values. */
  datatype Outcome = Done | ValueError

  /** When the forward search from `w` is not cut off, it finds a path that ends
      at `a` exactly when tracing back from `a` finds `w`. */
  lemma PeelBackMeetsPaths(g: DiGraph, w: Address, a: Address, maxDepth: nat, maxPaths: int)
    requires WellFormed(g) && w != a && |Upto(g.succ, w, maxDepth - 1)| < maxPaths
    ensures w in Back(g.pred, a, maxDepth) - {a}
       <==> exists p :: p in SearchResult(g.succ, w, maxDepth, maxPaths) && EndsAt(p, a)
  {
    WellFormedMirrors(g);
    ForwardMeetsBackward(g.succ, g.pred, w, a, maxDepth);
    hide Back, Upto, WellFormed;
  }

  function Payment(hub: Address, leaf: Address): Tx {
    Tx("", hub, leaf, 1.0, 0.0, 0, false, 0.0, 0.0)
  }

  /** One payment from `hub` to each of `leaves`. */
  function Payments(hub: Address, leaves: seq<Address>): seq<Tx> {
    if leaves == [] then [] else Payments(hub, leaves[..|leaves| - 1]) + [Payment(hub, leaves[|leaves| - 1])]
  }

  lemma {:induction false} HubNeighbours(hub: Address, leaves: seq<Address>)
    requires Distinct(leaves) && NoAddress !in leaves
    ensures Next(Replay(Payments(hub, leaves)).succ, hub) == leaves
  {
    if leaves != [] {
      var front, last := leaves[..|leaves| - 1], leaves[|leaves| - 1];
      assert leaves == front + [last] && last !in front && last != NoAddress && Distinct(front) && NoAddress !in front;
      hide Distinct;
      HubNeighbours(hub, front);
      OneMoreLeaf(hub, leaves);
    }
  }

  lemma OneMoreLeaf(hub: Address, leaves: seq<Address>)
    requires leaves != [] && leaves[|leaves| - 1] != NoAddress
    requires var g := Replay(Payments(hub, leaves[..|leaves| - 1]));
             leaves[|leaves| - 1] !in Next(g.succ, hub)
    ensures var g := Replay(Payments(hub, leaves[..|leaves| - 1]));
            Next(Replay(Payments(hub, leaves)).succ, hub) == Next(g.succ, hub) + [leaves[|leaves| - 1]]
  {
    var txs, t := Payments(hub, leaves[..|leaves| - 1]), Payment(hub, leaves[|leaves| - 1]);
    assert Payments(hub, leaves) == txs + [t] && (txs + [t])[..|txs|] == txs;
    assert Replay(txs + [t]) == Added(Replay(txs), t);
    hide Payments, Replay, Added, WellFormed, BooksBalance, Next;
    ReplayIsSound(txs);
    AddedNeighbours(Replay(txs), t, hub);
    NextIsDistinct(Replay(txs), hub, t.to);
  }

  lemma {:induction false} ExtendByAll(p: Path, ns: seq<Address>)
    requires forall i :: 0 <= i < |ns| ==> ns[i] !in p
    ensures ExtendBy(p, ns) == seq(|ns|, i requires 0 <= i < |ns| => p + [ns[i]])
  {
    if ns != [] {
      ExtendByAll(p, ns[..|ns| - 1]);
    }
  }

  lemma FirstLevel(adj: Lists, s: Address)
    ensures Level(adj, s, 1) == Extend(adj, [s])
  {
    LevelStep(adj, s, 0);
    EmptyExtends(adj);
    hide Extend;
    assert [[s]][..0] == [] && Level(adj, s, 0) == [[s]];
    assert ExtendAll(adj, [[s]]) == ExtendAll(adj, []) + Extend(adj, [s]);
  }

  /** A search of depth one returns an extension for every neighbour, whatever the limit. */
  lemma DepthOneIgnoresLimit(adj: Lists, s: Address, maxPaths: nat)
    requires maxPaths > 0
    ensures SearchResult(adj, s, 1, maxPaths) == Extend(adj, [s])
  {
    FirstLevel(adj, s);
    UptoNone(adj, s);
    UptoStep(adj, s, 1);
    hide Level, Upto, Extend;
    assert [] + Level(adj, s, 1) == Level(adj, s, 1);
  }

  /** A limit of one path does not bound a search of depth one: around a hub all
      of any number of leaves are returned. */
  lemma HubIgnoresLimit(hub: Address, leaves: seq<Address>)
    requires Distinct(leaves) && NoAddress !in leaves && hub !in leaves
    ensures SearchResult(Replay(Payments(hub, leaves)).succ, hub, 1, 1)
         == seq(|leaves|, i requires 0 <= i < |leaves| => [hub] + [leaves[i]])
  {
    HubNeighbours(hub, leaves);
    DepthOneIgnoresLimit(Replay(Payments(hub, leaves)).succ, hub, 1);
    ExtendByAll([hub], leaves);
    hide ExtendBy, SearchResult, Replay, Payments, Next;
  }

  lemma OneMoreTransaction(g: DiGraph, txs: seq<Tx>, t: Tx)
    requires WellFormed(g) && SameBooks(g, Replay(txs))
    ensures WellFormed(Added(g, t)) && SameBooks(Added(g, t), Replay(txs + [t]))
  {
    AddedWellFormed(g, t);
    AddedSameBooks(g, Replay(txs), t);
    hide WellFormed, SameBooks, Added;
    assert (txs + [t])[..|txs|] == txs;
  }

  /** Numbering clusters leaves the books alone. */
  lemma LabelsKeepBooks(g: DiGraph, nodes: Nodes, h: DiGraph, p: Parents, e: Pairs)
    requires SameBooks(g, h) && IdsAreClasses(g.nodes, nodes, p, e)
    ensures SameBooks(g.(nodes := nodes), h)
  {
    hide Linked;
  }

  /** Spreading risk leaves the books alone. */
  lemma SpreadKeepsBooks(g: DiGraph, h: DiGraph, order: seq<Address>, m: map<Address, Address>, done: set<Address>)
    requires SameBooks(g, h)
    ensures SameBooks(g.(nodes := Spread(g.nodes, order, m, done)), h)
  {
    hide Peak, Cluster;
  }

  /** Two wallets clustered before they occur in any transaction make the
      propagation of risk end in an error. */
  method UnknownClusterRaises(a: Address, b: Address) returns (outcome: Outcome)
    ensures outcome == ValueError
  {
    var tg := new ThreatGraph();
    var _ := tg.ClusterWalletsUnionFind([[a, b]]);
    ghost var m := tg.unionFind.meaning;
    assert Stars([[a, b]]) == Stars([]) + Star([a, b]) by {
      assert [[a, b]][..0] == [];
    }
    assert [a, b][1] == b && (a, b) in Star([a, b]);
    assert (a, b) in m.pairs && a in m.roots;
    ghost var roots, visited;
    outcome, roots, visited := tg.PropagateClusterRisk();
  }

  class ThreatGraph {
    var G: DiGraph
    const unionFind: UnionFind
    /** Every input list given to `ClusterWalletsUnionFind` so far. */
    ghost var inputsSeen: seq<seq<Address>>
    /** Every transaction added so far. */
    ghost var transactions: seq<Tx>

    /** Whatever calls were mixed, the books are those of the transactions alone. */
    ghost predicate Valid()
      reads this, unionFind
    {
      && WellFormed(G) && SameBooks(G, Replay(transactions))
      && unionFind.Valid() && unionFind.meaning.pairs == Stars(inputsSeen)
      && unionFind.order == Introduced([], Named(inputsSeen))
    }

    constructor ()
      ensures Valid() && fresh(unionFind) && G == EMPTY_GRAPH && inputsSeen == [] && transactions == []
    {
      unionFind := new UnionFind();
      G, inputsSeen, transactions := EMPTY_GRAPH, [], [];
    }

    /** Conservation over every mixed run of the methods below. */
    lemma BooksAlwaysBalance(a: Address, b: Address)
      requires Valid()
      ensures BooksBalance(G)
      ensures var ms := Moves(transactions);
              && Count(G, a) as real == Sum(OneIfSends(a), ms)
              && Total(G, a) == Sum(SentBy(a), ms)
              && Weight(G, a, b) == Sum(PaidTo(a, b), ms)
              && (a in G.nodes <==> exists m :: m in ms && Mentions(m, a))
              && ((a, b) in G.edges <==> exists m :: m in ms && Pays(m, a, b))
    {
      var h := Replay(transactions);
      ReplayIsSound(transactions);
      Conservation(transactions, a, b);
      SameBooksBalance(G, h);
      SameBooksAgree(G, h, a, []);
      hide WellFormed, BooksBalance, Replay, Sum, Moves;
    }

    /** So are the clock fields of every wallet. */
    lemma ClocksAreOfTransactions(a: Address)
      requires Valid()
      ensures ClocksOf(G, transactions, a)
    {
      WalletClocks(transactions, a);
      hide WellFormed, Replay;
    }

    /** The statistics of the sender after one more transaction. */
    method CountedSend(sender: Attrs, t: Tx) returns (n: Attrs)
      ensures n == CountSend(sender, t)
    {
      n := sender.(lastSeen := t.now);
      n := n.(txCount := n.txCount + 1);
      n := n.(totalValue := n.totalValue + t.value);
      if t.risk > 0.0 {
        n := n.(risk := Max(n.risk, t.risk));
      }
    }

    /** Adds one transaction. */
    method AddTransaction(t: Tx)
      requires Valid()
      modifies this`G, this`transactions
      ensures Valid() && G == Added(old(G), t) && transactions == old(transactions) + [t]
    {
      hide WellFormed, CountSend, Next, SameBooks, Replay;
      OneMoreTransaction(G, transactions, t);
      transactions := transactions + [t];
      var g := G;
      if !g.HasNode(t.from) {
        g := g.AddNode(t.from, t.now);
      }
      if t.to != NoAddress {
        if !g.HasNode(t.to) {
          g := g.AddNode(t.to, t.now);
        }
        var n := CountedSend(g.nodes[t.from], t);
        g := g.(nodes := g.nodes[t.from := n]);
        if !g.HasEdge(t.from, t.to) {
          g := g.AddEdge(t.from, t.to, Edge(t.hash, t.value, t.timestamp, t.block, t.contractCall));
        } else {
          var e := g.edges[(t.from, t.to)];
          e := e.(value := e.value + t.value);
          e := e.(timestamp := t.timestamp);
          g := g.(edges := g.edges[(t.from, t.to) := e]);
        }
      }
      G := g;
    }

    /** The neighbours of the last wallet of `p`, appended to `p` one by one unless already on it. */
    method Expand(p: Path) returns (longer: seq<Path>)
      requires p != []
      ensures longer == Extend(G.succ, p)
    {
      longer := [];
      var ns := Next(G.succ, p[|p| - 1]);
      for i := 0 to |ns|
        invariant longer == ExtendBy(p, ns[..i])
      {
        assert ns[..i + 1][..i] == ns[..i];
        if ns[i] !in p {
          longer := longer + [p + [ns[i]]];
        }
      }
      assert ns[..|ns|] == ns;
    }

    /** Depth-limited search for simple paths leaving `source`. */
    method FindLaunderingPaths(source: Address, maxDepth: int, maxPaths: int) returns (paths: seq<Path>)
      requires Valid()
      ensures paths == SearchResult(G.succ, source, maxDepth, maxPaths)
    {
      hide WellFormed, SameBooks, Replay, Stars, Introduced, Named, Sound, Listed;
      assert WellFormed(G);
      hide SearchResult, Searching, Extend, Next, Upto, Valid, Remaining, Settled;
      var adj := G.succ;
      paths := [];
      if !G.HasNode(source) {
        AbsentHasNoNext(G, source);
        NowhereToGo(adj, source, maxDepth, maxPaths);
        return;
      }
      var frontier := [[source]];
      ghost var g := Start(source);
      StartSearches(adj, source, maxDepth, maxPaths);
      while frontier != []
        invariant Searching(adj, source, maxDepth, maxPaths, g)
        invariant frontier == g.cur + g.nxt && paths == g.paths
        decreases Remaining(maxDepth, g), |Settled(g).cur|
      {
        SettledSearches(adj, source, maxDepth, maxPaths, g);
        g := Settled(g);
        PopFirst(g.cur, g.nxt, []);
        var currentPath := frontier[0];
        frontier := frontier[1..];
        if |currentPath| > 1 {
          paths := paths + [currentPath];
        }
        if |currentPath| >= maxDepth + 1 {
          PoppedSearches(adj, source, maxDepth, maxPaths, g);
          g := Popped(adj, maxDepth, g);
          continue;
        }
        var longer := Expand(currentPath);
        PopFirst(g.cur, g.nxt, longer);
        frontier := frontier + longer;
        if |paths| >= maxPaths {
          CutIsResult(adj, source, maxDepth, maxPaths, g);
          return;
        }
        PoppedSearches(adj, source, maxDepth, maxPaths, g);
        g := Popped(adj, maxDepth, g);
      }
      EmptyIsResult(adj, source, maxDepth, maxPaths, g);
    }

    /** The predecessors of the wallets in `frontier` that are neither known nor the target itself. */
    method StepBack(frontier: set<Address>, known: set<Address>, target: Address)
      returns (ancestors: set<Address>, next: set<Address>)
      ensures ancestors == known + (Before(G.pred, frontier) - {target})
      ensures next == ancestors - known
    {
      ancestors, next := known, {};
      var todo := frontier;
      while todo != {}
        invariant todo <= frontier
        invariant ancestors == known + (Before(G.pred, frontier - todo) - {target})
        invariant next == ancestors - known
      {
        var node :| node in todo;
        var preds := Next(G.pred, node);
        ghost var sofar := ancestors;
        for i := 0 to |preds|
          invariant ancestors == sofar + (Elements(preds[..i]) - {target})
          invariant next == ancestors - known
        {
          assert Elements(preds[..i + 1]) == Elements(preds[..i]) + {preds[i]};
          if preds[i] !in ancestors && preds[i] != target {
            ancestors := ancestors + {preds[i]};
            next := next + {preds[i]};
          }
        }
        assert preds[..|preds|] == preds;
        BeforeGrows(G.pred, frontier - todo, node);
        assert frontier - (todo - {node}) == (frontier - todo) + {node};
        todo := todo - {node};
      }
      assert frontier - todo == frontier;
    }

    /** Wallets other than `address` from which money could have come in at most `maxDepth` steps. */
    method PeelBack(address: Address, maxDepth: int) returns (ancestors: set<Address>)
      requires Valid()
      ensures ancestors == Back(G.pred, address, if maxDepth < 0 then 0 else maxDepth) - {address}
    {
      hide WellFormed, Before;
      ancestors := {};
      if !G.HasNode(address) {
        AbsentHasNoNext(G, address);
        BackOfAbsent(G.pred, address);
        BackIsStable(G.pred, address, 0, if maxDepth < 0 then 0 else maxDepth);
        return;
      }
      var frontier := {address};
      BackStart(G.pred, address);
      var depth := 0;
      while depth < maxDepth
        invariant 0 <= depth && (depth <= maxDepth || depth == 0)
        invariant PeelState(G.pred, address, depth, ancestors, frontier)
      {
        ghost var known := ancestors;
        PeelStep(G.pred, address, depth, ancestors, frontier);
        ancestors, frontier := StepBack(frontier, ancestors, address);
        depth := depth + 1;
        if frontier == {} {
          PeelStops(G.pred, address, depth, ancestors);
          BackIsStable(G.pred, address, depth, maxDepth);
          break;
        }
      }
    }

    /** Unites the inputs of each transaction and numbers the clusters. */
    method ClusterWalletsUnionFind(transactionInputs: seq<seq<Address>>)
      returns (clusters: map<Address, seq<Address>>)
      requires Valid()
      modifies this, unionFind
      ensures Valid() && inputsSeen == old(inputsSeen) + transactionInputs && transactions == old(transactions)
      ensures G == old(G).(nodes := G.nodes) && G.nodes.Keys == old(G.nodes).Keys
      ensures Partition(clusters, unionFind.order, unionFind.meaning.roots)
      ensures IdsAreClasses(old(G.nodes), G.nodes, unionFind.parent, Stars(inputsSeen))
      ensures NumberedInOrder(old(G.nodes), G.nodes, Introduced([], Named(inputsSeen)), unionFind.meaning.roots)
    {
      hide WellFormed, Linked, Sound, Listed, Partition, Labelled, SameBooks, Replay, NumberedInOrder, MetInOrder;
      hide Introduced, Named;
      for k := 0 to |transactionInputs|
        invariant Valid() && inputsSeen == old(inputsSeen) + transactionInputs[..k]
        invariant G == old(G) && transactions == old(transactions)
      {
        UniteInputs(transactionInputs[k]);
        assert transactionInputs[..k + 1] == transactionInputs[..k] + [transactionInputs[k]];
      }
      assert transactionInputs[..|transactionInputs|] == transactionInputs;
      var roots;
      clusters, roots := unionFind.GetClusters();
      ghost var m := unionFind.meaning.roots;
      OrderIsKeys(unionFind.parent, unionFind.rank, m, unionFind.meaning.pairs, unionFind.order);
      var nodes := LabelClusters(G.nodes, clusters, roots, unionFind.order, m);
      LabelsAreClasses(unionFind.parent, unionFind.rank, m, unionFind.meaning.pairs,
                       unionFind.order, clusters, roots, G.nodes, nodes);
      ListedHas(roots, clusters, NoAddress);
      RootsAreListed(unionFind.order, m, clusters, roots);
      LabelsCountEarlier(G.nodes, nodes, unionFind.order, m, roots);
      AttrsWellFormed(G, G.(nodes := nodes));
      LabelsKeepBooks(G, nodes, Replay(transactions), unionFind.parent, Stars(inputsSeen));
      G := G.(nodes := nodes);
    }

    /** The inner loop: the first input is united with each of the others. */
    method UniteInputs(inputs: seq<Address>)
      requires Valid()
      modifies this`inputsSeen, unionFind
      ensures Valid() && inputsSeen == old(inputsSeen) + [inputs]
    {
      hide WellFormed, Sound, Listed, SameBooks, Replay, UnitedByRank, WithKey, WithNew, Introduced;
      ghost var before, order := unionFind.meaning.pairs, unionFind.order;
      if |inputs| >= 2 {
        for i := 1 to |inputs|
          invariant unionFind.Valid() && inputsSeen == old(inputsSeen)
          invariant unionFind.meaning.pairs == before + Star(inputs[..i])
          invariant unionFind.order == if i == 1 then order else Introduced(order, inputs[..i])
        {
          IntroducedPair(order, inputs, i);
          assert Star(inputs[..i + 1]) == Star(inputs[..i]) + {(inputs[0], inputs[i])};
          unionFind.Union(inputs[0], inputs[i]);
        }
        assert inputs[..|inputs|] == inputs;
      }
      inputsSeen := inputsSeen + [inputs];
      assert inputsSeen[..|inputsSeen| - 1] == old(inputsSeen);
      IntroducedAppend([], Named(old(inputsSeen)), if |inputs| < 2 then [] else inputs);
      NoneIntroduced(order);
    }

    /** Raises every wallet of a risky cluster.  Clusters are visited in the order
        of `roots`; the first `visited` of them were raised, and the next one, if
        there is one, has no member in the graph and raises an error. */
    method PropagateClusterRisk() returns (outcome: Outcome, ghost roots: seq<Address>, ghost visited: nat)
      requires Valid()
      modifies this`G, unionFind
      ensures Valid() && G == old(G).(nodes := G.nodes)
      ensures unionFind.meaning == old(unionFind.meaning)
      ensures unionFind.order == old(unionFind.order) == Introduced([], Named(inputsSeen))
      ensures var m := old(unionFind.meaning.roots);
              && (outcome.Done? <==> EveryClusterInGraph(old(G.nodes), m))
              && (outcome.Done? ==> G.nodes == SpreadAll(old(G.nodes), unionFind.order, m))
      ensures var m := old(unionFind.meaning.roots);
              && Distinct(roots) && Elements(roots) == m.Values && MetInOrder(roots, unionFind.order, m)
              && visited <= |roots| && (outcome.Done? <==> visited == |roots|)
              && G.nodes == Spread(old(G.nodes), unionFind.order, m, Elements(roots[..visited]))
              && (forall k :: 0 <= k < visited ==> Peak(old(G.nodes), Cluster(unionFind.order, m, roots[k])).Some?)
              && (visited < |roots| ==> Peak(old(G.nodes), Cluster(unionFind.order, m, roots[visited])).None?)
    {
      hide Introduced, Named, MetInOrder;
      hide WellFormed, Sound, Listed, Partition, Spread, SpreadAll, Peak, EveryClusterInGraph, Cluster, SameBooks, Replay;
      var clusters, listed := unionFind.GetClusters();
      ghost var m := unionFind.meaning.roots;
      OrderIsKeys(unionFind.parent, unionFind.rank, m, unionFind.meaning.pairs, unionFind.order);
      var nodes, done := SpreadRisk(G.nodes, clusters, listed, unionFind.order, m);
      roots, visited := listed, done;
      RootsAreListed(unionFind.order, m, clusters, roots);
      ListedHas(roots, clusters, NoAddress);
      VisitIsComplete(G.nodes, unionFind.order, m, clusters, roots, visited);
      SpreadKeepsNodes(G.nodes, unionFind.order, m, Elements(roots[..visited]));
      AttrsWellFormed(G, G.(nodes := nodes));
      SpreadKeepsBooks(G, Replay(transactions), unionFind.order, m, Elements(roots[..visited]));
      G := G.(nodes := nodes);
      outcome := if done == |listed| then Done else ValueError;
    }
  }
}
