/** Wallet clusters built from co-input transactions, and the risk they spread. */
module ClusterRisk {
  import opened Common
  import opened Forests
  import opened DiGraphs

  type Nodes = map<Address, Attrs>

  // ---- clusters as lists ----

  lemma {:induction false} ClusterContains(order: seq<Address>, m: map<Address, Address>, r: Address, x: Address)
    ensures x in Cluster(order, m, r) <==> x in order && x in m && m[x] == r
  {
    if order != [] {
      ClusterContains(order[..|order| - 1], m, r, x);
      assert order == order[..|order| - 1] + [order[|order| - 1]];
    }
  }

  lemma {:induction false} ClusterDistinct(order: seq<Address>, m: map<Address, Address>, r: Address)
    requires Distinct(order)
    ensures Distinct(Cluster(order, m, r))
  {
    if order != [] {
      var front, last := order[..|order| - 1], order[|order| - 1];
      ClusterDistinct(front, m, r);
      ClusterContains(front, m, r, last);
      assert last !in front;
    }
  }

  /** `get_clusters` is a partition of the known wallets into the classes of the
      linking relation: every known wallet is listed once, in the cluster of its
      root, no cluster is empty, and sharing a cluster means being linked. */
  lemma ClustersAreClasses(p: Parents, rk: Ranks, m: map<Address, Address>, e: Pairs,
                           clusters: map<Address, seq<Address>>, roots: seq<Address>, order: seq<Address>,
                           x: Address, y: Address)
    requires Sound(p, rk, m, e) && Listed(order, p) && Listed(roots, clusters) && Partition(clusters, order, m)
    requires x in p && y in p
    ensures m[x] in clusters && x in clusters[m[x]] && Distinct(clusters[m[x]])
    ensures forall r :: r in clusters && x in clusters[r] ==> r == m[x]
    ensures y in clusters[m[x]] <==> Linked(e, x, y)
  {
    hide Sound, Listed, Linked;
    SameKeys(p, rk, m, e);
    SameRootIffLinked(p, rk, m, e, x, y);
    ListedHas(order, p, x);
    ListedHas(order, p, y);
    ClusterContains(order, m, m[x], x);
    ClusterContains(order, m, m[x], y);
    ClusterDistinct(order, m, m[x]);
    forall r | r in clusters && x in clusters[r]
      ensures r == m[x]
    {
      ClusterContains(order, m, r, x);
    }
  }

  // ---- the co-input relation ----

  /** The pairs that `cluster_wallets_union_find` unites: the first input with each other input. */
  function Star(inputs: seq<Address>): Pairs {
    if |inputs| < 2 then {} else set i | 1 <= i < |inputs| :: (inputs[0], inputs[i])
  }

  function Stars(txs: seq<seq<Address>>): Pairs {
    if txs == [] then {} else Stars(txs[..|txs| - 1]) + Star(txs[|txs| - 1])
  }

  /** Both wallets are inputs of one of the transactions. */
  ghost predicate CoInputs(txs: seq<seq<Address>>, x: Address, y: Address) {
    exists k :: 0 <= k < |txs| && x in txs[k] && y in txs[k]
  }

  ghost predicate CoInputChain(txs: seq<seq<Address>>, c: seq<Address>) {
    c != [] && forall i, j :: 0 <= i && j == i + 1 < |c| ==> CoInputs(txs, c[i], c[j])
  }

  lemma {:induction false} StarsContain(txs: seq<seq<Address>>, q: (Address, Address))
    ensures q in Stars(txs) <==> exists k :: 0 <= k < |txs| && q in Star(txs[k])
  {
    if txs != [] {
      var front := txs[..|txs| - 1];
      StarsContain(front, q);
      if q in Stars(front) {
        var k :| 0 <= k < |front| && q in Star(front[k]);
        assert txs[k] == front[k];
      }
      if k :| 0 <= k < |txs| && q in Star(txs[k]) {
        assert k < |front| ==> q in Star(front[k]);
      }
    }
  }

  lemma HubLinks(txs: seq<seq<Address>>, k: nat, x: Address)
    requires k < |txs| && x in txs[k]
    ensures Linked(Stars(txs), txs[k][0], x)
  {
    var i :| 0 <= i < |txs[k]| && txs[k][i] == x;
    if i == 0 {
      LinkedRefl(Stars(txs), x);
    } else {
      assert (txs[k][0], x) in Star(txs[k]);
      StarsContain(txs, (txs[k][0], x));
      LinkedPair(Stars(txs), txs[k][0], x);
    }
  }

  lemma {:induction false} ChainLinks(txs: seq<seq<Address>>, c: seq<Address>, n: nat)
    requires CoInputChain(txs, c) && n < |c|
    ensures Linked(Stars(txs), c[0], c[n])
  {
    hide Linked;
    if n == 0 {
      LinkedRefl(Stars(txs), c[0]);
    } else {
      ChainLinks(txs, c, n - 1);
      assert CoInputs(txs, c[n - 1], c[n]);
      var k :| 0 <= k < |txs| && c[n - 1] in txs[k] && c[n] in txs[k];
      HubLinks(txs, k, c[n - 1]);
      HubLinks(txs, k, c[n]);
      LinkedSym(Stars(txs), txs[k][0], c[n - 1]);
      LinkedTrans(Stars(txs), c[n - 1], txs[k][0], c[n]);
      LinkedTrans(Stars(txs), c[0], c[n - 1], c[n]);
    }
  }

  lemma StarsAreCoInputs(txs: seq<seq<Address>>, x: Address, y: Address)
    requires Joined(Stars(txs), x, y)
    ensures CoInputs(txs, x, y)
  {
    StarsContain(txs, (x, y));
    StarsContain(txs, (y, x));
    var k :| 0 <= k < |txs| && ((x, y) in Star(txs[k]) || (y, x) in Star(txs[k]));
    assert x in txs[k] && y in txs[k];
  }

  /** Uniting stars is as good as uniting every pair of co-inputs: the closure is
      the existence of a chain of co-input transactions. */
  lemma LinkedIffCoInputChain(txs: seq<seq<Address>>, x: Address, y: Address)
    ensures Linked(Stars(txs), x, y) <==> exists c :: CoInputChain(txs, c) && c[0] == x && c[|c| - 1] == y
  {
    if Linked(Stars(txs), x, y) {
      var c :| Chain(Stars(txs), c) && c[0] == x && c[|c| - 1] == y;
      forall i, j | 0 <= i && j == i + 1 < |c|
        ensures CoInputs(txs, c[i], c[j])
      {
        StarsAreCoInputs(txs, c[i], c[j]);
      }
      assert CoInputChain(txs, c);
    }
    if c :| CoInputChain(txs, c) && c[0] == x && c[|c| - 1] == y {
      ChainLinks(txs, c, |c| - 1);
    }
  }

  // ---- the order in which wallets become known ----

  /** `order` after the wallets of `inputs` were looked up one by one. */
  function Introduced(order: seq<Address>, inputs: seq<Address>): seq<Address> {
    if inputs == [] then order else WithNew(Introduced(order, inputs[..|inputs| - 1]), inputs[|inputs| - 1])
  }

  /** The inputs that are united, one transaction after the other. */
  function Named(txs: seq<seq<Address>>): seq<Address> {
    if txs == [] then []
    else Named(txs[..|txs| - 1]) + (if |txs[|txs| - 1]| < 2 then [] else txs[|txs| - 1])
  }

  lemma IntroducedStep(order: seq<Address>, inputs: seq<Address>, x: Address)
    ensures Introduced(order, inputs + [x]) == WithNew(Introduced(order, inputs), x)
  {
    assert (inputs + [x])[..|inputs|] == inputs;
  }

  lemma {:induction false} IntroducedAppend(order: seq<Address>, xs: seq<Address>, ys: seq<Address>)
    ensures Introduced(order, xs + ys) == Introduced(Introduced(order, xs), ys)
  {
    if ys == [] {
      assert xs + ys == xs;
    } else {
      IntroducedAppend(order, xs, ys[..|ys| - 1]);
      assert xs + ys == (xs + ys[..|ys| - 1]) + [ys[|ys| - 1]];
      IntroducedStep(order, xs + ys[..|ys| - 1], ys[|ys| - 1]);
    }
  }

  lemma {:induction false} IntroducedHas(order: seq<Address>, inputs: seq<Address>, x: Address)
    ensures x in Introduced(order, inputs) <==> x in order || x in inputs
  {
    if inputs != [] {
      IntroducedHas(order, inputs[..|inputs| - 1], x);
      assert inputs == inputs[..|inputs| - 1] + [inputs[|inputs| - 1]];
    }
  }

  lemma NoneIntroduced(order: seq<Address>)
    ensures Introduced(order, []) == order && Named([]) == []
  {
  }

  /** One call of `union` with the first input and another one. */
  lemma IntroducedPair(order: seq<Address>, inputs: seq<Address>, i: nat)
    requires 1 <= i < |inputs|
    ensures WithNew(WithNew(if i == 1 then order else Introduced(order, inputs[..i]), inputs[0]), inputs[i])
         == Introduced(order, inputs[..i + 1])
  {
    assert inputs[..i + 1] == inputs[..i] + [inputs[i]];
    IntroducedStep(order, inputs[..i], inputs[i]);
    if i == 1 {
      assert inputs[..1] == [] + [inputs[0]];
      IntroducedStep(order, [], inputs[0]);
    } else {
      IntroducedHas(order, inputs[..i], inputs[0]);
      assert inputs[..i][0] == inputs[0];
    }
  }

  /** Some occurrence of `x` in `s` stands before every occurrence of `y`. */
  ghost predicate NamedBefore(s: seq<Address>, x: Address, y: Address) {
    exists p :: 0 <= p < |s| && s[p] == x && forall q :: 0 <= q < |s| && s[q] == y ==> p < q
  }

  lemma NamedBeforeGrows(s: seq<Address>, x: Address, y: Address, z: Address)
    ensures NamedBefore(s, x, y) ==> NamedBefore(s + [z], x, y)
    ensures x in s && z !in s ==> NamedBefore(s + [z], x, z)
  {
    var t := s + [z];
    if NamedBefore(s, x, y) {
      var p :| 0 <= p < |s| && s[p] == x && forall q :: 0 <= q < |s| && s[q] == y ==> p < q;
      assert t[p] == x;
      forall q | 0 <= q < |t| && t[q] == y
        ensures p < q
      {
        assert q < |s| ==> s[q] == y;
      }
    }
    if x in s && z !in s {
      var p :| 0 <= p < |s| && s[p] == x;
      assert t[p] == x && forall q :: 0 <= q < |s| ==> s[q] in s;
    }
  }

  /** The forest knows each named wallet once, ordered by first occurrence. */
  lemma {:induction false} IntroducedByFirstOccurrence(s: seq<Address>)
    ensures var d := Introduced([], s);
            && Distinct(d) && Elements(d) == Elements(s)
            && forall i, j :: 0 <= i < j < |d| ==> NamedBefore(s, d[i], d[j])
  {
    if s != [] {
      var front, z := s[..|s| - 1], s[|s| - 1];
      assert s == front + [z];
      IntroducedByFirstOccurrence(front);
      IntroducedStep([], front, z);
      IntroducedHas([], front, z);
      hide Introduced, NamedBefore;
      var e, d := Introduced([], front), Introduced([], s);
      assert Elements(s) == Elements(front) + {z};
      forall i, j | 0 <= i < j < |d|
        ensures NamedBefore(s, d[i], d[j])
      {
        assert d[i] in Elements(e);
        NamedBeforeGrows(front, d[i], d[j], z);
      }
    }
  }

  // ---- risk propagation ----

  /** Greatest risk among the listed wallets that are graph nodes; None if none is. */
  function Peak(nodes: Nodes, ms: seq<Address>): Option<real> {
    if ms == [] then None
    else
      var rest := Peak(nodes, ms[..|ms| - 1]);
      var last := ms[|ms| - 1];
      if last !in nodes then rest
      else if rest.None? then Some(nodes[last].risk)
      else Some(Max(rest.value, nodes[last].risk))
  }

  lemma {:induction false} PeakIsMaximum(nodes: Nodes, ms: seq<Address>)
    ensures Peak(nodes, ms).None? <==> forall x :: x in ms ==> x !in nodes
    ensures Peak(nodes, ms).Some? ==> exists x :: x in ms && x in nodes && nodes[x].risk == Peak(nodes, ms).value
    ensures Peak(nodes, ms).Some? ==> forall x :: x in ms && x in nodes ==> nodes[x].risk <= Peak(nodes, ms).value
  {
    if ms != [] {
      PeakIsMaximum(nodes, ms[..|ms| - 1]);
      assert ms == ms[..|ms| - 1] + [ms[|ms| - 1]];
    }
  }

  lemma PeakUnique(nodes: Nodes, ms: seq<Address>, x: Address)
    requires x in ms && x in nodes && forall y :: y in ms && y in nodes ==> nodes[y].risk <= nodes[x].risk
    ensures Peak(nodes, ms) == Some(nodes[x].risk)
  {
    PeakIsMaximum(nodes, ms);
  }

  /** The risk of a wallet after propagation within a cluster whose peak is `m`. */
  function Raised(own: real, m: real): real {
    if m > 0.5 then Max(own, m * 0.7) else own
  }

  /** `nodes` after the clusters rooted in `done` have spread their risk. */
  ghost function Spread(nodes: Nodes, order: seq<Address>, m: map<Address, Address>, done: set<Address>): Nodes {
    map a | a in nodes ::
      if a in m && m[a] in done && Peak(nodes, Cluster(order, m, m[a])).Some? then
        nodes[a].(risk := Raised(nodes[a].risk, Peak(nodes, Cluster(order, m, m[a])).value))
      else nodes[a]
  }

  /** A wallet of a visited cluster ends with 0.7 of the greatest risk in its
      cluster if that risk is above 0.5 and the share exceeds its own risk; nothing
      else about any wallet changes. */
  lemma SpreadIsShareOfPeak(nodes: Nodes, order: seq<Address>, m: map<Address, Address>, done: set<Address>,
                            a: Address, top: Address)
    requires Elements(order) == m.Keys && a in nodes
    requires a in m && top in m && top in nodes && m[top] == m[a]
    requires forall x :: x in m && x in nodes && m[x] == m[a] ==> nodes[x].risk <= nodes[top].risk
    ensures var share, own := nodes[top].risk * 0.7, nodes[a].risk;
            Spread(nodes, order, m, done)[a]
            == nodes[a].(risk := if m[a] in done && nodes[top].risk > 0.5 && share > own then share else own)
  {
    var ms := Cluster(order, m, m[a]);
    forall x
      ensures x in ms <==> x in m && m[x] == m[a]
    {
      ClusterContains(order, m, m[a], x);
      assert x in Elements(order) <==> x in order;
    }
    hide Cluster, Peak;
    PeakUnique(nodes, ms, top);
  }

  lemma SpreadSkips(nodes: Nodes, order: seq<Address>, m: map<Address, Address>, done: set<Address>, a: Address)
    requires a in nodes && (a !in m || m[a] !in done)
    ensures Spread(nodes, order, m, done)[a] == nodes[a]
  {
    hide Cluster, Peak;
  }

  /** Spreading never lowers a score and keeps the peak of every cluster. */
  lemma SpreadKeepsPeaks(nodes: Nodes, order: seq<Address>, m: map<Address, Address>, done: set<Address>, r: Address)
    ensures var after := Spread(nodes, order, m, done);
            && after.Keys == nodes.Keys
            && (forall a :: a in nodes ==> after[a].risk >= nodes[a].risk)
            && Peak(after, Cluster(order, m, r)) == Peak(nodes, Cluster(order, m, r))
  {
    SpreadNeverLowers(nodes, order, m, done);
    hide Spread, Cluster;
    var after, ms := Spread(nodes, order, m, done), Cluster(order, m, r);
    PeakIsMaximum(nodes, ms);
    PeakIsMaximum(after, ms);
    if Peak(nodes, ms).Some? {
      var top := Peak(nodes, ms).value;
      var x :| x in ms && x in nodes && nodes[x].risk == top;
      forall y | y in ms && y in nodes
        ensures after[y].risk <= top
      {
        SpreadWithinPeak(nodes, order, m, done, r, y);
      }
      PeakUnique(after, ms, x);
    }
  }

  lemma SpreadNeverLowers(nodes: Nodes, order: seq<Address>, m: map<Address, Address>, done: set<Address>)
    ensures var after := Spread(nodes, order, m, done);
            after.Keys == nodes.Keys && forall a :: a in nodes ==> after[a].risk >= nodes[a].risk
  {
    hide Peak, Cluster;
  }

  lemma SpreadWithinPeak(nodes: Nodes, order: seq<Address>, m: map<Address, Address>, done: set<Address>, r: Address, y: Address)
    requires y in Cluster(order, m, r) && y in nodes
    requires Peak(nodes, Cluster(order, m, r)).Some? && nodes[y].risk <= Peak(nodes, Cluster(order, m, r)).value
    ensures Spread(nodes, order, m, done)[y].risk <= Peak(nodes, Cluster(order, m, r)).value
  {
    ClusterContains(order, m, r, y);
    hide Peak, Cluster;
  }

  /** Propagating again changes nothing. */
  lemma SpreadIsIdempotent(nodes: Nodes, order: seq<Address>, m: map<Address, Address>, done: set<Address>)
    ensures Spread(Spread(nodes, order, m, done), order, m, done) == Spread(nodes, order, m, done)
  {
    var after := Spread(nodes, order, m, done);
    var again := Spread(after, order, m, done);
    forall a | a in nodes
      ensures again[a] == after[a]
    {
      if a in m {
        SpreadKeepsPeaks(nodes, order, m, done, m[a]);
      }
    }
  }

  ghost function SpreadAll(nodes: Nodes, order: seq<Address>, m: map<Address, Address>): Nodes {
    Spread(nodes, order, m, m.Values)
  }

  /** Some wallet of every cluster is a graph node. */
  ghost predicate EveryClusterInGraph(nodes: Nodes, m: map<Address, Address>) {
    forall x :: x in m ==> exists y :: y in m && m[y] == m[x] && y in nodes
  }

  lemma PeakNoneIffAbsent(nodes: Nodes, order: seq<Address>, m: map<Address, Address>, r: Address)
    requires Elements(order) == m.Keys
    ensures Peak(nodes, Cluster(order, m, r)).None? <==> forall y :: y in m && m[y] == r ==> y !in nodes
  {
    PeakIsMaximum(nodes, Cluster(order, m, r));
    forall y
      ensures y in Cluster(order, m, r) <==> y in m && m[y] == r
    {
      ClusterContains(order, m, r, y);
      assert y in Elements(order) <==> y in order;
    }
  }

  /** Visiting the clusters in any order raises no error exactly when each has a
      member in the graph, and then spreads the risk of all of them. */
  lemma VisitIsComplete(nodes: Nodes, order: seq<Address>, m: map<Address, Address>,
                        clusters: map<Address, seq<Address>>, roots: seq<Address>, visited: nat)
    requires Elements(order) == m.Keys && Partition(clusters, order, m) && visited <= |roots|
    requires Listed(roots, clusters)
    requires forall k :: 0 <= k < visited ==> Peak(nodes, Cluster(order, m, roots[k])).Some?
    requires visited < |roots| ==> Peak(nodes, Cluster(order, m, roots[visited])).None?
    ensures visited == |roots| <==> EveryClusterInGraph(nodes, m)
    ensures visited == |roots| ==> Spread(nodes, order, m, Elements(roots[..visited])) == SpreadAll(nodes, order, m)
  {
    hide Spread, Peak, Cluster, Listed, Partition, Elements;
    RootsAreListed(order, m, clusters, roots);
    if visited == |roots| {
      AllVisited(nodes, order, m, roots);
      assert roots[..visited] == roots;
    } else {
      PeakNoneIffAbsent(nodes, order, m, roots[visited]);
      InElements(roots, visited);
      var x :| x in m && m[x] == roots[visited];
    }
  }

  /** The listed roots are exactly the roots of known wallets. */
  lemma RootsAreListed(order: seq<Address>, m: map<Address, Address>, clusters: map<Address, seq<Address>>, roots: seq<Address>)
    requires Elements(order) == m.Keys && Partition(clusters, order, m) && Listed(roots, clusters)
    ensures forall x :: x in m ==> m[x] in roots
    ensures Elements(roots) == m.Values
  {
    forall x | x in m
      ensures m[x] in roots && m[x] in Elements(roots)
    {
      assert x in Elements(order);
      assert m[x] in clusters.Keys;
    }
    forall r | r in Elements(roots)
      ensures r in m.Values
    {
      assert r in clusters.Keys;
    }
  }

  lemma AllVisited(nodes: Nodes, order: seq<Address>, m: map<Address, Address>, roots: seq<Address>)
    requires Elements(order) == m.Keys && forall x :: x in m ==> m[x] in roots
    requires forall k :: 0 <= k < |roots| ==> Peak(nodes, Cluster(order, m, roots[k])).Some?
    ensures EveryClusterInGraph(nodes, m)
  {
    hide Peak, Cluster, Elements;
    forall x | x in m
      ensures exists y :: y in m && m[y] == m[x] && y in nodes
    {
      var k :| 0 <= k < |roots| && roots[k] == m[x];
      PeakNoneIffAbsent(nodes, order, m, roots[k]);
    }
  }

  lemma OrderIsKeys(p: Parents, rk: Ranks, m: map<Address, Address>, e: Pairs, order: seq<Address>)
    requires Sound(p, rk, m, e) && Listed(order, p)
    ensures Elements(order) == m.Keys == p.Keys
  {
  }

  lemma SpreadKeepsNodes(nodes: Nodes, order: seq<Address>, m: map<Address, Address>, done: set<Address>)
    ensures Spread(nodes, order, m, done).Keys == nodes.Keys
  {
  }

  lemma InElements<T>(s: seq<T>, i: nat)
    requires i < |s|
    ensures s[i] in Elements(s)
  {
  }

  // ---- the loops over clusters ----

  /** `cluster_id` is set to the position of the wallet's root in `roots`; other wallets keep theirs. */
  ghost predicate Labelled(before: Nodes, after: Nodes, m: map<Address, Address>, roots: seq<Address>) {
    && after.Keys == before.Keys
    && (forall a, j :: a in before && a in m && 0 <= j < |roots| && m[a] == roots[j] ==>
          after[a] == before[a].(clusterId := Some(j)))
    && (forall a :: a in before && (a !in m || m[a] !in roots) ==> after[a] == before[a])
  }

  method LabelMembers(nodes: Nodes, members: seq<Address>, id: nat) returns (after: Nodes)
    ensures after.Keys == nodes.Keys
    ensures forall a :: a in nodes ==>
      after[a] == (if a in members then nodes[a].(clusterId := Some(id)) else nodes[a])
  {
    after := nodes;
    for i := 0 to |members|
      invariant after.Keys == nodes.Keys
      invariant forall a :: a in nodes ==>
        after[a] == (if a in members[..i] then nodes[a].(clusterId := Some(id)) else nodes[a])
    {
      if members[i] in after {
        after := after[members[i] := after[members[i]].(clusterId := Some(id))];
      }
    }
    assert members[..|members|] == members;
  }

  /** The loop over `enumerate(clusters.items())`. */
  method LabelClusters(nodes: Nodes, clusters: map<Address, seq<Address>>, roots: seq<Address>,
                       ghost order: seq<Address>, ghost m: map<Address, Address>) returns (after: Nodes)
    requires Listed(roots, clusters) && Partition(clusters, order, m) && Elements(order) == m.Keys
    ensures Labelled(nodes, after, m, roots)
  {
    after := nodes;
    for id := 0 to |roots|
      invariant Labelled(nodes, after, m, roots[..id])
    {
      var r := roots[id];
      ListedHas(roots, clusters, r);
      ghost var sofar := after;
      after := LabelMembers(after, clusters[r], id);
      LabelStep(nodes, sofar, after, order, m, roots, id);
    }
    assert roots[..|roots|] == roots;
  }

  lemma LabelStep(nodes: Nodes, sofar: Nodes, after: Nodes, order: seq<Address>, m: map<Address, Address>,
                  roots: seq<Address>, id: nat)
    requires id < |roots| && Distinct(roots) && Elements(order) == m.Keys
    requires Labelled(nodes, sofar, m, roots[..id]) && after.Keys == sofar.Keys
    requires forall a :: a in sofar ==>
      after[a] == (if a in Cluster(order, m, roots[id]) then sofar[a].(clusterId := Some(id)) else sofar[a])
    ensures Labelled(nodes, after, m, roots[..id + 1])
  {
    forall a | a in nodes
      ensures after[a] == (if a in m && m[a] == roots[id] then sofar[a].(clusterId := Some(id)) else sofar[a])
    {
      ClusterContains(order, m, roots[id], a);
      assert a in Elements(order) <==> a in order;
    }
    hide Elements, Cluster;
    assert roots[id] !in roots[..id];
    LabelExtends(nodes, sofar, after, m, roots[..id], roots[id]);
    assert roots[..id + 1] == roots[..id] + [roots[id]];
  }

  lemma LabelExtends(nodes: Nodes, sofar: Nodes, after: Nodes, m: map<Address, Address>, done: seq<Address>, r: Address)
    requires Labelled(nodes, sofar, m, done) && after.Keys == sofar.Keys && r !in done
    requires forall a :: a in nodes ==>
      after[a] == (if a in m && m[a] == r then sofar[a].(clusterId := Some(|done|)) else sofar[a])
    ensures Labelled(nodes, after, m, done + [r])
  {
    var all := done + [r];
    forall a, j | a in nodes && a in m && 0 <= j < |all| && m[a] == all[j]
      ensures after[a] == nodes[a].(clusterId := Some(j))
    {
      if j < |done| {
        assert m[a] == done[j] && m[a] in done;
      }
    }
  }

  /** Sharing an id means sharing a root. */
  lemma LabelsSeparateRoots(before: Nodes, after: Nodes, m: map<Address, Address>, roots: seq<Address>, a: Address, b: Address)
    requires Labelled(before, after, m, roots) && a in before && b in before && a in m && b in m
    requires m[a] in roots && m[b] in roots
    ensures after[a].clusterId.Some? && after[a] == before[a].(clusterId := after[a].clusterId)
    ensures after[a].clusterId == after[b].clusterId <==> m[a] == m[b]
  {
    var i :| 0 <= i < |roots| && roots[i] == m[a];
    var j :| 0 <= j < |roots| && roots[j] == m[b];
    assert after[a] == before[a].(clusterId := Some(i));
    assert after[b] == before[b].(clusterId := Some(j));
  }

  /** Two graph wallets known to the forest share a `cluster_id` exactly when
      the pairs `e` link them; every other node keeps its attributes. */
  ghost predicate IdsAreClasses(before: Nodes, after: Nodes, p: Parents, e: Pairs) {
    && after.Keys == before.Keys
    && (forall a :: a in before && a !in p ==> after[a] == before[a])
    && (forall a :: a in before && a in p ==> after[a] == before[a].(clusterId := after[a].clusterId))
    && (forall a :: a in before && a in p ==> after[a].clusterId.Some?)
    && (forall a, b :: a in before && b in before && a in p && b in p ==>
          (after[a].clusterId == after[b].clusterId <==> Linked(e, a, b)))
  }

  lemma LabelsAreClasses(p: Parents, rk: Ranks, m: map<Address, Address>, e: Pairs, order: seq<Address>,
                         clusters: map<Address, seq<Address>>, roots: seq<Address>, before: Nodes, after: Nodes)
    requires Sound(p, rk, m, e) && Listed(order, p) && Listed(roots, clusters) && Partition(clusters, order, m)
    requires Labelled(before, after, m, roots)
    ensures IdsAreClasses(before, after, p, e)
  {
    hide Sound, Listed, Partition, Elements, Linked;
    OrderIsKeys(p, rk, m, e, order);
    RootsAreListed(order, m, clusters, roots);
    forall a, b | a in before && b in before && a in p && b in p
      ensures after[a].clusterId == after[b].clusterId <==> Linked(e, a, b)
      ensures after[a].clusterId.Some? && after[a] == before[a].(clusterId := after[a].clusterId)
    {
      LabelsSeparateRoots(before, after, m, roots, a, b);
      SameRootIffLinked(p, rk, m, e, a, b);
    }
    forall a | a in before && a in p
      ensures after[a].clusterId.Some? && after[a] == before[a].(clusterId := after[a].clusterId)
    {
      LabelsSeparateRoots(before, after, m, roots, a, a);
    }
  }

  /** Every graph wallet known to the forest is numbered with the number of
      clusters whose first wallet became known before that of its own. */
  ghost predicate NumberedInOrder(before: Nodes, after: Nodes, order: seq<Address>, m: map<Address, Address>) {
    forall a :: a in before && a in after && a in m ==>
      after[a] == before[a].(clusterId := Some(|Earlier(order, m, m[a])|))
  }

  lemma LabelsCountEarlier(before: Nodes, after: Nodes, order: seq<Address>, m: map<Address, Address>, roots: seq<Address>)
    requires Labelled(before, after, m, roots) && MetInOrder(roots, order, m)
    requires Distinct(roots) && Elements(roots) == m.Values
    ensures NumberedInOrder(before, after, order, m)
  {
    hide MetInOrder, Earlier, Distinct;
    forall a | a in before && a in m
      ensures after[a] == before[a].(clusterId := Some(|Earlier(order, m, m[a])|))
    {
      assert m[a] in Elements(roots);
      var k :| 0 <= k < |roots| && roots[k] == m[a];
      PositionCountsEarlier(roots, order, m, k);
    }
  }

  /** The generator given to `max`: the risks of the members that are graph nodes. */
  method PeakRisk(nodes: Nodes, members: seq<Address>) returns (top: Option<real>)
    ensures top == Peak(nodes, members)
  {
    top := None;
    for i := 0 to |members|
      invariant top == Peak(nodes, members[..i])
    {
      assert members[..i + 1][..i] == members[..i];
      if members[i] in nodes {
        var risk := nodes[members[i]].risk;
        top := if top.None? then Some(risk) else Some(Max(top.value, risk));
      }
    }
    assert members[..|members|] == members;
  }

  method RaiseMembers(nodes: Nodes, members: seq<Address>, floor: real) returns (after: Nodes)
    ensures after.Keys == nodes.Keys
    ensures forall a :: a in nodes ==>
      after[a] == (if a in members then nodes[a].(risk := Max(nodes[a].risk, floor)) else nodes[a])
  {
    after := nodes;
    for i := 0 to |members|
      invariant after.Keys == nodes.Keys
      invariant forall a :: a in nodes ==>
        after[a] == (if a in members[..i] then nodes[a].(risk := Max(nodes[a].risk, floor)) else nodes[a])
    {
      var x := members[i];
      if x in after {
        after := after[x := after[x].(risk := Max(after[x].risk, floor))];
      }
    }
    assert members[..|members|] == members;
  }

  /** Clusters are visited in the order of `roots`.  `visited` of them were
      processed; the next one, if any, has no member in the graph, and there
      Python's `max` raises. */
  method SpreadRisk(nodes: Nodes, clusters: map<Address, seq<Address>>, roots: seq<Address>,
                    ghost order: seq<Address>, ghost m: map<Address, Address>) returns (after: Nodes, visited: nat)
    requires Listed(roots, clusters) && Partition(clusters, order, m) && Elements(order) == m.Keys
    ensures visited <= |roots|
    ensures after == Spread(nodes, order, m, Elements(roots[..visited]))
    ensures forall k :: 0 <= k < visited ==> Peak(nodes, Cluster(order, m, roots[k])).Some?
    ensures visited < |roots| ==> Peak(nodes, Cluster(order, m, roots[visited])).None?
  {
    hide Spread, Peak, Cluster, Elements, Listed, Distinct;
    after, visited := nodes, 0;
    SpreadNothing(nodes, order, m);
    while visited < |roots|
      invariant visited <= |roots|
      invariant after == Spread(nodes, order, m, Elements(roots[..visited]))
      invariant forall k :: 0 <= k < visited ==> Peak(nodes, Cluster(order, m, roots[k])).Some?
    {
      var r := roots[visited];
      ListedHas(roots, clusters, r);
      ghost var done := Elements(roots[..visited]);
      SpreadKeepsPeaks(nodes, order, m, done, r);
      var top := PeakRisk(after, clusters[r]);
      if top.None? {
        return;
      }
      ghost var before := after;
      if top.value > 0.5 {
        after := RaiseMembers(after, clusters[r], top.value * 0.7);
      }
      NotYetVisited(roots, visited);
      SpreadOneMore(nodes, before, after, order, m, done, r);
      visited := visited + 1;
    }
  }

  lemma SpreadNothing(nodes: Nodes, order: seq<Address>, m: map<Address, Address>)
    ensures nodes == Spread(nodes, order, m, Elements([]))
  {
  }

  lemma NotYetVisited(roots: seq<Address>, k: nat)
    requires Distinct(roots) && k < |roots|
    ensures roots[k] !in Elements(roots[..k])
    ensures Elements(roots[..k + 1]) == Elements(roots[..k]) + {roots[k]}
  {
  }

  lemma SpreadOneMore(nodes: Nodes, before: Nodes, after: Nodes, order: seq<Address>, m: map<Address, Address>,
                      done: set<Address>, r: Address)
    requires before == Spread(nodes, order, m, done) && r !in done && after.Keys == before.Keys
    requires Elements(order) == m.Keys && Peak(nodes, Cluster(order, m, r)).Some?
    requires var top := Peak(nodes, Cluster(order, m, r)).value;
             if top > 0.5 then
               forall a :: a in before ==>
                 after[a] == (if a in Cluster(order, m, r) then before[a].(risk := Max(before[a].risk, top * 0.7)) else before[a])
             else after == before
    ensures after == Spread(nodes, order, m, done + {r})
  {
    hide Cluster, Peak;
    var goal := Spread(nodes, order, m, done + {r});
    forall a | a in nodes
      ensures after[a] == goal[a]
    {
      ClusterContains(order, m, r, a);
      assert a in Elements(order) <==> a in order;
    }
  }
}
