/** The networkx DiGraph of the source and what one transaction does to it. */
module DiGraphs {
  import opened Common
  import opened Walks

  /** Attributes of a wallet node. */
  datatype Attrs = Attrs(
    risk: real,
    clusterId: Option<nat>,
    firstSeen: real,
    lastSeen: real,
    txCount: nat,
    totalValue: real,
    flagged: bool)

  /** Attributes of an edge. */
  datatype Edge = Edge(txHash: string, value: real, timestamp: real, block: int, contractCall: bool)

  datatype DiGraph = DiGraph(
    nodes: map<Address, Attrs>,
    succ: Lists,
    pred: Lists,
    edges: map<(Address, Address), Edge>)
  {
    predicate HasNode(a: Address) { a in nodes }

    predicate HasEdge(a: Address, b: Address) { (a, b) in edges }

    /** `add_node` for a wallet that is not yet present. */
    function AddNode(a: Address, now: real): DiGraph
      requires !HasNode(a)
    {
      DiGraph(
        nodes[a := Attrs(0.0, None, now, now, 0, 0.0, false)],
        succ[a := []],
        pred[a := []],
        edges)
    }

    /** `add_edge` between present wallets that are not yet joined. */
    function AddEdge(a: Address, b: Address, e: Edge): DiGraph
      requires HasNode(a) && HasNode(b) && !HasEdge(a, b)
    {
      DiGraph(nodes, succ[a := Next(succ, a) + [b]], pred[b := Next(pred, b) + [a]], edges[(a, b) := e])
    }
  }

  const EMPTY_GRAPH := DiGraph(map[], map[], map[], map[])

  /** The successor and predecessor lists both list exactly the edges, each once. */
  ghost predicate WellFormed(g: DiGraph) {
    && g.succ.Keys == g.nodes.Keys
    && g.pred.Keys == g.nodes.Keys
    && NoRepeats(g.succ)
    && NoRepeats(g.pred)
    && (forall a, b :: b in Next(g.succ, a) <==> (a, b) in g.edges)
    && (forall a, b :: a in Next(g.pred, b) <==> (a, b) in g.edges)
    && (forall a, b :: (a, b) in g.edges ==> a in g.nodes && b in g.nodes)
  }

  /** The arguments of `add_transaction`; `now` is the clock read by the call. */
  datatype Tx = Tx(
    hash: string,
    from: Address,
    to: Address,
    value: real,
    timestamp: real,
    block: int,
    contractCall: bool,
    risk: real,
    now: real)

  function Present(g: DiGraph, a: Address, now: real): DiGraph {
    if g.HasNode(a) then g else g.AddNode(a, now)
  }

  function CountSend(n: Attrs, t: Tx): Attrs {
    n.(lastSeen := t.now,
       txCount := n.txCount + 1,
       totalValue := n.totalValue + t.value,
       risk := if t.risk > 0.0 then Max(n.risk, t.risk) else n.risk)
  }

  /** What a transaction does to a graph that holds both its ends. */
  function Booked(g: DiGraph, t: Tx): DiGraph
    requires g.HasNode(t.from) && g.HasNode(t.to)
  {
    var g1 := g.(nodes := g.nodes[t.from := CountSend(g.nodes[t.from], t)]);
    if !g1.HasEdge(t.from, t.to) then
      g1.AddEdge(t.from, t.to, Edge(t.hash, t.value, t.timestamp, t.block, t.contractCall))
    else
      var e := g1.edges[(t.from, t.to)];
      g1.(edges := g1.edges[(t.from, t.to) := e.(value := e.value + t.value, timestamp := t.timestamp)])
  }

  /** `add_transaction` as a function of the graph. */
  function Added(g: DiGraph, t: Tx): DiGraph {
    var g1 := Present(g, t.from, t.now);
    if t.to == NoAddress then g1 else Booked(Present(g1, t.to, t.now), t)
  }

  lemma AddNodeWellFormed(g: DiGraph, a: Address, now: real)
    requires WellFormed(g)
    ensures WellFormed(Present(g, a, now))
  {
    hide Next, Distinct;
    forall x {
      PresentNext(g, a, now, x);
    }
  }

  lemma PresentNext(g: DiGraph, a: Address, now: real, x: Address)
    requires g.succ.Keys == g.nodes.Keys == g.pred.Keys
    ensures var h := Present(g, a, now);
            Next(h.succ, x) == Next(g.succ, x) && Next(h.pred, x) == Next(g.pred, x)
  {
  }

  lemma AddEdgeWellFormed(g: DiGraph, a: Address, b: Address, e: Edge)
    requires WellFormed(g) && g.HasNode(a) && g.HasNode(b) && !g.HasEdge(a, b)
    ensures WellFormed(g.AddEdge(a, b, e))
  {
    hide Next, NoRepeats;
    forall x {
      AddEdgeNext(g, a, b, e, x);
    }
    AddEdgeNoRepeats(g, a, b, e);
  }

  lemma AddEdgeNoRepeats(g: DiGraph, a: Address, b: Address, e: Edge)
    requires WellFormed(g) && g.HasNode(a) && g.HasNode(b) && !g.HasEdge(a, b)
    ensures NoRepeats(g.AddEdge(a, b, e).succ) && NoRepeats(g.AddEdge(a, b, e).pred)
  {
    hide Next, Distinct;
    forall x {
      AddEdgeNext(g, a, b, e, x);
    }
    DistinctOneMore(Next(g.succ, a), b);
    DistinctOneMore(Next(g.pred, b), a);
  }

  lemma AddEdgeNext(g: DiGraph, a: Address, b: Address, e: Edge, x: Address)
    requires g.HasNode(a) && g.HasNode(b) && !g.HasEdge(a, b)
    ensures var h := g.AddEdge(a, b, e);
            && Next(h.succ, x) == (if x == a then Next(g.succ, a) + [b] else Next(g.succ, x))
            && Next(h.pred, x) == (if x == b then Next(g.pred, b) + [a] else Next(g.pred, x))
  {
  }

  lemma DistinctOneMore(s: seq<Address>, x: Address)
    requires Distinct(s) && x !in s
    ensures Distinct(s + [x])
  {
  }

  lemma AddedWellFormed(g: DiGraph, t: Tx)
    requires WellFormed(g)
    ensures WellFormed(Added(g, t))
  {
    hide WellFormed;
    AddNodeWellFormed(g, t.from, t.now);
    var g1 := Present(g, t.from, t.now);
    if t.to != NoAddress {
      AddNodeWellFormed(g1, t.to, t.now);
      var g2 := Present(g1, t.to, t.now);
      var g3 := g2.(nodes := g2.nodes[t.from := CountSend(g2.nodes[t.from], t)]);
      AttrsWellFormed(g2, g3);
      if !g3.HasEdge(t.from, t.to) {
        AddEdgeWellFormed(g3, t.from, t.to, Edge(t.hash, t.value, t.timestamp, t.block, t.contractCall));
      } else {
        AttrsWellFormed(g3, Added(g, t));
      }
    }
  }

  /** Changing attributes only keeps the graph well formed. */
  lemma AttrsWellFormed(g: DiGraph, h: DiGraph)
    requires WellFormed(g) && h.succ == g.succ && h.pred == g.pred
    requires h.nodes.Keys == g.nodes.Keys && h.edges.Keys == g.edges.Keys
    ensures WellFormed(h)
  {
    assert forall k :: k in h.edges <==> k in h.edges.Keys;
    assert forall k :: k in g.edges <==> k in g.edges.Keys;
  }

  lemma WellFormedMirrors(g: DiGraph)
    requires WellFormed(g)
    ensures Mirror(g.succ, g.pred) && NoRepeats(g.succ) && NoRepeats(g.pred)
  {
  }

  lemma AbsentHasNoNext(g: DiGraph, a: Address)
    requires WellFormed(g) && a !in g.nodes
    ensures Next(g.succ, a) == [] && Next(g.pred, a) == []
  {
  }
}
