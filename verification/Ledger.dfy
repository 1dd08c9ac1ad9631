/** Running totals kept by `add_transaction`, against the list of transactions they summarise. */
module Ledger {
  import opened Common
  import opened Walks
  import opened DiGraphs

  /** The graph after `txs`, first to last. */
  function Replay(txs: seq<Tx>): DiGraph {
    if txs == [] then EMPTY_GRAPH else Added(Replay(txs[..|txs| - 1]), txs[|txs| - 1])
  }

  // ---- what the graph records, with zero for what is absent ----

  function Count(g: DiGraph, a: Address): nat {
    if a in g.nodes then g.nodes[a].txCount else 0
  }

  function Total(g: DiGraph, a: Address): real {
    if a in g.nodes then g.nodes[a].totalValue else 0.0
  }

  function Weight(g: DiGraph, a: Address, b: Address): real {
    if (a, b) in g.edges then g.edges[(a, b)].value else 0.0
  }

  /** Sum of the weights of the edges from `a` to each of `bs`. */
  function OutSum(g: DiGraph, a: Address, bs: seq<Address>): real {
    if bs == [] then 0.0 else OutSum(g, a, bs[..|bs| - 1]) + Weight(g, a, bs[|bs| - 1])
  }

  // ---- what the transactions say ----

  /** The part of a transaction that the totals depend on. */
  datatype Move = Move(from: Address, to: Address, value: real)

  function MoveOf(t: Tx): Move {
    Move(t.from, t.to, t.value)
  }

  function Moves(txs: seq<Tx>): (ms: seq<Move>)
    ensures |ms| == |txs| && forall i :: 0 <= i < |txs| ==> ms[i] == MoveOf(txs[i])
  {
    seq(|txs|, i requires 0 <= i < |txs| => MoveOf(txs[i]))
  }

  /** `m` takes value from `a` to a recipient. */
  predicate Sends(m: Move, a: Address) {
    m.from == a && m.to != NoAddress
  }

  predicate Pays(m: Move, a: Address, b: Address) {
    m.from == a && m.to == b && b != NoAddress
  }

  predicate Mentions(m: Move, a: Address) {
    m.from == a || (m.to == a && a != NoAddress)
  }

  function Sum(f: Move -> real, ms: seq<Move>): real {
    Fold((s: real, m: Move) => s + f(m), 0.0, ms)
  }

  function SentBy(a: Address): Move -> real {
    (m: Move) => if Sends(m, a) then m.value else 0.0
  }

  function PaidTo(a: Address, b: Address): Move -> real {
    (m: Move) => if Pays(m, a, b) then m.value else 0.0
  }

  function OneIfSends(a: Address): Move -> real {
    (m: Move) => if Sends(m, a) then 1.0 else 0.0
  }

  lemma SumPermutes(f: Move -> real, ms: seq<Move>, ns: seq<Move>)
    requires multiset(ms) == multiset(ns)
    ensures Sum(f, ms) == Sum(f, ns)
  {
    FoldPermutes((s: real, m: Move) => s + f(m), 0.0, ms, ns);
  }

  // ---- one transaction ----

  lemma PresentRecords(g: DiGraph, b: Address, now: real, a: Address)
    ensures var h := Present(g, b, now);
            (a in h.nodes <==> a in g.nodes || a == b) && Count(h, a) == Count(g, a) && Total(h, a) == Total(g, a)
  {
  }

  lemma AddedRecordsSender(g: DiGraph, t: Tx, a: Address)
    ensures var h := Added(g, t);
            && (a in h.nodes <==> a in g.nodes || Mentions(MoveOf(t), a))
            && Count(h, a) == Count(g, a) + (if Sends(MoveOf(t), a) then 1 else 0)
            && Total(h, a) == Total(g, a) + SentBy(a)(MoveOf(t))
  {
    hide Present;
    PresentRecords(g, t.from, t.now, a);
    if t.to != NoAddress {
      var g1 := Present(g, t.from, t.now);
      PresentRecords(g, t.from, t.now, t.from);
      PresentRecords(g1, t.to, t.now, a);
      PresentRecords(g1, t.to, t.now, t.from);
      var g2 := Present(g1, t.to, t.now);
      assert Added(g, t).nodes == g2.nodes[t.from := CountSend(g2.nodes[t.from], t)];
    }
  }

  lemma AddedRecordsEdge(g: DiGraph, t: Tx, a: Address, b: Address)
    ensures var h := Added(g, t);
            && ((a, b) in h.edges <==> (a, b) in g.edges || Pays(MoveOf(t), a, b))
            && Weight(h, a, b) == Weight(g, a, b) + PaidTo(a, b)(MoveOf(t))
  {
    hide Next, CountSend, Present;
    var g1 := Present(g, t.from, t.now);
    PresentKeepsEdges(g, t.from, t.now);
    PresentKeepsEdges(g1, t.to, t.now);
  }

  lemma PresentKeepsEdges(g: DiGraph, b: Address, now: real)
    ensures Present(g, b, now).edges == g.edges
  {
  }

  lemma PresentNeighbours(g: DiGraph, b: Address, now: real, a: Address)
    requires g.succ.Keys == g.nodes.Keys
    ensures var h := Present(g, b, now);
            h.succ.Keys == h.nodes.Keys && h.edges == g.edges && Next(h.succ, a) == Next(g.succ, a)
  {
  }

  lemma AddedNeighbours(g: DiGraph, t: Tx, a: Address)
    requires WellFormed(g)
    ensures Next(Added(g, t).succ, a)
         == if Sends(MoveOf(t), a) && (a, t.to) !in g.edges then Next(g.succ, a) + [t.to] else Next(g.succ, a)
  {
    hide Present;
    assert g.succ.Keys == g.nodes.Keys;
    hide WellFormed;
    PresentNeighbours(g, t.from, t.now, a);
    PresentNeighbours(Present(g, t.from, t.now), t.to, t.now, a);
  }

  lemma {:induction false} OutSumStep(g: DiGraph, t: Tx, a: Address, bs: seq<Address>)
    requires WellFormed(g) && Distinct(bs)
    ensures OutSum(Added(g, t), a, bs)
         == OutSum(g, a, bs) + (if Sends(MoveOf(t), a) && t.to in bs then t.value else 0.0)
  {
    if bs != [] {
      var front, last := bs[..|bs| - 1], bs[|bs| - 1];
      OutSumStep(g, t, a, front);
      AddedRecordsEdge(g, t, a, last);
      assert last !in front;
      assert t.to in bs <==> t.to in front || t.to == last;
    }
  }

  /** Every wallet's total is what its out-edges carry, and it has sent at least
      once along each of them. */
  ghost predicate BooksBalance(g: DiGraph) {
    forall a :: Total(g, a) == OutSum(g, a, Next(g.succ, a)) && |Next(g.succ, a)| <= Count(g, a)
  }

  lemma AddedBalancesAt(g: DiGraph, t: Tx, a: Address)
    requires WellFormed(g) && BooksBalance(g)
    ensures var h := Added(g, t);
            Total(h, a) == OutSum(h, a, Next(h.succ, a)) && |Next(h.succ, a)| <= Count(h, a)
  {
    hide Next, Added, Count, Total, OutSum, WellFormed;
    var bs := Next(g.succ, a);
    NextIsDistinct(g, a, t.to);
    assert Total(g, a) == OutSum(g, a, bs) && |bs| <= Count(g, a);
    AddedRecordsSender(g, t, a);
    AddedRecordsEdge(g, t, a, t.to);
    AddedNeighbours(g, t, a);
    OutSumStep(g, t, a, bs);
    OutSumAppend(Added(g, t), a, bs, t.to);
  }

  lemma NextIsDistinct(g: DiGraph, a: Address, b: Address)
    requires WellFormed(g)
    ensures Distinct(Next(g.succ, a)) && (b in Next(g.succ, a) <==> (a, b) in g.edges)
    ensures (a, b) !in g.edges ==> Weight(g, a, b) == 0.0
  {
  }

  lemma OutSumAppend(g: DiGraph, a: Address, bs: seq<Address>, b: Address)
    ensures OutSum(g, a, bs + [b]) == OutSum(g, a, bs) + Weight(g, a, b)
  {
    assert (bs + [b])[..|bs|] == bs;
  }

  lemma AddedBalances(g: DiGraph, t: Tx)
    requires WellFormed(g) && BooksBalance(g)
    ensures BooksBalance(Added(g, t))
  {
    forall a
      ensures Total(Added(g, t), a) == OutSum(Added(g, t), a, Next(Added(g, t).succ, a))
      ensures |Next(Added(g, t).succ, a)| <= Count(Added(g, t), a)
    {
      AddedBalancesAt(g, t, a);
    }
  }

  /** Two graphs have the same wallets and edges, and every wallet the same count, total and clocks. */
  ghost predicate SameBooks(g: DiGraph, h: DiGraph) {
    && g.succ == h.succ && g.pred == h.pred && g.edges == h.edges && g.nodes.Keys == h.nodes.Keys
    && forall a :: a in g.nodes ==>
         && g.nodes[a].txCount == h.nodes[a].txCount && g.nodes[a].totalValue == h.nodes[a].totalValue
         && g.nodes[a].firstSeen == h.nodes[a].firstSeen && g.nodes[a].lastSeen == h.nodes[a].lastSeen
  }

  lemma PresentSameBooks(g: DiGraph, h: DiGraph, b: Address, now: real)
    requires SameBooks(g, h)
    ensures SameBooks(Present(g, b, now), Present(h, b, now)) && b in Present(g, b, now).nodes
    ensures forall a :: a in g.nodes ==> a in Present(g, b, now).nodes
  {
  }

  lemma BookedSameBooks(g: DiGraph, h: DiGraph, t: Tx)
    requires SameBooks(g, h) && g.HasNode(t.from) && g.HasNode(t.to)
    ensures h.HasNode(t.from) && h.HasNode(t.to) && SameBooks(Booked(g, t), Booked(h, t))
  {
    hide Next;
  }

  lemma AddedSameBooks(g: DiGraph, h: DiGraph, t: Tx)
    requires SameBooks(g, h)
    ensures SameBooks(Added(g, t), Added(h, t))
  {
    var g1, h1 := Present(g, t.from, t.now), Present(h, t.from, t.now);
    PresentSameBooks(g, h, t.from, t.now);
    if t.to != NoAddress {
      var g2, h2 := Present(g1, t.to, t.now), Present(h1, t.to, t.now);
      PresentSameBooks(g1, h1, t.to, t.now);
      BookedSameBooks(g2, h2, t);
      hide Present, SameBooks, CountSend, Next;
      assert Added(g, t) == Booked(g2, t) && Added(h, t) == Booked(h2, t);
    }
  }

  /** Equal books balance alike. */
  lemma SameBooksAgree(g: DiGraph, h: DiGraph, a: Address, bs: seq<Address>)
    requires SameBooks(g, h)
    ensures Count(g, a) == Count(h, a) && Total(g, a) == Total(h, a) && OutSum(g, a, bs) == OutSum(h, a, bs)
  {
    if bs != [] {
      SameBooksAgree(g, h, a, bs[..|bs| - 1]);
    }
  }

  lemma SameBooksBalance(g: DiGraph, h: DiGraph)
    requires SameBooks(g, h) && BooksBalance(h)
    ensures BooksBalance(g)
  {
    forall a
      ensures Total(g, a) == OutSum(g, a, Next(g.succ, a)) && |Next(g.succ, a)| <= Count(g, a)
    {
      SameBooksAgree(g, h, a, Next(g.succ, a));
    }
  }

  // ---- every run ----

  lemma {:induction false} ReplayIsSound(txs: seq<Tx>)
    ensures WellFormed(Replay(txs)) && BooksBalance(Replay(txs))
  {
    if txs != [] {
      ReplayIsSound(txs[..|txs| - 1]);
      AddedWellFormed(Replay(txs[..|txs| - 1]), txs[|txs| - 1]);
      AddedBalances(Replay(txs[..|txs| - 1]), txs[|txs| - 1]);
    }
  }

  /** Conservation: after any run, a wallet's count and total are the number and
      the sum of its sends, an edge carries the sum of what was paid along it,
      and nodes and edges are exactly those mentioned. */
  lemma {:induction false} Conservation(txs: seq<Tx>, a: Address, b: Address)
    ensures var g, ms := Replay(txs), Moves(txs);
            && Count(g, a) as real == Sum(OneIfSends(a), ms)
            && Total(g, a) == Sum(SentBy(a), ms)
            && Weight(g, a, b) == Sum(PaidTo(a, b), ms)
            && (a in g.nodes <==> exists m :: m in ms && Mentions(m, a))
            && ((a, b) in g.edges <==> exists m :: m in ms && Pays(m, a, b))
  {
    if txs != [] {
      var front, last := txs[..|txs| - 1], txs[|txs| - 1];
      Conservation(front, a, b);
      AddedRecordsSender(Replay(front), last, a);
      AddedRecordsEdge(Replay(front), last, a, b);
      MovesStep(txs);
    }
  }

  lemma MovesStep(txs: seq<Tx>)
    requires txs != []
    ensures var ms := Moves(txs);
            && ms[..|ms| - 1] == Moves(txs[..|txs| - 1])
            && ms[|ms| - 1] == MoveOf(txs[|txs| - 1])
            && forall m :: m in ms <==> m in Moves(txs[..|txs| - 1]) || m == MoveOf(txs[|txs| - 1])
  {
    var ms := Moves(txs);
    assert ms[..|ms| - 1] == Moves(txs[..|txs| - 1]);
    assert ms == ms[..|ms| - 1] + [ms[|ms| - 1]];
  }

  /** What two graphs record about the wallets `a` and `b` is the same. */
  ghost predicate SameRecords(g: DiGraph, h: DiGraph, a: Address, b: Address) {
    && (a in g.nodes <==> a in h.nodes)
    && ((a, b) in g.edges <==> (a, b) in h.edges)
    && Count(g, a) == Count(h, a)
    && Total(g, a) == Total(h, a)
    && Weight(g, a, b) == Weight(h, a, b)
  }

  /** The records depend only on the multiset of (from, to, value): not on order, clocks or hashes. */
  lemma OrderIndependence(txs: seq<Tx>, us: seq<Tx>, a: Address, b: Address)
    requires multiset(Moves(txs)) == multiset(Moves(us))
    ensures SameRecords(Replay(txs), Replay(us), a, b)
  {
    hide Sum, Count, Total, Weight;
    Conservation(txs, a, b);
    Conservation(us, a, b);
    SumPermutes(OneIfSends(a), Moves(txs), Moves(us));
    SumPermutes(SentBy(a), Moves(txs), Moves(us));
    SumPermutes(PaidTo(a, b), Moves(txs), Moves(us));
    SameElements(Moves(txs), Moves(us));
  }

  lemma SameElements<T>(s: seq<T>, t: seq<T>)
    requires multiset(s) == multiset(t)
    ensures forall x :: x in s <==> x in t
  {
    assert forall x :: x in s <==> x in multiset(s);
    assert forall x :: x in t <==> x in multiset(t);
  }

  function Ends(ms: seq<Move>): set<(Address, Address)> {
    set m | m in ms :: (m.from, m.to)
  }

  lemma ShapeGrows(txs: seq<Tx>, us: seq<Tx>, a: Address, b: Address)
    requires Ends(Moves(txs)) <= Ends(Moves(us))
    ensures a in Replay(txs).nodes ==> a in Replay(us).nodes
    ensures (a, b) in Replay(txs).edges ==> (a, b) in Replay(us).edges
  {
    hide Sum, Count, Total, Weight;
    Conservation(txs, a, b);
    Conservation(us, a, b);
    forall m | m in Moves(txs)
      ensures exists n :: n in Moves(us) && n.from == m.from && n.to == m.to
    {
      assert (m.from, m.to) in Ends(Moves(us));
    }
    if a in Replay(txs).nodes {
      var m :| m in Moves(txs) && Mentions(m, a);
      var n :| n in Moves(us) && n.from == m.from && n.to == m.to;
      assert Mentions(n, a);
    }
    if (a, b) in Replay(txs).edges {
      var m :| m in Moves(txs) && Pays(m, a, b);
      var n :| n in Moves(us) && n.from == m.from && n.to == m.to;
      assert Pays(n, a, b);
    }
  }

  /** Nodes and edges depend only on which (from, to) pairs occur: neither order nor repetition matters. */
  lemma ShapeDependsOnEndsOnly(txs: seq<Tx>, us: seq<Tx>, a: Address, b: Address)
    requires Ends(Moves(txs)) == Ends(Moves(us))
    ensures a in Replay(txs).nodes <==> a in Replay(us).nodes
    ensures (a, b) in Replay(txs).edges <==> (a, b) in Replay(us).edges
  {
    ShapeGrows(txs, us, a, b);
    ShapeGrows(us, txs, a, b);
  }

  // ---- attributes that do depend on the order ----

  /** Repeating a call adds no node and no edge, yet leaves the graph as it was
      exactly when the transaction has no recipient: otherwise it counts twice. */
  lemma RepeatIsHarmlessIffNoRecipient(g: DiGraph, t: Tx)
    ensures var once := Added(g, t);
            && Added(once, t).nodes.Keys == once.nodes.Keys && Added(once, t).edges.Keys == once.edges.Keys
            && (Added(once, t) == once <==> t.to == NoAddress)
  {
    hide Next;
    var once := Added(g, t);
    if t.to != NoAddress {
      assert Count(Added(once, t), t.from) == Count(once, t.from) + 1;
    }
  }

  /** A later payment leaves the higher of the two values on its edge exactly if
      the lower one is 0: in general the edge carries the sum. */
  lemma SumIsHigherIff(g: DiGraph, t: Tx)
    requires (t.from, t.to) in g.edges && t.to != NoAddress
    ensures var was, now := Weight(g, t.from, t.to), Weight(Added(g, t), t.from, t.to);
            now == Max(was, t.value) <==> Min(was, t.value) == 0.0
  {
    AddedRecordsEdge(g, t, t.from, t.to);
    hide Added;
  }

  /** The transactions that pay along one edge, in order. */
  function Paying(txs: seq<Tx>, a: Address, b: Address): seq<Tx> {
    if txs == [] then []
    else Paying(txs[..|txs| - 1], a, b) + (if Pays(MoveOf(txs[|txs| - 1]), a, b) then [txs[|txs| - 1]] else [])
  }

  lemma AddedEdge(g: DiGraph, t: Tx, a: Address, b: Address)
    requires (a, b) in Added(g, t).edges
    ensures var e := Added(g, t).edges[(a, b)];
            if !Pays(MoveOf(t), a, b) then (a, b) in g.edges && e == g.edges[(a, b)]
            else if (a, b) in g.edges then
              e == g.edges[(a, b)].(value := g.edges[(a, b)].value + t.value, timestamp := t.timestamp)
            else e == Edge(t.hash, t.value, t.timestamp, t.block, t.contractCall)
  {
  }

  /** An edge keeps hash, block and kind of the first transaction along it and
      the timestamp of the last: these are what a different order can change. */
  lemma {:induction false} EdgeWriters(txs: seq<Tx>, a: Address, b: Address)
    ensures var g, ps := Replay(txs), Paying(txs, a, b);
            && ((a, b) in g.edges <==> ps != [])
            && ((a, b) in g.edges ==>
                  g.edges[(a, b)] == Edge(ps[0].hash, g.edges[(a, b)].value, ps[|ps| - 1].timestamp,
                                          ps[0].block, ps[0].contractCall))
  {
    if txs != [] {
      var front, last := txs[..|txs| - 1], txs[|txs| - 1];
      EdgeWriters(front, a, b);
      AddedRecordsEdge(Replay(front), last, a, b);
      if (a, b) in Replay(txs).edges {
        AddedEdge(Replay(front), last, a, b);
      }
      hide Added;
    }
  }

  lemma PresentClocks(g: DiGraph, b: Address, now: real, a: Address)
    ensures var h := Present(g, b, now);
            && b in h.nodes
            && (a in h.nodes <==> a in g.nodes || a == b)
            && (a in g.nodes ==> h.nodes[a] == g.nodes[a])
            && (a == b && a !in g.nodes ==> h.nodes[a].firstSeen == h.nodes[a].lastSeen == now)
  {
  }

  lemma AddedClocks(g: DiGraph, t: Tx, a: Address)
    ensures var h := Added(g, t);
            && (a in h.nodes <==> a in g.nodes || Mentions(MoveOf(t), a))
            && (a in h.nodes ==>
                  && h.nodes[a].firstSeen == (if a in g.nodes then g.nodes[a].firstSeen else t.now)
                  && h.nodes[a].lastSeen == if Sends(MoveOf(t), a) || a !in g.nodes then t.now else g.nodes[a].lastSeen)
  {
    hide Present;
    PresentClocks(g, t.from, t.now, a);
    if t.to != NoAddress {
      var g1 := Present(g, t.from, t.now);
      PresentClocks(g, t.from, t.now, t.from);
      PresentClocks(g1, t.to, t.now, a);
      PresentClocks(g1, t.to, t.now, t.from);
      var g2 := Present(g1, t.to, t.now);
      assert Added(g, t).nodes == g2.nodes[t.from := CountSend(g2.nodes[t.from], t)];
    }
  }

  /** Position `k` holds the first transaction that mentions `a`. */
  ghost predicate FirstMention(txs: seq<Tx>, a: Address, k: nat) {
    k < |txs| && Mentions(MoveOf(txs[k]), a) && forall j :: 0 <= j < k ==> !Mentions(MoveOf(txs[j]), a)
  }

  /** Position `k` holds the last payment of `a`. */
  ghost predicate LastPayment(txs: seq<Tx>, a: Address, k: nat) {
    k < |txs| && Sends(MoveOf(txs[k]), a) && forall j :: k < j < |txs| ==> !Sends(MoveOf(txs[j]), a)
  }

  /** A wallet enters with the first transaction that mentions it and carries its
      clock as `firstSeen`; `lastSeen` is the clock of its last payment, or
      `firstSeen` if it never paid anyone. */
  ghost predicate ClocksOf(g: DiGraph, txs: seq<Tx>, a: Address) {
    && (a in g.nodes <==> exists k :: 0 <= k < |txs| && Mentions(MoveOf(txs[k]), a))
    && (forall k: nat :: a in g.nodes && FirstMention(txs, a, k) ==> g.nodes[a].firstSeen == txs[k].now)
    && (forall k: nat :: a in g.nodes && LastPayment(txs, a, k) ==> g.nodes[a].lastSeen == txs[k].now)
    && (a in g.nodes && (forall k :: 0 <= k < |txs| ==> !Sends(MoveOf(txs[k]), a)) ==>
          g.nodes[a].lastSeen == g.nodes[a].firstSeen)
  }

  lemma ClocksGrow(g: DiGraph, txs: seq<Tx>, t: Tx, a: Address)
    requires ClocksOf(g, txs, a)
    ensures ClocksOf(Added(g, t), txs + [t], a)
  {
    AddedClocks(g, t, a);
    hide Added;
    var us, h := txs + [t], Added(g, t);
    assert us[|txs|] == t && forall k :: 0 <= k < |txs| ==> us[k] == txs[k];
    forall k: nat | a in h.nodes && FirstMention(us, a, k)
      ensures h.nodes[a].firstSeen == us[k].now
    {
      assert k < |txs| ==> FirstMention(txs, a, k);
    }
    forall k: nat | a in h.nodes && LastPayment(us, a, k)
      ensures h.nodes[a].lastSeen == us[k].now
    {
      assert k < |txs| ==> LastPayment(txs, a, k);
    }
  }

  lemma {:induction false} WalletClocks(txs: seq<Tx>, a: Address)
    ensures ClocksOf(Replay(txs), txs, a)
  {
    hide Added, ClocksOf;
    if txs == [] {
      NoClocks(a);
    } else {
      var front, last := txs[..|txs| - 1], txs[|txs| - 1];
      WalletClocks(front, a);
      ClocksGrow(Replay(front), front, last, a);
      assert front + [last] == txs;
    }
  }

  lemma NoClocks(a: Address)
    ensures ClocksOf(Replay([]), [], a)
  {
  }

  ghost predicate Unlabelled(g: DiGraph, a: Address) {
    a in g.nodes ==> g.nodes[a].clusterId.None? && !g.nodes[a].flagged
  }

  lemma PresentUnlabelled(g: DiGraph, b: Address, now: real, a: Address)
    requires Unlabelled(g, a)
    ensures Unlabelled(Present(g, b, now), a) && b in Present(g, b, now).nodes
    ensures forall c :: c in g.nodes ==> c in Present(g, b, now).nodes
  {
  }

  lemma AddedUnlabelled(g: DiGraph, t: Tx, a: Address)
    requires Unlabelled(g, a)
    ensures Unlabelled(Added(g, t), a)
  {
    hide Present;
    PresentUnlabelled(g, t.from, t.now, a);
    if t.to != NoAddress {
      var g1 := Present(g, t.from, t.now);
      PresentUnlabelled(g1, t.to, t.now, a);
      var g2 := Present(g1, t.to, t.now);
      assert Added(g, t).nodes == g2.nodes[t.from := CountSend(g2.nodes[t.from], t)];
    }
  }

  /** Transactions neither put wallets into clusters nor flag them. */
  lemma {:induction false} NeverLabelled(txs: seq<Tx>, a: Address)
    ensures Unlabelled(Replay(txs), a)
  {
    if txs != [] {
      hide Added, Unlabelled;
      NeverLabelled(txs[..|txs| - 1], a);
      AddedUnlabelled(Replay(txs[..|txs| - 1]), txs[|txs| - 1], a);
    } else {
      assert a !in EMPTY_GRAPH.nodes;
    }
  }

  /** The highest positive risk reported with a send of `a`. */
  function ReportedRisk(txs: seq<Tx>, a: Address): real {
    if txs == [] then 0.0
    else
      var t, rest := txs[|txs| - 1], ReportedRisk(txs[..|txs| - 1], a);
      if Sends(MoveOf(t), a) then Max(rest, t.risk) else rest
  }

  function Risk(g: DiGraph, a: Address): real {
    if a in g.nodes then g.nodes[a].risk else 0.0
  }

  lemma PresentRisk(g: DiGraph, b: Address, now: real, a: Address)
    ensures Risk(Present(g, b, now), a) == Risk(g, a)
  {
  }

  lemma AddedRisk(g: DiGraph, t: Tx, a: Address)
    ensures Risk(Added(g, t), a) == if Sends(MoveOf(t), a) && t.risk > 0.0 then Max(Risk(g, a), t.risk) else Risk(g, a)
  {
    hide Present, Max;
    PresentRisk(g, t.from, t.now, a);
    if t.to != NoAddress {
      var g1 := Present(g, t.from, t.now);
      PresentRisk(g1, t.to, t.now, a);
      PresentRecords(g, t.from, t.now, t.from);
      PresentRecords(g1, t.to, t.now, t.from);
      var g2 := Present(g1, t.to, t.now);
      assert Added(g, t).nodes == g2.nodes[t.from := CountSend(g2.nodes[t.from], t)];
    }
  }

  /** A wallet's risk is the highest reported with its sends, and never negative. */
  lemma {:induction false} RiskIsHighestReported(txs: seq<Tx>, a: Address)
    ensures Risk(Replay(txs), a) == ReportedRisk(txs, a) >= 0.0
  {
    if txs != [] {
      var front, last := txs[..|txs| - 1], txs[|txs| - 1];
      RiskIsHighestReported(front, a);
      AddedRisk(Replay(front), last, a);
      hide Added;
    }
  }
}
