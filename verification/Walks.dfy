/** Walks, simple paths and bounded reachability in a graph given by its
    successor lists: what the graph searches of the source are meant to find. */
module Walks {
  import opened Common

  /** Neighbours in insertion order, as networkx stores them. */
  type Lists = map<Address, seq<Address>>
  type Path = seq<Address>

  function Next(adj: Lists, a: Address): seq<Address> {
    if a in adj then adj[a] else []
  }

  ghost predicate NoRepeats(adj: Lists) {
    forall a {:trigger Next(adj, a)} :: Distinct(Next(adj, a))
  }

  /** A walk along edges from its first element; a walk of n + 1 wallets has n edges. */
  ghost predicate Walk(adj: Lists, c: Path) {
    c != [] && forall i, j :: 0 <= i && j == i + 1 < |c| ==> c[j] in Next(adj, c[i])
  }

  ghost predicate SimplePath(adj: Lists, s: Address, p: Path) {
    Walk(adj, p) && p[0] == s && Distinct(p)
  }

  // ---- all simple paths from a wallet, level by level ----

  /** `p` extended by each of `ns` that it does not already visit, in order. */
  function ExtendBy(p: Path, ns: seq<Address>): seq<Path> {
    if ns == [] then []
    else
      var n := ns[|ns| - 1];
      ExtendBy(p, ns[..|ns| - 1]) + (if n in p then [] else [p + [n]])
  }

  function Extend(adj: Lists, p: Path): seq<Path>
    requires p != []
  {
    ExtendBy(p, Next(adj, p[|p| - 1]))
  }

  ghost predicate NonEmpty(ps: seq<Path>) {
    forall i :: 0 <= i < |ps| ==> ps[i] != []
  }

  ghost function ExtendAll(adj: Lists, ps: seq<Path>): (r: seq<Path>)
    requires NonEmpty(ps)
  {
    if ps == [] then [] else ExtendAll(adj, ps[..|ps| - 1]) + Extend(adj, ps[|ps| - 1])
  }

  lemma {:induction false} ExtendByContains(p: Path, ns: seq<Address>, q: Path)
    ensures q in ExtendBy(p, ns) <==> q != [] && q[..|q| - 1] == p && q[|q| - 1] in ns && q[|q| - 1] !in p
  {
    if ns != [] {
      var n := ns[|ns| - 1];
      ExtendByContains(p, ns[..|ns| - 1], q);
      assert ns == ns[..|ns| - 1] + [n];
      if q != [] && q[..|q| - 1] == p && q[|q| - 1] == n {
        assert q == p + [n];
      }
    }
  }

  lemma ExtendContains(adj: Lists, p: Path, q: Path)
    requires p != []
    ensures q in Extend(adj, p)
       <==> |q| >= 2 && q[..|q| - 1] == p && q[|q| - 1] in Next(adj, q[|q| - 2]) && q[|q| - 1] !in p
  {
    hide Next, ExtendBy;
    ExtendByContains(p, Next(adj, p[|p| - 1]), q);
    if |q| >= 1 && q[..|q| - 1] == p {
      assert p[|p| - 1] == q[|q| - 2];
    }
  }

  lemma InFront<T>(s: seq<T>, x: T)
    requires s != []
    ensures x in s <==> x in s[..|s| - 1] || x == s[|s| - 1]
  {
    assert s == s[..|s| - 1] + [s[|s| - 1]];
  }

  lemma {:induction false} ExtendAllContains(adj: Lists, ps: seq<Path>, q: Path)
    requires NonEmpty(ps)
    ensures q in ExtendAll(adj, ps)
       <==> |q| >= 2 && q[..|q| - 1] in ps && q[|q| - 1] in Next(adj, q[|q| - 2]) && q[|q| - 1] !in q[..|q| - 1]
  {
    hide Next, ExtendBy;
    if ps != [] {
      var p, front := ps[|ps| - 1], ps[..|ps| - 1];
      ExtendAllContains(adj, front, q);
      ExtendContains(adj, p, q);
      if |q| >= 2 {
        InFront(ps, q[..|q| - 1]);
      }
    }
  }

  /** The simple paths of exactly `k` edges from `s`, in search order. */
  ghost function Level(adj: Lists, s: Address, k: nat): (r: seq<Path>)
    ensures forall i :: 0 <= i < |r| ==> |r[i]| == k + 1
  {
    if k == 0 then [[s]]
    else
      var r := ExtendAll(adj, Level(adj, s, k - 1));
      LevelLengths(adj, Level(adj, s, k - 1), k);
      r
  }

  lemma {:induction false} LevelLengths(adj: Lists, ps: seq<Path>, k: nat)
    requires k > 0 && forall i :: 0 <= i < |ps| ==> |ps[i]| == k
    ensures forall i :: 0 <= i < |ExtendAll(adj, ps)| ==> |ExtendAll(adj, ps)[i]| == k + 1
  {
    var r := ExtendAll(adj, ps);
    forall i | 0 <= i < |r|
      ensures |r[i]| == k + 1
    {
      ExtendAllContains(adj, ps, r[i]);
      var q :| q in ps && q == r[i][..|r[i]| - 1];
    }
  }

  lemma SimplePathStep(adj: Lists, s: Address, q: Path)
    requires |q| >= 2
    ensures SimplePath(adj, s, q)
       <==> SimplePath(adj, s, q[..|q| - 1]) && q[|q| - 1] in Next(adj, q[|q| - 2]) && q[|q| - 1] !in q[..|q| - 1]
  {
    var p, n := q[..|q| - 1], q[|q| - 1];
    if SimplePath(adj, s, q) {
      forall i, j | 0 <= i && j == i + 1 < |p|
        ensures p[j] in Next(adj, p[i])
      {
        assert q[j] in Next(adj, q[i]);
      }
    }
    if SimplePath(adj, s, p) && n in Next(adj, q[|q| - 2]) && n !in p {
      forall i, j | 0 <= i && j == i + 1 < |q|
        ensures q[j] in Next(adj, q[i])
      {
        assert j < |p| ==> p[j] in Next(adj, p[i]);
      }
      assert forall i :: 0 <= i < |p| ==> q[i] == p[i];
    }
  }

  /** Level `k` holds every simple path of `k` edges and nothing else. */
  lemma {:induction false} LevelIsExact(adj: Lists, s: Address, k: nat, q: Path)
    ensures q in Level(adj, s, k) <==> SimplePath(adj, s, q) && |q| == k + 1
  {
    if k == 0 {
      if |q| == 1 && q[0] == s {
        assert q == [s];
      }
    } else {
      ExtendAllContains(adj, Level(adj, s, k - 1), q);
      if |q| >= 2 {
        LevelIsExact(adj, s, k - 1, q[..|q| - 1]);
        SimplePathStep(adj, s, q);
      }
    }
  }

  lemma {:induction false} ExtendByDistinct(p: Path, ns: seq<Address>)
    requires Distinct(ns)
    ensures Distinct(ExtendBy(p, ns))
  {
    if ns != [] {
      var n := ns[|ns| - 1];
      var front := ns[..|ns| - 1];
      ExtendByDistinct(p, front);
      ExtendByContains(p, front, p + [n]);
      assert (p + [n])[|p + [n]| - 1] == n;
      assert n !in front;
    }
  }

  lemma DistinctAppend<T>(a: seq<T>, b: seq<T>)
    requires Distinct(a) && Distinct(b) && forall x :: x in a ==> x !in b
    ensures Distinct(a + b)
  {
    forall i, j | 0 <= i < j < |a + b|
      ensures (a + b)[i] != (a + b)[j]
    {
      if i < |a| <= j {
        assert a[i] in a && b[j - |a|] in b;
      }
    }
  }

  lemma EmptyIsDistinct<T>()
    ensures Distinct<T>([])
  {
  }

  lemma {:induction false} ExtendAllDistinct(adj: Lists, ps: seq<Path>)
    requires NonEmpty(ps) && Distinct(ps) && NoRepeats(adj)
    ensures Distinct(ExtendAll(adj, ps))
  {
    if ps != [] {
      var p := ps[|ps| - 1];
      var front := ps[..|ps| - 1];
      ExtendAllDistinct(adj, front);
      ExtendByDistinct(p, Next(adj, p[|p| - 1]));
      forall q | q in ExtendAll(adj, front)
        ensures q !in Extend(adj, p)
      {
        ExtendAllContains(adj, front, q);
        ExtendByContains(p, Next(adj, p[|p| - 1]), q);
        assert p !in front;
      }
      DistinctAppend(ExtendAll(adj, front), Extend(adj, p));
    }
  }

  lemma {:induction false} LevelIsDistinct(adj: Lists, s: Address, k: nat)
    requires NoRepeats(adj)
    ensures Distinct(Level(adj, s, k))
  {
    if k > 0 {
      LevelIsDistinct(adj, s, k - 1);
      ExtendAllDistinct(adj, Level(adj, s, k - 1));
    }
  }

  /** The simple paths of 1 to `d` edges from `s`, shortest first. */
  ghost function Upto(adj: Lists, s: Address, d: int): seq<Path> {
    if d <= 0 then [] else Upto(adj, s, d - 1) + Level(adj, s, d)
  }

  lemma UptoContains(adj: Lists, s: Address, d: int, q: Path)
    ensures q in Upto(adj, s, d) <==> d > 0 && (q in Upto(adj, s, d - 1) || q in Level(adj, s, d))
  {
    hide Level;
  }

  lemma {:induction false} UptoIsExact(adj: Lists, s: Address, d: int, q: Path)
    ensures q in Upto(adj, s, d) <==> SimplePath(adj, s, q) && 2 <= |q| <= d + 1
  {
    hide Upto, Level, SimplePath;
    UptoContains(adj, s, d, q);
    if d > 0 {
      UptoIsExact(adj, s, d - 1, q);
      LevelIsExact(adj, s, d, q);
    }
  }

  lemma {:induction false} UptoIsDistinct(adj: Lists, s: Address, d: int)
    requires NoRepeats(adj)
    ensures Distinct(Upto(adj, s, d))
  {
    hide Level, Distinct, SimplePath;
    if d <= 0 {
      EmptyIsDistinct<Path>();
    } else {
      UptoIsDistinct(adj, s, d - 1);
      LevelIsDistinct(adj, s, d);
      forall q | q in Upto(adj, s, d - 1)
        ensures q !in Level(adj, s, d)
      {
        UptoIsExact(adj, s, d - 1, q);
        LevelIsExact(adj, s, d, q);
      }
      DistinctAppend(Upto(adj, s, d - 1), Level(adj, s, d));
    }
  }

  lemma UptoStep(adj: Lists, s: Address, d: nat)
    requires d > 0
    ensures Upto(adj, s, d) == Upto(adj, s, d - 1) + Level(adj, s, d)
  {
  }

  ghost predicate ShortestFirst(ps: seq<Path>) {
    forall i, j :: 0 <= i < j < |ps| ==> |ps[i]| <= |ps[j]|
  }

  lemma UptoIsShort(adj: Lists, s: Address, d: int)
    ensures forall i :: 0 <= i < |Upto(adj, s, d)| ==> |Upto(adj, s, d)[i]| <= d + 1
  {
    forall i | 0 <= i < |Upto(adj, s, d)|
      ensures |Upto(adj, s, d)[i]| <= d + 1
    {
      UptoIsExact(adj, s, d, Upto(adj, s, d)[i]);
    }
    hide Upto, SimplePath;
  }

  lemma {:induction false} UptoIsSorted(adj: Lists, s: Address, d: int)
    ensures ShortestFirst(Upto(adj, s, d))
  {
    if d > 0 {
      hide *;
      UptoIsSorted(adj, s, d - 1);
      UptoIsShort(adj, s, d - 1);
      UptoStep(adj, s, d);
      ShortestFirstAppend(Upto(adj, s, d - 1), Level(adj, s, d), d);
    }
  }

  lemma ShortestFirstAppend(a: seq<Path>, b: seq<Path>, d: nat)
    requires ShortestFirst(a) && forall i :: 0 <= i < |a| ==> |a[i]| <= d
    requires forall i :: 0 <= i < |b| ==> |b[i]| == d + 1
    ensures ShortestFirst(a + b)
  {
  }

  lemma LevelStep(adj: Lists, s: Address, k: nat)
    ensures NonEmpty(Level(adj, s, k)) && Level(adj, s, k + 1) == ExtendAll(adj, Level(adj, s, k))
  {
    hide ExtendAll;
  }

  lemma EmptyExtends(adj: Lists)
    ensures NonEmpty([]) && ExtendAll(adj, []) == []
  {
  }

  lemma {:induction false} NothingBeyond(adj: Lists, s: Address, k: nat, d: int)
    requires k <= d && Level(adj, s, k) == []
    ensures Upto(adj, s, d) == Upto(adj, s, k)
    decreases d - k
  {
    if k < d {
      LevelStep(adj, s, k);
      EmptyExtends(adj);
      UptoStep(adj, s, k + 1);
      hide Level, ExtendAll, Upto;
      assert Upto(adj, s, k) + [] == Upto(adj, s, k);
      NothingBeyond(adj, s, k + 1, d);
    }
  }

  // ---- the outcome of the bounded search ----

  /** What the search returns.  The cut-off is looked at only after a path of
      fewer than `maxDepth` edges has been expanded. */
  ghost function SearchResult(adj: Lists, s: Address, maxDepth: int, maxPaths: int): seq<Path> {
    var cap := if maxPaths < 0 then 0 else maxPaths;
    var short := Upto(adj, s, maxDepth - 1);
    if |short| >= cap then short[..cap] else Upto(adj, s, maxDepth)
  }

  /** The list is duplicate-free, sorted by length and holds only simple paths of
      1 to `maxDepth` edges.  It holds all of them unless at least `maxPaths`
      have fewer than `maxDepth` edges; then it is cut to `maxPaths` of those. */
  lemma SearchResultIsExact(adj: Lists, s: Address, maxDepth: int, maxPaths: int)
    requires NoRepeats(adj)
    ensures var r, short := SearchResult(adj, s, maxDepth, maxPaths), Upto(adj, s, maxDepth - 1);
            && Distinct(r) && ShortestFirst(r)
            && Distinct(short)
            && (forall q :: q in short <==> SimplePath(adj, s, q) && 2 <= |q| <= maxDepth)
            && (forall q :: q in r ==> SimplePath(adj, s, q) && 2 <= |q| <= maxDepth + 1)
            && (|short| < maxPaths ==> forall q :: SimplePath(adj, s, q) && 2 <= |q| <= maxDepth + 1 ==> q in r)
            && (|short| >= maxPaths >= 0 ==> |r| == maxPaths && forall q :: q in r ==> |q| <= maxDepth)
            && (maxPaths <= 0 || maxDepth <= 0 ==> r == [])
  {
    var r, short := SearchResult(adj, s, maxDepth, maxPaths), Upto(adj, s, maxDepth - 1);
    UptoIsDistinct(adj, s, maxDepth);
    UptoIsDistinct(adj, s, maxDepth - 1);
    UptoIsSorted(adj, s, maxDepth);
    UptoIsSorted(adj, s, maxDepth - 1);
    forall q
      ensures q in short <==> SimplePath(adj, s, q) && 2 <= |q| <= maxDepth
      ensures q in Upto(adj, s, maxDepth) <==> SimplePath(adj, s, q) && 2 <= |q| <= maxDepth + 1
    {
      UptoIsExact(adj, s, maxDepth - 1, q);
      UptoIsExact(adj, s, maxDepth, q);
    }
    forall q | q in r
      ensures SimplePath(adj, s, q) && 2 <= |q| <= maxDepth + 1
    {
      assert q in short || q in Upto(adj, s, maxDepth);
    }
  }

  /** The result keeps within `maxPaths` exactly if the cut-off strikes or there
      are no more paths anyway. */
  lemma LimitHoldsIff(adj: Lists, s: Address, maxDepth: int, maxPaths: nat)
    ensures |SearchResult(adj, s, maxDepth, maxPaths)| <= maxPaths
       <==> |Upto(adj, s, maxDepth - 1)| >= maxPaths || |Upto(adj, s, maxDepth)| <= maxPaths
  {
    hide Upto;
  }

  // ---- bounded backward reachability ----

  ghost predicate Reaches(adj: Lists, w: Address, a: Address, d: nat) {
    exists c :: Walk(adj, c) && c[0] == w && c[|c| - 1] == a && |c| <= d + 1
  }

  /** `pred` lists the same edges as `succ`, from the other side. */
  ghost predicate Mirror(succ: Lists, pred: Lists) {
    forall a, b :: b in Next(succ, a) <==> a in Next(pred, b)
  }

  ghost function Before(pred: Lists, ns: set<Address>): set<Address> {
    set n, p | n in ns && p in Next(pred, n) :: p
  }

  /** The wallets from which at most `d` edges lead to `a`, computed backwards. */
  ghost function Back(pred: Lists, a: Address, d: nat): set<Address> {
    if d == 0 then {a} else Back(pred, a, d - 1) + Before(pred, Back(pred, a, d - 1))
  }

  lemma WalkPrepend(adj: Lists, w: Address, c: Path)
    requires Walk(adj, c) && c[0] in Next(adj, w)
    ensures Walk(adj, [w] + c)
  {
    var e := [w] + c;
    forall i, j | 0 <= i && j == i + 1 < |e|
      ensures e[j] in Next(adj, e[i])
    {
      if i > 0 {
        assert c[i] in Next(adj, c[i - 1]);
      }
    }
  }

  lemma WalkTail(adj: Lists, c: Path, k: nat)
    requires Walk(adj, c) && k < |c|
    ensures Walk(adj, c[k..])
  {
    var e := c[k..];
    forall i, j | 0 <= i && j == i + 1 < |e|
      ensures e[j] in Next(adj, e[i])
    {
      assert c[k + j] in Next(adj, c[k + i]);
    }
  }

  lemma ReachesHere(adj: Lists, w: Address)
    ensures Reaches(adj, w, w, 0)
  {
    assert Walk(adj, [w]);
  }

  lemma ReachesVia(adj: Lists, w: Address, n: Address, a: Address, d: nat)
    requires n in Next(adj, w) && Reaches(adj, n, a, d)
    ensures Reaches(adj, w, a, d + 1)
  {
    hide Next;
    var c :| Walk(adj, c) && c[0] == n && c[|c| - 1] == a && |c| <= d + 1;
    hide Walk;
    WalkPrepend(adj, w, c);
    var e := [w] + c;
    assert e[0] == w && e[|e| - 1] == a;
  }

  /** A wallet that reaches `a` in at most `d` edges is `a` or has a neighbour that needs one edge less. */
  lemma ReachesStep(adj: Lists, w: Address, a: Address, d: nat) returns (n: Address)
    requires Reaches(adj, w, a, d) && w != a
    ensures d > 0 && n in Next(adj, w) && Reaches(adj, n, a, d - 1)
  {
    var c :| Walk(adj, c) && c[0] == w && c[|c| - 1] == a && |c| <= d + 1;
    n := c[1];
    assert c[1] in Next(adj, c[0]);
    WalkTail(adj, c, 1);
    assert c[1..][0] == n && c[1..][|c[1..]| - 1] == a;
  }

  lemma BackStep(pred: Lists, a: Address, d: nat, w: Address)
    requires d > 0
    ensures w in Back(pred, a, d)
       <==> w in Back(pred, a, d - 1) || exists n :: n in Back(pred, a, d - 1) && w in Next(pred, n)
  {
  }

  lemma {:induction false} BackKeepsTarget(pred: Lists, a: Address, d: nat)
    ensures a in Back(pred, a, d)
  {
    if d > 0 {
      BackKeepsTarget(pred, a, d - 1);
    }
  }

  lemma ReachesLonger(adj: Lists, w: Address, a: Address, d: nat, e: nat)
    requires Reaches(adj, w, a, d) && d <= e
    ensures Reaches(adj, w, a, e)
  {
    var c :| Walk(adj, c) && c[0] == w && c[|c| - 1] == a && |c| <= d + 1;
  }

  /** Backward reachability is exactly the existence of a short enough walk. */
  lemma {:induction false} BackIsReaches(succ: Lists, pred: Lists, a: Address, d: nat, w: Address)
    requires Mirror(succ, pred)
    ensures w in Back(pred, a, d) <==> Reaches(succ, w, a, d)
    decreases d
  {
    hide Reaches, Next, Before;
    if w == a {
      BackKeepsTarget(pred, a, d);
      ReachesHere(succ, a);
      ReachesLonger(succ, a, a, 0, d);
    } else {
      if w in Back(pred, a, d) {
        BackStep(pred, a, d, w);
        if w in Back(pred, a, d - 1) {
          BackIsReaches(succ, pred, a, d - 1, w);
          ReachesLonger(succ, w, a, d - 1, d);
        } else {
          var n :| n in Back(pred, a, d - 1) && w in Next(pred, n);
          BackIsReaches(succ, pred, a, d - 1, n);
          ReachesVia(succ, w, n, a, d - 1);
        }
      }
      if Reaches(succ, w, a, d) {
        var n := ReachesStep(succ, w, a, d);
        BackIsReaches(succ, pred, a, d - 1, n);
        assert w in Next(pred, n);
        BackStep(pred, a, d, w);
      }
    }
  }

  lemma {:induction false} BackIsStable(pred: Lists, a: Address, k: nat, d: nat)
    requires k <= d && Before(pred, Back(pred, a, k)) <= Back(pred, a, k)
    ensures Back(pred, a, d) == Back(pred, a, k)
    decreases d - k
  {
    if k < d {
      assert Back(pred, a, k + 1) == Back(pred, a, k);
      BackIsStable(pred, a, k + 1, d);
    }
  }

  // ---- forward and backward search agree ----

  /** Every walk contains a simple path with the same ends and no more edges. */
  lemma {:induction false} WalkToSimplePath(adj: Lists, c: Path) returns (p: Path)
    requires Walk(adj, c)
    ensures SimplePath(adj, c[0], p) && p[|p| - 1] == c[|c| - 1] && |p| <= |c|
    decreases |c|
  {
    if Distinct(c) {
      p := c;
    } else {
      var i, j :| 0 <= i < j < |c| && c[i] == c[j];
      hide Next, Distinct;
      var e := c[..i] + c[j..];
      forall u, v | 0 <= u && v == u + 1 < |e|
        ensures e[v] in Next(adj, e[u])
      {
        if v < i {
          assert c[v] in Next(adj, c[u]);
        } else if u < i {
          assert c[i] in Next(adj, c[i - 1]);
        } else {
          assert c[v - i + j] in Next(adj, c[u - i + j]);
        }
      }
      assert e[0] == c[0] && e[|e| - 1] == c[|c| - 1];
      p := WalkToSimplePath(adj, e);
    }
  }

  ghost predicate EndsAt(p: Path, a: Address) {
    p != [] && p[|p| - 1] == a
  }

  /** `w` is an ancestor of `a` within `d` edges exactly when some simple path of
      1 to `d` edges from `w` ends at `a`. */
  lemma ForwardMeetsBackward(succ: Lists, pred: Lists, w: Address, a: Address, d: nat)
    requires Mirror(succ, pred) && w != a
    ensures w in Back(pred, a, d) <==> exists p :: p in Upto(succ, w, d) && EndsAt(p, a)
  {
    hide Next, Upto, Distinct, Back;
    BackIsReaches(succ, pred, a, d, w);
    if Reaches(succ, w, a, d) {
      var c :| Walk(succ, c) && c[0] == w && c[|c| - 1] == a && |c| <= d + 1;
      var p := WalkToSimplePath(succ, c);
      UptoIsExact(succ, w, d, p);
      assert EndsAt(p, a);
    }
    if p :| p in Upto(succ, w, d) && EndsAt(p, a) {
      UptoIsExact(succ, w, d, p);
    }
  }

  // ---- the loop of the backward search ----

  lemma BeforeGrows(pred: Lists, ns: set<Address>, n: Address)
    ensures Before(pred, ns + {n}) == Before(pred, ns) + Elements(Next(pred, n))
  {
  }

  /** After `depth` rounds: everything within `depth` edges is known, and the
      predecessors of all but the newest wallets are known as well. */
  ghost predicate PeelState(pred: Lists, a: Address, depth: nat, ancestors: set<Address>, frontier: set<Address>) {
    && a !in ancestors
    && Back(pred, a, depth) == ancestors + {a}
    && frontier <= ancestors + {a}
    && Before(pred, (ancestors + {a}) - frontier) <= ancestors + {a}
  }

  lemma BackStart(pred: Lists, a: Address)
    ensures PeelState(pred, a, 0, {}, {a})
  {
    assert ({} + {a}) - {a} == {};
  }

  lemma PeelStep(pred: Lists, a: Address, depth: nat, ancestors: set<Address>, frontier: set<Address>)
    requires PeelState(pred, a, depth, ancestors, frontier)
    ensures var after := ancestors + (Before(pred, frontier) - {a});
            PeelState(pred, a, depth + 1, after, after - ancestors)
  {
    var after := ancestors + (Before(pred, frontier) - {a});
    var within := ancestors + {a};
    assert Before(pred, within) == Before(pred, within - frontier) + Before(pred, frontier);
    assert after + {a} == within + Before(pred, within);
    assert (after + {a}) - (after - ancestors) == within;
  }

  lemma PeelStops(pred: Lists, a: Address, depth: nat, ancestors: set<Address>)
    requires PeelState(pred, a, depth, ancestors, {})
    ensures Before(pred, Back(pred, a, depth)) <= Back(pred, a, depth)
  {
    assert (ancestors + {a}) - {} == ancestors + {a};
  }

  lemma BackOfAbsent(pred: Lists, a: Address)
    requires Next(pred, a) == []
    ensures Before(pred, Back(pred, a, 0)) <= Back(pred, a, 0)
  {
  }
}
