/** Disjoint-set forests, as values.  `parent` and `rank` are the two
    dictionaries of the source; a root is its own parent. */
module Forests {
  import opened Common

  type Parents = map<Address, Address>
  type Ranks = map<Address, nat>
  type Pairs = set<(Address, Address)>

  function Pow2(n: nat): (r: nat)
    ensures n < r
  {
    if n == 0 then 1 else 2 * Pow2(n - 1)
  }

  lemma {:induction false} Pow2Monotone(m: nat, n: nat)
    requires m <= n
    ensures Pow2(m) <= Pow2(n)
  {
    if m < n {
      Pow2Monotone(m, n - 1);
    }
  }

  /** `m[x]`, as the term that triggers the quantifiers below. */
  ghost function At(m: map<Address, Address>, x: Address): Address
    requires x in m
  {
    m[x]
  }

  /** Parents are known wallets and rank strictly increases from child to parent. */
  ghost predicate Ranked(p: Parents, rk: Ranks) {
    && p.Keys == rk.Keys
    && (forall x {:trigger At(p, x)} :: x in p ==> At(p, x) in p)
    && (forall x {:trigger At(p, x)} :: x in p && At(p, x) != x ==> rk[x] < rk[At(p, x)])
  }

  /** `m` sends every wallet to the root above it: a root to itself, any other
      wallet to where its parent goes. */
  ghost predicate IsRootMap(p: Parents, m: map<Address, Address>) {
    && m.Keys == p.Keys
    && (forall x {:trigger At(m, x)} :: x in p ==> At(m, x) in p && p[At(m, x)] == At(m, x))
    && (forall x {:trigger At(p, x)} :: x in p && At(p, x) == x ==> m[x] == x)
    && (forall x {:trigger At(p, x)} :: x in p && At(p, x) in p ==> m[At(p, x)] == m[x])
  }

  ghost predicate RootsOutrank(rk: Ranks, m: map<Address, Address>) {
    forall x {:trigger At(m, x)} :: x in m && x in rk && At(m, x) in rk && At(m, x) != x ==> rk[x] < rk[At(m, x)]
  }

  ghost function Members(m: map<Address, Address>, r: Address): set<Address> {
    set x | x in m && m[x] == r
  }

  /** A root of rank r has at least 2^r members. */
  ghost predicate Balanced(p: Parents, rk: Ranks, m: map<Address, Address>) {
    forall r {:trigger At(p, r)} :: r in p && r in rk && At(p, r) == r ==> Pow2(rk[r]) <= |Members(m, r)|
  }

  lemma {:induction false} RootMapIsUnique(p: Parents, rk: Ranks, m: map<Address, Address>, n: map<Address, Address>, top: nat, x: Address)
    requires Ranked(p, rk) && IsRootMap(p, m) && IsRootMap(p, n)
    requires x in p && forall y :: y in p ==> rk[y] <= top
    ensures m[x] == n[x]
    decreases top - rk[x]
  {
    if At(p, x) != x {
      RootMapIsUnique(p, rk, m, n, top, At(p, x));
    }
    assert At(m, x) == m[x] && At(n, x) == n[x];
  }

  // ---- the relation the forest is meant to decide ----

  ghost predicate Joined(e: Pairs, x: Address, y: Address) {
    (x, y) in e || (y, x) in e
  }

  /** Consecutive elements of `c` were united by some pair, in either direction. */
  ghost predicate Chain(e: Pairs, c: seq<Address>) {
    && c != []
    && forall i, j :: 0 <= i && j == i + 1 < |c| ==> Joined(e, c[i], c[j])
  }

  /** The reflexive, symmetric and transitive closure of `e`. */
  ghost predicate Linked(e: Pairs, x: Address, y: Address) {
    exists c :: Chain(e, c) && c[0] == x && c[|c| - 1] == y
  }

  lemma LinkedRefl(e: Pairs, x: Address)
    ensures Linked(e, x, x)
  {
    assert Chain(e, [x]);
  }

  lemma LinkedPair(e: Pairs, x: Address, y: Address)
    requires (x, y) in e
    ensures Linked(e, x, y)
  {
    assert Chain(e, [x, y]);
  }

  lemma LinkedSym(e: Pairs, x: Address, y: Address)
    requires Linked(e, x, y)
    ensures Linked(e, y, x)
  {
    var c :| Chain(e, c) && c[0] == x && c[|c| - 1] == y;
    var d := seq(|c|, i requires 0 <= i < |c| => c[|c| - 1 - i]);
    forall i, j | 0 <= i && j == i + 1 < |d|
      ensures Joined(e, d[i], d[j])
    {
      assert Joined(e, c[|c| - 1 - j], c[|c| - 1 - i]);
    }
    assert Chain(e, d);
  }

  lemma LinkedTrans(e: Pairs, x: Address, y: Address, z: Address)
    requires Linked(e, x, y) && Linked(e, y, z)
    ensures Linked(e, x, z)
  {
    var c :| Chain(e, c) && c[0] == x && c[|c| - 1] == y;
    var d :| Chain(e, d) && d[0] == y && d[|d| - 1] == z;
    var s := c + d[1..];
    forall i, j | 0 <= i && j == i + 1 < |s|
      ensures Joined(e, s[i], s[j])
    {
      if j >= |c| {
        assert s[i] == d[i - |c| + 1] && s[j] == d[j - |c| + 1];
      }
    }
    assert Chain(e, s);
    assert s[0] == x && s[|s| - 1] == z;
  }

  lemma LinkedGrows(e: Pairs, f: Pairs, x: Address, y: Address)
    requires e <= f && Linked(e, x, y)
    ensures Linked(f, x, y)
  {
    var c :| Chain(e, c) && c[0] == x && c[|c| - 1] == y;
    assert Chain(f, c);
  }

  /** The forest represents the closure of `e`: every wallet is linked to its
      root, and the two sides of every pair have the same root. */
  ghost predicate Represents(m: map<Address, Address>, e: Pairs) {
    && (forall x {:trigger At(m, x)} :: x in m ==> Linked(e, x, At(m, x)))
    && (forall q :: q in e ==> q.0 in m && q.1 in m && m[q.0] == m[q.1])
  }

  lemma {:induction false} ChainKeepsRoot(m: map<Address, Address>, e: Pairs, c: seq<Address>, k: nat)
    requires Represents(m, e) && Chain(e, c) && c[0] in m && k < |c|
    ensures c[k] in m && m[c[k]] == m[c[0]]
  {
    if k > 0 {
      ChainKeepsRoot(m, e, c, k - 1);
      assert Joined(e, c[k - 1], c[k]);
    }
  }

  /** Two known wallets have the same root exactly when the united pairs link them. */
  lemma SameRootIffLinked(p: Parents, rk: Ranks, m: map<Address, Address>, e: Pairs, x: Address, y: Address)
    requires Sound(p, rk, m, e) && x in m && y in m
    ensures m[x] == m[y] <==> Linked(e, x, y)
  {
    if Linked(e, x, y) {
      var c :| Chain(e, c) && c[0] == x && c[|c| - 1] == y;
      ChainKeepsRoot(m, e, c, |c| - 1);
    }
    if m[x] == m[y] {
      assert At(m, x) == At(m, y);
      LinkedSym(e, y, m[y]);
      LinkedTrans(e, x, m[x], y);
    }
  }

  /** What every reachable forest satisfies: `m` is its root map and `e` the pairs united so far. */
  ghost predicate Sound(p: Parents, rk: Ranks, m: map<Address, Address>, e: Pairs) {
    Ranked(p, rk) && IsRootMap(p, m) && RootsOutrank(rk, m) && Balanced(p, rk, m) && Represents(m, e)
  }

  // ---- what one operation does to the forest ----

  /** Path compression: pointing a wallet straight at its root changes no root. */
  lemma Compress(p: Parents, rk: Ranks, m: map<Address, Address>, e: Pairs, x: Address)
    requires Sound(p, rk, m, e) && x in p
    ensures Sound(p[x := m[x]], rk, m, e)
  {
    var p' := p[x := m[x]];
    assert p'.Keys == p.Keys;
    assert At(p, x) == p[x] && At(m, x) == m[x] && At(p, m[x]) == m[x];
    forall y {:trigger At(p', y)} | y in p'
      ensures At(p', y) == (if y == x then m[x] else At(p, y))
    {}
  }

  /** An unknown wallet enters as a cluster of its own. */
  lemma Insert(p: Parents, rk: Ranks, m: map<Address, Address>, e: Pairs, x: Address)
    requires Sound(p, rk, m, e) && x !in p
    ensures Sound(p[x := x], rk[x := 0], m[x := x], e)
  {
    var p', rk', m' := p[x := x], rk[x := 0], m[x := x];
    forall y {:trigger At(p', y)} | y in p'
      ensures At(p', y) == (if y == x then x else At(p, y))
    {}
    forall y {:trigger At(m', y)} | y in m'
      ensures At(m', y) == (if y == x then x else At(m, y))
    {}
    forall r {:trigger At(p', r)} | r in p' && At(p', r) == r
      ensures Pow2(rk'[r]) <= |Members(m', r)|
    {
      if r == x {
        SubsetSize({x}, Members(m', x));
      } else {
        SubsetSize(Members(m, r), Members(m', r));
      }
    }
    LinkedRefl(e, x);
  }

  /** The root map after root `ry` has been hung below root `rx`. */
  function Rerooted(m: map<Address, Address>, rx: Address, ry: Address): map<Address, Address> {
    map z | z in m :: if m[z] == ry then rx else m[z]
  }

  function RanksAfterHang(rk: Ranks, rx: Address, ry: Address): Ranks
    requires rx in rk && ry in rk
  {
    if rk[rx] == rk[ry] then rk[rx := rk[rx] + 1] else rk
  }

  ghost predicate CanHang(p: Parents, rk: Ranks, rx: Address, ry: Address) {
    p.Keys == rk.Keys && rx in p && ry in p && rx != ry && p[rx] == rx && p[ry] == ry && rk[ry] <= rk[rx]
  }

  lemma HangIsRanked(p: Parents, rk: Ranks, m: map<Address, Address>, rx: Address, ry: Address)
    requires Ranked(p, rk) && IsRootMap(p, m) && RootsOutrank(rk, m) && CanHang(p, rk, rx, ry)
    ensures Ranked(p[ry := rx], RanksAfterHang(rk, rx, ry))
    ensures IsRootMap(p[ry := rx], Rerooted(m, rx, ry))
    ensures RootsOutrank(RanksAfterHang(rk, rx, ry), Rerooted(m, rx, ry))
  {
    var p', m' := p[ry := rx], Rerooted(m, rx, ry);
    assert p'.Keys == p.Keys;
    assert At(p, rx) == rx && At(p, ry) == ry;
    forall y {:trigger At(p', y)} | y in p'
      ensures At(p', y) == (if y == ry then rx else At(p, y))
    {}
    forall y {:trigger At(m', y)} | y in m'
      ensures At(m', y) == (if At(m, y) == ry then rx else At(m, y))
    {}
  }

  lemma HangIsBalanced(p: Parents, rk: Ranks, m: map<Address, Address>, rx: Address, ry: Address)
    requires Ranked(p, rk) && IsRootMap(p, m) && Balanced(p, rk, m) && CanHang(p, rk, rx, ry)
    ensures Balanced(p[ry := rx], RanksAfterHang(rk, rx, ry), Rerooted(m, rx, ry))
  {
    var p', rk', m' := p[ry := rx], RanksAfterHang(rk, rx, ry), Rerooted(m, rx, ry);
    assert At(p, rx) == rx && At(p, ry) == ry;
    forall r {:trigger At(p', r)} | r in p' && At(p', r) == r
      ensures Pow2(rk'[r]) <= |Members(m', r)|
    {
      assert At(p, r) == r;
      if r == rx {
        assert Members(m, rx) !! Members(m, ry);
        assert Members(m', rx) == Members(m, rx) + Members(m, ry);
      } else {
        SubsetSize(Members(m, r), Members(m', r));
      }
    }
  }

  /** Uniting two wallets links their roots, both ways. */
  lemma RootsLinked(m: map<Address, Address>, e: Pairs, x: Address, y: Address)
    requires Represents(m, e) && x in m && y in m
    ensures Linked(e + {(x, y)}, m[x], m[y]) && Linked(e + {(x, y)}, m[y], m[x])
  {
    var e' := e + {(x, y)};
    assert At(m, x) == m[x] && At(m, y) == m[y];
    LinkedGrows(e, e', x, m[x]);
    LinkedGrows(e, e', y, m[y]);
    LinkedSym(e', x, m[x]);
    LinkedPair(e', x, y);
    LinkedTrans(e', m[x], x, y);
    LinkedTrans(e', m[x], y, m[y]);
    LinkedSym(e', m[x], m[y]);
  }

  ghost predicate AreRootsOf(m: map<Address, Address>, rx: Address, ry: Address, x: Address, y: Address)
    requires x in m && y in m
  {
    (rx == m[x] && ry == m[y]) || (rx == m[y] && ry == m[x])
  }

  lemma HangRepresents(m: map<Address, Address>, e: Pairs, x: Address, y: Address, rx: Address, ry: Address)
    requires Represents(m, e) && x in m && y in m && AreRootsOf(m, rx, ry, x, y)
    ensures Represents(Rerooted(m, rx, ry), e + {(x, y)})
  {
    var m', e' := Rerooted(m, rx, ry), e + {(x, y)};
    RootsLinked(m, e, x, y);
    forall z {:trigger At(m', z)} | z in m'
      ensures Linked(e', z, At(m', z))
    {
      assert At(m, z) == m[z];
      LinkedGrows(e, e', z, m[z]);
      if m[z] == ry {
        LinkedTrans(e', z, ry, rx);
      }
    }
  }

  /** Union by rank: hanging the root of lower rank below the other merges exactly two clusters. */
  lemma Hang(p: Parents, rk: Ranks, m: map<Address, Address>, e: Pairs, x: Address, y: Address, rx: Address, ry: Address)
    requires Sound(p, rk, m, e) && CanHang(p, rk, rx, ry) && x in p && y in p && AreRootsOf(m, rx, ry, x, y)
    ensures Sound(p[ry := rx], RanksAfterHang(rk, rx, ry), Rerooted(m, rx, ry), e + {(x, y)})
  {
    HangIsRanked(p, rk, m, rx, ry);
    HangIsBalanced(p, rk, m, rx, ry);
    HangRepresents(m, e, x, y, rx, ry);
  }

  /** Uniting two wallets of one cluster changes no root. */
  lemma UniteSame(p: Parents, rk: Ranks, m: map<Address, Address>, e: Pairs, x: Address, y: Address)
    requires Sound(p, rk, m, e) && x in p && y in p && m[x] == m[y]
    ensures Sound(p, rk, m, e + {(x, y)})
  {
    forall z {:trigger At(m, z)} | z in m
      ensures Linked(e + {(x, y)}, z, At(m, z))
    {
      LinkedGrows(e, e + {(x, y)}, z, At(m, z));
    }
  }

  /** `order` lists the keys of `m`, each once. */
  ghost predicate Listed<V>(order: seq<Address>, m: map<Address, V>) {
    Distinct(order) && Elements(order) == m.Keys
  }

  lemma Append<V>(order: seq<Address>, m: map<Address, V>, x: Address, v: V)
    requires Listed(order, m) && x !in m
    ensures Listed(order + [x], m[x := v])
  {
    assert Elements(order + [x]) == Elements(order) + {x};
  }

  lemma ListedByKeys<V>(order: seq<Address>, m: map<Address, V>, n: map<Address, V>)
    requires Listed(order, m) && m.Keys == n.Keys
    ensures Listed(order, n)
  {
  }

  lemma ListedAt<V>(order: seq<Address>, m: map<Address, V>, i: nat)
    requires Listed(order, m) && i < |order|
    ensures order[i] in m
  {
    assert order[i] in Elements(order);
  }

  lemma ListedHas<V>(order: seq<Address>, m: map<Address, V>, x: Address)
    requires Listed(order, m)
    ensures Distinct(order) && (x in order <==> x in m)
  {
    assert x in Elements(order) <==> x in m.Keys;
  }

  lemma SameKeys(p: Parents, rk: Ranks, m: map<Address, Address>, e: Pairs)
    requires Sound(p, rk, m, e)
    ensures p.Keys == rk.Keys == m.Keys
  {
  }

  /** One step towards the root. */
  lemma Climb(p: Parents, rk: Ranks, m: map<Address, Address>, e: Pairs, x: Address)
    requires Sound(p, rk, m, e) && x in p
    ensures p.Keys == rk.Keys == m.Keys
    ensures p[x] in p && m[p[x]] == m[x]
    ensures if p[x] == x then m[x] == x else rk[x] < rk[p[x]]
    ensures m[x] in p && p[m[x]] == m[x] && m[m[x]] == m[x]
  {
    assert At(p, x) == p[x] && At(m, x) == m[x] && At(p, m[x]) == p[m[x]];
  }

  /** The wallets of `order` that `m` sends to `r`, in order. */
  function Cluster(order: seq<Address>, m: map<Address, Address>, r: Address): seq<Address> {
    if order == [] then []
    else
      var last := order[|order| - 1];
      Cluster(order[..|order| - 1], m, r) + (if last in m && m[last] == r then [last] else [])
  }

  /** `clusters` splits `order` by root; no cluster is empty. */
  ghost predicate Partition(clusters: map<Address, seq<Address>>, order: seq<Address>, m: map<Address, Address>) {
    && (forall r :: r in clusters ==> clusters[r] == Cluster(order, m, r))
    && (forall x :: x in order && x in m ==> m[x] in clusters)
    && (forall r :: r in clusters ==> exists x :: x in m && m[x] == r)
  }

  lemma EmptyPartition(m: map<Address, Address>)
    ensures Partition(map[], [], m) && Listed<seq<Address>>([], map[])
  {
  }

  lemma PartitionGrows(clusters: map<Address, seq<Address>>, order: seq<Address>, m: map<Address, Address>, x: Address)
    requires x in m && Partition(clusters, order, m)
    ensures var sofar := if m[x] in clusters then clusters[m[x]] else [];
            Partition(clusters[m[x] := sofar + [x]], order + [x], m)
  {
    assert (order + [x])[..|order|] == order;
    if m[x] !in clusters {
      NoMembers(order, m, m[x]);
    }
  }

  lemma {:induction false} NoMembers(order: seq<Address>, m: map<Address, Address>, r: Address)
    requires forall x :: x in order && x in m ==> m[x] != r
    ensures Cluster(order, m, r) == []
  {
    if order != [] {
      NoMembers(order[..|order| - 1], m, r);
    }
  }

  // ---- the order in which clusters are met ----

  /** The wallet at position `i` of `order` belongs to the cluster of `r`. */
  ghost predicate MemberAt(order: seq<Address>, m: map<Address, Address>, r: Address, i: nat) {
    i < |order| && order[i] in m && m[order[i]] == r
  }

  ghost predicate Met(order: seq<Address>, m: map<Address, Address>, r: Address) {
    exists i: nat :: MemberAt(order, m, r, i)
  }

  /** Some member of the cluster of `r` stands in `order` before every member of
      that of `s`. */
  ghost predicate MetBefore(order: seq<Address>, m: map<Address, Address>, r: Address, s: Address) {
    exists i: nat :: MemberAt(order, m, r, i) && forall j: nat :: MemberAt(order, m, s, j) ==> i < j
  }

  /** `roots` lists clusters by their first members. */
  ghost predicate MetInOrder(roots: seq<Address>, order: seq<Address>, m: map<Address, Address>) {
    forall i, j :: 0 <= i < j < |roots| ==> MetBefore(order, m, roots[i], roots[j])
  }

  lemma MetBeforeIsAsymmetric(order: seq<Address>, m: map<Address, Address>, r: Address, s: Address)
    requires MetBefore(order, m, r, s)
    ensures !MetBefore(order, m, s, r)
  {
  }

  /** A cluster that has met its first member before stays ahead of the others. */
  lemma MetBeforeGrows(order: seq<Address>, m: map<Address, Address>, x: Address, r: Address, s: Address)
    requires MetBefore(order, m, r, s)
    ensures MetBefore(order + [x], m, r, s)
  {
    var i: nat :| MemberAt(order, m, r, i) && forall j: nat :: MemberAt(order, m, s, j) ==> i < j;
    assert MemberAt(order + [x], m, r, i);
    forall j: nat | MemberAt(order + [x], m, s, j)
      ensures i < j
    {
      assert j < |order| ==> MemberAt(order, m, s, j);
    }
  }

  /** A cluster first met now comes after those met earlier. */
  lemma MetLater(order: seq<Address>, m: map<Address, Address>, x: Address, r: Address)
    requires x in m && Met(order, m, r) && !Met(order, m, m[x])
    ensures MetBefore(order + [x], m, r, m[x])
  {
    var i: nat :| MemberAt(order, m, r, i);
    assert MemberAt(order + [x], m, r, i);
    forall j: nat | MemberAt(order + [x], m, m[x], j)
      ensures i < j
    {
      assert !MemberAt(order, m, m[x], j);
    }
  }

  /** Exactly the listed clusters have been met. */
  ghost predicate MetExactly(clusters: map<Address, seq<Address>>, order: seq<Address>, m: map<Address, Address>) {
    forall r :: r in clusters <==> Met(order, m, r)
  }

  lemma MetExactlyGrows(clusters: map<Address, seq<Address>>, order: seq<Address>, m: map<Address, Address>,
                        x: Address, members: seq<Address>)
    requires x in m && MetExactly(clusters, order, m)
    ensures MetExactly(clusters[m[x] := members], order + [x], m)
  {
    forall r
      ensures Met(order + [x], m, r) <==> r == m[x] || Met(order, m, r)
    {
      assert MemberAt(order + [x], m, m[x], |order|);
      assert forall i: nat :: i < |order| ==> MemberAt(order, m, r, i) == MemberAt(order + [x], m, r, i);
    }
  }

  /** One step of the loop: a root met for the first time goes to the end. */
  lemma MetInOrderGrows(clusters: map<Address, seq<Address>>, roots: seq<Address>, order: seq<Address>,
                        m: map<Address, Address>, x: Address)
    requires x in m && Listed(roots, clusters) && MetInOrder(roots, order, m) && MetExactly(clusters, order, m)
    ensures MetInOrder(if m[x] in clusters then roots else roots + [m[x]], order + [x], m)
  {
    hide MetBefore, Distinct;
    forall i, j | 0 <= i < j < |roots|
      ensures MetBefore(order + [x], m, roots[i], roots[j])
    {
      MetBeforeGrows(order, m, x, roots[i], roots[j]);
    }
    if m[x] !in clusters {
      forall i | 0 <= i < |roots|
        ensures MetBefore(order + [x], m, roots[i], m[x])
      {
        ListedAt(roots, clusters, i);
        MetLater(order, m, x, roots[i]);
      }
    }
  }

  lemma NothingMet(m: map<Address, Address>)
    ensures MetInOrder([], [], m) && MetExactly(map[], [], m)
  {
  }

  /** The clusters met before that of `s`. */
  ghost function Earlier(order: seq<Address>, m: map<Address, Address>, s: Address): set<Address> {
    set r | r in m.Values && MetBefore(order, m, r, s)
  }

  /** The position of a root counts the clusters met before its own. */
  lemma PositionCountsEarlier(roots: seq<Address>, order: seq<Address>, m: map<Address, Address>, k: nat)
    requires MetInOrder(roots, order, m) && Distinct(roots) && Elements(roots) == m.Values && k < |roots|
    ensures |Earlier(order, m, roots[k])| == k
  {
    hide MetBefore;
    assert Distinct(roots[..k]);
    DistinctSize(roots[..k]);
    forall r
      ensures r in Earlier(order, m, roots[k]) <==> r in Elements(roots[..k])
    {
      if r in Earlier(order, m, roots[k]) {
        assert r in Elements(roots);
        var i :| 0 <= i < |roots| && roots[i] == r;
        if k <= i {
          NotBeforeEarlier(roots, order, m, k, i);
        }
        assert roots[..k][i] == r;
      }
      if i :| 0 <= i < k && roots[..k][i] == r {
        assert roots[i] in Elements(roots) && MetBefore(order, m, roots[i], roots[k]);
      }
    }
    assert Earlier(order, m, roots[k]) == Elements(roots[..k]);
  }

  lemma NotBeforeEarlier(roots: seq<Address>, order: seq<Address>, m: map<Address, Address>, k: nat, i: nat)
    requires MetInOrder(roots, order, m) && k <= i < |roots|
    ensures !MetBefore(order, m, roots[i], roots[k])
  {
    if k == i {
      hide MetInOrder;
      if MetBefore(order, m, roots[k], roots[k]) {
        MetBeforeIsAsymmetric(order, m, roots[k], roots[k]);
      }
    } else {
      MetBeforeIsAsymmetric(order, m, roots[k], roots[i]);
    }
  }

  // ---- union by rank ----

  /** After `x` and `y` were united: their clusters share the root of higher rank,
      that of `x` if the ranks are equal, whose rank then rises by one. */
  ghost predicate UnitedByRank(m: map<Address, Address>, rk: Ranks, x: Address, y: Address,
                               m': map<Address, Address>, rk': Ranks) {
    && x in m && y in m && m[x] in rk && m[y] in rk && m'.Keys == m.Keys
    && (forall z :: z in m && m[z] != m[x] && m[z] != m[y] ==> m'[z] == m[z])
    && (forall z :: z in m && (m[z] == m[x] || m[z] == m[y]) ==>
          m'[z] == if rk[m[x]] < rk[m[y]] then m[y] else m[x])
    && rk' == if m[x] != m[y] && rk[m[x]] == rk[m[y]] then rk[m[x] := rk[m[x]] + 1] else rk
  }

  lemma UnitedAlready(m: map<Address, Address>, rk: Ranks, x: Address, y: Address)
    requires x in m && y in m && m[x] == m[y] && m[x] in rk
    ensures UnitedByRank(m, rk, x, y, m, rk)
  {
  }

  function WithKey<V>(m: map<Address, V>, x: Address, v: V): map<Address, V> {
    if x in m then m else m[x := v]
  }

  /** `x` is put at the end unless it is there already, as a new dictionary key is. */
  function WithNew(order: seq<Address>, x: Address): seq<Address> {
    if x in order then order else order + [x]
  }

  // ---- how deep the recursion of `find` goes ----

  /** `k` parent links lead from `x` to its root. */
  ghost predicate LinksToRoot(p: Parents, x: Address, k: nat)
    decreases k
  {
    x in p && if At(p, x) == x then k == 0 else k > 0 && LinksToRoot(p, At(p, x), k - 1)
  }

  /** The parents after every wallet on the way from `x` to its root `r` was pointed straight at `r`. */
  ghost function Flattened(p: Parents, x: Address, k: nat, r: Address): Parents
    requires LinksToRoot(p, x, k)
    decreases k
  {
    if k == 0 then p else Flattened(p, At(p, x), k - 1, r)[x := r]
  }

  /** `y` lies on the way from `x` up, at most `k` links away. */
  ghost predicate OnPath(p: Parents, x: Address, k: nat, y: Address)
    requires LinksToRoot(p, x, k)
    decreases k
  {
    x == y || (k > 0 && OnPath(p, At(p, x), k - 1, y))
  }

  /** Flattening a path points exactly the wallets on it at the root. */
  lemma {:induction false} FlattenedPoints(p: Parents, rk: Ranks, m: map<Address, Address>, x: Address, k: nat, y: Address)
    requires Ranked(p, rk) && IsRootMap(p, m) && LinksToRoot(p, x, k) && y in p
    ensures x in m && Flattened(p, x, k, m[x]).Keys == p.Keys
    ensures Flattened(p, x, k, m[x])[y] == if OnPath(p, x, k, y) then m[x] else p[y]
    decreases k
  {
    if k > 0 {
      FlattenedPoints(p, rk, m, At(p, x), k - 1, y);
    }
  }

  lemma {:induction false} LinksBoundedByRank(p: Parents, rk: Ranks, m: map<Address, Address>, x: Address, k: nat)
    requires Ranked(p, rk) && IsRootMap(p, m) && LinksToRoot(p, x, k)
    ensures m[x] in rk && rk[x] + k <= rk[m[x]]
    decreases k
  {
    if At(p, x) != x {
      LinksBoundedByRank(p, rk, m, At(p, x), k - 1);
    }
  }

  /** Union by rank keeps every chain of parents logarithmic in the number of wallets. */
  lemma DepthIsLogarithmic(p: Parents, rk: Ranks, m: map<Address, Address>, e: Pairs, x: Address, k: nat)
    requires Sound(p, rk, m, e) && LinksToRoot(p, x, k)
    ensures Pow2(k) <= |p|
  {
    LinksBoundedByRank(p, rk, m, x, k);
    var r := At(m, x);
    assert At(p, r) == r;
    Pow2Monotone(k, rk[r]);
    SubsetSize(Members(m, r), p.Keys);
  }
}

/** The union-find structure of `src/graph/threat_graph.py`. */
module WalletClusters {
  import opened Common
  import opened Forests

  /** What the forest stands for: where each wallet's parents lead, and the
      pairs passed to `Union` so far. */
  datatype Meaning = Meaning(roots: map<Address, Address>, pairs: set<(Address, Address)>)

  class UnionFind {
    var parent: map<Address, Address>
    var rank: map<Address, nat>
    /** The keys of `parent` in insertion order, which is how Python iterates over them. */
    var order: seq<Address>
    ghost var meaning: Meaning

    ghost predicate Valid()
      reads this
    {
      Sound(parent, rank, meaning.roots, meaning.pairs) && Listed(order, parent)
    }

    constructor ()
      ensures Valid() && parent == map[] && order == [] && meaning.pairs == {}
    {
      parent, rank, order := map[], map[], [];
      meaning := Meaning(map[], {});
    }

    /** The wallets of higher rank: what `Find` can still climb to. */
    ghost function Above(x: Address): set<Address>
      reads this
      requires Valid() && x in parent
    {
      set y | y in parent && rank[x] < rank[y]
    }

    /** Root of `x`, inserting `x` if unknown and compressing its path.
        `frames` counts the nested calls. */
    method Find(x: Address) returns (r: Address, ghost frames: nat)
      requires Valid()
      modifies this
      ensures Valid() && parent.Keys == old(parent).Keys + {x}
      ensures meaning.pairs == old(meaning.pairs)
      ensures if x in old(parent) then meaning == old(meaning) else meaning.roots == old(meaning.roots)[x := x]
      ensures if x in old(parent) then order == old(order) else order == old(order) + [x]
      ensures r == meaning.roots[x]
      ensures if x in old(parent) then frames > 0 && LinksToRoot(old(parent), x, frames - 1) else frames == 1
      ensures parent == if x in old(parent) then Flattened(old(parent), x, frames - 1, r) else old(parent)[x := x]
      ensures rank == if x in old(parent) then old(rank) else old(rank)[x := 0]
      decreases if x in parent then |Above(x)| else |parent| + 1
    {
      hide Sound, Listed;
      frames := 1;
      SameKeys(parent, rank, meaning.roots, meaning.pairs);
      if x !in parent {
        Insert(parent, rank, meaning.roots, meaning.pairs, x);
        Append(order, parent, x, x);
        parent, rank, order := parent[x := x], rank[x := 0], order + [x];
        meaning := meaning.(roots := meaning.roots[x := x]);
      }
      Climb(parent, rank, meaning.roots, meaning.pairs, x);
      if parent[x] != x {
        ghost var inner;
        assert parent[x] in Above(x);
        SubsetSize(Above(parent[x]), Above(x) - {parent[x]});
        var top;
        top, inner := Find(parent[x]);
        frames := 1 + inner;
        Compress(parent, rank, meaning.roots, meaning.pairs, x);
        ListedByKeys(order, parent, parent[x := top]);
        parent := parent[x := top];
      }
      r := parent[x];
    }

    /** The recursion of `Find` is at most log2(n) + 1 calls deep, n being the number of known wallets. */
    lemma FindIsShallow(x: Address, frames: nat)
      requires Valid() && frames > 0 && LinksToRoot(parent, x, frames - 1)
      ensures Pow2(frames - 1) <= |parent|
    {
      DepthIsLogarithmic(parent, rank, meaning.roots, meaning.pairs, x, frames - 1);
    }

    /** Hangs one root below the other, the one of lower rank below (lines 103-107 of the source). */
    method HangLower(rx: Address, ry: Address, ghost x: Address, ghost y: Address)
      requires Valid() && x in parent && y in parent && x in meaning.roots && y in meaning.roots
      requires rx in parent && ry in parent && rx != ry && parent[rx] == rx && parent[ry] == ry
      requires rx == meaning.roots[x] && ry == meaning.roots[y]
      modifies this
      ensures Valid() && meaning.pairs == old(meaning.pairs) + {(x, y)}
      ensures parent.Keys == old(parent).Keys && order == old(order)
      ensures UnitedByRank(old(meaning).roots, old(rank), x, y, meaning.roots, rank)
    {
      hide Sound, Listed;
      SameKeys(parent, rank, meaning.roots, meaning.pairs);
      var top, low := rx, ry;
      if rank[rx] < rank[ry] {
        top, low := ry, rx;
      }
      Hang(parent, rank, meaning.roots, meaning.pairs, x, y, top, low);
      ListedByKeys(order, parent, parent[low := top]);
      meaning := Meaning(Rerooted(meaning.roots, top, low), meaning.pairs + {(x, y)});
      parent := parent[low := top];
      if rank[top] == rank[low] {
        rank := rank[top := rank[top] + 1];
      }
    }

    /** The root of `x`, and what looking it up leaves behind. */
    method RootOf(x: Address) returns (r: Address)
      requires Valid()
      modifies this
      ensures Valid() && meaning.pairs == old(meaning.pairs)
      ensures meaning.roots == WithKey(old(meaning).roots, x, x) && rank == WithKey(old(rank), x, 0)
      ensures order == WithNew(old(order), x)
      ensures parent.Keys == old(parent).Keys + {x} && parent.Keys == meaning.roots.Keys == rank.Keys
      ensures r == meaning.roots[x]
    {
      hide Sound, Listed, Flattened, LinksToRoot;
      SameKeys(parent, rank, meaning.roots, meaning.pairs);
      ListedHas(order, parent, x);
      ghost var frames;
      r, frames := Find(x);
      SameKeys(parent, rank, meaning.roots, meaning.pairs);
    }

    /** The roots of two wallets, `x` being looked up first. */
    method FindBoth(x: Address, y: Address) returns (rx: Address, ry: Address)
      requires Valid()
      modifies this
      ensures Valid() && meaning.pairs == old(meaning.pairs)
      ensures meaning.roots == WithKey(WithKey(old(meaning).roots, x, x), y, y)
      ensures rank == WithKey(WithKey(old(rank), x, 0), y, 0)
      ensures order == WithNew(WithNew(old(order), x), y)
      ensures parent.Keys == old(parent).Keys + {x, y} && parent.Keys == meaning.roots.Keys == rank.Keys
      ensures rx == meaning.roots[x] && ry == meaning.roots[y]
    {
      hide Sound, Listed, WithNew;
      rx := RootOf(x);
      ry := RootOf(y);
    }

    /** Union by rank. */
    method Union(x: Address, y: Address)
      requires Valid()
      modifies this
      ensures Valid() && meaning.pairs == old(meaning.pairs) + {(x, y)}
      ensures parent.Keys == old(parent).Keys + {x, y}
      ensures order == WithNew(WithNew(old(order), x), y)
      ensures UnitedByRank(WithKey(WithKey(old(meaning).roots, x, x), y, y), WithKey(WithKey(old(rank), x, 0), y, 0),
                           x, y, meaning.roots, rank)
    {
      hide Sound, Listed, UnitedByRank, WithKey, WithNew;
      var rx, ry := FindBoth(x, y);
      Climb(parent, rank, meaning.roots, meaning.pairs, x);
      Climb(parent, rank, meaning.roots, meaning.pairs, y);
      if rx == ry {
        UnitedAlready(meaning.roots, rank, x, y);
        UniteSame(parent, rank, meaning.roots, meaning.pairs, x, y);
        meaning := meaning.(pairs := meaning.pairs + {(x, y)});
      } else {
        HangLower(rx, ry, x, y);
      }
    }

    /** True exactly for wallets that the united pairs link, known or not. */
    method SameCluster(x: Address, y: Address) returns (b: bool)
      requires Valid()
      modifies this
      ensures Valid() && meaning.pairs == old(meaning.pairs)
      ensures b <==> Linked(meaning.pairs, x, y)
      ensures order == WithNew(WithNew(old(order), x), y)
    {
      hide Sound, Listed, Linked, WithKey, WithNew;
      var rx, ry := FindBoth(x, y);
      SameRootIffLinked(parent, rank, meaning.roots, meaning.pairs, x, y);
      b := rx == ry;
    }

    /** The members of each cluster, in insertion order, and the roots in the
        order in which they are first met. */
    method GetClusters() returns (clusters: map<Address, seq<Address>>, rootOrder: seq<Address>)
      requires Valid()
      modifies this
      ensures Valid() && meaning == old(meaning) && order == old(order)
      ensures Listed(rootOrder, clusters)
      ensures Partition(clusters, order, meaning.roots)
      ensures MetInOrder(rootOrder, order, meaning.roots)
    {
      hide Sound, Listed, Partition, MetInOrder, MetExactly;
      clusters, rootOrder := map[], [];
      EmptyPartition(meaning.roots);
      NothingMet(meaning.roots);
      SameKeys(parent, rank, meaning.roots, meaning.pairs);
      for i := 0 to |order|
        invariant Valid() && meaning == old(meaning) && order == old(order) && parent.Keys == meaning.roots.Keys
        invariant Listed(rootOrder, clusters)
        invariant Partition(clusters, order[..i], meaning.roots)
        invariant MetInOrder(rootOrder, order[..i], meaning.roots) && MetExactly(clusters, order[..i], meaning.roots)
      {
        ListedAt(order, parent, i);
        var r, _ := Find(order[i]);
        PartitionGrows(clusters, order[..i], meaning.roots, order[i]);
        MetInOrderGrows(clusters, rootOrder, order[..i], meaning.roots, order[i]);
        ghost var sofar := if r in clusters then clusters[r] else [];
        MetExactlyGrows(clusters, order[..i], meaning.roots, order[i], sofar + [order[i]]);
        ghost var before := clusters;
        if r !in clusters {
          Append(rootOrder, clusters, r, []);
          rootOrder, clusters := rootOrder + [r], clusters[r := []];
        }
        ListedByKeys(rootOrder, clusters, clusters[r := clusters[r] + [order[i]]]);
        clusters := clusters[r := clusters[r] + [order[i]]];
        assert clusters == before[r := sofar + [order[i]]];
        assert order[..i + 1] == order[..i] + [order[i]];
      }
      assert order[..|order|] == order;
    }
  }
}
