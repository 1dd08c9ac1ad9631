/** The breadth-first search of `find_laundering_paths`: what its queue holds at every moment. */
module Search {
  import opened Common
  import opened Walks

  /** The search is inside level `k`: `done` has been expanded, `cur` is still
      queued, `nxt` is the queued part of level `k + 1`, and `paths` holds what
      has been reported. */
  datatype Progress = Progress(k: nat, done: seq<Path>, cur: seq<Path>, nxt: seq<Path>, paths: seq<Path>)

  ghost predicate AtLevel(adj: Lists, s: Address, maxDepth: int, g: Progress) {
    && (g.k == 0 || g.k <= maxDepth)
    && Level(adj, s, g.k) == g.done + g.cur
    && NonEmpty(g.done)
    && g.nxt == (if g.k < maxDepth then ExtendAll(adj, g.done) else [])
    && g.paths == (if g.k == 0 then [] else Upto(adj, s, g.k - 1) + g.done)
  }

  /** The cut-off has not struck: too few paths of less than `maxDepth` edges were reported. */
  ghost predicate BelowCap(adj: Lists, s: Address, maxDepth: int, maxPaths: int, g: Progress) {
    || (g.k == 0 && (g.done == [] || maxDepth <= 0))
    || (if g.k < maxDepth then |g.paths| else |Upto(adj, s, maxDepth - 1)|) < maxPaths
  }

  ghost predicate Searching(adj: Lists, s: Address, maxDepth: int, maxPaths: int, g: Progress) {
    AtLevel(adj, s, maxDepth, g) && BelowCap(adj, s, maxDepth, maxPaths, g)
  }

  function Start(s: Address): Progress {
    Progress(0, [], [[s]], [], [])
  }

  /** The queue `g.cur + g.nxt` starts with the rest of the current level; once
      that is used up, the search has moved on to the next one. */
  function Settled(g: Progress): Progress {
    if g.cur == [] then Progress(g.k + 1, [], g.nxt, [], g.paths) else g
  }

  /** The search after its first queued path has been processed. */
  ghost function Popped(adj: Lists, maxDepth: int, g: Progress): Progress
    requires g.cur != [] && g.cur[0] != []
  {
    Progress(
      g.k,
      g.done + [g.cur[0]],
      g.cur[1..],
      if g.k < maxDepth then g.nxt + Extend(adj, g.cur[0]) else g.nxt,
      if g.k == 0 then g.paths else g.paths + [g.cur[0]])
  }

  lemma StartSearches(adj: Lists, s: Address, maxDepth: int, maxPaths: int)
    ensures Searching(adj, s, maxDepth, maxPaths, Start(s))
  {
    assert Level(adj, s, 0) == [[s]];
  }

  lemma SettledSearches(adj: Lists, s: Address, maxDepth: int, maxPaths: int, g: Progress)
    requires Searching(adj, s, maxDepth, maxPaths, g) && g.cur + g.nxt != []
    ensures var h := Settled(g);
            && Searching(adj, s, maxDepth, maxPaths, h)
            && h.cur != [] && h.cur[0] != [] && |h.cur[0]| == h.k + 1
            && h.cur + h.nxt == g.cur + g.nxt && h.paths == g.paths
            && Settled(h) == h && Remaining(maxDepth, h) == Remaining(maxDepth, g)
  {
    hide Upto, ExtendAll, Level, NonEmpty;
    var h := Settled(g);
    if g.cur == [] {
      NextLevel(adj, s, maxDepth, g);
      EmptyExtends(adj);
      assert h.cur + h.nxt == g.cur + g.nxt == g.nxt;
    }
    LevelLength(adj, s, h.k, |h.done|);
  }

  /** A used-up level makes way for the next one. */
  lemma NextLevel(adj: Lists, s: Address, maxDepth: int, g: Progress)
    requires AtLevel(adj, s, maxDepth, g) && g.cur == [] && g.nxt != []
    ensures AtLevel(adj, s, maxDepth, Settled(g)) && g.paths == Upto(adj, s, g.k) && g.k < maxDepth
  {
    hide Upto, ExtendAll, Level;
    assert g.done + [] == g.done;
    LevelStep(adj, s, g.k);
    assert [] + g.nxt == g.nxt;
    EmptyExtends(adj);
    if g.k > 0 {
      UptoStep(adj, s, g.k);
    } else {
      UptoNone(adj, s);
    }
    assert Upto(adj, s, g.k) + [] == Upto(adj, s, g.k);
  }

  lemma UptoNone(adj: Lists, s: Address)
    ensures Upto(adj, s, 0) == []
  {
  }

  lemma LevelLength(adj: Lists, s: Address, k: nat, i: nat)
    requires i < |Level(adj, s, k)|
    ensures |Level(adj, s, k)[i]| == k + 1
  {
  }

  lemma ExtendAllStep(adj: Lists, done: seq<Path>, p: Path)
    requires NonEmpty(done) && p != []
    ensures NonEmpty(done + [p]) && ExtendAll(adj, done + [p]) == ExtendAll(adj, done) + Extend(adj, p)
  {
    assert (done + [p])[..|done|] == done;
  }

  lemma PoppedAtLevel(adj: Lists, s: Address, maxDepth: int, g: Progress)
    requires AtLevel(adj, s, maxDepth, g) && g.cur != [] && g.cur[0] != []
    ensures AtLevel(adj, s, maxDepth, Popped(adj, maxDepth, g))
  {
    hide Level, Upto, Extend, ExtendAll;
    ExtendAllStep(adj, g.done, g.cur[0]);
    assert g.done + g.cur == (g.done + [g.cur[0]]) + g.cur[1..];
    if g.k > 0 {
      assert (Upto(adj, s, g.k - 1) + g.done) + [g.cur[0]] == Upto(adj, s, g.k - 1) + (g.done + [g.cur[0]]);
    }
  }

  lemma {:induction false} UptoPrefix(adj: Lists, s: Address, k: int, d: int)
    requires k <= d
    ensures Upto(adj, s, k) <= Upto(adj, s, d)
    decreases d - k
  {
    hide Level;
    if k < d {
      UptoPrefix(adj, s, k, d - 1);
    }
  }

  lemma PrefixOfPrefix<T>(a: seq<T>, b: seq<T>, c: seq<T>)
    requires a + b <= c
    ensures c[..|a|] == a
  {
  }

  /** Below `maxDepth` the reported paths are the first ones of the result. */
  lemma ReportedIsPrefix(adj: Lists, s: Address, maxDepth: int, g: Progress)
    requires AtLevel(adj, s, maxDepth, g) && 0 < g.k < maxDepth
    ensures |g.paths| <= |Upto(adj, s, maxDepth - 1)| && Upto(adj, s, maxDepth - 1)[..|g.paths|] == g.paths
  {
    hide Level, Upto, Extend, ExtendAll, NonEmpty;
    UptoPrefix(adj, s, g.k, maxDepth - 1);
    UptoStep(adj, s, g.k);
    var before := Upto(adj, s, g.k - 1);
    assert before + (g.done + g.cur) == (before + g.done) + g.cur;
    PrefixOfPrefix(g.paths, g.cur, Upto(adj, s, maxDepth - 1));
  }

  /** When the cut-off strikes, the reported paths are the result. */
  lemma CutIsResult(adj: Lists, s: Address, maxDepth: int, maxPaths: int, g: Progress)
    requires Searching(adj, s, maxDepth, maxPaths, g) && g.cur != [] && g.cur[0] != []
    requires g.k < maxDepth && |Popped(adj, maxDepth, g).paths| >= maxPaths
    ensures Popped(adj, maxDepth, g).paths == SearchResult(adj, s, maxDepth, maxPaths)
  {
    hide AtLevel, Upto, Extend;
    PoppedAtLevel(adj, s, maxDepth, g);
    var h := Popped(adj, maxDepth, g);
    if g.k > 0 {
      ReportedIsPrefix(adj, s, maxDepth, h);
    } else {
      AtSource(adj, s, maxDepth, g);
    }
  }

  lemma AtSource(adj: Lists, s: Address, maxDepth: int, g: Progress)
    requires AtLevel(adj, s, maxDepth, g) && g.k == 0
    ensures g.paths == []
  {
  }

  /** A used-up level below `maxDepth` that found no extension is the last one. */
  lemma LastLevel(adj: Lists, s: Address, k: nat, d: int)
    requires k < d && ExtendAll(adj, Level(adj, s, k)) == []
    ensures Upto(adj, s, d) == Upto(adj, s, k) == Upto(adj, s, d - 1)
  {
    LevelStep(adj, s, k);
    hide Level, ExtendAll, Upto;
    NothingBeyond(adj, s, k + 1, d);
    UptoStep(adj, s, k + 1);
    if k + 1 <= d - 1 {
      NothingBeyond(adj, s, k + 1, d - 1);
    }
  }

  /** When the queue runs empty, the reported paths are the result. */
  lemma EmptyIsResult(adj: Lists, s: Address, maxDepth: int, maxPaths: int, g: Progress)
    requires Searching(adj, s, maxDepth, maxPaths, g) && g.cur + g.nxt == []
    ensures g.paths == SearchResult(adj, s, maxDepth, maxPaths)
  {
    hide Level, Upto, Extend, ExtendAll, NonEmpty;
    assert g.cur == [] && g.nxt == [];
    assert g.done + [] == g.done;
    if g.k < maxDepth {
      LastLevel(adj, s, g.k, maxDepth);
    }
    ReportedSoFar(adj, s, maxDepth, g);
  }

  lemma ReportedSoFar(adj: Lists, s: Address, maxDepth: int, g: Progress)
    requires AtLevel(adj, s, maxDepth, g) && g.cur == []
    ensures g.paths == Upto(adj, s, g.k) && (g.k == 0 ==> g.done != [])
    ensures maxDepth <= 0 ==> Upto(adj, s, maxDepth) == Upto(adj, s, maxDepth - 1) == []
  {
    assert g.done + [] == g.done;
    UptoOutOfRange(adj, s);
    if g.k > 0 {
      UptoStep(adj, s, g.k);
    } else {
      UptoNone(adj, s);
      LevelZero(adj, s);
    }
    hide Upto, Level, ExtendAll, NonEmpty;
  }

  lemma UptoOutOfRange(adj: Lists, s: Address)
    ensures forall d: int {:trigger Upto(adj, s, d)} :: d <= 0 ==> Upto(adj, s, d) == []
  {
  }

  lemma LevelZero(adj: Lists, s: Address)
    ensures Level(adj, s, 0) != []
  {
  }

  lemma PoppedSearches(adj: Lists, s: Address, maxDepth: int, maxPaths: int, g: Progress)
    requires Searching(adj, s, maxDepth, maxPaths, g) && g.cur != [] && g.cur[0] != []
    requires g.k < maxDepth ==> |Popped(adj, maxDepth, g).paths| < maxPaths
    ensures Searching(adj, s, maxDepth, maxPaths, Popped(adj, maxDepth, g))
    ensures var h := Popped(adj, maxDepth, g);
            || Remaining(maxDepth, h) < Remaining(maxDepth, g)
            || (Remaining(maxDepth, h) == Remaining(maxDepth, g) && |Settled(h).cur| < |Settled(g).cur|)
  {
    hide AtLevel;
    PoppedShrinks(adj, s, maxDepth, g);
    PoppedAtLevel(adj, s, maxDepth, g);
  }

  /** Taking the first path from the queue takes it from the current level. */
  lemma PopFirst(cur: seq<Path>, nxt: seq<Path>, longer: seq<Path>)
    requires cur != []
    ensures (cur + nxt)[0] == cur[0] && (cur + nxt)[1..] == cur[1..] + nxt
    ensures (cur + nxt)[1..] + longer == cur[1..] + (nxt + longer)
  {
  }

  /** Processing a path shrinks the measure of the search. */
  lemma PoppedShrinks(adj: Lists, s: Address, maxDepth: int, g: Progress)
    requires AtLevel(adj, s, maxDepth, g) && g.cur != [] && g.cur[0] != []
    ensures var h := Popped(adj, maxDepth, g);
            || Remaining(maxDepth, h) < Remaining(maxDepth, g)
            || (Remaining(maxDepth, h) == Remaining(maxDepth, g) && |Settled(h).cur| < |Settled(g).cur|)
  {
    hide Level, Upto, ExtendAll, Extend;
  }

  /** Levels still to come, the first part of the termination measure. */
  function Remaining(maxDepth: int, g: Progress): nat {
    if maxDepth < Settled(g).k then 0 else maxDepth - Settled(g).k + 1
  }

  lemma NowhereToGo(adj: Lists, s: Address, maxDepth: int, maxPaths: int)
    requires Next(adj, s) == []
    ensures SearchResult(adj, s, maxDepth, maxPaths) == []
  {
    assert Level(adj, s, 0) == [[s]];
    if maxDepth >= 1 {
      LastLevel(adj, s, 0, maxDepth);
    }
  }
}
