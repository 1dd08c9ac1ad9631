/** Velocity features: the pruned per-address history of
    `src/ml/tabular/feature_engineer.py` against the batch computation of
    `src/ml/tabular/vectorized_features.py`. */
module Velocity {
  import opened Common

  /** One transaction of an address: block timestamp and value. */
  datatype Point = Point(time: real, value: real)

  function Since(ps: seq<Point>, cutoff: real): seq<Point> {
    if ps == [] then []
    else
      var last := ps[|ps| - 1];
      Since(ps[..|ps| - 1], cutoff) + (if last.time >= cutoff then [last] else [])
  }

  /** The points at most `window` older than `now`, and not newer. */
  function InWindow(ps: seq<Point>, now: real, window: real): seq<Point> {
    if ps == [] then []
    else
      var last := ps[|ps| - 1];
      InWindow(ps[..|ps| - 1], now, window) + (if 0.0 <= now - last.time <= window then [last] else [])
  }

  /** What `_update_history` keeps of the full log `ps` of one address. */
  function Kept(ps: seq<Point>, window: real): seq<Point> {
    if ps == [] then []
    else
      var last := ps[|ps| - 1];
      Since(Kept(ps[..|ps| - 1], window) + [last], last.time - window)
  }

  lemma {:induction false} SinceAppend(ps: seq<Point>, p: Point, cutoff: real)
    ensures Since(ps + [p], cutoff) == Since(ps, cutoff) + (if p.time >= cutoff then [p] else [])
  {
    assert (ps + [p])[..|ps|] == ps;
  }

  lemma KeptStep(ps: seq<Point>, p: Point, window: real)
    ensures Kept(ps + [p], window) == Since(Kept(ps, window) + [p], p.time - window)
  {
    assert (ps + [p])[..|ps|] == ps;
  }

  lemma {:induction false} SinceTwice(ps: seq<Point>, c: real, d: real)
    requires c <= d
    ensures Since(Since(ps, c), d) == Since(ps, d)
  {
    if ps != [] {
      var front, last := ps[..|ps| - 1], ps[|ps| - 1];
      SinceTwice(front, c, d);
      if last.time >= c {
        SinceAppend(Since(front, c), last, d);
      } else {
        assert Since(ps, c) == Since(front, c);
        assert Since(ps, d) == Since(front, d);
      }
    }
  }

  /** Pruning loses nothing that a cutoff later than all earlier ones would keep. */
  lemma {:induction false} PruningIsHarmless(ps: seq<Point>, window: real, cutoff: real)
    requires forall i :: 0 <= i < |ps| ==> ps[i].time - window <= cutoff
    ensures Since(Kept(ps, window), cutoff) == Since(ps, cutoff)
  {
    if ps != [] {
      hide Since, Kept;
      var front, last := ps[..|ps| - 1], ps[|ps| - 1];
      assert ps == front + [last];
      PruningIsHarmless(front, window, cutoff);
      KeptStep(front, last, window);
      SinceTwice(Kept(front, window) + [last], last.time - window, cutoff);
      SinceAppend(Kept(front, window), last, cutoff);
      SinceAppend(front, last, cutoff);
    }
  }

  lemma {:induction false} SinceContains(ps: seq<Point>, cutoff: real, p: Point)
    ensures p in Since(ps, cutoff) <==> p in ps && p.time >= cutoff
  {
    if ps != [] {
      SinceContains(ps[..|ps| - 1], cutoff, p);
      assert ps == ps[..|ps| - 1] + [ps[|ps| - 1]];
    }
  }

  lemma {:induction false} WindowContains(ps: seq<Point>, now: real, window: real, p: Point)
    ensures p in InWindow(ps, now, window) <==> p in ps && 0.0 <= now - p.time <= window
  {
    if ps != [] {
      WindowContains(ps[..|ps| - 1], now, window, p);
      assert ps == ps[..|ps| - 1] + [ps[|ps| - 1]];
    }
  }

  lemma {:induction false} WindowIsSince(ps: seq<Point>, now: real, window: real)
    requires forall i :: 0 <= i < |ps| ==> ps[i].time <= now
    ensures InWindow(ps, now, window) == Since(ps, now - window)
  {
    if ps != [] {
      WindowIsSince(ps[..|ps| - 1], now, window);
    }
  }

  ghost predicate AllUpTo(ps: seq<Point>, t: real) {
    forall i :: 0 <= i < |ps| ==> ps[i].time <= t
  }

  /** The newest point survives every pruning. */
  lemma {:induction false} NewestIsKept(ps: seq<Point>, window: real, p: Point)
    requires window >= 0.0 && p in ps && AllUpTo(ps, p.time)
    ensures p in Kept(ps, window)
  {
    var front, last := ps[..|ps| - 1], ps[|ps| - 1];
    assert ps == front + [last];
    UpToAppend(front, last, p.time);
    hide AllUpTo;
    assert p in front || p == last;
    if p in front {
      NewestIsKept(front, window, p);
    }
    var h := Kept(front, window) + [last];
    SinceContains(h, last.time - window, p);
    assert Kept(ps, window) == Since(h, last.time - window);
    hide Kept, Since;
  }

  lemma {:induction false} NewestOf(ps: seq<Point>) returns (p: Point)
    requires ps != []
    ensures p in ps && AllUpTo(ps, p.time)
  {
    var front, last := ps[..|ps| - 1], ps[|ps| - 1];
    assert ps == front + [last];
    p := last;
    if front != [] {
      var q := NewestOf(front);
      if q.time > last.time {
        p := q;
      }
      UpToAppend(front, last, p.time);
      UpToLater(front, q.time, p.time);
    }
  }

  lemma UpToAppend(ps: seq<Point>, p: Point, t: real)
    ensures AllUpTo(ps + [p], t) <==> AllUpTo(ps, t) && p.time <= t
  {
    var qs := ps + [p];
    if AllUpTo(qs, t) {
      assert qs[|ps|] == p;
      assert forall i :: 0 <= i < |ps| ==> qs[i] == ps[i];
    }
  }

  lemma UpToLater(ps: seq<Point>, t: real, u: real)
    requires AllUpTo(ps, t)
    ensures t <= u ==> AllUpTo(ps, u)
  {
  }

  /** The pruned history is the window of the full log exactly when the latest
      transaction carries the latest timestamp seen for the address. */
  lemma HistoryIsWindowIffLatest(ps: seq<Point>, window: real)
    requires ps != [] && window >= 0.0
    ensures var now := ps[|ps| - 1].time;
            Kept(ps, window) == InWindow(ps, now, window) <==> AllUpTo(ps, now)
  {
    var front, last := ps[..|ps| - 1], ps[|ps| - 1];
    assert ps == front + [last];
    if AllUpTo(ps, last.time) {
      KeptWhenLatest(front, last, window);
    } else {
      hide Kept, InWindow;
      var p := NewestOf(ps);
      NewestIsKept(ps, window, p);
      WindowContains(ps, last.time, window, p);
      UpToLater(ps, p.time, last.time);
      hide AllUpTo;
    }
  }

  lemma KeptWhenLatest(front: seq<Point>, last: Point, window: real)
    requires window >= 0.0 && AllUpTo(front + [last], last.time)
    ensures Kept(front + [last], window) == InWindow(front + [last], last.time, window)
  {
    hide Kept, InWindow, Since;
    UpToAppend(front, last, last.time);
    KeptStep(front, last, window);
    PruningIsHarmless(front, window, last.time - window);
    SinceAppend(Kept(front, window), last, last.time - window);
    SinceAppend(front, last, last.time - window);
    WindowIsSince(front + [last], last.time, window);
  }

  // ---- the gap to the previous transaction ----

  function Insert(x: real, s: seq<real>): seq<real> {
    if s == [] || s[|s| - 1] <= x then s + [x] else Insert(x, s[..|s| - 1]) + [s[|s| - 1]]
  }

  /** Python's `sorted`. */
  function Sorted(s: seq<real>): (r: seq<real>)
    ensures |r| == |s|
  {
    if s == [] then []
    else
      InsertLength(s[|s| - 1], Sorted(s[..|s| - 1]));
      Insert(s[|s| - 1], Sorted(s[..|s| - 1]))
  }

  lemma {:induction false} InsertLength(x: real, s: seq<real>)
    ensures |Insert(x, s)| == |s| + 1
  {
    if s != [] && s[|s| - 1] > x {
      InsertLength(x, s[..|s| - 1]);
    }
  }

  lemma {:induction false} InsertContains(x: real, s: seq<real>, y: real)
    ensures y in Insert(x, s) <==> y in s || y == x
  {
    if s != [] && s[|s| - 1] > x {
      InsertContains(x, s[..|s| - 1], y);
      assert s == s[..|s| - 1] + [s[|s| - 1]];
    }
  }

  lemma {:induction false} InsertLast(x: real, s: seq<real>)
    ensures Insert(x, s) != []
    ensures s != [] ==> Insert(x, s)[|Insert(x, s)| - 1] == (if s[|s| - 1] <= x then x else s[|s| - 1])
  {
  }

  /** The last element of the sorted list is an upper bound from the list. */
  ghost predicate Greatest(s: seq<real>, top: real) {
    top in s && forall i :: 0 <= i < |s| ==> s[i] <= top
  }

  lemma GreatestAppend(s: seq<real>, top: real, x: real)
    requires Greatest(s, top)
    ensures Greatest(s + [x], if top <= x then x else top)
  {
    var t := s + [x];
    assert t[|s|] == x;
    if top > x {
      var i :| 0 <= i < |s| && s[i] == top;
      assert t[i] == top;
    }
  }

  lemma GreatestAlone(x: real)
    ensures Greatest([x], x) && Sorted([x]) == [x]
  {
    assert [x][..0] == [];
  }

  /** The last element of the sorted list is the greatest of the list. */
  lemma {:induction false} SortedEndsInMax(s: seq<real>)
    requires s != []
    ensures Greatest(s, Sorted(s)[|s| - 1])
  {
    var front, last := s[..|s| - 1], s[|s| - 1];
    assert s == front + [last];
    if front == [] {
      GreatestAlone(last);
    } else {
      SortedEndsInMax(front);
      InsertLast(last, Sorted(front));
      assert Sorted(s) == Insert(last, Sorted(front));
      hide Sorted, Insert, Greatest;
      GreatestAppend(front, Sorted(front)[|front| - 1], last);
    }
  }

  ghost predicate Ascending(s: seq<real>) {
    forall i, j :: 0 <= i < j < |s| ==> s[i] <= s[j]
  }

  lemma {:induction false} InsertKeeps(x: real, s: seq<real>)
    requires Ascending(s)
    ensures Ascending(Insert(x, s)) && multiset(Insert(x, s)) == multiset(s) + multiset{x}
  {
    if s != [] && s[|s| - 1] > x {
      var front, last := s[..|s| - 1], s[|s| - 1];
      InsertKeeps(x, front);
      var r := Insert(x, front);
      assert Insert(x, s) == r + [last];
      hide Insert, Ascending;
      assert s == front + [last];
      forall y | y in r
        ensures y <= last
      {
        BelowLast(s, x, y, r);
      }
      AscendingAppend(r, last);
    } else {
      AscendingAppend(s, x);
    }
  }

  lemma BelowLast(s: seq<real>, x: real, y: real, r: seq<real>)
    requires s != [] && Ascending(s) && x < s[|s| - 1]
    requires y in r && multiset(r) == multiset(s[..|s| - 1]) + multiset{x}
    ensures y <= s[|s| - 1]
  {
    assert y in multiset(r);
  }

  lemma AscendingAppend(s: seq<real>, x: real)
    requires Ascending(s) && forall y :: y in s ==> y <= x
    ensures Ascending(s + [x])
  {
    forall i, j | 0 <= i < j < |s + [x]|
      ensures (s + [x])[i] <= (s + [x])[j]
    {
      assert s[i] in s;
    }
  }

  /** Sorting yields an ascending permutation. */
  lemma {:induction false} SortedIsPermutation(s: seq<real>)
    ensures Ascending(Sorted(s)) && multiset(Sorted(s)) == multiset(s)
  {
    if s != [] {
      var front, last := s[..|s| - 1], s[|s| - 1];
      SortedIsPermutation(front);
      InsertKeeps(last, Sorted(front));
      assert s == front + [last];
    }
  }

  /** The element before the last of the sorted list is the greatest of what the
      list holds beside one occurrence of its maximum. */
  lemma SecondIsGreatestOfRest(s: seq<real>) returns (i: nat)
    requires |s| > 1
    ensures i < |s| && s[i] == Sorted(s)[|s| - 1]
    ensures Greatest(s[..i] + s[i + 1..], Sorted(s)[|s| - 2])
  {
    SortedIsPermutation(s);
    var r := Sorted(s);
    hide Sorted;
    var front := r[..|r| - 1];
    i := FindLast(r, s);
    var rest := s[..i] + s[i + 1..];
    assert forall x :: x in multiset(rest) <==> x in multiset(front);
    assert front[|front| - 1] == r[|r| - 2];
    assert front[|front| - 1] in multiset(rest);
    forall k | 0 <= k < |rest|
      ensures rest[k] <= r[|r| - 2]
    {
      assert rest[k] in multiset(front);
    }
  }

  function Times(ps: seq<Point>): (ts: seq<real>)
    ensures |ts| == |ps| && forall i :: 0 <= i < |ps| ==> ts[i] == ps[i].time
  {
    seq(|ps|, i requires 0 <= i < |ps| => ps[i].time)
  }

  function SumValues(ps: seq<Point>): real {
    if ps == [] then 0.0 else SumValues(ps[..|ps| - 1]) + ps[|ps| - 1].value
  }

  /** The three velocity features; `sinceLast` is -1 for a lone transaction. */
  datatype Features = Features(count: nat, valueSum: real, sinceLast: real)

  function FeaturesOf(history: seq<Point>, now: real): Features {
    Features(
      |history|,
      SumValues(history),
      if |history| > 1 then now - Sorted(Times(history))[|history| - 2] else -1.0)
  }

  lemma GapIsToLatestEarlier(h: seq<Point>, last: Point)
    requires h != [] && forall i :: 0 <= i < |h| ==> h[i].time <= last.time
    ensures var gap := FeaturesOf(h + [last], last.time).sinceLast;
            && (exists i :: 0 <= i < |h| && gap == last.time - h[i].time)
            && (forall i :: 0 <= i < |h| ==> gap <= last.time - h[i].time)
  {
    var ts := Times(h + [last]);
    var front := Times(h);
    assert ts == front + [last.time];
    assert ts[..|ts| - 1] == front;
    SortedEndsInMax(front);
    var top := Sorted(front)[|front| - 1];
    assert top <= last.time;
    assert Sorted(ts) == Sorted(front) + [last.time];
    assert FeaturesOf(h + [last], last.time).sinceLast == last.time - top;
  }

  /** `x` comes after `t`; not before it, if `orAt` holds. */
  predicate Past(x: real, t: real, orAt: bool) {
    x > t || (orAt && x == t)
  }

  /** Two of the times lie past `t`. */
  ghost predicate TwoPast(ts: seq<real>, t: real, orAt: bool) {
    exists i, j :: 0 <= i < j < |ts| && Past(ts[i], t, orAt) && Past(ts[j], t, orAt)
  }

  /** The second greatest time is past `t` exactly if two times are. */
  lemma SecondIsPastIff(ts: seq<real>, t: real, orAt: bool)
    requires |ts| > 1
    ensures Past(Sorted(ts)[|ts| - 2], t, orAt) <==> TwoPast(ts, t, orAt)
  {
    var m := SecondIsGreatestOfRest(ts);
    SortedIsPermutation(ts);
    hide Sorted;
    SecondIsPast(ts, m, Sorted(ts)[|ts| - 2], t, orAt);
  }

  lemma SecondIsPast(ts: seq<real>, m: nat, second: real, t: real, orAt: bool)
    requires m < |ts| && Greatest(ts[..m] + ts[m + 1..], second) && second <= ts[m]
    ensures Past(second, t, orAt) <==> TwoPast(ts, t, orAt)
  {
    var rest := ts[..m] + ts[m + 1..];
    if i, j :| 0 <= i < j < |ts| && Past(ts[i], t, orAt) && Past(ts[j], t, orAt) {
      var k := if i == m then j else i;
      assert rest[if k < m then k else k - 1] == ts[k];
    }
    if Past(second, t, orAt) {
      var k :| 0 <= k < |rest| && rest[k] == second;
      var l := if k < m then k else k + 1;
      assert ts[l] == second && Past(ts[m], t, orAt) && l != m;
      assert if l < m then l < m < |ts| else m < l < |ts|;
    }
  }

  /** The gap is not negative exactly if at most one recorded time lies after the
      transaction's own. */
  lemma GapIsNonNegativeIff(h: seq<Point>, now: real)
    requires |h| > 1
    ensures FeaturesOf(h, now).sinceLast >= 0.0
       <==> !exists i, j :: 0 <= i < j < |h| && h[i].time > now && h[j].time > now
  {
    SecondIsPastIff(Times(h), now, false);
    hide Sorted, Times;
    var ts := Times(h);
    assert forall i :: 0 <= i < |h| ==> ts[i] == h[i].time;
    assert forall i :: 0 <= i < |h| ==> (Past(ts[i], now, false) <==> h[i].time > now);
  }

  /** The gap is -1, the mark of a first transaction, exactly for a history of at
      most one entry and for one whose second greatest time is one second after
      the transaction's own. */
  lemma MarkedFirstIff(h: seq<Point>, now: real)
    ensures FeaturesOf(h, now).sinceLast == -1.0
       <==> |h| <= 1 || (TwoPast(Times(h), now + 1.0, true) && !TwoPast(Times(h), now + 1.0, false))
  {
    if |h| > 1 {
      SecondIsPastIff(Times(h), now + 1.0, true);
      SecondIsPastIff(Times(h), now + 1.0, false);
      hide Sorted, Times, TwoPast;
    }
  }

  /** Out of order, the gap can equal the value that marks a lone transaction. */
  lemma GapCollidesWithMarker(window: real)
    requires window >= 1.0
    ensures var f := FeaturesOf(Kept([Point(101.0, 0.0), Point(102.0, 0.0), Point(100.0, 0.0)], window), 100.0);
            f.count == 3 && f.sinceLast == -1.0
  {
    var a, b, c := Point(101.0, 0.0), Point(102.0, 0.0), Point(100.0, 0.0);
    KeptAll([], a, window);
    KeptAll([a], b, window);
    KeptAll([a, b], c, window);
    hide Kept, Sorted;
    assert [] + [a] == [a] && [a] + [b] == [a, b] && [a, b] + [c] == [a, b, c];
    assert Times([a, b, c]) == [101.0, 102.0, 100.0];
    SortThree();
  }

  /** Nothing is pruned by a transaction whose window reaches back to all others. */
  lemma KeptAll(ps: seq<Point>, p: Point, window: real)
    requires window >= 0.0 && Kept(ps, window) == ps
    requires forall i :: 0 <= i < |ps| ==> ps[i].time >= p.time - window
    ensures Kept(ps + [p], window) == ps + [p]
  {
    hide Since, Kept;
    KeptStep(ps, p, window);
    SinceAll(ps + [p], p.time - window);
  }

  lemma {:induction false} SinceAll(ps: seq<Point>, cutoff: real)
    requires forall i :: 0 <= i < |ps| ==> ps[i].time >= cutoff
    ensures Since(ps, cutoff) == ps
  {
    if ps != [] {
      SinceAll(ps[..|ps| - 1], cutoff);
    }
  }

  lemma SortThree()
    ensures Sorted([101.0, 102.0, 100.0]) == [100.0, 101.0, 102.0]
  {
    var s := [101.0, 102.0, 100.0];
    assert s[..2] == [101.0, 102.0] && s[..2][..1] == [101.0] && s[..1] == [101.0];
    GreatestAlone(101.0);
    assert Sorted([101.0, 102.0]) == Insert(102.0, [101.0]) == [101.0, 102.0];
    assert [101.0, 102.0][..1] == [101.0] && [101.0][..0] == [];
    assert Insert(100.0, [101.0]) == [100.0, 101.0];
  }

  ghost predicate NonDecreasing(ps: seq<Point>) {
    forall i, j :: 0 <= i <= j < |ps| ==> ps[i].time <= ps[j].time
  }

  /** For timestamps in order, every feature computed from the pruned history
      equals the one computed from the full log: count and sum over the window,
      and the gap to the predecessor if that lies in the window, else -1. */
  lemma IncrementalMatchesLog(ps: seq<Point>, window: real)
    requires ps != [] && window >= 0.0 && NonDecreasing(ps)
    ensures var now := ps[|ps| - 1].time;
            var f := FeaturesOf(Kept(ps, window), now);
            && f.count == |InWindow(ps, now, window)|
            && f.valueSum == SumValues(InWindow(ps, now, window))
            && f.sinceLast == if |ps| > 1 && now - ps[|ps| - 2].time <= window then now - ps[|ps| - 2].time else -1.0
  {
    HistoryIsWindowIffLatest(ps, window);
    GapIsToPredecessor(ps, window);
    hide Kept, InWindow, Sorted, Times, SumValues;
    assert AllUpTo(ps, ps[|ps| - 1].time);
  }

  /** For timestamps in order, a transaction is marked as a first one exactly if it
      is one or its predecessor lies before the window. */
  lemma MarkedFirstInOrderIff(ps: seq<Point>, window: real)
    requires ps != [] && window >= 0.0 && NonDecreasing(ps)
    ensures var now := ps[|ps| - 1].time;
            FeaturesOf(Kept(ps, window), now).sinceLast == -1.0 <==> |ps| == 1 || now - ps[|ps| - 2].time > window
  {
    IncrementalMatchesLog(ps, window);
    hide FeaturesOf, Kept;
  }

  lemma GapIsToPredecessor(ps: seq<Point>, window: real)
    requires ps != [] && window >= 0.0 && NonDecreasing(ps)
    ensures var now := ps[|ps| - 1].time;
            FeaturesOf(InWindow(ps, now, window), now).sinceLast
            == if |ps| > 1 && now - ps[|ps| - 2].time <= window then now - ps[|ps| - 2].time else -1.0
  {
    var front, last := ps[..|ps| - 1], ps[|ps| - 1];
    var now := last.time;
    var h := InWindow(front, now, window);
    assert InWindow(ps, now, window) == h + [last];
    hide InWindow, Sorted, Times;
    forall i | 0 <= i < |h|
      ensures h[i].time <= now && |ps| > 1 && now - window <= h[i].time <= ps[|ps| - 2].time
    {
      WindowContains(front, now, window, h[i]);
    }
    if |ps| > 1 {
      WindowContains(front, now, window, ps[|ps| - 2]);
      assert front[|front| - 1] == ps[|ps| - 2];
    }
    if h != [] {
      GapIsToLatestEarlier(h, last);
    }
  }

  // ---- the batch computation ----

  /** How many of `ts` lie in the window that ends at `now`. */
  function CountInWindow(ts: seq<real>, now: real, window: real): nat {
    if ts == [] then 0
    else CountInWindow(ts[..|ts| - 1], now, window) + (if 0.0 <= now - ts[|ts| - 1] <= window then 1 else 0)
  }

  /** Row sums of the comparison matrix, the array expression of the source. */
  function VelocityMatrix(ts: seq<real>, window: real): (r: seq<nat>)
    ensures |r| == |ts|
  {
    seq(|ts|, i requires 0 <= i < |ts| => CountInWindow(ts, ts[i], window))
  }

  lemma {:induction false} WindowIsCounted(ps: seq<Point>, now: real, window: real)
    ensures |InWindow(ps, now, window)| == CountInWindow(Times(ps), now, window)
  {
    if ps != [] {
      var front := ps[..|ps| - 1];
      WindowIsCounted(front, now, window);
      assert Times(ps)[..|ps| - 1] == Times(front);
    }
  }

  /** The incremental count is the batch velocity of the log at its last index. */
  lemma IncrementalMatchesBatch(ps: seq<Point>, window: real)
    requires ps != [] && window >= 0.0 && NonDecreasing(ps)
    ensures FeaturesOf(Kept(ps, window), ps[|ps| - 1].time).count == VelocityMatrix(Times(ps), window)[|ps| - 1]
  {
    IncrementalMatchesLog(ps, window);
    WindowIsCounted(ps, ps[|ps| - 1].time, window);
  }

  /** The inner loop shared by the two compiled functions. */
  method CountRow(timestamps: array<real>, i: nat, window: real) returns (count: nat)
    requires i < timestamps.Length
    ensures count == CountInWindow(timestamps[..], timestamps[i], window)
  {
    count := 0;
    for j := 0 to timestamps.Length
      invariant count == CountInWindow(timestamps[..j], timestamps[i], window)
    {
      assert timestamps[..j + 1][..j] == timestamps[..j];
      var diff := timestamps[i] - timestamps[j];
      if 0.0 <= diff <= window {
        count := count + 1;
      }
    }
    assert timestamps[..timestamps.Length] == timestamps[..];
  }

  /** The compiled velocity loop agrees with the array expression. */
  method ComputeVelocity(timestamps: array<real>, window: real) returns (counts: array<nat>)
    ensures fresh(counts) && counts[..] == VelocityMatrix(timestamps[..], window)
  {
    var n := timestamps.Length;
    counts := new nat[n];
    for i := 0 to n
      invariant forall k :: 0 <= k < i ==> counts[k] == CountInWindow(timestamps[..], timestamps[k], window)
    {
      counts[i] := CountRow(timestamps, i, window);
    }
  }

  /** A burst is flagged exactly where the velocity reaches the threshold. */
  method DetectBurst(timestamps: array<real>, window: real, threshold: int) returns (burst: array<bool>)
    ensures fresh(burst) && burst.Length == timestamps.Length
    ensures forall i :: 0 <= i < burst.Length ==> (burst[i] <==> VelocityMatrix(timestamps[..], window)[i] >= threshold)
  {
    var n := timestamps.Length;
    burst := new bool[n](_ => false);
    for i := 0 to n
      invariant forall k :: i <= k < n ==> !burst[k]
      invariant forall k :: 0 <= k < i ==>
        (burst[k] <==> CountInWindow(timestamps[..], timestamps[k], window) >= threshold)
    {
      var count := CountRow(timestamps, i, window);
      if count >= threshold {
        burst[i] := true;
      }
    }
  }

  // ---- the feature engineer ----

  type Histories = map<Address, seq<Point>>

  /** `_update_history` as a function of the history dictionary. */
  function Recorded(hs: Histories, a: Address, p: Point, window: real): Histories {
    hs[a := Since(HistoryOf(hs, a) + [p], p.time - window)]
  }

  datatype Event = Event(from: Address, point: Point)

  /** The full log of one address. */
  function LogOf(log: seq<Event>, a: Address): seq<Point> {
    if log == [] then []
    else LogOf(log[..|log| - 1], a) + (if log[|log| - 1].from == a then [log[|log| - 1].point] else [])
  }

  lemma {:induction false} SinceIsStable(ps: seq<Point>, c: real)
    ensures Since(Since(ps, c), c) == Since(ps, c)
  {
    SinceTwice(ps, c, c);
  }

  function HistoryOf(hs: Histories, a: Address): seq<Point> {
    if a in hs then hs[a] else []
  }

  /** Every address's stored history is what pruning keeps of its full log. */
  ghost predicate Summarises(hs: Histories, log: seq<Event>, window: real) {
    forall a :: HistoryOf(hs, a) == Kept(LogOf(log, a), window)
  }

  lemma LogStep(log: seq<Event>, e: Event, a: Address)
    ensures LogOf(log + [e], a) == LogOf(log, a) + (if e.from == a then [e.point] else [])
  {
    assert (log + [e])[..|log|] == log;
  }

  lemma RecordedSummarises(hs: Histories, log: seq<Event>, a: Address, p: Point, window: real)
    requires Summarises(hs, log, window)
    ensures Summarises(Recorded(hs, a, p, window), log + [Event(a, p)], window)
    ensures Since(Recorded(hs, a, p, window)[a], p.time - window) == Kept(LogOf(log + [Event(a, p)], a), window)
  {
    hide Kept, Since, LogOf;
    KeptStep(LogOf(log, a), p, window);
    SinceIsStable(HistoryOf(hs, a) + [p], p.time - window);
    forall b
      ensures HistoryOf(Recorded(hs, a, p, window), b) == Kept(LogOf(log + [Event(a, p)], b), window)
    {
      LogStep(log, Event(a, p), b);
      assert b != a ==> LogOf(log, b) + [] == LogOf(log, b);
      assert HistoryOf(hs, b) == Kept(LogOf(log, b), window);
    }
  }

  class FeatureEngineer {
    const historyWindow: real
    var addressHistory: Histories
    /** Every transaction extracted so far, unpruned. */
    ghost var log: seq<Event>

    ghost predicate Valid()
      reads this
    {
      Summarises(addressHistory, log, historyWindow)
    }

    constructor (window: real)
      ensures Valid() && historyWindow == window && log == []
    {
      historyWindow, addressHistory, log := window, map[], [];
    }

    /** Records the transaction and computes its velocity features from the pruned history. */
    method Extract(from: Address, timestamp: real, value: real) returns (f: Features)
      requires Valid()
      modifies this
      ensures Valid() && log == old(log) + [Event(from, Point(timestamp, value))]
      ensures addressHistory == Recorded(old(addressHistory), from, Point(timestamp, value), historyWindow)
      ensures f == FeaturesOf(Kept(LogOf(log, from), historyWindow), timestamp)
    {
      hide Kept, Since, LogOf, FeaturesOf, Summarises;
      var p := Point(timestamp, value);
      RecordedSummarises(addressHistory, log, from, p, historyWindow);
      addressHistory := UpdateHistory(from, p);
      log := log + [Event(from, p)];
      var history := Since(addressHistory[from], timestamp - historyWindow);
      f := FeaturesOf(history, timestamp);
    }

    /** Appends the transaction and prunes the history of its sender. */
    method UpdateHistory(a: Address, p: Point) returns (hs: Histories)
      ensures hs == Recorded(addressHistory, a, p, historyWindow) && a in hs
    {
      hs := addressHistory;
      if a !in hs {
        hs := hs[a := []];
      }
      hs := hs[a := hs[a] + [p]];
      hs := hs[a := Since(hs[a], p.time - historyWindow)];
    }
  }
}
