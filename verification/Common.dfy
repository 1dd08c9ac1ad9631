/** Definitions shared by the modules of the model. */
module Common {

  /** A wallet address.  The empty string and, for a recipient, None, both of
      which the code tests with `if to_addr`, are `NoAddress`. */
  datatype Address = NoAddress | Wallet(name: string)

  datatype Option<+T> = None | Some(value: T)

  function Min(a: real, b: real): real {
    if a <= b then a else b
  }

  function Max(a: real, b: real): real {
    if a >= b then a else b
  }

  /** No element occurs twice. */
  ghost predicate Distinct<T>(s: seq<T>) {
    forall i, j :: 0 <= i < j < |s| ==> s[i] != s[j]
  }

  function Elements<T>(s: seq<T>): set<T> {
    set x | x in s
  }

  lemma {:induction false} DistinctSize<T>(s: seq<T>)
    requires Distinct(s)
    ensures |Elements(s)| == |s|
  {
    if s != [] {
      var front, last := s[..|s| - 1], s[|s| - 1];
      DistinctSize(front);
      assert last !in front;
      assert Elements(s) == Elements(front) + {last};
    }
  }

  lemma SubsetSize<T>(a: set<T>, b: set<T>)
    requires a <= b
    ensures |a| <= |b|
  {
    assert b == a + (b - a);
  }

  /** Left fold: the state reached by feeding `ts` to `step`, first to last. */
  function Fold<S, T>(step: (S, T) -> S, s: S, ts: seq<T>): S
    decreases |ts|
  {
    if ts == [] then s else step(Fold(step, s, ts[..|ts| - 1]), ts[|ts| - 1])
  }

  ghost predicate Commutes<S(!new), T(!new)>(step: (S, T) -> S) {
    forall s, a, b :: step(step(s, a), b) == step(step(s, b), a)
  }

  lemma Swap<S(!new), T(!new)>(step: (S, T) -> S, s: S, a: T, b: T)
    requires Commutes(step)
    ensures step(step(s, a), b) == step(step(s, b), a)
  {
  }

  lemma {:induction false} FoldMovesToEnd<S(!new), T(!new)>(step: (S, T) -> S, s: S, ts: seq<T>, i: nat)
    requires Commutes(step) && i < |ts|
    ensures Fold(step, s, ts) == step(Fold(step, s, ts[..i] + ts[i + 1..]), ts[i])
    decreases |ts|
  {
    hide Commutes;
    var last := |ts| - 1;
    var front, rest := ts[..last], ts[..i] + ts[i + 1..];
    if i == last {
      assert rest == front;
    } else {
      var frontRest := front[..i] + front[i + 1..];
      assert rest == frontRest + [ts[last]];
      assert rest[..|rest| - 1] == frontRest;
      FoldMovesToEnd(step, s, front, i);
      Swap(step, Fold(step, s, frontRest), ts[i], ts[last]);
    }
  }

  /** A permutation of `ts` holds its last element somewhere; without it, the rest permute each other. */
  lemma FindLast<T>(ts: seq<T>, us: seq<T>) returns (i: nat)
    requires ts != [] && multiset(ts) == multiset(us)
    ensures i < |us| && us[i] == ts[|ts| - 1]
    ensures multiset(ts[..|ts| - 1]) == multiset(us[..i] + us[i + 1..])
  {
    var x := ts[|ts| - 1];
    assert ts == ts[..|ts| - 1] + [x];
    assert x in multiset(us);
    i :| 0 <= i < |us| && us[i] == x;
    assert us == us[..i] + [x] + us[i + 1..];
    assert multiset(us[..i] + us[i + 1..]) == multiset(us) - multiset{x};
  }

  /** Taking out one element of a sequence takes one copy out of its multiset. */
  lemma RemoveOne<T>(s: seq<T>, i: nat)
    requires i < |s|
    ensures multiset(s) == multiset(s[..i] + s[i + 1..]) + multiset{s[i]}
  {
    assert s == s[..i] + [s[i]] + s[i + 1..];
  }

  lemma SameLength<T>(ts: seq<T>, us: seq<T>)
    requires multiset(ts) == multiset(us)
    ensures |ts| == |us|
  {
    assert |ts| == |multiset(ts)| == |multiset(us)| == |us|;
  }

  /** A fold whose step commutes sees only the multiset of its inputs. */
  lemma {:induction false} FoldPermutes<S(!new), T(!new)>(step: (S, T) -> S, s: S, ts: seq<T>, us: seq<T>)
    requires Commutes(step) && multiset(ts) == multiset(us)
    ensures Fold(step, s, ts) == Fold(step, s, us)
    decreases |ts|
  {
    hide Commutes;
    SameLength(ts, us);
    if ts != [] {
      var i := FindLast(ts, us);
      FoldPermutes(step, s, ts[..|ts| - 1], us[..i] + us[i + 1..]);
      FoldMovesToEnd(step, s, us, i);
    }
  }
}
