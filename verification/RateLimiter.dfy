/** The sliding-window limiter of `src/api/middleware/rate_limiter.py`. */
module RateLimiter {
  /** Limit and window in seconds by path prefix; the first matching prefix counts. */
  const RATE_LIMITS: seq<(string, int, real)> := [
    ("/auth/token", 10, 60.0),
    ("/scan/contract", 10, 60.0),
    ("/analyze/wallet", 30, 60.0),
    ("/analyze/transaction", 30, 60.0),
    ("/alerts", 100, 60.0),
    ("/graph", 50, 60.0)
  ]

  const DEFAULT_LIMIT: (int, real) := (200, 60.0)

  ghost predicate NoneBefore(path: string, i: nat)
    requires i <= |RATE_LIMITS|
  {
    forall j :: 0 <= j < i ==> !(RATE_LIMITS[j].0 <= path)
  }

  /** The limit and window of the first prefix of `path` in the table. */
  method GetLimit(path: string) returns (limit: int, window: real)
    ensures NoneBefore(path, |RATE_LIMITS|) ==> (limit, window) == DEFAULT_LIMIT
    ensures forall i :: 0 <= i < |RATE_LIMITS| && RATE_LIMITS[i].0 <= path && NoneBefore(path, i) ==>
      limit == RATE_LIMITS[i].1 && window == RATE_LIMITS[i].2
    ensures limit >= 1 && window > 0.0
  {
    for i := 0 to |RATE_LIMITS|
      invariant NoneBefore(path, i)
    {
      if RATE_LIMITS[i].0 <= path {
        return RATE_LIMITS[i].1, RATE_LIMITS[i].2;
      }
    }
    return DEFAULT_LIMIT.0, DEFAULT_LIMIT.1;
  }

  /** The times after `start`. */
  function Newer(ts: seq<real>, start: real): seq<real> {
    if ts == [] then []
    else Newer(ts[..|ts| - 1], start) + (if ts[|ts| - 1] > start then [ts[|ts| - 1]] else [])
  }

  /** What `_windows` holds for a key after requests at `ts`: expired entries are
      dropped at every request, and the request is added if there is room. */
  function Stored(ts: seq<real>, limit: int, window: real): seq<real> {
    if ts == [] then []
    else
      var now := ts[|ts| - 1];
      var live := Newer(Stored(ts[..|ts| - 1], limit, window), now - window);
      if |live| >= limit then live else live + [now]
  }

  /** All accepted times, never pruned, under the rule the limiter stands for:
      refuse a request when `limit` were accepted within the last `window`. */
  function Accepted(ts: seq<real>, limit: int, window: real): seq<real> {
    if ts == [] then []
    else
      var now := ts[|ts| - 1];
      var before := Accepted(ts[..|ts| - 1], limit, window);
      if |Newer(before, now - window)| >= limit then before else before + [now]
  }

  /** The positions of the times less than `window` before `now`. */
  function Recent(ts: seq<real>, now: real, window: real): set<nat> {
    set i: nat | i < |ts| && now - ts[i] < window
  }

  lemma {:induction false} NewerIsRecent(ts: seq<real>, now: real, window: real)
    ensures |Newer(ts, now - window)| == |Recent(ts, now, window)|
  {
    if ts == [] {
      assert Recent(ts, now, window) == {};
    } else {
      var n := |ts| - 1;
      NewerIsRecent(ts[..n], now, window);
      assert n !in Recent(ts[..n], now, window);
      if now - ts[n] < window {
        assert Recent(ts, now, window) == Recent(ts[..n], now, window) + {n};
      } else {
        assert Recent(ts, now, window) == Recent(ts[..n], now, window);
      }
    }
  }

  /** A request is accepted exactly if fewer than `limit` of the accepted ones are
      less than `window` old. */
  lemma AcceptedIffRoom(ts: seq<real>, limit: int, window: real, now: real)
    ensures var before := Accepted(ts, limit, window);
            Accepted(ts + [now], limit, window)
            == if |Recent(before, now, window)| < limit then before + [now] else before
  {
    assert (ts + [now])[..|ts|] == ts;
    NewerIsRecent(Accepted(ts, limit, window), now, window);
    hide Newer, Recent;
  }

  ghost predicate Ordered(ts: seq<real>) {
    forall i, j :: 0 <= i <= j < |ts| ==> ts[i] <= ts[j]
  }

  lemma OrderedParts(ts: seq<real>)
    requires Ordered(ts) && ts != []
    ensures Ordered(ts[..|ts| - 1])
    ensures |ts| > 1 ==> ts[|ts| - 2] <= ts[|ts| - 1]
  {
  }

  lemma NewerAppend(ts: seq<real>, t: real, start: real)
    ensures Newer(ts + [t], start) == Newer(ts, start) + (if t > start then [t] else [])
  {
    assert (ts + [t])[..|ts|] == ts;
  }

  lemma {:induction false} NewerTwice(ts: seq<real>, c: real, d: real)
    requires c <= d
    ensures Newer(Newer(ts, c), d) == Newer(ts, d)
  {
    if ts != [] {
      var front, last := ts[..|ts| - 1], ts[|ts| - 1];
      NewerTwice(front, c, d);
      NewerAppend(Newer(front, c), last, d);
      if last <= c {
        assert Newer(ts, c) == Newer(front, c) && Newer(ts, d) == Newer(front, d);
      }
    }
  }

  /** Pruning changes no decision: the stored list is always the accepted times
      of the last window. */
  lemma {:induction false} StoredIsRecentlyAccepted(ts: seq<real>, limit: int, window: real)
    requires Ordered(ts) && ts != [] && window > 0.0
    ensures Stored(ts, limit, window) == Newer(Accepted(ts, limit, window), ts[|ts| - 1] - window)
  {
    hide Ordered, Newer;
    OrderedParts(ts);
    var front, now := ts[..|ts| - 1], ts[|ts| - 1];
    var before := Accepted(front, limit, window);
    if front != [] {
      StoredIsRecentlyAccepted(front, limit, window);
      NewerTwice(before, front[|front| - 1] - window, now - window);
    }
    NewerAppend(before, now, now - window);
  }

  lemma {:induction false} AcceptedAreOrdered(ts: seq<real>, limit: int, window: real)
    requires Ordered(ts)
    ensures var a := Accepted(ts, limit, window);
            Ordered(a) && (ts == [] ==> a == []) && forall i :: 0 <= i < |a| ==> a[i] <= ts[|ts| - 1]
  {
    if ts != [] {
      OrderedParts(ts);
      hide Newer;
      AcceptedAreOrdered(ts[..|ts| - 1], limit, window);
    }
  }

  /** A tail of an ordered list that lies after `start` is part of its newer entries. */
  lemma {:induction false} TailIsNewer(a: seq<real>, k: nat, start: real)
    requires Ordered(a) && k <= |a| && (k < |a| ==> a[k] > start)
    ensures |Newer(a, start)| >= |a| - k
  {
    if k < |a| {
      var front := a[..|a| - 1];
      assert a[k] <= a[|a| - 1];
      TailIsNewer(front, k, start);
    }
  }

  /** Among any `limit` + 1 consecutive accepted requests, the last comes at least `window` after the first. */
  lemma {:induction false} AcceptedAreSpaced(ts: seq<real>, limit: nat, window: real, k: nat)
    requires Ordered(ts) && k + limit < |Accepted(ts, limit, window)|
    ensures var a := Accepted(ts, limit, window);
            a[k + limit] - a[k] >= window
  {
    OrderedParts(ts);
    hide Newer;
    var front, now := ts[..|ts| - 1], ts[|ts| - 1];
    var before := Accepted(front, limit, window);
    if k + limit < |before| {
      AcceptedAreSpaced(front, limit, window, k);
    } else {
      AcceptedAreOrdered(front, limit, window);
      if limit > 0 && before[k] > now - window {
        TailIsNewer(before, k, now - window);
      }
    }
  }

  // ---- many keys ----

  type Windows = map<string, seq<real>>

  datatype Request = Request(key: string, now: real)

  /** The limit and window of each key. */
  type Policy = string -> (int, real)

  function EntriesOf(ws: Windows, key: string): seq<real> {
    if key in ws then ws[key] else []
  }

  /** `_check_rate_limit` as a function of the dictionary. */
  function Checked(ws: Windows, key: string, limit: int, window: real, now: real): Windows {
    var live := Newer(EntriesOf(ws, key), now - window);
    ws[key := if |live| >= limit then live else live + [now]]
  }

  function WindowsAfter(rs: seq<Request>, policy: Policy): Windows {
    if rs == [] then map[]
    else
      var r := rs[|rs| - 1];
      Checked(WindowsAfter(rs[..|rs| - 1], policy), r.key, policy(r.key).0, policy(r.key).1, r.now)
  }

  /** The request times of one key. */
  function TimesOf(rs: seq<Request>, key: string): seq<real> {
    if rs == [] then []
    else TimesOf(rs[..|rs| - 1], key) + (if rs[|rs| - 1].key == key then [rs[|rs| - 1].now] else [])
  }

  /** A key's entries, and so its decisions, depend on that key's requests only. */
  lemma {:induction false} KeysAreIndependent(rs: seq<Request>, policy: Policy, key: string)
    ensures EntriesOf(WindowsAfter(rs, policy), key) == Stored(TimesOf(rs, key), policy(key).0, policy(key).1)
  {
    hide Stored, Newer, Checked, EntriesOf;
    if rs == [] {
      NothingYet(policy(key).0, policy(key).1);
      NoEntries(key);
    } else {
      var front, r := rs[..|rs| - 1], rs[|rs| - 1];
      KeysAreIndependent(front, policy, key);
      CheckedEntries(WindowsAfter(front, policy), r.key, policy(r.key).0, policy(r.key).1, r.now, key);
      StoredStep(TimesOf(front, key), r.now, policy(key).0, policy(key).1);
      assert TimesOf(front, key) + [] == TimesOf(front, key);
    }
  }

  lemma NoEntries(key: string)
    ensures EntriesOf(map[], key) == []
  {
  }

  lemma CheckedEntries(ws: Windows, k: string, limit: int, window: real, now: real, key: string)
    ensures var live := Newer(EntriesOf(ws, k), now - window);
            EntriesOf(Checked(ws, k, limit, window, now), key)
            == if k != key then EntriesOf(ws, key) else if |live| >= limit then live else live + [now]
  {
  }

  lemma StoredStep(ts: seq<real>, now: real, limit: int, window: real)
    ensures var live := Newer(Stored(ts, limit, window), now - window);
            Stored(ts + [now], limit, window) == if |live| >= limit then live else live + [now]
  {
    assert (ts + [now])[..|ts|] == ts;
  }

  /** For every run of requests over all keys, the next request of a key is
      refused exactly when `limit` of its requests were accepted in the window before it. */
  lemma DecisionIsExact(rs: seq<Request>, policy: Policy, key: string, now: real)
    requires policy(key).1 > 0.0 && Ordered(TimesOf(rs, key))
    requires TimesOf(rs, key) != [] ==> TimesOf(rs, key)[|TimesOf(rs, key)| - 1] <= now
    ensures var (limit, window) := policy(key);
            |Newer(EntriesOf(WindowsAfter(rs, policy), key), now - window)|
            == |Recent(Accepted(TimesOf(rs, key), limit, window), now, window)|
  {
    NewerIsRecent(Accepted(TimesOf(rs, key), policy(key).0, policy(key).1), now, policy(key).1);
    hide Recent;
    hide Newer, Ordered, Stored, Accepted, TimesOf, WindowsAfter, EntriesOf;
    var (limit, window) := policy(key);
    var ts := TimesOf(rs, key);
    KeysAreIndependent(rs, policy, key);
    if ts == [] {
      NothingYet(limit, window);
    } else {
      StoredIsRecentlyAccepted(ts, limit, window);
      NewerTwice(Accepted(ts, limit, window), ts[|ts| - 1] - window, now - window);
    }
  }

  lemma NothingYet(limit: int, window: real)
    ensures Stored([], limit, window) == Accepted([], limit, window) == []
  {
  }

  class Limiter {
    var windows: Windows

    constructor ()
      ensures windows == map[]
    {
      windows := map[];
    }

    /** Decides one request and records it if accepted. */
    method CheckRateLimit(key: string, limit: int, window: real, now: real) returns (allowed: bool, remaining: int)
      modifies this
      ensures windows == Checked(old(windows), key, limit, window, now)
      ensures allowed <==> |Newer(EntriesOf(old(windows), key), now - window)| < limit
      ensures remaining == if allowed then limit - |windows[key]| else 0
    {
      var windowStart := now - window;
      var entries := if key in windows then windows[key] else [];
      entries := Newer(entries, windowStart);
      var count := |entries|;
      remaining := if limit - count > 0 then limit - count else 0;
      if count >= limit {
        windows := windows[key := entries];
        return false, 0;
      }
      windows := windows[key := entries + [now]];
      return true, remaining - 1;
    }
  }
}
