/** The alert store of `src/response/alert_manager.py`. */
module AlertManager {
  import opened Common
  import opened RiskScorer

  /** The part of a risk assessment that the store looks at. */
  datatype Report = Report(address: Address, score: real, value: real, action: Tier)

  datatype Alert = Alert(
    report: Report,
    createdAt: real,
    updatedAt: real,
    updates: nat,
    acknowledgedBy: Option<string>)

  /** Priority of an alert at a time; the decay formula is not looked into. */
  type Priority = (Alert, real) -> real

  /** `alerts` is the dictionary in insertion order; its keys are the addresses.
      `queue` lists the alerts pushed, by address.  `evicted`, `calls` and `peak`
      record the run: evicted alerts, calls of `add_or_update`, and the largest
      number of EMERGENCY alerts stored at once. */
  datatype Store = Store(
    alerts: seq<Alert>,
    queue: seq<Address>,
    created: nat,
    deduplicated: nat,
    evicted: seq<Alert>,
    calls: nat,
    peak: nat)

  const EMPTY := Store([], [], 0, 0, [], 0, 0)

  predicate Critical(x: Alert) {
    x.report.action == Emergency
  }

  function CriticalCount(alerts: seq<Alert>): nat {
    if alerts == [] then 0
    else CriticalCount(alerts[..|alerts| - 1]) + (if Critical(alerts[|alerts| - 1]) then 1 else 0)
  }

  function Refreshed(x: Alert, r: Report, now: real): Alert {
    x.(report := r, updatedAt := now, updates := x.updates + 1)
  }

  /** The first position holding `a`, or the length. */
  function IndexOf(alerts: seq<Alert>, a: Address): (i: nat)
    ensures i <= |alerts|
    ensures i < |alerts| ==> alerts[i].report.address == a
    ensures forall k :: 0 <= k < i ==> alerts[k].report.address != a
  {
    if alerts == [] then 0
    else if alerts[0].report.address == a then 0
    else 1 + IndexOf(alerts[1..], a)
  }

  /** `k` is the first non-EMERGENCY alert of least priority. */
  ghost predicate IsVictim(alerts: seq<Alert>, prio: Priority, now: real, k: nat) {
    && k < |alerts| && !Critical(alerts[k])
    && (forall i :: 0 <= i < |alerts| && !Critical(alerts[i]) ==> prio(alerts[k], now) <= prio(alerts[i], now))
    && (forall i :: 0 <= i < k && !Critical(alerts[i]) ==> prio(alerts[k], now) < prio(alerts[i], now))
  }

  function Without<T>(s: seq<T>, k: nat): seq<T>
    requires k < |s|
  {
    s[..k] + s[k + 1..]
  }

  /** The loop of `min` over the non-EMERGENCY alerts: the position of the first of least priority. */
  function Victim(alerts: seq<Alert>, prio: Priority, now: real): (v: Option<nat>)
    ensures v.Some? ==> v.value < |alerts|
  {
    if alerts == [] then None
    else
      var front, last := alerts[..|alerts| - 1], alerts[|alerts| - 1];
      var v := Victim(front, prio, now);
      if Critical(last) then v
      else if v.None? || prio(last, now) < prio(front[v.value], now) then Some(|front|)
      else v
  }

  lemma {:induction false} VictimIsLeast(alerts: seq<Alert>, prio: Priority, now: real)
    ensures var v := Victim(alerts, prio, now);
            if v.Some? then IsVictim(alerts, prio, now, v.value)
            else forall i :: 0 <= i < |alerts| ==> Critical(alerts[i])
  {
    if alerts != [] {
      var front, last := alerts[..|alerts| - 1], alerts[|alerts| - 1];
      VictimIsLeast(front, prio, now);
      forall i | 0 <= i < |alerts|
        ensures alerts[i] == (if i < |front| then front[i] else last)
      {
      }
    }
  }

  function Peak(before: nat, alerts: seq<Alert>): nat {
    if CriticalCount(alerts) > before then CriticalCount(alerts) else before
  }

  /** `_evict_lowest_priority`, when the store is over its limit. */
  function Trimmed(s: Store, maxAlerts: int, prio: Priority, now: real): Store {
    var v := Victim(s.alerts, prio, now);
    if |s.alerts| <= maxAlerts || v.None? then s
    else s.(alerts := Without(s.alerts, v.value), evicted := s.evicted + [s.alerts[v.value]])
  }

  /** The alert of a known address replaced in place. */
  function Updated(s: Store, i: nat, r: Report, now: real): Store
    requires i < |s.alerts|
  {
    var alerts := s.alerts[i := Refreshed(s.alerts[i], r, now)];
    s.(alerts := alerts, deduplicated := s.deduplicated + 1, calls := s.calls + 1, peak := Peak(s.peak, alerts))
  }

  /** A new alert appended. */
  function Grown(s: Store, r: Report, now: real): Store {
    var alerts := s.alerts + [Alert(r, now, now, 0, None)];
    s.(alerts := alerts, queue := s.queue + [r.address], created := s.created + 1, calls := s.calls + 1,
       peak := Peak(s.peak, alerts))
  }

  /** `add_or_update`. */
  function Added(s: Store, maxAlerts: int, prio: Priority, r: Report, now: real): Store {
    var i := IndexOf(s.alerts, r.address);
    if i < |s.alerts| then Updated(s, i, r, now) else Trimmed(Grown(s, r, now), maxAlerts, prio, now)
  }

  /** `acknowledge` marks the alert of an address, if there is one. */
  function Acknowledged(s: Store, a: Address, analyst: string): Store {
    var i := IndexOf(s.alerts, a);
    if i == |s.alerts| then s
    else s.(alerts := s.alerts[i := s.alerts[i].(acknowledgedBy := Some(analyst))])
  }

  // ---- invariants of every run ----

  ghost predicate DistinctAddresses(alerts: seq<Alert>) {
    forall i, j :: 0 <= i < j < |alerts| ==> alerts[i].report.address != alerts[j].report.address
  }

  function Bound(maxAlerts: int, peak: nat): int {
    if maxAlerts > peak then maxAlerts else peak
  }

  /** One alert per address, the capacity bound, and the bookkeeping of every call. */
  ghost predicate Inv(s: Store, maxAlerts: int) {
    && DistinctAddresses(s.alerts)
    && |s.alerts| <= Bound(maxAlerts, s.peak)
    && CriticalCount(s.alerts) <= s.peak
    && s.created == |s.alerts| + |s.evicted| == |s.queue|
    && s.created + s.deduplicated == s.calls
    && (forall i :: 0 <= i < |s.evicted| ==> !Critical(s.evicted[i]))
  }

  lemma {:induction false} CriticalAtMostAll(alerts: seq<Alert>)
    ensures CriticalCount(alerts) <= |alerts|
    ensures CriticalCount(alerts) == |alerts| <==> forall i :: 0 <= i < |alerts| ==> Critical(alerts[i])
  {
    if alerts != [] {
      CriticalAtMostAll(alerts[..|alerts| - 1]);
    }
  }

  lemma {:induction false} CriticalSplit(a: seq<Alert>, b: seq<Alert>)
    ensures CriticalCount(a + b) == CriticalCount(a) + CriticalCount(b)
  {
    if b == [] {
      assert a + b == a;
    } else {
      CriticalSplit(a, b[..|b| - 1]);
      assert (a + b)[..|a + b| - 1] == a + b[..|b| - 1];
    }
  }

  /** The positions of the EMERGENCY alerts. */
  function Emergencies(alerts: seq<Alert>): set<nat> {
    set i: nat | i < |alerts| && alerts[i].report.action == Emergency
  }

  lemma {:induction false} CriticalCountIsCensus(alerts: seq<Alert>)
    ensures CriticalCount(alerts) == |Emergencies(alerts)|
  {
    if alerts == [] {
      assert Emergencies(alerts) == {};
    } else {
      var n := |alerts| - 1;
      CriticalCountIsCensus(alerts[..n]);
      assert Emergencies(alerts) == Emergencies(alerts[..n]) + (if alerts[n].report.action == Emergency then {n} else {});
      assert n !in Emergencies(alerts[..n]);
    }
  }

  lemma NoneCritical(x: Alert)
    requires !Critical(x)
    ensures CriticalCount([x]) == 0
  {
    assert [x][..0] == [];
  }

  lemma CriticalWithout(alerts: seq<Alert>, k: nat)
    requires k < |alerts| && !Critical(alerts[k])
    ensures CriticalCount(Without(alerts, k)) == CriticalCount(alerts)
  {
    hide CriticalCount;
    NoneCritical(alerts[k]);
    var front, back := alerts[..k], alerts[k + 1..];
    CriticalSplit(front, back);
    CriticalSplit(front, [alerts[k]]);
    CriticalSplit(front + [alerts[k]], back);
    assert alerts == front + [alerts[k]] + back;
  }

  lemma CriticalSame(alerts: seq<Alert>, i: nat, x: Alert)
    requires i < |alerts| && Critical(x) == Critical(alerts[i])
    ensures CriticalCount(alerts[i := x]) == CriticalCount(alerts)
  {
    CriticalSplit(alerts[..i], [alerts[i]]);
    CriticalSplit(alerts[..i], [x]);
    CriticalSplit(alerts[..i] + [alerts[i]], alerts[i + 1..]);
    CriticalSplit(alerts[..i] + [x], alerts[i + 1..]);
    assert alerts == alerts[..i] + [alerts[i]] + alerts[i + 1..];
    assert alerts[i := x] == alerts[..i] + [x] + alerts[i + 1..];
    assert [alerts[i]][..0] == [] && [x][..0] == [];
  }

  lemma UpdateKeeps(s: Store, maxAlerts: int, i: nat, r: Report, now: real)
    requires Inv(s, maxAlerts) && i < |s.alerts| && s.alerts[i].report.address == r.address
    ensures Inv(Updated(s, i, r, now), maxAlerts)
  {
    hide CriticalCount;
  }

  /** A store that is one alert over its bound, as between insertion and eviction. */
  ghost predicate NearlyInv(s: Store, maxAlerts: int) {
    && DistinctAddresses(s.alerts)
    && |s.alerts| <= Bound(maxAlerts, s.peak) + 1
    && CriticalCount(s.alerts) <= s.peak
    && s.created == |s.alerts| + |s.evicted| == |s.queue|
    && s.created + s.deduplicated == s.calls
    && (forall i :: 0 <= i < |s.evicted| ==> !Critical(s.evicted[i]))
  }

  lemma GrownNearly(s: Store, maxAlerts: int, r: Report, now: real)
    requires Inv(s, maxAlerts) && IndexOf(s.alerts, r.address) == |s.alerts|
    ensures NearlyInv(Grown(s, r, now), maxAlerts)
  {
    hide CriticalCount;
  }

  lemma WithoutDistinct(alerts: seq<Alert>, k: nat)
    requires DistinctAddresses(alerts) && k < |alerts|
    ensures DistinctAddresses(Without(alerts, k)) && |Without(alerts, k)| == |alerts| - 1
  {
  }

  lemma TrimmedKeeps(s: Store, maxAlerts: int, prio: Priority, now: real)
    requires NearlyInv(s, maxAlerts)
    ensures Inv(Trimmed(s, maxAlerts, prio, now), maxAlerts)
  {
    hide CriticalCount, Victim, DistinctAddresses, Without, IsVictim;
    CriticalAtMostAll(s.alerts);
    VictimIsLeast(s.alerts, prio, now);
    var v := Victim(s.alerts, prio, now);
    if v.Some? {
      VictimNotCritical(s.alerts, prio, now, v.value);
      CriticalWithout(s.alerts, v.value);
      WithoutDistinct(s.alerts, v.value);
    }
  }

  lemma VictimNotCritical(alerts: seq<Alert>, prio: Priority, now: real, k: nat)
    requires IsVictim(alerts, prio, now, k)
    ensures k < |alerts| && !Critical(alerts[k])
  {
  }

  lemma AddKeeps(s: Store, maxAlerts: int, prio: Priority, r: Report, now: real)
    requires Inv(s, maxAlerts)
    ensures Inv(Added(s, maxAlerts, prio, r, now), maxAlerts)
  {
    hide Inv, NearlyInv, Updated, Grown, Trimmed;
    var i := IndexOf(s.alerts, r.address);
    if i < |s.alerts| {
      UpdateKeeps(s, maxAlerts, i, r, now);
    } else {
      GrownNearly(s, maxAlerts, r, now);
      TrimmedKeeps(Grown(s, r, now), maxAlerts, prio, now);
    }
  }

  /** What a call evicts is not EMERGENCY and, at that time, has no higher
      priority than any non-EMERGENCY alert it leaves. */
  lemma EvictionIsMinimal(s: Store, maxAlerts: int, prio: Priority, r: Report, now: real)
    ensures var t := Added(s, maxAlerts, prio, r, now);
            t.evicted == s.evicted
            || (|t.evicted| == |s.evicted| + 1 && t.evicted[..|s.evicted|] == s.evicted
                && var x := t.evicted[|s.evicted|];
                   x.report.action != Emergency && forall i :: 0 <= i < |t.alerts| && t.alerts[i].report.action != Emergency ==>
                     prio(x, now) <= prio(t.alerts[i], now))
  {
    hide CriticalCount, Victim;
    VictimIsLeast(Grown(s, r, now).alerts, prio, now);
  }

  /** An alert is evicted exactly when a new address meets a full store that has
      something other than EMERGENCY to give up, and nothing else ever leaves the store. */
  lemma EvictsIffFull(s: Store, maxAlerts: int, prio: Priority, r: Report, now: real)
    ensures var t, grown := Added(s, maxAlerts, prio, r, now), s.alerts + [Alert(r, now, now, 0, None)];
            var i := IndexOf(s.alerts, r.address);
            var isNew := i == |s.alerts|;
            && (t.evicted != s.evicted <==>
                  isNew && |s.alerts| >= maxAlerts && exists k :: 0 <= k < |grown| && !Critical(grown[k]))
            && (isNew ==> multiset(t.alerts) + multiset(t.evicted) == multiset(grown) + multiset(s.evicted))
            && (isNew && t.evicted == s.evicted ==> t.alerts == grown)
            && (isNew && t.evicted != s.evicted ==>
                  exists v: nat :: IsVictim(grown, prio, now, v) && t.evicted == s.evicted + [grown[v]]
                                   && t.alerts == grown[..v] + grown[v + 1..])
            && (!isNew ==>
                  var was := s.alerts[i];
                  && t.evicted == s.evicted
                  && t.alerts == s.alerts[i := Alert(r, was.createdAt, now, was.updates + 1, was.acknowledgedBy)])
  {
    hide CriticalCount, Victim, Critical;
    var grown := Grown(s, r, now);
    VictimIsLeast(grown.alerts, prio, now);
    var v := Victim(grown.alerts, prio, now);
    if v.Some? {
      VictimNotCritical(grown.alerts, prio, now, v.value);
      RemoveOne(grown.alerts, v.value);
    }
  }

  /** The stored alert of the reported address carries the new report and time,
      keeps its acknowledgement, and every other stored alert is as before. */
  lemma LatestReportWins(s: Store, maxAlerts: int, prio: Priority, r: Report, now: real, x: Alert)
    requires DistinctAddresses(s.alerts) && x in Added(s, maxAlerts, prio, r, now).alerts
    ensures if x.report.address == r.address then
              var i := IndexOf(s.alerts, r.address);
              if i < |s.alerts| then
                var was := s.alerts[i];
                x == Alert(r, was.createdAt, now, was.updates + 1, was.acknowledgedBy)
              else x == Alert(r, now, now, 0, None)
            else x in s.alerts
  {
    hide CriticalCount, Victim;
    var i := IndexOf(s.alerts, r.address);
    if i < |s.alerts| {
      var k :| 0 <= k < |s.alerts| && s.alerts[i := Refreshed(s.alerts[i], r, now)][k] == x;
      if k != i {
        assert s.alerts[k] == x;
      }
    } else {
      var grown := Grown(s, r, now);
      assert forall y :: y in Trimmed(grown, maxAlerts, prio, now).alerts ==> y in grown.alerts;
    }
  }

  lemma AckKeeps(s: Store, maxAlerts: int, a: Address, analyst: string)
    requires Inv(s, maxAlerts)
    ensures Inv(Acknowledged(s, a, analyst), maxAlerts)
  {
    hide CriticalCount;
    var i := IndexOf(s.alerts, a);
    if i < |s.alerts| {
      CriticalSame(s.alerts, i, Acknowledged(s, a, analyst).alerts[i]);
    }
  }

  /** A run mixes calls of the two operations. */
  datatype Call = Add(report: Report, now: real) | Acknowledge(address: Address, analyst: string)

  function After(calls: seq<Call>, maxAlerts: int, prio: Priority): Store {
    if calls == [] then EMPTY
    else
      Applied(After(calls[..|calls| - 1], maxAlerts, prio), maxAlerts, prio, calls[|calls| - 1])
  }

  function Applied(s: Store, maxAlerts: int, prio: Priority, c: Call): Store {
    match c
    case Add(r, now) => Added(s, maxAlerts, prio, r, now)
    case Acknowledge(a, analyst) => Acknowledged(s, a, analyst)
  }

  /** Over every run the store holds at most max(`max_alerts`, the largest number
      of simultaneous EMERGENCY alerts so far), never evicts an EMERGENCY alert,
      and accounts for every call; `_queue` grows with every alert created. */
  lemma {:induction false} EveryRun(calls: seq<Call>, maxAlerts: int, prio: Priority)
    ensures var s := After(calls, maxAlerts, prio);
            && DistinctAddresses(s.alerts)
            && |s.alerts| <= Bound(maxAlerts, s.peak)
            && (exists k :: CriticalAfter(calls, k, maxAlerts, prio) == Some(s.peak))
            && (forall k: nat :: k <= |calls| ==> CriticalAfter(calls, k, maxAlerts, prio).value <= s.peak)
            && s.created == |s.alerts| + |s.evicted| == |s.queue|
            && s.created + s.deduplicated == s.calls
            && forall i :: 0 <= i < |s.evicted| ==> s.evicted[i].report.action != Emergency
  {
    hide After, CriticalAfter;
    RunKeeps(calls, maxAlerts, prio);
    var k := PeakIsAttained(calls, maxAlerts, prio);
    assert CriticalAfter(calls, k, maxAlerts, prio) == Some(After(calls, maxAlerts, prio).peak);
  }

  /** The number of EMERGENCY alerts stored after the first `k` calls. */
  function CriticalAfter(calls: seq<Call>, k: nat, maxAlerts: int, prio: Priority): (c: Option<nat>)
    ensures k <= |calls| ==> c.Some?
  {
    if k <= |calls| then Some(CriticalCount(After(calls[..k], maxAlerts, prio).alerts)) else None
  }

  /** A call raises the recorded peak to the number of EMERGENCY alerts it leaves, if that is larger. */
  lemma CallPeak(s: Store, maxAlerts: int, prio: Priority, r: Report, now: real, a: Address, analyst: string)
    ensures var t := Added(s, maxAlerts, prio, r, now);
            t.peak == Peak(s.peak, t.alerts)
    ensures var t := Acknowledged(s, a, analyst);
            t.peak == s.peak && CriticalCount(t.alerts) == CriticalCount(s.alerts)
  {
    var grown := Grown(s, r, now);
    VictimIsLeast(grown.alerts, prio, now);
    hide CriticalCount, Victim, Critical;
    var v := Victim(grown.alerts, prio, now);
    if v.Some? {
      VictimNotCritical(grown.alerts, prio, now, v.value);
      CriticalWithout(grown.alerts, v.value);
    }
    var i := IndexOf(s.alerts, a);
    if i < |s.alerts| {
      SameWhenAcknowledged(s.alerts, i, analyst);
    }
  }

  lemma SameWhenAcknowledged(alerts: seq<Alert>, i: nat, analyst: string)
    requires i < |alerts|
    ensures CriticalCount(alerts[i := alerts[i].(acknowledgedBy := Some(analyst))]) == CriticalCount(alerts)
  {
    CriticalSame(alerts, i, alerts[i].(acknowledgedBy := Some(analyst)));
  }

  /** The recorded peak is the largest number of EMERGENCY alerts after any prefix of the run. */
  lemma {:induction false} PeakIsAttained(calls: seq<Call>, maxAlerts: int, prio: Priority) returns (k: nat)
    ensures k <= |calls|
    ensures CriticalAfter(calls, k, maxAlerts, prio) == Some(After(calls, maxAlerts, prio).peak)
    ensures forall j: nat :: j <= |calls| ==>
      CriticalAfter(calls, j, maxAlerts, prio).value <= After(calls, maxAlerts, prio).peak
  {
    hide After, CriticalAfter, CriticalCount;
    if calls == [] {
      k := 0;
      NoCallsYet(calls, maxAlerts, prio);
    } else {
      var n := |calls| - 1;
      k := PeakIsAttained(calls[..n], maxAlerts, prio);
      LastCallPeak(calls, maxAlerts, prio);
      forall j: nat | j <= n {
        SamePrefix(calls, j, maxAlerts, prio);
      }
      WholeRun(calls, maxAlerts, prio);
      if CriticalCount(After(calls, maxAlerts, prio).alerts) > After(calls[..n], maxAlerts, prio).peak {
        k := |calls|;
      }
    }
  }

  lemma NoCallsYet(calls: seq<Call>, maxAlerts: int, prio: Priority)
    requires calls == []
    ensures CriticalAfter(calls, 0, maxAlerts, prio) == Some(After(calls, maxAlerts, prio).peak)
  {
  }

  lemma SamePrefix(calls: seq<Call>, j: nat, maxAlerts: int, prio: Priority)
    requires j < |calls|
    ensures CriticalAfter(calls, j, maxAlerts, prio) == CriticalAfter(calls[..|calls| - 1], j, maxAlerts, prio)
  {
    hide After, CriticalCount;
    assert calls[..|calls| - 1][..j] == calls[..j];
  }

  lemma WholeRun(calls: seq<Call>, maxAlerts: int, prio: Priority)
    ensures CriticalAfter(calls, |calls|, maxAlerts, prio) == Some(CriticalCount(After(calls, maxAlerts, prio).alerts))
  {
    hide After, CriticalCount;
    assert calls[..|calls|] == calls;
  }

  lemma LastCallPeak(calls: seq<Call>, maxAlerts: int, prio: Priority)
    requires calls != []
    ensures var s, t := After(calls[..|calls| - 1], maxAlerts, prio), After(calls, maxAlerts, prio);
            t.peak == Peak(s.peak, t.alerts)
  {
    var s := After(calls[..|calls| - 1], maxAlerts, prio);
    RunKeeps(calls[..|calls| - 1], maxAlerts, prio);
    assert CriticalCount(s.alerts) <= s.peak;
    hide Added, Acknowledged, CriticalCount, Inv;
    match calls[|calls| - 1]
    case Add(r, now) => CallPeak(s, maxAlerts, prio, r, now, NoAddress, "");
    case Acknowledge(a, analyst) => CallPeak(s, maxAlerts, prio, Report(NoAddress, 0.0, 0.0, LogOnly), 0.0, a, analyst);
  }

  lemma {:induction false} RunKeeps(calls: seq<Call>, maxAlerts: int, prio: Priority)
    ensures Inv(After(calls, maxAlerts, prio), maxAlerts)
  {
    hide Added, Acknowledged, Inv;
    if calls == [] {
      EmptyHolds(maxAlerts);
    } else {
      var s := After(calls[..|calls| - 1], maxAlerts, prio);
      RunKeeps(calls[..|calls| - 1], maxAlerts, prio);
      match calls[|calls| - 1]
      case Add(r, now) => AddKeeps(s, maxAlerts, prio, r, now);
      case Acknowledge(a, analyst) => AckKeeps(s, maxAlerts, a, analyst);
    }
  }

  lemma EmptyHolds(maxAlerts: int)
    ensures Inv(EMPTY, maxAlerts)
  {
  }

  // ---- the ranked view ----

  function Unacknowledged(alerts: seq<Alert>): seq<Alert> {
    if alerts == [] then []
    else
      Unacknowledged(alerts[..|alerts| - 1])
      + (if alerts[|alerts| - 1].acknowledgedBy.None? then [alerts[|alerts| - 1]] else [])
  }

  /** Stable insertion by descending priority. */
  function Insert(x: Alert, s: seq<Alert>, prio: Priority, now: real): (r: seq<Alert>)
    ensures |r| == |s| + 1 && multiset(r) == multiset(s) + multiset{x}
  {
    if s == [] || prio(s[|s| - 1], now) >= prio(x, now) then s + [x]
    else
      assert s == s[..|s| - 1] + [s[|s| - 1]];
      Insert(x, s[..|s| - 1], prio, now) + [s[|s| - 1]]
  }

  /** Python's `sorted`, with alerts compared by priority, highest first. */
  function Ranked(s: seq<Alert>, prio: Priority, now: real): (r: seq<Alert>)
    ensures |r| == |s| && multiset(r) == multiset(s)
  {
    if s == [] then []
    else
      assert s == s[..|s| - 1] + [s[|s| - 1]];
      Insert(s[|s| - 1], Ranked(s[..|s| - 1], prio, now), prio, now)
  }

  ghost predicate Descending(s: seq<Alert>, prio: Priority, now: real) {
    forall i, j :: 0 <= i < j < |s| ==> prio(s[i], now) >= prio(s[j], now)
  }

  ghost predicate AtLeast(s: seq<Alert>, prio: Priority, now: real, p: real) {
    forall i :: 0 <= i < |s| ==> prio(s[i], now) >= p
  }

  lemma AtLeastAppend(s: seq<Alert>, x: Alert, prio: Priority, now: real, p: real)
    ensures AtLeast(s + [x], prio, now, p) <==> AtLeast(s, prio, now, p) && prio(x, now) >= p
  {
    var t := s + [x];
    if AtLeast(t, prio, now, p) {
      assert t[|s|] == x;
      forall i | 0 <= i < |s|
        ensures prio(s[i], now) >= p
      {
        assert t[i] == s[i];
      }
    }
  }

  lemma {:induction false} InsertBound(x: Alert, s: seq<Alert>, prio: Priority, now: real, p: real)
    requires prio(x, now) >= p && AtLeast(s, prio, now, p)
    ensures AtLeast(Insert(x, s, prio, now), prio, now, p)
  {
    hide AtLeast;
    if s != [] && prio(s[|s| - 1], now) < prio(x, now) {
      var front, last := s[..|s| - 1], s[|s| - 1];
      assert s == front + [last];
      AtLeastAppend(front, last, prio, now, p);
      InsertBound(x, front, prio, now, p);
      AtLeastAppend(Insert(x, front, prio, now), last, prio, now, p);
    } else {
      AtLeastAppend(s, x, prio, now, p);
    }
  }

  lemma DescendingAppend(s: seq<Alert>, x: Alert, prio: Priority, now: real)
    ensures Descending(s + [x], prio, now) <==> Descending(s, prio, now) && AtLeast(s, prio, now, prio(x, now))
  {
    var t := s + [x];
    if Descending(t, prio, now) {
      forall i, j | 0 <= i < j < |s|
        ensures prio(s[i], now) >= prio(s[j], now)
      {
        assert t[i] == s[i] && t[j] == s[j];
      }
      forall i | 0 <= i < |s|
        ensures prio(s[i], now) >= prio(x, now)
      {
        assert t[i] == s[i] && t[|s|] == x;
      }
    }
  }

  lemma LastIsLeast(s: seq<Alert>, prio: Priority, now: real, p: real)
    requires s != [] && Descending(s, prio, now) && prio(s[|s| - 1], now) >= p
    ensures AtLeast(s, prio, now, p)
  {
  }

  lemma {:induction false} InsertDescending(x: Alert, s: seq<Alert>, prio: Priority, now: real)
    requires Descending(s, prio, now)
    ensures Descending(Insert(x, s, prio, now), prio, now)
  {
    if s == [] {
    } else if prio(s[|s| - 1], now) < prio(x, now) {
      hide Descending, AtLeast;
      var front, last := s[..|s| - 1], s[|s| - 1];
      assert s == front + [last];
      DescendingAppend(front, last, prio, now);
      InsertDescending(x, front, prio, now);
      InsertBound(x, front, prio, now, prio(last, now));
      DescendingAppend(Insert(x, front, prio, now), last, prio, now);
    } else {
      LastIsLeast(s, prio, now, prio(x, now));
      hide Descending, AtLeast;
      DescendingAppend(s, x, prio, now);
    }
  }

  lemma {:induction false} RankedDescending(s: seq<Alert>, prio: Priority, now: real)
    ensures Descending(Ranked(s, prio, now), prio, now)
  {
    if s != [] {
      RankedDescending(s[..|s| - 1], prio, now);
      InsertDescending(s[|s| - 1], Ranked(s[..|s| - 1], prio, now), prio, now);
    }
  }

  /** The alerts of priority `p`, in order. */
  function OfPriority(s: seq<Alert>, prio: Priority, now: real, p: real): seq<Alert> {
    if s == [] then []
    else
      OfPriority(s[..|s| - 1], prio, now, p) + (if prio(s[|s| - 1], now) == p then [s[|s| - 1]] else [])
  }

  lemma OfPriorityAppend(s: seq<Alert>, x: Alert, prio: Priority, now: real, p: real)
    ensures OfPriority(s + [x], prio, now, p) == OfPriority(s, prio, now, p) + (if prio(x, now) == p then [x] else [])
  {
    assert (s + [x])[..|s|] == s;
  }

  lemma {:induction false} InsertIsStable(x: Alert, s: seq<Alert>, prio: Priority, now: real, p: real)
    ensures OfPriority(Insert(x, s, prio, now), prio, now, p)
         == OfPriority(s, prio, now, p) + (if prio(x, now) == p then [x] else [])
  {
    if s != [] && prio(s[|s| - 1], now) < prio(x, now) {
      var front, last := s[..|s| - 1], s[|s| - 1];
      InsertIsStable(x, front, prio, now, p);
      OfPriorityAppend(Insert(x, front, prio, now), last, prio, now, p);
    } else {
      OfPriorityAppend(s, x, prio, now, p);
    }
  }

  /** Alerts of equal priority are ranked in insertion order. */
  lemma {:induction false} RankingIsStable(s: seq<Alert>, prio: Priority, now: real, p: real)
    ensures OfPriority(Ranked(s, prio, now), prio, now, p) == OfPriority(s, prio, now, p)
  {
    if s != [] {
      RankingIsStable(s[..|s| - 1], prio, now, p);
      InsertIsStable(s[|s| - 1], Ranked(s[..|s| - 1], prio, now), prio, now, p);
    }
  }

  /** Python's `s[:n]`; a negative bound counts from the end. */
  function Slice<T>(s: seq<T>, n: int): (r: seq<T>)
    ensures r <= s
  {
    if n >= |s| then s else if n >= 0 then s[..n] else if |s| + n >= 0 then s[..|s| + n] else []
  }

  function TopAlerts(alerts: seq<Alert>, n: int, prio: Priority, now: real): seq<Alert> {
    Slice(Ranked(Unacknowledged(alerts), prio, now), n)
  }

  /** The view holds the `n` unacknowledged alerts of highest priority, or all but
      the last `-n` for a negative `n`, in descending order; `rest` are the
      others, none of which ranks higher. */
  lemma TopAlertsIsTop(alerts: seq<Alert>, n: int, prio: Priority, now: real) returns (rest: seq<Alert>)
    ensures var top, active := TopAlerts(alerts, n, prio, now), Unacknowledged(alerts);
            && (0 <= n <= |active| ==> |top| == n)
            && (n > |active| ==> |top| == |active|)
            && (n < 0 ==> |top| == if -n <= |active| then |active| + n else 0)
            && Descending(top, prio, now)
            && multiset(top + rest) == multiset(active)
            && forall i, j :: 0 <= i < |top| && 0 <= j < |rest| ==> prio(top[i], now) >= prio(rest[j], now)
  {
    hide Ranked, Unacknowledged;
    var active := Unacknowledged(alerts);
    var all, top := Ranked(active, prio, now), TopAlerts(alerts, n, prio, now);
    RankedDescending(active, prio, now);
    rest := all[|top|..];
    assert all == top + rest;
    DescendingSplit(top, rest, prio, now);
  }

  lemma DescendingSplit(top: seq<Alert>, rest: seq<Alert>, prio: Priority, now: real)
    requires Descending(top + rest, prio, now)
    ensures Descending(top, prio, now)
    ensures forall i, j :: 0 <= i < |top| && 0 <= j < |rest| ==> prio(top[i], now) >= prio(rest[j], now)
  {
    var all := top + rest;
    forall i, j | 0 <= i < |top| && 0 <= j < |rest|
      ensures prio(top[i], now) >= prio(rest[j], now)
    {
      assert all[i] == top[i] && all[|top| + j] == rest[j];
    }
    forall i, j | 0 <= i < j < |top|
      ensures prio(top[i], now) >= prio(top[j], now)
    {
      assert all[i] == top[i] && all[j] == top[j];
    }
  }

  lemma {:induction false} ShownIsUnacknowledged(alerts: seq<Alert>, x: Alert)
    ensures x in Unacknowledged(alerts) <==> x in alerts && x.acknowledgedBy.None?
  {
    if alerts != [] {
      ShownIsUnacknowledged(alerts[..|alerts| - 1], x);
      assert alerts == alerts[..|alerts| - 1] + [alerts[|alerts| - 1]];
    }
  }

  // ---- the manager itself ----

  class Manager {
    const maxAlerts: int
    var alerts: seq<Alert>
    var queue: seq<Address>
    var totalCreated: nat
    var totalDeduplicated: nat
    ghost var evicted: seq<Alert>
    ghost var calls: nat
    ghost var peak: nat

    ghost function View(): Store
      reads this
    {
      Store(alerts, queue, totalCreated, totalDeduplicated, evicted, calls, peak)
    }

    constructor (max: int)
      ensures View() == EMPTY && maxAlerts == max
    {
      maxAlerts := max;
      alerts, queue, totalCreated, totalDeduplicated := [], [], 0, 0;
      evicted, calls, peak := [], 0, 0;
    }

    /** Position of an address in the store. */
    method Locate(a: Address) returns (i: nat)
      ensures i == IndexOf(alerts, a)
    {
      i := 0;
      while i < |alerts| && alerts[i].report.address != a
        invariant i <= |alerts|
        invariant IndexOf(alerts, a) == i + IndexOf(alerts[i..], a)
      {
        assert alerts[i..][1..] == alerts[i + 1..];
        i := i + 1;
      }
    }

    /** The non-EMERGENCY alert of least priority, first in insertion order. */
    method FindVictim(prio: Priority, now: real) returns (v: Option<nat>)
      ensures v == Victim(alerts, prio, now)
    {
      v := None;
      for i := 0 to |alerts|
        invariant v == Victim(alerts[..i], prio, now)
      {
        assert alerts[..i + 1][..i] == alerts[..i];
        if !Critical(alerts[i]) && (v.None? || prio(alerts[i], now) < prio(alerts[v.value], now)) {
          v := Some(i);
        }
      }
      assert alerts[..|alerts|] == alerts;
    }

    /** Adds an alert, or updates the one of the same address; evicts if over the limit. */
    method AddOrUpdate(r: Report, prio: Priority, now: real)
      modifies this
      ensures View() == Added(old(View()), maxAlerts, prio, r, now)
    {
      hide CriticalCount, Victim, IndexOf;
      var i := Locate(r.address);
      calls := calls + 1;
      if i < |alerts| {
        alerts := alerts[i := Refreshed(alerts[i], r, now)];
        totalDeduplicated := totalDeduplicated + 1;
        peak := Peak(peak, alerts);
        return;
      }
      alerts := alerts + [Alert(r, now, now, 0, None)];
      queue := queue + [r.address];
      totalCreated := totalCreated + 1;
      peak := Peak(peak, alerts);
      var v := FindVictim(prio, now);
      if |alerts| > maxAlerts && v.Some? {
        evicted := evicted + [alerts[v.value]];
        alerts := Without(alerts, v.value);
      }
    }

    /** Marks an alert as seen by an analyst. */
    method Acknowledge(a: Address, analyst: string) returns (found: bool)
      modifies this`alerts
      ensures View() == Acknowledged(old(View()), a, analyst)
      ensures found <==> IndexOf(old(alerts), a) < |old(alerts)|
    {
      var i := Locate(a);
      if i == |alerts| {
        return false;
      }
      alerts := alerts[i := alerts[i].(acknowledgedBy := Some(analyst))];
      return true;
    }
  }
}
