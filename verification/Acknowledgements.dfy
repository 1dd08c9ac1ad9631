/** What `acknowledge` of `src/response/alert_manager.py` does to the store, and
    what the mark of a stored alert says about the run. */
module Acknowledgements {
  import opened Common
  import opened AlertManager

  /** An acknowledgement marks the alert of its address, changes nothing else,
      and takes that address out of the ranked view. */
  lemma AcknowledgementMarks(s: Store, a: Address, analyst: string)
    requires DistinctAddresses(s.alerts)
    ensures var t := Acknowledged(s, a, analyst);
            && t == s.(alerts := t.alerts) && |t.alerts| == |s.alerts|
            && (forall i :: 0 <= i < |s.alerts| ==>
                  var was := s.alerts[i];
                  t.alerts[i] == if was.report.address == a
                                 then Alert(was.report, was.createdAt, was.updatedAt, was.updates, Some(analyst))
                                 else was)
  {
  }

  lemma AcknowledgedIsNotShown(s: Store, a: Address, analyst: string, n: int, prio: Priority, now: real, x: Alert)
    requires DistinctAddresses(s.alerts) && x in TopAlerts(Acknowledged(s, a, analyst).alerts, n, prio, now)
    ensures x.report.address != a
  {
    AcknowledgementMarks(s, a, analyst);
    hide Acknowledged, Ranked, DistinctAddresses;
    var alerts := Acknowledged(s, a, analyst).alerts;
    ShownIsUnacknowledged(alerts, x);
    assert x in multiset(Unacknowledged(alerts));
  }

  // ---- over a run ----

  /** `a` has an alert after the first `j` calls. */
  predicate Stored(calls: seq<Call>, j: nat, maxAlerts: int, prio: Priority, a: Address)
    requires j <= |calls|
  {
    var alerts := After(calls[..j], maxAlerts, prio).alerts;
    IndexOf(alerts, a) < |alerts|
  }

  predicate Acknowledges(c: Call, a: Address) {
    c.Acknowledge? && c.address == a
  }

  /** Call `k` acknowledges the alert of `a`, which has stayed in the store since. */
  ghost predicate Stands(calls: seq<Call>, k: nat, maxAlerts: int, prio: Priority, a: Address) {
    && k < |calls| && Acknowledges(calls[k], a)
    && forall j :: k <= j <= |calls| ==> Stored(calls, j, maxAlerts, prio, a)
  }

  /** No call after call `k` acknowledges `a`. */
  ghost predicate Latest(calls: seq<Call>, k: nat, a: Address) {
    forall l :: k < l < |calls| ==> !Acknowledges(calls[l], a)
  }

  /** `mark` is set exactly if some acknowledgement of `a` stands, and then names
      the analyst of the latest. */
  ghost predicate Explained(calls: seq<Call>, maxAlerts: int, prio: Priority, a: Address, mark: Option<string>) {
    && (mark.Some? <==> exists k: nat :: Stands(calls, k, maxAlerts, prio, a))
    && (forall k: nat :: Stands(calls, k, maxAlerts, prio, a) && Latest(calls, k, a) ==> mark == Some(calls[k].analyst))
  }

  /** What one call makes of a mark. */
  lemma MarkStep(s: Store, maxAlerts: int, prio: Priority, c: Call, x: Alert)
    requires DistinctAddresses(s.alerts) && x in Applied(s, maxAlerts, prio, c).alerts
    ensures var a := x.report.address;
            var i := IndexOf(s.alerts, a);
            if Acknowledges(c, a) then i < |s.alerts| && x.acknowledgedBy == Some(c.analyst)
            else if i < |s.alerts| then x.acknowledgedBy == s.alerts[i].acknowledgedBy
            else x.acknowledgedBy.None?
  {
    hide Added, Acknowledged, IndexOf, DistinctAddresses;
    match c
    case Add(r, now) => AddedMark(s, maxAlerts, prio, r, now, x);
    case Acknowledge(a, analyst) => AcknowledgedMark(s, a, analyst, x);
  }

  lemma AddedMark(s: Store, maxAlerts: int, prio: Priority, r: Report, now: real, x: Alert)
    requires DistinctAddresses(s.alerts) && x in Added(s, maxAlerts, prio, r, now).alerts
    ensures var i := IndexOf(s.alerts, x.report.address);
            x.acknowledgedBy == if i < |s.alerts| then s.alerts[i].acknowledgedBy else None
  {
    hide Added;
    LatestReportWins(s, maxAlerts, prio, r, now, x);
    if x.report.address != r.address {
      StoredAt(s.alerts, x);
    }
    hide DistinctAddresses;
  }

  lemma AcknowledgedMark(s: Store, a: Address, analyst: string, x: Alert)
    requires DistinctAddresses(s.alerts) && x in Acknowledged(s, a, analyst).alerts
    ensures var i := IndexOf(s.alerts, x.report.address);
            i < |s.alerts| && x.acknowledgedBy == if x.report.address == a then Some(analyst) else s.alerts[i].acknowledgedBy
  {
    AcknowledgementMarks(s, a, analyst);
    hide Acknowledged;
    var t := Acknowledged(s, a, analyst);
    var i :| 0 <= i < |t.alerts| && t.alerts[i] == x;
    StoredAt(s.alerts, s.alerts[i]);
    hide DistinctAddresses;
  }

  /** Addresses being distinct, an alert is found under its own. */
  lemma StoredAt(alerts: seq<Alert>, x: Alert)
    requires DistinctAddresses(alerts) && x in alerts
    ensures var i := IndexOf(alerts, x.report.address);
            i < |alerts| && alerts[i] == x
  {
  }

  lemma StoredBefore(calls: seq<Call>, maxAlerts: int, prio: Priority, a: Address, j: nat)
    requires calls != [] && j < |calls|
    ensures Stored(calls, j, maxAlerts, prio, a) == Stored(calls[..|calls| - 1], j, maxAlerts, prio, a)
  {
    assert calls[..|calls| - 1][..j] == calls[..j];
  }

  lemma StandsBefore(calls: seq<Call>, maxAlerts: int, prio: Priority, a: Address, k: nat)
    requires calls != [] && Stored(calls, |calls|, maxAlerts, prio, a) && k < |calls| - 1
    ensures var front := calls[..|calls| - 1];
            && (Stands(calls, k, maxAlerts, prio, a) <==> Stands(front, k, maxAlerts, prio, a))
            && (!Acknowledges(calls[|calls| - 1], a) ==> (Latest(calls, k, a) <==> Latest(front, k, a)))
  {
    hide Stored;
    var front := calls[..|calls| - 1];
    forall j | k <= j < |calls|
      ensures Stored(calls, j, maxAlerts, prio, a) == Stored(front, j, maxAlerts, prio, a)
    {
      StoredBefore(calls, maxAlerts, prio, a, j);
    }
    if Stands(front, k, maxAlerts, prio, a) {
      assert forall j :: k <= j <= |front| ==> Stored(front, j, maxAlerts, prio, a);
    }
  }

  lemma ExplainedByLast(calls: seq<Call>, maxAlerts: int, prio: Priority, a: Address, mark: Option<string>)
    requires calls != [] && Acknowledges(calls[|calls| - 1], a) && mark == Some(calls[|calls| - 1].analyst)
    requires Stored(calls, |calls| - 1, maxAlerts, prio, a) && Stored(calls, |calls|, maxAlerts, prio, a)
    ensures Explained(calls, maxAlerts, prio, a, mark)
  {
    hide Stored;
    var last := |calls| - 1;
    assert Stands(calls, last, maxAlerts, prio, a);
    assert forall k: nat :: k < last ==> !Latest(calls, k, a);
  }

  lemma ExplainedByFront(calls: seq<Call>, maxAlerts: int, prio: Priority, a: Address, mark: Option<string>)
    requires calls != [] && !Acknowledges(calls[|calls| - 1], a)
    requires Explained(calls[..|calls| - 1], maxAlerts, prio, a, mark) && Stored(calls, |calls|, maxAlerts, prio, a)
    ensures Explained(calls, maxAlerts, prio, a, mark)
  {
    forall k: nat | k < |calls| - 1
      ensures Stands(calls, k, maxAlerts, prio, a) <==> Stands(calls[..|calls| - 1], k, maxAlerts, prio, a)
      ensures Latest(calls, k, a) <==> Latest(calls[..|calls| - 1], k, a)
    {
      StandsBefore(calls, maxAlerts, prio, a, k);
    }
    hide Latest, Stored;
    var front := calls[..|calls| - 1];
    forall k: nat
      ensures Stands(calls, k, maxAlerts, prio, a) <==> Stands(front, k, maxAlerts, prio, a)
    {
      assert k >= |calls| - 1 ==> !Stands(calls, k, maxAlerts, prio, a) && !Stands(front, k, maxAlerts, prio, a);
    }
  }

  lemma NewIsUnmarked(calls: seq<Call>, maxAlerts: int, prio: Priority, a: Address)
    requires calls != [] && !Acknowledges(calls[|calls| - 1], a) && !Stored(calls, |calls| - 1, maxAlerts, prio, a)
    ensures Explained(calls, maxAlerts, prio, a, None)
  {
    hide Stored;
  }

  /** Over every run: a stored alert is marked exactly if its address was
      acknowledged while it was stored, and it names the latest analyst. */
  lemma {:induction false} MarkedIffAcknowledged(calls: seq<Call>, maxAlerts: int, prio: Priority, x: Alert)
    requires x in After(calls, maxAlerts, prio).alerts
    ensures Explained(calls, maxAlerts, prio, x.report.address, x.acknowledgedBy)
    decreases |calls|
  {
    if calls != [] {
      var front, c, a := calls[..|calls| - 1], calls[|calls| - 1], x.report.address;
      var s := After(front, maxAlerts, prio);
      assert calls[..|calls|] == calls && Stored(calls, |calls|, maxAlerts, prio, a);
      assert Stored(calls, |calls| - 1, maxAlerts, prio, a) <==> IndexOf(s.alerts, a) < |s.alerts|;
      DistinctAfter(front, maxAlerts, prio);
      MarkStep(s, maxAlerts, prio, c, x);
      hide Stored, Explained, After, DistinctAddresses, Applied;
      if Acknowledges(c, a) {
        ExplainedByLast(calls, maxAlerts, prio, a, x.acknowledgedBy);
      } else if IndexOf(s.alerts, a) < |s.alerts| {
        MarkedIffAcknowledged(front, maxAlerts, prio, s.alerts[IndexOf(s.alerts, a)]);
        ExplainedByFront(calls, maxAlerts, prio, a, x.acknowledgedBy);
      } else {
        NewIsUnmarked(calls, maxAlerts, prio, a);
      }
    }
  }

  lemma DistinctAfter(calls: seq<Call>, maxAlerts: int, prio: Priority)
    ensures DistinctAddresses(After(calls, maxAlerts, prio).alerts)
  {
    RunKeeps(calls, maxAlerts, prio);
    hide After;
  }
}
