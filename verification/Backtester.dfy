/** The metrics of `src/backtesting/backtester.py`, in exact arithmetic. */
module Backtester {
  /** One labelled transaction: its score and whether it is illicit. */
  datatype Sample = Sample(score: real, illicit: bool)

  datatype Confusion = Confusion(tp: nat, fp: nat, tn: nat, fn: nat)

  function Plus(c: Confusion, predicted: bool, illicit: bool): Confusion {
    if predicted && illicit then c.(tp := c.tp + 1)
    else if predicted then c.(fp := c.fp + 1)
    else if illicit then c.(fn := c.fn + 1)
    else c.(tn := c.tn + 1)
  }

  /** The confusion counts when scores from `threshold` on are flagged. */
  function ConfusionAt(xs: seq<Sample>, threshold: real): Confusion {
    if xs == [] then Confusion(0, 0, 0, 0)
    else
      var x := xs[|xs| - 1];
      Plus(ConfusionAt(xs[..|xs| - 1], threshold), x.score >= threshold, x.illicit)
  }

  function Ratio(a: nat, b: nat): real {
    if b > 0 then a as real / b as real else 0.0
  }

  function Precision(c: Confusion): real { Ratio(c.tp, c.tp + c.fp) }

  function Recall(c: Confusion): real { Ratio(c.tp, c.tp + c.fn) }

  function F1(c: Confusion): real {
    var p, r := Precision(c), Recall(c);
    if p + r > 0.0 then 2.0 * p * r / (p + r) else 0.0
  }

  predicate InCell(x: Sample, threshold: real, flagged: bool, illicit: bool) {
    (x.score >= threshold <==> flagged) && (x.illicit <==> illicit)
  }

  /** The samples of one label whose score reaches the threshold, or does not. */
  function Cell(xs: seq<Sample>, threshold: real, flagged: bool, illicit: bool): set<nat> {
    set i: nat | i < |xs| && InCell(xs[i], threshold, flagged, illicit)
  }

  lemma CellGrows(xs: seq<Sample>, t: real, flagged: bool, illicit: bool)
    requires xs != []
    ensures var n := |xs| - 1;
            && n !in Cell(xs[..n], t, flagged, illicit)
            && Cell(xs, t, flagged, illicit)
               == Cell(xs[..n], t, flagged, illicit) + if InCell(xs[n], t, flagged, illicit) then {n} else {}
  {
    hide InCell;
  }

  lemma CellStep(xs: seq<Sample>, t: real, flagged: bool, illicit: bool)
    requires xs != []
    ensures var n := |xs| - 1;
            |Cell(xs, t, flagged, illicit)|
            == |Cell(xs[..n], t, flagged, illicit)| + if InCell(xs[n], t, flagged, illicit) then 1 else 0
  {
    hide InCell, Cell;
    CellGrows(xs, t, flagged, illicit);
  }

  /** The four counts: illicit samples flagged, others flagged, others not
      flagged, illicit samples not flagged. */
  lemma {:induction false} CountsAreCensus(xs: seq<Sample>, t: real)
    ensures var c := ConfusionAt(xs, t);
            && c.tp == |Cell(xs, t, true, true)| && c.fp == |Cell(xs, t, true, false)|
            && c.tn == |Cell(xs, t, false, false)| && c.fn == |Cell(xs, t, false, true)|
  {
    if xs == [] {
      assert Cell(xs, t, true, true) == Cell(xs, t, true, false) == {};
      assert Cell(xs, t, false, true) == Cell(xs, t, false, false) == {};
    } else {
      CountsAreCensus(xs[..|xs| - 1], t);
      CellStep(xs, t, true, true);
      CellStep(xs, t, true, false);
      CellStep(xs, t, false, true);
      CellStep(xs, t, false, false);
      hide Cell;
    }
  }

  function Flagged(xs: seq<Sample>, threshold: real): set<nat> {
    set i: nat | i < |xs| && xs[i].score >= threshold
  }

  function Illicit(xs: seq<Sample>): set<nat> {
    set i: nat | i < |xs| && xs[i].illicit
  }

  lemma FlaggedAndIllicit(xs: seq<Sample>, t: real)
    ensures Flagged(xs, t) * Illicit(xs) == Cell(xs, t, true, true)
    ensures |Flagged(xs, t)| == |Cell(xs, t, true, true)| + |Cell(xs, t, true, false)|
    ensures |Illicit(xs)| == |Cell(xs, t, true, true)| + |Cell(xs, t, false, true)|
  {
    assert Flagged(xs, t) == Cell(xs, t, true, true) + Cell(xs, t, true, false);
    assert Illicit(xs) == Cell(xs, t, true, true) + Cell(xs, t, false, true);
    assert Cell(xs, t, true, true) !! Cell(xs, t, true, false) && Cell(xs, t, true, true) !! Cell(xs, t, false, true);
    hide Flagged, Illicit, Cell;
  }

  lemma RatioTimes(a: nat, n: nat)
    requires a <= n
    ensures Ratio(a, n) * n as real == a as real
  {
  }

  /** Precision is the illicit share of the flagged samples, recall the flagged
      share of the illicit ones. */
  lemma PrecisionAndRecallAreShares(xs: seq<Sample>, t: real)
    ensures var c, hits := ConfusionAt(xs, t), Flagged(xs, t) * Illicit(xs);
            && Precision(c) * |Flagged(xs, t)| as real == |hits| as real
            && Recall(c) * |Illicit(xs)| as real == |hits| as real
  {
    hide Flagged, Illicit, Cell, ConfusionAt, Ratio;
    CountsAreCensus(xs, t);
    FlaggedAndIllicit(xs, t);
    var c := ConfusionAt(xs, t);
    RatioTimes(c.tp, c.tp + c.fp);
    RatioTimes(c.tp, c.tp + c.fn);
  }

  /** Every sample is counted once. */
  lemma {:induction false} CountsAddUp(xs: seq<Sample>, t: real)
    ensures var c := ConfusionAt(xs, t);
            c.tp + c.fp + c.tn + c.fn == |xs|
  {
    if xs != [] {
      CountsAddUp(xs[..|xs| - 1], t);
    }
  }

  /** Raising the threshold moves samples from flagged to not flagged, never back. */
  lemma {:induction false} CountsMonotone(xs: seq<Sample>, t: real, u: real)
    requires t <= u
    ensures var c, d := ConfusionAt(xs, t), ConfusionAt(xs, u);
            && d.tp <= c.tp && d.fp <= c.fp && c.tn <= d.tn && c.fn <= d.fn
            && c.tp + c.fn == d.tp + d.fn && c.fp + c.tn == d.fp + d.tn
  {
    if xs != [] {
      CountsMonotone(xs[..|xs| - 1], t, u);
    }
  }

  lemma RatioMonotone(a: nat, b: nat, n: nat)
    requires a <= b
    ensures Ratio(a, n) <= Ratio(b, n)
  {
  }

  /** Recall never rises with the threshold. */
  lemma RecallNeverRises(xs: seq<Sample>, t: real, u: real)
    requires t <= u
    ensures Recall(ConfusionAt(xs, u)) <= Recall(ConfusionAt(xs, t))
  {
    CountsMonotone(xs, t, u);
    var c, d := ConfusionAt(xs, t), ConfusionAt(xs, u);
    RatioMonotone(d.tp, c.tp, c.tp + c.fn);
  }

  /** With the reciprocals a of precision and b of recall, F1 is 2 / (a + b). */
  lemma HarmonicMean(t: real, a: real, b: real)
    requires t > 0.0 && a >= t && b >= t
    ensures var p, r := t / a, t / b;
            && p > 0.0 && r > 0.0
            && 2.0 * p * r / (p + r) == 2.0 * t / (a + b)
  {
    var p, r := t / a, t / b;
    assert p * a == t && r * b == t;
    var s := a + b;
    assert (p + r) * (a * b) == t * s by {
      assert p * (a * b) == (p * a) * b == t * b;
      assert r * (a * b) == (r * b) * a == t * a;
    }
    assert (p * r) * (a * b) == t * t by {
      assert (p * r) * (a * b) == (p * a) * (r * b);
    }
  }

  /** F1 as computed from precision and recall is 2tp / (2tp + fp + fn), and 0 when nothing is flagged or illicit. */
  lemma F1Exact(c: Confusion)
    ensures F1(c) == Ratio(2 * c.tp, 2 * c.tp + c.fp + c.fn)
  {
    if c.tp > 0 {
      HarmonicMean(c.tp as real, (c.tp + c.fp) as real, (c.tp + c.fn) as real);
    } else {
      RatioOfZero(c.tp + c.fp);
      RatioOfZero(c.tp + c.fn);
      RatioOfZero(c.fp + c.fn);
    }
  }

  lemma RatioOfZero(n: nat)
    ensures Ratio(0, n) == 0.0
  {
  }

  lemma RatioLe(a: nat, m: nat, n: nat)
    requires 0 < m <= n
    ensures Ratio(a, n) <= Ratio(a, m)
  {
    var x, y := Ratio(a, n), Ratio(a, m);
    assert x * n as real == a as real == y * m as real;
  }

  lemma RatioDouble(a: nat, m: nat)
    ensures Ratio(2 * a, 2 * m) == Ratio(a, m)
  {
  }

  /** F1 lies between precision and recall. */
  lemma F1IsBetween(c: Confusion)
    ensures Precision(c) <= Recall(c) ==> Precision(c) <= F1(c) <= Recall(c)
    ensures Recall(c) <= Precision(c) ==> Recall(c) <= F1(c) <= Precision(c)
  {
    F1Exact(c);
    var p, r, m := c.tp + c.fp, c.tp + c.fn, 2 * c.tp + c.fp + c.fn;
    if c.tp == 0 {
      RatioOfZero(p);
      RatioOfZero(r);
      RatioOfZero(m);
    } else {
      RatioDouble(c.tp, p);
      RatioDouble(c.tp, r);
      hide Ratio;
      if p <= r {
        RatioLe(2 * c.tp, 2 * p, m);
        RatioLe(2 * c.tp, m, 2 * r);
      } else {
        RatioLe(2 * c.tp, 2 * r, m);
        RatioLe(2 * c.tp, m, 2 * p);
      }
    }
  }

  // ---- the sweep ----

  /** `numpy.linspace(0.05, 0.95, steps)[k]`. */
  function Threshold(k: nat, steps: nat): real
    requires k < steps
  {
    if steps == 1 then 0.05 else 0.05 + k as real * (0.9 / (steps - 1) as real)
  }

  /** The thresholds run from 0.05 to 0.95 in equal steps. */
  lemma ThresholdsAreSpaced(k: nat, steps: nat)
    requires k < steps
    ensures Threshold(0, steps) == 0.05
    ensures steps > 1 ==> Threshold(steps - 1, steps) == 0.95
    ensures k + 1 < steps ==> (Threshold(k + 1, steps) - Threshold(k, steps)) * (steps - 1) as real == 0.9
  {
    if steps > 1 {
      var n := (steps - 1) as real;
      assert n * (0.9 / n) == 0.9;
      assert (k + 1) as real * (0.9 / n) == k as real * (0.9 / n) + 0.9 / n;
    }
  }

  lemma ThresholdsIncrease(j: nat, k: nat, steps: nat)
    requires j <= k < steps
    ensures Threshold(j, steps) <= Threshold(k, steps)
  {
    if steps > 1 {
      var d := 0.9 / (steps - 1) as real;
      assert d >= 0.0;
      assert (k - j) as real * d >= 0.0;
      assert k as real * d == j as real * d + (k - j) as real * d;
    }
  }

  function Sweep(xs: seq<Sample>, steps: nat): seq<Confusion> {
    seq(steps, k requires 0 <= k < steps => ConfusionAt(xs, Threshold(k, steps)))
  }

  /** Along the sweep true and false positives and recall never rise, and every entry counts all samples. */
  lemma SweepIsMonotone(xs: seq<Sample>, steps: nat, j: nat, k: nat)
    requires j <= k < steps
    ensures var s := Sweep(xs, steps);
            && s[k].tp <= s[j].tp && s[k].fp <= s[j].fp && s[j].tn <= s[k].tn && s[j].fn <= s[k].fn
            && Recall(s[k]) <= Recall(s[j])
            && s[k].tp + s[k].fp + s[k].tn + s[k].fn == |xs|
  {
    ThresholdsIncrease(j, k, steps);
    CountsMonotone(xs, Threshold(j, steps), Threshold(k, steps));
    RecallNeverRises(xs, Threshold(j, steps), Threshold(k, steps));
    CountsAddUp(xs, Threshold(k, steps));
    hide Recall, Threshold;
  }

  /** Python's `round(x, 4)`: to the nearest multiple of 0.0001, ties to the even one. */
  function Round4(x: real): real {
    var y := x * 10000.0;
    var f, r := y.Floor, y - y.Floor as real;
    (if r < 0.5 || (r == 0.5 && f % 2 == 0) then f else f + 1) as real / 10000.0
  }

  lemma Round4IsNearest(x: real) returns (n: int)
    ensures Round4(x) == n as real / 10000.0
    ensures -0.5 <= n as real - x * 10000.0 <= 0.5
    ensures n as real - x * 10000.0 == 0.5 || n as real - x * 10000.0 == -0.5 ==> n % 2 == 0
    ensures -0.00005 <= Round4(x) - x <= 0.00005
  {
    var y := x * 10000.0;
    var f, r := y.Floor, y - y.Floor as real;
    n := if r < 0.5 || (r == 0.5 && f % 2 == 0) then f else f + 1;
  }

  /** The "f1" entry of the metrics. */
  function ReportedF1(c: Confusion): real {
    Round4(F1(c))
  }

  /** The first entry of greatest reported F1, as `max` with a key finds it.  Its
      exact F1 is at most 0.0001 below the greatest. */
  method FindBestThreshold(sweep: seq<Confusion>) returns (best: nat)
    requires sweep != []
    ensures best < |sweep|
    ensures forall k :: 0 <= k < |sweep| ==> ReportedF1(sweep[k]) <= ReportedF1(sweep[best])
    ensures forall k :: 0 <= k < best ==> ReportedF1(sweep[k]) < ReportedF1(sweep[best])
    ensures forall k :: 0 <= k < |sweep| ==> F1(sweep[k]) <= F1(sweep[best]) + 0.0001
  {
    hide F1, Round4;
    best := 0;
    for i := 1 to |sweep|
      invariant best < i
      invariant forall k :: 0 <= k < i ==> ReportedF1(sweep[k]) <= ReportedF1(sweep[best])
      invariant forall k :: 0 <= k < best ==> ReportedF1(sweep[k]) < ReportedF1(sweep[best])
    {
      if ReportedF1(sweep[i]) > ReportedF1(sweep[best]) {
        best := i;
      }
    }
    ghost var _ := Round4IsNearest(F1(sweep[best]));
    forall k | 0 <= k < |sweep|
      ensures F1(sweep[k]) <= F1(sweep[best]) + 0.0001
    {
      var _ := Round4IsNearest(F1(sweep[k]));
      assert ReportedF1(sweep[k]) <= ReportedF1(sweep[best]);
    }
  }
}
