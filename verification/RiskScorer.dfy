/** The composite score of `src/response/risk_scorer.py`, in exact arithmetic. */
module RiskScorer {
  import opened Common
  import opened CrossChain

  datatype Tier = LogOnly | Watchlist | Quarantine | Emergency

  /** Tiers by severity. */
  function Level(t: Tier): nat {
    match t
    case LogOnly => 0
    case Watchlist => 1
    case Quarantine => 2
    case Emergency => 3
  }

  /** A negative score marks a model that is not available; centrality always is. */
  datatype ModelScores = ModelScores(
    gnn: real,
    autoencoder: real,
    isolationForest: real,
    centrality: real,
    velocityFlag: bool,
    knownBad: bool)

  /** The weight of each signal; one absent from the dictionary weighs 0. */
  datatype Weights = Weights(gnn: real, autoencoder: real, isolationForest: real, centrality: real)

  /** A contributing score and its weight. */
  datatype Term = Term(score: real, weight: real)

  function TermIf(score: real, weight: real): seq<Term> {
    if score >= 0.0 then [Term(score, weight)] else []
  }

  predicate MlPresent(s: ModelScores) {
    s.gnn >= 0.0 || s.autoencoder >= 0.0 || s.isolationForest >= 0.0
  }

  /** Live mode halves a centrality that no model accompanies. */
  function EffectiveCentrality(s: ModelScores, live: bool): real {
    if live && !MlPresent(s) then s.centrality * 0.5 else s.centrality
  }

  /** The contributing scores, in the order of the source's dictionary. */
  function Terms(s: ModelScores, w: Weights, live: bool): (r: seq<Term>)
    ensures r != []
  {
    TermIf(s.gnn, w.gnn) + TermIf(s.autoencoder, w.autoencoder) + TermIf(s.isolationForest, w.isolationForest)
    + [Term(EffectiveCentrality(s, live), w.centrality)]
  }

  function TotalWeight(ts: seq<Term>): real {
    if ts == [] then 0.0 else TotalWeight(ts[..|ts| - 1]) + ts[|ts| - 1].weight
  }

  function ScoreSum(ts: seq<Term>): real {
    if ts == [] then 0.0 else ScoreSum(ts[..|ts| - 1]) + ts[|ts| - 1].score
  }

  function WeightedSum(ts: seq<Term>, total: real): real
    requires total != 0.0
  {
    if ts == [] then 0.0 else WeightedSum(ts[..|ts| - 1], total) + Share(ts[|ts| - 1], total)
  }

  /** What one term contributes to the weighted average. */
  function Share(t: Term, total: real): real
    requires total != 0.0
  {
    t.score * t.weight / total
  }

  /** The weighted average, or the plain mean if the contributing weights are all 0. */
  function Average(ts: seq<Term>): real
    requires ts != []
  {
    if TotalWeight(ts) == 0.0 then ScoreSum(ts) / |ts| as real else WeightedSum(ts, TotalWeight(ts))
  }

  // ---- the average is a convex combination ----

  ghost predicate Weighted(ts: seq<Term>) {
    forall i :: 0 <= i < |ts| ==> ts[i].weight >= 0.0
  }

  ghost predicate Between(ts: seq<Term>, lo: real, hi: real) {
    forall i :: 0 <= i < |ts| ==> lo <= ts[i].score <= hi
  }

  /** A product, under a name, so that sums of products are compared term by term. */
  ghost function Mul(x: real, y: real): real { x * y }

  lemma Scale(x: real, y: real, w: real)
    requires x <= y && w >= 0.0
    ensures Mul(x, w) <= Mul(y, w)
  {
  }

  lemma Unscale(x: real, y: real, w: real)
    requires Mul(x, w) <= Mul(y, w) && w > 0.0
    ensures x <= y
  {
  }

  lemma MulAdd(a: real, x: real, y: real)
    ensures Mul(a, x + y) == Mul(a, x) + Mul(a, y) && Mul(a, 0.0) == 0.0
  {
  }

  lemma DivideBack(a: real, total: real)
    requires total != 0.0
    ensures Mul(a / total, total) == a
  {
  }

  lemma AddShare(sum: real, t: Term, total: real)
    requires total != 0.0
    ensures Mul(sum + Share(t, total), total) == Mul(sum, total) + Mul(t.score, t.weight) && Mul(0.0, total) == 0.0
  {
    DivideBack(t.score * t.weight, total);
  }

  lemma {:induction false} WeightsAdd(ts: seq<Term>)
    requires Weighted(ts)
    ensures TotalWeight(ts) >= 0.0
  {
    if ts != [] {
      WeightsAdd(ts[..|ts| - 1]);
    }
  }

  lemma {:induction false} WeightedSumBounds(ts: seq<Term>, total: real, lo: real, hi: real)
    requires Weighted(ts) && Between(ts, lo, hi) && total > 0.0
    ensures Mul(lo, TotalWeight(ts)) <= Mul(WeightedSum(ts, total), total) <= Mul(hi, TotalWeight(ts))
  {
    hide Mul, Share;
    if ts == [] {
      MulAdd(lo, 0.0, 0.0);
      MulAdd(hi, 0.0, 0.0);
      AddShare(0.0, Term(0.0, 0.0), total);
    } else {
      var front, last := ts[..|ts| - 1], ts[|ts| - 1];
      WeightedSumBounds(front, total, lo, hi);
      AddShare(WeightedSum(front, total), last, total);
      Scale(lo, last.score, last.weight);
      Scale(last.score, hi, last.weight);
      MulAdd(lo, TotalWeight(front), last.weight);
      MulAdd(hi, TotalWeight(front), last.weight);
    }
  }

  lemma {:induction false} ScoreSumBounds(ts: seq<Term>, lo: real, hi: real)
    requires Between(ts, lo, hi)
    ensures Mul(lo, |ts| as real) <= ScoreSum(ts) <= Mul(hi, |ts| as real)
  {
    if ts != [] {
      ScoreSumBounds(ts[..|ts| - 1], lo, hi);
      MulAdd(lo, (|ts| - 1) as real, 1.0);
      MulAdd(hi, (|ts| - 1) as real, 1.0);
    }
  }

  /** The composite before adjustments lies between the least and the greatest contributing score. */
  lemma AverageIsConvex(ts: seq<Term>, lo: real, hi: real)
    requires ts != [] && Weighted(ts) && Between(ts, lo, hi)
    ensures lo <= Average(ts) <= hi
  {
    WeightsAdd(ts);
    hide Mul, TotalWeight, ScoreSum, WeightedSum;
    var total := TotalWeight(ts);
    if total == 0.0 {
      ScoreSumBounds(ts, lo, hi);
      var n := |ts| as real;
      DivideBack(ScoreSum(ts), n);
      Unscale(lo, Average(ts), n);
      Unscale(Average(ts), hi, n);
    } else {
      WeightedSumBounds(ts, total, lo, hi);
      Unscale(lo, Average(ts), total);
      Unscale(Average(ts), hi, total);
    }
  }

  /** Same weights, no score lower. */
  ghost predicate Dominated(ts: seq<Term>, us: seq<Term>) {
    |ts| == |us| && forall i :: 0 <= i < |ts| ==> ts[i].weight == us[i].weight && ts[i].score <= us[i].score
  }

  lemma {:induction false} SumsMonotone(ts: seq<Term>, us: seq<Term>, total: real)
    requires Weighted(ts) && Dominated(ts, us) && total > 0.0
    ensures TotalWeight(ts) == TotalWeight(us)
    ensures ScoreSum(ts) <= ScoreSum(us)
    ensures Mul(WeightedSum(ts, total), total) <= Mul(WeightedSum(us, total), total)
  {
    hide Mul, Share;
    if ts != [] {
      var a, b := ts[..|ts| - 1], us[..|us| - 1];
      SumsMonotone(a, b, total);
      AddShare(WeightedSum(a, total), ts[|ts| - 1], total);
      AddShare(WeightedSum(b, total), us[|us| - 1], total);
      Scale(ts[|ts| - 1].score, us[|us| - 1].score, ts[|ts| - 1].weight);
    }
  }

  lemma AverageIsMonotone(ts: seq<Term>, us: seq<Term>)
    requires ts != [] && Weighted(ts) && Dominated(ts, us)
    ensures Average(ts) <= Average(us)
  {
    WeightsAdd(ts);
    hide Mul, TotalWeight, ScoreSum, WeightedSum;
    var total := TotalWeight(ts);
    if total == 0.0 {
      SumsMonotone(ts, us, 1.0);
      var n := |ts| as real;
      DivideBack(ScoreSum(ts), n);
      DivideBack(ScoreSum(us), n);
      Unscale(Average(ts), Average(us), n);
    } else {
      SumsMonotone(ts, us, total);
      Unscale(Average(ts), Average(us), total);
    }
  }

  // ---- adjustments ----

  function Boosted(c: real, boost: real): real {
    if boost > 1.0 then c * boost else c
  }

  /** Velocity boost and known-bad floor. */
  function Flagged(c: real, s: ModelScores): real {
    var c1 := if s.velocityFlag then Min(1.0, c * 1.3) else c;
    if s.knownBad then Max(c1, 0.9) else c1
  }

  /** All adjustments in order: flags, cross-chain boost, clamp. */
  function Adjusted(c: real, s: ModelScores, boost: real): real {
    Max(0.0, Min(1.0, Boosted(Flagged(c, s), boost)))
  }

  function Composite(s: ModelScores, w: Weights, boost: real, live: bool): real {
    Adjusted(Average(Terms(s, w, live)), s, boost)
  }

  function ActionTier(score: real): Tier {
    if score >= 0.85 then Emergency
    else if score >= 0.70 then Quarantine
    else if score >= 0.50 then Watchlist
    else LogOnly
  }

  function TierOf(s: ModelScores, w: Weights, boost: real, live: bool): Tier {
    ActionTier(Composite(s, w, boost, live))
  }

  predicate UnitScores(s: ModelScores) {
    s.gnn <= 1.0 && s.autoencoder <= 1.0 && s.isolationForest <= 1.0 && 0.0 <= s.centrality <= 1.0
  }

  predicate NonNegative(w: Weights) {
    w.gnn >= 0.0 && w.autoencoder >= 0.0 && w.isolationForest >= 0.0 && w.centrality >= 0.0
  }

  lemma BoostedMonotone(c: real, d: real, boost: real, boost': real)
    requires 0.0 <= c <= d && boost <= boost'
    ensures c <= Boosted(c, boost) <= Boosted(d, boost')
  {
    if boost > 1.0 {
      Scale(1.0, boost, c);
      Scale(boost, boost', c);
    }
    if boost' > 1.0 {
      Scale(1.0, boost', d);
      Scale(c, d, boost');
    }
  }

  lemma AdjustedMonotone(c: real, d: real, s: ModelScores, t: ModelScores, boost: real, boost': real)
    requires 0.0 <= c <= d && boost <= boost'
    requires s.velocityFlag ==> t.velocityFlag
    requires s.knownBad ==> t.knownBad
    ensures 0.0 <= Adjusted(c, s, boost) <= Adjusted(d, t, boost') <= 1.0
  {
    hide Boosted;
    var x, y := Flagged(c, s), Flagged(d, t);
    if x <= y {
      BoostedMonotone(x, y, boost, boost');
    } else {
      assert y >= 1.0;
      BoostedMonotone(y, y, boost', boost');
    }
  }

  /** Every available score of `t` is at least that of `s`, and the same ones are available. */
  predicate NoLower(s: ModelScores, t: ModelScores) {
    && (s.gnn >= 0.0 <==> t.gnn >= 0.0) && (s.gnn >= 0.0 ==> s.gnn <= t.gnn)
    && (s.autoencoder >= 0.0 <==> t.autoencoder >= 0.0) && (s.autoencoder >= 0.0 ==> s.autoencoder <= t.autoencoder)
    && (s.isolationForest >= 0.0 <==> t.isolationForest >= 0.0)
    && (s.isolationForest >= 0.0 ==> s.isolationForest <= t.isolationForest)
    && s.centrality <= t.centrality
    && (s.velocityFlag ==> t.velocityFlag)
    && (s.knownBad ==> t.knownBad)
  }

  lemma TermsAreUnit(s: ModelScores, w: Weights, live: bool)
    requires UnitScores(s) && NonNegative(w)
    ensures Weighted(Terms(s, w, live)) && Between(Terms(s, w, live), 0.0, 1.0)
  {
  }

  lemma TermsDominated(s: ModelScores, t: ModelScores, w: Weights, live: bool)
    requires NoLower(s, t)
    ensures Dominated(Terms(s, w, live), Terms(t, w, live))
  {
  }

  /** The final score is in [0, 1] and monotone in every available score, in both
      flags and in the boost; so is the tier. */
  lemma CompositeIsMonotone(s: ModelScores, t: ModelScores, w: Weights, boost: real, boost': real, live: bool)
    requires UnitScores(s) && UnitScores(t) && NonNegative(w) && NoLower(s, t) && boost <= boost'
    ensures 0.0 <= Composite(s, w, boost, live) <= Composite(t, w, boost', live) <= 1.0
    ensures Level(TierOf(s, w, boost, live)) <= Level(TierOf(t, w, boost', live))
  {
    hide Terms, Average, Adjusted;
    TermsAreUnit(s, w, live);
    TermsDominated(s, t, w, live);
    AverageIsConvex(Terms(s, w, live), 0.0, 1.0);
    AverageIsMonotone(Terms(s, w, live), Terms(t, w, live));
    AdjustedMonotone(Average(Terms(s, w, live)), Average(Terms(t, w, live)), s, t, boost, boost');
  }

  /** A known bad address always escalates, whatever the scores, weights and boost. */
  lemma KnownBadIsEmergency(s: ModelScores, w: Weights, boost: real, live: bool)
    requires s.knownBad
    ensures TierOf(s, w, boost, live) == Emergency
  {
    hide Average, Terms, Boosted;
    var c := Flagged(Average(Terms(s, w, live)), s);
    BoostedMonotone(c, c, boost, boost);
  }

  /** For fixed model scores an address's tier never drops while transactions are
      observed, since its cross-chain boost never does. */
  lemma TierNeverDrops(ss: seq<Sighting>, k: nat, a: Address, s: ModelScores, w: Weights, live: bool)
    requires k <= |ss| && UnitScores(s) && NonNegative(w)
    ensures Level(TierOf(s, w, RiskBoost(ObservedAll(ss[..k]), a), live))
         <= Level(TierOf(s, w, RiskBoost(ObservedAll(ss), a), live))
  {
    hide TierOf, RiskBoost, ObservedAll;
    BoostOverRun(ss, k, a);
    CompositeIsMonotone(s, s, w, RiskBoost(ObservedAll(ss[..k]), a), RiskBoost(ObservedAll(ss), a), live);
  }

  /** In live mode a lone centrality, with no boost of any kind, is a threat
      exactly when it is 1: the damping keeps it below the watchlist otherwise. */
  lemma LoneCentralityIsThreatIffOne(s: ModelScores, w: Weights, boost: real)
    requires UnitScores(s) && !MlPresent(s) && !s.velocityFlag && !s.knownBad && boost <= 1.0
    ensures TierOf(s, w, boost, true) == (if s.centrality == 1.0 then Watchlist else LogOnly)
  {
    var t := Term(s.centrality * 0.5, w.centrality);
    assert Terms(s, w, true) == [t];
    AverageOfOne(t);
    hide Terms, Average;
  }

  lemma AverageOfOne(t: Term)
    ensures Average([t]) == t.score
  {
    var ts := [t];
    assert ts[..|ts| - 1] == [];
    assert TotalWeight(ts) == t.weight && ScoreSum(ts) == t.score;
    if t.weight != 0.0 {
      assert WeightedSum(ts, t.weight) == Share(t, t.weight) == t.score;
    }
  }

  // ---- confidence ----

  /** How many scores lie on the same side of 0.5 as `mean`. */
  function Agreeing(ts: seq<Term>, mean: real): nat {
    if ts == [] then 0
    else
      Agreeing(ts[..|ts| - 1], mean)
      + (if (mean >= 0.5 && ts[|ts| - 1].score >= 0.5) || (mean < 0.5 && ts[|ts| - 1].score < 0.5) then 1 else 0)
  }

  /** The share of agreeing scores; computed on the scores as given, not damped. */
  function Confidence(s: ModelScores, w: Weights): real {
    var ts := Terms(s, w, false);
    Agreeing(ts, ScoreSum(ts) / |ts| as real) as real / |ts| as real
  }

  lemma {:induction false} NoneAgree(ts: seq<Term>, mean: real)
    requires Agreeing(ts, mean) == 0
    ensures mean >= 0.5 ==> ts == [] || ScoreSum(ts) < 0.5 * |ts| as real
    ensures mean < 0.5 ==> ScoreSum(ts) >= 0.5 * |ts| as real
  {
    if ts != [] {
      NoneAgree(ts[..|ts| - 1], mean);
    }
  }

  lemma SomeoneAgrees(ts: seq<Term>, mean: real)
    requires ts != [] && Mul(mean, |ts| as real) == ScoreSum(ts)
    ensures Agreeing(ts, mean) > 0
  {
    if Agreeing(ts, mean) == 0 {
      NoneAgree(ts, mean);
      if mean >= 0.5 {
        Scale(0.5, mean, |ts| as real);
      } else {
        Unscale(0.5, mean, |ts| as real);
      }
    }
  }

  lemma {:induction false} AtMostAllAgree(ts: seq<Term>, mean: real)
    ensures Agreeing(ts, mean) <= |ts|
  {
    if ts != [] {
      AtMostAllAgree(ts[..|ts| - 1], mean);
    }
  }

  /** At least one of the n scores agrees with their mean: confidence is in [1/n, 1]. */
  lemma ConfidenceBounds(s: ModelScores, w: Weights)
    ensures var n := |Terms(s, w, false)| as real;
            1.0 / n <= Confidence(s, w) <= 1.0
  {
    var ts := Terms(s, w, false);
    hide Terms;
    var n := |ts| as real;
    var mean := ScoreSum(ts) / n;
    DivideBack(ScoreSum(ts), n);
    AtMostAllAgree(ts, mean);
    SomeoneAgrees(ts, mean);
    Ratio(1.0, Agreeing(ts, mean) as real, n);
    Ratio(Agreeing(ts, mean) as real, n, n);
  }

  lemma Ratio(a: real, b: real, n: real)
    requires a <= b && n > 0.0
    ensures a / n <= b / n && n / n == 1.0
  {
    DivideBack(a, n);
    DivideBack(b, n);
    Unscale(a / n, b / n, n);
  }

  // ---- the scorer ----

  datatype Assessment = Assessment(composite: real, confidence: real, action: Tier)

  /** Computes the composite step by step. */
  method Score(s: ModelScores, w: Weights, boost: real, live: bool) returns (r: Assessment)
    ensures r.composite == Composite(s, w, boost, live)
    ensures r.action == TierOf(s, w, boost, live)
    ensures r.confidence == Confidence(s, w)
  {
    hide Average, Terms;
    var composite := Average(Terms(s, w, live));
    if s.velocityFlag {
      composite := Min(1.0, composite * 1.3);
    }
    if s.knownBad {
      composite := Max(composite, 0.9);
    }
    if boost > 1.0 {
      composite := composite * boost;
    }
    composite := Max(0.0, Min(1.0, composite));
    r := Assessment(composite, Confidence(s, w), ActionTier(composite));
  }
}
