/** The composite score of `src/response/risk_scorer.py` in terms of the single
    model scores and weights. */
module ScoreFields {
  import opened RiskScorer

  /** `x` if the model with this score is available, else nothing. */
  function IfAvailable(score: real, x: real): real {
    if score >= 0.0 then x else 0.0
  }

  /** What a model adds to the weighted sum: its score times its weight, if available. */
  function Weighed(score: real, weight: real): real {
    if score >= 0.0 then score * weight else 0.0
  }

  /** The weights of the available models and of centrality. */
  function AvailableWeight(s: ModelScores, w: Weights): real {
    IfAvailable(s.gnn, w.gnn) + IfAvailable(s.autoencoder, w.autoencoder)
    + IfAvailable(s.isolationForest, w.isolationForest) + w.centrality
  }

  /** Centrality, halved in live mode if no model is available. */
  function CentralityUsed(s: ModelScores, live: bool): real {
    if live && s.gnn < 0.0 && s.autoencoder < 0.0 && s.isolationForest < 0.0 then s.centrality / 2.0 else s.centrality
  }

  /** The sum of the available scores times their weights. */
  function WeightedScores(s: ModelScores, w: Weights, live: bool): real {
    Weighed(s.gnn, w.gnn) + Weighed(s.autoencoder, w.autoencoder) + Weighed(s.isolationForest, w.isolationForest)
    + CentralityUsed(s, live) * w.centrality
  }

  function PlainSum(s: ModelScores, live: bool): real {
    IfAvailable(s.gnn, s.gnn) + IfAvailable(s.autoencoder, s.autoencoder)
    + IfAvailable(s.isolationForest, s.isolationForest) + CentralityUsed(s, live)
  }

  function AvailableCount(s: ModelScores): real {
    IfAvailable(s.gnn, 1.0) + IfAvailable(s.autoencoder, 1.0) + IfAvailable(s.isolationForest, 1.0) + 1.0
  }

  lemma OneMoreTerm(ts: seq<Term>, t: Term, total: real, mean: real)
    requires total != 0.0
    ensures TotalWeight(ts + [t]) == TotalWeight(ts) + t.weight
    ensures ScoreSum(ts + [t]) == ScoreSum(ts) + t.score
    ensures Mul(WeightedSum(ts + [t], total), total) == Mul(WeightedSum(ts, total), total) + Mul(t.score, t.weight)
    ensures Agreeing(ts + [t], mean)
         == Agreeing(ts, mean) + if mean >= 0.5 <==> t.score >= 0.5 then 1 else 0
  {
    assert (ts + [t])[..|ts|] == ts;
    hide Mul, Share;
    AddShare(WeightedSum(ts, total), t, total);
  }

  /** Appending a model changes the sums only if it is available. */
  lemma OneMoreModel(ts: seq<Term>, score: real, weight: real, total: real, mean: real)
    requires total != 0.0
    ensures var us := ts + TermIf(score, weight);
            && TotalWeight(us) == TotalWeight(ts) + IfAvailable(score, weight)
            && ScoreSum(us) == ScoreSum(ts) + IfAvailable(score, score)
            && |us| as real == |ts| as real + IfAvailable(score, 1.0)
            && Mul(WeightedSum(us, total), total) == Mul(WeightedSum(ts, total), total) + Weighed(score, weight)
            && Agreeing(us, mean)
               == Agreeing(ts, mean) + if score >= 0.0 && (mean >= 0.5 <==> score >= 0.5) then 1 else 0
  {
    if score >= 0.0 {
      OneMoreTerm(ts, Term(score, weight), total, mean);
    } else {
      assert ts + TermIf(score, weight) == ts;
    }
    assert score >= 0.0 ==> Mul(score, weight) == Weighed(score, weight);
    hide TotalWeight, ScoreSum, WeightedSum, Agreeing, Mul;
  }

  lemma NoTerms(total: real, mean: real)
    requires total != 0.0
    ensures TotalWeight([]) == ScoreSum([]) == Mul(WeightedSum([], total), total) == 0.0 && Agreeing([], mean) == 0
  {
  }

  /** The sums over the contributing terms, model by model. */
  lemma SumsOfTerms(s: ModelScores, w: Weights, live: bool, total: real, mean: real)
    requires total != 0.0
    ensures var ts := Terms(s, w, live);
            && TotalWeight(ts) == AvailableWeight(s, w)
            && ScoreSum(ts) == PlainSum(s, live)
            && |ts| as real == AvailableCount(s)
            && Mul(WeightedSum(ts, total), total)
               == Weighed(s.gnn, w.gnn)
                  + Weighed(s.autoencoder, w.autoencoder)
                  + Weighed(s.isolationForest, w.isolationForest)
                  + Mul(CentralityUsed(s, live), w.centrality)
            && Agreeing(ts, mean)
               == (if s.gnn >= 0.0 && (mean >= 0.5 <==> s.gnn >= 0.5) then 1 else 0)
                  + (if s.autoencoder >= 0.0 && (mean >= 0.5 <==> s.autoencoder >= 0.5) then 1 else 0)
                  + (if s.isolationForest >= 0.0 && (mean >= 0.5 <==> s.isolationForest >= 0.5) then 1 else 0)
                  + (if mean >= 0.5 <==> CentralityUsed(s, live) >= 0.5 then 1 else 0)
  {
    hide TotalWeight, ScoreSum, WeightedSum, Agreeing, TermIf, IfAvailable, Weighed, Mul;
    var a := TermIf(s.gnn, w.gnn);
    var b := a + TermIf(s.autoencoder, w.autoencoder);
    var c := b + TermIf(s.isolationForest, w.isolationForest);
    assert [] + a == a;
    NoTerms(total, mean);
    OneMoreModel([], s.gnn, w.gnn, total, mean);
    OneMoreModel(a, s.autoencoder, w.autoencoder, total, mean);
    OneMoreModel(b, s.isolationForest, w.isolationForest, total, mean);
    OneMoreTerm(c, Term(EffectiveCentrality(s, live), w.centrality), total, mean);
    assert Terms(s, w, live) == c + [Term(EffectiveCentrality(s, live), w.centrality)];
  }

  lemma AverageTimesWeight(s: ModelScores, w: Weights, live: bool)
    ensures var average, total := Average(Terms(s, w, live)), AvailableWeight(s, w);
            && (total != 0.0 ==>
                  Mul(average, total) == Weighed(s.gnn, w.gnn)
                                         + Weighed(s.autoencoder, w.autoencoder)
                                         + Weighed(s.isolationForest, w.isolationForest)
                                         + Mul(CentralityUsed(s, live), w.centrality))
            && (total == 0.0 ==> Mul(average, AvailableCount(s)) == PlainSum(s, live))
  {
    hide TotalWeight, ScoreSum, WeightedSum, Terms, IfAvailable, CentralityUsed, Agreeing, Mul, Weighed, PlainSum;
    hide AvailableWeight, AvailableCount;
    var total := AvailableWeight(s, w);
    SumsOfTerms(s, w, live, if total != 0.0 then total else 1.0, 0.0);
    if total == 0.0 {
      DivideBack(ScoreSum(Terms(s, w, live)), AvailableCount(s));
    }
  }

  lemma Product(x: real, y: real)
    ensures Mul(x, y) == x * y
  {
  }

  /** The score before adjustments, model by model: the mean of the available
      scores, weighted by the weights of these, or their plain mean if the
      weights add up to 0. */
  lemma AverageIsWeightedMean(s: ModelScores, w: Weights, live: bool)
    ensures var average, total := Average(Terms(s, w, live)), AvailableWeight(s, w);
            && (total != 0.0 ==> average * total == WeightedScores(s, w, live))
            && (total == 0.0 ==> average * AvailableCount(s) == PlainSum(s, live))
  {
    hide Mul, Weighed, IfAvailable, CentralityUsed, Average, Terms, AvailableWeight, AvailableCount, PlainSum;
    var average := Average(Terms(s, w, live));
    AverageTimesWeight(s, w, live);
    Product(average, AvailableWeight(s, w));
    Product(average, AvailableCount(s));
    Product(CentralityUsed(s, live), w.centrality);
  }

  /** Two score records that differ in one model at most, and that has weight 0. */
  predicate DifferInWeightless(s: ModelScores, t: ModelScores, w: Weights) {
    || (t == s.(gnn := t.gnn) && w.gnn == 0.0)
    || (t == s.(autoencoder := t.autoencoder) && w.autoencoder == 0.0)
    || (t == s.(isolationForest := t.isolationForest) && w.isolationForest == 0.0)
  }

  /** A model of weight 0 has no influence: neither its score nor its absence
      shows, as long as other weights are left and, in live mode, the presence of
      some model is the same. */
  lemma WeightlessModelIsIgnored(s: ModelScores, t: ModelScores, w: Weights, boost: real, live: bool)
    requires DifferInWeightless(s, t, w)
    requires AvailableWeight(s, w) != 0.0 && (live ==> (MlPresent(s) <==> MlPresent(t)))
    ensures Composite(s, w, boost, live) == Composite(t, w, boost, live)
  {
    SameParts(s, t, w, live);
    AverageTimesWeight(s, w, live);
    AverageTimesWeight(t, w, live);
    hide Average, Terms, Weighed, IfAvailable, CentralityUsed, AvailableCount, PlainSum, Mul, AvailableWeight;
    CancelWeight(Average(Terms(s, w, live)), Average(Terms(t, w, live)), AvailableWeight(s, w));
  }

  lemma SameParts(s: ModelScores, t: ModelScores, w: Weights, live: bool)
    requires DifferInWeightless(s, t, w)
    requires live ==> (MlPresent(s) <==> MlPresent(t))
    ensures Weighed(s.gnn, w.gnn) == Weighed(t.gnn, w.gnn)
    ensures Weighed(s.autoencoder, w.autoencoder) == Weighed(t.autoencoder, w.autoencoder)
    ensures Weighed(s.isolationForest, w.isolationForest) == Weighed(t.isolationForest, w.isolationForest)
    ensures CentralityUsed(s, live) == CentralityUsed(t, live) && AvailableWeight(s, w) == AvailableWeight(t, w)
  {
  }

  lemma CancelWeight(x: real, y: real, w: real)
    requires Mul(x, w) == Mul(y, w) && w != 0.0
    ensures x == y
  {
    assert x == x * w / w && y == y * w / w;
  }

  /** The signal that carries all the weight there is decides alone. */
  lemma SoleWeightDecides(s: ModelScores, w: Weights, live: bool)
    requires AvailableWeight(s, w) != 0.0
    ensures s.gnn >= 0.0 && w == Weights(w.gnn, 0.0, 0.0, 0.0) ==> Average(Terms(s, w, live)) == s.gnn
    ensures s.autoencoder >= 0.0 && w == Weights(0.0, w.autoencoder, 0.0, 0.0) ==>
              Average(Terms(s, w, live)) == s.autoencoder
    ensures s.isolationForest >= 0.0 && w == Weights(0.0, 0.0, w.isolationForest, 0.0) ==>
              Average(Terms(s, w, live)) == s.isolationForest
    ensures w == Weights(0.0, 0.0, 0.0, w.centrality) ==> Average(Terms(s, w, live)) == CentralityUsed(s, live)
  {
    AverageTimesWeight(s, w, live);
    hide Average, Terms, CentralityUsed, AvailableCount, PlainSum;
    var average, total := Average(Terms(s, w, live)), AvailableWeight(s, w);
    Product(average, total);
    if s.gnn >= 0.0 && w == Weights(w.gnn, 0.0, 0.0, 0.0) {
      CancelWeight(average, s.gnn, total);
    }
    if s.autoencoder >= 0.0 && w == Weights(0.0, w.autoencoder, 0.0, 0.0) {
      CancelWeight(average, s.autoencoder, total);
    }
    if s.isolationForest >= 0.0 && w == Weights(0.0, 0.0, w.isolationForest, 0.0) {
      CancelWeight(average, s.isolationForest, total);
    }
    if w == Weights(0.0, 0.0, 0.0, w.centrality) {
      CancelWeight(average, CentralityUsed(s, live), total);
    }
  }

  // ---- adjustments and tier ----

  /** For an average in [0, 1] only the last clamp acts: the composite is the
      average, times 1.3 if the velocity flag is set, raised to 0.9 for a known
      bad address, times the boost, and at most 1. */
  lemma OnlyTheLastClampActs(c: real, s: ModelScores, boost: real)
    requires 0.0 <= c <= 1.0
    ensures var paced := if s.velocityFlag then c * 1.3 else c;
            var floored := if s.knownBad && paced < 0.9 then 0.9 else paced;
            var boosted := if boost > 1.0 then floored * boost else floored;
            Adjusted(c, s, boost) == if boosted < 1.0 then boosted else 1.0
  {
    var paced := if s.velocityFlag then c * 1.3 else c;
    var floored := if s.knownBad && paced < 0.9 then 0.9 else paced;
    if boost > 1.0 {
      Scale(1.0, boost, floored);
      Scale(1.0, boost, Flagged(c, s));
    }
  }

  /** The action is read off the final score. */
  lemma TierIsByThreshold(s: ModelScores, w: Weights, boost: real, live: bool)
    ensures var tier, score := TierOf(s, w, boost, live), Composite(s, w, boost, live);
            && (tier == Emergency <==> score >= 0.85)
            && (tier == Quarantine <==> 0.70 <= score < 0.85)
            && (tier == Watchlist <==> 0.50 <= score < 0.70)
            && (tier == LogOnly <==> score < 0.50)
  {
    hide Composite;
  }

  // ---- confidence ----

  /** One if the model is available and on the same side of 0.5 as `mean`. */
  function AgreesIfAvailable(score: real, mean: real): nat {
    if score >= 0.0 && (mean >= 0.5 <==> score >= 0.5) then 1 else 0
  }

  /** Confidence, model by model: the share of the available signals on the side
      of 0.5 on which their undamped mean lies. */
  lemma ConfidenceIsShare(s: ModelScores, w: Weights)
    ensures var n := AvailableCount(s);
            var mean := PlainSum(s, false) / n;
            var agreeing := AgreesIfAvailable(s.gnn, mean) + AgreesIfAvailable(s.autoencoder, mean)
                            + AgreesIfAvailable(s.isolationForest, mean)
                            + (if mean >= 0.5 <==> s.centrality >= 0.5 then 1 else 0);
            Confidence(s, w) == agreeing as real / n
  {
    SumsOfTerms(s, w, false, 1.0, PlainSum(s, false) / AvailableCount(s));
    hide TotalWeight, ScoreSum, WeightedSum, Terms, IfAvailable, Weighed, Agreeing, Mul, PlainSum, AvailableCount;
  }
}
