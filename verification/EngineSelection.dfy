/**
 Scoring and selection: the selected tier is never dominated, scores are
 proportions, and a routed decision explains every candidate.
 */
module EngineSelection {
  import opened Ordering
  import opened Snapshots
  import opened Engine
  import opened EngineFacts

  // ---- monotone scores ----

  lemma ScaleMonotone(w: real, x: real, y: real)
    ensures w >= 0.0 && x <= y ==> w * x <= w * y
  {}

  lemma DivMonotone(x: real, y: real, z: real)
    ensures x <= y && z > 0.0 ==> x / z <= y / z
  {}

  lemma NormMonotone(u: real, v: real, lo: real, hi: real)
    requires u <= v
    ensures Norm(u, lo, hi) <= Norm(v, lo, hi)
  {
    if hi > lo {
      DivMonotone(u - lo, v - lo, hi - lo);
    }
  }

  /** `a` is no worse than `b` in quality and latency, and no dearer. */
  predicate NoWorse(a: Scored, b: Scored) {
    a.cost <= b.cost && a.quality >= b.quality && a.latency <= b.latency
  }

  predicate NonNegative(w: Weights) {
    w.cost >= 0.0 && w.quality >= 0.0 && w.latency >= 0.0
  }

  lemma ScoreMonotone(w: Weights, ss: seq<Scored>, a: Scored, b: Scored)
    requires NonNegative(w) && NoWorse(a, b)
    ensures RawScore(w, ss, a) >= RawScore(w, ss, b)
    ensures Rank(w, ss, a).score >= Rank(w, ss, b).score
  {
    hide Norm, MinOf, MaxOf, Round6;
    var lc, hc := MinOf(Costs(ss)), MaxOf(Costs(ss));
    var lq, hq := MinOf(Qualities(ss)), MaxOf(Qualities(ss));
    var ll, hl := MinOf(Latencies(ss)), MaxOf(Latencies(ss));
    NormMonotone(a.cost as real, b.cost as real, lc, hc);
    NormMonotone(b.quality, a.quality, lq, hq);
    NormMonotone(a.latency as real, b.latency as real, ll, hl);
    ScaleMonotone(w.cost, 1.0 - Norm(b.cost as real, lc, hc), 1.0 - Norm(a.cost as real, lc, hc));
    ScaleMonotone(w.quality, Norm(b.quality, lq, hq), Norm(a.quality, lq, hq));
    ScaleMonotone(w.latency, 1.0 - Norm(b.latency as real, ll, hl), 1.0 - Norm(a.latency as real, ll, hl));
    Round6Monotone(RawScore(w, ss, b), RawScore(w, ss, a));
  }

  lemma RankReflexive(r: Ranked)
    ensures RankLe(r, r)
  {
    StrTotal(r.scored.tier.name, r.scored.tier.name);
  }

  lemma FirstIsLeast(w: Weights, ss: seq<Scored>, s: Scored)
    requires s in ss
    ensures Ranking(w, ss) != [] && RankLe(Ranking(w, ss)[0], Rank(w, ss, s))
  {
    hide RankLe, RawScore, Round6, Rank;
    RankingSound(w, ss);
    RankOrder();
    var ranked := Ranking(w, ss);
    var i :| 0 <= i < |ranked| && ranked[i] == Rank(w, ss, s);
    RankReflexive(Rank(w, ss, s));
  }

  /** Nothing that was kept is strictly cheaper than the first in the ranking without being worse in some other way. */
  lemma RankingUndominated(w: Weights, ss: seq<Scored>, s: Scored)
    requires NonNegative(w) && s in ss
    ensures Ranking(w, ss) != []
    ensures var best := Ranking(w, ss)[0].scored; !(NoWorse(s, best) && s.cost < best.cost)
  {
    hide RawScore, Round6;
    FirstIsLeast(w, ss, s);
    RankingSound(w, ss);
    var first := Ranking(w, ss)[0];
    if NoWorse(s, first.scored) {
      ScoreMonotone(w, ss, s, first.scored);
    }
  }

  /**
   Selection is undominated: for non-negative weights no hard-constraint survivor, kept by the floor or not,
   is strictly cheaper than the selected tier while at least as good in predicted quality and no slower.
   */
  lemma SelectionUndominated(
    predict: Predictor, core: Core, p: Policy, req: Request, f: Findings, dc: Option<DataClass>, d: Explanation,
    n: string)
    requires ReachesScoring(core, p, req, f, dc) && NonNegative(p.weights)
    requires n in p.candidates && Survives(core, n, p, req, f, dc)
    ensures var e := Judge(predict, core, p, req, f, dc, d);
      exists m :: m in p.candidates && Survives(core, m, p, req, f, dc)
        && e.selectedTier == Some(core.tiers[m].name)
        && var s, best := ScoreTier(predict, p, req, f, core.tiers[n]), ScoreTier(predict, p, req, f, core.tiers[m]);
           !(NoWorse(s, best) && s.cost < best.cost)
  {
    hide Judge, HardConstraintViolation, ScoreTier, RankLe, Rank, PassesFloor, Survivors, NoWorse, NonNegative,
      DegradedList;
    var ss := Contenders(predict, core, p, req, f, dc);
    ScoringSelects(predict, core, p, req, f, dc, d);
    SurvivorContends(predict, core, p, req, f, dc, n);
    var s := ScoreTier(predict, p, req, f, core.tiers[n]);
    var first := FinalRanking(predict, core, p, req, f, dc)[0];
    RankedSurvive(predict, core, p, req, f, dc, first);
    var m :| m in p.candidates && Survives(core, m, p, req, f, dc) && core.tiers[m] == first.scored.tier;
    KeptSound(p.qualityFloor, ss);
    RankingSound(p.weights, Kept(p.qualityFloor, ss));
    FloorOrRank(p, ss, s, first.scored);
  }

  lemma FloorOrRank(p: Policy, ss: seq<Scored>, s: Scored, best: Scored)
    requires NonNegative(p.weights) && s in ss
    requires Ranking(p.weights, Kept(p.qualityFloor, ss)) != []
    requires best == Ranking(p.weights, Kept(p.qualityFloor, ss))[0].scored
    requires best in ss && PassesFloor(p.qualityFloor, ss, best)
    ensures !(NoWorse(s, best) && s.cost < best.cost)
  {
    hide PassesFloor, Ranking, Kept, NonNegative;
    if NoWorse(s, best) && s.cost < best.cost {
      FloorIsUpwardClosed(p.qualityFloor, ss, s, best);
      KeptSound(p.qualityFloor, ss);
      RankingUndominated(p.weights, Kept(p.qualityFloor, ss), s);
    }
  }
}
