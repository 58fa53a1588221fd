/**
 Completeness of the explanation of a scored decision.
 */
module EngineExplain {
  import opened Ordering
  import opened Snapshots
  import opened Engine
  import opened EngineFacts
  import opened EngineSelection

  /** What the compiler guarantees about a policy's candidate list. */
  ghost predicate ResolvedCandidates(core: Core, p: Policy) {
    StrictlyAscending(p.candidates) && forall n | n in p.candidates :: n in core.tiers
  }

  /** The one line the explanation owes to a candidate. */
  predicate Explained(
    predict: Predictor, core: Core, p: Policy, req: Request, f: Findings, dc: Option<DataClass>, best: string,
    c: Candidate)
  {
    && c.tier in core.tiers
    && var t := core.tiers[c.tier];
       var violation := HardConstraintViolation(t, p, req, f, dc);
       var ss := Contenders(predict, core, p, req, f, dc);
       var s := ScoreTier(predict, p, req, f, t);
       if violation.Some? then c == Candidate(c.tier, violation, None, None, None, false)
       else
         && c.predictedQuality == Some(Round6(s.quality)) && c.estimatedCost == Some(MicroToEur(s.cost))
         && if !PassesFloor(p.qualityFloor, ss, s) then
              c.eliminatedBy == Some(QualityFloor) && c.score.None? && !c.selected
            else
              && c.eliminatedBy.None? && (c.selected <==> c.tier == best)
              && c.score == Some(Rank(p.weights, Kept(p.qualityFloor, ss), s).score)
  }

  // ---- names ----

  function TierOf(c: Candidate): string { c.tier }
  function NameOf(t: Tier): string { t.name }
  function ScoredName(s: Scored): string { s.tier.name }
  function RankedName(r: Ranked): string { r.scored.tier.name }

  lemma MapConcat<T, U>(f: T -> U, a: seq<T>, b: seq<T>)
    ensures Map(f, a + b) == Map(f, a) + Map(f, b)
  {}

  lemma {:induction false} Partition<T, U>(f: T -> U, yes: T -> bool, no: T -> bool, xs: seq<T>)
    requires forall i :: 0 <= i < |xs| ==> no(xs[i]) == !yes(xs[i])
    ensures multiset(Map(f, Filter(yes, xs))) + multiset(Map(f, Filter(no, xs))) == multiset(Map(f, xs))
  {
    if xs != [] {
      var front, x := xs[..|xs| - 1], xs[|xs| - 1];
      Partition(f, yes, no, front);
      assert xs == front + [x];
      MapConcat(f, front, [x]);
      assert Map(f, [x]) == [f(x)];
      MapConcat(f, Filter(yes, front), [x]);
      MapConcat(f, Filter(no, front), [x]);
    }
  }

  lemma {:induction false} EliminatedOrSurviving(
    core: Core, names: seq<string>, p: Policy, req: Request, f: Findings, dc: Option<DataClass>)
    requires WellKeyed(core) && forall n | n in names :: n in core.tiers
    ensures multiset(Map(TierOf, Eliminations(core, names, p, req, f, dc)))
            + multiset(Map(NameOf, Survivors(core, names, p, req, f, dc)))
         == multiset(names)
  {
    hide HardConstraintViolation;
    if names != [] {
      var front, n := names[..|names| - 1], names[|names| - 1];
      assert names == front + [n];
      EliminatedOrSurviving(core, front, p, req, f, dc);
      var out, kept := Eliminations(core, front, p, req, f, dc), Survivors(core, front, p, req, f, dc);
      if Survives(core, n, p, req, f, dc) {
        MapConcat(NameOf, kept, [core.tiers[n]]);
        assert Map(NameOf, [core.tiers[n]]) == [n];
      } else {
        var c := Eliminated(n, HardConstraintViolation(core.tiers[n], p, req, f, dc).value);
        MapConcat(TierOf, out, [c]);
        assert Map(TierOf, [c]) == [n];
      }
    }
  }

  /** The three groups of candidates a scored decision lists, before they are put in name order. */
  function Listed(
    predict: Predictor, core: Core, p: Policy, req: Request, f: Findings, dc: Option<DataClass>, best: string
  ): seq<Candidate> {
    Eliminations(core, p.candidates, p, req, f, dc)
    + Map(FloorCandidate, FloorDropped(p.qualityFloor, Contenders(predict, core, p, req, f, dc)))
    + Map(Explaining(best), FinalRanking(predict, core, p, req, f, dc))
  }

  lemma RankedNames(w: Weights, ss: seq<Scored>)
    ensures multiset(Map(RankedName, Ranking(w, ss))) == multiset(Map(ScoredName, ss))
  {
    hide RankLe, RawScore, Round6;
    var rs := Map(Ranker(w, ss), ss);
    SortByPermutes(RankLe, rs);
    MapPermutes(RankedName, Ranking(w, ss), rs);
    assert Map(RankedName, rs) == Map(ScoredName, ss);
  }

  lemma ListedNames(
    predict: Predictor, core: Core, p: Policy, req: Request, f: Findings, dc: Option<DataClass>, best: string)
    requires WellKeyed(core) && ResolvedCandidates(core, p)
    ensures multiset(Map(TierOf, Listed(predict, core, p, req, f, dc, best))) == multiset(p.candidates)
  {
    hide Eliminations, Survivors, ScoreTier, PassesFloor, Ranking, WellKeyed, Round6, MicroToEur;
    var ss := Contenders(predict, core, p, req, f, dc);
    var survivors := Survivors(core, p.candidates, p, req, f, dc);
    EliminatedOrSurviving(core, p.candidates, p, req, f, dc);
    ContenderNames(predict, p, req, f, survivors);
    Partition(ScoredName, Passing(p.qualityFloor, ss), Failing(p.qualityFloor, ss), ss);
    RankedNames(p.weights, Kept(p.qualityFloor, ss));
    var a := Eliminations(core, p.candidates, p, req, f, dc);
    var b := Map(FloorCandidate, FloorDropped(p.qualityFloor, ss));
    var c := Map(Explaining(best), FinalRanking(predict, core, p, req, f, dc));
    assert Map(TierOf, b) == Map(ScoredName, FloorDropped(p.qualityFloor, ss));
    assert Map(TierOf, c) == Map(RankedName, FinalRanking(predict, core, p, req, f, dc));
    MapConcat(TierOf, a + b, c);
    MapConcat(TierOf, a, b);
  }

  lemma ContenderNames(predict: Predictor, p: Policy, req: Request, f: Findings, ts: seq<Tier>)
    ensures Map(ScoredName, ScoreTiers(predict, p, req, f, ts)) == Map(NameOf, ts)
  {
    hide PredictedQuality, EstimateCost;
    forall i | 0 <= i < |ts| ensures ScoredName(ScoreTiers(predict, p, req, f, ts)[i]) == NameOf(ts[i]) {
      ScoreTierKeepsTier(predict, p, req, f, ts[i]);
    }
  }

  // ---- order ----

  lemma CandidateOrder()
    ensures TotalPreorder(CandidateLe)
  {
    StrOrder();
  }

  /** Sorting by tier puts the names of any rearrangement of an ascending list back in that list's order. */
  lemma SortedByName(cs: seq<Candidate>, names: seq<string>)
    requires multiset(Map(TierOf, cs)) == multiset(names) && StrictlyAscending(names)
    ensures Map(TierOf, SortBy(CandidateLe, cs)) == names
  {
    CandidateOrder();
    StrOrder();
    SortByPermutes(CandidateLe, cs);
    SortBySorts(CandidateLe, cs);
    MapPermutes(TierOf, SortBy(CandidateLe, cs), cs);
    SortedUnique(StrLe, Map(TierOf, SortBy(CandidateLe, cs)), names);
  }

  // ---- the lines ----

  lemma EliminatedAreExplained(
    predict: Predictor, core: Core, p: Policy, req: Request, f: Findings, dc: Option<DataClass>, best: string)
    ensures forall c | c in Eliminations(core, p.candidates, p, req, f, dc) ::
      Explained(predict, core, p, req, f, dc, best, c)
  {
    hide HardConstraintViolation, PassesFloor, ScoreTier, Rank, Kept, Contenders;
    EngineExplainEliminations(core, p.candidates, p, req, f, dc);
  }

  lemma {:induction false} EngineExplainEliminations(
    core: Core, names: seq<string>, p: Policy, req: Request, f: Findings, dc: Option<DataClass>)
    ensures forall c | c in Eliminations(core, names, p, req, f, dc) ::
      && c.tier in core.tiers
      && HardConstraintViolation(core.tiers[c.tier], p, req, f, dc).Some?
      && c == Eliminated(c.tier, HardConstraintViolation(core.tiers[c.tier], p, req, f, dc).value)
  {
    hide HardConstraintViolation;
    if names != [] {
      EngineExplainEliminations(core, names[..|names| - 1], p, req, f, dc);
    }
  }

  /** A contender is a surviving candidate with its score inputs. */
  lemma ContenderIsSurvivor(
    predict: Predictor, core: Core, p: Policy, req: Request, f: Findings, dc: Option<DataClass>, s: Scored)
    requires WellKeyed(core) && s in Contenders(predict, core, p, req, f, dc)
    ensures s.tier.name in core.tiers && core.tiers[s.tier.name] == s.tier
    ensures HardConstraintViolation(s.tier, p, req, f, dc).None?
    ensures s == ScoreTier(predict, p, req, f, s.tier)
  {
    hide HardConstraintViolation, PredictedQuality, EstimateCost, Survivors;
    var survivors := Survivors(core, p.candidates, p, req, f, dc);
    SurvivorsSound(core, p.candidates, p, req, f, dc);
    var i :| 0 <= i < |survivors| && Contenders(predict, core, p, req, f, dc)[i] == s;
    assert survivors[i] in survivors;
    assert s == ScoreTier(predict, p, req, f, survivors[i]);
  }

  lemma FloorDroppedAreExplained(
    predict: Predictor, core: Core, p: Policy, req: Request, f: Findings, dc: Option<DataClass>, best: string)
    requires WellKeyed(core)
    ensures var dropped := Map(FloorCandidate, FloorDropped(p.qualityFloor, Contenders(predict, core, p, req, f, dc)));
      forall c | c in dropped :: Explained(predict, core, p, req, f, dc, best, c)
  {
    hide HardConstraintViolation, PassesFloor, ScoreTier, Rank, Kept, Contenders, WellKeyed, Round6, MicroToEur;
    var ss := Contenders(predict, core, p, req, f, dc);
    FilterKeeps(Failing(p.qualityFloor, ss), ss);
    var out := FloorDropped(p.qualityFloor, ss);
    forall c | c in Map(FloorCandidate, out) ensures Explained(predict, core, p, req, f, dc, best, c) {
      var i :| 0 <= i < |out| && c == FloorCandidate(out[i]);
      assert out[i] in out;
      ContenderIsSurvivor(predict, core, p, req, f, dc, out[i]);
    }
  }

  lemma RankedAreExplained(
    predict: Predictor, core: Core, p: Policy, req: Request, f: Findings, dc: Option<DataClass>, best: string)
    requires WellKeyed(core)
    ensures forall c | c in Map(Explaining(best), FinalRanking(predict, core, p, req, f, dc)) ::
      Explained(predict, core, p, req, f, dc, best, c)
  {
    hide HardConstraintViolation, PassesFloor, ScoreTier, Kept, Contenders, WellKeyed, Round6, MicroToEur, RawScore,
      Ranking;
    var ss := Contenders(predict, core, p, req, f, dc);
    var kept := Kept(p.qualityFloor, ss);
    KeptSound(p.qualityFloor, ss);
    RankingSound(p.weights, kept);
    var ranked := FinalRanking(predict, core, p, req, f, dc);
    forall c | c in Map(Explaining(best), ranked) ensures Explained(predict, core, p, req, f, dc, best, c) {
      var i :| 0 <= i < |ranked| && c == RankedCandidate(best, ranked[i]);
      assert ranked[i] in ranked;
      ContenderIsSurvivor(predict, core, p, req, f, dc, ranked[i].scored);
    }
  }

  lemma JudgeLists(
    predict: Predictor, core: Core, p: Policy, req: Request, f: Findings, dc: Option<DataClass>, d: Explanation)
    requires ReachesScoring(core, p, req, f, dc) && d.candidates == []
    ensures var ranked := FinalRanking(predict, core, p, req, f, dc);
      var e := Judge(predict, core, p, req, f, dc, d);
      && ranked != []
      && e.candidates == SortBy(CandidateLe, Listed(predict, core, p, req, f, dc, ranked[0].scored.tier.name))
      && e.estimatedCost == Some(MicroToEur(ranked[0].scored.cost))
      && e.estimatedSavings == Some(MicroToEur(Savings(ranked, ranked[0].scored)))
  {
    hide Survivors, Eliminations, Rank, PassesFloor, HardConstraintViolation, Round6, MicroToEur, Savings, SortBy;
    ScoringSelects(predict, core, p, req, f, dc, d);
    var e := Eliminations(core, p.candidates, p, req, f, dc);
    assert [] + e == e;
  }

  /**
   A scored decision lists every candidate of the policy exactly once, in name order; each line is the one
   the candidate is owed; and the one selected line is the selected tier's.
   */
  lemma ExplanationIsComplete(
    predict: Predictor, core: Core, p: Policy, req: Request, f: Findings, dc: Option<DataClass>, d: Explanation)
    requires WellKeyed(core) && ResolvedCandidates(core, p)
    requires ReachesScoring(core, p, req, f, dc) && d.candidates == []
    ensures var e := Judge(predict, core, p, req, f, dc, d);
      && e.selectedTier.Some?
      && e.selectedTier.value in p.candidates
      && Map(TierOf, e.candidates) == p.candidates
      && (forall c | c in e.candidates :: Explained(predict, core, p, req, f, dc, e.selectedTier.value, c))
      && (forall c | c in e.candidates :: c.selected <==> c.tier == e.selectedTier.value)
  {
    hide Judge, HardConstraintViolation, PassesFloor, ScoreTier, Rank, Kept, Explained, Survivors, Round6, MicroToEur,
      DegradedList;
    var e := Judge(predict, core, p, req, f, dc, d);
    ScoringSelects(predict, core, p, req, f, dc, d);
    var first := FinalRanking(predict, core, p, req, f, dc)[0];
    var best := first.scored.tier.name;
    JudgeLists(predict, core, p, req, f, dc, d);
    ListedNames(predict, core, p, req, f, dc, best);
    SortedByName(Listed(predict, core, p, req, f, dc, best), p.candidates);
    SortByPermutes(CandidateLe, Listed(predict, core, p, req, f, dc, best));
    EliminatedAreExplained(predict, core, p, req, f, dc, best);
    FloorDroppedAreExplained(predict, core, p, req, f, dc, best);
    RankedAreExplained(predict, core, p, req, f, dc, best);
    RankedSurvive(predict, core, p, req, f, dc, first);
    forall c | c in e.candidates
      ensures Explained(predict, core, p, req, f, dc, best, c) && (c.selected <==> c.tier == best)
    {
      assert c in Listed(predict, core, p, req, f, dc, best);
      SelectedLine(predict, core, p, req, f, dc, c);
    }
  }

  /** Only the best line is marked, and the best tier's line is a ranked one. */
  lemma SelectedLine(
    predict: Predictor, core: Core, p: Policy, req: Request, f: Findings, dc: Option<DataClass>, c: Candidate)
    requires WellKeyed(core) && ReachesScoring(core, p, req, f, dc)
    requires FinalRanking(predict, core, p, req, f, dc) != []
    requires Explained(predict, core, p, req, f, dc, FinalRanking(predict, core, p, req, f, dc)[0].scored.tier.name, c)
    ensures c.selected <==> c.tier == FinalRanking(predict, core, p, req, f, dc)[0].scored.tier.name
  {
    hide HardConstraintViolation, PassesFloor, Rank, Kept, Survivors, Round6, MicroToEur, DegradedList,
      PredictedQuality, EstimateCost, Contenders, Ranking;
    var first := FinalRanking(predict, core, p, req, f, dc)[0];
    RankedSurvive(predict, core, p, req, f, dc, first);
    if c.tier == first.scored.tier.name {
      BestIsRanked(predict, core, p, req, f, dc, first);
    }
    if HardConstraintViolation(core.tiers[c.tier], p, req, f, dc).None? {
      RankKeeps(p.weights, Kept(p.qualityFloor, Contenders(predict, core, p, req, f, dc)),
                ScoreTier(predict, p, req, f, core.tiers[c.tier]));
    }
  }

  lemma RankKeeps(w: Weights, ss: seq<Scored>, s: Scored)
    ensures Rank(w, ss, s).scored == s
  {}

  lemma BestIsRanked(
    predict: Predictor, core: Core, p: Policy, req: Request, f: Findings, dc: Option<DataClass>, r: Ranked)
    requires WellKeyed(core) && r in FinalRanking(predict, core, p, req, f, dc)
    ensures r.scored.tier.name in core.tiers && core.tiers[r.scored.tier.name] == r.scored.tier
    ensures HardConstraintViolation(r.scored.tier, p, req, f, dc).None?
    ensures r.scored == ScoreTier(predict, p, req, f, r.scored.tier)
    ensures PassesFloor(p.qualityFloor, Contenders(predict, core, p, req, f, dc), r.scored)
  {
    hide HardConstraintViolation, PassesFloor, ScoreTier, Ranking;
    RankedSurvive(predict, core, p, req, f, dc, r);
  }

  // ---- numbers ----

  lemma NormIsProportion(v: real, lo: real, hi: real)
    ensures 0.0 <= Norm(v, lo, hi) <= 1.0
  {}

  /** A weight's share of the score. */
  function Share(w: real, x: real): (r: real)
    requires w >= 0.0 && 0.0 <= x <= 1.0
    ensures 0.0 <= r <= w
  {
    w * x
  }

  lemma ScoreIsSumOfShares(w: Weights, ss: seq<Scored>, s: Scored, c: real, q: real, l: real)
    requires NonNegative(w) && 0.0 <= c <= 1.0 && 0.0 <= q <= 1.0 && 0.0 <= l <= 1.0
    requires c == Norm(s.cost as real, MinOf(Costs(ss)), MaxOf(Costs(ss)))
    requires q == Norm(s.quality, MinOf(Qualities(ss)), MaxOf(Qualities(ss)))
    requires l == Norm(s.latency as real, MinOf(Latencies(ss)), MaxOf(Latencies(ss)))
    ensures RawScore(w, ss, s) == Share(w.cost, 1.0 - c) + Share(w.quality, q) + Share(w.latency, 1.0 - l)
  {
    hide Norm, MinOf, MaxOf;
  }

  /** With convex weights every score is a proportion. */
  lemma ScoreIsProportion(w: Weights, ss: seq<Scored>, s: Scored)
    requires ConvexWeights(w)
    ensures 0.0 <= Rank(w, ss, s).score <= 1.0
  {
    hide Norm, MinOf, MaxOf, Round, RawScore, Share, Round6;
    var c := Norm(s.cost as real, MinOf(Costs(ss)), MaxOf(Costs(ss)));
    var q := Norm(s.quality, MinOf(Qualities(ss)), MaxOf(Qualities(ss)));
    var l := Norm(s.latency as real, MinOf(Latencies(ss)), MaxOf(Latencies(ss)));
    NormIsProportion(s.cost as real, MinOf(Costs(ss)), MaxOf(Costs(ss)));
    NormIsProportion(s.quality, MinOf(Qualities(ss)), MaxOf(Qualities(ss)));
    NormIsProportion(s.latency as real, MinOf(Latencies(ss)), MaxOf(Latencies(ss)));
    ScoreIsSumOfShares(w, ss, s, c, q, l);
    RoundUnit();
    Round6Monotone(0.0, RawScore(w, ss, s));
    Round6Monotone(RawScore(w, ss, s), 1.0);
  }

  lemma RoundUnit()
    ensures Round6(0.0) == 0.0 && Round6(1.0) == 1.0
  {}

  lemma {:induction false} MaxCostIsMax(ranked: seq<Ranked>)
    ensures forall r | r in ranked :: r.scored.cost <= MaxCost(ranked)
    ensures ranked != [] ==> exists r :: r in ranked && r.scored.cost == MaxCost(ranked)
  {
    if ranked != [] {
      var front, last := ranked[..|ranked| - 1], ranked[|ranked| - 1];
      MaxCostIsMax(front);
      assert ranked == front + [last];
      assert last in ranked;
      if last.scored.cost <= MaxCost(front) {
        if front == [] {
          assert last.scored.cost == 0;
        } else {
          var r :| r in front && r.scored.cost == MaxCost(front);
          assert r in ranked;
        }
      }
    }
  }

  /** Savings are the dearest scored cost minus the selected cost; they are never negative and never clipped. */
  lemma SavingsAreExact(
    predict: Predictor, core: Core, p: Policy, req: Request, f: Findings, dc: Option<DataClass>, d: Explanation)
    requires ReachesScoring(core, p, req, f, dc) && d.candidates == []
    ensures var e := Judge(predict, core, p, req, f, dc, d);
      var ranked := FinalRanking(predict, core, p, req, f, dc);
      && ranked != [] && e.estimatedCost.Some? && e.estimatedSavings.Some?
      && e.estimatedSavings.value >= 0.0
      && (exists r :: r in ranked
           && (forall r' | r' in ranked :: r'.scored.cost <= r.scored.cost)
           && e.estimatedSavings.value == MicroToEur(r.scored.cost) - e.estimatedCost.value)
  {
    hide Judge, Survivors, Rank, Kept, HardConstraintViolation, DegradedList;
    JudgeLists(predict, core, p, req, f, dc, d);
    var ranked := FinalRanking(predict, core, p, req, f, dc);
    MaxCostIsMax(ranked);
    assert ranked[0] in ranked;
  }
}
