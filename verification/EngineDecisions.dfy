/**
 What a decision reports: the selected tier, the lines, the reason and the rest, on snapshot, request and findings.
 */
module EngineDecisions {
  import opened Ordering
  import opened Snapshots
  import opened SnapshotNumbers
  import opened Engine
  import opened EngineFacts
  import opened EngineSafety
  import opened EngineExplain
  import opened EngineScores

  // ---- the selected tier ----

  /** The decision is for this tier. */
  predicate IsFor(d: Explanation, s: Scored) {
    && d.selectedTier == Some(s.tier.name)
    && d.gatewayModel == Some(s.tier.gatewayModel)
    && d.estimatedCost.Some? && d.estimatedCost.value * 1000000.0 == s.cost as real
  }

  /** The tier precedes all that it is compared with. */
  ghost predicate ComesFirst(w: Weights, kept: seq<Scored>, best: Scored) {
    && best in kept
    && forall o, x, y | o in kept && ScoreIs(w, kept, best, x) && ScoreIs(w, kept, o, y) :: Precedes(best, x, o, y)
  }

  lemma FirstComesFirst(w: Weights, kept: seq<Scored>)
    requires kept != []
    ensures Ranking(w, kept) != [] && ComesFirst(w, kept, Ranking(w, kept)[0].scored)
  {
    hide Rank, ScoreIs, StrLe;
    RankingSound(w, kept);
    var ranked := Ranking(w, kept);
    var best := ranked[0].scored;
    ScoreExactly(w, kept, best);
    forall o, x, y | o in kept && ScoreIs(w, kept, best, x) && ScoreIs(w, kept, o, y) ensures Precedes(best, x, o, y) {
      ScoreExactly(w, kept, o);
      ScoreIsUnique(w, kept, best, x, ranked[0].score);
      ScoreIsUnique(w, kept, o, y, Rank(w, kept, o).score);
      var i :| 0 <= i < |ranked| && ranked[i] == Rank(w, kept, o);
      if i == 0 {
        SameOrBefore(o);
      }
    }
  }

  lemma SameOrBefore(o: Scored)
    ensures StrLe(o.tier.name, o.tier.name)
  {
    StrTotal(o.tier.name, o.tier.name);
  }

  lemma ScoredJudgement(
    predict: Predictor, core: Core, p: Policy, req: Request, f: Findings, dc: Option<DataClass>, d: Explanation)
    requires ReachesScoring(core, p, req, f, dc) && d.candidates == []
    ensures var kept := Kept(p.qualityFloor, Contenders(predict, core, p, req, f, dc));
      && kept != []
      && IsFor(Judge(predict, core, p, req, f, dc, d), Ranking(p.weights, kept)[0].scored)
  {
    hide Judge, Ranking, Kept, Contenders, ReachesScoring;
    ScoringSelects(predict, core, p, req, f, dc, d);
    JudgeLists(predict, core, p, req, f, dc, d);
    var kept := Kept(p.qualityFloor, Contenders(predict, core, p, req, f, dc));
    RankingSound(p.weights, kept);
    EurosAreMillions(Ranking(p.weights, kept)[0].scored.cost);
  }

  /**
   A ROUTE that is not a fallback is for the tier that comes first: of the candidates that meet every hard constraint
   and stay above the floor, the one with the highest score, at equal scores the cheapest, then by name.
   */
  lemma SelectionIsBest(predict: Predictor, snap: Snapshot, req: Request, f: Findings)
    ensures var d := Decide(predict, snap, req, f);
      d.outcome == Route && !d.fallback ==>
        && Selection(snap, req).0.Some?
        && var p, dc := Selection(snap, req).0.value, Resolved(snap, req, f);
           exists kept, best ::
             AreCompared(kept, predict, snap.core, p, req, f, dc) && ComesFirst(p.weights, kept, best) && IsFor(d, best)
  {
    hide Selection, Resolved, Judge, HeaderNotes, RoutesAlias, ReachesScoring, AreCompared, ComesFirst, IsFor, Kept,
      Contenders, Ranking;
    var d := Decide(predict, snap, req, f);
    if d.outcome == Route && !d.fallback {
      var p, dc := Selection(snap, req).0.value, Resolved(snap, req, f);
      var prepared := Prepared(snap, req, f, p);
      RouteWasScored(predict, snap.core, p, req, f, dc, prepared);
      ScoredJudgement(predict, snap.core, p, req, f, dc, prepared);
      KeptAreCompared(predict, snap.core, p, req, f, dc);
      var kept := Kept(p.qualityFloor, Contenders(predict, snap.core, p, req, f, dc));
      FirstComesFirst(p.weights, kept);
    }
  }

  // ---- the lines ----

  /** What the explanation says about a candidate. */
  ghost predicate LineIs(
    c: Candidate, selected: Option<string>, kept: seq<Scored>, predict: Predictor, core: Core, p: Policy, req: Request,
    f: Findings, dc: Option<DataClass>)
  {
    && c.tier in core.tiers
    && var t := core.tiers[c.tier];
       if Meets(t, p, req, f, dc) then exists s ::
         && Assessed(s, predict, p, req, f, t)
         && c.predictedQuality.Some? && ToSixDecimals(c.predictedQuality.value, s.quality)
         && c.estimatedCost.Some? && c.estimatedCost.value * 1000000.0 == s.cost as real
         && if s in kept then
              && c.eliminatedBy.None? && (c.selected <==> selected == Some(c.tier))
              && c.score.Some? && ScoreIs(p.weights, kept, s, c.score.value)
            else c.eliminatedBy == Some(QualityFloor) && c.score.None? && !c.selected
       else
         && c.eliminatedBy.Some? && FirstBroken(c.eliminatedBy.value, t, p, req, f, dc)
         && c.predictedQuality.None? && c.estimatedCost.None? && c.score.None? && !c.selected
  }

  lemma ExplainedLine(
    predict: Predictor, core: Core, p: Policy, req: Request, f: Findings, dc: Option<DataClass>, best: string,
    c: Candidate)
    requires c.tier in p.candidates && Explained(predict, core, p, req, f, dc, best, c)
    ensures LineIs(c, Some(best), Kept(p.qualityFloor, Contenders(predict, core, p, req, f, dc)), predict, core, p, req,
                   f, dc)
  {
    hide HardConstraintViolation, PassesFloor, ScoreTier, Contenders, Kept, Round6, MicroToEur, Meets, FirstBroken,
      Assessed, ScoreIs, ToSixDecimals, Rank;
    var t := core.tiers[c.tier];
    HardConstraintViolationIsFirst(t, p, req, f, dc);
    MeetsExactly(core, c.tier, p, req, f, dc);
    if Meets(t, p, req, f, dc) {
      var s := ScoreTier(predict, p, req, f, t);
      var ss := Contenders(predict, core, p, req, f, dc);
      AssessedExactly(predict, p, req, f, t, s);
      Round6IsNearest(s.quality);
      EurosAreMillions(s.cost);
      SurvivorContends(predict, core, p, req, f, dc, c.tier);
      KeptSound(p.qualityFloor, ss);
      if s in Kept(p.qualityFloor, ss) {
        ScoreExactly(p.weights, Kept(p.qualityFloor, ss), s);
      }
    }
  }

  /**
   A ROUTE that is not a fallback has one line for each candidate, in their order, with what the candidate was
   assessed at, compared by, or eliminated for.
   */
  lemma LinesAreExact(predict: Predictor, snap: Snapshot, req: Request, f: Findings)
    requires WellKeyed(snap.core)
    requires var p := Selection(snap, req).0; p.Some? ==> ResolvedCandidates(snap.core, p.value)
    ensures var d := Decide(predict, snap, req, f);
      d.outcome == Route && !d.fallback ==>
        && Selection(snap, req).0.Some?
        && var p, dc := Selection(snap, req).0.value, Resolved(snap, req, f);
           && Map(TierOf, d.candidates) == p.candidates
           && exists kept ::
                && AreCompared(kept, predict, snap.core, p, req, f, dc)
                && forall c | c in d.candidates :: LineIs(c, d.selectedTier, kept, predict, snap.core, p, req, f, dc)
  {
    hide Selection, Resolved, Judge, HeaderNotes, RoutesAlias, ReachesScoring, AreCompared, Kept, Contenders, Explained,
      LineIs, WellKeyed, ResolvedCandidates;
    var d := Decide(predict, snap, req, f);
    if d.outcome == Route && !d.fallback {
      var p, dc := Selection(snap, req).0.value, Resolved(snap, req, f);
      var prepared := Prepared(snap, req, f, p);
      RouteWasScored(predict, snap.core, p, req, f, dc, prepared);
      ExplanationIsComplete(predict, snap.core, p, req, f, dc, prepared);
      KeptAreCompared(predict, snap.core, p, req, f, dc);
      var kept := Kept(p.qualityFloor, Contenders(predict, snap.core, p, req, f, dc));
      forall c | c in d.candidates ensures LineIs(c, d.selectedTier, kept, predict, snap.core, p, req, f, dc) {
        var i :| 0 <= i < |d.candidates| && d.candidates[i] == c;
        assert Map(TierOf, d.candidates)[i] == c.tier;
        ExplainedLine(predict, snap.core, p, req, f, dc, d.selectedTier.value, c);
      }
    }
  }

  // ---- reasoning ----

  /** The level the policy maps the complexity to, if reasoning is enabled and the complexity is known and mapped. */
  predicate ReasoningIs(p: Policy, f: Findings, level: Option<ReasoningLevel>) {
    match f.complexity
    case None => level.None?
    case Some(c) => if p.reasoningEnabled && c in p.reasoningMap then level == Some(p.reasoningMap[c]) else level.None?
  }

  // ---- what a decision carries over ----

  /** The fields that judging does not touch. */
  predicate SameRest(d: Explanation, e: Explanation) {
    && e.dataClass == d.dataClass && e.requestedModel == d.requestedModel && e.snapshotHash == d.snapshotHash
    && e.dryRun == d.dryRun
  }

  lemma FallbackCarries(
    predict: Predictor, core: Core, p: Policy, req: Request, f: Findings, dc: Option<DataClass>, d: Explanation,
    why: Why)
    requires d.reasoning.None?
    ensures var e := FallbackOrBlock(predict, core, p, req, f, dc, d, why);
      SameRest(d, e) && if e.outcome == Block then e.reasoning.None? else ReasoningIs(p, f, e.reasoning)
  {
    hide FallbackViolation, SortBy, Filter, FallbackCandidate, RelaxedNotes, MicroToEur, EstimateCost, FindTier;
  }

  lemma ScoringCarries(
    predict: Predictor, p: Policy, req: Request, f: Findings, survivors: seq<Tier>, d: Explanation)
    ensures var e := ScoreAndSelect(predict, p, req, f, survivors, d);
      SameRest(d, e) && (e == d.(candidates := e.candidates, reason := e.reason) || ReasoningIs(p, f, e.reasoning))
  {
    hide SortBy, ScoreTiers, Ranking, Kept, FloorDropped, FloorMet, MicroToEur, Savings, Map;
  }

  lemma JudgeCarries(
    predict: Predictor, core: Core, p: Policy, req: Request, f: Findings, dc: Option<DataClass>, d: Explanation)
    requires d.reasoning.None? && d.outcome == PassThrough
    ensures var e := Judge(predict, core, p, req, f, dc, d);
      SameRest(d, e) && if e.outcome == Route then ReasoningIs(p, f, e.reasoning) else e.reasoning.None?
  {
    hide FallbackOrBlock, ScoreAndSelect, Survivors, Eliminations, DegradedList, Round6, ReasoningIs;
    var list := DegradedList(core, p, f);
    if !Denied(p, f) && list != [] {
      var d1 := d.(degraded := list, fallback := true);
      FallbackCarries(predict, core, p, req, f, dc, d1, ClassificationDegraded);
      FallbackOutcome(predict, core, p, req, f, dc, d1, ClassificationDegraded);
    } else if !Denied(p, f) {
      var survivors := Survivors(core, p.candidates, p, req, f, dc);
      var d1 := d.(candidates := d.candidates + Eliminations(core, p.candidates, p, req, f, dc));
      if survivors == [] {
        FallbackCarries(predict, core, p, req, f, dc, d1.(fallback := true), NothingSurvives);
        FallbackOutcome(predict, core, p, req, f, dc, d1.(fallback := true), NothingSurvives);
      } else {
        ScoringCarries(predict, p, req, f, survivors, d1);
        ScoringSelects(predict, core, p, req, f, dc, d);
      }
    }
  }

  /** Request and snapshot are quoted as they are; a decision about a routed request names the class it was made for. */
  lemma DecisionCarries(predict: Predictor, snap: Snapshot, req: Request, f: Findings)
    ensures var d, dc := Decide(predict, snap, req, f), Resolved(snap, req, f);
      && d.requestedModel == req.requestedModel && d.snapshotHash == snap.hash && d.dryRun == req.hints.dryRun
      && d.dataClass == if d.outcome == PassThrough || dc.None? then None else Some(dc.value.name)
  {
    hide Selection, Resolved, Judge, HeaderNotes, RoutesAlias, Blocks;
    var p := Selection(snap, req).0;
    if p.Some? {
      var prepared := Prepared(snap, req, f, p.value);
      JudgeCarries(predict, snap.core, p.value, req, f, Resolved(snap, req, f), prepared);
      JudgeOutcome(predict, snap.core, p.value, req, f, Resolved(snap, req, f), prepared);
    }
  }

  /** On a well-keyed snapshot the notes are those about the policy hint and about headers no class answers to. */
  lemma NotesAreExact(predict: Predictor, snap: Snapshot, req: Request, f: Findings)
    requires WellKeyed(snap.core)
    ensures var d := Decide(predict, snap, req, f);
      d.notes == Selection(snap, req).1
                 + if d.outcome == PassThrough then [] else HeaderNotes(snap.core.dataClasses, req.hints.dataClasses)
  {
    hide Selection, Resolved, Judge, HeaderNotes, RoutesAlias, Blocks, WellKeyed;
    var p, notes := Selection(snap, req).0, Selection(snap, req).1;
    assert notes + [] == notes;
    if p.Some? {
      var prepared := Prepared(snap, req, f, p.value);
      JudgeAddsNoNote(predict, snap.core, p.value, req, f, Resolved(snap, req, f), prepared);
      JudgeOutcome(predict, snap.core, p.value, req, f, Resolved(snap, req, f), prepared);
    }
  }

  // ---- degraded classification ----

  /** The policy has a threshold for the risk, or one of its candidates a limit below one. */
  ghost predicate RiskCounts(core: Core, p: Policy) {
    p.denyIfRiskAbove.Some? || exists n :: n in p.candidates && n in core.tiers && core.tiers[n].maxRiskScore < 1.0
  }

  /** A risk score that counts but is missing is listed behind the degraded classifiers, unless it is already. */
  ghost predicate DegradedAre(core: Core, p: Policy, f: Findings, degraded: seq<string>) {
    degraded == f.degraded
    + if f.riskScore.None? && RiskCounts(core, p) && "risk:missing" !in f.degraded then ["risk:missing"] else []
  }

  lemma JudgeDegraded(
    predict: Predictor, core: Core, p: Policy, req: Request, f: Findings, dc: Option<DataClass>, d: Explanation)
    requires d.degraded == f.degraded && !d.fallback
    ensures var e := Judge(predict, core, p, req, f, dc, d);
      && DegradedAre(core, p, f, e.degraded)
      && (e.fallback <==> !Denied(p, f) && (e.degraded != [] || Survivors(core, p.candidates, p, req, f, dc) == []))
  {
    hide FallbackOrBlock, ScoreAndSelect, Survivors, Eliminations, FallbackServes;
    var list := DegradedList(core, p, f);
    assert f.degraded + [] == f.degraded;
    if !Denied(p, f) && list != [] {
      FallbackOutcome(predict, core, p, req, f, dc, d.(degraded := list, fallback := true), ClassificationDegraded);
    } else if !Denied(p, f) && Survivors(core, p.candidates, p, req, f, dc) == [] {
      FallbackOutcome(predict, core, p, req, f, dc,
                      d.(candidates := d.candidates + Eliminations(core, p.candidates, p, req, f, dc),
                         fallback := true), NothingSurvives);
    } else if !Denied(p, f) {
      ScoringSelects(predict, core, p, req, f, dc, d);
    }
  }

  /** The score is above the threshold of the policy. */
  predicate TooRisky(p: Policy, f: Findings) {
    p.denyIfRiskAbove.Some? && f.riskScore.Some? && p.denyIfRiskAbove.value < f.riskScore.value
  }

  /** No candidate meets every hard constraint. */
  ghost predicate NobodyMeets(core: Core, p: Policy, req: Request, f: Findings, dc: Option<DataClass>) {
    forall n | n in p.candidates && n in core.tiers :: !Meets(core.tiers[n], p, req, f, dc)
  }

  lemma NobodySurvives(core: Core, p: Policy, req: Request, f: Findings, dc: Option<DataClass>)
    ensures Survivors(core, p.candidates, p, req, f, dc) == [] <==> NobodyMeets(core, p, req, f, dc)
  {
    hide Survivors, Meets, Survives;
    var survivors := Survivors(core, p.candidates, p, req, f, dc);
    SurvivorsSound(core, p.candidates, p, req, f, dc);
    forall n ensures Survives(core, n, p, req, f, dc) <==> n in core.tiers && Meets(core.tiers[n], p, req, f, dc) {
      MeetsExactly(core, n, p, req, f, dc);
    }
    if survivors != [] {
      assert survivors[0] in survivors;
      var n :| n in p.candidates && Survives(core, n, p, req, f, dc) && core.tiers[n] == survivors[0];
      assert Meets(core.tiers[n], p, req, f, dc);
    }
    if n :| n in p.candidates && n in core.tiers && Meets(core.tiers[n], p, req, f, dc) {
      SurvivorListed(core, p.candidates, p, req, f, dc, n);
    }
  }

  /** The report of what was degraded, and when a decision is marked as a fallback. */
  lemma DegradedIsExact(predict: Predictor, snap: Snapshot, req: Request, f: Findings)
    ensures var d := Decide(predict, snap, req, f);
      if d.outcome == PassThrough then d.degraded == f.degraded && !d.fallback
      else
        && Selection(snap, req).0.Some?
        && var p, dc := Selection(snap, req).0.value, Resolved(snap, req, f);
           && DegradedAre(snap.core, p, f, d.degraded)
           && (d.fallback <==> !TooRisky(p, f) && (d.degraded != [] || NobodyMeets(snap.core, p, req, f, dc)))
  {
    hide Selection, Resolved, Judge, HeaderNotes, RoutesAlias, Blocks, Survivors, DegradedAre, NobodyMeets;
    var p := Selection(snap, req).0;
    if p.Some? {
      var prepared := Prepared(snap, req, f, p.value);
      JudgeDegraded(predict, snap.core, p.value, req, f, Resolved(snap, req, f), prepared);
      JudgeOutcome(predict, snap.core, p.value, req, f, Resolved(snap, req, f), prepared);
      NobodySurvives(snap.core, p.value, req, f, Resolved(snap, req, f));
    }
  }

  lemma ReasoningIsExact(predict: Predictor, snap: Snapshot, req: Request, f: Findings)
    ensures var d := Decide(predict, snap, req, f);
      if d.outcome == Route then
        Selection(snap, req).0.Some? && ReasoningIs(Selection(snap, req).0.value, f, d.reasoning)
      else d.reasoning.None?
  {
    hide Selection, Resolved, Judge, HeaderNotes, RoutesAlias, Blocks, ReasoningIs;
    var p := Selection(snap, req).0;
    if p.Some? {
      JudgeCarries(predict, snap.core, p.value, req, f, Resolved(snap, req, f), Prepared(snap, req, f, p.value));
    }
  }

  // ---- the reason ----

  /** Why the fallback is asked, if it is. */
  ghost predicate Asks(core: Core, p: Policy, req: Request, f: Findings, dc: Option<DataClass>, why: Why) {
    && !TooRisky(p, f)
    && if why == ClassificationDegraded then !DegradedAre(core, p, f, [])
       else DegradedAre(core, p, f, []) && NobodyMeets(core, p, req, f, dc)
  }

  /** The fallback tier meets what it has to meet. */
  ghost predicate Suffices(t: Tier, p: Policy, req: Request, f: Findings, dc: Option<DataClass>, why: Why) {
    if why == ClassificationDegraded then MeetsRequestFacts(t, p, req, f, dc) else Meets(t, p, req, f, dc)
  }

  /** What is said about the fallback. */
  ghost predicate FallbackReason(
    core: Core, p: Policy, req: Request, f: Findings, dc: Option<DataClass>, why: Why, reason: Option<Reason>)
  {
    match p.fallbackTier
    case None => reason == Some(NoFallbackTier(why))
    case Some(name) =>
      if name !in core.tiers then reason == Some(FallbackNotInSnapshot(why, name))
      else if Suffices(core.tiers[name], p, req, f, dc, why) then reason == Some(UsingFallback(why))
      else exists e ::
        && FirstBroken(e, core.tiers[name], p, req, f, dc) && IsHard(e)
        && (why == ClassificationDegraded ==> IsRequestFact(e)) && reason == Some(FallbackEliminated(why, name, e))
  }

  lemma FallbackSuffices(core: Core, p: Policy, req: Request, f: Findings, dc: Option<DataClass>, why: Why)
    requires p.fallbackTier.Some? && p.fallbackTier.value in core.tiers
    ensures var t := core.tiers[p.fallbackTier.value];
      var v := FallbackViolation(t, p, req, f, dc, why);
      && (v.None? <==> Suffices(t, p, req, f, dc, why))
      && (v.Some? ==> FirstBroken(v.value, t, p, req, f, dc) && IsHard(v.value)
                      && (why == ClassificationDegraded ==> IsRequestFact(v.value)))
  {
    hide HardConstraintViolation, RequestFactViolation, Breaks;
    var t := core.tiers[p.fallbackTier.value];
    HardConstraintViolationIsFirst(t, p, req, f, dc);
    RequestFactViolationIsFirst(t, p, req, f, dc);
  }

  lemma FallbackReasonExactly(
    predict: Predictor, core: Core, p: Policy, req: Request, f: Findings, dc: Option<DataClass>, d: Explanation,
    why: Why)
    ensures FallbackReason(core, p, req, f, dc, why, FallbackOrBlock(predict, core, p, req, f, dc, d, why).reason)
  {
    hide FallbackViolation, SortBy, Filter, FallbackCandidate, RelaxedNotes, MicroToEur, EstimateCost, ReasoningFor,
      FindTier, Suffices, FirstBroken;
    if p.fallbackTier.Some? && p.fallbackTier.value in core.tiers {
      FallbackSuffices(core, p, req, f, dc, why);
    }
  }

  /** Something reaches the floor of the policy, or it has none. */
  ghost predicate FloorReached(
    predict: Predictor, core: Core, p: Policy, req: Request, f: Findings, dc: Option<DataClass>)
  {
    p.qualityFloor.Some? ==> exists n, s ::
        n in p.candidates && n in core.tiers && Meets(core.tiers[n], p, req, f, dc)
        && Assessed(s, predict, p, req, f, core.tiers[n]) && Reaches(p.qualityFloor.value, s)
  }

  /** The reason of a decision about a routed request. */
  ghost predicate ReasonIs(
    predict: Predictor, core: Core, p: Policy, req: Request, f: Findings, dc: Option<DataClass>, reason: Option<Reason>)
  {
    if TooRisky(p, f) then
      exists r :: ToSixDecimals(r, f.riskScore.value) && reason == Some(RiskExceeds(r, p.denyIfRiskAbove.value))
    else if Asks(core, p, req, f, dc, ClassificationDegraded) then
      FallbackReason(core, p, req, f, dc, ClassificationDegraded, reason)
    else if Asks(core, p, req, f, dc, NothingSurvives) then
      FallbackReason(core, p, req, f, dc, NothingSurvives, reason)
    else if FloorReached(predict, core, p, req, f, dc) then reason.None?
    else reason == Some(BelowFloorKeepingBest(p.qualityFloor.value))
  }

  lemma FloorReachedExactly(
    predict: Predictor, core: Core, p: Policy, req: Request, f: Findings, dc: Option<DataClass>)
    requires p.qualityFloor.Some?
    ensures FloorMet(p.qualityFloor.value, Contenders(predict, core, p, req, f, dc)) <==>
      FloorReached(predict, core, p, req, f, dc)
  {
    hide Meets, Assessed, Contenders;
    var ss := Contenders(predict, core, p, req, f, dc);
    ContendersAreAssessed(predict, core, p, req, f, dc);
    if FloorMet(p.qualityFloor.value, ss) {
      var s :| s in ss && AboveFloor(p.qualityFloor.value, s);
      var n :| n in p.candidates && n in core.tiers && Meets(core.tiers[n], p, req, f, dc)
        && Assessed(s, predict, p, req, f, core.tiers[n]);
      assert Reaches(p.qualityFloor.value, s);
    }
    if n, s :| n in p.candidates && n in core.tiers && Meets(core.tiers[n], p, req, f, dc)
               && Assessed(s, predict, p, req, f, core.tiers[n]) && Reaches(p.qualityFloor.value, s) {
      assert s in ss && AboveFloor(p.qualityFloor.value, s);
    }
  }

  lemma ScoringReason(
    predict: Predictor, core: Core, p: Policy, req: Request, f: Findings, dc: Option<DataClass>, d: Explanation)
    requires ReachesScoring(core, p, req, f, dc)
    ensures var floor := p.qualityFloor;
      Judge(predict, core, p, req, f, dc, d).reason ==
        if floor.Some? && !FloorMet(floor.value, Contenders(predict, core, p, req, f, dc))
        then Some(BelowFloorKeepingBest(floor.value)) else d.reason
  {
    hide Survivors, Eliminations, Rank, PassesFloor, HardConstraintViolation, Round6, MicroToEur, Savings, FloorMet,
      Ranking, DegradedList;
  }

  lemma DegradedListIs(core: Core, p: Policy, f: Findings)
    ensures DegradedAre(core, p, f, DegradedList(core, p, f))
  {
    assert f.degraded + [] == f.degraded;
  }

  lemma JudgeReason(
    predict: Predictor, core: Core, p: Policy, req: Request, f: Findings, dc: Option<DataClass>, d: Explanation)
    requires d.reason.None?
    ensures ReasonIs(predict, core, p, req, f, dc, Judge(predict, core, p, req, f, dc, d).reason)
  {
    hide FallbackOrBlock, ScoreAndSelect, Survivors, Eliminations, DegradedList, Round6, FloorReached, FallbackReason,
      NobodyMeets, ToSixDecimals, FloorMet, Contenders;
    var list := DegradedList(core, p, f);
    DegradedListIs(core, p, f);
    NobodySurvives(core, p, req, f, dc);
    if Denied(p, f) {
      Round6IsNearest(f.riskScore.value);
    } else if list != [] {
      FallbackReasonExactly(predict, core, p, req, f, dc, d.(degraded := list, fallback := true),
                            ClassificationDegraded);
    } else if Survivors(core, p.candidates, p, req, f, dc) == [] {
      FallbackReasonExactly(predict, core, p, req, f, dc,
                            d.(candidates := d.candidates + Eliminations(core, p.candidates, p, req, f, dc),
                               fallback := true), NothingSurvives);
    } else {
      ScoringReason(predict, core, p, req, f, dc, d);
      if p.qualityFloor.Some? {
        FloorReachedExactly(predict, core, p, req, f, dc);
      } else {
        NoFloorIsReached(predict, core, p, req, f, dc);
      }
    }
  }

  lemma NoFloorIsReached(
    predict: Predictor, core: Core, p: Policy, req: Request, f: Findings, dc: Option<DataClass>)
    ensures p.qualityFloor.None? ==> FloorReached(predict, core, p, req, f, dc)
  {}

  /** Why a routed request was decided as it was. */
  lemma ReasonIsExact(predict: Predictor, snap: Snapshot, req: Request, f: Findings)
    ensures var d := Decide(predict, snap, req, f);
      d.outcome != PassThrough ==>
        && Selection(snap, req).0.Some?
        && ReasonIs(predict, snap.core, Selection(snap, req).0.value, req, f, Resolved(snap, req, f), d.reason)
  {
    hide Selection, Resolved, Judge, HeaderNotes, RoutesAlias, ReasonIs;
    var p := Selection(snap, req).0;
    if p.Some? {
      JudgeReason(predict, snap.core, p.value, req, f, Resolved(snap, req, f), Prepared(snap, req, f, p.value));
    }
  }

  // ---- decisions that are not scored ----

  /** The line of an eliminated tier. */
  ghost predicate EliminationLine(
    c: Candidate, core: Core, p: Policy, req: Request, f: Findings, dc: Option<DataClass>)
  {
    && c.tier in core.tiers && c.eliminatedBy.Some?
    && FirstBroken(c.eliminatedBy.value, core.tiers[c.tier], p, req, f, dc)
    && c == Candidate(c.tier, c.eliminatedBy, None, None, None, false)
  }

  /** The line of the fallback tier a request is routed to, with what it is assessed at. */
  ghost predicate FallbackLine(
    c: Candidate, predict: Predictor, core: Core, p: Policy, req: Request, f: Findings)
  {
    && c.tier in core.tiers && p.fallbackTier == Some(c.tier)
    && exists s ::
         && Assessed(s, predict, p, req, f, core.tiers[c.tier])
         && c.predictedQuality.Some? && ToSixDecimals(c.predictedQuality.value, s.quality)
         && c.estimatedCost.Some? && c.estimatedCost.value * 1000000.0 == s.cost as real
         && c.eliminatedBy.None? && c.score.None? && c.selected
  }

  /** A route to the fallback tier: it is the selected line, nothing is saved, all other lines are eliminations. */
  ghost predicate RoutedToFallback(
    d: Explanation, predict: Predictor, core: Core, p: Policy, req: Request, f: Findings, dc: Option<DataClass>)
  {
    && p.fallbackTier.Some? && p.fallbackTier.value in core.tiers
    && d.selectedTier == p.fallbackTier && d.gatewayModel == Some(core.tiers[p.fallbackTier.value].gatewayModel)
    && d.estimatedSavings == Some(0.0)
    && (exists c ::
          c in d.candidates && FallbackLine(c, predict, core, p, req, f) && c.estimatedCost == d.estimatedCost)
    && forall c | c in d.candidates ::
         FallbackLine(c, predict, core, p, req, f)
         || (Some(c.tier) != p.fallbackTier && EliminationLine(c, core, p, req, f, dc))
  }

  lemma FallbackCandidateIs(predict: Predictor, core: Core, p: Policy, req: Request, f: Findings)
    requires WellKeyed(core) && p.fallbackTier.Some? && p.fallbackTier.value in core.tiers
    ensures
      FallbackLine(FallbackCandidate(predict, core.tiers[p.fallbackTier.value], p, req, f), predict, core, p, req, f)
  {
    hide PredictedQuality, EstimateCost, Round6, MicroToEur, ToSixDecimals, Assessed;
    var t := core.tiers[p.fallbackTier.value];
    var s := ScoreTier(predict, p, req, f, t);
    AssessedExactly(predict, p, req, f, t, s);
    Round6IsNearest(s.quality);
    EurosAreMillions(s.cost);
    assert t.name == p.fallbackTier.value;
  }

  lemma FallbackRouteExactly(
    predict: Predictor, core: Core, p: Policy, req: Request, f: Findings, dc: Option<DataClass>, d: Explanation,
    why: Why)
    requires WellKeyed(core)
    requires forall c | c in d.candidates :: EliminationLine(c, core, p, req, f, dc)
    ensures var e := FallbackOrBlock(predict, core, p, req, f, dc, d, why);
      if e.outcome == Route then RoutedToFallback(e, predict, core, p, req, f, dc)
      else forall c | c in e.candidates :: EliminationLine(c, core, p, req, f, dc)
  {
    hide FallbackViolation, Engine.RejectFallback, Engine.RouteToFallback, EliminationLine, RoutedToFallback, WellKeyed;
    if p.fallbackTier.Some? && p.fallbackTier.value in core.tiers {
      var name := p.fallbackTier.value;
      var t := core.tiers[name];
      FallbackSuffices(core, p, req, f, dc, why);
      var violation := FallbackViolation(t, p, req, f, dc, why);
      if violation.Some? {
        RejectedLines(core, name, p, req, f, dc, violation.value, d, why);
      } else {
        RoutedLines(predict, core, name, p, req, f, dc, d, why);
      }
    }
  }

  lemma RejectedLines(
    core: Core, name: string, p: Policy, req: Request, f: Findings, dc: Option<DataClass>, cause: Elimination,
    d: Explanation, why: Why)
    requires WellKeyed(core) && p.fallbackTier == Some(name) && name in core.tiers
    requires FirstBroken(cause, core.tiers[name], p, req, f, dc)
    requires forall c | c in d.candidates :: EliminationLine(c, core, p, req, f, dc)
    ensures var e := RejectFallback(core.tiers[name], name, cause, d, why);
      e.outcome == Block && forall c | c in e.candidates :: EliminationLine(c, core, p, req, f, dc)
  {
    hide EliminationLine, SortBy, WellKeyed;
    var t := core.tiers[name];
    RejectedIsEliminated(core, t, p, req, f, dc, cause);
    var cs := if FindTier(d.candidates, t.name).None? then d.candidates + [Eliminated(t.name, cause)] else d.candidates;
    SortByPermutes(CandidateLe, cs);
  }

  lemma RoutedLines(
    predict: Predictor, core: Core, name: string, p: Policy, req: Request, f: Findings, dc: Option<DataClass>,
    d: Explanation, why: Why)
    requires WellKeyed(core) && p.fallbackTier == Some(name) && name in core.tiers
    requires forall c | c in d.candidates :: EliminationLine(c, core, p, req, f, dc)
    ensures var e := RouteToFallback(predict, core.tiers[name], name, p, req, f, d, why);
      e.outcome == Route && RoutedToFallback(e, predict, core, p, req, f, dc)
  {
    hide FallbackCandidate, FallbackLine, EliminationLine, RelaxedNotes, EstimateCost, ReasoningFor, MicroToEur,
      SortBy, Filter;
    var t := core.tiers[name];
    FallbackCandidateIs(predict, core, p, req, f);
    FallbackCost(predict, t, p, req, f);
    FilterKeeps(OtherThan(t.name), d.candidates);
    var c := FallbackCandidate(predict, t, p, req, f);
    SortByPermutes(CandidateLe, Filter(OtherThan(t.name), d.candidates) + [c]);
    assert c in SortBy(CandidateLe, Filter(OtherThan(t.name), d.candidates) + [c]);
  }

  lemma FallbackCost(predict: Predictor, t: Tier, p: Policy, req: Request, f: Findings)
    ensures FallbackCandidate(predict, t, p, req, f).estimatedCost
            == Some(MicroToEur(EstimateCost(t, req.inputTokens, req.outputTokens)))
  {}

  lemma RejectedIsEliminated(
    core: Core, t: Tier, p: Policy, req: Request, f: Findings, dc: Option<DataClass>, cause: Elimination)
    requires WellKeyed(core) && p.fallbackTier.Some? && p.fallbackTier.value in core.tiers
    requires t == core.tiers[p.fallbackTier.value] && FirstBroken(cause, t, p, req, f, dc)
    ensures EliminationLine(Eliminated(t.name, cause), core, p, req, f, dc)
  {
    hide FirstBroken;
  }

  lemma EliminationsAreLines(core: Core, p: Policy, req: Request, f: Findings, dc: Option<DataClass>)
    ensures forall c | c in Eliminations(core, p.candidates, p, req, f, dc) :: EliminationLine(c, core, p, req, f, dc)
  {
    hide HardConstraintViolation, FirstBroken, Meets, Eliminations;
    EliminationsSound(core, p.candidates, p, req, f, dc);
    forall c | c in Eliminations(core, p.candidates, p, req, f, dc) ensures EliminationLine(c, core, p, req, f, dc) {
      HardConstraintViolationIsFirst(core.tiers[c.tier], p, req, f, dc);
    }
  }

  /** A denial lists every candidate as denied. */
  ghost predicate AllDenied(d: Explanation, p: Policy) {
    && |d.candidates| == |p.candidates|
    && forall i :: 0 <= i < |p.candidates| ==>
         d.candidates[i] == Candidate(p.candidates[i], Some(DenyIfRiskScoreAbove), None, None, None, false)
  }

  lemma JudgeUnscored(
    predict: Predictor, core: Core, p: Policy, req: Request, f: Findings, dc: Option<DataClass>, d: Explanation)
    requires WellKeyed(core) && d.candidates == [] && !d.fallback
    ensures var e := Judge(predict, core, p, req, f, dc, d);
      && (TooRisky(p, f) ==> e.outcome == Block && AllDenied(e, p))
      && (e.outcome == Route && e.fallback ==> RoutedToFallback(e, predict, core, p, req, f, dc))
      && (e.outcome == Block && e.fallback ==> forall c | c in e.candidates :: EliminationLine(c, core, p, req, f, dc))
  {
    hide FallbackOrBlock, ScoreAndSelect, Survivors, Eliminations, DegradedList, Round6, RoutedToFallback, WellKeyed,
      EliminationLine;
    if Denied(p, f) {
      assert forall i :: 0 <= i < |p.candidates| ==> Map(DeniedCandidate, p.candidates)[i]
                                                     == DeniedCandidate(p.candidates[i]);
    } else if DegradedList(core, p, f) != [] {
      FallbackRouteExactly(predict, core, p, req, f, dc,
                           d.(degraded := DegradedList(core, p, f), fallback := true), ClassificationDegraded);
    } else if Survivors(core, p.candidates, p, req, f, dc) == [] {
      EliminationsAreLines(core, p, req, f, dc);
      var out := Eliminations(core, p.candidates, p, req, f, dc);
      assert [] + out == out;
      FallbackRouteExactly(predict, core, p, req, f, dc,
                           d.(candidates := d.candidates + out, fallback := true), NothingSurvives);
    } else {
      ScoringSelects(predict, core, p, req, f, dc, d);
    }
  }

  /** What a decision that is not scored lists: denied candidates, or the fallback tier and what was eliminated. */
  lemma UnscoredIsReported(predict: Predictor, snap: Snapshot, req: Request, f: Findings)
    requires WellKeyed(snap.core)
    ensures var d := Decide(predict, snap, req, f);
      d.outcome != PassThrough ==>
        && Selection(snap, req).0.Some?
        && var p, dc := Selection(snap, req).0.value, Resolved(snap, req, f);
           && (TooRisky(p, f) ==> d.outcome == Block && AllDenied(d, p))
           && (d.outcome == Route && d.fallback ==> RoutedToFallback(d, predict, snap.core, p, req, f, dc))
           && (d.outcome == Block && d.fallback ==>
                 forall c | c in d.candidates :: EliminationLine(c, snap.core, p, req, f, dc))
  {
    hide Selection, Resolved, Judge, HeaderNotes, RoutesAlias, RoutedToFallback, AllDenied, EliminationLine, WellKeyed;
    var p := Selection(snap, req).0;
    if p.Some? {
      JudgeUnscored(predict, snap.core, p.value, req, f, Resolved(snap, req, f), Prepared(snap, req, f, p.value));
    }
  }
}
