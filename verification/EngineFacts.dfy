/**
 Facts about the steps of the engine that the theorems share: what survives the
 elimination pass, what the quality floor keeps, what the ranking contains.
 */
module EngineFacts {
  import opened Ordering
  import opened Snapshots
  import opened SnapshotNumbers
  import opened Engine

  // ---- an independent statement of the hard constraints ----

  /** The tokens are worth no more than the cap, or the cap is the largest cost there is. */
  predicate Affordable(t: Tier, input: u64, output: u64, cap: u64) {
    (input * t.inputPrice + output * t.outputPrice) % U128 <= 1_000_000 * cap || cap == U64_MAX
  }

  /** What each elimination reason means, one constraint at a time. */
  predicate Breaks(e: Elimination, t: Tier, p: Policy, req: Request, f: Findings, dc: Option<DataClass>) {
    var bound := p.respectDataClass && dc.Some?;
    match e
    case DenyIfRiskScoreAbove => p.denyIfRiskAbove.Some? && f.riskScore.Some?
      && p.denyIfRiskAbove.value < f.riskScore.value
    case DataClassNotAllowed => bound && dc.value.name !in t.allowedDataClasses
    case DataClassRequireJurisdiction =>
      bound && !(dc.value.requireJurisdiction == {} || t.jurisdiction in dc.value.requireJurisdiction)
    case DataClassForbidCloudActExposed => bound && dc.value.forbidCloudActExposed && t.cloudActExposed
    case DataClassRequireOperatorControl =>
      bound && !(dc.value.requireOperatorControl == {} || t.operatorControl in dc.value.requireOperatorControl)
    case DataClassForbidCapabilities => bound && exists c :: c in t.capabilities && c in dc.value.forbidCapabilities
    case RequireCapabilities => exists c :: c in p.requireCapabilities && c !in t.capabilities
    case ToolsNotSupported => req.toolsPresent && Tools !in t.capabilities
    case ContextWindow => t.contextWindow < U64_MAX && t.contextWindow < req.inputTokens + req.outputTokens
    case MaxRiskScore => f.riskScore.Some? && t.maxRiskScore < f.riskScore.value
    case ToolCallingNotAllowed => req.toolsPresent && !t.toolCallingAllowed
    case MaxCostPerRequest => p.maxCost.Some? && !Affordable(t, req.inputTokens, req.outputTokens, p.maxCost.value)
    case QualityFloor => false
  }

  /** The place of a constraint in the fixed evaluation order. */
  function Position(e: Elimination): nat {
    match e
    case DenyIfRiskScoreAbove => 0
    case DataClassNotAllowed => 1
    case DataClassRequireJurisdiction => 2
    case DataClassForbidCloudActExposed => 3
    case DataClassRequireOperatorControl => 4
    case DataClassForbidCapabilities => 5
    case RequireCapabilities => 6
    case ToolsNotSupported => 7
    case ContextWindow => 8
    case MaxRiskScore => 9
    case ToolCallingNotAllowed => 10
    case MaxCostPerRequest => 11
    case QualityFloor => 12
  }

  predicate IsRequestFact(e: Elimination) {
    1 <= Position(e) <= 10
  }

  predicate IsHard(e: Elimination) {
    1 <= Position(e) <= 11
  }

  /** No constraint evaluated before place `k` is broken. */
  ghost predicate ClearBefore(k: nat, t: Tier, p: Policy, req: Request, f: Findings, dc: Option<DataClass>) {
    forall e :: 1 <= Position(e) < k ==> !Breaks(e, t, p, req, f, dc)
  }

  /** The tier satisfies every hard constraint. */
  ghost predicate Meets(t: Tier, p: Policy, req: Request, f: Findings, dc: Option<DataClass>) {
    ClearBefore(12, t, p, req, f, dc)
  }

  /** The tier satisfies the data class and the request facts. */
  ghost predicate MeetsRequestFacts(t: Tier, p: Policy, req: Request, f: Findings, dc: Option<DataClass>) {
    ClearBefore(11, t, p, req, f, dc)
  }

  /** `e` is broken and nothing evaluated before it is. */
  ghost predicate FirstBroken(e: Elimination, t: Tier, p: Policy, req: Request, f: Findings, dc: Option<DataClass>) {
    Breaks(e, t, p, req, f, dc) && ClearBefore(Position(e), t, p, req, f, dc)
  }

  lemma PositionInjective(a: Elimination, b: Elimination)
    ensures Position(a) == Position(b) ==> a == b
  {}

  lemma ClearPast(e: Elimination, t: Tier, p: Policy, req: Request, f: Findings, dc: Option<DataClass>)
    requires ClearBefore(Position(e), t, p, req, f, dc) && !Breaks(e, t, p, req, f, dc)
    ensures ClearBefore(Position(e) + 1, t, p, req, f, dc)
  {
    hide Breaks, Position;
    forall e' | 1 <= Position(e') < Position(e) + 1 ensures !Breaks(e', t, p, req, f, dc) {
      if Position(e') == Position(e) { PositionInjective(e', e); }
    }
  }

  lemma ForbiddenOverlap(t: Tier, dc: DataClass)
    ensures t.capabilities * dc.forbidCapabilities != {}
            <==> exists c :: c in t.capabilities && c in dc.forbidCapabilities
  {
    if t.capabilities * dc.forbidCapabilities != {} {
      var c :| c in t.capabilities * dc.forbidCapabilities;
    }
    if c :| c in t.capabilities && c in dc.forbidCapabilities {
      assert c in t.capabilities * dc.forbidCapabilities;
    }
  }

  lemma ClassViolationIsFirst(t: Tier, p: Policy, req: Request, f: Findings, dc: Option<DataClass>)
    ensures var v := PolicyClassViolation(t, p, dc);
      if v.None? then ClearBefore(6, t, p, req, f, dc)
      else 1 <= Position(v.value) < 6 && FirstBroken(v.value, t, p, req, f, dc)
  {
    if dc.Some? {
      ForbiddenOverlap(t, dc.value);
    }
  }

  lemma MissingCapability(t: Tier, p: Policy)
    ensures !(p.requireCapabilities <= t.capabilities)
            <==> exists c :: c in p.requireCapabilities && c !in t.capabilities
  {}

  /**
   The request-fact function reports the first broken constraint of its list, and nothing only when none is broken.
   */
  lemma RequestFactViolationIsFirst(t: Tier, p: Policy, req: Request, f: Findings, dc: Option<DataClass>)
    ensures var v := RequestFactViolation(t, p, req, f, dc);
      if v.None? then MeetsRequestFacts(t, p, req, f, dc)
      else IsRequestFact(v.value) && FirstBroken(v.value, t, p, req, f, dc)
  {
    hide PolicyClassViolation;
    ClassViolationIsFirst(t, p, req, f, dc);
    MissingCapability(t, p);
    if PolicyClassViolation(t, p, dc).None? {
      if !Breaks(RequireCapabilities, t, p, req, f, dc) {
        ClearPast(RequireCapabilities, t, p, req, f, dc);
        if !Breaks(ToolsNotSupported, t, p, req, f, dc) {
          ClearPast(ToolsNotSupported, t, p, req, f, dc);
          if !Breaks(ContextWindow, t, p, req, f, dc) {
            ClearPast(ContextWindow, t, p, req, f, dc);
            if !Breaks(MaxRiskScore, t, p, req, f, dc) {
              ClearPast(MaxRiskScore, t, p, req, f, dc);
              if !Breaks(ToolCallingNotAllowed, t, p, req, f, dc) {
                ClearPast(ToolCallingNotAllowed, t, p, req, f, dc);
              }
            }
          }
        }
      }
    }
  }

  /** The hard-constraint function is the request-fact function followed by the cost cap. */
  lemma CostCapComesLast(t: Tier, p: Policy, req: Request, f: Findings, dc: Option<DataClass>)
    ensures HardConstraintViolation(t, p, req, f, dc) ==
      if RequestFactViolation(t, p, req, f, dc).Some? then RequestFactViolation(t, p, req, f, dc)
      else if Breaks(MaxCostPerRequest, t, p, req, f, dc) then Some(MaxCostPerRequest) else None
  {
    hide EstimateCost, PolicyClassViolation, Affordable;
    if p.maxCost.Some? {
      AffordableExactly(t, req.inputTokens, req.outputTokens, p.maxCost.value);
    }
  }

  lemma AffordableExactly(t: Tier, input: u64, output: u64, cap: u64)
    ensures EstimateCost(t, input, output) <= cap <==> Affordable(t, input, output, cap)
  {
    CapExceededExactly(t, input, output, cap);
  }

  /** The same for the full list of hard constraints. */
  lemma HardConstraintViolationIsFirst(t: Tier, p: Policy, req: Request, f: Findings, dc: Option<DataClass>)
    ensures var v := HardConstraintViolation(t, p, req, f, dc);
      if v.None? then Meets(t, p, req, f, dc) else IsHard(v.value) && FirstBroken(v.value, t, p, req, f, dc)
  {
    hide HardConstraintViolation, RequestFactViolation, Breaks;
    RequestFactViolationIsFirst(t, p, req, f, dc);
    CostCapComesLast(t, p, req, f, dc);
    if RequestFactViolation(t, p, req, f, dc).None? && !Breaks(MaxCostPerRequest, t, p, req, f, dc) {
      ClearPast(MaxCostPerRequest, t, p, req, f, dc);
    }
  }

  // ---- the elimination pass ----

  lemma {:induction false} SurvivorsSound(
    core: Core, names: seq<string>, p: Policy, req: Request, f: Findings, dc: Option<DataClass>)
    ensures forall t :: t in Survivors(core, names, p, req, f, dc) <==>
                        exists n :: n in names && Survives(core, n, p, req, f, dc) && core.tiers[n] == t
  {
    hide Survives;
    if names != [] {
      var front, n := names[..|names| - 1], names[|names| - 1];
      SurvivorsSound(core, front, p, req, f, dc);
      assert forall m :: m in names <==> m in front || m == n;
    }
  }

  lemma SurvivorListed(
    core: Core, names: seq<string>, p: Policy, req: Request, f: Findings, dc: Option<DataClass>, n: string)
    requires n in names && Survives(core, n, p, req, f, dc)
    ensures core.tiers[n] in Survivors(core, names, p, req, f, dc)
  {
    SurvivorsSound(core, names, p, req, f, dc);
  }

  lemma NothingBelowEmpty<T>(below: seq<T>, above: seq<T>)
    requires forall x | x in below :: x in above
    ensures above == [] ==> below == []
  {
    if below != [] {
      var x := below[0];
      assert x in above;
    }
  }

  // ---- the floor ----

  lemma {:induction false} FilterNonEmpty<T(!new)>(test: T -> bool, xs: seq<T>, x: T)
    requires x in xs && test(x)
    ensures Filter(test, xs) != []
  {
    FilterKeeps(test, xs);
    assert x in Filter(test, xs);
  }

  lemma KeptSound(floor: Option<real>, ss: seq<Scored>)
    ensures forall s :: s in Kept(floor, ss) <==> s in ss && PassesFloor(floor, ss, s)
  {
    FilterKeeps(Passing(floor, ss), ss);
  }

  /** The quality floor never empties a non-empty list of survivors. */
  lemma FloorKeepsSomething(floor: Option<real>, ss: seq<Scored>)
    requires ss != []
    ensures Kept(floor, ss) != []
  {
    if floor.None? {
      FilterNonEmpty(Passing(floor, ss), ss, ss[0]);
    } else if FloorMet(floor.value, ss) {
      var s :| s in ss && AboveFloor(floor.value, s);
      FilterNonEmpty(Passing(floor, ss), ss, s);
    } else {
      var best := MaxOf(Qualities(ss));
      var i :| 0 <= i < |ss| && Qualities(ss)[i] == best;
      assert ss[i].quality == best;
      FilterNonEmpty(Passing(floor, ss), ss, ss[i]);
    }
  }

  /** What is at least as good as something that passes the floor passes it too. */
  lemma FloorIsUpwardClosed(floor: Option<real>, ss: seq<Scored>, a: Scored, b: Scored)
    requires a in ss && b in ss && PassesFloor(floor, ss, b) && a.quality >= b.quality
    ensures PassesFloor(floor, ss, a)
  {
    if floor.Some? && !FloorMet(floor.value, ss) {
      var i :| 0 <= i < |ss| && ss[i] == a;
      assert Qualities(ss)[i] in Qualities(ss);
    }
  }

  // ---- the ranking ----

  lemma RankOrder()
    ensures TotalPreorder(RankLe)
  {
    StrOrder();
    forall a, b, c | RankLe(a, b) && RankLe(b, c) ensures RankLe(a, c) {}
  }

  lemma RankingSound(w: Weights, ss: seq<Scored>)
    ensures |Ranking(w, ss)| == |ss|
    ensures forall s | s in ss :: Rank(w, ss, s) in Ranking(w, ss)
    ensures forall r | r in Ranking(w, ss) :: r.scored in ss && r == Rank(w, ss, r.scored)
    ensures Sorted(RankLe, Ranking(w, ss))
  {
    hide RankLe, RawScore, Round6;
    var rs := Map(Ranker(w, ss), ss);
    RankOrder();
    SortByPermutes(RankLe, rs);
    SortBySorts(RankLe, rs);
    forall s | s in ss ensures Rank(w, ss, s) in rs {
      var i :| 0 <= i < |ss| && ss[i] == s;
      assert rs[i] == Rank(w, ss, s);
    }
    forall r | r in rs ensures r.scored in ss && r == Rank(w, ss, r.scored) {
      var i :| 0 <= i < |rs| && rs[i] == r;
      assert r == Rank(w, ss, ss[i]);
    }
  }

  // ---- from the decision to its parts ----

  /** A map key is the name of the tier it leads to, as in every compiled snapshot. */
  predicate WellKeyed(core: Core) {
    && (forall n | n in core.tiers :: core.tiers[n].name == n)
    && (forall n | n in core.dataClasses :: core.dataClasses[n].name == n)
  }

  /** The tiers that reach scoring, with their scores' inputs. */
  function Contenders(
    predict: Predictor, core: Core, p: Policy, req: Request, f: Findings, dc: Option<DataClass>
  ): seq<Scored> {
    ScoreTiers(predict, p, req, f, Survivors(core, p.candidates, p, req, f, dc))
  }

  function FinalRanking(
    predict: Predictor, core: Core, p: Policy, req: Request, f: Findings, dc: Option<DataClass>
  ): seq<Ranked> {
    Ranking(p.weights, Kept(p.qualityFloor, Contenders(predict, core, p, req, f, dc)))
  }

  /** The decision reaches scoring: nothing denies it, nothing is degraded, something survives. */
  predicate ReachesScoring(core: Core, p: Policy, req: Request, f: Findings, dc: Option<DataClass>) {
    !Denied(p, f) && DegradedList(core, p, f) == [] && Survivors(core, p.candidates, p, req, f, dc) != []
  }

  lemma ScoringSelects(
    predict: Predictor, core: Core, p: Policy, req: Request, f: Findings, dc: Option<DataClass>, d: Explanation)
    requires ReachesScoring(core, p, req, f, dc)
    ensures var ranked := FinalRanking(predict, core, p, req, f, dc);
      var e := Judge(predict, core, p, req, f, dc, d);
      && ranked != []
      && e.outcome == Route
      && e.selectedTier == Some(ranked[0].scored.tier.name)
      && e.gatewayModel == Some(ranked[0].scored.tier.gatewayModel)
      && e.fallback == d.fallback
      && e.notes == d.notes
      && e.degraded == d.degraded
      && e.policy == d.policy
  {
    hide Survivors, Eliminations, Rank, PassesFloor, HardConstraintViolation, Round6, MicroToEur, Savings;
    var ss := Contenders(predict, core, p, req, f, dc);
    FloorKeepsSomething(p.qualityFloor, ss);
    RankingSound(p.weights, Kept(p.qualityFloor, ss));
  }

  /** The ranked tiers are survivors of the elimination pass. */
  lemma RankedSurvive(
    predict: Predictor, core: Core, p: Policy, req: Request, f: Findings, dc: Option<DataClass>, r: Ranked)
    requires r in FinalRanking(predict, core, p, req, f, dc)
    ensures exists n :: n in p.candidates && Survives(core, n, p, req, f, dc) && core.tiers[n] == r.scored.tier
    ensures r.scored == ScoreTier(predict, p, req, f, r.scored.tier)
    ensures PassesFloor(p.qualityFloor, Contenders(predict, core, p, req, f, dc), r.scored)
  {
    hide Survives, PassesFloor, Rank, ScoreTier;
    var ss := Contenders(predict, core, p, req, f, dc);
    RankingSound(p.weights, Kept(p.qualityFloor, ss));
    KeptSound(p.qualityFloor, ss);
    var survivors := Survivors(core, p.candidates, p, req, f, dc);
    var i :| 0 <= i < |ss| && ss[i] == r.scored;
    assert ss[i] == ScoreTier(predict, p, req, f, survivors[i]);
    ScoreTierKeepsTier(predict, p, req, f, survivors[i]);
    SurvivorsSound(core, p.candidates, p, req, f, dc);
    assert survivors[i] in survivors;
  }

  lemma ScoreTierKeepsTier(predict: Predictor, p: Policy, req: Request, f: Findings, t: Tier)
    ensures ScoreTier(predict, p, req, f, t).tier == t
  {}

  /** A survivor that passes the floor is ranked. */
  lemma SurvivorContends(
    predict: Predictor, core: Core, p: Policy, req: Request, f: Findings, dc: Option<DataClass>, n: string)
    requires n in p.candidates && Survives(core, n, p, req, f, dc)
    ensures ScoreTier(predict, p, req, f, core.tiers[n]) in Contenders(predict, core, p, req, f, dc)
  {
    hide Survives, ScoreTier;
    var survivors := Survivors(core, p.candidates, p, req, f, dc);
    SurvivesIsKnown(core, n, p, req, f, dc);
    SurvivorListed(core, p.candidates, p, req, f, dc, n);
    var i :| 0 <= i < |survivors| && survivors[i] == core.tiers[n];
    assert Contenders(predict, core, p, req, f, dc)[i] == ScoreTier(predict, p, req, f, core.tiers[n]);
  }

  lemma SurvivesIsKnown(core: Core, n: string, p: Policy, req: Request, f: Findings, dc: Option<DataClass>)
    ensures Survives(core, n, p, req, f, dc) ==> n in core.tiers
  {}
}
