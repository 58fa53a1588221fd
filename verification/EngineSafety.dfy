/**
 Safety of the decision engine: a ROUTE satisfies what it must, classification
 can be skipped for pass-through traffic, and more pressure never unblocks.
 */
module EngineSafety {
  import opened Ordering
  import opened Snapshots
  import opened Engine
  import opened EngineFacts

  // ---- ROUTE soundness ----

  /** What a routed tier has to satisfy, depending on how it was reached. */
  ghost predicate SoundRoute(
    core: Core, p: Policy, req: Request, f: Findings, dc: Option<DataClass>, n: string, fallback: bool
  ) {
    && n in core.tiers
    && !Breaks(DenyIfRiskScoreAbove, core.tiers[n], p, req, f, dc)
    && if !fallback then
         n in p.candidates && Meets(core.tiers[n], p, req, f, dc)
       else
         && p.fallbackTier == Some(n)
         && if DegradedList(core, p, f) != [] then MeetsRequestFacts(core.tiers[n], p, req, f, dc)
            else n !in p.candidates && Meets(core.tiers[n], p, req, f, dc)
  }

  ghost predicate Routes(core: Core, n: string, d: Explanation) {
    n in core.tiers && d.selectedTier == Some(core.tiers[n].name) && d.gatewayModel == Some(core.tiers[n].gatewayModel)
  }

  lemma FallbackOutcome(
    predict: Predictor, core: Core, p: Policy, req: Request, f: Findings, dc: Option<DataClass>, d: Explanation,
    why: Why)
    ensures var e := FallbackOrBlock(predict, core, p, req, f, dc, d, why);
      && e.fallback == d.fallback && e.degraded == d.degraded && e.policy == d.policy
      && (e.outcome == Route <==> FallbackServes(core, p, req, f, dc, why))
      && (e.outcome == Block <==> !FallbackServes(core, p, req, f, dc, why))
      && (e.outcome == Route ==> Routes(core, p.fallbackTier.value, e))
  {
    hide FallbackViolation, SortBy, Filter, FallbackCandidate, RelaxedNotes, MicroToEur, EstimateCost, ReasoningFor,
      FindTier;
  }

  predicate FallbackServes(core: Core, p: Policy, req: Request, f: Findings, dc: Option<DataClass>, why: Why) {
    && p.fallbackTier.Some?
    && p.fallbackTier.value in core.tiers
    && FallbackViolation(core.tiers[p.fallbackTier.value], p, req, f, dc, why).None?
  }

  /** Exactly when a routed request is blocked; otherwise it is routed. */
  predicate Blocks(core: Core, p: Policy, req: Request, f: Findings, dc: Option<DataClass>) {
    || Denied(p, f)
    || (DegradedList(core, p, f) != [] && !FallbackServes(core, p, req, f, dc, ClassificationDegraded))
    || (&& DegradedList(core, p, f) == []
        && Survivors(core, p.candidates, p, req, f, dc) == []
        && !FallbackServes(core, p, req, f, dc, NothingSurvives))
  }

  lemma JudgeOutcome(
    predict: Predictor, core: Core, p: Policy, req: Request, f: Findings, dc: Option<DataClass>, d: Explanation)
    ensures var e := Judge(predict, core, p, req, f, dc, d);
      e.outcome == if Blocks(core, p, req, f, dc) then Block else Route
  {
    hide FallbackOrBlock, FallbackServes, ScoreAndSelect, Survivors, Eliminations, DegradedList;
    if Denied(p, f) {
    } else if DegradedList(core, p, f) != [] {
      FallbackOutcome(predict, core, p, req, f, dc, d.(degraded := DegradedList(core, p, f), fallback := true),
                      ClassificationDegraded);
    } else if Survivors(core, p.candidates, p, req, f, dc) == [] {
      FallbackOutcome(predict, core, p, req, f, dc,
                      d.(candidates := d.candidates + Eliminations(core, p.candidates, p, req, f, dc),
                         fallback := true), NothingSurvives);
    } else {
      ScoringSelects(predict, core, p, req, f, dc, d);
    }
  }

  lemma NoSurvivor(core: Core, p: Policy, req: Request, f: Findings, dc: Option<DataClass>, n: string)
    requires Survivors(core, p.candidates, p, req, f, dc) == []
    requires n in core.tiers && HardConstraintViolation(core.tiers[n], p, req, f, dc).None?
    ensures n !in p.candidates
  {
    if n in p.candidates {
      SurvivorListed(core, p.candidates, p, req, f, dc, n);
    }
  }

  lemma JudgedRouteIsSound(
    predict: Predictor, core: Core, p: Policy, req: Request, f: Findings, dc: Option<DataClass>, d: Explanation)
    returns (n: string)
    requires !d.fallback
    requires Judge(predict, core, p, req, f, dc, d).outcome == Route
    ensures var e := Judge(predict, core, p, req, f, dc, d);
      SoundRoute(core, p, req, f, dc, n, e.fallback) && Routes(core, n, e)
  {
    hide FallbackOrBlock, ScoreAndSelect, Survivors, Eliminations, DegradedList, HardConstraintViolation,
      RequestFactViolation, Meets, MeetsRequestFacts, FinalRanking, FirstBroken;
    if DegradedList(core, p, f) != [] {
      var d' := d.(degraded := DegradedList(core, p, f), fallback := true);
      FallbackOutcome(predict, core, p, req, f, dc, d', ClassificationDegraded);
      n := p.fallbackTier.value;
      RequestFactViolationIsFirst(core.tiers[n], p, req, f, dc);
    } else if Survivors(core, p.candidates, p, req, f, dc) == [] {
      var d' := d.(candidates := d.candidates + Eliminations(core, p.candidates, p, req, f, dc), fallback := true);
      FallbackOutcome(predict, core, p, req, f, dc, d', NothingSurvives);
      n := p.fallbackTier.value;
      HardConstraintViolationIsFirst(core.tiers[n], p, req, f, dc);
      NoSurvivor(core, p, req, f, dc, n);
    } else {
      ScoringSelects(predict, core, p, req, f, dc, d);
      var ranked := FinalRanking(predict, core, p, req, f, dc);
      RankedSurvive(predict, core, p, req, f, dc, ranked[0]);
      n :| n in p.candidates && Survives(core, n, p, req, f, dc) && core.tiers[n] == ranked[0].scored.tier;
      HardConstraintViolationIsFirst(core.tiers[n], p, req, f, dc);
    }
  }

  /**
   Every ROUTE is sound, for every snapshot, request, findings and predictor: a scored tier is a candidate
   that meets every hard constraint; a fallback for degraded classification meets the data class and the
   request facts; any other fallback meets every hard constraint and is not one of the candidates.
   */
  lemma RouteIsSound(predict: Predictor, snap: Snapshot, req: Request, f: Findings)
    ensures var d := Decide(predict, snap, req, f);
      var p := Selection(snap, req).0;
      d.outcome == Route ==>
        && p.Some? && RoutesAlias(p.value, req)
        && exists n ::
             && SoundRoute(snap.core, p.value, req, f, Resolved(snap, req, f), n, d.fallback)
             && Routes(snap.core, n, d)
  {
    hide Selection, Resolved, HeaderNotes, Judge, SoundRoute, Routes;
    if Decide(predict, snap, req, f).outcome == Route {
      var p := Selection(snap, req).0.value;
      var n := JudgedRouteIsSound(predict, snap.core, p, req, f, Resolved(snap, req, f), Prepared(snap, req, f, p));
    }
  }

  /** A routed decision that is not a fallback was scored. */
  lemma RouteWasScored(
    predict: Predictor, core: Core, p: Policy, req: Request, f: Findings, dc: Option<DataClass>, d: Explanation)
    requires !d.fallback
    ensures var e := Judge(predict, core, p, req, f, dc, d);
      e.outcome == Route && !e.fallback ==> ReachesScoring(core, p, req, f, dc)
  {
    hide FallbackOrBlock, ScoreAndSelect, Survivors, Eliminations, DegradedList, FallbackServes, Denied;
    if DegradedList(core, p, f) != [] {
      FallbackOutcome(predict, core, p, req, f, dc, d.(degraded := DegradedList(core, p, f), fallback := true),
                      ClassificationDegraded);
    } else {
      FallbackOutcome(predict, core, p, req, f, dc,
                      d.(candidates := d.candidates + Eliminations(core, p.candidates, p, req, f, dc),
                         fallback := true), NothingSurvives);
    }
  }

  // ---- the relaxation note ----

  lemma {:induction false} EliminationsSound(
    core: Core, names: seq<string>, p: Policy, req: Request, f: Findings, dc: Option<DataClass>)
    ensures forall c | c in Eliminations(core, names, p, req, f, dc) ::
      && c.tier in names && c.tier in core.tiers
      && HardConstraintViolation(core.tiers[c.tier], p, req, f, dc).Some?
      && c == Eliminated(c.tier, HardConstraintViolation(core.tiers[c.tier], p, req, f, dc).value)
    ensures forall n | n in names && n in core.tiers && !Survives(core, n, p, req, f, dc) ::
      Eliminated(n, HardConstraintViolation(core.tiers[n], p, req, f, dc).value) in Eliminations(core, names, p, req,
                                                                                                 f, dc)
  {
    hide HardConstraintViolation;
    if names != [] {
      var front, n := names[..|names| - 1], names[|names| - 1];
      EliminationsSound(core, front, p, req, f, dc);
      assert forall m :: m in names <==> m in front || m == n;
    }
  }

  lemma FallbackNotes(
    predict: Predictor, core: Core, p: Policy, req: Request, f: Findings, dc: Option<DataClass>, d: Explanation,
    why: Why)
    requires FallbackServes(core, p, req, f, dc, why) ==>
      FindTier(d.candidates, core.tiers[p.fallbackTier.value].name).None?
    ensures FallbackOrBlock(predict, core, p, req, f, dc, d, why).notes == d.notes
  {
    hide FallbackViolation, SortBy, Filter, FallbackCandidate, MicroToEur, EstimateCost, ReasoningFor;
  }

  lemma JudgeAddsNoNote(
    predict: Predictor, core: Core, p: Policy, req: Request, f: Findings, dc: Option<DataClass>, d: Explanation)
    requires WellKeyed(core) && d.candidates == []
    ensures Judge(predict, core, p, req, f, dc, d).notes == d.notes
  {
    hide FallbackOrBlock, ScoreAndSelect, Survivors, Eliminations, DegradedList, HardConstraintViolation,
      RequestFactViolation, FinalRanking, Denied;
    if !Denied(p, f) {
      if DegradedList(core, p, f) != [] {
        FallbackNotes(predict, core, p, req, f, dc, d.(degraded := DegradedList(core, p, f), fallback := true),
                      ClassificationDegraded);
      } else if Survivors(core, p.candidates, p, req, f, dc) == [] {
        var d' := d.(candidates := d.candidates + Eliminations(core, p.candidates, p, req, f, dc), fallback := true);
        assert d'.candidates == Eliminations(core, p.candidates, p, req, f, dc);
        EliminationsSound(core, p.candidates, p, req, f, dc);
        FallbackNotes(predict, core, p, req, f, dc, d', NothingSurvives);
      } else {
        ScoringSelects(predict, core, p, req, f, dc, d);
      }
    }
  }

  /** On a well-keyed snapshot no decision ever carries the note that an eliminated fallback was relaxed. */
  lemma RelaxationNoteIsUnreachable(predict: Predictor, snap: Snapshot, req: Request, f: Findings)
    requires WellKeyed(snap.core)
    ensures forall note | note in Decide(predict, snap, req, f).notes :: !note.FallbackRelaxed?
  {
    hide Judge, ConsiderHeaders, HeaderClasses, FindNamed, Filter, RoutesAlias;
    HeaderNotesOnly(snap.core.dataClasses, req.hints.dataClasses);
    var p := Selection(snap, req).0;
    if p.Some? {
      JudgeAddsNoNote(predict, snap.core, p.value, req, f, Resolved(snap, req, f), Prepared(snap, req, f, p.value));
    }
  }

  lemma {:induction false} HeaderNotesOnly(classes: map<string, DataClass>, headers: seq<string>)
    ensures forall note | note in HeaderNotes(classes, headers) :: note.UnknownDataClass?
  {
    if headers != [] {
      HeaderNotesOnly(classes, headers[..|headers| - 1]);
    }
  }

  // ---- skipping classification ----

  /** `IsRouted` is exact: the decision passes the request through if and only if it says so, whatever is found. */
  lemma SkippingIsExact(predict: Predictor, snap: Snapshot, req: Request, f: Findings)
    ensures IsRouted(snap, req) <==> Decide(predict, snap, req, f).outcome != PassThrough
  {
    hide Judge, Selection, RoutesAlias, HeaderNotes, Resolved, Blocks;
    var p := Selection(snap, req).0;
    if p.Some? {
      JudgeOutcome(predict, snap.core, p.value, req, f, Resolved(snap, req, f), Prepared(snap, req, f, p.value));
    }
  }

  /** What a pass-through decision says does not depend on the findings that were never computed. */
  lemma PassThroughIgnoresFindings(predict: Predictor, snap: Snapshot, req: Request, f: Findings, g: Findings)
    requires !IsRouted(snap, req)
    ensures Decide(predict, snap, req, f) == Decide(predict, snap, req, g).(degraded := f.degraded)
    ensures Decide(predict, snap, req, f).outcome == PassThrough
  {
    hide Selection, RoutesAlias;
  }

  // ---- pressure ----

  /** The second request is the first with more risk, more tokens or tools turned on. */
  predicate MorePressure(req: Request, f: Findings, req': Request, f': Findings) {
    && req'.tenant == req.tenant && req'.agent == req.agent && req'.path == req.path
    && req'.requestedModel == req.requestedModel && req'.hints == req.hints
    && (req.toolsPresent ==> req'.toolsPresent)
    && req.inputTokens <= req'.inputTokens && req.outputTokens <= req'.outputTokens
    && f'.degraded == f.degraded
    && f'.riskScore.Some? == f.riskScore.Some?
    && (f.riskScore.Some? ==> f.riskScore.value <= f'.riskScore.value)
  }

  /**
   Pressure cannot bring this tier back: its prices are too low for the estimated cost to wrap, or its
   context window turns a request away before the cost can.
   */
  predicate PressureSafe(t: Tier) {
    SafePrices(t) || t.contextWindow < U64_MAX
  }

  predicate PressureSafeTiers(tiers: map<string, Tier>) {
    forall n | n in tiers :: PressureSafe(tiers[n])
  }

  lemma PressureKeepsCost(t: Tier, req: Request, f: Findings, req': Request, f': Findings)
    requires MorePressure(req, f, req', f') && PressureSafe(t)
    requires SaturatingAdd(req'.inputTokens, req'.outputTokens) <= t.contextWindow
    ensures EstimateCost(t, req.inputTokens, req.outputTokens) <= EstimateCost(t, req'.inputTokens, req'.outputTokens)
  {
    hide EstimateCost, TokenCost, SafePrices;
    if SafePrices(t) {
      CostMonotone(t, req.inputTokens, req.outputTokens, req'.inputTokens, req'.outputTokens);
    } else {
      TokensInWindowDoNotWrap(t, req'.inputTokens, req'.outputTokens);
      UnwrappedCostMonotone(t, req.inputTokens, req.outputTokens, req'.inputTokens, req'.outputTokens);
    }
  }

  lemma PressureKeepsViolation(
    t: Tier, p: Policy, req: Request, f: Findings, req': Request, f': Findings, dc: Option<DataClass>)
    requires MorePressure(req, f, req', f') && PressureSafe(t)
    ensures HardConstraintViolation(t, p, req, f, dc).Some? ==> HardConstraintViolation(t, p, req', f', dc).Some?
    ensures RequestFactViolation(t, p, req, f, dc).Some? ==> RequestFactViolation(t, p, req', f', dc).Some?
  {
    hide EstimateCost, PolicyClassViolation, PressureSafe;
    if SaturatingAdd(req'.inputTokens, req'.outputTokens) <= t.contextWindow {
      PressureKeepsCost(t, req, f, req', f');
    }
  }

  /** More pressure only shrinks the set of tiers without a hard-constraint violation. */
  lemma PressureShrinksSurvivors(
    core: Core, p: Policy, req: Request, f: Findings, req': Request, f': Findings, dc: Option<DataClass>)
    requires PressureSafeTiers(core.tiers)
    requires MorePressure(req, f, req', f')
    ensures forall n :: Survives(core, n, p, req', f', dc) ==> Survives(core, n, p, req, f, dc)
    ensures forall t | t in Survivors(core, p.candidates, p, req', f', dc) ::
      t in Survivors(core, p.candidates, p, req, f, dc)
  {
    hide HardConstraintViolation, MorePressure, PressureSafe, Survivors;
    SurvivorsSound(core, p.candidates, p, req, f, dc);
    SurvivorsSound(core, p.candidates, p, req', f', dc);
    forall n | Survives(core, n, p, req', f', dc) ensures Survives(core, n, p, req, f, dc) {
      PressureKeepsViolation(core.tiers[n], p, req, f, req', f', dc);
    }
  }

  lemma PressureKeepsBlocks(
    core: Core, p: Policy, req: Request, f: Findings, req': Request, f': Findings, dc: Option<DataClass>)
    requires PressureSafeTiers(core.tiers)
    requires MorePressure(req, f, req', f')
    ensures Blocks(core, p, req, f, dc) ==> Blocks(core, p, req', f', dc)
  {
    hide HardConstraintViolation, RequestFactViolation, Survivors, PressureSafe, RiskNeeded;
    PressureShrinksSurvivors(core, p, req, f, req', f', dc);
    NothingBelowEmpty(Survivors(core, p.candidates, p, req', f', dc), Survivors(core, p.candidates, p, req, f, dc));
    if p.fallbackTier.Some? && p.fallbackTier.value in core.tiers {
      PressureKeepsViolation(core.tiers[p.fallbackTier.value], p, req, f, req', f', dc);
    }
  }

  lemma PressureKeepsScope(snap: Snapshot, req: Request, f: Findings, req': Request, f': Findings)
    requires MorePressure(req, f, req', f')
    ensures Selection(snap, req') == Selection(snap, req)
    ensures IsRouted(snap, req') == IsRouted(snap, req)
  {
    MatchingDependsOnScope(snap.core.policies, req, req');
  }

  lemma {:induction false} MatchingDependsOnScope(ps: seq<Policy>, req: Request, req': Request)
    requires req'.tenant == req.tenant && req'.agent == req.agent && req'.path == req.path
    ensures Matching(ps, req') == Matching(ps, req)
  {
    hide ListMatches;
    if ps != [] {
      MatchingDependsOnScope(ps[..|ps| - 1], req, req');
    }
  }

  /** Raising the risk or a token estimate, or turning tools on, never turns a BLOCK into another outcome. */
  lemma PressureNeverUnblocks(
    predict: Predictor, snap: Snapshot, req: Request, f: Findings, req': Request, f': Findings)
    requires PressureSafeTiers(snap.core.tiers)
    requires MorePressure(req, f, req', f')
    requires Resolved(snap, req, f) == Resolved(snap, req', f')
    ensures Decide(predict, snap, req, f).outcome == Block ==> Decide(predict, snap, req', f').outcome == Block
  {
    hide Judge, Selection, HeaderNotes, Resolved, Blocks, MorePressure, PressureSafeTiers;
    PressureKeepsScope(snap, req, f, req', f');
    var p := Selection(snap, req).0;
    if p.Some? {
      var dc := Resolved(snap, req, f);
      JudgeOutcome(predict, snap.core, p.value, req, f, dc, Prepared(snap, req, f, p.value));
      JudgeOutcome(predict, snap.core, p.value, req', f', dc, Prepared(snap, req', f', p.value));
      PressureKeepsBlocks(snap.core, p.value, req, f, req', f', dc);
    }
  }

  /** A world over the given tiers whose one policy routes everything to one of them, at almost any cost. */
  function UnsafeWorld(tiers: map<string, Tier>, n: string): Snapshot {
    Snapshot("", Core(tiers, map[], [
      Policy("p", "", "p", 0, Match([], [], [], ["*"]), [n], false, Some(U64_MAX - 1), {}, None, Balanced, None,
             ModeWeights(Balanced), LearnedRouter(false, None, 0.0), false, map[], None, true, false)], map[]))
  }

  function UnsafeRequest(output: u64): Request {
    Request(None, None, "", "", false, U64_MAX, output, Hints([], None, false))
  }

  /** Findings with the highest risk the tier accepts. */
  function UnsafeFindings(t: Tier): Findings {
    Findings(None, None, Some(t.maxRiskScore), {}, map[], None, [])
  }

  lemma SingleMatch(p: Policy, req: Request)
    requires ScopeMatches(p.scope, req)
    ensures Matching([p], req) == [p]
  {
    hide ScopeMatches;
    FilterPrefix(InScope(req), [p], 0);
    assert [p][..1] == [p] && [p][..0] == [];
    assert Filter(InScope(req), []) == [];
  }

  lemma UnsafeWorldVerdict(predict: Predictor, tiers: map<string, Tier>, n: string, output: u64)
    requires n in tiers && tiers[n].contextWindow == U64_MAX
    ensures Decide(predict, UnsafeWorld(tiers, n), UnsafeRequest(output), UnsafeFindings(tiers[n])).outcome
            == if EstimateCost(tiers[n], U64_MAX, output) > U64_MAX - 1 then Block else Route
  {
    hide EstimateCost, Judge, Resolved, HeaderNotes;
    var snap, req, f := UnsafeWorld(tiers, n), UnsafeRequest(output), UnsafeFindings(tiers[n]);
    var p := snap.core.policies[0];
    SingleMatch(p, req);
    assert "*" in p.scope.modelAliases && GlobMatch("*", req.requestedModel);
    var dc := Resolved(snap, req, f);
    JudgeOutcome(predict, snap.core, p, req, f, dc, Prepared(snap, req, f, p));
    assert p.candidates[..0] == [];
    assert Survivors(snap.core, [], p, req, f, dc) == [];
  }

  /** Raising the pressure turns a BLOCK into something else. */
  predicate Unblocks(predict: Predictor, snap: Snapshot, req: Request, f: Findings, req': Request, f': Findings) {
    && MorePressure(req, f, req', f')
    && Resolved(snap, req, f) == Resolved(snap, req', f')
    && Decide(predict, snap, req, f).outcome == Block
    && Decide(predict, snap, req', f').outcome != Block
  }

  /**
   One unsafe tier is enough: some policy over the same tiers routes a request one output token longer than a blocked
   one.
   */
  lemma UnsafePricesUnblock(predict: Predictor, tiers: map<string, Tier>, n: string) returns (o: u64)
    requires n in tiers && !PressureSafe(tiers[n])
    ensures o > 0
    ensures var f := UnsafeFindings(tiers[n]);
      && Unblocks(predict, UnsafeWorld(tiers, n), UnsafeRequest(o - 1), f, UnsafeRequest(o), f)
      && Decide(predict, UnsafeWorld(tiers, n), UnsafeRequest(o), f).outcome == Route
  {
    hide EstimateCost, Decide, Resolved, SafePrices;
    o := UnsafePricesDropTheCost(tiers[n]);
    UnsafeWorldVerdict(predict, tiers, n, o - 1);
    UnsafeWorldVerdict(predict, tiers, n, o);
    SameHintsSameClass(UnsafeWorld(tiers, n), UnsafeRequest(o - 1), UnsafeRequest(o), UnsafeFindings(tiers[n]));
  }

  lemma SameHintsSameClass(snap: Snapshot, req: Request, req': Request, f: Findings)
    ensures req.hints == req'.hints ==> Resolved(snap, req, f) == Resolved(snap, req', f)
  {}

  /** No policy over these tiers and no request for which more pressure turns a BLOCK into something else. */
  ghost predicate PressureNeverUnblocksOver(predict: Predictor, tiers: map<string, Tier>) {
    forall snap: Snapshot, req: Request, f: Findings, req': Request, f': Findings | snap.core.tiers == tiers ::
      !Unblocks(predict, snap, req, f, req', f')
  }

  /** Exactly the tier sets without an unsafe tier have it. */
  lemma PressureNeverUnblocksExactly(predict: Predictor, tiers: map<string, Tier>)
    ensures PressureNeverUnblocksOver(predict, tiers) <==> PressureSafeTiers(tiers)
  {
    hide Decide, Resolved, MorePressure, PressureSafe;
    if PressureSafeTiers(tiers) {
      forall snap: Snapshot, req: Request, f: Findings, req': Request, f': Findings | snap.core.tiers == tiers
        ensures !Unblocks(predict, snap, req, f, req', f')
      {
        if Unblocks(predict, snap, req, f, req', f') {
          PressureNeverUnblocks(predict, snap, req, f, req', f');
        }
      }
    } else {
      var n :| n in tiers && !PressureSafe(tiers[n]);
      var o := UnsafePricesUnblock(predict, tiers, n);
      assert UnsafeWorld(tiers, n).core.tiers == tiers;
    }
  }
}
