/**
 Data-class hints and BLOCK: exactly when no hint can turn a blocked request into a
 routed one.
 */
module EngineUnblocking {
  import opened Ordering
  import opened Snapshots
  import opened Engine
  import opened EngineFacts
  import opened EngineSafety
  import opened EngineHints

  // ---- a routed request, seen without its data class ----

  /** What the constraints other than the data class look at. */
  datatype Load = Load(tools: bool, input: u64, output: u64, risk: Option<real>)

  function LoadOf(req: Request, f: Findings): Load {
    Load(req.toolsPresent, req.inputTokens, req.outputTokens, f.riskScore)
  }

  /** The tier meets the constraints on the facts of the request. */
  predicate BearsFacts(t: Tier, p: Policy, load: Load) {
    && p.requireCapabilities <= t.capabilities
    && (load.tools ==> Tools in t.capabilities && t.toolCallingAllowed)
    && SaturatingAdd(load.input, load.output) <= t.contextWindow
    && (load.risk.Some? ==> load.risk.value <= t.maxRiskScore)
  }

  /** It meets those and the cost cap. */
  predicate Bears(t: Tier, p: Policy, load: Load) {
    BearsFacts(t, p, load) && (p.maxCost.Some? ==> EstimateCost(t, load.input, load.output) <= p.maxCost.value)
  }

  predicate ServesClass(t: Tier, p: Policy, dc: Option<DataClass>) {
    p.respectDataClass && dc.Some? ==> Serves(t, dc.value)
  }

  lemma ConstraintsByLoad(t: Tier, p: Policy, req: Request, f: Findings, dc: Option<DataClass>)
    ensures RequestFactViolation(t, p, req, f, dc).None? <==> BearsFacts(t, p, LoadOf(req, f)) && ServesClass(t, p, dc)
    ensures HardConstraintViolation(t, p, req, f, dc).None? <==> Bears(t, p, LoadOf(req, f)) && ServesClass(t, p, dc)
  {
    hide EstimateCost, DataClassViolation;
  }

  /** The tiers a policy can route to. */
  function Reachable(p: Policy): seq<string> {
    p.candidates + if p.fallbackTier.Some? then [p.fallbackTier.value] else []
  }

  /** Some tier the policy can route to bears the load and serves the class. */
  predicate CanRoute(core: Core, p: Policy, load: Load, dc: Option<DataClass>) {
    exists n | n in Reachable(p) ::
      n in core.tiers && Bears(core.tiers[n], p, load) && ServesClass(core.tiers[n], p, dc)
  }

  /** The fallback tier takes a degraded request. */
  predicate CanFallBack(core: Core, p: Policy, load: Load, dc: Option<DataClass>) {
    && p.fallbackTier.Some? && p.fallbackTier.value in core.tiers
    && BearsFacts(core.tiers[p.fallbackTier.value], p, load)
    && ServesClass(core.tiers[p.fallbackTier.value], p, dc)
  }

  /** A routed request is blocked if it is denied, degraded and not taken by the fallback, or not taken by any tier. */
  lemma BlocksByLoad(core: Core, p: Policy, req: Request, f: Findings, dc: Option<DataClass>)
    ensures Blocks(core, p, req, f, dc) <==>
      || Denied(p, f)
      || (if DegradedList(core, p, f) != [] then !CanFallBack(core, p, LoadOf(req, f), dc)
          else !CanRoute(core, p, LoadOf(req, f), dc))
  {
    hide HardConstraintViolation, RequestFactViolation, Bears, BearsFacts, ServesClass, Survivors, DegradedList, Denied;
    if p.fallbackTier.Some? && p.fallbackTier.value in core.tiers {
      ConstraintsByLoad(core.tiers[p.fallbackTier.value], p, req, f, dc);
      assert p.fallbackTier.value in Reachable(p);
    }
    SurvivorsSound(core, p.candidates, p, req, f, dc);
    if Survivors(core, p.candidates, p, req, f, dc) == [] {
      forall n | n in p.candidates && n in core.tiers
        ensures !(Bears(core.tiers[n], p, LoadOf(req, f)) && ServesClass(core.tiers[n], p, dc))
      {
        ConstraintsByLoad(core.tiers[n], p, req, f, dc);
        if Survives(core, n, p, req, f, dc) {
          SurvivorListed(core, p.candidates, p, req, f, dc, n);
        }
      }
    } else {
      var t := Survivors(core, p.candidates, p, req, f, dc)[0];
      assert t in Survivors(core, p.candidates, p, req, f, dc);
      var n :| n in p.candidates && Survives(core, n, p, req, f, dc) && core.tiers[n] == t;
      ConstraintsByLoad(t, p, req, f, dc);
      assert n in Reachable(p);
    }
  }

  // ---- the condition ----

  function Unhinted(req: Request, fewer: seq<string>): Request {
    req.(hints := req.hints.(dataClasses := fewer))
  }

  /** What `Restrictive` says of the candidates, for the fallback tier. */
  ghost predicate RestrictiveFallback(core: Core, p: Policy) {
    p.respectDataClass && p.fallbackTier.Some? && p.fallbackTier.value in core.tiers
      && p.requireCapabilities <= core.tiers[p.fallbackTier.value].capabilities ==>
      RanksRestrict(core, core.tiers[p.fallbackTier.value])
  }

  /** A request with this load is neither denied nor, on account of its risk score, degraded. */
  predicate Judged(core: Core, p: Policy, load: Load) {
    && (load.risk.None? ==> !RiskNeeded(core, p))
    && (load.risk.Some? && p.denyIfRiskAbove.Some? ==> load.risk.value <= p.denyIfRiskAbove.value)
  }

  /** Under every load, if a class can be routed then so can every class ranked no higher. */
  ghost predicate RoutesDownward(core: Core, p: Policy) {
    p.respectDataClass ==>
      forall load, a, b | Judged(core, p, load) && a in core.dataClasses.Values && b in core.dataClasses.Values
                          && a.rank <= b.rank && CanRoute(core, p, load, Some(b)) ::
        CanRoute(core, p, load, Some(a))
  }

  /** No data-class hint turns a BLOCK into something else. */
  ghost predicate HintsNeverUnblock(core: Core, p: Policy) {
    forall req: Request, fewer: seq<string>, f: Findings | (forall h | h in fewer :: h in req.hints.dataClasses) ::
      Blocks(core, p, Unhinted(req, fewer), f, ResolveDataClass(core.dataClasses, fewer, f)) ==>
        Blocks(core, p, req, f, ResolveDataClass(core.dataClasses, req.hints.dataClasses, f))
  }

  // ---- it suffices ----

  /** Fewer hints resolve to no class, or to one ranked no higher than the class that all of them resolve to. */
  lemma FewerResolveLower(core: Core, headers: seq<string>, fewer: seq<string>, f: Findings)
    requires forall h | h in fewer :: h in headers
    ensures var b, a := ResolveDataClass(core.dataClasses, headers, f), ResolveDataClass(core.dataClasses, fewer, f);
      a.Some? ==>
        && b.Some? && a.value.rank <= b.value.rank
        && a.value in core.dataClasses.Values && b.value in core.dataClasses.Values
  {
    hide HeaderClasses, Inferred, ResolveDataClass;
    FewerHintsNeverRaiseTheRank(core.dataClasses, headers, fewer, f);
    ResolvedIsMaximal(core.dataClasses, headers, f);
    ResolvedIsMaximal(core.dataClasses, fewer, f);
    ConsideredAreClasses(core.dataClasses, headers, f);
    ConsideredAreClasses(core.dataClasses, fewer, f);
  }

  lemma DegradedByRisk(core: Core, p: Policy, f: Findings)
    ensures DegradedList(core, p, f) == [] ==> f.riskScore.Some? || !RiskNeeded(core, p)
    ensures f.degraded == [] && (f.riskScore.Some? || !RiskNeeded(core, p)) ==> DegradedList(core, p, f) == []
    ensures f.degraded != [] ==> DegradedList(core, p, f) != []
  {
    hide RiskNeeded;
  }

  lemma NoClassIsServed(core: Core, p: Policy, load: Load, dc: Option<DataClass>)
    ensures CanRoute(core, p, load, dc) ==> CanRoute(core, p, load, None)
    ensures CanFallBack(core, p, load, dc) ==> CanFallBack(core, p, load, None)
    ensures !p.respectDataClass ==> (CanRoute(core, p, load, dc) <==> CanRoute(core, p, load, None))
    ensures !p.respectDataClass ==> (CanFallBack(core, p, load, dc) <==> CanFallBack(core, p, load, None))
  {
    hide Bears, BearsFacts, Serves;
  }

  lemma FallsBackDownward(core: Core, p: Policy, load: Load, a: DataClass, b: DataClass)
    requires RestrictiveFallback(core, p) && CanFallBack(core, p, load, Some(b)) && a.rank <= b.rank
    requires a in core.dataClasses.Values && b in core.dataClasses.Values
    ensures CanFallBack(core, p, load, Some(a))
  {
    hide Serves;
  }

  lemma BlockSurvivesHints(core: Core, p: Policy, req: Request, fewer: seq<string>, f: Findings)
    requires RestrictiveFallback(core, p) && RoutesDownward(core, p)
    requires forall h | h in fewer :: h in req.hints.dataClasses
    requires Blocks(core, p, Unhinted(req, fewer), f, ResolveDataClass(core.dataClasses, fewer, f))
    ensures Blocks(core, p, req, f, ResolveDataClass(core.dataClasses, req.hints.dataClasses, f))
  {
    hide ResolveDataClass, RestrictiveFallback, Blocks, CanRoute, CanFallBack, DegradedList, RiskNeeded;
    var headers := req.hints.dataClasses;
    var b, a := ResolveDataClass(core.dataClasses, headers, f), ResolveDataClass(core.dataClasses, fewer, f);
    var load := LoadOf(req, f);
    FewerResolveLower(core, headers, fewer, f);
    BlocksByLoad(core, p, req, f, b);
    BlocksByLoad(core, p, Unhinted(req, fewer), f, a);
    DegradedByRisk(core, p, f);
    NoClassIsServed(core, p, load, a);
    NoClassIsServed(core, p, load, b);
    if a.Some? && p.respectDataClass && CanFallBack(core, p, load, b) {
      FallsBackDownward(core, p, load, a.value, b.value);
    }
    if a.Some? && p.respectDataClass && DegradedList(core, p, f) == [] && !Denied(p, f) {
      assert Judged(core, p, load);
    }
  }

  // ---- it is needed ----

  /** A request that carries the load and names a class in its header. */
  function Carrying(load: Load, dc: DataClass): Request {
    Request(None, None, "", "", load.tools, load.input, load.output, Hints([dc.name], None, false))
  }

  /** Findings that infer a class, with the given risk and degraded classifiers. */
  function Finding(dc: DataClass, risk: Option<real>, degraded: seq<string>): Findings {
    Findings(None, None, risk, {}, map[], Some(dc.name), degraded)
  }

  lemma HintWouldUnblock(core: Core, p: Policy, load: Load, a: DataClass, b: DataClass, degraded: seq<string>)
    requires WellKeyed(core) && HeadersUnambiguous(core) && PlainNames(core) && HintsNeverUnblock(core, p)
    requires a in core.dataClasses.Values && b in core.dataClasses.Values && a.rank <= b.rank
    ensures var req, f := Carrying(load, b), Finding(a, load.risk, degraded);
      Blocks(core, p, Unhinted(req, []), f, Some(a)) ==> Blocks(core, p, req, f, Some(b))
  {
    hide ResolveDataClass, Blocks, WellKeyed, HeadersUnambiguous, PlainNames;
    var req, f := Carrying(load, b), Finding(a, load.risk, degraded);
    HintedAndUnhinted(core, a, b, f);
    assert req.hints.dataClasses == [b.name];
  }

  lemma RoutingDownwardIsNeeded(core: Core, p: Policy)
    requires WellKeyed(core) && HeadersUnambiguous(core) && PlainNames(core) && HintsNeverUnblock(core, p)
    ensures RoutesDownward(core, p)
  {
    hide WellKeyed, HeadersUnambiguous, PlainNames, HintsNeverUnblock, Blocks, CanRoute, DegradedList, RiskNeeded;
    forall load, a, b | Judged(core, p, load) && a in core.dataClasses.Values && b in core.dataClasses.Values
                        && a.rank <= b.rank && CanRoute(core, p, load, Some(b))
      ensures CanRoute(core, p, load, Some(a))
    {
      var req, f := Carrying(load, b), Finding(a, load.risk, []);
      HintWouldUnblock(core, p, load, a, b, []);
      DegradedByRisk(core, p, f);
      BlocksByLoad(core, p, req, f, Some(b));
      BlocksByLoad(core, p, Unhinted(req, []), f, Some(a));
    }
  }

  lemma FallbackIsNeeded(core: Core, p: Policy)
    requires WellKeyed(core) && HeadersUnambiguous(core) && PlainNames(core) && HintsNeverUnblock(core, p)
    ensures RestrictiveFallback(core, p)
  {
    hide WellKeyed, HeadersUnambiguous, PlainNames, HintsNeverUnblock, Blocks, Serves, DegradedList;
    if p.respectDataClass && p.fallbackTier.Some? && p.fallbackTier.value in core.tiers
       && p.requireCapabilities <= core.tiers[p.fallbackTier.value].capabilities {
      var t, load := core.tiers[p.fallbackTier.value], Load(false, 0, 0, None);
      forall a, b | a in core.dataClasses.Values && b in core.dataClasses.Values && a.rank <= b.rank && Serves(t, b)
        ensures Serves(t, a)
      {
        var req, f := Carrying(load, b), Finding(a, None, ["classifier"]);
        HintWouldUnblock(core, p, load, a, b, ["classifier"]);
        DegradedByRisk(core, p, f);
        BlocksByLoad(core, p, req, f, Some(b));
        BlocksByLoad(core, p, Unhinted(req, []), f, Some(a));
      }
    }
  }

  /**
   Exactly when no choice of data-class hints, for any request and findings, turns a BLOCK into something else: the
   fallback tier serves, with a class, all classes ranked no higher, and under every load a class can be routed
   whenever one ranked at least as high can.
   */
  lemma HintsNeverUnblockExactly(core: Core, p: Policy)
    requires WellKeyed(core) && HeadersUnambiguous(core) && PlainNames(core)
    ensures HintsNeverUnblock(core, p) <==> RestrictiveFallback(core, p) && RoutesDownward(core, p)
  {
    hide Blocks, ResolveDataClass, RestrictiveFallback, RoutesDownward, WellKeyed, HeadersUnambiguous, PlainNames;
    if HintsNeverUnblock(core, p) {
      hide HintsNeverUnblock;
      RoutingDownwardIsNeeded(core, p);
      FallbackIsNeeded(core, p);
    } else if RestrictiveFallback(core, p) && RoutesDownward(core, p) {
      forall req: Request, fewer: seq<string>, f: Findings | (forall h | h in fewer :: h in req.hints.dataClasses)
        ensures Blocks(core, p, Unhinted(req, fewer), f, ResolveDataClass(core.dataClasses, fewer, f)) ==>
          Blocks(core, p, req, f, ResolveDataClass(core.dataClasses, req.hints.dataClasses, f))
      {
        if Blocks(core, p, Unhinted(req, fewer), f, ResolveDataClass(core.dataClasses, fewer, f)) {
          BlockSurvivesHints(core, p, req, fewer, f);
        }
      }
    }
  }

  /** Restrictive tiers route downward: the tier that takes the higher class takes the lower one. */
  lemma RestrictiveRoutesDownward(core: Core, p: Policy)
    requires Restrictive(core, p) && RestrictiveFallback(core, p)
    ensures RoutesDownward(core, p)
  {
    hide Serves;
  }

  // ---- from the policy to the decision ----

  lemma {:induction false} ScopeIgnoresHints(ps: seq<Policy>, req: Request, fewer: seq<string>)
    ensures Matching(ps, Unhinted(req, fewer)) == Matching(ps, req)
  {
    MatchingDependsOnScope(ps, req, Unhinted(req, fewer));
  }

  /** A request that is blocked without some of its data-class hints is blocked with them. */
  lemma HintsPreserveBlock(predict: Predictor, snap: Snapshot, req: Request, fewer: seq<string>, f: Findings)
    requires var p := Selection(snap, req).0;
      p.Some? ==> RestrictiveFallback(snap.core, p.value) && RoutesDownward(snap.core, p.value)
    requires forall h | h in fewer :: h in req.hints.dataClasses
    requires Decide(predict, snap, Unhinted(req, fewer), f).outcome == Block
    ensures Decide(predict, snap, req, f).outcome == Block
  {
    hide Judge, RoutesDownward, RestrictiveFallback, HeaderNotes, ResolveDataClass, Blocks, FindNamed;
    ScopeIgnoresHints(snap.core.policies, req, fewer);
    var p := Selection(snap, req).0.value;
    var b, a := Resolved(snap, req, f), Resolved(snap, Unhinted(req, fewer), f);
    JudgeOutcome(predict, snap.core, p, req, f, b, Prepared(snap, req, f, p));
    JudgeOutcome(predict, snap.core, p, Unhinted(req, fewer), f, a, Prepared(snap, Unhinted(req, fewer), f, p));
    BlockSurvivesHints(snap.core, p, req, fewer, f);
  }
}
