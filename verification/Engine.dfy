/**
 The decision engine (crates/decision) as functions: what every step of a
 decision computes. The imperative pipeline that builds the explanation in
 place is in EngineState.dfy; the theorems are in the Engine*.dfy files beside it.

 The learned predictor is an arbitrary function. Messages are data rather than text.
 */
module Engine {
  import opened Ordering
  import opened Snapshots

  datatype Hints = Hints(dataClasses: seq<string>, policy: Option<string>, dryRun: bool)

  datatype Request = Request(
    tenant: Option<string>,
    agent: Option<string>,
    path: string,
    requestedModel: string,
    toolsPresent: bool,
    inputTokens: u64,
    outputTokens: u64,
    hints: Hints)

  datatype Findings = Findings(
    task: Option<string>,
    complexity: Option<Complexity>,
    riskScore: Option<real>,
    piiEntities: set<PiiEntity>,
    piiConfidence: map<PiiEntity, real>,
    inferredDataClass: Option<string>,
    degraded: seq<string>)

  datatype Prediction = Prediction(quality: Float, confidence: real)

  type Predictor = (Tier, Findings) -> Option<Prediction>

  datatype Outcome = Route | PassThrough | Block

  datatype Elimination =
    | DenyIfRiskScoreAbove
    | DataClassNotAllowed
    | DataClassRequireJurisdiction
    | DataClassForbidCloudActExposed
    | DataClassRequireOperatorControl
    | DataClassForbidCapabilities
    | RequireCapabilities
    | ToolsNotSupported
    | ContextWindow
    | MaxRiskScore
    | ToolCallingNotAllowed
    | MaxCostPerRequest
    | QualityFloor

  datatype Why = ClassificationDegraded | NothingSurvives

  datatype Reason =
    | NoPolicyMatches
    | NotARoutedAlias(model: string, policy: string)
    | RiskExceeds(risk: real, threshold: real)
    | NoFallbackTier(why: Why)
    | FallbackNotInSnapshot(why: Why, tier: string)
    | FallbackEliminated(why: Why, tier: string, cause: Elimination)
    | UsingFallback(why: Why)
    | BelowFloorKeepingBest(floor: real)

  datatype Note =
    | PolicyNotOverridable(name: string, key: string)
    | PolicyNotMatching(name: string)
    | UnknownDataClass(value: string)
    | FallbackRelaxed(tier: string, cause: Elimination)

  datatype Candidate = Candidate(
    tier: string,
    eliminatedBy: Option<Elimination>,
    predictedQuality: Option<real>,
    estimatedCost: Option<real>,
    score: Option<real>,
    selected: bool)

  /** A decision with its explanation. */
  datatype Explanation = Explanation(
    outcome: Outcome,
    policy: Option<string>,
    requestedModel: string,
    selectedTier: Option<string>,
    gatewayModel: Option<string>,
    reasoning: Option<ReasoningLevel>,
    dataClass: Option<string>,
    candidates: seq<Candidate>,
    estimatedCost: Option<real>,
    estimatedSavings: Option<real>,
    snapshotHash: string,
    reason: Option<Reason>,
    fallback: bool,
    degraded: seq<string>,
    notes: seq<Note>,
    dryRun: bool)

  function Start(req: Request, f: Findings, hash: string): Explanation {
    Explanation(PassThrough, None, req.requestedModel, None, None, None, None, [], None, None, hash, None, false,
                f.degraded, [], req.hints.dryRun)
  }

  function Eliminated(tier: string, cause: Elimination): Candidate {
    Candidate(tier, Some(cause), None, None, None, false)
  }

  // ---- policy selection ----

  /** `*`, `prefix*`, `*suffix`, or the value itself. */
  predicate GlobMatch(pattern: string, value: string) {
    if pattern == "*" then true
    else if pattern != "" && pattern[|pattern| - 1] == '*' then pattern[..|pattern| - 1] <= value
    else if pattern != "" && pattern[0] == '*' then EndsWith(value, pattern[1..])
    else pattern == value
  }

  predicate EndsWith(value: string, suffix: string) {
    |suffix| <= |value| && value[|value| - |suffix|..] == suffix
  }

  predicate ListMatches(patterns: seq<string>, value: Option<string>) {
    patterns == [] || exists p | p in patterns :: GlobMatch(p, if value.Some? then value.value else "")
  }

  predicate ScopeMatches(scope: Match, req: Request) {
    && ListMatches(scope.tenants, req.tenant)
    && ListMatches(scope.agents, req.agent)
    && ListMatches(scope.paths, Some(req.path))
  }

  predicate RoutesAlias(p: Policy, req: Request) {
    exists a | a in p.scope.modelAliases :: GlobMatch(a, req.requestedModel)
  }

  function InScope(req: Request): Policy -> bool {
    (p: Policy) => ScopeMatches(p.scope, req)
  }

  function Matching(policies: seq<Policy>, req: Request): seq<Policy> {
    Filter(InScope(req), policies)
  }

  predicate Named(p: Policy, name: string) {
    p.key == name || p.name == name
  }

  function FindNamed(ps: seq<Policy>, name: string): (r: Option<Policy>)
    ensures r.Some? ==> r.value in ps && Named(r.value, name)
    ensures r.None? ==> forall p | p in ps :: !Named(p, name)
  {
    if ps == [] then None
    else if Named(ps[0], name) then Some(ps[0])
    else FindNamed(ps[1..], name)
  }

  /** The winner is the first match; a hint moves it only to a match that allows it. */
  function SelectPolicy(matching: seq<Policy>, hint: Option<string>): (Option<Policy>, seq<Note>) {
    var winner := if matching == [] then None else Some(matching[0]);
    if hint.None? then (winner, []) else
      match FindNamed(matching, hint.value)
      case Some(p) =>
        if p.overridable || (winner.Some? && p.key == winner.value.key) then (Some(p), [])
        else (winner, [PolicyNotOverridable(hint.value, p.key)])
      case None => (winner, [PolicyNotMatching(hint.value)])
  }

  function Selection(snap: Snapshot, req: Request): (Option<Policy>, seq<Note>) {
    SelectPolicy(Matching(snap.core.policies, req), req.hints.policy)
  }

  // ---- data class ----

  /** The form in which a data-class header is compared. */
  function HeaderKey(h: string): string {
    Lower(Trim(h))
  }

  predicate ClaimsHeader(dc: DataClass, key: string) {
    Lower(dc.name) == Lower(key) || key in dc.headerValues
  }

  function Claiming(key: string): DataClass -> bool {
    (dc: DataClass) => ClaimsHeader(dc, key)
  }

  function ClassesInOrder(classes: map<string, DataClass>): (r: seq<DataClass>)
    ensures forall dc :: dc in r <==> dc in classes.Values
  {
    AscendingSound(classes.Keys);
    var names := Ascending(classes.Keys);
    var r := seq(|names|, i requires 0 <= i < |names| => assert names[i] in names; classes[names[i]]);
    assert forall dc | dc in classes.Values :: dc in r by {
      forall dc | dc in classes.Values ensures dc in r {
        var n :| n in classes && classes[n] == dc;
        assert n in names;
        var i :| 0 <= i < |names| && names[i] == n;
        assert r[i] == dc;
      }
    }
    r
  }

  function HeaderClasses(classes: map<string, DataClass>, header: string): seq<DataClass> {
    Filter(Claiming(HeaderKey(header)), ClassesInOrder(classes))
  }

  predicate PiiHit(dc: DataClass, f: Findings) {
    exists e | e in f.piiEntities ::
      && e in dc.piiEntities
      && (if e in f.piiConfidence then f.piiConfidence[e] else 1.0) + 0.000000001 >= dc.minConfidence
  }

  function PiiInferring(f: Findings): DataClass -> bool {
    (dc: DataClass) => PiiHit(dc, f)
  }

  /** A class replaces the best one so far only when its rank is strictly higher. */
  function Consider(best: Option<DataClass>, dc: DataClass): Option<DataClass> {
    if best.None? || dc.rank > best.value.rank then Some(dc) else best
  }

  function ConsiderAll(best: Option<DataClass>, dcs: seq<DataClass>): Option<DataClass> {
    Fold(Consider, best, dcs)
  }

  function ConsiderHeaders(classes: map<string, DataClass>, headers: seq<string>): Option<DataClass> {
    if headers == [] then None else
      ConsiderAll(ConsiderHeaders(classes, headers[..|headers| - 1]), HeaderClasses(classes, headers[|headers| - 1]))
  }

  function HeaderNotes(classes: map<string, DataClass>, headers: seq<string>): seq<Note> {
    if headers == [] then [] else
      var h := headers[|headers| - 1];
      HeaderNotes(classes, headers[..|headers| - 1])
      + (if HeaderClasses(classes, h) == [] then [UnknownDataClass(HeaderKey(h))] else [])
  }

  function Inferred(classes: map<string, DataClass>, f: Findings): seq<DataClass> {
    (if f.inferredDataClass.Some? && f.inferredDataClass.value in classes
     then [classes[f.inferredDataClass.value]] else [])
    + Filter(PiiInferring(f), ClassesInOrder(classes))
  }

  function ResolveDataClass(classes: map<string, DataClass>, headers: seq<string>, f: Findings): Option<DataClass> {
    ConsiderAll(ConsiderHeaders(classes, headers), Inferred(classes, f))
  }

  function Resolved(snap: Snapshot, req: Request, f: Findings): Option<DataClass> {
    ResolveDataClass(snap.core.dataClasses, req.hints.dataClasses, f)
  }

  // ---- constraints ----

  function DataClassViolation(t: Tier, dc: DataClass): Option<Elimination> {
    if dc.name !in t.allowedDataClasses then Some(DataClassNotAllowed)
    else if dc.requireJurisdiction != {} && t.jurisdiction !in dc.requireJurisdiction then
      Some(DataClassRequireJurisdiction)
    else if dc.forbidCloudActExposed && t.cloudActExposed then Some(DataClassForbidCloudActExposed)
    else if dc.requireOperatorControl != {} && t.operatorControl !in dc.requireOperatorControl then
      Some(DataClassRequireOperatorControl)
    else if t.capabilities * dc.forbidCapabilities != {} then Some(DataClassForbidCapabilities)
    else None
  }

  function PolicyClassViolation(t: Tier, p: Policy, dc: Option<DataClass>): Option<Elimination> {
    if p.respectDataClass && dc.Some? then DataClassViolation(t, dc.value) else None
  }

  /** The constraints that also bind the fallback tier of a degraded request. */
  function RequestFactViolation(
    t: Tier, p: Policy, req: Request, f: Findings, dc: Option<DataClass>
  ): Option<Elimination> {
    var byClass := PolicyClassViolation(t, p, dc);
    if byClass.Some? then byClass
    else if !(p.requireCapabilities <= t.capabilities) then Some(RequireCapabilities)
    else if req.toolsPresent && Tools !in t.capabilities then Some(ToolsNotSupported)
    else if t.contextWindow < SaturatingAdd(req.inputTokens, req.outputTokens) then Some(ContextWindow)
    else if f.riskScore.Some? && f.riskScore.value > t.maxRiskScore then Some(MaxRiskScore)
    else if req.toolsPresent && !t.toolCallingAllowed then Some(ToolCallingNotAllowed)
    else None
  }

  /** First hard constraint the tier violates, in the fixed order. */
  function HardConstraintViolation(
    t: Tier, p: Policy, req: Request, f: Findings, dc: Option<DataClass>
  ): Option<Elimination> {
    var byClass := PolicyClassViolation(t, p, dc);
    if byClass.Some? then byClass
    else if !(p.requireCapabilities <= t.capabilities) then Some(RequireCapabilities)
    else if req.toolsPresent && Tools !in t.capabilities then Some(ToolsNotSupported)
    else if t.contextWindow < SaturatingAdd(req.inputTokens, req.outputTokens) then Some(ContextWindow)
    else if f.riskScore.Some? && f.riskScore.value > t.maxRiskScore then Some(MaxRiskScore)
    else if req.toolsPresent && !t.toolCallingAllowed then Some(ToolCallingNotAllowed)
    else if p.maxCost.Some? && EstimateCost(t, req.inputTokens, req.outputTokens) > p.maxCost.value then
      Some(MaxCostPerRequest)
    else None
  }

  predicate Denied(p: Policy, f: Findings) {
    p.denyIfRiskAbove.Some? && f.riskScore.Some? && f.riskScore.value > p.denyIfRiskAbove.value
  }

  predicate RiskNeeded(core: Core, p: Policy) {
    || p.denyIfRiskAbove.Some?
    || exists n | n in p.candidates :: n in core.tiers && core.tiers[n].maxRiskScore < 1.0
  }

  /** The degraded classifiers, with a missing but needed risk score counted as one of them. */
  function DegradedList(core: Core, p: Policy, f: Findings): seq<string> {
    if f.riskScore.None? && RiskNeeded(core, p) && "risk:missing" !in f.degraded then f.degraded + ["risk:missing"]
    else f.degraded
  }

  // ---- elimination pass ----

  predicate Survives(core: Core, name: string, p: Policy, req: Request, f: Findings, dc: Option<DataClass>) {
    name in core.tiers && HardConstraintViolation(core.tiers[name], p, req, f, dc).None?
  }

  function Survivors(
    core: Core, names: seq<string>, p: Policy, req: Request, f: Findings, dc: Option<DataClass>
  ): seq<Tier> {
    if names == [] then [] else
      var rest := Survivors(core, names[..|names| - 1], p, req, f, dc);
      var n := names[|names| - 1];
      if Survives(core, n, p, req, f, dc) then rest + [core.tiers[n]] else rest
  }

  function Eliminations(
    core: Core, names: seq<string>, p: Policy, req: Request, f: Findings, dc: Option<DataClass>
  ): seq<Candidate> {
    if names == [] then [] else
      var rest := Eliminations(core, names[..|names| - 1], p, req, f, dc);
      var n := names[|names| - 1];
      if n in core.tiers && !Survives(core, n, p, req, f, dc) then
        rest + [Eliminated(n, HardConstraintViolation(core.tiers[n], p, req, f, dc).value)]
      else rest
  }

  // ---- quality, score, selection ----

  function Clamp01(v: real): real {
    if v < 0.0 then 0.0 else if v > 1.0 then 1.0 else v
  }

  function PredictedQuality(predict: Predictor, t: Tier, f: Findings, p: Policy): real {
    var prediction := if p.learnedRouter.enabled then predict(t, f) else None;
    if prediction.Some? && prediction.value.confidence >= p.learnedRouter.minConfidence
      && prediction.value.quality.Finite?
    then Clamp01(prediction.value.quality.value)
    else QualityFor(t, f.task)
  }

  datatype Scored = Scored(tier: Tier, quality: real, cost: u64, latency: u64)

  function ScoreTier(predict: Predictor, p: Policy, req: Request, f: Findings, t: Tier): Scored {
    Scored(t, PredictedQuality(predict, t, f, p), EstimateCost(t, req.inputTokens, req.outputTokens), t.latencyP50)
  }

  function Scoring(predict: Predictor, p: Policy, req: Request, f: Findings): Tier -> Scored {
    (t: Tier) => ScoreTier(predict, p, req, f, t)
  }

  function ScoreTiers(predict: Predictor, p: Policy, req: Request, f: Findings, ts: seq<Tier>): seq<Scored> {
    Map(Scoring(predict, p, req, f), ts)
  }

  predicate AboveFloor(floor: real, s: Scored) {
    s.quality + 0.000000001 >= floor
  }

  predicate NearBest(best: real, s: Scored) {
    -0.000000000001 < s.quality - best < 0.000000000001
  }

  function MaxOf(xs: seq<real>): (m: real)
    ensures xs != [] ==> m in xs && forall x | x in xs :: x <= m
  {
    if xs == [] then 0.0
    else if |xs| == 1 then xs[0]
    else
      var rest := MaxOf(xs[..|xs| - 1]);
      var x := xs[|xs| - 1];
      assert xs == xs[..|xs| - 1] + [x];
      if x > rest then x else rest
  }

  function MinOf(xs: seq<real>): (m: real)
    ensures xs != [] ==> m in xs && forall x | x in xs :: m <= x
  {
    if xs == [] then 0.0
    else if |xs| == 1 then xs[0]
    else
      var rest := MinOf(xs[..|xs| - 1]);
      var x := xs[|xs| - 1];
      assert xs == xs[..|xs| - 1] + [x];
      if x < rest then x else rest
  }

  function QualityOf(s: Scored): real {
    s.quality
  }

  function Qualities(ss: seq<Scored>): seq<real> {
    Map(QualityOf, ss)
  }

  function CostOf(s: Scored): real {
    s.cost as real
  }

  function Costs(ss: seq<Scored>): seq<real> {
    Map(CostOf, ss)
  }

  function LatencyOf(s: Scored): real {
    s.latency as real
  }

  function Latencies(ss: seq<Scored>): seq<real> {
    Map(LatencyOf, ss)
  }

  predicate FloorMet(floor: real, ss: seq<Scored>) {
    exists s | s in ss :: AboveFloor(floor, s)
  }

  /** Below the floor goes out; when everything is below it, everything but the best quality does. */
  predicate PassesFloor(floor: Option<real>, ss: seq<Scored>, s: Scored) {
    if floor.None? then true
    else if FloorMet(floor.value, ss) then AboveFloor(floor.value, s)
    else NearBest(MaxOf(Qualities(ss)), s)
  }

  function Passing(floor: Option<real>, ss: seq<Scored>): Scored -> bool {
    (s: Scored) => PassesFloor(floor, ss, s)
  }

  function Failing(floor: Option<real>, ss: seq<Scored>): Scored -> bool {
    (s: Scored) => !PassesFloor(floor, ss, s)
  }

  function Kept(floor: Option<real>, ss: seq<Scored>): seq<Scored> {
    Filter(Passing(floor, ss), ss)
  }

  function FloorDropped(floor: Option<real>, ss: seq<Scored>): seq<Scored> {
    Filter(Failing(floor, ss), ss)
  }

  function FloorCandidate(s: Scored): Candidate {
    Candidate(s.tier.name, Some(QualityFloor), Some(Round6(s.quality)), Some(MicroToEur(s.cost)), None, false)
  }

  function Norm(v: real, lo: real, hi: real): real {
    if hi <= lo then 0.0 else Clamp01((v - lo) / (hi - lo))
  }

  function RawScore(w: Weights, ss: seq<Scored>, s: Scored): real {
    w.cost * (1.0 - Norm(s.cost as real, MinOf(Costs(ss)), MaxOf(Costs(ss))))
    + w.quality * Norm(s.quality, MinOf(Qualities(ss)), MaxOf(Qualities(ss)))
    + w.latency * (1.0 - Norm(s.latency as real, MinOf(Latencies(ss)), MaxOf(Latencies(ss))))
  }

  datatype Ranked = Ranked(score: real, scored: Scored)

  function Rank(w: Weights, ss: seq<Scored>, s: Scored): Ranked {
    Ranked(Round6(RawScore(w, ss, s)), s)
  }

  function Ranker(w: Weights, ss: seq<Scored>): Scored -> Ranked {
    (s: Scored) => Rank(w, ss, s)
  }

  /** Score descending, cost ascending, name ascending. */
  predicate RankLe(a: Ranked, b: Ranked) {
    if a.score != b.score then a.score > b.score
    else if a.scored.cost != b.scored.cost then a.scored.cost < b.scored.cost
    else StrLe(a.scored.tier.name, b.scored.tier.name)
  }

  function Ranking(w: Weights, ss: seq<Scored>): seq<Ranked> {
    SortBy(RankLe, Map(Ranker(w, ss), ss))
  }

  function MaxCost(ranked: seq<Ranked>): u64 {
    if ranked == [] then 0 else
      var rest := MaxCost(ranked[..|ranked| - 1]);
      var c := ranked[|ranked| - 1].scored.cost;
      if c > rest then c else rest
  }

  /** What the most expensive ranked tier would have cost on top. */
  function Savings(ranked: seq<Ranked>, best: Scored): u64 {
    if MaxCost(ranked) > best.cost then MaxCost(ranked) - best.cost else 0
  }

  function RankedCandidate(best: string, r: Ranked): Candidate {
    Candidate(r.scored.tier.name, None, Some(Round6(r.scored.quality)), Some(MicroToEur(r.scored.cost)), Some(r.score),
              r.scored.tier.name == best)
  }

  function Explaining(best: string): Ranked -> Candidate {
    (r: Ranked) => RankedCandidate(best, r)
  }

  predicate CandidateLe(a: Candidate, b: Candidate) {
    StrLe(a.tier, b.tier)
  }

  function ReasoningFor(p: Policy, f: Findings): Option<ReasoningLevel> {
    if p.reasoningEnabled && f.complexity.Some? && f.complexity.value in p.reasoningMap
    then Some(p.reasoningMap[f.complexity.value]) else None
  }

  function SelectBest(p: Policy, f: Findings, kept: seq<Scored>, d: Explanation): Explanation {
    var ranked := Ranking(p.weights, kept);
    if ranked == [] then d else
      var best := ranked[0].scored;
      d.(
        candidates := SortBy(CandidateLe, d.candidates + Map(Explaining(best.tier.name), ranked)),
        outcome := Route,
        selectedTier := Some(best.tier.name),
        gatewayModel := Some(best.tier.gatewayModel),
        estimatedCost := Some(MicroToEur(best.cost)),
        estimatedSavings := Some(MicroToEur(Savings(ranked, best))),
        reasoning := ReasoningFor(p, f))
  }

  function ScoreAndSelect(
    predict: Predictor, p: Policy, req: Request, f: Findings, survivors: seq<Tier>, d: Explanation
  ): Explanation {
    var scored := ScoreTiers(predict, p, req, f, survivors);
    SelectBest(p, f, Kept(p.qualityFloor, scored), d.(
      candidates := d.candidates + Map(FloorCandidate, FloorDropped(p.qualityFloor, scored)),
      reason := if p.qualityFloor.Some? && !FloorMet(p.qualityFloor.value, scored)
                then Some(BelowFloorKeepingBest(p.qualityFloor.value)) else d.reason))
  }

  // ---- fallback ----

  function FallbackViolation(
    t: Tier, p: Policy, req: Request, f: Findings, dc: Option<DataClass>, why: Why
  ): Option<Elimination> {
    if why == ClassificationDegraded then RequestFactViolation(t, p, req, f, dc)
    else HardConstraintViolation(t, p, req, f, dc)
  }

  function FindTier(cs: seq<Candidate>, tier: string): (r: Option<Candidate>)
    ensures r.Some? ==> r.value in cs && r.value.tier == tier
    ensures r.None? ==> forall c | c in cs :: c.tier != tier
  {
    if cs == [] then None
    else if cs[0].tier == tier then Some(cs[0])
    else FindTier(cs[1..], tier)
  }

  function OtherThan(tier: string): Candidate -> bool {
    (c: Candidate) => c.tier != tier
  }

  function Blocked(d: Explanation, reason: Reason): Explanation {
    d.(outcome := Block, reason := Some(reason))
  }

  function RejectFallback(t: Tier, name: string, cause: Elimination, d: Explanation, why: Why): Explanation {
    var cs := if FindTier(d.candidates, t.name).None? then d.candidates + [Eliminated(t.name, cause)] else d.candidates;
    Blocked(d.(candidates := SortBy(CandidateLe, cs)), FallbackEliminated(why, name, cause))
  }

  function RelaxedNotes(t: Tier, name: string, cs: seq<Candidate>): seq<Note> {
    var listed := FindTier(cs, t.name);
    if listed.Some? && listed.value.eliminatedBy.Some? then [FallbackRelaxed(name, listed.value.eliminatedBy.value)]
    else []
  }

  function FallbackCandidate(predict: Predictor, t: Tier, p: Policy, req: Request, f: Findings): Candidate {
    Candidate(t.name, None, Some(Round6(PredictedQuality(predict, t, f, p))),
              Some(MicroToEur(EstimateCost(t, req.inputTokens, req.outputTokens))), None, true)
  }

  function RouteToFallback(
    predict: Predictor, t: Tier, name: string, p: Policy, req: Request, f: Findings, d: Explanation, why: Why
  ): Explanation {
    d.(
      notes := d.notes + RelaxedNotes(t, name, d.candidates),
      candidates := SortBy(CandidateLe,
                           Filter(OtherThan(t.name), d.candidates) + [FallbackCandidate(predict, t, p, req, f)]),
      outcome := Route,
      reason := Some(UsingFallback(why)),
      selectedTier := Some(t.name),
      gatewayModel := Some(t.gatewayModel),
      estimatedCost := Some(MicroToEur(EstimateCost(t, req.inputTokens, req.outputTokens))),
      estimatedSavings := Some(0.0),
      reasoning := ReasoningFor(p, f))
  }

  function FallbackOrBlock(
    predict: Predictor, core: Core, p: Policy, req: Request, f: Findings, dc: Option<DataClass>, d: Explanation,
    why: Why
  ): Explanation {
    if p.fallbackTier.None? then Blocked(d, NoFallbackTier(why))
    else if p.fallbackTier.value !in core.tiers then Blocked(d, FallbackNotInSnapshot(why, p.fallbackTier.value))
    else
      var name := p.fallbackTier.value;
      var t := core.tiers[name];
      var violation := FallbackViolation(t, p, req, f, dc, why);
      if violation.Some? then RejectFallback(t, name, violation.value, d, why)
      else RouteToFallback(predict, t, name, p, req, f, d, why)
  }

  // ---- the decision ----

  function DeniedCandidate(tier: string): Candidate {
    Eliminated(tier, DenyIfRiskScoreAbove)
  }

  /** Steps 4 to 6: from the routed policy and the resolved class to the verdict. */
  function Judge(
    predict: Predictor, core: Core, p: Policy, req: Request, f: Findings, dc: Option<DataClass>, d: Explanation
  ): Explanation {
    if Denied(p, f) then
      Blocked(d.(candidates := d.candidates + Map(DeniedCandidate, p.candidates)),
              RiskExceeds(Round6(f.riskScore.value), p.denyIfRiskAbove.value))
    else
      var degraded := DegradedList(core, p, f);
      if degraded != [] then
        FallbackOrBlock(predict, core, p, req, f, dc, d.(degraded := degraded, fallback := true),
                        ClassificationDegraded)
      else
        var d1 := d.(candidates := d.candidates + Eliminations(core, p.candidates, p, req, f, dc));
        var survivors := Survivors(core, p.candidates, p, req, f, dc);
        if survivors == [] then FallbackOrBlock(predict, core, p, req, f, dc, d1.(fallback := true), NothingSurvives)
        else ScoreAndSelect(predict, p, req, f, survivors, d1)
  }

  /** The explanation when judging begins: policy, hint notes and data class are settled. */
  function Prepared(snap: Snapshot, req: Request, f: Findings, p: Policy): Explanation {
    var dc := Resolved(snap, req, f);
    Start(req, f, snap.hash).(
      policy := Some(p.key),
      notes := Selection(snap, req).1 + HeaderNotes(snap.core.dataClasses, req.hints.dataClasses),
      dataClass := if dc.Some? then Some(dc.value.name) else None)
  }

  function Decide(predict: Predictor, snap: Snapshot, req: Request, f: Findings): Explanation {
    var (policy, notes) := Selection(snap, req);
    if policy.None? then Start(req, f, snap.hash).(notes := notes, reason := Some(NoPolicyMatches))
    else if !RoutesAlias(policy.value, req) then
      Start(req, f, snap.hash).(notes := notes, policy := Some(policy.value.key),
                                reason := Some(NotARoutedAlias(req.requestedModel, policy.value.key)))
    else
      Judge(predict, snap.core, policy.value, req, f, Resolved(snap, req, f), Prepared(snap, req, f, policy.value))
  }

  /** Whether ingress has to classify the request at all. */
  predicate IsRouted(snap: Snapshot, req: Request) {
    var policy := Selection(snap, req).0;
    policy.Some? && RoutesAlias(policy.value, req)
  }
}
