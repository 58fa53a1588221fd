/**
 The policy compiler (crates/policy) as functions: every pass is a fold over its
 resources that carries the containers it fills and the report. The loops
 themselves are in CompilerPasses.dfy.

 Numbers read from resources may be NaN or infinite (`NotFinite`); arithmetic on
 finite ones is exact. Messages are data rather than text.
 */
module Compiler {
  import opened Ordering
  import opened Snapshots
  import opened ScopeText

  // ---- resources ----

  datatype Meta = Meta(ns: Option<string>, name: Option<string>)

  datatype Currency = Eur | Usd

  datatype CalibrationPoint = CalibrationPoint(numericKey: bool, value: Float)

  datatype ProfileResource = ProfileResource(
    meta: Meta,
    fxToEur: map<string, Float>,
    timeoutMs: u64,
    defaultOutputTokens: u64,
    classifierType: ArtifactType,
    classifierUri: Option<string>,
    tokenizerUri: Option<string>,
    calibration: map<string, CalibrationPoint>)

  datatype ClassResource = ClassResource(
    meta: Meta,
    rank: nat,
    headerValues: seq<string>,
    piiEntities: seq<PiiEntity>,
    minConfidence: Float,
    requireJurisdiction: seq<Jurisdiction>,
    forbidCloudActExposed: bool,
    requireOperatorControl: seq<OperatorControl>,
    forbidCapabilities: seq<Capability>)

  datatype TierResource = TierResource(
    meta: Meta,
    gatewayModel: string,
    capabilities: seq<Capability>,
    contextWindow: u64,
    inputPerMillion: Float,
    outputPerMillion: Float,
    currency: Currency,
    qualityBaseline: Float,
    qualityByTask: map<string, Float>,
    latencyP50: u64,
    jurisdiction: Jurisdiction,
    operatorControl: OperatorControl,
    cloudActExposed: bool,
    allowedDataClasses: seq<string>,
    maxRiskScore: Float,
    toolCallingAllowed: bool,
    labels: map<string, string>)

  datatype RawWeights = RawWeights(cost: Float, quality: Float, latency: Float)

  datatype PolicyResource = PolicyResource(
    meta: Meta,
    priority: int,
    scope: Match,
    matchLabels: map<string, string>,
    include_: seq<string>,
    exclude: seq<string>,
    respectDataClass: bool,
    maxCostEur: Option<Float>,
    requireCapabilities: seq<Capability>,
    denyIfRiskAbove: Option<Float>,
    mode: ObjectiveMode,
    qualityFloor: Option<Float>,
    weights: Option<RawWeights>,
    learnedEnabled: bool,
    learnedProfile: Option<string>,
    learnedMinConfidence: Float,
    reasoningEnabled: bool,
    reasoningMap: map<Complexity, ReasoningLevel>,
    fallbackTier: Option<string>,
    explain: bool,
    overridable: bool)

  datatype CompileInput = CompileInput(
    tiers: seq<TierResource>,
    dataClasses: seq<ClassResource>,
    policies: seq<PolicyResource>,
    profiles: seq<ProfileResource>)

  // ---- diagnostics ----

  datatype Level = Warning | Error
  datatype Kind = ModelTier | DataClassKind | RoutingPolicy | RouterProfile

  datatype Clash = NotAllowed | JurisdictionClash | CloudActClash | OperatorClash | CapabilityClash

  datatype Rule =
    | RateMustBePositive(currency: string)
    | ConflictingRate(currency: string)
    | MissingName
    | DuplicateName
    | TimeoutMustBePositive
    | OutputTokensMustBePositive
    | OnnxNeedsModel
    | OnnxNeedsTokenizer
    | CalibrationOutOfRange(key: string)
    | MinConfidenceOutOfRange
    | RankShared(rank: nat, other: string)
    | HeaderClaimed(value: string, other: string)
    | GatewayModelEmpty
    | ContextWindowEmpty
    | InputPriceOutOfRange
    | OutputPriceOutOfRange
    | BaselineOutOfRange
    | TaskQualityOutOfRange(task: string)
    | MaxRiskOutOfRange
    | UnknownDataClass(name: string)
    | NoConversionRate
    | ClaimViolated(dataClass: string, clash: Clash)
    | SelectorMatchesNothing
    | UnknownInclude(tier: string)
    | UnknownExclude(tier: string)
    | NoCandidates
    | MaxCostOutOfRange
    | DenyThresholdOutOfRange
    | FloorOutOfRange
    | WeightsOutOfRange
    | ProfileNotFound(profile: string)
    | ProfileRequired
    | LearnedConfidenceOutOfRange
    | FallbackNotFound(tier: string)
    | FallbackCannotServe(tier: string, dataClass: string, clash: Clash)
    | NoAliases
    | Shadowed(winner: string)

  datatype Diag = Diag(level: Level, kind: Kind, name: string, rule: Rule)

  predicate HasErrors(ds: seq<Diag>) {
    exists i :: 0 <= i < |ds| && ds[i].level == Error
  }

  function NsOf(m: Meta): string {
    if m.ns.Some? then m.ns.value else "default"
  }

  /** `namespace/name`, as every diagnostic names its object. */
  function DiagName(m: Meta): string {
    NsOf(m) + "/" + (if m.name.Some? then m.name.value else "<unnamed>")
  }

  function PushIf(c: bool, ds: seq<Diag>, d: Diag): seq<Diag> {
    if c then ds + [d] else ds
  }

  // ---- numbers ----

  predicate Within(v: Float, lo: real, hi: real) {
    v.Finite? && lo <= v.value <= hi
  }

  predicate NonNegative(v: Float) {
    v.Finite? && v.value >= 0.0
  }

  predicate Unit(v: Float) {
    Within(v, 0.0, 1.0)
  }

  /** The number a compiled object carries; a number that is not finite never reaches a snapshot. */
  function ToReal(v: Float): real {
    if v.Finite? then v.value else 0.0
  }

  /** f64::EPSILON. */
  const EPSILON: real := 1.0 / 4503599627370496.0

  function RateFor(currency: Currency, fx: map<string, real>): Option<real> {
    match currency
    case Eur => Some(1.0)
    case Usd => if "USD" in fx then Some(fx["USD"]) else None
  }

  function MicroEur(price: real, rate: real): Option<u64> {
    var micro := Round(price * rate * 1000000.0);
    if micro < 0 then None else Some(Saturate(micro))
  }

  /** A price in micro-EUR per million tokens, if the currency has a rate. */
  function ToMicroEur(price: Float, currency: Currency, fx: map<string, real>): Option<u64> {
    var rate := RateFor(currency, fx);
    if rate.None? || price.NotFinite? then None else MicroEur(price.value, rate.value)
  }

  // ---- exchange rates ----

  datatype FxState = FxState(fx: map<string, real>, diags: seq<Diag>)

  predicate ValidRate(r: Float) {
    r.Finite? && r.value > 0.0
  }

  predicate Conflicts(fx: map<string, real>, cur: string, rate: real) {
    cur in fx && (fx[cur] - rate > EPSILON || rate - fx[cur] > EPSILON)
  }

  function AddRate(st: FxState, p: ProfileResource, cur: string): FxState {
    if cur !in p.fxToEur then st
    else if !ValidRate(p.fxToEur[cur]) then
      st.(diags := st.diags + [Diag(Error, RouterProfile, DiagName(p.meta), RateMustBePositive(cur))])
    else if Conflicts(st.fx, cur, p.fxToEur[cur].value) then
      st.(diags := st.diags + [Diag(Error, RouterProfile, DiagName(p.meta), ConflictingRate(cur))])
    else st.(fx := st.fx[cur := p.fxToEur[cur].value])
  }

  function AddRates(st: FxState, p: ProfileResource, curs: seq<string>): FxState {
    if curs == [] then st else AddRate(AddRates(st, p, curs[..|curs| - 1]), p, curs[|curs| - 1])
  }

  function FxPass(ps: seq<ProfileResource>): FxState {
    if ps == [] then FxState(map[], []) else
      var p := ps[|ps| - 1];
      AddRates(FxPass(ps[..|ps| - 1]), p, Ascending(p.fxToEur.Keys))
  }

  // ---- profiles ----

  datatype ProfileState = ProfileState(profiles: map<string, Profile>, diags: seq<Diag>)

  predicate CalibrationOk(c: CalibrationPoint) {
    c.numericKey && Unit(c.value)
  }

  function CalibrationChecks(p: ProfileResource, keys: seq<string>, ds: seq<Diag>): seq<Diag> {
    if keys == [] then ds else
      var k := keys[|keys| - 1];
      PushIf(k in p.calibration && !CalibrationOk(p.calibration[k]), CalibrationChecks(p, keys[..|keys| - 1], ds),
             Diag(Error, RouterProfile, DiagName(p.meta), CalibrationOutOfRange(k)))
  }

  function ProfileChecks(p: ProfileResource, ds: seq<Diag>): seq<Diag> {
    var n := DiagName(p.meta);
    var d1 := PushIf(p.timeoutMs == 0, ds, Diag(Error, RouterProfile, n, TimeoutMustBePositive));
    var d2 := PushIf(p.defaultOutputTokens == 0, d1, Diag(Error, RouterProfile, n, OutputTokensMustBePositive));
    var d3 := PushIf(p.classifierType == Onnx && p.classifierUri.None?, d2,
                     Diag(Error, RouterProfile, n, OnnxNeedsModel));
    var d4 := PushIf(p.classifierType == Onnx && p.tokenizerUri.None?, d3,
                     Diag(Error, RouterProfile, n, OnnxNeedsTokenizer));
    CalibrationChecks(p, Ascending(p.calibration.Keys), d4)
  }

  function CompileProfile(p: ProfileResource, name: string): Profile {
    Profile(name, p.classifierType, p.classifierUri, p.tokenizerUri, p.timeoutMs, p.defaultOutputTokens)
  }

  function AddProfile(st: ProfileState, p: ProfileResource): ProfileState {
    if p.meta.name.None? then st.(diags := st.diags + [Diag(Error, RouterProfile, DiagName(p.meta), MissingName)])
    else if p.meta.name.value in st.profiles then
      st.(diags := st.diags + [Diag(Error, RouterProfile, DiagName(p.meta), DuplicateName)])
    else ProfileState(st.profiles[p.meta.name.value := CompileProfile(p, p.meta.name.value)],
                      ProfileChecks(p, st.diags))
  }

  function ProfilePass(ps: seq<ProfileResource>, ds: seq<Diag>): ProfileState {
    if ps == [] then ProfileState(map[], ds) else AddProfile(ProfilePass(ps[..|ps| - 1], ds), ps[|ps| - 1])
  }

  // ---- data classes ----

  datatype ClassState = ClassState(
    classes: map<string, DataClass>, ranks: map<nat, string>, owners: map<string, string>, diags: seq<Diag>)

  function Elements<T>(xs: seq<T>): set<T> {
    set x | x in xs
  }

  function CompileClass(c: ClassResource, name: string): DataClass {
    DataClass(name, c.rank, Elements(Map(Lower, c.headerValues)), Elements(c.piiEntities), ToReal(c.minConfidence),
              Elements(c.requireJurisdiction), c.forbidCloudActExposed, Elements(c.requireOperatorControl),
              Elements(c.forbidCapabilities))
  }

  /** The header values a class answers to: the declared ones and its own name. */
  function ClaimList(c: ClassResource, name: string): seq<string> {
    Map(Lower, c.headerValues) + [Lower(name)]
  }

  datatype ClaimState = ClaimState(owners: map<string, string>, diags: seq<Diag>)

  function AddClaim(st: ClaimState, c: ClassResource, name: string, value: string): ClaimState {
    ClaimState(
      st.owners[value := name],
      if value in st.owners && st.owners[value] != name then
        st.diags + [Diag(Error, DataClassKind, DiagName(c.meta), HeaderClaimed(value, st.owners[value]))]
      else st.diags)
  }

  function AddClaims(st: ClaimState, c: ClassResource, name: string, values: seq<string>): ClaimState {
    if values == [] then st
    else AddClaim(AddClaims(st, c, name, values[..|values| - 1]), c, name, values[|values| - 1])
  }

  function AddClass(st: ClassState, c: ClassResource): ClassState {
    if c.meta.name.None? then st.(diags := st.diags + [Diag(Error, DataClassKind, DiagName(c.meta), MissingName)])
    else if c.meta.name.value in st.classes then
      st.(diags := st.diags + [Diag(Error, DataClassKind, DiagName(c.meta), DuplicateName)])
    else
      var name := c.meta.name.value;
      var d1 := PushIf(!Unit(c.minConfidence), st.diags,
                       Diag(Error, DataClassKind, DiagName(c.meta), MinConfidenceOutOfRange));
      var d2 := if c.rank in st.ranks
                then d1 + [Diag(Warning, DataClassKind, DiagName(c.meta), RankShared(c.rank, st.ranks[c.rank]))]
                else d1;
      var claims := AddClaims(ClaimState(st.owners, d2), c, name, ClaimList(c, name));
      ClassState(st.classes[name := CompileClass(c, name)], st.ranks[c.rank := name], claims.owners, claims.diags)
  }

  function ClassPass(cs: seq<ClassResource>, ds: seq<Diag>): ClassState {
    if cs == [] then ClassState(map[], map[], map[], ds) else AddClass(ClassPass(cs[..|cs| - 1], ds), cs[|cs| - 1])
  }

  // ---- tiers ----

  datatype TierState = TierState(tiers: map<string, Tier>, tierNs: map<string, string>, diags: seq<Diag>)

  /** Why a tier cannot serve a data class (the compiler's own copy of the check). */
  function ClassClash(t: Tier, dc: DataClass): Option<Clash> {
    if dc.name !in t.allowedDataClasses then Some(NotAllowed)
    else if dc.requireJurisdiction != {} && t.jurisdiction !in dc.requireJurisdiction then Some(JurisdictionClash)
    else if dc.forbidCloudActExposed && t.cloudActExposed then Some(CloudActClash)
    else if dc.requireOperatorControl != {} && t.operatorControl !in dc.requireOperatorControl then Some(OperatorClash)
    else if exists c :: c in t.capabilities && c in dc.forbidCapabilities then Some(CapabilityClash)
    else None
  }

  function TaskChecks(t: TierResource, tasks: seq<string>, ds: seq<Diag>): seq<Diag> {
    if tasks == [] then ds else
      var k := tasks[|tasks| - 1];
      PushIf(k in t.qualityByTask && !Unit(t.qualityByTask[k]), TaskChecks(t, tasks[..|tasks| - 1], ds),
             Diag(Error, ModelTier, DiagName(t.meta), TaskQualityOutOfRange(k)))
  }

  function ReferenceChecks(
    t: TierResource, names: seq<string>, classes: map<string, DataClass>, ds: seq<Diag>
  ): seq<Diag> {
    if names == [] then ds else
      var k := names[|names| - 1];
      PushIf(k !in classes, ReferenceChecks(t, names[..|names| - 1], classes, ds),
             Diag(Error, ModelTier, DiagName(t.meta), UnknownDataClass(k)))
  }

  predicate Priced(t: TierResource, fx: map<string, real>) {
    ToMicroEur(t.inputPerMillion, t.currency, fx).Some? && ToMicroEur(t.outputPerMillion, t.currency, fx).Some?
  }

  function TierChecks(
    t: TierResource, classes: map<string, DataClass>, fx: map<string, real>, ds: seq<Diag>
  ): seq<Diag> {
    var n := DiagName(t.meta);
    var d1 := PushIf(Trim(t.gatewayModel) == "", ds, Diag(Error, ModelTier, n, GatewayModelEmpty));
    var d2 := PushIf(t.contextWindow == 0, d1, Diag(Error, ModelTier, n, ContextWindowEmpty));
    var d3 := PushIf(!NonNegative(t.inputPerMillion), d2, Diag(Error, ModelTier, n, InputPriceOutOfRange));
    var d4 := PushIf(!NonNegative(t.outputPerMillion), d3, Diag(Error, ModelTier, n, OutputPriceOutOfRange));
    var d5 := PushIf(!Unit(t.qualityBaseline), d4, Diag(Error, ModelTier, n, BaselineOutOfRange));
    var d6 := TaskChecks(t, Ascending(t.qualityByTask.Keys), d5);
    var d7 := PushIf(!Unit(t.maxRiskScore), d6, Diag(Error, ModelTier, n, MaxRiskOutOfRange));
    var d8 := ReferenceChecks(t, t.allowedDataClasses, classes, d7);
    PushIf(!Priced(t, fx), d8, Diag(Error, ModelTier, n, NoConversionRate))
  }

  /** No check of the tier reports an error. */
  predicate TierValid(t: TierResource, classNames: set<string>, fx: map<string, real>) {
    && Trim(t.gatewayModel) != ""
    && t.contextWindow > 0
    && NonNegative(t.inputPerMillion) && NonNegative(t.outputPerMillion)
    && Unit(t.qualityBaseline)
    && (forall k | k in t.qualityByTask :: Unit(t.qualityByTask[k]))
    && Unit(t.maxRiskScore)
    && (forall n | n in t.allowedDataClasses :: n in classNames)
    && Priced(t, fx)
  }

  function CompileTier(t: TierResource, name: string, fx: map<string, real>): Tier {
    var input := ToMicroEur(t.inputPerMillion, t.currency, fx);
    var output := ToMicroEur(t.outputPerMillion, t.currency, fx);
    Tier(name, t.gatewayModel, Elements(t.capabilities), t.contextWindow,
         if input.Some? then input.value else 0, if output.Some? then output.value else 0,
         ToReal(t.qualityBaseline), map k | k in t.qualityByTask :: ToReal(t.qualityByTask[k]), t.latencyP50,
         t.jurisdiction, t.operatorControl, t.cloudActExposed, Elements(t.allowedDataClasses), ToReal(t.maxRiskScore),
         t.toolCallingAllowed, t.labels)
  }

  function ClaimWarnings(
    t: Tier, diagName: string, names: seq<string>, classes: map<string, DataClass>, ds: seq<Diag>
  ): seq<Diag> {
    if names == [] then ds else
      var rest := ClaimWarnings(t, diagName, names[..|names| - 1], classes, ds);
      var k := names[|names| - 1];
      if k in classes && ClassClash(t, classes[k]).Some?
      then rest + [Diag(Warning, ModelTier, diagName, ClaimViolated(k, ClassClash(t, classes[k]).value))] else rest
  }

  function AddTier(st: TierState, t: TierResource, classes: map<string, DataClass>, fx: map<string, real>): TierState {
    if t.meta.name.None? then st.(diags := st.diags + [Diag(Error, ModelTier, DiagName(t.meta), MissingName)])
    else if t.meta.name.value in st.tiers then
      st.(diags := st.diags + [Diag(Error, ModelTier, DiagName(t.meta), DuplicateName)])
    else
      var name := t.meta.name.value;
      var checked := TierChecks(t, classes, fx, st.diags);
      if !TierValid(t, classes.Keys, fx) then st.(diags := checked)
      else
        var compiled := CompileTier(t, name, fx);
        TierState(st.tiers[name := compiled], st.tierNs[name := NsOf(t.meta)],
                  ClaimWarnings(compiled, DiagName(t.meta), Ascending(compiled.allowedDataClasses), classes, checked))
  }

  function TierPass(
    ts: seq<TierResource>, classes: map<string, DataClass>, fx: map<string, real>, ds: seq<Diag>
  ): TierState {
    if ts == [] then TierState(map[], map[], ds)
    else AddTier(TierPass(ts[..|ts| - 1], classes, fx, ds), ts[|ts| - 1], classes, fx)
  }

  // ---- policies ----

  /** What the policy pass reads of the earlier passes. */
  datatype Context = Context(
    tiers: map<string, Tier>,
    tierNs: map<string, string>,
    classes: map<string, DataClass>,
    profileNames: set<string>,
    fx: map<string, real>)

  datatype PolicyState = PolicyState(policies: seq<Policy>, seen: set<string>, diags: seq<Diag>)

  predicate InNs(ctx: Context, tier: string, ns: string) {
    tier in ctx.tierNs && ctx.tierNs[tier] == ns
  }

  predicate LabelsMatch(want: map<string, string>, have: map<string, string>) {
    forall k | k in want :: k in have && have[k] == want[k]
  }

  function SelectedTiers(p: PolicyResource, ctx: Context): set<string> {
    set n | n in ctx.tiers && InNs(ctx, n, NsOf(p.meta)) && LabelsMatch(p.matchLabels, ctx.tiers[n].labels)
  }

  function CandidateSet(p: PolicyResource, ctx: Context): set<string> {
    (if p.include_ != [] && p.matchLabels == map[] then {} else SelectedTiers(p, ctx))
    + (set n | n in p.include_ && InNs(ctx, n, NsOf(p.meta)))
    - (set n | n in p.exclude)
  }

  function IncludeChecks(p: PolicyResource, names: seq<string>, ctx: Context, ds: seq<Diag>): seq<Diag> {
    if names == [] then ds else
      var k := names[|names| - 1];
      PushIf(!InNs(ctx, k, NsOf(p.meta)), IncludeChecks(p, names[..|names| - 1], ctx, ds),
             Diag(Error, RoutingPolicy, DiagName(p.meta), UnknownInclude(k)))
  }

  function ExcludeWarnings(p: PolicyResource, names: seq<string>, ctx: Context, ds: seq<Diag>): seq<Diag> {
    if names == [] then ds else
      var k := names[|names| - 1];
      PushIf(!InNs(ctx, k, NsOf(p.meta)), ExcludeWarnings(p, names[..|names| - 1], ctx, ds),
             Diag(Warning, RoutingPolicy, DiagName(p.meta), UnknownExclude(k)))
  }

  predicate WeightsOk(w: Option<RawWeights>) {
    w.None? || (NonNegative(w.value.cost) && NonNegative(w.value.quality) && NonNegative(w.value.latency))
  }

  function LearnedChecks(p: PolicyResource, ctx: Context, ds: seq<Diag>): seq<Diag> {
    if !p.learnedEnabled then ds else
      var n := DiagName(p.meta);
      var d1 := if p.learnedProfile.None? then ds + [Diag(Error, RoutingPolicy, n, ProfileRequired)]
                else PushIf(p.learnedProfile.value !in ctx.profileNames, ds,
                            Diag(Error, RoutingPolicy, n, ProfileNotFound(p.learnedProfile.value)));
      PushIf(!Unit(p.learnedMinConfidence), d1, Diag(Error, RoutingPolicy, n, LearnedConfidenceOutOfRange))
  }

  predicate FallbackFound(p: PolicyResource, ctx: Context) {
    p.fallbackTier.None? || (p.fallbackTier.value in ctx.tiers && InNs(ctx, p.fallbackTier.value, NsOf(p.meta)))
  }

  function FallbackWarnings(
    p: PolicyResource, t: Tier, name: string, classNames: seq<string>, ctx: Context, ds: seq<Diag>
  ): seq<Diag> {
    if classNames == [] then ds else
      var rest := FallbackWarnings(p, t, name, classNames[..|classNames| - 1], ctx, ds);
      var k := classNames[|classNames| - 1];
      if k in ctx.classes && ClassClash(t, ctx.classes[k]).Some?
      then rest + [Diag(Warning, RoutingPolicy, DiagName(p.meta),
                        FallbackCannotServe(name, ctx.classes[k].name, ClassClash(t, ctx.classes[k]).value))]
      else rest
  }

  function FallbackChecks(p: PolicyResource, ctx: Context, ds: seq<Diag>): seq<Diag> {
    if p.fallbackTier.None? then ds
    else if !FallbackFound(p, ctx) then
      ds + [Diag(Error, RoutingPolicy, DiagName(p.meta), FallbackNotFound(p.fallbackTier.value))]
    else if p.respectDataClass then
      FallbackWarnings(p, ctx.tiers[p.fallbackTier.value], p.fallbackTier.value, Ascending(ctx.classes.Keys), ctx, ds)
    else ds
  }

  function CandidateChecks(p: PolicyResource, ctx: Context, ds: seq<Diag>): seq<Diag> {
    var n := DiagName(p.meta);
    var d1 := PushIf(p.matchLabels != map[] && p.include_ == [] && SelectedTiers(p, ctx) == {}, ds,
                     Diag(Warning, RoutingPolicy, n, SelectorMatchesNothing));
    var d2 := IncludeChecks(p, p.include_, ctx, d1);
    var d3 := ExcludeWarnings(p, p.exclude, ctx, d2);
    PushIf(CandidateSet(p, ctx) == {}, d3, Diag(Error, RoutingPolicy, n, NoCandidates))
  }

  function RangeChecks(p: PolicyResource, ds: seq<Diag>): seq<Diag> {
    var n := DiagName(p.meta);
    var d1 := PushIf(p.maxCostEur.Some? && !NonNegative(p.maxCostEur.value), ds,
                     Diag(Error, RoutingPolicy, n, MaxCostOutOfRange));
    var d2 := PushIf(p.denyIfRiskAbove.Some? && !Unit(p.denyIfRiskAbove.value), d1,
                     Diag(Error, RoutingPolicy, n, DenyThresholdOutOfRange));
    var d3 := PushIf(p.qualityFloor.Some? && !Unit(p.qualityFloor.value), d2,
                     Diag(Error, RoutingPolicy, n, FloorOutOfRange));
    PushIf(!WeightsOk(p.weights), d3, Diag(Error, RoutingPolicy, n, WeightsOutOfRange))
  }

  function PolicyChecks(p: PolicyResource, ctx: Context, ds: seq<Diag>): seq<Diag> {
    var d1 := FallbackChecks(p, ctx, LearnedChecks(p, ctx, RangeChecks(p, CandidateChecks(p, ctx, ds))));
    PushIf(p.scope.modelAliases == [], d1, Diag(Warning, RoutingPolicy, DiagName(p.meta), NoAliases))
  }

  /** No check of the policy reports an error. */
  predicate PolicyValid(p: PolicyResource, ctx: Context) {
    && (forall n | n in p.include_ :: InNs(ctx, n, NsOf(p.meta)))
    && CandidateSet(p, ctx) != {}
    && (p.maxCostEur.Some? ==> NonNegative(p.maxCostEur.value))
    && (p.denyIfRiskAbove.Some? ==> Unit(p.denyIfRiskAbove.value))
    && (p.qualityFloor.Some? ==> Unit(p.qualityFloor.value))
    && WeightsOk(p.weights)
    && (p.learnedEnabled ==>
          p.learnedProfile.Some? && p.learnedProfile.value in ctx.profileNames && Unit(p.learnedMinConfidence))
    && FallbackFound(p, ctx)
  }

  function CompileWeights(p: PolicyResource): Weights {
    if p.weights.None? then ModeWeights(p.mode)
    else Normalised(Weights(ToReal(p.weights.value.cost), ToReal(p.weights.value.quality),
                            ToReal(p.weights.value.latency)), p.mode)
  }

  function OptionReal(v: Option<Float>): Option<real> {
    if v.None? then None else Some(ToReal(v.value))
  }

  function PolicyKey(m: Meta): string {
    NsOf(m) + "/" + (if m.name.Some? then m.name.value else "")
  }

  function CompilePolicy(p: PolicyResource, ctx: Context): Policy {
    Policy(PolicyKey(p.meta), NsOf(p.meta), if p.meta.name.Some? then p.meta.name.value else "", p.priority, p.scope,
           Ascending(CandidateSet(p, ctx)), p.respectDataClass,
           if p.maxCostEur.None? then None else ToMicroEur(p.maxCostEur.value, Eur, ctx.fx),
           Elements(p.requireCapabilities), OptionReal(p.denyIfRiskAbove), p.mode, OptionReal(p.qualityFloor),
           CompileWeights(p), LearnedRouter(p.learnedEnabled, p.learnedProfile, ToReal(p.learnedMinConfidence)),
           p.reasoningEnabled, p.reasoningMap, p.fallbackTier, p.explain, p.overridable)
  }

  function AddPolicy(st: PolicyState, p: PolicyResource, ctx: Context): PolicyState {
    if p.meta.name.None? then st.(diags := st.diags + [Diag(Error, RoutingPolicy, DiagName(p.meta), MissingName)])
    else if PolicyKey(p.meta) in st.seen then
      st.(diags := st.diags + [Diag(Error, RoutingPolicy, DiagName(p.meta), DuplicateName)])
    else
      PolicyState(if PolicyValid(p, ctx) then st.policies + [CompilePolicy(p, ctx)] else st.policies,
                  st.seen + {PolicyKey(p.meta)}, PolicyChecks(p, ctx, st.diags))
  }

  function PolicyPass(ps: seq<PolicyResource>, ctx: Context, ds: seq<Diag>): PolicyState {
    if ps == [] then PolicyState([], {}, ds) else AddPolicy(PolicyPass(ps[..|ps| - 1], ctx, ds), ps[|ps| - 1], ctx)
  }

  // ---- evaluation order and shadowing ----

  /** Priority descending, then `namespace/name`. */
  predicate PolicyLe(a: Policy, b: Policy) {
    if a.priority != b.priority then a.priority > b.priority else StrLe(a.key, b.key)
  }

  /** What policies are grouped by: priority, namespace and the text of the match. */
  datatype GroupKey = GroupKey(priority: int, ns: string, text: string)

  datatype Group = Group(key: GroupKey, members: seq<string>)

  predicate KeyLt(a: GroupKey, b: GroupKey) {
    if a.priority != b.priority then a.priority < b.priority
    else if a.ns != b.ns then StrLt(a.ns, b.ns)
    else StrLt(a.text, b.text)
  }

  function ScopeKey(p: Policy): GroupKey {
    GroupKey(p.priority, p.ns, MatchText(p.scope))
  }

  /** The groups in the order of their keys, with one more member in the group of `k`. */
  function Join(gs: seq<Group>, k: GroupKey, name: string): seq<Group> {
    if gs == [] || KeyLt(k, gs[0].key) then [Group(k, [name])] + gs
    else if gs[0].key == k then [Group(k, gs[0].members + [name])] + gs[1..]
    else [gs[0]] + Join(gs[1..], k, name)
  }

  function GroupsOf(ps: seq<Policy>): seq<Group> {
    if ps == [] then [] else var p := ps[|ps| - 1]; Join(GroupsOf(ps[..|ps| - 1]), ScopeKey(p), p.key)
  }

  function WarnMembers(winner: string, shadowed: seq<string>, ds: seq<Diag>): seq<Diag> {
    if shadowed == [] then ds else
      WarnMembers(winner, shadowed[..|shadowed| - 1], ds)
      + [Diag(Warning, RoutingPolicy, shadowed[|shadowed| - 1], Shadowed(winner))]
  }

  function WarnGroups(gs: seq<Group>, ds: seq<Diag>): seq<Diag> {
    if gs == [] then ds else
      var rest, names := WarnGroups(gs[..|gs| - 1], ds), gs[|gs| - 1].members;
      if |names| > 1 then WarnMembers(names[0], names[1..], rest) else rest
  }

  /** Group by group, a warning for each member but the first. */
  function ShadowWarnings(ps: seq<Policy>, ds: seq<Diag>): seq<Diag> {
    WarnGroups(GroupsOf(ps), ds)
  }

  // ---- the compiler ----

  datatype CompileResult = CompileResult(core: Option<Core>, report: seq<Diag>)

  function ContextOf(input: CompileInput): Context {
    var fx := FxPass(input.profiles);
    var profiles := ProfilePass(input.profiles, fx.diags);
    var classes := ClassPass(input.dataClasses, profiles.diags);
    var tiers := TierPass(input.tiers, classes.classes, fx.fx, classes.diags);
    Context(tiers.tiers, tiers.tierNs, classes.classes, profiles.profiles.Keys, fx.fx)
  }

  function Compile(input: CompileInput): CompileResult {
    var fx := FxPass(input.profiles);
    var profiles := ProfilePass(input.profiles, fx.diags);
    var classes := ClassPass(input.dataClasses, profiles.diags);
    var tiers := TierPass(input.tiers, classes.classes, fx.fx, classes.diags);
    var ctx := Context(tiers.tiers, tiers.tierNs, classes.classes, profiles.profiles.Keys, fx.fx);
    var policies := PolicyPass(input.policies, ctx, tiers.diags);
    var ordered := SortBy(PolicyLe, policies.policies);
    var report := ShadowWarnings(ordered, policies.diags);
    CompileResult(
      if HasErrors(report) then None else Some(Core(tiers.tiers, classes.classes, ordered, profiles.profiles)), report)
  }
}
