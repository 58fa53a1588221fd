/**
 What a compiled snapshot says, field by field, in terms of the resources.
 */
module CompilerValues {
  import opened Ordering
  import opened TextForms
  import opened Snapshots
  import opened SnapshotNumbers
  import opened Compiler
  import opened CompilerFacts
  import opened CompilerReferences

  // ---- prices ----

  /** The rate of the last profile that declares one for the currency. */
  ghost predicate LastRate(ps: seq<ProfileResource>, cur: string, rate: real) {
    exists i :: 0 <= i < |ps| && cur in ps[i].fxToEur && ps[i].fxToEur[cur] == Finite(rate)
      && forall j :: i < j < |ps| ==> cur !in ps[j].fxToEur
  }

  ghost predicate RateIs(currency: Currency, ps: seq<ProfileResource>, rate: real) {
    match currency
    case Eur => rate == 1.0
    case Usd => LastRate(ps, "USD", rate)
  }

  /** The amount in micro-EUR to the nearest integer, or the largest one there is. */
  predicate MicroPrice(micro: u64, euros: real) {
    if micro < 18_446_744_073_709_551_615 then Nearest(micro, euros * 1000000.0)
    else euros * 1000000.0 >= 18_446_744_073_709_551_614.5
  }

  /** The declared price, converted. */
  ghost predicate PricedAt(micro: u64, price: Float, currency: Currency, ps: seq<ProfileResource>) {
    price.Finite? && exists rate :: RateIs(currency, ps, rate) && Converts(micro, price.value, rate)
  }

  predicate Converts(micro: u64, price: real, rate: real) {
    MicroPrice(micro, price * rate)
  }

  lemma {:induction false} LastRateIsDeclared(ps: seq<ProfileResource>, cur: string, rate: real)
    requires LastDeclared(ps, cur) == Some(Finite(rate))
    ensures LastRate(ps, cur, rate)
  {
    var last := ps[|ps| - 1];
    if cur in last.fxToEur {
      assert ps[|ps| - 1].fxToEur[cur] == Finite(rate);
    } else {
      var front := ps[..|ps| - 1];
      LastRateIsDeclared(front, cur, rate);
      var i :| 0 <= i < |front| && cur in front[i].fxToEur && front[i].fxToEur[cur] == Finite(rate)
        && forall j :: i < j < |front| ==> cur !in front[j].fxToEur;
      assert cur in ps[i].fxToEur && ps[i].fxToEur[cur] == Finite(rate);
      assert forall j :: i < j < |front| ==> front[j] == ps[j];
    }
  }

  lemma MicroEurIs(price: real, rate: real)
    ensures MicroEur(price, rate).Some? ==> Converts(MicroEur(price, rate).value, price, rate)
  {
    RoundIsNearest(price * rate * 1000000.0);
  }

  lemma ConvertedPrice(price: Float, currency: Currency, fx: map<string, real>, ps: seq<ProfileResource>)
    requires Quotes(fx, ps) && ToMicroEur(price, currency, fx).Some?
    ensures PricedAt(ToMicroEur(price, currency, fx).value, price, currency, ps)
  {
    hide LastDeclared, LastRate, MicroEur, Converts;
    var rate := RateFor(currency, fx).value;
    MicroEurIs(price.value, rate);
    if currency == Usd {
      assert LastDeclared(ps, "USD") == Some(Finite(rate));
      LastRateIsDeclared(ps, "USD", rate);
    }
    assert RateIs(currency, ps, rate);
  }

  // ---- objects ----

  ghost predicate SameElements<T(!new)>(xs: seq<T>, s: set<T>) {
    forall x :: x in s <==> x in xs
  }

  /** The tier carries what its resource declares. */
  ghost predicate TierIs(x: Tier, t: TierResource, ps: seq<ProfileResource>) {
    && t.meta.name == Some(x.name)
    && x.gatewayModel == t.gatewayModel
    && SameElements(t.capabilities, x.capabilities)
    && x.contextWindow == t.contextWindow
    && PricedAt(x.inputPrice, t.inputPerMillion, t.currency, ps)
    && PricedAt(x.outputPrice, t.outputPerMillion, t.currency, ps)
    && t.qualityBaseline == Finite(x.qualityBaseline)
    && (forall k :: k in x.qualityByTask <==> k in t.qualityByTask)
    && (forall k | k in t.qualityByTask :: t.qualityByTask[k] == Finite(x.qualityByTask[k]))
    && x.latencyP50 == t.latencyP50
    && x.jurisdiction == t.jurisdiction
    && x.operatorControl == t.operatorControl
    && x.cloudActExposed == t.cloudActExposed
    && SameElements(t.allowedDataClasses, x.allowedDataClasses)
    && t.maxRiskScore == Finite(x.maxRiskScore)
    && x.toolCallingAllowed == t.toolCallingAllowed
    && x.labels == t.labels
  }

  lemma CompiledTierIs(t: TierResource, names: set<string>, fx: map<string, real>, ps: seq<ProfileResource>)
    requires TierValid(t, names, fx) && Quotes(fx, ps) && t.meta.name.Some?
    ensures TierIs(TierCompiler(fx)(t), t, ps)
  {
    hide ToMicroEur, PricedAt, Trim, Quotes;
    ConvertedPrice(t.inputPerMillion, t.currency, fx, ps);
    ConvertedPrice(t.outputPerMillion, t.currency, fx, ps);
  }

  /** The class carries what its resource declares, header values in small letters. */
  ghost predicate ClassIs(x: DataClass, c: ClassResource) {
    && c.meta.name == Some(x.name)
    && x.rank == c.rank
    && (forall v :: v in x.headerValues <==> exists h :: h in c.headerValues && Lowered(h, v))
    && SameElements(c.piiEntities, x.piiEntities)
    && c.minConfidence == Finite(x.minConfidence)
    && SameElements(c.requireJurisdiction, x.requireJurisdiction)
    && x.forbidCloudActExposed == c.forbidCloudActExposed
    && SameElements(c.requireOperatorControl, x.requireOperatorControl)
    && SameElements(c.forbidCapabilities, x.forbidCapabilities)
  }

  lemma LoweredValues(hs: seq<string>, v: string)
    ensures v in Elements(Map(Lower, hs)) <==> exists h :: h in hs && Lowered(h, v)
  {
    hide Lower, Lowered;
    forall h ensures v == Lower(h) <==> Lowered(h, v) {
      LowerExactly(h, v);
    }
    var ls := Map(Lower, hs);
    if v in ls {
      var i :| 0 <= i < |ls| && ls[i] == v;
      assert hs[i] in hs && Lowered(hs[i], v);
    }
    if h :| h in hs && Lowered(h, v) {
      var i :| 0 <= i < |hs| && hs[i] == h;
      assert ls[i] == v;
    }
  }

  lemma CompiledClassIs(c: ClassResource)
    requires c.meta.name.Some? && Unit(c.minConfidence)
    ensures ClassIs(ClassCompiler()(c), c)
  {
    hide Lower, Lowered, Map;
    forall v ensures v in ClassCompiler()(c).headerValues <==> exists h :: h in c.headerValues && Lowered(h, v) {
      LoweredValues(c.headerValues, v);
    }
  }

  ghost predicate ProfileIs(x: Profile, p: ProfileResource) {
    && p.meta.name == Some(x.name)
    && x.classifierType == p.classifierType
    && x.classifierUri == p.classifierUri
    && x.tokenizerUri == p.tokenizerUri
    && x.timeoutMs == p.timeoutMs
    && x.defaultOutputTokens == p.defaultOutputTokens
  }

  // ---- policies ----

  predicate Namespace(m: Meta, ns: string) {
    match m.ns
    case Some(name) => ns == name
    case None => ns == "default"
  }

  ghost predicate SameNamespace(a: Meta, b: Meta) {
    exists ns :: Namespace(a, ns) && Namespace(b, ns)
  }

  /**
   A tier of the namespace of the policy that is not excluded, and is either included or carries all labels; a policy
   that includes tiers and names no labels takes no others.
   */
  ghost predicate IsCandidate(n: string, p: PolicyResource, ts: seq<TierResource>) {
    n !in p.exclude && exists t :: t in ts && t.meta.name == Some(n) && IsTaken(n, p, t)
  }

  ghost predicate IsTaken(n: string, p: PolicyResource, t: TierResource) {
    && SameNamespace(t.meta, p.meta)
    && (n in p.include_
        || ((p.include_ == [] || p.matchLabels != map[])
            && forall k | k in p.matchLabels :: k in t.labels && t.labels[k] == p.matchLabels[k]))
  }

  predicate WeightsAre(w: Weights, declared: Option<RawWeights>, mode: ObjectiveMode) {
    match declared
    case None => DefaultsOf(w, mode)
    case Some(raw) =>
      && raw.cost.Finite? && raw.quality.Finite? && raw.latency.Finite?
      && if raw.cost.value + raw.quality.value + raw.latency.value > 0.0
         then InProportion(w, raw.cost.value, raw.quality.value, raw.latency.value)
         else DefaultsOf(w, mode)
  }

  predicate Carried(x: Option<real>, v: Option<Float>) {
    match v
    case None => x.None?
    case Some(n) => x.Some? && n == Finite(x.value)
  }

  /** Name, namespace and key. */
  predicate SameIdentity(x: Policy, p: PolicyResource) {
    p.meta.name == Some(x.name) && Namespace(p.meta, x.ns) && x.key == x.ns + "/" + x.name
  }

  ghost predicate SameCandidates(x: Policy, p: PolicyResource, ts: seq<TierResource>) {
    StrictlyAscending(x.candidates) && forall n :: n in x.candidates <==> IsCandidate(n, p, ts)
  }

  /** The cap in micro-EUR, thresholds, floor and weights. */
  predicate SameNumbers(x: Policy, p: PolicyResource) {
    && (match p.maxCostEur
        case None => x.maxCost.None?
        case Some(eur) => x.maxCost.Some? && eur.Finite? && MicroPrice(x.maxCost.value, eur.value))
    && Carried(x.denyIfRiskAbove, p.denyIfRiskAbove)
    && Carried(x.qualityFloor, p.qualityFloor)
    && WeightsAre(x.weights, p.weights, p.mode)
    && (p.learnedMinConfidence.Finite? ==> x.learnedRouter.minConfidence == p.learnedMinConfidence.value)
  }

  ghost predicate SameSettings(x: Policy, p: PolicyResource) {
    && x.priority == p.priority
    && x.scope == p.scope
    && x.respectDataClass == p.respectDataClass
    && SameElements(p.requireCapabilities, x.requireCapabilities)
    && x.mode == p.mode
    && x.learnedRouter.enabled == p.learnedEnabled && x.learnedRouter.profile == p.learnedProfile
    && x.reasoningEnabled == p.reasoningEnabled && x.reasoningMap == p.reasoningMap
    && x.fallbackTier == p.fallbackTier
    && x.explain == p.explain && x.overridable == p.overridable
  }

  /** The policy carries what its resource declares. */
  ghost predicate PolicyIs(x: Policy, p: PolicyResource, ts: seq<TierResource>) {
    SameIdentity(x, p) && SameCandidates(x, p, ts) && SameNumbers(x, p) && SameSettings(x, p)
  }

  lemma NsOfIs(m: Meta)
    ensures Namespace(m, NsOf(m))
    ensures forall ns | Namespace(m, ns) :: ns == NsOf(m)
  {}

  lemma SameNs(a: Meta, b: Meta)
    ensures SameNamespace(a, b) <==> NsOf(a) == NsOf(b)
  {
    hide NsOf, Namespace;
    NsOfIs(a);
    NsOfIs(b);
    assert NsOf(a) == NsOf(b) ==> Namespace(a, NsOf(b)) && Namespace(b, NsOf(b));
  }

  lemma TakenIs(
    p: PolicyResource, ctx: Context, profiles: map<string, Profile>, input: CompileInput, t: TierResource, n: string)
    requires Represents(ctx, profiles, input) && t in input.tiers && t.meta.name == Some(n)
    ensures n in CandidateSet(p, ctx) <==> n !in p.exclude && IsTaken(n, p, t)
  {
    TierFound(ctx, profiles, input, t, n);
    SameNs(t.meta, p.meta);
    hide Represents, NsOf, SameNamespace;
  }

  lemma CandidatesAre(p: PolicyResource, ctx: Context, profiles: map<string, Profile>, input: CompileInput, n: string)
    requires Represents(ctx, profiles, input) && NamedApart(TierName, input.tiers)
    ensures n in CandidateSet(p, ctx) <==> IsCandidate(n, p, input.tiers)
  {
    hide IsTaken, NamedApart, Quotes;
    forall t | t in input.tiers && t.meta.name == Some(n)
      ensures n in CandidateSet(p, ctx) <==> n !in p.exclude && IsTaken(n, p, t)
    {
      TakenIs(p, ctx, profiles, input, t, n);
    }
    if n in ctx.tierNs {
      assert Taken(TierName, input.tiers, Some(n));
      var i :| 0 <= i < |input.tiers| && TierName(input.tiers[i]) == Some(n);
      assert input.tiers[i] in input.tiers;
    }
  }

  lemma TierFound(ctx: Context, profiles: map<string, Profile>, input: CompileInput, t: TierResource, n: string)
    requires Represents(ctx, profiles, input) && t in input.tiers && t.meta.name == Some(n)
    ensures n in ctx.tiers && ctx.tiers[n].labels == t.labels
    ensures n in ctx.tierNs && ctx.tierNs[n] == NsOf(t.meta)
  {
    hide Quotes, NsOf, ToMicroEur;
    var i :| 0 <= i < |input.tiers| && input.tiers[i] == t;
    assert TierName(input.tiers[i]) == Some(n);
  }

  lemma CapIs(p: PolicyResource, ctx: Context)
    requires p.maxCostEur.Some? && NonNegative(p.maxCostEur.value)
    ensures var cap := ToMicroEur(p.maxCostEur.value, Eur, ctx.fx);
      cap.Some? && MicroPrice(cap.value, p.maxCostEur.value.value)
  {
    RoundIsNearest(p.maxCostEur.value.value * 1000000.0);
    assert p.maxCostEur.value.value * 1.0 == p.maxCostEur.value.value;
  }

  lemma WeightsAreCompiled(p: PolicyResource)
    requires WeightsOk(p.weights)
    ensures WeightsAre(CompileWeights(p), p.weights, p.mode)
  {
    hide Normalised, ModeWeights, DefaultsOf, InProportion;
    ModeDefaults(p.mode);
    if p.weights.Some? {
      var w := p.weights.value;
      NormalisedExactly(Weights(w.cost.value, w.quality.value, w.latency.value), p.mode);
    }
  }

  lemma CompiledIdentity(p: PolicyResource, ctx: Context)
    requires p.meta.name.Some?
    ensures SameIdentity(CompilePolicy(p, ctx), p) && SameSettings(CompilePolicy(p, ctx), p)
  {
    hide CompileWeights, CandidateSet, ToMicroEur, OptionReal, ToReal;
  }

  lemma CompiledNumbers(p: PolicyResource, ctx: Context)
    requires PolicyValid(p, ctx)
    ensures SameNumbers(CompilePolicy(p, ctx), p)
  {
    hide CompileWeights, CandidateSet, ToMicroEur, MicroPrice, WeightsAre, InNs, FallbackFound, PolicyKey, NsOf;
    WeightsAreCompiled(p);
    if p.maxCostEur.Some? {
      CapIs(p, ctx);
    }
  }

  lemma CompiledCandidates(p: PolicyResource, ctx: Context, profiles: map<string, Profile>, input: CompileInput)
    requires Represents(ctx, profiles, input) && NamedApart(TierName, input.tiers)
    ensures SameCandidates(CompilePolicy(p, ctx), p, input.tiers)
  {
    hide CompileWeights, CandidateSet, IsCandidate, StrictlyAscending, Represents, NamedApart;
    AscendingSound(CandidateSet(p, ctx));
    forall n ensures n in CandidateSet(p, ctx) <==> IsCandidate(n, p, input.tiers) {
      CandidatesAre(p, ctx, profiles, input, n);
    }
  }

  lemma CompiledPolicyIs(p: PolicyResource, ctx: Context, profiles: map<string, Profile>, input: CompileInput)
    requires Represents(ctx, profiles, input) && NamedApart(TierName, input.tiers)
    requires p.meta.name.Some? && PolicyValid(p, ctx)
    ensures PolicyIs(PolicyCompiler(ctx)(p), p, input.tiers)
  {
    hide Represents, NamedApart, PolicyValid, CompilePolicy, SameIdentity, SameCandidates, SameNumbers, SameSettings;
    CompiledIdentity(p, ctx);
    CompiledNumbers(p, ctx);
    CompiledCandidates(p, ctx, profiles, input);
  }

  // ---- the snapshot ----

  /** Higher priority first, then the key that sorts first. */
  predicate EvaluatedInOrder(ps: seq<Policy>) {
    forall i, j :: 0 <= i < j < |ps| ==>
      ps[j].priority < ps[i].priority || (ps[j].priority == ps[i].priority && StrLe(ps[i].key, ps[j].key))
  }

  lemma PolicyOrder()
    ensures TotalPreorder(PolicyLe)
  {
    StrOrder();
  }

  lemma SortedPolicies(ps: seq<Policy>)
    ensures EvaluatedInOrder(SortBy(PolicyLe, ps))
    ensures |SortBy(PolicyLe, ps)| == |ps| && forall x :: x in SortBy(PolicyLe, ps) <==> x in ps
  {
    PolicyOrder();
    SortBySorts(PolicyLe, ps);
    SortByPermutes(PolicyLe, ps);
  }

  /** Every tier of the snapshot is that of a resource, and the other way round. */
  ghost predicate TiersAre(tiers: map<string, Tier>, ts: seq<TierResource>, ps: seq<ProfileResource>) {
    && (forall n | n in tiers :: tiers[n].name == n && exists t :: t in ts && TierIs(tiers[n], t, ps))
    && (forall t | t in ts ::
          t.meta.name.Some? && t.meta.name.value in tiers && TierIs(tiers[t.meta.name.value], t, ps))
  }

  ghost predicate ClassesAre(classes: map<string, DataClass>, cs: seq<ClassResource>) {
    && (forall n | n in classes :: classes[n].name == n && exists c :: c in cs && ClassIs(classes[n], c))
    && (forall c | c in cs ::
          c.meta.name.Some? && c.meta.name.value in classes && ClassIs(classes[c.meta.name.value], c))
  }

  ghost predicate ProfilesAre(profiles: map<string, Profile>, ps: seq<ProfileResource>) {
    && (forall n | n in profiles :: profiles[n].name == n && exists p :: p in ps && ProfileIs(profiles[n], p))
    && (forall p | p in ps ::
          p.meta.name.Some? && p.meta.name.value in profiles && ProfileIs(profiles[p.meta.name.value], p))
  }

  ghost predicate PoliciesAre(policies: seq<Policy>, ps: seq<PolicyResource>, ts: seq<TierResource>) {
    && EvaluatedInOrder(policies) && |policies| == |ps|
    && (forall x | x in policies :: exists p :: p in ps && PolicyIs(x, p, ts))
    && (forall p | p in ps :: exists x :: x in policies && PolicyIs(x, p, ts))
  }

  lemma HeldTiers(tiers: map<string, Tier>, ts: seq<TierResource>, names: set<string>, fx: map<string, real>,
                  ps: seq<ProfileResource>)
    requires Holds(tiers, TierName, TierCompiler(fx), ts) && Quotes(fx, ps)
    requires forall t | t in ts :: TierValid(t, names, fx)
    ensures TiersAre(tiers, ts, ps)
  {
    hide TierIs, TierValid, CompileTier, Quotes;
    forall t | t in ts
      ensures t.meta.name.Some? && t.meta.name.value in tiers && TierIs(tiers[t.meta.name.value], t, ps)
    {
      var i :| 0 <= i < |ts| && ts[i] == t;
      assert TierName(ts[i]).Some?;
      CompiledTierIs(t, names, fx, ps);
    }
    forall n | n in tiers ensures tiers[n].name == n && exists t :: t in ts && TierIs(tiers[n], t, ps) {
      assert Taken(TierName, ts, Some(n));
      var i :| 0 <= i < |ts| && TierName(ts[i]) == Some(n);
      assert ts[i] in ts;
      TierKeepsName(tiers[n], ts[i], ps);
    }
  }

  lemma TierKeepsName(x: Tier, t: TierResource, ps: seq<ProfileResource>)
    ensures TierIs(x, t, ps) ==> t.meta.name == Some(x.name)
  {}

  lemma HeldClasses(classes: map<string, DataClass>, cs: seq<ClassResource>)
    requires Holds(classes, ClassName, ClassCompiler(), cs) && forall c | c in cs :: Unit(c.minConfidence)
    ensures ClassesAre(classes, cs)
  {
    hide ClassIs, CompileClass, Unit;
    forall c | c in cs
      ensures c.meta.name.Some? && c.meta.name.value in classes && ClassIs(classes[c.meta.name.value], c)
    {
      var i :| 0 <= i < |cs| && cs[i] == c;
      assert ClassName(cs[i]).Some?;
      CompiledClassIs(c);
    }
    forall n | n in classes ensures classes[n].name == n && exists c :: c in cs && ClassIs(classes[n], c) {
      assert Taken(ClassName, cs, Some(n));
      var i :| 0 <= i < |cs| && ClassName(cs[i]) == Some(n);
      assert cs[i] in cs;
      ClassKeepsName(classes[n], cs[i]);
    }
  }

  lemma ClassKeepsName(x: DataClass, c: ClassResource)
    ensures ClassIs(x, c) ==> c.meta.name == Some(x.name)
  {}

  lemma HeldProfiles(profiles: map<string, Profile>, ps: seq<ProfileResource>)
    requires Holds(profiles, ProfileName, ProfileCompiler(), ps)
    ensures ProfilesAre(profiles, ps)
  {
    forall p | p in ps
      ensures p.meta.name.Some? && p.meta.name.value in profiles && ProfileIs(profiles[p.meta.name.value], p)
    {
      var i :| 0 <= i < |ps| && ps[i] == p;
      assert ProfileName(ps[i]).Some?;
    }
    forall n | n in profiles ensures profiles[n].name == n && exists p :: p in ps && ProfileIs(profiles[n], p) {
      assert Taken(ProfileName, ps, Some(n));
      var i :| 0 <= i < |ps| && ProfileName(ps[i]) == Some(n);
      assert ps[i] in ps;
    }
  }

  lemma HeldPolicies(ctx: Context, profiles: map<string, Profile>, input: CompileInput)
    requires Represents(ctx, profiles, input) && NamedApart(TierName, input.tiers) && PoliciesWF(input.policies, ctx)
    ensures PoliciesAre(SortBy(PolicyLe, Map(PolicyCompiler(ctx), input.policies)), input.policies, input.tiers)
  {
    var ps, compiled := input.policies, Map(PolicyCompiler(ctx), input.policies);
    forall i | 0 <= i < |ps| ensures PolicyIs(compiled[i], ps[i], input.tiers) {
      assert PolicyName(ps[i]).Some? && ps[i] in ps;
      CompiledPolicyIs(ps[i], ctx, profiles, input);
    }
    hide Represents, PolicyIs, PolicyValid, CompilePolicy, EvaluatedInOrder, SortBy, PoliciesWF, NamedApart, Map;
    SortedPolicies(compiled);
    PairedLists(compiled, ps, input.tiers);
  }

  lemma PairedLists(xs: seq<Policy>, ps: seq<PolicyResource>, ts: seq<TierResource>)
    requires |xs| == |ps| && forall i :: 0 <= i < |ps| ==> PolicyIs(xs[i], ps[i], ts)
    ensures forall x | x in xs :: exists p :: p in ps && PolicyIs(x, p, ts)
    ensures forall p | p in ps :: exists x :: x in xs && PolicyIs(x, p, ts)
  {
    hide PolicyIs;
    forall x | x in xs ensures exists p :: p in ps && PolicyIs(x, p, ts) {
      var i :| 0 <= i < |xs| && xs[i] == x;
      assert PolicyIs(xs[i], ps[i], ts) && ps[i] in ps;
    }
    forall p | p in ps ensures exists x :: x in xs && PolicyIs(x, p, ts) {
      var i :| 0 <= i < |ps| && ps[i] == p;
      assert PolicyIs(xs[i], ps[i], ts) && xs[i] in xs;
    }
  }

  /**
   A compiled snapshot carries what the resources declare, field by field: prices converted at the rate declared last
   and brought to micro-EUR, weights in proportion, candidates resolved, policies in evaluation order.
   */
  lemma CompiledIsDeclared(input: CompileInput)
    requires Compile(input).core.Some?
    ensures var core := Compile(input).core.value;
      && TiersAre(core.tiers, input.tiers, input.profiles)
      && ClassesAre(core.dataClasses, input.dataClasses)
      && ProfilesAre(core.profiles, input.profiles)
      && PoliciesAre(core.policies, input.policies, input.tiers)
  {
    hide Compile, ContextOf, TiersAre, ClassesAre, ProfilesAre, PoliciesAre, RatesConsistent, Holds, Quotes, Unit,
      TierValid, PoliciesWF, SortBy, NamedApart;
    CompileIsExact(input);
    var ctx, core := ContextOf(input), Compile(input).core.value;
    HeldTiers(core.tiers, input.tiers, ctx.classes.Keys, ctx.fx, input.profiles);
    HeldClasses(core.dataClasses, input.dataClasses);
    HeldProfiles(core.profiles, input.profiles);
    HeldPolicies(ctx, core.profiles, input);
  }
}
