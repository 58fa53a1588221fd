/**
 The passes with cross-references: tiers refer to data classes and exchange rates,
 policies to tiers, classes and profiles. As in CompilerFacts.dfy, each pass is
 characterised over the resources.
 */
module CompilerReferences {
  import opened Ordering
  import opened Snapshots
  import opened Compiler
  import opened CompilerFacts
  import opened CompilerShadows

  // ---- tiers ----

  function TierCompiler(fx: map<string, real>): TierResource -> Tier {
    (t: TierResource) => CompileTier(t, if t.meta.name.Some? then t.meta.name.value else "", fx)
  }

  function TierNsOf(): TierResource -> string {
    (t: TierResource) => NsOf(t.meta)
  }

  lemma {:induction false} TasksReport(t: TierResource, tasks: seq<string>, ds: seq<Diag>)
    ensures Reports(ds, TaskChecks(t, tasks, ds), ModelTier, DiagName(t.meta),
                    exists k :: k in tasks && k in t.qualityByTask && !Unit(t.qualityByTask[k]))
  {
    hide DiagName, Reports, Unit;
    if tasks == [] {
      ReportsNothing(ds, ModelTier, DiagName(t.meta));
    } else {
      var front, k := tasks[..|tasks| - 1], tasks[|tasks| - 1];
      assert tasks == front + [k];
      TasksReport(t, front, ds);
      var c := k in t.qualityByTask && !Unit(t.qualityByTask[k]);
      var d := Diag(Error, ModelTier, DiagName(t.meta), TaskQualityOutOfRange(k));
      var mid := TaskChecks(t, front, ds);
      ReportsIf(c, mid, d);
      ReportsThen(ds, mid, PushIf(c, mid, d), ModelTier, DiagName(t.meta),
                  exists k :: k in front && k in t.qualityByTask && !Unit(t.qualityByTask[k]), c);
    }
  }

  lemma {:induction false} ReferencesReport(
    t: TierResource, names: seq<string>, classes: map<string, DataClass>, ds: seq<Diag>)
    ensures Reports(ds, ReferenceChecks(t, names, classes, ds), ModelTier, DiagName(t.meta),
                    exists n :: n in names && n !in classes)
  {
    hide DiagName, Reports;
    if names == [] {
      ReportsNothing(ds, ModelTier, DiagName(t.meta));
    } else {
      var front, k := names[..|names| - 1], names[|names| - 1];
      assert names == front + [k];
      ReferencesReport(t, front, classes, ds);
      var d := Diag(Error, ModelTier, DiagName(t.meta), UnknownDataClass(k));
      var mid := ReferenceChecks(t, front, classes, ds);
      ReportsIf(k !in classes, mid, d);
      ReportsThen(ds, mid, PushIf(k !in classes, mid, d), ModelTier, DiagName(t.meta),
                  exists n :: n in front && n !in classes,
                  k !in classes);
    }
  }

  /** One more conditional error in a chain of checks. */
  lemma ReportsMore(ds: seq<Diag>, mid: seq<Diag>, kind: Kind, name: string, bad: bool, c: bool, rule: Rule)
    requires Reports(ds, mid, kind, name, bad)
    ensures Reports(ds, PushIf(c, mid, Diag(Error, kind, name, rule)), kind, name, bad || c)
  {
    hide Reports;
    ReportsIf(c, mid, Diag(Error, kind, name, rule));
    ReportsThen(ds, mid, PushIf(c, mid, Diag(Error, kind, name, rule)), kind, name, bad, c);
  }

  lemma TierReports(t: TierResource, classes: map<string, DataClass>, fx: map<string, real>, ds: seq<Diag>)
    ensures Reports(ds, TierChecks(t, classes, fx, ds), ModelTier, DiagName(t.meta), !TierValid(t, classes.Keys, fx))
  {
    hide DiagName, Reports, PushIf, TaskChecks, ReferenceChecks, Priced, Unit, NonNegative, Trim;
    var n := DiagName(t.meta);
    var c1, c2 := Trim(t.gatewayModel) == "", t.contextWindow == 0;
    var c3, c4, c5 := !NonNegative(t.inputPerMillion), !NonNegative(t.outputPerMillion), !Unit(t.qualityBaseline);
    var d1 := PushIf(c1, ds, Diag(Error, ModelTier, n, GatewayModelEmpty));
    var d2 := PushIf(c2, d1, Diag(Error, ModelTier, n, ContextWindowEmpty));
    var d3 := PushIf(c3, d2, Diag(Error, ModelTier, n, InputPriceOutOfRange));
    var d4 := PushIf(c4, d3, Diag(Error, ModelTier, n, OutputPriceOutOfRange));
    var d5 := PushIf(c5, d4, Diag(Error, ModelTier, n, BaselineOutOfRange));
    ReportsIf(c1, ds, Diag(Error, ModelTier, n, GatewayModelEmpty));
    ReportsMore(ds, d1, ModelTier, n, c1, c2, ContextWindowEmpty);
    ReportsMore(ds, d2, ModelTier, n, c1 || c2, c3, InputPriceOutOfRange);
    ReportsMore(ds, d3, ModelTier, n, c1 || c2 || c3, c4, OutputPriceOutOfRange);
    ReportsMore(ds, d4, ModelTier, n, c1 || c2 || c3 || c4, c5, BaselineOutOfRange);
    AscendingSound(t.qualityByTask.Keys);
    var tasks := Ascending(t.qualityByTask.Keys);
    var d6 := TaskChecks(t, tasks, d5);
    var c6 := exists k :: k in tasks && k in t.qualityByTask && !Unit(t.qualityByTask[k]);
    TasksReport(t, tasks, d5);
    var b5 := c1 || c2 || c3 || c4 || c5;
    ReportsThen(ds, d5, d6, ModelTier, n, b5, c6);
    var c7 := !Unit(t.maxRiskScore);
    var d7 := PushIf(c7, d6, Diag(Error, ModelTier, n, MaxRiskOutOfRange));
    ReportsMore(ds, d6, ModelTier, n, b5 || c6, c7, MaxRiskOutOfRange);
    var d8 := ReferenceChecks(t, t.allowedDataClasses, classes, d7);
    var c8 := exists m :: m in t.allowedDataClasses && m !in classes;
    ReferencesReport(t, t.allowedDataClasses, classes, d7);
    ReportsThen(ds, d7, d8, ModelTier, n, b5 || c6 || c7, c8);
    ReportsMore(ds, d8, ModelTier, n, b5 || c6 || c7 || c8, !Priced(t, fx), NoConversionRate);
  }

  lemma {:induction false} ClaimWarningsReport(
    t: Tier, n: string, names: seq<string>, classes: map<string, DataClass>, ds: seq<Diag>)
    ensures Reports(ds, ClaimWarnings(t, n, names, classes, ds), ModelTier, n, false)
  {
    hide Reports, ClassClash;
    ReportsNothing(ds, ModelTier, n);
    if names != [] {
      var front, k := names[..|names| - 1], names[|names| - 1];
      ClaimWarningsReport(t, n, front, classes, ds);
      if k in classes && ClassClash(t, classes[k]).Some? {
        var d := Diag(Warning, ModelTier, n, ClaimViolated(k, ClassClash(t, classes[k]).value));
        ReportsOne(ClaimWarnings(t, n, front, classes, ds), d);
        ReportsThen(ds, ClaimWarnings(t, n, front, classes, ds), ClaimWarnings(t, n, names, classes, ds), ModelTier, n,
                    false, false);
      }
    }
  }

  lemma AddTierReports(st: TierState, t: TierResource, classes: map<string, DataClass>, fx: map<string, real>)
    ensures Reports(st.diags, AddTier(st, t, classes, fx).diags, ModelTier, DiagName(t.meta),
                    t.meta.name.None? || t.meta.name.value in st.tiers || !TierValid(t, classes.Keys, fx))
  {
    hide DiagName, Reports, TierChecks, TierValid, CompileTier, ClaimWarnings;
    var n := DiagName(t.meta);
    ReportsOne(st.diags, Diag(Error, ModelTier, n, MissingName));
    ReportsOne(st.diags, Diag(Error, ModelTier, n, DuplicateName));
    TierReports(t, classes, fx, st.diags);
    if t.meta.name.Some? && t.meta.name.value !in st.tiers && TierValid(t, classes.Keys, fx) {
      var compiled := CompileTier(t, t.meta.name.value, fx);
      var checked := TierChecks(t, classes, fx, st.diags);
      ClaimWarningsReport(compiled, n, Ascending(compiled.allowedDataClasses), classes, checked);
      ReportsThen(st.diags, checked, AddTier(st, t, classes, fx).diags, ModelTier, n, false, false);
    }
  }

  lemma AddedTier(st: TierState, t: TierResource, classes: map<string, DataClass>, fx: map<string, real>)
    requires t.meta.name.Some? && t.meta.name.value !in st.tiers && TierValid(t, classes.Keys, fx)
    ensures AddTier(st, t, classes, fx).tiers == st.tiers[t.meta.name.value := TierCompiler(fx)(t)]
    ensures AddTier(st, t, classes, fx).tierNs == st.tierNs[t.meta.name.value := TierNsOf()(t)]
  {
    hide CompileTier, TierValid, TierChecks;
  }

  ghost predicate TiersWF(ts: seq<TierResource>, classNames: set<string>, fx: map<string, real>) {
    NamedApart(TierName, ts) && forall t | t in ts :: TierValid(t, classNames, fx)
  }

  ghost predicate TierPassOk(
    ts: seq<TierResource>, classes: map<string, DataClass>, fx: map<string, real>, ds: seq<Diag>, st: TierState
  ) {
    && (HasErrors(st.diags) <==> HasErrors(ds) || !TiersWF(ts, classes.Keys, fx))
    && (TiersWF(ts, classes.Keys, fx) ==>
          Holds(st.tiers, TierName, TierCompiler(fx), ts) && Holds(st.tierNs, TierName, TierNsOf(), ts))
  }

  lemma TiersWFSnoc(front: seq<TierResource>, t: TierResource, classNames: set<string>, fx: map<string, real>)
    ensures TiersWF(front + [t], classNames, fx) <==>
      && TiersWF(front, classNames, fx) && t.meta.name.Some? && !Taken(TierName, front, t.meta.name)
      && TierValid(t, classNames, fx)
  {
    hide NamedApart, TierValid, Taken;
    NamedApartSnoc(TierName, front, t);
    assert forall q :: q in front + [t] <==> q in front || q == t;
  }

  lemma {:induction false} TierPassSound(
    ts: seq<TierResource>, classes: map<string, DataClass>, fx: map<string, real>, ds: seq<Diag>)
    ensures TierPassOk(ts, classes, fx, ds, TierPass(ts, classes, fx, ds))
  {
    hide DiagName, TierValid, HasErrors, AddTier, Holds, Reports, NamedApart, Taken, TiersWF;
    if ts == [] {
      NoTiersWF(classes.Keys, fx);
      assert Holds(map[], TierName, TierCompiler(fx), ts) && Holds(map[], TierName, TierNsOf(), ts) by {
        EmptyTiers(fx);
      }
    } else {
      var front, t := ts[..|ts| - 1], ts[|ts| - 1];
      assert ts == front + [t];
      TierPassSound(front, classes, fx, ds);
      var st := TierPass(front, classes, fx, ds);
      AddTierReports(st, t, classes, fx);
      ReportsErrors(st.diags, TierPass(ts, classes, fx, ds).diags, ModelTier, DiagName(t.meta),
                    t.meta.name.None? || t.meta.name.value in st.tiers || !TierValid(t, classes.Keys, fx));
      TiersWFSnoc(front, t, classes.Keys, fx);
      if TiersWF(front, classes.Keys, fx) && t.meta.name.Some? {
        HoldsTaken(st.tiers, TierName, TierCompiler(fx), front, t.meta.name.value);
        if !Taken(TierName, front, t.meta.name) && TierValid(t, classes.Keys, fx) {
          HoldsSnoc(st.tiers, TierName, TierCompiler(fx), front, t);
          HoldsSnoc(st.tierNs, TierName, TierNsOf(), front, t);
          AddedTier(st, t, classes, fx);
        }
      }
    }
  }

  lemma NoTiersWF(classNames: set<string>, fx: map<string, real>)
    ensures TiersWF([], classNames, fx)
  {}

  lemma EmptyTiers(fx: map<string, real>)
    ensures Holds(map[], TierName, TierCompiler(fx), [])
    ensures Holds(map[], TierName, TierNsOf(), [])
  {}

  // ---- policies ----

  lemma {:induction false} IncludesReport(p: PolicyResource, names: seq<string>, ctx: Context, ds: seq<Diag>)
    ensures Reports(ds, IncludeChecks(p, names, ctx, ds), RoutingPolicy, DiagName(p.meta),
                    exists n :: n in names && !InNs(ctx, n, NsOf(p.meta)))
  {
    hide DiagName, Reports, InNs;
    if names == [] {
      ReportsNothing(ds, RoutingPolicy, DiagName(p.meta));
    } else {
      var front, k := names[..|names| - 1], names[|names| - 1];
      assert names == front + [k];
      IncludesReport(p, front, ctx, ds);
      ReportsMore(ds, IncludeChecks(p, front, ctx, ds), RoutingPolicy, DiagName(p.meta),
                  exists n :: n in front && !InNs(ctx, n, NsOf(p.meta)),
                  !InNs(ctx, k, NsOf(p.meta)), UnknownInclude(k));
    }
  }

  lemma ReportsWarning(ds: seq<Diag>, mid: seq<Diag>, kind: Kind, name: string, bad: bool, c: bool, rule: Rule)
    requires Reports(ds, mid, kind, name, bad)
    ensures Reports(ds, PushIf(c, mid, Diag(Warning, kind, name, rule)), kind, name, bad)
  {
    hide Reports;
    ReportsIf(c, mid, Diag(Warning, kind, name, rule));
    ReportsThen(ds, mid, PushIf(c, mid, Diag(Warning, kind, name, rule)), kind, name, bad, false);
  }

  lemma {:induction false} ExcludesReport(p: PolicyResource, names: seq<string>, ctx: Context, ds: seq<Diag>)
    ensures Reports(ds, ExcludeWarnings(p, names, ctx, ds), RoutingPolicy, DiagName(p.meta), false)
  {
    hide DiagName, Reports, InNs;
    ReportsNothing(ds, RoutingPolicy, DiagName(p.meta));
    if names != [] {
      var front, k := names[..|names| - 1], names[|names| - 1];
      ExcludesReport(p, front, ctx, ds);
      ReportsWarning(ds, ExcludeWarnings(p, front, ctx, ds), RoutingPolicy, DiagName(p.meta), false,
                     !InNs(ctx, k, NsOf(p.meta)), UnknownExclude(k));
    }
  }

  lemma {:induction false} FallbackWarningsReport(
    p: PolicyResource, t: Tier, name: string, classNames: seq<string>, ctx: Context, ds: seq<Diag>)
    ensures Reports(ds, FallbackWarnings(p, t, name, classNames, ctx, ds), RoutingPolicy, DiagName(p.meta), false)
  {
    hide DiagName, Reports, ClassClash;
    ReportsNothing(ds, RoutingPolicy, DiagName(p.meta));
    if classNames != [] {
      var front, k := classNames[..|classNames| - 1], classNames[|classNames| - 1];
      FallbackWarningsReport(p, t, name, front, ctx, ds);
      var mid := FallbackWarnings(p, t, name, front, ctx, ds);
      if k in ctx.classes && ClassClash(t, ctx.classes[k]).Some? {
        var rule := FallbackCannotServe(name, ctx.classes[k].name, ClassClash(t, ctx.classes[k]).value);
        ReportsWarning(ds, mid, RoutingPolicy, DiagName(p.meta), false, true, rule);
      }
    }
  }

  predicate CandidatesOk(p: PolicyResource, ctx: Context) {
    (forall n | n in p.include_ :: InNs(ctx, n, NsOf(p.meta))) && CandidateSet(p, ctx) != {}
  }

  lemma CandidatesReport(p: PolicyResource, ctx: Context, ds: seq<Diag>)
    ensures Reports(ds, CandidateChecks(p, ctx, ds), RoutingPolicy, DiagName(p.meta), !CandidatesOk(p, ctx))
  {
    hide DiagName, Reports, PushIf, IncludeChecks, ExcludeWarnings, CandidateSet, SelectedTiers, InNs;
    var n := DiagName(p.meta);
    var c := p.matchLabels != map[] && p.include_ == [] && SelectedTiers(p, ctx) == {};
    var d1 := PushIf(c, ds, Diag(Warning, RoutingPolicy, n, SelectorMatchesNothing));
    ReportsIf(c, ds, Diag(Warning, RoutingPolicy, n, SelectorMatchesNothing));
    var d2 := IncludeChecks(p, p.include_, ctx, d1);
    var bad := exists m :: m in p.include_ && !InNs(ctx, m, NsOf(p.meta));
    IncludesReport(p, p.include_, ctx, d1);
    ReportsThen(ds, d1, d2, RoutingPolicy, n, false, bad);
    var d3 := ExcludeWarnings(p, p.exclude, ctx, d2);
    ExcludesReport(p, p.exclude, ctx, d2);
    ReportsThen(ds, d2, d3, RoutingPolicy, n, bad, false);
    ReportsMore(ds, d3, RoutingPolicy, n, bad, CandidateSet(p, ctx) == {}, NoCandidates);
  }

  predicate RangesOk(p: PolicyResource) {
    && (p.maxCostEur.Some? ==> NonNegative(p.maxCostEur.value))
    && (p.denyIfRiskAbove.Some? ==> Unit(p.denyIfRiskAbove.value))
    && (p.qualityFloor.Some? ==> Unit(p.qualityFloor.value))
    && WeightsOk(p.weights)
  }

  lemma RangesReport(p: PolicyResource, ds: seq<Diag>)
    ensures Reports(ds, RangeChecks(p, ds), RoutingPolicy, DiagName(p.meta), !RangesOk(p))
  {
    hide DiagName, Reports, PushIf, Unit, NonNegative, WeightsOk;
    var n := DiagName(p.meta);
    var c1 := p.maxCostEur.Some? && !NonNegative(p.maxCostEur.value);
    var c2 := p.denyIfRiskAbove.Some? && !Unit(p.denyIfRiskAbove.value);
    var c3 := p.qualityFloor.Some? && !Unit(p.qualityFloor.value);
    var d1 := PushIf(c1, ds, Diag(Error, RoutingPolicy, n, MaxCostOutOfRange));
    ReportsIf(c1, ds, Diag(Error, RoutingPolicy, n, MaxCostOutOfRange));
    var d2 := PushIf(c2, d1, Diag(Error, RoutingPolicy, n, DenyThresholdOutOfRange));
    ReportsMore(ds, d1, RoutingPolicy, n, c1, c2, DenyThresholdOutOfRange);
    var d3 := PushIf(c3, d2, Diag(Error, RoutingPolicy, n, FloorOutOfRange));
    ReportsMore(ds, d2, RoutingPolicy, n, c1 || c2, c3, FloorOutOfRange);
    ReportsMore(ds, d3, RoutingPolicy, n, c1 || c2 || c3, !WeightsOk(p.weights), WeightsOutOfRange);
  }

  predicate LearnedOk(p: PolicyResource, ctx: Context) {
    p.learnedEnabled ==>
      && p.learnedProfile.Some? && p.learnedProfile.value in ctx.profileNames
      && Unit(p.learnedMinConfidence)
  }

  lemma LearnedReport(p: PolicyResource, ctx: Context, ds: seq<Diag>)
    ensures Reports(ds, LearnedChecks(p, ctx, ds), RoutingPolicy, DiagName(p.meta), !LearnedOk(p, ctx))
  {
    hide DiagName, Reports, PushIf, Unit;
    var n := DiagName(p.meta);
    if !p.learnedEnabled {
      ReportsNothing(ds, RoutingPolicy, n);
    } else if p.learnedProfile.None? {
      ReportsOne(ds, Diag(Error, RoutingPolicy, n, ProfileRequired));
      ReportsMore(ds, ds + [Diag(Error, RoutingPolicy, n, ProfileRequired)], RoutingPolicy, n, true,
                  !Unit(p.learnedMinConfidence), LearnedConfidenceOutOfRange);
    } else {
      var c := p.learnedProfile.value !in ctx.profileNames;
      var d := Diag(Error, RoutingPolicy, n, ProfileNotFound(p.learnedProfile.value));
      ReportsIf(c, ds, d);
      ReportsMore(ds, PushIf(c, ds, d), RoutingPolicy, n, c, !Unit(p.learnedMinConfidence),
                  LearnedConfidenceOutOfRange);
    }
  }

  lemma FallbackReport(p: PolicyResource, ctx: Context, ds: seq<Diag>)
    ensures Reports(ds, FallbackChecks(p, ctx, ds), RoutingPolicy, DiagName(p.meta), !FallbackFound(p, ctx))
  {
    hide DiagName, Reports, FallbackWarnings, InNs;
    ReportsNothing(ds, RoutingPolicy, DiagName(p.meta));
    if p.fallbackTier.Some? {
      ReportsOne(ds, Diag(Error, RoutingPolicy, DiagName(p.meta), FallbackNotFound(p.fallbackTier.value)));
      if FallbackFound(p, ctx) {
        FallbackWarningsReport(p, ctx.tiers[p.fallbackTier.value], p.fallbackTier.value, Ascending(ctx.classes.Keys),
                               ctx, ds);
      }
    }
  }

  lemma PolicyReports(p: PolicyResource, ctx: Context, ds: seq<Diag>)
    ensures Reports(ds, PolicyChecks(p, ctx, ds), RoutingPolicy, DiagName(p.meta), !PolicyValid(p, ctx))
  {
    hide DiagName, Reports, CandidateChecks, RangeChecks, LearnedChecks, FallbackChecks, PushIf, FallbackFound,
      CandidateSet, InNs, Unit, NonNegative, WeightsOk;
    var n := DiagName(p.meta);
    var d1 := CandidateChecks(p, ctx, ds);
    var d2 := RangeChecks(p, d1);
    var d3 := LearnedChecks(p, ctx, d2);
    var d4 := FallbackChecks(p, ctx, d3);
    var b1, b2, b3 := !CandidatesOk(p, ctx), !RangesOk(p), !LearnedOk(p, ctx);
    CandidatesReport(p, ctx, ds);
    RangesReport(p, d1);
    LearnedReport(p, ctx, d2);
    FallbackReport(p, ctx, d3);
    ReportsThen(ds, d1, d2, RoutingPolicy, n, b1, b2);
    ReportsThen(ds, d2, d3, RoutingPolicy, n, b1 || b2, b3);
    ReportsThen(ds, d3, d4, RoutingPolicy, n, b1 || b2 || b3, !FallbackFound(p, ctx));
    ReportsWarning(ds, d4, RoutingPolicy, n, b1 || b2 || b3 || !FallbackFound(p, ctx), p.scope.modelAliases == [],
                   NoAliases);
  }

  lemma AddPolicyReports(st: PolicyState, p: PolicyResource, ctx: Context)
    ensures Reports(st.diags, AddPolicy(st, p, ctx).diags, RoutingPolicy, DiagName(p.meta),
                    p.meta.name.None? || PolicyKey(p.meta) in st.seen || !PolicyValid(p, ctx))
  {
    hide DiagName, Reports, PolicyChecks, PolicyValid, CompilePolicy, PolicyKey;
    ReportsOne(st.diags, Diag(Error, RoutingPolicy, DiagName(p.meta), MissingName));
    ReportsOne(st.diags, Diag(Error, RoutingPolicy, DiagName(p.meta), DuplicateName));
    PolicyReports(p, ctx, st.diags);
  }

  function PolicyCompiler(ctx: Context): PolicyResource -> Policy {
    (p: PolicyResource) => CompilePolicy(p, ctx)
  }

  ghost predicate PoliciesWF(ps: seq<PolicyResource>, ctx: Context) {
    NamedApart(PolicyName, ps) && forall p | p in ps :: PolicyValid(p, ctx)
  }

  ghost predicate PolicyPassOk(ps: seq<PolicyResource>, ctx: Context, ds: seq<Diag>, st: PolicyState) {
    && (HasErrors(st.diags) <==> HasErrors(ds) || !PoliciesWF(ps, ctx))
    && (PoliciesWF(ps, ctx) ==>
          && st.policies == Map(PolicyCompiler(ctx), ps)
          && (forall k :: k in st.seen <==> Taken(PolicyName, ps, Some(k))))
  }

  lemma MapSnoc<T, U>(f: T -> U, front: seq<T>, x: T)
    ensures Map(f, front + [x]) == Map(f, front) + [f(x)]
  {}

  lemma TakenSnoc<T>(name: T -> Option<string>, front: seq<T>, x: T, n: Option<string>)
    ensures Taken(name, front + [x], n) <==> Taken(name, front, n) || name(x) == n
  {
    var xs := front + [x];
    assert xs[|front|] == x;
    if Taken(name, front, n) {
      var i :| 0 <= i < |front| && name(front[i]) == n;
      assert xs[i] == front[i];
    }
    if Taken(name, xs, n) {
      var i :| 0 <= i < |xs| && name(xs[i]) == n;
      assert i < |front| ==> xs[i] == front[i];
    }
  }

  lemma AddedPolicy(st: PolicyState, p: PolicyResource, ctx: Context)
    requires p.meta.name.Some? && PolicyKey(p.meta) !in st.seen && PolicyValid(p, ctx)
    ensures AddPolicy(st, p, ctx).policies == st.policies + [PolicyCompiler(ctx)(p)]
    ensures AddPolicy(st, p, ctx).seen == st.seen + {PolicyKey(p.meta)}
  {
    hide CompilePolicy, PolicyValid, PolicyChecks, PolicyKey;
  }

  lemma PoliciesWFSnoc(front: seq<PolicyResource>, p: PolicyResource, ctx: Context)
    ensures PoliciesWF(front + [p], ctx) <==>
      && PoliciesWF(front, ctx) && p.meta.name.Some? && !Taken(PolicyName, front, PolicyName(p))
      && PolicyValid(p, ctx)
  {
    hide NamedApart, PolicyValid, Taken, PolicyKey;
    NamedApartSnoc(PolicyName, front, p);
    assert forall q :: q in front + [p] <==> q in front || q == p;
  }

  lemma {:induction false} PolicyPassSound(ps: seq<PolicyResource>, ctx: Context, ds: seq<Diag>)
    ensures PolicyPassOk(ps, ctx, ds, PolicyPass(ps, ctx, ds))
  {
    hide DiagName, PolicyValid, HasErrors, AddPolicy, PolicyKey, Taken, Reports, NamedApart, PoliciesWF;
    if ps == [] {
      NoPoliciesWF(ctx);
      assert forall k :: !Taken(PolicyName, ps, Some(k)) by { NobodyTaken(); }
    } else {
      var front, p := ps[..|ps| - 1], ps[|ps| - 1];
      assert ps == front + [p];
      PolicyPassSound(front, ctx, ds);
      var st := PolicyPass(front, ctx, ds);
      AddPolicyReports(st, p, ctx);
      ReportsErrors(st.diags, PolicyPass(ps, ctx, ds).diags, RoutingPolicy, DiagName(p.meta),
                    p.meta.name.None? || PolicyKey(p.meta) in st.seen || !PolicyValid(p, ctx));
      PoliciesWFSnoc(front, p, ctx);
      if PoliciesWF(front, ctx) && p.meta.name.Some? && PolicyKey(p.meta) !in st.seen && PolicyValid(p, ctx) {
        AddedPolicy(st, p, ctx);
        MapSnoc(PolicyCompiler(ctx), front, p);
        forall k ensures k in PolicyPass(ps, ctx, ds).seen <==> Taken(PolicyName, ps, Some(k)) {
          TakenSnoc(PolicyName, front, p, Some(k));
        }
      }
    }
  }

  lemma NoPoliciesWF(ctx: Context)
    ensures PoliciesWF([], ctx)
  {}

  lemma NobodyTaken()
    ensures forall k :: !Taken(PolicyName, [], Some(k))
  {}

  // ---- shadow warnings ----

  lemma ShadowingOnlyWarns(ps: seq<Policy>, ds: seq<Diag>)
    ensures HasErrors(ShadowWarnings(ps, ds)) <==> HasErrors(ds)
    ensures |ds| <= |ShadowWarnings(ps, ds)| && ShadowWarnings(ps, ds)[..|ds|] == ds
  {
    hide WarnGroups, GroupsOf;
    GroupsWarned(GroupsOf(ps), ds);
    var after := ShadowWarnings(ps, ds);
    assert forall i :: 0 <= i < |ds| ==> after[i] == ds[i];
    assert forall i :: |ds| <= i < |after| ==> after[i].level != Error;
  }

  // ---- the compiler ----

  /** Every object is valid on its own and all references resolve. */
  ghost predicate WellFormed(input: CompileInput, ctx: Context) {
    && RatesConsistent(input.profiles)
    && ProfilesWF(input.profiles)
    && ClassesWF(input.dataClasses)
    && TiersWF(input.tiers, ctx.classes.Keys, ctx.fx)
    && PoliciesWF(input.policies, ctx)
  }

  /** The context quotes the declared rates and holds exactly the compiled profiles, classes and tiers of the input. */
  ghost predicate Represents(ctx: Context, profiles: map<string, Profile>, input: CompileInput) {
    && Quotes(ctx.fx, input.profiles)
    && Holds(profiles, ProfileName, ProfileCompiler(), input.profiles)
    && ctx.profileNames == profiles.Keys
    && Holds(ctx.classes, ClassName, ClassCompiler(), input.dataClasses)
    && Holds(ctx.tiers, TierName, TierCompiler(ctx.fx), input.tiers)
    && Holds(ctx.tierNs, TierName, TierNsOf(), input.tiers)
  }

  /** The snapshot holds exactly the compiled objects, the policies in evaluation order. */
  ghost predicate Realises(core: Core, ctx: Context, input: CompileInput) {
    && Represents(ctx, core.profiles, input)
    && core.tiers == ctx.tiers
    && core.dataClasses == ctx.classes
    && core.policies == SortBy(PolicyLe, Map(PolicyCompiler(ctx), input.policies))
  }

  /**
   Compilation succeeds if and only if the input is well formed, and then the snapshot is exactly what the
   input declares.
   */
  lemma CompileIsExact(input: CompileInput)
    ensures Compile(input).core.Some? <==> WellFormed(input, ContextOf(input))
    ensures Compile(input).core.Some? <==> !HasErrors(Compile(input).report)
    ensures Compile(input).core.Some? ==> Realises(Compile(input).core.value, ContextOf(input), input)
  {
    hide HasErrors, FxPass, ProfilePass, ClassPass, TierPass, PolicyPass, ShadowWarnings, RatesConsistent, Quotes,
      ProfilesWF, ClassesWF, TiersWF, PoliciesWF, Holds, SortBy;
    var fx := FxPass(input.profiles);
    FxPassSound(input.profiles);
    ProfilePassSound(input.profiles, fx.diags);
    var profiles := ProfilePass(input.profiles, fx.diags);
    ClassPassSound(input.dataClasses, profiles.diags);
    var classes := ClassPass(input.dataClasses, profiles.diags);
    TierPassSound(input.tiers, classes.classes, fx.fx, classes.diags);
    var tiers := TierPass(input.tiers, classes.classes, fx.fx, classes.diags);
    PolicyPassSound(input.policies, ContextOf(input), tiers.diags);
    var policies := PolicyPass(input.policies, ContextOf(input), tiers.diags);
    ShadowingOnlyWarns(SortBy(PolicyLe, policies.policies), policies.diags);
  }
}
