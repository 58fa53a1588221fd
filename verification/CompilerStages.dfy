/**
 The report grows pass by pass: each pass extends what it is given with
 diagnostics of its own kind of object, and all of it reaches the final report.
 Hence an error always names one of the objects that were compiled, and what an
 early pass reports is not taken back by a later one. The stages are those of
 Compiler.dfy, in its order.
 */
module CompilerStages {
  import opened Ordering
  import opened Snapshots
  import opened Compiler
  import opened CompilerFacts
  import opened CompilerReferences
  import opened CompilerShadows
  import opened CompilerOrder

  function TierKey(t: TierResource): string { DiagName(t.meta) }
  function ClassKey(c: ClassResource): string { DiagName(c.meta) }
  function PolicyDiagKey(p: PolicyResource): string { DiagName(p.meta) }
  function ProfileKey(p: ProfileResource): string { DiagName(p.meta) }

  /** `b` is `a` followed by diagnostics about objects of one kind with the given names. */
  ghost predicate GrowsBy(a: seq<Diag>, b: seq<Diag>, kind: Kind, names: seq<string>) {
    a <= b && forall i :: |a| <= i < |b| ==> b[i].kind == kind && b[i].name in names
  }

  lemma ReportsGrow(a: seq<Diag>, b: seq<Diag>, kind: Kind, name: string, bad: bool)
    ensures Reports(a, b, kind, name, bad) ==> GrowsBy(a, b, kind, [name])
  {}

  lemma GrowsTrans(a: seq<Diag>, b: seq<Diag>, c: seq<Diag>, kind: Kind, m: seq<string>, n: seq<string>)
    ensures GrowsBy(a, b, kind, m) && GrowsBy(b, c, kind, n) ==> GrowsBy(a, c, kind, m + n)
  {}

  lemma GrowsByNothing(a: seq<Diag>, kind: Kind)
    ensures GrowsBy(a, a, kind, [])
  {}

  lemma {:induction false} FxGrows(front: seq<ProfileResource>, p: ProfileResource)
    ensures GrowsBy(FxPass(front).diags, FxPass(front + [p]).diags, RouterProfile, [ProfileKey(p)])
  {
    hide AddRates, Reports, GrowsBy;
    FxPassSnoc(front, p);
    RatesReport(FxPass(front), p, Ascending(p.fxToEur.Keys));
    ReportsGrow(FxPass(front).diags, FxPass(front + [p]).diags, RouterProfile, DiagName(p.meta),
                !RatesFit(FxPass(front).fx, p, Ascending(p.fxToEur.Keys)));
  }

  lemma {:induction false} ProfilesGrow(ps: seq<ProfileResource>, ds: seq<Diag>)
    ensures GrowsBy(ds, ProfilePass(ps, ds).diags, RouterProfile, Map(ProfileKey, ps))
  {
    hide AddProfile, Reports, GrowsBy;
    GrowsByNothing(ds, RouterProfile);
    if ps != [] {
      var front, p := ps[..|ps| - 1], ps[|ps| - 1];
      ProfilesGrow(front, ds);
      var st := ProfilePass(front, ds);
      AddProfileReports(st, p);
      ReportsGrow(st.diags, AddProfile(st, p).diags, RouterProfile, DiagName(p.meta),
                  p.meta.name.None? || p.meta.name.value in st.profiles || !ProfileValid(p));
      MapSnoc(ProfileKey, front, p);
      assert ps == front + [p];
      GrowsTrans(ds, st.diags, AddProfile(st, p).diags, RouterProfile, Map(ProfileKey, front), [ProfileKey(p)]);
    }
  }

  lemma {:induction false} ClassesGrow(cs: seq<ClassResource>, ds: seq<Diag>)
    ensures GrowsBy(ds, ClassPass(cs, ds).diags, DataClassKind, Map(ClassKey, cs))
  {
    hide AddClass, Reports, GrowsBy;
    GrowsByNothing(ds, DataClassKind);
    if cs != [] {
      var front, c := cs[..|cs| - 1], cs[|cs| - 1];
      ClassesGrow(front, ds);
      var st := ClassPass(front, ds);
      AddClassReports(st, c);
      ReportsGrow(st.diags, AddClass(st, c).diags, DataClassKind, DiagName(c.meta),
                  !NewClass(st, c) || !Unit(c.minConfidence)
                  || ForeignClaim(st.owners, c.meta.name.value, ClaimList(c, c.meta.name.value)));
      MapSnoc(ClassKey, front, c);
      assert cs == front + [c];
      GrowsTrans(ds, st.diags, AddClass(st, c).diags, DataClassKind, Map(ClassKey, front), [ClassKey(c)]);
    }
  }

  lemma {:induction false} TiersGrow(
    ts: seq<TierResource>, classes: map<string, DataClass>, fx: map<string, real>, ds: seq<Diag>)
    ensures GrowsBy(ds, TierPass(ts, classes, fx, ds).diags, ModelTier, Map(TierKey, ts))
  {
    hide AddTier, Reports, TierValid, GrowsBy;
    GrowsByNothing(ds, ModelTier);
    if ts != [] {
      var front, t := ts[..|ts| - 1], ts[|ts| - 1];
      TiersGrow(front, classes, fx, ds);
      var st := TierPass(front, classes, fx, ds);
      AddTierReports(st, t, classes, fx);
      ReportsGrow(st.diags, AddTier(st, t, classes, fx).diags, ModelTier, DiagName(t.meta),
                  t.meta.name.None? || t.meta.name.value in st.tiers || !TierValid(t, classes.Keys, fx));
      MapSnoc(TierKey, front, t);
      assert ts == front + [t];
      GrowsTrans(ds, st.diags, AddTier(st, t, classes, fx).diags, ModelTier, Map(TierKey, front), [TierKey(t)]);
    }
  }

  lemma {:induction false} PoliciesGrow(ps: seq<PolicyResource>, ctx: Context, ds: seq<Diag>)
    ensures GrowsBy(ds, PolicyPass(ps, ctx, ds).diags, RoutingPolicy, Map(PolicyDiagKey, ps))
  {
    hide AddPolicy, Reports, PolicyValid, GrowsBy;
    GrowsByNothing(ds, RoutingPolicy);
    if ps != [] {
      var front, p := ps[..|ps| - 1], ps[|ps| - 1];
      PoliciesGrow(front, ctx, ds);
      var st := PolicyPass(front, ctx, ds);
      AddPolicyReports(st, p, ctx);
      ReportsGrow(st.diags, AddPolicy(st, p, ctx).diags, RoutingPolicy, DiagName(p.meta),
                  p.meta.name.None? || PolicyKey(p.meta) in st.seen || !PolicyValid(p, ctx));
      MapSnoc(PolicyDiagKey, front, p);
      assert ps == front + [p];
      GrowsTrans(ds, st.diags, AddPolicy(st, p, ctx).diags, RoutingPolicy, Map(PolicyDiagKey, front),
                 [PolicyDiagKey(p)]);
    }
  }

  /** The report of each pass, in order; the later ones extend the earlier ones. */
  datatype Stages = Stages(fx: seq<Diag>, profiles: seq<Diag>, classes: seq<Diag>, tiers: seq<Diag>,
                           policies: seq<Diag>)

  function StagesOf(input: CompileInput): Stages {
    var fx := FxPass(input.profiles);
    var profiles := ProfilePass(input.profiles, fx.diags);
    var classes := ClassPass(input.dataClasses, profiles.diags);
    var tiers := TierPass(input.tiers, classes.classes, fx.fx, classes.diags);
    Stages(fx.diags, profiles.diags, classes.diags, tiers.diags,
           PolicyPass(input.policies, ContextOf(input), tiers.diags).diags)
  }

  lemma StagesReachReport(input: CompileInput)
    ensures var s := StagesOf(input); var report := Compile(input).report;
      s.fx <= report && s.profiles <= report && s.classes <= report && s.tiers <= report && s.policies <= report
    ensures HasErrors(Compile(input).report) <==> HasErrors(StagesOf(input).policies)
  {
    hide FxPass, ProfilePass, ClassPass, TierPass, PolicyPass, ShadowWarnings, HasErrors, SortBy;
    var fx := FxPass(input.profiles);
    var profiles := ProfilePass(input.profiles, fx.diags);
    var classes := ClassPass(input.dataClasses, profiles.diags);
    var tiers := TierPass(input.tiers, classes.classes, fx.fx, classes.diags);
    var policies := PolicyPass(input.policies, ContextOf(input), tiers.diags);
    ProfilesGrow(input.profiles, fx.diags);
    ClassesGrow(input.dataClasses, profiles.diags);
    TiersGrow(input.tiers, classes.classes, fx.fx, classes.diags);
    PoliciesGrow(input.policies, ContextOf(input), tiers.diags);
    ShadowingOnlyWarns(SortBy(PolicyLe, policies.policies), policies.diags);
  }

  // ---- whose diagnostics ----

  lemma {:induction false} FxGrowsAll(ps: seq<ProfileResource>)
    ensures GrowsBy([], FxPass(ps).diags, RouterProfile, Map(ProfileKey, ps))
  {
    hide AddRates, GrowsBy;
    GrowsByNothing([], RouterProfile);
    if ps != [] {
      var front, p := ps[..|ps| - 1], ps[|ps| - 1];
      assert ps == front + [p];
      FxGrowsAll(front);
      FxGrows(front, p);
      MapSnoc(ProfileKey, front, p);
      GrowsTrans([], FxPass(front).diags, FxPass(ps).diags, RouterProfile, Map(ProfileKey, front), [ProfileKey(p)]);
    }
  }

  /** The names of the objects of one kind. */
  function NamesOf(input: CompileInput, kind: Kind): seq<string> {
    match kind
    case ModelTier => Map(TierKey, input.tiers)
    case DataClassKind => Map(ClassKey, input.dataClasses)
    case RoutingPolicy => Map(PolicyDiagKey, input.policies)
    case RouterProfile => Map(ProfileKey, input.profiles)
  }

  /** Every diagnostic up to the policy pass names an object of its kind. */
  lemma DiagsNameObjects(input: CompileInput)
    ensures forall d | d in StagesOf(input).tiers :: d.kind != RoutingPolicy
    ensures forall d | d in StagesOf(input).policies :: d.name in NamesOf(input, d.kind)
  {
    hide FxPass, ProfilePass, ClassPass, TierPass, PolicyPass;
    var fx := FxPass(input.profiles);
    var profiles := ProfilePass(input.profiles, fx.diags);
    var classes := ClassPass(input.dataClasses, profiles.diags);
    var tiers := TierPass(input.tiers, classes.classes, fx.fx, classes.diags);
    FxGrowsAll(input.profiles);
    ProfilesGrow(input.profiles, fx.diags);
    ClassesGrow(input.dataClasses, profiles.diags);
    TiersGrow(input.tiers, classes.classes, fx.fx, classes.diags);
    PoliciesGrow(input.policies, ContextOf(input), tiers.diags);
    GrownFrom([], fx.diags, RouterProfile, Map(ProfileKey, input.profiles));
    GrownFrom(fx.diags, profiles.diags, RouterProfile, Map(ProfileKey, input.profiles));
    GrownFrom(profiles.diags, classes.diags, DataClassKind, Map(ClassKey, input.dataClasses));
    GrownFrom(classes.diags, tiers.diags, ModelTier, Map(TierKey, input.tiers));
    GrownFrom(tiers.diags, StagesOf(input).policies, RoutingPolicy, Map(PolicyDiagKey, input.policies));
  }

  lemma GrownFrom(a: seq<Diag>, b: seq<Diag>, kind: Kind, names: seq<string>)
    ensures GrowsBy(a, b, kind, names) ==> (forall d | d in b :: d in a || (d.kind == kind && d.name in names))
  {}

  /** Every error of a compilation is about one of the objects it was given. */
  lemma ErrorsNameObjects(input: CompileInput)
    ensures forall d | d in Compile(input).report && d.level == Error :: d.name in NamesOf(input, d.kind)
  {
    hide FxPass, ProfilePass, ClassPass, TierPass, PolicyPass, NamesOf, ShadowWarnings, SortBy;
    DiagsNameObjects(input);
    var policies := PolicyPass(input.policies, ContextOf(input), StagesOf(input).tiers);
    ShadowsAddNoErrors(SortBy(PolicyLe, policies.policies), policies.diags);
  }

  lemma ShadowsAddNoErrors(ps: seq<Policy>, ds: seq<Diag>)
    ensures forall d | d in ShadowWarnings(ps, ds) && d.level == Error :: d in ds
  {
    hide WarnGroups, GroupsOf;
    GroupsWarned(GroupsOf(ps), ds);
    forall d | d in ShadowWarnings(ps, ds) && d.level == Error ensures d in ds {
      var i :| 0 <= i < |ShadowWarnings(ps, ds)| && ShadowWarnings(ps, ds)[i] == d;
      assert i < |ds| && ds[i] == d;
    }
  }
}
