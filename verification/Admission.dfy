/**
 The admission webhook (cmd/routed-operator/src/webhook.rs): put the incoming object
 in the listed input, compile, and deny on errors that name it.
 */
module Admission {
  import opened Ordering
  import opened Snapshots
  import opened Compiler
  import opened CompilerFacts
  import opened CompilerReferences
  import opened CompilerStages
  import opened CompilerOrder
  import opened CompilerContexts

  datatype Incoming =
    | IncomingTier(tier: TierResource)
    | IncomingClass(class_: ClassResource)
    | IncomingPolicy(policy: PolicyResource)
    | IncomingProfile(profile: ProfileResource)

  function KindOf(o: Incoming): Kind {
    match o
    case IncomingTier(_) => ModelTier
    case IncomingClass(_) => DataClassKind
    case IncomingPolicy(_) => RoutingPolicy
    case IncomingProfile(_) => RouterProfile
  }

  function MetaOf(o: Incoming): Meta {
    match o
    case IncomingTier(t) => t.meta
    case IncomingClass(c) => c.meta
    case IncomingPolicy(p) => p.meta
    case IncomingProfile(p) => p.meta
  }

  function KeyOf(o: Incoming): string {
    DiagName(MetaOf(o))
  }

  /** Replaces the first object with the same key, or appends. */
  function Put<T>(key: T -> string, xs: seq<T>, x: T): seq<T> {
    if xs == [] then [x]
    else if key(xs[0]) == key(x) then [x] + xs[1..]
    else [xs[0]] + Put(key, xs[1..], x)
  }

  function Substitute(input: CompileInput, o: Incoming): CompileInput {
    match o
    case IncomingTier(t) => input.(tiers := Put(TierKey, input.tiers, t))
    case IncomingClass(c) => input.(dataClasses := Put(ClassKey, input.dataClasses, c))
    case IncomingPolicy(p) => input.(policies := Put(PolicyDiagKey, input.policies, p))
    case IncomingProfile(p) => input.(profiles := Put(ProfileKey, input.profiles, p))
  }

  /** The list with the object in its place, updated in place. */
  method PutInPlace<T>(key: T -> string, xs: seq<T>, x: T) returns (r: seq<T>)
    ensures r == Put(key, xs, x)
    ensures |r| == |xs| || |r| == |xs| + 1
  {
    r := xs;
    var i := 0;
    while i < |r| && key(r[i]) != key(x)
      invariant 0 <= i <= |xs| && r == xs
      invariant Put(key, xs, x) == xs[..i] + Put(key, xs[i..], x)
    {
      assert xs[..i + 1] + Put(key, xs[i + 1..], x) == xs[..i] + ([xs[i]] + Put(key, xs[i + 1..], x));
      assert xs[i..][1..] == xs[i + 1..];
      i := i + 1;
    }
    if i < |r| {
      r := r[i := x];
      assert xs[i..][1..] == xs[i + 1..];
      assert r == xs[..i] + ([x] + xs[i + 1..]);
    } else {
      r := r + [x];
      assert xs[..i] == xs && xs[i..] == [];
    }
  }

  /** The error diagnostics that name the object; the webhook denies when there is one. */
  predicate Denies(report: seq<Diag>, kind: Kind, key: string) {
    exists d | d in report :: d.level == Error && d.kind == kind && d.name == key
  }

  predicate Admits(input: CompileInput, o: Incoming) {
    !Denies(Compile(Substitute(input, o)).report, KindOf(o), KeyOf(o))
  }

  /** No listed object of the same kind has the incoming object's key. */
  ghost predicate IsNew(input: CompileInput, o: Incoming) {
    match o
    case IncomingTier(t) => forall x | x in input.tiers :: TierKey(x) != TierKey(t)
    case IncomingClass(c) => forall x | x in input.dataClasses :: ClassKey(x) != ClassKey(c)
    case IncomingPolicy(p) => forall x | x in input.policies :: PolicyDiagKey(x) != PolicyDiagKey(p)
    case IncomingProfile(p) => forall x | x in input.profiles :: ProfileKey(x) != ProfileKey(p)
  }

  lemma {:induction false} NewIsAppended<T>(key: T -> string, xs: seq<T>, x: T)
    requires forall i :: 0 <= i < |xs| ==> key(xs[i]) != key(x)
    ensures Put(key, xs, x) == xs + [x]
  {
    if xs != [] {
      NewIsAppended(key, xs[1..], x);
      assert xs + [x] == [xs[0]] + (xs[1..] + [x]);
    }
  }

  /** An error about the object reaches the report and denies it. */
  lemma BadDenies(before: seq<Diag>, after: seq<Diag>, report: seq<Diag>, kind: Kind, name: string, bad: bool)
    requires Reports(before, after, kind, name, bad) && after <= report
    ensures bad ==> Denies(report, kind, name)
  {
    var added: seq<Diag> :| after == before + added && About(added, kind, name, bad);
    if bad {
      var i :| 0 <= i < |added| && added[i].level == Error;
      assert after[|before| + i] == added[i] && report[|before| + i] == added[i];
      assert added[i] in report;
    }
  }

  /** If the last object's diagnostics contain an error, the report denies it. */
  lemma ErrorDenies(before: seq<Diag>, after: seq<Diag>, report: seq<Diag>, kind: Kind, name: string, bad: bool)
    requires Reports(before, after, kind, name, bad) && after <= report && !HasErrors(before)
    ensures bad ==> Denies(report, kind, name)
    ensures HasErrors(after) <==> bad
  {
    hide HasErrors, Denies;
    ReportsErrors(before, after, kind, name, bad);
    BadDenies(before, after, report, kind, name, bad);
  }

  // ---- creating a policy ----

  lemma CreatePolicy(input: CompileInput, p: PolicyResource)
    requires Compile(input).core.Some?
    requires !Denies(Compile(input.(policies := input.policies + [p])).report, RoutingPolicy, DiagName(p.meta))
    ensures Compile(input.(policies := input.policies + [p])).core.Some?
  {
    hide Compile, AddPolicy, PolicyPass, PolicyValid, Denies, FxPass, ProfilePass, ClassPass, TierPass, HasErrors,
      Reports;
    var input' := input.(policies := input.policies + [p]);
    CompileIsExact(input);
    CompileIsExact(input');
    StagesReachReport(input);
    StagesReachReport(input');
    assert input'.policies[..|input.policies|] == input.policies;
    var st := PolicyPass(input.policies, ContextOf(input), StagesOf(input).tiers);
    PolicyPassSnoc(input.policies, p, ContextOf(input), StagesOf(input).tiers);
    AddPolicyReports(st, p, ContextOf(input));
    ErrorDenies(st.diags, StagesOf(input').policies, Compile(input').report, RoutingPolicy, DiagName(p.meta),
                p.meta.name.None? || PolicyKey(p.meta) in st.seen || !PolicyValid(p, ContextOf(input)));
  }

  lemma PolicyPassSnoc(front: seq<PolicyResource>, p: PolicyResource, ctx: Context, ds: seq<Diag>)
    ensures PolicyPass(front + [p], ctx, ds) == AddPolicy(PolicyPass(front, ctx, ds), p, ctx)
  {
    assert (front + [p])[..|front|] == front;
  }

  // ---- creating a tier ----

  lemma TierPassSnoc(
    front: seq<TierResource>, t: TierResource, classes: map<string, DataClass>, fx: map<string, real>, ds: seq<Diag>)
    ensures TierPass(front + [t], classes, fx, ds) == AddTier(TierPass(front, classes, fx, ds), t, classes, fx)
  {
    assert (front + [t])[..|front|] == front;
  }

  lemma MoreTiers(ctx: Context, st: TierState, t: TierResource, ctx': Context)
    requires ctx.tiers == st.tiers && ctx.tierNs == st.tierNs && ctx'.profileNames == ctx.profileNames
    requires t.meta.name.Some? && t.meta.name.value !in st.tiers && t.meta.name.value !in st.tierNs
    requires ctx'.tiers == st.tiers[t.meta.name.value := TierCompiler(ctx.fx)(t)]
    requires ctx'.tierNs == st.tierNs[t.meta.name.value := TierNsOf()(t)]
    ensures Extends(ctx, ctx')
  {
    hide CompileTier;
  }

  lemma CreateTier(input: CompileInput, t: TierResource)
    requires Compile(input).core.Some?
    requires !Denies(Compile(input.(tiers := input.tiers + [t])).report, ModelTier, DiagName(t.meta))
    ensures Compile(input.(tiers := input.tiers + [t])).core.Some?
  {
    hide Compile, AddTier, TierPass, TierValid, PolicyPass, PolicyValid, Denies, FxPass, ProfilePass, ClassPass,
      HasErrors, Reports, CompileTier, RatesConsistent, ProfilesWF, ClassesWF, Holds, SortBy, PoliciesWF, Extends;
    var input' := input.(tiers := input.tiers + [t]);
    CompileIsExact(input);
    StagesReachReport(input');
    var ctx, ctx' := ContextOf(input), ContextOf(input');
    var ds := StagesOf(input).classes;
    var st := TierPass(input.tiers, ctx.classes, ctx.fx, ds);
    TierPassSnoc(input.tiers, t, ctx.classes, ctx.fx, ds);
    TierPassSound(input.tiers, ctx.classes, ctx.fx, ds);
    EarlierStagesClean(input);
    AddTierReports(st, t, ctx.classes, ctx.fx);
    ErrorDenies(st.diags, StagesOf(input').tiers, Compile(input').report, ModelTier, DiagName(t.meta),
                t.meta.name.None? || t.meta.name.value in st.tiers || !TierValid(t, ctx.classes.Keys, ctx.fx));
    HoldsTaken(st.tiers, TierName, TierCompiler(ctx.fx), input.tiers, t.meta.name.value);
    HoldsTaken(st.tierNs, TierName, TierNsOf(), input.tiers, t.meta.name.value);
    AddedTier(st, t, ctx.classes, ctx.fx);
    MoreTiers(ctx, st, t, ctx');
    PoliciesStayWF(input.policies, ctx, ctx');
    PolicyPassSound(input.policies, ctx', StagesOf(input').tiers);
    CompileIsExact(input');
  }

  /** A successful compilation has no error in any stage. */
  lemma EarlierStagesClean(input: CompileInput)
    requires Compile(input).core.Some?
    ensures var s := StagesOf(input);
      !HasErrors(s.fx) && !HasErrors(s.profiles) && !HasErrors(s.classes) && !HasErrors(s.tiers)
        && !HasErrors(s.policies)
  {
    hide Compile, StagesOf;
    CompileIsExact(input);
    StagesReachReport(input);
    var report, s := Compile(input).report, StagesOf(input);
    CleanPrefix(s.fx, report);
    CleanPrefix(s.profiles, report);
    CleanPrefix(s.classes, report);
    CleanPrefix(s.tiers, report);
    CleanPrefix(s.policies, report);
  }

  lemma CleanPrefix(a: seq<Diag>, b: seq<Diag>)
    requires a <= b
    ensures HasErrors(a) ==> HasErrors(b)
  {
    if HasErrors(a) {
      var i :| 0 <= i < |a| && a[i].level == Error;
      assert b[i].level == Error;
    }
  }

  // ---- creating a data class ----

  lemma ClassPassSnoc(front: seq<ClassResource>, c: ClassResource, ds: seq<Diag>)
    ensures ClassPass(front + [c], ds) == AddClass(ClassPass(front, ds), c)
  {
    assert (front + [c])[..|front|] == front;
  }

  lemma CreateClass(input: CompileInput, c: ClassResource)
    requires Compile(input).core.Some?
    requires !Denies(Compile(input.(dataClasses := input.dataClasses + [c])).report, DataClassKind, DiagName(c.meta))
    ensures Compile(input.(dataClasses := input.dataClasses + [c])).core.Some?
  {
    hide Compile, AddClass, ClassPass, TierPass, TierValid, PolicyPass, PolicyValid, Denies, FxPass, ProfilePass,
      HasErrors, Reports, RatesConsistent, ProfilesWF, ClassesWF, Holds, SortBy, PoliciesWF, TiersWF, Extends,
      ForeignClaim, Unit, ClaimList;
    var input' := input.(dataClasses := input.dataClasses + [c]);
    CompileIsExact(input);
    StagesReachReport(input');
    EarlierStagesClean(input);
    var ctx, ctx' := ContextOf(input), ContextOf(input');
    var ds := StagesOf(input).profiles;
    var st := ClassPass(input.dataClasses, ds);
    ClassPassSnoc(input.dataClasses, c, ds);
    AddClassReports(st, c);
    ErrorDenies(st.diags, StagesOf(input').classes, Compile(input').report, DataClassKind, DiagName(c.meta),
                !NewClass(st, c) || !Unit(c.minConfidence)
                || ForeignClaim(st.owners, c.meta.name.value, ClaimList(c, c.meta.name.value)));
    AddedClass(st, c);
    assert ctx.classes.Keys <= ctx'.classes.Keys;
    TiersStayWF(input.tiers, ctx.classes.Keys, ctx'.classes.Keys, ctx.fx);
    TierPassSound(input.tiers, ctx.classes, ctx.fx, StagesOf(input).classes);
    TierPassSound(input.tiers, ctx'.classes, ctx'.fx, StagesOf(input').classes);
    HoldsUnique(ctx.tiers, ctx'.tiers, TierName, TierCompiler(ctx.fx), input.tiers, input.tiers);
    HoldsUnique(ctx.tierNs, ctx'.tierNs, TierName, TierNsOf(), input.tiers, input.tiers);
    SameTiersExtend(ctx, ctx');
    PoliciesStayWF(input.policies, ctx, ctx');
    PolicyPassSound(input.policies, ctx', StagesOf(input').tiers);
    CompileIsExact(input');
  }

  // ---- creating a profile ----

  lemma ProfilePassSnoc(front: seq<ProfileResource>, p: ProfileResource, ds: seq<Diag>)
    ensures ProfilePass(front + [p], ds) == AddProfile(ProfilePass(front, ds), p)
  {
    assert (front + [p])[..|front|] == front;
  }

  /** The stages up to the profiles, when the new profile is not denied. */
  lemma CreateProfileStages(input: CompileInput, p: ProfileResource)
    requires Compile(input).core.Some?
    requires !Denies(Compile(input.(profiles := input.profiles + [p])).report, RouterProfile, DiagName(p.meta))
    ensures var input' := input.(profiles := input.profiles + [p]);
      && !HasErrors(StagesOf(input').fx) && !HasErrors(StagesOf(input').profiles)
      && ContextOf(input).fx.Keys <= ContextOf(input').fx.Keys
      && ContextOf(input).profileNames <= ContextOf(input').profileNames
  {
    hide Compile, AddProfile, ProfilePass, TierPass, PolicyPass, ClassPass, Denies, FxPass, HasErrors, Reports,
      AddRates, RatesFit, ProfileValid, Holds, ProfilesWF;
    var input' := input.(profiles := input.profiles + [p]);
    StagesReachReport(input');
    EarlierStagesClean(input);
    var fx, fx' := FxPass(input.profiles), FxPass(input'.profiles);
    var curs := Ascending(p.fxToEur.Keys);
    FxPassSnoc(input.profiles, p);
    RatesReport(fx, p, curs);
    ErrorDenies(fx.diags, fx'.diags, Compile(input').report, RouterProfile, DiagName(p.meta),
                !RatesFit(fx.fx, p, curs));
    FxIsPositive(input.profiles);
    RatesStayPositive(fx, p, curs);
    ProfilePassSound(input.profiles, fx.diags);
    ProfilePassSound(input.profiles, fx'.diags);
    ProfilePassSnoc(input.profiles, p, fx'.diags);
    var st := ProfilePass(input.profiles, fx'.diags);
    HoldsUnique(st.profiles, ProfilePass(input.profiles, fx.diags).profiles, ProfileName, ProfileCompiler(),
                input.profiles, input.profiles);
    AddProfileReports(st, p);
    ErrorDenies(st.diags, StagesOf(input').profiles, Compile(input').report, RouterProfile, DiagName(p.meta),
                p.meta.name.None? || p.meta.name.value in st.profiles || !ProfileValid(p));
    AddedProfile(st, p);
  }

  lemma CreateProfile(input: CompileInput, p: ProfileResource)
    requires Compile(input).core.Some?
    requires !Denies(Compile(input.(profiles := input.profiles + [p])).report, RouterProfile, DiagName(p.meta))
    ensures Compile(input.(profiles := input.profiles + [p])).core.Some?
  {
    hide Compile, ClassPass, TierPass, TierValid, PolicyPass, PolicyValid, Denies, FxPass, ProfilePass, HasErrors,
      RatesConsistent, ProfilesWF, ClassesWF, Holds, SortBy, PoliciesWF, TiersWF, Extends, PositiveRates;
    var input' := input.(profiles := input.profiles + [p]);
    CompileIsExact(input);
    EarlierStagesClean(input);
    CreateProfileStages(input, p);
    StagesReachReport(input');
    var ctx, ctx' := ContextOf(input), ContextOf(input');
    FxIsPositive(input'.profiles);
    ClassPassSound(input.dataClasses, StagesOf(input).profiles);
    ClassPassSound(input.dataClasses, StagesOf(input').profiles);
    HoldsUnique(ctx.classes, ctx'.classes, ClassName, ClassCompiler(), input.dataClasses, input.dataClasses);
    TiersStayPriced(input.tiers, ctx.classes.Keys, ctx.fx, ctx'.fx);
    TierPassSound(input.tiers, ctx.classes, ctx.fx, StagesOf(input).classes);
    TierPassSound(input.tiers, ctx'.classes, ctx'.fx, StagesOf(input').classes);
    HoldsUnique(ctx.tierNs, ctx'.tierNs, TierName, TierNsOf(), input.tiers, input.tiers);
    RepricedTiersExtend(ctx, ctx', input.tiers, input.tiers);
    PoliciesStayWF(input.policies, ctx, ctx');
    PolicyPassSound(input.policies, ctx', StagesOf(input').tiers);
    CompileIsExact(input');
  }

  // ---- the theorem ----

  /**
   Admission of a new object is exact: when the listed objects compile, the webhook admits an object with a new
   key if and only if the extended set compiles, that is, without an error on any object.
   */
  lemma CreateAdmissionIsExact(input: CompileInput, o: Incoming)
    requires Compile(input).core.Some? && IsNew(input, o)
    ensures Admits(input, o) <==> Compile(Substitute(input, o)).core.Some?
  {
    hide Compile, DiagName, HasErrors;
    CompileIsExact(Substitute(input, o));
    if Compile(Substitute(input, o)).core.Some? {
      NoErrorNoDenial(Compile(Substitute(input, o)).report, KindOf(o), KeyOf(o));
    }
    if Admits(input, o) {
      match o
      case IncomingTier(t) =>
        NewIsAppended(TierKey, input.tiers, t);
        CreateTier(input, t);
      case IncomingClass(c) =>
        NewIsAppended(ClassKey, input.dataClasses, c);
        CreateClass(input, c);
      case IncomingPolicy(p) =>
        NewIsAppended(PolicyDiagKey, input.policies, p);
        CreatePolicy(input, p);
      case IncomingProfile(p) =>
        NewIsAppended(ProfileKey, input.profiles, p);
        CreateProfile(input, p);
    }
  }

  lemma NoErrorNoDenial(report: seq<Diag>, kind: Kind, key: string)
    ensures Denies(report, kind, key) ==> HasErrors(report)
  {
    if Denies(report, kind, key) {
      var d :| d in report && d.level == Error && d.kind == kind && d.name == key;
      var i :| 0 <= i < |report| && report[i] == d;
    }
  }

  // ---- updates ----

  /** An error about a tier comes from the tier pass. */
  lemma TierErrorsAreEarly(input: CompileInput, key: string)
    ensures Denies(Compile(input).report, ModelTier, key) ==> HasErrors(StagesOf(input).tiers)
  {
    hide FxPass, ProfilePass, ClassPass, TierPass, PolicyPass, ShadowWarnings, SortBy;
    var tiers, policies := StagesOf(input).tiers, PolicyPass(input.policies, ContextOf(input), StagesOf(input).tiers);
    ShadowsAddNoErrors(SortBy(PolicyLe, policies.policies), policies.diags);
    PoliciesGrow(input.policies, ContextOf(input), tiers);
    GrownFrom(tiers, policies.diags, RoutingPolicy, Map(PolicyDiagKey, input.policies));
    if d :| d in Compile(input).report && d.level == Error && d.kind == ModelTier && d.name == key {
      assert d in tiers;
      var i :| 0 <= i < |tiers| && tiers[i] == d;
    }
  }

  /** The tier without its labels. */
  function Unlabelled(t: TierResource): TierResource {
    t.(labels := map[])
  }

  lemma UnlabelledIsValid(t: TierResource, names: set<string>, fx: map<string, real>)
    ensures TierValid(Unlabelled(t), names, fx) == TierValid(t, names, fx)
  {
    hide Trim, Unit, NonNegative, ToMicroEur;
  }

  /** A policy that selects by labels alone has no candidates when no tier has a label. */
  lemma NothingSelected(p: PolicyResource, ctx: Context)
    requires p.include_ == [] && p.matchLabels != map[] && forall n | n in ctx.tiers :: ctx.tiers[n].labels == map[]
    ensures !PolicyValid(p, ctx)
  {
    hide NsOf, FallbackFound;
    var k :| k in p.matchLabels;
    assert CandidateSet(p, ctx) == {};
  }

  /**
   Exactness is for new objects only: the webhook admits an update that takes the labels off a tier, although a
   policy that selected the tier by label then no longer compiles.
   */
  lemma AdmittedUpdateCanBreakAPolicy(t: TierResource, p: PolicyResource)
    requires Compile(CompileInput([t], [], [p], [])).core.Some? && p.include_ == [] && p.matchLabels != map[]
    ensures var input := CompileInput([t], [], [p], []);
      && !IsNew(input, IncomingTier(Unlabelled(t)))
      && Admits(input, IncomingTier(Unlabelled(t)))
      && Compile(Substitute(input, IncomingTier(Unlabelled(t)))).core.None?
  {
    hide Compile, ContextOf, StagesOf, TierValid, PolicyValid, Denies, HasErrors, RatesConsistent, ProfilesWF,
      ClassesWF, Holds, PoliciesWF;
    var input, input' := CompileInput([t], [], [p], []), CompileInput([Unlabelled(t)], [], [p], []);
    assert Substitute(input, IncomingTier(Unlabelled(t))) == input';
    CompileIsExact(input);
    CompileIsExact(input');
    UnlabelledPasses(t, p);
    TierErrorsAreEarly(input', TierKey(t));
  }

  lemma UnlabelledPasses(t: TierResource, p: PolicyResource)
    requires Compile(CompileInput([t], [], [p], [])).core.Some? && p.include_ == [] && p.matchLabels != map[]
    ensures var input' := CompileInput([Unlabelled(t)], [], [p], []);
      !HasErrors(StagesOf(input').tiers) && !PoliciesWF([p], ContextOf(input'))
  {
    hide Compile, FxPass, ProfilePass, ClassPass, TierPass, PolicyPass, TierValid, PolicyValid, HasErrors,
      RatesConsistent, ProfilesWF, ClassesWF;
    var input, input' := CompileInput([t], [], [p], []), CompileInput([Unlabelled(t)], [], [p], []);
    CompileIsExact(input);
    EarlierStagesClean(input);
    var ctx, ctx' := ContextOf(input), ContextOf(input');
    UnlabelledIsValid(t, ctx.classes.Keys, ctx.fx);
    OneNamed(t, ctx.classes.Keys, ctx.fx);
    TierPassSound([Unlabelled(t)], ctx.classes, ctx.fx, StagesOf(input).classes);
    UnlabelledCompiled(ctx'.tiers, t, ctx.fx);
    NothingSelected(p, ctx');
    assert p in [p];
  }

  lemma OneNamed(t: TierResource, names: set<string>, fx: map<string, real>)
    requires TiersWF([t], names, fx) && TierValid(Unlabelled(t), names, fx)
    ensures TiersWF([Unlabelled(t)], names, fx)
  {
    hide TierValid;
    assert TierName([t][0]).Some?;
  }

  lemma UnlabelledCompiled(tiers: map<string, Tier>, t: TierResource, fx: map<string, real>)
    requires Holds(tiers, TierName, TierCompiler(fx), [Unlabelled(t)])
    ensures forall n | n in tiers :: tiers[n].labels == map[]
  {
    hide ToMicroEur, ToReal;
    forall n | n in tiers ensures tiers[n].labels == map[] {
      assert Taken(TierName, [Unlabelled(t)], Some(n));
      LabelsCompiled(Unlabelled(t), fx);
    }
  }
}
