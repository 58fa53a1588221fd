/**
 The compiler as it runs: one loop per resource kind, filling the containers and
 the report in place. Every pass is proved to compute its fold of Compiler.dfy.
 */
module CompilerPasses {
  import opened Ordering
  import opened Snapshots
  import opened Compiler

  class Compilation {
    var diags: seq<Diag>
    var fx: map<string, real>
    var profiles: map<string, Profile>
    var classes: map<string, DataClass>
    var tiers: map<string, Tier>
    var tierNs: map<string, string>
    var policies: seq<Policy>

    constructor ()
      ensures diags == [] && fx == map[] && profiles == map[] && classes == map[] && tiers == map[] && tierNs == map[]
      ensures policies == []
    {
      diags, fx, profiles, classes, tiers, tierNs, policies := [], map[], map[], map[], map[], map[], [];
    }

    method Error(kind: Kind, name: string, rule: Rule)
      modifies this`diags
      ensures diags == old(diags) + [Diag(Level.Error, kind, name, rule)]
    {
      diags := diags + [Diag(Level.Error, kind, name, rule)];
    }

    method Warn(kind: Kind, name: string, rule: Rule)
      modifies this`diags
      ensures diags == old(diags) + [Diag(Warning, kind, name, rule)]
    {
      diags := diags + [Diag(Warning, kind, name, rule)];
    }

    // ---- exchange rates ----

    method AddRate(p: ProfileResource, cur: string)
      requires cur in p.fxToEur
      modifies this`diags, this`fx
      ensures FxState(fx, diags) == Compiler.AddRate(old(FxState(fx, diags)), p, cur)
    {
      var rate := p.fxToEur[cur];
      if !(rate.Finite? && rate.value >= 0.0) || rate.value == 0.0 {
        Error(RouterProfile, DiagName(p.meta), RateMustBePositive(cur));
      } else if cur in fx && (fx[cur] - rate.value > EPSILON || rate.value - fx[cur] > EPSILON) {
        Error(RouterProfile, DiagName(p.meta), ConflictingRate(cur));
      } else {
        fx := fx[cur := rate.value];
      }
    }

    method AddRates(p: ProfileResource)
      modifies this`diags, this`fx
      ensures FxState(fx, diags) == Compiler.AddRates(old(FxState(fx, diags)), p, Ascending(p.fxToEur.Keys))
    {
      hide Compiler.AddRate;
      var curs := Ascending(p.fxToEur.Keys);
      AscendingSound(p.fxToEur.Keys);
      for i := 0 to |curs|
        invariant FxState(fx, diags) == Compiler.AddRates(old(FxState(fx, diags)), p, curs[..i])
      {
        assert curs[..i + 1][..i] == curs[..i];
        assert curs[i] in curs;
        AddRate(p, curs[i]);
      }
      assert curs[..|curs|] == curs;
    }

    method FxPass(ps: seq<ProfileResource>)
      requires diags == [] && fx == map[]
      modifies this`diags, this`fx
      ensures FxState(fx, diags) == Compiler.FxPass(ps)
    {
      for i := 0 to |ps|
        invariant FxState(fx, diags) == Compiler.FxPass(ps[..i])
      {
        assert ps[..i + 1][..i] == ps[..i];
        AddRates(ps[i]);
      }
      assert ps[..|ps|] == ps;
    }

    // ---- profiles ----

    method CheckProfile(p: ProfileResource)
      modifies this`diags
      ensures diags == ProfileChecks(p, old(diags))
    {
      hide DiagName, CalibrationOk, CalibrationChecks;
      var n := DiagName(p.meta);
      if p.timeoutMs == 0 {
        Error(RouterProfile, n, TimeoutMustBePositive);
      }
      if p.defaultOutputTokens == 0 {
        Error(RouterProfile, n, OutputTokensMustBePositive);
      }
      if p.classifierType == Onnx {
        if p.classifierUri.None? {
          Error(RouterProfile, n, OnnxNeedsModel);
        }
        if p.tokenizerUri.None? {
          Error(RouterProfile, n, OnnxNeedsTokenizer);
        }
      }
      CheckCalibration(p);
    }

    method CheckCalibration(p: ProfileResource)
      modifies this`diags
      ensures diags == CalibrationChecks(p, Ascending(p.calibration.Keys), old(diags))
    {
      hide DiagName, CalibrationOk;
      var keys := Ascending(p.calibration.Keys);
      AscendingSound(p.calibration.Keys);
      for i := 0 to |keys|
        invariant diags == CalibrationChecks(p, keys[..i], old(diags))
      {
        assert keys[..i + 1][..i] == keys[..i];
        assert keys[i] in keys;
        if !CalibrationOk(p.calibration[keys[i]]) {
          Error(RouterProfile, DiagName(p.meta), CalibrationOutOfRange(keys[i]));
        }
      }
      assert keys[..|keys|] == keys;
    }

    method ProfilePass(ps: seq<ProfileResource>)
      requires profiles == map[]
      modifies this`diags, this`profiles
      ensures ProfileState(profiles, diags) == Compiler.ProfilePass(ps, old(diags))
    {
      hide DiagName, ProfileChecks, CompileProfile;
      for i := 0 to |ps|
        invariant ProfileState(profiles, diags) == Compiler.ProfilePass(ps[..i], old(diags))
      {
        assert ps[..i + 1][..i] == ps[..i];
        var p := ps[i];
        if p.meta.name.None? {
          Error(RouterProfile, DiagName(p.meta), MissingName);
        } else if p.meta.name.value in profiles {
          Error(RouterProfile, DiagName(p.meta), DuplicateName);
        } else {
          CheckProfile(p);
          profiles := profiles[p.meta.name.value := CompileProfile(p, p.meta.name.value)];
        }
      }
      assert ps[..|ps|] == ps;
    }

    // ---- data classes ----

    method AddClaims(c: ClassResource, name: string, start: map<string, string>) returns (owners: map<string, string>)
      modifies this`diags
      ensures ClaimState(owners, diags)
              == Compiler.AddClaims(ClaimState(start, old(diags)), c, name, ClaimList(c, name))
    {
      hide DiagName;
      owners := start;
      var values := ClaimList(c, name);
      for i := 0 to |values|
        invariant ClaimState(owners, diags) == Compiler.AddClaims(ClaimState(start, old(diags)), c, name, values[..i])
      {
        assert values[..i + 1][..i] == values[..i];
        var value := values[i];
        if value in owners && owners[value] != name {
          Error(DataClassKind, DiagName(c.meta), HeaderClaimed(value, owners[value]));
        }
        owners := owners[value := name];
      }
      assert values[..|values|] == values;
    }

    method ClassPass(cs: seq<ClassResource>)
      requires classes == map[]
      modifies this`diags, this`classes
      ensures classes == Compiler.ClassPass(cs, old(diags)).classes
      ensures diags == Compiler.ClassPass(cs, old(diags)).diags
    {
      hide DiagName, CompileClass, ClaimList, Unit, Compiler.AddClaims;
      var ranks: map<nat, string> := map[];
      var owners: map<string, string> := map[];
      for i := 0 to |cs|
        invariant ClassState(classes, ranks, owners, diags) == Compiler.ClassPass(cs[..i], old(diags))
      {
        assert cs[..i + 1][..i] == cs[..i];
        var c := cs[i];
        if c.meta.name.None? {
          Error(DataClassKind, DiagName(c.meta), MissingName);
        } else if c.meta.name.value in classes {
          Error(DataClassKind, DiagName(c.meta), DuplicateName);
        } else {
          var name := c.meta.name.value;
          if !Unit(c.minConfidence) {
            Error(DataClassKind, DiagName(c.meta), MinConfidenceOutOfRange);
          }
          if c.rank in ranks {
            Warn(DataClassKind, DiagName(c.meta), RankShared(c.rank, ranks[c.rank]));
          }
          ranks := ranks[c.rank := name];
          owners := AddClaims(c, name, owners);
          classes := classes[name := CompileClass(c, name)];
        }
      }
      assert cs[..|cs|] == cs;
    }

    // ---- tiers ----

    /** Every check of a tier; `ok` is the flag that keeps an invalid tier out of the snapshot. */
    method CheckTier(t: TierResource) returns (ok: bool)
      modifies this`diags
      ensures diags == TierChecks(t, classes, fx, old(diags))
      ensures ok == TierValid(t, classes.Keys, fx)
    {
      hide DiagName, Trim, Unit, NonNegative, Priced, TaskChecks, ReferenceChecks;
      var n := DiagName(t.meta);
      ok := true;
      if Trim(t.gatewayModel) == "" {
        Error(ModelTier, n, GatewayModelEmpty);
        ok := false;
      }
      if t.contextWindow == 0 {
        Error(ModelTier, n, ContextWindowEmpty);
        ok := false;
      }
      if !NonNegative(t.inputPerMillion) {
        Error(ModelTier, n, InputPriceOutOfRange);
        ok := false;
      }
      if !NonNegative(t.outputPerMillion) {
        Error(ModelTier, n, OutputPriceOutOfRange);
        ok := false;
      }
      if !Unit(t.qualityBaseline) {
        Error(ModelTier, n, BaselineOutOfRange);
        ok := false;
      }
      var tasksOk := CheckTasks(t);
      if !Unit(t.maxRiskScore) {
        Error(ModelTier, n, MaxRiskOutOfRange);
        ok := false;
      }
      var referencesOk := CheckReferences(t);
      if !Priced(t, fx) {
        Error(ModelTier, n, NoConversionRate);
        ok := false;
      }
      ok := ok && tasksOk && referencesOk;
    }

    method CheckTasks(t: TierResource) returns (ok: bool)
      modifies this`diags
      ensures diags == TaskChecks(t, Ascending(t.qualityByTask.Keys), old(diags))
      ensures ok <==> forall k | k in t.qualityByTask :: Unit(t.qualityByTask[k])
    {
      hide DiagName, Unit, StrictlyAscending, Ascending;
      ok := true;
      var tasks := Ascending(t.qualityByTask.Keys);
      AscendingSound(t.qualityByTask.Keys);
      for i := 0 to |tasks|
        invariant diags == TaskChecks(t, tasks[..i], old(diags))
        invariant ok <==> forall k | k in tasks[..i] && k in t.qualityByTask :: Unit(t.qualityByTask[k])
      {
        assert tasks[..i + 1][..i] == tasks[..i];
        assert tasks[i] in tasks;
        if !Unit(t.qualityByTask[tasks[i]]) {
          Error(ModelTier, DiagName(t.meta), TaskQualityOutOfRange(tasks[i]));
          ok := false;
        }
        assert forall k :: k in tasks[..i + 1] <==> k in tasks[..i] || k == tasks[i];
      }
      assert tasks[..|tasks|] == tasks;
    }

    method CheckReferences(t: TierResource) returns (ok: bool)
      modifies this`diags
      ensures diags == ReferenceChecks(t, t.allowedDataClasses, classes, old(diags))
      ensures ok <==> forall n | n in t.allowedDataClasses :: n in classes.Keys
    {
      hide DiagName;
      ok := true;
      var names := t.allowedDataClasses;
      for i := 0 to |names|
        invariant diags == ReferenceChecks(t, names[..i], classes, old(diags))
        invariant ok <==> forall n | n in names[..i] :: n in classes.Keys
      {
        assert names[..i + 1][..i] == names[..i];
        if names[i] !in classes {
          Error(ModelTier, DiagName(t.meta), UnknownDataClass(names[i]));
          ok := false;
        }
        assert forall n :: n in names[..i + 1] <==> n in names[..i] || n == names[i];
      }
      assert names[..|names|] == names;
    }

    method WarnClaims(compiled: Tier, n: string)
      modifies this`diags
      ensures diags == ClaimWarnings(compiled, n, Ascending(compiled.allowedDataClasses), classes, old(diags))
    {
      hide ClassClash;
      var names := Ascending(compiled.allowedDataClasses);
      for i := 0 to |names|
        invariant diags == ClaimWarnings(compiled, n, names[..i], classes, old(diags))
      {
        assert names[..i + 1][..i] == names[..i];
        if names[i] in classes {
          var clash := ClassClash(compiled, classes[names[i]]);
          if clash.Some? {
            Warn(ModelTier, n, ClaimViolated(names[i], clash.value));
          }
        }
      }
      assert names[..|names|] == names;
    }

    method TierPass(ts: seq<TierResource>)
      requires tiers == map[] && tierNs == map[]
      modifies this`diags, this`tiers, this`tierNs
      ensures TierState(tiers, tierNs, diags) == Compiler.TierPass(ts, classes, fx, old(diags))
    {
      hide DiagName, TierChecks, TierValid, CompileTier, ClaimWarnings, NsOf;
      for i := 0 to |ts|
        invariant TierState(tiers, tierNs, diags) == Compiler.TierPass(ts[..i], classes, fx, old(diags))
      {
        assert ts[..i + 1][..i] == ts[..i];
        var t := ts[i];
        if t.meta.name.None? {
          Error(ModelTier, DiagName(t.meta), MissingName);
        } else if t.meta.name.value in tiers {
          Error(ModelTier, DiagName(t.meta), DuplicateName);
        } else {
          var ok := CheckTier(t);
          if ok {
            var name := t.meta.name.value;
            tierNs := tierNs[name := NsOf(t.meta)];
            var compiled := CompileTier(t, name, fx);
            WarnClaims(compiled, DiagName(t.meta));
            tiers := tiers[name := compiled];
          }
        }
      }
      assert ts[..|ts|] == ts;
    }

    // ---- policies ----

    function Ctx(): Context
      reads this`tiers, this`tierNs, this`classes, this`profiles, this`fx
    {
      Context(tiers, tierNs, classes, profiles.Keys, fx)
    }

    /** Candidate resolution: selector, then includes, then excludes. */
    method ResolveCandidates(p: PolicyResource) returns (candidates: set<string>, ok: bool)
      modifies this`diags
      ensures diags == CandidateChecks(p, Ctx(), old(diags))
      ensures candidates == CandidateSet(p, Ctx())
      ensures ok <==> (forall n | n in p.include_ :: InNs(Ctx(), n, NsOf(p.meta))) && CandidateSet(p, Ctx()) != {}
    {
      hide DiagName, InNs, SelectedTiers, NsOf, CandidateSet, IncludeChecks, ExcludeWarnings, PushIf;
      var ctx := Ctx();
      candidates := SelectByLabels(p, ctx);
      ghost var selected := candidates;
      candidates, ok := IncludeTiers(p, ctx, candidates);
      candidates := ExcludeTiers(p, ctx, candidates);
      CandidatesResolved(p, ctx, selected, candidates);
      var some := RequireSome(p, candidates);
      ok := ok && some;
    }

    method RequireSome(p: PolicyResource, candidates: set<string>) returns (ok: bool)
      modifies this`diags
      ensures diags == PushIf(candidates == {}, old(diags),
                              Diag(Level.Error, RoutingPolicy, DiagName(p.meta), NoCandidates))
      ensures ok <==> candidates != {}
    {
      hide DiagName;
      ok := candidates != {};
      if !ok {
        Error(RoutingPolicy, DiagName(p.meta), NoCandidates);
      }
    }

    method SelectByLabels(p: PolicyResource, ctx: Context) returns (candidates: set<string>)
      modifies this`diags
      ensures candidates == if p.include_ != [] && p.matchLabels == map[] then {} else SelectedTiers(p, ctx)
      ensures diags == PushIf(p.matchLabels != map[] && p.include_ == [] && SelectedTiers(p, ctx) == {}, old(diags),
                              Diag(Warning, RoutingPolicy, DiagName(p.meta), SelectorMatchesNothing))
    {
      hide DiagName, SelectedTiers;
      candidates := SelectedTiers(p, ctx);
      if p.matchLabels != map[] && p.include_ == [] && candidates == {} {
        Warn(RoutingPolicy, DiagName(p.meta), SelectorMatchesNothing);
      }
      if p.include_ != [] && p.matchLabels == map[] {
        candidates := {};
      }
    }

    method IncludeTiers(p: PolicyResource, ctx: Context, start: set<string>) returns (candidates: set<string>, ok: bool)
      modifies this`diags
      ensures diags == IncludeChecks(p, p.include_, ctx, old(diags))
      ensures candidates == start + set n | n in p.include_ && InNs(ctx, n, NsOf(p.meta))
      ensures ok <==> forall n | n in p.include_ :: InNs(ctx, n, NsOf(p.meta))
    {
      hide DiagName, InNs, NsOf;
      candidates, ok := start, true;
      var names := p.include_;
      for i := 0 to |names|
        invariant diags == IncludeChecks(p, names[..i], ctx, old(diags))
        invariant candidates == start + set n | n in names[..i] && InNs(ctx, n, NsOf(p.meta))
        invariant ok <==> forall n | n in names[..i] :: InNs(ctx, n, NsOf(p.meta))
      {
        assert names[..i + 1][..i] == names[..i];
        assert forall n :: n in names[..i + 1] <==> n in names[..i] || n == names[i];
        if InNs(ctx, names[i], NsOf(p.meta)) {
          candidates := candidates + {names[i]};
        } else {
          Error(RoutingPolicy, DiagName(p.meta), UnknownInclude(names[i]));
          ok := false;
        }
      }
      assert names[..|names|] == names;
    }

    method ExcludeTiers(p: PolicyResource, ctx: Context, start: set<string>) returns (candidates: set<string>)
      modifies this`diags
      ensures diags == ExcludeWarnings(p, p.exclude, ctx, old(diags))
      ensures candidates == start - set n | n in p.exclude
    {
      hide DiagName, InNs, NsOf;
      candidates := start;
      var names := p.exclude;
      for i := 0 to |names|
        invariant diags == ExcludeWarnings(p, names[..i], ctx, old(diags))
        invariant candidates == start - set n | n in names[..i]
      {
        assert names[..i + 1][..i] == names[..i];
        assert forall n :: n in names[..i + 1] <==> n in names[..i] || n == names[i];
        if !InNs(ctx, names[i], NsOf(p.meta)) {
          Warn(RoutingPolicy, DiagName(p.meta), UnknownExclude(names[i]));
        }
        candidates := candidates - {names[i]};
      }
      assert names[..|names|] == names;
    }

    method CheckRanges(p: PolicyResource) returns (ok: bool)
      modifies this`diags
      ensures diags == RangeChecks(p, old(diags))
      ensures ok <==>
        && (p.maxCostEur.Some? ==> NonNegative(p.maxCostEur.value))
        && (p.denyIfRiskAbove.Some? ==> Unit(p.denyIfRiskAbove.value))
        && (p.qualityFloor.Some? ==> Unit(p.qualityFloor.value)) && WeightsOk(p.weights)
    {
      hide DiagName, NonNegative, Unit, WeightsOk;
      var n := DiagName(p.meta);
      ok := true;
      if p.maxCostEur.Some? && !NonNegative(p.maxCostEur.value) {
        Error(RoutingPolicy, n, MaxCostOutOfRange);
        ok := false;
      }
      if p.denyIfRiskAbove.Some? && !Unit(p.denyIfRiskAbove.value) {
        Error(RoutingPolicy, n, DenyThresholdOutOfRange);
        ok := false;
      }
      if p.qualityFloor.Some? && !Unit(p.qualityFloor.value) {
        Error(RoutingPolicy, n, FloorOutOfRange);
        ok := false;
      }
      if !WeightsOk(p.weights) {
        Error(RoutingPolicy, n, WeightsOutOfRange);
        ok := false;
      }
    }

    method CheckLearned(p: PolicyResource) returns (ok: bool)
      modifies this`diags
      ensures diags == LearnedChecks(p, Ctx(), old(diags))
      ensures ok <==> (p.learnedEnabled ==>
                         p.learnedProfile.Some? && p.learnedProfile.value in profiles.Keys
                           && Unit(p.learnedMinConfidence))
    {
      hide DiagName, Unit;
      ok := true;
      if p.learnedEnabled {
        if p.learnedProfile.None? {
          Error(RoutingPolicy, DiagName(p.meta), ProfileRequired);
          ok := false;
        } else if p.learnedProfile.value !in profiles {
          Error(RoutingPolicy, DiagName(p.meta), ProfileNotFound(p.learnedProfile.value));
          ok := false;
        }
        if !Unit(p.learnedMinConfidence) {
          Error(RoutingPolicy, DiagName(p.meta), LearnedConfidenceOutOfRange);
          ok := false;
        }
      }
    }

    method CheckFallback(p: PolicyResource) returns (ok: bool)
      modifies this`diags
      ensures diags == FallbackChecks(p, Ctx(), old(diags))
      ensures ok == FallbackFound(p, Ctx())
    {
      hide DiagName, InNs, ClassClash, NsOf;
      ok := true;
      if p.fallbackTier.None? {
        return;
      }
      var name := p.fallbackTier.value;
      if !(name in tiers && InNs(Ctx(), name, NsOf(p.meta))) {
        Error(RoutingPolicy, DiagName(p.meta), FallbackNotFound(name));
        return false;
      }
      if p.respectDataClass {
        var names := Ascending(classes.Keys);
        for i := 0 to |names|
          invariant diags == FallbackWarnings(p, tiers[name], name, names[..i], Ctx(), old(diags))
        {
          assert names[..i + 1][..i] == names[..i];
          if names[i] in classes {
            var clash := ClassClash(tiers[name], classes[names[i]]);
            if clash.Some? {
              Warn(RoutingPolicy, DiagName(p.meta), FallbackCannotServe(name, classes[names[i]].name, clash.value));
            }
          }
        }
        assert names[..|names|] == names;
      }
    }

    method CheckPolicy(p: PolicyResource) returns (candidates: set<string>, ok: bool)
      modifies this`diags
      ensures diags == PolicyChecks(p, Ctx(), old(diags))
      ensures candidates == CandidateSet(p, Ctx())
      ensures ok == PolicyValid(p, Ctx())
    {
      hide DiagName, CandidateSet, InNs, NonNegative, Unit, WeightsOk, FallbackFound, CandidateChecks, RangeChecks,
        LearnedChecks, FallbackChecks;
      var candidatesOk;
      candidates, candidatesOk := ResolveCandidates(p);
      var rangesOk := CheckRanges(p);
      var learnedOk := CheckLearned(p);
      var fallbackOk := CheckFallback(p);
      if p.scope.modelAliases == [] {
        Warn(RoutingPolicy, DiagName(p.meta), NoAliases);
      }
      ok := candidatesOk && rangesOk && learnedOk && fallbackOk;
    }

    method PolicyPass(ps: seq<PolicyResource>)
      requires policies == []
      modifies this`diags, this`policies
      ensures policies == Compiler.PolicyPass(ps, Ctx(), old(diags)).policies
      ensures diags == Compiler.PolicyPass(ps, Ctx(), old(diags)).diags
    {
      hide DiagName, PolicyChecks, PolicyValid, CompilePolicy, PolicyKey, CandidateSet;
      var seen: set<string> := {};
      for i := 0 to |ps|
        invariant PolicyState(policies, seen, diags) == Compiler.PolicyPass(ps[..i], Ctx(), old(diags))
      {
        assert ps[..i + 1][..i] == ps[..i];
        var p := ps[i];
        if p.meta.name.None? {
          Error(RoutingPolicy, DiagName(p.meta), MissingName);
        } else if PolicyKey(p.meta) in seen {
          Error(RoutingPolicy, DiagName(p.meta), DuplicateName);
        } else {
          seen := seen + {PolicyKey(p.meta)};
          var candidates, ok := CheckPolicy(p);
          if ok {
            CandidatesCompiled(p, Ctx());
            policies := policies + [CompilePolicy(p, Ctx()).(candidates := Ascending(candidates))];
          }
        }
      }
      assert ps[..|ps|] == ps;
    }

    /** The policies are grouped in a map that is then gone through in the order of its keys. */
    method WarnShadowed()
      modifies this`diags
      ensures diags == ShadowWarnings(policies, old(diags))
    {
      hide Join, WarnMembers, ScopeKey;
      var groups: seq<Group> := [];
      for i := 0 to |policies|
        invariant groups == GroupsOf(policies[..i])
      {
        assert policies[..i + 1][..i] == policies[..i];
        groups := Join(groups, ScopeKey(policies[i]), policies[i].key);
      }
      assert policies[..|policies|] == policies;
      for i := 0 to |groups|
        invariant diags == WarnGroups(groups[..i], old(diags))
      {
        assert groups[..i + 1][..i] == groups[..i];
        var names := groups[i].members;
        if |names| > 1 {
          WarnRepeats(names[0], names[1..]);
        }
      }
      assert groups[..|groups|] == groups;
    }

    method WarnRepeats(winner: string, shadowed: seq<string>)
      modifies this`diags
      ensures diags == WarnMembers(winner, shadowed, old(diags))
    {
      for i := 0 to |shadowed|
        invariant diags == WarnMembers(winner, shadowed[..i], old(diags))
      {
        assert shadowed[..i + 1][..i] == shadowed[..i];
        Warn(RoutingPolicy, shadowed[i], Shadowed(winner));
      }
      assert shadowed[..|shadowed|] == shadowed;
    }
  }

  lemma CandidatesResolved(p: PolicyResource, ctx: Context, selected: set<string>, candidates: set<string>)
    requires selected == if p.include_ != [] && p.matchLabels == map[] then {} else SelectedTiers(p, ctx)
    requires candidates == selected + (set n | n in p.include_ && InNs(ctx, n, NsOf(p.meta))) - (set n | n in p.exclude)
    ensures candidates == CandidateSet(p, ctx)
  {
    hide SelectedTiers, InNs;
  }

  lemma CandidatesCompiled(p: PolicyResource, ctx: Context)
    ensures CompilePolicy(p, ctx).(candidates := Ascending(CandidateSet(p, ctx))) == CompilePolicy(p, ctx)
  {}

  /** All passes in their order compute the compiler function. */
  method Compile(input: CompileInput) returns (result: CompileResult)
    ensures result == Compiler.Compile(input)
  {
    hide Compiler.FxPass, Compiler.ProfilePass, Compiler.ClassPass, Compiler.TierPass, Compiler.PolicyPass,
      ShadowWarnings, SortBy, HasErrors;
    var c := new Compilation();
    c.FxPass(input.profiles);
    c.ProfilePass(input.profiles);
    c.ClassPass(input.dataClasses);
    c.TierPass(input.tiers);
    c.PolicyPass(input.policies);
    c.policies := SortBy(PolicyLe, c.policies);
    c.WarnShadowed();
    result := CompileResult(
      if HasErrors(c.diags) then None else Some(Core(c.tiers, c.classes, c.policies, c.profiles)), c.diags);
  }
}
