/**
 Compiler warnings measured against the engine.
 */
module CompilerDiagnostics {
  // A policy reported as shadowed is never selected without a policy hint, and a fallback warning is given for
  // exactly the classes in which degraded requests are blocked.

  import opened Ordering
  import opened Snapshots
  import opened Compiler
  import opened CompilerFacts
  import opened CompilerShadows
  import opened CompilerReferences
  import opened CompilerOrder
  import opened CompilerStages
  import opened CompiledSnapshots
  import opened EngineFacts
  import opened EngineSafety
  import E = Engine
  import EngineHints

  // ---- the two copies of the data-class check ----

  function AsElimination(c: Clash): E.Elimination {
    match c
    case NotAllowed => E.DataClassNotAllowed
    case JurisdictionClash => E.DataClassRequireJurisdiction
    case CloudActClash => E.DataClassForbidCloudActExposed
    case OperatorClash => E.DataClassRequireOperatorControl
    case CapabilityClash => E.DataClassForbidCapabilities
  }

  /** The compiler and the engine agree, down to the reason. */
  lemma ClassChecksAgree(t: Tier, dc: DataClass)
    ensures E.DataClassViolation(t, dc) == if ClassClash(t, dc).None? then None
            else Some(AsElimination(ClassClash(t, dc).value))
  {
    ForbiddenOverlap(t, dc);
  }

  // ---- shadowing ----

  /** Policy `i` of the evaluation order is the first with the priority, namespace and match of policy `j`. */
  ghost predicate Shadows(ps: seq<Policy>, i: nat, j: nat)
    requires i < j < |ps|
  {
    SameScope(ps[i], ps[j]) && forall k :: 0 <= k < i ==> !SameScope(ps[k], ps[j])
  }

  ghost predicate ShadowDiag(ps: seq<Policy>, d: Diag) {
    exists i: nat, j: nat ::
      i < j < |ps| && Shadows(ps, i, j) && d == Diag(Warning, RoutingPolicy, ps[j].key, Shadowed(ps[i].key))
  }

  lemma {:induction false} FirstLikeAt(ps: seq<Policy>, p: Policy) returns (i: nat)
    requires FirstLike(ps, p).Some?
    ensures i < |ps| && ps[i] == FirstLike(ps, p).value && SameScope(ps[i], p)
    ensures forall k :: 0 <= k < i ==> !SameScope(ps[k], p)
  {
    hide SameScope;
    var front := ps[..|ps| - 1];
    if FirstLike(front, p).Some? {
      i := FirstLikeAt(front, p);
    } else {
      i := |ps| - 1;
      assert forall k :: 0 <= k < i ==> ps[k] in front;
    }
  }

  lemma ShadowsBefore(front: seq<Policy>, p: Policy, i: nat, j: nat)
    requires i < j < |front|
    ensures Shadows(front + [p], i, j) <==> Shadows(front, i, j)
  {
    hide SameScope;
    var ps := front + [p];
    assert forall k :: 0 <= k < |front| ==> ps[k] == front[k];
  }

  lemma ShadowsLast(front: seq<Policy>, p: Policy, i: nat)
    requires i < |front| && Shadows(front + [p], i, |front|)
    ensures FirstLike(front, p) == Some(front[i])
  {
    hide SameScope, FirstLike;
    var ps := front + [p];
    assert forall k :: 0 <= k < |front| ==> ps[k] == front[k];
    assert front[i] in front && SameScope(front[i], p);
    var k := FirstLikeAt(front, p);
  }

  lemma LastIsShadowed(front: seq<Policy>, p: Policy, i: nat)
    requires i < |front| && SameScope(front[i], p) && forall k :: 0 <= k < i ==> !SameScope(front[k], p)
    ensures Shadows(front + [p], i, |front|)
  {
    hide SameScope;
    var ps := front + [p];
    assert forall k :: 0 <= k < |front| ==> ps[k] == front[k];
  }

  lemma ShadowedLast(front: seq<Policy>, p: Policy, d: Diag)
    ensures ShadowDiag(front + [p], d) <==>
      ShadowDiag(front, d)
      || (FirstLike(front, p).Some?
          && d == Diag(Warning, RoutingPolicy, p.key, Shadowed(FirstLike(front, p).value.key)))
  {
    hide SameScope, FirstLike, Shadows;
    var ps := front + [p];
    if ShadowDiag(front, d) {
      var i: nat, j: nat :| i < j < |front| && Shadows(front, i, j)
                            && d == Diag(Warning, RoutingPolicy, front[j].key, Shadowed(front[i].key));
      ShadowsBefore(front, p, i, j);
      assert ps[i] == front[i] && ps[j] == front[j];
    }
    if FirstLike(front, p).Some? {
      var i := FirstLikeAt(front, p);
      LastIsShadowed(front, p, i);
    }
    if ShadowDiag(ps, d) {
      var i: nat, j: nat :| i < j < |ps| && Shadows(ps, i, j)
                            && d == Diag(Warning, RoutingPolicy, ps[j].key, Shadowed(ps[i].key));
      if j < |front| {
        ShadowsBefore(front, p, i, j);
        assert ps[i] == front[i] && ps[j] == front[j];
      } else {
        ShadowsLast(front, p, i);
      }
    }
  }

  lemma {:induction false} ShadowWarningsExact(ps: seq<Policy>, ds: seq<Diag>)
    ensures forall d :: d in ShadowWarnings(ps, ds) <==> d in ds || ShadowDiag(ps, d)
  {
    hide ShadowDiag, FirstLike, ShadowWarnings;
    if ps == [] {
      assert ShadowWarnings([], ds) == ds by { NoPoliciesShadowed(ds); }
      assert forall d :: !ShadowDiag([], d) by { NothingShadowed(); }
    } else {
      var front, p := ps[..|ps| - 1], ps[|ps| - 1];
      assert ps == front + [p];
      ShadowWarningsExact(front, ds);
      forall d ensures d in ShadowWarnings(ps, ds) <==> d in ds || ShadowDiag(ps, d) {
        ShadowedLast(front, p, d);
        OneMoreShadowed(front, p, ds, d);
      }
    }
  }

  lemma NoPoliciesShadowed(ds: seq<Diag>)
    ensures ShadowWarnings([], ds) == ds
  {}

  lemma NothingShadowed()
    ensures forall d :: !ShadowDiag([], d)
  {}

  // ---- which policy warnings there can be ----

  /** The two rules the theorems are about. */
  predicate Tracked(r: Rule) {
    r.Shadowed? || r.FallbackCannotServe?
  }

  ghost predicate AddsUntracked(before: seq<Diag>, after: seq<Diag>) {
    before <= after && forall d | d in after && Tracked(d.rule) :: d in before
  }

  lemma {:induction false} IncludesUntracked(p: PolicyResource, names: seq<string>, ctx: Context, ds: seq<Diag>)
    ensures AddsUntracked(ds, IncludeChecks(p, names, ctx, ds))
  {
    hide InNs, DiagName;
    if names != [] {
      IncludesUntracked(p, names[..|names| - 1], ctx, ds);
    }
  }

  lemma {:induction false} ExcludesUntracked(p: PolicyResource, names: seq<string>, ctx: Context, ds: seq<Diag>)
    ensures AddsUntracked(ds, ExcludeWarnings(p, names, ctx, ds))
  {
    hide InNs, DiagName;
    if names != [] {
      ExcludesUntracked(p, names[..|names| - 1], ctx, ds);
    }
  }

  lemma CandidatesUntracked(p: PolicyResource, ctx: Context, ds: seq<Diag>)
    ensures AddsUntracked(ds, CandidateChecks(p, ctx, ds))
  {
    hide DiagName, IncludeChecks, ExcludeWarnings, CandidateSet, SelectedTiers;
    var d1 := PushIf(p.matchLabels != map[] && p.include_ == [] && SelectedTiers(p, ctx) == {}, ds,
                     Diag(Warning, RoutingPolicy, DiagName(p.meta), SelectorMatchesNothing));
    IncludesUntracked(p, p.include_, ctx, d1);
    ExcludesUntracked(p, p.exclude, ctx, IncludeChecks(p, p.include_, ctx, d1));
  }

  lemma RangesUntracked(p: PolicyResource, ds: seq<Diag>)
    ensures AddsUntracked(ds, RangeChecks(p, ds))
  {
    hide DiagName, Unit, NonNegative, WeightsOk;
  }

  lemma LearnedUntracked(p: PolicyResource, ctx: Context, ds: seq<Diag>)
    ensures AddsUntracked(ds, LearnedChecks(p, ctx, ds))
  {
    hide DiagName, Unit;
  }

  /** A class the fallback tier cannot serve, and the warning that says so. */
  ghost predicate CannotServe(p: PolicyResource, ctx: Context, k: string) {
    && p.fallbackTier.Some? && p.fallbackTier.value in ctx.tiers && p.respectDataClass
    && k in ctx.classes && ClassClash(ctx.tiers[p.fallbackTier.value], ctx.classes[k]).Some?
  }

  function Warned(p: PolicyResource, ctx: Context, k: string): Diag
    requires CannotServe(p, ctx, k)
  {
    Diag(Warning, RoutingPolicy, DiagName(p.meta),
         FallbackCannotServe(p.fallbackTier.value, ctx.classes[k].name,
                             ClassClash(ctx.tiers[p.fallbackTier.value], ctx.classes[k]).value))
  }

  /** `after` is `before`, untracked diagnostics, and a warning for each class that cannot be served. */
  ghost predicate AddsWarnings(p: PolicyResource, ctx: Context, before: seq<Diag>, after: seq<Diag>) {
    && before <= after
    && (forall d | d in after && Tracked(d.rule) ::
          d in before || exists k :: CannotServe(p, ctx, k) && d == Warned(p, ctx, k))
    && (forall k | CannotServe(p, ctx, k) :: Warned(p, ctx, k) in after)
  }

  lemma {:induction false} FallbackWarned(p: PolicyResource, names: seq<string>, ctx: Context, ds: seq<Diag>)
    requires p.fallbackTier.Some? && p.fallbackTier.value in ctx.tiers && p.respectDataClass
    ensures var after := FallbackWarnings(p, ctx.tiers[p.fallbackTier.value], p.fallbackTier.value, names, ctx, ds);
      && ds <= after
      && (forall d | d in after && Tracked(d.rule) ::
            d in ds || exists k :: CannotServe(p, ctx, k) && d == Warned(p, ctx, k))
      && (forall k | k in names && CannotServe(p, ctx, k) :: Warned(p, ctx, k) in after)
  {
    hide ClassClash, DiagName;
    if names != [] {
      var front, last := names[..|names| - 1], names[|names| - 1];
      assert names == front + [last];
      FallbackWarned(p, front, ctx, ds);
      assert forall k :: k in names <==> k in front || k == last;
      if last in ctx.classes && ClassClash(ctx.tiers[p.fallbackTier.value], ctx.classes[last]).Some? {
        assert CannotServe(p, ctx, last);
        assert FallbackWarnings(p, ctx.tiers[p.fallbackTier.value], p.fallbackTier.value, names, ctx, ds)
          == FallbackWarnings(p, ctx.tiers[p.fallbackTier.value], p.fallbackTier.value, front, ctx, ds)
            + [Warned(p, ctx, last)];
      }
    }
  }

  lemma FallbackIsWarned(p: PolicyResource, ctx: Context, ds: seq<Diag>)
    requires FallbackFound(p, ctx)
    ensures AddsWarnings(p, ctx, ds, FallbackChecks(p, ctx, ds))
  {
    hide ClassClash, DiagName, FallbackWarnings;
    AscendingSound(ctx.classes.Keys);
    if p.fallbackTier.Some? && p.respectDataClass {
      FallbackWarned(p, Ascending(ctx.classes.Keys), ctx, ds);
    }
  }

  lemma PolicyIsWarned(p: PolicyResource, ctx: Context, ds: seq<Diag>)
    requires FallbackFound(p, ctx)
    ensures AddsWarnings(p, ctx, ds, PolicyChecks(p, ctx, ds))
  {
    hide ClassClash, DiagName, FallbackFound, FallbackChecks, CandidateChecks, RangeChecks, LearnedChecks,
      CannotServe, Warned;
    var d1 := CandidateChecks(p, ctx, ds);
    var d2 := RangeChecks(p, d1);
    var d3 := LearnedChecks(p, ctx, d2);
    CandidatesUntracked(p, ctx, ds);
    RangesUntracked(p, d1);
    LearnedUntracked(p, ctx, d2);
    FallbackIsWarned(p, ctx, d3);
  }

  /** The tracked diagnostics of the policy pass, for valid policies. */
  lemma {:induction false} PoliciesAreWarned(ps: seq<PolicyResource>, ctx: Context, ds: seq<Diag>)
    requires PoliciesWF(ps, ctx)
    ensures var after := PolicyPass(ps, ctx, ds).diags;
      && (forall d | d in after && Tracked(d.rule) ::
            d in ds || exists p, k :: p in ps && CannotServe(p, ctx, k) && d == Warned(p, ctx, k))
      && (forall p, k | p in ps && CannotServe(p, ctx, k) :: Warned(p, ctx, k) in after)
  {
    hide PolicyChecks, CannotServe, Warned, Tracked, CompilePolicy, PolicyKey, FallbackFound, CandidateSet, InNs,
      Unit, NonNegative, WeightsOk;
    if ps != [] {
      var front, p := ps[..|ps| - 1], ps[|ps| - 1];
      assert ps == front + [p];
      NamedApartSnoc(PolicyName, front, p);
      PoliciesAreWarned(front, ctx, ds);
      PolicyPassSound(front, ctx, ds);
      assert p in ps && PolicyValid(p, ctx);
      PolicyIsWarned(p, ctx, PolicyPass(front, ctx, ds).diags);
      assert forall q :: q in ps <==> q in front || q == p;
    }
  }

  // ---- the report of a successful compilation ----

  ghost predicate FallbackDiag(input: CompileInput, d: Diag) {
    exists p, k :: p in input.policies && CannotServe(p, ContextOf(input), k) && d == Warned(p, ContextOf(input), k)
  }

  lemma ReportedWarnings(input: CompileInput)
    requires Compile(input).core.Some?
    ensures Compile(input).report == ShadowWarnings(Compile(input).core.value.policies, StagesOf(input).policies)
    ensures forall d | d in StagesOf(input).policies && d.kind == RoutingPolicy && Tracked(d.rule) ::
      FallbackDiag(input, d)
    ensures forall d | FallbackDiag(input, d) :: d in StagesOf(input).policies
  {
    hide CannotServe, Warned, ClassPass, FxPass, ProfilePass, TierPass, PolicyPass, ShadowWarnings, PoliciesWF,
      SortBy, RatesConsistent, ProfilesWF, ClassesWF, TiersWF, Realises, Tracked, HasErrors;
    CompileIsExact(input);
    DiagsNameObjects(input);
    PoliciesAreWarned(input.policies, ContextOf(input), StagesOf(input).tiers);
  }

  /** A successful compilation reports as shadowed exactly the policies that come second to an identical match. */
  lemma ShadowReportIsExact(input: CompileInput, d: Diag)
    requires Compile(input).core.Some? && d.kind == RoutingPolicy && d.rule.Shadowed?
    ensures d in Compile(input).report <==> ShadowDiag(Compile(input).core.value.policies, d)
  {
    hide Compile, StagesOf, ShadowDiag, CannotServe, ShadowWarnings;
    ReportedWarnings(input);
    ShadowWarningsExact(Compile(input).core.value.policies, StagesOf(input).policies);
  }

  /** It warns about a fallback tier exactly when the tier cannot serve the class. */
  lemma FallbackReportIsExact(input: CompileInput, d: Diag)
    requires Compile(input).core.Some? && d.kind == RoutingPolicy && d.rule.FallbackCannotServe?
    ensures d in Compile(input).report <==> FallbackDiag(input, d)
  {
    hide Compile, StagesOf, FallbackDiag, ShadowWarnings;
    ReportedWarnings(input);
    ShadowWarningsExact(Compile(input).core.value.policies, StagesOf(input).policies);
  }

  // ---- shadowed policies are never selected ----

  lemma {:induction false} FilterHead<T(!new)>(test: T -> bool, xs: seq<T>, i: nat)
    requires i < |xs| && test(xs[i])
    ensures Filter(test, xs) != [] && Filter(test, xs)[0] in xs[..i + 1]
  {
    var front, x := xs[..|xs| - 1], xs[|xs| - 1];
    if i == |front| {
      FilterKeeps(test, front);
      assert xs[..i + 1] == front + [x];
      if Filter(test, front) != [] {
        assert Filter(test, front)[0] in Filter(test, front);
      }
    } else {
      FilterHead(test, front, i);
      assert front[..i + 1] == xs[..i + 1];
    }
  }

  /** A policy reported as shadowed is never selected by a request without a policy hint. */
  lemma ShadowedIsNeverSelected(input: CompileInput, hash: string, req: E.Request, d: Diag)
    requires Compile(input).core.Some? && req.hints.policy.None?
    requires d in Compile(input).report && d.kind == RoutingPolicy && d.rule.Shadowed?
    ensures var p := E.Selection(Snapshot(hash, Compile(input).core.value), req).0; p.Some? ==> p.value.key != d.name
  {
    hide Compile, WellKeyed, EngineHints.HeadersUnambiguous, SoundPolicy, E.ScopeMatches, NamedApart;
    ShadowReportIsExact(input, d);
    CompiledIsSound(input);
    var ps := Compile(input).core.value.policies;
    var i: nat, j: nat :| i < j < |ps| && Shadows(ps, i, j)
                          && d == Diag(Warning, RoutingPolicy, ps[j].key, Shadowed(ps[i].key));
    var matching := E.Matching(ps, req);
    if matching != [] && matching[0].key == ps[j].key {
      FirstWithKey(ps, req, j);
      SameScopeMatches(ps[i], ps[j], req);
      FilterHead(E.InScope(req), ps, i);
      var k :| 0 <= k < i + 1 && ps[k] == matching[0];
      KeysApart(ps, k, j);
    }
  }

  lemma KeysApart(ps: seq<Policy>, i: nat, j: nat)
    requires NamedApart(KeyName, ps) && i < j < |ps|
    ensures ps[i].key != ps[j].key
  {
    assert KeyName(ps[i]) != KeyName(ps[j]);
  }

  lemma SameScopeMatches(a: Policy, b: Policy, req: E.Request)
    ensures SameScope(a, b) ==> E.ScopeMatches(a.scope, req) == E.ScopeMatches(b.scope, req)
  {}

  /** Only policy `j` has its key, so if a policy with that key matches, it is `j`. */
  lemma FirstWithKey(ps: seq<Policy>, req: E.Request, j: nat)
    requires NamedApart(KeyName, ps) && j < |ps|
    requires E.Matching(ps, req) != [] && E.Matching(ps, req)[0].key == ps[j].key
    ensures E.InScope(req)(ps[j])
  {
    hide E.ScopeMatches, NamedApart;
    FilterKeeps(E.InScope(req), ps);
    var first := E.Matching(ps, req)[0];
    assert first in E.Matching(ps, req);
    var k :| 0 <= k < |ps| && ps[k] == first;
    if k < j {
      KeysApart(ps, k, j);
    } else if j < k {
      KeysApart(ps, j, k);
    }
  }

  // ---- fallback warnings and data-class blocks ----

  /** The decision blocks a degraded request because of its data class. */
  predicate BlockedByClass(e: E.Explanation) {
    && e.outcome == E.Block && e.reason.Some? && e.reason.value.FallbackEliminated?
    && e.reason.value.why == E.ClassificationDegraded
    && 1 <= Position(e.reason.value.cause) <= 5
  }

  lemma FactOrClass(t: Tier, p: Policy, req: E.Request, f: E.Findings, dc: Option<DataClass>)
    ensures var v := E.RequestFactViolation(t, p, req, f, dc);
      v.Some? && 1 <= Position(v.value) <= 5 <==> E.PolicyClassViolation(t, p, dc).Some?
  {}

  lemma BlockedByClassExactly(
    predict: E.Predictor, core: Core, p: Policy, req: E.Request, f: E.Findings, dc: Option<DataClass>, d: E.Explanation)
    ensures BlockedByClass(E.Judge(predict, core, p, req, f, dc, d)) <==>
      && !E.Denied(p, f) && E.DegradedList(core, p, f) != []
      && p.fallbackTier.Some? && p.fallbackTier.value in core.tiers
      && E.PolicyClassViolation(core.tiers[p.fallbackTier.value], p, dc).Some?
  {
    hide E.RequestFactViolation, E.HardConstraintViolation, E.PolicyClassViolation, E.ScoreAndSelect, E.Survivors,
      E.Eliminations, E.DegradedList, SortBy, E.FindTier, E.RouteToFallback;
    if E.Denied(p, f) {
    } else if E.DegradedList(core, p, f) != [] {
      var d' := d.(degraded := E.DegradedList(core, p, f), fallback := true);
      FallbackOutcome(predict, core, p, req, f, dc, d', E.ClassificationDegraded);
      if p.fallbackTier.Some? && p.fallbackTier.value in core.tiers {
        FactOrClass(core.tiers[p.fallbackTier.value], p, req, f, dc);
      }
    } else {
      UndegradedBlocksOtherwise(predict, core, p, req, f, dc, d);
    }
  }

  lemma UndegradedBlocksOtherwise(
    predict: E.Predictor, core: Core, p: Policy, req: E.Request, f: E.Findings, dc: Option<DataClass>, d: E.Explanation)
    requires !E.Denied(p, f) && E.DegradedList(core, p, f) == []
    ensures !BlockedByClass(E.Judge(predict, core, p, req, f, dc, d))
  {
    hide E.HardConstraintViolation, E.ScoreAndSelect, E.Survivors, E.Eliminations, E.DegradedList, SortBy, E.FindTier;
    var d' := d.(candidates := d.candidates + E.Eliminations(core, p.candidates, p, req, f, dc), fallback := true);
    if E.Survivors(core, p.candidates, p, req, f, dc) == [] {
      FallbackOutcome(predict, core, p, req, f, dc, d', E.NothingSurvives);
    } else {
      ScoringSelects(predict, core, p, req, f, dc, d);
    }
  }

  /** The policy's fallback warning for a data class. */
  predicate WarnsOf(d: Diag, p: PolicyResource, k: string) {
    d.kind == RoutingPolicy && d.name == DiagName(p.meta) && d.rule.FallbackCannotServe? && d.rule.dataClass == k
  }

  lemma SameDiagNameSamePolicy(input: CompileInput, p: PolicyResource, q: PolicyResource)
    requires NamedApart(PolicyName, input.policies) && p in input.policies && q in input.policies
            && DiagName(p.meta) == DiagName(q.meta)
    ensures p == q
  {
    hide NsOf;
    var i :| 0 <= i < |input.policies| && input.policies[i] == p;
    var j :| 0 <= j < |input.policies| && input.policies[j] == q;
    assert PolicyName(p).Some? && PolicyName(q).Some?;
    assert PolicyName(p) == PolicyName(q);
  }

  lemma WarnedIffCannotServe(input: CompileInput, p: PolicyResource, k: string)
    requires Compile(input).core.Some? && p in input.policies
    ensures (exists d :: d in Compile(input).report && WarnsOf(d, p, k)) <==> CannotServe(p, ContextOf(input), k)
  {
    hide Compile, ContextOf, ClassClash, DiagName, WellKeyed, SoundPolicy, EngineHints.HeadersUnambiguous,
      RatesConsistent, ProfilesWF, ClassesWF, TiersWF, PolicyValid, Holds, NamedApart;
    var ctx := ContextOf(input);
    CompileIsExact(input);
    CompiledIsSound(input);
    ClassNames(Compile(input).core.value);
    if d :| d in Compile(input).report && WarnsOf(d, p, k) {
      FallbackReportIsExact(input, d);
      var p', k' :| p' in input.policies && CannotServe(p', ctx, k') && d == Warned(p', ctx, k');
      SameDiagNameSamePolicy(input, p, p');
      assert ctx.classes[k'].name == k';
    }
    if CannotServe(p, ctx, k) {
      FallbackReportIsExact(input, Warned(p, ctx, k));
      assert WarnsOf(Warned(p, ctx, k), p, k);
    }
  }

  lemma ClassNames(core: Core)
    ensures WellKeyed(core) ==> forall n | n in core.dataClasses :: core.dataClasses[n].name == n
  {}

  lemma ClassBound(p: PolicyResource, ctx: Context, k: string)
    requires p.fallbackTier.Some? && p.fallbackTier.value in ctx.tiers && k in ctx.classes
    ensures E.PolicyClassViolation(ctx.tiers[p.fallbackTier.value], PolicyCompiler(ctx)(p),
                                   Some(ctx.classes[k])).Some? <==>
            CannotServe(p, ctx, k)
  {
    hide ClassClash, E.DataClassViolation, CandidateSet, CompileWeights, ToMicroEur;
    ClassChecksAgree(ctx.tiers[p.fallbackTier.value], ctx.classes[k]);
  }

  /**
   The fallback warnings are exact: a policy is warned about a data class if and only if every degraded request
   of that class judged under the policy is blocked because of its class, risk denial aside.
   */
  lemma FallbackWarningIsExact(
    predict: E.Predictor, input: CompileInput, p: PolicyResource, k: string, req: E.Request, f: E.Findings,
    d: E.Explanation)
    requires Compile(input).core.Some? && p in input.policies && k in Compile(input).core.value.dataClasses
    requires var q := PolicyCompiler(ContextOf(input))(p);
      !E.Denied(q, f) && E.DegradedList(Compile(input).core.value, q, f) != []
    ensures var core := Compile(input).core.value;
      (exists d' :: d' in Compile(input).report && WarnsOf(d', p, k)) <==>
      BlockedByClass(E.Judge(predict, core, PolicyCompiler(ContextOf(input))(p), req, f, Some(core.dataClasses[k]), d))
  {
    hide Compile, ContextOf, RatesConsistent, ProfilesWF, ClassesWF, TiersWF, PoliciesWF, Holds, BlockedByClass,
      E.Judge, E.DegradedList, E.PolicyClassViolation, ClassClash, E.Denied, CandidateSet, CompileWeights, ToMicroEur;
    var core, ctx := Compile(input).core.value, ContextOf(input);
    CompileIsExact(input);
    WarnedIffCannotServe(input, p, k);
    BlockedByClassExactly(predict, core, PolicyCompiler(ctx)(p), req, f, Some(core.dataClasses[k]), d);
    if p.fallbackTier.Some? && p.fallbackTier.value in ctx.tiers {
      ClassBound(p, ctx, k);
    }
  }

  /** A policy without fallback warnings never blocks a degraded request for a data-class reason. */
  lemma UnwarnedNeverBlocksByClass(
    predict: E.Predictor, input: CompileInput, hash: string, p: PolicyResource, req: E.Request, f: E.Findings)
    requires Compile(input).core.Some? && p in input.policies
    requires E.Selection(Snapshot(hash, Compile(input).core.value), req).0 == Some(PolicyCompiler(ContextOf(input))(p))
    requires forall d, k | d in Compile(input).report :: !WarnsOf(d, p, k)
    ensures !BlockedByClass(E.Decide(predict, Snapshot(hash, Compile(input).core.value), req, f))
  {
    hide Compile, ContextOf, E.Judge, E.Selection, E.Resolved, E.HeaderNotes, WellKeyed, SoundPolicy,
      EngineHints.HeadersUnambiguous, E.RoutesAlias, WarnsOf, E.DegradedList, E.Denied, CandidateSet, CompileWeights,
      ToMicroEur;
    var core := Compile(input).core.value;
    var snap, q := Snapshot(hash, core), PolicyCompiler(ContextOf(input))(p);
    if E.RoutesAlias(q, req) {
      var dc, d := E.Resolved(snap, req, f), E.Prepared(snap, req, f, q);
      BlockedByClassExactly(predict, core, q, req, f, dc, d);
      if dc.Some? && BlockedByClass(E.Judge(predict, core, q, req, f, dc, d)) {
        CompiledIsSound(input);
        var k := ResolvedIsNamed(core, req, f, hash);
        FallbackWarningIsExact(predict, input, p, k, req, f, d);
      }
    }
  }

  lemma ResolvedIsNamed(core: Core, req: E.Request, f: E.Findings, hash: string) returns (k: string)
    requires E.Resolved(Snapshot(hash, core), req, f).Some?
    ensures k in core.dataClasses && E.Resolved(Snapshot(hash, core), req, f) == Some(core.dataClasses[k])
  {
    hide E.ResolveDataClass;
    EngineHints.ResolvedIsMaximal(core.dataClasses, req.hints.dataClasses, f);
    EngineHints.ConsideredAreClasses(core.dataClasses, req.hints.dataClasses, f);
    var dc := E.Resolved(Snapshot(hash, core), req, f).value;
    k :| k in core.dataClasses && core.dataClasses[k] == dc;
  }
}
