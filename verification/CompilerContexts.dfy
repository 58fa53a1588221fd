/**
 What later passes need of earlier ones: how tiers stay valid under other classes
 and exchange rates and policies under other tiers, and that an input determines
 the context its policies are judged in.
 */
module CompilerContexts {
  import opened Ordering
  import opened Snapshots
  import opened Compiler
  import opened CompilerFacts
  import opened CompilerReferences
  import opened CompilerOrder

  // ---- larger contexts keep policies valid ----

  /** Everything the policy pass could find is still there, with the same labels and namespaces. */
  ghost predicate Extends(ctx: Context, ctx': Context) {
    && (forall n | n in ctx.tiers :: n in ctx'.tiers && ctx'.tiers[n].labels == ctx.tiers[n].labels)
    && (forall n | n in ctx.tierNs :: n in ctx'.tierNs && ctx'.tierNs[n] == ctx.tierNs[n])
    && ctx.profileNames <= ctx'.profileNames
  }

  lemma CandidatesGrow(p: PolicyResource, ctx: Context, ctx': Context)
    requires Extends(ctx, ctx')
    ensures CandidateSet(p, ctx) <= CandidateSet(p, ctx')
  {
    hide NsOf;
    assert SelectedTiers(p, ctx) <= SelectedTiers(p, ctx');
  }

  lemma PolicyStaysValid(p: PolicyResource, ctx: Context, ctx': Context)
    requires Extends(ctx, ctx') && PolicyValid(p, ctx)
    ensures PolicyValid(p, ctx')
  {
    hide CandidateSet, NsOf, Unit, NonNegative, WeightsOk;
    CandidatesGrow(p, ctx, ctx');
  }

  lemma PoliciesStayWF(ps: seq<PolicyResource>, ctx: Context, ctx': Context)
    requires Extends(ctx, ctx') && PoliciesWF(ps, ctx)
    ensures PoliciesWF(ps, ctx')
  {
    hide PolicyValid, Extends;
    forall p | p in ps ensures PolicyValid(p, ctx') {
      PolicyStaysValid(p, ctx, ctx');
    }
  }

  // ---- tiers under other classes and rates ----

  lemma TiersStayWF(ts: seq<TierResource>, names: set<string>, names': set<string>, fx: map<string, real>)
    requires names <= names' && TiersWF(ts, names, fx)
    ensures TiersWF(ts, names', fx)
  {
    hide Unit, NonNegative, Trim, Priced;
  }

  lemma SameTiersExtend(ctx: Context, ctx': Context)
    ensures ctx'.tiers == ctx.tiers && ctx'.tierNs == ctx.tierNs && ctx.profileNames <= ctx'.profileNames ==>
      Extends(ctx, ctx')
  {}

  ghost predicate PositiveRates(fx: map<string, real>) {
    forall cur | cur in fx :: fx[cur] > 0.0
  }

  lemma {:induction false} RatesStayPositive(st: FxState, p: ProfileResource, curs: seq<string>)
    requires PositiveRates(st.fx)
    ensures PositiveRates(AddRates(st, p, curs).fx)
    ensures st.fx.Keys <= AddRates(st, p, curs).fx.Keys
  {
    hide DiagName, Conflicts;
    if curs != [] {
      RatesStayPositive(st, p, curs[..|curs| - 1]);
    }
  }

  lemma {:induction false} FxIsPositive(ps: seq<ProfileResource>)
    ensures PositiveRates(FxPass(ps).fx)
  {
    hide AddRates;
    if ps != [] {
      FxIsPositive(ps[..|ps| - 1]);
      RatesStayPositive(FxPass(ps[..|ps| - 1]), ps[|ps| - 1], Ascending(ps[|ps| - 1].fxToEur.Keys));
    }
  }

  lemma ProductNonNegative(x: real, y: real)
    ensures x >= 0.0 && y >= 0.0 ==> x * y >= 0.0
  {}

  lemma NonNegativePrice(price: real, rate: real)
    requires price >= 0.0 && rate >= 0.0
    ensures MicroEur(price, rate).Some?
  {
    ProductNonNegative(price, rate);
  }

  lemma PricedUnderMoreRates(price: Float, currency: Currency, fx: map<string, real>, fx': map<string, real>)
    requires NonNegative(price) && PositiveRates(fx') && fx.Keys <= fx'.Keys
    requires ToMicroEur(price, currency, fx).Some?
    ensures ToMicroEur(price, currency, fx').Some?
  {
    hide MicroEur, PositiveRates;
    var rate := RateFor(currency, fx');
    if currency == Usd {
      PositiveEntry(fx', "USD");
    }
    NonNegativePrice(price.value, rate.value);
  }

  lemma PositiveEntry(fx: map<string, real>, cur: string)
    ensures PositiveRates(fx) && cur in fx ==> fx[cur] > 0.0
  {}

  lemma TiersStayPriced(ts: seq<TierResource>, names: set<string>, fx: map<string, real>, fx': map<string, real>)
    requires TiersWF(ts, names, fx) && PositiveRates(fx') && fx.Keys <= fx'.Keys
    ensures TiersWF(ts, names, fx')
  {
    hide Unit, Trim, ToMicroEur, PositiveRates;
    forall t | t in ts ensures TierValid(t, names, fx') {
      PricedUnderMoreRates(t.inputPerMillion, t.currency, fx, fx');
      PricedUnderMoreRates(t.outputPerMillion, t.currency, fx, fx');
    }
  }

  /** Tiers compiled under another table differ in their prices only. */
  lemma RepricedTiersExtend(ctx: Context, ctx': Context, ts: seq<TierResource>, ts': seq<TierResource>)
    requires Holds(ctx.tiers, TierName, TierCompiler(ctx.fx), ts)
    requires Holds(ctx'.tiers, TierName, TierCompiler(ctx'.fx), ts') && forall t | t in ts :: t in ts'
    requires ctx'.tierNs == ctx.tierNs && ctx.profileNames <= ctx'.profileNames
    ensures Extends(ctx, ctx')
  {
    hide ToMicroEur, ToReal;
    forall n | n in ctx.tiers ensures n in ctx'.tiers && ctx'.tiers[n].labels == ctx.tiers[n].labels {
      assert Taken(TierName, ts, Some(n));
      var i :| 0 <= i < |ts| && TierName(ts[i]) == Some(n);
      assert ts[i] in ts';
      LabelsCompiled(ts[i], ctx.fx);
      LabelsCompiled(ts[i], ctx'.fx);
    }
  }

  lemma LabelsCompiled(t: TierResource, fx: map<string, real>)
    ensures TierCompiler(fx)(t).labels == t.labels
  {}

  // ---- the context is determined by the input ----

  lemma QuotesUnique(fx: map<string, real>, fx': map<string, real>, ps: seq<ProfileResource>)
    requires Quotes(fx, ps) && Quotes(fx', ps)
    ensures fx == fx'
  {
    forall cur ensures cur in fx <==> cur in fx' {
      assert LastDeclared(ps, cur).Some? <==> cur in fx;
    }
    forall cur | cur in fx ensures fx[cur] == fx'[cur] {
      assert LastDeclared(ps, cur) == Some(Finite(fx[cur]));
    }
  }

  /** A context that represents a well-formed input is the one the passes compute. */
  lemma RepresentsUnique(ctx: Context, profiles: map<string, Profile>, input: CompileInput)
    requires Represents(ctx, profiles, input) && WellFormed(input, ctx)
    ensures ctx == ContextOf(input)
  {
    hide FxPass, ProfilePass, ClassPass, TierPass, HasErrors, RatesConsistent, Quotes, ProfilesWF, ClassesWF, TiersWF,
      PoliciesWF, Holds;
    var fx := FxPass(input.profiles);
    FxPassSound(input.profiles);
    QuotesUnique(ctx.fx, fx.fx, input.profiles);
    ProfilePassSound(input.profiles, fx.diags);
    var st := ProfilePass(input.profiles, fx.diags);
    HoldsUnique(profiles, st.profiles, ProfileName, ProfileCompiler(), input.profiles, input.profiles);
    ClassPassSound(input.dataClasses, st.diags);
    var classes := ClassPass(input.dataClasses, st.diags);
    HoldsUnique(ctx.classes, classes.classes, ClassName, ClassCompiler(), input.dataClasses, input.dataClasses);
    TierPassSound(input.tiers, ctx.classes, ctx.fx, classes.diags);
    var tiers := TierPass(input.tiers, ctx.classes, ctx.fx, classes.diags);
    HoldsUnique(ctx.tiers, tiers.tiers, TierName, TierCompiler(ctx.fx), input.tiers, input.tiers);
    HoldsUnique(ctx.tierNs, tiers.tierNs, TierName, TierNsOf(), input.tiers, input.tiers);
  }

  /**
   Without a word about the passes: an input compiles to a snapshot if and only if some context represents the
   declared rates and objects, the input is well formed in it, and the snapshot realises it.
   */
  lemma CompileIsDeclarative(input: CompileInput, core: Core)
    ensures Compile(input).core == Some(core) <==> exists ctx :: WellFormed(input, ctx) && Realises(core, ctx, input)
  {
    hide Compile, ContextOf, RatesConsistent, Quotes, ProfilesWF, ClassesWF, TiersWF, PoliciesWF, Holds, SortBy;
    CompileIsExact(input);
    if ctx :| WellFormed(input, ctx) && Realises(core, ctx, input) {
      RepresentsUnique(ctx, core.profiles, input);
      var compiled := Compile(input).core.value;
      HoldsUnique(core.profiles, compiled.profiles, ProfileName, ProfileCompiler(), input.profiles, input.profiles);
    }
  }
}
