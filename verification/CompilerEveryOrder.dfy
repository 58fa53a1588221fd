/**
 Which inputs compile in every order of their objects, and when the conversion
 table is then the same in all of them.
 */
module CompilerEveryOrder {
  import opened Ordering
  import opened Snapshots
  import opened Compiler
  import opened CompilerFacts
  import opened CompilerReferences
  import opened CompilerOrder
  import opened CompilerContexts

  // ---- rates that are consistent in every order ----

  /** Every order of the profiles is free of rate errors. */
  ghost predicate AlwaysConsistent(ps: seq<ProfileResource>) {
    forall qs | multiset(qs) == multiset(ps) :: RatesConsistent(qs)
  }

  /** The profile that comes last decides the rates it declares. */
  lemma LastDecides(ps: seq<ProfileResource>, i: nat, cur: string) returns (qs: seq<ProfileResource>)
    requires i < |ps| && cur in ps[i].fxToEur && AlwaysConsistent(ps)
    ensures multiset(qs) == multiset(ps)
    ensures ValidRate(ps[i].fxToEur[cur]) && cur in FxPass(qs).fx && FxPass(qs).fx[cur] == ps[i].fxToEur[cur].value
  {
    hide FxPass, RatesFit, RatesConsistent, ValidRate;
    qs := Drop(ps, i) + [ps[i]];
    Dropped(ps, i);
    assert RatesConsistent(qs);
    ConsistentSnoc(Drop(ps, i), ps[i]);
    AddedEntry(Drop(ps, i), ps[i], cur);
  }

  /** Every declared rate is valid, and any two declared for one currency are within EPSILON of each other. */
  ghost predicate PairwiseNear(ps: seq<ProfileResource>) {
    forall p, q, cur | p in ps && q in ps && cur in p.fxToEur && cur in q.fxToEur ::
      RateFollows(Some(q.fxToEur[cur]), p.fxToEur[cur])
  }

  lemma NearIsConsistent(ps: seq<ProfileResource>)
    requires PairwiseNear(ps)
    ensures RatesConsistent(ps)
  {
    hide RateFollows;
    forall i | 0 <= i < |ps| ensures RatesFollow(ps[..i], ps[i]) {
      forall cur | cur in ps[i].fxToEur ensures RateFollows(LastDeclared(ps[..i], cur), ps[i].fxToEur[cur]) {
        LastDeclaredIn(ps[..i], cur);
        var before := LastDeclared(ps[..i], cur);
        if before.Some? {
          var q :| q in ps[..i] && cur in q.fxToEur && before == Some(q.fxToEur[cur]);
          assert RateFollows(Some(q.fxToEur[cur]), ps[i].fxToEur[cur]);
        } else {
          assert RateFollows(Some(ps[i].fxToEur[cur]), ps[i].fxToEur[cur]);
          FollowsNothing(ps[i].fxToEur[cur], ps[i].fxToEur[cur]);
        }
      }
    }
  }

  lemma FollowsNothing(before: Float, rate: Float)
    ensures RateFollows(Some(before), rate) ==> RateFollows(None, rate)
    ensures RateFollows(None, rate) ==> RateFollows(Some(rate), rate)
  {}

  lemma LastDeclaredSnoc(front: seq<ProfileResource>, p: ProfileResource, cur: string)
    ensures cur in p.fxToEur ==> LastDeclared(front + [p], cur) == Some(p.fxToEur[cur])
  {}

  lemma TwoPutLast<T>(ps: seq<T>, i: nat, j: nat) returns (rest: seq<T>)
    requires i < |ps| && j < |ps| && i != j
    ensures multiset(rest + [ps[j]] + [ps[i]]) == multiset(ps)
  {
    Dropped(ps, i);
    var others := Drop(ps, i);
    var k := if j < i then j else j - 1;
    assert others[k] == ps[j];
    Dropped(others, k);
    rest := Drop(others, k);
  }

  /** A profile whose rate does not follow another's, or is not valid, fails in the order that puts the two last. */
  lemma BadPairFails(ps: seq<ProfileResource>, i: nat, j: nat, cur: string)
    requires i < |ps| && j < |ps| && cur in ps[i].fxToEur && cur in ps[j].fxToEur
    requires !RateFollows(Some(ps[j].fxToEur[cur]), ps[i].fxToEur[cur])
    ensures !AlwaysConsistent(ps)
  {
    hide RateFollows, RatesConsistent;
    if i == j {
      Dropped(ps, i);
      var rest := Drop(ps, i);
      RatesConsistentSnoc(rest, ps[i]);
      RateIsValid(LastDeclared(rest, cur), ps[i].fxToEur[cur]);
      FollowsNothing(ps[i].fxToEur[cur], ps[i].fxToEur[cur]);
      assert !RatesConsistent(rest + [ps[i]]);
    } else {
      var rest := TwoPutLast(ps, i, j);
      RatesConsistentSnoc(rest + [ps[j]], ps[i]);
      LastDeclaredSnoc(rest, ps[j], cur);
      assert !RatesConsistent(rest + [ps[j]] + [ps[i]]);
    }
  }

  lemma RateIsValid(before: Option<Float>, rate: Float)
    ensures RateFollows(before, rate) ==> RateFollows(None, rate)
  {}

  /** No order of the profiles has a rate error exactly when the rates are valid and near each other in pairs. */
  lemma AlwaysConsistentExactly(ps: seq<ProfileResource>)
    ensures AlwaysConsistent(ps) <==> PairwiseNear(ps)
  {
    hide RateFollows, RatesConsistent;
    if PairwiseNear(ps) {
      forall qs | multiset(qs) == multiset(ps) ensures RatesConsistent(qs) {
        SameMultiset(qs, ps);
        NearIsConsistent(qs);
      }
    }
    if AlwaysConsistent(ps) {
      forall p, q, cur | p in ps && q in ps && cur in p.fxToEur && cur in q.fxToEur
        ensures RateFollows(Some(q.fxToEur[cur]), p.fxToEur[cur])
      {
        var i :| 0 <= i < |ps| && ps[i] == p;
        var j :| 0 <= j < |ps| && ps[j] == q;
        if !RateFollows(Some(q.fxToEur[cur]), p.fxToEur[cur]) {
          BadPairFails(ps, i, j, cur);
        }
      }
    }
  }

  // ---- inputs that compile in every order ----

  ghost predicate CompilesInEveryOrder(input: CompileInput) {
    forall b | Rearranged(input, b) :: Compile(b).core.Some?
  }

  lemma SameCurrencies(a: seq<ProfileResource>, b: seq<ProfileResource>, fx: map<string, real>, fx': map<string, real>)
    requires multiset(a) == multiset(b) && Quotes(fx, a) && Quotes(fx', b)
    ensures fx.Keys == fx'.Keys
  {
    SameMultiset(a, b);
    forall cur ensures cur in fx <==> cur in fx' {
      LastDeclaredIn(a, cur);
      LastDeclaredIn(b, cur);
      assert LastDeclared(a, cur).Some? <==> cur in fx;
      assert LastDeclared(b, cur).Some? <==> cur in fx';
    }
  }

  /** Everything but the prices survives a rearrangement under which the rates stay consistent. */
  lemma RearrangedStillCompiles(a: CompileInput, b: CompileInput)
    requires Rearranged(a, b) && Compile(a).core.Some? && RatesConsistent(b.profiles)
    ensures Compile(b).core.Some?
  {
    hide Compile, HasErrors, FxPass, ProfilePass, ClassPass, TierPass, RatesConsistent, ProfilesWF, ClassesWF, TiersWF,
      PoliciesWF, Holds, Quotes, SortBy, PositiveRates, Extends;
    CompileIsExact(a);
    CompileIsExact(b);
    var ctx, ctx' := ContextOf(a), ContextOf(b);
    FxPassSound(a.profiles);
    FxPassSound(b.profiles);
    SameCurrencies(a.profiles, b.profiles, ctx.fx, ctx'.fx);
    FxIsPositive(b.profiles);
    RearrangedProfileSet(a.profiles, b.profiles);
    RearrangedClasses(a.dataClasses, b.dataClasses);
    var pa, pb := ProfilePass(a.profiles, FxPass(a.profiles).diags), ProfilePass(b.profiles, FxPass(b.profiles).diags);
    ClassPassSound(a.dataClasses, pa.diags);
    ClassPassSound(b.dataClasses, pb.diags);
    SameMultiset(a.dataClasses, b.dataClasses);
    HoldsUnique(ctx.classes, ctx'.classes, ClassName, ClassCompiler(), a.dataClasses, b.dataClasses);
    RearrangedTiers(a.tiers, b.tiers, ctx.classes.Keys, ctx.fx);
    TiersStayPriced(b.tiers, ctx.classes.Keys, ctx.fx, ctx'.fx);
    SameMultiset(a.tiers, b.tiers);
    TierPassSound(a.tiers, ctx.classes, ctx.fx, ClassPass(a.dataClasses, pa.diags).diags);
    TierPassSound(b.tiers, ctx'.classes, ctx'.fx, ClassPass(b.dataClasses, pb.diags).diags);
    HoldsUnique(ctx.tierNs, ctx'.tierNs, TierName, TierNsOf(), a.tiers, b.tiers);
    RepricedTiersExtend(ctx, ctx', a.tiers, b.tiers);
    RearrangedPolicies(a.policies, b.policies, ctx);
    PoliciesStayWF(b.policies, ctx, ctx');
  }

  /** Rearranged profiles are as well formed, and have the same names. */
  lemma RearrangedProfileSet(a: seq<ProfileResource>, b: seq<ProfileResource>)
    requires multiset(a) == multiset(b) && ProfilesWF(a)
    ensures ProfilesWF(b)
    ensures ProfilePass(b, FxPass(b).diags).profiles == ProfilePass(a, FxPass(a).diags).profiles
  {
    hide ProfileValid, FxPass, ProfilePass, Holds, HasErrors;
    SameMultiset(a, b);
    NamedApartPermutes(ProfileName, a, b);
    ProfilePassSound(a, FxPass(a).diags);
    ProfilePassSound(b, FxPass(b).diags);
    HoldsUnique(ProfilePass(a, FxPass(a).diags).profiles, ProfilePass(b, FxPass(b).diags).profiles,
                ProfileName, ProfileCompiler(), a, b);
  }

  /**
   An input compiles in every order of its objects exactly when it compiles in one and its rates are pairwise near.
   */
  lemma EveryOrderCompilesExactly(input: CompileInput)
    ensures CompilesInEveryOrder(input) <==> Compile(input).core.Some? && PairwiseNear(input.profiles)
  {
    hide Compile, PairwiseNear, RatesConsistent, WellFormed;
    AlwaysConsistentExactly(input.profiles);
    if CompilesInEveryOrder(input) {
      assert Rearranged(input, input);
      forall qs | multiset(qs) == multiset(input.profiles) ensures RatesConsistent(qs) {
        var b := input.(profiles := qs);
        assert Rearranged(input, b);
        ConsistentWhenCompiled(b);
      }
    }
    if Compile(input).core.Some? && AlwaysConsistent(input.profiles) {
      forall b | Rearranged(input, b) ensures Compile(b).core.Some? {
        assert RatesConsistent(b.profiles);
        RearrangedStillCompiles(input, b);
      }
    }
  }

  lemma ConsistentWhenCompiled(input: CompileInput)
    ensures Compile(input).core.Some? ==> RatesConsistent(input.profiles)
  {
    hide Compile, RatesConsistent, ProfilesWF, ClassesWF, TiersWF, PoliciesWF, Realises;
    CompileIsExact(input);
  }

  // ---- the conversion table ----

  ghost predicate TableIsOrderFree(ps: seq<ProfileResource>) {
    forall qs | multiset(qs) == multiset(ps) :: FxPass(qs).fx == FxPass(ps).fx
  }

  lemma OrderFreeAgrees(ps: seq<ProfileResource>)
    requires AlwaysConsistent(ps) && TableIsOrderFree(ps)
    ensures RatesAgree(ps)
  {
    hide FxPass, ValidRate, AlwaysConsistent;
    forall p, q, cur | p in ps && q in ps && cur in p.fxToEur && cur in q.fxToEur
      ensures ValidRate(p.fxToEur[cur]) && p.fxToEur[cur] == q.fxToEur[cur]
    {
      var i :| 0 <= i < |ps| && ps[i] == p;
      var j :| 0 <= j < |ps| && ps[j] == q;
      var qi := LastDecides(ps, i, cur);
      var qj := LastDecides(ps, j, cur);
      assert FxPass(qi).fx == FxPass(qj).fx;
      SameNumber(p.fxToEur[cur], q.fxToEur[cur]);
    }
  }

  lemma SameNumber(a: Float, b: Float)
    ensures ValidRate(a) && ValidRate(b) && a.value == b.value ==> a == b
  {}

  /**
   When the rates are pairwise near, the conversion table is independent of the order exactly when all rates agree.
   */
  lemma TableOrderExactly(ps: seq<ProfileResource>)
    requires PairwiseNear(ps)
    ensures TableIsOrderFree(ps) <==> RatesAgree(ps)
  {
    hide FxPass, PairwiseNear, AlwaysConsistent;
    AlwaysConsistentExactly(ps);
    if RatesAgree(ps) {
      ClearRatesDecide(ps);
      forall qs | multiset(qs) == multiset(ps) ensures FxPass(qs).fx == FxPass(ps).fx {
        SameMultiset(qs, ps);
        ClearRatesDecide(qs);
        SameTable(FxPass(qs).fx, FxPass(ps).fx, qs, ps);
      }
    }
    if TableIsOrderFree(ps) {
      OrderFreeAgrees(ps);
    }
  }

  // ---- the same snapshot in every order ----

  /** A dollar price comes out the same under two rates. */
  predicate ConvertsAlike(t: TierResource, rate: real, rate': real) {
    && MicroEur(ToReal(t.inputPerMillion), rate) == MicroEur(ToReal(t.inputPerMillion), rate')
    && MicroEur(ToReal(t.outputPerMillion), rate) == MicroEur(ToReal(t.outputPerMillion), rate')
  }

  /** The prices of every tier in dollars come out the same under any two rates declared for the dollar. */
  ghost predicate PricesAgree(input: CompileInput) {
    forall t, p, q | t in input.tiers && t.currency == Usd && p in input.profiles && q in input.profiles
                  && "USD" in p.fxToEur && "USD" in q.fxToEur ::
      ConvertsAlike(t, RateOf(p, "USD"), RateOf(q, "USD"))
  }

  ghost predicate SameInEveryOrder(input: CompileInput) {
    forall b | Rearranged(input, b) :: Compile(b).core == Compile(input).core
  }

  lemma CompileTierAlike(t: TierResource, name: string, fx: map<string, real>, fx': map<string, real>)
    requires fx.Keys == fx'.Keys
    requires t.currency == Usd && "USD" in fx ==> ConvertsAlike(t, fx["USD"], fx'["USD"])
    ensures CompileTier(t, name, fx) == CompileTier(t, name, fx')
  {
    hide MicroEur;
  }

  /** The rates are read by no policy. */
  lemma CompilePolicyIgnoresRates(p: PolicyResource, ctx: Context, fx: map<string, real>)
    ensures CompilePolicy(p, ctx.(fx := fx)) == CompilePolicy(p, ctx)
  {
    hide NsOf, MicroEur, Normalised, ModeWeights;
    var ctx' := ctx.(fx := fx);
    assert SelectedTiers(p, ctx') == SelectedTiers(p, ctx);
    assert CandidateSet(p, ctx') == CandidateSet(p, ctx);
  }

  lemma HoldsAlike<T, U>(m: map<string, U>, name: T -> Option<string>, f: T -> U, g: T -> U, xs: seq<T>)
    ensures Holds(m, name, f, xs) && (forall i :: 0 <= i < |xs| ==> f(xs[i]) == g(xs[i])) ==> Holds(m, name, g, xs)
  {}

  /** Two arrangements that compile, with tiers that come out the same under both tables, give one snapshot. */
  lemma SameCore(a: CompileInput, b: CompileInput)
    requires Rearranged(a, b) && Compile(a).core.Some? && Compile(b).core.Some?
    requires forall t | t in b.tiers :: TierCompiler(ContextOf(b).fx)(t) == TierCompiler(ContextOf(a).fx)(t)
    ensures Compile(b).core == Compile(a).core
  {
    hide Compile, ContextOf, RatesConsistent, ProfilesWF, ClassesWF, TiersWF, Holds, SortBy, Quotes, PolicyValid,
      TierCompiler;
    CompileIsExact(a);
    CompileIsExact(b);
    var x, y, ctx, ctx' := Compile(a).core.value, Compile(b).core.value, ContextOf(a), ContextOf(b);
    SameMultiset(a.profiles, b.profiles);
    SameMultiset(a.dataClasses, b.dataClasses);
    SameMultiset(a.tiers, b.tiers);
    HoldsUnique(x.profiles, y.profiles, ProfileName, ProfileCompiler(), a.profiles, b.profiles);
    HoldsUnique(ctx.classes, ctx'.classes, ClassName, ClassCompiler(), a.dataClasses, b.dataClasses);
    HoldsAlike(ctx'.tiers, TierName, TierCompiler(ctx'.fx), TierCompiler(ctx.fx), b.tiers);
    HoldsUnique(ctx.tiers, ctx'.tiers, TierName, TierCompiler(ctx.fx), a.tiers, b.tiers);
    HoldsUnique(ctx.tierNs, ctx'.tierNs, TierName, TierNsOf(), a.tiers, b.tiers);
    assert ctx' == ctx.(fx := ctx'.fx);
    forall i | 0 <= i < |b.policies| ensures PolicyCompiler(ctx')(b.policies[i]) == PolicyCompiler(ctx)(b.policies[i]) {
      CompilePolicyIgnoresRates(b.policies[i], ctx, ctx'.fx);
    }
    assert Map(PolicyCompiler(ctx'), b.policies) == Map(PolicyCompiler(ctx), b.policies);
    PoliciesSortAlike(a.policies, b.policies, ctx);
  }

  /** The dollar rate of a table is one of the declared ones. */
  lemma QuotedIsDeclared(fx: map<string, real>, ps: seq<ProfileResource>) returns (p: ProfileResource)
    requires Quotes(fx, ps) && "USD" in fx
    ensures p in ps && "USD" in p.fxToEur && fx["USD"] == RateOf(p, "USD")
  {
    LastDeclaredIn(ps, "USD");
    assert LastDeclared(ps, "USD") == Some(Finite(fx["USD"]));
    p :| p in ps && "USD" in p.fxToEur && LastDeclared(ps, "USD") == Some(p.fxToEur["USD"]);
  }

  lemma AgreeingPricesGiveOneCore(a: CompileInput, b: CompileInput)
    requires Rearranged(a, b) && Compile(a).core.Some? && Compile(b).core.Some? && PricesAgree(a)
    ensures Compile(b).core == Compile(a).core
  {
    hide Compile, FxPass, ProfilePass, ClassPass, TierPass, RatesConsistent, ProfilesWF, ClassesWF, TiersWF,
      PoliciesWF, Holds, SortBy, CompileTier, ConvertsAlike, RateOf, Quotes;
    CompileIsExact(a);
    CompileIsExact(b);
    var fx, fx' := ContextOf(a).fx, ContextOf(b).fx;
    SameCurrencies(a.profiles, b.profiles, fx, fx');
    SameMultiset(a.tiers, b.tiers);
    SameMultiset(a.profiles, b.profiles);
    forall t | t in b.tiers ensures TierCompiler(fx')(t) == TierCompiler(fx)(t) {
      if t.currency == Usd && "USD" in fx {
        var p := QuotedIsDeclared(fx, a.profiles);
        var q := QuotedIsDeclared(fx', b.profiles);
        assert ConvertsAlike(t, RateOf(p, "USD"), RateOf(q, "USD"));
      }
      CompileTierAlike(t, if t.meta.name.Some? then t.meta.name.value else "", fx, fx');
    }
    SameCore(a, b);
  }

  /** What a dollar tier costs in a snapshot compiled with the given profile's rate. */
  lemma PriceUnder(input: CompileInput, t: TierResource, p: ProfileResource)
    requires Compile(input).core.Some? && t in input.tiers && t.currency == Usd && "USD" in p.fxToEur
    requires "USD" in ContextOf(input).fx && ContextOf(input).fx["USD"] == RateOf(p, "USD")
    ensures t.meta.name.Some? && t.meta.name.value in Compile(input).core.value.tiers
    ensures MicroEur(ToReal(t.inputPerMillion), RateOf(p, "USD"))
            == Some(Compile(input).core.value.tiers[t.meta.name.value].inputPrice)
    ensures MicroEur(ToReal(t.outputPerMillion), RateOf(p, "USD"))
            == Some(Compile(input).core.value.tiers[t.meta.name.value].outputPrice)
  {
    hide Compile, ContextOf, RatesConsistent, ProfilesWF, ClassesWF, PoliciesWF, Quotes, MicroEur, Trim, Unit;
    CompileIsExact(input);
    var i :| 0 <= i < |input.tiers| && input.tiers[i] == t;
    var ctx := ContextOf(input);
    assert TierValid(t, ctx.classes.Keys, ctx.fx);
    assert ctx.tiers[t.meta.name.value] == TierCompiler(ctx.fx)(t);
  }

  lemma OneCoreMeansAgreeingPrices(input: CompileInput)
    requires Compile(input).core.Some? && SameInEveryOrder(input)
    ensures PricesAgree(input)
  {
    hide Compile, FxPass, MicroEur, RateOf, PairwiseNear, RatesConsistent, Rearranged;
    assert CompilesInEveryOrder(input);
    EveryOrderCompilesExactly(input);
    AlwaysConsistentExactly(input.profiles);
    forall t, p, q | t in input.tiers && t.currency == Usd && p in input.profiles && q in input.profiles
                  && "USD" in p.fxToEur && "USD" in q.fxToEur
      ensures ConvertsAlike(t, RateOf(p, "USD"), RateOf(q, "USD"))
    {
      PriceWithLast(input, t, p);
      PriceWithLast(input, t, q);
    }
  }

  /** Put last, a profile's dollar rate is the one the prices of the snapshot come from. */
  lemma PriceWithLast(input: CompileInput, t: TierResource, p: ProfileResource)
    requires Compile(input).core.Some? && SameInEveryOrder(input) && AlwaysConsistent(input.profiles)
    requires t in input.tiers && t.currency == Usd && p in input.profiles && "USD" in p.fxToEur
    ensures t.meta.name.Some? && t.meta.name.value in Compile(input).core.value.tiers
    ensures MicroEur(ToReal(t.inputPerMillion), RateOf(p, "USD"))
            == Some(Compile(input).core.value.tiers[t.meta.name.value].inputPrice)
    ensures MicroEur(ToReal(t.outputPerMillion), RateOf(p, "USD"))
            == Some(Compile(input).core.value.tiers[t.meta.name.value].outputPrice)
  {
    hide Compile, FxPass, ProfilePass, ClassPass, TierPass, MicroEur, AlwaysConsistent;
    var i :| 0 <= i < |input.profiles| && input.profiles[i] == p;
    var qs := LastDecides(input.profiles, i, "USD");
    var b := input.(profiles := qs);
    assert Rearranged(input, b);
    PriceUnder(b, t, p);
  }

  /**
   The snapshot of an input is the same in every order of its objects exactly when the rates are pairwise near and
   the dollar prices come out the same under each of them.
   */
  lemma SameInEveryOrderExactly(input: CompileInput)
    requires Compile(input).core.Some?
    ensures SameInEveryOrder(input) <==> PairwiseNear(input.profiles) && PricesAgree(input)
  {
    hide Compile, PairwiseNear, PricesAgree, Rearranged;
    EveryOrderCompilesExactly(input);
    if SameInEveryOrder(input) {
      assert CompilesInEveryOrder(input);
      OneCoreMeansAgreeingPrices(input);
    }
    if PairwiseNear(input.profiles) && PricesAgree(input) {
      forall b | Rearranged(input, b) ensures Compile(b).core == Compile(input).core {
        AgreeingPricesGiveOneCore(input, b);
      }
    }
  }
}
