/**
 Input order does not change the output of the compiler: the theorem, its
 hypothesis on exchange rates, and inputs that show the hypothesis is needed.
 */
module CompilerOrder {
  import opened Ordering
  import opened Snapshots
  import opened Compiler
  import opened CompilerFacts
  import opened CompilerReferences

  /** The same objects in a different order, kind by kind. */
  predicate Rearranged(a: CompileInput, b: CompileInput) {
    && multiset(a.tiers) == multiset(b.tiers)
    && multiset(a.dataClasses) == multiset(b.dataClasses)
    && multiset(a.policies) == multiset(b.policies)
    && multiset(a.profiles) == multiset(b.profiles)
  }

  // ---- names ----

  ghost predicate NoRepeats<T(!new)>(s: seq<T>) {
    forall x :: multiset(s)[x] <= 1
  }

  lemma {:induction false} NoRepeatsIsDistinct<T(!new)>(s: seq<T>)
    ensures NoRepeats(s) <==> forall i, j :: 0 <= i < j < |s| ==> s[i] != s[j]
  {
    if s != [] {
      var front, x := s[..|s| - 1], s[|s| - 1];
      assert s == front + [x];
      NoRepeatsIsDistinct(front);
      assert multiset(s) == multiset(front) + multiset{x};
      assert x in front <==> multiset(front)[x] > 0;
      if NoRepeats(s) {
        assert forall y :: multiset(front)[y] <= multiset(s)[y];
        assert multiset(s)[x] == multiset(front)[x] + 1;
      }
      if forall i, j :: 0 <= i < j < |s| ==> s[i] != s[j] {
        assert forall i, j :: 0 <= i < j < |front| ==> s[i] == front[i] && s[j] == front[j];
        assert x !in front;
      }
    }
  }

  lemma NamedApartIsNoRepeats<T>(name: T -> Option<string>, xs: seq<T>)
    ensures NamedApart(name, xs) <==> NoRepeats(Map(name, xs)) && forall n | n in Map(name, xs) :: n.Some?
  {
    var names := Map(name, xs);
    NoRepeatsIsDistinct(names);
    if forall n | n in names :: n.Some? {
      forall i | 0 <= i < |xs| ensures name(xs[i]).Some? {
        assert names[i] in names;
      }
    }
    if NamedApart(name, xs) {
      forall i, j | 0 <= i < j < |names| ensures names[i] != names[j] {
        assert name(xs[i]) != name(xs[j]);
      }
    }
    if NoRepeats(names) {
      forall i, j | 0 <= i < j < |xs| ensures name(xs[i]) != name(xs[j]) {
        assert names[i] != names[j];
      }
    }
  }

  lemma NamedApartPermutes<T>(name: T -> Option<string>, a: seq<T>, b: seq<T>)
    requires multiset(a) == multiset(b)
    ensures NamedApart(name, a) <==> NamedApart(name, b)
  {
    NamedApartIsNoRepeats(name, a);
    NamedApartIsNoRepeats(name, b);
    MapPermutes(name, a, b);
    SameMultiset(Map(name, a), Map(name, b));
  }

  /** A container is determined by the resources it holds. */
  lemma HoldsUnique<T(!new), U>(
    m: map<string, U>, m': map<string, U>, name: T -> Option<string>, compile: T -> U, a: seq<T>, b: seq<T>)
    requires Holds(m, name, compile, a) && Holds(m', name, compile, b)
    requires forall x :: x in a <==> x in b
    ensures m == m'
  {
    HoldsWithin(m, m', name, compile, a, b);
    HoldsWithin(m', m, name, compile, b, a);
  }

  lemma HoldsWithin<T(!new), U>(
    m: map<string, U>, m': map<string, U>, name: T -> Option<string>, compile: T -> U, a: seq<T>, b: seq<T>)
    requires Holds(m, name, compile, a) && Holds(m', name, compile, b)
    requires forall x :: x in a ==> x in b
    ensures forall n | n in m :: n in m' && m'[n] == m[n]
  {
    forall n | n in m ensures n in m' && m'[n] == m[n] {
      assert Taken(name, a, Some(n));
      var i :| 0 <= i < |a| && name(a[i]) == Some(n);
      assert a[i] in b;
      var j :| 0 <= j < |b| && b[j] == a[i];
      assert m[n] == compile(a[i]) == m'[n];
    }
  }

  // ---- exchange rates ----

  /** Two rates declared for a currency are either the same or clearly different. */
  ghost predicate ClearRates(ps: seq<ProfileResource>) {
    forall p, q, cur | p in ps && q in ps && cur in p.fxToEur && cur in q.fxToEur
                    && ValidRate(p.fxToEur[cur]) && ValidRate(q.fxToEur[cur]) ::
      p.fxToEur[cur].value == q.fxToEur[cur].value || !Near(p.fxToEur[cur].value, q.fxToEur[cur].value)
  }

  /** All declared rates are valid and agree. */
  ghost predicate RatesAgree(ps: seq<ProfileResource>) {
    forall p, q, cur | p in ps && q in ps && cur in p.fxToEur && cur in q.fxToEur ::
      ValidRate(p.fxToEur[cur]) && p.fxToEur[cur] == q.fxToEur[cur]
  }

  /** The table is the union of what the profiles declare. */
  ghost predicate Knows(fx: map<string, real>, ps: seq<ProfileResource>) {
    && (forall cur | cur in fx :: exists p :: p in ps && cur in p.fxToEur)
    && (forall p, cur | p in ps && cur in p.fxToEur ::
          ValidRate(p.fxToEur[cur]) && cur in fx && fx[cur] == p.fxToEur[cur].value)
  }

  lemma RatesAgreeFront(ps: seq<ProfileResource>)
    ensures ps != [] && RatesAgree(ps) ==> RatesAgree(ps[..|ps| - 1])
  {}

  lemma FitIsAgreement(fx: map<string, real>, front: seq<ProfileResource>, p: ProfileResource)
    requires Knows(fx, front) && ClearRates(front + [p])
    ensures RatesFit(fx, p, Ascending(p.fxToEur.Keys)) <==> RatesAgree(front + [p])
  {
    hide ValidRate;
    AscendingSound(p.fxToEur.Keys);
    var ps := front + [p];
    assert p in ps && forall q :: q in ps <==> q in front || q == p;
    if RatesFit(fx, p, Ascending(p.fxToEur.Keys)) {
      forall q, r, cur | q in ps && r in ps && cur in q.fxToEur && cur in r.fxToEur
        ensures ValidRate(q.fxToEur[cur]) && q.fxToEur[cur] == r.fxToEur[cur]
      {
        FitEntry(fx, front, p, q, cur);
        FitEntry(fx, front, p, r, cur);
      }
    }
    if RatesAgree(ps) {
      forall cur | cur in p.fxToEur ensures ValidRate(p.fxToEur[cur]) && (cur in fx ==> Near(fx[cur], RateOf(p, cur))) {
        assert ValidRate(p.fxToEur[cur]) && p.fxToEur[cur] == p.fxToEur[cur];
        if cur in fx {
          var q :| q in front && cur in q.fxToEur;
          assert p.fxToEur[cur] == q.fxToEur[cur];
          AgreedIsNear(fx, p, q, cur);
        }
      }
      FitsFrom(fx, p);
    }
  }

  function RateOf(p: ProfileResource, cur: string): real
    requires cur in p.fxToEur
  {
    ToReal(p.fxToEur[cur])
  }

  lemma AgreedIsNear(fx: map<string, real>, p: ProfileResource, q: ProfileResource, cur: string)
    requires cur in p.fxToEur && cur in q.fxToEur && p.fxToEur[cur] == q.fxToEur[cur] && ValidRate(q.fxToEur[cur])
    requires cur in fx && fx[cur] == q.fxToEur[cur].value
    ensures Near(fx[cur], RateOf(p, cur))
  {}

  lemma FitsFrom(fx: map<string, real>, p: ProfileResource)
    requires forall cur | cur in p.fxToEur :: ValidRate(p.fxToEur[cur]) && (cur in fx ==> Near(fx[cur], RateOf(p, cur)))
    ensures RatesFit(fx, p, Ascending(p.fxToEur.Keys))
  {}

  /** Under the hypothesis a fitting rate is the rate the table has. */
  lemma FitEntry(
    fx: map<string, real>, front: seq<ProfileResource>, p: ProfileResource, q: ProfileResource, cur: string)
    requires Knows(fx, front) && ClearRates(front + [p]) && RatesFit(fx, p, Ascending(p.fxToEur.Keys))
    requires q in front + [p] && cur in q.fxToEur
    ensures ValidRate(q.fxToEur[cur])
    ensures cur in p.fxToEur ==> q.fxToEur[cur] == p.fxToEur[cur]
    ensures cur in fx ==> q.fxToEur[cur] == Finite(fx[cur])
  {
    AscendingSound(p.fxToEur.Keys);
    var ps := front + [p];
    assert p in ps && forall q :: q in ps <==> q in front || q == p;
    if q == p && cur in fx {
      var r :| r in front && cur in r.fxToEur;
      assert Near(r.fxToEur[cur].value, p.fxToEur[cur].value);
    }
    if q in front && cur in p.fxToEur {
      assert Near(q.fxToEur[cur].value, p.fxToEur[cur].value);
    }
  }

  ghost predicate Declared(ps: seq<ProfileResource>, cur: string) {
    exists p :: p in ps && cur in p.fxToEur
  }

  /** The table has the rate that a profile declares. */
  ghost predicate KnownRate(fx: map<string, real>, p: ProfileResource, cur: string) {
    cur in p.fxToEur ==> ValidRate(p.fxToEur[cur]) && cur in fx && fx[cur] == p.fxToEur[cur].value
  }

  lemma KnowsEach(fx: map<string, real>, ps: seq<ProfileResource>)
    ensures Knows(fx, ps)
            <==> (forall cur | cur in fx :: Declared(ps, cur)) && forall p, cur | p in ps :: KnownRate(fx, p, cur)
  {
    if (forall cur | cur in fx :: Declared(ps, cur)) && forall p, cur | p in ps :: KnownRate(fx, p, cur) {
      forall p, cur | p in ps && cur in p.fxToEur
        ensures ValidRate(p.fxToEur[cur]) && cur in fx && fx[cur] == p.fxToEur[cur].value
      {
        assert KnownRate(fx, p, cur);
      }
    }
  }

  lemma AgreeingRates(ps: seq<ProfileResource>, p: ProfileResource, q: ProfileResource, cur: string)
    requires RatesAgree(ps) && p in ps && q in ps && cur in p.fxToEur && cur in q.fxToEur
    ensures p.fxToEur[cur] == q.fxToEur[cur]
  {}

  lemma DeclaredSnoc(front: seq<ProfileResource>, p: ProfileResource, cur: string)
    ensures Declared(front + [p], cur) <==> Declared(front, cur) || cur in p.fxToEur
  {
    assert p in front + [p] && forall q :: q in front + [p] <==> q in front || q == p;
  }

  lemma {:induction false} LastDeclaredIn(ps: seq<ProfileResource>, cur: string)
    ensures LastDeclared(ps, cur).Some? <==> Declared(ps, cur)
    ensures LastDeclared(ps, cur).Some? ==>
      exists p :: p in ps && cur in p.fxToEur && LastDeclared(ps, cur) == Some(p.fxToEur[cur])
  {
    if ps != [] {
      var front, p := ps[..|ps| - 1], ps[|ps| - 1];
      assert ps == front + [p] && p in ps;
      DeclaredSnoc(front, p, cur);
      LastDeclaredIn(front, cur);
      if cur !in p.fxToEur && LastDeclared(front, cur).Some? {
        var q :| q in front && cur in q.fxToEur && LastDeclared(front, cur) == Some(q.fxToEur[cur]);
        assert q in ps;
      }
    }
  }

  lemma KnownRateSnoc(front: seq<ProfileResource>, p: ProfileResource, q: ProfileResource, cur: string)
    requires RatesFit(FxPass(front).fx, p, Ascending(p.fxToEur.Keys)) && RatesAgree(front + [p]) && q in front + [p]
    requires q in front ==> KnownRate(FxPass(front).fx, q, cur)
    ensures KnownRate(FxPass(front + [p]).fx, q, cur)
  {
    hide FxPass, RatesFit, ValidRate, Ascending, RatesAgree;
    AddedEntry(front, p, cur);
    if cur in q.fxToEur && cur in p.fxToEur {
      assert p in front + [p];
      AgreeingRates(front + [p], p, q, cur);
    }
  }

  lemma KnowsSnoc(front: seq<ProfileResource>, p: ProfileResource)
    requires Knows(FxPass(front).fx, front) && RatesFit(FxPass(front).fx, p, Ascending(p.fxToEur.Keys))
    requires RatesAgree(front + [p])
    ensures Knows(FxPass(front + [p]).fx, front + [p])
  {
    hide FxPass, RatesFit, Ascending, RatesAgree, Knows, KnownRate, Declared;
    var ps, fx := front + [p], FxPass(front + [p]).fx;
    KnowsEach(FxPass(front).fx, front);
    KnowsEach(fx, ps);
    forall cur | cur in fx ensures Declared(ps, cur) {
      AddedEntry(front, p, cur);
      DeclaredSnoc(front, p, cur);
    }
    forall q, cur | q in ps ensures KnownRate(fx, q, cur) {
      assert q in front || q == p;
      KnownRateSnoc(front, p, q, cur);
    }
  }

  lemma {:induction false} ClearRatesDecide(ps: seq<ProfileResource>)
    requires ClearRates(ps)
    ensures RatesConsistent(ps) <==> RatesAgree(ps)
    ensures RatesAgree(ps) ==> Knows(FxPass(ps).fx, ps)
  {
    hide RatesFit, RatesAgree, RatesConsistent, Knows, FxPass;
    if ps == [] {
      NoRates();
      NoRatesDeclared();
    } else {
      var front, p := ps[..|ps| - 1], ps[|ps| - 1];
      assert ps == front + [p];
      ConsistentSnoc(front, p);
      ClearRatesDecide(front);
      if RatesAgree(ps) {
        RatesAgreeFront(ps);
      }
      if RatesAgree(front) {
        FitIsAgreement(FxPass(front).fx, front, p);
        if RatesAgree(ps) {
          KnowsSnoc(front, p);
        }
      }
    }
  }

  lemma NoRates()
    ensures RatesAgree([]) && Knows(FxPass([]).fx, [])
  {}

  lemma SameTable(fx: map<string, real>, fx': map<string, real>, a: seq<ProfileResource>, b: seq<ProfileResource>)
    requires Knows(fx, a) && Knows(fx', b) && forall p :: p in a <==> p in b
    ensures fx == fx'
  {
    forall cur | cur in fx ensures cur in fx' && fx'[cur] == fx[cur] {
      var p :| p in a && cur in p.fxToEur;
    }
    forall cur | cur in fx' ensures cur in fx {
      var p :| p in b && cur in p.fxToEur;
    }
  }

  // ---- policies ----

  lemma PolicyOrder()
    ensures TotalPreorder(PolicyLe)
  {
    StrOrder();
  }

  lemma KeyOfCompiled(p: PolicyResource, ctx: Context)
    ensures CompilePolicy(p, ctx).key == PolicyKey(p.meta)
  {}

  /** Distinct policies have distinct keys, so the evaluation order is unique. */
  lemma PoliciesSortAlike(a: seq<PolicyResource>, b: seq<PolicyResource>, ctx: Context)
    requires multiset(a) == multiset(b) && NamedApart(PolicyName, a)
    ensures SortBy(PolicyLe, Map(PolicyCompiler(ctx), a)) == SortBy(PolicyLe, Map(PolicyCompiler(ctx), b))
  {
    hide CompilePolicy, PolicyKey, SortBy;
    var f := PolicyCompiler(ctx);
    PolicyOrder();
    MapPermutes(f, a, b);
    forall x, y | x in Map(f, a) && y in Map(f, a) && PolicyLe(x, y) && PolicyLe(y, x) ensures x == y {
      StrOrder();
      var i :| 0 <= i < |a| && x == f(a[i]);
      var j :| 0 <= j < |a| && y == f(a[j]);
      KeyOfCompiled(a[i], ctx);
      KeyOfCompiled(a[j], ctx);
      assert PolicyName(a[i]) == PolicyName(a[j]);
    }
    SortByCanonical(PolicyLe, Map(f, a), Map(f, b));
  }

  // ---- the theorem ----

  lemma RearrangedProfiles(a: seq<ProfileResource>, b: seq<ProfileResource>)
    requires multiset(a) == multiset(b) && ClearRates(a) && RatesConsistent(a) && ProfilesWF(a)
    ensures RatesConsistent(b) && ProfilesWF(b) && FxPass(b).fx == FxPass(a).fx
  {
    hide ProfileValid, RatesConsistent, FxPass;
    SameMultiset(a, b);
    NamedApartPermutes(ProfileName, a, b);
    ClearRatesDecide(a);
    ClearRatesDecide(b);
    SameTable(FxPass(a).fx, FxPass(b).fx, a, b);
  }

  lemma RearrangedClasses(a: seq<ClassResource>, b: seq<ClassResource>)
    requires multiset(a) == multiset(b)
    ensures ClassesWF(a) <==> ClassesWF(b)
  {
    hide Claims, Unit;
    SameMultiset(a, b);
    NamedApartPermutes(ClassName, a, b);
  }

  lemma RearrangedTiers(a: seq<TierResource>, b: seq<TierResource>, classNames: set<string>, fx: map<string, real>)
    requires multiset(a) == multiset(b)
    ensures TiersWF(a, classNames, fx) <==> TiersWF(b, classNames, fx)
  {
    hide TierValid;
    SameMultiset(a, b);
    NamedApartPermutes(TierName, a, b);
  }

  lemma RearrangedPolicies(a: seq<PolicyResource>, b: seq<PolicyResource>, ctx: Context)
    requires multiset(a) == multiset(b)
    ensures PoliciesWF(a, ctx) <==> PoliciesWF(b, ctx)
  {
    hide PolicyValid;
    SameMultiset(a, b);
    NamedApartPermutes(PolicyName, a, b);
  }

  /** Rearranging a well-formed input changes no container. */
  lemma SameContext(a: CompileInput, b: CompileInput)
    requires Rearranged(a, b) && ClearRates(a.profiles)
    requires WellFormed(a, ContextOf(a))
    ensures ContextOf(b) == ContextOf(a)
    ensures ProfilePass(b.profiles, FxPass(b.profiles).diags).profiles
            == ProfilePass(a.profiles, FxPass(a.profiles).diags).profiles
    ensures RatesConsistent(b.profiles) && ProfilesWF(b.profiles) && ClassesWF(b.dataClasses)
    ensures TiersWF(b.tiers, ContextOf(a).classes.Keys, ContextOf(a).fx)
  {
    hide HasErrors, FxPass, ProfilePass, ClassPass, TierPass, RatesConsistent, ProfilesWF, ClassesWF, TiersWF,
      PoliciesWF, Holds, ClearRates;
    RearrangedProfiles(a.profiles, b.profiles);
    RearrangedClasses(a.dataClasses, b.dataClasses);
    var ctx := ContextOf(a);
    var fa, fb := FxPass(a.profiles), FxPass(b.profiles);
    ProfilePassSound(a.profiles, fa.diags);
    ProfilePassSound(b.profiles, fb.diags);
    SameMultiset(a.profiles, b.profiles);
    var pa, pb := ProfilePass(a.profiles, fa.diags), ProfilePass(b.profiles, fb.diags);
    HoldsUnique(pa.profiles, pb.profiles, ProfileName, ProfileCompiler(), a.profiles, b.profiles);
    ClassPassSound(a.dataClasses, pa.diags);
    ClassPassSound(b.dataClasses, pb.diags);
    SameMultiset(a.dataClasses, b.dataClasses);
    var ca, cb := ClassPass(a.dataClasses, pa.diags), ClassPass(b.dataClasses, pb.diags);
    HoldsUnique(ca.classes, cb.classes, ClassName, ClassCompiler(), a.dataClasses, b.dataClasses);
    RearrangedTiers(a.tiers, b.tiers, ctx.classes.Keys, ctx.fx);
    TierPassSound(a.tiers, ca.classes, fa.fx, ca.diags);
    TierPassSound(b.tiers, cb.classes, fb.fx, cb.diags);
    SameMultiset(a.tiers, b.tiers);
    var ta, tb := TierPass(a.tiers, ca.classes, fa.fx, ca.diags), TierPass(b.tiers, cb.classes, fb.fx, cb.diags);
    HoldsUnique(ta.tiers, tb.tiers, TierName, TierCompiler(ctx.fx), a.tiers, b.tiers);
    HoldsUnique(ta.tierNs, tb.tierNs, TierName, TierNsOf(), a.tiers, b.tiers);
  }

  lemma RearrangedCompiles(a: CompileInput, b: CompileInput)
    requires Rearranged(a, b) && ClearRates(a.profiles)
    ensures Compile(a).core.Some? ==> Compile(b).core == Compile(a).core
  {
    hide Compile, ContextOf, RatesConsistent, ProfilesWF, ClassesWF, TiersWF, ClearRates, Holds, SortBy, FxPass,
      ProfilePass;
    CompileIsExact(a);
    CompileIsExact(b);
    if Compile(a).core.Some? {
      SameContext(a, b);
      RearrangedPolicies(a.policies, b.policies, ContextOf(a));
      PoliciesSortAlike(a.policies, b.policies, ContextOf(a));
      SameMultiset(a.profiles, b.profiles);
      HoldsUnique(Compile(a).core.value.profiles, Compile(b).core.value.profiles, ProfileName, ProfileCompiler(),
                  a.profiles, b.profiles);
    }
  }

  lemma ClearRatesRearranged(a: seq<ProfileResource>, b: seq<ProfileResource>)
    requires multiset(a) == multiset(b) && ClearRates(a)
    ensures ClearRates(b)
  {
    hide ValidRate, Near;
    SameMultiset(a, b);
  }

  /**
   Input order never changes the output: rearranged inputs compile or fail alike, and to the same snapshot,
   provided that rates declared for one currency are the same or clearly different.
   */
  lemma InputOrderIsIrrelevant(a: CompileInput, b: CompileInput)
    requires Rearranged(a, b) && ClearRates(a.profiles)
    ensures Compile(a).core == Compile(b).core
  {
    hide Compile, ClearRates;
    ClearRatesRearranged(a.profiles, b.profiles);
    RearrangedCompiles(a, b);
    RearrangedCompiles(b, a);
  }

  // ---- the hypothesis is needed ----

  function DollarProfile(name: string, rate: real): ProfileResource {
    ProfileResource(Meta(None, Some(name)), map["USD" := Finite(rate)], 1, 1, Heuristic, None, None, map[])
  }

  lemma OneCurrency(name: string, rate: real)
    ensures Ascending(DollarProfile(name, rate).fxToEur.Keys) == ["USD"]
  {
    var p := DollarProfile(name, rate);
    AscendingSound(p.fxToEur.Keys);
    AscendingUnique(Ascending(p.fxToEur.Keys), ["USD"]);
  }

  lemma AddDollarRate(front: seq<ProfileResource>, name: string, rate: real)
    requires rate > 0.0
    ensures FxPass(front + [DollarProfile(name, rate)]) == AddRate(FxPass(front), DollarProfile(name, rate), "USD")
  {
    hide AddRate, FxPass;
    FxPassSnoc(front, DollarProfile(name, rate));
    OneCurrency(name, rate);
    assert ["USD"][..0] == [];
  }

  /** Half of EPSILON: the distance from one to the next double below it. */
  const HALF: real := 1.0 / 9007199254740992.0

  function Below(): ProfileResource { DollarProfile("a", 1.0 - HALF) }
  function Exact(): ProfileResource { DollarProfile("b", 1.0) }
  function Above(): ProfileResource { DollarProfile("c", 1.0 + EPSILON) }

  lemma AscendingRatesFit()
    ensures !HasErrors(FxPass([Below(), Exact(), Above()]).diags)
  {
    hide FxPass;
    EmptyFx();
    assert [] + [Below()] == [Below()] && [Below()] + [Exact()] == [Below(), Exact()];
    assert [Below(), Exact()] + [Above()] == [Below(), Exact(), Above()];
    AddDollarRate([], "a", 1.0 - HALF);
    AddDollarRate([Below()], "b", 1.0);
    AddDollarRate([Below(), Exact()], "c", 1.0 + EPSILON);
  }

  lemma OuterRatesConflict()
    ensures HasErrors(FxPass([Below(), Above()]).diags)
  {
    hide FxPass;
    EmptyFx();
    assert [] + [Below()] == [Below()] && [Below()] + [Above()] == [Below(), Above()];
    AddDollarRate([], "a", 1.0 - HALF);
    AddDollarRate([Below()], "c", 1.0 + EPSILON);
    assert FxPass([Below(), Above()]).diags[0].level == Error;
  }

  lemma OuterFirst(a: ProfileResource, b: ProfileResource, c: ProfileResource)
    ensures Rearranged(CompileInput([], [], [], [a, b, c]), CompileInput([], [], [], [a, c, b]))
  {}

  lemma NamedProfiles()
    ensures ProfilesWF([Below(), Exact(), Above()])
  {}

  /**
   Three doubles around one, each within EPSILON of the next: in ascending order the profiles compile, with the
   outer two first they conflict.
   */
  lemma CloseRatesDependOnOrder()
    ensures var up := CompileInput([], [], [], [Below(), Exact(), Above()]);
      var out := CompileInput([], [], [], [Below(), Above(), Exact()]);
      Rearranged(up, out) && Compile(up).core.Some? && Compile(out).core.None?
  {
    hide Compile, FxPass, HasErrors, RatesConsistent, ClassesWF, TiersWF, PoliciesWF, Realises, Below, Above, Exact;
    var up := CompileInput([], [], [], [Below(), Exact(), Above()]);
    var out := CompileInput([], [], [], [Below(), Above(), Exact()]);
    AscendingRatesFit();
    FxPassSound(up.profiles);
    OuterRatesConflict();
    ConflictStays(Below(), Above(), Exact());
    FxPassSound(out.profiles);
    OuterFirst(Below(), Exact(), Above());
    NamedProfiles();
    OnlyProfiles(up);
    CompileIsExact(up);
    CompileIsExact(out);
  }

  lemma EmptyFx()
    ensures FxPass([]) == FxState(map[], [])
  {}

  lemma ConflictStays(lo: ProfileResource, hi: ProfileResource, one: ProfileResource)
    requires HasErrors(FxPass([lo, hi]).diags)
    ensures HasErrors(FxPass([lo, hi, one]).diags)
  {
    hide FxPass;
    FxPassSound([lo, hi]);
    FxPassSound([lo, hi, one]);
    assert [lo, hi, one][..2] == [lo, hi];
  }

  lemma OnlyProfiles(input: CompileInput)
    requires input.tiers == [] && input.dataClasses == [] && input.policies == []
    requires RatesConsistent(input.profiles) && ProfilesWF(input.profiles)
    ensures WellFormed(input, ContextOf(input))
  {}
}
