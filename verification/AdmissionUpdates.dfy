/**
 Updates through the admission webhook: for each kind, exactly when an admitted
 update keeps the set compiling.
 */
module AdmissionUpdates {
  // The webhook sees the errors that name the incoming object; an update can also break an object listed after it, or
  // one that refers to it.

  import opened Ordering
  import opened Snapshots
  import opened Compiler
  import opened CompilerFacts
  import opened CompilerReferences
  import opened CompilerOrder
  import opened CompilerContexts
  import opened CompilerStages
  import opened Admission

  // ---- where an update goes ----

  /** The first place with the key, which is where `Put` puts the object, or the end. */
  function Place<T>(key: T -> string, xs: seq<T>, x: T): (i: nat)
    ensures i <= |xs|
    ensures i < |xs| ==> key(xs[i]) == key(x)
    ensures forall j :: 0 <= j < i ==> key(xs[j]) != key(x)
  {
    if xs == [] || key(xs[0]) == key(x) then 0 else 1 + Place(key, xs[1..], x)
  }

  lemma {:induction false} PutReplaces<T>(key: T -> string, xs: seq<T>, x: T)
    ensures var i := Place(key, xs, x); i < |xs| ==> Put(key, xs, x) == xs[i := x]
  {
    if xs != [] && key(xs[0]) != key(x) {
      PutReplaces(key, xs[1..], x);
      assert xs == [xs[0]] + xs[1..];
    }
  }

  predicate SameObject(a: Meta, b: Meta) {
    NsOf(a) == NsOf(b) && a.name == b.name
  }

  predicate Replaces<T>(key: T -> string, meta: T -> Meta, xs: seq<T>, x: T) {
    var i := Place(key, xs, x);
    i < |xs| && SameObject(meta(xs[i]), meta(x))
  }

  function TierMeta(t: TierResource): Meta { t.meta }
  function ClassMeta(c: ClassResource): Meta { c.meta }
  function PolicyMeta(p: PolicyResource): Meta { p.meta }
  function ProfileMeta(p: ProfileResource): Meta { p.meta }

  /** The incoming object takes the place of the listed object with its namespace and name. */
  predicate IsUpdate(input: CompileInput, o: Incoming) {
    match o
    case IncomingTier(t) => Replaces(TierKey, TierMeta, input.tiers, t)
    case IncomingClass(c) => Replaces(ClassKey, ClassMeta, input.dataClasses, c)
    case IncomingPolicy(p) => Replaces(PolicyDiagKey, PolicyMeta, input.policies, p)
    case IncomingProfile(p) => Replaces(ProfileKey, ProfileMeta, input.profiles, p)
  }

  /** Named, in a namespace without a slash: true of every Kubernetes object. */
  predicate PlainMeta(m: Meta) {
    m.name.Some? && '/' !in NsOf(m)
  }

  /** The key of such an object tells its namespace and name. */
  lemma KeysIdentify(a: Meta, b: Meta)
    requires PlainMeta(a) && PlainMeta(b)
    ensures DiagName(a) == DiagName(b) <==> SameObject(a, b)
  {
    var x, y := NsOf(a), NsOf(b);
    if DiagName(a) == DiagName(b) {
      var key := DiagName(a);
      assert key[|x|] == '/' && key[|y|] == '/' && key[..|x|] == x && key[..|y|] == y;
      assert forall k :: 0 <= k < |x| ==> key[k] == x[k] && x[k] in x;
      assert forall k :: 0 <= k < |y| ==> key[k] == y[k] && y[k] in y;
      assert |x| == |y|;
      assert key[|x| + 1..] == a.name.value && key[|x| + 1..] == b.name.value;
    }
  }

  lemma NewOrReplaced<T>(key: T -> string, meta: T -> Meta, xs: seq<T>, x: T)
    requires forall y | y in xs + [x] :: key(y) == DiagName(meta(y)) && PlainMeta(meta(y))
    ensures Replaces(key, meta, xs, x) <==> exists y :: y in xs && key(y) == key(x)
  {
    hide DiagName, PlainMeta, SameObject;
    var i := Place(key, xs, x);
    assert x in xs + [x];
    if i < |xs| {
      assert xs[i] in xs + [x];
      KeysIdentify(meta(xs[i]), meta(x));
    }
    if y :| y in xs && key(y) == key(x) {
      var j :| 0 <= j < |xs| && xs[j] == y;
    }
  }

  /** All objects of the incoming object's kind are plainly named, and so is it. */
  ghost predicate PlainNames(input: CompileInput, o: Incoming) {
    match o
    case IncomingTier(t) => forall x | x in input.tiers + [t] :: PlainMeta(x.meta)
    case IncomingClass(c) => forall x | x in input.dataClasses + [c] :: PlainMeta(x.meta)
    case IncomingPolicy(p) => forall x | x in input.policies + [p] :: PlainMeta(x.meta)
    case IncomingProfile(p) => forall x | x in input.profiles + [p] :: PlainMeta(x.meta)
  }

  /** Such an object is either new or an update, so that with the theorem on new objects every case is covered. */
  lemma NewOrUpdate(input: CompileInput, o: Incoming)
    requires PlainNames(input, o)
    ensures IsNew(input, o) <==> !IsUpdate(input, o)
  {
    hide DiagName, PlainMeta, Replaces;
    match o
    case IncomingTier(t) => NewOrReplaced(TierKey, TierMeta, input.tiers, t);
    case IncomingClass(c) => NewOrReplaced(ClassKey, ClassMeta, input.dataClasses, c);
    case IncomingPolicy(p) => NewOrReplaced(PolicyDiagKey, PolicyMeta, input.policies, p);
    case IncomingProfile(p) => NewOrReplaced(ProfileKey, ProfileMeta, input.profiles, p);
  }

  // ---- sequences with one object replaced ----

  lemma NamedApartReplaced<T>(name: T -> Option<string>, xs: seq<T>, i: nat, x: T)
    requires i < |xs| && name(xs[i]) == name(x)
    ensures NamedApart(name, xs[i := x]) <==> NamedApart(name, xs)
  {
    var xs' := xs[i := x];
    assert forall k :: 0 <= k < |xs| ==> name(xs'[k]) == name(xs[k]);
  }

  /** Containers of resources with the same names have the same keys, and with the same results are equal. */
  lemma HoldsPointwise<T, U>(
    m: map<string, U>, m': map<string, U>, name: T -> Option<string>, f: T -> U, g: T -> U, xs: seq<T>, xs': seq<T>)
    requires Holds(m, name, f, xs) && Holds(m', name, g, xs') && |xs| == |xs'|
    requires forall k :: 0 <= k < |xs| ==> name(xs[k]) == name(xs'[k])
    ensures m.Keys == m'.Keys
    ensures (forall k :: 0 <= k < |xs| ==> f(xs[k]) == g(xs'[k])) ==> m == m'
  {
    forall n ensures n in m <==> n in m' {
      HoldsTaken(m, name, f, xs, n);
      HoldsTaken(m', name, g, xs', n);
      SameNamesTaken(name, xs, xs', Some(n));
      SameNamesTaken(name, xs', xs, Some(n));
    }
    if forall k :: 0 <= k < |xs| ==> f(xs[k]) == g(xs'[k]) {
      forall n | n in m ensures m'[n] == m[n] {
        var k :| 0 <= k < |xs| && name(xs[k]) == Some(n);
      }
    }
  }

  lemma SameNamesTaken<T>(name: T -> Option<string>, xs: seq<T>, xs': seq<T>, n: Option<string>)
    requires |xs| == |xs'| && forall k :: 0 <= k < |xs| ==> name(xs[k]) == name(xs'[k])
    ensures Taken(name, xs, n) ==> Taken(name, xs', n)
  {
    if Taken(name, xs, n) {
      var k :| 0 <= k < |xs| && name(xs[k]) == n;
      assert name(xs'[k]) == n;
    }
  }

  lemma ReplacedElements<T>(xs: seq<T>, i: nat, x: T)
    requires i < |xs|
    ensures forall y | y in xs[i := x] :: y == x || y in xs
    ensures x in xs[i := x]
    ensures xs[i := x][..i] == xs[..i] && xs[i := x][..i + 1] == xs[..i] + [x]
  {
    assert xs[i := x][i] == x;
  }

  // ---- the report of a prefix ----

  lemma ReportsPrefix(a: seq<Diag>, b: seq<Diag>, kind: Kind, name: string, bad: bool)
    ensures Reports(a, b, kind, name, bad) ==> a <= b
  {}

  lemma {:induction false} TierPrefix(
    ts: seq<TierResource>, n: nat, classes: map<string, DataClass>, fx: map<string, real>, ds: seq<Diag>)
    requires n <= |ts|
    ensures TierPass(ts[..n], classes, fx, ds).diags <= TierPass(ts, classes, fx, ds).diags
    decreases |ts|
  {
    hide AddTier, Reports, TierValid;
    if n == |ts| {
      assert ts[..n] == ts;
    } else {
      var front, t := ts[..|ts| - 1], ts[|ts| - 1];
      TierPrefix(front, n, classes, fx, ds);
      assert front[..n] == ts[..n];
      var st := TierPass(front, classes, fx, ds);
      AddTierReports(st, t, classes, fx);
      ReportsPrefix(st.diags, AddTier(st, t, classes, fx).diags, ModelTier, DiagName(t.meta),
                    t.meta.name.None? || t.meta.name.value in st.tiers || !TierValid(t, classes.Keys, fx));
    }
  }

  lemma {:induction false} ClassPrefix(cs: seq<ClassResource>, n: nat, ds: seq<Diag>)
    requires n <= |cs|
    ensures ClassPass(cs[..n], ds).diags <= ClassPass(cs, ds).diags
    decreases |cs|
  {
    hide AddClass, Reports, Unit, ForeignClaim;
    if n == |cs| {
      assert cs[..n] == cs;
    } else {
      var front, c := cs[..|cs| - 1], cs[|cs| - 1];
      ClassPrefix(front, n, ds);
      assert front[..n] == cs[..n];
      var st := ClassPass(front, ds);
      AddClassReports(st, c);
      ReportsPrefix(st.diags, AddClass(st, c).diags, DataClassKind, DiagName(c.meta),
                    !NewClass(st, c) || !Unit(c.minConfidence)
                    || ForeignClaim(st.owners, c.meta.name.value, ClaimList(c, c.meta.name.value)));
    }
  }

  lemma {:induction false} PolicyPrefix(ps: seq<PolicyResource>, n: nat, ctx: Context, ds: seq<Diag>)
    requires n <= |ps|
    ensures PolicyPass(ps[..n], ctx, ds).diags <= PolicyPass(ps, ctx, ds).diags
    decreases |ps|
  {
    hide AddPolicy, Reports, PolicyValid;
    if n == |ps| {
      assert ps[..n] == ps;
    } else {
      var front, p := ps[..|ps| - 1], ps[|ps| - 1];
      PolicyPrefix(front, n, ctx, ds);
      assert front[..n] == ps[..n];
      var st := PolicyPass(front, ctx, ds);
      AddPolicyReports(st, p, ctx);
      ReportsPrefix(st.diags, AddPolicy(st, p, ctx).diags, RoutingPolicy, DiagName(p.meta),
                    p.meta.name.None? || PolicyKey(p.meta) in st.seen || !PolicyValid(p, ctx));
    }
  }

  lemma {:induction false} FxPrefix(ps: seq<ProfileResource>, n: nat)
    requires n <= |ps|
    ensures FxPass(ps[..n]).diags <= FxPass(ps).diags
    decreases |ps|
  {
    hide AddRates, Reports, RatesFit;
    if n == |ps| {
      assert ps[..n] == ps;
    } else {
      var front, p := ps[..|ps| - 1], ps[|ps| - 1];
      FxPrefix(front, n);
      assert front[..n] == ps[..n];
      RatesReport(FxPass(front), p, Ascending(p.fxToEur.Keys));
      ReportsPrefix(FxPass(front).diags, FxPass(ps).diags, RouterProfile, DiagName(p.meta),
                    !RatesFit(FxPass(front).fx, p, Ascending(p.fxToEur.Keys)));
    }
  }

  lemma {:induction false} ProfilePrefix(ps: seq<ProfileResource>, n: nat, ds: seq<Diag>)
    requires n <= |ps|
    ensures ProfilePass(ps[..n], ds).diags <= ProfilePass(ps, ds).diags
    decreases |ps|
  {
    hide AddProfile, Reports, ProfileValid;
    if n == |ps| {
      assert ps[..n] == ps;
    } else {
      var front, p := ps[..|ps| - 1], ps[|ps| - 1];
      ProfilePrefix(front, n, ds);
      assert front[..n] == ps[..n];
      var st := ProfilePass(front, ds);
      AddProfileReports(st, p);
      ReportsPrefix(st.diags, AddProfile(st, p).diags, RouterProfile, DiagName(p.meta),
                    p.meta.name.None? || p.meta.name.value in st.profiles || !ProfileValid(p));
    }
  }

  // ---- updating a tier ----

  /** The policy takes the tier as a candidate: same namespace, included or selected by label, and not excluded. */
  predicate Selects(p: PolicyResource, t: TierResource) {
    && t.meta.name.Some? && NsOf(t.meta) == NsOf(p.meta) && t.meta.name.value !in p.exclude
    && (t.meta.name.value in p.include_
        || ((p.include_ == [] || p.matchLabels != map[]) && LabelsMatch(p.matchLabels, t.labels)))
  }

  /** A policy's candidates are the tiers it selects. */
  lemma CandidatesAreSelected(p: PolicyResource, ctx: Context, ts: seq<TierResource>, n: string)
    requires Holds(ctx.tiers, TierName, TierCompiler(ctx.fx), ts) && Holds(ctx.tierNs, TierName, TierNsOf(), ts)
    ensures n in CandidateSet(p, ctx) <==> exists t :: t in ts && t.meta.name == Some(n) && Selects(p, t)
  {
    hide CompileTier, NsOf, LabelsMatch;
    if n in CandidateSet(p, ctx) {
      assert n in ctx.tierNs;
      var i :| 0 <= i < |ts| && TierName(ts[i]) == Some(n);
      LabelsCompiled(ts[i], ctx.fx);
      assert ts[i] in ts && Selects(p, ts[i]);
    }
    if t :| t in ts && t.meta.name == Some(n) && Selects(p, t) {
      var i :| 0 <= i < |ts| && ts[i] == t;
      assert TierName(ts[i]) == Some(n);
      LabelsCompiled(t, ctx.fx);
    }
  }

  ghost predicate AllSelect(ps: seq<PolicyResource>, ts: seq<TierResource>) {
    forall p | p in ps :: exists t :: t in ts && Selects(p, t)
  }

  /** Under the same names and namespaces a valid policy stays valid exactly as long as it has a candidate. */
  lemma ValidWithCandidates(p: PolicyResource, ctx: Context, ctx': Context)
    requires PolicyValid(p, ctx)
    requires ctx'.tierNs == ctx.tierNs && ctx'.tiers.Keys == ctx.tiers.Keys && ctx'.profileNames == ctx.profileNames
    ensures PolicyValid(p, ctx') <==> CandidateSet(p, ctx') != {}
  {
    hide CandidateSet, NsOf, Unit, NonNegative, WeightsOk;
  }

  lemma PoliciesWithCandidates(ps: seq<PolicyResource>, ctx: Context, ctx': Context, ts: seq<TierResource>)
    requires PoliciesWF(ps, ctx)
    requires ctx'.tierNs == ctx.tierNs && ctx'.tiers.Keys == ctx.tiers.Keys && ctx'.profileNames == ctx.profileNames
    requires Holds(ctx'.tiers, TierName, TierCompiler(ctx'.fx), ts) && Holds(ctx'.tierNs, TierName, TierNsOf(), ts)
    ensures PoliciesWF(ps, ctx') <==> AllSelect(ps, ts)
  {
    hide PolicyValid, CandidateSet, Selects, Holds, TierCompiler;
    forall p | p in ps ensures PolicyValid(p, ctx') <==> exists t :: t in ts && Selects(p, t) {
      ValidWithCandidates(p, ctx, ctx');
      if CandidateSet(p, ctx') != {} {
        var n :| n in CandidateSet(p, ctx');
        CandidatesAreSelected(p, ctx', ts, n);
      }
      if t :| t in ts && Selects(p, t) {
        SelectedIsNamed(p, t);
        CandidatesAreSelected(p, ctx', ts, t.meta.name.value);
      }
    }
  }

  lemma SelectedIsNamed(p: PolicyResource, t: TierResource)
    ensures Selects(p, t) ==> t.meta.name.Some?
  {}

  lemma UpdatedTierIsJudged(input: CompileInput, i: nat, t: TierResource)
    requires Compile(input).core.Some? && i < |input.tiers|
    ensures TierValid(t, ContextOf(input).classes.Keys, ContextOf(input).fx)
            || Denies(Compile(input.(tiers := input.tiers[i := t])).report, ModelTier, TierKey(t))
  {
    hide Compile, AddTier, TierPass, TierValid, PolicyPass, FxPass, ProfilePass, ClassPass, HasErrors, Reports, Denies;
    var input' := input.(tiers := input.tiers[i := t]);
    StagesReachReport(input');
    var ctx, ds, ts := ContextOf(input), StagesOf(input).classes, input'.tiers;
    ReplacedElements(input.tiers, i, t);
    TierPrefix(ts, i + 1, ctx.classes, ctx.fx, ds);
    var st := TierPass(input.tiers[..i], ctx.classes, ctx.fx, ds);
    TierPassSnoc(input.tiers[..i], t, ctx.classes, ctx.fx, ds);
    AddTierReports(st, t, ctx.classes, ctx.fx);
    BadDenies(st.diags, AddTier(st, t, ctx.classes, ctx.fx).diags, Compile(input').report, ModelTier, DiagName(t.meta),
              t.meta.name.None? || t.meta.name.value in st.tiers || !TierValid(t, ctx.classes.Keys, ctx.fx));
  }

  lemma UpdatedTierFits(input: CompileInput, i: nat, t: TierResource)
    requires Compile(input).core.Some? && i < |input.tiers| && SameObject(input.tiers[i].meta, t.meta)
    requires TierValid(t, ContextOf(input).classes.Keys, ContextOf(input).fx)
    ensures Compile(input.(tiers := input.tiers[i := t])).core.Some?
            <==> AllSelect(input.policies, input.tiers[i := t])
  {
    hide Compile, TierPass, TierValid, PolicyPass, PolicyValid, FxPass, ProfilePass, ClassPass, HasErrors, CompileTier,
      RatesConsistent, Quotes, ProfilesWF, ClassesWF, Holds, SortBy, PoliciesWF, AllSelect, NsOf;
    var input' := input.(tiers := input.tiers[i := t]);
    CompileIsExact(input);
    CompileIsExact(input');
    var ctx, ctx', ds := ContextOf(input), ContextOf(input'), StagesOf(input).classes;
    EarlierStagesClean(input);
    NamedApartReplaced(TierName, input.tiers, i, t);
    ReplacedElements(input.tiers, i, t);
    TierPassSound(input'.tiers, ctx.classes, ctx.fx, ds);
    HoldsPointwise(ctx.tiers, ctx'.tiers, TierName, TierCompiler(ctx.fx), TierCompiler(ctx.fx), input.tiers,
                   input'.tiers);
    HoldsPointwise(ctx.tierNs, ctx'.tierNs, TierName, TierNsOf(), TierNsOf(), input.tiers, input'.tiers);
    PoliciesWithCandidates(input.policies, ctx, ctx', input'.tiers);
  }

  // ---- updating a policy ----

  lemma UpdatedPolicyIsJudged(input: CompileInput, i: nat, p: PolicyResource)
    requires Compile(input).core.Some? && i < |input.policies|
    ensures PolicyValid(p, ContextOf(input))
            || Denies(Compile(input.(policies := input.policies[i := p])).report, RoutingPolicy, PolicyDiagKey(p))
  {
    hide Compile, AddPolicy, TierPass, PolicyPass, PolicyValid, FxPass, ProfilePass, ClassPass, HasErrors, Reports,
      Denies;
    var input' := input.(policies := input.policies[i := p]);
    StagesReachReport(input');
    var ctx, ds, ps := ContextOf(input), StagesOf(input).tiers, input'.policies;
    ReplacedElements(input.policies, i, p);
    PolicyPrefix(ps, i + 1, ctx, ds);
    var st := PolicyPass(input.policies[..i], ctx, ds);
    PolicyPassSnoc(input.policies[..i], p, ctx, ds);
    AddPolicyReports(st, p, ctx);
    BadDenies(st.diags, AddPolicy(st, p, ctx).diags, Compile(input').report, RoutingPolicy, DiagName(p.meta),
              p.meta.name.None? || PolicyKey(p.meta) in st.seen || !PolicyValid(p, ctx));
  }

  lemma UpdatedPolicyFits(input: CompileInput, i: nat, p: PolicyResource)
    requires Compile(input).core.Some? && i < |input.policies| && SameObject(input.policies[i].meta, p.meta)
    requires PolicyValid(p, ContextOf(input))
    ensures Compile(input.(policies := input.policies[i := p])).core.Some?
  {
    hide Compile, TierPass, PolicyPass, PolicyValid, FxPass, ProfilePass, ClassPass, HasErrors, NsOf,
      RatesConsistent, Quotes, ProfilesWF, ClassesWF, TiersWF, Holds, SortBy;
    var input' := input.(policies := input.policies[i := p]);
    CompileIsExact(input);
    CompileIsExact(input');
    NamedApartReplaced(PolicyName, input.policies, i, p);
    ReplacedElements(input.policies, i, p);
  }

  // ---- updating a data class ----

  ghost predicate NoEarlierClaim(cs: seq<ClassResource>, i: nat, c: ClassResource)
    requires i < |cs|
  {
    forall j :: 0 <= j < i ==> Claims(cs[j]) !! Claims(c)
  }

  ghost predicate NoLaterClaim(cs: seq<ClassResource>, i: nat, c: ClassResource)
    requires i < |cs|
  {
    forall j :: i < j < |cs| ==> Claims(cs[j]) !! Claims(c)
  }

  lemma ClassesWFReplaced(cs: seq<ClassResource>, i: nat, c: ClassResource)
    requires ClassesWF(cs) && i < |cs| && ClassName(cs[i]) == ClassName(c)
    ensures ClassesWF(cs[i := c]) <==> Unit(c.minConfidence) && NoEarlierClaim(cs, i, c) && NoLaterClaim(cs, i, c)
  {
    hide Claims, Unit;
    var cs' := cs[i := c];
    NamedApartReplaced(ClassName, cs, i, c);
    ReplacedElements(cs, i, c);
    forall j | 0 <= j < |cs| && j != i ensures cs[j] in cs' && cs[j] in cs && cs[j] != c {
      assert cs'[j] == cs[j];
      assert ClassName(cs[j]) != ClassName(cs[i]);
    }
    if ClassesWF(cs') {
      assert forall j :: 0 <= j < |cs| && j != i ==> Claims(cs[j]) !! Claims(c);
    }
    if Unit(c.minConfidence) && NoEarlierClaim(cs, i, c) && NoLaterClaim(cs, i, c) {
      forall d, e | d in cs' && e in cs' && d != e ensures Claims(d) !! Claims(e) {
        var j :| 0 <= j < |cs'| && cs'[j] == d;
        var k :| 0 <= k < |cs'| && cs'[k] == e;
      }
    }
  }

  lemma FrontIsClean(input: CompileInput, i: nat)
    requires Compile(input).core.Some? && i < |input.dataClasses|
    ensures ClassesWF(input.dataClasses[..i])
    ensures Owns(ClassPass(input.dataClasses[..i], StagesOf(input).profiles).owners, input.dataClasses[..i])
  {
    hide Compile, ClassPass, FxPass, ProfilePass, TierPass, PolicyPass, HasErrors, ClassesWF, Owns, Holds;
    EarlierStagesClean(input);
    var ds := StagesOf(input).profiles;
    ClassPrefix(input.dataClasses, i, ds);
    CleanPrefix(ClassPass(input.dataClasses[..i], ds).diags, ClassPass(input.dataClasses, ds).diags);
    ClassPassSound(input.dataClasses[..i], ds);
  }

  lemma UpdatedClassIsJudged(input: CompileInput, i: nat, c: ClassResource)
    requires Compile(input).core.Some? && i < |input.dataClasses| && SameObject(input.dataClasses[i].meta, c.meta)
    ensures (Unit(c.minConfidence) && NoEarlierClaim(input.dataClasses, i, c))
            || Denies(Compile(input.(dataClasses := input.dataClasses[i := c])).report, DataClassKind, ClassKey(c))
  {
    hide Compile, AddClass, TierPass, ClassPass, PolicyPass, FxPass, ProfilePass, HasErrors, Reports, Denies, Unit,
      ForeignClaim, ClaimList, Owns, ClassesWF, Claims;
    var input' := input.(dataClasses := input.dataClasses[i := c]);
    StagesReachReport(input');
    var ds, cs, front := StagesOf(input).profiles, input'.dataClasses, input.dataClasses[..i];
    ReplacedElements(input.dataClasses, i, c);
    ClassPrefix(cs, i + 1, ds);
    var st := ClassPass(front, ds);
    ClassPassSnoc(front, c, ds);
    AddClassReports(st, c);
    BadDenies(st.diags, AddClass(st, c).diags, Compile(input').report, DataClassKind, DiagName(c.meta),
              !NewClass(st, c) || !Unit(c.minConfidence)
              || ForeignClaim(st.owners, c.meta.name.value, ClaimList(c, c.meta.name.value)));
    FrontIsClean(input, i);
    NotTakenInFront(input, i);
    if NewClass(st, c) {
      ForeignIsShared(st.owners, front, c);
      if !NoEarlierClaim(input.dataClasses, i, c) {
        var j :| 0 <= j < i && !(Claims(input.dataClasses[j]) !! Claims(c));
        assert front[j] == input.dataClasses[j] && front[j] in front;
      }
    }
  }

  lemma NotTakenInFront(input: CompileInput, i: nat)
    requires Compile(input).core.Some? && i < |input.dataClasses|
    ensures !Taken(ClassName, input.dataClasses[..i], ClassName(input.dataClasses[i]))
  {
    hide Compile, RatesConsistent, ProfilesWF, TiersWF, PoliciesWF, Claims, Realises;
    CompileIsExact(input);
    forall j | 0 <= j < i ensures ClassName(input.dataClasses[..i][j]) != ClassName(input.dataClasses[i]) {
      assert input.dataClasses[..i][j] == input.dataClasses[j];
    }
  }

  lemma UpdatedClassFits(input: CompileInput, i: nat, c: ClassResource)
    requires Compile(input).core.Some? && i < |input.dataClasses| && SameObject(input.dataClasses[i].meta, c.meta)
    requires Unit(c.minConfidence) && NoEarlierClaim(input.dataClasses, i, c)
    ensures Compile(input.(dataClasses := input.dataClasses[i := c])).core.Some?
            <==> NoLaterClaim(input.dataClasses, i, c)
  {
    hide Compile, TierPass, PolicyPass, FxPass, ProfilePass, ClassPass, HasErrors, RatesConsistent, Quotes, ProfilesWF,
      ClassesWF, TiersWF, PoliciesWF, Holds, SortBy, NoEarlierClaim, NoLaterClaim, Unit, Extends, NsOf;
    var input' := input.(dataClasses := input.dataClasses[i := c]);
    CompileIsExact(input);
    CompileIsExact(input');
    ClassesWFReplaced(input.dataClasses, i, c);
    if ClassesWF(input'.dataClasses) {
      var ctx, ctx' := ContextOf(input), ContextOf(input');
      EarlierStagesClean(input);
      ClassPassSound(input'.dataClasses, StagesOf(input).profiles);
      HoldsPointwise(ctx.classes, ctx'.classes, ClassName, ClassCompiler(), ClassCompiler(),
                     input.dataClasses, input'.dataClasses);
      TierPassSound(input.tiers, ctx'.classes, ctx'.fx, StagesOf(input').classes);
      HoldsUnique(ctx.tiers, ctx'.tiers, TierName, TierCompiler(ctx.fx), input.tiers, input.tiers);
      HoldsUnique(ctx.tierNs, ctx'.tierNs, TierName, TierNsOf(), input.tiers, input.tiers);
      SameTiersExtend(ctx, ctx');
      PoliciesStayWF(input.policies, ctx, ctx');
    }
  }

  // ---- updating a profile ----

  /** The rates of the profiles listed later still follow those declared before them. */
  ghost predicate LaterRatesFollow(ps: seq<ProfileResource>, i: nat) {
    forall j :: i < j < |ps| ==> RatesFollow(ps[..j], ps[j])
  }

  /** If a tier is priced in dollars, some profile declares a rate for the dollar. */
  ghost predicate DollarsConvert(ts: seq<TierResource>, ps: seq<ProfileResource>) {
    (exists t :: t in ts && t.currency == Usd) ==> Declared(ps, "USD")
  }

  lemma RatesConsistentReplaced(ps: seq<ProfileResource>, i: nat, p: ProfileResource)
    requires RatesConsistent(ps) && i < |ps|
    ensures RatesConsistent(ps[i := p]) <==> RatesFollow(ps[..i], p) && LaterRatesFollow(ps[i := p], i)
  {
    hide RatesFollow;
    var ps' := ps[i := p];
    ReplacedElements(ps, i, p);
    assert ps'[i] == p;
    forall j | 0 <= j < i ensures RatesFollow(ps'[..j], ps'[j]) {
      assert ps'[..j] == ps[..j] && ps'[j] == ps[j];
    }
    assert RatesConsistent(ps') ==> RatesFollow(ps'[..i], ps'[i]);
  }

  lemma UpdatedRatesAreJudged(input: CompileInput, i: nat, p: ProfileResource)
    requires Compile(input).core.Some? && i < |input.profiles|
    ensures RatesFollow(input.profiles[..i], p)
            || Denies(Compile(input.(profiles := input.profiles[i := p])).report, RouterProfile, ProfileKey(p))
  {
    hide Compile, AddRates, TierPass, ClassPass, PolicyPass, FxPass, ProfilePass, HasErrors, Reports, Denies, RatesFit,
      RatesConsistent, RatesFollow, Quotes;
    var input' := input.(profiles := input.profiles[i := p]);
    StagesReachReport(input');
    var ps, front := input'.profiles, input.profiles[..i];
    ReplacedElements(input.profiles, i, p);
    FxPrefix(ps, i + 1);
    FxPassSnoc(front, p);
    RatesReport(FxPass(front), p, Ascending(p.fxToEur.Keys));
    BadDenies(FxPass(front).diags, FxPass(front + [p]).diags, Compile(input').report, RouterProfile, DiagName(p.meta),
              !RatesFit(FxPass(front).fx, p, Ascending(p.fxToEur.Keys)));
    EarlierStagesClean(input);
    FxPrefix(input.profiles, i);
    CleanPrefix(FxPass(front).diags, FxPass(input.profiles).diags);
    FxPassSound(front);
    FitIsFollowing(FxPass(front).fx, front, p);
  }

  lemma UpdatedProfileIsJudged(input: CompileInput, i: nat, p: ProfileResource)
    requires i < |input.profiles|
    ensures ProfileValid(p)
            || Denies(Compile(input.(profiles := input.profiles[i := p])).report, RouterProfile, ProfileKey(p))
  {
    hide Compile, AddProfile, TierPass, ClassPass, PolicyPass, FxPass, ProfilePass, HasErrors, Reports, Denies,
      ProfileValid;
    var input' := input.(profiles := input.profiles[i := p]);
    StagesReachReport(input');
    var ps, front, ds := input'.profiles, input.profiles[..i], FxPass(input'.profiles).diags;
    ReplacedElements(input.profiles, i, p);
    ProfilePrefix(ps, i + 1, ds);
    var st := ProfilePass(front, ds);
    ProfilePassSnoc(front, p, ds);
    AddProfileReports(st, p);
    BadDenies(st.diags, AddProfile(st, p).diags, Compile(input').report, RouterProfile, DiagName(p.meta),
              p.meta.name.None? || p.meta.name.value in st.profiles || !ProfileValid(p));
  }

  /** Under positive rates tiers are priced exactly when the dollar has a rate, should one of them need it. */
  lemma TiersPricedExactly(
    ts: seq<TierResource>, names: set<string>, fx: map<string, real>, fx': map<string, real>, ps: seq<ProfileResource>)
    requires TiersWF(ts, names, fx) && PositiveRates(fx') && Quotes(fx', ps)
    ensures TiersWF(ts, names, fx') <==> DollarsConvert(ts, ps)
  {
    hide Unit, Trim, MicroEur, PositiveRates, NonNegative;
    LastDeclaredIn(ps, "USD");
    assert LastDeclared(ps, "USD").Some? <==> "USD" in fx';
    forall t | t in ts ensures TierValid(t, names, fx') <==> (t.currency == Usd ==> "USD" in fx') {
      PricedExactly(t, fx');
      assert TierValid(t, names, fx);
    }
  }

  lemma PricedExactly(t: TierResource, fx: map<string, real>)
    requires NonNegative(t.inputPerMillion) && NonNegative(t.outputPerMillion) && PositiveRates(fx)
    ensures Priced(t, fx) <==> (t.currency == Usd ==> "USD" in fx)
  {
    hide MicroEur, PositiveRates;
    var rate := RateFor(t.currency, fx);
    PositiveEntry(fx, "USD");
    if rate.Some? {
      NonNegativePrice(t.inputPerMillion.value, rate.value);
      NonNegativePrice(t.outputPerMillion.value, rate.value);
    }
  }

  lemma UpdatedProfileFits(input: CompileInput, i: nat, p: ProfileResource)
    requires Compile(input).core.Some? && i < |input.profiles| && SameObject(input.profiles[i].meta, p.meta)
    requires RatesFollow(input.profiles[..i], p) && ProfileValid(p)
    ensures var ps := input.profiles[i := p];
      Compile(input.(profiles := ps)).core.Some? <==> LaterRatesFollow(ps, i) && DollarsConvert(input.tiers, ps)
  {
    hide Compile, TierPass, PolicyPass, FxPass, ProfilePass, ClassPass, HasErrors, RatesConsistent, Quotes,
      ProfileValid, ClassesWF, TiersWF, PoliciesWF, Holds, SortBy, Extends, NsOf, RatesFollow, LaterRatesFollow,
      DollarsConvert, PositiveRates;
    var input' := input.(profiles := input.profiles[i := p]);
    CompileIsExact(input);
    CompileIsExact(input');
    RatesConsistentReplaced(input.profiles, i, p);
    if RatesConsistent(input'.profiles) {
      ProfilesStayWF(input, i, p);
      FxPassSound(input'.profiles);
      FxIsPositive(input'.profiles);
      TiersPricedExactly(input.tiers, ContextOf(input).classes.Keys, ContextOf(input).fx, ContextOf(input').fx,
                         input'.profiles);
      if TiersWF(input.tiers, ContextOf(input).classes.Keys, ContextOf(input').fx) {
        RepricedPoliciesStay(input, input');
      }
    }
  }

  /** Everything before the tiers is as it was, with the same names. */
  lemma ProfilesStayWF(input: CompileInput, i: nat, p: ProfileResource)
    requires Compile(input).core.Some? && i < |input.profiles| && SameObject(input.profiles[i].meta, p.meta)
    requires ProfileValid(p) && RatesConsistent(input.profiles[i := p])
    ensures var input' := input.(profiles := input.profiles[i := p]);
      && ProfilesWF(input'.profiles)
      && ContextOf(input').profileNames == ContextOf(input).profileNames
      && ContextOf(input').classes == ContextOf(input).classes
  {
    hide Compile, TierPass, PolicyPass, FxPass, ProfilePass, ClassPass, HasErrors, RatesConsistent, Quotes,
      ProfileValid, ClassesWF, TiersWF, PoliciesWF, Holds, SortBy, NsOf;
    var input' := input.(profiles := input.profiles[i := p]);
    CompileIsExact(input);
    NamedApartReplaced(ProfileName, input.profiles, i, p);
    ReplacedElements(input.profiles, i, p);
    var fx, fx' := FxPass(input.profiles), FxPass(input'.profiles);
    ProfilePassSound(input.profiles, fx.diags);
    ProfilePassSound(input'.profiles, fx'.diags);
    var st, st' := ProfilePass(input.profiles, fx.diags), ProfilePass(input'.profiles, fx'.diags);
    HoldsPointwise(st.profiles, st'.profiles, ProfileName, ProfileCompiler(), ProfileCompiler(), input.profiles,
                   input'.profiles);
    ClassPassSound(input.dataClasses, st.diags);
    ClassPassSound(input.dataClasses, st'.diags);
    HoldsUnique(ContextOf(input).classes, ContextOf(input').classes, ClassName, ClassCompiler(),
                input.dataClasses, input.dataClasses);
  }

  lemma RepricedPoliciesStay(input: CompileInput, input': CompileInput)
    requires Compile(input).core.Some? && input' == input.(profiles := input'.profiles)
    requires ContextOf(input').classes == ContextOf(input).classes
    requires ContextOf(input').profileNames == ContextOf(input).profileNames
    requires TiersWF(input.tiers, ContextOf(input).classes.Keys, ContextOf(input').fx)
    ensures PoliciesWF(input.policies, ContextOf(input'))
  {
    hide Compile, TierPass, PolicyPass, FxPass, ProfilePass, ClassPass, HasErrors, RatesConsistent, Quotes, ProfilesWF,
      ClassesWF, TiersWF, PoliciesWF, Holds, SortBy, Extends;
    CompileIsExact(input);
    var ctx, ctx' := ContextOf(input), ContextOf(input');
    TierPassSound(input.tiers, ctx'.classes, ctx'.fx, StagesOf(input').classes);
    HoldsUnique(ctx.tierNs, ctx'.tierNs, TierName, TierNsOf(), input.tiers, input.tiers);
    RepricedTiersExtend(ctx, ctx', input.tiers, input.tiers);
    PoliciesStayWF(input.policies, ctx, ctx');
  }

  // ---- the theorem ----

  /** What the webhook does not see: the effect of an update on the objects that come after it or refer to it. */
  ghost predicate UpdateFits(input: CompileInput, o: Incoming) {
    match o
    case IncomingTier(t) => AllSelect(input.policies, Put(TierKey, input.tiers, t))
    case IncomingClass(c) =>
      var i := Place(ClassKey, input.dataClasses, c);
      i < |input.dataClasses| ==> NoLaterClaim(input.dataClasses, i, c)
    case IncomingPolicy(_) => true
    case IncomingProfile(p) =>
      var ps := Put(ProfileKey, input.profiles, p);
      LaterRatesFollow(ps, Place(ProfileKey, input.profiles, p)) && DollarsConvert(input.tiers, ps)
  }

  /**
   When the listed objects compile, the updated set compiles exactly if the update is admitted and: for a tier, every
   policy still selects some tier; for a data class, no class listed later shares a claimed header value with it; for
   a profile, the rates listed later still follow and dollar prices still convert; for a policy, always. That the
   condition can fail on an admitted update shows `Admission.AdmittedUpdateCanBreakAPolicy`.
   */
  lemma UpdateAdmissionExactly(input: CompileInput, o: Incoming)
    requires Compile(input).core.Some? && IsUpdate(input, o)
    ensures Compile(Substitute(input, o)).core.Some? <==> Admits(input, o) && UpdateFits(input, o)
  {
    hide Compile, Denies, HasErrors, TierValid, PolicyValid, ProfileValid, ContextOf, RatesFollow, LaterRatesFollow,
      DollarsConvert, AllSelect, NoEarlierClaim, NoLaterClaim, Unit, DiagName, SameObject, Put, Place;
    CompiledIsAdmitted(input, o);
    match o
    case IncomingTier(t) =>
      var i := Place(TierKey, input.tiers, t);
      PutReplaces(TierKey, input.tiers, t);
      UpdatedTierIsJudged(input, i, t);
      if TierValid(t, ContextOf(input).classes.Keys, ContextOf(input).fx) {
        UpdatedTierFits(input, i, t);
      }
    case IncomingClass(c) =>
      var i := Place(ClassKey, input.dataClasses, c);
      PutReplaces(ClassKey, input.dataClasses, c);
      UpdatedClassIsJudged(input, i, c);
      if Unit(c.minConfidence) && NoEarlierClaim(input.dataClasses, i, c) {
        UpdatedClassFits(input, i, c);
      }
    case IncomingPolicy(p) =>
      var i := Place(PolicyDiagKey, input.policies, p);
      PutReplaces(PolicyDiagKey, input.policies, p);
      UpdatedPolicyIsJudged(input, i, p);
      if PolicyValid(p, ContextOf(input)) {
        UpdatedPolicyFits(input, i, p);
      }
    case IncomingProfile(p) =>
      var i := Place(ProfileKey, input.profiles, p);
      PutReplaces(ProfileKey, input.profiles, p);
      UpdatedRatesAreJudged(input, i, p);
      UpdatedProfileIsJudged(input, i, p);
      if RatesFollow(input.profiles[..i], p) && ProfileValid(p) {
        UpdatedProfileFits(input, i, p);
      }
  }

  lemma CompiledIsAdmitted(input: CompileInput, o: Incoming)
    ensures Compile(Substitute(input, o)).core.Some? ==> Admits(input, o)
  {
    hide Compile, DiagName, HasErrors, Substitute;
    CompileIsExact(Substitute(input, o));
    NoErrorNoDenial(Compile(Substitute(input, o)).report, KindOf(o), KeyOf(o));
  }
}
