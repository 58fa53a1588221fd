/**
 What the compiler reports about tiers and policies, rule by rule, and so exactly when it succeeds.
 */
module ReportedReferences {
  import opened Ordering
  import opened TextForms
  import opened Snapshots
  import opened SnapshotNumbers
  import opened Compiler
  import opened CompilerFacts
  import opened CompilerReferences
  import opened CompilerShadows
  import opened CompilerValues
  import opened ReportedObjects

  // ---- tiers ----

  /** The amount in micro-EUR does not round to a negative number. */
  predicate RoundsToNatural(price: real, rate: real) {
    price * rate * 1000000.0 > -0.5
  }

  /** The price has a rate and does not become negative. */
  predicate Sells(price: Float, currency: Currency, fx: map<string, real>) {
    && price.Finite?
    && match currency
       case Eur => RoundsToNatural(price.value, 1.0)
       case Usd => "USD" in fx && RoundsToNatural(price.value, fx["USD"])
  }

  /** What is wrong with a tier. */
  ghost predicate TierBreaks(rule: Rule, t: TierResource, classNames: set<string>, fx: map<string, real>) {
    match rule
    case GatewayModelEmpty => Trimmed(t.gatewayModel, "")
    case ContextWindowEmpty => t.contextWindow == 0
    case InputPriceOutOfRange => !AtLeastZero(t.inputPerMillion)
    case OutputPriceOutOfRange => !AtLeastZero(t.outputPerMillion)
    case BaselineOutOfRange => !InUnit(t.qualityBaseline)
    case TaskQualityOutOfRange(k) => k in t.qualityByTask && !InUnit(t.qualityByTask[k])
    case MaxRiskOutOfRange => !InUnit(t.maxRiskScore)
    case UnknownDataClass(n) => n in t.allowedDataClasses && n !in classNames
    case NoConversionRate =>
      !Sells(t.inputPerMillion, t.currency, fx) || !Sells(t.outputPerMillion, t.currency, fx)
    case _ => false
  }

  ghost predicate SoundTier(t: TierResource, classNames: set<string>, fx: map<string, real>) {
    forall rule :: !TierBreaks(rule, t, classNames, fx)
  }

  /** Why the tier cannot serve the class. */
  predicate Clashes(clash: Clash, t: TierResource, dc: DataClass) {
    match clash
    case NotAllowed => dc.name !in t.allowedDataClasses
    case JurisdictionClash => dc.requireJurisdiction != {} && t.jurisdiction !in dc.requireJurisdiction
    case CloudActClash => dc.forbidCloudActExposed && t.cloudActExposed
    case OperatorClash => dc.requireOperatorControl != {} && t.operatorControl !in dc.requireOperatorControl
    case CapabilityClash => exists c :: c in t.capabilities && c in dc.forbidCapabilities
  }

  function Turn(clash: Clash): nat {
    match clash
    case NotAllowed => 0
    case JurisdictionClash => 1
    case CloudActClash => 2
    case OperatorClash => 3
    case CapabilityClash => 4
  }

  ghost predicate FirstClash(clash: Clash, t: TierResource, dc: DataClass) {
    Clashes(clash, t, dc) && forall other :: Turn(other) < Turn(clash) ==> !Clashes(other, t, dc)
  }

  /** What is reported about a tier, in view of those before it. */
  ghost predicate TierSays(
    before: seq<TierResource>, t: TierResource, classes: map<string, DataClass>, fx: map<string, real>, d: Diag)
  {
    && d.kind == ModelTier && IsNameOf(t.meta, d.name)
    && if t.meta.name.None? then d.level == Error && d.rule == MissingName
       else if exists q :: q in before && q.meta.name == t.meta.name && SoundTier(q, classes.Keys, fx) then
         d.level == Error && d.rule == DuplicateName
       else if d.level == Error then TierBreaks(d.rule, t, classes.Keys, fx)
       else
         && SoundTier(t, classes.Keys, fx)
         && d.rule.ClaimViolated? && d.rule.dataClass in t.allowedDataClasses && d.rule.dataClass in classes
         && FirstClash(d.rule.clash, t, classes[d.rule.dataClass])
  }

  lemma NotNegative(n: int, v: real)
    ensures Nearest(n, v) ==> (n >= 0 <==> v > -0.5)
  {}

  lemma MicroEurExists(price: real, rate: real)
    ensures MicroEur(price, rate).Some? <==> RoundsToNatural(price, rate)
  {
    RoundIsNearest(price * rate * 1000000.0);
    NotNegative(Round(price * rate * 1000000.0), price * rate * 1000000.0);
  }

  lemma SellsExactly(price: Float, currency: Currency, fx: map<string, real>)
    ensures ToMicroEur(price, currency, fx).Some? <==> Sells(price, currency, fx)
  {
    hide MicroEur, RoundsToNatural;
    if price.Finite? && RateFor(currency, fx).Some? {
      MicroEurExists(price.value, RateFor(currency, fx).value);
    }
  }

  lemma GatewayIsEmpty(s: string)
    ensures Trim(s) == "" <==> Trimmed(s, "")
  {
    TrimExactly(s, "");
  }

  lemma {:induction false} TasksSay(t: TierResource, tasks: seq<string>, ds: seq<Diag>, d: Diag)
    ensures d in TaskChecks(t, tasks, ds) <==>
      d in ds || exists k :: k in tasks && k in t.qualityByTask && !Unit(t.qualityByTask[k])
                  && d == Diag(Error, ModelTier, DiagName(t.meta), TaskQualityOutOfRange(k))
  {
    hide DiagName, Unit;
    if tasks != [] {
      var front, k := tasks[..|tasks| - 1], tasks[|tasks| - 1];
      assert tasks == front + [k];
      TasksSay(t, front, ds, d);
      assert forall x :: x in tasks <==> x in front || x == k;
    }
  }

  lemma {:induction false} ReferencesSay(
    t: TierResource, names: seq<string>, classes: map<string, DataClass>, ds: seq<Diag>, d: Diag)
    ensures d in ReferenceChecks(t, names, classes, ds) <==>
      d in ds || exists k :: k in names && k !in classes
                  && d == Diag(Error, ModelTier, DiagName(t.meta), UnknownDataClass(k))
  {
    hide DiagName;
    if names != [] {
      var front, k := names[..|names| - 1], names[|names| - 1];
      assert names == front + [k];
      ReferencesSay(t, front, classes, ds, d);
      assert forall x :: x in names <==> x in front || x == k;
    }
  }

  /** One rule is broken and reported. */
  predicate Hit(broken: bool, t: TierResource, rule: Rule, d: Diag) {
    broken && d == Diag(Error, ModelTier, DiagName(t.meta), rule)
  }

  lemma FirstChecksSay(t: TierResource, ds: seq<Diag>, d: Diag) returns (d5: seq<Diag>)
    ensures d5 == PushIf(!Unit(t.qualityBaseline),
              PushIf(!NonNegative(t.outputPerMillion),
                PushIf(!NonNegative(t.inputPerMillion),
                  PushIf(t.contextWindow == 0,
                    PushIf(Trim(t.gatewayModel) == "", ds, Diag(Error, ModelTier, DiagName(t.meta), GatewayModelEmpty)),
                    Diag(Error, ModelTier, DiagName(t.meta), ContextWindowEmpty)),
                  Diag(Error, ModelTier, DiagName(t.meta), InputPriceOutOfRange)),
                Diag(Error, ModelTier, DiagName(t.meta), OutputPriceOutOfRange)),
              Diag(Error, ModelTier, DiagName(t.meta), BaselineOutOfRange))
    ensures d in d5 <==>
      || d in ds
      || Hit(Trim(t.gatewayModel) == "", t, GatewayModelEmpty, d)
      || Hit(t.contextWindow == 0, t, ContextWindowEmpty, d)
      || Hit(!NonNegative(t.inputPerMillion), t, InputPriceOutOfRange, d)
      || Hit(!NonNegative(t.outputPerMillion), t, OutputPriceOutOfRange, d)
      || Hit(!Unit(t.qualityBaseline), t, BaselineOutOfRange, d)
  {
    hide DiagName, Trim, NonNegative, Unit, PushIf;
    var n := DiagName(t.meta);
    var e1 := Diag(Error, ModelTier, n, GatewayModelEmpty);
    var d1 := PushIf(Trim(t.gatewayModel) == "", ds, e1);
    PushIfSays(Trim(t.gatewayModel) == "", ds, e1, d);
    var e2 := Diag(Error, ModelTier, n, ContextWindowEmpty);
    var d2 := PushIf(t.contextWindow == 0, d1, e2);
    PushIfSays(t.contextWindow == 0, d1, e2, d);
    var e3 := Diag(Error, ModelTier, n, InputPriceOutOfRange);
    var d3 := PushIf(!NonNegative(t.inputPerMillion), d2, e3);
    PushIfSays(!NonNegative(t.inputPerMillion), d2, e3, d);
    var e4 := Diag(Error, ModelTier, n, OutputPriceOutOfRange);
    var d4 := PushIf(!NonNegative(t.outputPerMillion), d3, e4);
    PushIfSays(!NonNegative(t.outputPerMillion), d3, e4, d);
    var e5 := Diag(Error, ModelTier, n, BaselineOutOfRange);
    d5 := PushIf(!Unit(t.qualityBaseline), d4, e5);
    PushIfSays(!Unit(t.qualityBaseline), d4, e5, d);
  }

  /** All that a tier is checked for. */
  ghost predicate AnyHit(t: TierResource, classes: map<string, DataClass>, fx: map<string, real>, d: Diag) {
    || Hit(Trim(t.gatewayModel) == "", t, GatewayModelEmpty, d)
    || Hit(t.contextWindow == 0, t, ContextWindowEmpty, d)
    || Hit(!NonNegative(t.inputPerMillion), t, InputPriceOutOfRange, d)
    || Hit(!NonNegative(t.outputPerMillion), t, OutputPriceOutOfRange, d)
    || Hit(!Unit(t.qualityBaseline), t, BaselineOutOfRange, d)
    || (exists k :: k in t.qualityByTask.Keys && Hit(!Unit(t.qualityByTask[k]), t, TaskQualityOutOfRange(k), d))
    || Hit(!Unit(t.maxRiskScore), t, MaxRiskOutOfRange, d)
    || (exists k :: k in t.allowedDataClasses && Hit(k !in classes, t, UnknownDataClass(k), d))
    || Hit(!Priced(t, fx), t, NoConversionRate, d)
  }

  lemma ChecksHit(t: TierResource, classes: map<string, DataClass>, fx: map<string, real>, ds: seq<Diag>, d: Diag)
    ensures d in TierChecks(t, classes, fx, ds) <==> d in ds || AnyHit(t, classes, fx, d)
  {
    hide DiagName, Trim, NonNegative, Unit, PushIf, TaskChecks, ReferenceChecks, Ascending, StrictlyAscending, Priced;
    var n := DiagName(t.meta);
    AscendingSound(t.qualityByTask.Keys);
    var d5 := FirstChecksSay(t, ds, d);
    var d6 := TaskChecks(t, Ascending(t.qualityByTask.Keys), d5);
    TasksSay(t, Ascending(t.qualityByTask.Keys), d5, d);
    var e7 := Diag(Error, ModelTier, n, MaxRiskOutOfRange);
    var d7 := PushIf(!Unit(t.maxRiskScore), d6, e7);
    PushIfSays(!Unit(t.maxRiskScore), d6, e7, d);
    var d8 := ReferenceChecks(t, t.allowedDataClasses, classes, d7);
    ReferencesSay(t, t.allowedDataClasses, classes, d7, d);
    PushIfSays(!Priced(t, fx), d8, Diag(Error, ModelTier, n, NoConversionRate), d);
    assert TierChecks(t, classes, fx, ds) == PushIf(!Priced(t, fx), d8, Diag(Error, ModelTier, n, NoConversionRate));
  }

  lemma HitIsBreak(t: TierResource, classes: map<string, DataClass>, fx: map<string, real>, d: Diag)
    ensures AnyHit(t, classes, fx, d) <==>
      d.level == Error && d.kind == ModelTier && d.name == DiagName(t.meta) && TierBreaks(d.rule, t, classes.Keys, fx)
  {
    hide DiagName, Trim, Trimmed, ToMicroEur, Sells;
    GatewayIsEmpty(t.gatewayModel);
    SellsExactly(t.inputPerMillion, t.currency, fx);
    SellsExactly(t.outputPerMillion, t.currency, fx);
  }

  lemma TierChecksSay(t: TierResource, classes: map<string, DataClass>, fx: map<string, real>, ds: seq<Diag>, d: Diag)
    ensures d in TierChecks(t, classes, fx, ds) <==>
      d in ds || (d.level == Error && d.kind == ModelTier && IsNameOf(t.meta, d.name)
                  && TierBreaks(d.rule, t, classes.Keys, fx))
  {
    hide DiagName, IsNameOf, AnyHit, TierBreaks, TierChecks;
    DiagNameIs(t.meta, d.name);
    ChecksHit(t, classes, fx, ds, d);
    HitIsBreak(t, classes, fx, d);
  }

  lemma SoundIsValid(t: TierResource, classNames: set<string>, fx: map<string, real>)
    ensures TierValid(t, classNames, fx) <==> SoundTier(t, classNames, fx)
  {
    hide Trim, Trimmed, ToMicroEur, Sells;
    GatewayIsEmpty(t.gatewayModel);
    SellsExactly(t.inputPerMillion, t.currency, fx);
    SellsExactly(t.outputPerMillion, t.currency, fx);
    if SoundTier(t, classNames, fx) {
      assert !TierBreaks(GatewayModelEmpty, t, classNames, fx) && !TierBreaks(ContextWindowEmpty, t, classNames, fx);
      assert !TierBreaks(InputPriceOutOfRange, t, classNames, fx);
      assert !TierBreaks(OutputPriceOutOfRange, t, classNames, fx);
      assert !TierBreaks(BaselineOutOfRange, t, classNames, fx) && !TierBreaks(MaxRiskOutOfRange, t, classNames, fx);
      assert !TierBreaks(NoConversionRate, t, classNames, fx);
      forall k | k in t.qualityByTask ensures Unit(t.qualityByTask[k]) {
        assert !TierBreaks(TaskQualityOutOfRange(k), t, classNames, fx);
      }
      forall n | n in t.allowedDataClasses ensures n in classNames {
        assert !TierBreaks(UnknownDataClass(n), t, classNames, fx);
      }
    }
  }

  lemma ClashIsFirst(t: TierResource, name: string, fx: map<string, real>, dc: DataClass, clash: Clash)
    ensures ClassClash(CompileTier(t, name, fx), dc) == Some(clash) <==> FirstClash(clash, t, dc)
  {
    hide ToMicroEur, ToReal;
    var x := CompileTier(t, name, fx);
    assert forall c :: c in x.capabilities <==> c in t.capabilities;
    assert forall n :: n in x.allowedDataClasses <==> n in t.allowedDataClasses;
    assert x.jurisdiction == t.jurisdiction && x.operatorControl == t.operatorControl;
    assert x.cloudActExposed == t.cloudActExposed;
    hide CompileTier;
    assert forall other | Turn(other) < Turn(clash) ::
        other == NotAllowed || other == JurisdictionClash || other == CloudActClash || other == OperatorClash;
    assert clash != NotAllowed ==> Turn(NotAllowed) < Turn(clash);
    assert clash != NotAllowed && clash != JurisdictionClash ==> Turn(JurisdictionClash) < Turn(clash);
    assert clash == OperatorClash || clash == CapabilityClash ==> Turn(CloudActClash) < Turn(clash);
    assert clash == CapabilityClash ==> Turn(OperatorClash) < Turn(clash);
  }

  lemma {:induction false} ClaimsSay(
    t: TierResource, name: string, fx: map<string, real>, names: seq<string>, classes: map<string, DataClass>,
    ds: seq<Diag>, d: Diag)
    ensures d in ClaimWarnings(CompileTier(t, name, fx), DiagName(t.meta), names, classes, ds) <==>
      d in ds || exists k, clash :: k in names && k in classes && FirstClash(clash, t, classes[k])
                  && d == Diag(Warning, ModelTier, DiagName(t.meta), ClaimViolated(k, clash))
  {
    hide DiagName, ClassClash, FirstClash, CompileTier;
    if names != [] {
      var front, k := names[..|names| - 1], names[|names| - 1];
      assert names == front + [k];
      ClaimsSay(t, name, fx, front, classes, ds, d);
      assert forall x :: x in names <==> x in front || x == k;
      if k in classes {
        forall clash ensures ClassClash(CompileTier(t, name, fx), classes[k]) == Some(clash)
                             <==> FirstClash(clash, t, classes[k])
        {
          ClashIsFirst(t, name, fx, classes[k], clash);
        }
      }
    }
  }

  /** What the pass holds after some tiers: a name is taken by the first sound tier that has it. */
  ghost predicate TakenBy(ts: seq<TierResource>, classNames: set<string>, fx: map<string, real>, n: string, j: int) {
    && 0 <= j < |ts| && ts[j].meta.name == Some(n) && SoundTier(ts[j], classNames, fx)
    && forall i :: 0 <= i < j ==> !(ts[i].meta.name == Some(n) && SoundTier(ts[i], classNames, fx))
  }

  ghost predicate TiersHeld(
    ts: seq<TierResource>, classNames: set<string>, fx: map<string, real>, tiers: map<string, Tier>,
    tierNs: map<string, string>)
  {
    && tiers.Keys == tierNs.Keys
    && (forall n :: n in tiers <==> exists q :: q in ts && q.meta.name == Some(n) && SoundTier(q, classNames, fx))
    && forall n, j | TakenBy(ts, classNames, fx, n, j) ::
         n in tiers && tiers[n] == CompileTier(ts[j], n, fx) && Namespace(ts[j].meta, tierNs[n])
  }

  lemma TakenBySnoc(
    front: seq<TierResource>, t: TierResource, classNames: set<string>, fx: map<string, real>, n: string, j: int)
    ensures TakenBy(front + [t], classNames, fx, n, j) <==>
      || TakenBy(front, classNames, fx, n, j)
      || (&& j == |front| && t.meta.name == Some(n) && SoundTier(t, classNames, fx)
          && !exists q :: q in front && q.meta.name == Some(n) && SoundTier(q, classNames, fx))
  {
    hide SoundTier;
    var ts := front + [t];
    assert forall i :: 0 <= i < |front| ==> ts[i] == front[i];
    if TakenBy(ts, classNames, fx, n, j) && j == |front| {
      forall q | q in front ensures !(q.meta.name == Some(n) && SoundTier(q, classNames, fx)) {
        var i :| 0 <= i < |front| && front[i] == q;
        assert ts[i] == q;
      }
    }
  }

  /** A sound tier whose name is not taken is added, and nothing else is. */
  ghost predicate Joins(t: TierResource, classNames: set<string>, fx: map<string, real>, st: TierState) {
    t.meta.name.Some? && t.meta.name.value !in st.tiers && SoundTier(t, classNames, fx)
  }

  lemma AddTierMaps(t: TierResource, classes: map<string, DataClass>, fx: map<string, real>, st: TierState)
    ensures var after := AddTier(st, t, classes, fx);
      if Joins(t, classes.Keys, fx, st) then
        var n := t.meta.name.value;
        after.tiers == st.tiers[n := CompileTier(t, n, fx)] && after.tierNs == st.tierNs[n := NsOf(t.meta)]
      else after.tiers == st.tiers && after.tierNs == st.tierNs
  {
    hide SoundTier, TierValid, CompileTier, TierChecks, ClaimWarnings, DiagName, NsOf;
    SoundIsValid(t, classes.Keys, fx);
  }

  lemma TakenIsHeld(
    front: seq<TierResource>, t: TierResource, classes: map<string, DataClass>, fx: map<string, real>, st: TierState,
    n: string, j: int)
    requires TiersHeld(front, classes.Keys, fx, st.tiers, st.tierNs)
    requires TakenBy(front + [t], classes.Keys, fx, n, j)
    ensures var (ts, after) := (front + [t], AddTier(st, t, classes, fx));
      && n in after.tiers && 0 <= j < |ts| && after.tiers[n] == CompileTier(ts[j], n, fx)
      && n in after.tierNs && Namespace(ts[j].meta, after.tierNs[n])
  {
    hide SoundTier, CompileTier, AddTier, NsOf, Namespace, TakenBy;
    AddTierMaps(t, classes, fx, st);
    NsOfIs(t.meta);
    TakenBySnoc(front, t, classes.Keys, fx, n, j);
    if TakenBy(front, classes.Keys, fx, n, j) {
      TakenWithin(front, classes.Keys, fx, n, j);
    }
  }

  lemma AddTierHeld(
    front: seq<TierResource>, t: TierResource, classes: map<string, DataClass>, fx: map<string, real>, st: TierState)
    requires TiersHeld(front, classes.Keys, fx, st.tiers, st.tierNs)
    ensures var after := AddTier(st, t, classes, fx);
      TiersHeld(front + [t], classes.Keys, fx, after.tiers, after.tierNs)
  {
    hide SoundTier, CompileTier, AddTier, NsOf, Namespace, TakenBy;
    var ts, after := front + [t], AddTier(st, t, classes, fx);
    AddTierMaps(t, classes, fx, st);
    assert forall q :: q in ts <==> q in front || q == t;
    TakenInBounds(ts, classes.Keys, fx);
    forall n, j | TakenBy(ts, classes.Keys, fx, n, j)
      ensures n in after.tiers && 0 <= j < |ts| && after.tiers[n] == CompileTier(ts[j], n, fx)
                && n in after.tierNs && Namespace(ts[j].meta, after.tierNs[n])
    {
      TakenIsHeld(front, t, classes, fx, st, n, j);
    }
  }

  lemma TakenWithin(ts: seq<TierResource>, classNames: set<string>, fx: map<string, real>, n: string, j: int)
    requires TakenBy(ts, classNames, fx, n, j)
    ensures 0 <= j < |ts| && ts[j] in ts && ts[j].meta.name == Some(n) && SoundTier(ts[j], classNames, fx)
  {}

  lemma TakenInBounds(ts: seq<TierResource>, classNames: set<string>, fx: map<string, real>)
    ensures forall n, j | TakenBy(ts, classNames, fx, n, j) :: 0 <= j < |ts|
  {}

  lemma SoundTierClaims(
    t: TierResource, name: string, classes: map<string, DataClass>, fx: map<string, real>, ds: seq<Diag>, d: Diag)
    ensures var x := CompileTier(t, name, fx);
      d in ClaimWarnings(x, DiagName(t.meta), Ascending(x.allowedDataClasses), classes, ds) <==>
        d in ds || exists k, clash :: k in t.allowedDataClasses && k in classes && FirstClash(clash, t, classes[k])
                    && d == Diag(Warning, ModelTier, DiagName(t.meta), ClaimViolated(k, clash))
  {
    hide DiagName, FirstClash, ClaimWarnings;
    var x := CompileTier(t, name, fx);
    AscendingSound(x.allowedDataClasses);
    assert forall k :: k in x.allowedDataClasses <==> k in t.allowedDataClasses;
    hide StrictlyAscending, Ascending, CompileTier;
    ClaimsSay(t, name, fx, Ascending(x.allowedDataClasses), classes, ds, d);
  }

  lemma AddTierSays(
    front: seq<TierResource>, t: TierResource, classes: map<string, DataClass>, fx: map<string, real>, st: TierState,
    d: Diag)
    requires TiersHeld(front, classes.Keys, fx, st.tiers, st.tierNs)
    ensures d in AddTier(st, t, classes, fx).diags <==> d in st.diags || TierSays(front, t, classes, fx, d)
  {
    hide SoundTier, TierValid, TierChecks, ClaimWarnings, DiagName, IsNameOf, NsOf, TakenBy, FirstClash, TierBreaks;
    hide CompileTier, Ascending;
    DiagNameIs(t.meta, d.name);
    SoundIsValid(t, classes.Keys, fx);
    if t.meta.name.Some? && t.meta.name.value !in st.tiers {
      TierChecksSay(t, classes, fx, st.diags, d);
      if TierValid(t, classes.Keys, fx) {
        SoundBreaksNothing(t, classes.Keys, fx, d.rule);
        SoundTierClaims(t, t.meta.name.value, classes, fx, TierChecks(t, classes, fx, st.diags), d);
      } else {
        UnsoundIsNotWarned(t, classes.Keys, fx);
      }
    }
  }

  lemma SoundBreaksNothing(t: TierResource, classNames: set<string>, fx: map<string, real>, rule: Rule)
    requires SoundTier(t, classNames, fx)
    ensures !TierBreaks(rule, t, classNames, fx)
  {}

  lemma UnsoundIsNotWarned(t: TierResource, classNames: set<string>, fx: map<string, real>)
    requires !TierValid(t, classNames, fx)
    ensures !SoundTier(t, classNames, fx)
  {
    SoundIsValid(t, classNames, fx);
  }

  ghost predicate SaidOfTiers(ts: seq<TierResource>, classes: map<string, DataClass>, fx: map<string, real>, d: Diag) {
    exists i :: 0 <= i < |ts| && TierSays(ts[..i], ts[i], classes, fx, d)
  }

  lemma SaidOfTiersSnoc(
    front: seq<TierResource>, t: TierResource, classes: map<string, DataClass>, fx: map<string, real>, d: Diag)
    ensures SaidOfTiers(front + [t], classes, fx, d) <==>
      SaidOfTiers(front, classes, fx, d) || TierSays(front, t, classes, fx, d)
  {
    hide TierSays;
    var ts := front + [t];
    assert ts[..|front|] == front && ts[|front|] == t;
    assert forall i :: 0 <= i < |front| ==> ts[..i] == front[..i] && ts[i] == front[i];
    if SaidOfTiers(front, classes, fx, d) {
      var i :| 0 <= i < |front| && TierSays(front[..i], front[i], classes, fx, d);
      assert TierSays(ts[..i], ts[i], classes, fx, d);
    }
    if TierSays(front, t, classes, fx, d) {
      assert TierSays(ts[..|front|], ts[|front|], classes, fx, d);
    }
  }

  lemma NoTiersHeld(classNames: set<string>, fx: map<string, real>)
    ensures TiersHeld([], classNames, fx, map[], map[])
  {}

  lemma {:induction false} TierPassHolds(
    ts: seq<TierResource>, classes: map<string, DataClass>, fx: map<string, real>, ds: seq<Diag>)
    ensures var st := TierPass(ts, classes, fx, ds); TiersHeld(ts, classes.Keys, fx, st.tiers, st.tierNs)
  {
    hide AddTier, TiersHeld;
    if ts == [] {
      NoTiersHeld(classes.Keys, fx);
    } else {
      var front, t := ts[..|ts| - 1], ts[|ts| - 1];
      assert ts == front + [t];
      TierPassHolds(front, classes, fx, ds);
      AddTierHeld(front, t, classes, fx, TierPass(front, classes, fx, ds));
    }
  }

  /** The tier pass reports exactly what is wrong with each tier, and what sound tiers cannot serve. */
  lemma {:induction false} TierReportIsExact(
    ts: seq<TierResource>, classes: map<string, DataClass>, fx: map<string, real>, ds: seq<Diag>, d: Diag)
    ensures d in TierPass(ts, classes, fx, ds).diags <==> d in ds || SaidOfTiers(ts, classes, fx, d)
  {
    hide AddTier, TierSays, TiersHeld;
    if ts != [] {
      var front, t := ts[..|ts| - 1], ts[|ts| - 1];
      assert ts == front + [t];
      TierReportIsExact(front, classes, fx, ds, d);
      TierPassHolds(front, classes, fx, ds);
      AddTierSays(front, t, classes, fx, TierPass(front, classes, fx, ds), d);
      SaidOfTiersSnoc(front, t, classes, fx, d);
    }
  }

  // ---- policies ----

  ghost predicate InNamespace(ctx: Context, n: string, p: PolicyResource) {
    n in ctx.tierNs && Namespace(p.meta, ctx.tierNs[n])
  }

  /** A tier of the namespace with all the labels the policy asks for. */
  ghost predicate IsLabelled(ctx: Context, n: string, p: PolicyResource) {
    && InNamespace(ctx, n, p) && n in ctx.tiers
    && forall k | k in p.matchLabels :: k in ctx.tiers[n].labels && ctx.tiers[n].labels[k] == p.matchLabels[k]
  }

  ghost predicate Takes(ctx: Context, n: string, p: PolicyResource) {
    && n !in p.exclude
    && ((n in p.include_ && InNamespace(ctx, n, p))
        || ((p.include_ == [] || p.matchLabels != map[]) && IsLabelled(ctx, n, p)))
  }

  /** What is wrong with a policy. */
  ghost predicate PolicyBreaks(rule: Rule, p: PolicyResource, ctx: Context) {
    match rule
    case UnknownInclude(n) => n in p.include_ && !InNamespace(ctx, n, p)
    case NoCandidates => forall n :: !Takes(ctx, n, p)
    case MaxCostOutOfRange => p.maxCostEur.Some? && !AtLeastZero(p.maxCostEur.value)
    case DenyThresholdOutOfRange => p.denyIfRiskAbove.Some? && !InUnit(p.denyIfRiskAbove.value)
    case FloorOutOfRange => p.qualityFloor.Some? && !InUnit(p.qualityFloor.value)
    case WeightsOutOfRange => p.weights.Some? && var w := p.weights.value;
      !(AtLeastZero(w.cost) && AtLeastZero(w.quality) && AtLeastZero(w.latency))
    case ProfileRequired => p.learnedEnabled && p.learnedProfile.None?
    case ProfileNotFound(n) => p.learnedEnabled && p.learnedProfile == Some(n) && n !in ctx.profileNames
    case LearnedConfidenceOutOfRange => p.learnedEnabled && !InUnit(p.learnedMinConfidence)
    case FallbackNotFound(n) => p.fallbackTier == Some(n) && !(n in ctx.tiers && InNamespace(ctx, n, p))
    case _ => false
  }

  /** What a policy is warned about. */
  ghost predicate PolicyWarned(rule: Rule, p: PolicyResource, ctx: Context) {
    match rule
    case SelectorMatchesNothing => p.matchLabels != map[] && p.include_ == [] && forall n :: !IsLabelled(ctx, n, p)
    case UnknownExclude(n) => n in p.exclude && !InNamespace(ctx, n, p)
    case FallbackCannotServe(n, name, clash) =>
      && p.fallbackTier == Some(n) && n in ctx.tiers && InNamespace(ctx, n, p) && p.respectDataClass
      && exists k :: k in ctx.classes && name == ctx.classes[k].name
           && ClassClash(ctx.tiers[n], ctx.classes[k]) == Some(clash)
    case NoAliases => p.scope.modelAliases == []
    case _ => false
  }

  ghost predicate PolicyFound(rule: Rule, level: Level, p: PolicyResource, ctx: Context) {
    if level == Error then PolicyBreaks(rule, p, ctx) else PolicyWarned(rule, p, ctx)
  }

  /** What is reported about a policy, in view of those before it. */
  ghost predicate PolicySays(before: seq<PolicyResource>, p: PolicyResource, ctx: Context, d: Diag) {
    && d.kind == RoutingPolicy && IsNameOf(p.meta, d.name)
    && if p.meta.name.None? then d.level == Error && d.rule == MissingName
       else if exists q :: q in before && q.meta.name.Some? && IsNameOf(q.meta, d.name) then
         d.level == Error && d.rule == DuplicateName
       else PolicyFound(d.rule, d.level, p, ctx)
  }

  /** One finding about a policy. */
  predicate Finding(level: Level, found: bool, p: PolicyResource, rule: Rule, d: Diag) {
    found && d == Diag(level, RoutingPolicy, DiagName(p.meta), rule)
  }

  lemma InNsIs(ctx: Context, n: string, p: PolicyResource)
    ensures InNs(ctx, n, NsOf(p.meta)) <==> InNamespace(ctx, n, p)
  {
    NsOfIs(p.meta);
    hide NsOf, Namespace;
  }

  lemma {:induction false} IncludesSay(p: PolicyResource, names: seq<string>, ctx: Context, ds: seq<Diag>, d: Diag)
    ensures d in IncludeChecks(p, names, ctx, ds) <==>
      d in ds || exists k :: k in names && Finding(Error, !InNamespace(ctx, k, p), p, UnknownInclude(k), d)
  {
    hide DiagName, InNs, InNamespace, NsOf;
    if names != [] {
      var front, k := names[..|names| - 1], names[|names| - 1];
      assert names == front + [k];
      IncludesSay(p, front, ctx, ds, d);
      InNsIs(ctx, k, p);
      assert forall x :: x in names <==> x in front || x == k;
    }
  }

  lemma {:induction false} ExcludesSay(p: PolicyResource, names: seq<string>, ctx: Context, ds: seq<Diag>, d: Diag)
    ensures d in ExcludeWarnings(p, names, ctx, ds) <==>
      d in ds || exists k :: k in names && Finding(Warning, !InNamespace(ctx, k, p), p, UnknownExclude(k), d)
  {
    hide DiagName, InNs, InNamespace, NsOf;
    if names != [] {
      var front, k := names[..|names| - 1], names[|names| - 1];
      assert names == front + [k];
      ExcludesSay(p, front, ctx, ds, d);
      InNsIs(ctx, k, p);
      assert forall x :: x in names <==> x in front || x == k;
    }
  }

  lemma SelectedIs(p: PolicyResource, ctx: Context, n: string)
    ensures n in SelectedTiers(p, ctx) <==> IsLabelled(ctx, n, p)
    ensures n in CandidateSet(p, ctx) <==> Takes(ctx, n, p)
  {
    hide InNs, InNamespace, NsOf;
    InNsIs(ctx, n, p);
  }

  lemma NothingSelected(p: PolicyResource, ctx: Context)
    ensures SelectedTiers(p, ctx) == {} <==> forall n :: !IsLabelled(ctx, n, p)
    ensures CandidateSet(p, ctx) == {} <==> forall n :: !Takes(ctx, n, p)
  {
    hide SelectedTiers, CandidateSet, IsLabelled, Takes;
    forall n
      ensures n in SelectedTiers(p, ctx) <==> IsLabelled(ctx, n, p)
      ensures n in CandidateSet(p, ctx) <==> Takes(ctx, n, p)
    {
      SelectedIs(p, ctx, n);
    }
    if SelectedTiers(p, ctx) != {} {
      var n :| n in SelectedTiers(p, ctx);
      assert IsLabelled(ctx, n, p);
    }
    if CandidateSet(p, ctx) != {} {
      var n :| n in CandidateSet(p, ctx);
      assert Takes(ctx, n, p);
    }
  }

  ghost predicate CandidateFinding(p: PolicyResource, ctx: Context, d: Diag) {
    || Finding(Warning, p.matchLabels != map[] && p.include_ == [] && SelectedTiers(p, ctx) == {}, p,
               SelectorMatchesNothing, d)
    || (exists k :: k in p.include_ && Finding(Error, !InNamespace(ctx, k, p), p, UnknownInclude(k), d))
    || (exists k :: k in p.exclude && Finding(Warning, !InNamespace(ctx, k, p), p, UnknownExclude(k), d))
    || Finding(Error, CandidateSet(p, ctx) == {}, p, NoCandidates, d)
  }

  lemma CandidatesSay(p: PolicyResource, ctx: Context, ds: seq<Diag>, d: Diag)
    ensures d in CandidateChecks(p, ctx, ds) <==> d in ds || CandidateFinding(p, ctx, d)
  {
    hide DiagName, IncludeChecks, ExcludeWarnings, CandidateSet, SelectedTiers, PushIf, InNamespace;
    var n := DiagName(p.meta);
    var c := p.matchLabels != map[] && p.include_ == [] && SelectedTiers(p, ctx) == {};
    var e1 := Diag(Warning, RoutingPolicy, n, SelectorMatchesNothing);
    var d1 := PushIf(c, ds, e1);
    PushIfSays(c, ds, e1, d);
    var d2 := IncludeChecks(p, p.include_, ctx, d1);
    IncludesSay(p, p.include_, ctx, d1, d);
    var d3 := ExcludeWarnings(p, p.exclude, ctx, d2);
    ExcludesSay(p, p.exclude, ctx, d2, d);
    PushIfSays(CandidateSet(p, ctx) == {}, d3, Diag(Error, RoutingPolicy, n, NoCandidates), d);
  }

  ghost predicate RangeFinding(p: PolicyResource, d: Diag) {
    || Finding(Error, p.maxCostEur.Some? && !NonNegative(p.maxCostEur.value), p, MaxCostOutOfRange, d)
    || Finding(Error, p.denyIfRiskAbove.Some? && !Unit(p.denyIfRiskAbove.value), p, DenyThresholdOutOfRange, d)
    || Finding(Error, p.qualityFloor.Some? && !Unit(p.qualityFloor.value), p, FloorOutOfRange, d)
    || Finding(Error, !WeightsOk(p.weights), p, WeightsOutOfRange, d)
  }

  lemma RangesSay(p: PolicyResource, ds: seq<Diag>, d: Diag)
    ensures d in RangeChecks(p, ds) <==> d in ds || RangeFinding(p, d)
  {
    hide DiagName, PushIf, Unit, NonNegative, WeightsOk;
    var n := DiagName(p.meta);
    var c1 := p.maxCostEur.Some? && !NonNegative(p.maxCostEur.value);
    var c2 := p.denyIfRiskAbove.Some? && !Unit(p.denyIfRiskAbove.value);
    var c3 := p.qualityFloor.Some? && !Unit(p.qualityFloor.value);
    var e1 := Diag(Error, RoutingPolicy, n, MaxCostOutOfRange);
    var d1 := PushIf(c1, ds, e1);
    PushIfSays(c1, ds, e1, d);
    var e2 := Diag(Error, RoutingPolicy, n, DenyThresholdOutOfRange);
    var d2 := PushIf(c2, d1, e2);
    PushIfSays(c2, d1, e2, d);
    var e3 := Diag(Error, RoutingPolicy, n, FloorOutOfRange);
    var d3 := PushIf(c3, d2, e3);
    PushIfSays(c3, d2, e3, d);
    PushIfSays(!WeightsOk(p.weights), d3, Diag(Error, RoutingPolicy, n, WeightsOutOfRange), d);
  }

  ghost predicate LearnedFinding(p: PolicyResource, ctx: Context, d: Diag) {
    || Finding(Error, p.learnedEnabled && p.learnedProfile.None?, p, ProfileRequired, d)
    || (p.learnedProfile.Some?
        && Finding(Error, p.learnedEnabled && p.learnedProfile.value !in ctx.profileNames, p,
                   ProfileNotFound(p.learnedProfile.value), d))
    || Finding(Error, p.learnedEnabled && !Unit(p.learnedMinConfidence), p, LearnedConfidenceOutOfRange, d)
  }

  lemma LearnedSays(p: PolicyResource, ctx: Context, ds: seq<Diag>, d: Diag)
    ensures d in LearnedChecks(p, ctx, ds) <==> d in ds || LearnedFinding(p, ctx, d)
  {
    hide DiagName, Unit;
  }

  lemma {:induction false} FallbackWarningsSay(
    p: PolicyResource, t: Tier, name: string, classNames: seq<string>, ctx: Context, ds: seq<Diag>, d: Diag)
    ensures d in FallbackWarnings(p, t, name, classNames, ctx, ds) <==>
      d in ds || exists k, clash :: k in classNames && k in ctx.classes && ClassClash(t, ctx.classes[k]) == Some(clash)
                  && Finding(Warning, true, p, FallbackCannotServe(name, ctx.classes[k].name, clash), d)
  {
    hide DiagName, ClassClash;
    if classNames != [] {
      var front, k := classNames[..|classNames| - 1], classNames[|classNames| - 1];
      assert classNames == front + [k];
      FallbackWarningsSay(p, t, name, front, ctx, ds, d);
      assert forall x :: x in classNames <==> x in front || x == k;
    }
  }

  ghost predicate FallbackFinding(p: PolicyResource, ctx: Context, d: Diag) {
    && p.fallbackTier.Some?
    && var n := p.fallbackTier.value;
       if n in ctx.tiers && InNamespace(ctx, n, p) then
         && p.respectDataClass
         && exists k, clash ::
              && k in ctx.classes && ClassClash(ctx.tiers[n], ctx.classes[k]) == Some(clash)
              && Finding(Warning, true, p, FallbackCannotServe(n, ctx.classes[k].name, clash), d)
       else Finding(Error, true, p, FallbackNotFound(n), d)
  }

  lemma FallbackSays(p: PolicyResource, ctx: Context, ds: seq<Diag>, d: Diag)
    ensures d in FallbackChecks(p, ctx, ds) <==> d in ds || FallbackFinding(p, ctx, d)
  {
    hide DiagName, ClassClash, FallbackWarnings, InNs, InNamespace, NsOf, Ascending, StrictlyAscending;
    if p.fallbackTier.Some? {
      var n := p.fallbackTier.value;
      InNsIs(ctx, n, p);
      AscendingSound(ctx.classes.Keys);
      if n in ctx.tiers {
        FallbackWarningsSay(p, ctx.tiers[n], n, Ascending(ctx.classes.Keys), ctx, ds, d);
      }
    }
  }

  ghost predicate AnyFinding(p: PolicyResource, ctx: Context, d: Diag) {
    || CandidateFinding(p, ctx, d) || RangeFinding(p, d) || LearnedFinding(p, ctx, d) || FallbackFinding(p, ctx, d)
    || Finding(Warning, p.scope.modelAliases == [], p, NoAliases, d)
  }

  lemma ChecksFind(p: PolicyResource, ctx: Context, ds: seq<Diag>, d: Diag)
    ensures d in PolicyChecks(p, ctx, ds) <==> d in ds || AnyFinding(p, ctx, d)
  {
    hide DiagName, CandidateChecks, RangeChecks, LearnedChecks, FallbackChecks, PushIf, CandidateFinding, RangeFinding,
      LearnedFinding, FallbackFinding;
    var d1 := CandidateChecks(p, ctx, ds);
    var d2 := RangeChecks(p, d1);
    var d3 := LearnedChecks(p, ctx, d2);
    var d4 := FallbackChecks(p, ctx, d3);
    CandidatesSay(p, ctx, ds, d);
    RangesSay(p, d1, d);
    LearnedSays(p, ctx, d2, d);
    FallbackSays(p, ctx, d3, d);
    PushIfSays(p.scope.modelAliases == [], d4, Diag(Warning, RoutingPolicy, DiagName(p.meta), NoAliases), d);
  }

  lemma CandidateFound(p: PolicyResource, ctx: Context, d: Diag)
    ensures CandidateFinding(p, ctx, d) <==>
      d.kind == RoutingPolicy && d.name == DiagName(p.meta) && PolicyFound(d.rule, d.level, p, ctx)
        && (d.rule.SelectorMatchesNothing? || d.rule.UnknownInclude? || d.rule.UnknownExclude? || d.rule.NoCandidates?)
  {
    NothingSelected(p, ctx);
    hide DiagName, CandidateSet, SelectedTiers, InNamespace, IsLabelled, Takes;
  }

  lemma RangeFound(p: PolicyResource, ctx: Context, d: Diag)
    ensures RangeFinding(p, d) <==>
      d.kind == RoutingPolicy && d.name == DiagName(p.meta) && PolicyFound(d.rule, d.level, p, ctx)
        && (d.rule.MaxCostOutOfRange? || d.rule.DenyThresholdOutOfRange? || d.rule.FloorOutOfRange?
            || d.rule.WeightsOutOfRange?)
  {
    hide DiagName;
  }

  lemma LearnedFound(p: PolicyResource, ctx: Context, d: Diag)
    ensures LearnedFinding(p, ctx, d) <==>
      d.kind == RoutingPolicy && d.name == DiagName(p.meta) && PolicyFound(d.rule, d.level, p, ctx)
        && (d.rule.ProfileRequired? || d.rule.ProfileNotFound? || d.rule.LearnedConfidenceOutOfRange?)
  {
    hide DiagName;
  }

  lemma FallbackIsFound(p: PolicyResource, ctx: Context, d: Diag)
    ensures FallbackFinding(p, ctx, d) <==>
      d.kind == RoutingPolicy && d.name == DiagName(p.meta) && PolicyFound(d.rule, d.level, p, ctx)
        && (d.rule.FallbackNotFound? || d.rule.FallbackCannotServe?)
  {
    hide DiagName, ClassClash, InNamespace;
  }

  lemma AnyFound(p: PolicyResource, ctx: Context, d: Diag)
    ensures AnyFinding(p, ctx, d) <==>
      d.kind == RoutingPolicy && d.name == DiagName(p.meta) && PolicyFound(d.rule, d.level, p, ctx)
  {
    CandidateFound(p, ctx, d);
    RangeFound(p, ctx, d);
    LearnedFound(p, ctx, d);
    FallbackIsFound(p, ctx, d);
    hide DiagName, CandidateFinding, RangeFinding, LearnedFinding, FallbackFinding, InNamespace, IsLabelled, Takes,
      AtLeastZero, InUnit, ClassClash;
  }

  lemma PolicyChecksSay(p: PolicyResource, ctx: Context, ds: seq<Diag>, d: Diag)
    ensures d in PolicyChecks(p, ctx, ds) <==>
      d in ds || (d.kind == RoutingPolicy && IsNameOf(p.meta, d.name) && PolicyFound(d.rule, d.level, p, ctx))
  {
    hide DiagName, IsNameOf, AnyFinding, PolicyFound, PolicyChecks;
    DiagNameIs(p.meta, d.name);
    ChecksFind(p, ctx, ds, d);
    AnyFound(p, ctx, d);
  }

  lemma NamedKeyIs(m: Meta, s: string)
    requires m.name.Some?
    ensures PolicyKey(m) == s <==> IsNameOf(m, s)
  {}

  ghost predicate KeysHeld(ps: seq<PolicyResource>, seen: set<string>) {
    forall s :: s in seen <==> exists q :: q in ps && q.meta.name.Some? && IsNameOf(q.meta, s)
  }

  lemma AddPolicyHeld(front: seq<PolicyResource>, p: PolicyResource, ctx: Context, st: PolicyState)
    requires KeysHeld(front, st.seen)
    ensures KeysHeld(front + [p], AddPolicy(st, p, ctx).seen)
  {
    hide DiagName, IsNameOf, PolicyChecks, PolicyValid, CompilePolicy, PolicyKey;
    var ps, after := front + [p], AddPolicy(st, p, ctx).seen;
    assert forall q :: q in ps <==> q in front || q == p;
    if p.meta.name.Some? {
      NamedKeyIs(p.meta, PolicyKey(p.meta));
      forall s | IsNameOf(p.meta, s) ensures s == PolicyKey(p.meta) {
        NamedKeyIs(p.meta, s);
      }
      assert after == st.seen + {PolicyKey(p.meta)} || (after == st.seen && PolicyKey(p.meta) in st.seen);
    }
  }

  lemma AddPolicySays(front: seq<PolicyResource>, p: PolicyResource, ctx: Context, st: PolicyState, d: Diag)
    requires KeysHeld(front, st.seen)
    ensures d in AddPolicy(st, p, ctx).diags <==> d in st.diags || PolicySays(front, p, ctx, d)
  {
    hide DiagName, IsNameOf, PolicyChecks, PolicyValid, CompilePolicy, PolicyKey, PolicyFound;
    DiagNameIs(p.meta, d.name);
    PolicyChecksSay(p, ctx, st.diags, d);
    if p.meta.name.Some? {
      NamedKeyIs(p.meta, d.name);
      NamedKeyIs(p.meta, DiagName(p.meta));
      DiagNameIs(p.meta, DiagName(p.meta));
    }
  }

  ghost predicate SaidOfPolicies(ps: seq<PolicyResource>, ctx: Context, d: Diag) {
    exists i :: 0 <= i < |ps| && PolicySays(ps[..i], ps[i], ctx, d)
  }

  lemma SaidOfPoliciesSnoc(front: seq<PolicyResource>, p: PolicyResource, ctx: Context, d: Diag)
    ensures SaidOfPolicies(front + [p], ctx, d) <==> SaidOfPolicies(front, ctx, d) || PolicySays(front, p, ctx, d)
  {
    hide PolicySays;
    var ps := front + [p];
    assert ps[..|front|] == front && ps[|front|] == p;
    assert forall i :: 0 <= i < |front| ==> ps[..i] == front[..i] && ps[i] == front[i];
    if SaidOfPolicies(front, ctx, d) {
      var i :| 0 <= i < |front| && PolicySays(front[..i], front[i], ctx, d);
      assert PolicySays(ps[..i], ps[i], ctx, d);
    }
    if PolicySays(front, p, ctx, d) {
      assert PolicySays(ps[..|front|], ps[|front|], ctx, d);
    }
  }

  lemma NoKeysHeld()
    ensures KeysHeld([], {})
  {}

  lemma {:induction false} PolicyPassHolds(ps: seq<PolicyResource>, ctx: Context, ds: seq<Diag>)
    ensures KeysHeld(ps, PolicyPass(ps, ctx, ds).seen)
  {
    hide AddPolicy, KeysHeld;
    if ps == [] {
      NoKeysHeld();
    } else {
      var front, p := ps[..|ps| - 1], ps[|ps| - 1];
      assert ps == front + [p];
      PolicyPassHolds(front, ctx, ds);
      AddPolicyHeld(front, p, ctx, PolicyPass(front, ctx, ds));
    }
  }

  /** The policy pass reports exactly what is wrong with each policy and what it is warned about. */
  lemma {:induction false} PolicyReportIsExact(ps: seq<PolicyResource>, ctx: Context, ds: seq<Diag>, d: Diag)
    ensures d in PolicyPass(ps, ctx, ds).diags <==> d in ds || SaidOfPolicies(ps, ctx, d)
  {
    hide AddPolicy, PolicySays, KeysHeld;
    if ps != [] {
      var front, p := ps[..|ps| - 1], ps[|ps| - 1];
      assert ps == front + [p];
      PolicyReportIsExact(front, ctx, ds, d);
      PolicyPassHolds(front, ctx, ds);
      AddPolicySays(front, p, ctx, PolicyPass(front, ctx, ds), d);
      SaidOfPoliciesSnoc(front, p, ctx, d);
    }
  }

  // ---- the whole report ----

  /** What the earlier passes leave for the later ones. */
  ghost predicate ContextIs(ctx: Context, input: CompileInput) {
    && TableIs(ctx.fx, input.profiles)
    && (forall n :: n in ctx.profileNames <==> exists p :: p in input.profiles && p.meta.name == Some(n))
    && (forall n :: n in ctx.classes <==> exists c :: c in input.dataClasses && c.meta.name == Some(n))
    && TiersHeld(input.tiers, ctx.classes.Keys, ctx.fx, ctx.tiers, ctx.tierNs)
  }

  lemma ContextIsExact(input: CompileInput)
    ensures ContextIs(ContextOf(input), input)
  {
    hide FxPass, ProfilePass, ClassPass, TierPass, TableIs, TiersHeld, LastWithRank, LastToAnswer;
    FxTableIs(input.profiles);
    var fx := FxPass(input.profiles);
    ProfilesHeld(input.profiles, fx.diags);
    var profiles := ProfilePass(input.profiles, fx.diags);
    ClassPassHolds(input.dataClasses, profiles.diags);
    var classes := ClassPass(input.dataClasses, profiles.diags);
    TierPassHolds(input.tiers, classes.classes, fx.fx, classes.diags);
  }

  /** Anything said about one of the objects. */
  ghost predicate SaidOfAny(input: CompileInput, d: Diag) {
    var ctx := ContextOf(input);
    || SaidOfRates(input.profiles, d)
    || SaidOfProfiles(input.profiles, d)
    || SaidOfClasses(input.dataClasses, d)
    || SaidOfTiers(input.tiers, ctx.classes, ctx.fx, d)
    || SaidOfPolicies(input.policies, ctx, d)
  }

  /** The report without shadow warnings. */
  lemma PassesSay(input: CompileInput, d: Diag)
    ensures var fx := FxPass(input.profiles);
      var profiles := ProfilePass(input.profiles, fx.diags);
      var classes := ClassPass(input.dataClasses, profiles.diags);
      var tiers := TierPass(input.tiers, classes.classes, fx.fx, classes.diags);
      d in PolicyPass(input.policies, ContextOf(input), tiers.diags).diags <==> SaidOfAny(input, d)
  {
    hide FxPass, ProfilePass, ClassPass, TierPass, PolicyPass, SaidOfRates, SaidOfProfiles, SaidOfClasses, SaidOfTiers,
      SaidOfPolicies;
    var fx := FxPass(input.profiles);
    var profiles := ProfilePass(input.profiles, fx.diags);
    var classes := ClassPass(input.dataClasses, profiles.diags);
    var tiers := TierPass(input.tiers, classes.classes, fx.fx, classes.diags);
    RateReportIsExact(input.profiles, d);
    ProfileReportIsExact(input.profiles, fx.diags, d);
    ClassReportIsExact(input.dataClasses, profiles.diags, d);
    TierReportIsExact(input.tiers, classes.classes, fx.fx, classes.diags, d);
    PolicyReportIsExact(input.policies, ContextOf(input), tiers.diags, d);
  }

  lemma NeverShadowed(input: CompileInput, d: Diag)
    requires SaidOfAny(input, d)
    ensures !d.rule.Shadowed?
  {
    hide IsNameOf, AnswersTo, LastToAnswer, LastWithRank, SoundTier, FirstClash, Clashes, Sells, InNamespace,
      IsLabelled, Takes, ContextOf, TakenRate, Lowered, Trimmed;
  }

  lemma ShadowsAreShadowed(ps: seq<Policy>, ds: seq<Diag>, d: Diag)
    ensures d in ShadowWarnings(ps, ds) && d !in ds ==> d.rule.Shadowed? && d.level == Warning
    ensures d in ds ==> d in ShadowWarnings(ps, ds)
  {
    hide ShadowWarnings, Fellows;
    ShadowsSaid(ps, ds, d);
  }

  /**
   The report of a compilation is exactly what is to be said about the objects given, each in view of those before it,
   besides warnings about shadowed policies.
   */
  lemma ReportIsExact(input: CompileInput, d: Diag)
    requires !d.rule.Shadowed?
    ensures d in Compile(input).report <==> SaidOfAny(input, d)
  {
    hide FxPass, ProfilePass, ClassPass, TierPass, PolicyPass, SaidOfAny, ShadowWarnings, SortBy, HasErrors;
    PassesSay(input, d);
    var fx := FxPass(input.profiles);
    var profiles := ProfilePass(input.profiles, fx.diags);
    var classes := ClassPass(input.dataClasses, profiles.diags);
    var tiers := TierPass(input.tiers, classes.classes, fx.fx, classes.diags);
    var policies := PolicyPass(input.policies, ContextOf(input), tiers.diags);
    ShadowsAreShadowed(SortBy(PolicyLe, policies.policies), policies.diags, d);
  }

  lemma ShadowsOnlyWarn(input: CompileInput, d: Diag)
    requires d in Compile(input).report && d.level == Error
    ensures !d.rule.Shadowed?
  {
    hide FxPass, ProfilePass, ClassPass, TierPass, PolicyPass, SaidOfAny, ShadowWarnings, SortBy, HasErrors;
    PassesSay(input, d);
    var fx := FxPass(input.profiles);
    var profiles := ProfilePass(input.profiles, fx.diags);
    var classes := ClassPass(input.dataClasses, profiles.diags);
    var tiers := TierPass(input.tiers, classes.classes, fx.fx, classes.diags);
    var policies := PolicyPass(input.policies, ContextOf(input), tiers.diags);
    ShadowsAreShadowed(SortBy(PolicyLe, policies.policies), policies.diags, d);
    if SaidOfAny(input, d) {
      NeverShadowed(input, d);
    }
  }

  /** Compilation succeeds exactly when there is no error to be reported about any object. */
  lemma SucceedsExactly(input: CompileInput)
    ensures Compile(input).core.Some? <==> forall d | SaidOfAny(input, d) :: d.level != Error
  {
    hide Compile, SaidOfAny;
    CompileIsExact(input);
    var report := Compile(input).report;
    if HasErrors(report) {
      var i :| 0 <= i < |report| && report[i].level == Error;
      ShadowsOnlyWarn(input, report[i]);
      ReportIsExact(input, report[i]);
    }
    if d :| SaidOfAny(input, d) && d.level == Error {
      NeverShadowed(input, d);
      ReportIsExact(input, d);
      var i :| 0 <= i < |report| && report[i] == d;
    }
  }
}
