/**
 What the passes without references (exchange rates, profiles, data classes)
 accept and produce, stated over the resources.
 */
module CompilerFacts {
  // There are errors if and only if a declarative condition fails, every diagnostic is named after the object being
  // processed, and the containers hold exactly the compiled resources.

  import opened Ordering
  import opened Snapshots
  import opened Compiler

  // ---- reports ----

  /** Diagnostics of one object, with an error among them exactly when `bad`. */
  ghost predicate About(added: seq<Diag>, kind: Kind, name: string, bad: bool) {
    && (forall i :: 0 <= i < |added| ==> added[i].kind == kind && added[i].name == name)
    && (HasErrors(added) <==> bad)
  }

  /** `after` is `before` plus diagnostics of one object, with an error among the new ones exactly when `bad`. */
  ghost predicate Reports(before: seq<Diag>, after: seq<Diag>, kind: Kind, name: string, bad: bool) {
    exists added :: after == before + added && About(added, kind, name, bad)
  }

  lemma HasErrorsConcat(a: seq<Diag>, b: seq<Diag>)
    ensures HasErrors(a + b) <==> HasErrors(a) || HasErrors(b)
  {
    var c := a + b;
    if HasErrors(a) {
      var i :| 0 <= i < |a| && a[i].level == Error;
      assert c[i].level == Error;
    }
    if HasErrors(b) {
      var i :| 0 <= i < |b| && b[i].level == Error;
      assert c[|a| + i].level == Error;
    }
    if HasErrors(c) {
      var i :| 0 <= i < |c| && c[i].level == Error;
      assert if i < |a| then a[i].level == Error else b[i - |a|].level == Error;
    }
  }

  lemma ReportsNothing(ds: seq<Diag>, kind: Kind, name: string)
    ensures Reports(ds, ds, kind, name, false)
  {
    assert ds == ds + [] && About([], kind, name, false);
  }

  lemma ReportsOne(ds: seq<Diag>, d: Diag)
    ensures Reports(ds, ds + [d], d.kind, d.name, d.level == Error)
  {
    assert [d][0] == d;
    assert About([d], d.kind, d.name, d.level == Error);
  }

  lemma ReportsIf(c: bool, ds: seq<Diag>, d: Diag)
    ensures Reports(ds, PushIf(c, ds, d), d.kind, d.name, c && d.level == Error)
  {
    if c {
      ReportsOne(ds, d);
    } else {
      ReportsNothing(ds, d.kind, d.name);
    }
  }

  lemma ReportsThen(a: seq<Diag>, b: seq<Diag>, c: seq<Diag>, kind: Kind, name: string, x: bool, y: bool)
    requires Reports(a, b, kind, name, x) && Reports(b, c, kind, name, y)
    ensures Reports(a, c, kind, name, x || y)
  {
    hide HasErrors;
    var added :| b == a + added && About(added, kind, name, x);
    var more :| c == b + more && About(more, kind, name, y);
    HasErrorsConcat(added, more);
    assert c == a + (added + more) && About(added + more, kind, name, x || y);
  }

  lemma ReportsErrors(a: seq<Diag>, b: seq<Diag>, kind: Kind, name: string, bad: bool)
    requires Reports(a, b, kind, name, bad)
    ensures HasErrors(b) <==> HasErrors(a) || bad
  {
    hide HasErrors;
    var added :| b == a + added && About(added, kind, name, bad);
    HasErrorsConcat(a, added);
  }

  // ---- names ----

  /** Every resource is named and no two share a name. */
  ghost predicate NamedApart<T>(name: T -> Option<string>, xs: seq<T>) {
    && (forall i :: 0 <= i < |xs| ==> name(xs[i]).Some?)
    && (forall i, j :: 0 <= i < j < |xs| ==> name(xs[i]) != name(xs[j]))
  }

  ghost predicate Taken<T>(name: T -> Option<string>, xs: seq<T>, n: Option<string>) {
    exists i :: 0 <= i < |xs| && name(xs[i]) == n
  }

  lemma NamedApartSnoc<T>(name: T -> Option<string>, front: seq<T>, x: T)
    ensures NamedApart(name, front + [x]) <==> NamedApart(name, front) && name(x).Some? && !Taken(name, front, name(x))
  {
    var xs := front + [x];
    if NamedApart(name, xs) {
      assert xs[|front|] == x;
      forall i | 0 <= i < |front| ensures name(front[i]).Some? && name(front[i]) != name(x) {
        assert xs[i] == front[i];
        assert name(xs[i]) != name(xs[|front|]);
      }
      forall i, j | 0 <= i < j < |front| ensures name(front[i]) != name(front[j]) {
        assert xs[i] == front[i] && xs[j] == front[j];
      }
    }
  }

  function ProfileName(p: ProfileResource): Option<string> { p.meta.name }
  function ClassName(c: ClassResource): Option<string> { c.meta.name }
  function TierName(t: TierResource): Option<string> { t.meta.name }
  function PolicyName(p: PolicyResource): Option<string> { if p.meta.name.Some? then Some(PolicyKey(p.meta)) else None }

  /** The container holds exactly the compiled resources, each under its name. */
  ghost predicate Holds<T, U>(m: map<string, U>, name: T -> Option<string>, compile: T -> U, xs: seq<T>) {
    && (forall n | n in m :: Taken(name, xs, Some(n)))
    && (forall i :: 0 <= i < |xs| ==>
          name(xs[i]).Some? && name(xs[i]).value in m && m[name(xs[i]).value] == compile(xs[i]))
  }

  lemma HoldsSnoc<T, U>(m: map<string, U>, name: T -> Option<string>, compile: T -> U, front: seq<T>, x: T)
    requires Holds(m, name, compile, front) && name(x).Some? && !Taken(name, front, name(x))
    ensures Holds(m[name(x).value := compile(x)], name, compile, front + [x])
  {
    var xs, m' := front + [x], m[name(x).value := compile(x)];
    forall n | n in m' ensures Taken(name, xs, Some(n)) {
      if n == name(x).value {
        assert xs[|front|] == x;
      } else {
        var i :| 0 <= i < |front| && name(front[i]) == Some(n);
        assert xs[i] == front[i];
      }
    }
  }

  lemma HoldsTaken<T, U>(m: map<string, U>, name: T -> Option<string>, compile: T -> U, xs: seq<T>, n: string)
    requires Holds(m, name, compile, xs)
    ensures n in m <==> Taken(name, xs, Some(n))
  {}

  // ---- profiles ----

  predicate ProfileValid(p: ProfileResource) {
    && p.timeoutMs > 0 && p.defaultOutputTokens > 0
    && (p.classifierType == Onnx ==> p.classifierUri.Some? && p.tokenizerUri.Some?)
    && (forall k | k in p.calibration :: CalibrationOk(p.calibration[k]))
  }

  function ProfileCompiler(): ProfileResource -> Profile {
    (p: ProfileResource) => CompileProfile(p, if p.meta.name.Some? then p.meta.name.value else "")
  }

  lemma {:induction false} CalibrationReports(p: ProfileResource, keys: seq<string>, ds: seq<Diag>)
    ensures Reports(ds, CalibrationChecks(p, keys, ds), RouterProfile, DiagName(p.meta),
                    exists k :: k in keys && k in p.calibration && !CalibrationOk(p.calibration[k]))
  {
    hide CalibrationOk, DiagName, Reports;
    if keys == [] {
      ReportsNothing(ds, RouterProfile, DiagName(p.meta));
    } else {
      var front, k := keys[..|keys| - 1], keys[|keys| - 1];
      assert keys == front + [k];
      CalibrationReports(p, front, ds);
      var c := k in p.calibration && !CalibrationOk(p.calibration[k]);
      var d := Diag(Error, RouterProfile, DiagName(p.meta), CalibrationOutOfRange(k));
      var mid := CalibrationChecks(p, front, ds);
      ReportsIf(c, mid, d);
      ReportsThen(ds, mid, PushIf(c, mid, d), RouterProfile, DiagName(p.meta),
                  exists k :: k in front && k in p.calibration && !CalibrationOk(p.calibration[k]), c);
    }
  }

  lemma ProfileReports(p: ProfileResource, ds: seq<Diag>)
    ensures Reports(ds, ProfileChecks(p, ds), RouterProfile, DiagName(p.meta), !ProfileValid(p))
  {
    hide CalibrationOk, DiagName, Reports, PushIf, CalibrationChecks;
    var n := DiagName(p.meta);
    var c1, c2 := p.timeoutMs == 0, p.defaultOutputTokens == 0;
    var c3, c4 := p.classifierType == Onnx && p.classifierUri.None?, p.classifierType == Onnx && p.tokenizerUri.None?;
    var d1 := PushIf(c1, ds, Diag(Error, RouterProfile, n, TimeoutMustBePositive));
    var d2 := PushIf(c2, d1, Diag(Error, RouterProfile, n, OutputTokensMustBePositive));
    var d3 := PushIf(c3, d2, Diag(Error, RouterProfile, n, OnnxNeedsModel));
    var d4 := PushIf(c4, d3, Diag(Error, RouterProfile, n, OnnxNeedsTokenizer));
    ReportsIf(c1, ds, Diag(Error, RouterProfile, n, TimeoutMustBePositive));
    ReportsIf(c2, d1, Diag(Error, RouterProfile, n, OutputTokensMustBePositive));
    ReportsIf(c3, d2, Diag(Error, RouterProfile, n, OnnxNeedsModel));
    ReportsIf(c4, d3, Diag(Error, RouterProfile, n, OnnxNeedsTokenizer));
    AscendingSound(p.calibration.Keys);
    CalibrationReports(p, Ascending(p.calibration.Keys), d4);
    ReportsThen(ds, d1, d2, RouterProfile, n, c1, c2);
    ReportsThen(ds, d2, d3, RouterProfile, n, c1 || c2, c3);
    ReportsThen(ds, d3, d4, RouterProfile, n, c1 || c2 || c3, c4);
    ReportsThen(ds, d4, ProfileChecks(p, ds), RouterProfile, n, c1 || c2 || c3 || c4,
                exists k :: k in Ascending(p.calibration.Keys) && k in p.calibration
                  && !CalibrationOk(p.calibration[k]));
  }

  ghost predicate ProfilesWF(ps: seq<ProfileResource>) {
    NamedApart(ProfileName, ps) && forall p | p in ps :: ProfileValid(p)
  }

  /** The profile pass as a whole: errors exactly when the profiles are ill-formed, and what it holds otherwise. */
  ghost predicate ProfilePassOk(ps: seq<ProfileResource>, ds: seq<Diag>, st: ProfileState) {
    && (HasErrors(st.diags) <==> HasErrors(ds) || !ProfilesWF(ps))
    && (ProfilesWF(ps) ==> Holds(st.profiles, ProfileName, ProfileCompiler(), ps))
  }

  /** What adding one profile reports. */
  lemma AddProfileReports(st: ProfileState, p: ProfileResource)
    ensures Reports(st.diags, AddProfile(st, p).diags, RouterProfile, DiagName(p.meta),
                    p.meta.name.None? || p.meta.name.value in st.profiles || !ProfileValid(p))
  {
    hide DiagName, Reports, ProfileChecks, ProfileValid;
    ReportsOne(st.diags, Diag(Error, RouterProfile, DiagName(p.meta), MissingName));
    ReportsOne(st.diags, Diag(Error, RouterProfile, DiagName(p.meta), DuplicateName));
    ProfileReports(p, st.diags);
  }

  lemma {:induction false} ProfilePassSound(ps: seq<ProfileResource>, ds: seq<Diag>)
    ensures ProfilePassOk(ps, ds, ProfilePass(ps, ds))
  {
    hide DiagName, ProfileValid, HasErrors, AddProfile, Reports;
    if ps != [] {
      var front, p := ps[..|ps| - 1], ps[|ps| - 1];
      assert ps == front + [p];
      ProfilePassSound(front, ds);
      var st := ProfilePass(front, ds);
      AddProfileReports(st, p);
      ReportsErrors(st.diags, ProfilePass(ps, ds).diags, RouterProfile, DiagName(p.meta),
                    p.meta.name.None? || p.meta.name.value in st.profiles || !ProfileValid(p));
      NamedApartSnoc(ProfileName, front, p);
      assert forall q :: q in ps <==> q in front || q == p;
      if ProfilesWF(front) && p.meta.name.Some? {
        HoldsTaken(st.profiles, ProfileName, ProfileCompiler(), front, p.meta.name.value);
        if !Taken(ProfileName, front, p.meta.name) {
          HoldsSnoc(st.profiles, ProfileName, ProfileCompiler(), front, p);
          AddedProfile(st, p);
        }
      }
    }
  }

  lemma AddedProfile(st: ProfileState, p: ProfileResource)
    requires p.meta.name.Some? && p.meta.name.value !in st.profiles
    ensures AddProfile(st, p).profiles == st.profiles[p.meta.name.value := ProfileCompiler()(p)]
  {}

  // ---- exchange rates ----

  predicate Near(a: real, b: real) {
    a - b <= EPSILON && b - a <= EPSILON
  }

  /** Every listed rate is valid and within EPSILON of the table. */
  ghost predicate RatesFit(fx: map<string, real>, p: ProfileResource, curs: seq<string>) {
    forall cur | cur in curs && cur in p.fxToEur ::
      ValidRate(p.fxToEur[cur]) && (cur in fx ==> Near(fx[cur], p.fxToEur[cur].value))
  }

  /** Currencies that are not listed keep their rate. */
  ghost predicate Untouched(fx: map<string, real>, fx': map<string, real>, p: ProfileResource, curs: seq<string>) {
    forall cur | cur !in curs || cur !in p.fxToEur :: (cur in fx' <==> cur in fx) && (cur in fx ==> fx'[cur] == fx[cur])
  }

  /** The listed rates are in the table. */
  ghost predicate Entered(fx': map<string, real>, p: ProfileResource, curs: seq<string>) {
    forall cur | cur in curs && cur in p.fxToEur && ValidRate(p.fxToEur[cur]) ::
      cur in fx' && fx'[cur] == p.fxToEur[cur].value
  }

  lemma AddRateReports(st: FxState, p: ProfileResource, cur: string)
    ensures Reports(st.diags, AddRate(st, p, cur).diags, RouterProfile, DiagName(p.meta),
                    cur in p.fxToEur && (!ValidRate(p.fxToEur[cur])
                                         || (cur in st.fx && !Near(st.fx[cur], p.fxToEur[cur].value))))
  {
    hide DiagName, Reports;
    ReportsNothing(st.diags, RouterProfile, DiagName(p.meta));
    ReportsOne(st.diags, Diag(Error, RouterProfile, DiagName(p.meta), RateMustBePositive(cur)));
    ReportsOne(st.diags, Diag(Error, RouterProfile, DiagName(p.meta), ConflictingRate(cur)));
  }

  lemma RateEntered(st: FxState, p: ProfileResource, cur: string, other: string)
    ensures other != cur ==> (other in AddRate(st, p, cur).fx <==> other in st.fx)
    ensures other != cur && other in st.fx ==> AddRate(st, p, cur).fx[other] == st.fx[other]
    ensures cur !in p.fxToEur ==> AddRate(st, p, cur) == st
    ensures cur in p.fxToEur && ValidRate(p.fxToEur[cur])
            && (cur in st.fx ==> Near(st.fx[cur], p.fxToEur[cur].value)) ==>
      cur in AddRate(st, p, cur).fx && AddRate(st, p, cur).fx[cur] == p.fxToEur[cur].value
  {}

  lemma {:induction false} RatesUntouched(st: FxState, p: ProfileResource, curs: seq<string>)
    ensures Untouched(st.fx, AddRates(st, p, curs).fx, p, curs)
  {
    hide AddRate;
    if curs != [] {
      var front, cur := curs[..|curs| - 1], curs[|curs| - 1];
      assert curs == front + [cur];
      RatesUntouched(st, p, front);
      forall c | c !in curs || c !in p.fxToEur
        ensures (c in AddRates(st, p, curs).fx <==> c in st.fx)
                && (c in st.fx ==> AddRates(st, p, curs).fx[c] == st.fx[c])
      {
        RateEntered(AddRates(st, p, front), p, cur, c);
      }
    }
  }

  lemma {:induction false} RatesEntered(st: FxState, p: ProfileResource, curs: seq<string>)
    requires RatesFit(st.fx, p, curs)
    ensures Entered(AddRates(st, p, curs).fx, p, curs)
  {
    hide AddRate, Near;
    if curs != [] {
      var front, cur := curs[..|curs| - 1], curs[|curs| - 1];
      assert curs == front + [cur];
      assert RatesFit(st.fx, p, front);
      RatesEntered(st, p, front);
      RatesUntouched(st, p, front);
      var mid := AddRates(st, p, front);
      forall c | c in curs && c in p.fxToEur && ValidRate(p.fxToEur[c])
        ensures c in AddRate(mid, p, cur).fx && AddRate(mid, p, cur).fx[c] == p.fxToEur[c].value
      {
        RateEntered(mid, p, cur, c);
        NearSelf(p.fxToEur[c].value);
      }
    }
  }

  lemma NearSelf(r: real)
    ensures Near(r, r)
  {}

  lemma {:induction false} RatesReport(st: FxState, p: ProfileResource, curs: seq<string>)
    ensures Reports(st.diags, AddRates(st, p, curs).diags, RouterProfile, DiagName(p.meta), !RatesFit(st.fx, p, curs))
  {
    hide AddRate, Near, Reports, DiagName;
    if curs == [] {
      ReportsNothing(st.diags, RouterProfile, DiagName(p.meta));
    } else {
      var front, cur := curs[..|curs| - 1], curs[|curs| - 1];
      assert curs == front + [cur];
      RatesReport(st, p, front);
      RatesUntouched(st, p, front);
      if RatesFit(st.fx, p, front) {
        RatesEntered(st, p, front);
      }
      var mid := AddRates(st, p, front);
      AddRateReports(mid, p, cur);
      var bad := cur in p.fxToEur
        && (!ValidRate(p.fxToEur[cur]) || (cur in mid.fx && !Near(mid.fx[cur], p.fxToEur[cur].value)));
      ReportsThen(st.diags, mid.diags, AddRate(mid, p, cur).diags, RouterProfile, DiagName(p.meta),
                  !RatesFit(st.fx, p, front), bad);
      assert forall c :: c in curs <==> c in front || c == cur;
      if cur in p.fxToEur && ValidRate(p.fxToEur[cur]) {
        NearSelf(p.fxToEur[cur].value);
      }
      assert RatesFit(st.fx, p, curs) <==> RatesFit(st.fx, p, front) && !bad;
    }
  }

  lemma FxPassSnoc(front: seq<ProfileResource>, p: ProfileResource)
    ensures FxPass(front + [p]) == AddRates(FxPass(front), p, Ascending(p.fxToEur.Keys))
  {
    assert (front + [p])[..|front|] == front;
  }

  /** What adding one profile does to the table, one currency at a time. */
  lemma AddedEntry(front: seq<ProfileResource>, p: ProfileResource, cur: string)
    requires RatesFit(FxPass(front).fx, p, Ascending(p.fxToEur.Keys))
    ensures var fx, fx' := FxPass(front).fx, FxPass(front + [p]).fx;
      if cur in p.fxToEur then ValidRate(p.fxToEur[cur]) && cur in fx' && fx'[cur] == p.fxToEur[cur].value
      else (cur in fx' <==> cur in fx) && (cur in fx ==> fx'[cur] == fx[cur])
  {
    hide AddRates, FxPass, Ascending, StrictlyAscending, Near;
    AscendingSound(p.fxToEur.Keys);
    FxPassSnoc(front, p);
    RatesUntouched(FxPass(front), p, Ascending(p.fxToEur.Keys));
    RatesEntered(FxPass(front), p, Ascending(p.fxToEur.Keys));
  }

  /** What the last profile that lists a currency declares for it. */
  function LastDeclared(ps: seq<ProfileResource>, cur: string): Option<Float> {
    if ps == [] then None
    else if cur in ps[|ps| - 1].fxToEur then Some(ps[|ps| - 1].fxToEur[cur])
    else LastDeclared(ps[..|ps| - 1], cur)
  }

  /** A rate is valid and within EPSILON of the one declared before it, if there is one. */
  predicate RateFollows(before: Option<Float>, rate: Float) {
    ValidRate(rate) && (before.Some? ==> before.value.Finite? && Near(before.value.value, rate.value))
  }

  ghost predicate RatesFollow(front: seq<ProfileResource>, p: ProfileResource) {
    forall cur | cur in p.fxToEur :: RateFollows(LastDeclared(front, cur), p.fxToEur[cur])
  }

  /** Every declared rate is valid and within EPSILON of the previous one declared for its currency. */
  ghost predicate RatesConsistent(ps: seq<ProfileResource>) {
    forall i :: 0 <= i < |ps| ==> RatesFollow(ps[..i], ps[i])
  }

  /** The table gives each currency the rate declared last, and only declared currencies one. */
  ghost predicate Quotes(fx: map<string, real>, ps: seq<ProfileResource>) {
    forall cur :: LastDeclared(ps, cur) == if cur in fx then Some(Finite(fx[cur])) else None
  }

  lemma RatesConsistentSnoc(front: seq<ProfileResource>, p: ProfileResource)
    ensures RatesConsistent(front + [p]) <==> RatesConsistent(front) && RatesFollow(front, p)
  {
    hide RatesFollow;
    var ps := front + [p];
    assert ps[..|front|] == front && ps[|front|] == p;
    assert forall i :: 0 <= i < |front| ==> ps[..i] == front[..i] && ps[i] == front[i];
    assert RatesConsistent(ps) ==> RatesFollow(ps[..|front|], ps[|front|]);
    if RatesConsistent(ps) {
      forall i | 0 <= i < |front| ensures RatesFollow(front[..i], front[i]) {
        assert RatesFollow(ps[..i], ps[i]);
      }
    }
  }

  lemma FitIsFollowing(fx: map<string, real>, front: seq<ProfileResource>, p: ProfileResource)
    requires Quotes(fx, front)
    ensures RatesFit(fx, p, Ascending(p.fxToEur.Keys)) <==> RatesFollow(front, p)
  {
    hide Near, LastDeclared, Ascending, StrictlyAscending;
    AscendingSound(p.fxToEur.Keys);
  }

  lemma QuotesSnoc(front: seq<ProfileResource>, p: ProfileResource)
    requires Quotes(FxPass(front).fx, front) && RatesFit(FxPass(front).fx, p, Ascending(p.fxToEur.Keys))
    ensures Quotes(FxPass(front + [p]).fx, front + [p])
  {
    hide FxPass, RatesFit, Ascending;
    assert (front + [p])[..|front|] == front;
    forall cur
      ensures LastDeclared(front + [p], cur)
              == if cur in FxPass(front + [p]).fx then Some(Finite(FxPass(front + [p]).fx[cur])) else None
    {
      AddedEntry(front, p, cur);
    }
  }

  /** The rates are accepted exactly when they are consistent, and then the table quotes the rates declared last. */
  lemma {:induction false} FxPassSound(ps: seq<ProfileResource>)
    ensures HasErrors(FxPass(ps).diags) <==> !RatesConsistent(ps)
    ensures RatesConsistent(ps) ==> Quotes(FxPass(ps).fx, ps)
  {
    hide AddRates, Reports, DiagName, RatesFit, RatesFollow, RatesConsistent, Quotes, FxPass, HasErrors;
    if ps == [] {
      NoRatesDeclared();
    } else {
      var front, p := ps[..|ps| - 1], ps[|ps| - 1];
      assert ps == front + [p];
      FxPassSound(front);
      FxPassSnoc(front, p);
      RatesReport(FxPass(front), p, Ascending(p.fxToEur.Keys));
      ReportsErrors(FxPass(front).diags, FxPass(ps).diags, RouterProfile, DiagName(p.meta),
                    !RatesFit(FxPass(front).fx, p, Ascending(p.fxToEur.Keys)));
      RatesConsistentSnoc(front, p);
      if RatesConsistent(front) {
        FitIsFollowing(FxPass(front).fx, front, p);
        if RatesFollow(front, p) {
          QuotesSnoc(front, p);
        }
      }
    }
  }

  lemma NoRatesDeclared()
    ensures FxPass([]) == FxState(map[], []) && !HasErrors([]) && RatesConsistent([]) && Quotes(map[], [])
  {}

  /** Consistency of one more profile, told by the table of the ones before it. */
  lemma ConsistentSnoc(front: seq<ProfileResource>, p: ProfileResource)
    ensures RatesConsistent(front + [p]) <==>
      RatesConsistent(front) && RatesFit(FxPass(front).fx, p, Ascending(p.fxToEur.Keys))
  {
    hide RatesFit, RatesFollow, RatesConsistent, Quotes, FxPass;
    RatesConsistentSnoc(front, p);
    FxPassSound(front);
    if RatesConsistent(front) {
      FitIsFollowing(FxPass(front).fx, front, p);
    }
  }

  // ---- data classes ----

  function Claims(c: ClassResource): set<string> {
    Elements(ClaimList(c, if c.meta.name.Some? then c.meta.name.value else ""))
  }

  function ClassCompiler(): ClassResource -> DataClass {
    (c: ClassResource) => CompileClass(c, if c.meta.name.Some? then c.meta.name.value else "")
  }

  ghost predicate ForeignClaim(owners: map<string, string>, name: string, values: seq<string>) {
    exists v :: v in values && v in owners && owners[v] != name
  }

  lemma {:induction false} ClaimsReport(st: ClaimState, c: ClassResource, name: string, values: seq<string>)
    ensures Reports(st.diags, AddClaims(st, c, name, values).diags, DataClassKind, DiagName(c.meta),
                    ForeignClaim(st.owners, name, values))
    ensures forall v :: v in AddClaims(st, c, name, values).owners <==> v in st.owners || v in values
    ensures forall v | v in AddClaims(st, c, name, values).owners ::
      AddClaims(st, c, name, values).owners[v] == if v in values then name else st.owners[v]
  {
    hide Reports, DiagName;
    if values == [] {
      ReportsNothing(st.diags, DataClassKind, DiagName(c.meta));
    } else {
      var front, v := values[..|values| - 1], values[|values| - 1];
      assert values == front + [v];
      assert forall x :: x in values <==> x in front || x == v;
      ClaimsReport(st, c, name, front);
      var mid := AddClaims(st, c, name, front);
      var bad := v in mid.owners && mid.owners[v] != name;
      ReportsNothing(mid.diags, DataClassKind, DiagName(c.meta));
      if bad {
        ReportsOne(mid.diags, Diag(Error, DataClassKind, DiagName(c.meta), HeaderClaimed(v, mid.owners[v])));
      }
      ReportsThen(st.diags, mid.diags, AddClaims(st, c, name, values).diags, DataClassKind, DiagName(c.meta),
                  ForeignClaim(st.owners, name, front), bad);
      assert ForeignClaim(st.owners, name, values) <==> ForeignClaim(st.owners, name, front) || bad;
    }
  }

  predicate NewClass(st: ClassState, c: ClassResource) {
    c.meta.name.Some? && c.meta.name.value !in st.classes
  }

  lemma AddClassReports(st: ClassState, c: ClassResource)
    ensures Reports(st.diags, AddClass(st, c).diags, DataClassKind, DiagName(c.meta),
                    !NewClass(st, c) || !Unit(c.minConfidence)
                    || ForeignClaim(st.owners, c.meta.name.value, ClaimList(c, c.meta.name.value)))
  {
    hide DiagName, Reports, AddClaims, ClaimList, ForeignClaim, Unit, CompileClass;
    var n := DiagName(c.meta);
    ReportsOne(st.diags, Diag(Error, DataClassKind, n, MissingName));
    ReportsOne(st.diags, Diag(Error, DataClassKind, n, DuplicateName));
    if NewClass(st, c) {
      var name := c.meta.name.value;
      var d := Diag(Error, DataClassKind, n, MinConfidenceOutOfRange);
      var d1 := PushIf(!Unit(c.minConfidence), st.diags, d);
      ReportsIf(!Unit(c.minConfidence), st.diags, d);
      var d2 := if c.rank in st.ranks then d1 + [Diag(Warning, DataClassKind, n, RankShared(c.rank, st.ranks[c.rank]))]
                else d1;
      ReportsNothing(d1, DataClassKind, n);
      if c.rank in st.ranks {
        ReportsOne(d1, Diag(Warning, DataClassKind, n, RankShared(c.rank, st.ranks[c.rank])));
      }
      ReportsThen(st.diags, d1, d2, DataClassKind, n, !Unit(c.minConfidence), false);
      var values := ClaimList(c, name);
      ClaimsReport(ClaimState(st.owners, d2), c, name, values);
      ReportsThen(st.diags, d2, AddClaims(ClaimState(st.owners, d2), c, name, values).diags, DataClassKind, n,
                  !Unit(c.minConfidence), ForeignClaim(st.owners, name, values));
    }
  }

  /** Names apart, confidences in range, and no header value claimed by two classes. */
  ghost predicate ClassesWF(cs: seq<ClassResource>) {
    && NamedApart(ClassName, cs)
    && (forall c | c in cs :: Unit(c.minConfidence))
    && (forall c, d | c in cs && d in cs && c != d :: Claims(c) !! Claims(d))
  }

  /** Every claimed value is owned by the class that claims it. */
  ghost predicate Owns(owners: map<string, string>, cs: seq<ClassResource>) {
    && (forall v | v in owners :: exists c :: c in cs && v in Claims(c))
    && (forall c, v | c in cs && v in Claims(c) :: v in owners && c.meta.name == Some(owners[v]))
  }

  ghost predicate ClassPassOk(cs: seq<ClassResource>, ds: seq<Diag>, st: ClassState) {
    && (HasErrors(st.diags) <==> HasErrors(ds) || !ClassesWF(cs))
    && (ClassesWF(cs) ==> Holds(st.classes, ClassName, ClassCompiler(), cs) && Owns(st.owners, cs))
  }

  lemma ClassesWFSnoc(front: seq<ClassResource>, c: ClassResource)
    ensures ClassesWF(front + [c]) <==>
      ClassesWF(front) && c.meta.name.Some? && !Taken(ClassName, front, c.meta.name) && Unit(c.minConfidence)
      && forall d | d in front :: Claims(d) !! Claims(c)
  {
    hide Claims, Unit;
    NamedApartSnoc(ClassName, front, c);
    assert forall d :: d in front + [c] <==> d in front || d == c;
    forall d | d in front && !Taken(ClassName, front, c.meta.name) ensures d != c {
      var i :| 0 <= i < |front| && front[i] == d;
      assert ClassName(front[i]) != c.meta.name;
    }
  }

  lemma ForeignIsShared(owners: map<string, string>, front: seq<ClassResource>, c: ClassResource)
    requires Owns(owners, front) && c.meta.name.Some? && !Taken(ClassName, front, c.meta.name)
    ensures ForeignClaim(owners, c.meta.name.value, ClaimList(c, c.meta.name.value)) <==>
            exists d :: d in front && !(Claims(d) !! Claims(c))
  {
    hide ClaimList;
    var name := c.meta.name.value;
    if ForeignClaim(owners, name, ClaimList(c, name)) {
      var v :| v in ClaimList(c, name) && v in owners && owners[v] != name;
      var d :| d in front && v in Claims(d);
      assert v in Claims(c) && v in Claims(d) * Claims(c);
    }
    if d :| d in front && !(Claims(d) !! Claims(c)) {
      var v :| v in Claims(d) && v in Claims(c);
      assert d.meta.name == Some(owners[v]);
      var i :| 0 <= i < |front| && front[i] == d;
      assert ClassName(front[i]) != c.meta.name;
      assert v in ClaimList(c, name) && owners[v] != name;
    }
  }

  lemma AddedClass(st: ClassState, c: ClassResource)
    requires NewClass(st, c)
    ensures AddClass(st, c).classes == st.classes[c.meta.name.value := ClassCompiler()(c)]
    ensures forall v :: v in AddClass(st, c).owners <==> v in st.owners || v in Claims(c)
    ensures forall v | v in AddClass(st, c).owners ::
      AddClass(st, c).owners[v] == if v in Claims(c) then c.meta.name.value else st.owners[v]
  {
    hide CompileClass, DiagName;
    var name := c.meta.name.value;
    var d1 := PushIf(!Unit(c.minConfidence), st.diags,
                     Diag(Error, DataClassKind, DiagName(c.meta), MinConfidenceOutOfRange));
    var d2 := if c.rank in st.ranks
              then d1 + [Diag(Warning, DataClassKind, DiagName(c.meta), RankShared(c.rank, st.ranks[c.rank]))]
              else d1;
    ClaimsReport(ClaimState(st.owners, d2), c, name, ClaimList(c, name));
  }

  lemma OwnsSnoc(st: ClassState, front: seq<ClassResource>, c: ClassResource)
    requires Owns(st.owners, front) && NewClass(st, c)
    requires forall d | d in front :: Claims(d) !! Claims(c)
    ensures Owns(AddClass(st, c).owners, front + [c])
  {
    hide Claims, AddClass;
    AddedClass(st, c);
    var cs, owners := front + [c], AddClass(st, c).owners;
    forall v | v in owners ensures exists d :: d in cs && v in Claims(d) {
      if v in Claims(c) {
        assert c in cs;
      } else {
        var d :| d in front && v in Claims(d);
        assert d in cs;
      }
    }
    forall d, v | d in cs && v in Claims(d) ensures v in owners && d.meta.name == Some(owners[v]) {
      if d in front {
        assert Claims(d) !! Claims(c);
      }
    }
  }

  lemma {:induction false} ClassPassSound(cs: seq<ClassResource>, ds: seq<Diag>)
    ensures ClassPassOk(cs, ds, ClassPass(cs, ds))
  {
    hide DiagName, Unit, HasErrors, AddClass, Claims, ForeignClaim, ClassesWF, Owns, Holds, Reports;
    if cs == [] {
      assert ClassesWF([]) && Owns(map[], []) && Holds(map[], ClassName, ClassCompiler(), []) by { EmptyClasses(); }
    } else {
      var front, c := cs[..|cs| - 1], cs[|cs| - 1];
      assert cs == front + [c];
      ClassPassSound(front, ds);
      var st := ClassPass(front, ds);
      AddClassReports(st, c);
      ReportsErrors(st.diags, ClassPass(cs, ds).diags, DataClassKind, DiagName(c.meta),
                    !NewClass(st, c) || !Unit(c.minConfidence)
                    || ForeignClaim(st.owners, c.meta.name.value, ClaimList(c, c.meta.name.value)));
      ClassesWFSnoc(front, c);
      if ClassesWF(front) && c.meta.name.Some? {
        HoldsTaken(st.classes, ClassName, ClassCompiler(), front, c.meta.name.value);
        if !Taken(ClassName, front, c.meta.name) {
          ForeignIsShared(st.owners, front, c);
          HoldsSnoc(st.classes, ClassName, ClassCompiler(), front, c);
          AddedClass(st, c);
          if forall d | d in front :: Claims(d) !! Claims(c) {
            OwnsSnoc(st, front, c);
          }
        }
      }
    }
  }

  lemma EmptyClasses()
    ensures ClassesWF([]) && Owns(map[], []) && Holds(map[], ClassName, ClassCompiler(), [])
  {}
}
