/**
 What the compiler reports about profiles, rates and data classes, rule by rule.
 */
module ReportedObjects {
  import opened Ordering
  import opened TextForms
  import opened Snapshots
  import opened Compiler
  import opened CompilerFacts

  // ---- names and numbers ----

  /** `namespace/name`, with stand-ins for what is missing. */
  predicate IsNameOf(m: Meta, s: string) {
    var ns := match m.ns { case Some(n) => n case None => "default" };
    var name := match m.name { case Some(n) => n case None => "<unnamed>" };
    s == ns + "/" + name
  }

  lemma DiagNameIs(m: Meta, s: string)
    ensures s == DiagName(m) <==> IsNameOf(m, s)
  {}

  predicate InUnit(v: Float) {
    v.Finite? && 0.0 <= v.value <= 1.0
  }

  predicate AtLeastZero(v: Float) {
    v.Finite? && 0.0 <= v.value
  }

  lemma PushIfSays(c: bool, ds: seq<Diag>, e: Diag, d: Diag)
    ensures d in PushIf(c, ds, e) <==> d in ds || (c && d == e)
  {}

  // ---- profiles ----

  /** What is wrong with a profile on its own. */
  predicate ProfileBreaks(rule: Rule, p: ProfileResource) {
    match rule
    case TimeoutMustBePositive => p.timeoutMs == 0
    case OutputTokensMustBePositive => p.defaultOutputTokens == 0
    case OnnxNeedsModel => p.classifierType == Onnx && p.classifierUri.None?
    case OnnxNeedsTokenizer => p.classifierType == Onnx && p.tokenizerUri.None?
    case CalibrationOutOfRange(k) =>
      k in p.calibration && !(p.calibration[k].numericKey && InUnit(p.calibration[k].value))
    case _ => false
  }

  /** What is reported about a profile, in view of those before it. */
  ghost predicate ProfileSays(before: seq<ProfileResource>, p: ProfileResource, d: Diag) {
    && d.level == Error && d.kind == RouterProfile && IsNameOf(p.meta, d.name)
    && if p.meta.name.None? then d.rule == MissingName
       else if exists q :: q in before && q.meta.name == p.meta.name then d.rule == DuplicateName
       else ProfileBreaks(d.rule, p)
  }

  lemma {:induction false} CalibrationSays(p: ProfileResource, keys: seq<string>, ds: seq<Diag>, d: Diag)
    ensures d in CalibrationChecks(p, keys, ds) <==>
      d in ds || exists k :: k in keys && k in p.calibration && !CalibrationOk(p.calibration[k])
                  && d == Diag(Error, RouterProfile, DiagName(p.meta), CalibrationOutOfRange(k))
  {
    hide CalibrationOk, DiagName;
    if keys != [] {
      var front, k := keys[..|keys| - 1], keys[|keys| - 1];
      assert keys == front + [k];
      CalibrationSays(p, front, ds, d);
      assert forall x :: x in keys <==> x in front || x == k;
    }
  }

  lemma ProfileChecksSay(p: ProfileResource, ds: seq<Diag>, d: Diag)
    ensures d in ProfileChecks(p, ds) <==>
      d in ds || (d.level == Error && d.kind == RouterProfile && IsNameOf(p.meta, d.name) && ProfileBreaks(d.rule, p))
  {
    hide CalibrationChecks, IsNameOf, DiagName;
    DiagNameIs(p.meta, d.name);
    var n := DiagName(p.meta);
    AscendingSound(p.calibration.Keys);
    var d1 := PushIf(p.timeoutMs == 0, ds, Diag(Error, RouterProfile, n, TimeoutMustBePositive));
    var d2 := PushIf(p.defaultOutputTokens == 0, d1, Diag(Error, RouterProfile, n, OutputTokensMustBePositive));
    var d3 := PushIf(p.classifierType == Onnx && p.classifierUri.None?, d2,
                     Diag(Error, RouterProfile, n, OnnxNeedsModel));
    var d4 := PushIf(p.classifierType == Onnx && p.tokenizerUri.None?, d3,
                     Diag(Error, RouterProfile, n, OnnxNeedsTokenizer));
    CalibrationSays(p, Ascending(p.calibration.Keys), d4, d);
    hide Ascending, StrictlyAscending;
  }

  lemma {:induction false} ProfilesHeld(ps: seq<ProfileResource>, ds: seq<Diag>)
    ensures forall n :: n in ProfilePass(ps, ds).profiles <==> exists q :: q in ps && q.meta.name == Some(n)
  {
    hide ProfileChecks, CompileProfile, DiagName;
    if ps != [] {
      var front, p := ps[..|ps| - 1], ps[|ps| - 1];
      assert ps == front + [p];
      ProfilesHeld(front, ds);
      assert forall q :: q in ps <==> q in front || q == p;
    }
  }

  lemma AddProfileSays(front: seq<ProfileResource>, p: ProfileResource, ds: seq<Diag>, d: Diag)
    ensures d in AddProfile(ProfilePass(front, ds), p).diags <==>
      d in ProfilePass(front, ds).diags || ProfileSays(front, p, d)
  {
    hide ProfileChecks, CompileProfile, DiagName, IsNameOf, ProfilePass, ProfileBreaks;
    ProfilesHeld(front, ds);
    DiagNameIs(p.meta, d.name);
    ProfileChecksSay(p, ProfilePass(front, ds).diags, d);
  }

  ghost predicate SaidOfProfiles(ps: seq<ProfileResource>, d: Diag) {
    exists i :: 0 <= i < |ps| && ProfileSays(ps[..i], ps[i], d)
  }

  lemma SaidOfProfilesSnoc(front: seq<ProfileResource>, p: ProfileResource, d: Diag)
    ensures SaidOfProfiles(front + [p], d) <==> SaidOfProfiles(front, d) || ProfileSays(front, p, d)
  {
    hide ProfileSays;
    var ps := front + [p];
    assert ps[..|front|] == front && ps[|front|] == p;
    assert forall i :: 0 <= i < |front| ==> ps[..i] == front[..i] && ps[i] == front[i];
    if SaidOfProfiles(front, d) {
      var i :| 0 <= i < |front| && ProfileSays(front[..i], front[i], d);
      assert ProfileSays(ps[..i], ps[i], d);
    }
    if ProfileSays(front, p, d) {
      assert ProfileSays(ps[..|front|], ps[|front|], d);
    }
  }

  /** The profile pass reports exactly what is wrong with each profile. */
  lemma {:induction false} ProfileReportIsExact(ps: seq<ProfileResource>, ds: seq<Diag>, d: Diag)
    ensures d in ProfilePass(ps, ds).diags <==> d in ds || SaidOfProfiles(ps, d)
  {
    hide AddProfile, ProfileSays;
    if ps != [] {
      var front, p := ps[..|ps| - 1], ps[|ps| - 1];
      assert ps == front + [p];
      ProfileReportIsExact(front, ds, d);
      AddProfileSays(front, p, ds, d);
      SaidOfProfilesSnoc(front, p, d);
    }
  }

  // ---- exchange rates ----

  /** Finite and positive. */
  predicate IsRate(r: Float) {
    r.Finite? && 0.0 < r.value
  }

  /** More than 2^-52 apart. */
  predicate FarApart(a: real, b: real) {
    a - b > 1.0 / 4503599627370496.0 || b - a > 1.0 / 4503599627370496.0
  }

  /** The rate a currency has after some profiles: a rate that is none, or far from the one it has, is not taken. */
  function TakenRate(ps: seq<ProfileResource>, cur: string): Option<real> {
    if ps == [] then None
    else
      var before, p := TakenRate(ps[..|ps| - 1], cur), ps[|ps| - 1];
      if cur in p.fxToEur && IsRate(p.fxToEur[cur]) && (before.None? || !FarApart(before.value, p.fxToEur[cur].value))
      then Some(p.fxToEur[cur].value) else before
  }

  /** What is reported about the rates of a profile, in view of the profiles before it. */
  ghost predicate RatesSay(before: seq<ProfileResource>, p: ProfileResource, d: Diag) {
    && d.level == Error && d.kind == RouterProfile && IsNameOf(p.meta, d.name)
    && match d.rule
       case RateMustBePositive(cur) => cur in p.fxToEur && !IsRate(p.fxToEur[cur])
       case ConflictingRate(cur) =>
         && cur in p.fxToEur && IsRate(p.fxToEur[cur]) && TakenRate(before, cur).Some?
         && FarApart(TakenRate(before, cur).value, p.fxToEur[cur].value)
       case _ => false
  }

  /** One currency of a profile. */
  ghost predicate RateSays(fx: map<string, real>, p: ProfileResource, cur: string, d: Diag) {
    && cur in p.fxToEur && d.level == Error && d.kind == RouterProfile && d.name == DiagName(p.meta)
    && if !IsRate(p.fxToEur[cur]) then d.rule == RateMustBePositive(cur)
       else cur in fx && FarApart(fx[cur], p.fxToEur[cur].value) && d.rule == ConflictingRate(cur)
  }

  lemma AddRateSays(st: FxState, p: ProfileResource, cur: string, d: Diag)
    ensures d in AddRate(st, p, cur).diags <==> d in st.diags || RateSays(st.fx, p, cur, d)
    ensures forall other | other != cur :: other in AddRate(st, p, cur).fx <==> other in st.fx
    ensures forall other | other != cur && other in st.fx :: AddRate(st, p, cur).fx[other] == st.fx[other]
    ensures var fx := AddRate(st, p, cur).fx;
      if cur in p.fxToEur && IsRate(p.fxToEur[cur])
         && (cur in st.fx ==> !FarApart(st.fx[cur], p.fxToEur[cur].value))
      then cur in fx && fx[cur] == p.fxToEur[cur].value
      else (cur in fx <==> cur in st.fx) && (cur in st.fx ==> fx[cur] == st.fx[cur])
  {
    hide DiagName;
  }

  lemma {:induction false} AddRatesSay(st: FxState, p: ProfileResource, curs: seq<string>, d: Diag)
    requires StrictlyAscending(curs)
    ensures d in AddRates(st, p, curs).diags <==>
      d in st.diags || exists cur :: cur in curs && RateSays(st.fx, p, cur, d)
    ensures forall other | other !in curs ::
      var fx := AddRates(st, p, curs).fx;
      (other in fx <==> other in st.fx) && (other in fx ==> fx[other] == st.fx[other])
    ensures forall cur | cur in curs ::
      var fx, once := AddRates(st, p, curs).fx, AddRate(st, p, cur).fx;
      (cur in fx <==> cur in once) && (cur in fx ==> fx[cur] == once[cur])
  {
    hide AddRate, RateSays;
    if curs != [] {
      var front, cur := curs[..|curs| - 1], curs[|curs| - 1];
      assert curs == front + [cur];
      assert StrictlyAscending(front) && cur !in front by { LastIsNew(curs); }
      hide StrictlyAscending;
      AddRatesSay(st, p, front, d);
      var mid := AddRates(st, p, front);
      AddRateSays(mid, p, cur, d);
      SameEntrySameRate(st, mid, p, cur, d);
      assert forall x :: x in curs <==> x in front || x == cur;
    }
  }

  lemma LastIsNew(curs: seq<string>)
    requires curs != [] && StrictlyAscending(curs)
    ensures StrictlyAscending(curs[..|curs| - 1]) && curs[|curs| - 1] !in curs[..|curs| - 1]
  {}

  lemma SameEntrySameRate(a: FxState, b: FxState, p: ProfileResource, cur: string, d: Diag)
    requires (cur in a.fx <==> cur in b.fx) && (cur in a.fx ==> a.fx[cur] == b.fx[cur])
    ensures RateSays(a.fx, p, cur, d) <==> RateSays(b.fx, p, cur, d)
    ensures var x, y := AddRate(a, p, cur).fx, AddRate(b, p, cur).fx;
      (cur in x <==> cur in y) && (cur in x ==> x[cur] == y[cur])
  {
    hide DiagName;
  }

  /** The table holds the rates that were taken. */
  ghost predicate TableIs(fx: map<string, real>, ps: seq<ProfileResource>) {
    forall cur :: TakenRate(ps, cur) == if cur in fx then Some(fx[cur]) else None
  }

  lemma TableSnoc(st: FxState, front: seq<ProfileResource>, p: ProfileResource)
    requires TableIs(st.fx, front)
    ensures TableIs(AddRates(st, p, Ascending(p.fxToEur.Keys)).fx, front + [p])
  {
    hide AddRates, AddRate, FarApart, IsRate, Ascending, StrictlyAscending;
    var curs := Ascending(p.fxToEur.Keys);
    AscendingSound(p.fxToEur.Keys);
    assert (front + [p])[..|front|] == front;
    var d := Diag(Error, RouterProfile, "", MissingName);
    AddRatesSay(st, p, curs, d);
    forall cur
      ensures var fx := AddRates(st, p, curs).fx;
        TakenRate(front + [p], cur) == if cur in fx then Some(fx[cur]) else None
    {
      if cur in curs {
        AddRateSays(st, p, cur, d);
      }
    }
  }

  lemma {:induction false} FxTableIs(ps: seq<ProfileResource>)
    ensures TableIs(FxPass(ps).fx, ps)
  {
    hide AddRates, TableIs;
    if ps == [] {
      assert TableIs(map[], []) by { NoRatesTaken(); }
    } else {
      var front, p := ps[..|ps| - 1], ps[|ps| - 1];
      assert ps == front + [p];
      FxTableIs(front);
      TableSnoc(FxPass(front), front, p);
    }
  }

  lemma NoRatesTaken()
    ensures TableIs(map[], [])
  {}

  ghost predicate SaidOfRates(ps: seq<ProfileResource>, d: Diag) {
    exists i :: 0 <= i < |ps| && RatesSay(ps[..i], ps[i], d)
  }

  lemma SaidOfRatesSnoc(front: seq<ProfileResource>, p: ProfileResource, d: Diag)
    ensures SaidOfRates(front + [p], d) <==> SaidOfRates(front, d) || RatesSay(front, p, d)
  {
    hide RatesSay;
    var ps := front + [p];
    assert ps[..|front|] == front && ps[|front|] == p;
    assert forall i :: 0 <= i < |front| ==> ps[..i] == front[..i] && ps[i] == front[i];
    if SaidOfRates(front, d) {
      var i :| 0 <= i < |front| && RatesSay(front[..i], front[i], d);
      assert RatesSay(ps[..i], ps[i], d);
    }
    if RatesSay(front, p, d) {
      assert RatesSay(ps[..|front|], ps[|front|], d);
    }
  }

  lemma AllRatesSay(fx: map<string, real>, front: seq<ProfileResource>, p: ProfileResource, d: Diag)
    requires TableIs(fx, front)
    ensures (exists cur :: cur in Ascending(p.fxToEur.Keys) && RateSays(fx, p, cur, d)) <==> RatesSay(front, p, d)
  {
    hide FarApart, IsRate, Ascending, StrictlyAscending, TakenRate, IsNameOf, DiagName;
    AscendingSound(p.fxToEur.Keys);
    DiagNameIs(p.meta, d.name);
    if RatesSay(front, p, d) {
      var cur := d.rule.currency;
      assert RateSays(fx, p, cur, d);
    }
  }

  /** The rate pass reports exactly the values that are no rates and those that are far from the rate taken before. */
  lemma {:induction false} RateReportIsExact(ps: seq<ProfileResource>, d: Diag)
    ensures d in FxPass(ps).diags <==> SaidOfRates(ps, d)
  {
    hide AddRates, RatesSay, TableIs, RateSays;
    if ps != [] {
      var front, p := ps[..|ps| - 1], ps[|ps| - 1];
      assert ps == front + [p];
      RateReportIsExact(front, d);
      FxTableIs(front);
      AscendingSound(p.fxToEur.Keys);
      AddRatesSay(FxPass(front), p, Ascending(p.fxToEur.Keys), d);
      AllRatesSay(FxPass(front).fx, front, p, d);
      SaidOfRatesSnoc(front, p, d);
    }
  }

  // ---- data classes ----

  /** The first class of its name, the one that counts. */
  ghost predicate Counts(cs: seq<ClassResource>, j: int) {
    0 <= j < |cs| && cs[j].meta.name.Some? && forall i :: 0 <= i < j ==> cs[i].meta.name != cs[j].meta.name
  }

  /** A header value the class answers to: a declared one or its own name, in small letters. */
  ghost predicate AnswersTo(c: ClassResource, v: string) {
    (exists h :: h in c.headerValues && Lowered(h, v)) || (c.meta.name.Some? && Lowered(c.meta.name.value, v))
  }

  /** The last of the classes that count and answer to the value. */
  ghost predicate LastToAnswer(cs: seq<ClassResource>, v: string, n: string) {
    exists j :: Counts(cs, j) && cs[j].meta.name == Some(n) && AnswersTo(cs[j], v)
      && forall k :: j < k && Counts(cs, k) ==> !AnswersTo(cs[k], v)
  }

  /** The last of the classes that count and have the rank. */
  ghost predicate LastWithRank(cs: seq<ClassResource>, rank: nat, n: string) {
    exists j :: Counts(cs, j) && cs[j].meta.name == Some(n) && cs[j].rank == rank
      && forall k :: j < k && Counts(cs, k) ==> cs[k].rank != rank
  }

  /** What is reported about a class, in view of those before it. */
  ghost predicate ClassSays(before: seq<ClassResource>, c: ClassResource, d: Diag) {
    && d.kind == DataClassKind && IsNameOf(c.meta, d.name)
    && if c.meta.name.None? then d.level == Error && d.rule == MissingName
       else if exists q :: q in before && q.meta.name == c.meta.name then d.level == Error && d.rule == DuplicateName
       else match d.rule
         case MinConfidenceOutOfRange => d.level == Error && !InUnit(c.minConfidence)
         case RankShared(rank, other) => d.level == Warning && rank == c.rank && LastWithRank(before, rank, other)
         case HeaderClaimed(v, other) => d.level == Error && AnswersTo(c, v) && LastToAnswer(before, v, other)
         case _ => false
  }

  lemma ClaimListIs(c: ClassResource, n: string, v: string)
    requires c.meta.name == Some(n)
    ensures v in ClaimList(c, n) <==> AnswersTo(c, v)
  {
    hide Lower, Lowered;
    forall h ensures v == Lower(h) <==> Lowered(h, v) {
      LowerExactly(h, v);
    }
    var ls := Map(Lower, c.headerValues);
    if v in ls {
      var i :| 0 <= i < |ls| && ls[i] == v;
      assert c.headerValues[i] in c.headerValues && Lowered(c.headerValues[i], v);
    }
    if h :| h in c.headerValues && Lowered(h, v) {
      var i :| 0 <= i < |c.headerValues| && c.headerValues[i] == h;
      assert ls[i] == v;
    }
  }

  lemma {:induction false} AddClaimsSay(st: ClaimState, c: ClassResource, name: string, values: seq<string>, d: Diag)
    ensures d in AddClaims(st, c, name, values).diags <==>
      d in st.diags || exists v :: v in values && v in st.owners && st.owners[v] != name
                        && d == Diag(Error, DataClassKind, DiagName(c.meta), HeaderClaimed(v, st.owners[v]))
    ensures forall v :: v in AddClaims(st, c, name, values).owners <==> v in st.owners || v in values
    ensures forall v | v in AddClaims(st, c, name, values).owners ::
      AddClaims(st, c, name, values).owners[v] == if v in values then name else st.owners[v]
  {
    hide DiagName;
    if values != [] {
      var front, last := values[..|values| - 1], values[|values| - 1];
      assert values == front + [last];
      AddClaimsSay(st, c, name, front, d);
      assert forall v :: v in values <==> v in front || v == last;
    }
  }

  /** What the pass holds after some classes. */
  ghost predicate ClassesHeld(cs: seq<ClassResource>, st: ClassState) {
    && (forall n :: n in st.classes <==> exists q :: q in cs && q.meta.name == Some(n))
    && (forall rank, n :: rank in st.ranks && st.ranks[rank] == n <==> LastWithRank(cs, rank, n))
    && (forall v, n :: v in st.owners && st.owners[v] == n <==> LastToAnswer(cs, v, n))
  }

  lemma CountsSnoc(front: seq<ClassResource>, c: ClassResource)
    ensures forall j :: Counts(front + [c], j) <==>
      Counts(front, j)
      || (j == |front| && c.meta.name.Some? && !exists q :: q in front && q.meta.name == c.meta.name)
  {
    var cs := front + [c];
    assert forall j :: 0 <= j < |front| ==> cs[j] == front[j];
    forall j
      ensures Counts(cs, j) <==>
        Counts(front, j)
        || (j == |front| && c.meta.name.Some? && !exists q :: q in front && q.meta.name == c.meta.name)
    {
      if j == |front| && exists q :: q in front && q.meta.name == c.meta.name {
        var q :| q in front && q.meta.name == c.meta.name;
        var i :| 0 <= i < |front| && front[i] == q;
        assert cs[i].meta.name == cs[j].meta.name;
      }
    }
  }

  lemma AnswerSnoc(front: seq<ClassResource>, c: ClassResource, v: string, n: string)
    ensures LastToAnswer(front + [c], v, n) <==>
      if Counts(front + [c], |front|) && AnswersTo(c, v) then c.meta.name == Some(n) else LastToAnswer(front, v, n)
  {
    hide AnswersTo, Counts;
    var cs := front + [c];
    CountsSnoc(front, c);
    CountsWithin(front);
    assert cs[|front|] == c && forall j :: 0 <= j < |front| ==> cs[j] == front[j];
    if LastToAnswer(front, v, n) {
      var j :| Counts(front, j) && front[j].meta.name == Some(n) && AnswersTo(front[j], v)
        && forall k :: j < k && Counts(front, k) ==> !AnswersTo(front[k], v);
      assert Counts(cs, j) && cs[j] == front[j];
    }
    if LastToAnswer(cs, v, n) {
      var j :| Counts(cs, j) && cs[j].meta.name == Some(n) && AnswersTo(cs[j], v)
        && forall k :: j < k && Counts(cs, k) ==> !AnswersTo(cs[k], v);
      if Counts(front, j) {
        assert forall k :: j < k && Counts(front, k) ==> Counts(cs, k) && cs[k] == front[k];
      }
    }
    if Counts(cs, |front|) && AnswersTo(c, v) && c.meta.name == Some(n) {
      assert forall k :: |front| < k ==> !Counts(cs, k);
    }
  }

  lemma CountsWithin(cs: seq<ClassResource>)
    ensures forall j | Counts(cs, j) :: 0 <= j < |cs|
  {}

  lemma RankSnoc(front: seq<ClassResource>, c: ClassResource, rank: nat, n: string)
    ensures LastWithRank(front + [c], rank, n) <==>
      if Counts(front + [c], |front|) && c.rank == rank then c.meta.name == Some(n) else LastWithRank(front, rank, n)
  {
    hide Counts;
    var cs := front + [c];
    CountsSnoc(front, c);
    CountsWithin(front);
    assert cs[|front|] == c && forall j :: 0 <= j < |front| ==> cs[j] == front[j];
    if LastWithRank(front, rank, n) {
      var j :| Counts(front, j) && front[j].meta.name == Some(n) && front[j].rank == rank
        && forall k :: j < k && Counts(front, k) ==> front[k].rank != rank;
      assert Counts(cs, j) && cs[j] == front[j];
    }
    if LastWithRank(cs, rank, n) {
      var j :| Counts(cs, j) && cs[j].meta.name == Some(n) && cs[j].rank == rank
        && forall k :: j < k && Counts(cs, k) ==> cs[k].rank != rank;
      if Counts(front, j) {
        assert forall k :: j < k && Counts(front, k) ==> Counts(cs, k) && cs[k] == front[k];
      }
    }
    if Counts(cs, |front|) && c.rank == rank && c.meta.name == Some(n) {
      assert forall k :: |front| < k ==> !Counts(cs, k);
    }
  }

  lemma NewCounts(front: seq<ClassResource>, c: ClassResource, st: ClassState)
    requires ClassesHeld(front, st)
    ensures Counts(front + [c], |front|) <==> c.meta.name.Some? && c.meta.name.value !in st.classes
  {
    hide LastWithRank, LastToAnswer;
    CountsSnoc(front, c);
    CountsWithin(front);
  }

  lemma AddClassHeld(front: seq<ClassResource>, c: ClassResource, st: ClassState)
    requires ClassesHeld(front, st)
    ensures ClassesHeld(front + [c], AddClass(st, c))
  {
    hide DiagName, CompileClass, ClaimList, AnswersTo, LastWithRank, LastToAnswer, Counts, AddClaims, Unit;
    var cs, after := front + [c], AddClass(st, c);
    var isNew := c.meta.name.Some? && c.meta.name.value !in st.classes;
    NewCounts(front, c, st);
    assert forall q :: q in cs <==> q in front || q == c;
    if isNew {
      var name := c.meta.name.value;
      var d1 := PushIf(!Unit(c.minConfidence), st.diags,
                       Diag(Error, DataClassKind, DiagName(c.meta), MinConfidenceOutOfRange));
      var d2 := if c.rank in st.ranks
                then d1 + [Diag(Warning, DataClassKind, DiagName(c.meta), RankShared(c.rank, st.ranks[c.rank]))]
                else d1;
      AddClaimsSay(ClaimState(st.owners, d2), c, name, ClaimList(c, name), Diag(Error, ModelTier, "", MissingName));
    }
    forall rank, n ensures rank in after.ranks && after.ranks[rank] == n <==> LastWithRank(cs, rank, n) {
      RankSnoc(front, c, rank, n);
    }
    forall v, n ensures v in after.owners && after.owners[v] == n <==> LastToAnswer(cs, v, n) {
      AnswerSnoc(front, c, v, n);
      if isNew {
        ClaimListIs(c, c.meta.name.value, v);
      }
    }
  }

  lemma NotItsOwn(front: seq<ClassResource>, v: string, n: string)
    ensures LastToAnswer(front, v, n) ==> exists q :: q in front && q.meta.name == Some(n)
  {
    if LastToAnswer(front, v, n) {
      var j :| Counts(front, j) && front[j].meta.name == Some(n) && AnswersTo(front[j], v)
        && forall k :: j < k && Counts(front, k) ==> !AnswersTo(front[k], v);
      assert front[j] in front;
    }
  }

  lemma ClaimsSayWhat(front: seq<ClassResource>, c: ClassResource, st: ClassState, d: Diag, name: string)
    requires ClassesHeld(front, st) && c.meta.name == Some(name) && name !in st.classes
    ensures (exists v :: v in ClaimList(c, name) && v in st.owners && st.owners[v] != name
              && d == Diag(Error, DataClassKind, DiagName(c.meta), HeaderClaimed(v, st.owners[v]))) <==>
      d.level == Error && d.kind == DataClassKind && d.name == DiagName(c.meta) && d.rule.HeaderClaimed?
        && AnswersTo(c, d.rule.value) && LastToAnswer(front, d.rule.value, d.rule.other)
  {
    hide DiagName, ClaimList, AnswersTo, LastToAnswer, LastWithRank;
    forall v ensures v in ClaimList(c, name) <==> AnswersTo(c, v) {
      ClaimListIs(c, name, v);
    }
    forall v, n | LastToAnswer(front, v, n) ensures n != name {
      NotItsOwn(front, v, n);
    }
  }

  lemma AddClassSays(front: seq<ClassResource>, c: ClassResource, st: ClassState, d: Diag)
    requires ClassesHeld(front, st)
    ensures d in AddClass(st, c).diags <==> d in st.diags || ClassSays(front, c, d)
  {
    hide DiagName, CompileClass, ClaimList, AnswersTo, LastWithRank, LastToAnswer, AddClaims, IsNameOf, Lowered;
    DiagNameIs(c.meta, d.name);
    if c.meta.name.Some? && c.meta.name.value !in st.classes {
      var name := c.meta.name.value;
      var e1 := Diag(Error, DataClassKind, DiagName(c.meta), MinConfidenceOutOfRange);
      var d1 := PushIf(!Unit(c.minConfidence), st.diags, e1);
      var d2 := if c.rank in st.ranks
                then d1 + [Diag(Warning, DataClassKind, DiagName(c.meta), RankShared(c.rank, st.ranks[c.rank]))]
                else d1;
      AddClaimsSay(ClaimState(st.owners, d2), c, name, ClaimList(c, name), d);
      ClaimsSayWhat(front, c, st, d, name);
    }
  }

  ghost predicate SaidOfClasses(cs: seq<ClassResource>, d: Diag) {
    exists i :: 0 <= i < |cs| && ClassSays(cs[..i], cs[i], d)
  }

  lemma SaidOfClassesSnoc(front: seq<ClassResource>, c: ClassResource, d: Diag)
    ensures SaidOfClasses(front + [c], d) <==> SaidOfClasses(front, d) || ClassSays(front, c, d)
  {
    hide ClassSays;
    var cs := front + [c];
    assert cs[..|front|] == front && cs[|front|] == c;
    assert forall i :: 0 <= i < |front| ==> cs[..i] == front[..i] && cs[i] == front[i];
    if SaidOfClasses(front, d) {
      var i :| 0 <= i < |front| && ClassSays(front[..i], front[i], d);
      assert ClassSays(cs[..i], cs[i], d);
    }
    if ClassSays(front, c, d) {
      assert ClassSays(cs[..|front|], cs[|front|], d);
    }
  }

  lemma NoClassesHeld(ds: seq<Diag>)
    ensures ClassesHeld([], ClassState(map[], map[], map[], ds))
  {}

  lemma {:induction false} ClassPassHolds(cs: seq<ClassResource>, ds: seq<Diag>)
    ensures ClassesHeld(cs, ClassPass(cs, ds))
  {
    hide AddClass, ClassesHeld;
    if cs == [] {
      NoClassesHeld(ds);
    } else {
      var front, c := cs[..|cs| - 1], cs[|cs| - 1];
      assert cs == front + [c];
      ClassPassHolds(front, ds);
      AddClassHeld(front, c, ClassPass(front, ds));
    }
  }

  /** The class pass reports exactly what is wrong with each class, and the ranks that are shared. */
  lemma {:induction false} ClassReportIsExact(cs: seq<ClassResource>, ds: seq<Diag>, d: Diag)
    ensures d in ClassPass(cs, ds).diags <==> d in ds || SaidOfClasses(cs, d)
  {
    hide AddClass, ClassSays, ClassesHeld;
    if cs != [] {
      var front, c := cs[..|cs| - 1], cs[|cs| - 1];
      assert cs == front + [c];
      ClassReportIsExact(front, ds, d);
      ClassPassHolds(front, ds);
      AddClassSays(front, c, ClassPass(front, ds), d);
      SaidOfClassesSnoc(front, c, d);
    }
  }
}
