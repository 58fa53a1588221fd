/**
 Untrusted hints. The effective data class is a maximum over ranks, so a hint never
 lowers it; whether a hint can nevertheless loosen a decision depends on the classes,
 and the theorems say exactly how.
 */
module EngineHints {
  import opened Ordering
  import opened Snapshots
  import opened Engine
  import opened EngineFacts
  import opened EngineSafety

  // ---- the resolved class is a maximum ----

  predicate IsConsidered(classes: map<string, DataClass>, headers: seq<string>, f: Findings, dc: DataClass) {
    (exists h | h in headers :: dc in HeaderClasses(classes, h)) || dc in Inferred(classes, f)
  }

  /** `r` is the best of `start` and the classes in `dcs`. */
  ghost predicate BestOf(r: Option<DataClass>, start: Option<DataClass>, dcs: seq<DataClass>) {
    && (r.None? <==> start.None? && dcs == [])
    && (r.Some? ==> r == start || r.value in dcs)
    && (r.Some? && start.Some? ==> start.value.rank <= r.value.rank)
    && (r.Some? ==> forall dc | dc in dcs :: dc.rank <= r.value.rank)
  }

  lemma {:induction false} ConsiderAllIsBest(start: Option<DataClass>, dcs: seq<DataClass>)
    ensures BestOf(ConsiderAll(start, dcs), start, dcs)
  {
    if dcs != [] {
      var front, last := dcs[..|dcs| - 1], dcs[|dcs| - 1];
      ConsiderAllIsBest(start, front);
      assert dcs == front + [last];
    }
  }

  /** `r` is one of the classes of the headers and has the highest rank among them. */
  ghost predicate BestHeader(r: Option<DataClass>, classes: map<string, DataClass>, headers: seq<string>) {
    && (r.Some? ==> exists h :: h in headers && r.value in HeaderClasses(classes, h))
    && (forall h | h in headers :: Covers(r, HeaderClasses(classes, h)))
  }

  ghost predicate Covers(r: Option<DataClass>, dcs: seq<DataClass>) {
    forall dc | dc in dcs :: r.Some? && dc.rank <= r.value.rank
  }

  lemma {:induction false} ConsiderHeadersIsBest(classes: map<string, DataClass>, headers: seq<string>)
    ensures BestHeader(ConsiderHeaders(classes, headers), classes, headers)
  {
    hide HeaderClasses, ConsiderAll;
    if headers != [] {
      var front, last := headers[..|headers| - 1], headers[|headers| - 1];
      ConsiderHeadersIsBest(classes, front);
      var start := ConsiderHeaders(classes, front);
      ConsiderAllIsBest(start, HeaderClasses(classes, last));
      var r := ConsiderHeaders(classes, headers);
      assert headers == front + [last];
      if r.Some? {
        if r == start {
          var h :| h in front && r.value in HeaderClasses(classes, h);
          assert h in headers;
        } else {
          assert last in headers;
        }
      }
      forall h | h in headers ensures Covers(r, HeaderClasses(classes, h)) {
        assert h in front || h == last;
        assert h in front ==> Covers(start, HeaderClasses(classes, h));
      }
    }
  }

  ghost predicate Resolves(r: Option<DataClass>, classes: map<string, DataClass>, headers: seq<string>, f: Findings) {
    && (r.Some? ==> IsConsidered(classes, headers, f, r.value))
    && (forall dc | IsConsidered(classes, headers, f, dc) :: r.Some? && dc.rank <= r.value.rank)
  }

  /** The resolved class is a considered class of maximal rank, and there is none only when nothing is considered. */
  lemma ResolvedIsMaximal(classes: map<string, DataClass>, headers: seq<string>, f: Findings)
    ensures Resolves(ResolveDataClass(classes, headers, f), classes, headers, f)
  {
    hide HeaderClasses, ConsiderAll, Inferred, ConsiderHeaders;
    var start := ConsiderHeaders(classes, headers);
    ConsiderHeadersIsBest(classes, headers);
    ConsiderAllIsBest(start, Inferred(classes, f));
    var r := ResolveDataClass(classes, headers, f);
    if r.Some? && r == start {
      var h :| h in headers && r.value in HeaderClasses(classes, h);
    }
    forall dc | IsConsidered(classes, headers, f, dc) ensures r.Some? && dc.rank <= r.value.rank {
      if h :| h in headers && dc in HeaderClasses(classes, h) {
        assert Covers(start, HeaderClasses(classes, h));
      }
    }
  }

  function RankOf(dc: Option<DataClass>): int {
    if dc.None? then -1 else dc.value.rank
  }

  /** Dropping data-class hints never raises the rank of the resolved class. */
  lemma FewerHintsNeverRaiseTheRank(
    classes: map<string, DataClass>, headers: seq<string>, fewer: seq<string>, f: Findings)
    requires forall h | h in fewer :: h in headers
    ensures RankOf(ResolveDataClass(classes, fewer, f)) <= RankOf(ResolveDataClass(classes, headers, f))
  {
    hide HeaderClasses, Inferred, ResolveDataClass;
    ResolvedIsMaximal(classes, headers, f);
    ResolvedIsMaximal(classes, fewer, f);
    var r := ResolveDataClass(classes, fewer, f);
    if r.Some? {
      assert IsConsidered(classes, headers, f, r.value);
    }
  }

  ghost predicate DistinctRanks(classes: map<string, DataClass>) {
    forall a, b | a in classes.Values && b in classes.Values && a.rank == b.rank :: a == b
  }

  lemma ConsideredAreClasses(classes: map<string, DataClass>, headers: seq<string>, f: Findings)
    ensures forall dc | IsConsidered(classes, headers, f, dc) :: dc in classes.Values
  {
    forall dc | IsConsidered(classes, headers, f, dc) ensures dc in classes.Values {
      if h :| h in headers && dc in HeaderClasses(classes, h) {
        FilterKeeps(Claiming(HeaderKey(h)), ClassesInOrder(classes));
      } else {
        FilterKeeps(PiiInferring(f), ClassesInOrder(classes));
      }
    }
  }

  /**
   With distinct ranks the resolved class is determined by which headers are present, not by their order or number.
   */
  lemma HeaderOrderIsIrrelevant(
    classes: map<string, DataClass>, headers: seq<string>, headers': seq<string>, f: Findings)
    requires DistinctRanks(classes)
    requires forall h :: h in headers <==> h in headers'
    ensures ResolveDataClass(classes, headers, f) == ResolveDataClass(classes, headers', f)
  {
    hide HeaderClasses, Inferred, ResolveDataClass;
    ResolvedIsMaximal(classes, headers, f);
    ResolvedIsMaximal(classes, headers', f);
    ConsideredAreClasses(classes, headers, f);
    assert forall dc :: IsConsidered(classes, headers, f, dc) <==> IsConsidered(classes, headers', f, dc);
    var a, b := ResolveDataClass(classes, headers, f), ResolveDataClass(classes, headers', f);
    if a.Some? {
      assert IsConsidered(classes, headers', f, a.value);
    }
    if b.Some? {
      assert IsConsidered(classes, headers, f, b.value);
    }
  }

  // ---- when hints only restrict ----

  predicate Serves(t: Tier, dc: DataClass) {
    DataClassViolation(t, dc).None?
  }

  /** A tier that may serve a class may serve every class ranked no higher. */
  ghost predicate RanksRestrict(core: Core, t: Tier) {
    forall a, b | a in core.dataClasses.Values && b in core.dataClasses.Values && a.rank <= b.rank && Serves(t, b) ::
      Serves(t, a)
  }

  /** The condition on a snapshot and policy under which no data-class hint can loosen a decision. */
  ghost predicate Restrictive(core: Core, p: Policy) {
    p.respectDataClass ==>
      forall n | n in p.candidates && n in core.tiers && p.requireCapabilities <= core.tiers[n].capabilities ::
        RanksRestrict(core, core.tiers[n])
  }

  /** A candidate survives with the hints of the request but not with fewer of them. */
  predicate Unlocks(core: Core, p: Policy, req: Request, fewer: seq<string>, f: Findings, n: string) {
    && n in p.candidates
    && Survives(core, n, p, req, f, ResolveDataClass(core.dataClasses, req.hints.dataClasses, f))
    && !Survives(core, n, p, req, f, ResolveDataClass(core.dataClasses, fewer, f))
  }

  ghost predicate HintsOnlyRestrict(core: Core, p: Policy) {
    forall req: Request, fewer: seq<string>, f, n | (forall h | h in fewer :: h in req.hints.dataClasses) ::
      !Unlocks(core, p, req, fewer, f, n)
  }

  lemma ClassDecides(t: Tier, p: Policy, req: Request, f: Findings, dc: Option<DataClass>, dc': Option<DataClass>)
    requires PolicyClassViolation(t, p, dc').None?
    ensures HardConstraintViolation(t, p, req, f, dc).None? ==> HardConstraintViolation(t, p, req, f, dc').None?
    ensures RequestFactViolation(t, p, req, f, dc).None? ==> RequestFactViolation(t, p, req, f, dc').None?
  {
    hide EstimateCost, PolicyClassViolation;
  }

  lemma HardImpliesClass(t: Tier, p: Policy, req: Request, f: Findings, dc: Option<DataClass>)
    ensures HardConstraintViolation(t, p, req, f, dc).None? ==>
      PolicyClassViolation(t, p, dc).None? && p.requireCapabilities <= t.capabilities
    ensures RequestFactViolation(t, p, req, f, dc).None? ==>
      PolicyClassViolation(t, p, dc).None? && p.requireCapabilities <= t.capabilities
  {
    hide EstimateCost, PolicyClassViolation;
  }

  /** Under the condition a tier that serves the hinted class also serves the class resolved from fewer hints. */
  lemma LowerClassServed(core: Core, p: Policy, t: Tier, headers: seq<string>, fewer: seq<string>, f: Findings)
    requires p.respectDataClass ==> RanksRestrict(core, t)
    requires forall h | h in fewer :: h in headers
    requires PolicyClassViolation(t, p, ResolveDataClass(core.dataClasses, headers, f)).None?
    ensures PolicyClassViolation(t, p, ResolveDataClass(core.dataClasses, fewer, f)).None?
  {
    hide HeaderClasses, Inferred, ResolveDataClass, DataClassViolation;
    FewerHintsNeverRaiseTheRank(core.dataClasses, headers, fewer, f);
    ResolvedIsMaximal(core.dataClasses, headers, f);
    ResolvedIsMaximal(core.dataClasses, fewer, f);
    ConsideredAreClasses(core.dataClasses, headers, f);
    ConsideredAreClasses(core.dataClasses, fewer, f);
    var b, a := ResolveDataClass(core.dataClasses, headers, f), ResolveDataClass(core.dataClasses, fewer, f);
    if p.respectDataClass && a.Some? && b.Some? {
      assert Serves(t, b.value);
    }
  }

  lemma RestrictiveSuffices(core: Core, p: Policy)
    requires Restrictive(core, p)
    ensures HintsOnlyRestrict(core, p)
  {
    hide HardConstraintViolation, PolicyClassViolation, ResolveDataClass, RanksRestrict;
    forall req: Request, fewer: seq<string>, f, n | (forall h | h in fewer :: h in req.hints.dataClasses)
      && Unlocks(core, p, req, fewer, f, n)
      ensures false
    {
      var t := core.tiers[n];
      var b := ResolveDataClass(core.dataClasses, req.hints.dataClasses, f);
      HardImpliesClass(t, p, req, f, b);
      LowerClassServed(core, p, t, req.hints.dataClasses, fewer, f);
      ClassDecides(t, p, req, f, b, ResolveDataClass(core.dataClasses, fewer, f));
    }
  }

  // ---- the condition is necessary ----

  /** No two classes claim the same header value, which the compiler checks. */
  ghost predicate HeadersUnambiguous(core: Core) {
    forall a, b, key | a in core.dataClasses.Values && b in core.dataClasses.Values && ClaimsHeader(a, key)
      && ClaimsHeader(b, key) :: a == b
  }

  /** Class names without surrounding white space, as Kubernetes requires of names. */
  ghost predicate PlainNames(core: Core) {
    forall dc | dc in core.dataClasses.Values :: Trim(dc.name) == dc.name
  }

  lemma LowerIdempotent(s: string)
    ensures Lower(Lower(s)) == Lower(s)
  {}

  lemma {:induction false} AllSame(xs: seq<DataClass>, dc: DataClass)
    requires xs != [] && forall x | x in xs :: x == dc
    ensures ConsiderAll(None, xs) == Some(dc)
  {
    ConsiderAllIsBest(None, xs);
  }

  /** The findings that infer a class and nothing else. */
  function Labelled(dc: DataClass): Findings {
    Findings(None, None, None, {}, map[], Some(dc.name), [])
  }

  /** A request without tools or tokens that names a class in its header. */
  function Hinting(dc: DataClass): Request {
    Request(None, None, "", "", false, 0, 0, Hints([dc.name], None, false))
  }

  /** Findings that infer this class and no other, whatever else they say. */
  predicate Infers(f: Findings, dc: DataClass) {
    f.inferredDataClass == Some(dc.name) && f.piiEntities == {}
  }

  lemma LabelInfers(core: Core, a: DataClass, f: Findings)
    requires WellKeyed(core) && a in core.dataClasses.Values && Infers(f, a)
    ensures Inferred(core.dataClasses, f) == [a]
  {
    NoPii(ClassesInOrder(core.dataClasses), f);
  }

  lemma {:induction false} NoPii(dcs: seq<DataClass>, f: Findings)
    requires f.piiEntities == {}
    ensures Filter(PiiInferring(f), dcs) == []
  {
    if dcs != [] {
      NoPii(dcs[..|dcs| - 1], f);
    }
  }

  lemma HintNames(core: Core, b: DataClass)
    requires HeadersUnambiguous(core) && PlainNames(core) && b in core.dataClasses.Values
    ensures ConsiderHeaders(core.dataClasses, [b.name]) == Some(b)
  {
    hide Trim, Lower;
    var key := HeaderKey(b.name);
    LowerIdempotent(b.name);
    assert ClaimsHeader(b, key);
    var cs := HeaderClasses(core.dataClasses, b.name);
    FilterKeeps(Claiming(key), ClassesInOrder(core.dataClasses));
    assert b in cs;
    AllSame(cs, b);
    assert [b.name][..0] == [];
    assert ConsiderHeaders(core.dataClasses, []) == None;
  }

  lemma HintedAndUnhinted(core: Core, a: DataClass, b: DataClass, f: Findings)
    requires WellKeyed(core) && HeadersUnambiguous(core) && PlainNames(core) && Infers(f, a)
    requires a in core.dataClasses.Values && b in core.dataClasses.Values && a.rank <= b.rank
    ensures ResolveDataClass(core.dataClasses, [b.name], f) == Some(b)
    ensures ResolveDataClass(core.dataClasses, [], f) == Some(a)
  {
    hide HeaderClasses, Inferred, WellKeyed, HeadersUnambiguous, PlainNames;
    LabelInfers(core, a, f);
    HintNames(core, b);
    assert [a][..0] == [];
    assert ConsiderAll(Some(b), []) == Some(b) && ConsiderAll(None, []) == None;
  }

  lemma BareRequestSurvives(t: Tier, p: Policy, dc: DataClass, f: Findings)
    requires f.riskScore.None? && p.requireCapabilities <= t.capabilities
    ensures HardConstraintViolation(t, p, Hinting(dc), f, Some(dc)).None? <==> (p.respectDataClass ==> Serves(t, dc))
  {
    assert TokenCost(t, 0, 0) == 0;
    assert EstimateCost(t, 0, 0) == 0;
  }

  lemma RestrictiveIsNecessary(core: Core, p: Policy)
    requires WellKeyed(core) && HeadersUnambiguous(core) && PlainNames(core)
    requires HintsOnlyRestrict(core, p)
    ensures Restrictive(core, p)
  {
    hide HardConstraintViolation, DataClassViolation, ResolveDataClass, WellKeyed, HeadersUnambiguous, PlainNames;
    if p.respectDataClass {
      forall n, a, b | n in p.candidates && n in core.tiers && p.requireCapabilities <= core.tiers[n].capabilities
                    && a in core.dataClasses.Values && b in core.dataClasses.Values && a.rank <= b.rank
                      && Serves(core.tiers[n], b)
        ensures Serves(core.tiers[n], a)
      {
        HintedAndUnhinted(core, a, b, Labelled(a));
        BareRequestSurvives(core.tiers[n], p, b, Labelled(a));
        assert Hinting(b).hints.dataClasses == [b.name];
        assert !Unlocks(core, p, Hinting(b), [], Labelled(a), n);
        UnhintedSurvives(core.tiers[n], p, a, b);
      }
    }
  }

  lemma UnhintedSurvives(t: Tier, p: Policy, a: DataClass, b: DataClass)
    requires p.respectDataClass && HardConstraintViolation(t, p, Hinting(b), Labelled(a), Some(a)).None?
    ensures Serves(t, a)
  {
    hide EstimateCost;
  }

  /**
   Exactly when data-class hints can only shrink the set of survivors, for every request, findings and choice
   of hints to drop: every candidate that could be routed to serves, with a class, all classes ranked no higher.
   */
  lemma HintsOnlyRestrictExactly(core: Core, p: Policy)
    requires WellKeyed(core) && HeadersUnambiguous(core) && PlainNames(core)
    ensures HintsOnlyRestrict(core, p) <==> Restrictive(core, p)
  {
    if Restrictive(core, p) {
      RestrictiveSuffices(core, p);
    }
    if HintsOnlyRestrict(core, p) {
      RestrictiveIsNecessary(core, p);
    }
  }

  // ---- policy hints ----

  lemma SelectedIsPolicy(snap: Snapshot, req: Request)
    ensures Selection(snap, req).0.Some? ==> Selection(snap, req).0.value in snap.core.policies
  {
    hide ScopeMatches;
    FilterKeeps(InScope(req), snap.core.policies);
  }

  /** A policy hint is honoured only within the matching policies, and only towards the winner or an overridable one. */
  lemma PolicyHintIsRestricted(snap: Snapshot, req: Request)
    requires Selection(snap, req).0.Some?
    ensures var p := Selection(snap, req).0.value; var matching := Matching(snap.core.policies, req);
      && p in matching
      && (p != matching[0] ==>
            req.hints.policy.Some? && Named(p, req.hints.policy.value) && (p.overridable || p.key == matching[0].key))
  {
    hide ScopeMatches;
  }

  // ---- a sufficient structural condition, and a world where it fails ----

  /** Constraints that only tighten as the rank rises. */
  ghost predicate ConstraintsTighten(a: DataClass, b: DataClass) {
    && (a.requireJurisdiction != {} ==> b.requireJurisdiction != {} && b.requireJurisdiction <= a.requireJurisdiction)
    && (a.forbidCloudActExposed ==> b.forbidCloudActExposed)
    && (a.requireOperatorControl != {} ==>
          b.requireOperatorControl != {} && b.requireOperatorControl <= a.requireOperatorControl)
    && a.forbidCapabilities <= b.forbidCapabilities
  }

  lemma TighteningConstraintsRestrict(core: Core, t: Tier)
    requires forall a, b | a in core.dataClasses.Values && b in core.dataClasses.Values && a.rank <= b.rank ::
      ConstraintsTighten(a, b) && (b.name in t.allowedDataClasses ==> a.name in t.allowedDataClasses)
    ensures RanksRestrict(core, t)
  {
    forall a, b | a in core.dataClasses.Values && b in core.dataClasses.Values && a.rank <= b.rank && Serves(t, b)
      ensures Serves(t, a)
    {
      assert ConstraintsTighten(a, b);
      assert t.capabilities * a.forbidCapabilities <= t.capabilities * b.forbidCapabilities;
    }
  }

  function TwoClasses(): Core {
    var low := DataClass("a", 0, {}, {}, 0.0, {}, false, {}, {});
    var high := DataClass("b", 1, {}, {}, 0.0, {}, false, {}, {});
    var t := Tier("t", "m", {}, 1, 0, 0, 0.0, map[], 0, Eu, EuEntity, false, {"b"}, 1.0, true, map[]);
    Core(map["t" := t], map["a" := low, "b" := high], [], map[])
  }

  function TwoClassPolicy(): Policy {
    Policy("p", "", "p", 0, Match([], [], [], ["*"]), ["t"], true, None, {}, None, Balanced, None,
           ModeWeights(Balanced),
           LearnedRouter(false, None, 0.0), false, map[], None, true, false)
  }

  /** Without the condition a hint can unlock a tier: one that serves the sensitive class but not the ordinary one. */
  lemma HintCanUnlock()
    ensures var core := TwoClasses();
      WellKeyed(core) && HeadersUnambiguous(core) && PlainNames(core) && !HintsOnlyRestrict(core, TwoClassPolicy())
  {
    var core, p := TwoClasses(), TwoClassPolicy();
    var low, high := core.dataClasses["a"], core.dataClasses["b"];
    assert Lower("a")[0] == 'a' && Lower("b")[0] == 'b';
    assert core.dataClasses.Values == {low, high};
    assert Serves(core.tiers["t"], high) && !Serves(core.tiers["t"], low);
    assert "t" in p.candidates;
    assert !RanksRestrict(core, core.tiers["t"]);
    HintsOnlyRestrictExactly(core, p);
  }
}
