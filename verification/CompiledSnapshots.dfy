/**
 From compile to decide: what every compiled snapshot guarantees, and the engine's
 theorems on exactly those snapshots, without further hypotheses.
 */
module CompiledSnapshots {
  import opened Ordering
  import opened Snapshots
  import opened CompilerFacts
  import opened CompilerReferences
  import opened CompilerOrder
  import opened EngineFacts
  import opened EngineSafety
  import opened EngineExplain
  import opened EngineHints
  import C = Compiler
  import E = Engine
  import EngineSelection

  function KeyName(p: Policy): Option<string> {
    Some(p.key)
  }

  /** What the engine's theorems assume of a policy. */
  ghost predicate SoundPolicy(core: Core, p: Policy) {
    && ResolvedCandidates(core, p)
    && p.candidates != []
    && ConvexWeights(p.weights)
    && (p.fallbackTier.Some? ==> p.fallbackTier.value in core.tiers)
  }

  /** What the engine's theorems assume of a snapshot. */
  ghost predicate SoundCore(core: Core) {
    && WellKeyed(core)
    && HeadersUnambiguous(core)
    && (forall p | p in core.policies :: SoundPolicy(core, p))
    && NamedApart(KeyName, core.policies)
  }

  lemma CompiledTiersAreKeyed(tiers: map<string, Tier>, fx: map<string, real>, ts: seq<C.TierResource>)
    requires Holds(tiers, TierName, TierCompiler(fx), ts)
    ensures forall n | n in tiers :: tiers[n].name == n
  {
    hide C.ToMicroEur, C.ToReal;
    forall n | n in tiers ensures tiers[n].name == n {
      assert Taken(TierName, ts, Some(n));
      var i :| 0 <= i < |ts| && TierName(ts[i]) == Some(n);
    }
  }

  lemma CompiledClassIs(
    classes: map<string, DataClass>, cs: seq<C.ClassResource>, n: string)
    returns (c: C.ClassResource)
    requires Holds(classes, ClassName, ClassCompiler(), cs) && n in classes
    ensures c in cs && c.meta.name == Some(n) && classes[n] == C.CompileClass(c, n)
  {
    hide C.CompileClass;
    assert Taken(ClassName, cs, Some(n));
    var i :| 0 <= i < |cs| && ClassName(cs[i]) == Some(n);
    c := cs[i];
  }

  lemma CompiledClassesAreKeyed(classes: map<string, DataClass>, cs: seq<C.ClassResource>)
    requires Holds(classes, ClassName, ClassCompiler(), cs)
    ensures forall n | n in classes :: classes[n].name == n
  {
    hide Holds;
    forall n | n in classes ensures classes[n].name == n {
      var c := CompiledClassIs(classes, cs, n);
    }
  }

  /** A header a compiled class answers to is one of the values its resource claims. */
  lemma AnswersAreClaims(c: C.ClassResource, name: string, key: string)
    requires c.meta.name == Some(name)
    requires E.ClaimsHeader(C.CompileClass(c, name), key)
    ensures Lower(key) in Claims(c)
  {
    var values := C.ClaimList(c, name);
    if Lower(name) == Lower(key) {
      assert values[|values| - 1] == Lower(key);
    } else {
      var lowered := Map(Lower, c.headerValues);
      var i :| 0 <= i < |lowered| && lowered[i] == key;
      LowerIdempotent(c.headerValues[i]);
      assert values[i] == key == Lower(key);
    }
  }

  lemma CompiledHeadersAreUnambiguous(classes: map<string, DataClass>, cs: seq<C.ClassResource>, core: Core)
    requires Holds(classes, ClassName, ClassCompiler(), cs) && ClassesWF(cs) && core.dataClasses == classes
    ensures HeadersUnambiguous(core)
  {
    hide Holds, Claims, E.ClaimsHeader, C.CompileClass;
    forall a, b, key | a in classes.Values && b in classes.Values && E.ClaimsHeader(a, key) && E.ClaimsHeader(b, key)
      ensures a == b
    {
      var m :| m in classes && classes[m] == a;
      var n :| n in classes && classes[n] == b;
      var c := CompiledClassIs(classes, cs, m);
      var d := CompiledClassIs(classes, cs, n);
      AnswersAreClaims(c, m, key);
      AnswersAreClaims(d, n, key);
      assert !(Claims(c) !! Claims(d));
    }
  }

  lemma CompiledWeightsAreConvex(p: C.PolicyResource)
    requires C.WeightsOk(p.weights)
    ensures ConvexWeights(C.CompileWeights(p))
  {
    hide Normalised;
    if p.weights.Some? {
      var w := p.weights.value;
      NormalisedIsConvex(Weights(C.ToReal(w.cost), C.ToReal(w.quality), C.ToReal(w.latency)), p.mode);
    }
  }

  lemma CandidatesAreTiers(p: C.PolicyResource, ctx: C.Context)
    requires ctx.tierNs.Keys == ctx.tiers.Keys
    ensures forall n | n in C.CandidateSet(p, ctx) :: n in ctx.tiers
  {
    hide C.NsOf;
  }

  lemma CompiledPolicyIsSound(p: C.PolicyResource, ctx: C.Context, core: Core)
    requires C.PolicyValid(p, ctx) && ctx.tierNs.Keys == ctx.tiers.Keys && core.tiers == ctx.tiers
    ensures SoundPolicy(core, C.CompilePolicy(p, ctx))
  {
    hide C.CandidateSet, C.InNs, C.WeightsOk, C.CompileWeights, ConvexWeights, C.Unit, C.NonNegative, C.ToMicroEur,
      C.NsOf;
    CandidatesAreTiers(p, ctx);
    AscendingSound(C.CandidateSet(p, ctx));
    CompiledWeightsAreConvex(p);
    var n :| n in C.CandidateSet(p, ctx);
    assert n in Ascending(C.CandidateSet(p, ctx));
  }

  lemma SameKeys<T(!new), U, V>(
    m: map<string, U>, m': map<string, V>, name: T -> Option<string>, f: T -> U, g: T -> V, xs: seq<T>)
    requires Holds(m, name, f, xs) && Holds(m', name, g, xs)
    ensures m.Keys == m'.Keys
  {
    forall n ensures n in m <==> n in m' {
      HoldsTaken(m, name, f, xs, n);
      HoldsTaken(m', name, g, xs, n);
    }
  }

  lemma CompiledKeysAreApart(ps: seq<C.PolicyResource>, ctx: C.Context)
    requires NamedApart(PolicyName, ps)
    ensures NamedApart(KeyName, Map(PolicyCompiler(ctx), ps))
  {
    hide C.CompilePolicy, C.PolicyKey;
    var qs := Map(PolicyCompiler(ctx), ps);
    forall i | 0 <= i < |ps| ensures KeyName(qs[i]) == PolicyName(ps[i]) {
      KeyOfCompiled(ps[i], ctx);
      assert PolicyName(ps[i]).Some?;
    }
  }

  /** Every compiled snapshot meets the assumptions of the engine's theorems. */
  lemma CompiledIsSound(input: C.CompileInput)
    ensures C.Compile(input).core.Some? ==> SoundCore(C.Compile(input).core.value)
  {
    hide C.Compile, C.ContextOf, Holds, ProfilesWF, ClassesWF, RatesConsistent, TiersWF, SoundPolicy, SortBy,
      C.PolicyValid, C.CompilePolicy, HeadersUnambiguous, NamedApart;
    CompileIsExact(input);
    if C.Compile(input).core.Some? {
      var core, ctx := C.Compile(input).core.value, C.ContextOf(input);
      CompiledTiersAreKeyed(core.tiers, ctx.fx, input.tiers);
      CompiledClassesAreKeyed(core.dataClasses, input.dataClasses);
      CompiledHeadersAreUnambiguous(core.dataClasses, input.dataClasses, core);
      SameKeys(ctx.tiers, ctx.tierNs, TierName, TierCompiler(ctx.fx), TierNsOf(), input.tiers);
      var ps := Map(PolicyCompiler(ctx), input.policies);
      SortByPermutes(C.PolicyLe, ps);
      CompiledKeysAreApart(input.policies, ctx);
      NamedApartPermutes(KeyName, ps, core.policies);
      forall p | p in core.policies ensures SoundPolicy(core, p) {
        var i :| 0 <= i < |ps| && ps[i] == p;
        CompiledPolicyIsSound(input.policies[i], ctx, core);
      }
    }
  }

  // ---- the engine on compiled snapshots ----

  /** The lines with a score are exactly the ranked tiers. */
  lemma ScoredLines(
    predict: E.Predictor, core: Core, p: Policy, req: E.Request, f: E.Findings, dc: Option<DataClass>, best: string,
    c: E.Candidate)
    requires WellKeyed(core) && c.tier in p.candidates && Explained(predict, core, p, req, f, dc, best, c)
    ensures c.score.Some? ==>
      exists r :: r in FinalRanking(predict, core, p, req, f, dc) && c == E.RankedCandidate(best, r)
  {
    hide E.HardConstraintViolation, E.PassesFloor, E.Rank, E.Kept, E.Ranking, Round6, MicroToEur, E.ScoreTier,
      Contenders;
    if c.score.Some? {
      var s := E.ScoreTier(predict, p, req, f, core.tiers[c.tier]);
      var ss := Contenders(predict, core, p, req, f, dc);
      SurvivorContends(predict, core, p, req, f, dc, c.tier);
      KeptSound(p.qualityFloor, ss);
      RankingSound(p.weights, E.Kept(p.qualityFloor, ss));
      RankKeeps(p.weights, E.Kept(p.qualityFloor, ss), s);
      ScoreTierKeepsTier(predict, p, req, f, core.tiers[c.tier]);
      var r := E.Rank(p.weights, E.Kept(p.qualityFloor, ss), s);
      assert r in FinalRanking(predict, core, p, req, f, dc);
      assert c == E.RankedCandidate(best, r);
    }
  }

  /** What the explanation of a scored decision says, line by line. */
  ghost predicate Complete(
    predict: E.Predictor, core: Core, p: Policy, req: E.Request, f: E.Findings, dc: Option<DataClass>, e: E.Explanation)
  {
    && Map(TierOf, e.candidates) == p.candidates
    && e.selectedTier.Some? && e.selectedTier.value in p.candidates
    && e.estimatedCost.Some? && e.estimatedSavings.Some?
    && (forall c | c in e.candidates ::
          && Explained(predict, core, p, req, f, dc, e.selectedTier.value, c)
          && (c.selected <==> c.tier == e.selectedTier.value)
          && (c.selected ==> c.score.Some? && c.estimatedCost == e.estimatedCost)
          && (c.score.Some? ==> 0.0 <= c.score.value <= 1.0))
    && SavedAgainstDearest(e)
  }

  /** The savings are the cost of a dearest scored line minus the cost of the selected one. */
  ghost predicate SavedAgainstDearest(e: E.Explanation)
    requires e.estimatedCost.Some? && e.estimatedSavings.Some?
  {
    exists c :: c in e.candidates && c.score.Some? && c.estimatedCost.Some?
      && e.estimatedSavings.value == c.estimatedCost.value - e.estimatedCost.value
      && forall c' | c' in e.candidates && c'.score.Some? ::
        c'.estimatedCost.Some? && c'.estimatedCost.value <= c.estimatedCost.value
  }

  /**
   From compile to decide: on every compiled snapshot, whatever the request, findings and predictor, a ROUTE that
   is not a fallback explains every candidate exactly once, scores within the unit interval, and exact savings.
   */
  lemma CompiledRouteIsExplained(
    predict: E.Predictor, input: C.CompileInput, hash: string, req: E.Request, f: E.Findings)
    requires C.Compile(input).core.Some?
    ensures var snap := Snapshot(hash, C.Compile(input).core.value);
      var e := E.Decide(predict, snap, req, f);
      e.outcome == E.Route && !e.fallback ==>
        && E.Selection(snap, req).0.Some?
        && Complete(predict, snap.core, E.Selection(snap, req).0.value, req, f, E.Resolved(snap, req, f), e)
  {
    hide C.Compile, E.Judge, E.Selection, E.Resolved, E.HeaderNotes, SoundPolicy, WellKeyed, HeadersUnambiguous,
      ReachesScoring, Complete;
    CompiledIsSound(input);
    var snap := Snapshot(hash, C.Compile(input).core.value);
    if E.Selection(snap, req).0.Some? && E.RoutesAlias(E.Selection(snap, req).0.value, req) {
      var p, dc := E.Selection(snap, req).0.value, E.Resolved(snap, req, f);
      var d := E.Prepared(snap, req, f, p);
      SelectedIsPolicy(snap, req);
      RouteWasScored(predict, snap.core, p, req, f, dc, d);
      if ReachesScoring(snap.core, p, req, f, dc) {
        ScoredIsComplete(predict, snap.core, p, req, f, dc, d);
      }
    }
  }

  lemma RankedScore(
    predict: E.Predictor, core: Core, p: Policy, req: E.Request, f: E.Findings, dc: Option<DataClass>, r: E.Ranked)
    requires ConvexWeights(p.weights) && r in FinalRanking(predict, core, p, req, f, dc)
    ensures 0.0 <= r.score <= 1.0
  {
    hide E.Rank, E.Kept, E.Ranking, Contenders;
    var kept := E.Kept(p.qualityFloor, Contenders(predict, core, p, req, f, dc));
    RankingSound(p.weights, kept);
    ScoreIsProportion(p.weights, kept, r.scored);
  }

  /** A line with a score, and the ranked tier it describes. */
  ghost predicate ScoredLine(
    predict: E.Predictor, core: Core, p: Policy, req: E.Request, f: E.Findings, dc: Option<DataClass>, best: string,
    c: E.Candidate)
  {
    exists r :: r in FinalRanking(predict, core, p, req, f, dc) && c == E.RankedCandidate(best, r)
  }

  lemma RankedIsListed(
    predict: E.Predictor, core: Core, p: Policy, req: E.Request, f: E.Findings, dc: Option<DataClass>,
    d: E.Explanation, r: E.Ranked)
    requires ReachesScoring(core, p, req, f, dc) && d.candidates == []
            && r in FinalRanking(predict, core, p, req, f, dc)
    ensures var e := E.Judge(predict, core, p, req, f, dc, d);
      e.selectedTier.Some? && E.RankedCandidate(e.selectedTier.value, r) in e.candidates
  {
    hide E.Judge, ReachesScoring, FinalRanking, E.RankedCandidate, E.Eliminations, E.FloorDropped, E.FloorCandidate,
      SortBy;
    ScoringSelects(predict, core, p, req, f, dc, d);
    JudgeLists(predict, core, p, req, f, dc, d);
    var ranked := FinalRanking(predict, core, p, req, f, dc);
    var best := ranked[0].scored.tier.name;
    SortByPermutes(E.CandidateLe, Listed(predict, core, p, req, f, dc, best));
    var i :| 0 <= i < |ranked| && ranked[i] == r;
    assert Map(E.Explaining(best), ranked)[i] == E.RankedCandidate(best, r);
    assert E.RankedCandidate(best, r) in Listed(predict, core, p, req, f, dc, best);
  }

  lemma DearestLine(
    predict: E.Predictor, core: Core, p: Policy, req: E.Request, f: E.Findings, dc: Option<DataClass>, d: E.Explanation)
    requires ReachesScoring(core, p, req, f, dc) && d.candidates == []
    requires var e := E.Judge(predict, core, p, req, f, dc, d);
      && e.selectedTier.Some? && e.estimatedCost.Some? && e.estimatedSavings.Some?
      && forall c | c in e.candidates && c.score.Some? ::
        ScoredLine(predict, core, p, req, f, dc, e.selectedTier.value, c)
    ensures SavedAgainstDearest(E.Judge(predict, core, p, req, f, dc, d))
  {
    hide E.Judge, ReachesScoring, FinalRanking, Round6;
    var e := E.Judge(predict, core, p, req, f, dc, d);
    var best := e.selectedTier.value;
    SavingsAreExact(predict, core, p, req, f, dc, d);
    var ranked := FinalRanking(predict, core, p, req, f, dc);
    var top :| top in ranked && (forall r | r in ranked :: r.scored.cost <= top.scored.cost)
      && e.estimatedSavings.value == MicroToEur(top.scored.cost) - e.estimatedCost.value;
    RankedIsListed(predict, core, p, req, f, dc, d, top);
    var c := E.RankedCandidate(best, top);
    forall c' | c' in e.candidates && c'.score.Some?
      ensures c'.estimatedCost.Some? && c'.estimatedCost.value <= c.estimatedCost.value
    {
      assert ScoredLine(predict, core, p, req, f, dc, best, c');
      var r :| r in ranked && c' == E.RankedCandidate(best, r);
    }
  }

  lemma ScoredIsComplete(
    predict: E.Predictor, core: Core, p: Policy, req: E.Request, f: E.Findings, dc: Option<DataClass>, d: E.Explanation)
    requires WellKeyed(core) && SoundPolicy(core, p) && ReachesScoring(core, p, req, f, dc) && d.candidates == []
    ensures Complete(predict, core, p, req, f, dc, E.Judge(predict, core, p, req, f, dc, d))
  {
    hide E.Judge, WellKeyed, ReachesScoring, Explained, ResolvedCandidates, ConvexWeights, FinalRanking, MicroToEur,
      Round6, SavedAgainstDearest;
    ExplanationIsComplete(predict, core, p, req, f, dc, d);
    SavingsAreExact(predict, core, p, req, f, dc, d);
    var e := E.Judge(predict, core, p, req, f, dc, d);
    var best := e.selectedTier.value;
    forall c | c in e.candidates && c.score.Some?
      ensures 0.0 <= c.score.value <= 1.0 && ScoredLine(predict, core, p, req, f, dc, best, c)
    {
      var i :| 0 <= i < |e.candidates| && e.candidates[i] == c;
      assert Map(TierOf, e.candidates)[i] == c.tier;
      ScoredLines(predict, core, p, req, f, dc, best, c);
      var r :| r in FinalRanking(predict, core, p, req, f, dc) && c == E.RankedCandidate(best, r);
      RankedScore(predict, core, p, req, f, dc, r);
    }
    DearestLine(predict, core, p, req, f, dc, d);
    forall c | c in e.candidates && c.selected ensures c.score.Some? && c.estimatedCost == e.estimatedCost {
      SelectedCost(predict, core, p, req, f, dc, d, c);
    }
  }

  /** The selected line is a scored one, and its cost is the decision's. */
  lemma SelectedCost(
    predict: E.Predictor, core: Core, p: Policy, req: E.Request, f: E.Findings, dc: Option<DataClass>,
    d: E.Explanation, c: E.Candidate)
    requires WellKeyed(core) && ReachesScoring(core, p, req, f, dc) && d.candidates == []
    requires var e := E.Judge(predict, core, p, req, f, dc, d);
      c in e.candidates && e.selectedTier.Some? && c.tier == e.selectedTier.value && c.tier in p.candidates
      && Explained(predict, core, p, req, f, dc, e.selectedTier.value, c)
    ensures c.score.Some? && c.estimatedCost == E.Judge(predict, core, p, req, f, dc, d).estimatedCost
  {
    hide E.Judge, WellKeyed, ReachesScoring, E.HardConstraintViolation, E.PassesFloor, E.Kept, E.Ranking, Contenders,
      MicroToEur, Round6, E.PredictedQuality, EstimateCost, E.RawScore;
    ScoringSelects(predict, core, p, req, f, dc, d);
    JudgeLists(predict, core, p, req, f, dc, d);
    BestIsRanked(predict, core, p, req, f, dc, FinalRanking(predict, core, p, req, f, dc)[0]);
  }

  /** No surviving candidate is strictly cheaper than the selected tier without being worse in quality or latency. */
  ghost predicate Undominated(
    predict: E.Predictor, core: Core, p: Policy, req: E.Request, f: E.Findings, dc: Option<DataClass>,
    selected: Option<string>, n: string)
  {
    && selected.Some? && selected.value in core.tiers
    && (n in p.candidates && E.Survives(core, n, p, req, f, dc) ==>
          && n in core.tiers
          && var s := E.ScoreTier(predict, p, req, f, core.tiers[n]);
             var best := E.ScoreTier(predict, p, req, f, core.tiers[selected.value]);
             !(EngineSelection.NoWorse(s, best) && s.cost < best.cost))
  }

  lemma ScoredIsUndominated(
    predict: E.Predictor, core: Core, p: Policy, req: E.Request, f: E.Findings, dc: Option<DataClass>,
    d: E.Explanation, n: string)
    requires WellKeyed(core) && ReachesScoring(core, p, req, f, dc) && ConvexWeights(p.weights)
    requires ResolvedCandidates(core, p) && d.candidates == []
    ensures Undominated(predict, core, p, req, f, dc, E.Judge(predict, core, p, req, f, dc, d).selectedTier, n)
  {
    hide E.Judge, ReachesScoring, E.ScoreTier, E.HardConstraintViolation, EngineSelection.NoWorse;
    ExplanationIsComplete(predict, core, p, req, f, dc, d);
    if n in p.candidates && E.Survives(core, n, p, req, f, dc) {
      EngineSelection.SelectionUndominated(predict, core, p, req, f, dc, d, n);
    }
  }

  /** On every compiled snapshot the selected tier is undominated among the tiers that survive the hard constraints. */
  lemma CompiledSelectionIsUndominated(
    predict: E.Predictor, input: C.CompileInput, hash: string, req: E.Request, f: E.Findings, n: string)
    requires C.Compile(input).core.Some?
    ensures var snap := Snapshot(hash, C.Compile(input).core.value);
      var e := E.Decide(predict, snap, req, f);
      e.outcome == E.Route && !e.fallback ==>
        && E.Selection(snap, req).0.Some?
        && Undominated(predict, snap.core, E.Selection(snap, req).0.value, req, f, E.Resolved(snap, req, f),
                       e.selectedTier, n)
  {
    hide C.Compile, E.Judge, E.Selection, E.Resolved, E.HeaderNotes, WellKeyed, ResolvedCandidates,
      HeadersUnambiguous, ReachesScoring, ConvexWeights, Undominated;
    CompiledIsSound(input);
    var snap := Snapshot(hash, C.Compile(input).core.value);
    if E.Selection(snap, req).0.Some? && E.RoutesAlias(E.Selection(snap, req).0.value, req) {
      var p, dc := E.Selection(snap, req).0.value, E.Resolved(snap, req, f);
      var d := E.Prepared(snap, req, f, p);
      SelectedIsPolicy(snap, req);
      RouteWasScored(predict, snap.core, p, req, f, dc, d);
      if ReachesScoring(snap.core, p, req, f, dc) {
        ScoredIsUndominated(predict, snap.core, p, req, f, dc, d, n);
      }
    }
  }

  /** On every compiled snapshot the note about a relaxed fallback is unreachable. */
  lemma CompiledNeverRelaxes(predict: E.Predictor, input: C.CompileInput, hash: string, req: E.Request, f: E.Findings)
    requires C.Compile(input).core.Some?
    ensures var e := E.Decide(predict, Snapshot(hash, C.Compile(input).core.value), req, f);
      forall note | note in e.notes :: !note.FallbackRelaxed?
  {
    hide C.Compile, E.Decide, SoundPolicy, HeadersUnambiguous, WellKeyed;
    CompiledIsSound(input);
    RelaxationNoteIsUnreachable(predict, Snapshot(hash, C.Compile(input).core.value), req, f);
  }

  /** On every compiled snapshot hints only restrict a policy exactly when its candidates serve downward in rank. */
  lemma CompiledHintsOnlyRestrict(input: C.CompileInput, p: Policy)
    requires C.Compile(input).core.Some? && PlainNames(C.Compile(input).core.value)
    ensures HintsOnlyRestrict(C.Compile(input).core.value, p) <==> Restrictive(C.Compile(input).core.value, p)
  {
    hide C.Compile, SoundPolicy, HeadersUnambiguous, WellKeyed, HintsOnlyRestrict, Restrictive;
    CompiledIsSound(input);
    HintsOnlyRestrictExactly(C.Compile(input).core.value, p);
  }
}
