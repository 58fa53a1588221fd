/**
 The decision pipeline in the form the engine runs it: one `Decision` record
 that every step updates in place. Each step is proved against the function of
 Engine.dfy that says what it computes.
 */
module EngineState {
  import opened Ordering
  import opened Snapshots
  import opened Engine

  class Decision {
    var outcome: Outcome
    var policy: Option<string>
    const requestedModel: string
    var selectedTier: Option<string>
    var gatewayModel: Option<string>
    var reasoning: Option<ReasoningLevel>
    var dataClass: Option<string>
    var candidates: seq<Candidate>
    var estimatedCost: Option<real>
    var estimatedSavings: Option<real>
    const snapshotHash: string
    var reason: Option<Reason>
    var fallback: bool
    var degraded: seq<string>
    var notes: seq<Note>
    const dryRun: bool

    /** The record as a value. */
    function View(): Explanation
      reads this
    {
      Explanation(outcome, policy, requestedModel, selectedTier, gatewayModel, reasoning, dataClass, candidates,
                  estimatedCost, estimatedSavings, snapshotHash, reason, fallback, degraded, notes, dryRun)
    }

    constructor (req: Request, f: Findings, hash: string)
      ensures View() == Start(req, f, hash)
    {
      outcome, policy, requestedModel := PassThrough, None, req.requestedModel;
      selectedTier, gatewayModel, reasoning, dataClass := None, None, None, None;
      candidates, estimatedCost, estimatedSavings := [], None, None;
      snapshotHash, reason, fallback := hash, None, false;
      degraded, notes, dryRun := f.degraded, [], req.hints.dryRun;
    }

    method SelectPolicy(matching: seq<Policy>, hint: Option<string>) returns (selected: Option<Policy>)
      modifies this`notes
      ensures selected == Engine.SelectPolicy(matching, hint).0
      ensures notes == old(notes) + Engine.SelectPolicy(matching, hint).1
    {
      var winner := if matching == [] then None else Some(matching[0]);
      if hint.None? {
        return winner;
      }
      var i := 0;
      while i < |matching| && !Named(matching[i], hint.value)
        invariant 0 <= i <= |matching|
        invariant FindNamed(matching[i..], hint.value) == FindNamed(matching, hint.value)
      {
        i := i + 1;
      }
      if i < |matching| {
        var p := matching[i];
        if p.overridable || (winner.Some? && p.key == winner.value.key) {
          return Some(p);
        }
        notes := notes + [PolicyNotOverridable(hint.value, p.key)];
      } else {
        notes := notes + [PolicyNotMatching(hint.value)];
      }
      return winner;
    }

    method ResolveDataClass(
      classes: map<string, DataClass>, headers: seq<string>, f: Findings)
      returns (best: Option<DataClass>)
      modifies this`notes
      ensures best == Engine.ResolveDataClass(classes, headers, f)
      ensures notes == old(notes) + HeaderNotes(classes, headers)
    {
      best := None;
      for i := 0 to |headers|
        invariant best == ConsiderHeaders(classes, headers[..i])
        invariant notes == old(notes) + HeaderNotes(classes, headers[..i])
      {
        assert headers[..i + 1][..i] == headers[..i];
        var key := HeaderKey(headers[i]);
        var matched;
        best, matched := ConsiderWhere(Claiming(key), ClassesInOrder(classes), best);
        if !matched {
          notes := notes + [UnknownDataClass(key)];
        }
      }
      assert headers[..|headers|] == headers;
      ghost var fromHeaders := best;
      ghost var labelled: seq<DataClass> := [];
      if f.inferredDataClass.Some? && f.inferredDataClass.value in classes {
        var dc := classes[f.inferredDataClass.value];
        labelled := [dc];
        ConsiderLast(fromHeaders, [], dc);
        if best.None? || dc.rank > best.value.rank {
          best := Some(dc);
        }
      }
      var matched;
      best, matched := ConsiderWhere(PiiInferring(f), ClassesInOrder(classes), best);
      ConsiderBoth(fromHeaders, labelled, Filter(PiiInferring(f), ClassesInOrder(classes)));
    }

    method RejectFallback(tier: Tier, name: string, cause: Elimination, why: Why)
      modifies this`candidates, this`outcome, this`reason
      ensures View() == Engine.RejectFallback(tier, name, cause, old(View()), why)
    {
      if FindTier(candidates, tier.name).None? {
        candidates := candidates + [Eliminated(tier.name, cause)];
      }
      candidates := SortBy(CandidateLe, candidates);
      outcome, reason := Block, Some(FallbackEliminated(why, name, cause));
    }

    method RouteToFallback(predict: Predictor, tier: Tier, name: string, p: Policy, req: Request, f: Findings, why: Why)
      modifies this`notes, this`candidates, this`outcome, this`reason, this`selectedTier, this`gatewayModel,
               this`estimatedCost, this`estimatedSavings, this`reasoning
      ensures notes == old(notes) + RelaxedNotes(tier, name, old(candidates))
      ensures candidates
           == SortBy(CandidateLe,
                     Filter(OtherThan(tier.name), old(candidates)) + [FallbackCandidate(predict, tier, p, req, f)])
      ensures outcome == Route && reason == Some(UsingFallback(why))
      ensures selectedTier == Some(tier.name) && gatewayModel == Some(tier.gatewayModel)
      ensures estimatedCost == Some(MicroToEur(EstimateCost(tier, req.inputTokens, req.outputTokens)))
      ensures estimatedSavings == Some(0.0) && reasoning == ReasoningFor(p, f)
    {
      hide EstimateCost, Round6, MicroToEur, SortBy, Filter, ReasoningFor, PredictedQuality;
      var cost := EstimateCost(tier, req.inputTokens, req.outputTokens);
      var quality := PredictedQuality(predict, tier, f, p);
      var listed := FindTier(candidates, tier.name);
      if listed.Some? && listed.value.eliminatedBy.Some? {
        notes := notes + [FallbackRelaxed(name, listed.value.eliminatedBy.value)];
      }
      candidates := Filter(OtherThan(tier.name), candidates);
      candidates := candidates
        + [Candidate(tier.name, None, Some(Round6(quality)), Some(MicroToEur(cost)), None, true)];
      candidates := SortBy(CandidateLe, candidates);
      outcome, reason := Route, Some(UsingFallback(why));
      selectedTier, gatewayModel := Some(tier.name), Some(tier.gatewayModel);
      estimatedCost, estimatedSavings := Some(MicroToEur(cost)), Some(0.0);
      reasoning := ReasoningFor(p, f);
    }

    method FallbackOrBlock(
      predict: Predictor, core: Core, p: Policy, req: Request, f: Findings, dc: Option<DataClass>, why: Why)
      modifies this
      ensures View() == Engine.FallbackOrBlock(predict, core, p, req, f, dc, old(View()), why)
    {
      hide EstimateCost, MicroToEur, SortBy, Filter, RequestFactViolation, HardConstraintViolation, FallbackCandidate,
        RelaxedNotes, ReasoningFor, Engine.RejectFallback;
      if p.fallbackTier.None? {
        outcome, reason := Block, Some(NoFallbackTier(why));
        return;
      }
      var name := p.fallbackTier.value;
      if name !in core.tiers {
        outcome, reason := Block, Some(FallbackNotInSnapshot(why, name));
        return;
      }
      var tier := core.tiers[name];
      var violation;
      if why == ClassificationDegraded {
        violation := RequestFactViolation(tier, p, req, f, dc);
      } else {
        violation := HardConstraintViolation(tier, p, req, f, dc);
      }
      if violation.Some? {
        RejectFallback(tier, name, violation.value, why);
      } else {
        RouteToFallback(predict, tier, name, p, req, f, why);
      }
    }

    /** Keeps what passes and lists the rest as dropped by the floor. */
    method KeepPassing(floor: real, scored: seq<Scored>, anyAbove: bool) returns (kept: seq<Scored>)
      requires anyAbove <==> FloorMet(floor, scored)
      modifies this`candidates
      ensures kept == Kept(Some(floor), scored)
      ensures candidates == old(candidates) + Map(FloorCandidate, FloorDropped(Some(floor), scored))
    {
      hide AboveFloor, NearBest, FloorCandidate, Qualities, MaxOf, FloorMet;
      var best := MaxOf(Qualities(scored));
      kept := [];
      for i := 0 to |scored|
        invariant kept == Filter(Passing(Some(floor), scored), scored[..i])
        invariant candidates == old(candidates) + Map(FloorCandidate, Filter(Failing(Some(floor), scored), scored[..i]))
      {
        FilterPrefix(Passing(Some(floor), scored), scored, i);
        FilterPrefix(Failing(Some(floor), scored), scored, i);
        if (if anyAbove then AboveFloor(floor, scored[i]) else NearBest(best, scored[i])) {
          kept := kept + [scored[i]];
        } else {
          MapAppend(FloorCandidate, Filter(Failing(Some(floor), scored), scored[..i]), scored[i]);
          candidates := candidates + [FloorCandidate(scored[i])];
        }
      }
      assert scored[..|scored|] == scored;
    }

    /** Keeps what passes the floor and records what does not. */
    method ApplyFloor(floor: real, scored: seq<Scored>) returns (kept: seq<Scored>)
      modifies this`candidates, this`reason
      ensures kept == Kept(Some(floor), scored)
      ensures candidates == old(candidates) + Map(FloorCandidate, FloorDropped(Some(floor), scored))
      ensures reason == if FloorMet(floor, scored) then old(reason) else Some(BelowFloorKeepingBest(floor))
    {
      hide AboveFloor, NearBest, FloorCandidate, Qualities, MaxOf;
      var anyAbove := false;
      for i := 0 to |scored|
        modifies {}
        invariant anyAbove <==> exists k :: 0 <= k < i && AboveFloor(floor, scored[k])
      {
        anyAbove := anyAbove || AboveFloor(floor, scored[i]);
      }
      assert anyAbove <==> FloorMet(floor, scored);
      kept := KeepPassing(floor, scored, anyAbove);
      if !anyAbove {
        reason := Some(BelowFloorKeepingBest(floor));
      }
    }

    /** Lists the ranked tiers and keeps the explanation in name order. */
    method ListRanked(results: seq<Ranked>, best: string)
      modifies this`candidates
      ensures candidates == SortBy(CandidateLe, old(candidates) + Map(Explaining(best), results))
    {
      for i := 0 to |results|
        invariant candidates == old(candidates) + Map(Explaining(best), results[..i])
      {
        MapAppend(Explaining(best), results[..i], results[i]);
        assert results[..i + 1] == results[..i] + [results[i]];
        candidates := candidates + [RankedCandidate(best, results[i])];
      }
      assert results[..|results|] == results;
      candidates := SortBy(CandidateLe, candidates);
    }

    /** Ranks what the floor kept, lists it and selects the first. */
    method SelectBest(p: Policy, f: Findings, kept: seq<Scored>)
      modifies this`candidates, this`outcome, this`selectedTier, this`gatewayModel, this`estimatedCost,
               this`estimatedSavings, this`reasoning
      ensures var ranked := Ranking(p.weights, kept);
        if ranked == [] then View() == old(View()) else
          var best := ranked[0].scored;
          && outcome == Route
          && candidates == SortBy(CandidateLe, old(candidates) + Map(Explaining(best.tier.name), ranked))
          && selectedTier == Some(best.tier.name) && gatewayModel == Some(best.tier.gatewayModel)
          && estimatedCost == Some(MicroToEur(best.cost))
          && estimatedSavings == Some(MicroToEur(Savings(ranked, best)))
          && reasoning == ReasoningFor(p, f)
    {
      hide SortBy, RankLe, Ranker, MicroToEur, ReasoningFor, RankedCandidate, MaxCost, Map;
      var results := SortBy(RankLe, Map(Ranker(p.weights, kept), kept));
      if results == [] {
        return;
      }
      var best := results[0].scored;
      var maxCost := MostExpensive(results);
      ListRanked(results, best.tier.name);
      outcome := Route;
      selectedTier, gatewayModel := Some(best.tier.name), Some(best.tier.gatewayModel);
      estimatedCost := Some(MicroToEur(best.cost));
      estimatedSavings := Some(MicroToEur(if maxCost > best.cost then maxCost - best.cost else 0));
      reasoning := ReasoningFor(p, f);
    }

    method ScoreAndSelect(predict: Predictor, p: Policy, req: Request, f: Findings, survivors: seq<Tier>)
      modifies this
      ensures View() == Engine.ScoreAndSelect(predict, p, req, f, survivors, old(View()))
    {
      hide ScoreTiers, FloorCandidate, FloorMet, Kept, Ranking, Savings, MicroToEur, ReasoningFor;
      assert Map(FloorCandidate, []) == [];
      var scored := ScoreTiers(predict, p, req, f, survivors);
      var kept := scored;
      if p.qualityFloor.Some? {
        kept := ApplyFloor(p.qualityFloor.value, scored);
      } else {
        KeptWithoutFloor(scored);
        assert candidates + [] == candidates;
      }
      SelectBest(p, f, kept);
    }

    /** The elimination pass of step 4: records the eliminated, returns the survivors. */
    method Eliminate(
      core: Core, p: Policy, req: Request, f: Findings, dc: Option<DataClass>)
      returns (survivors: seq<Tier>)
      modifies this`candidates
      ensures survivors == Survivors(core, p.candidates, p, req, f, dc)
      ensures candidates == old(candidates) + Eliminations(core, p.candidates, p, req, f, dc)
    {
      survivors := [];
      for i := 0 to |p.candidates|
        invariant survivors == Survivors(core, p.candidates[..i], p, req, f, dc)
        invariant candidates == old(candidates) + Eliminations(core, p.candidates[..i], p, req, f, dc)
      {
        assert p.candidates[..i + 1][..i] == p.candidates[..i];
        var name := p.candidates[i];
        if name in core.tiers {
          var violation := HardConstraintViolation(core.tiers[name], p, req, f, dc);
          if violation.Some? {
            candidates := candidates + [Eliminated(name, violation.value)];
          } else {
            survivors := survivors + [core.tiers[name]];
          }
        }
      }
      assert p.candidates[..|p.candidates|] == p.candidates;
    }

    /** Step 4a: every candidate is listed as denied. */
    method Deny(names: seq<string>, risk: real, threshold: real)
      modifies this`candidates, this`outcome, this`reason
      ensures candidates == old(candidates) + Map(DeniedCandidate, names)
      ensures outcome == Block && reason == Some(RiskExceeds(Round6(risk), threshold))
    {
      for i := 0 to |names|
        modifies this`candidates
        invariant candidates == old(candidates) + Map(DeniedCandidate, names[..i])
      {
        MapAppend(DeniedCandidate, names[..i], names[i]);
        assert names[..i + 1] == names[..i] + [names[i]];
        candidates := candidates + [Eliminated(names[i], DenyIfRiskScoreAbove)];
      }
      assert names[..|names|] == names;
      outcome, reason := Block, Some(RiskExceeds(Round6(risk), threshold));
    }

    method Judge(predict: Predictor, core: Core, p: Policy, req: Request, f: Findings, dc: Option<DataClass>)
      requires degraded == f.degraded
      modifies this
      ensures View() == Engine.Judge(predict, core, p, req, f, dc, old(View()))
    {
      hide Round6, Eliminations, Survivors, RiskNeeded, Engine.FallbackOrBlock, Engine.ScoreAndSelect, DeniedCandidate;
      if p.denyIfRiskAbove.Some? && f.riskScore.Some? && f.riskScore.value > p.denyIfRiskAbove.value {
        Deny(p.candidates, f.riskScore.value, p.denyIfRiskAbove.value);
        return;
      }
      if f.riskScore.None? && RiskNeeded(core, p) && "risk:missing" !in degraded {
        degraded := degraded + ["risk:missing"];
      }
      if degraded != [] {
        fallback := true;
        FallbackOrBlock(predict, core, p, req, f, dc, ClassificationDegraded);
        return;
      }
      var survivors := Eliminate(core, p, req, f, dc);
      if survivors == [] {
        fallback := true;
        FallbackOrBlock(predict, core, p, req, f, dc, NothingSurvives);
      } else {
        ScoreAndSelect(predict, p, req, f, survivors);
      }
    }
  }

  /** The whole pipeline computes the decision function and touches nothing but the record it returns. */
  method Decide(predict: Predictor, snap: Snapshot, req: Request, f: Findings) returns (d: Decision)
    ensures fresh(d)
    ensures d.View() == Engine.Decide(predict, snap, req, f)
  {
      hide Filter, Engine.SelectPolicy, RoutesAlias, Engine.ResolveDataClass, HeaderNotes, Engine.Judge;
    d := new Decision(req, f, snap.hash);
    var matching := Filter(InScope(req), snap.core.policies);
    var selected := d.SelectPolicy(matching, req.hints.policy);
    assert d.notes == Selection(snap, req).1;
    if selected.None? {
      d.outcome, d.reason := PassThrough, Some(NoPolicyMatches);
      return;
    }
    var p := selected.value;
    d.policy := Some(p.key);
    if !RoutesAlias(p, req) {
      d.outcome, d.reason := PassThrough, Some(NotARoutedAlias(req.requestedModel, p.key));
      return;
    }
    var dc := d.ResolveDataClass(snap.core.dataClasses, req.hints.dataClasses, f);
    d.dataClass := if dc.Some? then Some(dc.value.name) else None;
    d.Judge(predict, snap.core, p, req, f, dc);
  }

  method MostExpensive(results: seq<Ranked>) returns (maxCost: u64)
    ensures maxCost == MaxCost(results)
  {
    maxCost := 0;
    for i := 0 to |results|
      invariant maxCost == MaxCost(results[..i])
    {
      assert results[..i + 1][..i] == results[..i];
      if results[i].scored.cost > maxCost {
        maxCost := results[i].scored.cost;
      }
    }
    assert results[..|results|] == results;
  }

  /** Offers every class the test accepts, in order. */
  method ConsiderWhere(test: DataClass -> bool, classes: seq<DataClass>, start: Option<DataClass>)
    returns (best: Option<DataClass>, matched: bool)
    ensures best == ConsiderAll(start, Filter(test, classes))
    ensures matched <==> Filter(test, classes) != []
  {
    best, matched := start, false;
    for j := 0 to |classes|
      invariant best == ConsiderAll(start, Filter(test, classes[..j]))
      invariant matched <==> Filter(test, classes[..j]) != []
    {
      FilterPrefix(test, classes, j);
      ghost var before := Filter(test, classes[..j]);
      if test(classes[j]) {
        matched := true;
        assert Filter(test, classes[..j + 1]) == before + [classes[j]];
        ConsiderLast(start, Filter(test, classes[..j]), classes[j]);
        if best.None? || classes[j].rank > best.value.rank {
          best := Some(classes[j]);
        }
      }
    }
    assert classes[..|classes|] == classes;
  }

  lemma {:induction false} ConsiderBoth(best: Option<DataClass>, a: seq<DataClass>, b: seq<DataClass>)
    ensures ConsiderAll(best, a + b) == ConsiderAll(ConsiderAll(best, a), b)
  {
    if b == [] {
      assert a + b == a;
    } else {
      ConsiderBoth(best, a, b[..|b| - 1]);
      assert (a + b)[..|a + b| - 1] == a + b[..|b| - 1];
    }
  }

  lemma ConsiderLast(best: Option<DataClass>, dcs: seq<DataClass>, dc: DataClass)
    ensures ConsiderAll(best, dcs + [dc]) == Consider(ConsiderAll(best, dcs), dc)
  {
    assert (dcs + [dc])[..|dcs|] == dcs;
  }

  lemma MapAppend<T, U>(f: T -> U, xs: seq<T>, x: T)
    ensures Map(f, xs + [x]) == Map(f, xs) + [f(x)]
  {}

  lemma {:induction false} KeepsEverything<T(!new)>(p: T -> bool, xs: seq<T>)
    requires forall x :: p(x)
    ensures Filter(p, xs) == xs
  {
    if xs != [] {
      KeepsEverything(p, xs[..|xs| - 1]);
      assert xs == xs[..|xs| - 1] + [xs[|xs| - 1]];
    }
  }

  lemma {:induction false} KeepsNothing<T(!new)>(p: T -> bool, xs: seq<T>)
    requires forall x :: !p(x)
    ensures Filter(p, xs) == []
  {
    if xs != [] {
      KeepsNothing(p, xs[..|xs| - 1]);
    }
  }

  lemma KeptWithoutFloor(ss: seq<Scored>)
    ensures Kept(None, ss) == ss && FloorDropped(None, ss) == []
  {
    KeepsEverything(Passing(None, ss), ss);
    KeepsNothing(Failing(None, ss), ss);
  }
}
