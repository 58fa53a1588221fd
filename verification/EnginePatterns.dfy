/**
 Which requests a policy applies to, on the text of its patterns.
 */
module EnginePatterns {
  import opened Ordering
  import opened Snapshots
  import opened Engine
  import opened EngineFacts
  import opened EngineSafety

  // ---- patterns ----

  predicate EndsInStar(s: string) {
    s != "" && s[|s| - 1] == '*'
  }

  predicate BeginsWithStar(s: string) {
    s != "" && s[0] == '*'
  }

  ghost predicate IsPrefixPattern(pattern: string, value: string) {
    exists front, rest :: pattern == front + "*" && value == front + rest
  }

  ghost predicate IsSuffixPattern(pattern: string, value: string) {
    !EndsInStar(pattern) && exists back, rest :: pattern == "*" + back && value == rest + back
  }

  /** The value continues what precedes a trailing star, or ends in what follows a leading one, or is the pattern. */
  ghost predicate Covers(pattern: string, value: string) {
    || IsPrefixPattern(pattern, value)
    || IsSuffixPattern(pattern, value)
    || (!EndsInStar(pattern) && !BeginsWithStar(pattern) && pattern == value)
  }

  /** `front*` matches exactly the texts that begin with `front`. */
  lemma PrefixPattern(front: string, value: string)
    ensures GlobMatch(front + "*", value) <==> exists rest :: value == front + rest
  {
    var pattern := front + "*";
    assert pattern[..|pattern| - 1] == front && pattern[|pattern| - 1] == '*';
    if front <= value {
      assert value == front + value[|front|..];
    }
    if front == "" {
      assert pattern == "*" && value == front + value;
    }
  }

  /** `*back` matches exactly the texts that end in `back`, unless `back` ends in a star. */
  lemma SuffixPattern(back: string, value: string)
    requires !EndsInStar(back)
    ensures GlobMatch("*" + back, value) <==> exists rest :: value == rest + back
  {
    var pattern := "*" + back;
    assert pattern[1..] == back;
    if back == "" {
      assert pattern == "*" && value == value + back;
    } else {
      assert pattern[|pattern| - 1] == back[|back| - 1];
      if EndsWith(value, back) {
        assert value == value[..|value| - |back|] + back;
      }
      if rest :| value == rest + back {
        assert value[|value| - |back|..] == back;
      }
    }
  }

  /** Any other pattern matches itself alone. */
  lemma PlainPattern(pattern: string, value: string)
    requires !EndsInStar(pattern) && !BeginsWithStar(pattern)
    ensures GlobMatch(pattern, value) <==> pattern == value
  {}

  lemma GlobMatchExactly(pattern: string, value: string)
    ensures GlobMatch(pattern, value) <==> Covers(pattern, value)
  {
    hide GlobMatch;
    if EndsInStar(pattern) {
      var front := pattern[..|pattern| - 1];
      assert pattern == front + "*";
      PrefixPattern(front, value);
      if f, rest :| pattern == f + "*" && value == f + rest {
        assert f == pattern[..|pattern| - 1];
      }
      assert GlobMatch(pattern, value) ==> IsPrefixPattern(pattern, value);
    } else {
      NoPrefixPattern(pattern, value);
      if BeginsWithStar(pattern) {
        var back := pattern[1..];
        assert pattern == "*" + back && !EndsInStar(back);
        SuffixPattern(back, value);
        if b, rest :| pattern == "*" + b && value == rest + b {
          assert b == pattern[1..];
        }
      } else {
        PlainPattern(pattern, value);
        NoSuffixPattern(pattern, value);
      }
    }
  }

  lemma NoPrefixPattern(pattern: string, value: string)
    ensures IsPrefixPattern(pattern, value) ==> EndsInStar(pattern)
  {
    if front, rest :| pattern == front + "*" && value == front + rest {
      assert pattern[|pattern| - 1] == '*';
    }
  }

  lemma NoSuffixPattern(pattern: string, value: string)
    ensures IsSuffixPattern(pattern, value) ==> BeginsWithStar(pattern)
  {
    if back, rest :| pattern == "*" + back && value == rest + back {
      assert pattern[0] == '*';
    }
  }

  // ---- scopes ----

  /** An absent tenant or agent counts as the empty text. */
  function TextOf(v: Option<string>): string {
    match v
    case Some(text) => text
    case None => ""
  }

  /** Nothing listed allows everything; otherwise some pattern covers the value. */
  ghost predicate ListCovers(patterns: seq<string>, value: string) {
    patterns == [] || exists p :: p in patterns && Covers(p, value)
  }

  ghost predicate InScopeByText(p: Policy, req: Request) {
    && ListCovers(p.scope.tenants, TextOf(req.tenant))
    && ListCovers(p.scope.agents, TextOf(req.agent))
    && ListCovers(p.scope.paths, req.path)
  }

  lemma ListMatchesExactly(patterns: seq<string>, value: Option<string>)
    ensures ListMatches(patterns, value) <==> ListCovers(patterns, TextOf(value))
  {
    hide GlobMatch, Covers;
    forall p ensures GlobMatch(p, TextOf(value)) <==> Covers(p, TextOf(value)) {
      GlobMatchExactly(p, TextOf(value));
    }
  }

  lemma ScopeMatchesExactly(p: Policy, req: Request)
    ensures ScopeMatches(p.scope, req) <==> InScopeByText(p, req)
  {
    hide ListMatches, ListCovers;
    ListMatchesExactly(p.scope.tenants, req.tenant);
    ListMatchesExactly(p.scope.agents, req.agent);
    ListMatchesExactly(p.scope.paths, Some(req.path));
  }

  ghost predicate RoutesByText(p: Policy, model: string) {
    exists a :: a in p.scope.modelAliases && Covers(a, model)
  }

  lemma RoutesAliasExactly(p: Policy, req: Request)
    ensures RoutesAlias(p, req) <==> RoutesByText(p, req.requestedModel)
  {
    hide GlobMatch, Covers;
    forall a ensures GlobMatch(a, req.requestedModel) <==> Covers(a, req.requestedModel) {
      GlobMatchExactly(a, req.requestedModel);
    }
  }

  // ---- the policy that applies ----

  ghost predicate FirstInScope(ps: seq<Policy>, req: Request, i: nat) {
    i < |ps| && InScopeByText(ps[i], req) && forall k :: 0 <= k < i ==> !InScopeByText(ps[k], req)
  }

  /** A policy in scope whose key or name is `name`. */
  ghost predicate Goes(p: Policy, req: Request, name: string) {
    InScopeByText(p, req) && (p.key == name || p.name == name)
  }

  ghost predicate FirstNamed(ps: seq<Policy>, req: Request, name: string, i: nat) {
    i < |ps| && Goes(ps[i], req, name) && forall k :: 0 <= k < i ==> !Goes(ps[k], req, name)
  }

  /** The hint may be followed: the policy allows it, or it is the one that wins anyway. */
  ghost predicate Allowed(ps: seq<Policy>, req: Request, j: nat)
    requires j < |ps|
  {
    ps[j].overridable || exists w: nat :: FirstInScope(ps, req, w) && ps[w].key == ps[j].key
  }

  ghost predicate Followed(ps: seq<Policy>, req: Request, name: string) {
    exists j: nat :: FirstNamed(ps, req, name, j) && Allowed(ps, req, j)
  }

  /** Policy `i` of the evaluation order is the one that applies to the request. */
  ghost predicate Applies(ps: seq<Policy>, req: Request, i: nat) {
    match req.hints.policy
    case None => FirstInScope(ps, req, i)
    case Some(name) => if Followed(ps, req, name) then FirstNamed(ps, req, name, i) else FirstInScope(ps, req, i)
  }

  lemma {:induction false} FilterConcat<T>(p: T -> bool, a: seq<T>, b: seq<T>)
    ensures Filter(p, a + b) == Filter(p, a) + Filter(p, b)
  {
    if b == [] {
      assert a + b == a;
    } else {
      FilterConcat(p, a, b[..|b| - 1]);
      assert (a + b)[..|a + b| - 1] == a + b[..|b| - 1];
    }
  }

  lemma FilterOne<T>(p: T -> bool, x: T)
    ensures Filter(p, [x]) == if p(x) then [x] else []
  {
    assert [x][..0] == [];
  }

  lemma MatchingSplits(ps: seq<Policy>, req: Request, i: nat)
    requires i < |ps|
    ensures Matching(ps, req) == Matching(ps[..i], req)
            + (if InScopeByText(ps[i], req) then [ps[i]] else []) + Matching(ps[i + 1..], req)
  {
    hide ScopeMatches, InScopeByText, Filter;
    ScopeMatchesExactly(ps[i], req);
    assert ps == ps[..i] + [ps[i]] + ps[i + 1..];
    FilterConcat(InScope(req), ps[..i] + [ps[i]], ps[i + 1..]);
    FilterConcat(InScope(req), ps[..i], [ps[i]]);
    FilterOne(InScope(req), ps[i]);
  }

  lemma MatchingIsInScope(ps: seq<Policy>, req: Request)
    ensures forall p :: p in Matching(ps, req) <==> p in ps && InScopeByText(p, req)
  {
    hide ScopeMatches, InScopeByText;
    FilterKeeps(InScope(req), ps);
    forall p: Policy ensures ScopeMatches(p.scope, req) <==> InScopeByText(p, req) {
      ScopeMatchesExactly(p, req);
    }
  }

  lemma NoneBefore(ps: seq<Policy>, req: Request, i: nat)
    requires i <= |ps| && forall k :: 0 <= k < i ==> !InScopeByText(ps[k], req)
    ensures Matching(ps[..i], req) == []
  {
    hide InScopeByText, Matching;
    MatchingIsInScope(ps[..i], req);
    EmptyOrHasFirst(Matching(ps[..i], req));
  }

  lemma EmptyOrHasFirst<T>(s: seq<T>)
    ensures s == [] || s[0] in s
  {}

  lemma WinnerIsFirst(ps: seq<Policy>, req: Request, i: nat)
    requires FirstInScope(ps, req, i)
    ensures Matching(ps, req) != [] && Matching(ps, req)[0] == ps[i]
  {
    hide InScopeByText, Matching;
    MatchingSplits(ps, req, i);
    NoneBefore(ps, req, i);
  }

  lemma {:induction false} FindNamedConcat(a: seq<Policy>, b: seq<Policy>, name: string)
    ensures FindNamed(a + b, name)
            == if FindNamed(a, name).Some? then FindNamed(a, name) else FindNamed(b, name)
  {
    if a == [] {
      assert a + b == b;
    } else {
      assert (a + b)[1..] == a[1..] + b;
      FindNamedConcat(a[1..], b, name);
    }
  }

  lemma NamedIsFirst(ps: seq<Policy>, req: Request, name: string, i: nat)
    requires FirstNamed(ps, req, name, i)
    ensures FindNamed(Matching(ps, req), name) == Some(ps[i])
  {
    hide InScopeByText, Matching;
    MatchingSplits(ps, req, i);
    MatchingIsInScope(ps[..i], req);
    var before, after := Matching(ps[..i], req), Matching(ps[i + 1..], req);
    assert FindNamed([ps[i]], name) == Some(ps[i]);
    FindNamedConcat(before + [ps[i]], after, name);
    FindNamedConcat(before, [ps[i]], name);
    forall p | p in before ensures !Named(p, name) {
      var k :| 0 <= k < i && ps[..i][k] == p;
      assert !Goes(ps[k], req, name);
    }
  }

  lemma FirstScoped(ps: seq<Policy>, req: Request, k: nat) returns (i: nat)
    requires k < |ps| && InScopeByText(ps[k], req)
    ensures FirstInScope(ps, req, i)
  {
    hide InScopeByText;
    i := 0;
    while !InScopeByText(ps[i], req)
      invariant i <= k && forall j :: 0 <= j < i ==> !InScopeByText(ps[j], req)
      decreases k - i
    {
      i := i + 1;
    }
  }

  lemma FirstGoing(ps: seq<Policy>, req: Request, name: string, k: nat) returns (i: nat)
    requires k < |ps| && Goes(ps[k], req, name)
    ensures FirstNamed(ps, req, name, i)
  {
    hide Goes;
    i := 0;
    while !Goes(ps[i], req, name)
      invariant i <= k && forall j :: 0 <= j < i ==> !Goes(ps[j], req, name)
      decreases k - i
    {
      i := i + 1;
    }
  }

  lemma FirstIsUnique(ps: seq<Policy>, req: Request, i: nat, j: nat)
    ensures FirstInScope(ps, req, i) && FirstInScope(ps, req, j) ==> i == j
  {
    hide InScopeByText;
  }

  lemma NamedIsUnique(ps: seq<Policy>, req: Request, name: string, i: nat, j: nat)
    ensures FirstNamed(ps, req, name, i) && FirstNamed(ps, req, name, j) ==> i == j
  {
    hide Goes;
  }

  lemma WinnerExactly(ps: seq<Policy>, req: Request)
    ensures Matching(ps, req) != [] <==> exists i: nat :: FirstInScope(ps, req, i)
    ensures forall i: nat | FirstInScope(ps, req, i) :: Matching(ps, req) != [] && Matching(ps, req)[0] == ps[i]
  {
    hide InScopeByText, Matching;
    MatchingIsInScope(ps, req);
    forall i: nat | FirstInScope(ps, req, i) ensures Matching(ps, req) != [] && Matching(ps, req)[0] == ps[i] {
      WinnerIsFirst(ps, req, i);
    }
    if Matching(ps, req) != [] {
      var p := Matching(ps, req)[0];
      assert p in Matching(ps, req);
      var k :| 0 <= k < |ps| && ps[k] == p;
      var i := FirstScoped(ps, req, k);
    }
  }

  lemma NamedExactly(ps: seq<Policy>, req: Request, name: string)
    ensures FindNamed(Matching(ps, req), name).Some? <==> exists j: nat :: FirstNamed(ps, req, name, j)
    ensures forall j: nat | FirstNamed(ps, req, name, j) :: FindNamed(Matching(ps, req), name) == Some(ps[j])
  {
    hide InScopeByText, Matching;
    MatchingIsInScope(ps, req);
    forall j: nat | FirstNamed(ps, req, name, j) ensures FindNamed(Matching(ps, req), name) == Some(ps[j]) {
      NamedIsFirst(ps, req, name, j);
    }
    if FindNamed(Matching(ps, req), name).Some? {
      var p := FindNamed(Matching(ps, req), name).value;
      var k :| 0 <= k < |ps| && ps[k] == p;
      assert Goes(ps[k], req, name);
      var j := FirstGoing(ps, req, name, k);
    }
  }

  /** A policy that is named and in scope means that some policy wins. */
  lemma NamedMeansWinner(ps: seq<Policy>, req: Request, name: string, j: nat) returns (w: nat)
    requires FirstNamed(ps, req, name, j)
    ensures FirstInScope(ps, req, w)
  {
    hide InScopeByText;
    w := FirstScoped(ps, req, j);
  }

  lemma AllowedExactly(ps: seq<Policy>, req: Request, name: string, j: nat)
    requires FirstNamed(ps, req, name, j)
    ensures Matching(ps, req) != []
    ensures Allowed(ps, req, j) <==> ps[j].overridable || ps[j].key == Matching(ps, req)[0].key
    ensures Followed(ps, req, name) <==> Allowed(ps, req, j)
  {
    hide InScopeByText, Matching, FirstInScope, FirstNamed;
    WinnerExactly(ps, req);
    var w := NamedMeansWinner(ps, req, name, j);
    forall v: nat | FirstInScope(ps, req, v) ensures v == w {
      FirstIsUnique(ps, req, v, w);
    }
    forall i: nat | FirstNamed(ps, req, name, i) ensures i == j {
      NamedIsUnique(ps, req, name, i, j);
    }
  }

  lemma AppliesWhenFollowed(ps: seq<Policy>, req: Request, name: string, j: nat)
    requires req.hints.policy == Some(name) && FirstNamed(ps, req, name, j) && Allowed(ps, req, j)
    ensures Applies(ps, req, j)
    ensures forall i: nat | Applies(ps, req, i) :: ps[i] == ps[j]
  {
    hide InScopeByText, Goes, Allowed;
    forall i: nat | Applies(ps, req, i) ensures i == j {
      NamedIsUnique(ps, req, name, i, j);
    }
  }

  lemma AppliesOtherwise(ps: seq<Policy>, req: Request)
    requires req.hints.policy.Some? ==> !Followed(ps, req, req.hints.policy.value)
    ensures forall i: nat :: Applies(ps, req, i) <==> FirstInScope(ps, req, i)
  {}

  /** The policy the engine selects is the one that applies. */
  lemma SelectionExactly(snap: Snapshot, req: Request)
    ensures Selection(snap, req).0.Some? <==> exists i: nat :: Applies(snap.core.policies, req, i)
    ensures forall i: nat | Applies(snap.core.policies, req, i) :: Selection(snap, req).0 == Some(snap.core.policies[i])
  {
    hide InScopeByText, Matching, FirstInScope, Goes, Allowed, Applies;
    var ps := snap.core.policies;
    WinnerExactly(ps, req);
    if req.hints.policy.None? {
      AppliesOtherwise(ps, req);
    } else {
      var name := req.hints.policy.value;
      NamedExactly(ps, req, name);
      if j: nat :| FirstNamed(ps, req, name, j) {
        AllowedExactly(ps, req, name, j);
        if Allowed(ps, req, j) {
          AppliesWhenFollowed(ps, req, name, j);
        } else {
          AppliesOtherwise(ps, req);
        }
      } else {
        AppliesOtherwise(ps, req);
      }
    }
  }

  /** A hint that is not followed is noted, with the reason. */
  lemma HintNoteExactly(snap: Snapshot, req: Request)
    ensures var ps := snap.core.policies;
      match req.hints.policy
      case None => Selection(snap, req).1 == []
      case Some(name) =>
        if Followed(ps, req, name) then Selection(snap, req).1 == []
        else if exists j: nat :: FirstNamed(ps, req, name, j) then
          exists j: nat :: FirstNamed(ps, req, name, j)
            && Selection(snap, req).1 == [PolicyNotOverridable(name, ps[j].key)]
        else Selection(snap, req).1 == [PolicyNotMatching(name)]
  {
    hide InScopeByText, Matching, FirstInScope, FirstNamed, Allowed;
    var ps := snap.core.policies;
    WinnerExactly(ps, req);
    if req.hints.policy.Some? {
      var name := req.hints.policy.value;
      NamedExactly(ps, req, name);
      if j: nat :| FirstNamed(ps, req, name, j) {
        AllowedExactly(ps, req, name, j);
      }
    }
  }

  lemma JudgeKeepsPolicy(
    predict: Predictor, core: Core, p: Policy, req: Request, f: Findings, dc: Option<DataClass>, d: Explanation)
    ensures Judge(predict, core, p, req, f, dc, d).policy == d.policy
  {
    hide FallbackOrBlock, ScoreAndSelect, Survivors, Eliminations, DegradedList, FinalRanking;
    if Denied(p, f) {
    } else if DegradedList(core, p, f) != [] {
      FallbackOutcome(predict, core, p, req, f, dc, d.(degraded := DegradedList(core, p, f), fallback := true),
                      ClassificationDegraded);
    } else if Survivors(core, p.candidates, p, req, f, dc) == [] {
      FallbackOutcome(predict, core, p, req, f, dc,
                      d.(candidates := d.candidates + Eliminations(core, p.candidates, p, req, f, dc),
                         fallback := true), NothingSurvives);
    } else {
      ScoringSelects(predict, core, p, req, f, dc, d);
    }
  }

  /**
   A request passes through exactly when no policy applies to it, or none of the aliases of the one that does covers
   the requested model; the decision names the policy that applies and says which of the two it was.
   */
  lemma PassThroughExactly(predict: Predictor, snap: Snapshot, req: Request, f: Findings)
    ensures var ps, d := snap.core.policies, Decide(predict, snap, req, f);
      && (d.outcome == PassThrough <==>
            forall i: nat | Applies(ps, req, i) :: !RoutesByText(ps[i], req.requestedModel))
      && (forall i: nat | Applies(ps, req, i) :: d.policy == Some(ps[i].key))
      && (forall i: nat | Applies(ps, req, i) && d.outcome == PassThrough ::
            d.reason == Some(NotARoutedAlias(req.requestedModel, ps[i].key)))
      && ((forall i: nat :: !Applies(ps, req, i)) ==> d.policy == None && d.reason == Some(NoPolicyMatches))
  {
    hide InScopeByText, RoutesByText, RoutesAlias, Selection, Resolved, Judge, HeaderNotes, Applies, Blocks;
    SelectionExactly(snap, req);
    var p := Selection(snap, req).0;
    if p.Some? {
      RoutesAliasExactly(p.value, req);
      var prepared := Prepared(snap, req, f, p.value);
      JudgeKeepsPolicy(predict, snap.core, p.value, req, f, Resolved(snap, req, f), prepared);
      JudgeOutcome(predict, snap.core, p.value, req, f, Resolved(snap, req, f), prepared);
    }
  }
}
