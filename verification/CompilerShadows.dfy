/**
 The groups of policies with the same scope, and the warnings about them. The
 groups are those of an ordered map: ascending by priority, namespace and match
 text, each with its policies in evaluation order. Every member but the first of
 a group is reported, so a policy is reported if and only if one before it in
 evaluation order has the same scope, and the report names the first such one.
 */
module CompilerShadows {
  import opened Ordering
  import opened Snapshots
  import opened Compiler
  import opened ScopeText

  predicate SameScope(a: Policy, b: Policy) {
    a.priority == b.priority && a.ns == b.ns && a.scope == b.scope
  }

  lemma KeysAgree(a: Policy, b: Policy)
    ensures ScopeKey(a) == ScopeKey(b) <==> SameScope(a, b)
  {
    hide MatchText;
    MatchTextIsInjective(a.scope, b.scope);
  }

  // ---- the shadow pass reports no error ----

  ghost predicate AddsWarningsOnly(before: seq<Diag>, after: seq<Diag>) {
    before <= after && forall i :: |before| <= i < |after| ==> after[i].level == Warning
  }

  lemma {:induction false} MembersWarned(winner: string, shadowed: seq<string>, ds: seq<Diag>)
    ensures AddsWarningsOnly(ds, WarnMembers(winner, shadowed, ds))
  {
    if shadowed != [] {
      MembersWarned(winner, shadowed[..|shadowed| - 1], ds);
    }
  }

  lemma {:induction false} GroupsWarned(gs: seq<Group>, ds: seq<Diag>)
    ensures AddsWarningsOnly(ds, WarnGroups(gs, ds))
  {
    hide WarnMembers;
    if gs != [] {
      var rest, names := WarnGroups(gs[..|gs| - 1], ds), gs[|gs| - 1].members;
      GroupsWarned(gs[..|gs| - 1], ds);
      if |names| > 1 {
        MembersWarned(names[0], names[1..], rest);
      }
    }
  }

  // ---- the groups ----

  lemma KeyLtTotal(a: GroupKey, b: GroupKey)
    ensures KeyLt(a, b) || KeyLt(b, a) || a == b
    ensures !(KeyLt(a, b) && KeyLt(b, a)) && !KeyLt(a, a)
  {
    StrOrder();
  }

  lemma KeyLtTransitive(a: GroupKey, b: GroupKey, c: GroupKey)
    requires KeyLt(a, b) && KeyLt(b, c)
    ensures KeyLt(a, c)
  {
    StrOrder();
  }

  ghost predicate InKeyOrder(gs: seq<Group>) {
    forall i, j :: 0 <= i < j < |gs| ==> KeyLt(gs[i].key, gs[j].key)
  }

  lemma JoinedKeys(gs: seq<Group>, k: GroupKey, name: string)
    ensures forall g | g in Join(gs, k, name) :: g.key == k || exists h :: h in gs && h.key == g.key
  {
    hide KeyLt;
  }

  lemma {:induction false} JoinKeepsOrder(gs: seq<Group>, k: GroupKey, name: string)
    requires InKeyOrder(gs)
    ensures InKeyOrder(Join(gs, k, name))
  {
    hide KeyLt;
    if gs != [] {
      KeyLtTotal(k, gs[0].key);
      if KeyLt(k, gs[0].key) {
        forall j | 0 <= j < |gs| ensures KeyLt(k, gs[j].key) {
          if j > 0 {
            KeyLtTransitive(k, gs[0].key, gs[j].key);
          }
        }
      } else if gs[0].key != k {
        var rest := gs[1..];
        JoinKeepsOrder(rest, k, name);
        JoinedKeys(rest, k, name);
        forall g | g in Join(rest, k, name) ensures KeyLt(gs[0].key, g.key) {
          if g.key != k {
            var h :| h in rest && h.key == g.key;
          }
        }
      }
    }
  }

  /** The members of the group of a key. */
  function Members(gs: seq<Group>, k: GroupKey): seq<string> {
    if gs == [] then [] else if gs[0].key == k then gs[0].members else Members(gs[1..], k)
  }

  lemma {:induction false} NoMembers(gs: seq<Group>, k: GroupKey)
    requires forall g | g in gs :: g.key != k
    ensures Members(gs, k) == []
  {
    if gs != [] {
      NoMembers(gs[1..], k);
    }
  }

  lemma {:induction false} MembersJoined(gs: seq<Group>, k: GroupKey, name: string, other: GroupKey)
    requires InKeyOrder(gs)
    ensures Members(Join(gs, k, name), other) == Members(gs, other) + if other == k then [name] else []
  {
    hide KeyLt;
    if gs != [] {
      KeyLtTotal(k, gs[0].key);
      if KeyLt(k, gs[0].key) {
        forall g | g in gs ensures g.key != k {
          KeyLtTotal(k, g.key);
        }
        NoMembers(gs, k);
        assert Join(gs, k, name)[1..] == gs;
      } else if gs[0].key != k {
        MembersJoined(gs[1..], k, name, other);
      }
    }
  }

  /** The keys of the policies with a group key, in their order. */
  function Fellows(ps: seq<Policy>, k: GroupKey): seq<string> {
    if ps == [] then [] else
      var p := ps[|ps| - 1];
      Fellows(ps[..|ps| - 1], k) + if ScopeKey(p) == k then [p.key] else []
  }

  lemma {:induction false} GroupsAreOrdered(ps: seq<Policy>)
    ensures InKeyOrder(GroupsOf(ps))
  {
    hide Join, InKeyOrder, ScopeKey;
    if ps == [] {
      assert InKeyOrder([]) by { NothingToOrder(); }
    } else {
      var p := ps[|ps| - 1];
      GroupsAreOrdered(ps[..|ps| - 1]);
      JoinKeepsOrder(GroupsOf(ps[..|ps| - 1]), ScopeKey(p), p.key);
    }
  }

  lemma NothingToOrder()
    ensures InKeyOrder([])
  {}

  /** The groups are in the order of their keys, and each has all policies with its key in evaluation order. */
  lemma {:induction false} GroupsAreExact(ps: seq<Policy>, k: GroupKey)
    ensures InKeyOrder(GroupsOf(ps)) && Members(GroupsOf(ps), k) == Fellows(ps, k)
  {
    hide Join, ScopeKey, InKeyOrder;
    GroupsAreOrdered(ps);
    if ps != [] {
      var p := ps[|ps| - 1];
      GroupsAreExact(ps[..|ps| - 1], k);
      MembersJoined(GroupsOf(ps[..|ps| - 1]), ScopeKey(p), p.key, k);
    }
  }

  // ---- the warnings ----

  /** The warning about a member of a group that is not its first. */
  ghost predicate Repeats(names: seq<string>, d: Diag) {
    exists i :: 1 <= i < |names| && d == Diag(Warning, RoutingPolicy, names[i], Shadowed(names[0]))
  }

  lemma {:induction false} MembersSay(winner: string, shadowed: seq<string>, ds: seq<Diag>, d: Diag)
    ensures d in WarnMembers(winner, shadowed, ds) <==>
      d in ds || exists i :: 0 <= i < |shadowed| && d == Diag(Warning, RoutingPolicy, shadowed[i], Shadowed(winner))
  {
    if shadowed != [] {
      MembersSay(winner, shadowed[..|shadowed| - 1], ds, d);
    }
  }

  lemma GroupSays(names: seq<string>, ds: seq<Diag>, d: Diag)
    requires |names| > 1
    ensures d in WarnMembers(names[0], names[1..], ds) <==> d in ds || Repeats(names, d)
  {
    hide WarnMembers;
    MembersSay(names[0], names[1..], ds, d);
    if Repeats(names, d) {
      var i :| 1 <= i < |names| && d == Diag(Warning, RoutingPolicy, names[i], Shadowed(names[0]));
      assert names[1..][i - 1] == names[i];
    }
  }

  lemma {:induction false} GroupsSay(gs: seq<Group>, ds: seq<Diag>, d: Diag)
    ensures d in WarnGroups(gs, ds) <==> d in ds || exists g :: g in gs && Repeats(g.members, d)
  {
    hide WarnMembers;
    if gs != [] {
      var front, last := gs[..|gs| - 1], gs[|gs| - 1];
      assert gs == front + [last];
      GroupsSay(front, ds, d);
      if |last.members| > 1 {
        hide Repeats;
        GroupSays(last.members, WarnGroups(front, ds), d);
      }
    }
  }

  lemma {:induction false} GroupIsMembers(gs: seq<Group>, g: Group)
    requires InKeyOrder(gs) && g in gs
    ensures Members(gs, g.key) == g.members
  {
    hide KeyLt;
    if gs[0].key == g.key {
      if gs[0] != g {
        KeyLtTotal(g.key, g.key);
      }
    } else {
      GroupIsMembers(gs[1..], g);
    }
  }

  lemma {:induction false} MembersAreGroup(gs: seq<Group>, k: GroupKey)
    ensures Members(gs, k) == [] || exists g :: g in gs && g.members == Members(gs, k)
  {
    if gs != [] && gs[0].key != k {
      MembersAreGroup(gs[1..], k);
    }
  }

  /** The pass adds a warning for each policy that is not the first of its group. */
  lemma ShadowsSaid(ps: seq<Policy>, ds: seq<Diag>, d: Diag)
    ensures d in ShadowWarnings(ps, ds) <==> d in ds || exists k :: Repeats(Fellows(ps, k), d)
  {
    hide WarnGroups, GroupsOf, InKeyOrder, Fellows, Repeats, Members;
    var gs := GroupsOf(ps);
    GroupsSay(gs, ds, d);
    if g :| g in gs && Repeats(g.members, d) {
      GroupsAreExact(ps, g.key);
      GroupIsMembers(gs, g);
    }
    if k :| Repeats(Fellows(ps, k), d) {
      GroupsAreExact(ps, k);
      MembersAreGroup(gs, k);
      NothingRepeats(d);
    }
  }

  lemma NothingRepeats(d: Diag)
    ensures !Repeats([], d)
  {}

  lemma RepeatsSnoc(names: seq<string>, name: string, d: Diag)
    ensures Repeats(names + [name], d) <==>
      Repeats(names, d) || (names != [] && d == Diag(Warning, RoutingPolicy, name, Shadowed(names[0])))
  {
    var all := names + [name];
    if Repeats(names, d) {
      var i :| 1 <= i < |names| && d == Diag(Warning, RoutingPolicy, names[i], Shadowed(names[0]));
      assert all[i] == names[i];
    }
    if names != [] {
      assert all[|names|] == name && all[0] == names[0];
    }
  }

  lemma SaidBefore(front: seq<Policy>, p: Policy, d: Diag)
    ensures (exists k :: Repeats(Fellows(front + [p], k), d)) <==>
      (exists k :: Repeats(Fellows(front, k), d))
      || (Fellows(front, ScopeKey(p)) != []
          && d == Diag(Warning, RoutingPolicy, p.key, Shadowed(Fellows(front, ScopeKey(p))[0])))
  {
    hide Repeats, Fellows, ScopeKey;
    var ps, own := front + [p], ScopeKey(p);
    FellowsSnoc(front, p, own);
    RepeatsSnoc(Fellows(front, own), p.key, d);
    assert Repeats(Fellows(ps, own), d) <==>
      Repeats(Fellows(front, own), d)
      || (Fellows(front, own) != [] && d == Diag(Warning, RoutingPolicy, p.key, Shadowed(Fellows(front, own)[0])));
    if k :| Repeats(Fellows(front, k), d) {
      FellowsSnoc(front, p, k);
      assert Repeats(Fellows(ps, k), d);
    }
    if k :| Repeats(Fellows(ps, k), d) {
      FellowsSnoc(front, p, k);
    }
  }

  lemma FellowsSnoc(front: seq<Policy>, p: Policy, k: GroupKey)
    ensures Fellows(front + [p], k) == if ScopeKey(p) == k then Fellows(front, k) + [p.key] else Fellows(front, k)
  {
    hide ScopeKey;
    assert (front + [p])[..|front|] == front;
  }

  /** The first policy with the same priority, namespace and match. */
  function FirstLike(ps: seq<Policy>, p: Policy): (r: Option<Policy>)
    ensures r.Some? ==> r.value in ps && SameScope(r.value, p)
    ensures r.None? ==> forall q | q in ps :: !SameScope(q, p)
  {
    if ps == [] then None else
      var last := ps[|ps| - 1];
      var before := FirstLike(ps[..|ps| - 1], p);
      assert forall q | q in ps :: q == last || q in ps[..|ps| - 1];
      if before.Some? then before else if SameScope(last, p) then Some(last) else None
  }

  lemma {:induction false} FirstFellow(ps: seq<Policy>, p: Policy)
    ensures FirstLike(ps, p).Some? <==> Fellows(ps, ScopeKey(p)) != []
    ensures FirstLike(ps, p).Some? ==> Fellows(ps, ScopeKey(p))[0] == FirstLike(ps, p).value.key
  {
    hide ScopeKey, SameScope;
    if ps != [] {
      FirstFellow(ps[..|ps| - 1], p);
      KeysAgree(ps[|ps| - 1], p);
    }
  }

  /** A further policy adds a warning if and only if there is one like it before, and names the first such policy. */
  lemma OneMoreShadowed(front: seq<Policy>, p: Policy, ds: seq<Diag>, d: Diag)
    ensures d in ShadowWarnings(front + [p], ds) <==>
      d in ShadowWarnings(front, ds)
      || (FirstLike(front, p).Some?
          && d == Diag(Warning, RoutingPolicy, p.key, Shadowed(FirstLike(front, p).value.key)))
  {
    hide ShadowWarnings, Fellows, FirstLike, ScopeKey, Repeats;
    ShadowsSaid(front + [p], ds, d);
    ShadowsSaid(front, ds, d);
    SaidBefore(front, p, d);
    FirstFellow(front, p);
  }
}
