/**
 Status writes (cmd/routed-operator/src/status.rs): merge patches that are skipped
 when nothing changes, and the loop they trigger, which has to come to rest.
 */
module StatusLoop {
  // The Ready condition and `compiledHash` of every object are written unless the stored status already says the same;
  // every successful write fires the operator's own watch. Rules of diagnostics are turned into message text by an
  // arbitrary function. Write times and which patches succeed are inputs.

  import opened Snapshots
  import Ordering
  import C = Compiler
  import CompilerReferences
  import CompilerStages

  datatype Condition = Condition(
    type_: string, status: string, reason: string, message: string, observedGeneration: Option<int>,
    lastTransitionTime: int)

  datatype Status = Status(conditions: seq<Condition>, observedGeneration: Option<int>, compiledHash: Option<string>)

  datatype Key = Key(kind: C.Kind, name: string)

  /** An object as it was listed, with the status stored at that moment. */
  datatype Object = Object(key: Key, generation: Option<int>, status: Option<Status>)

  type Wording = C.Rule -> string

  const READY := "Ready"

  // ---- what the condition should say ----

  function DesiredStatus(error: Option<string>): string {
    if error.None? then "True" else "False"
  }

  function DesiredReason(error: Option<string>): string {
    if error.None? then "Compiled" else "CompileError"
  }

  function DesiredMessage(error: Option<string>): string {
    if error.Some? then error.value else "compiled into the current snapshot"
  }

  function FindReady(conds: seq<Condition>): (r: Option<Condition>)
    ensures r.Some? ==> r.value in conds && r.value.type_ == READY
    ensures r.None? ==> forall c | c in conds :: c.type_ != READY
  {
    if conds == [] then None else if conds[0].type_ == READY then Some(conds[0]) else FindReady(conds[1..])
  }

  predicate UpToDate(error: Option<string>, conds: seq<Condition>, observed: Option<int>, generation: Option<int>) {
    var ready := FindReady(conds);
    && observed == generation
    && ready.Some?
    && ready.value.status == DesiredStatus(error)
    && ready.value.reason == DesiredReason(error)
    && ready.value.message == DesiredMessage(error)
  }

  function ReadyCondition(error: Option<string>, existing: seq<Condition>, now: int): Condition {
    var ready := FindReady(existing);
    Condition(READY, DesiredStatus(error), DesiredReason(error), DesiredMessage(error), None,
              if ready.Some? && ready.value.status == DesiredStatus(error) then ready.value.lastTransitionTime else now)
  }

  /** The message of the first error about an object. */
  function FirstError(say: Wording, report: seq<C.Diag>, key: Key): (r: Option<string>)
    ensures r.Some? <==> exists d | d in report :: d.level == C.Error && d.kind == key.kind && d.name == key.name
  {
    if report == [] then None
    else if report[0].level == C.Error && report[0].kind == key.kind && report[0].name == key.name then
      Some(say(report[0].rule))
    else FirstError(say, report[1..], key)
  }

  // ---- merge patches ----

  /** A member of a merge patch (RFC 7396, section 2): absent keeps, null deletes, a value replaces. */
  datatype Member<T> = Absent | Null | Present(value: T)

  function Merge<T>(stored: Option<T>, m: Member<T>): Option<T> {
    match m
    case Absent => stored
    case Null => None
    case Present(v) => Some(v)
  }

  function Nullable<T>(v: Option<T>): Member<T> {
    if v.Some? then Present(v.value) else Null
  }

  datatype StatusPatch = StatusPatch(conditions: seq<Condition>, observedGeneration: Member<int>,
                                     compiledHash: Member<string>)

  function Patched(stored: Option<Status>, p: StatusPatch): Status {
    var s := if stored.Some? then stored.value else Status([], None, None);
    Status(p.conditions, Merge(s.observedGeneration, p.observedGeneration), Merge(s.compiledHash, p.compiledHash))
  }

  // ---- one object ----

  function Conditions(s: Option<Status>): seq<Condition> {
    if s.Some? then s.value.conditions else []
  }

  function Observed(s: Option<Status>): Option<int> {
    if s.Some? then s.value.observedGeneration else None
  }

  function StoredHash(s: Option<Status>): Option<string> {
    if s.Some? then s.value.compiledHash else None
  }

  /** Nothing to write: the condition is right and, on a policy that compiles, so is the hash. */
  predicate Settled(o: Object, error: Option<string>, hash: Option<string>) {
    && (o.key.kind == C.RoutingPolicy ==> error.Some? || StoredHash(o.status) == hash)
    && UpToDate(error, Conditions(o.status), Observed(o.status), o.generation)
  }

  function PatchFor(o: Object, error: Option<string>, hash: Option<string>, now: int): StatusPatch {
    StatusPatch([ReadyCondition(error, Conditions(o.status), now)], Nullable(o.generation),
                if o.key.kind == C.RoutingPolicy && error.None? then Nullable(hash) else Absent)
  }

  // ---- apply ----

  /** What the operator's stored state amounts to, and how many writes it has made. */
  datatype Store = Store(statuses: map<Key, Status>, writes: nat)

  /** When each write would happen and whether it would succeed. */
  datatype Weather = Weather(at: Key -> int, succeeds: Key -> bool)

  datatype Compiled = Compiled(
    hash: Option<string>,
    report: seq<C.Diag>,
    tiers: seq<Object>,
    dataClasses: seq<Object>,
    profiles: seq<Object>,
    policies: seq<Object>)

  function Lookup(statuses: map<Key, Status>, key: Key): Option<Status> {
    if key in statuses then Some(statuses[key]) else None
  }

  function ErrorOf(say: Wording, c: Compiled, o: Object): Option<string> {
    FirstError(say, c.report, o.key)
  }

  function ApplyOne(say: Wording, c: Compiled, w: Weather, s: Store, o: Object): Store {
    var error := ErrorOf(say, c, o);
    if Settled(o, error, c.hash) || !w.succeeds(o.key) then s
    else Store(s.statuses[o.key := Patched(Lookup(s.statuses, o.key), PatchFor(o, error, c.hash, w.at(o.key)))],
               s.writes + 1)
  }

  function ApplyAll(say: Wording, c: Compiled, w: Weather, s: Store, os: seq<Object>): Store {
    if os == [] then s else ApplyOne(say, c, w, ApplyAll(say, c, w, s, os[..|os| - 1]), os[|os| - 1])
  }

  function Objects(c: Compiled): seq<Object> {
    c.tiers + c.dataClasses + c.profiles + c.policies
  }

  lemma {:induction false} ApplyConcat(say: Wording, c: Compiled, w: Weather, s: Store, a: seq<Object>, b: seq<Object>)
    ensures ApplyAll(say, c, w, s, a + b) == ApplyAll(say, c, w, ApplyAll(say, c, w, s, a), b)
  {
    hide ApplyOne;
    if b == [] {
      assert a + b == a;
    } else {
      ApplyConcat(say, c, w, s, a, b[..|b| - 1]);
      assert (a + b)[..|a + b| - 1] == a + b[..|b| - 1];
    }
  }

  lemma ApplyPrefix(say: Wording, c: Compiled, w: Weather, s: Store, os: seq<Object>, i: nat)
    requires i < |os|
    ensures ApplyAll(say, c, w, s, os[..i + 1]) == ApplyOne(say, c, w, ApplyAll(say, c, w, s, os[..i]), os[i])
  {
    hide ApplyOne;
    assert os[..i + 1][..i] == os[..i];
  }

  class ApiServer {
    var statuses: map<Key, Status>
    var writes: nat

    ghost function View(): Store
      reads this
    {
      Store(statuses, writes)
    }

    constructor ()
      ensures View() == Store(map[], 0)
    {
      statuses, writes := map[], 0;
    }

    method PatchOne(o: Object, cond: Condition, extra: Member<string>, succeeds: bool)
      modifies this
      ensures View() == if !succeeds then old(View()) else
        Store(old(statuses)[o.key := Patched(Lookup(old(statuses), o.key),
                                             StatusPatch([cond], Nullable(o.generation), extra))], old(writes) + 1)
    {
      if succeeds {
        var patch := StatusPatch([cond], Nullable(o.generation), extra);
        statuses := statuses[o.key := Patched(Lookup(statuses, o.key), patch)];
        writes := writes + 1;
      }
    }

    /** Tiers, data classes and profiles: the condition only. */
    method ApplyConditions(say: Wording, c: Compiled, w: Weather, os: seq<Object>)
      requires forall o | o in os :: o.key.kind != C.RoutingPolicy
      modifies this
      ensures View() == ApplyAll(say, c, w, old(View()), os)
    {
      assert os[..0] == [];
      for i := 0 to |os|
        invariant View() == ApplyAll(say, c, w, old(View()), os[..i])
      {
        ApplyPrefix(say, c, w, old(View()), os, i);
        var o := os[i];
        var desired := FirstError(say, c.report, o.key);
        if UpToDate(desired, Conditions(o.status), Observed(o.status), o.generation) {
          continue;
        }
        PatchOne(o, ReadyCondition(desired, Conditions(o.status), w.at(o.key)), Absent, w.succeeds(o.key));
      }
      assert os[..|os|] == os;
    }

    /** Policies: the condition and the hash of the snapshot they were compiled into. */
    method ApplyPolicies(say: Wording, c: Compiled, w: Weather, os: seq<Object>)
      requires forall o | o in os :: o.key.kind == C.RoutingPolicy
      modifies this
      ensures View() == ApplyAll(say, c, w, old(View()), os)
    {
      assert os[..0] == [];
      for i := 0 to |os|
        invariant View() == ApplyAll(say, c, w, old(View()), os[..i])
      {
        ApplyPrefix(say, c, w, old(View()), os, i);
        var o := os[i];
        var desired := FirstError(say, c.report, o.key);
        var hashCurrent := desired.Some? || StoredHash(o.status) == c.hash;
        if hashCurrent && UpToDate(desired, Conditions(o.status), Observed(o.status), o.generation) {
          continue;
        }
        var extra := if desired.None? then Nullable(c.hash) else Absent;
        PatchOne(o, ReadyCondition(desired, Conditions(o.status), w.at(o.key)), extra, w.succeeds(o.key));
      }
      assert os[..|os|] == os;
    }

    method Apply(say: Wording, c: Compiled, w: Weather)
      requires forall o | o in c.tiers + c.dataClasses + c.profiles :: o.key.kind != C.RoutingPolicy
      requires forall o | o in c.policies :: o.key.kind == C.RoutingPolicy
      modifies this
      ensures View() == ApplyAll(say, c, w, old(View()), Objects(c))
    {
      ApplyConcat(say, c, w, View(), c.tiers + c.dataClasses + c.profiles, c.policies);
      ApplyConcat(say, c, w, View(), c.tiers + c.dataClasses, c.profiles);
      ApplyConcat(say, c, w, View(), c.tiers, c.dataClasses);
      ApplyConditions(say, c, w, c.tiers);
      ApplyConditions(say, c, w, c.dataClasses);
      ApplyConditions(say, c, w, c.profiles);
      ApplyPolicies(say, c, w, c.policies);
    }
  }

  // ---- what one apply leaves behind ----

  /** Keys identify the listed objects, and their statuses are the stored ones. */
  ghost predicate FreshlyListed(statuses: map<Key, Status>, os: seq<Object>) {
    && (forall i, j :: 0 <= i < j < |os| ==> os[i].key != os[j].key)
    && (forall o | o in os :: o.status == Lookup(statuses, o.key))
  }

  /** The status an object ends up with. */
  function After(say: Wording, c: Compiled, w: Weather, o: Object): Option<Status> {
    var error := ErrorOf(say, c, o);
    if Settled(o, error, c.hash) || !w.succeeds(o.key) then o.status
    else Some(Patched(o.status, PatchFor(o, error, c.hash, w.at(o.key))))
  }

  /** An apply leaves the statuses of other objects alone. */
  lemma {:induction false} ApplyLeavesOthers(say: Wording, c: Compiled, w: Weather, s: Store, os: seq<Object>, k: Key)
    requires forall i :: 0 <= i < |os| ==> os[i].key != k
    ensures Lookup(ApplyAll(say, c, w, s, os).statuses, k) == Lookup(s.statuses, k)
  {
    hide Settled, PatchFor, Patched, ErrorOf;
    if os != [] {
      ApplyLeavesOthers(say, c, w, s, os[..|os| - 1], k);
    }
  }

  lemma ApplyOneReaches(say: Wording, c: Compiled, w: Weather, s: Store, o: Object)
    requires o.status == Lookup(s.statuses, o.key)
    ensures Lookup(ApplyOne(say, c, w, s, o).statuses, o.key) == After(say, c, w, o)
  {
    hide Settled, PatchFor, Patched, ErrorOf;
  }

  /** Every listed object ends up with the status it should have. */
  lemma {:induction false} ApplyReaches(say: Wording, c: Compiled, w: Weather, s: Store, os: seq<Object>, i: nat)
    requires FreshlyListed(s.statuses, os) && i < |os|
    ensures Lookup(ApplyAll(say, c, w, s, os).statuses, os[i].key) == After(say, c, w, os[i])
  {
    hide ApplyOne, After, Lookup;
    var front, last := os[..|os| - 1], os[|os| - 1];
    var before := ApplyAll(say, c, w, s, front);
    assert last in os && forall o | o in front :: o in os;
    if i < |front| {
      ApplyReaches(say, c, w, s, front, i);
      assert ApplyAll(say, c, w, before, [last]) == ApplyOne(say, c, w, before, last) by {
        OneObject(say, c, w, before, last);
      }
      ApplyLeavesOthers(say, c, w, before, [last], os[i].key);
    } else {
      ApplyLeavesOthers(say, c, w, s, front, last.key);
      ApplyOneReaches(say, c, w, before, last);
    }
  }

  lemma OneObject(say: Wording, c: Compiled, w: Weather, s: Store, o: Object)
    ensures ApplyAll(say, c, w, s, [o]) == ApplyOne(say, c, w, s, o)
  {
    hide ApplyOne;
    assert [o][..0] == [];
  }

  /** The same objects listed again. */
  function Relisted(statuses: map<Key, Status>, os: seq<Object>): (r: seq<Object>)
    ensures |r| == |os|
    ensures forall i :: 0 <= i < |os| ==> r[i] == os[i].(status := Lookup(statuses, os[i].key))
  {
    seq(|os|, i requires 0 <= i < |os| => os[i].(status := Lookup(statuses, os[i].key)))
  }

  lemma PatchSettles(o: Object, error: Option<string>, hash: Option<string>, now: int)
    ensures Settled(o.(status := Some(Patched(o.status, PatchFor(o, error, hash, now)))), error, hash)
  {}

  lemma AfterIsSettled(say: Wording, c: Compiled, w: Weather, o: Object)
    ensures Settled(o.(status := After(say, c, w, o)), ErrorOf(say, c, o), c.hash) <==>
            Settled(o, ErrorOf(say, c, o), c.hash) || w.succeeds(o.key)
  {
    hide Settled, PatchFor, Patched, ErrorOf;
    PatchSettles(o, ErrorOf(say, c, o), c.hash, w.at(o.key));
  }

  ghost predicate AllSettled(say: Wording, c: Compiled, os: seq<Object>) {
    forall o | o in os :: Settled(o, ErrorOf(say, c, o), c.hash)
  }

  /** One apply whose patches succeed makes every object up to date, whether or not the compile succeeded. */
  lemma OneApplySettles(say: Wording, c: Compiled, w: Weather, s: Store, os: seq<Object>)
    requires FreshlyListed(s.statuses, os) && forall o | o in os :: w.succeeds(o.key)
    ensures AllSettled(say, c, Relisted(ApplyAll(say, c, w, s, os).statuses, os))
  {
    hide Settled, After, ApplyAll;
    var again := Relisted(ApplyAll(say, c, w, s, os).statuses, os);
    forall o | o in again ensures Settled(o, ErrorOf(say, c, o), c.hash) {
      var i :| 0 <= i < |again| && again[i] == o;
      assert os[i] in os;
      ApplyReaches(say, c, w, s, os, i);
      AfterIsSettled(say, c, w, os[i]);
    }
  }

  /** An apply over settled objects writes nothing. */
  lemma {:induction false} SettledApplyWritesNothing(say: Wording, c: Compiled, w: Weather, s: Store, os: seq<Object>)
    requires AllSettled(say, c, os)
    ensures ApplyAll(say, c, w, s, os) == s
  {
    hide Settled;
    if os != [] {
      assert os[|os| - 1] in os;
      SettledApplyWritesNothing(say, c, w, s, os[..|os| - 1]);
    }
  }

  /** So with specs fixed the second apply is silent. */
  lemma SecondApplyWritesNothing(say: Wording, c: Compiled, w: Weather, w': Weather, s: Store, os: seq<Object>)
    requires FreshlyListed(s.statuses, os) && forall o | o in os :: w.succeeds(o.key)
    ensures var s' := ApplyAll(say, c, w, s, os); ApplyAll(say, c, w', s', Relisted(s'.statuses, os)) == s'
  {
    OneApplySettles(say, c, w, s, os);
    SettledApplyWritesNothing(say, c, w', ApplyAll(say, c, w, s, os),
                              Relisted(ApplyAll(say, c, w, s, os).statuses, os));
  }

  // ---- the self-triggered loop comes to rest ----

  function Stale(say: Wording, c: Compiled, os: seq<Object>): nat {
    if os == [] then 0
    else Stale(say, c, os[..|os| - 1]) + (if Settled(os[|os| - 1], ErrorOf(say, c, os[|os| - 1]), c.hash) then 0 else 1)
  }

  /** Whichever patches fail, every write makes one stale object fewer. */
  lemma {:induction false} WritesReduceStaleness(say: Wording, c: Compiled, w: Weather, s: Store, os: seq<Object>)
    requires FreshlyListed(s.statuses, os)
    ensures var s' := ApplyAll(say, c, w, s, os);
      Stale(say, c, Relisted(s'.statuses, os)) + s'.writes == Stale(say, c, os) + s.writes
    decreases |os|
  {
    hide Settled, After, ErrorOf;
    if os != [] {
      var front, last := os[..|os| - 1], os[|os| - 1];
      assert os == front + [last];
      WritesReduceStaleness(say, c, w, s, front);
      var s', s1 := ApplyAll(say, c, w, s, os), ApplyAll(say, c, w, s, front);
      forall i | 0 <= i < |front| ensures Relisted(s'.statuses, os)[i] == Relisted(s1.statuses, front)[i] {
        ApplyReaches(say, c, w, s, os, i);
        ApplyReaches(say, c, w, s, front, i);
      }
      ApplyReaches(say, c, w, s, os, |front|);
      assert Relisted(s'.statuses, os)[..|front|] == Relisted(s1.statuses, front);
      assert last in os;
      SameError(say, c, last, s'.statuses);
      AfterIsSettled(say, c, w, last);
    }
  }

  lemma SameError(say: Wording, c: Compiled, o: Object, statuses: map<Key, Status>)
    ensures ErrorOf(say, c, o.(status := Lookup(statuses, o.key))) == ErrorOf(say, c, o)
  {}

  /** The store after the loop has run once per element of `ws`, relisting each time. */
  function Loop(say: Wording, c: Compiled, ws: seq<Weather>, s: Store, os: seq<Object>): Store {
    if ws == [] then s else
      var before := Loop(say, c, ws[..|ws| - 1], s, os);
      ApplyAll(say, c, ws[|ws| - 1], before, Relisted(before.statuses, os))
  }

  lemma RelistedIsFresh(statuses: map<Key, Status>, os: seq<Object>)
    ensures (forall i, j :: 0 <= i < j < |os| ==> os[i].key != os[j].key) ==>
      FreshlyListed(statuses, Relisted(statuses, os))
  {}

  lemma RelistedTwice(a: map<Key, Status>, b: map<Key, Status>, os: seq<Object>)
    ensures Relisted(b, Relisted(a, os)) == Relisted(b, os)
  {}

  /** However often the loop fires and whatever fails, it never writes more than there were stale objects. */
  lemma {:induction false} LoopIsBounded(say: Wording, c: Compiled, ws: seq<Weather>, s: Store, os: seq<Object>)
    requires FreshlyListed(s.statuses, os)
    ensures var s' := Loop(say, c, ws, s, os);
      Stale(say, c, Relisted(s'.statuses, os)) + s'.writes == Stale(say, c, os) + s.writes
  {
    hide Settled, ApplyAll, Stale;
    if ws == [] {
      assert Relisted(s.statuses, os) == os;
    } else {
      LoopIsBounded(say, c, ws[..|ws| - 1], s, os);
      var before := Loop(say, c, ws[..|ws| - 1], s, os);
      RelistedIsFresh(before.statuses, os);
      WritesReduceStaleness(say, c, ws[|ws| - 1], before, Relisted(before.statuses, os));
      RelistedTwice(before.statuses, Loop(say, c, ws, s, os).statuses, os);
    }
  }

  // ---- the transition time ----

  /** One reconcile as a single object sees it. */
  datatype Turn = Turn(error: Option<string>, hash: Option<string>, generation: Option<int>, now: int, succeeds: bool)

  function Turned(key: Key, s: Option<Status>, t: Turn): Option<Status> {
    var o := Object(key, t.generation, s);
    if Settled(o, t.error, t.hash) || !t.succeeds then s else Some(Patched(s, PatchFor(o, t.error, t.hash, t.now)))
  }

  /** The turn wrote: there was something to write and the patch succeeded. */
  predicate Writes(key: Key, s: Option<Status>, t: Turn) {
    !Settled(Object(key, t.generation, s), t.error, t.hash) && t.succeeds
  }

  function StatusAfter(key: Key, turns: seq<Turn>): Option<Status> {
    if turns == [] then None else Turned(key, StatusAfter(key, turns[..|turns| - 1]), turns[|turns| - 1])
  }

  /** The stored Ready value, if there is one. */
  function ReadyValue(s: Option<Status>): Option<string> {
    var ready := FindReady(Conditions(s));
    if ready.Some? then Some(ready.value.status) else None
  }

  /** Turn `k` wrote, the stored Ready value was another before it, or absent, and has not changed since. */
  ghost predicate BeganAt(key: Key, turns: seq<Turn>, k: nat)
    requires k < |turns|
  {
    && Writes(key, StatusAfter(key, turns[..k]), turns[k])
    && ReadyValue(StatusAfter(key, turns[..k])) != ReadyValue(StatusAfter(key, turns))
    && forall j :: k < j <= |turns| ==> ReadyValue(StatusAfter(key, turns[..j])) == ReadyValue(StatusAfter(key, turns))
  }

  /** What one turn leaves: nothing new, or the desired value with its time kept or set. */
  lemma TurnedReady(key: Key, s: Option<Status>, t: Turn)
    ensures !Writes(key, s, t) ==> Turned(key, s, t) == s
    ensures Writes(key, s, t) ==>
      var ready := FindReady(Conditions(Turned(key, s, t)));
      && Turned(key, s, t).Some? && ready.Some? && ready.value.status == DesiredStatus(t.error)
      && ready.value.lastTransitionTime
         == (if ReadyValue(s) == Some(DesiredStatus(t.error))
             then FindReady(Conditions(s)).value.lastTransitionTime else t.now)
  {
    hide UpToDate, DesiredStatus, DesiredReason, DesiredMessage;
  }

  lemma StillBegan(key: Key, front: seq<Turn>, t: Turn, k: nat)
    requires k < |front| && BeganAt(key, front, k)
    requires ReadyValue(StatusAfter(key, front + [t])) == ReadyValue(StatusAfter(key, front))
    ensures BeganAt(key, front + [t], k)
  {
    hide Writes, StatusAfter, ReadyValue;
    var turns := front + [t];
    assert turns[..|turns|] == turns && front[..|front|] == front;
    assert forall j :: 0 <= j <= |front| ==> turns[..j] == front[..j];
  }

  lemma BeginsHere(key: Key, front: seq<Turn>, t: Turn)
    requires Writes(key, StatusAfter(key, front), t)
    requires ReadyValue(StatusAfter(key, front + [t])) != ReadyValue(StatusAfter(key, front))
    ensures BeganAt(key, front + [t], |front|)
  {
    hide Writes, StatusAfter, ReadyValue;
    var turns := front + [t];
    assert turns[..|front|] == front && turns[..|turns|] == turns;
  }

  lemma {:induction false} RunStarts(key: Key, turns: seq<Turn>)
    ensures var s := StatusAfter(key, turns); var ready := FindReady(Conditions(s));
      s.Some? ==>
        && ready.Some?
        && exists k :: 0 <= k < |turns| && BeganAt(key, turns, k) && ready.value.lastTransitionTime == turns[k].now
  {
    hide BeganAt, Writes, Turned;
    if turns != [] {
      var front, t := turns[..|turns| - 1], turns[|turns| - 1];
      assert turns == front + [t];
      RunStarts(key, front);
      var before, after := StatusAfter(key, front), StatusAfter(key, turns);
      TurnedReady(key, before, t);
      if after.Some? {
        if ReadyValue(after) == ReadyValue(before) {
          ReadyNeedsStatus(before);
          var k :| 0 <= k < |front| && BeganAt(key, front, k)
                   && FindReady(Conditions(before)).value.lastTransitionTime == front[k].now;
          StillBegan(key, front, t, k);
          assert turns[k] == front[k];
        } else {
          BeginsHere(key, front, t);
          assert turns[|front|] == t;
        }
      }
    }
  }

  lemma ReadyNeedsStatus(s: Option<Status>)
    ensures ReadyValue(s).Some? ==> s.Some?
  {}

  /** There is only one such write. */
  lemma RunBeganOnce(key: Key, turns: seq<Turn>, j: nat, k: nat)
    requires j < |turns| && k < |turns| && BeganAt(key, turns, j) && BeganAt(key, turns, k)
    ensures j == k
  {
    hide Writes, ReadyValue, StatusAfter;
  }

  /**
   Whatever the history, a stored status has one write that began the current True/False run, and that write's time
   is its `lastTransitionTime`.
   */
  lemma TransitionTimeIsRunStart(key: Key, turns: seq<Turn>)
    ensures var s := StatusAfter(key, turns); var ready := FindReady(Conditions(s));
      s.Some? ==>
        && ready.Some?
        && (exists k :: 0 <= k < |turns| && BeganAt(key, turns, k))
        && forall k :: 0 <= k < |turns| && BeganAt(key, turns, k) ==> ready.value.lastTransitionTime == turns[k].now
  {
    hide BeganAt;
    RunStarts(key, turns);
    forall j, k | 0 <= j < |turns| && 0 <= k < |turns| && BeganAt(key, turns, j) && BeganAt(key, turns, k)
      ensures j == k
    {
      RunBeganOnce(key, turns, j, k);
    }
  }

  /** And none without a stored status: as long as nothing is stored no turn has written. */
  lemma {:induction false} NothingStoredNothingWritten(key: Key, turns: seq<Turn>)
    ensures StatusAfter(key, turns).None? <==>
      forall k :: 0 <= k < |turns| ==> !Writes(key, StatusAfter(key, turns[..k]), turns[k])
  {
    hide Writes, Turned;
    if turns != [] {
      var front, t := turns[..|turns| - 1], turns[|turns| - 1];
      assert turns == front + [t];
      NothingStoredNothingWritten(key, front);
      assert forall k :: 0 <= k <= |front| ==> turns[..k] == front[..k];
      assert turns[..|front|] == front && turns[|front|] == t;
      TurnedReady(key, StatusAfter(key, front), t);
    }
  }

  // ---- readiness and compilation ----

  function NameIn(kind: C.Kind): string -> Key {
    (n: string) => Key(kind, n)
  }

  function KeyOf(o: Object): Key {
    o.key
  }

  function Keys(os: seq<Object>): seq<Key> {
    Ordering.Map(KeyOf, os)
  }

  /** The status writer works on the objects, the report and the hash of one compilation. */
  ghost predicate Describes(c: Compiled, input: C.CompileInput, hash: Core -> string) {
    && c.report == C.Compile(input).report
    && c.hash == (if C.Compile(input).core.Some? then Some(hash(C.Compile(input).core.value)) else None)
    && Keys(c.tiers) == Ordering.Map(NameIn(C.ModelTier), CompilerStages.NamesOf(input, C.ModelTier))
    && Keys(c.dataClasses) == Ordering.Map(NameIn(C.DataClassKind), CompilerStages.NamesOf(input, C.DataClassKind))
    && Keys(c.profiles) == Ordering.Map(NameIn(C.RouterProfile), CompilerStages.NamesOf(input, C.RouterProfile))
    && Keys(c.policies) == Ordering.Map(NameIn(C.RoutingPolicy), CompilerStages.NamesOf(input, C.RoutingPolicy))
  }

  function Group(c: Compiled, kind: C.Kind): seq<Object> {
    match kind
    case ModelTier => c.tiers
    case DataClassKind => c.dataClasses
    case RouterProfile => c.profiles
    case RoutingPolicy => c.policies
  }

  lemma NamedObjectExists(
    c: Compiled, input: C.CompileInput, hash: Core -> string, kind: C.Kind, name: string)
    returns (o: Object)
    requires Describes(c, input, hash) && name in CompilerStages.NamesOf(input, kind)
    ensures o in Objects(c) && o.key == Key(kind, name)
  {
    hide C.Compile, CompilerStages.NamesOf;
    var names, os := CompilerStages.NamesOf(input, kind), Group(c, kind);
    var i :| 0 <= i < |names| && names[i] == name;
    assert Keys(os)[i] == Key(kind, name);
    o := os[i];
    assert o in os;
  }

  /** Compilation succeeds if and only if no object it was given has an error. */
  lemma CompiledIffNoObjectFails(say: Wording, c: Compiled, input: C.CompileInput, hash: Core -> string)
    requires Describes(c, input, hash)
    ensures C.Compile(input).core.Some? <==> forall o | o in Objects(c) :: ErrorOf(say, c, o).None?
  {
    hide C.Compile, CompilerStages.NamesOf, Describes, Objects;
    DescribesReport(c, input, hash);
    CompilerReferences.CompileIsExact(input);
    CompilerStages.ErrorsNameObjects(input);
    if C.HasErrors(c.report) {
      var i :| 0 <= i < |c.report| && c.report[i].level == C.Error;
      var d := c.report[i];
      assert d in C.Compile(input).report;
      var o := NamedObjectExists(c, input, hash, d.kind, d.name);
      assert ErrorOf(say, c, o).Some?;
    }
  }

  lemma DescribesReport(c: Compiled, input: C.CompileInput, hash: Core -> string)
    requires Describes(c, input, hash)
    ensures c.report == C.Compile(input).report
    ensures c.hash == if C.Compile(input).core.Some? then Some(hash(C.Compile(input).core.value)) else None
  {
    hide C.Compile;
  }

  predicate IsReady(o: Object) {
    var ready := FindReady(Conditions(o.status));
    ready.Some? && ready.value.status == "True"
  }

  lemma SettledReadiness(o: Object, error: Option<string>, hash: Option<string>)
    requires Settled(o, error, hash)
    ensures IsReady(o) <==> error.None?
    ensures o.key.kind == C.RoutingPolicy && error.None? ==> StoredHash(o.status) == hash
  {}

  /**
   From compile to status: once an apply has gone through, every object is Ready exactly when the set compiled,
   and then every policy names the snapshot it was compiled into.
   */
  lemma ReadinessIsCompilation(
    say: Wording, c: Compiled, w: Weather, s: Store, input: C.CompileInput, hash: Core -> string)
    requires Describes(c, input, hash)
    requires FreshlyListed(s.statuses, Objects(c)) && forall o | o in Objects(c) :: w.succeeds(o.key)
    ensures var now := Relisted(ApplyAll(say, c, w, s, Objects(c)).statuses, Objects(c));
      && (C.Compile(input).core.Some? <==> forall o | o in now :: IsReady(o))
      && (C.Compile(input).core.Some? ==>
            forall o | o in now && o.key.kind == C.RoutingPolicy ::
              StoredHash(o.status) == Some(hash(C.Compile(input).core.value)))
  {
    hide C.Compile, Describes, ErrorOf, Settled, IsReady, Objects;
    var os := Objects(c);
    var now := Relisted(ApplyAll(say, c, w, s, os).statuses, os);
    OneApplySettles(say, c, w, s, os);
    CompiledIffNoObjectFails(say, c, input, hash);
    DescribesReport(c, input, hash);
    forall o | o in now
      ensures IsReady(o) <==> ErrorOf(say, c, o).None?
      ensures o.key.kind == C.RoutingPolicy && ErrorOf(say, c, o).None? ==> StoredHash(o.status) == c.hash
    {
      SettledReadiness(o, ErrorOf(say, c, o), c.hash);
    }
    forall i | 0 <= i < |os| ensures ErrorOf(say, c, now[i]) == ErrorOf(say, c, os[i]) {
      ErrorByKey(say, c, now[i], os[i]);
    }
    assert forall o | o in os :: exists i :: 0 <= i < |os| && os[i] == o;
    assert forall i :: 0 <= i < |os| ==> now[i] in now;
  }

  lemma ErrorByKey(say: Wording, c: Compiled, a: Object, b: Object)
    ensures a.key == b.key ==> ErrorOf(say, c, a) == ErrorOf(say, c, b)
  {}
}
