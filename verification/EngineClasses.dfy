/**
 Which data class a request has, on the text of its headers and the numbers of its findings.
 */
module EngineClasses {
  import opened Ordering
  import opened TextForms
  import opened Snapshots
  import opened Engine

  // ---- when a class is suggested ----

  /** Without white space around it the header is the name of the class, in any case, or one of its header values. */
  ghost predicate ClaimedBy(dc: DataClass, header: string) {
    exists bare, key :: Trimmed(header, bare) && Lowered(bare, key)
      && (SameButForCase(dc.name, bare) || key in dc.headerValues)
  }

  lemma LowerTwice(s: string)
    ensures Lower(Lower(s)) == Lower(s)
  {
    LowerExactly(s, Lower(s));
    LowerExactly(Lower(s), Lower(s));
  }

  lemma ClaimsHeaderExactly(dc: DataClass, header: string)
    ensures ClaimsHeader(dc, HeaderKey(header)) <==> ClaimedBy(dc, header)
  {
    hide Lower, Trim, Trimmed, Lowered, SameButForCase;
    var bare := Trim(header);
    TrimExactly(header, bare);
    LowerExactly(bare, Lower(bare));
    LowerTwice(bare);
    SameLower(dc.name, bare);
    if b, key :| Trimmed(header, b) && Lowered(b, key) && (SameButForCase(dc.name, b) || key in dc.headerValues) {
      TrimExactly(header, b);
      LowerExactly(b, key);
    }
  }

  /**
   An entity of the class was found, with a confidence no more than a billionth below the one the class asks for; an
   entity without a confidence was found with certainty.
   */
  ghost predicate PiiSuggests(dc: DataClass, f: Findings) {
    exists e :: e in f.piiEntities && e in dc.piiEntities
      && (e in f.piiConfidence ==> dc.minConfidence <= f.piiConfidence[e] + 0.000000001)
      && (e !in f.piiConfidence ==> dc.minConfidence <= 1.000000001)
  }

  lemma PiiHitExactly(dc: DataClass, f: Findings)
    ensures PiiHit(dc, f) <==> PiiSuggests(dc, f)
  {}

  /**
   The class with name `n` is suggested at a stage: by the header with that number, after all headers by the label
   that was inferred, and last by the entities that were found.
   */
  ghost predicate Offered(dc: DataClass, headers: seq<string>, f: Findings, stage: nat, n: string) {
    if stage < |headers| then ClaimedBy(dc, headers[stage])
    else if stage == |headers| then f.inferredDataClass == Some(n)
    else stage == |headers| + 1 && PiiSuggests(dc, f)
  }

  ghost predicate Suggested(classes: map<string, DataClass>, headers: seq<string>, f: Findings, stage: nat, n: string) {
    n in classes && Offered(classes[n], headers, f, stage, n)
  }

  /** A higher rank wins; among equals the earlier stage, and within a stage the name that sorts first. */
  predicate Beats(classes: map<string, DataClass>, stage: nat, n: string, stage': nat, n': string)
    requires n in classes && n' in classes
  {
    || classes[n'].rank < classes[n].rank
    || (classes[n'].rank == classes[n].rank && (stage < stage' || (stage == stage' && StrLe(n, n'))))
  }

  // ---- the running best ----

  /** Suggested in an earlier stage, or in this one under one of the first `k` names. */
  ghost predicate Seen(
    classes: map<string, DataClass>, headers: seq<string>, f: Findings, stages: nat, names: seq<string>, k: nat,
    stage: nat, n: string)
    requires k <= |names|
  {
    Suggested(classes, headers, f, stage, n) && (stage < stages || (stage == stages && n in names[..k]))
  }

  /** The suggestion beats all that were seen. */
  ghost predicate BeatsSeen(
    classes: map<string, DataClass>, headers: seq<string>, f: Findings, stages: nat, names: seq<string>, k: nat,
    stage: nat, n: string)
    requires k <= |names| && n in classes
  {
    forall stage', n' | Seen(classes, headers, f, stages, names, k, stage', n') :: Beats(classes, stage, n, stage', n')
  }

  ghost predicate BestSeen(
    r: Option<DataClass>, classes: map<string, DataClass>, headers: seq<string>, f: Findings, stages: nat,
    names: seq<string>, k: nat)
    requires k <= |names|
  {
    match r
    case None => forall stage, n :: !Seen(classes, headers, f, stages, names, k, stage, n)
    case Some(dc) => exists stage, n ::
      && Seen(classes, headers, f, stages, names, k, stage, n) && dc == classes[n]
      && BeatsSeen(classes, headers, f, stages, names, k, stage, n)
  }

  lemma SeenSnoc(
    classes: map<string, DataClass>, headers: seq<string>, f: Findings, stages: nat, names: seq<string>, k: nat)
    requires k < |names|
    ensures forall stage, n :: Seen(classes, headers, f, stages, names, k + 1, stage, n) <==>
      || Seen(classes, headers, f, stages, names, k, stage, n)
      || (stage == stages && n == names[k] && Suggested(classes, headers, f, stages, names[k]))
  {
    hide Offered;
    assert names[..k + 1] == names[..k] + [names[k]];
    assert forall n :: n in names[..k + 1] <==> n in names[..k] || n == names[k];
  }

  lemma NothingNew(
    r: Option<DataClass>, classes: map<string, DataClass>, headers: seq<string>, f: Findings, stages: nat,
    names: seq<string>, k: nat)
    requires k < |names| && BestSeen(r, classes, headers, f, stages, names, k)
    requires !Suggested(classes, headers, f, stages, names[k])
    ensures BestSeen(r, classes, headers, f, stages, names, k + 1)
  {
    hide Offered, Beats;
    SeenSnoc(classes, headers, f, stages, names, k);
    if r.Some? {
      var stage, n :| Seen(classes, headers, f, stages, names, k, stage, n) && r.value == classes[n]
        && BeatsSeen(classes, headers, f, stages, names, k, stage, n);
      assert Seen(classes, headers, f, stages, names, k + 1, stage, n);
      forall stage', n' | Seen(classes, headers, f, stages, names, k + 1, stage', n')
        ensures Beats(classes, stage, n, stage', n')
      {
        assert Seen(classes, headers, f, stages, names, k, stage', n');
      }
      assert BeatsSeen(classes, headers, f, stages, names, k + 1, stage, n);
    } else {
      var next := k + 1;
      forall stage, n ensures !Seen(classes, headers, f, stages, names, next, stage, n) {
        assert !Seen(classes, headers, f, stages, names, k, stage, n);
      }
    }
  }

  lemma NewBest(
    r: Option<DataClass>, classes: map<string, DataClass>, headers: seq<string>, f: Findings, stages: nat,
    names: seq<string>, k: nat)
    requires k < |names| && BestSeen(r, classes, headers, f, stages, names, k)
    requires Suggested(classes, headers, f, stages, names[k])
    requires r.Some? ==> r.value.rank < classes[names[k]].rank
    ensures BestSeen(Some(classes[names[k]]), classes, headers, f, stages, names, k + 1)
  {
    hide Offered;
    SeenSnoc(classes, headers, f, stages, names, k);
    StrTotal(names[k], names[k]);
    forall stage', n' | Seen(classes, headers, f, stages, names, k + 1, stage', n')
      ensures Beats(classes, stages, names[k], stage', n')
    {
      if Seen(classes, headers, f, stages, names, k, stage', n') {
        var stage, n :| Seen(classes, headers, f, stages, names, k, stage, n) && r.value == classes[n]
          && BeatsSeen(classes, headers, f, stages, names, k, stage, n);
        assert Beats(classes, stage, n, stage', n');
      }
    }
    assert Seen(classes, headers, f, stages, names, k + 1, stages, names[k]);
    assert BeatsSeen(classes, headers, f, stages, names, k + 1, stages, names[k]);
  }

  lemma EarlierSortsFirst(names: seq<string>, k: nat, n: string)
    requires k < |names| && StrictlyAscending(names) && n in names[..k]
    ensures StrLe(n, names[k])
  {}

  lemma SameBest(
    r: Option<DataClass>, classes: map<string, DataClass>, headers: seq<string>, f: Findings, stages: nat,
    names: seq<string>, k: nat)
    requires k < |names| && StrictlyAscending(names) && BestSeen(r, classes, headers, f, stages, names, k)
    requires Suggested(classes, headers, f, stages, names[k])
    requires r.Some? && classes[names[k]].rank <= r.value.rank
    ensures BestSeen(r, classes, headers, f, stages, names, k + 1)
  {
    hide Offered, StrictlyAscending, StrLe;
    SeenSnoc(classes, headers, f, stages, names, k);
    var stage, n :| Seen(classes, headers, f, stages, names, k, stage, n) && r.value == classes[n]
      && BeatsSeen(classes, headers, f, stages, names, k, stage, n);
    if stage == stages {
      EarlierSortsFirst(names, k, n);
    }
    assert Beats(classes, stage, n, stages, names[k]);
    assert Seen(classes, headers, f, stages, names, k + 1, stage, n);
    forall stage', n' | Seen(classes, headers, f, stages, names, k + 1, stage', n')
      ensures Beats(classes, stage, n, stage', n')
    {}
    assert BeatsSeen(classes, headers, f, stages, names, k + 1, stage, n);
  }

  /** One more name of a stage: it takes over exactly if its rank is strictly higher. */
  lemma OneMoreName(
    r: Option<DataClass>, classes: map<string, DataClass>, headers: seq<string>, f: Findings, stages: nat,
    names: seq<string>, k: nat)
    requires k < |names| && StrictlyAscending(names) && BestSeen(r, classes, headers, f, stages, names, k)
    ensures Suggested(classes, headers, f, stages, names[k]) ==> names[k] in classes
    ensures var r' := if Suggested(classes, headers, f, stages, names[k]) then Consider(r, classes[names[k]]) else r;
      BestSeen(r', classes, headers, f, stages, names, k + 1)
  {
    hide BestSeen, StrictlyAscending;
    if !Suggested(classes, headers, f, stages, names[k]) {
      NothingNew(r, classes, headers, f, stages, names, k);
    } else if r.None? || r.value.rank < classes[names[k]].rank {
      NewBest(r, classes, headers, f, stages, names, k);
    } else {
      SameBest(r, classes, headers, f, stages, names, k);
    }
  }

  // ---- stage by stage ----

  /** The classes under the first names. */
  function Named(classes: map<string, DataClass>, names: seq<string>): (r: seq<DataClass>)
    requires forall n | n in names :: n in classes
    ensures |r| == |names| && forall i :: 0 <= i < |names| ==> r[i] == classes[names[i]]
  {
    seq(|names|, i requires 0 <= i < |names| => assert names[i] in names; classes[names[i]])
  }

  lemma ClassesAreNamed(classes: map<string, DataClass>)
    ensures var names := Ascending(classes.Keys);
      && StrictlyAscending(names) && (forall n :: n in names <==> n in classes)
      && ClassesInOrder(classes) == Named(classes, names)
  {
    AscendingSound(classes.Keys);
  }

  lemma ConsideredSnoc(start: Option<DataClass>, dcs: seq<DataClass>, dc: DataClass)
    ensures ConsiderAll(start, dcs + [dc]) == Consider(ConsiderAll(start, dcs), dc)
  {
    assert (dcs + [dc])[..|dcs|] == dcs;
  }

  lemma {:induction false} StageByNames(
    start: Option<DataClass>, test: DataClass -> bool, classes: map<string, DataClass>, headers: seq<string>,
    f: Findings, stages: nat, names: seq<string>, k: nat)
    requires k <= |names| && StrictlyAscending(names) && BestSeen(start, classes, headers, f, stages, names, 0)
    requires forall n | n in names :: n in classes
    requires forall n | n in names :: test(classes[n]) <==> Suggested(classes, headers, f, stages, n)
    ensures
      BestSeen(ConsiderAll(start, Filter(test, Named(classes, names)[..k])), classes, headers, f, stages, names, k)
  {
    hide BestSeen, Suggested, StrictlyAscending, Consider;
    if k == 0 {
      assert Filter(test, Named(classes, names)[..0]) == [];
    } else {
      StageByNames(start, test, classes, headers, f, stages, names, k - 1);
      var dcs := Named(classes, names);
      var before := Filter(test, dcs[..k - 1]);
      FilterPrefix(test, dcs, k - 1);
      ConsideredSnoc(start, before, dcs[k - 1]);
      assert names[k - 1] in names;
      OneMoreName(ConsiderAll(start, before), classes, headers, f, stages, names, k - 1);
    }
  }

  lemma NextStage(
    r: Option<DataClass>, classes: map<string, DataClass>, headers: seq<string>, f: Findings, stages: nat,
    names: seq<string>)
    requires forall n :: n in names <==> n in classes
    requires BestSeen(r, classes, headers, f, stages, names, |names|)
    ensures BestSeen(r, classes, headers, f, stages + 1, names, 0)
  {
    hide Offered, Beats;
    assert names[..|names|] == names;
    forall stage, n
      ensures Seen(classes, headers, f, stages + 1, names, 0, stage, n)
              <==> Seen(classes, headers, f, stages, names, |names|, stage, n)
    {}
    if r.Some? {
      var stage, n :| Seen(classes, headers, f, stages, names, |names|, stage, n) && r.value == classes[n]
        && BeatsSeen(classes, headers, f, stages, names, |names|, stage, n);
      assert Seen(classes, headers, f, stages + 1, names, 0, stage, n);
      forall stage', n' | Seen(classes, headers, f, stages + 1, names, 0, stage', n')
        ensures Beats(classes, stage, n, stage', n')
      {
        assert Seen(classes, headers, f, stages, names, |names|, stage', n');
      }
      assert BeatsSeen(classes, headers, f, stages + 1, names, 0, stage, n);
    } else {
      var later := stages + 1;
      forall stage, n ensures !Seen(classes, headers, f, later, names, 0, stage, n) {
        assert !Seen(classes, headers, f, stages, names, |names|, stage, n);
      }
    }
  }

  /** A whole stage that offers every class the test accepts. */
  lemma WholeStage(
    start: Option<DataClass>, test: DataClass -> bool, classes: map<string, DataClass>, headers: seq<string>,
    f: Findings, stages: nat)
    requires BestSeen(start, classes, headers, f, stages, Ascending(classes.Keys), 0)
    requires forall n | n in classes :: test(classes[n]) <==> Suggested(classes, headers, f, stages, n)
    ensures BestSeen(ConsiderAll(start, Filter(test, ClassesInOrder(classes))), classes, headers, f, stages + 1,
                     Ascending(classes.Keys), 0)
  {
    hide BestSeen, Suggested, StrictlyAscending, ConsiderAll;
    var names := Ascending(classes.Keys);
    ClassesAreNamed(classes);
    StageByNames(start, test, classes, headers, f, stages, names, |names|);
    assert Named(classes, names)[..|names|] == Named(classes, names);
    NextStage(ConsiderAll(start, Filter(test, Named(classes, names))), classes, headers, f, stages, names);
  }

  lemma NothingSeen(classes: map<string, DataClass>, headers: seq<string>, f: Findings, names: seq<string>)
    ensures BestSeen(None, classes, headers, f, 0, names, 0)
  {}

  lemma {:induction false} HeaderStages(
    classes: map<string, DataClass>, headers: seq<string>, f: Findings, all: seq<string>)
    requires headers <= all
    ensures BestSeen(ConsiderHeaders(classes, headers), classes, all, f, |headers|, Ascending(classes.Keys), 0)
  {
    hide BestSeen, Offered, ConsiderAll, HeaderKey, ClaimsHeader, ClaimedBy;
    if headers == [] {
      NothingSeen(classes, all, f, Ascending(classes.Keys));
    } else {
      var front, last := headers[..|headers| - 1], headers[|headers| - 1];
      assert front <= all;
      HeaderStages(classes, front, f, all);
      forall n | n in classes
        ensures Claiming(HeaderKey(last))(classes[n]) <==> Suggested(classes, all, f, |front|, n)
      {
        ClaimsHeaderExactly(classes[n], last);
        HeaderOffers(classes[n], all, f, |front|, n);
      }
      WholeStage(ConsiderHeaders(classes, front), Claiming(HeaderKey(last)), classes, all, f, |front|);
    }
  }

  lemma HeaderOffers(dc: DataClass, headers: seq<string>, f: Findings, stage: nat, n: string)
    requires stage < |headers|
    ensures Offered(dc, headers, f, stage, n) <==> ClaimedBy(dc, headers[stage])
  {}

  /** The stage of the inferred label offers one class at most. */
  lemma LabelStage(start: Option<DataClass>, classes: map<string, DataClass>, headers: seq<string>, f: Findings)
    requires BestSeen(start, classes, headers, f, |headers|, Ascending(classes.Keys), 0)
    ensures var inferred := f.inferredDataClass;
      var r := if inferred.Some? && inferred.value in classes then Consider(start, classes[inferred.value]) else start;
      BestSeen(r, classes, headers, f, |headers| + 1, Ascending(classes.Keys), 0)
  {
    hide BestSeen, StrictlyAscending, Consider;
    var inferred, names := f.inferredDataClass, Ascending(classes.Keys);
    ClassesAreNamed(classes);
    LabelByNames(start, classes, headers, f, names, |names|);
    var r := LabelBest(start, classes, f, names[..|names|]);
    assert names[..|names|] == names;
    NextStage(r, classes, headers, f, |headers|, names);
  }

  /** What the label makes of the running best, once its name has come up. */
  function LabelBest(start: Option<DataClass>, classes: map<string, DataClass>, f: Findings, names: seq<string>)
    : Option<DataClass>
  {
    var inferred := f.inferredDataClass;
    if inferred.Some? && inferred.value in names && inferred.value in classes then
      Consider(start, classes[inferred.value])
    else start
  }

  lemma {:induction false} LabelByNames(
    start: Option<DataClass>, classes: map<string, DataClass>, headers: seq<string>, f: Findings, names: seq<string>,
    k: nat)
    requires k <= |names| && StrictlyAscending(names) && BestSeen(start, classes, headers, f, |headers|, names, 0)
    requires forall n | n in names :: n in classes
    ensures BestSeen(LabelBest(start, classes, f, names[..k]), classes, headers, f, |headers|, names, k)
  {
    hide BestSeen, Consider, ClaimedBy, PiiSuggests;
    if k > 0 {
      LabelByNames(start, classes, headers, f, names, k - 1);
      assert names[..k] == names[..k - 1] + [names[k - 1]];
      assert names[k - 1] in names;
      assert names[k - 1] !in names[..k - 1] by { NamesAreDistinct(names, k - 1); }
      OneMoreName(LabelBest(start, classes, f, names[..k - 1]), classes, headers, f, |headers|, names, k - 1);
    }
  }

  lemma NamesAreDistinct(names: seq<string>, k: nat)
    requires k < |names| && StrictlyAscending(names)
    ensures names[k] !in names[..k]
  {}

  /**
   The resolved class: of all the classes suggested by headers, inferred label and entities it has the highest rank,
   and of those it is the one suggested first; there is none only if none is suggested.
   */
  lemma ResolvedExactly(classes: map<string, DataClass>, headers: seq<string>, f: Findings)
    ensures match ResolveDataClass(classes, headers, f)
      case None => forall stage, n :: !Suggested(classes, headers, f, stage, n)
      case Some(dc) => exists stage, n ::
        && Suggested(classes, headers, f, stage, n) && dc == classes[n]
        && forall stage', n' | Suggested(classes, headers, f, stage', n') :: Beats(classes, stage, n, stage', n')
  {
    var names := Ascending(classes.Keys);
    ResolvedIsBestSeen(classes, headers, f);
    hide Offered, Beats;
    forall stage, n
      ensures Seen(classes, headers, f, |headers| + 2, names, 0, stage, n) <==> Suggested(classes, headers, f, stage, n)
    {
      LastStage(classes, headers, f, stage, n);
    }
    var r := ResolveDataClass(classes, headers, f);
    if r.Some? {
      var stage, n :| Seen(classes, headers, f, |headers| + 2, names, 0, stage, n) && r.value == classes[n]
        && BeatsSeen(classes, headers, f, |headers| + 2, names, 0, stage, n);
      forall stage', n' | Suggested(classes, headers, f, stage', n') ensures Beats(classes, stage, n, stage', n') {
        assert Seen(classes, headers, f, |headers| + 2, names, 0, stage', n');
      }
    } else {
      forall stage, n ensures !Suggested(classes, headers, f, stage, n) {
        assert !Seen(classes, headers, f, |headers| + 2, names, 0, stage, n);
      }
    }
  }

  lemma LastStage(classes: map<string, DataClass>, headers: seq<string>, f: Findings, stage: nat, n: string)
    ensures Suggested(classes, headers, f, stage, n) ==> stage < |headers| + 2
  {}

  lemma ResolvedIsBestSeen(classes: map<string, DataClass>, headers: seq<string>, f: Findings)
    ensures BestSeen(ResolveDataClass(classes, headers, f), classes, headers, f, |headers| + 2,
                     Ascending(classes.Keys), 0)
  {
    hide BestSeen, Consider, PiiHit, PiiSuggests, ClaimedBy, HeaderClasses, Filter, ConsiderHeaders;
    var start := ConsiderHeaders(classes, headers);
    HeaderStages(classes, headers, f, headers);
    LabelStage(start, classes, headers, f);
    var inferred := f.inferredDataClass;
    var r := if inferred.Some? && inferred.value in classes then Consider(start, classes[inferred.value]) else start;
    forall n | n in classes ensures PiiInferring(f)(classes[n]) <==> Suggested(classes, headers, f, |headers| + 1, n) {
      PiiHitExactly(classes[n], f);
    }
    WholeStage(r, PiiInferring(f), classes, headers, f, |headers| + 1);
    InferredInTurn(start, classes, f);
  }

  lemma {:induction false} ConsideredBoth(start: Option<DataClass>, a: seq<DataClass>, b: seq<DataClass>)
    ensures ConsiderAll(start, a + b) == ConsiderAll(ConsiderAll(start, a), b)
  {
    if b == [] {
      assert a + b == a;
    } else {
      ConsideredBoth(start, a, b[..|b| - 1]);
      assert (a + b)[..|a + b| - 1] == a + b[..|b| - 1];
    }
  }

  /** First the label, then the entities. */
  lemma InferredInTurn(start: Option<DataClass>, classes: map<string, DataClass>, f: Findings)
    ensures var inferred := f.inferredDataClass;
      var r := if inferred.Some? && inferred.value in classes then Consider(start, classes[inferred.value]) else start;
      ConsiderAll(start, Inferred(classes, f)) == ConsiderAll(r, Filter(PiiInferring(f), ClassesInOrder(classes)))
  {
    hide Filter, Consider;
    var inferred, byEntities := f.inferredDataClass, Filter(PiiInferring(f), ClassesInOrder(classes));
    if inferred.Some? && inferred.value in classes {
      ConsideredBoth(start, [classes[inferred.value]], byEntities);
      ConsideredSnoc(start, [], classes[inferred.value]);
      assert [] + [classes[inferred.value]] == [classes[inferred.value]];
    } else {
      assert [] + byEntities == byEntities;
    }
  }

  // ---- headers that claim nothing ----

  ghost predicate Unclaimed(classes: map<string, DataClass>, header: string) {
    forall n | n in classes :: !ClaimedBy(classes[n], header)
  }

  lemma NoHeaderClasses(classes: map<string, DataClass>, header: string)
    ensures HeaderClasses(classes, header) == [] <==> Unclaimed(classes, header)
  {
    hide ClaimsHeader, ClaimedBy, HeaderKey, Filter;
    var claiming := Claiming(HeaderKey(header));
    FilterKeeps(claiming, ClassesInOrder(classes));
    forall dc: DataClass ensures claiming(dc) <==> ClaimedBy(dc, header) {
      ClaimsHeaderExactly(dc, header);
    }
    var found := HeaderClasses(classes, header);
    if found != [] {
      assert found[0] in found;
    }
    if Unclaimed(classes, header) {
      assert forall dc | dc in classes.Values :: !claiming(dc);
    }
  }

  /** The note about a header that no class answers to quotes it trimmed and in small letters. */
  ghost predicate NoteAbout(header: string, note: Note) {
    exists bare, key :: Trimmed(header, bare) && Lowered(bare, key) && note == UnknownDataClass(key)
  }

  lemma NoteIs(header: string, note: Note)
    ensures NoteAbout(header, note) <==> note == UnknownDataClass(HeaderKey(header))
  {
    hide Lower, Trim, Trimmed, Lowered;
    TrimExactly(header, Trim(header));
    LowerExactly(Trim(header), Lower(Trim(header)));
    if bare, key :| Trimmed(header, bare) && Lowered(bare, key) && note == UnknownDataClass(key) {
      TrimExactly(header, bare);
      LowerExactly(bare, key);
    }
  }

  /** There is a note for a header exactly if no class answers to it. */
  lemma {:induction false} HeaderNotesExactly(classes: map<string, DataClass>, headers: seq<string>, note: Note)
    ensures note in HeaderNotes(classes, headers) <==>
      exists i :: 0 <= i < |headers| && Unclaimed(classes, headers[i]) && NoteAbout(headers[i], note)
  {
    hide HeaderClasses, HeaderKey, Unclaimed, NoteAbout;
    if headers != [] {
      var front, last := headers[..|headers| - 1], headers[|headers| - 1];
      HeaderNotesExactly(classes, front, note);
      NoHeaderClasses(classes, last);
      NoteIs(last, note);
      assert forall i :: 0 <= i < |front| ==> front[i] == headers[i];
    }
  }
}
