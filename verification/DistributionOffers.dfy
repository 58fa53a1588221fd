/**
 What the operator offers and publishes after any run of turns, told from the turns alone.
 */
module DistributionOffers {
  import opened Snapshots
  import C = Compiler
  import opened Distribution

  /** The turn's objects were listed and compile to the snapshot, which is named by the hash of its content. */
  ghost predicate Makes(hash: Hash, a: Attempt, s: Snapshot) {
    a.Listed? && C.Compile(a.input).core == Some(s.core) && s.hash == hash(s.core)
  }

  /** It reaches the stream if it serialises, and the ConfigMap if this replica leads and the write succeeds. */
  ghost predicate Gives(hash: Hash, a: Attempt, toStream: bool, s: Snapshot) {
    Makes(hash, a, s) && if toStream then a.serialises else a.leader && a.publishes
  }

  ghost predicate GivesNone(hash: Hash, attempts: seq<Attempt>, toStream: bool, from: nat) {
    forall k, s :: from <= k < |attempts| ==> !Gives(hash, attempts[k], toStream, s)
  }

  /** The last turn that gave anything gave a snapshot with this hash. */
  ghost predicate GaveLast(hash: Hash, attempts: seq<Attempt>, toStream: bool, h: string) {
    exists k, s :: 0 <= k < |attempts| && Gives(hash, attempts[k], toStream, s) && s.hash == h
                   && LaterNone(hash, attempts, toStream, k)
  }

  ghost predicate LaterNone(hash: Hash, attempts: seq<Attempt>, toStream: bool, k: nat) {
    GivesNone(hash, attempts, toStream, k + 1)
  }

  lemma CompiledExactly(hash: Hash, a: Attempt, s: Snapshot)
    ensures Compiled(hash, a) == Some(s) <==> Makes(hash, a, s)
  {
    hide C.Compile;
  }

  lemma GivesIsUnique(hash: Hash, a: Attempt, toStream: bool, s: Snapshot, t: Snapshot)
    requires Gives(hash, a, toStream, s) && Gives(hash, a, toStream, t)
    ensures s == t
  {
    hide C.Compile;
  }

  lemma GivesInFront(hash: Hash, front: seq<Attempt>, a: Attempt, toStream: bool, h: string)
    ensures (forall s :: !Gives(hash, a, toStream, s)) ==>
      (GaveLast(hash, front + [a], toStream, h) <==> GaveLast(hash, front, toStream, h))
    ensures forall s :: Gives(hash, a, toStream, s) ==> (GaveLast(hash, front + [a], toStream, h) <==> s.hash == h)
  {
    hide Gives;
    var all := front + [a];
    assert forall k :: 0 <= k < |front| ==> all[k] == front[k];
    assert all[|front|] == a;
    if k, s :| 0 <= k < |front| && Gives(hash, front[k], toStream, s) && s.hash == h
               && LaterNone(hash, front, toStream, k)
               && (forall t :: !Gives(hash, a, toStream, t))
    {
      assert Gives(hash, all[k], toStream, s);
      assert LaterNone(hash, all, toStream, k);
    }
    if k, s :| 0 <= k < |all| && Gives(hash, all[k], toStream, s) && s.hash == h && LaterNone(hash, all, toStream, k) {
      if k < |front| {
        forall j, t | k + 1 <= j < |front| ensures !Gives(hash, front[j], toStream, t) {
          assert !Gives(hash, all[j], toStream, t);
        }
        assert LaterNone(hash, front, toStream, k);
        forall t ensures !Gives(hash, a, toStream, t) {
          assert !Gives(hash, all[|front|], toStream, t);
        }
      } else {
        forall t | Gives(hash, a, toStream, t) ensures t == s {
          GivesIsUnique(hash, a, toStream, s, t);
        }
      }
    }
    forall s | Gives(hash, a, toStream, s) && s.hash == h ensures GaveLast(hash, all, toStream, h) {
      assert Gives(hash, all[|front|], toStream, s);
      assert LaterNone(hash, all, toStream, |front|);
    }
  }

  /** A hash, and the snapshot kept with it, are those of the last turn that gave one. */
  ghost predicate KeepsLast(
    hash: Hash, attempts: seq<Attempt>, toStream: bool, kept: Option<string>, s: Option<Snapshot>
  ) {
    && (forall h :: kept == Some(h) <==> GaveLast(hash, attempts, toStream, h))
    && (kept.Some? ==> s.Some? && s.value.hash == kept.value && Given(hash, attempts, toStream, s.value))
  }

  ghost predicate Given(hash: Hash, attempts: seq<Attempt>, toStream: bool, s: Snapshot) {
    exists a :: a in attempts && Gives(hash, a, toStream, s)
  }

  /** One more turn: a given snapshot with another hash is kept, and anything else changes nothing. */
  lemma KeepsLastStep(
    hash: Hash, front: seq<Attempt>, a: Attempt, toStream: bool, kept: Option<string>, s: Option<Snapshot>,
    given: Option<Snapshot>)
    requires KeepsLast(hash, front, toStream, kept, s)
    requires forall t :: given == Some(t) <==> Gives(hash, a, toStream, t)
    ensures KeepsLast(hash, front + [a], toStream,
                      if given.Some? && kept != Some(given.value.hash) then Some(given.value.hash) else kept,
                      if given.Some? && kept != Some(given.value.hash) then given else s)
  {
    hide Gives, GaveLast;
    var all := front + [a];
    forall h
      ensures GaveLast(hash, all, toStream, h) <==>
        if given.Some? then given.value.hash == h else GaveLast(hash, front, toStream, h)
    {
      GivesInFront(hash, front, a, toStream, h);
      assert given.Some? ==> Gives(hash, a, toStream, given.value);
    }
    if given.Some? && kept != Some(given.value.hash) {
      assert a in all;
      assert Given(hash, all, toStream, given.value);
    } else if kept.Some? {
      var b :| b in front && Gives(hash, b, toStream, s.value);
      assert b in all;
      assert Given(hash, all, toStream, s.value);
    }
  }

  ghost function GivenBy(hash: Hash, a: Attempt, toStream: bool): Option<Snapshot> {
    if a.Listed? && (if toStream then a.serialises else a.leader && a.publishes) then Compiled(hash, a) else None
  }

  lemma GivenByExactly(hash: Hash, a: Attempt, toStream: bool, s: Snapshot)
    ensures GivenBy(hash, a, toStream) == Some(s) <==> Gives(hash, a, toStream, s)
  {
    hide Compiled;
    CompiledExactly(hash, a, s);
  }

  predicate News(given: Option<Snapshot>, kept: Option<string>) {
    given.Some? && kept != Some(given.value.hash)
  }

  /** What one turn changes, told from what it gives. */
  lemma OneTurn(hash: Hash, op: OperatorState, cm: Option<Snapshot>, a: Attempt)
    ensures var (sent, put, op1) := (GivenBy(hash, a, true), GivenBy(hash, a, false), Reconciled(hash, op, a));
      && op1.sentHash == (if News(sent, op.sentHash) then Some(sent.value.hash) else op.sentHash)
      && op1.channel == (if News(sent, op.sentHash) then sent else op.channel)
      && op1.ready == (op.ready || News(sent, op.sentHash))
      && op1.cmHash == (if News(put, op.cmHash) then Some(put.value.hash) else op.cmHash)
      && Republished(hash, op, cm, a) == (if News(put, op.cmHash) then put else cm)
  {
    hide C.Compile;
  }

  /** The operator's memory, its stream and the ConfigMap after some turns. */
  ghost predicate Latest(
    hash: Hash, cm: Option<Snapshot>, attempts: seq<Attempt>, op: OperatorState, after: Option<Snapshot>
  ) {
    && KeepsLast(hash, attempts, true, op.sentHash, op.channel)
    && (op.ready <==> op.sentHash.Some?) && (op.channel.Some? <==> op.sentHash.Some?)
    && KeepsLast(hash, attempts, false, op.cmHash, after)
    && (op.cmHash.None? ==> after == cm)
  }

  lemma LatestStep(
    hash: Hash, cm: Option<Snapshot>, front: seq<Attempt>, a: Attempt, op: OperatorState, before: Option<Snapshot>)
    requires Latest(hash, cm, front, op, before)
    ensures Latest(hash, cm, front + [a], Reconciled(hash, op, a), Republished(hash, op, before, a))
  {
    hide KeepsLast, Gives, GivenBy, Reconciled, Republished;
    OneTurn(hash, op, before, a);
    forall s, toStream ensures GivenBy(hash, a, toStream) == Some(s) <==> Gives(hash, a, toStream, s) {
      GivenByExactly(hash, a, toStream, s);
    }
    KeepsLastStep(hash, front, a, true, op.sentHash, op.channel, GivenBy(hash, a, true));
    KeepsLastStep(hash, front, a, false, op.cmHash, before, GivenBy(hash, a, false));
  }

  lemma NothingGiven(hash: Hash, cm: Option<Snapshot>)
    ensures Latest(hash, cm, [], STARTED, cm)
  {}

  /**
   After any turns the stream holds the snapshot of the last turn that could send one, and the ConfigMap that of the
   last turn that could write one, by hash; a replica is ready once it sent anything, and what no turn gave is not
   there.
   */
  lemma {:induction false} OffersAreLatest(hash: Hash, cm: Option<Snapshot>, attempts: seq<Attempt>)
    ensures var (op, after) := Turns(hash, STARTED, cm, attempts); Latest(hash, cm, attempts, op, after)
  {
    hide Latest, Reconciled, Republished;
    if attempts == [] {
      NothingGiven(hash, cm);
    } else {
      var front, a := attempts[..|attempts| - 1], attempts[|attempts| - 1];
      assert attempts == front + [a];
      OffersAreLatest(hash, cm, front);
      var (op, before) := Turns(hash, STARTED, cm, front);
      LatestStep(hash, cm, front, a, op, before);
    }
  }
}
