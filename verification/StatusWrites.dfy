/**
 What a status write says, in the words of the condition, and exactly when it is skipped.
 */
module StatusWrites {
  import opened Snapshots
  import opened StatusLoop
  import C = Compiler

  // ---- the error of an object ----

  /** An error about the object. */
  predicate IsAbout(d: C.Diag, key: Key) {
    d.level == C.Error && d.kind == key.kind && d.name == key.name
  }

  /** Entry `i` of the report is the first error about the object. */
  ghost predicate FirstAbout(report: seq<C.Diag>, key: Key, i: int) {
    0 <= i < |report| && IsAbout(report[i], key) && forall k :: 0 <= k < i ==> !IsAbout(report[k], key)
  }

  /** The message is the wording of the first error about the object; there is none only if there is no such error. */
  lemma {:induction false} FirstErrorIsFirst(say: Wording, report: seq<C.Diag>, key: Key)
    ensures match FirstError(say, report, key)
      case None => forall i :: 0 <= i < |report| ==> !IsAbout(report[i], key)
      case Some(text) => exists i :: FirstAbout(report, key, i) && text == say(report[i].rule)
  {
    if report != [] {
      if IsAbout(report[0], key) {
        assert FirstAbout(report, key, 0);
      } else {
        FirstErrorIsFirst(say, report[1..], key);
        if FirstError(say, report, key).Some? {
          var i :| FirstAbout(report[1..], key, i) && FirstError(say, report, key).value == say(report[1..][i].rule);
          assert report[1..][i] == report[i + 1];
          assert FirstAbout(report, key, i + 1);
        }
      }
    }
  }

  // ---- what the condition says ----

  /** The Ready condition of an object that compiled, or that has this error. */
  predicate Says(c: Condition, error: Option<string>) {
    match error
    case None => c.status == "True" && c.reason == "Compiled" && c.message == "compiled into the current snapshot"
    case Some(text) => c.status == "False" && c.reason == "CompileError" && c.message == text
  }

  /** Condition `i` is the first with the type Ready. */
  ghost predicate IsReady(conds: seq<Condition>, i: int) {
    0 <= i < |conds| && conds[i].type_ == "Ready" && forall k :: 0 <= k < i ==> conds[k].type_ != "Ready"
  }

  lemma {:induction false} FoundReady(conds: seq<Condition>)
    ensures forall i | IsReady(conds, i) :: FindReady(conds) == Some(conds[i])
    ensures FindReady(conds).Some? <==> exists i :: IsReady(conds, i)
  {
    if conds != [] {
      if conds[0].type_ == "Ready" {
        assert IsReady(conds, 0);
      } else {
        var rest := conds[1..];
        FoundReady(rest);
        forall i ensures IsReady(conds, i) <==> IsReady(rest, i - 1) {
          assert forall k :: 0 <= k < |rest| ==> rest[k] == conds[k + 1];
          if IsReady(rest, i - 1) {
            forall k | 0 <= k < i ensures conds[k].type_ != "Ready" {
              assert k > 0 ==> rest[k - 1] == conds[k];
            }
          }
        }
        if i :| IsReady(rest, i) {
          assert IsReady(conds, i + 1);
        }
      }
    }
  }

  /** The status that was listed already says what would be written. */
  ghost predicate AlreadySays(o: Object, error: Option<string>, hash: Option<string>) {
    && o.status.Some?
    && o.status.value.observedGeneration == o.generation
    && (exists i :: IsReady(o.status.value.conditions, i) && Says(o.status.value.conditions[i], error))
    && (o.key.kind == C.RoutingPolicy && error.None? ==> o.status.value.compiledHash == hash)
  }

  lemma SettledExactly(o: Object, error: Option<string>, hash: Option<string>)
    ensures Settled(o, error, hash) <==> AlreadySays(o, error, hash)
  {
    FoundReady(Conditions(o.status));
  }

  /** The listed status has the same value in its Ready condition, written at `time`. */
  ghost predicate HeldSince(o: Object, value: string, time: int) {
    && o.status.Some?
    && exists i ::
         && IsReady(o.status.value.conditions, i) && o.status.value.conditions[i].status == value
         && o.status.value.conditions[i].lastTransitionTime == time
  }

  /** The condition that is written: its time is that of the listed one as long as the value is the same. */
  ghost predicate ConditionIs(c: Condition, o: Object, error: Option<string>, at: int) {
    && c.type_ == "Ready" && Says(c, error) && c.observedGeneration.None?
    && (HeldSince(o, c.status, c.lastTransitionTime)
        || (c.lastTransitionTime == at && forall time :: !HeldSince(o, c.status, time)))
  }

  /** The status that is stored by a write. */
  ghost predicate IsWritten(
    st: Status, o: Object, error: Option<string>, hash: Option<string>, was: Option<Status>, at: int)
  {
    && |st.conditions| == 1 && ConditionIs(st.conditions[0], o, error, at)
    && st.observedGeneration == o.generation
    && st.compiledHash ==
       if o.key.kind == C.RoutingPolicy && error.None? then hash
       else if was.Some? then was.value.compiledHash else None
  }

  lemma PatchIsWritten(o: Object, error: Option<string>, hash: Option<string>, was: Option<Status>, at: int)
    ensures IsWritten(Patched(was, PatchFor(o, error, hash, at)), o, error, hash, was, at)
  {
    FoundReady(Conditions(o.status));
  }

  /**
   Applying one object: nothing happens if the listed status already says so or the write fails; otherwise the stored
   status says that the object compiled, or the first error about it, and is counted as one write.
   */
  lemma ApplyOneIsExact(say: Wording, c: Compiled, w: Weather, s: Store, o: Object)
    ensures var error := ErrorOf(say, c, o);
      var after := ApplyOne(say, c, w, s, o);
      if AlreadySays(o, error, c.hash) || !w.succeeds(o.key) then after == s
      else
        && after.writes == s.writes + 1 && o.key in after.statuses
        && IsWritten(after.statuses[o.key], o, error, c.hash, Lookup(s.statuses, o.key), w.at(o.key))
        && forall key | key != o.key :: Lookup(after.statuses, key) == Lookup(s.statuses, key)
  {
    hide AlreadySays, IsWritten, Settled, Patched, PatchFor, FirstError;
    SettledExactly(o, ErrorOf(say, c, o), c.hash);
    PatchIsWritten(o, ErrorOf(say, c, o), c.hash, Lookup(s.statuses, o.key), w.at(o.key));
  }
}
