/**
 What a rewritten body holds, member by member, and how it is written.
 */
module BodyEdits {
  import opened Snapshots
  import opened BodyRewrite

  // ---- members ----

  /** The object that was there: what the member holds, if it is an object, or an empty one. */
  ghost predicate WasObject(c: Codec, m: seq<Entry>, old_: map<string, string>) {
    || (exists raw :: Entry("reasoning", raw) in m && c.parseObject(raw) == Some(old_))
    || (old_ == map[] && forall raw | Entry("reasoning", raw) in m :: c.parseObject(raw).None?)
  }

  /** The same object with one member set. */
  predicate SetsEffort(old_: map<string, string>, o: map<string, string>, raw: string) {
    && o.Keys == old_.Keys + {"effort"} && o["effort"] == raw
    && forall x | x in old_ && x != "effort" :: o[x] == old_[x]
  }

  ghost predicate WithEffort(c: Codec, m: seq<Entry>, raw: string, effort: string) {
    exists old_, o :: WasObject(c, m, old_) && SetsEffort(old_, o, c.quote(effort)) && raw == c.printObject(o)
  }

  /** The member that limits the output tokens. */
  ghost predicate IsLimit(path: string, m: seq<Entry>, key: string) {
    if path == "/v1/responses" then key == "max_output_tokens"
    else if path == "/v1/chat/completions" && exists raw :: Entry("max_completion_tokens", raw) in m then
      key == "max_completion_tokens"
    else path != "/v1/embeddings" && key == "max_tokens"
  }

  /** The value the reasoning member of a chat completion is given; none for no reasoning. */
  predicate ChatEffort(c: Codec, level: ReasoningLevel, raw: string) {
    match level
    case NoReasoning => false
    case LowEffort => raw == c.quote("low")
    case MediumEffort => raw == c.quote("medium")
    case HighEffort => raw == c.quote("high")
  }

  /** The value the reasoning member of a response is given; none for no reasoning. */
  ghost predicate ResponseEffort(c: Codec, m: seq<Entry>, level: ReasoningLevel, raw: string) {
    match level
    case NoReasoning => false
    case LowEffort => WithEffort(c, m, raw, "low")
    case MediumEffort => WithEffort(c, m, raw, "medium")
    case HighEffort => WithEffort(c, m, raw, "high")
  }

  /** The member the body is to have after the rewrite. */
  ghost predicate Wanted(c: Codec, path: string, m: seq<Entry>, e: Edits, key: string, raw: string) {
    if key == "model" && e.model.Some? then raw == c.quote(e.model.value)
    else if path == "/v1/chat/completions" && key == "reasoning_effort" && e.reasoning.Some? then
      ChatEffort(c, e.reasoning.value, raw)
    else if path == "/v1/responses" && key == "reasoning" && e.reasoning.Some? then
      ResponseEffort(c, m, e.reasoning.value, raw)
    else if e.maxTokens.Some? && IsLimit(path, m, key) then raw == c.number(e.maxTokens.value)
    else Entry(key, raw) in m
  }

  lemma EntryIsGet(m: seq<Entry>, key: string, raw: string)
    requires DistinctKeys(m)
    ensures Entry(key, raw) in m <==> Get(m, key) == Some(raw)
  {
    if Entry(key, raw) in m {
      var i :| 0 <= i < |m| && m[i] == Entry(key, raw);
      GetAt(m, i);
    }
    GetIsEntry(m, key);
  }

  lemma {:induction false} GetIsEntry(m: seq<Entry>, key: string)
    ensures Get(m, key).Some? ==> Entry(key, Get(m, key).value) in m
  {
    if m != [] && m[0].key != key {
      GetIsEntry(m[1..], key);
    }
  }

  lemma HasIsEntry(m: seq<Entry>, key: string)
    requires DistinctKeys(m)
    ensures Has(m, key) <==> exists raw :: Entry(key, raw) in m
  {
    hide Has, Get, DistinctKeys;
    GetHas(m, key);
    GetIsEntry(m, key);
    if raw :| Entry(key, raw) in m {
      EntryIsGet(m, key, raw);
    }
  }

  lemma MergedIs(c: Codec, m: seq<Entry>, raw: string, effort: string)
    requires DistinctKeys(m)
    ensures raw == MergedReasoning(c, Get(m, "reasoning"), effort) <==> WithEffort(c, m, raw, effort)
  {
    hide Get, DistinctKeys;
    var was := Get(m, "reasoning");
    var parsed := if was.Some? then c.parseObject(was.value) else None;
    var old_ := if parsed.Some? then parsed.value else map[];
    GetIsEntry(m, "reasoning");
    forall r ensures Entry("reasoning", r) in m <==> was == Some(r) {
      EntryIsGet(m, "reasoning", r);
    }
    assert WasObject(c, m, old_);
    var o := MergedObject(c, was, effort);
    assert SetsEffort(old_, o, c.quote(effort));
    if o', p :| WasObject(c, m, o') && SetsEffort(o', p, c.quote(effort)) && raw == c.printObject(p) {
      assert o' == old_;
      assert p == o;
    }
  }

  lemma LimitIs(path: string, m: seq<Entry>, key: string)
    requires DistinctKeys(m)
    ensures LimitKey(path, m) == Some(key) <==> IsLimit(path, m, key)
  {
    hide Has, DistinctKeys;
    HasIsEntry(m, COMPLETION);
  }

  lemma ExpectedIsWanted(c: Codec, path: string, m: seq<Entry>, e: Edits, key: string, raw: string)
    requires DistinctKeys(m)
    ensures Expected(c, path, m, e, key) == Some(raw) <==> Wanted(c, path, m, e, key, raw)
  {
    hide Get, DistinctKeys, MergedReasoning, WithEffort, LimitKey, IsLimit;
    EntryIsGet(m, key, raw);
    LimitIs(path, m, key);
    MergedIs(c, m, raw, "low");
    MergedIs(c, m, raw, "medium");
    MergedIs(c, m, raw, "high");
  }

  /**
   The rewritten body has exactly the wanted members: the decided model, the effort of the decided level under the key
   of the path and merged into the object that is there, the decided limit, and otherwise what it had.
   */
  lemma RewriteIsExact(c: Codec, path: string, m: seq<Entry>, e: Edits, key: string, raw: string)
    requires DistinctKeys(m)
    ensures Entry(key, raw) in Rewritten(c, path, m, e) <==> Wanted(c, path, m, e, key, raw)
  {
    hide Rewritten, Expected, Wanted, DistinctKeys, Get, Keys, ExpectedKeys;
    RewriteIsMinimal(c, path, m, e);
    EntryIsGet(Rewritten(c, path, m, e), key, raw);
    ExpectedIsWanted(c, path, m, e, key, raw);
  }

  // ---- text ----

  /** How a body is written: braces around the members, a colon in each, a comma between them. */
  lemma WrittenAs(c: Codec, m: seq<Entry>, e: Entry)
    ensures Emit(c, []) == "{}"
    ensures Emit(c, [e]) == "{" + c.quote(e.key) + ":" + e.raw + "}"
    ensures |Emit(c, m)| > 0
    ensures m != [] ==>
      Emit(c, m + [e]) == Emit(c, m)[..|Emit(c, m)| - 1] + "," + c.quote(e.key) + ":" + e.raw + "}"
  {
    assert [e][..0] == [];
    assert (m + [e])[..|m|] == m;
    assert Members(c, [e]) == "" + Member(c, false, e);
    var members := Members(c, m);
    assert Emit(c, m) == "{" + members + "}";
    assert Emit(c, m)[..|Emit(c, m)| - 1] == "{" + members;
    if m != [] {
      assert Members(c, m + [e]) == members + ("," + (c.quote(e.key) + (":" + e.raw)));
    }
  }

  /** The keys in the order of their first occurrence. */
  function FirstPlaces(members: seq<Entry>): seq<string> {
    if members == [] then []
    else
      var front, last := members[..|members| - 1], members[|members| - 1];
      FirstPlaces(front) + if exists e :: e in front && e.key == last.key then [] else [last.key]
  }

  lemma {:induction false} FirstPlaceCounts(members: seq<Entry>)
    ensures Keys(FromMembers(members)) == FirstPlaces(members)
    ensures forall key :: Has(FromMembers(members), key) <==> exists e :: e in members && e.key == key
  {
    if members != [] {
      hide Keys, Has, Get;
      var front, last := members[..|members| - 1], members[|members| - 1];
      assert members == front + [last];
      FirstPlaceCounts(front);
      var m := FromMembers(front);
      UpsertEffect(m, last.key, last.raw);
      forall key ensures Has(FromMembers(members), key) <==> exists e :: e in members && e.key == key {
        GetHas(m, key);
        GetHas(FromMembers(members), key);
        assert forall e :: e in members <==> e in front || e == last;
      }
    } else {
      assert Keys([]) == [];
    }
  }

  /**
   A body that cannot be read is not rewritten; otherwise its members are, a repeated one with its first place and its
   last value.
   */
  lemma RewrittenTextIs(c: Codec, path: string, body: string, e: Edits)
    ensures c.members(body).None? ==> RewriteText(c, path, body, e).None?
    ensures c.members(body).Some? ==> exists m ::
      && DistinctKeys(m) && Keys(m) == FirstPlaces(c.members(body).value)
      && (forall key :: Get(m, key) == LastValue(c.members(body).value, key))
      && RewriteText(c, path, body, e) == Some(Emit(c, Rewritten(c, path, m, e)))
  {
    hide Rewritten, DistinctKeys, Get, LastValue, Emit, Keys, FirstPlaces;
    if c.members(body).Some? {
      var members := c.members(body).value;
      FromMembersDistinct(members);
      forall key ensures Get(FromMembers(members), key) == LastValue(members, key) {
        RepeatedMemberCountsLast(members, key);
      }
      FirstPlaceCounts(members);
      assert DistinctKeys(FromMembers(members));
    }
  }
}
