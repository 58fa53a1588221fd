/**
 The request rewrite (crates/ingress-inline/src/handlers.rs): decided keys are edited
 in an ordered map of raw JSON values; everything else is emitted as it came.
 */
module BodyRewrite {
  // The keys are `model` and the path-specific reasoning and token-limit keys. JSON text is produced and read by
  // functions whose round trips are hypotheses where they matter.

  import opened Ordering
  import opened Snapshots
  import E = Engine
  import EngineSafety

  datatype Entry = Entry(key: string, raw: string)

  /** What the decision puts into the request. */
  datatype Edits = Edits(model: Option<string>, reasoning: Option<ReasoningLevel>, maxTokens: Option<u64>)

  /** Object members of a body, JSON strings and numbers, and JSON objects as maps from member to raw value. */
  datatype Codec = Codec(
    members: string -> Option<seq<Entry>>,
    quote: string -> string,
    number: u64 -> string,
    parseObject: string -> Option<map<string, string>>,
    printObject: map<string, string> -> string)

  // ---- the ordered map ----

  function Has(m: seq<Entry>, key: string): bool {
    m != [] && (m[0].key == key || Has(m[1..], key))
  }

  function Get(m: seq<Entry>, key: string): Option<string> {
    if m == [] then None else if m[0].key == key then Some(m[0].raw) else Get(m[1..], key)
  }

  /** Replaces the value where the key stands, or appends. */
  function Upsert(m: seq<Entry>, key: string, raw: string): seq<Entry> {
    if m == [] then [Entry(key, raw)]
    else if m[0].key == key then [Entry(key, raw)] + m[1..]
    else [m[0]] + Upsert(m[1..], key, raw)
  }

  /** Removes the key; what follows moves up. */
  function ShiftRemove(m: seq<Entry>, key: string): seq<Entry> {
    if m == [] then []
    else if m[0].key == key then m[1..]
    else [m[0]] + ShiftRemove(m[1..], key)
  }

  /** A repeated member keeps its first place and its last value. */
  function FromMembers(members: seq<Entry>): seq<Entry> {
    if members == [] then [] else
      var last := members[|members| - 1];
      Upsert(FromMembers(members[..|members| - 1]), last.key, last.raw)
  }

  // ---- the edits ----

  const CHAT := "/v1/chat/completions"
  const RESPONSES := "/v1/responses"
  const EMBEDDINGS := "/v1/embeddings"
  const COMPLETION := "max_completion_tokens"

  function Effort(level: ReasoningLevel): Option<string> {
    match level
    case NoReasoning => None
    case LowEffort => Some("low")
    case MediumEffort => Some("medium")
    case HighEffort => Some("high")
  }

  function EditModel(c: Codec, m: seq<Entry>, e: Edits): seq<Entry> {
    if e.model.Some? then Upsert(m, "model", c.quote(e.model.value)) else m
  }

  /** The reasoning object with its effort replaced; what is not an object is replaced as a whole. */
  function MergedObject(c: Codec, raw: Option<string>, effort: string): map<string, string> {
    var parsed := if raw.Some? then c.parseObject(raw.value) else None;
    (if parsed.Some? then parsed.value else map[])["effort" := c.quote(effort)]
  }

  function MergedReasoning(c: Codec, raw: Option<string>, effort: string): string {
    c.printObject(MergedObject(c, raw, effort))
  }

  function EditReasoning(c: Codec, path: string, m: seq<Entry>, e: Edits): seq<Entry> {
    if e.reasoning.None? then m
    else
      var effort := Effort(e.reasoning.value);
      if path == CHAT then
        if effort.Some? then Upsert(m, "reasoning_effort", c.quote(effort.value))
        else ShiftRemove(m, "reasoning_effort")
      else if path == RESPONSES then
        if effort.Some? then Upsert(m, "reasoning", MergedReasoning(c, Get(m, "reasoning"), effort.value))
        else ShiftRemove(m, "reasoning")
      else m
  }

  function TokensKey(path: string, m: seq<Entry>): string {
    if path == RESPONSES then "max_output_tokens"
    else if path == CHAT && Has(m, COMPLETION) then COMPLETION
    else if path == EMBEDDINGS then ""
    else "max_tokens"
  }

  function EditTokens(c: Codec, path: string, m: seq<Entry>, e: Edits): seq<Entry> {
    if e.maxTokens.None? || TokensKey(path, m) == "" then m
    else Upsert(m, TokensKey(path, m), c.number(e.maxTokens.value))
  }

  function Rewritten(c: Codec, path: string, m: seq<Entry>, e: Edits): seq<Entry> {
    EditTokens(c, path, EditReasoning(c, path, EditModel(c, m, e), e), e)
  }

  function Member(c: Codec, separated: bool, e: Entry): string {
    (if separated then "," else "") + (c.quote(e.key) + (":" + e.raw))
  }

  function Members(c: Codec, m: seq<Entry>): string {
    if m == [] then "" else
      var last := m[|m| - 1];
      Members(c, m[..|m| - 1]) + Member(c, |m| > 1, last)
  }

  function Emit(c: Codec, m: seq<Entry>): string {
    "{" + Members(c, m) + "}"
  }

  function RewriteText(c: Codec, path: string, body: string, e: Edits): Option<string> {
    var members := c.members(body);
    if members.None? then None else Some(Emit(c, Rewritten(c, path, FromMembers(members.value), e)))
  }

  // ---- in place ----

  lemma GetHas(m: seq<Entry>, key: string)
    ensures Get(m, key).Some? <==> Has(m, key)
  {}

  class IndexMap {
    var entries: seq<Entry>

    constructor ()
      ensures entries == []
    {
      entries := [];
    }

    method IndexOf(key: string) returns (i: nat)
      ensures i <= |entries|
      ensures i < |entries| ==> entries[i].key == key
      ensures forall j :: 0 <= j < i ==> entries[j].key != key
    {
      i := 0;
      while i < |entries| && entries[i].key != key
        invariant i <= |entries|
        invariant forall j :: 0 <= j < i ==> entries[j].key != key
      {
        i := i + 1;
      }
    }

    method Put(key: string, raw: string)
      modifies this
      ensures entries == Upsert(old(entries), key, raw)
    {
      var i := IndexOf(key);
      UpsertAt(entries, key, raw, i);
      entries := if i < |entries| then entries[i := Entry(key, raw)] else entries + [Entry(key, raw)];
    }

    method Remove(key: string)
      modifies this
      ensures entries == ShiftRemove(old(entries), key)
    {
      var i := IndexOf(key);
      RemoveAt(entries, key, i);
      if i < |entries| {
        entries := entries[..i] + entries[i + 1..];
      }
    }
  }

  lemma {:induction false} UpsertAt(m: seq<Entry>, key: string, raw: string, i: nat)
    requires i <= |m| && (i < |m| ==> m[i].key == key) && forall j :: 0 <= j < i ==> m[j].key != key
    ensures Upsert(m, key, raw) == if i < |m| then m[i := Entry(key, raw)] else m + [Entry(key, raw)]
  {
    if i > 0 {
      UpsertAt(m[1..], key, raw, i - 1);
    }
  }

  lemma {:induction false} RemoveAt(m: seq<Entry>, key: string, i: nat)
    requires i <= |m| && (i < |m| ==> m[i].key == key) && forall j :: 0 <= j < i ==> m[j].key != key
    ensures ShiftRemove(m, key) == if i < |m| then m[..i] + m[i + 1..] else m
  {
    if i > 0 {
      RemoveAt(m[1..], key, i - 1);
      assert m[1..][i - 1..] == m[i..];
    }
  }

  method ReadMembers(members: seq<Entry>) returns (m: IndexMap)
    ensures fresh(m) && m.entries == FromMembers(members)
  {
    m := new IndexMap();
    for i := 0 to |members|
      invariant fresh(m) && m.entries == FromMembers(members[..i])
    {
      assert members[..i + 1][..i] == members[..i];
      m.Put(members[i].key, members[i].raw);
    }
    assert members[..|members|] == members;
  }

  method EditInPlace(c: Codec, path: string, m: IndexMap, e: Edits)
    modifies m
    ensures m.entries == Rewritten(c, path, old(m.entries), e)
  {
    if e.model.Some? {
      m.Put("model", c.quote(e.model.value));
    }
    if e.reasoning.Some? {
      var effort := Effort(e.reasoning.value);
      if path == CHAT {
        if effort.Some? {
          m.Put("reasoning_effort", c.quote(effort.value));
        } else {
          m.Remove("reasoning_effort");
        }
      } else if path == RESPONSES {
        if effort.Some? {
          m.Put("reasoning", MergedReasoning(c, Get(m.entries, "reasoning"), effort.value));
        } else {
          m.Remove("reasoning");
        }
      }
    }
    if e.maxTokens.Some? {
      var key := TokensKey(path, m.entries);
      if key != "" {
        m.Put(key, c.number(e.maxTokens.value));
      }
    }
  }

  method EmitEntries(c: Codec, entries: seq<Entry>) returns (text: string)
    ensures text == Emit(c, entries)
  {
    text := "{";
    for i := 0 to |entries|
      invariant text == "{" + Members(c, entries[..i])
    {
      ghost var before, done := text, Members(c, entries[..i]);
      if i > 0 {
        text := text + ",";
      }
      text := text + c.quote(entries[i].key);
      text := text + ":";
      text := text + entries[i].raw;
      assert text == before + Member(c, i > 0, entries[i]);
      assert before + Member(c, i > 0, entries[i]) == "{" + (done + Member(c, i > 0, entries[i]));
      assert entries[..i + 1][..i] == entries[..i];
    }
    assert entries[..|entries|] == entries;
    text := text + "}";
  }

  method RewriteBody(c: Codec, path: string, body: string, e: Edits) returns (out: Option<string>)
    ensures out == RewriteText(c, path, body, e)
  {
    var members := c.members(body);
    if members.None? {
      return None;
    }
    var m := ReadMembers(members.value);
    EditInPlace(c, path, m, e);
    var text := EmitEntries(c, m.entries);
    out := Some(text);
  }

  // ---- a minimal edit ----

  ghost predicate DistinctKeys(m: seq<Entry>) {
    forall i, j :: 0 <= i < j < |m| ==> m[i].key != m[j].key
  }

  function Keys(m: seq<Entry>): (ks: seq<string>)
    ensures |ks| == |m| && forall i :: 0 <= i < |m| ==> ks[i] == m[i].key
  {
    if m == [] then [] else [m[0].key] + Keys(m[1..])
  }

  lemma {:induction false} HasKey(m: seq<Entry>, key: string)
    ensures Has(m, key) <==> exists i :: 0 <= i < |m| && m[i].key == key
  {
    if m != [] {
      HasKey(m[1..], key);
      if i :| 0 <= i < |m| && m[i].key == key {
        assert i > 0 ==> m[1..][i - 1].key == key;
      }
      if i :| 0 <= i < |m[1..]| && m[1..][i].key == key {
        assert m[i + 1].key == key;
      }
    }
  }

  lemma {:induction false} UpsertKeys(m: seq<Entry>, key: string, raw: string)
    ensures Keys(Upsert(m, key, raw)) == if Has(m, key) then Keys(m) else Keys(m) + [key]
  {
    if m == [] {
      assert Keys([Entry(key, raw)]) == [key] + Keys([]);
    } else if m[0].key == key {
      assert Upsert(m, key, raw)[1..] == m[1..];
    } else {
      UpsertKeys(m[1..], key, raw);
      assert Upsert(m, key, raw)[1..] == Upsert(m[1..], key, raw);
      assert [m[0].key] + (Keys(m[1..]) + [key]) == [m[0].key] + Keys(m[1..]) + [key];
    }
  }

  lemma {:induction false} UpsertGet(m: seq<Entry>, key: string, raw: string, k: string)
    ensures Get(Upsert(m, key, raw), k) == if k == key then Some(raw) else Get(m, k)
  {
    if m != [] && m[0].key != key {
      UpsertGet(m[1..], key, raw, k);
      assert Upsert(m, key, raw)[1..] == Upsert(m[1..], key, raw);
    }
  }

  lemma UpsertEffect(m: seq<Entry>, key: string, raw: string)
    ensures Keys(Upsert(m, key, raw)) == if Has(m, key) then Keys(m) else Keys(m) + [key]
    ensures forall k :: Get(Upsert(m, key, raw), k) == if k == key then Some(raw) else Get(m, k)
    ensures DistinctKeys(m) ==> DistinctKeys(Upsert(m, key, raw))
  {
    UpsertKeys(m, key, raw);
    UpsertKeepsDistinct(m, key, raw);
    forall k ensures Get(Upsert(m, key, raw), k) == if k == key then Some(raw) else Get(m, k) {
      UpsertGet(m, key, raw, k);
    }
  }

  lemma {:induction false} UpsertKeepsDistinct(m: seq<Entry>, key: string, raw: string)
    requires Keys(Upsert(m, key, raw)) == if Has(m, key) then Keys(m) else Keys(m) + [key]
    ensures DistinctKeys(m) ==> DistinctKeys(Upsert(m, key, raw))
  {
    HasKey(m, key);
    var r := Upsert(m, key, raw);
    if DistinctKeys(m) {
      forall i, j | 0 <= i < j < |r| ensures r[i].key != r[j].key {
        assert Keys(r)[i] == r[i].key && Keys(r)[j] == r[j].key;
        assert |r| == |Keys(r)|;
      }
    }
  }

  lemma DistinctTail(m: seq<Entry>)
    requires m != [] && DistinctKeys(m)
    ensures DistinctKeys(m[1..]) && !Has(m[1..], m[0].key)
  {
    HasKey(m[1..], m[0].key);
    forall i, j | 0 <= i < j < |m[1..]| ensures m[1..][i].key != m[1..][j].key {
      assert m[i + 1].key != m[j + 1].key;
    }
    forall i | 0 <= i < |m[1..]| ensures m[1..][i].key != m[0].key {
      assert m[i + 1].key != m[0].key;
    }
  }

  lemma {:induction false} RemoveKeys(m: seq<Entry>, key: string)
    requires DistinctKeys(m)
    ensures Keys(ShiftRemove(m, key)) == Filter(OtherKey(key), Keys(m))
  {
    hide Filter, Has, DistinctKeys;
    if m == [] {
      FilterNothing(key, Keys(m));
    } else {
      DistinctTail(m);
      FilterFront(OtherKey(key), Keys(m));
      assert Keys(m)[1..] == Keys(m[1..]);
      if m[0].key == key {
        NotAmongKeys(m[1..], key);
        FilterNothing(key, Keys(m[1..]));
      } else {
        RemoveKeys(m[1..], key);
        assert ShiftRemove(m, key)[1..] == ShiftRemove(m[1..], key);
      }
    }
  }

  lemma NotAmongKeys(m: seq<Entry>, key: string)
    ensures key in Keys(m) <==> Has(m, key)
  {
    HasKey(m, key);
    if key in Keys(m) {
      var i :| 0 <= i < |Keys(m)| && Keys(m)[i] == key;
      assert m[i].key == key;
    }
    if i :| 0 <= i < |m| && m[i].key == key {
      assert Keys(m)[i] == key;
    }
  }

  lemma {:induction false} RemoveGet(m: seq<Entry>, key: string, k: string)
    requires DistinctKeys(m)
    ensures Get(ShiftRemove(m, key), k) == if k == key then None else Get(m, k)
  {
    hide Has, DistinctKeys;
    if m != [] {
      DistinctTail(m);
      if m[0].key == key {
        GetHas(m[1..], key);
      } else {
        RemoveGet(m[1..], key, k);
        assert ShiftRemove(m, key)[1..] == ShiftRemove(m[1..], key);
      }
    }
  }

  lemma {:induction false} RemoveKeepsDistinct(m: seq<Entry>, key: string)
    requires DistinctKeys(m)
    ensures DistinctKeys(ShiftRemove(m, key))
  {
    if i :| 0 <= i < |m| && m[i].key == key && forall j :: 0 <= j < i ==> m[j].key != key {
      RemoveAt(m, key, i);
    } else {
      NeverFirst(m, key, |m|);
      RemoveAt(m, key, |m|);
    }
  }

  lemma {:induction false} NeverFirst(m: seq<Entry>, key: string, n: nat)
    requires n <= |m|
    requires !exists i :: 0 <= i < |m| && m[i].key == key && forall j :: 0 <= j < i ==> m[j].key != key
    ensures forall i :: 0 <= i < n ==> m[i].key != key
  {
    if n > 0 {
      NeverFirst(m, key, n - 1);
    }
  }

  lemma RemoveEffect(m: seq<Entry>, key: string)
    requires DistinctKeys(m)
    ensures Keys(ShiftRemove(m, key)) == Filter(OtherKey(key), Keys(m))
    ensures forall k :: Get(ShiftRemove(m, key), k) == if k == key then None else Get(m, k)
    ensures DistinctKeys(ShiftRemove(m, key))
  {
    hide ShiftRemove, Get, DistinctKeys, Keys;
    RemoveKeys(m, key);
    RemoveKeepsDistinct(m, key);
    forall k ensures Get(ShiftRemove(m, key), k) == if k == key then None else Get(m, k) {
      RemoveGet(m, key, k);
    }
  }

  function OtherKey(key: string): string -> bool {
    (k: string) => k != key
  }

  lemma {:induction false} FilterFront<T>(p: T -> bool, xs: seq<T>)
    requires xs != []
    ensures Filter(p, xs) == (if p(xs[0]) then [xs[0]] else []) + Filter(p, xs[1..])
  {
    if |xs| > 1 {
      FilterFront(p, xs[..|xs| - 1]);
      assert xs[..|xs| - 1][1..] == xs[1..][..|xs| - 2];
    } else {
      assert xs[..0] == [] && xs[1..] == [];
    }
  }

  lemma {:induction false} FilterNothing(key: string, ks: seq<string>)
    requires key !in ks
    ensures Filter(OtherKey(key), ks) == ks
  {
    if ks != [] {
      FilterNothing(key, ks[..|ks| - 1]);
      assert ks[..|ks| - 1] + [ks[|ks| - 1]] == ks;
    }
  }

  lemma {:induction false} FromMembersDistinct(members: seq<Entry>)
    ensures DistinctKeys(FromMembers(members))
  {
    if members != [] {
      var front, last := members[..|members| - 1], members[|members| - 1];
      FromMembersDistinct(front);
      UpsertEffect(FromMembers(front), last.key, last.raw);
    }
  }

  function LastValue(members: seq<Entry>, key: string): Option<string> {
    if members == [] then None
    else if members[|members| - 1].key == key then Some(members[|members| - 1].raw)
    else LastValue(members[..|members| - 1], key)
  }

  /** A repeated member of the body counts with its last value. */
  lemma {:induction false} RepeatedMemberCountsLast(members: seq<Entry>, key: string)
    ensures Get(FromMembers(members), key) == LastValue(members, key)
  {
    if members != [] {
      var front, last := members[..|members| - 1], members[|members| - 1];
      RepeatedMemberCountsLast(front, key);
      UpsertGet(FromMembers(front), last.key, last.raw, key);
    }
  }

  /** The reasoning key of a path, if it has one. */
  function ReasoningKey(path: string): Option<string> {
    if path == CHAT then Some("reasoning_effort") else if path == RESPONSES then Some("reasoning") else None
  }

  function LimitKey(path: string, m: seq<Entry>): Option<string> {
    if TokensKey(path, m) == "" then None else Some(TokensKey(path, m))
  }

  /** The value every key should end up with: three keys have decided values, all others their own. */
  function Expected(c: Codec, path: string, m: seq<Entry>, e: Edits, key: string): Option<string> {
    if e.model.Some? && key == "model" then Some(c.quote(e.model.value))
    else if e.reasoning.Some? && ReasoningKey(path) == Some(key) then
      var effort := Effort(e.reasoning.value);
      if effort.None? then None
      else if path == CHAT then Some(c.quote(effort.value))
      else Some(MergedReasoning(c, Get(m, key), effort.value))
    else if e.maxTokens.Some? && LimitKey(path, m) == Some(key) then Some(c.number(e.maxTokens.value))
    else Get(m, key)
  }

  /** The key is not there yet and gets a value. */
  function Fresh(c: Codec, path: string, m: seq<Entry>, e: Edits, key: Option<string>): seq<string> {
    if key.Some? && !Has(m, key.value) && Expected(c, path, m, e, key.value).Some? then [key.value] else []
  }

  predicate Drops(path: string, e: Edits) {
    e.reasoning.Some? && ReasoningKey(path).Some? && Effort(e.reasoning.value).None?
  }

  /** The keys in their old order, without the dropped one, and then the new ones. */
  function ExpectedKeys(c: Codec, path: string, m: seq<Entry>, e: Edits): seq<string> {
    (if Drops(path, e) then Filter(OtherKey(ReasoningKey(path).value), Keys(m)) else Keys(m))
    + Fresh(c, path, m, e, Some("model")) + Fresh(c, path, m, e, ReasoningKey(path))
      + Fresh(c, path, m, e, LimitKey(path, m))
  }

  lemma GetMeansHas(m: seq<Entry>, m': seq<Entry>, key: string)
    requires Get(m, key).Some? == Get(m', key).Some?
    ensures Has(m, key) == Has(m', key)
  {
    GetHas(m, key);
    GetHas(m', key);
  }

  lemma EditModelEffect(c: Codec, m: seq<Entry>, e: Edits)
    requires DistinctKeys(m)
    ensures var r := EditModel(c, m, e);
      && DistinctKeys(r)
      && (forall k :: Get(r, k) == if e.model.Some? && k == "model" then Some(c.quote(e.model.value)) else Get(m, k))
      && Keys(r) == Keys(m) + (if e.model.Some? && !Has(m, "model") then ["model"] else [])
  {
    hide Upsert, Get, Has, DistinctKeys;
    if e.model.Some? {
      UpsertEffect(m, "model", c.quote(e.model.value));
    }
  }

  lemma EditReasoningEffect(c: Codec, path: string, m: seq<Entry>, e: Edits)
    requires DistinctKeys(m)
    ensures var r := EditReasoning(c, path, m, e);
      && DistinctKeys(r)
      && (forall k :: Get(r, k) ==
            if e.reasoning.Some? && ReasoningKey(path) == Some(k) then
              var effort := Effort(e.reasoning.value);
              if effort.None? then None
              else if path == CHAT then Some(c.quote(effort.value))
              else Some(MergedReasoning(c, Get(m, k), effort.value))
            else Get(m, k))
      && Keys(r) ==
           if e.reasoning.None? || ReasoningKey(path).None? then Keys(m)
           else if Effort(e.reasoning.value).None? then Filter(OtherKey(ReasoningKey(path).value), Keys(m))
           else Keys(m) + (if Has(m, ReasoningKey(path).value) then [] else [ReasoningKey(path).value])
  {
    hide Upsert, ShiftRemove, Get, Has, DistinctKeys, MergedReasoning, Keys;
    if e.reasoning.Some? && ReasoningKey(path).Some? {
      var effort, key := Effort(e.reasoning.value), ReasoningKey(path).value;
      if effort.None? {
        RemoveEffect(m, key);
      } else if path == CHAT {
        UpsertEffect(m, key, c.quote(effort.value));
      } else {
        UpsertEffect(m, key, MergedReasoning(c, Get(m, key), effort.value));
      }
    }
  }

  lemma EditTokensEffect(c: Codec, path: string, m: seq<Entry>, e: Edits)
    requires DistinctKeys(m)
    ensures var r := EditTokens(c, path, m, e);
      && DistinctKeys(r)
      && (forall k :: Get(r, k) ==
            if e.maxTokens.Some? && LimitKey(path, m) == Some(k) then Some(c.number(e.maxTokens.value)) else Get(m, k))
      && Keys(r) == Keys(m) +
           if e.maxTokens.Some? && LimitKey(path, m).Some? && !Has(m, LimitKey(path, m).value)
           then [LimitKey(path, m).value] else []
  {
    hide Upsert, Get, Has, DistinctKeys, TokensKey;
    if e.maxTokens.Some? && TokensKey(path, m) != "" {
      UpsertEffect(m, TokensKey(path, m), c.number(e.maxTokens.value));
    }
  }

  lemma FilterSnoc(p: string -> bool, xs: seq<string>, ys: seq<string>)
    requires |ys| <= 1 && forall y | y in ys :: p(y)
    ensures Filter(p, xs + ys) == Filter(p, xs) + ys
  {
    if ys == [] {
      assert xs + ys == xs;
    } else {
      assert (xs + ys)[..|xs|] == xs && ys == [ys[0]];
    }
  }

  lemma FreshKeys(c: Codec, path: string, m: seq<Entry>, e: Edits)
    ensures Fresh(c, path, m, e, Some("model")) == if e.model.Some? && !Has(m, "model") then ["model"] else []
    ensures var key := ReasoningKey(path);
      Fresh(c, path, m, e, key) ==
        if key.Some? && e.reasoning.Some? && Effort(e.reasoning.value).Some? && !Has(m, key.value)
        then [key.value] else []
    ensures var key := LimitKey(path, m);
      Fresh(c, path, m, e, key) == if key.Some? && e.maxTokens.Some? && !Has(m, key.value) then [key.value] else []
  {
    hide Get, Has, MergedReasoning, TokensKey;
    KnownKeys(path, m);
    GetHas(m, "model");
    if ReasoningKey(path).Some? {
      GetHas(m, ReasoningKey(path).value);
    }
    GetHas(m, TokensKey(path, m));
  }

  /**
   The rewrite is a minimal edit: the decided keys get exactly the decided values, every other key keeps its raw
   value, the surviving keys keep their order, and new keys come last.
   */
  lemma RewriteIsMinimal(c: Codec, path: string, m: seq<Entry>, e: Edits)
    requires DistinctKeys(m)
    ensures var r := Rewritten(c, path, m, e);
      && DistinctKeys(r)
      && (forall k :: Get(r, k) == Expected(c, path, m, e, k))
      && Keys(r) == ExpectedKeys(c, path, m, e)
  {
    hide Upsert, Get, Has, DistinctKeys, MergedReasoning, EditModel, EditReasoning, EditTokens, Keys, Filter, Fresh,
      TokensKey, ReasoningKey, Expected, Effort;
    var m1 := EditModel(c, m, e);
    var m2 := EditReasoning(c, path, m1, e);
    EditModelEffect(c, m, e);
    EditReasoningEffect(c, path, m1, e);
    EditTokensEffect(c, path, m2, e);
    ValuesAreExpected(c, path, m, e);
    FreshKeys(c, path, m, e);
    KnownKeys(path, m);
    SameTokensKey(c, path, m, e);
    if ReasoningKey(path).Some? {
      GetMeansHas(m, m1, ReasoningKey(path).value);
      FilterSnoc(OtherKey(ReasoningKey(path).value), Keys(m),
                 if e.model.Some? && !Has(m, "model") then ["model"] else []);
    }
  }

  /** Editing the model and the reasoning does not change which limit key there is. */
  lemma SameTokensKey(c: Codec, path: string, m: seq<Entry>, e: Edits)
    requires DistinctKeys(m)
    ensures var m2 := EditReasoning(c, path, EditModel(c, m, e), e);
      TokensKey(path, m2) == TokensKey(path, m) && Has(m2, TokensKey(path, m)) == Has(m, TokensKey(path, m))
  {
    hide Get, Has, DistinctKeys, MergedReasoning, EditModel, EditReasoning, Keys, ReasoningKey;
    var m1 := EditModel(c, m, e);
    var m2 := EditReasoning(c, path, m1, e);
    EditModelEffect(c, m, e);
    EditReasoningEffect(c, path, m1, e);
    KnownKeys(path, m);
    GetMeansHas(m, m2, COMPLETION);
    GetMeansHas(m, m2, TokensKey(path, m));
  }

  lemma ValuesAreExpected(c: Codec, path: string, m: seq<Entry>, e: Edits)
    requires DistinctKeys(m)
    ensures forall k :: Get(Rewritten(c, path, m, e), k) == Expected(c, path, m, e, k)
  {
    hide Get, Has, DistinctKeys, MergedReasoning, EditModel, EditReasoning, EditTokens, Keys, ReasoningKey, TokensKey;
    var m1 := EditModel(c, m, e);
    var m2 := EditReasoning(c, path, m1, e);
    EditModelEffect(c, m, e);
    EditReasoningEffect(c, path, m1, e);
    EditTokensEffect(c, path, m2, e);
    KnownKeys(path, m);
    SameTokensKey(c, path, m, e);
  }

  /** The edited keys of a path are different keys. */
  lemma KnownKeys(path: string, m: seq<Entry>)
    ensures ReasoningKey(path).Some? ==>
      ReasoningKey(path).value != "model" && ReasoningKey(path).value != TokensKey(path, m)
        && ReasoningKey(path).value != COMPLETION
    ensures TokensKey(path, m) != "model" && COMPLETION != "model"
    ensures TokensKey(path, m) == COMPLETION <==> path == CHAT && Has(m, COMPLETION)
  {
    hide Has;
    assert "reasoning_effort"[0] == "reasoning"[0] == 'r';
    assert "max_tokens"[1] == "max_output_tokens"[1] == COMPLETION[1] == 'a';
    assert |"max_tokens"| == 10 && |"max_output_tokens"| == 17 && |COMPLETION| == 21;
  }

  // ---- idempotence ----

  lemma {:induction false} SameMap(a: seq<Entry>, b: seq<Entry>)
    requires DistinctKeys(a) && DistinctKeys(b) && Keys(a) == Keys(b)
    requires forall k :: Get(a, k) == Get(b, k)
    ensures a == b
  {
    forall i | 0 <= i < |a| ensures |b| == |a| && a[i] == b[i] {
      assert |Keys(a)| == |a| && |Keys(b)| == |b|;
      assert Keys(a)[i] == a[i].key && Keys(b)[i] == b[i].key;
      GetAt(a, i);
      GetAt(b, i);
    }
    assert |Keys(a)| == |a| && |Keys(b)| == |b|;
  }

  lemma {:induction false} GetAt(m: seq<Entry>, i: nat)
    requires DistinctKeys(m) && i < |m|
    ensures Get(m, m[i].key) == Some(m[i].raw)
  {
    if i > 0 {
      forall j, k | 0 <= j < k < |m[1..]| ensures m[1..][j].key != m[1..][k].key {
        assert m[j + 1].key != m[k + 1].key;
      }
      GetAt(m[1..], i - 1);
      assert m[0].key != m[i].key;
    }
  }

  /** When the rewrite prints a reasoning object, which it does on one path, that object is read back as it was. */
  ghost predicate ReasoningReadsBack(c: Codec, path: string, m: seq<Entry>, e: Edits) {
    path == RESPONSES && e.reasoning.Some? && Effort(e.reasoning.value).Some? ==>
      var effort, raw := Effort(e.reasoning.value).value, Get(m, "reasoning");
      c.parseObject(MergedReasoning(c, raw, effort)) == Some(MergedObject(c, raw, effort))
  }

  lemma MergedTwice(c: Codec, raw: Option<string>, effort: string)
    requires c.parseObject(MergedReasoning(c, raw, effort)) == Some(MergedObject(c, raw, effort))
    ensures MergedReasoning(c, Some(MergedReasoning(c, raw, effort)), effort) == MergedReasoning(c, raw, effort)
  {
    var o := MergedObject(c, raw, effort);
    assert c.parseObject(MergedReasoning(c, raw, effort)) == Some(o);
    assert o["effort" := c.quote(effort)] == o;
  }

  lemma SameLimitKey(c: Codec, path: string, m: seq<Entry>, e: Edits)
    requires DistinctKeys(m)
    ensures TokensKey(path, Rewritten(c, path, m, e)) == TokensKey(path, m)
  {
    hide Get, Has, DistinctKeys, Rewritten, MergedReasoning, Keys, ReasoningKey;
    ValuesAreExpected(c, path, m, e);
    KnownKeys(path, m);
    GetHas(m, COMPLETION);
    GetHas(Rewritten(c, path, m, e), COMPLETION);
  }

  lemma ExpectedAgain(c: Codec, path: string, m: seq<Entry>, e: Edits, k: string)
    requires ReasoningReadsBack(c, path, m, e) && DistinctKeys(m)
    ensures var r := Rewritten(c, path, m, e); Expected(c, path, r, e, k) == Get(r, k)
  {
    hide Get, Has, DistinctKeys, Rewritten, MergedReasoning, MergedObject, TokensKey, Effort;
    ValuesAreExpected(c, path, m, e);
    KnownKeys(path, m);
    SameLimitKey(c, path, m, e);
    if path == RESPONSES && k == "reasoning" && e.reasoning.Some? && Effort(e.reasoning.value).Some? {
      MergedTwice(c, Get(m, k), Effort(e.reasoning.value).value);
    }
  }

  lemma NothingFresh(c: Codec, path: string, m: seq<Entry>, e: Edits, key: Option<string>)
    requires ReasoningReadsBack(c, path, m, e) && DistinctKeys(m)
    ensures Fresh(c, path, Rewritten(c, path, m, e), e, key) == []
  {
    hide Get, Has, DistinctKeys, Rewritten, Expected, ReasoningReadsBack;
    if key.Some? {
      ExpectedAgain(c, path, m, e, key.value);
      GetHas(Rewritten(c, path, m, e), key.value);
    }
  }

  /** Rewriting twice with the same decision is rewriting once. */
  lemma RewriteIsIdempotent(c: Codec, path: string, m: seq<Entry>, e: Edits)
    requires ReasoningReadsBack(c, path, m, e) && DistinctKeys(m)
    ensures Rewritten(c, path, Rewritten(c, path, m, e), e) == Rewritten(c, path, m, e)
  {
    hide Get, Has, DistinctKeys, Rewritten, Expected, ReasoningReadsBack, Fresh, Keys, Filter;
    var r := Rewritten(c, path, m, e);
    RewriteIsMinimal(c, path, m, e);
    RewriteIsMinimal(c, path, r, e);
    NothingFresh(c, path, m, e, Some("model"));
    NothingFresh(c, path, m, e, ReasoningKey(path));
    NothingFresh(c, path, m, e, LimitKey(path, r));
    forall k ensures Get(Rewritten(c, path, r, e), k) == Get(r, k) {
      ExpectedAgain(c, path, m, e, k);
    }
    if Drops(path, e) {
      DroppedIsGone(c, path, m, e);
    }
    SameMap(Rewritten(c, path, r, e), r);
  }

  lemma DroppedIsGone(c: Codec, path: string, m: seq<Entry>, e: Edits)
    requires DistinctKeys(m) && Drops(path, e)
    ensures var r := Rewritten(c, path, m, e); Filter(OtherKey(ReasoningKey(path).value), Keys(r)) == Keys(r)
  {
    hide Get, Has, Rewritten, Filter;
    var r, key := Rewritten(c, path, m, e), ReasoningKey(path).value;
    RewriteIsMinimal(c, path, m, e);
    KnownKeys(path, m);
    assert Get(r, key) == Expected(c, path, m, e, key) == None;
    GetHas(r, key);
    HasKey(r, key);
    forall k | k in Keys(r) ensures k != key {
      var i :| 0 <= i < |Keys(r)| && Keys(r)[i] == k;
      assert r[i].key == k;
    }
    FilterNothing(key, Keys(r));
  }

  lemma {:induction false} FromDistinct(m: seq<Entry>)
    requires DistinctKeys(m)
    ensures FromMembers(m) == m
  {
    if m != [] {
      var front, last := m[..|m| - 1], m[|m| - 1];
      assert m == front + [last];
      FromDistinct(front);
      UpsertAt(front, last.key, last.raw, |front|);
    }
  }

  /** The text of a rewritten body, rewritten again, is itself, if the reader recovers what the writer emitted. */
  lemma RewriteTextIsIdempotent(c: Codec, path: string, body: string, e: Edits)
    requires c.members(body).Some? ==>
      var m := FromMembers(c.members(body).value);
      ReasoningReadsBack(c, path, m, e)
        && c.members(Emit(c, Rewritten(c, path, m, e))) == Some(Rewritten(c, path, m, e))
    ensures var once := RewriteText(c, path, body, e); once.Some? ==> RewriteText(c, path, once.value, e) == once
  {
    hide Rewritten, DistinctKeys, Emit, FromMembers, ReasoningReadsBack;
    if c.members(body).Some? {
      var m := FromMembers(c.members(body).value);
      FromMembersDistinct(c.members(body).value);
      RewriteIsMinimal(c, path, m, e);
      RewriteIsIdempotent(c, path, m, e);
      FromDistinct(Rewritten(c, path, m, e));
    }
  }

  // ---- from the decision to the body ----

  /** A decision of the engine never carries a token limit. */
  function EditsOf(d: E.Explanation): Edits {
    Edits(d.gatewayModel, d.reasoning, None)
  }

  /**
   From decide to the forwarded body: whenever the engine routes, the rewritten body asks for the gateway model of
   a tier that satisfies what the route has to satisfy.
   */
  lemma ForwardedModelIsSound(
    predict: E.Predictor, snap: Snapshot, req: E.Request, f: E.Findings, c: Codec, path: string, m: seq<Entry>)
    requires DistinctKeys(m)
    ensures var d := E.Decide(predict, snap, req, f);
      var p := E.Selection(snap, req).0;
      d.outcome == E.Route ==> p.Some? && exists n ::
        && EngineSafety.SoundRoute(snap.core, p.value, req, f, E.Resolved(snap, req, f), n, d.fallback)
        && n in snap.core.tiers
        && Get(Rewritten(c, path, m, EditsOf(d)), "model") == Some(c.quote(snap.core.tiers[n].gatewayModel))
  {
    hide E.Decide, E.Selection, E.Resolved, EngineSafety.SoundRoute, Rewritten, DistinctKeys, Get;
    var d := E.Decide(predict, snap, req, f);
    if d.outcome == E.Route {
      EngineSafety.RouteIsSound(predict, snap, req, f);
      RewriteIsMinimal(c, path, m, EditsOf(d));
      var p := E.Selection(snap, req).0.value;
      var n :| EngineSafety.SoundRoute(snap.core, p, req, f, E.Resolved(snap, req, f), n, d.fallback)
               && EngineSafety.Routes(snap.core, n, d);
      assert Get(Rewritten(c, path, m, EditsOf(d)), "model") == Expected(c, path, m, EditsOf(d), "model");
    }
  }
}
