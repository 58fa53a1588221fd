/**
 The two ingress modes: the inline proxy's dispatch (crates/ingress-inline) and the
 Envoy ext_proc stream (crates/ingress-extproc), which sees the body in chunks.
 */
module Ingress {
  // Both run the same pipeline. The decision pipeline and the body rewrite are functions of path, headers and body.
  // Bodies are sequences of characters that stand for bytes.

  import opened Ordering
  import opened Snapshots
  import E = Engine

  // ---- paths ----

  predicate Contains(s: string, part: string) {
    part <= s || (s != "" && Contains(s[1..], part))
  }

  /** Percent-encoded slashes and dots, and backslashes. */
  predicate Encoded(s: string) {
    Contains(Lower(s), "%2f") || Contains(Lower(s), "%2e") || Contains(Lower(s), "\\")
  }

  function SegmentLength(s: string): (n: nat)
    ensures n <= |s| && '/' !in s[..n] && (n < |s| ==> s[n] == '/')
  {
    if s == "" || s[0] == '/' then 0
    else
      var n := 1 + SegmentLength(s[1..]);
      assert s[..n] == [s[0]] + s[1..][..n - 1];
      n
  }

  /** The non-empty segments between slashes. */
  function Segments(s: string): seq<string>
    decreases |s|
  {
    if s == "" then []
    else if s[0] == '/' then Segments(s[1..])
    else
      var n := SegmentLength(s);
      [s[..n]] + Segments(s[n..])
  }

  function Render(segments: seq<string>): string {
    if segments == [] then "" else Render(segments[..|segments| - 1]) + "/" + segments[|segments| - 1]
  }

  predicate IsDots(segment: string) {
    segment == "." || segment == ".."
  }

  function NormalizePath(raw: string): Option<string> {
    if Encoded(raw) || exists s | s in Segments(raw) :: IsDots(s) then None
    else if Segments(raw) == [] then Some("/")
    else Some(Render(Segments(raw)))
  }

  method Normalize(raw: string) returns (r: Option<string>)
    ensures r == NormalizePath(raw)
  {
    if Encoded(raw) {
      return None;
    }
    var out := "";
    var segments := Segments(raw);
    for i := 0 to |segments|
      invariant out == Render(segments[..i])
      invariant forall s | s in segments[..i] :: !IsDots(s)
    {
      var segment := segments[i];
      if IsDots(segment) {
        return None;
      }
      out := out + "/" + segment;
      assert segments[..i + 1][..i] == segments[..i];
    }
    assert segments[..|segments|] == segments;
    if out == "" {
      out := "/";
    }
    r := Some(out);
  }

  lemma {:induction false} SegmentsArePlain(s: string)
    ensures forall t | t in Segments(s) :: t != "" && '/' !in t
    decreases |s|
  {
    if s != "" {
      if s[0] == '/' {
        SegmentsArePlain(s[1..]);
      } else {
        SegmentsArePlain(s[SegmentLength(s)..]);
      }
    }
  }

  lemma {:induction false} SegmentsConcat(a: string, segment: string)
    requires segment != "" && '/' !in segment
    ensures Segments(a + "/" + segment) == Segments(a) + [segment]
    decreases |a|
  {
    var s := a + "/" + segment;
    if a == "" {
      assert s[1..] == segment;
      assert SegmentLength(segment) == |segment|;
      assert segment[..|segment|] == segment && segment[|segment|..] == "";
    } else if a[0] == '/' {
      assert s[1..] == a[1..] + "/" + segment;
      SegmentsConcat(a[1..], segment);
    } else {
      var n := SegmentLength(a);
      SameSegmentLength(a, "/" + segment);
      assert s == a + ("/" + segment);
      assert s[..n] == a[..n] && s[n..] == a[n..] + "/" + segment;
      SegmentsConcat(a[n..], segment);
    }
  }

  lemma {:induction false} SameSegmentLength(a: string, rest: string)
    requires rest != "" && rest[0] == '/'
    ensures SegmentLength(a + rest) == SegmentLength(a)
  {
    if a != "" {
      assert (a + rest)[1..] == a[1..] + rest;
      if a[0] != '/' {
        SameSegmentLength(a[1..], rest);
      }
    }
  }

  lemma {:induction false} SegmentsOfRendered(segments: seq<string>)
    requires forall t | t in segments :: t != "" && '/' !in t
    ensures Segments(Render(segments)) == segments
  {
    if segments != [] {
      var front, last := segments[..|segments| - 1], segments[|segments| - 1];
      forall t | t in front ensures t != "" && '/' !in t {
        assert t in segments;
      }
      assert last in segments;
      SegmentsOfRendered(front);
      SegmentsConcat(Render(front), last);
    }
  }

  /** Normalising keeps the segments. */
  lemma NormalizedSegments(raw: string)
    ensures NormalizePath(raw).Some? ==> Segments(NormalizePath(raw).value) == Segments(raw)
  {
    SegmentsArePlain(raw);
    SegmentsOfRendered(Segments(raw));
    assert "/"[1..] == "";
  }

  lemma PrefixBeforeSlash(a: string, b: string, part: string)
    requires '/' !in part
    ensures part <= a + "/" + b <==> part <= a
  {
    var s := a + "/" + b;
    assert s[|a|] == '/';
    if part <= s {
      assert forall i :: 0 <= i < |part| ==> part[i] in part && part[i] == s[i];
      assert |part| <= |a|;
      assert s[..|part|] == a[..|part|];
    }
  }

  /** A pattern without a slash occurs within a segment or not at all. */
  lemma {:induction false} NotAcrossSlash(a: string, b: string, part: string)
    requires part != "" && '/' !in part
    ensures Contains(a + "/" + b, part) <==> Contains(a, part) || Contains(b, part)
  {
    var s := a + "/" + b;
    PrefixBeforeSlash(a, b, part);
    if a == "" {
      assert s[1..] == b;
    } else {
      assert s[1..] == a[1..] + "/" + b;
      NotAcrossSlash(a[1..], b, part);
    }
  }

  ghost predicate SegmentContains(segments: seq<string>, part: string) {
    exists t :: t in segments && Contains(Lower(t), part)
  }

  lemma LowerConcat(a: string, b: string)
    ensures Lower(a + "/" + b) == Lower(a) + "/" + Lower(b)
  {}

  lemma {:induction false} ContainedInSegment(s: string, part: string)
    requires part != "" && '/' !in part
    ensures Contains(Lower(s), part) <==> SegmentContains(Segments(s), part)
    decreases |s|
  {
    hide Lower;
    if s != "" {
      var n := SegmentLength(s);
      if n == |s| {
        assert s[..n] == s && Segments(s) == [s];
      } else {
        assert s == s[..n] + "/" + s[n + 1..];
        LowerConcat(s[..n], s[n + 1..]);
        NotAcrossSlash(Lower(s[..n]), Lower(s[n + 1..]), part);
        ContainedInSegment(s[n + 1..], part);
        assert s[n..][1..] == s[n + 1..];
        if n == 0 {
          assert Segments(s) == Segments(s[1..]) && s[..0] == "";
        } else {
          assert Segments(s) == [s[..n]] + Segments(s[n + 1..]);
        }
      }
    }
  }

  /** Normalising twice changes nothing: the path decided on is the path a second normalisation would see. */
  lemma NormalizeIsIdempotent(raw: string)
    ensures NormalizePath(raw).Some? ==> NormalizePath(NormalizePath(raw).value) == NormalizePath(raw)
  {
    hide Lower, Segments, Render;
    if NormalizePath(raw).Some? {
      var path := NormalizePath(raw).value;
      NormalizedSegments(raw);
      ContainedInSegment(raw, "%2f");
      ContainedInSegment(raw, "%2e");
      ContainedInSegment(raw, "\\");
      ContainedInSegment(path, "%2f");
      ContainedInSegment(path, "%2e");
      ContainedInSegment(path, "\\");
    }
  }

  // ---- requests, decisions, responses ----

  datatype Header = Header(name: string, value: string)

  /** A decision, or a ready-made error response. */
  datatype Answer = Refused(status: nat) | Decided(decision: E.Explanation, explain: bool)

  datatype App = App(
    maxBody: nat,
    decide: (string, seq<Header>, string) -> Answer,
    rewrite: (string, string, E.Explanation) -> Option<string>)

  const ROUTED_PATHS := {"/v1/chat/completions", "/v1/completions", "/v1/embeddings", "/v1/messages", "/v1/responses"}

  predicate IsRoutedHeader(name: string) {
    "x-routed-" <= Lower(name)
  }

  predicate IsForeign(h: Header) {
    !IsRoutedHeader(h.name)
  }

  /** What becomes of a request on a routed path: an answer to the client, or what the upstream sees. */
  datatype Verdict =
    | TooLarge(limit: nat)
    | Error(status: nat)
    | DryRun(decision: E.Explanation, explain: bool)
    | Blocked(decision: E.Explanation, explain: bool)
    | CannotRewrite
    | Forward(body: string, headers: seq<Header>, decision: E.Explanation, explain: bool)

  /** The inline proxy's dispatch. */
  function InlineVerdict(app: App, path: string, headers: seq<Header>, body: string): Verdict {
    if |body| > app.maxBody then TooLarge(app.maxBody)
    else
      match app.decide(path, headers, body)
      case Refused(status) => Error(status)
      case Decided(d, explain) =>
        if d.dryRun then DryRun(d, explain)
        else
          match d.outcome
          case Block => Blocked(d, explain)
          case PassThrough => Forward(body, Filter(IsForeign, headers), d, explain)
          case Route =>
            var rewritten := app.rewrite(path, body, d);
            if rewritten.None? then CannotRewrite else Forward(rewritten.value, Filter(IsForeign, headers), d, explain)
  }

  // ---- the ext_proc stream ----

  datatype Message =
    | RequestHeaders(httpMethod: string, rawPath: string, headers: seq<Header>, endOfStream: bool)
    | RequestBody(chunk: string, endOfStream: bool)
    | ResponseHeaders
    | ResponseBody
    | RequestTrailers
    | ResponseTrailers
    | Unset

  datatype Made = Made(decision: E.Explanation, explain: bool)

  datatype Reply =
    | Immediate(verdict: Verdict)
    | SkipTheRest(strip: seq<string>)
    | ContinueHeaders
    | KeepBuffering
    | ContinueBody(contentLength: Option<nat>, strip: seq<string>, mutation: Option<string>)
    | ContinueResponse(made: Option<Made>)
    | Acknowledge

  datatype Pending = Pending(path: string, headers: seq<Header>, body: string)

  datatype StreamState = StreamState(pending: Option<Pending>, decided: Option<Made>)

  function NameOf(h: Header): string {
    h.name
  }

  predicate IsRoutedName(name: string) {
    IsRoutedHeader(name)
  }

  function RoutedHeaderNames(headers: seq<Header>): seq<string> {
    Filter(IsRoutedName, Map(NameOf, headers))
  }

  /** The final chunk has arrived: run the pipeline. */
  function Conclude(app: App, p: Pending): (Reply, Option<Made>) {
    match app.decide(p.path, p.headers, p.body)
    case Refused(status) => (Immediate(Error(status)), None)
    case Decided(d, explain) =>
      if d.dryRun then (Immediate(DryRun(d, explain)), None)
      else
        match d.outcome
        case Block => (Immediate(Blocked(d, explain)), None)
        case PassThrough => (ContinueBody(None, RoutedHeaderNames(p.headers), None), Some(Made(d, explain)))
        case Route =>
          var rewritten := app.rewrite(p.path, p.body, d);
          if rewritten.None? then (Immediate(CannotRewrite), None)
          else (ContinueBody(Some(|rewritten.value|), RoutedHeaderNames(p.headers), rewritten), Some(Made(d, explain)))
  }

  /** A body chunk: the new buffer, the reply if it is not an interim chunk, and the decision if one was made. */
  function OnBody(app: App, p: Pending, chunk: string, endOfStream: bool): (Pending, Option<Reply>, Option<Made>) {
    if |p.body| + |chunk| > app.maxBody then (p, Some(Immediate(TooLarge(app.maxBody))), None)
    else
      var q := p.(body := p.body + chunk);
      if !endOfStream then (q, None, None) else (q, Some(Conclude(app, q).0), Conclude(app, q).1)
  }

  predicate EndsPath(c: char) {
    c == '?' || c == '#'
  }

  /** The part of the request target before a query or fragment. */
  function PathPart(raw: string): string {
    if raw == "" || EndsPath(raw[0]) then "" else [raw[0]] + PathPart(raw[1..])
  }

  function PathOf(raw: string): string {
    var normal := NormalizePath(PathPart(raw));
    if normal.Some? then normal.value else ""
  }

  function OnHeaders(app: App, m: Message): (Reply, Option<Pending>, Option<Made>)
    requires m.RequestHeaders?
  {
    var p := Pending(PathOf(m.rawPath), m.headers, "");
    if m.httpMethod != "POST" || p.path !in ROUTED_PATHS then (SkipTheRest(RoutedHeaderNames(m.headers)), None, None)
    else if m.endOfStream then (Conclude(app, p).0, None, Conclude(app, p).1)
    else (ContinueHeaders, Some(p), None)
  }

  function Newer(made: Option<Made>, before: Option<Made>): Option<Made> {
    if made.Some? then made else before
  }

  function Handled(app: App, s: StreamState, m: Message): (StreamState, Option<Reply>) {
    match m
    case RequestHeaders(_, _, _, _) =>
      var (reply, pending, made) := OnHeaders(app, m);
      (StreamState(pending, Newer(made, s.decided)), Some(reply))
    case RequestBody(chunk, endOfStream) =>
      if s.pending.None? then (s, Some(KeepBuffering))
      else
        var (p, reply, made) := OnBody(app, s.pending.value, chunk, endOfStream);
        (StreamState(Some(p), Newer(made, s.decided)), Some(if reply.Some? then reply.value else KeepBuffering))
    case ResponseHeaders => (s, Some(ContinueResponse(s.decided)))
    case ResponseBody => (s, Some(Acknowledge))
    case RequestTrailers => (s, Some(Acknowledge))
    case ResponseTrailers => (s, Some(Acknowledge))
    case Unset => (s, None)
  }

  function Optional<T>(v: Option<T>): seq<T> {
    if v.Some? then [v.value] else []
  }

  function Replies(app: App, s: StreamState, messages: seq<Message>): seq<Reply>
    decreases |messages|
  {
    if messages == [] then [] else
      var (next, reply) := Handled(app, s, messages[0]);
      Optional(reply) + Replies(app, next, messages[1..])
  }

  const IDLE := StreamState(None, None)

  class Stream {
    const app: App
    var pending: Option<Pending>
    var decided: Option<Made>

    ghost function View(): StreamState
      reads this
    {
      StreamState(pending, decided)
    }

    constructor (app: App)
      ensures this.app == app && View() == IDLE
    {
      this.app := app;
      pending, decided := None, None;
    }

    method OnRequestBody(chunk: string, endOfStream: bool) returns (reply: Option<Reply>, made: Option<Made>)
      requires pending.Some?
      modifies this`pending
      ensures pending.Some? && (pending.value, reply, made) == OnBody(app, old(pending.value), chunk, endOfStream)
    {
      var p := pending.value;
      if |p.body| + |chunk| > app.maxBody {
        return Some(Immediate(TooLarge(app.maxBody))), None;
      }
      p := p.(body := p.body + chunk);
      pending := Some(p);
      if !endOfStream {
        return None, None;
      }
      var (r, m) := Conclude(app, p);
      return Some(r), m;
    }

    method Handle(m: Message) returns (reply: Option<Reply>)
      modifies this
      ensures (View(), reply) == Handled(app, old(View()), m)
    {
      match m {
        case RequestHeaders(_, _, _, _) =>
          var (r, p, made) := OnHeaders(app, m);
          pending := p;
          if made.Some? {
            decided := made;
          }
          reply := Some(r);
        case RequestBody(chunk, endOfStream) =>
          if pending.None? {
            return Some(KeepBuffering);
          }
          var made;
          reply, made := OnRequestBody(chunk, endOfStream);
          if made.Some? {
            decided := made;
          }
          if reply.None? {
            reply := Some(KeepBuffering);
          }
        case ResponseHeaders => reply := Some(ContinueResponse(decided));
        case ResponseBody => reply := Some(Acknowledge);
        case RequestTrailers => reply := Some(Acknowledge);
        case ResponseTrailers => reply := Some(Acknowledge);
        case Unset => reply := None;
      }
    }

    method Loop(messages: seq<Message>) returns (replies: seq<Reply>)
      modifies this
      ensures replies == Replies(app, old(View()), messages)
    {
      replies := [];
      for i := 0 to |messages|
        invariant replies + Replies(app, View(), messages[i..]) == Replies(app, old(View()), messages)
      {
        assert messages[i..][1..] == messages[i + 1..];
        var reply := Handle(messages[i]);
        if reply.Some? {
          replies := replies + [reply.value];
        }
      }
    }
  }

  // ---- the buffer ----

  predicate Bounded(app: App, s: StreamState) {
    s.pending.Some? ==> |s.pending.value.body| <= app.maxBody
  }

  /** The stream after some messages. */
  function StateAfter(app: App, s: StreamState, messages: seq<Message>): StreamState
    decreases |messages|
  {
    if messages == [] then s else StateAfter(app, Handled(app, s, messages[0]).0, messages[1..])
  }

  lemma HandleKeepsBound(app: App, s: StreamState, m: Message)
    requires Bounded(app, s)
    ensures Bounded(app, Handled(app, s, m).0)
  {
    hide Conclude, PathOf, RoutedHeaderNames;
  }

  lemma {:induction false} StaysBounded(app: App, s: StreamState, messages: seq<Message>)
    requires Bounded(app, s)
    ensures Bounded(app, StateAfter(app, s, messages))
    decreases |messages|
  {
    hide Bounded, Handled;
    if messages != [] {
      HandleKeepsBound(app, s, messages[0]);
      StaysBounded(app, Handled(app, s, messages[0]).0, messages[1..]);
    }
  }

  /** Whatever arrives on a stream in whatever order, the buffer never exceeds the limit. */
  lemma BufferIsBounded(app: App, messages: seq<Message>)
    ensures var pending := StateAfter(app, IDLE, messages).pending;
      pending.Some? ==> |pending.value.body| <= app.maxBody
  {
    StaysBounded(app, IDLE, messages);
  }

  // ---- chunking ----

  function Joined(chunks: seq<string>): string {
    if chunks == [] then "" else chunks[0] + Joined(chunks[1..])
  }

  /** A body in chunks, the last of which ends the stream. */
  function Bodies(chunks: seq<string>): seq<Message> {
    if chunks == [] then [] else [RequestBody(chunks[0], |chunks| == 1)] + Bodies(chunks[1..])
  }

  predicate IsInterim(r: Reply) {
    r == ContinueHeaders || r == KeepBuffering
  }

  /** The first reply that settles the request. */
  function FirstAnswer(replies: seq<Reply>): Option<Reply> {
    if replies == [] then None else if IsInterim(replies[0]) then FirstAnswer(replies[1..]) else Some(replies[0])
  }

  function WithoutNames(strip: seq<string>): Header -> bool {
    (h: Header) => h.name !in strip
  }

  /** What a reply amounts to once Envoy has applied it to the request it buffered. */
  ghost predicate Amounts(r: Reply, body: string, headers: seq<Header>, v: Verdict) {
    match v
    case Forward(forwarded, kept, _, _) =>
      && r.ContinueBody?
      && forwarded == (if r.mutation.Some? then r.mutation.value else body)
      && (r.mutation.Some? <==> r.contentLength.Some?)
      && (r.contentLength.Some? ==> r.contentLength.value == |forwarded|)
      && kept == Filter(WithoutNames(r.strip), headers)
    case _ => r == Immediate(v)
  }

  lemma {:induction false} StrippingIsExact(headers: seq<Header>, strip: seq<string>)
    requires forall h | h in headers :: IsRoutedHeader(h.name) <==> h.name in strip
    ensures Filter(WithoutNames(strip), headers) == Filter(IsForeign, headers)
  {
    hide IsRoutedHeader;
    if headers != [] {
      assert headers[|headers| - 1] in headers;
      StrippingIsExact(headers[..|headers| - 1], strip);
    }
  }

  lemma RoutedNamesAreStripped(headers: seq<Header>)
    ensures Filter(WithoutNames(RoutedHeaderNames(headers)), headers) == Filter(IsForeign, headers)
  {
    hide IsRoutedHeader;
    var names := Map(NameOf, headers);
    FilterKeeps(IsRoutedName, names);
    forall h | h in headers ensures IsRoutedHeader(h.name) <==> h.name in RoutedHeaderNames(headers) {
      var i :| 0 <= i < |headers| && headers[i] == h;
      assert names[i] == h.name;
    }
    StrippingIsExact(headers, RoutedHeaderNames(headers));
  }

  lemma ConcludeAgrees(app: App, p: Pending)
    requires |p.body| <= app.maxBody
    ensures !IsInterim(Conclude(app, p).0)
    ensures Amounts(Conclude(app, p).0, p.body, p.headers, InlineVerdict(app, p.path, p.headers, p.body))
    ensures var v := InlineVerdict(app, p.path, p.headers, p.body);
      Conclude(app, p).1 == if v.Forward? then Some(Made(v.decision, v.explain)) else None
  {
    RoutedNamesAreStripped(p.headers);
  }

  /**
   The body phase from any buffer: the first settling reply is the inline verdict on everything buffered and to come.
   */
  lemma {:induction false} BodyPhaseAgrees(app: App, s: StreamState, chunks: seq<string>)
    requires s.pending.Some? && |s.pending.value.body| <= app.maxBody && chunks != []
    ensures var p := s.pending.value; var body := p.body + Joined(chunks);
      var answer := FirstAnswer(Replies(app, s, Bodies(chunks)));
      answer.Some? && Amounts(answer.value, body, p.headers, InlineVerdict(app, p.path, p.headers, body))
    decreases |chunks|
  {
    hide Conclude, InlineVerdict, Amounts;
    var p := s.pending.value;
    var first := RequestBody(chunks[0], |chunks| == 1);
    assert Bodies(chunks)[0] == first && Bodies(chunks)[1..] == Bodies(chunks[1..]);
    assert p.body + Joined(chunks) == p.body + chunks[0] + Joined(chunks[1..]);
    var next := Handled(app, s, first).0;
    if |p.body| + |chunks[0]| > app.maxBody {
      OversizeAgrees(app, p, p.body + Joined(chunks));
      var r := Immediate(TooLarge(app.maxBody));
      assert Replies(app, s, Bodies(chunks)) == [r] + Replies(app, next, Bodies(chunks[1..]));
    } else if |chunks| == 1 {
      var q := p.(body := p.body + chunks[0]);
      assert p.body + Joined(chunks) == q.body;
      ConcludeAgrees(app, q);
      assert Replies(app, s, Bodies(chunks)) == [Conclude(app, q).0] + Replies(app, next, Bodies(chunks[1..]));
    } else {
      BodyPhaseAgrees(app, next, chunks[1..]);
      assert Replies(app, s, Bodies(chunks)) == [KeepBuffering] + Replies(app, next, Bodies(chunks[1..]));
    }
  }

  lemma OversizeAgrees(app: App, p: Pending, body: string)
    ensures |body| > app.maxBody ==>
      Amounts(Immediate(TooLarge(app.maxBody)), body, p.headers, InlineVerdict(app, p.path, p.headers, body))
  {}

  /** The messages of one request with a body. */
  function RequestOf(rawPath: string, headers: seq<Header>, chunks: seq<string>): seq<Message> {
    [RequestHeaders("POST", rawPath, headers, false)] + Bodies(chunks)
  }

  /**
   Chunking is invisible and the two modes agree: on a routed path, however the body is split, the first reply that
   settles the request amounts to the inline dispatch of the whole body.
   */
  lemma ChunkingIsInvisible(app: App, rawPath: string, headers: seq<Header>, chunks: seq<string>)
    requires PathOf(rawPath) in ROUTED_PATHS && chunks != []
    ensures var answer := FirstAnswer(Replies(app, IDLE, RequestOf(rawPath, headers, chunks)));
      answer.Some? && Amounts(answer.value, Joined(chunks), headers,
                              InlineVerdict(app, PathOf(rawPath), headers, Joined(chunks)))
  {
    hide InlineVerdict, Amounts, PathOf, Bodies;
    var messages := RequestOf(rawPath, headers, chunks);
    var p := Pending(PathOf(rawPath), headers, "");
    assert messages[1..] == Bodies(chunks);
    BodyPhaseAgrees(app, StreamState(Some(p), None), chunks);
    assert p.body + Joined(chunks) == Joined(chunks);
    assert Replies(app, IDLE, messages) == [ContinueHeaders] + Replies(app, StreamState(Some(p), None), Bodies(chunks));
  }

  /** A routed request without a body is decided over the empty body, as inline would. */
  lemma HeaderOnlyAgrees(app: App, rawPath: string, headers: seq<Header>)
    requires PathOf(rawPath) in ROUTED_PATHS
    ensures var (s, reply) := Handled(app, IDLE, RequestHeaders("POST", rawPath, headers, true));
      s.pending.None? && reply.Some?
        && Amounts(reply.value, "", headers, InlineVerdict(app, PathOf(rawPath), headers, ""))
  {
    hide PathOf;
    ConcludeAgrees(app, Pending(PathOf(rawPath), headers, ""));
  }

  // ---- when a decision is made, and what the response carries ----

  /** After the whole body the stream holds exactly the decision of a forwarded request, for the response headers. */
  lemma {:induction false} ForwardedDecisionIsKept(app: App, s: StreamState, chunks: seq<string>)
    requires s.pending.Some? && s.decided.None? && chunks != []
    requires |s.pending.value.body + Joined(chunks)| <= app.maxBody
    ensures var p := s.pending.value;
      var v := InlineVerdict(app, p.path, p.headers, p.body + Joined(chunks));
      StateAfter(app, s, Bodies(chunks)).decided == if v.Forward? then Some(Made(v.decision, v.explain)) else None
    decreases |chunks|
  {
    hide Conclude, InlineVerdict;
    var p := s.pending.value;
    var first := RequestBody(chunks[0], |chunks| == 1);
    assert Bodies(chunks)[0] == first && Bodies(chunks)[1..] == Bodies(chunks[1..]);
    assert p.body + Joined(chunks) == p.body + chunks[0] + Joined(chunks[1..]);
    var next := Handled(app, s, first).0;
    if |chunks| == 1 {
      assert p.body + Joined(chunks) == p.body + chunks[0];
      ConcludeAgrees(app, p.(body := p.body + chunks[0]));
      assert StateAfter(app, s, Bodies(chunks)) == next;
    } else {
      ForwardedDecisionIsKept(app, next, chunks[1..]);
    }
  }

  predicate EndsStream(m: Message) {
    (m.RequestHeaders? || m.RequestBody?) && m.endOfStream
  }

  /** Without an end-of-stream mark nothing is decided, whatever else arrives. */
  lemma {:induction false} NothingDecidedWithoutEnd(app: App, s: StreamState, messages: seq<Message>)
    requires forall m | m in messages :: !EndsStream(m)
    ensures StateAfter(app, s, messages).decided == s.decided
    ensures forall r | r in Replies(app, s, messages) :: !r.ContinueBody? && (r.Immediate? ==> r.verdict.TooLarge?)
    decreases |messages|
  {
    hide Conclude, PathOf, RoutedHeaderNames;
    if messages != [] {
      var (next, reply) := Handled(app, s, messages[0]);
      assert messages[0] in messages;
      NothingDecidedWithoutEnd(app, next, messages[1..]);
      assert Replies(app, s, messages) == Optional(reply) + Replies(app, next, messages[1..]);
    }
  }
}
