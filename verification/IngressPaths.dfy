/**
 Which paths are accepted and which requests are left alone, on the text of paths and header names.
 */
module IngressPaths {
  import opened Ordering
  import opened TextForms
  import opened Snapshots
  import opened Ingress
  import E = Engine

  // ---- what a path must not hold ----

  ghost predicate Occurs(part: string, s: string) {
    exists front, back :: s == front + part + back
  }

  lemma AtFrontOrBehind(s: string, front: string, part: string, back: string)
    requires s == front + part + back
    ensures part <= s || (front != "" && s[1..] == front[1..] + part + back)
  {
    assert front == "" ==> s[..|part|] == part;
  }

  lemma {:induction false} ContainsExactly(s: string, part: string)
    ensures Contains(s, part) <==> Occurs(part, s)
  {
    if part <= s {
      assert s == "" + part + s[|part|..];
    } else {
      if s != "" {
        ContainsExactly(s[1..], part);
        if front, back :| s[1..] == front + part + back {
          assert s == ([s[0]] + front) + part + back;
        }
      }
      if front, back :| s == front + part + back {
        AtFrontOrBehind(s, front, part, back);
      }
    }
  }

  /** An encoded slash or dot, in either case, or a backslash. */
  ghost predicate HidesSeparator(raw: string) {
    Occurs("%2f", raw) || Occurs("%2F", raw) || Occurs("%2e", raw) || Occurs("%2E", raw) || Occurs("\\", raw)
  }

  lemma LowerParts(a: string, b: string, c: string)
    ensures Lower(a + b + c) == Lower(a) + Lower(b) + Lower(c)
  {}

  /** A part occurs in small letters exactly if one of its spellings occurs. */
  lemma LoweredOccurs(raw: string, part: string)
    ensures Occurs(part, Lower(raw)) <==> exists x :: Occurs(x, raw) && Lower(x) == part
  {
    hide Lower;
    if front, back :| Lower(raw) == front + part + back {
      var i, j := |front|, |front| + |part|;
      assert raw == raw[..i] + raw[i..j] + raw[j..];
      LowerParts(raw[..i], raw[i..j], raw[j..]);
      assert Lower(raw)[i..j] == part;
      assert |Lower(raw[..i])| == i && |Lower(raw[i..j])| == j - i;
      assert Lower(raw[i..j]) == part;
      assert Occurs(raw[i..j], raw);
    }
    if x :| Occurs(x, raw) && Lower(x) == part {
      var front, back :| raw == front + x + back;
      LowerParts(front, x, back);
    }
  }

  lemma SpellingsOf(x: string)
    ensures Lower(x) == "%2f" <==> x == "%2f" || x == "%2F"
    ensures Lower(x) == "%2e" <==> x == "%2e" || x == "%2E"
    ensures Lower(x) == "\\" <==> x == "\\"
  {
    LowerExactly(x, "%2f");
    LowerExactly(x, "%2e");
    LowerExactly(x, "\\");
  }

  lemma EncodedExactly(raw: string)
    ensures Encoded(raw) <==> HidesSeparator(raw)
  {
    hide Lower, Contains, Occurs;
    ContainsExactly(Lower(raw), "%2f");
    ContainsExactly(Lower(raw), "%2e");
    ContainsExactly(Lower(raw), "\\");
    LoweredOccurs(raw, "%2f");
    LoweredOccurs(raw, "%2e");
    LoweredOccurs(raw, "\\");
    SpellingsOf("%2f");
    SpellingsOf("%2F");
    SpellingsOf("%2e");
    SpellingsOf("%2E");
    SpellingsOf("\\");
    forall x | Lower(x) == "%2f" || Lower(x) == "%2e" || Lower(x) == "\\"
      ensures x == "%2f" || x == "%2F" || x == "%2e" || x == "%2E" || x == "\\"
    {
      SpellingsOf(x);
    }
    if HidesSeparator(raw) {
      assert Lower("%2f") == "%2f" && Lower("%2F") == "%2f" && Lower("%2e") == "%2e" && Lower("%2E") == "%2e";
      assert Lower("\\") == "\\";
    }
  }

  // ---- segments ----

  /** A text between slashes, or between a slash and an end. */
  ghost predicate HasSegment(raw: string, t: string) {
    && t != "" && '/' !in t
    && exists front, back :: raw == front + t + back && Bounds(front, back)
  }

  /** A segment begins at the beginning or behind a slash, and ends at the end or before one. */
  predicate Bounds(front: string, back: string) {
    (front == "" || front[|front| - 1] == '/') && (back == "" || back[0] == '/')
  }

  /** Cutting at a slash cuts the segments. */
  lemma {:induction false} SegmentsSplit(a: string, b: string)
    ensures Segments(a + "/" + b) == Segments(a) + Segments(b)
    decreases |a|
  {
    var s := a + "/" + b;
    if a == "" {
      assert s[1..] == b;
    } else if a[0] == '/' {
      assert s[1..] == a[1..] + "/" + b;
      SegmentsSplit(a[1..], b);
    } else {
      var n := SegmentLength(a);
      assert s == a + ("/" + b);
      SameSegmentLength(a, "/" + b);
      assert s[..n] == a[..n] && s[n..] == a[n..] + "/" + b;
      SegmentsSplit(a[n..], b);
    }
  }

  lemma PlainSegment(t: string)
    requires t != "" && '/' !in t
    ensures Segments(t) == [t]
  {
    assert SegmentLength(t) == |t| by { NoSlash(t); }
    assert t[..|t|] == t && t[|t|..] == "";
  }

  lemma {:induction false} NoSlash(t: string)
    requires '/' !in t
    ensures SegmentLength(t) == |t|
  {
    if t != "" {
      assert t[0] in t;
      NoSlash(t[1..]);
    }
  }

  lemma IsSegment(raw: string, t: string, front: string, back: string)
    requires t != "" && '/' !in t && raw == front + t + back && Bounds(front, back)
    ensures HasSegment(raw, t)
  {}

  /** What is behind a segment does not count. */
  lemma SegmentInFront(t: string, back: string)
    requires t != "" && '/' !in t && Bounds("", back)
    ensures t in Segments(t + back)
  {
    hide Segments;
    PlainSegment(t);
    if back == "" {
      assert t + back == t;
    } else {
      assert t + back == t + "/" + back[1..];
      SegmentsSplit(t, back[1..]);
    }
  }

  lemma SegmentBehind(front: string, rest: string, t: string)
    requires Bounds(front, "") && t in Segments(rest)
    ensures t in Segments(front + rest)
  {
    hide Segments;
    if front == "" {
      assert front + rest == rest;
    } else {
      var before := front[..|front| - 1];
      assert front + rest == before + "/" + rest;
      SegmentsSplit(before, rest);
    }
  }

  lemma FoundSegment(raw: string, t: string)
    requires HasSegment(raw, t)
    ensures t in Segments(raw)
  {
    hide Segments;
    var front, back :| raw == front + t + back && Bounds(front, back);
    SegmentInFront(t, back);
    SegmentBehind(front, t + back, t);
    assert front + (t + back) == raw;
  }

  lemma {:induction false} SegmentIsFound(raw: string, t: string)
    requires t in Segments(raw)
    ensures HasSegment(raw, t)
    decreases |raw|
  {
    SegmentsArePlain(raw);
    if raw[0] == '/' {
      SegmentIsFound(raw[1..], t);
      FoundBehind(raw, 1, t);
    } else {
      var n := SegmentLength(raw);
      if t == raw[..n] {
        assert raw == "" + t + raw[n..];
        IsSegment(raw, t, "", raw[n..]);
      } else {
        SegmentIsFound(raw[n..], t);
        FoundBehind(raw, n, t);
      }
    }
  }

  /** A segment of the rest is one of the whole, if the rest begins after or with a slash. */
  lemma FoundBehind(raw: string, n: nat, t: string)
    requires 0 < n <= |raw| && (raw[n - 1] == '/' || n == |raw| || raw[n] == '/') && HasSegment(raw[n..], t)
    ensures HasSegment(raw, t)
  {
    var front, back :| raw[n..] == front + t + back && Bounds(front, back);
    var before := raw[..n] + front;
    assert raw == raw[..n] + raw[n..] == before + t + back;
    if front == "" {
      assert raw[n..][0] == t[0] && t[0] in t;
      assert before == raw[..n] && before[|before| - 1] == raw[n - 1];
    } else {
      assert before[|before| - 1] == front[|front| - 1];
    }
    IsSegment(raw, t, before, back);
  }

  lemma SegmentsExactly(raw: string, t: string)
    ensures t in Segments(raw) <==> HasSegment(raw, t)
  {
    if t in Segments(raw) {
      SegmentIsFound(raw, t);
    }
    if HasSegment(raw, t) {
      FoundSegment(raw, t);
    }
  }

  /** A path is rejected exactly if it hides a separator or has a segment of one or two dots. */
  lemma RejectedExactly(raw: string)
    ensures NormalizePath(raw).None? <==> HidesSeparator(raw) || HasSegment(raw, ".") || HasSegment(raw, "..")
  {
    hide Encoded, HidesSeparator, Segments, HasSegment, Render;
    EncodedExactly(raw);
    SegmentsExactly(raw, ".");
    SegmentsExactly(raw, "..");
  }

  lemma {:induction false} RenderedIsNormal(ss: seq<string>)
    requires ss != [] && forall t | t in ss :: t != "" && '/' !in t
    ensures var r := Render(ss); r != "" && r[0] == '/' && r[|r| - 1] != '/' && !Occurs("//", r)
  {
    var front, last := ss[..|ss| - 1], ss[|ss| - 1];
    var r := Render(ss);
    assert last in ss && last[|last| - 1] in last;
    assert r == Render(front) + "/" + last;
    if front == [] {
      assert Render(front) == "" && r == "/" + last;
    } else {
      assert forall t | t in front :: t in ss;
      RenderedIsNormal(front);
    }
    NoDoubleSlash(Render(front), last);
  }

  lemma NoDoubleSlash(a: string, t: string)
    requires t != "" && '/' !in t && (a == "" || (a[|a| - 1] != '/' && !Occurs("//", a)))
    ensures !Occurs("//", a + "/" + t)
  {
    var s := a + "/" + t;
    forall front, back ensures s != front + "//" + back {
      if s == front + "//" + back {
        var i := |front|;
        assert s[i] == '/' && s[i + 1] == '/';
        PlaceOfDouble(a, t, front, back);
        assert false;
      }
    }
  }

  lemma PlaceOfDouble(a: string, t: string, front: string, back: string)
    requires t != "" && '/' !in t && a + "/" + t == front + "//" + back
    ensures a != "" && (a[|a| - 1] == '/' || Occurs("//", a))
  {
    var s, i := a + "/" + t, |front|;
    assert s[i] == '/' && s[i + 1] == '/';
    NoSlashBehind(a, t, i + 1);
    if i + 1 < |a| {
      assert a == a[..i] + "//" + a[i + 2..];
    }
  }

  lemma NoSlashBehind(a: string, t: string, i: nat)
    requires '/' !in t && i < |a + "/" + t|
    ensures i > |a| ==> (a + "/" + t)[i] != '/'
  {
    if i > |a| {
      assert (a + "/" + t)[i] == t[i - |a| - 1] && t[i - |a| - 1] in t;
    }
  }

  /** An accepted path is a single slash, or its segments with one slash before each. */
  lemma NormalForm(raw: string)
    ensures NormalizePath(raw).Some? ==>
      var path := NormalizePath(raw).value;
      && path != "" && path[0] == '/' && !Occurs("//", path)
      && (path == "/" || path[|path| - 1] != '/')
      && (forall t :: HasSegment(path, t) <==> HasSegment(raw, t))
      && Segments(path) == Segments(raw)
  {
    hide HasSegment, Encoded;
    SegmentsArePlain(raw);
    NormalizedSegments(raw);
    if NormalizePath(raw).Some? {
      var path := NormalizePath(raw).value;
      forall t ensures HasSegment(path, t) <==> HasSegment(raw, t) {
        SegmentsExactly(path, t);
        SegmentsExactly(raw, t);
      }
      if Segments(raw) == [] {
        ShortHasNoDouble();
      } else {
        RenderedIsNormal(Segments(raw));
      }
    }
  }

  lemma ShortHasNoDouble()
    ensures !Occurs("//", "/")
  {
    forall front, back ensures "/" != front + "//" + back {
      assert |front + "//" + back| >= 2;
    }
  }

  // ---- which requests are decided ----

  /** The part of the request target before the first question mark or number sign. */
  lemma {:induction false} PathPartIs(raw: string) returns (rest: string)
    ensures raw == PathPart(raw) + rest
    ensures '?' !in PathPart(raw) && '#' !in PathPart(raw)
    ensures rest == "" || rest[0] == '?' || rest[0] == '#'
  {
    if raw == "" || raw[0] == '?' || raw[0] == '#' {
      rest := raw;
    } else {
      rest := PathPartIs(raw[1..]);
      var front := PathPart(raw[1..]);
      assert PathPart(raw) == [raw[0]] + front;
      assert raw == [raw[0]] + raw[1..] == [raw[0]] + front + rest;
    }
  }

  predicate IsDecided(path: string) {
    || path == "/v1/chat/completions" || path == "/v1/completions" || path == "/v1/embeddings"
    || path == "/v1/messages" || path == "/v1/responses"
  }

  /** The name begins with `x-routed-`, in any case. */
  predicate BeginsRouted(name: string) {
    |name| >= 9 && Lowered(name[..9], "x-routed-")
  }

  lemma RoutedHeaderExactly(name: string)
    ensures IsRoutedHeader(name) <==> BeginsRouted(name)
  {
    if |name| >= 9 {
      LowerExactly(name[..9], "x-routed-");
      assert Lower(name)[..9] == Lower(name[..9]);
    }
  }

  lemma RoutedNamesExactly(headers: seq<Header>, name: string)
    ensures name in RoutedHeaderNames(headers) <==>
      BeginsRouted(name) && exists h :: h in headers && h.name == name
  {
    hide BeginsRouted, IsRoutedHeader;
    var names := Map(NameOf, headers);
    RoutedHeaderExactly(name);
    FilterKeeps(IsRoutedName, names);
    if name in names {
      var i :| 0 <= i < |names| && names[i] == name;
      assert headers[i] in headers && headers[i].name == name;
    }
    if h :| h in headers && h.name == name {
      var i :| 0 <= i < |headers| && headers[i] == h;
      assert names[i] == name;
    }
  }

  /** What reaches the upstream of a forwarded request: the body as decided, and every header that is not routed. */
  lemma ForwardedExactly(app: App, path: string, headers: seq<Header>, body: string, h: Header)
    ensures var v := InlineVerdict(app, path, headers, body);
      v.Forward? ==>
        && |body| <= app.maxBody && app.decide(path, headers, body) == Decided(v.decision, v.explain)
        && !v.decision.dryRun
        && (v.decision.outcome == E.PassThrough ==> v.body == body)
        && (v.decision.outcome == E.Route ==> app.rewrite(path, body, v.decision) == Some(v.body))
        && v.decision.outcome != E.Block
        && (h in v.headers <==> h in headers && !BeginsRouted(h.name))
  {
    hide BeginsRouted, IsRoutedHeader;
    FilterKeeps(IsForeign, headers);
    RoutedHeaderExactly(h.name);
  }

  /** What each verdict stands for; the rest is forwarded. */
  predicate VerdictIs(app: App, path: string, headers: seq<Header>, body: string, v: Verdict) {
    var answer := app.decide(path, headers, body);
    match v
    case TooLarge(limit) => |body| > app.maxBody && limit == app.maxBody
    case Error(status) => |body| <= app.maxBody && answer == Refused(status)
    case DryRun(d, x) => |body| <= app.maxBody && answer == Decided(d, x) && d.dryRun
    case Blocked(d, x) => |body| <= app.maxBody && answer == Decided(d, x) && !d.dryRun && d.outcome == E.Block
    case CannotRewrite =>
      && |body| <= app.maxBody && answer.Decided? && !answer.decision.dryRun && answer.decision.outcome == E.Route
      && app.rewrite(path, body, answer.decision).None?
    case Forward(b, hs, d, x) =>
      && |body| <= app.maxBody && answer == Decided(d, x) && !d.dryRun && d.outcome != E.Block
      && (if d.outcome == E.Route then app.rewrite(path, body, d) == Some(b) else b == body)
      && hs == Filter(IsForeign, headers)
  }

  /** There is exactly one of them. */
  lemma VerdictExactly(app: App, path: string, headers: seq<Header>, body: string, v: Verdict)
    ensures v == InlineVerdict(app, path, headers, body) <==> VerdictIs(app, path, headers, body, v)
  {}

  /** The request is none of those decided on: not a POST, or a path that is rejected or another one. */
  predicate IsNotOurs(m: Message)
    requires m.RequestHeaders?
  {
    m.httpMethod != "POST" || (var path := NormalizePath(PathPart(m.rawPath)); path.None? || !IsDecided(path.value))
  }

  /**
   A request that is not ours loses its routed headers and nothing else: its chunks are let through, and its response
   carries no decision of its own.
   */
  lemma NotOursIsLeftAlone(app: App, s: StreamState, m: Message, rest: seq<Message>)
    requires m.RequestHeaders? && IsNotOurs(m) && forall r | r in rest :: r.RequestBody?
    ensures var (next, reply) := Handled(app, s, m);
      && reply.Some? && reply.value.SkipTheRest?
      && (forall name :: name in reply.value.strip <==>
            BeginsRouted(name) && exists h :: h in m.headers && h.name == name)
      && StateAfter(app, next, rest) == StreamState(None, s.decided)
      && forall r | r in Replies(app, next, rest) :: r == KeepBuffering
  {
    hide NormalizePath, PathPart, RoutedHeaderNames, BeginsRouted;
    forall name
      ensures name in RoutedHeaderNames(m.headers) <==>
        BeginsRouted(name) && exists h :: h in m.headers && h.name == name
    {
      RoutedNamesExactly(m.headers, name);
    }
    BodiesPass(app, StreamState(None, s.decided), rest);
  }

  lemma {:induction false} BodiesPass(app: App, s: StreamState, rest: seq<Message>)
    requires s.pending.None? && forall r | r in rest :: r.RequestBody?
    ensures StateAfter(app, s, rest) == s
    ensures forall r | r in Replies(app, s, rest) :: r == KeepBuffering
    decreases |rest|
  {
    if rest != [] {
      assert rest[0] in rest;
      assert forall r | r in rest[1..] :: r in rest;
      BodiesPass(app, s, rest[1..]);
    }
  }

  /** A request that is ours is decided at once if it ends with its headers, and is buffered from nothing otherwise. */
  lemma OursIsBuffered(app: App, s: StreamState, m: Message)
    requires m.RequestHeaders? && !IsNotOurs(m)
    ensures var (next, reply) := Handled(app, s, m);
      if m.endOfStream then next.pending.None? && reply.Some? && (reply.value.Immediate? || reply.value.ContinueBody?)
      else
        && reply == Some(ContinueHeaders) && next.decided == s.decided
        && next.pending == Some(Pending(NormalizePath(PathPart(m.rawPath)).value, m.headers, ""))
  {
    hide NormalizePath, PathPart, RoutedHeaderNames;
    assert PathOf(m.rawPath) in ROUTED_PATHS;
  }

  // ---- the response ----

  /**
   The response to a forwarded request carries the decision the inline proxy makes of the whole body, and the response
   to any other carries none.
   */
  lemma ResponseCarriesDecision(app: App, rawPath: string, headers: seq<Header>, chunks: seq<string>)
    requires PathOf(rawPath) in ROUTED_PATHS && chunks != [] && |Joined(chunks)| <= app.maxBody
    ensures var s := StateAfter(app, IDLE, RequestOf(rawPath, headers, chunks));
      var v := InlineVerdict(app, PathOf(rawPath), headers, Joined(chunks));
      Handled(app, s, ResponseHeaders).1
        == Some(ContinueResponse(if v.Forward? then Some(Made(v.decision, v.explain)) else None))
  {
    hide InlineVerdict, PathOf, Bodies;
    var first := RequestHeaders("POST", rawPath, headers, false);
    var pending := StreamState(Some(Pending(PathOf(rawPath), headers, "")), None);
    assert RequestOf(rawPath, headers, chunks)[1..] == Bodies(chunks);
    assert Handled(app, IDLE, first).0 == pending;
    assert "" + Joined(chunks) == Joined(chunks);
    ForwardedDecisionIsKept(app, pending, chunks);
  }
}
