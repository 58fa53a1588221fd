/**
 The JSON text of a policy's match. The compiler groups policies by priority,
 namespace and this text to find those that can never win. Text is written as
 serde_json writes it: members in the order of their declaration, no white space,
 quotes, backslashes and control characters escaped. Reading it back has at most
 one result, part by part, so the text stands for the match.
 */
module ScopeText {
  import opened Snapshots

  function HexDigit(x: nat): char
    requires x < 16
  {
    if x < 10 then (x + '0' as int) as char else (x - 10 + 'a' as int) as char
  }

  /** Quotes, backslashes and control characters are escaped as serde_json does. */
  function Escaped(c: char): (e: string)
    ensures e != ""
  {
    match c as int
    case 8 => "\\b"
    case 9 => "\\t"
    case 10 => "\\n"
    case 12 => "\\f"
    case 13 => "\\r"
    case 34 => "\\\""
    case 92 => "\\\\"
    case x => if x < 32 then "\\u00" + [HexDigit(x / 16), HexDigit(x % 16)] else [c]
  }

  /** The characters of a string and the quote that ends it. */
  function Body(s: string): string {
    if s == "" then "\"" else Escaped(s[0]) + Body(s[1..])
  }

  function Quoted(s: string): string {
    "\"" + Body(s)
  }

  /** Further elements of a list and the bracket that ends it. */
  function Further(ss: seq<string>): string {
    if ss == [] then "]" else "," + Quoted(ss[0]) + Further(ss[1..])
  }

  function ListText(ss: seq<string>): string {
    "[" + if ss == [] then "]" else Quoted(ss[0]) + Further(ss[1..])
  }

  function MatchText(m: Match): string {
    "{\"tenants\":" + ListText(m.tenants) + ",\"agents\":" + ListText(m.agents)
    + ",\"paths\":" + ListText(m.paths) + ",\"modelAliases\":" + ListText(m.modelAliases) + "}"
  }

  lemma EscapedLength(c: char, d: char)
    requires Escaped(c)[0] == Escaped(d)[0]
    requires |Escaped(c)| >= 2 && |Escaped(d)| >= 2 ==> Escaped(c)[1] == Escaped(d)[1]
    ensures |Escaped(c)| == |Escaped(d)|
  {}

  lemma HexInjective(x: nat, y: nat)
    requires x < 32 && y < 32 && HexDigit(x / 16) == HexDigit(y / 16) && HexDigit(x % 16) == HexDigit(y % 16)
    ensures x == y
  {}

  lemma EscapedInjective(c: char, d: char)
    requires Escaped(c) == Escaped(d)
    ensures c == d
  {
    if |Escaped(c)| == 6 {
      hide HexDigit;
      var x, y := c as int, d as int;
      assert Escaped(c)[4] == HexDigit(x / 16) && Escaped(c)[5] == HexDigit(x % 16);
      assert Escaped(d)[4] == HexDigit(y / 16) && Escaped(d)[5] == HexDigit(y % 16);
      HexInjective(x, y);
    }
  }

  /** No escape begins like another, nor like the quote that ends a string. */
  lemma EscapedApart(c: char, x: string, d: char, y: string)
    requires Escaped(c) + x == Escaped(d) + y
    ensures c == d && x == y
  {
    hide Escaped;
    var e, f := Escaped(c), Escaped(d);
    assert e[0] == (e + x)[0] == (f + y)[0] == f[0];
    if |e| >= 2 && |f| >= 2 {
      assert e[1] == (e + x)[1] == (f + y)[1] == f[1];
    }
    EscapedLength(c, d);
    assert e == (e + x)[..|e|] == (f + y)[..|e|] == f;
    EscapedInjective(c, d);
    assert x == (e + x)[|e|..] == (f + y)[|e|..] == y;
  }

  lemma EscapedIsNoQuote(c: char)
    ensures Escaped(c)[0] != '"'
  {}

  lemma BodyStart(s: string, x: string)
    ensures Body(s) + x != "" && ((Body(s) + x)[0] == '"' <==> s == "")
  {
    hide Escaped;
    if s != "" {
      EscapedIsNoQuote(s[0]);
      assert (Body(s) + x)[0] == Escaped(s[0])[0];
    }
  }

  lemma {:induction false} BodyApart(s: string, x: string, t: string, y: string)
    requires Body(s) + x == Body(t) + y
    ensures s == t && x == y
  {
    hide Escaped;
    BodyStart(s, x);
    BodyStart(t, y);
    if s == "" {
      assert x == (Body(s) + x)[1..] == (Body(t) + y)[1..] == y;
    } else {
      assert Body(s) + x == Escaped(s[0]) + (Body(s[1..]) + x);
      assert Body(t) + y == Escaped(t[0]) + (Body(t[1..]) + y);
      EscapedApart(s[0], Body(s[1..]) + x, t[0], Body(t[1..]) + y);
      BodyApart(s[1..], x, t[1..], y);
      assert s == [s[0]] + s[1..] && t == [t[0]] + t[1..];
    }
  }

  lemma QuotedApart(s: string, x: string, t: string, y: string)
    requires Quoted(s) + x == Quoted(t) + y
    ensures s == t && x == y
  {
    hide Body;
    assert Body(s) + x == (Quoted(s) + x)[1..] == (Quoted(t) + y)[1..] == Body(t) + y;
    BodyApart(s, x, t, y);
  }

  lemma FurtherStart(ss: seq<string>, x: string)
    ensures Further(ss) + x != "" && ((Further(ss) + x)[0] == ']' <==> ss == [])
    ensures ss != [] ==> (Further(ss) + x)[1..] == Quoted(ss[0]) + (Further(ss[1..]) + x)
  {
    hide Quoted;
  }

  lemma {:induction false} FurtherApart(ss: seq<string>, x: string, ts: seq<string>, y: string)
    requires Further(ss) + x == Further(ts) + y
    ensures ss == ts && x == y
  {
    hide Quoted;
    FurtherStart(ss, x);
    FurtherStart(ts, y);
    if ss == [] {
      assert x == (Further(ss) + x)[1..] == (Further(ts) + y)[1..] == y;
    } else {
      QuotedApart(ss[0], Further(ss[1..]) + x, ts[0], Further(ts[1..]) + y);
      FurtherApart(ss[1..], x, ts[1..], y);
      assert ss == [ss[0]] + ss[1..] && ts == [ts[0]] + ts[1..];
    }
  }

  lemma TextApart(front: string, x: string, y: string)
    requires front + x == front + y
    ensures x == y
  {
    assert x == (front + x)[|front|..] == (front + y)[|front|..] == y;
  }

  lemma ListParts(ss: seq<string>, x: string)
    ensures ListText(ss) + x == "[" + if ss == [] then "]" + x else Quoted(ss[0]) + (Further(ss[1..]) + x)
  {
    hide Quoted, Further;
  }

  lemma QuotedStart(s: string, x: string)
    ensures (Quoted(s) + x)[0] == '"'
  {}

  /** Reading a list and what follows it has one result. */
  lemma ListApart(ss: seq<string>, x: string, ts: seq<string>, y: string)
    requires ListText(ss) + x == ListText(ts) + y
    ensures ss == ts && x == y
  {
    hide Quoted, Further, ListText;
    ListParts(ss, x);
    ListParts(ts, y);
    var after := if ss == [] then "]" + x else Quoted(ss[0]) + (Further(ss[1..]) + x);
    var after' := if ts == [] then "]" + y else Quoted(ts[0]) + (Further(ts[1..]) + y);
    TextApart("[", after, after');
    if ss != [] {
      QuotedStart(ss[0], Further(ss[1..]) + x);
    }
    if ts != [] {
      QuotedStart(ts[0], Further(ts[1..]) + y);
    }
    assert ss == [] <==> ts == [];
    if ss == [] {
      TextApart("]", x, y);
    } else {
      QuotedApart(ss[0], Further(ss[1..]) + x, ts[0], Further(ts[1..]) + y);
      FurtherApart(ss[1..], x, ts[1..], y);
      assert ss == [ss[0]] + ss[1..] && ts == [ts[0]] + ts[1..];
    }
  }

  lemma MatchParts(m: Match)
    ensures MatchText(m) ==
            "{\"tenants\":" + (ListText(m.tenants) + (",\"agents\":" + (ListText(m.agents)
            + (",\"paths\":" + (ListText(m.paths) + (",\"modelAliases\":" + (ListText(m.modelAliases) + "}")))))))
  {
    hide ListText;
  }

  /** Two matches are written alike only if they are alike. */
  lemma MatchTextIsInjective(m: Match, n: Match)
    ensures MatchText(m) == MatchText(n) <==> m == n
  {
    hide ListText, MatchText;
    if MatchText(m) == MatchText(n) {
      MatchParts(m);
      MatchParts(n);
      var aliases, aliases' := ListText(m.modelAliases) + "}", ListText(n.modelAliases) + "}";
      var paths, paths' := ListText(m.paths) + (",\"modelAliases\":" + aliases),
          ListText(n.paths) + (",\"modelAliases\":" + aliases');
      var agents, agents' := ListText(m.agents) + (",\"paths\":" + paths),
          ListText(n.agents) + (",\"paths\":" + paths');
      TextApart("{\"tenants\":", ListText(m.tenants) + (",\"agents\":" + agents),
                ListText(n.tenants) + (",\"agents\":" + agents'));
      ListApart(m.tenants, ",\"agents\":" + agents, n.tenants, ",\"agents\":" + agents');
      TextApart(",\"agents\":", agents, agents');
      ListApart(m.agents, ",\"paths\":" + paths, n.agents, ",\"paths\":" + paths');
      TextApart(",\"paths\":", paths, paths');
      ListApart(m.paths, ",\"modelAliases\":" + aliases, n.paths, ",\"modelAliases\":" + aliases');
      TextApart(",\"modelAliases\":", aliases, aliases');
      ListApart(m.modelAliases, "}", n.modelAliases, "}");
    }
  }
}
