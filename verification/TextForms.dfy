/**
 What lower-casing, trimming and comparing text amount to, character by character.
 */
module TextForms {
  import opened Ordering

  // ---- case ----

  /** `r` is `s` with its capital letters made small. */
  predicate Lowered(s: string, r: string) {
    && |r| == |s|
    && forall i :: 0 <= i < |s| ==> r[i] as int == if 65 <= s[i] as int <= 90 then s[i] as int + 32 else s[i] as int
  }

  lemma LowerExactly(s: string, r: string)
    ensures r == Lower(s) <==> Lowered(s, r)
  {
    if Lowered(s, r) {
      assert forall i :: 0 <= i < |s| ==> r[i] == Lower(s)[i];
    }
  }

  /** The two differ in case at most. */
  ghost predicate SameButForCase(a: string, b: string) {
    exists r :: Lowered(a, r) && Lowered(b, r)
  }

  lemma SameLower(a: string, b: string)
    ensures Lower(a) == Lower(b) <==> SameButForCase(a, b)
  {
    hide Lower, Lowered;
    LowerExactly(a, Lower(a));
    LowerExactly(b, Lower(b));
    if r :| Lowered(a, r) && Lowered(b, r) {
      LowerExactly(a, r);
      LowerExactly(b, r);
    }
    if Lower(a) == Lower(b) {
      assert Lowered(a, Lower(a)) && Lowered(b, Lower(a));
    }
  }

  // ---- white space ----

  predicate Blank(c: char) {
    c as int == 32 || 9 <= c as int <= 13
  }

  predicate AllBlank(s: string) {
    forall i :: 0 <= i < |s| ==> Blank(s[i])
  }

  predicate BareEnds(s: string) {
    s != "" ==> !Blank(s[0]) && !Blank(s[|s| - 1])
  }

  /** `r` is `s` without the white space around it. */
  ghost predicate Trimmed(s: string, r: string) {
    BareEnds(r) && exists lead, trail :: AllBlank(lead) && AllBlank(trail) && s == lead + r + trail
  }

  lemma {:induction false} TrimStartSplits(s: string) returns (lead: string)
    ensures s == lead + TrimStart(s) && AllBlank(lead)
    ensures TrimStart(s) != "" ==> !Blank(TrimStart(s)[0])
  {
    lead := "";
    if s != "" && IsSpace(s[0]) {
      lead := TrimStartSplits(s[1..]);
      lead := [s[0]] + lead;
    }
  }

  lemma {:induction false} TrimEndSplits(s: string) returns (trail: string)
    ensures s == TrimEnd(s) + trail && AllBlank(trail)
    ensures TrimEnd(s) != "" ==> !Blank(TrimEnd(s)[|TrimEnd(s)| - 1]) && TrimEnd(s)[0] == s[0]
  {
    trail := "";
    if s != "" && IsSpace(s[|s| - 1]) {
      trail := TrimEndSplits(s[..|s| - 1]);
      trail := trail + [s[|s| - 1]];
    }
  }

  lemma TrimIsTrimmed(s: string)
    ensures Trimmed(s, Trim(s))
  {
    var lead := TrimStartSplits(s);
    var trail := TrimEndSplits(TrimStart(s));
    assert s == lead + Trim(s) + trail;
  }

  lemma TrimmedIsUnique(lead: string, r: string, trail: string, lead': string, r': string, trail': string)
    requires lead + r + trail == lead' + r' + trail'
    requires AllBlank(lead) && AllBlank(trail) && AllBlank(lead') && AllBlank(trail') && BareEnds(r) && BareEnds(r')
    ensures r == r'
  {
    var s := lead + r + trail;
    if r != "" {
      FirstBare(lead, r, trail, lead', r', trail');
    }
    if r' != "" {
      FirstBare(lead', r', trail', lead, r, trail);
    }
    assert r == s[|lead|..|lead| + |r|] && r' == s[|lead'|..|lead'| + |r'|];
  }

  lemma BareIsInside(lead: string, r: string, trail: string, i: nat)
    requires AllBlank(lead) && AllBlank(trail) && i < |lead + r + trail|
    ensures !Blank((lead + r + trail)[i]) ==> |lead| <= i < |lead| + |r|
  {}

  /** The first and the last bare character are where they are. */
  lemma FirstBare(lead: string, r: string, trail: string, lead': string, r': string, trail': string)
    requires lead + r + trail == lead' + r' + trail'
    requires AllBlank(lead) && AllBlank(trail) && AllBlank(lead') && AllBlank(trail') && BareEnds(r) && BareEnds(r')
    requires r != ""
    ensures r' != "" && |lead| == |lead'| && |r| == |r'|
  {
    hide AllBlank;
    var s := lead + r + trail;
    assert s[|lead|] == r[0] && s[|lead| + |r| - 1] == r[|r| - 1];
    BareIsInside(lead', r', trail', |lead|);
    BareIsInside(lead', r', trail', |lead| + |r| - 1);
    assert s[|lead'|] == r'[0] && s[|lead'| + |r'| - 1] == r'[|r'| - 1];
    BareIsInside(lead, r, trail, |lead'|);
    BareIsInside(lead, r, trail, |lead'| + |r'| - 1);
  }

  lemma TrimExactly(s: string, r: string)
    ensures r == Trim(s) <==> Trimmed(s, r)
  {
    hide Trim, AllBlank, BareEnds;
    TrimIsTrimmed(s);
    if Trimmed(s, r) {
      var lead, trail :| AllBlank(lead) && AllBlank(trail) && s == lead + r + trail;
      var lead', trail' :| AllBlank(lead') && AllBlank(trail') && s == lead' + Trim(s) + trail';
      TrimmedIsUnique(lead, r, trail, lead', Trim(s), trail');
    }
  }

  // ---- order ----

  /** A text is before another if it is the beginning of it or smaller in the first character they differ in. */
  lemma {:induction false} StrLeExactly(a: string, b: string)
    ensures StrLe(a, b) <==>
      a <= b || exists k: nat :: k < |a| && k < |b| && a[..k] == b[..k] && a[k] < b[k]
  {
    if a != "" && b != "" {
      if a[0] == b[0] {
        StrLeExactly(a[1..], b[1..]);
        assert a == [a[0]] + a[1..] && b == [b[0]] + b[1..];
        if k: nat :| k < |a| && k < |b| && a[..k] == b[..k] && a[k] < b[k] {
          assert a[1..][..k - 1] == a[..k][1..] && b[1..][..k - 1] == b[..k][1..];
          assert a[1..][k - 1] < b[1..][k - 1];
        }
        if k: nat :| k < |a[1..]| && k < |b[1..]| && a[1..][..k] == b[1..][..k] && a[1..][k] < b[1..][k] {
          assert a[..k + 1] == [a[0]] + a[1..][..k] && b[..k + 1] == [b[0]] + b[1..][..k];
          assert a[k + 1] < b[k + 1];
        }
      } else {
        assert a[..0] == b[..0];
        if k: nat :| k < |a| && k < |b| && a[..k] == b[..k] && a[k] < b[k] {
          assert k > 0 ==> a[..k][0] == b[..k][0];
        }
      }
    }
  }
}
