/**
 The check-digit algorithms of the PII detector (crates/security/src/pii.rs): what
 each computes and which errors it catches.
 */
module CheckDigits {
  // The error-detection laws are those of the standards the algorithms come from: ISO/IEC 7064 (MOD 97-10 and
  // MOD 11,10), ISO 13616 for IBANs and ISO/IEC 7812-1 Annex B for Luhn.

  import opened Ordering
  import opened Snapshots

  type Digit = x: int | 0 <= x < 10

  predicate IsDigit(c: char) {
    '0' <= c <= '9'
  }

  predicate IsUpper(c: char) {
    'A' <= c <= 'Z'
  }

  function DigitOf(c: char): Digit {
    if IsDigit(c) then c as int - '0' as int else 0
  }

  /** The digits of a text, everything else skipped. */
  function DigitsOf(raw: string): seq<Digit> {
    Map(DigitOf, Filter(IsDigit, raw))
  }

  /** The same digits with one of them replaced. */
  ghost predicate OneDigitOff(d: seq<Digit>, e: seq<Digit>, i: nat) {
    i < |d| && |e| == |d| && e[i] != d[i] && forall k :: 0 <= k < |d| && k != i ==> e[k] == d[k]
  }

  /** The same digits with two of them exchanged. */
  ghost predicate Exchanged(d: seq<Digit>, e: seq<Digit>, i: nat, j: nat) {
    && i < j < |d| && |e| == |d| && d[i] != d[j] && e[i] == d[j] && e[j] == d[i]
    && forall k :: 0 <= k < |d| && k != i && k != j ==> e[k] == d[k]
  }

  // ---- IBAN: MOD 97-10 over letters and digits ----

  predicate IsAlnum(c: char) {
    IsDigit(c) || IsUpper(c)
  }

  /** Letters count from ten. */
  function AlnumValue(c: char): (v: nat)
    requires IsAlnum(c)
    ensures v < 36 && (v < 10 <==> IsDigit(c))
  {
    if IsDigit(c) then c as int - '0' as int else c as int - 'A' as int + 10
  }

  /** The decimal digits a character expands to. */
  function ExpandChar(c: char): seq<Digit>
    requires IsAlnum(c)
  {
    var v := AlnumValue(c);
    if v < 10 then [v] else [v / 10, v % 10]
  }

  function Expand(s: string): seq<Digit>
    requires forall c | c in s :: IsAlnum(c)
  {
    if s == "" then [] else Expand(s[..|s| - 1]) + ExpandChar(s[|s| - 1])
  }

  /** The number that decimal digits write. */
  function Number(d: seq<Digit>): nat {
    if d == [] then 0 else Number(d[..|d| - 1]) * 10 + d[|d| - 1]
  }

  function NotSpace(c: char): bool {
    !IsSpace(c)
  }

  function Rearranged(s: string): string
    requires |s| >= 4
  {
    s[4..] + s[..4]
  }

  ghost predicate IbanOk(raw: string) {
    var s := Filter(NotSpace, raw);
    && 15 <= |s| <= 34
    && (forall c | c in s :: IsAlnum(c))
    && Number(Expand(Rearranged(s))) % 97 == 1
  }

  /** One step of the streamed remainder. */
  function Step97(rem: nat, c: char): (r: nat)
    requires IsAlnum(c)
    ensures r < 97
  {
    var v := AlnumValue(c);
    if v >= 10 then (rem * 100 + v) % 97 else (rem * 10 + v) % 97
  }

  function Streamed(rem: nat, s: string): (r: nat)
    requires forall c | c in s :: IsAlnum(c)
    ensures rem < 97 ==> r < 97
  {
    if s == "" then rem else Step97(Streamed(rem, s[..|s| - 1]), s[|s| - 1])
  }

  lemma NumberSnoc(d: seq<Digit>, x: Digit)
    ensures Number(d + [x]) == Number(d) * 10 + x
  {
    assert (d + [x])[..|d|] == d;
  }

  lemma ModStep(n: nat, k: nat, v: nat)
    ensures ((n % 97) * k + v) % 97 == (n * k + v) % 97
  {
    var q := n / 97;
    assert n == 97 * q + n % 97;
    assert n * k == 97 * (q * k) + (n % 97) * k by {
      assert (97 * q + n % 97) * k == 97 * (q * k) + (n % 97) * k;
    }
    ModShift((n % 97) * k + v, q * k);
  }

  lemma ModShift(x: nat, q: nat)
    ensures (97 * q + x) % 97 == x % 97
  {}

  lemma ExpandSnoc(front: string, c: char)
    requires forall x | x in front + [c] :: IsAlnum(x)
    ensures (forall x | x in front :: IsAlnum(x)) && IsAlnum(c)
    ensures Expand(front + [c]) == Expand(front) + ExpandChar(c)
  {
    hide IsAlnum, ExpandChar;
    var s := front + [c];
    assert forall x | x in front :: x in s;
    assert c in s && s[..|front|] == front;
  }

  /** A number with a character's decimal digits written behind it. */
  function Followed(n: nat, c: char): nat
    requires IsAlnum(c)
  {
    n * (if AlnumValue(c) < 10 then 10 else 100) + AlnumValue(c)
  }

  lemma ExpandedChar(d: seq<Digit>, c: char)
    requires IsAlnum(c)
    ensures Number(d + ExpandChar(c)) == Followed(Number(d), c)
  {
    hide IsAlnum;
    var v := AlnumValue(c);
    if v < 10 {
      NumberSnoc(d, v);
    } else {
      NumberSnoc(d, v / 10);
      NumberSnoc(d + [v / 10], v % 10);
      assert d + [v / 10, v % 10] == d + [v / 10] + [v % 10];
    }
  }

  lemma StreamedSnoc(rem: nat, front: string, c: char)
    requires forall x | x in front + [c] :: IsAlnum(x)
    ensures (forall x | x in front :: IsAlnum(x)) && IsAlnum(c)
    ensures Streamed(rem, front + [c]) == Step97(Streamed(rem, front), c)
  {
    var s := front + [c];
    assert forall x | x in front :: x in s;
    assert c in s && s[..|front|] == front;
  }

  lemma StepIsRemainder(n: nat, c: char)
    requires IsAlnum(c)
    ensures Step97(n % 97, c) == Followed(n, c) % 97
  {
    hide IsAlnum, AlnumValue;
    ModStep(n, 10, AlnumValue(c));
    ModStep(n, 100, AlnumValue(c));
  }

  /** The streamed remainder is the remainder of the expanded number, whatever its length. */
  lemma {:induction false} StreamedIsRemainder(s: string)
    requires forall c | c in s :: IsAlnum(c)
    ensures Streamed(0, s) == Number(Expand(s)) % 97
  {
    if s != "" {
      hide Number, Expand, Streamed, Step97, Followed, IsAlnum, AlnumValue, ExpandChar;
      var front, c := s[..|s| - 1], s[|s| - 1];
      assert s == front + [c];
      StreamedSnoc(0, front, c);
      ExpandSnoc(front, c);
      ExpandedChar(Expand(front), c);
      StreamedIsRemainder(front);
      StepIsRemainder(Number(Expand(front)), c);
    }
  }

  /** The remainder of the rearranged text, unless a character is neither a digit nor a capital letter. */
  method Remainder97(s: string) returns (rem: Option<nat>)
    ensures rem.Some? <==> forall c | c in s :: IsAlnum(c)
    ensures rem.Some? ==> rem.value == Number(Expand(s)) % 97
  {
    hide Number, Expand, Step97, IsAlnum;
    var r := 0;
    for i := 0 to |s|
      invariant forall c | c in s[..i] :: IsAlnum(c)
      invariant r == Streamed(0, s[..i])
    {
      var c := s[i];
      if !IsAlnum(c) {
        return None;
      }
      assert s[..i + 1] == s[..i] + [c];
      StreamedSnoc(0, s[..i], c);
      r := Step97(r, c);
    }
    assert s[..|s|] == s;
    StreamedIsRemainder(s);
    rem := Some(r);
  }

  method CheckIban(raw: string) returns (ok: bool)
    ensures ok <==> IbanOk(raw)
  {
    hide IsAlnum, Number, Expand, Filter;
    var s := Filter(NotSpace, raw);
    if |s| < 15 || |s| > 34 {
      return false;
    }
    var rearranged := Rearranged(s);
    assert forall c :: c in s <==> c in rearranged by {
      assert s == s[..4] + s[4..];
    }
    var rem := Remainder97(rearranged);
    ok := rem == Some(1);
  }

  /** Ten is invertible modulo 97: ten times 68 is seven times 97 and one. */
  lemma Different10(a: nat, b: nat, v: nat)
    requires a < 97 && b < 97
    ensures (a * 10 + v) % 97 == (b * 10 + v) % 97 ==> a == b
  {
    if (a * 10 + v) % 97 == (b * 10 + v) % 97 {
      EqualRemainders(a * 10 + v, b * 10 + v);
      var k :| a * 10 + v - (b * 10 + v) == 97 * k;
      assert a - b == 97 * (68 * k - 7 * (a - b));
    }
  }

  /** And so is a hundred. */
  lemma Different100(a: nat, b: nat, v: nat)
    requires a < 97 && b < 97
    ensures (a * 100 + v) % 97 == (b * 100 + v) % 97 ==> a == b
  {
    if (a * 100 + v) % 97 == (b * 100 + v) % 97 {
      EqualRemainders(a * 100 + v, b * 100 + v);
      var k :| a * 100 + v - (b * 100 + v) == 97 * k;
      assert a - b == 97 * (65 * k - 67 * (a - b));
    }
  }

  /** Once two remainders differ they differ for good. */
  lemma {:induction false} DifferenceStays(a: nat, b: nat, s: string)
    requires a < 97 && b < 97 && a != b && forall c | c in s :: IsAlnum(c)
    ensures Streamed(a, s) != Streamed(b, s)
  {
    if s != "" {
      var front, c := s[..|s| - 1], s[|s| - 1];
      assert c in s;
      DifferenceStays(a, b, front);
      Different10(Streamed(a, front), Streamed(b, front), AlnumValue(c));
      Different100(Streamed(a, front), Streamed(b, front), AlnumValue(c));
    }
  }

  lemma {:induction false} StreamedConcat(rem: nat, a: string, b: string)
    requires forall c | c in a + b :: IsAlnum(c)
    ensures Streamed(rem, a + b) == Streamed(Streamed(rem, a), b)
  {
    if b == "" {
      assert a + b == a;
    } else {
      assert (a + b)[..|a + b| - 1] == a + b[..|b| - 1];
      StreamedConcat(rem, a, b[..|b| - 1]);
    }
  }

  predicate SameKind(c: char, d: char) {
    IsAlnum(c) && IsAlnum(d) && (IsDigit(c) <==> IsDigit(d))
  }

  lemma SameKindValues(c: char, d: char)
    requires SameKind(c, d) && c != d
    ensures AlnumValue(c) != AlnumValue(d) && (AlnumValue(c) < 10 <==> AlnumValue(d) < 10)
    ensures -25 <= AlnumValue(c) - AlnumValue(d) <= 25
    ensures AlnumValue(c) < 10 ==> -9 <= AlnumValue(c) - AlnumValue(d) <= 9
  {}

  lemma EqualRemainders(x: nat, y: nat)
    requires x % 97 == y % 97
    ensures exists k :: x - y == 97 * k
  {
    assert x - y == 97 * (x / 97 - y / 97);
  }

  lemma CloseRemaindersDiffer(x: nat, y: nat)
    requires x != y && -97 < x - y < 97
    ensures x % 97 != y % 97
  {
    if x % 97 == y % 97 {
      EqualRemainders(x, y);
    }
  }

  /** Digits differ by less than ten and letters by less than twenty-six, so their remainders differ. */
  lemma SubstitutedStep(rem: nat, c: char, d: char)
    requires rem < 97 && SameKind(c, d) && c != d
    ensures Step97(rem, c) != Step97(rem, d)
  {
    hide AlnumValue, IsAlnum, SameKind;
    SameKindIsAlnum(c, d);
    SameKindValues(c, d);
    var v, w := AlnumValue(c), AlnumValue(d);
    CloseRemaindersDiffer(rem * 10 + v, rem * 10 + w);
    CloseRemaindersDiffer(rem * 100 + v, rem * 100 + w);
  }

  lemma SameKindIsAlnum(c: char, d: char)
    ensures SameKind(c, d) ==> IsAlnum(c) && IsAlnum(d)
  {}

  lemma CutAt(s: string, i: nat, n: nat)
    requires i + n <= |s| && forall c | c in s :: IsAlnum(c)
    ensures forall c | c in s[..i] :: IsAlnum(c)
    ensures forall c | c in s[i..i + n] :: IsAlnum(c)
    ensures forall c | c in s[i + n..] :: IsAlnum(c)
    ensures Streamed(0, s) == Streamed(Streamed(Streamed(0, s[..i]), s[i..i + n]), s[i + n..])
  {
    hide IsAlnum, Streamed;
    assert s == s[..i + n] + s[i + n..];
    assert s[..i + n] == s[..i] + s[i..i + n];
    StreamedConcat(0, s[..i + n], s[i + n..]);
    StreamedConcat(0, s[..i], s[i..i + n]);
  }

  /** A substitution within the same kind changes the remainder. */
  lemma SubstitutionChangesRemainder(s: string, i: nat, d: char)
    requires i < |s| && (forall c | c in s :: IsAlnum(c)) && SameKind(s[i], d) && d != s[i]
    ensures (forall c | c in s[i := d] :: IsAlnum(c)) && Streamed(0, s[i := d]) != Streamed(0, s)
  {
    var t := s[i := d];
    forall c | c in t ensures IsAlnum(c) {
      assert c == d || c in s;
    }
    CutAt(s, i, 1);
    CutAt(t, i, 1);
    assert s[i..i + 1] == [s[i]] && t[i..i + 1] == [d] && t[..i] == s[..i] && t[i + 1..] == s[i + 1..];
    var rem := Streamed(0, s[..i]);
    StreamedOne(rem, s[i]);
    StreamedOne(rem, d);
    SubstitutedStep(rem, s[i], d);
    forall c | c in s[i + 1..] ensures IsAlnum(c) { assert c in s; }
    DifferenceStays(Step97(rem, s[i]), Step97(rem, d), s[i + 1..]);
  }

  lemma StreamedOne(rem: nat, c: char)
    requires IsAlnum(c)
    ensures Streamed(rem, [c]) == Step97(rem, c)
  {
    assert [c][..0] == "";
  }

  lemma {:induction false} NoSpaces(s: string)
    requires forall c | c in s :: !IsSpace(c)
    ensures Filter(NotSpace, s) == s
  {
    if s != "" {
      assert s[|s| - 1] in s;
      NoSpaces(s[..|s| - 1]);
      assert s[..|s| - 1] + [s[|s| - 1]] == s;
    }
  }

  lemma OkIsStreamed(s: string)
    requires forall c | c in s :: IsAlnum(c)
    ensures IbanOk(s) <==> 15 <= |s| <= 34 && Streamed(0, Rearranged(s)) == 1
  {
    NoSpaces(s);
    if |s| >= 4 {
      StreamedIsRemainder(Rearranged(s));
    }
  }

  lemma RearrangedIndex(s: string, i: nat, d: char)
    requires 4 <= |s| && i < |s|
    ensures Rearranged(s[i := d]) == Rearranged(s)[(if i < 4 then i + |s| - 4 else i - 4) := d]
  {}

  lemma CompactIbanCatchesSubstitution(s: string, i: nat, d: char)
    requires i < |s| && (forall c | c in s :: IsAlnum(c)) && SameKind(s[i], d) && d != s[i]
    ensures IbanOk(s) ==> !IbanOk(s[i := d])
  {
    forall c | c in s[i := d] ensures IsAlnum(c) {
      assert c == d || c in s;
    }
    OkIsStreamed(s);
    OkIsStreamed(s[i := d]);
    if |s| >= 4 {
      RearrangedIndex(s, i, d);
      SubstitutionChangesRemainder(Rearranged(s), if i < 4 then i + |s| - 4 else i - 4, d);
    }
  }

  /** White space between the characters counts for nothing. */
  lemma OkIsCompact(raw: string)
    ensures IbanOk(raw) <==> IbanOk(Filter(NotSpace, raw))
  {
    FilterKeeps(NotSpace, raw);
    NoSpaces(Filter(NotSpace, raw));
  }

  /** Replacing a character that is kept by another one replaces it in what is kept. */
  lemma {:induction false} FilterReplaced(raw: string, i: nat, d: char)
    requires i < |raw| && NotSpace(raw[i]) && NotSpace(d)
    ensures var j := |Filter(NotSpace, raw[..i])|;
      && j < |Filter(NotSpace, raw)| && Filter(NotSpace, raw)[j] == raw[i]
      && Filter(NotSpace, raw[i := d]) == Filter(NotSpace, raw)[j := d]
  {
    hide IsSpace;
    var last := |raw| - 1;
    if i == last {
      assert raw[i := d][..last] == raw[..last];
    } else {
      FilterReplaced(raw[..last], i, d);
      assert raw[..last][..i] == raw[..i] && raw[i := d][..last] == raw[..last][i := d];
    }
  }

  /** No valid IBAN, however spaced, becomes another by replacing one digit with a digit or one letter with a letter. */
  lemma IbanCatchesSubstitution(raw: string, i: nat, d: char)
    requires i < |raw| && SameKind(raw[i], d) && d != raw[i]
    ensures IbanOk(raw) ==> !IbanOk(raw[i := d])
  {
    hide Filter, Number, Expand;
    var s := Filter(NotSpace, raw);
    FilterReplaced(raw, i, d);
    OkIsCompact(raw);
    OkIsCompact(raw[i := d]);
    if IbanOk(raw) {
      CompactIbanCatchesSubstitution(s, |Filter(NotSpace, raw[..i])|, d);
    }
  }

  // ---- Luhn ----

  /** What a digit contributes at a place counted from the right. */
  function LuhnWeight(x: Digit, place: nat): nat {
    if place % 2 == 0 then x else if x * 2 > 9 then x * 2 - 9 else x * 2
  }

  function LuhnSum(d: seq<Digit>): nat {
    if d == [] then 0 else LuhnWeight(d[0], |d| - 1) + LuhnSum(d[1..])
  }

  predicate LuhnOk(d: seq<Digit>) {
    13 <= |d| <= 19 && LuhnSum(d) % 10 == 0
  }

  /** The digits from the right, every second one doubled. */
  method CheckLuhn(raw: string) returns (ok: bool)
    ensures ok <==> LuhnOk(DigitsOf(raw))
  {
    hide DigitsOf;
    var d := DigitsOf(raw);
    if |d| < 13 || |d| > 19 {
      return false;
    }
    var sum: nat := 0;
    for i := 0 to |d|
      invariant sum == LuhnSum(d[|d| - i..])
    {
      var k := |d| - 1 - i;
      assert d[k..][1..] == d[k + 1..];
      if i % 2 == 1 {
        var doubled: nat := d[k] as nat * 2;
        sum := sum + if doubled > 9 then doubled - 9 else doubled;
      } else {
        sum := sum + d[k];
      }
    }
    assert d[0..] == d;
    ok := sum % 10 == 0;
  }

  lemma {:induction false} LuhnSumSplit(d: seq<Digit>, e: seq<Digit>, i: nat)
    requires OneDigitOff(d, e, i)
    ensures LuhnSum(d) + LuhnWeight(e[i], |d| - 1 - i) == LuhnSum(e) + LuhnWeight(d[i], |d| - 1 - i)
  {
    hide LuhnWeight;
    if i == 0 {
      assert d[1..] == e[1..];
    } else {
      LuhnSumSplit(d[1..], e[1..], i - 1);
    }
  }

  /** Every single-digit error is caught. */
  lemma LuhnCatchesDigitErrors(d: seq<Digit>, e: seq<Digit>, i: nat)
    requires OneDigitOff(d, e, i)
    ensures LuhnOk(d) ==> !LuhnOk(e)
  {
    hide LuhnSum;
    LuhnSumSplit(d, e, i);
  }

  lemma {:induction false} LuhnSumSwap(d: seq<Digit>, e: seq<Digit>, i: nat)
    requires Exchanged(d, e, i, i + 1)
    ensures var p := |d| - 1 - i;
      LuhnSum(d) + LuhnWeight(e[i], p) + LuhnWeight(e[i + 1], p - 1)
        == LuhnSum(e) + LuhnWeight(d[i], p) + LuhnWeight(d[i + 1], p - 1)
  {
    hide LuhnWeight;
    if i == 0 {
      assert d[1..][1..] == e[1..][1..];
      assert LuhnSum(d) == LuhnWeight(d[0], |d| - 1) + (LuhnWeight(d[1], |d| - 2) + LuhnSum(d[2..]));
      assert LuhnSum(e) == LuhnWeight(e[0], |e| - 1) + (LuhnWeight(e[1], |e| - 2) + LuhnSum(e[2..]));
      assert d[2..] == e[2..];
    } else {
      LuhnSumSwap(d[1..], e[1..], i - 1);
    }
  }

  /** What doubling adds to a digit's contribution. */
  function Gain(x: Digit): (g: int)
    ensures -4 <= g <= 4
  {
    LuhnWeight(x, 1) - x
  }

  lemma GainTwice(a: Digit, b: Digit)
    ensures a != b ==> (Gain(a) == Gain(b) <==> (a == 0 && b == 9) || (a == 9 && b == 0))
  {}

  lemma SwappedWeights(a: Digit, b: Digit, p: nat)
    requires p > 0
    ensures var change := LuhnWeight(b, p) + LuhnWeight(a, p - 1) - LuhnWeight(a, p) - LuhnWeight(b, p - 1);
      change == Gain(b) - Gain(a) || change == Gain(a) - Gain(b)
  {
    assert p % 2 == 0 <==> (p - 1) % 2 == 1;
  }

  /** An exchange of neighbours is caught exactly when it is not an exchange of 0 and 9. */
  lemma LuhnCatchesTranspositionsExactly(d: seq<Digit>, e: seq<Digit>, i: nat)
    requires Exchanged(d, e, i, i + 1) && LuhnOk(d)
    ensures LuhnOk(e) <==> (d[i] == 0 && d[i + 1] == 9) || (d[i] == 9 && d[i + 1] == 0)
  {
    hide LuhnSum, LuhnWeight, Gain;
    LuhnSumSwap(d, e, i);
    SwappedWeights(d[i], d[i + 1], |d| - 1 - i);
    GainTwice(d[i], d[i + 1]);
  }

  // ---- the Dutch BSN ----

  function BsnWeight(i: nat): int {
    if i == 8 then -1 else 9 - i
  }

  function BsnSum(d: seq<Digit>): int {
    if d == [] then 0 else BsnSum(d[..|d| - 1]) + BsnWeight(|d| - 1) * d[|d| - 1]
  }

  predicate BsnOk(d: seq<Digit>) {
    |d| == 9 && BsnSum(d) % 11 == 0
  }

  lemma BsnSumEmpty()
    ensures BsnSum([]) == 0
  {}

  lemma BsnSumSnoc(d: seq<Digit>, i: nat)
    requires i < |d|
    ensures BsnSum(d[..i + 1]) == BsnSum(d[..i]) + if i == 8 then -(d[i] as int) else d[i] as int * (9 - i)
  {
    assert d[..i + 1][..i] == d[..i];
  }

  /** The weighted sum, in which the last digit counts negatively. */
  method CheckBsn(raw: string) returns (ok: bool)
    ensures ok <==> BsnOk(DigitsOf(raw))
  {
    hide DigitsOf, BsnSum;
    var d := DigitsOf(raw);
    if |d| != 9 {
      return false;
    }
    var sum: int := 0;
    BsnSumEmpty();
    for i := 0 to |d|
      invariant sum == BsnSum(d[..i])
    {
      BsnSumSnoc(d, i);
      if i == 8 {
        sum := sum - d[i];
      } else {
        sum := sum + d[i] * (9 - i);
      }
    }
    assert d[..|d|] == d;
    ok := sum % 11 == 0;
  }

  /** What a change of `x` in a digit of weight `w` does to the sum. */
  function Share(w: int, x: int): int {
    w * x
  }

  lemma {:induction false} BsnSumSplit(d: seq<Digit>, e: seq<Digit>, i: nat)
    requires OneDigitOff(d, e, i)
    ensures BsnSum(d) - BsnSum(e) == Share(BsnWeight(i), d[i] as int - e[i] as int)
    decreases |d|
  {
    hide BsnWeight;
    var n := |d| - 1;
    if i == n {
      assert d[..n] == e[..n];
    } else {
      BsnSumSplit(d[..n], e[..n], i);
    }
  }

  lemma WeightedDifference(w: int, x: int)
    requires -10 <= w <= 10 && w != 0 && -9 <= x <= 9 && x != 0
    ensures Share(w, x) % 11 != 0
  {
    if w < 0 {
      assert w * x == (-w) * (-x);
      PositiveWeight(-w, -x);
    } else {
      PositiveWeight(w, x);
    }
  }

  lemma PositiveWeight(w: int, x: int)
    requires 1 <= w <= 10 && -9 <= x <= 9 && x != 0
    ensures (w * x) % 11 != 0
  {
    if w == 1 {} else if w == 2 {} else if w == 3 {} else if w == 4 {} else if w == 5 {}
    else if w == 6 {} else if w == 7 {} else if w == 8 {} else if w == 9 {} else { assert w == 10; }
  }

  lemma NonZeroWeight(i: nat)
    ensures i < 9 ==> -10 <= BsnWeight(i) <= 10 && BsnWeight(i) != 0
  {}

  lemma NotBothDivisible(a: int, b: int)
    ensures (a - b) % 11 != 0 && a % 11 == 0 ==> b % 11 != 0
  {}

  /** Every single-digit error is caught. */
  lemma BsnCatchesDigitErrors(d: seq<Digit>, e: seq<Digit>, i: nat)
    requires OneDigitOff(d, e, i)
    ensures BsnOk(d) ==> !BsnOk(e)
  {
    hide BsnSum, BsnWeight, Share;
    BsnSumSplit(d, e, i);
    if |d| == 9 {
      NonZeroWeight(i);
      WeightedDifference(BsnWeight(i), d[i] as int - e[i] as int);
      NotBothDivisible(BsnSum(d), BsnSum(e));
    }
  }

  lemma SharesAdd(v: int, w: int, x: int)
    ensures Share(v, x) + Share(w, -x) == Share(v - w, x)
  {}

  /** Every exchange of two different digits is caught, because all weights differ modulo 11. */
  lemma BsnCatchesExchanges(d: seq<Digit>, e: seq<Digit>, i: nat, j: nat)
    requires Exchanged(d, e, i, j)
    ensures BsnOk(d) ==> !BsnOk(e)
  {
    hide BsnSum, BsnWeight, Share;
    var mid := d[i := d[j]];
    BsnSumSplit(d, mid, i);
    BsnSumSplit(mid, e, j);
    if |d| == 9 {
      WeightsDiffer(i, j);
      SharesAdd(BsnWeight(i), BsnWeight(j), d[i] as int - d[j] as int);
      WeightedDifference(BsnWeight(i) - BsnWeight(j), d[i] as int - d[j] as int);
      NotBothDivisible(BsnSum(d), BsnSum(e));
    }
  }

  lemma WeightsDiffer(i: nat, j: nat)
    ensures i < j < 9 ==> 1 <= BsnWeight(i) - BsnWeight(j) <= 10
  {}

  // ---- the German tax ID: MOD 11,10 ----

  function TaxStep(product: nat, x: Digit): (p: nat)
    requires 1 <= product <= 10
    ensures 1 <= p <= 10
  {
    Doubled((x + product) % 10)
  }

  function Doubled(sum: nat): (p: nat)
    requires sum < 10
    ensures 1 <= p <= 10
  {
    ((if sum == 0 then 10 else sum) * 2) % 11
  }

  function TaxProduct(product: nat, d: seq<Digit>): (p: nat)
    requires 1 <= product <= 10
    ensures 1 <= p <= 10
  {
    if d == [] then product else TaxStep(TaxProduct(product, d[..|d| - 1]), d[|d| - 1])
  }

  function Count(d: seq<Digit>, x: Digit): nat {
    multiset(d)[x]
  }

  /** Some digit does not occur among the first ten, and none more than three times. */
  ghost predicate TaxShape(d: seq<Digit>) {
    (exists x: Digit :: Count(d, x) == 0) && forall x: Digit :: Count(d, x) <= 3
  }

  ghost predicate TaxIdOk(d: seq<Digit>) {
    && |d| == 11 && d[0] != 0
    && TaxShape(d[..10])
    && (11 - TaxProduct(10, d[..10])) % 10 == d[10]
  }

  method CheckTaxId(raw: string) returns (ok: bool)
    ensures ok <==> TaxIdOk(DigitsOf(raw))
  {
    var d := DigitsOf(raw);
    if |d| != 11 || d[0] == 0 {
      return false;
    }
    var shaped := CheckShape(d[..10]);
    if !shaped {
      return false;
    }
    var product := ProductOf(d[..10]);
    ok := (11 - product) % 10 == d[10];
  }

  lemma TaxStepIs(product: nat, x: Digit)
    requires 1 <= product <= 10
    ensures var sum := (x + product) % 10; TaxStep(product, x) == ((if sum == 0 then 10 else sum) * 2) % 11
  {}

  method ProductOf(d: seq<Digit>) returns (product: nat)
    ensures product == TaxProduct(10, d)
  {
    hide TaxStep;
    product := 10;
    assert d[..0] == [];
    for i := 0 to |d|
      invariant 1 <= product <= 10 && product == TaxProduct(10, d[..i])
    {
      var sum := (d[i] + product) % 10;
      if sum == 0 {
        sum := 10;
      }
      assert d[..i + 1][..i] == d[..i];
      TaxStepIs(product, d[i]);
      product := (sum * 2) % 11;
    }
    assert d[..|d|] == d;
  }

  method CheckShape(d: seq<Digit>) returns (ok: bool)
    ensures ok <==> TaxShape(d)
  {
    var counts := new nat[10](_ => 0);
    for i := 0 to |d|
      invariant fresh(counts)
      invariant forall x: Digit :: counts[x] == Count(d[..i], x)
    {
      assert d[..i + 1] == d[..i] + [d[i]];
      counts[d[i]] := counts[d[i]] + 1;
    }
    assert d[..|d|] == d;
    var missing, most := false, 0;
    for x := 0 to 10
      invariant missing <==> exists y: Digit :: y < x && counts[y] == 0
      invariant forall y: Digit :: y < x ==> counts[y] <= most
      invariant most > 0 ==> exists y: Digit :: y < x && counts[y] == most
    {
      var digit: Digit := x;
      if counts[digit] == 0 {
        missing := true;
      }
      if counts[digit] > most {
        most := counts[digit];
      }
    }
    ok := missing && most <= 3;
  }

  lemma TaxStepInjective(p: nat, q: nat, x: Digit, y: Digit)
    requires 1 <= p <= 10 && 1 <= q <= 10
    ensures p != q ==> TaxStep(p, x) != TaxStep(q, x)
    ensures x != y ==> TaxStep(p, x) != TaxStep(p, y)
  {
    hide Doubled;
    if p != q {
      SumsDiffer(p, q, x);
      DoubledInjective((x + p) % 10, (x + q) % 10);
    }
    if x != y {
      SumsDiffer(x, y, p);
      DoubledInjective((x + p) % 10, (y + p) % 10);
    }
  }

  lemma DoubledInjective(s: nat, t: nat)
    ensures s < 10 && t < 10 && s != t ==> Doubled(s) != Doubled(t)
  {}

  lemma SumsDiffer(p: nat, q: nat, x: nat)
    ensures p != q && -10 < p - q < 10 ==> (x + p) % 10 != (x + q) % 10
  {}

  lemma {:induction false} TaxDifferenceStays(p: nat, q: nat, d: seq<Digit>)
    requires 1 <= p <= 10 && 1 <= q <= 10 && p != q
    ensures TaxProduct(p, d) != TaxProduct(q, d)
  {
    hide TaxStep;
    if d != [] {
      var front, x := d[..|d| - 1], d[|d| - 1];
      TaxDifferenceStays(p, q, front);
      TaxStepInjective(TaxProduct(p, front), TaxProduct(q, front), x, x);
    }
  }

  lemma {:induction false} TaxConcat(p: nat, a: seq<Digit>, b: seq<Digit>)
    requires 1 <= p <= 10
    ensures TaxProduct(p, a + b) == TaxProduct(TaxProduct(p, a), b)
  {
    hide TaxStep;
    if b == [] {
      assert a + b == a;
    } else {
      assert (a + b)[..|a + b| - 1] == a + b[..|b| - 1];
      TaxConcat(p, a, b[..|b| - 1]);
    }
  }

  lemma TaxProductDiffers(d: seq<Digit>, e: seq<Digit>, i: nat)
    requires OneDigitOff(d, e, i)
    ensures TaxProduct(10, d) != TaxProduct(10, e)
  {
    hide TaxStep;
    assert d == d[..i + 1] + d[i + 1..] && e == e[..i + 1] + e[i + 1..];
    TaxConcat(10, d[..i + 1], d[i + 1..]);
    TaxConcat(10, e[..i + 1], e[i + 1..]);
    assert d[..i + 1][..i] == e[..i + 1][..i] && d[i + 1..] == e[i + 1..];
    TaxStepInjective(TaxProduct(10, d[..i + 1][..i]), 10, d[i], e[i]);
    TaxDifferenceStays(TaxProduct(10, d[..i + 1]), TaxProduct(10, e[..i + 1]), d[i + 1..]);
  }

  /** Every single-digit error is caught. */
  lemma TaxIdCatchesDigitErrors(d: seq<Digit>, e: seq<Digit>, i: nat)
    requires OneDigitOff(d, e, i)
    ensures TaxIdOk(d) ==> !TaxIdOk(e)
  {
    hide TaxProduct, TaxShape;
    if |d| == 11 {
      if i == 10 {
        assert d[..10] == e[..10];
      } else {
        TaxProductDiffers(d[..10], e[..10], i);
      }
    }
  }
}
