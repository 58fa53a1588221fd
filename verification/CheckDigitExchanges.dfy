/**
 Which exchanges of neighbours the IBAN and tax-ID checks of the PII detector catch.
 */
module CheckDigitExchanges {
  import opened Ordering
  import opened Snapshots
  import opened CheckDigits

  // ---- IBAN ----

  /** A digit beside the letter that counts eleven times as much: 1 and B, 2 and M, 3 and X. */
  predicate BlindPair(c: char, d: char) {
    && IsAlnum(c) && IsAlnum(d)
    && ((AlnumValue(c) < 10 <= AlnumValue(d) && AlnumValue(d) == 11 * AlnumValue(c))
        || (AlnumValue(d) < 10 <= AlnumValue(c) && AlnumValue(c) == 11 * AlnumValue(d)))
  }

  function Swapped<T>(s: seq<T>, i: nat, j: nat): seq<T>
    requires i < |s| && j < |s|
  {
    s[i := s[j]][j := s[i]]
  }

  /** What two characters contribute behind a remainder, without reducing in between. */
  function PairValue(v: nat, w: nat): nat {
    v * (if w < 10 then 10 else 100) + w
  }

  function PairShift(v: nat, w: nat): nat {
    (if v < 10 then 10 else 100) * (if w < 10 then 10 else 100)
  }

  lemma TwoSteps(rem: nat, c: char, d: char)
    requires IsAlnum(c) && IsAlnum(d)
    ensures Step97(Step97(rem, c), d)
            == (rem * PairShift(AlnumValue(c), AlnumValue(d)) + PairValue(AlnumValue(c), AlnumValue(d))) % 97
  {
    hide IsAlnum, AlnumValue;
    var v, w := AlnumValue(c), AlnumValue(d);
    var n := if v >= 10 then rem * 100 + v else rem * 10 + v;
    ModStep(n, 100, w);
    ModStep(n, 10, w);
    assert (rem * 100 + v) * 100 + w == rem * 10000 + (v * 100 + w);
    assert (rem * 100 + v) * 10 + w == rem * 1000 + (v * 10 + w);
    assert (rem * 10 + v) * 100 + w == rem * 1000 + (v * 100 + w);
    assert (rem * 10 + v) * 10 + w == rem * 100 + (v * 10 + w);
  }

  lemma SameRemainder(x: nat, y: nat)
    ensures x % 97 == y % 97 <==> (x - y) % 97 == 0
  {
    assert x - y == 97 * (x / 97 - y / 97) + (x % 97 - y % 97);
  }

  /** Nine is invertible modulo 97: nine times 54 is five times 97 and one. */
  lemma MultipleOf9(t: int)
    requires -97 < t < 97
    ensures (9 * t) % 97 == 0 <==> t == 0
  {
    var k := 9 * t / 97;
    assert (9 * t) % 97 == 0 ==> t == 97 * (54 * k - 5 * t);
  }

  /** And so is 99. */
  lemma MultipleOf99(t: int)
    requires -97 < t < 97
    ensures (99 * t) % 97 == 0 <==> t == 0
  {
    var k := 99 * t / 97;
    assert (99 * t) % 97 == 0 ==> t == 97 * (49 * k - 50 * t);
  }

  lemma PairDifference(v: nat, w: nat)
    requires v < 36 && w < 36
    ensures PairValue(v, w) - PairValue(w, v)
            == if v < 10 && w < 10 then 9 * (v - w)
               else if v < 10 then 9 * (11 * v - w)
               else if w < 10 then 9 * (v - 11 * w)
               else 99 * (v - w)
  {}

  /** The values of a pair and its exchange agree modulo 97 only if they are equal. */
  lemma PairValuesAgree(v: nat, w: nat, base: nat)
    requires v < 36 && w < 36 && v != w
    ensures (base + PairValue(v, w)) % 97 == (base + PairValue(w, v)) % 97 <==>
      (v < 10 <= w && w == 11 * v) || (w < 10 <= v && v == 11 * w)
  {
    hide PairValue;
    SameRemainder(base + PairValue(v, w), base + PairValue(w, v));
    PairDifference(v, w);
    if v < 10 && w < 10 {
      MultipleOf9(v - w);
    } else if v < 10 {
      MultipleOf9(11 * v - w);
    } else if w < 10 {
      MultipleOf9(v - 11 * w);
    } else {
      MultipleOf99(v - w);
    }
  }

  lemma DifferentValues(c: char, d: char)
    requires IsAlnum(c) && IsAlnum(d)
    ensures AlnumValue(c) == AlnumValue(d) <==> c == d
  {}

  lemma PairExchanged(rem: nat, c: char, d: char)
    requires IsAlnum(c) && IsAlnum(d) && c != d
    ensures Step97(Step97(rem, c), d) == Step97(Step97(rem, d), c) <==> BlindPair(c, d)
  {
    hide IsAlnum, AlnumValue, PairValue, Step97;
    var v, w := AlnumValue(c), AlnumValue(d);
    DifferentValues(c, d);
    TwoSteps(rem, c, d);
    TwoSteps(rem, d, c);
    assert PairShift(v, w) == PairShift(w, v);
    PairValuesAgree(v, w, rem * PairShift(v, w));
  }

  lemma StreamedTwo(rem: nat, c: char, d: char)
    requires IsAlnum(c) && IsAlnum(d)
    ensures Streamed(rem, [c, d]) == Step97(Step97(rem, c), d)
  {
    hide IsAlnum, Step97;
    assert [c, d] == [c] + [d];
    StreamedSnoc(rem, [c], d);
    StreamedOne(rem, c);
  }

  /** Exchanging two neighbours leaves the remainder as it is exactly when they are a blind pair. */
  lemma ExchangeKeepsRemainder(s: string, i: nat)
    requires i + 1 < |s| && (forall c | c in s :: IsAlnum(c)) && s[i] != s[i + 1]
    ensures forall c | c in Swapped(s, i, i + 1) :: IsAlnum(c)
    ensures Streamed(0, Swapped(s, i, i + 1)) == Streamed(0, s) <==> BlindPair(s[i], s[i + 1])
  {
    hide IsAlnum, Streamed, Step97, BlindPair;
    var t, c, d := Swapped(s, i, i + 1), s[i], s[i + 1];
    forall x | x in t ensures IsAlnum(x) {
      assert x == c || x == d || x in s;
    }
    CutAt(s, i, 2);
    CutAt(t, i, 2);
    assert s[i..i + 2] == [c, d] && t[i..i + 2] == [d, c] && t[..i] == s[..i] && t[i + 2..] == s[i + 2..];
    var rem := Streamed(0, s[..i]);
    StreamedTwo(rem, c, d);
    StreamedTwo(rem, d, c);
    PairExchanged(rem, c, d);
    if !BlindPair(c, d) {
      DifferenceStays(Streamed(rem, [c, d]), Streamed(rem, [d, c]), s[i + 2..]);
    }
  }

  /** Where a character of an IBAN is in the number that is checked. */
  function Rank(s: string, i: nat): nat
    requires 4 <= |s| && i < |s|
  {
    if i < 4 then i + |s| - 4 else i - 4
  }

  lemma RearrangedSwap(s: string, i: nat, j: nat)
    requires 4 <= |s| && i < |s| && j < |s|
    ensures Rearranged(Swapped(s, i, j)) == Swapped(Rearranged(s), Rank(s, i), Rank(s, j))
  {}

  lemma CompactExchange(s: string, i: nat)
    requires i + 1 < |s| && i != 3 && (forall c | c in s :: IsAlnum(c)) && s[i] != s[i + 1] && IbanOk(s)
    ensures IbanOk(Swapped(s, i, i + 1)) <==> BlindPair(s[i], s[i + 1])
  {
    hide BlindPair, IbanOk;
    var t := Swapped(s, i, i + 1);
    forall c | c in t ensures IsAlnum(c) {
      assert c == s[i] || c == s[i + 1] || c in s;
    }
    OkIsStreamed(s);
    OkIsStreamed(t);
    RearrangedSwap(s, i, i + 1);
    assert forall c | c in Rearranged(s) :: c in s;
    ExchangeKeepsRemainder(Rearranged(s), Rank(s, i));
  }

  /**
   However both are spaced, exchanging two different neighbours of a valid IBAN gives another valid one exactly when
   they are 1 and B, 2 and M, or 3 and X. The fourth and fifth characters are at opposite ends of the number that is
   checked.
   */
  lemma IbanCatchesExchangesExactly(raw: string, raw': string, i: nat)
    requires IbanOk(raw) && i != 3
    requires var s := Filter(NotSpace, raw);
      i + 1 < |s| && s[i] != s[i + 1] && Filter(NotSpace, raw') == Swapped(s, i, i + 1)
    ensures IbanOk(raw') <==> BlindPair(Filter(NotSpace, raw)[i], Filter(NotSpace, raw)[i + 1])
  {
    hide Filter, Number, Expand, BlindPair;
    OkIsCompact(raw);
    OkIsCompact(raw');
    CompactExchange(Filter(NotSpace, raw), i);
  }

  // ---- exchanges at a distance ----

  predicate Congruent(x: int, y: int) {
    (x - y) % 97 == 0
  }

  lemma MultipleIs(x: int, k: int)
    requires x == 97 * k
    ensures x % 97 == 0
  {}

  lemma CongruentSum(x: int, y: int, x': int, y': int)
    requires Congruent(x, y) && Congruent(x', y')
    ensures Congruent(x + x', y + y') && Congruent(x - x', y - y')
  {
    MultipleIs(x + x' - (y + y'), (x - y) / 97 + (x' - y') / 97);
    MultipleIs(x - x' - (y - y'), (x - y) / 97 - (x' - y') / 97);
  }

  lemma CongruentTrans(x: int, y: int, z: int)
    requires Congruent(x, y) && Congruent(y, z)
    ensures Congruent(x, z)
  {
    MultipleIs(x - z, (x - y) / 97 + (y - z) / 97);
  }

  lemma CongruentTimes(x: int, y: int, k: int)
    requires Congruent(x, y)
    ensures Congruent(x * k, y * k)
  {
    var q := (x - y) / 97;
    assert x * k - y * k == 97 * (q * k) by {
      assert x == y + 97 * q;
      assert (y + 97 * q) * k == y * k + 97 * (q * k);
    }
    MultipleIs(x * k - y * k, q * k);
  }

  function Pow10(n: nat): nat {
    if n == 0 then 1 else Pow10(n - 1) * 10
  }

  lemma {:induction false} Pow10Sum(m: nat, n: nat)
    ensures Pow10(m + n) == Pow10(m) * Pow10(n)
  {
    if n > 0 {
      Pow10Sum(m, n - 1);
      assert Pow10(m) * (Pow10(n - 1) * 10) == Pow10(m) * Pow10(n - 1) * 10;
    }
  }

  lemma SmallPowers()
    ensures Pow10(1) == 10 && Pow10(2) == 100 && Pow10(3) == 1000 && Pow10(4) == 10_000
    ensures Pow10(5) == 100_000 && Pow10(6) == 1_000_000 && Pow10(7) == 10_000_000 && Pow10(8) == 100_000_000
  {}

  /** The remainders of the powers of ten, eight exponents apart. */
  function Landmark(a: nat): nat {
    if a == 0 then 1 else Landmark(a - 1) * 81 % 97
  }

  lemma {:induction false} LandmarkIs(a: nat)
    ensures Pow10(8 * a) % 97 == Landmark(a)
  {
    if a > 0 {
      LandmarkIs(a - 1);
      Pow10Sum(8 * (a - 1), 8);
      SmallPowers();
      var n := Pow10(8 * (a - 1));
      ModStep(n, 81, 0);
      assert n * 100_000_000 == 97 * (n * 1_030_927) + n * 81;
      ModShift(n * 81, n * 1_030_927);
    }
  }

  lemma Landmarks(a: nat)
    requires 1 <= a <= 8
    ensures Landmark(a) in [81, 62, 75, 61, 91, 96, 16, 35]
  {
    assert Landmark(0) == 1 && Landmark(1) == Landmark(0) * 81 % 97 == 81;
    assert Landmark(2) == Landmark(1) * 81 % 97 == 62;
    assert Landmark(3) == Landmark(2) * 81 % 97 == 75;
    assert Landmark(4) == Landmark(3) * 81 % 97 == 61;
    assert Landmark(5) == Landmark(4) * 81 % 97 == 91;
    assert Landmark(6) == Landmark(5) * 81 % 97 == 96;
    assert Landmark(7) == Landmark(6) * 81 % 97 == 16;
    assert Landmark(8) == Landmark(7) * 81 % 97 == 35;
  }

  lemma NotOneBehind(x: nat, b: nat)
    requires x in [81, 62, 75, 61, 91, 96, 16, 35] && b < 8
    ensures (x * Pow10(b)) % 97 != 1
  {
    SmallPowers();
    if b == 0 {} else if b == 1 {} else if b == 2 {} else if b == 3 {}
    else if b == 4 {} else if b == 5 {} else if b == 6 {} else { assert b == 7; }
  }

  lemma NotOneBelow(b: nat)
    requires 1 <= b < 8
    ensures Pow10(b) % 97 != 1
  {
    SmallPowers();
    assert b == 1 || b == 2 || b == 3 || b == 4 || b == 5 || b == 6 || b == 7;
  }

  /** No power of ten up to the length of an expanded IBAN leaves the remainder one. */
  lemma PowersAreNotOne(n: nat)
    requires 1 <= n < 72
    ensures Pow10(n) % 97 != 1
  {
    hide Pow10, Landmark;
    var a, b := n / 8, n % 8;
    if a == 0 {
      NotOneBelow(b);
    } else {
      Pow10Sum(8 * a, b);
      LandmarkIs(a);
      Landmarks(a);
      ModStep(Pow10(8 * a), Pow10(b), 0);
      NotOneBehind(Landmark(a), b);
    }
  }

  /** 97 has no divisor among the differences of letters. */
  lemma NoDivisor(t: nat)
    requires 2 <= t <= 25
    ensures 97 % t != 0
  {
    if t <= 5 {
      assert t == 2 || t == 3 || t == 4 || t == 5;
    } else if t <= 10 {
      assert t == 6 || t == 7 || t == 8 || t == 9 || t == 10;
    } else if t <= 15 {
      assert t == 11 || t == 12 || t == 13 || t == 14 || t == 15;
    } else if t <= 20 {
      assert t == 16 || t == 17 || t == 18 || t == 19 || t == 20;
    } else {
      assert t == 21 || t == 22 || t == 23 || t == 24 || t == 25;
    }
  }

  lemma {:induction false} Cancel(t: nat, z: int)
    requires 1 <= t <= 25 && Congruent(t * z, 0)
    ensures Congruent(z, 0)
    decreases t
  {
    if t > 1 {
      NoDivisor(t);
      var q, r := 97 / t, 97 % t;
      assert r * z == 97 * z - q * (t * z) by {
        assert 97 == q * t + r;
        assert (q * t + r) * z == q * (t * z) + r * z;
      }
      var k := t * z / 97;
      assert q * (t * z) == 97 * (q * k) by {
        assert t * z == 97 * k;
      }
      MultipleIs(r * z, z - q * k);
      Cancel(r, z);
    }
  }

  /** The digits a text expands to. */
  function Width(s: string): nat
    requires forall c | c in s :: IsAlnum(c)
  {
    |Expand(s)|
  }

  lemma {:induction false} WidthBound(s: string)
    requires forall c | c in s :: IsAlnum(c)
    ensures Width(s) <= 2 * |s|
  {
    if s != "" {
      var front, c := s[..|s| - 1], s[|s| - 1];
      assert s == front + [c];
      ExpandSnoc(front, c);
      WidthBound(front);
    }
  }

  /** The factor by which a character moves what is before it. */
  function Place(c: char): nat
    requires IsAlnum(c)
  {
    Pow10(|ExpandChar(c)|)
  }

  lemma StepIs(x: nat, c: char)
    requires IsAlnum(c)
    ensures Congruent(Step97(x, c), x * Place(c) + AlnumValue(c))
  {
    SmallPowers();
    var n: int := Followed(x, c);
    assert Step97(x, c) == n % 97 && n == x * Place(c) + AlnumValue(c);
    MultipleIs(n % 97 - n, -(n / 97));
  }

  lemma GrownStep(x': int, y': int, x: int, y: int, v: int, d: int, p: int, k: int)
    requires Congruent(x', x * k + v) && Congruent(y', y * k + v) && Congruent(x - y, d * p)
    ensures Congruent(x' - y', d * (p * k))
  {
    hide Congruent;
    CongruentSum(x', x * k + v, y', y * k + v);
    assert x * k + v - (y * k + v) == (x - y) * k;
    CongruentTimes(x - y, d * p, k);
    assert d * p * k == d * (p * k);
    CongruentTrans(x' - y', (x - y) * k, d * (p * k));
  }

  lemma GrownBehind(x: nat, y: nat, c: char, d: int, p: int)
    requires IsAlnum(c) && Congruent(x - y, d * p)
    ensures Congruent(Step97(x, c) - Step97(y, c), d * (p * Place(c)))
  {
    hide IsAlnum, Congruent, Step97, AlnumValue, Place;
    StepIs(x, c);
    StepIs(y, c);
    GrownStep(Step97(x, c), Step97(y, c), x, y, AlnumValue(c), d, p, Place(c));
  }

  lemma PowerSnoc(front: string, c: char)
    requires forall x | x in front + [c] :: IsAlnum(x)
    ensures (forall x | x in front :: IsAlnum(x)) && IsAlnum(c)
    ensures Pow10(Width(front + [c])) == Pow10(Width(front)) * Place(c)
  {
    hide Expand, ExpandChar, Pow10, IsAlnum;
    ExpandSnoc(front, c);
    Pow10Sum(Width(front), |ExpandChar(c)|);
  }

  /** Two remainders move apart by the power of ten that belongs to the text behind them. */
  lemma {:induction false} DifferenceGrows(a: nat, b: nat, s: string)
    requires forall c | c in s :: IsAlnum(c)
    ensures Congruent(Streamed(a, s) - Streamed(b, s), (a - b) * Pow10(Width(s)))
  {
    if s == "" {
      assert Width(s) == 0;
    } else {
      hide IsAlnum, Streamed, Step97, AlnumValue, Congruent, Pow10, Width, Place;
      var front, c := s[..|s| - 1], s[|s| - 1];
      assert s == front + [c];
      StreamedSnoc(a, front, c);
      StreamedSnoc(b, front, c);
      DifferenceGrows(a, b, front);
      PowerSnoc(front, c);
      GrownBehind(Streamed(a, front), Streamed(b, front), c, a - b, Pow10(Width(front)));
    }
  }

  lemma SameKindPlaces(c: char, d: char)
    requires SameKind(c, d)
    ensures IsAlnum(c) && IsAlnum(d) && Place(c) == Place(d)
  {}

  /** Two values of a kind, exchanged around a power of ten that is not one, change the remainder. */
  lemma ApartUnlessOne(x: int, y: int, v: int, w: int, p: int)
    requires -25 <= v - w <= 25 && v != w && Congruent(x - y, (v - w) * p) && !Congruent(p, 1)
    ensures !Congruent(x + w, y + v)
  {
    if Congruent(x + w, y + v) {
      var t := v - w;
      assert x - y == t * p + 97 * ((x - y - t * p) / 97);
      assert t * (p - 1) == t * p - t;
      MultipleIs(t * (p - 1), (x + w - (y + v)) / 97 - (x - y - t * p) / 97);
      if t > 0 {
        Cancel(t, p - 1);
      } else {
        assert -t * (p - 1) == -(t * (p - 1));
        MultipleIs(-t * (p - 1), -(t * (p - 1) / 97));
        Cancel(-t, p - 1);
      }
    }
  }

  lemma ApartAfterBoth(r: int, k: int, v: int, w: int, a: int, b: int, m: int, n: int, p: int)
    requires Congruent(a, r * k + v) && Congruent(b, r * k + w) && Congruent(m - n, (a - b) * p)
    requires -25 <= v - w <= 25 && v != w && !Congruent(p * k, 1)
    ensures !Congruent(m * k + w, n * k + v)
  {
    hide Congruent;
    CongruentSum(a, r * k + v, b, r * k + w);
    CongruentTimes(a - b, v - w, p);
    CongruentTrans(m - n, (a - b) * p, (v - w) * p);
    CongruentTimes(m - n, (v - w) * p, k);
    assert (m - n) * k == m * k - n * k && (v - w) * p * k == (v - w) * (p * k);
    ApartUnlessOne(m * k, n * k, v, w, p * k);
  }

  lemma CongruentBack(x: int, y: int, z: int)
    requires Congruent(x, y) && Congruent(x, z)
    ensures Congruent(y, z)
  {
    MultipleIs(y - z, (x - z) / 97 - (x - y) / 97);
  }

  lemma MovedOn(s: string, c: char)
    requires (forall x | x in s :: IsAlnum(x)) && IsAlnum(c) && |s| <= 34
    ensures !Congruent(Pow10(Width(s)) * Place(c), 1)
  {
    hide IsAlnum, Congruent, Pow10, Expand;
    Pow10Sum(Width(s), |ExpandChar(c)|);
    WidthBound(s);
    NotCongruentOne(Width(s) + |ExpandChar(c)|);
  }

  /** The remainders behind `c`, a text and `d`, and behind `d`, the text and `c`. */
  lemma AroundDiffers(rem: nat, c: char, between: string, d: char)
    requires (forall x | x in between :: IsAlnum(x)) && SameKind(c, d) && c != d && |between| <= 34
    ensures IsAlnum(c) && IsAlnum(d)
    ensures Step97(Streamed(Step97(rem, c), between), d) != Step97(Streamed(Step97(rem, d), between), c)
  {
    hide IsAlnum, SameKind, Streamed, Step97, AlnumValue, Congruent, Pow10, Expand, Place, Width;
    SameKindPlaces(c, d);
    SameKindValues(c, d);
    var a, b := Step97(rem, c), Step97(rem, d);
    var m, n := Streamed(a, between), Streamed(b, between);
    StepIs(rem, c);
    StepIs(rem, d);
    DifferenceGrows(a, b, between);
    MovedOn(between, c);
    ApartAfterBoth(rem, Place(c), AlnumValue(c), AlnumValue(d), a, b, m, n, Pow10(Width(between)));
    StepIs(m, d);
    StepIs(n, c);
    if Step97(m, d) == Step97(n, c) {
      CongruentBack(Step97(m, d), m * Place(c) + AlnumValue(d), n * Place(c) + AlnumValue(c));
    }
  }

  lemma NotCongruentOne(n: nat)
    requires 1 <= n < 72
    ensures !Congruent(Pow10(n), 1)
  {
    hide Pow10;
    PowersAreNotOne(n);
    SameRemainder(Pow10(n), 1);
  }

  lemma CutTwice(s: string, i: nat, j: nat)
    requires i < j < |s| && forall c | c in s :: IsAlnum(c)
    ensures forall c | c in s[..i] + s[i + 1..j] + s[j + 1..] :: c in s
    ensures Streamed(0, s) ==
            Streamed(Step97(Streamed(Step97(Streamed(0, s[..i]), s[i]), s[i + 1..j]), s[j]), s[j + 1..])
  {
    hide IsAlnum, Streamed, Step97;
    var front := s[..j];
    assert front[..i] == s[..i] && front[i..i + 1] == [s[i]] && front[i + 1..] == s[i + 1..j];
    assert s[j..j + 1] == [s[j]];
    CutAt(s, j, 1);
    CutAt(front, i, 1);
    StreamedOne(Streamed(0, s[..i]), s[i]);
    StreamedOne(Streamed(0, front), s[j]);
  }

  /** Exchanging two different digits, or two different letters, changes the remainder, however far apart they are. */
  lemma ExchangeChangesRemainder(s: string, i: nat, j: nat)
    requires i < j < |s| <= 34 && (forall c | c in s :: IsAlnum(c)) && SameKind(s[i], s[j]) && s[i] != s[j]
    ensures forall c | c in Swapped(s, i, j) :: IsAlnum(c)
    ensures Streamed(0, Swapped(s, i, j)) != Streamed(0, s)
  {
    hide IsAlnum, Streamed, Step97, SameKind;
    var t, c, d := Swapped(s, i, j), s[i], s[j];
    forall x | x in t ensures IsAlnum(x) {
      assert x in s;
    }
    CutTwice(s, i, j);
    CutTwice(t, i, j);
    assert t[..i] == s[..i] && t[i + 1..j] == s[i + 1..j] && t[j + 1..] == s[j + 1..];
    var rem, between := Streamed(0, s[..i]), s[i + 1..j];
    AroundDiffers(rem, c, between, d);
    DifferenceStays(
      Step97(Streamed(Step97(rem, c), between), d), Step97(Streamed(Step97(rem, d), between), c), s[j + 1..]);
  }

  lemma SwapsBack<T>(s: seq<T>, i: nat, j: nat)
    requires i < |s| && j < |s|
    ensures Swapped(s, i, j) == Swapped(s, j, i)
  {}

  lemma CompactDistantExchange(s: string, i: nat, j: nat)
    requires i < j < |s| && (forall c | c in s :: IsAlnum(c)) && SameKind(s[i], s[j]) && s[i] != s[j] && IbanOk(s)
    ensures !IbanOk(Swapped(s, i, j))
  {
    hide IbanOk, SameKind, IsAlnum;
    var t := Swapped(s, i, j);
    forall c | c in t ensures IsAlnum(c) {
      assert c in s;
    }
    OkIsStreamed(s);
    OkIsStreamed(t);
    RearrangedSwap(s, i, j);
    var r, m, n := Rearranged(s), Rank(s, i), Rank(s, j);
    assert forall c | c in r :: c in s;
    if m < n {
      ExchangeChangesRemainder(r, m, n);
    } else {
      SwapsBack(r, m, n);
      SameKindFlips(s[i], s[j]);
      ExchangeChangesRemainder(r, n, m);
    }
  }

  lemma SameKindFlips(c: char, d: char)
    ensures SameKind(c, d) <==> SameKind(d, c)
  {}

  /**
   However both are spaced and wherever the two are, exchanging two different digits or two different letters of a
   valid IBAN gives an invalid one: ten has order 96 modulo 97, and an IBAN expands to at most 68 digits.
   */
  lemma IbanCatchesExchangesOfAKind(raw: string, raw': string, i: nat, j: nat)
    requires IbanOk(raw)
    requires var s := Filter(NotSpace, raw);
      i < j < |s| && SameKind(s[i], s[j]) && s[i] != s[j] && Filter(NotSpace, raw') == Swapped(s, i, j)
    ensures !IbanOk(raw')
  {
    hide Filter, Number, Expand, SameKind;
    OkIsCompact(raw);
    OkIsCompact(raw');
    CompactDistantExchange(Filter(NotSpace, raw), i, j);
  }

  // ---- the German tax ID ----

  /** The sums of two digits with the product before them end in 5 and 6. */
  predicate BlindSums(product: nat, x: Digit, y: Digit) {
    || ((x + product) % 10 == 5 && (y + product) % 10 == 6)
    || ((x + product) % 10 == 6 && (y + product) % 10 == 5)
  }

  lemma SameLastDigit(a: int, b: int)
    ensures a % 10 == b % 10 <==> (a - b) % 10 == 0
  {
    assert a - b == 10 * (a / 10 - b / 10) + (a % 10 - b % 10);
  }

  /** How far doubling moves the last digit of a sum. */
  lemma DoubledMoves(s: Digit)
    ensures (Doubled(s) + 10 - s) % 10 == if s == 0 then 9 else if s <= 5 then s else s - 1
  {}

  lemma DoubledSums(s: Digit, t: Digit)
    requires s != t
    ensures (Doubled(s) + t) % 10 == (Doubled(t) + s) % 10 <==> (s == 5 && t == 6) || (s == 6 && t == 5)
  {
    hide Doubled;
    DoubledMoves(s);
    DoubledMoves(t);
    SameLastDigit(Doubled(s) + t, Doubled(t) + s);
    SameLastDigit(Doubled(s) + 10 - s, Doubled(t) + 10 - t);
    assert Doubled(s) + t - (Doubled(t) + s) == Doubled(s) + 10 - s - (Doubled(t) + 10 - t);
  }

  lemma AddedLastDigit(a: nat, n: nat)
    ensures (a + n % 10) % 10 == (a + n) % 10
  {
    assert a + n - (a + n % 10) == 10 * (n / 10);
  }

  lemma SumsShifted(a: nat, b: nat, x: nat, y: nat, p: nat)
    ensures (y + a) % 10 == (x + b) % 10 <==> (a + (y + p) % 10) % 10 == (b + (x + p) % 10) % 10
  {
    AddedLastDigit(a, y + p);
    AddedLastDigit(b, x + p);
    SameLastDigit(y + a, x + b);
    SameLastDigit(a + (y + p), b + (x + p));
  }

  lemma TaxPairExchanged(p: nat, x: Digit, y: Digit)
    requires 1 <= p <= 10 && x != y
    ensures TaxStep(TaxStep(p, x), y) == TaxStep(TaxStep(p, y), x) <==> BlindSums(p, x, y)
  {
    hide Doubled;
    var s: Digit, t: Digit := (x + p) % 10, (y + p) % 10;
    SumsDiffer(x, y, p);
    DoubledSums(s, t);
    SumsShifted(Doubled(s), Doubled(t), x, y, p);
    DoubledInjective((y + Doubled(s)) % 10, (x + Doubled(t)) % 10);
  }

  lemma TaxTwo(p: nat, x: Digit, y: Digit)
    requires 1 <= p <= 10
    ensures TaxProduct(p, [x, y]) == TaxStep(TaxStep(p, x), y)
  {
    hide TaxStep;
    assert [x, y][..1] == [x] && [x][..0] == [];
    assert TaxProduct(p, [x]) == TaxStep(p, x);
  }

  lemma TaxCutAt(d: seq<Digit>, i: nat)
    requires i + 1 < |d|
    ensures TaxProduct(10, d) == TaxProduct(TaxProduct(TaxProduct(10, d[..i]), [d[i], d[i + 1]]), d[i + 2..])
  {
    hide TaxProduct;
    assert d == d[..i] + [d[i], d[i + 1]] + d[i + 2..];
    TaxConcat(10, d[..i] + [d[i], d[i + 1]], d[i + 2..]);
    TaxConcat(10, d[..i], [d[i], d[i + 1]]);
  }

  lemma TaxProductExchanged(d: seq<Digit>, e: seq<Digit>, i: nat)
    requires Exchanged(d, e, i, i + 1)
    ensures TaxProduct(10, d) == TaxProduct(10, e) <==> BlindSums(TaxProduct(10, d[..i]), d[i], d[i + 1])
  {
    hide TaxProduct, TaxStep, BlindSums;
    TaxCutAt(d, i);
    TaxCutAt(e, i);
    assert e[..i] == d[..i] && e[i + 2..] == d[i + 2..];
    var p := TaxProduct(10, d[..i]);
    TaxTwo(p, d[i], d[i + 1]);
    TaxTwo(p, e[i], e[i + 1]);
    TaxPairExchanged(p, d[i], d[i + 1]);
    if !BlindSums(p, d[i], d[i + 1]) {
      TaxDifferenceStays(TaxProduct(p, [d[i], d[i + 1]]), TaxProduct(p, [e[i], e[i + 1]]), d[i + 2..]);
    }
  }

  lemma CheckDigitInjective(p: nat, q: nat)
    requires 1 <= p <= 10 && 1 <= q <= 10
    ensures (11 - p) % 10 == (11 - q) % 10 <==> p == q
  {}

  lemma ExchangedPermutes(d: seq<Digit>, e: seq<Digit>, i: nat)
    requires Exchanged(d, e, i, i + 1)
    ensures multiset(d) == multiset(e)
  {
    assert d == d[..i] + [d[i], d[i + 1]] + d[i + 2..];
    assert e == d[..i] + [d[i + 1], d[i]] + d[i + 2..];
  }

  lemma SameShape(d: seq<Digit>, e: seq<Digit>)
    requires multiset(d) == multiset(e)
    ensures TaxShape(d) <==> TaxShape(e)
  {
    assert forall x: Digit :: Count(d, x) == Count(e, x);
  }

  /**
   Exchanging two different neighbours among the first ten digits of a valid tax ID gives another valid one exactly
   when their sums with the product before them end in 5 and 6, and the first digit does not become zero.
   */
  lemma TaxIdCatchesExchangesExactly(d: seq<Digit>, e: seq<Digit>, i: nat)
    requires TaxIdOk(d) && Exchanged(d, e, i, i + 1) && i < 9
    ensures TaxIdOk(e) <==> e[0] != 0 && BlindSums(TaxProduct(10, d[..i]), d[i], d[i + 1])
  {
    hide TaxProduct, BlindSums, TaxShape;
    assert Exchanged(d[..10], e[..10], i, i + 1);
    assert d[..10][..i] == d[..i];
    ExchangedPermutes(d[..10], e[..10], i);
    SameShape(d[..10], e[..10]);
    TaxProductExchanged(d[..10], e[..10], i);
    CheckDigitInjective(TaxProduct(10, d[..10]), TaxProduct(10, e[..10]));
  }

  /** The check digit that belongs to a sum. */
  function CheckOf(s: Digit): Digit {
    (11 - Doubled(s)) % 10
  }

  lemma CheckMoves(s: Digit)
    ensures (CheckOf(s) + s) % 10 == if s == 0 then 2 else if s == 1 then 0 else if s <= 5 then 11 - s else 12 - s
    ensures CheckOf(5) == 1 && CheckOf(6) == 0
  {}

  lemma ChecksAgree(p: nat, s: Digit, t: Digit)
    requires s != t
    ensures (CheckOf(s) + p) % 10 == t && (CheckOf(t) + p) % 10 == s
            ==> (s == 5 && t == 6) || (s == 6 && t == 5)
  {
    hide CheckOf;
    CheckMoves(s);
    CheckMoves(t);
    var c, e := CheckOf(s) as int, CheckOf(t) as int;
    if (c + p) % 10 == t && (e + p) % 10 == s {
      assert c + s - (e + t) == 10 * ((c + p) / 10 - (e + p) / 10);
      SameLastDigit(c + s, e + t);
    }
  }

  lemma LastDigitShifted(x: Digit, y: Digit, p: nat)
    ensures (x + p) % 10 == (y + p) % 10 <==> x == y
  {}

  lemma CheckDigitExchanged(p: nat, x: Digit, y: Digit)
    requires 1 <= p <= 10 && x != y && (11 - TaxStep(p, x)) % 10 == y
    ensures (11 - TaxStep(p, y)) % 10 == x <==> p == 5 && x < 2 && y < 2
  {
    var s: Digit, t: Digit := (x + p) % 10, (y + p) % 10;
    assert CheckOf(s) == y && CheckOf(t) == (11 - TaxStep(p, y)) % 10;
    hide CheckOf, TaxStep, Doubled;
    LastDigitShifted(x, y, p);
    LastDigitShifted(CheckOf(t), x, p);
    ChecksAgree(p, s, t);
    CheckMoves(s);
  }

  /**
   Exchanging the check digit with the digit before it gives another valid tax ID exactly when they are 0 and 1 behind
   the product 5, and the first ten digits keep their shape.
   */
  lemma TaxIdCatchesCheckDigitExchangesExactly(d: seq<Digit>, e: seq<Digit>)
    requires TaxIdOk(d) && Exchanged(d, e, 9, 10)
    ensures TaxIdOk(e) <==> TaxShape(e[..10]) && TaxProduct(10, d[..9]) == 5 && d[9] < 2 && d[10] < 2
  {
    hide TaxStep, TaxShape;
    assert d[..10][..9] == d[..9] && e[..10][..9] == d[..9];
    CheckDigitExchanged(TaxProduct(10, d[..9]), d[9], d[10]);
  }
}
