/**
 What makes a number valid, written as the standards write it: sums and remainders of the digits themselves.
 */
module CheckDigitLaws {
  import opened Ordering
  import opened Snapshots
  import opened CheckDigits

  /** Weights nine down to two, and the last digit negatively. */
  function ElevenSum(d: seq<int>): int
    requires |d| == 9
  {
    9 * d[0] + 8 * d[1] + 7 * d[2] + 6 * d[3] + 5 * d[4] + 4 * d[5] + 3 * d[6] + 2 * d[7] - d[8]
  }

  lemma BsnFront(d: seq<Digit>)
    requires |d| >= 4
    ensures BsnSum(d[..4]) == 9 * d[0] as int + 8 * d[1] as int + 7 * d[2] as int + 6 * d[3] as int
  {
    hide BsnSum;
    BsnSumEmpty();
    assert d[..0] == [];
    BsnSumSnoc(d, 0);
    BsnSumSnoc(d, 1);
    BsnSumSnoc(d, 2);
    BsnSumSnoc(d, 3);
  }

  lemma BsnSumIs(d: seq<Digit>)
    requires |d| == 9
    ensures BsnSum(d) == ElevenSum(d)
  {
    hide BsnSum;
    BsnFront(d);
    assert d[..9] == d;
    BsnSumSnoc(d, 4);
    BsnSumSnoc(d, 5);
    BsnSumSnoc(d, 6);
    BsnSumSnoc(d, 7);
    BsnSumSnoc(d, 8);
  }

  /** The BSN's eleven test. */
  lemma ElevenTest(d: seq<Digit>)
    ensures BsnOk(d) <==> |d| == 9 && ElevenSum(d) % 11 == 0
  {
    hide BsnSum, ElevenSum;
    if |d| == 9 {
      BsnSumIs(d);
    }
  }

  /** The sum of a number's decimal digits, for numbers below a hundred. */
  function CrossSum(x: nat): nat {
    x / 10 + x % 10
  }

  /** Read in pairs from the right: the left digit of a pair counts as the cross sum of its double, the right as is. */
  function PairSum(d: seq<nat>): nat {
    if |d| < 2 then
      if d == [] then 0 else d[0]
    else
      PairSum(d[..|d| - 2]) + CrossSum(2 * d[|d| - 2]) + d[|d| - 1]
  }

  lemma PairCounts(a: Digit, b: Digit)
    ensures LuhnWeight(a, 1) + LuhnWeight(b, 0) == CrossSum(2 * a as nat) + b
  {}

  lemma {:induction false} LuhnSumPair(d: seq<Digit>, a: Digit, b: Digit)
    ensures LuhnSum(d + [a, b]) == LuhnSum(d) + LuhnWeight(a, 1) + LuhnWeight(b, 0)
  {
    var e := d + [a, b];
    if d == [] {
      assert e == [a, b] && e[1..] == [b] && [b][1..] == [];
    } else {
      assert e[1..] == d[1..] + [a, b] && e[0] == d[0];
      LuhnSumPair(d[1..], a, b);
      assert LuhnWeight(e[0], |e| - 1) == LuhnWeight(d[0], |d| - 1);
    }
  }

  lemma {:induction false} LuhnSumIsPairSum(d: seq<Digit>)
    ensures LuhnSum(d) == PairSum(d)
  {
    if |d| == 1 {
      assert d[1..] == [];
    } else if |d| >= 2 {
      var n := |d| - 2;
      assert d == d[..n] + [d[n], d[n + 1]];
      LuhnSumPair(d[..n], d[n], d[n + 1]);
      LuhnSumIsPairSum(d[..n]);
      PairCounts(d[n], d[n + 1]);
    }
  }

  /** A card number is valid exactly when that sum is a multiple of ten. */
  lemma PairsTellLuhn(d: seq<Digit>)
    ensures LuhnOk(d) <==> 13 <= |d| <= 19 && PairSum(d) % 10 == 0
  {
    LuhnSumIsPairSum(d);
  }

  /** The number a text stands for: a digit appends itself, a letter its place in the alphabet counted from ten. */
  ghost function TextNumber(s: string): int {
    if s == "" then 0
    else
      var c := s[|s| - 1] as int;
      if '0' as int <= c <= '9' as int then TextNumber(s[..|s| - 1]) * 10 + c - '0' as int
      else TextNumber(s[..|s| - 1]) * 100 + c - 'A' as int + 10
  }

  lemma {:induction false} ExpandedIsTextNumber(s: string)
    requires forall c | c in s :: IsAlnum(c)
    ensures Number(Expand(s)) == TextNumber(s)
  {
    if s != "" {
      var front, c := s[..|s| - 1], s[|s| - 1];
      assert s == front + [c];
      ExpandSnoc(front, c);
      ExpandedChar(Expand(front), c);
      ExpandedIsTextNumber(front);
    }
  }

  /** Behind the account the country and its check digits, and the whole leaves one modulo 97. */
  lemma IbanNumberIs(head: string, account: string)
    requires |head| == 4 && forall c | c in head + account :: '0' <= c <= '9' || 'A' <= c <= 'Z'
    ensures (forall c | c in account + head :: c in head + account)
    ensures IbanOk(head + account) <==> 11 <= |account| <= 30 && TextNumber(account + head) % 97 == 1
  {
    var s := head + account;
    forall c | c in account + head ensures c in s {
      assert c in account || c in head;
    }
    assert s[4..] == account && s[..4] == head;
    forall c | c in s ensures IsAlnum(c) && !IsSpace(c) {}
    NoSpaces(s);
    assert Rearranged(s) == account + head;
    ExpandedIsTextNumber(account + head);
  }

  /** The products of ISO/IEC 7064 MOD 11,10, one before each digit and one behind the last. */
  ghost predicate Products(p: seq<nat>, d: seq<Digit>) {
    && |p| == |d| + 1 && p[0] == 10
    && forall i {:trigger d[i]} | 0 <= i < |d| :: ProductFollows(p[i], d[i], p[i + 1])
  }

  /** A sum above ten counts ten less, and its double eleven less once it reaches eleven. */
  ghost predicate ProductFollows(before: nat, x: nat, after: nat) {
    var sum := if before + x > 10 then before + x - 10 else before + x;
    after == if sum > 5 then 2 * sum - 11 else 2 * sum
  }

  lemma StepFollows(before: nat, x: Digit, after: nat)
    requires 1 <= before <= 10
    ensures ProductFollows(before, x, after) <==> after == TaxStep(before, x)
  {}

  /** The products exist, they are unique, and the last of them is what the loop computes. */
  lemma {:induction false} ProductsExist(d: seq<Digit>) returns (p: seq<nat>)
    ensures Products(p, d) && p[|d|] == TaxProduct(10, d)
  {
    hide TaxStep, ProductFollows;
    if d == [] {
      p := [10];
    } else {
      var n := |d| - 1;
      var front := ProductsExist(d[..n]);
      p := front + [TaxProduct(10, d)];
      forall i | 0 <= i < |d| ensures ProductFollows(p[i], d[i], p[i + 1]) {
        if i < n {
          assert d[..n][i] == d[i];
        } else {
          StepFollows(p[n], d[n], p[n + 1]);
        }
      }
    }
  }

  lemma {:induction false} ProductsAreUnique(p: seq<nat>, d: seq<Digit>)
    requires Products(p, d)
    ensures p[|d|] == TaxProduct(10, d)
  {
    hide TaxStep, ProductFollows;
    if d != [] {
      var n := |d| - 1;
      forall i {:trigger d[..n][i]} | 0 <= i < n ensures ProductFollows(p[..n + 1][i], d[..n][i], p[..n + 1][i + 1]) {
        assert d[..n][i] == d[i];
      }
      ProductsAreUnique(p[..n + 1], d[..n]);
      StepFollows(p[n], d[n], p[n + 1]);
    }
  }

  lemma ShapeTells(d: seq<Digit>)
    ensures TaxShape(d) <==> (exists x: Digit :: x !in d) && forall x: Digit :: multiset(d)[x] <= 3
  {
    forall x: Digit ensures Count(d, x) == multiset(d)[x] && (Count(d, x) == 0 <==> x !in d) {}
    if x: Digit :| x !in d {
      assert Count(d, x) == 0;
    }
  }

  lemma LastProductTells(d: seq<Digit>, x: Digit)
    requires |d| == 10
    ensures (11 - TaxProduct(10, d)) % 10 == x <==> exists p: seq<nat> :: Products(p, d) && (p[10] + x as nat) % 10 == 1
  {
    hide TaxProduct, ProductFollows;
    CheckDigitTells(TaxProduct(10, d), x);
    var q := ProductsExist(d);
    forall p: seq<nat> | Products(p, d) ensures p[10] == TaxProduct(10, d) {
      ProductsAreUnique(p, d);
    }
  }

  /** The last product and the check digit leave one modulo ten. */
  lemma TaxIdExactly(d: seq<Digit>)
    ensures TaxIdOk(d) <==>
              && |d| == 11 && d[0] != 0
              && (exists x: Digit :: x !in d[..10])
              && (forall x: Digit :: multiset(d[..10])[x] <= 3)
              && exists p: seq<nat> :: Products(p, d[..10]) && (p[10] + d[10] as nat) % 10 == 1
  {
    hide TaxProduct, TaxShape, Products;
    if |d| == 11 {
      ShapeTells(d[..10]);
      LastProductTells(d[..10], d[10]);
    }
  }

  lemma CheckDigitTells(product: nat, x: Digit)
    requires 1 <= product <= 10
    ensures (11 - product) % 10 == x <==> (product + x) % 10 == 1
  {}
}
