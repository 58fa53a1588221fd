/**
 What the snapshot's arithmetic computes, told from prices, tokens and weights.
 */
module SnapshotNumbers {
  import opened Snapshots

  // ---- cost ----

  /** Rounding up to the next million. */
  lemma CeilingOf(n: nat, d: nat)
    requires d > 0
    ensures d * (DivCeil(n, d) - 1) < n <= d * DivCeil(n, d)
  {
    var q := DivCeil(n, d);
    assert n + d - 1 == q * d + (n + d - 1) % d;
    assert d * (q - 1) == q * d - d;
  }

  /**
   The cost of a request is the price of all its tokens together, rounded up to micro-EUR: prices are per million
   tokens, the sum is taken modulo 2^128 and the result stops at 2^64 - 1.
   */
  predicate Charges(t: Tier, input: u64, output: u64, cost: u64) {
    var price := (input * t.inputPrice + output * t.outputPrice) % 340282366920938463463374607431768211456;
    1_000_000 * (cost - 1) < price && (price <= 1_000_000 * cost || cost == 18_446_744_073_709_551_615)
  }

  lemma CostIsCeiling(t: Tier, input: u64, output: u64)
    ensures Charges(t, input, output, EstimateCost(t, input, output))
  {
    CeilingOf(TokenCost(t, input, output) % U128, 1_000_000);
  }

  lemma ChargeIsUnique(t: Tier, input: u64, output: u64, cost: u64)
    ensures Charges(t, input, output, cost) <==> cost == EstimateCost(t, input, output)
  {
    hide EstimateCost;
    CostIsCeiling(t, input, output);
  }

  /** A million input tokens cost the input price, and a million output tokens the output price. */
  lemma MillionTokensCostThePrice(t: Tier)
    ensures EstimateCost(t, 1_000_000, 0) == t.inputPrice
    ensures EstimateCost(t, 0, 1_000_000) == t.outputPrice
  {
    CostIsCeiling(t, 1_000_000, 0);
    CostIsCeiling(t, 0, 1_000_000);
  }

  /** A cap is exceeded exactly when the tokens are worth more than a million caps. */
  lemma CapExceededExactly(t: Tier, input: u64, output: u64, cap: u64)
    ensures EstimateCost(t, input, output) > cap <==>
      cap < 18_446_744_073_709_551_615
        && (input * t.inputPrice + output * t.outputPrice) % 340282366920938463463374607431768211456 > 1_000_000 * cap
  {
    hide EstimateCost;
    CostIsCeiling(t, input, output);
  }

  // ---- rounding ----

  /** `n` is the integer nearest to `v`, away from zero between two. */
  predicate Nearest(n: int, v: real) {
    && -0.5 <= n as real - v <= 0.5
    && (n as real - v == 0.5 ==> v > 0.0)
    && (n as real - v == -0.5 ==> v < 0.0)
  }

  /** `r` is `v` to six decimals. */
  predicate ToSixDecimals(r: real, v: real) {
    var n := (r * 1000000.0).Floor;
    n as real == r * 1000000.0 && Nearest(n, v * 1000000.0)
  }

  lemma RoundIsNearest(v: real)
    ensures Nearest(Round(v), v)
  {}

  lemma NearestIsUnique(m: int, n: int, v: real)
    ensures Nearest(m, v) && Nearest(n, v) ==> m == n
  {}

  lemma Round6IsNearest(v: real)
    ensures ToSixDecimals(Round6(v), v)
  {
    RoundIsNearest(v * 1000000.0);
    var n := Round(v * 1000000.0);
    assert Round6(v) * 1000000.0 == n as real;
  }

  lemma SixDecimalsAreUnique(r: real, r': real, v: real)
    ensures ToSixDecimals(r, v) && ToSixDecimals(r', v) ==> r == r'
  {
    NearestIsUnique((r * 1000000.0).Floor, (r' * 1000000.0).Floor, v * 1000000.0);
  }

  lemma EurosAreMillions(m: int)
    ensures MicroToEur(m) * 1000000.0 == m as real
  {}

  // ---- weights ----

  /** The three weights stand in the declared proportions and add up to one. */
  predicate InProportion(w: Weights, cost: real, quality: real, latency: real) {
    var sum := cost + quality + latency;
    w.cost * sum == cost && w.quality * sum == quality && w.latency * sum == latency
  }

  /** What a mode stands for when no weights are declared, or only zeros. */
  predicate DefaultsOf(w: Weights, mode: ObjectiveMode) {
    match mode
    case CostFirstWithQualityFloor => w.cost == 0.6 && w.quality == 0.3 && w.latency == 0.1
    case QualityFirst => w.cost == 0.1 && w.quality == 0.8 && w.latency == 0.1
    case Balanced => w.cost == w.quality == w.latency && w.cost * 3.0 == 1.0
    case LatencyFirst => w.cost == 0.1 && w.quality == 0.2 && w.latency == 0.7
  }

  lemma DividedBack(x: real, y: real)
    requires y != 0.0
    ensures x / y * y == x
  {}

  lemma NormalisedExactly(w: Weights, mode: ObjectiveMode)
    ensures var n := Normalised(w, mode);
      if w.cost + w.quality + w.latency > 0.0 then InProportion(n, w.cost, w.quality, w.latency)
      else DefaultsOf(n, mode)
  {
    var sum := w.cost + w.quality + w.latency;
    if sum > 0.0 {
      DividedBack(w.cost, sum);
      DividedBack(w.quality, sum);
      DividedBack(w.latency, sum);
    }
  }

  lemma ModeDefaults(mode: ObjectiveMode)
    ensures DefaultsOf(ModeWeights(mode), mode)
  {}

}
