/**
 The compiled snapshot, its cost and weight arithmetic, and the hot-swappable
 holder (crates/snapshot). Real-valued fields are exact reals.
 */
module Snapshots {

  datatype Option<+T> = None | Some(value: T)

  /** A floating-point number as it is read from a resource or from a model. */
  datatype Float = Finite(value: real) | NotFinite

  const U64_MAX: int := 0xFFFF_FFFF_FFFF_FFFF

  type u64 = x: int | 0 <= x <= U64_MAX

  datatype Capability = Chat | Tools | Json | Vision | Audio | Embeddings | Reasoning
  datatype Jurisdiction = Eu | Us | Other
  datatype OperatorControl = EuEntity | UsEntity | OnPrem
  datatype Complexity = Low | Medium | High
  datatype ReasoningLevel = NoReasoning | LowEffort | MediumEffort | HighEffort
  datatype PiiEntity = Person | Email | Phone | Iban | NationalId | Health | CreditCard | Address
  datatype ObjectiveMode = CostFirstWithQualityFloor | QualityFirst | Balanced | LatencyFirst
  datatype ArtifactType = Onnx | Http | Heuristic | Stub

  /** A compiled model tier. Prices are micro-EUR per million tokens. */
  datatype Tier = Tier(
    name: string,
    gatewayModel: string,
    capabilities: set<Capability>,
    contextWindow: u64,
    inputPrice: u64,
    outputPrice: u64,
    qualityBaseline: real,
    qualityByTask: map<string, real>,
    latencyP50: u64,
    jurisdiction: Jurisdiction,
    operatorControl: OperatorControl,
    cloudActExposed: bool,
    allowedDataClasses: set<string>,
    maxRiskScore: real,
    toolCallingAllowed: bool,
    labels: map<string, string>)

  datatype DataClass = DataClass(
    name: string,
    rank: nat,
    headerValues: set<string>,
    piiEntities: set<PiiEntity>,
    minConfidence: real,
    requireJurisdiction: set<Jurisdiction>,
    forbidCloudActExposed: bool,
    requireOperatorControl: set<OperatorControl>,
    forbidCapabilities: set<Capability>)

  datatype Weights = Weights(cost: real, quality: real, latency: real)

  datatype Match = Match(tenants: seq<string>, agents: seq<string>, paths: seq<string>, modelAliases: seq<string>)

  datatype LearnedRouter = LearnedRouter(enabled: bool, profile: Option<string>, minConfidence: real)

  datatype Policy = Policy(
    key: string,
    ns: string,
    name: string,
    priority: int,
    scope: Match,
    candidates: seq<string>,
    respectDataClass: bool,
    maxCost: Option<u64>,
    requireCapabilities: set<Capability>,
    denyIfRiskAbove: Option<real>,
    mode: ObjectiveMode,
    qualityFloor: Option<real>,
    weights: Weights,
    learnedRouter: LearnedRouter,
    reasoningEnabled: bool,
    reasoningMap: map<Complexity, ReasoningLevel>,
    fallbackTier: Option<string>,
    explain: bool,
    overridable: bool)

  datatype Profile = Profile(
    name: string,
    classifierType: ArtifactType,
    classifierUri: Option<string>,
    tokenizerUri: Option<string>,
    timeoutMs: u64,
    defaultOutputTokens: u64)

  /** Everything the snapshot hash covers. */
  datatype Core = Core(
    tiers: map<string, Tier>,
    dataClasses: map<string, DataClass>,
    policies: seq<Policy>,
    profiles: map<string, Profile>)

  datatype Snapshot = Snapshot(hash: string, core: Core)

  // ---- cost ----

  /** One past the largest u128; a release build wraps a sum that reaches it. */
  const U128: int := 0x1_0000_0000_0000_0000_0000_0000_0000_0000

  function DivCeil(n: nat, d: nat): (q: nat)
    requires d > 0
  {
    (n + d - 1) / d
  }

  function Saturate(n: nat): u64 {
    if n <= U64_MAX then n else U64_MAX
  }

  function SaturatingAdd(a: u64, b: u64): u64 {
    Saturate(a + b)
  }

  /** The price of the tokens before it is brought to micro-EUR. */
  function TokenCost(t: Tier, input: u64, output: u64): nat {
    input * t.inputPrice + output * t.outputPrice
  }

  /** Estimated cost in micro-EUR. */
  function EstimateCost(t: Tier, input: u64, output: u64): u64 {
    Saturate(DivCeil(TokenCost(t, input, output) % U128, 1_000_000))
  }

  /** The sum in `EstimateCost` cannot wrap, whatever the request. */
  predicate SafePrices(t: Tier) {
    t.inputPrice + t.outputPrice <= U64_MAX + 2
  }

  lemma MulMonotone(a: nat, b: nat, c: nat, d: nat)
    requires a <= b && c <= d
    ensures a * c <= b * d
  {
    assert a * c <= b * c;
    assert b * c <= b * d;
  }

  lemma TokenCostMonotone(t: Tier, i: u64, o: u64, i': u64, o': u64)
    requires i <= i' && o <= o'
    ensures TokenCost(t, i, o) <= TokenCost(t, i', o')
  {
    MulMonotone(i, i', t.inputPrice, t.inputPrice);
    MulMonotone(o, o', t.outputPrice, t.outputPrice);
  }

  lemma SafePricesDoNotWrap(t: Tier, i: u64, o: u64)
    requires SafePrices(t)
    ensures TokenCost(t, i, o) < U128
  {
    TokenCostMonotone(t, i, o, U64_MAX, U64_MAX);
    assert TokenCost(t, U64_MAX, U64_MAX) == U64_MAX * (t.inputPrice + t.outputPrice);
    MulMonotone(U64_MAX, U64_MAX, t.inputPrice + t.outputPrice, U64_MAX + 2);
  }

  lemma MicroEurMonotone(m: nat, n: nat)
    ensures m <= n ==> Saturate(DivCeil(m, 1_000_000)) <= Saturate(DivCeil(n, 1_000_000))
  {}

  /** As long as the larger sum does not wrap, more tokens never cost less. */
  lemma UnwrappedCostMonotone(t: Tier, i: u64, o: u64, i': u64, o': u64)
    requires TokenCost(t, i', o') < U128 && i <= i' && o <= o'
    ensures EstimateCost(t, i, o) <= EstimateCost(t, i', o')
  {
    hide TokenCost, DivCeil, Saturate;
    TokenCostMonotone(t, i, o, i', o');
    MicroEurMonotone(TokenCost(t, i, o), TokenCost(t, i', o'));
  }

  /** More tokens never cost less, when the prices are safe. */
  lemma CostMonotone(t: Tier, i: u64, o: u64, i': u64, o': u64)
    requires SafePrices(t) && i <= i' && o <= o'
    ensures EstimateCost(t, i, o) <= EstimateCost(t, i', o')
  {
    hide TokenCost, EstimateCost, SafePrices;
    SafePricesDoNotWrap(t, i', o');
    UnwrappedCostMonotone(t, i, o, i', o');
  }

  /** Whatever the prices, the sum cannot wrap for tokens that fit a 64-bit window together. */
  lemma TokensInWindowDoNotWrap(t: Tier, i: u64, o: u64)
    requires i + o <= U64_MAX
    ensures TokenCost(t, i, o) < U128
  {
    MulMonotone(i, i, t.inputPrice, U64_MAX);
    MulMonotone(o, o, t.outputPrice, U64_MAX);
    MulMonotone(i + o, U64_MAX, U64_MAX, U64_MAX);
    assert i * U64_MAX + o * U64_MAX == (i + o) * U64_MAX;
  }

  ghost predicate CostIsMonotone(t: Tier) {
    forall i: u64, o: u64, i': u64, o': u64 :: i <= i' && o <= o' ==> EstimateCost(t, i, o) <= EstimateCost(t, i', o')
  }

  lemma DivMulBounds(n: nat, d: nat)
    requires d > 0
    ensures n <= DivCeil(n, d) * d < n + d
  {
    var q := (n + d - 1) / d;
    assert n + d - 1 == q * d + (n + d - 1) % d;
  }

  /**
   Past the safe bound some request makes the sum wrap to almost nothing while
   the same request with one output token less is charged the maximum.
   */
  lemma UnsafePricesDropTheCost(t: Tier) returns (o: u64)
    requires !SafePrices(t)
    ensures o > 0
    ensures EstimateCost(t, U64_MAX, o - 1) == U64_MAX
    ensures EstimateCost(t, U64_MAX, o) < U64_MAX
  {
    var p: nat, q: nat := t.inputPrice, t.outputPrice;
    assert q > 0;
    MulMonotone(U64_MAX, U64_MAX, p, U64_MAX);
    var gap: nat := U128 - U64_MAX * p;
    var k := DivCeil(gap, q);
    DivMulBounds(gap, q);
    MulMonotone(U64_MAX, U64_MAX, U64_MAX + 3, p + q);
    assert gap <= U64_MAX * q;
    CeilWithin(gap, q, U64_MAX);
    o := k;
    assert TokenCost(t, U64_MAX, o) == U64_MAX * p + k * q;
    assert U128 <= TokenCost(t, U64_MAX, o) < U128 + q;
    assert TokenCost(t, U64_MAX, o) % U128 == TokenCost(t, U64_MAX, o) - U128;
    assert TokenCost(t, U64_MAX, o - 1) == TokenCost(t, U64_MAX, o) - q;
  }

  lemma CeilWithin(n: nat, d: nat, m: nat)
    requires d > 0 && 0 < n <= m * d
    ensures 0 < DivCeil(n, d) <= m
  {
    DivMulBounds(n, d);
    if DivCeil(n, d) > m {
      MulMonotone(m + 1, DivCeil(n, d), d, d);
    }
  }

  /** Exactly the tiers with safe prices have a cost that is monotone in the tokens. */
  lemma CostIsMonotoneExactly(t: Tier)
    ensures CostIsMonotone(t) <==> SafePrices(t)
  {
    if SafePrices(t) {
      forall i: u64, o: u64, i': u64, o': u64 | i <= i' && o <= o'
        ensures EstimateCost(t, i, o) <= EstimateCost(t, i', o')
      {
        CostMonotone(t, i, o, i', o');
      }
    } else {
      var o := UnsafePricesDropTheCost(t);
      assert EstimateCost(t, U64_MAX, o - 1) > EstimateCost(t, U64_MAX, o);
    }
  }

  function QualityFor(t: Tier, task: Option<string>): real {
    if task.Some? && task.value in t.qualityByTask then t.qualityByTask[task.value] else t.qualityBaseline
  }

  // ---- weights ----

  function ModeWeights(mode: ObjectiveMode): Weights {
    match mode
    case CostFirstWithQualityFloor => Weights(0.6, 0.3, 0.1)
    case QualityFirst => Weights(0.1, 0.8, 0.1)
    case Balanced => Weights(1.0 / 3.0, 1.0 / 3.0, 1.0 / 3.0)
    case LatencyFirst => Weights(0.1, 0.2, 0.7)
  }

  function Normalised(w: Weights, mode: ObjectiveMode): Weights {
    var sum := w.cost + w.quality + w.latency;
    if sum <= 0.0 then ModeWeights(mode) else Weights(w.cost / sum, w.quality / sum, w.latency / sum)
  }

  /** Non-negative weights that sum to one. */
  predicate ConvexWeights(w: Weights) {
    w.cost >= 0.0 && w.quality >= 0.0 && w.latency >= 0.0 && w.cost + w.quality + w.latency == 1.0
  }

  lemma DivNonNegative(x: real, y: real)
    ensures x >= 0.0 && y > 0.0 ==> x / y >= 0.0
  {}

  lemma NormalisedIsConvex(w: Weights, mode: ObjectiveMode)
    requires w.cost >= 0.0 && w.quality >= 0.0 && w.latency >= 0.0
    ensures ConvexWeights(Normalised(w, mode))
  {
    var sum := w.cost + w.quality + w.latency;
    if sum > 0.0 {
      DivNonNegative(w.cost, sum);
      DivNonNegative(w.quality, sum);
      DivNonNegative(w.latency, sum);
      assert w.cost / sum + w.quality / sum + w.latency / sum == sum / sum == 1.0;
    }
  }

  // ---- rounding ----

  /** `f64::round`: halves go away from zero. */
  function Round(v: real): int {
    if v >= 0.0 then (v + 0.5).Floor else -((-v + 0.5).Floor)
  }

  lemma RoundMonotone(u: real, v: real)
    ensures u <= v ==> Round(u) <= Round(v)
  {}

  /** Six decimals. */
  function Round6(v: real): real {
    Round(v * 1000000.0) as real / 1000000.0
  }

  lemma Round6Monotone(u: real, v: real)
    requires u <= v
    ensures Round6(u) <= Round6(v)
  {
    RoundMonotone(u * 1000000.0, v * 1000000.0);
  }

  function MicroToEur(m: int): real {
    m as real / 1000000.0
  }

  // ---- hot swap ----

  /** The router's holder: the generation being served and the one before it. */
  class SnapshotHolder {
    var current: Option<Snapshot>
    var previous: Option<Snapshot>

    constructor ()
      ensures current == None && previous == None
    {
      current, previous := None, None;
    }

    predicate IsReady()
      reads this
    {
      current.Some?
    }

    method Store(snapshot: Snapshot)
      modifies this
      ensures current == Some(snapshot) && previous == old(current)
    {
      var replaced := current;
      current := Some(snapshot);
      previous := replaced;
    }

    /** Goes back one generation, once: a second revert in a row does nothing. */
    method Revert() returns (reverted: bool)
      modifies this
      ensures reverted == old(previous).Some?
      ensures current == (if reverted then old(previous) else old(current))
      ensures previous == None
      ensures old(IsReady()) ==> IsReady()
    {
      reverted := previous.Some?;
      if reverted {
        current := previous;
      }
      previous := None;
    }

    /** Storing and reverting is a round trip once the router is ready. */
    method StoreThenRevert(snapshot: Snapshot)
      modifies this
      ensures old(IsReady()) ==> current == old(current)
      ensures !old(IsReady()) ==> current == Some(snapshot)
    {
      Store(snapshot);
      var reverted := Revert();
    }
  }
}
