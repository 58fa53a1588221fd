/**
 How tiers are assessed, scored and ranked, on the numbers of tiers, request and findings.
 */
module EngineScores {
  import opened Ordering
  import opened TextForms
  import opened Snapshots
  import opened SnapshotNumbers
  import opened Engine
  import opened EngineFacts
  import opened EngineSelection

  // ---- assessment ----

  /** The quality the tier declares for the task, or its baseline. */
  predicate DeclaredQuality(t: Tier, task: Option<string>, q: real) {
    match task
    case Some(name) => q == if name in t.qualityByTask then t.qualityByTask[name] else t.qualityBaseline
    case None => q == t.qualityBaseline
  }

  /** The learned router is on and its prediction is a number with enough confidence. */
  predicate Listens(predict: Predictor, t: Tier, f: Findings, p: Policy) {
    && p.learnedRouter.enabled
    && predict(t, f).Some?
    && p.learnedRouter.minConfidence <= predict(t, f).value.confidence
    && predict(t, f).value.quality.Finite?
  }

  /** `q` is `v` brought into the unit interval. */
  predicate IntoUnit(v: real, q: real) {
    (v < 0.0 ==> q == 0.0) && (0.0 <= v <= 1.0 ==> q == v) && (1.0 < v ==> q == 1.0)
  }

  predicate Expects(predict: Predictor, t: Tier, f: Findings, p: Policy, q: real) {
    if Listens(predict, t, f, p) then IntoUnit(predict(t, f).value.quality.value, q) else DeclaredQuality(t, f.task, q)
  }

  lemma PredictedQualityExactly(predict: Predictor, t: Tier, f: Findings, p: Policy, q: real)
    ensures q == PredictedQuality(predict, t, f, p) <==> Expects(predict, t, f, p, q)
  {}

  /** What a tier brings to the scoring of a request. */
  predicate Assessed(s: Scored, predict: Predictor, p: Policy, req: Request, f: Findings, t: Tier) {
    && s.tier == t
    && Expects(predict, t, f, p, s.quality)
    && Charges(t, req.inputTokens, req.outputTokens, s.cost)
    && s.latency == t.latencyP50
  }

  lemma AssessedExactly(predict: Predictor, p: Policy, req: Request, f: Findings, t: Tier, s: Scored)
    ensures s == ScoreTier(predict, p, req, f, t) <==> Assessed(s, predict, p, req, f, t)
  {
    hide PredictedQuality, Expects, EstimateCost, Charges;
    PredictedQualityExactly(predict, t, f, p, s.quality);
    ChargeIsUnique(t, req.inputTokens, req.outputTokens, s.cost);
  }

  // ---- the floor ----

  predicate Reaches(floor: real, s: Scored) {
    floor <= s.quality + 0.000000001
  }

  /**
   Without a floor everything stays. Otherwise, what reaches it up to a billionth stays; if nothing does, what is
   within a trillionth of the best quality stays.
   */
  ghost predicate Stays(floor: Option<real>, ss: seq<Scored>, s: Scored) {
    match floor
    case None => true
    case Some(q) =>
      if exists o :: o in ss && Reaches(q, o) then Reaches(q, s)
      else forall o | o in ss :: o.quality < s.quality + 0.000000000001
  }

  lemma PassesFloorExactly(floor: Option<real>, ss: seq<Scored>, s: Scored)
    requires s in ss
    ensures PassesFloor(floor, ss, s) <==> Stays(floor, ss, s)
  {
    if floor.Some? && !FloorMet(floor.value, ss) {
      var best := MaxOf(Qualities(ss));
      var i :| 0 <= i < |ss| && ss[i] == s;
      assert Qualities(ss)[i] == s.quality;
      var j :| 0 <= j < |ss| && Qualities(ss)[j] == best;
      assert ss[j] in ss && ss[j].quality == best;
      forall o | o in ss ensures o.quality <= best {
        var k :| 0 <= k < |ss| && ss[k] == o;
        assert Qualities(ss)[k] == o.quality && Qualities(ss)[k] in Qualities(ss);
      }
    }
  }

  // ---- shares ----

  /** Within the range the share is how much of it lies below the value: nothing at the lower end, all at the upper. */
  lemma NormIsShare(v: real, lo: real, hi: real)
    requires lo <= v <= hi
    ensures Norm(v, lo, hi) * (hi - lo) == v - lo
    ensures lo < hi ==> Norm(lo, lo, hi) == 0.0 && Norm(hi, lo, hi) == 1.0
    ensures lo == hi ==> Norm(v, lo, hi) == 0.0
  {
    if lo < hi {
      QuotientInUnit(v - lo, hi - lo);
      DividedBack(v - lo, hi - lo);
      assert (hi - lo) / (hi - lo) == 1.0;
    }
  }

  lemma QuotientInUnit(x: real, y: real)
    requires 0.0 <= x <= y && y > 0.0
    ensures 0.0 <= x / y <= 1.0
  {}

  type Measure = Scored -> real

  function Dearness(): Measure { (s: Scored) => s.cost as real }
  function Goodness(): Measure { (s: Scored) => s.quality }
  function Slowness(): Measure { (s: Scored) => s.latency as real }

  /** `lo` and `hi` are the least and the greatest of the values. */
  ghost predicate Range(by_: Measure, ss: seq<Scored>, lo: real, hi: real) {
    && (exists o :: o in ss && by_(o) == lo) && (exists o :: o in ss && by_(o) == hi)
    && forall o | o in ss :: lo <= by_(o) <= hi
  }

  /** `x` is the share of the range of the values that lies below the value of `s`. */
  ghost predicate ShareOfRange(by_: Measure, ss: seq<Scored>, s: Scored, x: real) {
    exists lo, hi :: Range(by_, ss, lo, hi) && x * (hi - lo) == by_(s) - lo && (lo == hi ==> x == 0.0)
  }

  lemma RangeOf(by_: Measure, ss: seq<Scored>)
    requires ss != []
    ensures Range(by_, ss, MinOf(Map(by_, ss)), MaxOf(Map(by_, ss)))
  {
    var vs := Map(by_, ss);
    var i :| 0 <= i < |vs| && vs[i] == MinOf(vs);
    var j :| 0 <= j < |vs| && vs[j] == MaxOf(vs);
    assert ss[i] in ss && ss[j] in ss;
    forall o | o in ss ensures MinOf(vs) <= by_(o) <= MaxOf(vs) {
      var k :| 0 <= k < |ss| && ss[k] == o;
      assert vs[k] in vs;
    }
  }

  lemma NormIsShareOfRange(by_: Measure, ss: seq<Scored>, s: Scored)
    requires s in ss
    ensures ShareOfRange(by_, ss, s, Norm(by_(s), MinOf(Map(by_, ss)), MaxOf(Map(by_, ss))))
  {
    hide Norm, Range, MinOf, MaxOf, Map;
    var lo, hi := MinOf(Map(by_, ss)), MaxOf(Map(by_, ss));
    RangeOf(by_, ss);
    WithinRange(by_, ss, s, lo, hi);
    NormIsShare(by_(s), lo, hi);
  }

  lemma WithinRange(by_: Measure, ss: seq<Scored>, s: Scored, lo: real, hi: real)
    requires Range(by_, ss, lo, hi) && s in ss
    ensures lo <= by_(s) <= hi
  {}

  lemma SameValues(ss: seq<Scored>)
    ensures Costs(ss) == Map(Dearness(), ss)
    ensures Qualities(ss) == Map(Goodness(), ss)
    ensures Latencies(ss) == Map(Slowness(), ss)
  {}

  // ---- scores ----

  predicate WeightedSum(w: Weights, cost: real, quality: real, latency: real, sum: real) {
    sum == w.cost * (1.0 - cost) + w.quality * quality + w.latency * (1.0 - latency)
  }

  /**
   The score is, to six decimals, the weighted sum of three shares: how far below the dearest, how far above the
   worst, and how far below the slowest of those compared.
   */
  ghost predicate ScoreIs(w: Weights, ss: seq<Scored>, s: Scored, score: real) {
    exists cost, quality, latency, sum ::
      && ShareOfRange(Dearness(), ss, s, cost)
      && ShareOfRange(Goodness(), ss, s, quality)
      && ShareOfRange(Slowness(), ss, s, latency)
      && WeightedSum(w, cost, quality, latency, sum)
      && ToSixDecimals(score, sum)
  }

  lemma ScoreExactly(w: Weights, ss: seq<Scored>, s: Scored)
    requires s in ss
    ensures Rank(w, ss, s).scored == s && ScoreIs(w, ss, s, Rank(w, ss, s).score)
  {
    hide Norm, MinOf, MaxOf, Round6, Map, ShareOfRange, ToSixDecimals;
    SameValues(ss);
    NormIsShareOfRange(Dearness(), ss, s);
    NormIsShareOfRange(Goodness(), ss, s);
    NormIsShareOfRange(Slowness(), ss, s);
    Round6IsNearest(RawScore(w, ss, s));
    assert WeightedSum(w, Norm(s.cost as real, MinOf(Costs(ss)), MaxOf(Costs(ss))),
                       Norm(s.quality, MinOf(Qualities(ss)), MaxOf(Qualities(ss))),
                       Norm(s.latency as real, MinOf(Latencies(ss)), MaxOf(Latencies(ss))), RawScore(w, ss, s));
  }

  lemma RangeIsUnique(by_: Measure, ss: seq<Scored>, lo: real, hi: real, lo': real, hi': real)
    requires Range(by_, ss, lo, hi) && Range(by_, ss, lo', hi')
    ensures lo == lo' && hi == hi'
  {}

  lemma QuotientOf(m: real, x: real, d: real)
    requires d != 0.0 && m == x * d
    ensures x == m / d
  {}

  lemma QuotientIsUnique(m: real, x: real, y: real, d: real)
    requires d != 0.0 && x * d == m && y * d == m
    ensures x == y
  {
    QuotientOf(m, x, d);
    QuotientOf(m, y, d);
  }

  lemma ShareIsUnique(by_: Measure, ss: seq<Scored>, s: Scored, x: real, y: real)
    requires ShareOfRange(by_, ss, s, x) && ShareOfRange(by_, ss, s, y)
    ensures x == y
  {
    hide Range;
    var lo, hi :| Range(by_, ss, lo, hi) && x * (hi - lo) == by_(s) - lo && (lo == hi ==> x == 0.0);
    var lo', hi' :| Range(by_, ss, lo', hi') && y * (hi' - lo') == by_(s) - lo' && (lo' == hi' ==> y == 0.0);
    RangeIsUnique(by_, ss, lo, hi, lo', hi');
    if lo != hi {
      QuotientIsUnique(by_(s) - lo, x, y, hi - lo);
    }
  }

  lemma SumIsUnique(w: Weights, cost: real, quality: real, latency: real, sum: real, sum': real)
    requires WeightedSum(w, cost, quality, latency, sum) && WeightedSum(w, cost, quality, latency, sum')
    ensures sum == sum'
  {}

  lemma ScoreIsUnique(w: Weights, ss: seq<Scored>, s: Scored, x: real, y: real)
    requires ScoreIs(w, ss, s, x) && ScoreIs(w, ss, s, y)
    ensures x == y
  {
    hide ShareOfRange, ToSixDecimals, WeightedSum;
    var c, q, l, sum :| ShareOfRange(Dearness(), ss, s, c) && ShareOfRange(Goodness(), ss, s, q)
      && ShareOfRange(Slowness(), ss, s, l) && WeightedSum(w, c, q, l, sum) && ToSixDecimals(x, sum);
    var c', q', l', sum' :| ShareOfRange(Dearness(), ss, s, c') && ShareOfRange(Goodness(), ss, s, q')
      && ShareOfRange(Slowness(), ss, s, l') && WeightedSum(w, c', q', l', sum') && ToSixDecimals(y, sum');
    ShareIsUnique(Dearness(), ss, s, c, c');
    ShareIsUnique(Goodness(), ss, s, q, q');
    ShareIsUnique(Slowness(), ss, s, l, l');
    SumIsUnique(w, c, q, l, sum, sum');
    SixDecimalsAreUnique(x, y, sum);
  }

  // ---- only proportions count ----

  function Scale(a: real, b: real, x: real): real {
    a * x + b
  }

  /** The second list says the same as the first, with costs and latencies on other scales. */
  predicate Rescaled(ss: seq<Scored>, ss': seq<Scored>, a: real, b: real, c: real, d: real) {
    && |ss'| == |ss| && a > 0.0 && c > 0.0
    && forall i :: 0 <= i < |ss| ==>
         && ss'[i].quality == ss[i].quality
         && ss'[i].cost as real == Scale(a, b, ss[i].cost as real)
         && ss'[i].latency as real == Scale(c, d, ss[i].latency as real)
  }

  /** The values of a measure, scaled and shifted. */
  ghost predicate Moved(by_: Measure, ss: seq<Scored>, ss': seq<Scored>, a: real, b: real) {
    |ss'| == |ss| && a > 0.0 && forall i :: 0 <= i < |ss| ==> by_(ss'[i]) == Scale(a, b, by_(ss[i]))
  }

  lemma ScaledOrder(a: real, b: real, x: real, y: real)
    ensures a > 0.0 && x <= y ==> Scale(a, b, x) <= Scale(a, b, y)
  {}

  lemma MovedWithin(
    by_: Measure, ss: seq<Scored>, ss': seq<Scored>, a: real, b: real, lo: real, hi: real, k: nat)
    requires Moved(by_, ss, ss', a, b) && Range(by_, ss, lo, hi) && k < |ss|
    ensures Scale(a, b, lo) <= by_(ss'[k]) <= Scale(a, b, hi)
  {
    hide Scale;
    WithinRange(by_, ss, ss[k], lo, hi);
    ScaledOrder(a, b, lo, by_(ss[k]));
    ScaledOrder(a, b, by_(ss[k]), hi);
  }

  lemma RangeBetween(by_: Measure, ss: seq<Scored>, lo: real, hi: real, i: int, j: int)
    requires 0 <= i < |ss| && 0 <= j < |ss| && by_(ss[i]) == lo && by_(ss[j]) == hi
    requires forall k :: 0 <= k < |ss| ==> lo <= by_(ss[k]) <= hi
    ensures Range(by_, ss, lo, hi)
  {
    forall o | o in ss ensures lo <= by_(o) <= hi {
      var k :| 0 <= k < |ss| && ss[k] == o;
    }
  }

  lemma MovedRange(by_: Measure, ss: seq<Scored>, ss': seq<Scored>, a: real, b: real, lo: real, hi: real)
    requires Moved(by_, ss, ss', a, b) && Range(by_, ss, lo, hi)
    ensures Range(by_, ss', Scale(a, b, lo), Scale(a, b, hi))
  {
    hide Scale;
    var i :| 0 <= i < |ss| && by_(ss[i]) == lo;
    var j :| 0 <= j < |ss| && by_(ss[j]) == hi;
    assert by_(ss'[i]) == Scale(a, b, lo) && by_(ss'[j]) == Scale(a, b, hi);
    hide Range;
    forall k | 0 <= k < |ss'| ensures Scale(a, b, lo) <= by_(ss'[k]) <= Scale(a, b, hi) {
      MovedWithin(by_, ss, ss', a, b, lo, hi, k);
    }
    hide Moved;
    RangeBetween(by_, ss', Scale(a, b, lo), Scale(a, b, hi), i, j);
  }

  lemma ScaledShare(x: real, a: real, b: real, lo: real, hi: real, v: real)
    requires x * (hi - lo) == v - lo
    ensures x * (Scale(a, b, hi) - Scale(a, b, lo)) == Scale(a, b, v) - Scale(a, b, lo)
  {
    assert Scale(a, b, hi) - Scale(a, b, lo) == a * (hi - lo) && Scale(a, b, v) - Scale(a, b, lo) == a * (v - lo);
    assert x * (a * (hi - lo)) == a * (x * (hi - lo));
  }

  lemma SameScaled(a: real, b: real, x: real, y: real)
    requires a > 0.0 && Scale(a, b, x) == Scale(a, b, y)
    ensures x == y
  {
    QuotientIsUnique(a * x, x, y, a);
  }

  lemma MovedShare(by_: Measure, ss: seq<Scored>, ss': seq<Scored>, a: real, b: real, i: nat, x: real)
    requires Moved(by_, ss, ss', a, b) && i < |ss| && ShareOfRange(by_, ss, ss[i], x)
    ensures ShareOfRange(by_, ss', ss'[i], x)
  {
    hide Range, Scale;
    var lo, hi :| Range(by_, ss, lo, hi) && x * (hi - lo) == by_(ss[i]) - lo && (lo == hi ==> x == 0.0);
    MovedRange(by_, ss, ss', a, b, lo, hi);
    ScaledShare(x, a, b, lo, hi, by_(ss[i]));
    if Scale(a, b, lo) == Scale(a, b, hi) {
      SameScaled(a, b, lo, hi);
    }
  }

  /** A score does not change when all costs, or all latencies, are put on another scale. */
  lemma ScoreIsRelative(
    w: Weights, ss: seq<Scored>, ss': seq<Scored>, a: real, b: real, c: real, d: real, i: nat)
    requires Rescaled(ss, ss', a, b, c, d) && i < |ss|
    ensures Rank(w, ss', ss'[i]).score == Rank(w, ss, ss[i]).score
  {
    hide Rank, ShareOfRange, ToSixDecimals, WeightedSum;
    ScoreExactly(w, ss, ss[i]);
    ScoreExactly(w, ss', ss'[i]);
    var score := Rank(w, ss, ss[i]).score;
    var x, q, l, sum :| ShareOfRange(Dearness(), ss, ss[i], x) && ShareOfRange(Goodness(), ss, ss[i], q)
      && ShareOfRange(Slowness(), ss, ss[i], l) && WeightedSum(w, x, q, l, sum) && ToSixDecimals(score, sum);
    MovedShare(Dearness(), ss, ss', a, b, i, x);
    assert forall v :: Scale(1.0, 0.0, v) == v;
    MovedShare(Goodness(), ss, ss', 1.0, 0.0, i, q);
    MovedShare(Slowness(), ss, ss', c, d, i, l);
    assert ScoreIs(w, ss', ss'[i], score);
    ScoreIsUnique(w, ss', ss'[i], score, Rank(w, ss', ss'[i]).score);
  }

  // ---- the decision ----

  /** The tiers that are assessed: the candidates that meet every hard constraint. */
  ghost predicate AreAssessed(
    ss: seq<Scored>, predict: Predictor, core: Core, p: Policy, req: Request, f: Findings, dc: Option<DataClass>)
  {
    forall s :: s in ss <==> exists n ::
        n in p.candidates && n in core.tiers && Meets(core.tiers[n], p, req, f, dc)
        && Assessed(s, predict, p, req, f, core.tiers[n])
  }

  /** The tiers that are compared: those assessed that stay above the floor. */
  ghost predicate AreCompared(
    kept: seq<Scored>, predict: Predictor, core: Core, p: Policy, req: Request, f: Findings, dc: Option<DataClass>)
  {
    exists ss :: AreAssessed(ss, predict, core, p, req, f, dc)
      && forall s :: s in kept <==> s in ss && Stays(p.qualityFloor, ss, s)
  }

  /** Higher score, then lower cost, then the name that sorts first. */
  predicate Precedes(a: Scored, x: real, b: Scored, y: real) {
    || x > y
    || (x == y && (a.cost < b.cost || (a.cost == b.cost && StrLe(a.tier.name, b.tier.name))))
  }

  lemma MeetsExactly(core: Core, n: string, p: Policy, req: Request, f: Findings, dc: Option<DataClass>)
    ensures Survives(core, n, p, req, f, dc) <==> n in core.tiers && Meets(core.tiers[n], p, req, f, dc)
  {
    hide HardConstraintViolation, Breaks;
    if n in core.tiers {
      HardConstraintViolationIsFirst(core.tiers[n], p, req, f, dc);
      HardIsBeforeFloor(core.tiers[n], p, req, f, dc);
    }
  }

  lemma HardIsBeforeFloor(t: Tier, p: Policy, req: Request, f: Findings, dc: Option<DataClass>)
    ensures forall e | IsHard(e) && Breaks(e, t, p, req, f, dc) :: !Meets(t, p, req, f, dc)
  {
    hide Breaks;
  }

  lemma ContendersAreAssessed(
    predict: Predictor, core: Core, p: Policy, req: Request, f: Findings, dc: Option<DataClass>)
    ensures AreAssessed(Contenders(predict, core, p, req, f, dc), predict, core, p, req, f, dc)
  {
    hide Meets, Assessed, Survives, ScoreTier, Survivors;
    var survivors, ss := Survivors(core, p.candidates, p, req, f, dc), Contenders(predict, core, p, req, f, dc);
    SurvivorsSound(core, p.candidates, p, req, f, dc);
    forall n ensures Survives(core, n, p, req, f, dc) <==> n in core.tiers && Meets(core.tiers[n], p, req, f, dc) {
      MeetsExactly(core, n, p, req, f, dc);
    }
    forall s, t ensures s == ScoreTier(predict, p, req, f, t) <==> Assessed(s, predict, p, req, f, t) {
      AssessedExactly(predict, p, req, f, t, s);
    }
    forall s | s in ss
      ensures exists n :: n in p.candidates && n in core.tiers && Meets(core.tiers[n], p, req, f, dc)
                && Assessed(s, predict, p, req, f, core.tiers[n])
    {
      var i :| 0 <= i < |ss| && ss[i] == s;
      assert survivors[i] in survivors && s == ScoreTier(predict, p, req, f, survivors[i]);
    }
    forall s, n | n in p.candidates && n in core.tiers && Meets(core.tiers[n], p, req, f, dc)
                  && Assessed(s, predict, p, req, f, core.tiers[n])
      ensures s in ss
    {
      SurvivorContends(predict, core, p, req, f, dc, n);
    }
  }

  lemma KeptAreCompared(
    predict: Predictor, core: Core, p: Policy, req: Request, f: Findings, dc: Option<DataClass>)
    ensures AreCompared(Kept(p.qualityFloor, Contenders(predict, core, p, req, f, dc)), predict, core, p, req, f, dc)
  {
    hide AreAssessed, PassesFloor, Stays, Contenders, Kept;
    var ss := Contenders(predict, core, p, req, f, dc);
    ContendersAreAssessed(predict, core, p, req, f, dc);
    KeptSound(p.qualityFloor, ss);
    forall s | s in ss ensures PassesFloor(p.qualityFloor, ss, s) <==> Stays(p.qualityFloor, ss, s) {
      PassesFloorExactly(p.qualityFloor, ss, s);
    }
  }
}
