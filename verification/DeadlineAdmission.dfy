/**
  Whether a batch of generated frames should fit inside the source-owned budget. Costs are learned
  per batch size: a dearer sample is taken at once, a cheaper one only in small steps.
*/
module DeadlineAdmission {
  import opened Numbers

  const TRACKED := 4
  const RECOVERY_ALPHA := 0.12
  const UNKNOWN_RATIO := 1.10
  const MARGIN_RATIO := 0.12
  const MARGIN_FLOOR := 0.35
  const RESERVE_FLOOR := 0.50
  const RESERVE_MAX := 8.0
  const RESERVE_ALPHA := 0.25
  const RESERVE_DECAY := 0.95
  const RESERVE_CUTOFF := 0.01

  datatype Estimate = Estimate(valid: bool, blocking: bool, mipmaps: real, opticalFlow: real, gpu: real, total: real)
  {
    /** A dearer sample is taken, a cheaper one approached. */
    function Blend(current: real, sample: real): real {
      if !valid || sample >= current then sample else current + RECOVERY_ALPHA * (sample - current)
    }

    function Measured(o: Batch): Estimate {
      Estimate(
        true, blocking, Blend(mipmaps, o.mipmaps), Blend(opticalFlow, o.opticalFlow),
        if !(gpu > 0.0) || o.total >= gpu then o.total else gpu + RECOVERY_ALPHA * (o.total - gpu),
        if !blocking then Blend(total, o.total)
        else if !valid || o.total > total then o.total
        else total)
    }

    function Completed(ms: real): Estimate {
      this.(valid := true, blocking := true,
            total := if !valid || ms >= total then ms else total + RECOVERY_ALPHA * (ms - total))
    }

    function Relaxed(): Estimate {
      if !valid || !blocking || !(gpu > 0.0) || total <= gpu then this
      else this.(total := Most(total + RECOVERY_ALPHA * (gpu - total), gpu))
    }
  }

  const UNMEASURED := Estimate(false, false, 0.0, 0.0, 0.0, 0.0)

  datatype Batch = Batch(mipmaps: real, opticalFlow: real, total: real, count: nat, valid: bool)
  {
    predicate Usable() {
      valid && 0 < count < TRACKED && mipmaps >= 0.0 && opticalFlow >= 0.0 && total > 0.0
    }
  }

  datatype Event =
    | BatchMeasured(batch: Batch)
    | BlockingCompletion(count: nat, ms: real)
    | SourceOnlyRecovery
    | DeliveryMiss(lateness: real)
    | DeliverySuccess
    | Reset

  datatype Decision = Decision(
    mipmaps: real, opticalFlow: real, total: real, margin: real, budget: real, reserve: real,
    effectiveBudget: real, wouldAdmit: bool, valid: bool)

  datatype Predictor = Predictor(hasEstimate: bool, estimates: seq<Estimate>, reserve: real)
  {
    predicate Valid() {
      && |estimates| == TRACKED
      && !estimates[0].valid
      && 0.0 <= reserve <= RESERVE_MAX
      && (hasEstimate <==> exists k :: 0 <= k < TRACKED && estimates[k].valid)
      && forall k :: 0 <= k < TRACKED ==>
           estimates[k].gpu >= 0.0 && (estimates[k].valid ==> estimates[k].total > 0.0)
    }

    function Step(e: Event): (next: Predictor)
      requires |estimates| == TRACKED
      ensures |next.estimates| == TRACKED
    {
      match e
      case BatchMeasured(b) =>
        if !b.Usable() then this
        else this.(hasEstimate := true, estimates := estimates[b.count := estimates[b.count].Measured(b)])
      case BlockingCompletion(count, ms) =>
        if count == 0 || count >= TRACKED || ms <= 0.0 then this
        else this.(hasEstimate := true, estimates := estimates[count := estimates[count].Completed(ms)])
      case SourceOnlyRecovery =>
        this.(estimates := seq(TRACKED, k requires 0 <= k < TRACKED => estimates[k].Relaxed()))
      case DeliveryMiss(lateness) =>
        if lateness < 0.0 then this
        else
          var sample := Least(Most(lateness, RESERVE_FLOOR), RESERVE_MAX);
          this.(reserve := if reserve > 0.0 then reserve + RESERVE_ALPHA * (sample - reserve) else sample)
      case DeliverySuccess => this.(reserve := Decayed(reserve))
      case Reset => FRESH
    }

    /** The measured count nearest to `count` from `distance` on, the lower one first; 0 if none. */
    function NearestFrom(count: nat, distance: nat): (at: nat)
      requires |estimates| == TRACKED && 0 < count < TRACKED && 1 <= distance <= TRACKED
      ensures at < TRACKED
      decreases TRACKED - distance
    {
      if distance == TRACKED then 0
      else if count > distance && estimates[count - distance].valid then count - distance
      else if count + distance < TRACKED && estimates[count + distance].valid then count + distance
      else NearestFrom(count, distance + 1)
    }

    function Nearest(count: nat): (at: nat)
      requires |estimates| == TRACKED && 0 < count < TRACKED
      ensures at < TRACKED
    {
      if estimates[count].valid then count else NearestFrom(count, 1)
    }

    /** How the cost of a measured batch size is carried over to another. */
    function Scale(count: nat, measured: nat): real
      requires measured > 0
    {
      var relative := count as real / measured as real;
      if measured == count then 1.0
      else if count < measured then Most(0.70, relative * UNKNOWN_RATIO)
      else relative * UNKNOWN_RATIO
    }

    function Predict(count: nat, budget: real): (d: Decision)
      requires |estimates| == TRACKED
    {
      var effective := Most(0.0, budget - reserve);
      var none := Decision(0.0, 0.0, 0.0, 0.0, budget, reserve, effective, false, false);
      if !hasEstimate || count == 0 || count >= TRACKED || !(budget > 0.0) then none
      else
        var at := Nearest(count);
        if at == 0 then none
        else
          var total := estimates[at].total * Scale(count, at);
          var margin := Most(MARGIN_FLOOR, total * MARGIN_RATIO);
          var valid := total > 0.0;
          Decision(estimates[at].mipmaps, estimates[at].opticalFlow, total, margin, budget, reserve, effective,
                   valid && total + margin <= effective, valid)
    }

    predicate Admits(count: nat, budget: real)
      requires |estimates| == TRACKED
    {
      Predict(count, budget).valid && Predict(count, budget).wouldAdmit
    }

    /** Every prefix of a batch fits the evenly spaced slot it would own. */
    predicate SlotsFit(candidate: nat, interval: real)
      requires |estimates| == TRACKED
    {
      forall slot :: 0 <= slot < candidate ==> Admits(slot + 1, SlotBudget(interval, slot, candidate))
    }

    predicate HintUsable(most: nat, budget: real) { hasEstimate && most > 0 && budget > 0.0 }

    /** The largest count up to `most` whose slots fit, or 0. */
    function SlotHint(most: nat, interval: real): nat
      requires |estimates| == TRACKED
    {
      if most == 0 || SlotsFit(most, interval) then most else SlotHint(most - 1, interval)
    }

    /** The largest count up to `most` that fits as a whole, or 0. */
    function BatchHint(most: nat, budget: real): nat
      requires |estimates| == TRACKED
    {
      if most == 0 || Admits(most, budget) then most else BatchHint(most - 1, budget)
    }

    function SafeGenerationHint(most: nat, interval: real): nat
      requires |estimates| == TRACKED
    {
      if HintUsable(most, interval) then SlotHint(most, interval) else 0
    }

    function SafeBatchGenerationHint(most: nat, budget: real): nat
      requires |estimates| == TRACKED
    {
      if HintUsable(most, budget) then BatchHint(most, budget) else 0
    }
  }

  function SlotBudget(interval: real, slot: nat, candidate: nat): real {
    interval * (slot + 1) as real / (candidate + 1) as real
  }

  function Decayed(reserve: real): real {
    var less := reserve * RESERVE_DECAY;
    if less < RESERVE_CUTOFF then 0.0 else less
  }

  const FRESH := Predictor(false, [UNMEASURED, UNMEASURED, UNMEASURED, UNMEASURED], 0.0)

  lemma StepIsValid(p: Predictor, e: Event)
    requires p.Valid()
    ensures p.Step(e).Valid()
  {
    var next := p.Step(e);
    match e {
      case BatchMeasured(b) =>
        if b.Usable() {
          assert next.estimates[b.count].valid;
        }
      case BlockingCompletion(count, ms) =>
        if 0 < count < TRACKED && ms > 0.0 {
          assert next.estimates[count].valid;
        }
      case SourceOnlyRecovery =>
        assert forall k :: 0 <= k < TRACKED ==> next.estimates[k].valid == p.estimates[k].valid;
      case _ =>
    }
  }

  // ---- Conservatism over a run ----

  function After(p: Predictor, run: seq<Event>): (after: Predictor)
    requires p.Valid()
    ensures after.Valid()
    decreases |run|
  {
    if run == [] then p else StepIsValid(p, run[0]); After(p.Step(run[0]), run[1..])
  }

  /** The last cost sample of each batch size, of either kind; 0 before the first. */
  function Samples(last: seq<real>, run: seq<Event>): (after: seq<real>)
    requires |last| == TRACKED
    ensures |after| == TRACKED
    decreases |run|
  {
    if run == [] then last else Samples(Sampled(last, run[0]), run[1..])
  }

  function Sampled(last: seq<real>, e: Event): (next: seq<real>)
    requires |last| == TRACKED
    ensures |next| == TRACKED
  {
    match e
    case BatchMeasured(b) => if b.Usable() then last[b.count := b.total] else last
    case BlockingCompletion(count, ms) => if 0 < count < TRACKED && ms > 0.0 then last[count := ms] else last
    case Reset => [0.0, 0.0, 0.0, 0.0]
    case _ => last
  }

  /**
    No estimate is more optimistic than both its last sample and the measured GPU cost; without a
    GPU sample it is not below its last sample at all.
  */
  predicate Conservative(p: Predictor, last: seq<real>)
    requires p.Valid() && |last| == TRACKED
  {
    forall k :: 0 <= k < TRACKED && p.estimates[k].valid ==>
      var e := p.estimates[k];
      e.total >= last[k] || (e.gpu > 0.0 && e.total >= e.gpu)
  }

  lemma StepIsConservative(p: Predictor, last: seq<real>, e: Event)
    requires p.Valid() && |last| == TRACKED && Conservative(p, last)
    ensures p.Step(e).Valid() && Conservative(p.Step(e), Sampled(last, e))
  {
    StepIsValid(p, e);
  }

  lemma {:induction false} RunIsConservative(p: Predictor, last: seq<real>, run: seq<Event>)
    requires p.Valid() && |last| == TRACKED && Conservative(p, last)
    ensures Conservative(After(p, run), Samples(last, run))
    decreases |run|
  {
    hide Conservative, Predictor.Step, Sampled;
    if run != [] {
      StepIsConservative(p, last, run[0]);
      RunIsConservative(p.Step(run[0]), Sampled(last, run[0]), run[1..]);
    }
  }

  /** From a fresh predictor on, whatever happens. */
  lemma NeverOptimistic(run: seq<Event>, k: nat)
    requires k < TRACKED
    ensures FRESH.Valid()
    ensures var (e, last) := (After(FRESH, run).estimates[k], Samples([0.0, 0.0, 0.0, 0.0], run)[k]);
            e.valid ==> && e.total >= Least(last, if e.gpu > 0.0 then e.gpu else last)
                        && (e.gpu <= 0.0 ==> e.total >= last)
  {
    RunIsConservative(FRESH, [0.0, 0.0, 0.0, 0.0], run);
  }

  // ---- Prediction ----

  /** The count used is measured and nearest, and of two equally near ones the lower. */
  lemma {:induction false} NearestFromIsNearest(p: Predictor, count: nat, distance: nat)
    requires p.Valid() && 0 < count < TRACKED && 1 <= distance <= TRACKED
    requires forall k :: 0 < k < TRACKED && p.estimates[k].valid ==> k - count >= distance || count - k >= distance
    ensures var at := p.NearestFrom(count, distance);
            && (at == 0 ==> forall k :: 0 <= k < TRACKED ==> !p.estimates[k].valid)
            && (at != 0 ==> IsNearest(p, count, at))
    decreases TRACKED - distance
  {
    if distance < TRACKED && p.NearestFrom(count, distance) == p.NearestFrom(count, distance + 1) {
      if !(count > distance && p.estimates[count - distance].valid)
         && !(count + distance < TRACKED && p.estimates[count + distance].valid) {
        NearestFromIsNearest(p, count, distance + 1);
      }
    }
  }

  function Apart(a: int, b: int): nat { if a < b then b - a else a - b }

  predicate IsNearest(p: Predictor, count: nat, at: nat)
    requires p.Valid()
  {
    && 0 < at < TRACKED && p.estimates[at].valid
    && forall k :: 0 < k < TRACKED && p.estimates[k].valid ==>
         Apart(at, count) < Apart(k, count) || (Apart(at, count) == Apart(k, count) && at <= k)
  }

  lemma NearestIsNearest(p: Predictor, count: nat)
    requires p.Valid() && 0 < count < TRACKED && p.hasEstimate
    ensures IsNearest(p, count, p.Nearest(count))
  {
    if !p.estimates[count].valid {
      NearestFromIsNearest(p, count, 1);
    }
  }

  /** What a batch of `count` is taken to cost when batches of `at` cost `total`. */
  predicate Costs(count: nat, at: nat, total: real, cost: real) {
    if count == at then cost == total
    else if count > at then 10.0 * at as real * cost == 11.0 * count as real * total
    else
      // never below seven tenths of the measured cost
      (10.0 * at as real * cost == 11.0 * count as real * total && 10.0 * cost >= 7.0 * total)
      || (10.0 * cost == 7.0 * total && 11.0 * count as real * total <= 10.0 * at as real * cost)
  }

  lemma ScaleCosts(p: Predictor, count: nat, at: nat, total: real)
    requires count > 0 && at > 0 && total >= 0.0
    ensures Costs(count, at, total, total * p.Scale(count, at))
  {
    var ratio := count as real / at as real;
    assert ratio * at as real == count as real;
    Carries(total, ratio, at as real, count as real);
    if count < at && ratio * UNKNOWN_RATIO < 0.70 {
      Smaller(total, ratio * UNKNOWN_RATIO, 0.70);
      Carries(total, ratio, at as real, count as real);
      ScalesUp(total * (ratio * UNKNOWN_RATIO), total * 0.70, at as real);
    } else if count < at {
      Smaller(total, 0.70, ratio * UNKNOWN_RATIO);
    }
  }

  lemma Carries(total: real, ratio: real, at: real, count: real)
    requires ratio * at == count
    ensures 10.0 * at * (total * (ratio * UNKNOWN_RATIO)) == 11.0 * count * total
  {
    assert at * (total * (ratio * UNKNOWN_RATIO)) == total * UNKNOWN_RATIO * (ratio * at);
  }

  lemma Smaller(total: real, a: real, b: real)
    requires total >= 0.0 && a <= b
    ensures total * a <= total * b
  {
    assert total * (b - a) >= 0.0;
  }

  lemma ScalesUp(a: real, b: real, k: real)
    requires a <= b && k > 0.0
    ensures 10.0 * k * a <= 10.0 * k * b
  {
    assert k * (b - a) >= 0.0;
  }

  /** The budget left by the reserve covers the cost with a margin of 12 %, and of 0.35 ms. */
  predicate Covers(budget: real, reserve: real, cost: real) {
    cost + 0.12 * cost <= budget - reserve && cost + 0.35 <= budget - reserve
  }

  /** The budget covers what a batch of `count` is taken to cost by the measured size nearest to it. */
  ghost predicate Affordable(p: Predictor, count: nat, budget: real)
    requires p.Valid()
  {
    exists at: nat, cost: real ::
      at < TRACKED && IsNearest(p, count, at) && Costs(count, at, p.estimates[at].total, cost)
      && Covers(budget, p.reserve, cost)
  }

  /** What a batch of `count` is taken to cost by the measured size `at`. */
  function Taken(p: Predictor, count: nat, at: nat): real
    requires 0 < at < |p.estimates|
  {
    p.estimates[at].total * p.Scale(count, at)
  }

  lemma TakenCosts(p: Predictor, count: nat, at: nat)
    requires 0 < at < |p.estimates| && count > 0 && p.estimates[at].total > 0.0
    ensures Costs(count, at, p.estimates[at].total, Taken(p, count, at)) && Taken(p, count, at) > 0.0
  {
    hide Predictor.Scale;
    var total := p.estimates[at].total;
    ScaleCosts(p, count, at, total);
    ScaleIsPositive(p, count, at, total);
    assert Taken(p, count, at) == total * p.Scale(count, at);
  }

  lemma AdmitsCovers(p: Predictor, count: nat, budget: real, at: nat)
    requires p.Valid() && 0 < count < TRACKED && budget > 0.0 && p.hasEstimate
    requires at == p.Nearest(count) && at > 0 && Taken(p, count, at) > 0.0
    ensures p.Admits(count, budget) <==> Covers(budget, p.reserve, Taken(p, count, at))
  {
    hide Predictor.Nearest, Predictor.Scale;
    assert p.Predict(count, budget).total == Taken(p, count, at);
  }

  lemma AffordableIff(p: Predictor, count: nat, budget: real, at: nat, cost: real)
    requires p.Valid() && IsNearest(p, count, at) && Costs(count, at, p.estimates[at].total, cost)
    ensures Affordable(p, count, budget) <==> Covers(budget, p.reserve, cost)
  {
    hide Costs, Covers, Predictor.Valid, IsNearest;
    NearestMeasured(p);
    NearestIsMeasured(p, count, at);
    forall other: nat, c: real | other < |p.estimates| && IsNearest(p, count, other) && Costs(count, other, p.estimates[other].total, c)
      ensures c == cost
    {
      OneNearest(p, count, at, other);
      OneCost(count, at, p.estimates[at].total, cost, c);
    }
  }

  /**
    Exactly when a batch is admitted: its size is known or near a known one, and the budget, less the
    reserve, covers what it is taken to cost with both margins.
  */
  lemma AdmitsIff(p: Predictor, count: nat, budget: real)
    requires p.Valid()
    ensures p.Admits(count, budget)
            <==> 0 < count < TRACKED && budget > 0.0 && p.hasEstimate && Affordable(p, count, budget)
  {
    hide Predictor.Admits, Predictor.Valid, IsNearest, Costs, Covers, Affordable, Predictor.Nearest, Taken;
    NotAdmitted(p, count, budget);
    NearestMeasured(p);
    if 0 < count < TRACKED && budget > 0.0 && p.hasEstimate {
      NearestIsNearest(p, count);
      var at := p.Nearest(count);
      NearestIsMeasured(p, count, at);
      TakenCosts(p, count, at);
      AdmitsCovers(p, count, budget, at);
      AffordableIff(p, count, budget, at, Taken(p, count, at));
    }
  }

  lemma NotAdmitted(p: Predictor, count: nat, budget: real)
    requires p.Valid()
    ensures p.Admits(count, budget) ==> 0 < count < TRACKED && budget > 0.0 && p.hasEstimate
  {
    hide Predictor.Nearest, Predictor.Scale;
  }

  lemma NearestMeasured(p: Predictor)
    requires p.Valid()
    ensures |p.estimates| == TRACKED
  {
  }

  lemma NearestIsMeasured(p: Predictor, count: nat, at: nat)
    requires p.Valid() && IsNearest(p, count, at)
    ensures |p.estimates| == TRACKED && 0 < at < TRACKED && p.estimates[at].total > 0.0 && 0.0 <= p.reserve
  {
  }

  lemma OneNearest(p: Predictor, count: nat, a: nat, b: nat)
    requires p.Valid() && IsNearest(p, count, a) && IsNearest(p, count, b)
    ensures a == b
  {
  }

  lemma OneCost(count: nat, at: nat, total: real, a: real, b: real)
    requires at > 0 && total > 0.0 && Costs(count, at, total, a) && Costs(count, at, total, b)
    ensures a == b
  {
    SameProduct(at as real, a, b);
    ScalesDown(at as real, a, b);
    ScalesDown(at as real, b, a);
  }

  lemma SameProduct(k: real, a: real, b: real)
    requires k > 0.0
    ensures 10.0 * k * a == 10.0 * k * b ==> a == b
  {
    if a < b {
      assert k * (b - a) > 0.0;
    } else if b < a {
      assert k * (a - b) > 0.0;
    }
  }

  lemma ScalesDown(k: real, a: real, b: real)
    requires k > 0.0
    ensures 10.0 * k * a <= 10.0 * k * b ==> a <= b
  {
    if b < a {
      assert k * (a - b) > 0.0;
    }
  }

  lemma ScaleIsPositive(p: Predictor, count: nat, at: nat, total: real)
    requires count > 0 && at > 0 && total > 0.0
    ensures total * p.Scale(count, at) > 0.0
  {
    assert count as real / at as real > 0.0;
    var scale := p.Scale(count, at);
    assert scale > 0.0;
    hide Predictor.Scale;
    assert total * scale > 0.0;
  }

  /** More budget never turns an admitted batch away. */
  lemma PredictIsMonotone(p: Predictor, count: nat, less: real, more: real)
    requires p.Valid() && less <= more && p.Admits(count, less)
    ensures p.Admits(count, more)
  {
  }

  lemma {:induction false} SlotHintIsLargest(p: Predictor, most: nat, interval: real)
    requires p.Valid()
    ensures var h := p.SlotHint(most, interval);
            && h <= most && (h > 0 ==> p.SlotsFit(h, interval))
            && forall c :: h < c <= most ==> !p.SlotsFit(c, interval)
    decreases most
  {
    if most > 0 && !p.SlotsFit(most, interval) {
      SlotHintIsLargest(p, most - 1, interval);
    }
  }

  lemma {:induction false} BatchHintIsLargest(p: Predictor, most: nat, budget: real)
    requires p.Valid()
    ensures var h := p.BatchHint(most, budget);
            && h <= most && (h > 0 ==> p.Admits(h, budget))
            && forall c :: h < c <= most ==> !p.Admits(c, budget)
    decreases most
  {
    if most > 0 && !p.Admits(most, budget) {
      BatchHintIsLargest(p, most - 1, budget);
    }
  }

  lemma LastSlotInside(interval: real, candidate: nat)
    requires candidate > 0 && interval > 0.0
    ensures SlotBudget(interval, candidate - 1, candidate) <= interval
  {
    var c := candidate as real;
    assert interval * c <= interval * (c + 1.0);
    assert interval * c / (c + 1.0) <= interval;
  }

  /** Slots are stricter than the batch: the slot hint never exceeds the batch hint. */
  lemma SlotHintBelowBatchHint(p: Predictor, most: nat, interval: real)
    requires p.Valid()
    ensures p.SafeGenerationHint(most, interval) <= p.SafeBatchGenerationHint(most, interval) < TRACKED
  {
    hide Predictor.Predict;
    if p.HintUsable(most, interval) {
      SlotHintIsLargest(p, most, interval);
      BatchHintIsLargest(p, most, interval);
      var h, b := p.SlotHint(most, interval), p.BatchHint(most, interval);
      if h > 0 {
        LastSlotInside(interval, h);
        assert p.Admits(h - 1 + 1, SlotBudget(interval, h - 1, h));
        PredictIsMonotone(p, h, SlotBudget(interval, h - 1, h), interval);
      }
      if b > 0 {
        AdmittedIsTracked(p, b, interval);
      }
    }
  }

  lemma AdmittedIsTracked(p: Predictor, count: nat, budget: real)
    requires p.Valid() && p.Admits(count, budget)
    ensures 0 < count < TRACKED
  {
  }

  // ---- The delivery reserve ----

  function DecayedBy(reserve: real, n: nat): real
    decreases n
  {
    if n == 0 then reserve else DecayedBy(Decayed(reserve), n - 1)
  }

  lemma {:induction false} SuccessesDecay(p: Predictor, run: seq<Event>)
    requires p.Valid() && forall k :: 0 <= k < |run| ==> run[k] == DeliverySuccess
    ensures After(p, run).reserve == DecayedBy(p.reserve, |run|)
    decreases |run|
  {
    if run != [] {
      SuccessesDecay(p.Step(run[0]), run[1..]);
    }
  }

  lemma {:induction false} DecayAdds(reserve: real, m: nat, n: nat)
    ensures DecayedBy(reserve, m + n) == DecayedBy(DecayedBy(reserve, m), n)
    decreases m
  {
    if m > 0 {
      DecayAdds(Decayed(reserve), m - 1, n);
    }
  }

  /** A bound after as many steps of a fixed ratio. */
  function Shrunk(bound: real, ratio: real, steps: nat): real
    decreases steps
  {
    if steps == 0 then bound else Shrunk(bound * ratio, ratio, steps - 1)
  }

  lemma {:induction false} ShrunkAdds(bound: real, ratio: real, m: nat, n: nat)
    ensures Shrunk(bound, ratio, m + n) == Shrunk(Shrunk(bound, ratio, m), ratio, n)
    decreases m
  {
    if m > 0 {
      ShrunkAdds(bound * ratio, ratio, m - 1, n);
    }
  }

  lemma {:induction false} ShrunkKeepsOrder(a: real, b: real, ratio: real, steps: nat)
    requires a <= b && ratio > 0.0
    ensures Shrunk(a, ratio, steps) <= Shrunk(b, ratio, steps)
    decreases steps
  {
    if steps > 0 {
      assert a * ratio <= b * ratio;
      ShrunkKeepsOrder(a * ratio, b * ratio, ratio, steps - 1);
    }
  }

  lemma {:induction false} DecaysBelow(reserve: real, bound: real, n: nat)
    requires 0.0 <= reserve <= bound
    ensures 0.0 <= DecayedBy(reserve, n) <= Shrunk(bound, RESERVE_DECAY, n)
    decreases n
  {
    if n > 0 {
      DecaysBelow(Decayed(reserve), bound * RESERVE_DECAY, n - 1);
    }
  }

  /** While the bound stays above the cutoff nothing is cut off. */
  lemma {:induction false} DecaysAbove(reserve: real, bound: real, n: nat)
    requires reserve >= bound > 0.0 && Shrunk(bound, RESERVE_DECAY, n) >= RESERVE_CUTOFF
    ensures DecayedBy(reserve, n) >= Shrunk(bound, RESERVE_DECAY, n)
    decreases n
  {
    if n > 0 {
      ShrinksDown(bound * RESERVE_DECAY, n - 1);
      DecaysAbove(Decayed(reserve), bound * RESERVE_DECAY, n - 1);
    }
  }

  lemma {:induction false} ShrinksDown(bound: real, n: nat)
    requires bound > 0.0
    ensures 0.0 < Shrunk(bound, RESERVE_DECAY, n) <= bound
    decreases n
  {
    if n > 0 {
      ShrinksDown(bound * RESERVE_DECAY, n - 1);
    }
  }

  /** Five steps take a factor between these two. */
  lemma FiveSteps(bound: real)
    requires bound > 0.0
    ensures bound * 0.77378 <= Shrunk(bound, RESERVE_DECAY, 5) <= bound * 0.773781
  {
    assert Shrunk(bound, RESERVE_DECAY, 5) == Shrunk(bound * 0.95 * 0.95, RESERVE_DECAY, 3);
    assert Shrunk(bound * 0.95 * 0.95, RESERVE_DECAY, 3) == bound * 0.95 * 0.95 * 0.95 * 0.95 * 0.95;
  }

  lemma OneStep(a: real, ratio: real, b: real, n: nat)
    requires b == a * ratio
    ensures Shrunk(a, ratio, n + 1) == Shrunk(b, ratio, n)
  {
  }

  lemma FourSteps(a: real, ratio: real, n: nat)
    ensures Shrunk(a, ratio, n + 4) == Shrunk(a * ratio * ratio * ratio * ratio, ratio, n)
  {
    OneStep(a, ratio, a * ratio, n + 3);
    OneStep(a * ratio, ratio, a * ratio * ratio, n + 2);
    OneStep(a * ratio * ratio, ratio, a * ratio * ratio * ratio, n + 1);
    OneStep(a * ratio * ratio * ratio, ratio, a * ratio * ratio * ratio * ratio, n);
  }

  /** Four steps at once, rounded to a bound on the chosen side. */
  lemma FourBelow(a: real, ratio: real, b: real, n: nat)
    requires ratio > 0.0 && a * ratio * ratio * ratio * ratio <= b
    ensures Shrunk(a, ratio, n + 4) <= Shrunk(b, ratio, n)
  {
    FourSteps(a, ratio, n);
    ShrunkKeepsOrder(a * ratio * ratio * ratio * ratio, b, ratio, n);
  }

  lemma FourAbove(a: real, ratio: real, b: real, n: nat)
    requires ratio > 0.0 && b <= a * ratio * ratio * ratio * ratio
    ensures Shrunk(b, ratio, n) <= Shrunk(a, ratio, n + 4)
  {
    FourSteps(a, ratio, n);
    ShrunkKeepsOrder(b, a * ratio * ratio * ratio * ratio, ratio, n);
  }

  lemma {:induction false} FivesBelow(bound: real, over: real, fives: nat)
    requires 0.0 < bound <= over
    ensures Shrunk(bound, RESERVE_DECAY, 5 * fives) <= Shrunk(over, 0.773781, fives)
    decreases fives
  {
    if fives > 0 {
      ShrunkAdds(bound, RESERVE_DECAY, 5, 5 * (fives - 1));
      FiveSteps(bound);
      assert bound * 0.773781 <= over * 0.773781;
      FivesBelow(Shrunk(bound, RESERVE_DECAY, 5), over * 0.773781, fives - 1);
    }
  }

  lemma {:induction false} FivesAbove(bound: real, under: real, fives: nat)
    requires 0.0 < under <= bound
    ensures Shrunk(under, 0.77378, fives) <= Shrunk(bound, RESERVE_DECAY, 5 * fives)
    decreases fives
  {
    if fives > 0 {
      ShrunkAdds(bound, RESERVE_DECAY, 5, 5 * (fives - 1));
      FiveSteps(bound);
      assert under * 0.77378 <= bound * 0.77378;
      FivesAbove(Shrunk(bound, RESERVE_DECAY, 5), under * 0.77378, fives - 1);
    }
  }

  lemma FullReserveBelow()
    ensures Shrunk(RESERVE_MAX, 0.773781, 26) <= 0.0102
  {
    FourBelow(8.000000000, 0.773781, 2.867888306, 22);
    FourBelow(2.867888306, 0.773781, 1.028097917, 18);
    FourBelow(1.028097917, 0.773781, 0.368558750, 14);
    FourBelow(0.368558750, 0.773781, 0.132123167, 10);
    FourBelow(0.132123167, 0.773781, 0.047364311, 6);
    FourBelow(0.047364311, 0.773781, 0.016979445, 2);
    assert Shrunk(0.016979445, 0.773781, 2) == Shrunk(0.016979445 * 0.773781, 0.773781, 1);
    assert Shrunk(0.016979445 * 0.773781, 0.773781, 1) == Shrunk(0.016979445 * 0.773781 * 0.773781, 0.773781, 0);
  }

  lemma FullReserveAbove()
    ensures Shrunk(RESERVE_MAX, 0.77378, 26) >= 0.0101
  {
    FourAbove(8.000000000, 0.77378, 2.867873480, 22);
    FourAbove(2.867873480, 0.77378, 1.028087287, 18);
    FourAbove(1.028087287, 0.77378, 0.368553033, 14);
    FourAbove(0.368553033, 0.77378, 0.132120433, 10);
    FourAbove(0.132120433, 0.77378, 0.047363085, 6);
    FourAbove(0.047363085, 0.77378, 0.016978916, 2);
    assert Shrunk(0.016978916, 0.77378, 2) == Shrunk(0.016978916 * 0.77378, 0.77378, 1);
    assert Shrunk(0.016978916 * 0.77378, 0.77378, 1) == Shrunk(0.016978916 * 0.77378 * 0.77378, 0.77378, 0);
  }

  lemma {:induction false} ZeroStays(n: nat)
    ensures DecayedBy(0.0, n) == 0.0
    decreases n
  {
    if n > 0 {
      ZeroStays(n - 1);
    }
  }

  /** Whatever was learned, 131 successes in a row forget it. */
  lemma ReserveForgotten(p: Predictor, run: seq<Event>)
    requires p.Valid() && |run| >= 131 && forall k :: 0 <= k < |run| ==> run[k] == DeliverySuccess
    ensures After(p, run).reserve == 0.0
  {
    SuccessesDecay(p, run);
    var r := DecayedBy(p.reserve, 130);
    DecaysBelow(p.reserve, RESERVE_MAX, 130);
    FivesBelow(RESERVE_MAX, RESERVE_MAX, 26);
    FullReserveBelow();
    assert r <= 0.0102;
    DecayAdds(p.reserve, 130, 1);
    assert DecayedBy(r, 1) == Decayed(r) == 0.0;
    DecayAdds(p.reserve, 131, |run| - 131);
    ZeroStays(|run| - 131);
  }

  /** And 130 are not enough: a full reserve survives them. */
  lemma ReserveRemembered(p: Predictor, run: seq<Event>)
    requires p.Valid() && p.reserve == RESERVE_MAX
    requires |run| == 130 && forall k :: 0 <= k < |run| ==> run[k] == DeliverySuccess
    ensures After(p, run).reserve >= RESERVE_CUTOFF
  {
    SuccessesDecay(p, run);
    FivesAbove(RESERVE_MAX, RESERVE_MAX, 26);
    FullReserveAbove();
    DecaysAbove(RESERVE_MAX, RESERVE_MAX, 130);
  }

  // ---- The object ----

  class DeadlineAdmissionPredictor {
    var hasEstimate: bool
    const batchEstimates: array<Estimate>
    var deliveryReserve: real

    ghost predicate Shaped()
    {
      batchEstimates.Length == TRACKED
    }

    function State(): Predictor
      reads this, batchEstimates
    {
      Predictor(hasEstimate, batchEstimates[..], deliveryReserve)
    }

    constructor ()
      ensures Shaped() && fresh(batchEstimates) && State() == FRESH
    {
      hasEstimate := false;
      batchEstimates := new Estimate[TRACKED](_ => UNMEASURED);
      deliveryReserve := 0.0;
    }

    method Clear()
      requires Shaped()
      modifies this, batchEstimates
      ensures State() == FRESH
    {
      hasEstimate := false;
      for k := 0 to TRACKED
        invariant hasEstimate == false
        invariant forall j :: 0 <= j < k ==> batchEstimates[j] == UNMEASURED
      {
        batchEstimates[k] := UNMEASURED;
      }
      deliveryReserve := 0.0;
    }

    method Observe(b: Batch)
      requires Shaped()
      modifies this, batchEstimates
      ensures State() == old(State()).Step(BatchMeasured(b))
    {
      if !b.Usable() {
        return;
      }
      var e := batchEstimates[b.count];
      var next := e.(mipmaps := e.Blend(e.mipmaps, b.mipmaps), opticalFlow := e.Blend(e.opticalFlow, b.opticalFlow));
      if !(e.gpu > 0.0) || b.total >= e.gpu {
        next := next.(gpu := b.total);
      } else {
        next := next.(gpu := e.gpu + RECOVERY_ALPHA * (b.total - e.gpu));
      }
      if !e.blocking {
        next := next.(total := e.Blend(e.total, b.total));
      } else if !e.valid || b.total > e.total {
        next := next.(total := b.total);
      }
      batchEstimates[b.count] := next.(valid := true);
      hasEstimate := true;
    }

    method ObserveBlockingCompletion(count: nat, ms: real)
      requires Shaped()
      modifies this, batchEstimates
      ensures State() == old(State()).Step(BlockingCompletion(count, ms))
    {
      if count == 0 || count >= TRACKED || ms <= 0.0 {
        return;
      }
      var e := batchEstimates[count];
      var total := if !e.valid || ms >= e.total then ms else e.total + RECOVERY_ALPHA * (ms - e.total);
      batchEstimates[count] := e.(blocking := true, total := total, valid := true);
      hasEstimate := true;
    }

    method ObserveSourceOnlyRecovery()
      requires Shaped()
      modifies this, batchEstimates
      ensures State() == old(State()).Step(SourceOnlyRecovery)
    {
      for k := 0 to TRACKED
        invariant hasEstimate == old(hasEstimate) && deliveryReserve == old(deliveryReserve)
        invariant forall j :: 0 <= j < k ==> batchEstimates[j] == old(batchEstimates[..])[j].Relaxed()
        invariant forall j :: k <= j < TRACKED ==> batchEstimates[j] == old(batchEstimates[..])[j]
      {
        var e := batchEstimates[k];
        if e.valid && e.blocking && e.gpu > 0.0 && e.total > e.gpu {
          var total := e.total + RECOVERY_ALPHA * (e.gpu - e.total);
          batchEstimates[k] := e.(total := Most(total, e.gpu));
        }
      }
    }

    method ObserveDeliveryMiss(lateness: real)
      requires Shaped()
      modifies this
      ensures State() == old(State()).Step(DeliveryMiss(lateness))
    {
      if lateness < 0.0 {
        return;
      }
      var sample := Least(Most(lateness, RESERVE_FLOOR), RESERVE_MAX);
      deliveryReserve :=
        if deliveryReserve > 0.0 then deliveryReserve + RESERVE_ALPHA * (sample - deliveryReserve) else sample;
    }

    method ObserveDeliverySuccess()
      requires Shaped()
      modifies this
      ensures State() == old(State()).Step(DeliverySuccess)
    {
      deliveryReserve := deliveryReserve * RESERVE_DECAY;
      if deliveryReserve < RESERVE_CUTOFF {
        deliveryReserve := 0.0;
      }
    }

    /** The measured count nearest to one that was not measured. */
    method FindNearest(count: nat) returns (at: nat)
      requires Shaped() && 0 < count < TRACKED
      ensures at == State().Nearest(count)
    {
      if batchEstimates[count].valid {
        return count;
      }
      at := 0;
      var distance := 1;
      while distance < TRACKED && at == 0
        invariant 1 <= distance <= TRACKED
        invariant State().NearestFrom(count, 1) == if at != 0 then at else State().NearestFrom(count, distance)
      {
        if count > distance && batchEstimates[count - distance].valid {
          at := count - distance;
          break;
        }
        var higher := count + distance;
        if higher < TRACKED && batchEstimates[higher].valid {
          at := higher;
        }
        distance := distance + 1;
      }
    }

    method Predict(count: nat, budget: real) returns (d: Decision)
      requires Shaped()
      ensures d == State().Predict(count, budget)
    {
      d := Decision(0.0, 0.0, 0.0, 0.0, budget, deliveryReserve, Most(0.0, budget - deliveryReserve), false, false);
      if !hasEstimate || count == 0 || count >= TRACKED || !(budget > 0.0) {
        return;
      }
      var at := FindNearest(count);
      if at == 0 {
        return;
      }
      var e := batchEstimates[at];
      var relative := count as real / at as real;
      var scale := if at == count then 1.0
                   else if count < at then Most(0.70, relative * UNKNOWN_RATIO)
                   else relative * UNKNOWN_RATIO;
      var total := e.total * scale;
      var margin := Most(MARGIN_FLOOR, total * MARGIN_RATIO);
      d := d.(mipmaps := e.mipmaps, opticalFlow := e.opticalFlow, total := total, margin := margin, valid := total > 0.0);
      d := d.(wouldAdmit := d.valid && total + margin <= d.effectiveBudget);
    }

    method SafeGenerationHint(most: nat, interval: real) returns (hint: nat)
      requires Shaped()
      ensures hint == State().SafeGenerationHint(most, interval)
    {
      hide Predictor.Predict;
      if !hasEstimate || most == 0 || !(interval > 0.0) {
        return 0;
      }
      var candidate := most;
      while candidate > 0
        invariant 0 <= candidate <= most
        invariant State().SlotHint(most, interval) == State().SlotHint(candidate, interval)
      {
        var fits := true;
        var slot := 0;
        while slot < candidate && fits
          invariant 0 <= slot <= candidate
          invariant fits <==> forall s :: 0 <= s < slot ==> State().Admits(s + 1, SlotBudget(interval, s, candidate))
        {
          var d := Predict(slot + 1, SlotBudget(interval, slot, candidate));
          if !d.valid || !d.wouldAdmit {
            fits := false;
            assert !State().Admits(slot + 1, SlotBudget(interval, slot, candidate));
          }
          slot := slot + 1;
        }
        if fits {
          return candidate;
        }
        assert !State().SlotsFit(candidate, interval);
        candidate := candidate - 1;
      }
      hint := 0;
    }

    method SafeBatchGenerationHint(most: nat, budget: real) returns (hint: nat)
      requires Shaped()
      ensures hint == State().SafeBatchGenerationHint(most, budget)
    {
      hide Predictor.Predict;
      if !hasEstimate || most == 0 || !(budget > 0.0) {
        return 0;
      }
      var candidate := most;
      while candidate > 0
        invariant 0 <= candidate <= most
        invariant State().BatchHint(most, budget) == State().BatchHint(candidate, budget)
      {
        var d := Predict(candidate, budget);
        if d.valid && d.wouldAdmit {
          return candidate;
        }
        candidate := candidate - 1;
      }
      hint := 0;
    }
  }
}
