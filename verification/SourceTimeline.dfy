/**
  The source timeline: a presentation clock driven by real source arrivals only. It predicts the
  next interval from a clamped, asymmetric and rounded average of the observed ones, in unsigned
  64-bit nanoseconds whose sums saturate.
*/
module SourceTimeline {
  import opened Numbers

  const U64_MAX := 0xFFFF_FFFF_FFFF_FFFF
  const I64_MAX := 0x7FFF_FFFF_FFFF_FFFF

  type U64 = n: int | 0 <= n <= U64_MAX
  type I64 = n: int | -I64_MAX - 1 <= n <= I64_MAX

  const DISCONTINUITY_RATIO := 8
  const MIN_PHASE_CORRECTION := 1_000_000
  const MAX_PHASE_CORRECTION := 8_000_000

  datatype Sample = Sample(
    sourceIndex: U64, interval: U64, previousDesired: U64, desired: U64,
    deadlineError: I64, rebased: bool, valid: bool)

  const INVALID := Sample(0, 0, 0, 0, 0, false, false)

  datatype Observation = Observation(arrival: U64, interval: I64, discontinuity: bool, preserveCadence: bool)

  function AddSaturated(a: U64, b: U64): U64 { if a > U64_MAX - b then U64_MAX else a + b }

  function MulSaturated(a: U64, k: nat): U64
    requires k > 0
  {
    if a > U64_MAX / k then U64_MAX else SmallProduct(a, k); a * k
  }

  lemma SmallProduct(a: nat, k: nat)
    requires k > 0 && a <= U64_MAX / k
    ensures 0 <= a * k <= U64_MAX
  {
    assert a * k <= (U64_MAX / k) * k;
  }

  /** Rounding to the nearest integer, halves away from zero. */
  function Round(x: real): int {
    if x >= 0.0 then (x + 0.5).Floor else -((-x + 0.5).Floor)
  }

  /** The prediction after one more interval: fast to shorten, slow to lengthen. */
  function Predict(predicted: nat, observed: nat): (next: nat)
    requires predicted >= 1 && observed >= 1
    ensures next >= 1
  {
    var p := predicted as real;
    var bounded := Clamp(observed as real, p * 0.5, p * 1.5);
    var alpha := if bounded < p then 0.5 else 0.2;
    Max(1, Round(p + alpha * (bounded - p)))
  }

  function PhaseThreshold(predicted: U64): U64 {
    Min(Max(predicted / 4, MIN_PHASE_CORRECTION), MAX_PHASE_CORRECTION)
  }

  function Distance(a: int, b: int): nat { if a >= b then a - b else b - a }

  /** Arrival minus deadline, clamped to a signed 64-bit value. */
  function DeadlineError(arrival: U64, deadline: U64): I64 {
    if arrival >= deadline then Min(arrival - deadline, I64_MAX)
    else if deadline - arrival > I64_MAX then -I64_MAX - 1
    else arrival - deadline
  }

  datatype Timeline = Timeline(
    initialized: bool, sourceIndex: U64, desired: U64, lastInterval: U64, predicted: U64)
  {
    /** Every prediction fits a signed 64-bit rounding result. */
    predicate Valid() { initialized ==> 1 <= predicted <= I64_MAX && lastInterval >= 1 }

    predicate Breaks(obs: Observation) {
      || obs.discontinuity
      || (initialized && lastInterval > 0 && obs.interval > MulSaturated(lastInterval, DISCONTINUITY_RATIO))
    }

    predicate Ignores(obs: Observation) { obs.arrival == 0 || obs.interval <= 0 }

    /** Whether the interval of an observation enters the prediction. */
    predicate Accepts(obs: Observation) {
      !Ignores(obs) && !Breaks(obs) && !(obs.preserveCadence && initialized)
    }

    function Step(obs: Observation): (r: (Timeline, Sample))
      requires Valid()
      ensures r.0.Valid()
    {
      if Ignores(obs) then (this, INVALID)
      else if Breaks(obs) then (FRESH, INVALID)
      else if obs.preserveCadence && initialized then
        var index: U64 := (sourceIndex + 1) % (U64_MAX + 1);
        var deadline := AddSaturated(obs.arrival, predicted);
        (Timeline(true, index, deadline, predicted, predicted),
         Sample(index, predicted, obs.arrival, deadline, 0, false, true))
      else if !initialized then
        var deadline := AddSaturated(obs.arrival, obs.interval);
        (Timeline(true, 0, deadline, obs.interval, obs.interval),
         Sample(0, obs.interval, obs.arrival, deadline, 0, true, true))
      else
        var index: U64 := (sourceIndex + 1) % (U64_MAX + 1);
        var rebased := Distance(obs.arrival, desired) >= PhaseThreshold(predicted);
        PredictBetween(predicted, obs.interval);
        var next: U64 := Predict(predicted, obs.interval);
        var deadline := AddSaturated(obs.arrival, next);
        (Timeline(true, index, deadline, obs.interval, next),
         Sample(index, next, obs.arrival, deadline, DeadlineError(obs.arrival, desired), rebased, true))
    }
  }

  const FRESH := Timeline(false, 0, 0, 0, 0)

  // ---- The prediction ----

  lemma FloorBounds(x: real, lo: int, hi: int)
    requires lo as real <= x < (hi + 1) as real
    ensures lo <= x.Floor <= hi
  {
  }

  /** A new prediction lies between the old one and the observed interval. */
  lemma PredictBetween(p: nat, o: nat)
    requires p >= 1 && o >= 1
    ensures Min(p, o) <= Predict(p, o) <= Max(p, o)
  {
    var pr, or_ := p as real, o as real;
    var bounded := Clamp(or_, pr * 0.5, pr * 1.5);
    var alpha := if bounded < pr then 0.5 else 0.2;
    var updated := pr + alpha * (bounded - pr);
    FloorBounds(updated + 0.5, Min(p, o), Max(p, o));
  }

  lemma RoundHalf(k: int, x: real)
    requires k >= 1 && x >= 0.0
    ensures Round(x) == k <==> k as real - 0.5 <= x < k as real + 0.5
  {
  }

  /** Within two below or one above, where rounding stops the average. */
  predicate InBand(p: int, o: int) { o - 2 <= p <= o + 1 }

  /** The fixed points of the prediction under a constant interval: the band, and tiny predictions. */
  lemma StaysIffSettled(p: nat, o: nat)
    requires p >= 1 && o >= 1
    ensures Predict(p, o) == p <==> InBand(p, o) || (p <= 4 && p < o)
  {
    var pr, or_ := p as real, o as real;
    var bounded := Clamp(or_, pr * 0.5, pr * 1.5);
    var alpha := if bounded < pr then 0.5 else 0.2;
    assert pr + alpha * (bounded - pr) >= 0.5 * pr;
    RoundHalf(p, pr + alpha * (bounded - pr));
    PredictBetween(p, o);
    if o > p {
      assert bounded == if o as real <= pr * 1.5 then or_ else pr * 1.5;
    } else {
      assert bounded == if or_ >= pr * 0.5 then or_ else pr * 0.5;
    }
  }

  /** Outside the fixed points each step comes strictly closer and never overshoots. */
  lemma ComesCloser(p: nat, o: nat)
    requires p >= 1 && o >= 1 && !InBand(p, o) && (p >= 5 || p > o)
    ensures Distance(Predict(p, o), o) < Distance(p, o)
    ensures if p < o then p < Predict(p, o) <= o else o <= Predict(p, o) < p
  {
    PredictBetween(p, o);
    StaysIffSettled(p, o);
  }

  function Iterate(p: nat, o: nat, n: nat): (q: nat)
    requires p >= 1 && o >= 1
    ensures q >= 1
    decreases n
  {
    if n == 0 then p else Iterate(Predict(p, o), o, n - 1)
  }

  lemma {:induction false} BandHolds(p: nat, o: nat, n: nat)
    requires p >= 1 && o >= 1 && Predict(p, o) == p
    ensures Iterate(p, o, n) == p
    decreases n
  {
    if n > 0 {
      BandHolds(p, o, n - 1);
    }
  }

  lemma {:induction false} Converges(p: nat, o: nat, n: nat)
    requires p >= 1 && o >= 1 && (p >= 5 || p >= o - 2) && n >= Distance(p, o)
    ensures InBand(Iterate(p, o, n), o)
    decreases n
  {
    if InBand(p, o) {
      StaysIffSettled(p, o);
      BandHolds(p, o, n);
    } else {
      ComesCloser(p, o);
      Converges(Predict(p, o), o, n - 1);
    }
  }

  /**
    Under a constant interval the prediction reaches the band and stays in it, after at most as many
    steps as nanoseconds of error, exactly when it is not stuck at 4 ns or less.
  */
  lemma ConvergesIff(p: nat, o: nat)
    requires p >= 1 && o >= 1
    ensures (forall n: nat :: n >= Distance(p, o) ==> InBand(Iterate(p, o, n), o)) <==> p >= 5 || p >= o - 2
  {
    if p >= 5 || p >= o - 2 {
      forall n: nat | n >= Distance(p, o)
        ensures InBand(Iterate(p, o, n), o)
      {
        Converges(p, o, n);
      }
    } else {
      StaysIffSettled(p, o);
      BandHolds(p, o, Distance(p, o));
    }
  }

  // ---- Runs ----

  function After(t: Timeline, run: seq<Observation>): (after: Timeline)
    requires t.Valid()
    ensures after.Valid()
    decreases |run|
  {
    if run == [] then t else After(t.Step(run[0]).0, run[1..])
  }

  /** The intervals accepted since the timeline last started over. */
  function Heard(t: Timeline, heard: seq<int>, run: seq<Observation>): seq<int>
    requires t.Valid()
    decreases |run|
  {
    if run == [] then heard
    else
      Heard(t.Step(run[0]).0,
            if t.Ignores(run[0]) then heard
            else if t.Breaks(run[0]) then []
            else if t.Accepts(run[0]) then heard + [run[0].interval]
            else heard,
            run[1..])
  }

  ghost predicate Within(heard: seq<int>, p: int) {
    exists i, j :: 0 <= i < |heard| && 0 <= j < |heard| && heard[i] <= p <= heard[j]
  }

  ghost predicate TracksHeard(t: Timeline, heard: seq<int>) { t.initialized ==> Within(heard, t.predicted) }

  lemma StepStaysWithin(t: Timeline, heard: seq<int>, obs: Observation)
    requires t.Valid() && TracksHeard(t, heard) && t.Accepts(obs) && t.initialized
    ensures Within(heard + [obs.interval], t.Step(obs).0.predicted)
  {
    var i, j :| 0 <= i < |heard| && 0 <= j < |heard| && heard[i] <= t.predicted <= heard[j];
    var more := heard + [obs.interval];
    PredictBetween(t.predicted, obs.interval);
    var lo := if heard[i] <= obs.interval then i else |heard|;
    var hi := if heard[j] >= obs.interval then j else |heard|;
    assert more[lo] <= t.Step(obs).0.predicted <= more[hi];
  }

  lemma StartsWithin(heard: seq<int>, interval: int)
    ensures Within(heard + [interval], interval)
  {
    var more := heard + [interval];
    assert more[|heard|] <= interval <= more[|heard|];
  }

  /** The prediction never leaves the hull of the intervals accepted since the last restart. */
  lemma {:induction false} PredictionStaysInHull(t: Timeline, heard: seq<int>, run: seq<Observation>)
    requires t.Valid() && TracksHeard(t, heard)
    ensures TracksHeard(After(t, run), Heard(t, heard, run))
    decreases |run|
  {
    hide Within, Predict, AddSaturated, PhaseThreshold, DeadlineError;
    if run != [] {
      var obs := run[0];
      if t.Accepts(obs) {
        if t.initialized {
          StepStaysWithin(t, heard, obs);
        } else {
          StartsWithin(heard, obs.interval);
        }
      }
      var next := if t.Ignores(obs) then heard
                  else if t.Breaks(obs) then []
                  else if t.Accepts(obs) then heard + [obs.interval]
                  else heard;
      PredictionStaysInHull(t.Step(obs).0, next, run[1..]);
    }
  }

  /** An undisturbed observation of a fixed interval. */
  predicate Steady(obs: Observation, interval: nat) {
    obs.arrival > 0 && obs.interval == interval && !obs.discontinuity && !obs.preserveCadence
  }

  /** Whatever the arrival times, a timeline fed one interval follows the iterated prediction. */
  lemma {:induction false} SteadyRun(t: Timeline, run: seq<Observation>, interval: nat)
    requires t.Valid() && t.initialized && interval >= 1
    requires interval <= MulSaturated(t.lastInterval, DISCONTINUITY_RATIO)
    requires forall k :: 0 <= k < |run| ==> Steady(run[k], interval)
    ensures After(t, run).predicted == Iterate(t.predicted, interval, |run|)
    decreases |run|
  {
    hide AddSaturated, PhaseThreshold, DeadlineError;
    if run != [] {
      assert Steady(run[0], interval);
      SteadyRun(t.Step(run[0]).0, run[1..], interval);
    }
  }

  /** Whether an interval looks like a break to this timeline. */
  predicate LooksBroken(t: Timeline, interval: nat) {
    t.initialized && interval > MulSaturated(t.lastInterval, DISCONTINUITY_RATIO)
  }

  predicate AllSteady(run: seq<Observation>, interval: nat) {
    forall k :: 0 <= k < |run| ==> Steady(run[k], interval)
  }

  /** An initialised timeline that goes on follows the iterated prediction into the band. */
  lemma TimelineConverges(t: Timeline, run: seq<Observation>, interval: nat)
    requires t.Valid() && t.initialized && interval >= 1 && (t.predicted >= 5 || t.predicted >= interval - 2)
    requires !LooksBroken(t, interval) && AllSteady(run, interval) && |run| >= Distance(t.predicted, interval)
    ensures InBand(After(t, run).predicted, interval)
  {
    SteadyRun(t, run, interval);
    Converges(t.predicted, interval, |run|);
  }

  /** One that starts over takes the interval itself as its prediction. */
  lemma StartsOver(t: Timeline, run: seq<Observation>, interval: nat)
    requires t.Valid() && interval >= 1 && AllSteady(run, interval)
    requires if t.initialized then LooksBroken(t, interval) && |run| >= 2 else |run| >= 1
    ensures InBand(After(t, run).predicted, interval)
  {
    hide AddSaturated, PhaseThreshold, DeadlineError, Predict;
    assert Steady(run[0], interval);
    var u := t.Step(run[0]).0;
    if t.initialized {
      assert Steady(run[1], interval);
      assert run[1..][0] == run[1] && run[1..][1..] == run[2..];
      TimelineConverges(u.Step(run[1]).0, run[2..], interval);
    } else {
      TimelineConverges(u, run[1..], interval);
    }
  }

  /** Every run of steady samples that is long enough settles the timeline. */
  ghost predicate Settles(t: Timeline, interval: nat)
    requires t.Valid()
  {
    forall run: seq<Observation> :: AllSteady(run, interval) && |run| >= Distance(t.predicted, interval) + 2 ==>
                                      InBand(After(t, run).predicted, interval)
  }

  /**
    Whatever came before, a source that settles on an interval is followed into the band, unless the
    timeline goes on from a prediction of at most 4 ns that is more than 2 ns below the interval.
  */
  lemma SettlesIff(t: Timeline, interval: nat)
    requires t.Valid() && 1 <= interval <= I64_MAX
    ensures Settles(t, interval)
            <==> !t.initialized || LooksBroken(t, interval) || t.predicted >= 5 || t.predicted >= interval - 2
  {
    hide AddSaturated, PhaseThreshold, DeadlineError, Predict, MulSaturated;
    if !t.initialized || LooksBroken(t, interval) {
      forall run: seq<Observation> | AllSteady(run, interval) && |run| >= Distance(t.predicted, interval) + 2
        ensures InBand(After(t, run).predicted, interval)
      {
        StartsOver(t, run, interval);
      }
    } else if t.predicted >= 5 || t.predicted >= interval - 2 {
      forall run: seq<Observation> | AllSteady(run, interval) && |run| >= Distance(t.predicted, interval) + 2
        ensures InBand(After(t, run).predicted, interval)
      {
        TimelineConverges(t, run, interval);
      }
    } else {
      var n := Distance(t.predicted, interval) + 2;
      var run := seq(n, _ => Observation(1, interval, false, false));
      assert AllSteady(run, interval);
      SteadyRun(t, run, interval);
      StaysIffSettled(t.predicted, interval);
      BandHolds(t.predicted, interval, n);
    }
  }

  // ---- Deadlines ----

  /** A deadline never precedes its arrival, and follows it by the interval unless time runs out. */
  lemma DeadlineFollowsArrival(t: Timeline, obs: Observation)
    requires t.Valid() && t.Step(obs).1.valid
    ensures var s := t.Step(obs).1;
            && s.previousDesired == obs.arrival > 0 && s.interval >= 1
            && s.desired == Min(obs.arrival + s.interval, U64_MAX) == t.Step(obs).0.desired
            && (s.desired > s.previousDesired <==> obs.arrival < U64_MAX)
  {
    if !t.initialized {
    } else if !obs.preserveCadence {
      PredictBetween(t.predicted, obs.interval);
    }
  }

  /** How late an arrival is after a deadline, in nanoseconds. */
  function Lateness(arrival: nat, deadline: nat): int { arrival - deadline }

  /** What counts as a missed phase: a quarter of the interval, but at least one and at most eight milliseconds. */
  function Tolerance(interval: nat): nat {
    if interval < 4_000_000 then 1_000_000 else if interval < 32_000_000 then interval / 4 else 8_000_000
  }

  /**
    What a sample reports on the one before it. If the source goes on, the error is how late its
    arrival was after the deadline announced before, within the signed range, and the sample is
    rebased exactly when that is more than a phase apart. A held sample reports neither; the first
    one is rebased.
  */
  lemma ReportsLateness(t: Timeline, a: Observation, b: Observation)
    requires t.Valid() && t.Step(a).1.valid && t.Step(a).0.Step(b).1.valid
    ensures var (before, after) := (t.Step(a).1, t.Step(a).0.Step(b).1);
            var late := Lateness(b.arrival, before.desired);
            if b.preserveCadence then after.deadlineError == 0 && !after.rebased
            else
              && (-I64_MAX <= late <= I64_MAX ==> after.deadlineError == late)
              && (late > I64_MAX ==> after.deadlineError == I64_MAX)
              && (late < -I64_MAX ==> after.deadlineError == -I64_MAX - 1)
              && (after.rebased <==> late >= Tolerance(before.interval) || -late >= Tolerance(before.interval))
  {
    hide Predict, MulSaturated, AddSaturated;
  }

  lemma FirstIsRebased(t: Timeline, a: Observation)
    requires t.Valid() && t.Step(a).1.valid && !t.initialized
    ensures t.Step(a).1.rebased && t.Step(a).1.deadlineError == 0
  {
    hide MulSaturated, AddSaturated;
  }

  /** Observation `k` of a source that arrives on time, `interval` apart from `start` on. */
  predicate OnTime(run: seq<Observation>, start: nat, interval: nat) {
    forall k :: 0 <= k < |run| ==> Steady(run[k], interval) && run[k].arrival == start + (k + 1) * interval
  }

  /** The timeline is settled on the interval and waits for the frame after `arrival`. */
  predicate Awaits(t: Timeline, arrival: nat, interval: nat) {
    && t.Valid() && t.initialized && interval >= 1 && InBand(t.predicted, interval) && t.lastInterval >= 1
    && t.desired == arrival + t.predicted && interval <= MulSaturated(t.lastInterval, DISCONTINUITY_RATIO)
  }

  lemma ArrivesOnTime(t: Timeline, arrival: nat, interval: nat, obs: Observation)
    requires Awaits(t, arrival, interval) && Steady(obs, interval) && obs.arrival == arrival + interval
    requires arrival + 2 * interval + 1 <= U64_MAX
    ensures t.Step(obs).1.valid && -1 <= t.Step(obs).1.deadlineError <= 2 && !t.Step(obs).1.rebased
    ensures Awaits(t.Step(obs).0, obs.arrival, interval)
  {
    PredictBetween(t.predicted, interval);
  }

  /**
    A settled timeline keeps time: under a source that arrives on time every deadline is met within
    two nanoseconds, and none is rebased, for as long as the clock lasts.
  */
  lemma {:induction false} SettledKeepsTime(t: Timeline, run: seq<Observation>, arrival: nat, interval: nat, k: nat)
    requires Awaits(t, arrival, interval) && OnTime(run, arrival, interval) && k < |run|
    requires arrival + (|run| + 2) * interval <= U64_MAX
    ensures After(t, run[..k]).Valid()
    ensures var s := After(t, run[..k]).Step(run[k]).1;
            s.valid && -1 <= s.deadlineError <= 2 && !s.rebased
    decreases k
  {
    hide Timeline.Step, Predict, MulSaturated;
    assert Steady(run[0], interval) && run[0].arrival == arrival + (0 + 1) * interval;
    EnoughTime(arrival, interval, |run|);
    ArrivesOnTime(t, arrival, interval, run[0]);
    if k == 0 {
      assert run[..0] == [];
    } else {
      var rest := run[1..];
      forall j | 0 <= j < |rest|
        ensures Steady(rest[j], interval) && rest[j].arrival == run[0].arrival + (j + 1) * interval
      {
        assert rest[j] == run[j + 1];
        NextArrival(arrival, interval, j);
      }
      NextArrival(arrival, interval, |run|);
      SettledKeepsTime(t.Step(run[0]).0, rest, run[0].arrival, interval, k - 1);
      assert run[..k][1..] == rest[..k - 1] && run[..k][0] == run[0];
    }
  }

  lemma NextArrival(arrival: nat, interval: nat, j: nat)
    ensures arrival + (j + 2) * interval == arrival + interval + (j + 1) * interval
  {
  }

  lemma EnoughTime(arrival: nat, interval: nat, n: nat)
    requires n >= 1 && interval >= 1 && arrival + (n + 2) * interval <= U64_MAX
    ensures arrival + 2 * interval + 1 <= U64_MAX
  {
    assert (n + 2) * interval == n * interval + 2 * interval;
    assert n * interval >= interval;
  }

  /** The time an interpolated frame belongs at; 0 when there is none. */
  function SyntheticDesired(sample: Sample, fraction: real): (time: U64)
    ensures time > 0 && sample.previousDesired > 0 ==> sample.previousDesired <= time < sample.desired
  {
    if !sample.valid || !(fraction > 0.0) || !(fraction < 1.0) || sample.desired <= sample.previousDesired then 0
    else
      OffsetInside(sample.desired - sample.previousDesired, fraction);
      sample.previousDesired + Offset(sample.desired - sample.previousDesired, fraction)
  }

  /** The whole nanoseconds of a fraction of a span. */
  function Offset(span: nat, fraction: real): int { (span as real * fraction).Floor }

  lemma OffsetInside(span: nat, fraction: real)
    requires span > 0 && 0.0 < fraction < 1.0
    ensures 0 <= Offset(span, fraction) < span
  {
    var s := span as real;
    assert s * fraction >= 0.0;
    assert s * (1.0 - fraction) > 0.0;
    assert s * fraction < s;
  }

  lemma OffsetMonotone(span: nat, one: real, other: real)
    requires one <= other
    ensures Offset(span, one) <= Offset(span, other)
  {
    var s := span as real;
    assert s * (other - one) >= 0.0;
    assert s * one <= s * other;
  }

  /** Interpolated frames keep their order and stay inside the source interval that owns them. */
  lemma SyntheticKeepsOrder(t: Timeline, obs: Observation, one: real, other: real)
    requires t.Valid() && t.Step(obs).1.valid && obs.arrival < U64_MAX && 0.0 < one <= other < 1.0
    ensures var s := t.Step(obs).1;
            obs.arrival <= SyntheticDesired(s, one) <= SyntheticDesired(s, other) < s.desired
  {
    hide Timeline.Step, Offset;
    DeadlineFollowsArrival(t, obs);
    var s := t.Step(obs).1;
    OffsetInside(s.desired - s.previousDesired, one);
    OffsetInside(s.desired - s.previousDesired, other);
    OffsetMonotone(s.desired - s.previousDesired, one, other);
  }

  // ---- The object ----

  class SourceProtectedTimeline {
    var initialized: bool
    var sourceIndex: U64
    var sourceDesiredTime: U64
    var lastInterval: U64
    var predictedInterval: U64

    function State(): Timeline
      reads this
    {
      Timeline(initialized, sourceIndex, sourceDesiredTime, lastInterval, predictedInterval)
    }

    constructor ()
      ensures State() == FRESH
    {
      initialized, sourceIndex, sourceDesiredTime, lastInterval, predictedInterval := false, 0, 0, 0, 0;
    }

    method Reset()
      modifies this
      ensures State() == FRESH
    {
      initialized, sourceIndex, sourceDesiredTime, lastInterval, predictedInterval := false, 0, 0, 0, 0;
    }

    method Observe(obs: Observation) returns (sample: Sample)
      requires State().Valid()
      modifies this
      ensures (State(), sample) == old(State()).Step(obs)
    {
      sample := INVALID;
      if obs.arrival == 0 || obs.interval <= 0 {
        return;
      }
      var threshold := MulSaturated(lastInterval, DISCONTINUITY_RATIO);
      if obs.discontinuity || (initialized && lastInterval > 0 && obs.interval > threshold) {
        Reset();
        return;
      }
      if obs.preserveCadence && initialized {
        sourceIndex := (sourceIndex + 1) % (U64_MAX + 1);
        var interval := Max(1, predictedInterval);
        sourceDesiredTime := AddSaturated(obs.arrival, interval);
        sample := Sample(sourceIndex, interval, obs.arrival, sourceDesiredTime, 0, false, true);
        lastInterval := interval;
        return;
      }
      var deadlineError, rebased := 0, true;
      if !initialized {
        initialized := true;
        sourceIndex := 0;
        predictedInterval := obs.interval;
      } else {
        sourceIndex := (sourceIndex + 1) % (U64_MAX + 1);
        var absoluteError := Distance(obs.arrival, sourceDesiredTime);
        deadlineError := DeadlineError(obs.arrival, sourceDesiredTime);
        rebased := absoluteError >= PhaseThreshold(predictedInterval);
        PredictBetween(predictedInterval, obs.interval);
        predictedInterval := Predict(predictedInterval, obs.interval);
      }
      sourceDesiredTime := AddSaturated(obs.arrival, predictedInterval);
      lastInterval := obs.interval;
      sample := Sample(sourceIndex, predictedInterval, obs.arrival, sourceDesiredTime, deadlineError, rebased, true);
    }
  }
}
