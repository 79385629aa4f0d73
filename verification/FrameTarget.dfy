/**
  What the frame scheduler is for: source frames and generated frames together come at the target
  rate. Everything here is said of a source that keeps one interval.
*/
module FrameTarget {
  import opened Numbers
  import opened CadenceWindow
  import opened FrameScheduler

  predicate AllSteady(run: seq<Interval>, interval: real) { forall k :: 0 <= k < |run| ==> run[k].0 == interval }

  /** A working scheduler that has heard nothing but `interval` since its cadence was last dropped. */
  predicate Settled(s: Scheduler, interval: real) {
    && s.Valid() && interval > 0.0 && s.settings.targetFps >= 1 && s.settings.max >= 1
    && InHull(s.cadence, interval, interval)
    && (s.lastTrusted == 0.0 || (s.lastTrusted == interval && s.cadence.hasSmoothed))
  }

  /** Output frames wanted per source frame. */
  function Ratio(s: Scheduler, interval: real): real { s.settings.targetFps as real * interval }

  /** A reset leaves a scheduler with a target so, for every interval. */
  lemma ResetSettles(s: Scheduler, interval: real)
    requires s.Valid() && interval > 0.0 && s.settings.targetFps >= 1 && s.settings.max >= 1
    ensures Settled(s.Reset(), interval) && !s.Reset().density.locked && s.Reset().phase == 0.0
  {
  }

  /** The density asked for is what the target needs besides the source frame, within what is possible. */
  function Demand(s: Scheduler, interval: real): real {
    Clamp(Ratio(s, interval) - 1.0, 0.0, s.settings.max as real)
  }

  lemma SteadyCadence(s: Scheduler, interval: real, preserve: bool)
    requires Settled(s, interval)
    ensures !s.Breaks(interval, preserve) && s.Active(interval)
    ensures var c := s.Ready(interval, preserve).cadence;
            c.Valid() && InHull(c, interval, interval) && c.hasSmoothed && c.smoothed == interval
  {
    hide Cadence.Updated, UpdateCost;
    UpdateStaysInHull(s.cadence, interval, interval, interval);
    UpdateIsHeard(s.cadence, interval);
  }

  lemma WantedIsDemand(u: Scheduler, s: Scheduler, interval: real)
    requires u.settings == s.settings && u.cadence.smoothed == interval
    ensures u.Wanted() == Demand(s, interval)
  {
  }

  lemma SteadyPlan(s: Scheduler, interval: real, preserve: bool)
    requires Settled(s, interval)
    ensures var u := s.Ready(interval, preserve);
            var z := Stabilize(s.density, Demand(s, interval), s.settings.max);
            && z.scheduled >= 0.0 && u.phase >= 0.0 && s.Plan(interval, preserve) == u.Diffuse(z)
            && u.Valid() && u.settings == s.settings && u.phase == s.phase && u.lastTrusted == interval
            && InHull(u.cadence, interval, interval) && u.cadence.hasSmoothed
            && z.density.Valid(s.settings.max) && z.scheduled <= s.settings.max as real
            && (z.density.locked ==> z.scheduled == z.density.value as real)
  {
    hide Stabilize, InHull, Scheduler.Ready, Scheduler.Diffuse, Scheduler.Breaks, Scheduler.Wanted, Demand;
    SteadyCadence(s, interval, preserve);
    ReadyIsValid(s, interval, preserve);
    WantedIsDemand(s.Ready(interval, preserve), s, interval);
    ScheduledInRange(s.density, s.Ready(interval, preserve).Wanted(), s.settings.max);
  }

  lemma UpdateIsHeard(c: Cadence, interval: real)
    requires c.Valid()
    ensures c.Updated(interval).recent.count > 0
  {
  }

  /** What one steady cycle does to phase and density. */
  lemma SteadyCycle(s: Scheduler, interval: real, preserve: bool)
    requires Settled(s, interval)
    ensures var (t, c) := s.Plan(interval, preserve);
            var z := Stabilize(s.density, Demand(s, interval), s.settings.max);
            && Settled(t, interval) && t.settings == s.settings && t.lastTrusted == interval
            && c.planned && !c.broke && t.density == z.density && z.scheduled >= 0.0
            && (z.density.locked ==> c.whole == z.density.value && t.phase == 0.0)
            && (!z.density.locked ==>
                  var from := if z.dropsPhase then 0.0 else s.phase;
                  c.whole == Whole(from, z.scheduled) && t.phase == Rest(from, z.scheduled))
  {
    hide Stabilize, InHull, Demand, Scheduler.Ready, Scheduler.Plan;
    SteadyPlan(s, interval, preserve);
    var u, z := s.Ready(interval, preserve), Stabilize(s.density, Demand(s, interval), s.settings.max);
    DiffuseIsValid(u, z);
  }

  /** The number of frames to which the density is locked, if it is: a whole number within 0.10 of the demand. */
  predicate ClosestTo(demand: real, max: nat, n: nat) { 1 <= n <= max && Abs(demand - n as real) <= 0.10 }

  ghost predicate Fractional(demand: real, max: nat) { forall n: nat :: !ClosestTo(demand, max, n) }

  /** A lock, if one is held, is one this demand leads to. */
  predicate Regular(d: Density, demand: real, max: nat) {
    d.Valid(max) && (d.locked ==> ClosestTo(demand, max, d.value))
  }

  lemma StaysRegular(d: Density, demand: real, max: nat)
    requires Regular(d, demand, max) && 0.0 <= demand <= max as real
    ensures var z := Stabilize(d, demand, max);
            && Regular(z.density, demand, max)
            && (d.locked ==> z.density.locked)
            && (!z.density.locked ==> z.scheduled == demand && !z.dropsPhase)
  {
  }

  /** How far a lock is off the demand: nothing where none is possible. */
  ghost function Off(demand: real, max: nat): (off: real)
    requires demand >= 0.0
    ensures 0.0 <= off <= 0.10
    ensures forall n: nat :: ClosestTo(demand, max, n) ==> off == Abs(demand - n as real)
    ensures Fractional(demand, max) ==> off == 0.0
  {
    OnlyOneIsClose(demand, max);
    var n: nat := Nearest(demand);
    if ClosestTo(demand, max, n) then Abs(demand - n as real) else 0.0
  }

  lemma OnlyOneIsClose(demand: real, max: nat)
    requires demand >= 0.0
    ensures forall n: nat :: ClosestTo(demand, max, n) ==> n == Nearest(demand)
  {
  }

  /** One cycle delivers the demand up to the phase it moves, the rounding, and what a lock is off. */
  lemma CycleDelivers(s: Scheduler, interval: real, preserve: bool)
    requires Settled(s, interval) && 1.0 <= Ratio(s, interval) <= s.settings.max as real + 1.0
    requires Regular(s.density, Ratio(s, interval) - 1.0, s.settings.max)
    ensures var (t, c) := s.Plan(interval, preserve);
            var demand, off := Ratio(s, interval) - 1.0, Off(Ratio(s, interval) - 1.0, s.settings.max);
            && Settled(t, interval) && t.settings == s.settings && Regular(t.density, demand, s.settings.max)
            && (s.density.locked ==> t.density.locked)
            && (t.density.locked ==> t.phase == 0.0)
            && demand - off - (if t.density.locked then s.phase else 0.0) <= c.whole as real + t.phase - s.phase
            && c.whole as real + t.phase - s.phase <= demand + off + SNAP_EPSILON
  {
    hide Stabilize, Scheduler.Plan, Off, InHull;
    var demand, max := Ratio(s, interval) - 1.0, s.settings.max;
    assert Demand(s, interval) == demand;
    SteadyCycle(s, interval, preserve);
    StaysRegular(s.density, demand, max);
    DiffusionConserves(s.phase, demand);
    var z := Stabilize(s.density, demand, max);
    if z.density.locked {
      assert Off(demand, max) == Abs(demand - z.density.value as real);
    }
  }

  /** A steady run is on course: lock and phase as they may be, frames and phase as the demand wants. */
  predicate OnCourse(s: Scheduler, t: Scheduler, n: nat, whole: nat, demand: real, off: real) {
    && (s.density.locked ==> t.density.locked) && (t.density.locked ==> t.phase == 0.0)
    && whole as real + t.phase - s.phase <= n as real * (demand + off + SNAP_EPSILON)
    && n as real * (demand - off) - (if t.density.locked && !s.density.locked then 1.0 else 0.0)
       <= whole as real + t.phase - s.phase
  }

  lemma CourseGoesOn(s: Scheduler, t: Scheduler, u: Scheduler, w: nat, n: nat, whole: nat, demand: real, off: real)
    requires OnCourse(t, u, n, whole, demand, off) && 0.0 <= s.phase < 1.0
    requires s.density.locked ==> t.density.locked && s.phase == 0.0
    requires t.density.locked ==> t.phase == 0.0
    requires demand - off - (if t.density.locked then s.phase else 0.0) <= w as real + t.phase - s.phase
    requires w as real + t.phase - s.phase <= demand + off + SNAP_EPSILON
    ensures OnCourse(s, u, n + 1, w + whole, demand, off)
  {
    assert (n + 1) as real * (demand + off + SNAP_EPSILON)
        == n as real * (demand + off + SNAP_EPSILON) + (demand + off + SNAP_EPSILON);
    assert (n + 1) as real * (demand - off) == n as real * (demand - off) + (demand - off);
  }

  /** Over a steady run, frames and phase together follow the demand. */
  lemma {:induction false} RunDelivers(s: Scheduler, run: seq<Interval>, interval: real)
    requires Settled(s, interval) && AllSteady(run, interval)
    requires 1.0 <= Ratio(s, interval) <= s.settings.max as real + 1.0
    requires Regular(s.density, Ratio(s, interval) - 1.0, s.settings.max)
    ensures s.Valid() && After(s, run).phase >= 0.0
    ensures OnCourse(s, After(s, run), |run|, TotalWhole(Cycles(s, run)), Ratio(s, interval) - 1.0,
                     Off(Ratio(s, interval) - 1.0, s.settings.max))
    decreases |run|
  {
    hide Scheduler.Plan, Off, Settled, Regular, OnCourse, Scheduler.Valid, Ratio;
    SettledIsValid(s, interval);
    var demand := Ratio(s, interval) - 1.0;
    if run == [] {
      CourseStarts(s, demand, Off(demand, s.settings.max));
    } else {
      PlanIsValid(s, run[0].0, run[0].1);
      CycleDelivers(s, interval, run[0].1);
      var (t, c) := s.Plan(run[0].0, run[0].1);
      SameRatio(s, t, interval);
      RunDelivers(t, run[1..], interval);
      FirstCycle(s, run);
      CourseGoesOn(s, t, After(t, run[1..]), c.whole, |run| - 1, TotalWhole(Cycles(t, run[1..])), demand,
                   Off(demand, s.settings.max));
    }
  }

  lemma CourseStarts(s: Scheduler, demand: real, off: real)
    requires s.density.locked ==> s.phase == 0.0
    ensures OnCourse(s, s, 0, 0, demand, off)
  {
  }

  lemma SameRatio(s: Scheduler, t: Scheduler, interval: real)
    requires s.settings == t.settings
    ensures Ratio(s, interval) == Ratio(t, interval)
  {
  }

  lemma FirstCycle(s: Scheduler, run: seq<Interval>)
    requires s.Valid() && run != []
    ensures var (t, c) := s.Plan(run[0].0, run[0].1);
            && t.Valid() && After(s, run) == After(t, run[1..])
            && Cycles(s, run) == [c] + Cycles(t, run[1..])
            && TotalWhole(Cycles(s, run)) == c.whole + TotalWhole(Cycles(t, run[1..]))
  {
    hide Scheduler.Plan;
    PlanIsValid(s, run[0].0, run[0].1);
    var (t, c) := s.Plan(run[0].0, run[0].1);
    assert Cycles(s, run)[1..] == Cycles(t, run[1..]);
  }

  lemma SettledIsValid(s: Scheduler, interval: real)
    requires Settled(s, interval)
    ensures s.Valid() && 0.0 <= s.phase < PHASE_MAX && (s.density.locked ==> s.phase == 0.0)
  {
  }

  // ---- The target ----

  /**
    Over a steady run the source frames and the frames due come at the target rate, up to one frame
    and, for each cycle, the rounding and what a lock within 0.10 of the demand is off.
  */
  lemma TargetIsMet(s: Scheduler, run: seq<Interval>, interval: real)
    requires Settled(s, interval) && AllSteady(run, interval) && !s.density.locked
    requires 1.0 <= Ratio(s, interval) <= s.settings.max as real + 1.0
    ensures s.Valid()
    ensures var n, frames := |run| as real, (|run| + TotalWhole(Cycles(s, run))) as real;
            var off := Off(Ratio(s, interval) - 1.0, s.settings.max);
            Abs(frames - n * Ratio(s, interval)) <= 1.0 + n * (off + SNAP_EPSILON)
  {
    hide Off, Settled, Scheduler.Valid, TotalWhole, Cycles, After, Ratio, Regular, OnCourse;
    UnlockedIsRegular(s, interval);
    RunDelivers(s, run, interval);
    SettledIsValid(s, interval);
    PhaseIsSmall(s, run);
    CourseIsClose(s, After(s, run), |run|, TotalWhole(Cycles(s, run)), Ratio(s, interval),
                  Off(Ratio(s, interval) - 1.0, s.settings.max));
  }

  lemma UnlockedIsRegular(s: Scheduler, interval: real)
    requires Settled(s, interval) && !s.density.locked
    ensures Regular(s.density, Ratio(s, interval) - 1.0, s.settings.max)
  {
  }

  lemma CourseIsClose(s: Scheduler, t: Scheduler, n: nat, whole: nat, ratio: real, off: real)
    requires OnCourse(s, t, n, whole, ratio - 1.0, off) && 0.0 <= s.phase < 1.0 && 0.0 <= t.phase < 1.0
    requires !s.density.locked
    ensures Abs((n + whole) as real - n as real * ratio) <= 1.0 + n as real * (off + SNAP_EPSILON)
  {
    var m := n as real;
    assert m * (ratio - 1.0 + off + SNAP_EPSILON) == m * ratio - m + m * (off + SNAP_EPSILON);
    assert m * (ratio - 1.0 - off) == m * ratio - m - m * off;
    assert m * (off + SNAP_EPSILON) == m * off + m * SNAP_EPSILON;
  }

  lemma PhaseIsSmall(s: Scheduler, run: seq<Interval>)
    requires s.Valid()
    ensures 0.0 <= After(s, run).phase < 1.0
    ensures After(s, run).density.locked ==> After(s, run).phase == 0.0
  {
    hide Scheduler.Plan;
    assert After(s, run).Valid();
  }

  /** Every cycle of a run has the whole count `n`. */
  predicate AllWhole(cycles: seq<Cycle>, n: nat) { forall k :: 0 <= k < |cycles| ==> cycles[k].whole == n }

  lemma NoCycles(n: nat)
    ensures AllWhole([], n)
  {
  }

  lemma OneWholeMore(c: Cycle, rest: seq<Cycle>, n: nat)
    requires c.whole == n && AllWhole(rest, n)
    ensures AllWhole([c] + rest, n)
  {
  }

  /** A source at or above the target gets no generated frames. */
  lemma {:induction false} NoneAboveTarget(s: Scheduler, run: seq<Interval>, interval: real)
    requires Settled(s, interval) && AllSteady(run, interval) && !s.density.locked
    requires Ratio(s, interval) <= 1.0
    ensures s.Valid() && AllWhole(Cycles(s, run), 0)
    decreases |run|
  {
    hide Scheduler.Plan, Settled, Scheduler.Valid, Ratio, AllWhole;
    SettledIsValid(s, interval);
    if run == [] {
      NoCycles(0);
    } else {
      FirstCycle(s, run);
      NoDemand(s, interval, run[0].1);
      var (t, c) := s.Plan(run[0].0, run[0].1);
      SameRatio(s, t, interval);
      NoneAboveTarget(t, run[1..], interval);
      OneWholeMore(c, Cycles(t, run[1..]), 0);
    }
  }

  lemma NoDemand(s: Scheduler, interval: real, preserve: bool)
    requires Settled(s, interval) && !s.density.locked && Ratio(s, interval) <= 1.0
    ensures var (t, c) := s.Plan(interval, preserve);
            Settled(t, interval) && t.settings == s.settings && !t.density.locked && c.whole == 0
  {
    assert Demand(s, interval) == 0.0;
    hide Scheduler.Plan, Settled, Demand, Ratio, Scheduler.Valid;
    SettledIsValid(s, interval);
    SteadyCycle(s, interval, preserve);
  }

  /** A target out of reach gets the maximum in every cycle. */
  lemma {:induction false} MaximumBelowTarget(s: Scheduler, run: seq<Interval>, interval: real)
    requires Settled(s, interval) && AllSteady(run, interval)
    requires s.density.locked ==> s.density.value == s.settings.max
    requires Ratio(s, interval) >= s.settings.max as real + 1.0
    ensures s.Valid() && AllWhole(Cycles(s, run), s.settings.max)
    decreases |run|
  {
    hide Scheduler.Plan, Settled, Scheduler.Valid, Ratio, AllWhole;
    SettledIsValid(s, interval);
    if run == [] {
      NoCycles(s.settings.max);
    } else {
      FirstCycle(s, run);
      FullDemand(s, interval, run[0].1);
      var (t, c) := s.Plan(run[0].0, run[0].1);
      SameRatio(s, t, interval);
      MaximumBelowTarget(t, run[1..], interval);
      OneWholeMore(c, Cycles(t, run[1..]), s.settings.max);
    }
  }

  lemma FullDemand(s: Scheduler, interval: real, preserve: bool)
    requires Settled(s, interval) && Ratio(s, interval) >= s.settings.max as real + 1.0
    requires s.density.locked ==> s.density.value == s.settings.max
    ensures var (t, c) := s.Plan(interval, preserve);
            && Settled(t, interval) && t.settings == s.settings && c.whole == s.settings.max
            && (t.density.locked ==> t.density.value == s.settings.max)
  {
    assert Demand(s, interval) == s.settings.max as real && s.settings.max >= 1;
    hide Scheduler.Plan, Settled, Demand, Ratio, Scheduler.Valid, Stabilize;
    SettledIsValid(s, interval);
    SteadyCycle(s, interval, preserve);
    MaximumStays(s.density, s.settings.max);
    var z := Stabilize(s.density, s.settings.max as real, s.settings.max);
    if !z.density.locked {
      WholeAtMost(s.phase, z.scheduled, s.settings.max);
    }
  }

  lemma MaximumStays(d: Density, max: nat)
    requires max >= 1 && (d.locked ==> d.value == max)
    ensures var z := Stabilize(d, max as real, max);
            && (z.density.locked ==> z.density.value == max)
            && (!z.density.locked ==> !z.dropsPhase && z.scheduled == max as real)
  {
  }

  // ---- The ceiling ----

  /** Under the generation-first policy the ceiling never cuts. */
  lemma GenerationFirstGrantsAll(s: Scheduler, interval: real, preserve: bool)
    requires s.Valid() && s.settings.generationFirst
    ensures var (t, c) := s.Plan(interval, preserve); c.granted == c.whole && (c.broke || t.settings == s.settings)
  {
    PlanIsValid(s, interval, preserve);
  }

  /** The ceiling keeps frames from being granted that a steady source is due. */
  predicate Lacks(limit: nat, ratio: real, max: nat) { limit < max && ratio - 1.0 > limit as real + DEMAND_SLACK }

  /** What one steady cycle does to the ceiling. */
  lemma CycleCost(s: Scheduler, interval: real, preserve: bool)
    requires Settled(s, interval) && !s.warmStart
    ensures var t := s.Plan(interval, preserve).0;
            && Settled(t, interval) && t.settings == s.settings && !t.warmStart && t.time == s.time + interval
            && t.cost == UpdateCost(s.cost, Demand(s, interval), s.settings, t.cadence.stableSamples, t.time)
  {
    hide Stabilize, InHull, UpdateCost, Cadence.Updated, Scheduler.Plan, Scheduler.Diffuse;
    SteadyCycle(s, interval, preserve);
    SteadyPlan(s, interval, preserve);
    var u := s.Ready(interval, preserve);
    DiffuseIsValid(u, Stabilize(s.density, Demand(s, interval), s.settings.max));
    ReadyCost(s, interval, preserve);
  }

  lemma SteadyObservation(s: Scheduler, interval: real, preserve: bool)
    requires Settled(s, interval)
    ensures var o := s.Observe(interval, preserve);
            && o.time == s.time + interval && o.settings == s.settings && o.cost == s.cost
            && o.warmStart == s.warmStart && o.cadence.smoothed == interval && o.Wanted() == Demand(s, interval)
  {
    hide Cadence.Updated, InHull, Scheduler.Valid, Demand;
    SettledIsValid(s, interval);
    CadenceHeard(s, interval);
    var o := s.Observe(interval, preserve);
    assert o.cadence.smoothed == interval && o.settings == s.settings;
    assert o.Wanted() == Demand(s, interval) by { DemandIs(o, s, interval); }
  }

  lemma DemandIs(o: Scheduler, s: Scheduler, interval: real)
    requires o.cadence.smoothed == interval && o.settings == s.settings
    ensures o.Wanted() == Demand(s, interval)
  {
  }

  lemma CadenceHeard(s: Scheduler, interval: real)
    requires Settled(s, interval)
    ensures s.cadence.Valid() && s.cadence.Updated(interval).smoothed == interval
    ensures s.lastTrusted > 0.0 ==> s.cadence.smoothed == interval && s.lastTrusted == interval
  {
    hide Cadence.Updated;
    UpdateStaysInHull(s.cadence, interval, interval, interval);
    UpdateIsHeard(s.cadence, interval);
  }

  lemma ReadyCost(s: Scheduler, interval: real, preserve: bool)
    requires Settled(s, interval) && !s.warmStart
    ensures var u := s.Ready(interval, preserve);
            && u.time == s.time + interval && !u.warmStart
            && u.cost == UpdateCost(s.cost, Demand(s, interval), s.settings, u.cadence.stableSamples, u.time)
  {
    hide UpdateCost, Scheduler.Observe, InHull, Demand, WantedFor;
    SteadyObservation(s, interval, preserve);
  }

  /** The ceiling rises by one exactly where it cuts, and demand has lasted or capacity is known to suffice. */
  lemma CeilingRises(c: Cost, ratio: real, s: Settings, stableSamples: nat, time: real)
    requires s.max >= 1 && !s.generationFirst && 1 <= c.limit <= s.max
    ensures var demand := Clamp(ratio - 1.0, 0.0, s.max as real);
            var d := UpdateCost(c, demand, s, stableSamples, time);
            var since := if c.unmetSince < 0.0 then time else c.unmetSince;
            var known := s.hintValid && s.hint > c.limit && c.raiseSamples >= RAISE_SAMPLES - 1 && stableSamples > 0;
            && (d.limit == c.limit + 1 <==> Lacks(c.limit, ratio, s.max) && (known || time - since >= SUSTAINED_DEMAND))
            && (d.limit != c.limit + 1 ==> d.limit == c.limit)
            && (d.unmetSince >= 0.0 ==> d.limit == c.limit && Lacks(c.limit, ratio, s.max) && d.unmetSince == since)
            && (Lacks(d.limit, ratio, s.max) && d.limit == c.limit ==> d.unmetSince == since && time - since < SUSTAINED_DEMAND)
            && (d.limit == c.limit + 1 ==> d.unmetSince < 0.0)
  {
  }

  /** Seconds since demand was first seen above the ceiling, and one interval more. */
  function Pending(s: Scheduler, interval: real): real {
    if s.cost.unmetSince >= 0.0 then s.time - s.cost.unmetSince + interval else 0.0
  }

  /** A run of `n` cycles and `raised` raises ends above the demand, or took little time per raise. */
  predicate Climbing(s: Scheduler, interval: real, n: nat, raised: nat) {
    && (s.cost.unmetSince >= 0.0 ==> 0.0 <= s.time - s.cost.unmetSince < SUSTAINED_DEMAND)
    && (Lacks(s.cost.limit, Ratio(s, interval), s.settings.max) ==>
          n as real * interval <= raised as real * (SUSTAINED_DEMAND + 2.0 * interval) + Pending(s, interval))
  }

  lemma ClimbStep(s: Scheduler, interval: real, preserve: bool, n: nat, raised: nat)
    requires Settled(s, interval) && !s.warmStart && !s.settings.generationFirst && Climbing(s, interval, n, raised)
    ensures var t := s.Plan(interval, preserve).0;
            && Settled(t, interval) && t.settings == s.settings && !t.warmStart
            && s.cost.limit <= t.cost.limit <= s.cost.limit + 1
            && (t.cost.limit > s.cost.limit ==> Lacks(s.cost.limit, Ratio(s, interval), s.settings.max))
            && Climbing(t, interval, n + 1, raised + (t.cost.limit - s.cost.limit))
  {
    hide Scheduler.Plan, InHull, UpdateCost;
    CycleCost(s, interval, preserve);
    var t := s.Plan(interval, preserve).0;
    CeilingRises(s.cost, Ratio(s, interval), s.settings, t.cadence.stableSamples, t.time);
    Unfold(n, raised, interval);
  }

  lemma Unfold(n: nat, raised: nat, interval: real)
    ensures (n + 1) as real * interval == n as real * interval + interval
    ensures (raised + 1) as real * (SUSTAINED_DEMAND + 2.0 * interval)
            == raised as real * (SUSTAINED_DEMAND + 2.0 * interval) + (SUSTAINED_DEMAND + 2.0 * interval)
  {
  }

  /**
    Over a steady run the ceiling never falls, rises only where it would cut what is due, and as
    long as it does has risen once in every 0.600 s and two intervals.
  */
  lemma {:induction false} CeilingMeetsDemand(s: Scheduler, run: seq<Interval>, interval: real, n: nat, raised: nat)
    requires Settled(s, interval) && AllSteady(run, interval) && !s.warmStart && !s.settings.generationFirst
    requires Climbing(s, interval, n, raised)
    ensures s.Valid()
    ensures var (from, to, ratio) := (s.cost.limit, After(s, run).cost.limit, Ratio(s, interval));
            && from <= to && (to > from ==> Lacks(to - 1, ratio, s.settings.max))
            && (Lacks(to, ratio, s.settings.max) ==>
                  (n + |run|) as real * interval
                  <= (raised + (to - from)) as real * (SUSTAINED_DEMAND + 2.0 * interval) + SUSTAINED_DEMAND + interval)
    decreases |run|
  {
    hide Scheduler.Plan, Settled, Scheduler.Valid, Ratio, Climbing, Lacks;
    SettledIsValid(s, interval);
    if run == [] {
      SettledIsPositive(s, interval);
      ClimbEnds(s, interval, n, raised);
    } else {
      FirstCycle(s, run);
      ClimbStep(s, interval, run[0].1, n, raised);
      var t := s.Plan(run[0].0, run[0].1).0;
      SameRatio(s, t, interval);
      var more := t.cost.limit - s.cost.limit;
      CeilingMeetsDemand(t, run[1..], interval, n + 1, raised + more);
      LacksBefore(s.cost.limit, t.cost.limit, After(s, run).cost.limit, Ratio(s, interval), s.settings.max);
      assert n + 1 + |run[1..]| == n + |run|;
      assert raised + more + (After(s, run).cost.limit - t.cost.limit) == raised + (After(s, run).cost.limit - s.cost.limit);
    }
  }

  lemma ClimbEnds(s: Scheduler, interval: real, n: nat, raised: nat)
    requires Climbing(s, interval, n, raised) && interval > 0.0
    ensures Lacks(s.cost.limit, Ratio(s, interval), s.settings.max) ==>
              n as real * interval <= raised as real * (SUSTAINED_DEMAND + 2.0 * interval) + SUSTAINED_DEMAND + interval
  {
  }

  lemma LacksBefore(from: nat, mid: nat, end: nat, ratio: real, max: nat)
    requires from <= mid <= from + 1 && (mid > from ==> Lacks(from, ratio, max))
    requires mid <= end && (end > mid ==> Lacks(end - 1, ratio, max))
    ensures end > from ==> Lacks(end - 1, ratio, max)
  {
  }

  /** In particular from a ceiling that is met, the first cycle on. */
  lemma CeilingClimbs(s: Scheduler, run: seq<Interval>, interval: real)
    requires Settled(s, interval) && AllSteady(run, interval) && !s.warmStart && !s.settings.generationFirst
    requires s.cost.unmetSince < 0.0
    ensures s.Valid()
    ensures var (from, to, ratio) := (s.cost.limit, After(s, run).cost.limit, Ratio(s, interval));
            from <= to
            && (Lacks(to, ratio, s.settings.max) ==>
                  |run| as real * interval <= (to - from + 1) as real * (SUSTAINED_DEMAND + 2.0 * interval))
  {
    hide Settled, Ratio, Lacks, After;
    assert Climbing(s, interval, 0, 0);
    CeilingMeetsDemand(s, run, interval, 0, 0);
    var raised: nat := After(s, run).cost.limit - s.cost.limit;
    SettledIsPositive(s, interval);
    Unfold(0, raised, interval);
  }

  lemma SettledIsPositive(s: Scheduler, interval: real)
    requires Settled(s, interval)
    ensures interval > 0.0
  {
  }

  /** After a change of target the first cycle lifts the ceiling to what is due. */
  lemma WarmStartCovers(s: Scheduler, interval: real, preserve: bool)
    requires Settled(s, interval) && s.warmStart
    ensures var t := s.Plan(interval, preserve).0;
            && !t.warmStart
            && (t.cost.limit >= s.settings.max || t.cost.limit as real >= Ratio(s, interval) - 1.0 - SNAP_EPSILON)
  {
    hide Stabilize, InHull, Scheduler.Plan, Scheduler.Diffuse, Scheduler.Observe, Scheduler.Ready;
    SteadyPlan(s, interval, preserve);
    var u := s.Ready(interval, preserve);
    DiffuseIsValid(u, Stabilize(s.density, Demand(s, interval), s.settings.max));
    WarmReady(s, interval, preserve);
  }

  lemma WarmReady(s: Scheduler, interval: real, preserve: bool)
    requires Settled(s, interval) && s.warmStart
    ensures var u := s.Ready(interval, preserve);
            && !u.warmStart
            && (u.cost.limit >= s.settings.max || u.cost.limit as real >= Ratio(s, interval) - 1.0 - SNAP_EPSILON)
  {
    hide UpdateCost, Scheduler.Observe, InHull, WantedFor;
    SettledIsValid(s, interval);
    SteadyObservation(s, interval, preserve);
    var o := s.Observe(interval, preserve).WarmStarted();
    NeverLowers(o.cost, o.Wanted(), o.settings, o.cadence.stableSamples, o.time);
  }

  lemma NeverLowers(c: Cost, wanted: real, s: Settings, stableSamples: nat, time: real)
    requires s.max >= 1
    ensures var d := UpdateCost(c, wanted, s, stableSamples, time); d.limit >= Min(c.limit, s.max)
  {
  }
}
