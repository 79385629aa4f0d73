/**
  How many frames to generate per source frame. The smoothed source cadence gives a density; the
  density is locked to a whole number when it stays close to one, and otherwise spread over source
  frames by error diffusion. What a cost ceiling cuts off is never made up for.
*/
module FrameScheduler {
  import opened Numbers
  import opened CadenceWindow

  const DISCONTINUITY_RATIO := 8.0
  const HOLD_LIMIT := 0.250
  const SUSTAINED_DEMAND := 0.600
  const ACQUIRE_WINDOW := 0.10
  const RELEASE_WINDOW := 0.20
  const ACQUIRE_SAMPLES := 4
  const RELEASE_SAMPLES := 8
  const RAISE_SAMPLES := 4
  const SNAP_EPSILON := 0.000001
  const PHASE_MAX := 0.999999
  const DEMAND_SLACK := 0.001
  const MET := -1.0

  function Abs(x: real): real { if x < 0.0 then -x else x }

  // ---- Integer density ----

  datatype Density = Density(locked: bool, value: nat, candidate: nat, candidateSamples: nat, releaseSamples: nat)
  {
    /** A held lock is a possible number of frames; evidence stays below its thresholds. */
    predicate Valid(max: nat) {
      && (locked ==> 1 <= value <= max && releaseSamples < RELEASE_SAMPLES)
      && (!locked ==> candidateSamples < ACQUIRE_SAMPLES)
    }

    predicate OutOfWindow(desired: real) { Abs(desired - value as real) > RELEASE_WINDOW }
  }

  const UNLOCKED := Density(false, 0, 0, 0, 0)

  /** The density to schedule, the new evidence, and whether the phase is dropped. */
  datatype Stabilized = Stabilized(density: Density, scheduled: real, dropsPhase: bool)

  /** The nearest whole number, halves away from zero, of a density that is not negative. */
  function Nearest(desired: real): int { (desired + 0.5).Floor }

  predicate NearWhole(desired: real, max: nat) {
    1 <= Nearest(desired) <= max && Abs(desired - Nearest(desired) as real) <= ACQUIRE_WINDOW
  }

  /** Evidence for a lock, when none is held. */
  function Acquire(d: Density, desired: real, max: nat, dropped: bool): Stabilized
    requires desired >= 0.0
  {
    if !NearWhole(desired, max) then Stabilized(d.(candidate := 0, candidateSamples := 0), desired, dropped)
    else
      var n: nat := Nearest(desired);
      var samples := if d.candidate == n then d.candidateSamples + 1 else 1;
      if samples >= ACQUIRE_SAMPLES then Stabilized(Density(true, n, 0, 0, 0), n as real, true)
      else Stabilized(d.(candidate := n, candidateSamples := samples), desired, dropped)
  }

  function Stabilize(d: Density, wanted: real, max: nat): Stabilized {
    var desired := Clamp(wanted, 0.0, max as real);
    if d.locked && !d.OutOfWindow(desired) then
      Stabilized(d.(releaseSamples := 0, candidate := 0, candidateSamples := 0), d.value as real, false)
    else if d.locked && d.releaseSamples + 1 < RELEASE_SAMPLES then
      Stabilized(d.(releaseSamples := d.releaseSamples + 1), d.value as real, false)
    else if d.locked then Acquire(UNLOCKED, desired, max, true)
    else Acquire(d, desired, max, false)
  }

  // ---- Error diffusion ----

  /** Whole frames due at a phase and a density. */
  function Whole(phase: real, density: real): int { (phase + density + SNAP_EPSILON).Floor }

  function Rest(phase: real, density: real): real {
    Clamp(phase + density - Whole(phase, density) as real, 0.0, PHASE_MAX)
  }

  /** Nothing is lost and at most the snap is gained; the upper clamp never acts. */
  lemma DiffusionConserves(phase: real, density: real)
    requires phase >= 0.0 && density >= 0.0
    ensures var w := Whole(phase, density);
            && w >= 0 && 0.0 <= Rest(phase, density) < PHASE_MAX
            && phase + density <= w as real + Rest(phase, density) <= phase + density + SNAP_EPSILON
  {
  }

  // ---- Cost ceiling ----

  datatype Settings = Settings(targetFps: nat, max: nat, hint: nat, hintValid: bool, generationFirst: bool)

  datatype Cost = Cost(limit: nat, raiseSamples: nat, unmetSince: real)

  function Ceiling(settings: Settings): nat {
    if settings.max == 0 then 0 else if settings.generationFirst then settings.max else 1
  }

  function Met(limit: nat): Cost { Cost(limit, 0, MET) }

  /** The ceiling rises by one under sustained demand, or sooner where capacity is known to suffice. */
  function UpdateCost(c: Cost, wanted: real, s: Settings, stableSamples: nat, time: real): Cost {
    if s.max == 0 then Met(0)
    else if s.generationFirst then Met(s.max)
    else
      var limit := Min(if c.limit == 0 then 1 else c.limit, s.max);
      if limit >= s.max || wanted <= limit as real + DEMAND_SLACK then Met(limit)
      else
        var since := if c.unmetSince < 0.0 then time else c.unmetSince;
        var samples := if s.hintValid && s.hint >= limit + 1 then c.raiseSamples + 1 else 0;
        if !(samples >= RAISE_SAMPLES && stableSamples > 0) && time - since < SUSTAINED_DEMAND then Cost(limit, samples, since)
        else Met(limit + 1)
  }

  // ---- The scheduler ----

  /** Generated frames per source frame that bring the source rate to the target. */
  function WantedFor(targetFps: nat, max: nat, interval: real): real {
    Clamp(targetFps as real * interval - 1.0, 0.0, max as real)
  }

  /** One cycle as seen from outside: density, whole frames due, frames granted. */
  datatype Cycle = Cycle(planned: bool, wanted: real, scheduled: real, whole: nat, granted: nat, dropsPhase: bool, broke: bool)

  const IDLE := Cycle(false, 0.0, 0.0, 0, 0, false, false)
  const BROKE := Cycle(false, 0.0, 0.0, 0, 0, false, true)

  datatype Scheduler = Scheduler(
    settings: Settings, phase: real, cadence: Cadence, lastTrusted: real, density: Density, cost: Cost,
    established: bool, warmStart: bool, time: real)
  {
    predicate Valid() {
      && cadence.Valid() && density.Valid(settings.max)
      && 0.0 <= phase < PHASE_MAX && (density.locked ==> phase == 0.0)
      && (settings.max >= 1 ==> 1 <= cost.limit <= settings.max)
      && time >= 0.0 && lastTrusted >= 0.0 && cadence.smoothed >= 0.0
      && (cadence.hasSmoothed ==> cadence.smoothed > 0.0)
      && (forall k :: 0 <= k < cadence.recent.count ==> cadence.recent.ring[k] > 0.0)
    }

    /** Everything but the settings, the established cadence and the last trusted interval. */
    function ResetRuntime(): Scheduler {
      this.(settings := settings.(hint := 0, hintValid := false), phase := 0.0, cadence := NO_CADENCE,
            density := UNLOCKED, cost := Met(Ceiling(settings)), warmStart := false, time := 0.0)
    }

    function Reset(): Scheduler { this.(established := false, lastTrusted := 0.0).ResetRuntime() }

    function Configure(targetFps: nat, max: nat): Scheduler {
      if settings.targetFps == targetFps && settings.max == max then this
      else
        this.(settings := settings.(targetFps := targetFps, max := max)).ResetRuntime()
          .(warmStart := established && settings.targetFps != 0 && settings.max != 0 && targetFps != 0 && max != 0)
    }

    function SetHint(hint: nat, valid: bool): Scheduler {
      this.(settings := settings.(hint := if valid then Min(hint, settings.max) else 0, hintValid := valid))
    }

    function SetGenerationFirst(enabled: bool): Scheduler {
      var s := this.(settings := settings.(generationFirst := enabled));
      if enabled then s.(cost := Met(settings.max)) else s
    }

    predicate Holds(interval: real, preserve: bool) { preserve && lastTrusted > 0.0 && interval < HOLD_LIMIT }

    predicate Breaks(interval: real, preserve: bool) {
      !Holds(interval, preserve) && lastTrusted > 0.0 && interval > lastTrusted * DISCONTINUITY_RATIO
    }

    predicate Active(interval: real) { settings.targetFps != 0 && settings.max != 0 && interval > 0.0 }

    /** The cadence after one interval, and the density it asks for. */
    function Observe(interval: real, preserve: bool): Scheduler
      requires cadence.Valid()
      ensures Observe(interval, preserve).cadence.Valid()
    {
      var held := Holds(interval, preserve);
      var c := if held then cadence else cadence.Updated(interval);
      this.(established := true, time := time + (if held then lastTrusted else interval), cadence := c,
            lastTrusted := c.smoothed)
    }

    function Wanted(): real { WantedFor(settings.targetFps, settings.max, cadence.smoothed) }

    /** After a change of target the first usable interval seeds the ceiling. */
    function WarmStarted(): Scheduler {
      if !warmStart then this
      else
        var required := CeilingOf(Wanted() - SNAP_EPSILON);
        var least: nat := if required < 1 then 1 else if required > settings.max then settings.max else required;
        this.(cost := Met(if cost.limit < least then least else cost.limit), warmStart := false)
    }

    /** The frames of one cycle from a density that is decided. */
    function Diffuse(s: Stabilized): (r: (Scheduler, Cycle))
      requires phase >= 0.0 && s.scheduled >= 0.0
    {
      if s.density.locked then
        (this.(density := s.density, phase := 0.0),
         Cycle(true, Wanted(), s.scheduled, s.density.value,
               Min(Min(s.density.value, cost.limit), settings.max), s.dropsPhase, false))
      else
        var from := if s.dropsPhase then 0.0 else phase;
        DiffusionConserves(from, s.scheduled);
        var whole: nat := Whole(from, s.scheduled);
        (this.(density := s.density, phase := Rest(from, s.scheduled)),
         Cycle(true, Wanted(), s.scheduled, whole, Min(Min(whole, cost.limit), settings.max), s.dropsPhase, false))
    }

    /** Cadence, ceiling and time after one usable interval; phase and density are not touched yet. */
    function Ready(interval: real, preserve: bool): (t: Scheduler)
      requires cadence.Valid()
      ensures t.cadence.Valid()
    {
      var s := Observe(interval, preserve).WarmStarted();
      s.(cost := UpdateCost(s.cost, s.Wanted(), s.settings, s.cadence.stableSamples, s.time))
    }

    function Plan(interval: real, preserve: bool): (r: (Scheduler, Cycle))
      requires Valid()
    {
      if !Active(interval) then (this, IDLE)
      else if Breaks(interval, preserve) then
        (ResetRuntime().(lastTrusted := 0.0, warmStart := warmStart), BROKE)
      else
        var t := Ready(interval, preserve);
        ScheduledInRange(density, t.Wanted(), settings.max);
        t.Diffuse(Stabilize(density, t.Wanted(), settings.max))
    }
  }

  /** The least integer not below x. */
  function CeilingOf(x: real): int { -((-x).Floor) }

  function Fresh(targetFps: nat, max: nat): Scheduler {
    Scheduler(Settings(targetFps, max, 0, false, false), 0.0, NO_CADENCE, 0.0, UNLOCKED,
              Met(if max == 0 then 0 else 1), false, false, 0.0)
  }

  /** A stabilised density is at least 0 and at most the maximum, and locks are whole. */
  lemma ScheduledInRange(d: Density, wanted: real, max: nat)
    requires d.Valid(max)
    ensures var s := Stabilize(d, wanted, max);
            && 0.0 <= s.scheduled <= max as real && s.density.Valid(max)
            && (s.density.locked ==> s.scheduled == s.density.value as real)
  {
  }

  // ---- The invariant ----

  lemma ObserveIsValid(s: Scheduler, interval: real, preserve: bool)
    requires s.Valid() && interval > 0.0
    ensures s.Observe(interval, preserve).Valid()
    ensures var c := s.Observe(interval, preserve).cadence;
            s.lastTrusted >= 0.0 && (c.smoothed > 0.0 || c == s.cadence)
  {
    hide RobustInterval, Recent.Stable, Smooth;
    if !s.Holds(interval, preserve) {
      var r := s.cadence.recent.Push(interval);
      RobustIsPositive(r.Held());
      if s.cadence.hasSmoothed {
        SmoothIsGentle(s.cadence.smoothed, RobustInterval(r.Held()));
      }
    }
  }

  lemma CostIsBounded(c: Cost, wanted: real, s: Settings, stableSamples: nat, time: real)
    requires s.max >= 1
    ensures 1 <= UpdateCost(c, wanted, s, stableSamples, time).limit <= s.max
  {
  }

  lemma ReadyIsValid(s: Scheduler, interval: real, preserve: bool)
    requires s.Valid() && s.Active(interval)
    ensures var t := s.Ready(interval, preserve);
            && t.Valid() && t.phase == s.phase && t.density == s.density && t.settings == s.settings
            && t.lastTrusted == t.cadence.smoothed
  {
    hide UpdateCost, Recent.Stable, RobustInterval, Smooth, Scheduler.Observe;
    ObserveIsValid(s, interval, preserve);
    ObserveKeeps(s, interval, preserve);
    var u := s.Observe(interval, preserve).WarmStarted();
    CostIsBounded(u.cost, u.Wanted(), u.settings, u.cadence.stableSamples, u.time);
  }

  lemma DiffuseIsValid(t: Scheduler, z: Stabilized)
    requires t.Valid() && t.settings.max >= 1 && z.density.Valid(t.settings.max)
    requires 0.0 <= z.scheduled <= t.settings.max as real
    requires z.density.locked ==> z.scheduled == z.density.value as real
    ensures var (u, c) := t.Diffuse(z);
            && u.Valid() && u.(phase := t.phase, density := t.density) == t && u.density == z.density
            && c.scheduled == z.scheduled && c.whole <= t.settings.max && c.planned && !c.broke
            && c.granted == Min(Min(c.whole, t.cost.limit), t.settings.max)
            && (z.density.locked ==> u.phase == 0.0)
  {
    var from := if z.dropsPhase then 0.0 else t.phase;
    DiffusionConserves(from, z.scheduled);
    WholeAtMost(from, z.scheduled, t.settings.max);
  }

  /**
    One cycle: the state stays valid, locks are possible frame counts held at phase 0, the density
    and the frames due stay within the maximum, and the grant is what ceiling and maximum leave.
  */
  lemma PlanIsValid(s: Scheduler, interval: real, preserve: bool)
    requires s.Valid()
    ensures var (t, c) := s.Plan(interval, preserve);
            && t.Valid()
            && 0.0 <= c.scheduled <= s.settings.max as real && c.whole <= s.settings.max
            && c.granted == Min(Min(c.whole, t.cost.limit), s.settings.max)
            && (c.planned && t.density.locked ==> t.phase == 0.0 && 1 <= t.density.value <= s.settings.max)
            && (c.planned ==> t.lastTrusted == t.cadence.smoothed)
  {
    hide Stabilize, Scheduler.Ready, Scheduler.Diffuse;
    if s.Active(interval) && !s.Breaks(interval, preserve) {
      var t := s.Ready(interval, preserve);
      ReadyIsValid(s, interval, preserve);
      ScheduledInRange(s.density, t.Wanted(), s.settings.max);
      DiffuseIsValid(t, Stabilize(s.density, t.Wanted(), s.settings.max));
    }
  }

  lemma ObserveKeeps(s: Scheduler, interval: real, preserve: bool)
    requires s.cadence.Valid()
    ensures var o := s.Observe(interval, preserve);
            && o.(established := s.established, time := s.time, cadence := s.cadence, lastTrusted := s.lastTrusted) == s
            && o.lastTrusted == o.cadence.smoothed
  {
  }

  lemma WholeAtMost(phase: real, density: real, max: nat)
    requires 0.0 <= phase < PHASE_MAX && 0.0 <= density <= max as real
    ensures Whole(phase, density) <= max
  {
  }

  lemma ControlsAreValid(s: Scheduler, targetFps: nat, max: nat, hint: nat, flag: bool)
    requires s.Valid()
    ensures s.Configure(targetFps, max).Valid() && s.Reset().Valid()
    ensures s.SetHint(hint, flag).Valid() && s.SetGenerationFirst(flag).Valid()
  {
  }

  // ---- Runs ----

  type Interval = (real, bool)

  /** The cycles of a run of intervals. */
  function Cycles(s: Scheduler, run: seq<Interval>): (cycles: seq<Cycle>)
    requires s.Valid()
    ensures |cycles| == |run|
    decreases |run|
  {
    if run == [] then []
    else
      PlanIsValid(s, run[0].0, run[0].1);
      var (t, c) := s.Plan(run[0].0, run[0].1);
      [c] + Cycles(t, run[1..])
  }

  function After(s: Scheduler, run: seq<Interval>): (t: Scheduler)
    requires s.Valid()
    ensures t.Valid()
    decreases |run|
  {
    if run == [] then s
    else
      PlanIsValid(s, run[0].0, run[0].1);
      After(s.Plan(run[0].0, run[0].1).0, run[1..])
  }

  function TotalWhole(cycles: seq<Cycle>): nat {
    if cycles == [] then 0 else cycles[0].whole + TotalWhole(cycles[1..])
  }

  function TotalScheduled(cycles: seq<Cycle>): real {
    if cycles == [] then 0.0 else cycles[0].scheduled + TotalScheduled(cycles[1..])
  }

  lemma DiffuseConserves(t: Scheduler, z: Stabilized)
    requires t.phase >= 0.0 && z.scheduled >= 0.0
    requires z.density.locked ==> z.scheduled == z.density.value as real
    requires z.density.locked && !z.dropsPhase ==> t.phase == 0.0
    ensures var (u, c) := t.Diffuse(z);
            && c.whole as real + u.phase <= t.phase + c.scheduled + SNAP_EPSILON
            && (!c.dropsPhase ==> t.phase + c.scheduled <= c.whole as real + u.phase)
  {
    DiffusionConserves(if z.dropsPhase then 0.0 else t.phase, z.scheduled);
  }

  lemma KeepsLock(d: Density, wanted: real, max: nat)
    ensures var z := Stabilize(d, wanted, max); z.density.locked && !z.dropsPhase ==> d.locked
  {
  }

  /** One cycle neither repays nor, unless it drops the phase, forgets anything. */
  lemma PlanConserves(s: Scheduler, interval: real, preserve: bool)
    requires s.Valid()
    ensures var (t, c) := s.Plan(interval, preserve);
            && (!c.broke ==> c.whole as real + t.phase <= s.phase + c.scheduled + SNAP_EPSILON)
            && (!c.broke && !c.dropsPhase ==> s.phase + c.scheduled <= c.whole as real + t.phase)
  {
    hide Stabilize, Scheduler.Ready, Scheduler.Diffuse;
    if s.Active(interval) && !s.Breaks(interval, preserve) {
      var t := s.Ready(interval, preserve);
      ReadyIsValid(s, interval, preserve);
      ScheduledInRange(s.density, t.Wanted(), s.settings.max);
      KeepsLock(s.density, t.Wanted(), s.settings.max);
      DiffuseConserves(t, Stabilize(s.density, t.Wanted(), s.settings.max));
    }
  }

  /**
    Over any run without a reset the frames due never exceed the density asked for plus the initial
    phase and the rounding, and while no lock changes they are less than one frame behind it.
  */
  lemma {:induction false} DiffusionNeverDrifts(s: Scheduler, run: seq<Interval>)
    requires s.Valid() && forall k :: 0 <= k < |run| ==> !Cycles(s, run)[k].broke
    ensures var cycles := Cycles(s, run);
            && TotalWhole(cycles) as real + After(s, run).phase
               <= TotalScheduled(cycles) + s.phase + |run| as real * SNAP_EPSILON
            && ((forall k :: 0 <= k < |run| ==> !cycles[k].dropsPhase) ==>
                  TotalScheduled(cycles) + s.phase <= TotalWhole(cycles) as real + After(s, run).phase)
    decreases |run|
  {
    hide Scheduler.Plan;
    if run != [] {
      PlanIsValid(s, run[0].0, run[0].1);
      PlanConserves(s, run[0].0, run[0].1);
      var (t, c) := s.Plan(run[0].0, run[0].1);
      var cycles, rest := Cycles(s, run), Cycles(t, run[1..]);
      assert cycles[0] == c && cycles[1..] == rest;
      forall k | 0 <= k < |rest|
        ensures !rest[k].broke && rest[k] == cycles[k + 1]
      {
        assert !cycles[k + 1].broke;
      }
      DiffusionNeverDrifts(t, run[1..]);
      if forall k :: 0 <= k < |run| ==> !cycles[k].dropsPhase {
        assert forall k :: 0 <= k < |rest| ==> !rest[k].dropsPhase by {
          forall k | 0 <= k < |rest|
            ensures !rest[k].dropsPhase
          {
            assert !cycles[k + 1].dropsPhase;
          }
        }
      }
    }
  }

  // ---- Nothing is repaid ----

  /** The schedulers differ at most in ceiling, hints and ceiling policy. */
  predicate SameButCost(s: Scheduler, t: Scheduler) {
    && s == t.(cost := s.cost, settings := s.settings)
    && s.settings.targetFps == t.settings.targetFps && s.settings.max == t.settings.max
  }

  lemma ReadyIgnoresCost(s: Scheduler, t: Scheduler, interval: real, preserve: bool)
    requires s.cadence.Valid() && t.cadence.Valid() && SameButCost(s, t)
    ensures SameButCost(s.Ready(interval, preserve), t.Ready(interval, preserve))
  {
    hide UpdateCost, Cadence.Updated;
    WantedAgrees(s, t);
  }

  lemma DiffuseIgnoresCost(s: Scheduler, t: Scheduler, z: Stabilized)
    requires SameButCost(s, t) && s.phase >= 0.0 && t.phase >= 0.0 && z.scheduled >= 0.0
    ensures SameButCost(s.Diffuse(z).0, t.Diffuse(z).0)
    ensures s.Diffuse(z).1.(granted := 0) == t.Diffuse(z).1.(granted := 0)
  {
    WantedAgrees(s, t);
  }

  lemma WantedAgrees(s: Scheduler, t: Scheduler)
    requires SameButCost(s, t)
    ensures s.Wanted() == t.Wanted() && s.density == t.density && s.phase == t.phase
  {
    assert t.(cost := s.cost, settings := s.settings).cadence == t.cadence;
    assert t.(cost := s.cost, settings := s.settings).density == t.density;
    assert t.(cost := s.cost, settings := s.settings).phase == t.phase;
  }

  /** The ceiling decides only how much is granted now. */
  lemma PlanIgnoresCost(s: Scheduler, t: Scheduler, interval: real, preserve: bool)
    requires s.Valid() && t.Valid() && SameButCost(s, t)
    ensures SameButCost(s.Plan(interval, preserve).0, t.Plan(interval, preserve).0)
    ensures s.Plan(interval, preserve).1.(granted := 0) == t.Plan(interval, preserve).1.(granted := 0)
  {
    hide Stabilize, Scheduler.Ready, Scheduler.Diffuse;
    WantedAgrees(s, t);
    if s.Active(interval) && !s.Breaks(interval, preserve) {
      var u, v := s.Ready(interval, preserve), t.Ready(interval, preserve);
      ReadyIgnoresCost(s, t, interval, preserve);
      ReadyIsValid(s, interval, preserve);
      ReadyIsValid(t, interval, preserve);
      WantedAgrees(u, v);
      ScheduledInRange(s.density, u.Wanted(), s.settings.max);
      DiffuseIgnoresCost(u, v, Stabilize(s.density, u.Wanted(), s.settings.max));
    }
  }

  /**
    Two schedulers that differ in ceiling, hints or ceiling policy go through the same phases and
    frames due over every run: what one of them cuts off it never makes up for.
  */
  lemma {:induction false} CappedIsNeverRepaid(s: Scheduler, t: Scheduler, run: seq<Interval>)
    requires s.Valid() && t.Valid() && SameButCost(s, t)
    ensures SameButCost(After(s, run), After(t, run)) && After(s, run).phase == After(t, run).phase
    ensures forall k :: 0 <= k < |run| ==> Cycles(s, run)[k].whole == Cycles(t, run)[k].whole
    decreases |run|
  {
    hide Scheduler.Plan, SameButCost;
    if run == [] {
      WantedAgrees(s, t);
    } else {
      PlanIsValid(s, run[0].0, run[0].1);
      PlanIsValid(t, run[0].0, run[0].1);
      PlanIgnoresCost(s, t, run[0].0, run[0].1);
      CappedIsNeverRepaid(s.Plan(run[0].0, run[0].1).0, t.Plan(run[0].0, run[0].1).0, run[1..]);
      SameWhole(s.Plan(run[0].0, run[0].1).1, t.Plan(run[0].0, run[0].1).1);
    }
  }

  lemma SameWhole(a: Cycle, b: Cycle)
    requires a.(granted := 0) == b.(granted := 0)
    ensures a.whole == b.whole
  {
    assert a.(granted := 0).whole == a.whole && b.(granted := 0).whole == b.whole;
  }

  // ---- Hysteresis ----

  /** Consecutive calls of the stabiliser. */
  predicate IsRun(ds: seq<Density>, wanted: seq<real>, max: nat) {
    && |ds| == |wanted| + 1
    && (forall k :: 0 <= k < |ds| ==> ds[k].Valid(max))
    && forall k :: 0 <= k < |wanted| ==> ds[k + 1] == Stabilize(ds[k], wanted[k], max).density
  }

  predicate Acquires(ds: seq<Density>, k: nat)
    requires k + 1 < |ds|
  {
    !ds[k].locked && ds[k + 1].locked
  }

  predicate Releases(ds: seq<Density>, k: nat)
    requires k + 1 < |ds|
  {
    ds[k].locked && !ds[k + 1].locked
  }

  /** Evidence is never older than the calls since the last acquisition allow. */
  predicate EvidenceSince(d: Density, calls: int) {
    if d.locked then d.releaseSamples <= calls else d.candidateSamples <= calls - 7
  }

  lemma StepKeepsEvidence(d: Density, wanted: real, max: nat, calls: int)
    requires d.Valid(max) && EvidenceSince(d, calls)
    ensures var e := Stabilize(d, wanted, max).density;
            if !d.locked && e.locked then calls >= 10 else EvidenceSince(e, calls + 1)
  {
  }

  lemma {:induction false} NextAcquisition(ds: seq<Density>, wanted: seq<real>, max: nat, i: nat, k: nat)
    requires IsRun(ds, wanted, max) && i < k < |wanted| + 1 && Acquires(ds, i)
    requires forall m :: i < m < k ==> !Acquires(ds, m)
    ensures EvidenceSince(ds[k], k - (i + 1))
    decreases k
  {
    hide Stabilize;
    if k == i + 1 {
      assert ds[i + 1] == Stabilize(ds[i], wanted[i], max).density;
      FreshLock(ds[i], wanted[i], max);
    } else {
      NextAcquisition(ds, wanted, max, i, k - 1);
      assert ds[k - 1 + 1] == Stabilize(ds[k - 1], wanted[k - 1], max).density;
      StepKeepsEvidence(ds[k - 1], wanted[k - 1], max, k - 1 - (i + 1));
      assert !Acquires(ds, k - 1);
    }
  }

  lemma FreshLock(d: Density, wanted: real, max: nat)
    requires d.Valid(max) && !d.locked && Stabilize(d, wanted, max).density.locked
    ensures Stabilize(d, wanted, max).density.releaseSamples == 0
  {
  }

  /** Two acquisitions are at least eleven calls apart. */
  lemma AcquisitionsKeepApart(ds: seq<Density>, wanted: seq<real>, max: nat, i: nat, j: nat)
    requires IsRun(ds, wanted, max) && i < j < |wanted| && Acquires(ds, i) && Acquires(ds, j)
    ensures j - i >= 11
    decreases j - i
  {
    hide Stabilize, EvidenceSince;
    if m: nat :| i < m < j && Acquires(ds, m) {
      AcquisitionsKeepApart(ds, wanted, max, i, m);
    } else {
      NextAcquisition(ds, wanted, max, i, j);
      assert ds[j + 1] == Stabilize(ds[j], wanted[j], max).density;
      StepKeepsEvidence(ds[j], wanted[j], max, j - (i + 1));
    }
  }

  /** Release evidence counts consecutive calls at the same lock, all outside its window. */
  lemma {:induction false} EvidenceIsConsecutive(ds: seq<Density>, wanted: seq<real>, max: nat, k: nat, m: nat)
    requires IsRun(ds, wanted, max) && k < |ds| && ds[k].locked && ds[0] == UNLOCKED
    requires k - ds[k].releaseSamples <= m < k
    ensures 0 <= m && ds[m].locked && ds[m].value == ds[k].value
    ensures ds[m].OutOfWindow(Clamp(wanted[m], 0.0, max as real))
    decreases k
  {
    if k > 0 {
      var d, e := ds[k - 1], ds[k - 1 + 1];
      assert e == Stabilize(d, wanted[k - 1], max).density;
      if e.releaseSamples > 0 && m < k - 1 {
        EvidenceIsConsecutive(ds, wanted, max, k - 1, m);
      }
    }
  }

  /** A lock is left only after eight consecutive calls outside its window. */
  lemma ReleaseNeedsEight(ds: seq<Density>, wanted: seq<real>, max: nat, k: nat, m: nat)
    requires IsRun(ds, wanted, max) && ds[0] == UNLOCKED && k < |wanted| && Releases(ds, k)
    requires k - 7 <= m <= k
    ensures 0 <= m && ds[m].locked && ds[m].value == ds[k].value
    ensures ds[m].OutOfWindow(Clamp(wanted[m], 0.0, max as real))
  {
    assert ds[k + 1] == Stabilize(ds[k], wanted[k], max).density;
    assert ds[k].releaseSamples == 7;
    if m < k {
      EvidenceIsConsecutive(ds, wanted, max, k, m);
    }
  }

  // ---- The cadence stays among what was observed ----

  /** Whether an interval enters the cadence. */
  predicate Accepts(s: Scheduler, interval: real, preserve: bool) {
    s.Active(interval) && !s.Breaks(interval, preserve) && !s.Holds(interval, preserve)
  }

  /** The intervals accepted since the cadence was last dropped. */
  function Heard(s: Scheduler, heard: seq<real>, interval: real, preserve: bool): seq<real> {
    if s.Active(interval) && s.Breaks(interval, preserve) then []
    else if Accepts(s, interval, preserve) then heard + [interval]
    else heard
  }

  function AllHeard(s: Scheduler, heard: seq<real>, run: seq<Interval>): seq<real>
    requires s.Valid()
    decreases |run|
  {
    if run == [] then heard
    else
      PlanIsValid(s, run[0].0, run[0].1);
      AllHeard(s.Plan(run[0].0, run[0].1).0, Heard(s, heard, run[0].0, run[0].1), run[1..])
  }

  predicate Between(heard: seq<real>, a: real, b: real) { forall k :: 0 <= k < |heard| ==> a <= heard[k] <= b }

  predicate FollowsHull(s: Scheduler, heard: seq<real>, a: real, b: real)
    requires s.Valid()
  {
    Between(heard, a, b) ==> InHull(s.cadence, a, b)
  }

  lemma PlanCadence(s: Scheduler, interval: real, preserve: bool)
    requires s.Valid()
    ensures s.Plan(interval, preserve).0.cadence
            == if s.Active(interval) && s.Breaks(interval, preserve) then NO_CADENCE
               else if Accepts(s, interval, preserve) then s.cadence.Updated(interval)
               else s.cadence
  {
    hide UpdateCost, Stabilize, Cadence.Updated, Scheduler.Diffuse;
    if s.Active(interval) && !s.Breaks(interval, preserve) {
      var t := s.Ready(interval, preserve);
      ReadyIsValid(s, interval, preserve);
      ScheduledInRange(s.density, t.Wanted(), s.settings.max);
      DiffuseIsValid(t, Stabilize(s.density, t.Wanted(), s.settings.max));
    }
  }

  lemma PlanFollowsHull(s: Scheduler, heard: seq<real>, interval: real, preserve: bool, a: real, b: real)
    requires s.Valid() && 0.0 < a && FollowsHull(s, heard, a, b)
    ensures var t := s.Plan(interval, preserve).0;
            t.Valid() && FollowsHull(t, Heard(s, heard, interval, preserve), a, b)
  {
    hide Scheduler.Plan, Cadence.Updated, InHull;
    PlanIsValid(s, interval, preserve);
    PlanCadence(s, interval, preserve);
    NothingInHull(a, b);
    if Accepts(s, interval, preserve) && Between(heard + [interval], a, b) {
      assert (heard + [interval])[|heard|] == interval;
      assert forall k :: 0 <= k < |heard| ==> (heard + [interval])[k] == heard[k];
      UpdateStaysInHull(s.cadence, interval, a, b);
    }
  }

  lemma NothingInHull(a: real, b: real)
    ensures NO_CADENCE.Valid() && InHull(NO_CADENCE, a, b)
  {
  }

  /**
    Over any run the smoothed cadence, and every interval it is made of, stays in the hull of the
    intervals accepted since the cadence was last dropped, whatever was ignored or held in between.
  */
  lemma {:induction false} CadenceStaysInHull(s: Scheduler, heard: seq<real>, run: seq<Interval>, a: real, b: real)
    requires s.Valid() && 0.0 < a && FollowsHull(s, heard, a, b)
    ensures FollowsHull(After(s, run), AllHeard(s, heard, run), a, b)
    decreases |run|
  {
    hide Scheduler.Plan, InHull, Heard, FollowsHull;
    if run != [] {
      PlanFollowsHull(s, heard, run[0].0, run[0].1, a, b);
      CadenceStaysInHull(s.Plan(run[0].0, run[0].1).0, Heard(s, heard, run[0].0, run[0].1), run[1..], a, b);
    }
  }
}
