/** The frame scheduler as the object that keeps the state and updates it in place. */
module AdaptiveFrames {
  import opened Numbers
  import opened CadenceWindow
  import opened FrameScheduler

  class AdaptiveFrameScheduler {
    var settings: Settings
    var phase: real
    var smoothed: real
    var hasSmoothed: bool
    var lastTrusted: real
    var established: bool
    var warmStart: bool
    const recent: array<real>
    var recentCount: nat
    var recentCursor: nat
    var stableSamples: nat
    var density: Density
    var cost: Cost
    var time: real

    ghost predicate Shaped() { recent.Length == WINDOW }

    function State(): Scheduler
      reads this, recent
    {
      Scheduler(settings, phase, Cadence(smoothed, hasSmoothed, Recent(recent[..], recentCount, recentCursor), stableSamples),
                lastTrusted, density, cost, established, warmStart, time)
    }

    constructor (targetFps: nat, max: nat)
      ensures Shaped() && fresh(recent) && State() == Fresh(targetFps, max)
    {
      settings := Settings(targetFps, max, 0, false, false);
      phase, smoothed, hasSmoothed, lastTrusted, established, warmStart := 0.0, 0.0, false, 0.0, false, false;
      recent := new real[WINDOW](_ => 0.0);
      recentCount, recentCursor, stableSamples, time := 0, 0, 0, 0.0;
      density, cost := UNLOCKED, Met(if max == 0 then 0 else 1);
    }

    method ResetSourceCadenceWindow()
      requires Shaped()
      modifies this`recentCount, this`recentCursor, recent
      ensures recent[..] == NOTHING_RECENT.ring && recentCount == 0 && recentCursor == 0
    {
      for k := 0 to WINDOW
        invariant forall j :: 0 <= j < k ==> recent[j] == 0.0
      {
        recent[k] := 0.0;
      }
      recentCount, recentCursor := 0, 0;
    }

    method ResetCadence()
      requires Shaped()
      modifies this`smoothed, this`hasSmoothed, this`recentCount, this`recentCursor, this`stableSamples, recent
      ensures State().cadence == NO_CADENCE
    {
      smoothed, hasSmoothed := 0.0, false;
      ResetSourceCadenceWindow();
      stableSamples := 0;
    }

    method ResetCost()
      modifies this`cost
      ensures cost == Met(Ceiling(settings))
    {
      cost := Met(if settings.max == 0 then 0 else if settings.generationFirst then settings.max else 1);
    }

    method ResetRuntimeState()
      requires Shaped()
      modifies this, recent
      ensures State() == old(State()).ResetRuntime()
    {
      phase, density, warmStart := 0.0, UNLOCKED, false;
      ResetCadence();
      settings := settings.(hint := 0, hintValid := false);
      time := 0.0;
      ResetCost();
    }

    method Reset()
      requires Shaped()
      modifies this, recent
      ensures State() == old(State()).Reset()
    {
      established, lastTrusted := false, 0.0;
      ResetRuntimeState();
    }

    method Configure(targetFps: nat, max: nat)
      requires Shaped()
      modifies this, recent
      ensures State() == old(State()).Configure(targetFps, max)
    {
      if settings.targetFps == targetFps && settings.max == max {
        return;
      }
      var hadCadence := established;
      var wasActive := settings.targetFps != 0 && settings.max != 0;
      settings := settings.(targetFps := targetFps, max := max);
      ResetRuntimeState();
      warmStart := hadCadence && wasActive && targetFps != 0 && max != 0;
    }

    method SetSafeGenerationHint(hint: nat, valid: bool)
      requires Shaped()
      modifies this
      ensures State() == old(State()).SetHint(hint, valid)
    {
      settings := settings.(hint := if valid then Min(hint, settings.max) else 0, hintValid := valid);
    }

    method SetGenerationFirst(enabled: bool)
      requires Shaped()
      modifies this
      ensures State() == old(State()).SetGenerationFirst(enabled)
    {
      settings := settings.(generationFirst := enabled);
      if !enabled {
        return;
      }
      cost := Met(settings.max);
    }

    /** The mean of the kept intervals, without one low and one high from seven on. */
    method RobustSourceInterval() returns (interval: real)
      requires Shaped() && recentCount <= WINDOW
      ensures interval == RobustInterval(recent[..recentCount])
    {
      hide Sorted, Sum;
      if recentCount == 0 {
        return 0.0;
      }
      var sorted := SortedIntervals();
      var begin, end := 0, recentCount;
      if recentCount >= TRIM_FROM {
        begin := 1;
        end := end - 1;
      }
      var sum := SumOf(sorted[begin..end]);
      interval := sum / (end - begin) as real;
      assert Trimmed(recent[..recentCount]) == sorted[begin..end];
    }

    method SortedIntervals() returns (sorted: seq<real>)
      requires Shaped() && recentCount <= WINDOW
      ensures sorted == Sorted(recent[..recentCount])
    {
      sorted := [];
      for i := 0 to recentCount
        invariant sorted == Sorted(recent[..i])
      {
        assert recent[..i + 1][..i] == recent[..i];
        sorted := Insert(sorted, recent[i]);
      }
    }

    static method SumOf(s: seq<real>) returns (sum: real)
      ensures sum == Sum(s)
    {
      sum := 0.0;
      for i := 0 to |s|
        invariant sum == Sum(s[..i])
      {
        assert s[..i + 1][..i] == s[..i];
        sum := sum + s[i];
      }
      assert s[..|s|] == s;
    }

    /** Whether the four newest intervals differ by little. */
    method CadenceStable(robust: real) returns (stable: bool)
      requires Shaped() && recentCount <= WINDOW && recentCursor < WINDOW
      requires State().cadence.recent.Valid() && robust == RobustInterval(State().cadence.recent.Held())
      ensures stable == State().cadence.recent.Stable()
    {
      hide RobustInterval;
      if recentCount < STABLE_WINDOW || !(robust > 0.0) {
        return false;
      }
      ghost var r := State().cadence.recent;
      var least, most := recent[(recentCursor + WINDOW - 1) % WINDOW], Most(0.0, recent[(recentCursor + WINDOW - 1) % WINDOW]);
      for offset := 1 to STABLE_WINDOW
        invariant least == r.LeastOf(offset) && most == r.MostOf(offset)
      {
        var index := (recentCursor + WINDOW - 1 - offset) % WINDOW;
        least := Least(least, recent[index]);
        most := Most(most, recent[index]);
      }
      stable := most - least <= robust * STABLE_RATIO;
    }

    /** The smoothed interval moves towards a robust one, faster down than up. */
    method MoveSmoothed(robust: real)
      modifies this`smoothed, this`hasSmoothed
      ensures smoothed == if !old(hasSmoothed) then robust
                          else if robust > 0.0 then Smooth(old(smoothed), robust) else old(smoothed)
      ensures hasSmoothed <==> old(hasSmoothed) || robust > 0.0
    {
      if !hasSmoothed {
        smoothed := robust;
        hasSmoothed := robust > 0.0;
      } else if robust > 0.0 {
        var target := robust;
        if target < smoothed * TARGET_MIN_RATIO {
          target := smoothed * TARGET_MIN_RATIO;
        } else if target > smoothed * TARGET_MAX_RATIO {
          target := smoothed * TARGET_MAX_RATIO;
        }
        var alpha := if target > smoothed then SLOWDOWN_ALPHA else SPEEDUP_ALPHA;
        smoothed := smoothed + alpha * (target - smoothed);
      }
    }

    method UpdateSourceRate(interval: real)
      requires Shaped() && State().cadence.Valid()
      modifies this`smoothed, this`hasSmoothed, this`recentCount, this`recentCursor, this`stableSamples, recent
      ensures State() == old(State()).(cadence := old(State()).cadence.Updated(interval))
    {
      hide RobustInterval, Recent.Stable, Smooth;
      ghost var r := State().cadence.recent;
      recent[recentCursor] := interval;
      recentCursor := (recentCursor + 1) % WINDOW;
      recentCount := Min(recentCount + 1, WINDOW);
      assert State().cadence.recent == r.Push(interval);
      var robust := RobustSourceInterval();
      var stable := CadenceStable(robust);
      stableSamples := if stable then stableSamples + 1 else 0;
      MoveSmoothed(robust);
    }

    method UpdateCostLimit(wanted: real)
      requires Shaped()
      modifies this`cost
      ensures cost == UpdateCost(old(cost), wanted, settings, stableSamples, time)
    {
      if settings.max == 0 {
        cost := Met(0);
        return;
      }
      if settings.generationFirst {
        cost := Met(settings.max);
        return;
      }
      var limit := Min(if cost.limit == 0 then 1 else cost.limit, settings.max);
      cost := cost.(limit := limit);
      if limit >= settings.max || wanted <= limit as real + DEMAND_SLACK {
        cost := Met(limit);
        return;
      }
      if cost.unmetSince < 0.0 {
        cost := cost.(unmetSince := time);
      }
      var supported := settings.hintValid && settings.hint >= limit + 1;
      cost := cost.(raiseSamples := if supported then cost.raiseSamples + 1 else 0);
      var promoted := cost.raiseSamples >= RAISE_SAMPLES && stableSamples > 0;
      if !promoted && time - cost.unmetSince < SUSTAINED_DEMAND {
        return;
      }
      cost := Met(limit + 1);
    }

    method StabilizeDensity(wanted: real) returns (scheduled: real, dropped: bool)
      requires Shaped()
      modifies this`density, this`phase
      ensures var z := Stabilize(old(density), wanted, settings.max);
              density == z.density && scheduled == z.scheduled && dropped == z.dropsPhase
              && phase == if dropped then 0.0 else old(phase)
    {
      var desired := Clamp(wanted, 0.0, settings.max as real);
      dropped := false;
      if density.locked {
        if Abs(desired - density.value as real) <= RELEASE_WINDOW {
          density := density.(releaseSamples := 0, candidate := 0, candidateSamples := 0);
          return density.value as real, false;
        }
        density := density.(releaseSamples := density.releaseSamples + 1);
        if density.releaseSamples < RELEASE_SAMPLES {
          return density.value as real, false;
        }
        density, phase, dropped := UNLOCKED, 0.0, true;
      }
      var nearest := Nearest(desired);
      if !(1 <= nearest <= settings.max && Abs(desired - nearest as real) <= ACQUIRE_WINDOW) {
        density := density.(candidate := 0, candidateSamples := 0);
        return desired, dropped;
      }
      if density.candidate == nearest {
        density := density.(candidateSamples := density.candidateSamples + 1);
      } else {
        density := density.(candidate := nearest, candidateSamples := 1);
      }
      if density.candidateSamples >= ACQUIRE_SAMPLES {
        density, phase, dropped := Density(true, nearest, 0, 0, 0), 0.0, true;
        return nearest as real, true;
      }
      scheduled := desired;
    }

    /** Decide the density, spread it over source frames and grant what the ceiling allows. */
    method Spend(wanted: real) returns (granted: nat, ghost cycle: Cycle)
      requires Shaped() && phase >= 0.0 && density.Valid(settings.max) && wanted == State().Wanted()
      modifies this`density, this`phase
      ensures var z := Stabilize(old(density), wanted, settings.max);
              && z.scheduled >= 0.0
              && (State(), cycle) == old(State()).Diffuse(z) && granted == cycle.granted
    {
      hide Stabilize;
      ScheduledInRange(density, wanted, settings.max);
      var scheduled, dropped := StabilizeDensity(wanted);
      var whole;
      if density.locked {
        phase := 0.0;
        whole := density.value;
      } else {
        phase := phase + scheduled;
        DiffusionConserves(phase - scheduled, scheduled);
        whole := (phase + SNAP_EPSILON).Floor;
        phase := Clamp(phase - whole as real, 0.0, PHASE_MAX);
      }
      granted := Min(Min(whole, cost.limit), settings.max);
      cycle := Cycle(true, wanted, scheduled, whole, granted, dropped, false);
    }

    /** Take in one usable interval: time and cadence. */
    method TakeIn(interval: real, preserve: bool)
      requires Shaped() && State().cadence.Valid()
      modifies this, recent
      ensures State() == old(State()).Observe(interval, preserve)
    {
      hide Cadence.Updated;
      var held := preserve && lastTrusted > 0.0 && interval < HOLD_LIMIT;
      established := true;
      time := time + (if held then lastTrusted else interval);
      if !held {
        UpdateSourceRate(interval);
      }
      lastTrusted := smoothed;
    }

    /** After a change of target the first usable interval seeds the ceiling. */
    method SeedCeiling(wanted: real)
      requires Shaped() && settings.max >= 1 && wanted == State().Wanted()
      modifies this`cost, this`warmStart
      ensures State() == old(State()).WarmStarted()
    {
      if !warmStart {
        return;
      }
      var required := CeilingOf(wanted - SNAP_EPSILON);
      var least: nat := if required < 1 then 1 else if required > settings.max then settings.max else required;
      cost := Met(if cost.limit < least then least else cost.limit);
      warmStart := false;
    }

    /** Cadence, time and ceiling after one usable interval. */
    method Prepare(interval: real, preserve: bool) returns (wanted: real)
      requires Shaped() && State().cadence.Valid() && State().Active(interval)
      modifies this, recent
      ensures State() == old(State()).Ready(interval, preserve) && wanted == State().Wanted()
    {
      hide UpdateCost, Scheduler.Observe, Cadence.Updated;
      ghost var was := State();
      ObserveKeeps(was, interval, preserve);
      TakeIn(interval, preserve);
      wanted := Clamp(settings.targetFps as real * smoothed - 1.0, 0.0, settings.max as real);
      SeedCeiling(wanted);
      ghost var seeded := State();
      assert seeded == was.Observe(interval, preserve).WarmStarted() && seeded.Wanted() == wanted;
      UpdateCostLimit(wanted);
      assert State() == seeded.(cost := cost);
    }

    /** Plan one source cycle. */
    method Plan(interval: real, preserve: bool) returns (granted: nat, ghost cycle: Cycle)
      requires Shaped() && State().Valid()
      modifies this, recent
      ensures (State(), cycle) == old(State()).Plan(interval, preserve) && granted == cycle.granted
    {
      hide Stabilize, Scheduler.Ready, Scheduler.Diffuse, Scheduler.ResetRuntime;
      if settings.targetFps == 0 || settings.max == 0 || !(interval > 0.0) {
        return 0, IDLE;
      }
      var held := preserve && lastTrusted > 0.0 && interval < HOLD_LIMIT;
      if !held && lastTrusted > 0.0 && interval > lastTrusted * DISCONTINUITY_RATIO {
        var keptWarmStart := warmStart;
        ResetRuntimeState();
        lastTrusted, warmStart := 0.0, keptWarmStart;
        return 0, BROKE;
      }
      ReadyIsValid(State(), interval, preserve);
      var wanted := Prepare(interval, preserve);
      granted, cycle := Spend(wanted);
    }
  }
}
