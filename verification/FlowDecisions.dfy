/** Exactly when the governor moves, and what its evidence counts, read off the observation. */
module FlowDecisions {
  import opened Numbers
  import opened FlowController
  import opened FlowTheorems
  import opened FlowPressure

  // ---- Lowering ----

  /** A targeted output that is missed in Adaptive mode, or a source below its target in fixed mode. */
  predicate TargetMissed(o: Observation) {
    if o.FixedMode() then
      o.sourceTargetFps > 0.0 && o.sourceFps > 0.0 && o.sourceFps < SOURCE_TARGET_SATISFIED_RATIO * o.sourceTargetFps
    else o.outputCadenceValid && o.outputTargeted && o.outputDeficit && !o.outputTargetSatisfied
  }

  /** Fixed mode without a target tries a cheaper state: at first, and when the source fell below its best. */
  predicate Probes(c: Controller, o: Observation) {
    && o.FixedMode() && !(o.sourceTargetFps > 0.0)
    && o.sourceFps > 0.0 && o.generatedWorkSample && o.generationCount > 0
    && (!c.exploration.referenceValid || c.exploration.probePending
        || (o.sourceFps <= c.exploration.bestSourceFps
            && o.sourceFps < EXPLORATORY_SOURCE_DROP_RATIO * c.exploration.bestSourceFps))
  }

  /** Flow takes a tenth of the budget, and the next cheaper state gives back a fortieth of it. */
  predicate FlowMatters(o: Observation, preset: Preset, index: nat)
    requires index < Floor(preset)
  {
    var current, lower := Ladder(preset)[index], Ladder(preset)[index + 1];
    && o.flowMs >= MINIMUM_FLOW_BUDGET_RATIO * o.frameBudgetMs
    && o.flowMs * (current * current - lower * lower)
       >= MINIMUM_PREDICTED_RELIEF_RATIO * o.frameBudgetMs * (current * current)
  }

  /** A probe needs a millisecond of Flow and a quarter of one to gain, unless compute is under pressure. */
  predicate ProbeMatters(o: Observation, preset: Preset, index: nat)
    requires index < Floor(preset)
  {
    var current, lower := Ladder(preset)[index], Ladder(preset)[index + 1];
    o.flowMs >= 1.0 && o.flowMs * (current * current - lower * lower) >= 0.25 * (current * current)
  }

  /** What a usable sample shows before it counts towards the next cheaper state. */
  predicate CountsAgainst(o: Observation, preset: Preset, index: nat, probes: bool)
    requires index < Floor(preset) && o.frameBudgetMs > 0.0
  {
    if TargetMissed(o) then true
    else if probes then ComputePressure(o) || ProbeMatters(o, preset, index)
    else
      && FlowMatters(o, preset, index)
      && (ComputePressure(o)
          || (DevicePressure(o) && o.totalLsfgMs >= MINIMUM_GLOBAL_PRESSURE_LSFG_BUDGET_RATIO * o.frameBudgetMs))
  }

  /** How long it must last. */
  function Patience(o: Observation, probes: bool): real
    requires o.frameBudgetMs > 0.0
  {
    if TargetMissed(o) || probes then 0.15
    else if DevicePressure(o) then 0.20
    else if o.thermalPressureValid && o.thermalStatus >= THERMAL_STATUS_SEVERE then 0.25
    else 0.40
  }

  /** No trial, barrier or hold keeps the sample from a decision. */
  predicate Decides(c: Controller, o: Observation) {
    var now := c.clock.now + o.EvidenceSeconds();
    && c.enabled && o.TimingUsable() && !Trial(c)
    && !o.flowTransition && !c.clock.transitionHoldActive && now >= c.clock.transitionSettleUntil
    && now >= c.clock.cooldownUntil
    && (o.schedulerTransition || now < c.clock.schedulerHoldUntil ==>
          ComputePressure(o) && o.totalLsfgMs >= o.frameBudgetMs)
  }

  /** Any pressure signal, with `probes` for the one that depends on what was learned. */
  predicate Signalled(o: Observation, probes: bool)
    requires o.frameBudgetMs > 0.0
  {
    ComputePressure(o) || DevicePressure(o) || TargetMissed(o) || probes
  }

  lemma Squares(preset: Preset, index: nat)
    requires index < Floor(preset)
    ensures Ladder(preset)[index] > Ladder(preset)[index + 1] > 0.0
  {
  }

  lemma ReliefScales(flowMs: real, q: real, d: real, bound: real)
    requires q > 0.0
    ensures flowMs * (1.0 - d / q) >= bound <==> flowMs * (q - d) >= bound * q
  {
    var r := d / q;
    assert r * q == d;
    Factor(flowMs, r, q);
    Times(flowMs * (1.0 - r), bound, q);
  }

  lemma Factor(a: real, r: real, q: real)
    ensures a * (1.0 - r) * q == a * (q - r * q)
  {
    assert (1.0 - r) * q == q - r * q;
    assert a * (1.0 - r) * q == a * ((1.0 - r) * q);
  }

  lemma Times(a: real, b: real, q: real)
    requires q > 0.0
    ensures a >= b <==> a * q >= b * q
  {
    assert (a - b) * q == a * q - b * q;
    if a >= b {
      NotNegative(a - b, q);
    } else {
      Positive(b - a, q);
      assert (b - a) * q == b * q - a * q;
    }
  }

  lemma NotNegative(a: real, q: real)
    requires a >= 0.0 && q > 0.0
    ensures a * q >= 0.0
  {
  }

  lemma Positive(a: real, q: real)
    requires a > 0.0 && q > 0.0
    ensures a * q > 0.0
  {
  }

  /** The signals as the decision stage reads them. */
  lemma SignalsRead(c: Controller, o: Observation)
    requires o.frameBudgetMs > 0.0 && !Trial(c)
    ensures var s := Heard(c, o).Read(o);
            && s.compute == ComputePressure(o) && s.global == DevicePressure(o)
            && s.Target() == TargetMissed(o) && s.exploratory == Probes(c, o)
            && (s.wsiFlow ==> s.global) && s.Any() == Signalled(o, Probes(c, o))
            && (s.thermalSevere <==> o.thermalPressureValid && o.thermalStatus >= THERMAL_STATUS_SEVERE)
  {
    Scales(o.totalLsfgMs, o.frameBudgetMs, PRESSURE_RATIO);
    Scales(o.totalLsfgMs, o.frameBudgetMs, 1.0);
  }

  lemma HeardIs(c: Controller, o: Observation)
    requires o.frameBudgetMs > 0.0
    ensures var e := Heard(c, o);
            && e.telemetry.stateIndex == c.telemetry.stateIndex && e.preset == c.preset && e.evidence == c.evidence
            && e.telemetry.sample.flowBudgetRatio == o.flowMs / o.frameBudgetMs
            && e.telemetry.sample.pressureRatio == o.totalLsfgMs / o.frameBudgetMs
  {
    hide Controller.Read, Controller.Explore;
  }

  function Product(a: real, b: real): (p: real)
    ensures a > 0.0 && b > 0.0 ==> p > 0.0
  {
    a * b
  }

  lemma ProductIs(a: real, b: real)
    ensures Product(a, b) == a * b
  {
  }

  lemma SquaresCompare(flowMs: real, current: real, lower: real, bound: real)
    requires current > 0.0
    ensures flowMs * (1.0 - (lower * lower) / (current * current)) >= bound
            <==> flowMs * (current * current - lower * lower) >= bound * (current * current)
  {
    hide Product;
    ReliefScales(flowMs, Product(current, current), Product(lower, lower), bound);
    ProductIs(current, current);
    ProductIs(lower, lower);
  }

  /** Comparing the relief is comparing a multiple of the difference of the squared scales. */
  lemma ReliefCompares(e: Controller, o: Observation, bound: real)
    requires e.telemetry.stateIndex < Floor(e.preset)
    ensures var (current, lower) := (Ladder(e.preset)[e.telemetry.stateIndex], Ladder(e.preset)[e.telemetry.stateIndex + 1]);
            e.PredictedReliefMs(o) >= bound
            <==> o.flowMs * (current * current - lower * lower) >= bound * (current * current)
  {
    hide Ladder;
    Squares(e.preset, e.telemetry.stateIndex);
    var current, lower := Ladder(e.preset)[e.telemetry.stateIndex], Ladder(e.preset)[e.telemetry.stateIndex + 1];
    SquaresCompare(o.flowMs, current, lower, bound);
    assert e.PredictedReliefMs(o) == o.flowMs * (1.0 - (lower * lower) / (current * current));
  }

  /** The quotients the gate of the lowering decision compares, without the division. */
  lemma GateScales(c: Controller, o: Observation)
    requires o.TimingUsable() && c.telemetry.stateIndex < Floor(c.preset)
    ensures var (e, i, b) := (Heard(c, o), c.telemetry.stateIndex, o.frameBudgetMs);
            && e.telemetry.stateIndex == i && e.preset == c.preset
            && (ProbeMatters(o, c.preset, i) <==> o.flowMs >= 1.0 && e.PredictedReliefMs(o) >= 0.25)
            && (FlowMatters(o, c.preset, i) <==>
                  e.telemetry.sample.flowBudgetRatio >= MINIMUM_FLOW_BUDGET_RATIO
                  && e.PredictedReliefMs(o) / b >= MINIMUM_PREDICTED_RELIEF_RATIO)
            && (e.telemetry.sample.pressureRatio >= MINIMUM_GLOBAL_PRESSURE_LSFG_BUDGET_RATIO
                <==> o.totalLsfgMs >= MINIMUM_GLOBAL_PRESSURE_LSFG_BUDGET_RATIO * b)
  {
    hide Ladder, Heard, Controller.PredictedReliefMs;
    HeardIs(c, o);
    var e, b := Heard(c, o), o.frameBudgetMs;
    ReliefCompares(e, o, MINIMUM_PREDICTED_RELIEF_RATIO * b);
    ReliefCompares(e, o, 0.25);
    Scales(o.flowMs, b, MINIMUM_FLOW_BUDGET_RATIO);
    Scales(o.totalLsfgMs, b, MINIMUM_GLOBAL_PRESSURE_LSFG_BUDGET_RATIO);
    Scales(e.PredictedReliefMs(o), b, MINIMUM_PREDICTED_RELIEF_RATIO);
  }

  /** The gate of the lowering decision, in terms of the observation. */
  lemma WorthIsCounted(c: Controller, o: Observation)
    requires o.TimingUsable() && !Trial(c) && c.telemetry.stateIndex < Floor(c.preset) && Signalled(o, Probes(c, o))
    ensures var e := Heard(c, o);
            && e.telemetry.stateIndex == c.telemetry.stateIndex && e.preset == c.preset
            && e.WorthLowering(o, e.Read(o)) == CountsAgainst(o, c.preset, c.telemetry.stateIndex, Probes(c, o))
            && e.ConfirmSeconds(e.Read(o)) == Patience(o, Probes(c, o))
  {
    hide Ladder, Controller.Read, Probes, ComputePressure, DevicePressure, TargetMissed, Signals.Any, Heard,
         FlowMatters, ProbeMatters, Controller.PredictedReliefMs;
    SignalsRead(c, o);
    GateScales(c, o);
  }

  // ---- From the sample to the decision ----

  /** Neither a trial nor a scheduler hold comes first. */
  predicate Free(e: Controller, o: Observation, s: Signals) {
    && !e.recovery.active && !e.downstep.active
    && (o.schedulerTransition || e.clock.now < e.clock.schedulerHoldUntil ==> e.Severe(s))
  }

  /** The controller that decides, with a scheduler transition noted. */
  function Deciding(e: Controller, o: Observation, dt: real): Controller {
    if o.schedulerTransition then e.NoteSchedulerTransition(dt) else e
  }

  lemma TrialsNeverLower(e: Controller, o: Observation, s: Signals, dt: real)
    requires !e.telemetry.changed && e.Sound()
    ensures !Lowered(e.EvaluateDownstep(o, s)) && (!e.downstep.active ==> !Lowered(e.EvaluateRecovery(o, s, dt)))
  {
    hide Ladder, Controller.Benefit, Controller.Regresses;
  }

  lemma GovernDecides(e: Controller, o: Observation, s: Signals, dt: real)
    requires e.Sound() && !e.telemetry.changed && o.frameBudgetMs > 0.0 && dt >= 0.0
    ensures Free(e, o, s) ==> e.Govern(o, s, dt) == Deciding(e, o, dt).Decide(o, s, dt)
    ensures !Free(e, o, s) ==> !Lowered(e.Govern(o, s, dt)) && !Raised(e.Govern(o, s, dt))
  {
    hide Ladder, Controller.EvaluateRecovery, Controller.EvaluateDownstep, Controller.Decide;
    var d := Deciding(e, o, dt);
    TrialsNeverLower(e, o, s, dt);
    TrialsNeverLower(d, o, s, dt);
    RecoveryNeverRaises(e, o, s, dt);
    DownstepsNeverRaise(d, o, s, dt);
  }

  /** A sample that passes the barriers is governed; one that does not never moves the controller. */
  predicate Passes(c: Controller, o: Observation) {
    && c.enabled && o.TimingUsable() && !o.flowTransition && !c.clock.transitionHoldActive
    && c.clock.now + o.EvidenceSeconds() >= c.clock.transitionSettleUntil
  }

  lemma PassingIsGoverned(c: Controller, o: Observation)
    requires c.Sound() && Passes(c, o)
    ensures var e := Heard(c, o);
            && e.Sound() && !e.telemetry.changed && e.enabled && e.downstep == c.downstep && e.recovery == c.recovery
            && e.evidence == c.evidence && e.clock == c.clock.(now := c.clock.now + o.EvidenceSeconds())
            && e.telemetry.stateIndex == c.telemetry.stateIndex && e.preset == c.preset
            && c.Step(o) == e.Govern(o, e.Read(o), o.EvidenceSeconds())
  {
    hide Ladder, Controller.Govern, Controller.Read, Controller.Measured, Controller.Explore;
    var t := c.(telemetry := c.telemetry.Cleared(c.downstep.active)).Advance(o.EvidenceSeconds(), o.flowTransition);
    ReadIgnoresSample(t.(exploration := t.Explore(o)), o);
  }

  lemma OnlyPassingChanges(c: Controller, o: Observation)
    requires c.Sound() && c.Step(o).telemetry.changed
    ensures Passes(c, o)
  {
    hide Ladder, Controller.Govern, Controller.Read, Controller.Measured, Controller.Explore;
  }

  lemma FreeDecides(c: Controller, o: Observation)
    requires c.Sound() && Passes(c, o)
    ensures var e := Heard(c, o);
            Decides(c, o) <==> Free(e, o, e.Read(o)) && e.clock.now >= e.clock.cooldownUntil
  {
    hide Ladder, Controller.Govern, Controller.Read, Heard, ComputePressure;
    PassingIsGoverned(c, o);
    HeardIs(c, o);
    Scales(o.totalLsfgMs, o.frameBudgetMs, 1.0);
    if !Trial(c) {
      SignalsRead(c, o);
    }
  }

  lemma DecisionLowers(d: Controller, o: Observation, s: Signals, dt: real)
    requires !d.telemetry.changed && !d.downstep.active && o.frameBudgetMs > 0.0
    requires d.telemetry.stateIndex <= Floor(d.preset)
    ensures Lowered(d.Decide(o, s, dt)) <==>
              && d.clock.now >= d.clock.cooldownUntil && s.Any() && d.telemetry.stateIndex < Floor(d.preset)
              && d.WorthLowering(o, s) && d.evidence.pressure + dt >= d.ConfirmSeconds(s)
  {
    hide Ladder, Controller.WorthLowering, Controller.ConfirmSeconds, Controller.MayRaise, Controller.PredictedTotalMs,
         Signals.Any;
  }

  lemma NotingKeepsGate(e: Controller, o: Observation, s: Signals, dt: real)
    requires o.frameBudgetMs > 0.0
    ensures var d := e.NoteSchedulerTransition(dt);
            && d.ConfirmSeconds(s) == e.ConfirmSeconds(s)
            && (e.telemetry.stateIndex < Floor(e.preset) ==> d.WorthLowering(o, s) == e.WorthLowering(o, s))
  {
    hide Ladder;
    var d := e.NoteSchedulerTransition(dt);
    assert d.telemetry == e.telemetry && d.preset == e.preset;
    if e.telemetry.stateIndex < Floor(e.preset) {
      assert d.PredictedReliefMs(o) == e.PredictedReliefMs(o);
    }
  }

  /**
    Exactly when quality is lowered: the sample reaches a decision, shows pressure that is worth a
    cheaper state, and that has lasted long enough for its kind.
  */
  lemma LowersIff(c: Controller, o: Observation)
    requires c.Sound()
    ensures Lowered(c.Step(o)) <==>
              && Decides(c, o) && c.telemetry.stateIndex < Floor(c.preset) && Signalled(o, Probes(c, o))
              && CountsAgainst(o, c.preset, c.telemetry.stateIndex, Probes(c, o))
              && c.evidence.pressure + o.EvidenceSeconds() >= Patience(o, Probes(c, o))
  {
    hide Ladder, Controller.Step, Controller.Govern, Controller.Read, Heard, CountsAgainst, Patience, Probes,
         Controller.Decide, Controller.WorthLowering, Controller.ConfirmSeconds, Signals.Any, Signalled;
    if c.Step(o).telemetry.changed {
      OnlyPassingChanges(c, o);
    }
    if Passes(c, o) {
      var e, dt := Heard(c, o), o.EvidenceSeconds();
      var s := e.Read(o);
      PassingIsGoverned(c, o);
      GovernDecides(e, o, s, dt);
      FreeDecides(c, o);
      if Free(e, o, s) {
        NotingKeepsGate(e, o, s, dt);
        DecisionLowers(Deciding(e, o, dt), o, s, dt);
        SignalsRead(c, o);
        if c.telemetry.stateIndex < Floor(c.preset) && Signalled(o, Probes(c, o)) {
          WorthIsCounted(c, o);
        }
      }
    }
  }

  // ---- Evidence ----

  lemma DecisionGathers(d: Controller, o: Observation, s: Signals, dt: real)
    requires d.telemetry.stateIndex < Floor(d.preset) && o.frameBudgetMs > 0.0
    requires d.clock.now >= d.clock.cooldownUntil && s.Any()
    ensures d.Decide(o, s, dt).evidence
            == if d.WorthLowering(o, s) && d.evidence.pressure + dt < d.ConfirmSeconds(s)
               then Evidence(d.evidence.pressure + dt, 0.0) else NO_EVIDENCE
    ensures d.WorthLowering(o, s) && d.evidence.pressure + dt >= d.ConfirmSeconds(s) ==>
              d.Decide(o, s, dt).telemetry.stateIndex == d.telemetry.stateIndex + 1
    ensures !(d.WorthLowering(o, s) && d.evidence.pressure + dt >= d.ConfirmSeconds(s)) ==>
              && d.Decide(o, s, dt).clock == d.clock && d.Decide(o, s, dt).telemetry.stateIndex == d.telemetry.stateIndex
              && d.Decide(o, s, dt).downstep == d.downstep && d.Decide(o, s, dt).recovery == d.recovery
  {
    hide Ladder, Controller.WorthLowering, Controller.ConfirmSeconds, Signals.Any;
  }

  /**
    What pressure evidence is worth: under a pressure signal above the floor, the sample's time is
    added if it counts, all evidence is dropped if it does not, and enough of it is spent on a
    cheaper state.
  */
  lemma EvidenceCounts(c: Controller, o: Observation)
    requires c.Sound() && Decides(c, o) && c.telemetry.stateIndex < Floor(c.preset) && Signalled(o, Probes(c, o))
    ensures var (d, dt, probes) := (c.Step(o), o.EvidenceSeconds(), Probes(c, o));
            var counts := CountsAgainst(o, c.preset, c.telemetry.stateIndex, probes);
            var lowers := counts && c.evidence.pressure + dt >= Patience(o, probes);
            && d.evidence == (if counts && !lowers then Evidence(c.evidence.pressure + dt, 0.0) else NO_EVIDENCE)
            && d.telemetry.stateIndex == c.telemetry.stateIndex + (if lowers then 1 else 0)
            && d.preset == c.preset && d.enabled && (!lowers ==> !Trial(d))
            && (!lowers && !o.schedulerTransition ==> d.clock == c.clock.(now := c.clock.now + dt))
  {
    hide Ladder, Controller.Step, Controller.Govern, Controller.Read, Heard, CountsAgainst, Patience, Probes,
         Controller.Decide, Controller.WorthLowering, Controller.ConfirmSeconds, Signals.Any, Signalled;
    var e, dt := Heard(c, o), o.EvidenceSeconds();
    var s := e.Read(o);
    PassingIsGoverned(c, o);
    GovernDecides(e, o, s, dt);
    FreeDecides(c, o);
    NotingKeepsGate(e, o, s, dt);
    SignalsRead(c, o);
    DecisionGathers(Deciding(e, o, dt), o, s, dt);
    WorthIsCounted(c, o);
    StepAdvances(c, o);
  }

  /** No trial, barrier or hold stands in the way of the next sample. */
  predicate Ready(c: Controller) {
    && c.enabled && c.Sound() && !Trial(c) && !c.clock.transitionHoldActive
    && c.clock.transitionSettleUntil <= c.clock.now && c.clock.schedulerHoldUntil <= c.clock.now
    && c.clock.cooldownUntil <= c.clock.now
  }

  /** A usable sample outside transitions. */
  predicate Plain(o: Observation) {
    o.TimingUsable() && !o.flowTransition && !o.schedulerTransition
  }

  /**
    Flow matters, and compute work is under pressure (for a `limit` of 0.40 s) or, where nothing is
    probed, the device is, with frame generation taking 0.40 of the budget (for a `limit` of 0.20 s).
  */
  predicate Presses(o: Observation, preset: Preset, index: nat, limit: real)
    requires index < Floor(preset)
  {
    && Plain(o) && FlowMatters(o, preset, index)
    && ((ComputePressure(o) && limit >= 0.40)
        || (DevicePressure(o) && o.totalLsfgMs >= MINIMUM_GLOBAL_PRESSURE_LSFG_BUDGET_RATIO * o.frameBudgetMs
            && (o.FixedMode() ==> o.sourceTargetFps > 0.0) && limit >= 0.20))
  }

  lemma NothingProbed(c: Controller, o: Observation)
    ensures (o.FixedMode() ==> o.sourceTargetFps > 0.0) ==> !Probes(c, o)
  {
  }

  lemma PressedStep(c: Controller, o: Observation, limit: real)
    requires Ready(c) && c.telemetry.stateIndex < Floor(c.preset) && Presses(o, c.preset, c.telemetry.stateIndex, limit)
    ensures var (d, dt) := (c.Step(o), o.EvidenceSeconds());
            && (c.evidence.pressure + dt >= limit ==> Lowered(d))
            && (Lowered(d) ==> d.telemetry.stateIndex == c.telemetry.stateIndex + 1)
            && (!Lowered(d) ==>
                  && Ready(d) && d.preset == c.preset && d.telemetry.stateIndex == c.telemetry.stateIndex
                  && d.clock.now == c.clock.now + dt && d.evidence.pressure == c.evidence.pressure + dt)
  {
    hide Ladder, Controller.Step, Probes, ComputePressure, DevicePressure, TargetMissed, FlowMatters, ProbeMatters;
    NothingProbed(c, o);
    LowersIff(c, o);
    EvidenceCounts(c, o);
    StepAdvances(c, o);
  }

  lemma EvidenceIsTime(c: Controller)
    requires c.Sound()
    ensures c.evidence.pressure >= 0.0 && c.evidence.headroom >= 0.0
  {
    hide Ladder;
  }

  /**
    Progress under sustained pressure: from a controller nothing holds back, pressed samples lower
    quality by a state before `limit` seconds and a sample have passed, and do nothing else till then.
  */
  lemma {:induction false} PressureLowers(run: seq<Controller>, obs: seq<Observation>, limit: real) returns (k: nat)
    requires IsRun(run, obs) && Ready(run[0]) && run[0].telemetry.stateIndex < Floor(run[0].preset)
    requires forall i :: 0 <= i < |obs| ==> Presses(obs[i], run[0].preset, run[0].telemetry.stateIndex, limit)
    requires run[|obs|].clock.now >= run[0].clock.now + limit && limit > 0.0
    ensures k < |obs| && Lowered(run[k + 1]) && run[k].clock.now < run[0].clock.now + limit
    ensures run[k + 1].telemetry.stateIndex == run[0].telemetry.stateIndex + 1
    ensures forall i :: 0 <= i <= k ==> run[i].telemetry.stateIndex == run[0].telemetry.stateIndex
  {
    hide Ladder, Controller.Step, Presses, Controller.Sound;
    k := 0;
    EvidenceIsTime(run[0]);
    while k < |obs| && !Lowered(run[k + 1])
      invariant k <= |obs|
      invariant Ready(run[k]) && run[k].preset == run[0].preset
      invariant run[k].evidence.pressure >= run[k].clock.now - run[0].clock.now
      invariant run[k].clock.now < run[0].clock.now + limit
      invariant forall i :: 0 <= i <= k ==> run[i].telemetry.stateIndex == run[0].telemetry.stateIndex
    {
      assert Steps(run[k], obs[k], run[k + 1]);
      PressedStep(run[k], obs[k], limit);
      k := k + 1;
    }
    assert Steps(run[k], obs[k], run[k + 1]);
    PressedStep(run[k], obs[k], limit);
  }

  /** Neither a missed target nor a mode that probes, and Flow too cheap for any step of the ladder. */
  predicate FlowIsCheap(o: Observation, preset: Preset) {
    && !TargetMissed(o) && (o.FixedMode() ==> o.sourceTargetFps > 0.0)
    && (forall index: nat :: index < Floor(preset) ==> !FlowMatters(o, preset, index))
  }

  /** Where Flow is too cheap to matter, no pressure of compute work or of the device lowers quality, in any run. */
  lemma CheapFlowIsKept(run: seq<Controller>, obs: seq<Observation>)
    requires IsRun(run, obs) && forall i :: 0 <= i < |obs| ==> FlowIsCheap(obs[i], run[0].preset)
    ensures forall k :: 0 < k <= |obs| ==> !Lowered(run[k])
  {
    hide Ladder, Controller.Step, Controller.Sound, FlowMatters, TargetMissed, ComputePressure, DevicePressure, Decides;
    RunIsTrace(run, obs);
    forall k | 0 < k <= |obs|
      ensures !Lowered(run[k])
    {
      assert Steps(run[k - 1], obs[k - 1], run[k]);
      SamePreset(run, obs, 0, k - 1);
      NothingProbed(run[k - 1], obs[k - 1]);
      LowersIff(run[k - 1], obs[k - 1]);
    }
  }

  // ---- Raising ----

  /** In fixed mode without a target, the source runs at the best rate known, and no probe is due. */
  predicate HoldsBest(c: Controller, o: Observation) {
    o.FixedMode() && !(o.sourceTargetFps > 0.0) ==>
      && c.exploration.referenceValid && !c.exploration.probePending
      && o.sourceFps > 0.0 && o.sourceFps >= EXPLORATORY_SOURCE_DROP_RATIO * c.exploration.bestSourceFps
  }

  lemma RecoveredIs(c: Controller, o: Observation)
    requires o.frameBudgetMs > 0.0 && !Trial(c)
    ensures var e := Heard(c, o);
            e.SourceRecovered(o, e.Read(o))
            <==> HoldsBest(c, o) && (o.SourceTargetValid() ==> o.sourceFps >= o.sourceTargetFps * SOURCE_TARGET_SATISFIED_RATIO)
  {
  }

  lemma HeadroomIs(c: Controller, o: Observation)
    requires o.frameBudgetMs > 0.0 && !Trial(c) && 0 < c.telemetry.stateIndex <= Floor(c.preset)
    ensures var e := Heard(c, o);
            && e.telemetry.stateIndex == c.telemetry.stateIndex && e.preset == c.preset
            && (e.MayRaise(o, e.Read(o)) && e.PredictedTotalMs(o) / o.frameBudgetMs <= RECOVERY_PREDICTED_RATIO
                <==> Headroom(o, c.preset, c.telemetry.stateIndex) && HoldsBest(c, o))
  {
    hide Ladder, Heard, HoldsBest, Controller.SourceRecovered, Probes;
    HeardIs(c, o);
    RecoveredIs(c, o);
    AtMost(Heard(c, o).PredictedTotalMs(o), o.frameBudgetMs, RECOVERY_PREDICTED_RATIO);
  }

  lemma DecisionRaises(d: Controller, o: Observation, s: Signals, dt: real)
    requires !d.telemetry.changed && o.frameBudgetMs > 0.0 && d.telemetry.stateIndex <= Floor(d.preset)
    ensures Raised(d.Decide(o, s, dt)) <==>
              && d.clock.now >= d.clock.cooldownUntil && !(s.Any() && d.telemetry.stateIndex < Floor(d.preset))
              && d.telemetry.stateIndex > 0 && !(o.adaptiveFramegenMode && d.clock.now < d.recovery.retryBlockedUntilSeconds)
              && d.MayRaise(o, s) && d.PredictedTotalMs(o) / o.frameBudgetMs <= RECOVERY_PREDICTED_RATIO
              && d.evidence.headroom + dt >= UP_CONFIRM_SECONDS
  {
    hide Ladder, Controller.DecideLower, Controller.MayRaise, Controller.PredictedTotalMs, Signals.Any;
    if d.telemetry.stateIndex < Floor(d.preset) {
      DownstepsNeverRaise(d, o, s, dt);
    }
  }

  /**
    Exactly when quality is raised: the sample reaches a decision below the best state outside the
    retry block, nothing presses it further down, it shows headroom of every kind, and headroom has
    lasted for 1.75 s.
  */
  lemma RaisesIff(c: Controller, o: Observation)
    requires c.Sound()
    ensures Raised(c.Step(o)) <==>
              && Decides(c, o) && 0 < c.telemetry.stateIndex && !o.schedulerTransition
              && !(o.adaptiveFramegenMode
                   && c.clock.now + o.EvidenceSeconds() < c.recovery.retryBlockedUntilSeconds)
              && (Signalled(o, Probes(c, o)) ==> c.telemetry.stateIndex == Floor(c.preset))
              && Headroom(o, c.preset, c.telemetry.stateIndex) && HoldsBest(c, o)
              && c.evidence.headroom + o.EvidenceSeconds() >= 1.75
  {
    hide Ladder, Controller.Step, Controller.Govern, Controller.Read, Heard, Headroom, HoldsBest, Probes,
         Controller.Decide, Controller.MayRaise, Controller.PredictedTotalMs, Signals.Any, Signalled;
    if c.Step(o).telemetry.changed {
      OnlyPassingChanges(c, o);
    }
    if Passes(c, o) {
      var e, dt := Heard(c, o), o.EvidenceSeconds();
      var s := e.Read(o);
      PassingIsGoverned(c, o);
      GovernDecides(e, o, s, dt);
      FreeDecides(c, o);
      if Free(e, o, s) {
        NotingKeepsJudgement(e, o, s, dt);
        DecisionRaises(Deciding(e, o, dt), o, s, dt);
        SignalsRead(c, o);
        if c.telemetry.stateIndex > 0 {
          HeadroomIs(c, o);
        }
      }
    }
  }

  lemma DecisionSaves(d: Controller, o: Observation, s: Signals, dt: real)
    requires o.frameBudgetMs > 0.0 && 0 < d.telemetry.stateIndex <= Floor(d.preset) && !s.Any()
    requires d.clock.now >= d.clock.cooldownUntil && d.clock.now >= d.recovery.retryBlockedUntilSeconds
    requires d.MayRaise(o, s) && d.PredictedTotalMs(o) / o.frameBudgetMs <= RECOVERY_PREDICTED_RATIO
    ensures var r := d.Decide(o, s, dt);
            if d.evidence.headroom + dt >= UP_CONFIRM_SECONDS then r.telemetry.stateIndex + 1 == d.telemetry.stateIndex
            else && r.evidence == Evidence(0.0, d.evidence.headroom + dt) && r.clock == d.clock
                 && r.telemetry.stateIndex == d.telemetry.stateIndex && r.downstep == d.downstep && r.recovery == d.recovery
  {
    hide Ladder, Controller.DecideLower, Controller.MayRaise, Controller.PredictedTotalMs, Signals.Any;
  }

  /** Headroom of every kind without any pressure, where no probe can be due. */
  predicate Relieves(o: Observation, preset: Preset, index: nat)
    requires 0 < index <= Floor(preset)
  {
    && Plain(o) && Headroom(o, preset, index) && (o.FixedMode() ==> o.sourceTargetFps > 0.0)
    && !ComputePressure(o) && !DevicePressure(o) && !TargetMissed(o)
  }

  lemma RelievedStep(c: Controller, o: Observation)
    requires Ready(c) && c.clock.now >= c.recovery.retryBlockedUntilSeconds && 0 < c.telemetry.stateIndex
    requires Relieves(o, c.preset, c.telemetry.stateIndex)
    ensures var (d, dt) := (c.Step(o), o.EvidenceSeconds());
            && (c.evidence.headroom + dt >= 1.75 ==> Raised(d))
            && (Raised(d) ==> d.telemetry.stateIndex + 1 == c.telemetry.stateIndex)
            && (!Raised(d) ==>
                  && Ready(d) && d.preset == c.preset && d.telemetry.stateIndex == c.telemetry.stateIndex
                  && d.recovery == c.recovery && d.clock.now == c.clock.now + dt
                  && d.evidence.headroom == c.evidence.headroom + dt)
  {
    hide Ladder, Controller.Step, Controller.Govern, Controller.Read, Heard, Headroom, HoldsBest, Probes, ComputePressure,
         Controller.Decide, Controller.MayRaise, Controller.PredictedTotalMs, Signals.Any, DevicePressure, TargetMissed;
    NothingProbed(c, o);
    HoldsWithTarget(c, o);
    var e, dt := Heard(c, o), o.EvidenceSeconds();
    PassingIsGoverned(c, o);
    GovernDecides(e, o, e.Read(o), dt);
    FreeDecides(c, o);
    SignalsRead(c, o);
    HeadroomIs(c, o);
    DecisionSaves(e, o, e.Read(o), dt);
    RaisesIff(c, o);
    StepAdvances(c, o);
  }

  lemma HoldsWithTarget(c: Controller, o: Observation)
    requires o.FixedMode() ==> o.sourceTargetFps > 0.0
    ensures HoldsBest(c, o)
  {
  }

  /**
    Recovery under sustained headroom: from a controller nothing holds back, samples with headroom
    raise quality by a state before 1.75 s and a sample have passed, and do nothing else till then.
  */
  lemma {:induction false} HeadroomRaises(run: seq<Controller>, obs: seq<Observation>) returns (k: nat)
    requires IsRun(run, obs) && Ready(run[0]) && 0 < run[0].telemetry.stateIndex <= Floor(run[0].preset)
    requires run[0].clock.now >= run[0].recovery.retryBlockedUntilSeconds
    requires forall i :: 0 <= i < |obs| ==> Relieves(obs[i], run[0].preset, run[0].telemetry.stateIndex)
    requires run[|obs|].clock.now >= run[0].clock.now + 1.75
    ensures k < |obs| && Raised(run[k + 1]) && run[k].clock.now < run[0].clock.now + 1.75
    ensures run[k + 1].telemetry.stateIndex + 1 == run[0].telemetry.stateIndex
    ensures forall i :: 0 <= i <= k ==> run[i].telemetry.stateIndex == run[0].telemetry.stateIndex
  {
    hide Ladder, Controller.Step, Relieves, Controller.Sound;
    k := 0;
    EvidenceIsTime(run[0]);
    while k < |obs| && !Raised(run[k + 1])
      invariant k <= |obs|
      invariant Ready(run[k]) && run[k].preset == run[0].preset && run[k].recovery == run[0].recovery
      invariant run[k].clock.now >= run[0].clock.now
      invariant run[k].evidence.headroom >= run[k].clock.now - run[0].clock.now
      invariant run[k].clock.now < run[0].clock.now + 1.75
      invariant forall i :: 0 <= i <= k ==> run[i].telemetry.stateIndex == run[0].telemetry.stateIndex
    {
      assert Steps(run[k], obs[k], run[k + 1]);
      RelievedStep(run[k], obs[k]);
      k := k + 1;
    }
    assert Steps(run[k], obs[k], run[k + 1]);
    RelievedStep(run[k], obs[k]);
  }
}
