/** What an observation must show before the governor moves, in terms of the observation itself. */
module FlowPressure {
  import opened FlowController
  import opened FlowTheorems

  /** Generated work that is late, about to be, or fills the frame budget. */
  predicate ComputePressure(o: Observation)
    requires o.frameBudgetMs > 0.0
  {
    || (o.generatedWorkSample
        && (o.computeDeadlinePressure || o.deadlineMissed || o.totalLsfgMs >= PRESSURE_RATIO * o.frameBudgetMs))
    || (o.retainedGeneratedTimingSample && o.totalLsfgMs >= o.frameBudgetMs)
  }

  /** A saturated device together with output that is missing, where that is actionable, or dropped. */
  predicate DevicePressure(o: Observation) {
    && o.globalPressureValid && o.globalGpuUsagePercent >= GLOBAL_GPU_PRESSURE_PERCENT
    && ((o.outputDeficit && !o.FixedMode()) || o.syntheticDropPressure)
  }

  /** In Adaptive mode a missed output target, in fixed mode a source below its target or under a probe. */
  predicate CadencePressure(o: Observation) {
    if o.FixedMode() then
      && o.sourceFps > 0.0
      && (if o.sourceTargetFps > 0.0 then o.sourceFps < o.sourceTargetFps * SOURCE_TARGET_SATISFIED_RATIO
          else o.generatedWorkSample && o.generationCount > 0)
    else
      o.outputCadenceValid && o.outputTargeted && o.outputDeficit && !o.outputTargetSatisfied
  }

  predicate UnderPressure(o: Observation)
    requires o.frameBudgetMs > 0.0
  {
    ComputePressure(o) || DevicePressure(o) || CadencePressure(o)
  }

  lemma Scales(a: real, b: real, k: real)
    requires b > 0.0
    ensures a / b >= k <==> a >= k * b
  {
  }

  /** The pressure signals say exactly this, but for a fixed-mode probe that is not pending. */
  lemma SignalsMeanPressure(c: Controller, o: Observation)
    requires o.frameBudgetMs > 0.0
    ensures c.Read(o).Any() ==> UnderPressure(o)
    ensures c.Read(o).compute <==> ComputePressure(o)
    ensures ComputePressure(o) || DevicePressure(o) || (CadencePressure(o) && (o.FixedMode() ==> o.SourceTargetValid()))
            ==> c.Read(o).Any()
  {
    Scales(o.totalLsfgMs, o.frameBudgetMs, PRESSURE_RATIO);
    Scales(o.totalLsfgMs, o.frameBudgetMs, 1.0);
  }

  /** The controller as the decision stage finds it. */
  function Heard(c: Controller, o: Observation): Controller
    requires o.frameBudgetMs > 0.0
  {
    var t := c.(telemetry := c.telemetry.Cleared(c.downstep.active)).Advance(o.EvidenceSeconds(), o.flowTransition);
    var e := t.(exploration := t.Explore(o));
    e.Record(o, e.Read(o))
  }

  lemma ChangeIsGoverned(c: Controller, o: Observation)
    requires c.Sound() && c.Step(o).telemetry.changed
    ensures o.TimingUsable() && Heard(c, o).Sound() && !Heard(c, o).telemetry.changed
    ensures Heard(c, o).telemetry.stateIndex == c.telemetry.stateIndex && Heard(c, o).preset == c.preset
    ensures c.Step(o) == Heard(c, o).Govern(o, Heard(c, o).Read(o), o.EvidenceSeconds())
  {
    hide Ladder, Controller.Govern, Controller.Read, Controller.Measured, Controller.Explore;
    var t := c.(telemetry := c.telemetry.Cleared(c.downstep.active)).Advance(o.EvidenceSeconds(), o.flowTransition);
    ReadIgnoresSample(t.(exploration := t.Explore(o)), o);
  }

  lemma ReadIgnoresSample(e: Controller, o: Observation)
    requires o.frameBudgetMs > 0.0
    ensures e.Record(o, e.Read(o)).Read(o) == e.Read(o)
  {
  }

  /** Only the decision stage lowers, and only under a pressure signal. */
  lemma GovernLowers(e: Controller, o: Observation, s: Signals, dt: real)
    requires e.Sound() && !e.telemetry.changed && o.frameBudgetMs > 0.0
    requires Lowered(e.Govern(o, s, dt))
    ensures s.Any()
  {
    hide Ladder, Controller.Benefit, Controller.Regresses, Controller.WorthLowering, Controller.MayRaise,
         Controller.PredictedTotalMs;
  }

  /**
    Quality is lowered only under pressure that can be read off the observation. Thermal state is
    never enough, nor is a presentation loss, nor in fixed mode a missed output target.
  */
  lemma LoweringNeedsPressure(c: Controller, o: Observation)
    requires c.Sound() && Lowered(c.Step(o))
    ensures o.TimingUsable() && UnderPressure(o)
  {
    hide Ladder, Controller.Step, Controller.Govern, Controller.Read, UnderPressure, Controller.Sound, Heard;
    ChangeIsGoverned(c, o);
    GovernLowers(Heard(c, o), o, Heard(c, o).Read(o), o.EvidenceSeconds());
    SignalsMeanPressure(Heard(c, o), o);
  }

  /** What an observation must show before quality is raised from state `index`. */
  predicate Headroom(o: Observation, preset: Preset, index: nat)
    requires 0 < index <= Floor(preset)
  {
    var current, higher := Ladder(preset)[index], Ladder(preset)[index - 1];
    && !o.deadlineMissed && !o.syntheticDropPressure
    && (o.FixedMode() || (!o.outputDeficit && !o.wsiPresentationPressure
                          && (o.outputTargeted ==> o.outputTargetSatisfied)))
    && (o.SourceTargetValid() ==> o.sourceFps >= o.sourceTargetFps * SOURCE_TARGET_SATISFIED_RATIO)
    && (o.globalPressureValid ==> o.globalGpuUsagePercent <= GLOBAL_GPU_RECOVERY_PERCENT)
    && (o.thermalPressureValid ==> o.thermalStatus <= THERMAL_STATUS_MODERATE)
    && (o.generatedWorkSample || o.globalPressureValid)
    && o.totalLsfgMs + o.flowMs * ((higher * higher) / (current * current) - 1.0)
       <= RECOVERY_PREDICTED_RATIO * o.frameBudgetMs
  }

  lemma AtMost(a: real, b: real, k: real)
    requires b > 0.0
    ensures a / b <= k <==> a <= k * b
  {
  }

  lemma GovernRaises(e: Controller, o: Observation, s: Signals, dt: real)
    requires e.Sound() && !e.telemetry.changed && o.frameBudgetMs > 0.0
    requires Raised(e.Govern(o, s, dt)) && dt <= EVIDENCE_CAP_SECONDS
    ensures e.telemetry.stateIndex > 0 && e.MayRaise(o, s)
    ensures e.PredictedTotalMs(o) / o.frameBudgetMs <= RECOVERY_PREDICTED_RATIO
    ensures !o.schedulerTransition && e.evidence.headroom + dt >= UP_CONFIRM_SECONDS
    ensures s.Any() ==> e.telemetry.stateIndex == Floor(e.preset)
  {
    hide Ladder, Controller.EvaluateRecovery, Controller.EvaluateDownstep, Controller.DecideLower,
         Controller.MayRaise, Controller.PredictedTotalMs, Signals.Any;
    var d := if o.schedulerTransition then e.NoteSchedulerTransition(dt) else e;
    RecoveryNeverRaises(e, o, s, dt);
    DownstepsNeverRaise(d, o, s, dt);
    if o.schedulerTransition {
      NotingKeepsJudgement(e, o, s, dt);
    }
  }

  lemma RecoveryNeverRaises(e: Controller, o: Observation, s: Signals, dt: real)
    requires !e.telemetry.changed
    ensures !Raised(e.EvaluateRecovery(o, s, dt))
  {
    hide Ladder, Controller.Regresses;
  }

  lemma EndingsNeverRaise(e: Controller, o: Observation)
    requires !e.telemetry.changed
    ensures !Raised(e.ConfirmDownstep(o)) && !Raised(e.RevertDownstep())
  {
    hide Ladder;
  }

  lemma LowerNeverRaises(e: Controller, o: Observation, s: Signals)
    requires o.frameBudgetMs > 0.0 && e.telemetry.stateIndex < Floor(e.preset)
    ensures !Raised(e.Lower(o, s))
  {
    hide Ladder, Controller.OpenDownstep;
  }

  lemma DownstepsNeverRaise(e: Controller, o: Observation, s: Signals, dt: real)
    requires !e.telemetry.changed && o.frameBudgetMs > 0.0
    ensures !Raised(e.EvaluateDownstep(o, s))
    ensures e.telemetry.stateIndex < Floor(e.preset) ==> !Raised(e.DecideLower(o, s, dt))
  {
    hide Controller.ConfirmDownstep, Controller.RevertDownstep, Controller.Lower, Controller.Benefit,
         Controller.WorthLowering;
    var seen := e.downstep.benefitSeen || e.Benefit(o, s);
    EndingsNeverRaise(e.NoEvidence().(downstep := e.downstep.(benefitSeen := seen)), o);
    if e.telemetry.stateIndex < Floor(e.preset) {
      LowerNeverRaises(e.(evidence := Evidence(e.evidence.pressure + dt, 0.0)), o, s);
    }
  }

  lemma NotingKeepsJudgement(e: Controller, o: Observation, s: Signals, dt: real)
    ensures e.NoteSchedulerTransition(dt).MayRaise(o, s) == e.MayRaise(o, s)
    ensures 0 < e.telemetry.stateIndex <= Floor(e.preset) ==>
              e.NoteSchedulerTransition(dt).PredictedTotalMs(o) == e.PredictedTotalMs(o)
  {
    hide Ladder;
  }

  lemma RaiseSignals(e: Controller, o: Observation)
    requires o.frameBudgetMs > 0.0 && 0 < e.telemetry.stateIndex <= Floor(e.preset)
    requires e.MayRaise(o, e.Read(o)) && e.PredictedTotalMs(o) / o.frameBudgetMs <= RECOVERY_PREDICTED_RATIO
    ensures Headroom(o, e.preset, e.telemetry.stateIndex)
  {
    hide Ladder;
    AtMost(e.PredictedTotalMs(o), o.frameBudgetMs, RECOVERY_PREDICTED_RATIO);
  }

  /** Quality is raised only with headroom that can be read off the observation. */
  lemma RaisingNeedsHeadroom(c: Controller, o: Observation)
    requires c.Sound() && Raised(c.Step(o))
    ensures o.TimingUsable() && 0 < c.telemetry.stateIndex <= Floor(c.preset)
    ensures Headroom(o, c.preset, c.telemetry.stateIndex)
  {
    hide Ladder, Controller.Step, Controller.Govern, Controller.Read, Headroom, Heard, Controller.MayRaise,
         Controller.PredictedTotalMs;
    ChangeIsGoverned(c, o);
    GovernRaises(Heard(c, o), o, Heard(c, o).Read(o), o.EvidenceSeconds());
    RaiseSignals(Heard(c, o), o);
  }

  /** A better state never costs less. */
  lemma BetterCostsMore(preset: Preset, index: nat, flowMs: real)
    requires 0 < index <= Floor(preset) && flowMs >= 0.0
    ensures var current, higher := Ladder(preset)[index], Ladder(preset)[index - 1];
            flowMs * ((higher * higher) / (current * current) - 1.0) >= 0.0
  {
    var current, higher := Ladder(preset)[index], Ladder(preset)[index - 1];
    assert higher > current > 0.0;
    SquareRatio(higher, current);
    hide Ladder;
    var gain := (higher * higher) / (current * current) - 1.0;
    assert gain >= 0.0;
    assert flowMs * gain >= 0.0;
  }

  lemma SquareRatio(a: real, b: real)
    requires a > b > 0.0
    ensures (a * a) / (b * b) >= 1.0
  {
    assert a * a >= a * b >= b * b > 0.0;
    Scales(a * a, b * b, 1.0);
  }

  /** Headroom leaves room for one pressure signal only. */
  lemma HeadroomExcludes(e: Controller, o: Observation)
    requires o.TimingUsable() && e.MayRaise(o, e.Read(o)) && e.Read(o).Any()
    requires o.totalLsfgMs <= RECOVERY_PREDICTED_RATIO * o.frameBudgetMs
    ensures o.generatedWorkSample && o.computeDeadlinePressure && !o.deadlineMissed && !DevicePressure(o)
  {
    Scales(o.totalLsfgMs, o.frameBudgetMs, PRESSURE_RATIO);
    Scales(o.totalLsfgMs, o.frameBudgetMs, 1.0);
  }

  /**
    Raising against a pressure signal: this happens only at the floor, where nothing can be lowered,
    and only against the announcement that a deadline is close. Every other pressure excludes headroom.
  */
  lemma RaisedAgainstPressure(c: Controller, o: Observation)
    requires c.Sound() && Raised(c.Step(o)) && o.frameBudgetMs > 0.0 && Heard(c, o).Read(o).Any()
    ensures c.telemetry.stateIndex == Floor(c.preset)
    ensures o.generatedWorkSample && o.computeDeadlinePressure
    ensures !o.deadlineMissed && o.totalLsfgMs <= RECOVERY_PREDICTED_RATIO * o.frameBudgetMs && !DevicePressure(o)
  {
    hide Ladder, Controller.Step, Controller.Govern, Heard, Controller.PredictedTotalMs, Controller.MayRaise,
         Controller.Read, Signals.Any;
    ChangeIsGoverned(c, o);
    var e := Heard(c, o);
    GovernRaises(e, o, e.Read(o), o.EvidenceSeconds());
    RaiseSignals(e, o);
    BetterCostsMore(c.preset, c.telemetry.stateIndex, o.flowMs);
    HeadroomExcludes(e, o);
  }

  // ---- Exactly when that happens ----

  /** An enabled controller as a reset leaves it, or seeding it at ladder state `index`. */
  function Started(preset: Preset, index: nat): Controller
    requires index <= Floor(preset)
  {
    DORMANT.(enabled := true, preset := preset).Reset()
      .(telemetry := TargetTelemetry(preset).(stateIndex := index, currentScale := Ladder(preset)[index]))
  }

  /** `run` is a run from such a start to `c`. */
  predicate LeadsTo(run: seq<Controller>, obs: seq<Observation>, preset: Preset, start: nat, c: Controller) {
    start <= Floor(preset) && IsRun(run, obs) && run[0] == Started(preset, start) && run[|obs|] == c
  }

  ghost predicate Reached(c: Controller, preset: Preset) {
    exists run, obs, start :: LeadsTo(run, obs, preset, start, c)
  }

  predicate RaisesAgainstPressure(c: Controller, o: Observation) {
    c.Sound() && Raised(c.Step(o)) && o.frameBudgetMs > 0.0 && Heard(c, o).Read(o).Any()
  }

  /** What preset, state and observation must be. */
  predicate AdmitsRaise(preset: Preset, index: nat, o: Observation) {
    && index == Floor(preset) && o.TimingUsable() && Headroom(o, preset, index)
    && o.generatedWorkSample && o.computeDeadlinePressure
    && o.elapsedSeconds > 0.0 && !o.flowTransition && !o.schedulerTransition
    && (o.FixedMode() && !o.SourceTargetValid() ==> o.sourceFps > 0.0)
  }

  /** Headroom is spent as soon as it is confirmed, so it is never found confirmed. */
  lemma StepKeepsShort(c: Controller, o: Observation)
    requires c.Sound() && c.evidence.headroom < UP_CONFIRM_SECONDS
    ensures c.Step(o).evidence.headroom < UP_CONFIRM_SECONDS
  {
    hide Ladder, Controller.Read, Controller.Measured, Controller.Explore, Controller.Govern;
    var t := c.(telemetry := c.telemetry.Cleared(c.downstep.active)).Advance(o.EvidenceSeconds(), o.flowTransition);
    if o.TimingUsable() {
      var e := t.(exploration := t.Explore(o));
      var s := e.Read(o);
      GovernKeepsShort(e.Record(o, s), o, s, o.EvidenceSeconds());
    }
  }

  lemma GovernKeepsShort(e: Controller, o: Observation, s: Signals, dt: real)
    requires e.telemetry.stateIndex <= Floor(e.preset) && o.frameBudgetMs > 0.0
    requires e.evidence.headroom < UP_CONFIRM_SECONDS
    ensures e.Govern(o, s, dt).evidence.headroom < UP_CONFIRM_SECONDS
  {
    hide Ladder, Controller.EvaluateRecovery, Controller.EvaluateDownstep, Controller.DecideLower,
         Controller.DecideRaise, Signals.Any;
    var d := if o.schedulerTransition then e.NoteSchedulerTransition(dt) else e;
    TrialsDropHeadroom(e, o, s, dt);
    TrialsDropHeadroom(d, o, s, dt);
    RaisingKeepsShort(d, o, s, dt);
  }

  lemma TrialsDropHeadroom(e: Controller, o: Observation, s: Signals, dt: real)
    requires o.frameBudgetMs > 0.0
    ensures e.EvaluateRecovery(o, s, dt).evidence == NO_EVIDENCE
    ensures e.EvaluateDownstep(o, s).evidence == NO_EVIDENCE
    ensures e.telemetry.stateIndex < Floor(e.preset) ==> e.DecideLower(o, s, dt).evidence.headroom == 0.0
  {
    hide Ladder, Controller.Benefit, Controller.Regresses, Controller.WorthLowering;
  }

  lemma RaisingKeepsShort(e: Controller, o: Observation, s: Signals, dt: real)
    requires e.telemetry.stateIndex <= Floor(e.preset) && o.frameBudgetMs > 0.0
    ensures e.DecideRaise(o, s, dt).evidence.headroom < UP_CONFIRM_SECONDS
  {
    hide Ladder, Controller.MayRaise, Controller.PredictedTotalMs;
  }

  lemma {:induction false} RunKeepsShort(run: seq<Controller>, obs: seq<Observation>, k: nat)
    requires IsRun(run, obs) && run[0].evidence.headroom < UP_CONFIRM_SECONDS && k <= |obs|
    ensures run[k].Sound() && run[k].evidence.headroom < UP_CONFIRM_SECONDS
  {
    hide Controller.Step, Controller.Sound;
    if k > 0 {
      RunKeepsShort(run, obs, k - 1);
      assert Steps(run[k - 1], obs[k - 1], run[k]);
      StepKeepsShort(run[k - 1], obs[k - 1]);
      StepAdvances(run[k - 1], obs[k - 1]);
    }
  }

  lemma StartIsSound(preset: Preset, index: nat)
    requires index <= Floor(preset)
    ensures Started(preset, index).Sound() && Started(preset, index).evidence == NO_EVIDENCE
    ensures Started(preset, index).preset == preset
  {
    hide Ladder;
  }

  lemma MayRaiseNeedsSource(e: Controller, o: Observation)
    requires o.frameBudgetMs > 0.0 && e.MayRaise(o, e.Read(o)) && o.FixedMode() && !o.SourceTargetValid()
    ensures o.sourceFps > 0.0
  {
  }

  lemma RaiseIsAdmitted(c: Controller, preset: Preset, o: Observation)
    requires Reached(c, preset) && RaisesAgainstPressure(c, o)
    ensures AdmitsRaise(preset, c.telemetry.stateIndex, o)
  {
    hide Ladder, Controller.Step, Controller.Govern, Heard, Controller.PredictedTotalMs, Controller.MayRaise,
         Controller.Read, Signals.Any, Headroom, Started;
    var run, obs, start :| LeadsTo(run, obs, preset, start, c);
    StartIsSound(preset, start);
    RunKeepsShort(run, obs, |obs|);
    RunIsTrace(run, obs);
    SamePreset(run, obs, 0, |obs|);
    RaisedAgainstPressure(c, o);
    RaisingNeedsHeadroom(c, o);
    ChangeIsGoverned(c, o);
    GovernRaises(Heard(c, o), o, Heard(c, o).Read(o), o.EvidenceSeconds());
    HeardKeepsEvidence(c, o);
    if o.FixedMode() && !o.SourceTargetValid() {
      MayRaiseNeedsSource(Heard(c, o), o);
    }
    StepAdvances(c, o);
  }

  lemma HeardKeepsEvidence(c: Controller, o: Observation)
    requires o.frameBudgetMs > 0.0
    ensures Heard(c, o).evidence == c.evidence
  {
  }

  /** Nothing stands in the way of an upstep on `o` but `h` seconds of headroom. */
  predicate Waiting(c: Controller, h: real, o: Observation) {
    && c.Sound() && c.enabled && c.telemetry.stateIndex == Floor(c.preset)
    && c.evidence.headroom == h && !Trial(c)
    && !c.clock.transitionHoldActive && c.clock.transitionSettleUntil <= c.clock.now
    && c.clock.schedulerHoldUntil <= c.clock.now && c.clock.cooldownUntil <= c.clock.now
    && c.recovery.retryBlockedUntilSeconds <= c.clock.now
    && (o.FixedMode() && !o.SourceTargetValid() ==>
          c.exploration.referenceValid && !c.exploration.probePending
          && o.sourceFps >= c.exploration.bestSourceFps * EXPLORATORY_SOURCE_DROP_RATIO)
  }

  lemma WaitingDecides(c: Controller, h: real, o: Observation)
    requires Waiting(c, h, o) && AdmitsRaise(c.preset, Floor(c.preset), o)
    ensures var (e, dt) := (Heard(c, o), o.EvidenceSeconds());
            && e.telemetry.stateIndex == Floor(e.preset) && e.preset == c.preset && dt > 0.0
            && c.Step(o) == e.DecideRaise(o, e.Read(o), dt) && !e.RetryBlocked(o)
            && e.MayRaise(o, e.Read(o)) && e.Read(o).Any() && !e.telemetry.changed
            && e.Sound() && e.evidence == c.evidence
            && Waiting(e.(telemetry := c.telemetry), h, o)
  {
    hide Ladder;
    NoRatio(o);
  }

  lemma NoRatio(o: Observation)
    requires o.TimingUsable()
    ensures o.totalLsfgMs / o.frameBudgetMs >= 0.0
  {
  }

  lemma PredictionAdmitted(e: Controller, o: Observation)
    requires 0 < e.telemetry.stateIndex <= Floor(e.preset) && o.frameBudgetMs > 0.0
    requires Headroom(o, e.preset, e.telemetry.stateIndex)
    ensures e.PredictedTotalMs(o) / o.frameBudgetMs <= RECOVERY_PREDICTED_RATIO
  {
    hide Ladder;
    AtMost(e.PredictedTotalMs(o), o.frameBudgetMs, RECOVERY_PREDICTED_RATIO);
  }

  /** Each such sample adds to the headroom until it is enough. */
  lemma WaitingStep(c: Controller, h: real, o: Observation)
    requires Waiting(c, h, o) && AdmitsRaise(c.preset, Floor(c.preset), o)
    ensures h + o.EvidenceSeconds() >= UP_CONFIRM_SECONDS ==> RaisesAgainstPressure(c, o)
    ensures h + o.EvidenceSeconds() < UP_CONFIRM_SECONDS ==>
              Waiting(c.Step(o), h + o.EvidenceSeconds(), o) && c.Step(o).preset == c.preset
  {
    hide Ladder, Controller.Step, Controller.Read, Controller.MayRaise, Controller.PredictedTotalMs, Heard, Headroom;
    WaitingDecides(c, h, o);
    PredictionAdmitted(Heard(c, o), o);
    StepAdvances(c, o);
  }

  lemma OneStepLess(h: real, dt: real)
    requires dt > 0.0 && h + dt < UP_CONFIRM_SECONDS
    ensures 0 <= ((UP_CONFIRM_SECONDS - (h + dt)) / dt).Floor < ((UP_CONFIRM_SECONDS - h) / dt).Floor
  {
    OneMore(UP_CONFIRM_SECONDS - (h + dt), dt);
  }

  lemma OneMore(a: real, b: real)
    requires a > 0.0 && b > 0.0
    ensures a / b > 0.0 && (a + b) / b == a / b + 1.0
  {
    var x, y := a / b, (a + b) / b;
    assert x * b == a && y * b == a + b;
    assert (x + 1.0) * b == x * b + b;
    Cancel(x + 1.0, y, b);
  }

  lemma Cancel(x: real, y: real, b: real)
    requires b > 0.0 && x * b == y * b
    ensures x == y
  {
    assert (x - y) * b == 0.0;
  }

  /** However short the samples, waiting ends in an upstep. */
  lemma {:induction false} WaitingEnds(run: seq<Controller>, obs: seq<Observation>, h: real, o: Observation)
    returns (longer: seq<Controller>, more: seq<Observation>)
    requires IsRun(run, obs) && Waiting(run[|obs|], h, o) && AdmitsRaise(run[|obs|].preset, Floor(run[|obs|].preset), o)
    ensures IsRun(longer, more) && longer[0] == run[0]
    ensures longer[|more|].telemetry.stateIndex == Floor(longer[|more|].preset)
    ensures longer[|more|].preset == run[|obs|].preset && RaisesAgainstPressure(longer[|more|], o)
    decreases if h < UP_CONFIRM_SECONDS then ((UP_CONFIRM_SECONDS - h) / o.EvidenceSeconds()).Floor else 0
  {
    hide Ladder, Controller.Step, Controller.Sound, RaisesAgainstPressure, AdmitsRaise;
    var c, dt := run[|obs|], o.EvidenceSeconds();
    WaitingStep(c, h, o);
    if h + dt >= UP_CONFIRM_SECONDS {
      longer, more := run, obs;
    } else {
      SampleCounts(c.preset, o);
      OneStepLess(h, dt);
      RunGoesOn(run, obs, o);
      longer, more := WaitingEnds(run + [c.Step(o)], obs + [o], h + dt, o);
    }
  }

  lemma SampleCounts(preset: Preset, o: Observation)
    requires AdmitsRaise(preset, Floor(preset), o)
    ensures o.EvidenceSeconds() > 0.0
  {
  }

  // ---- Getting there in fixed mode without a source target ----

  /** A sample of a fixed multiplier without a target, at a source rate. */
  function Probing(sourceFps: real): Observation {
    Observation(0.25, 100.0, 10.0, 10.0, 1, false, false, false, 0.0, sourceFps, 0.0, false, 0.0, true, 0.0, 0.0,
                false, false, true, false, 0.0, false, 0, false, false, false, true, false, false, false, true)
  }

  lemma LastStepIsWorth(e: Controller, o: Observation)
    requires e.telemetry.stateIndex == Floor(e.preset) - 1 && o.flowMs == 10.0
    ensures e.PredictedReliefMs(o) >= 0.25
  {
    var i := e.telemetry.stateIndex;
    var current, lower := Ladder(e.preset)[i], Ladder(e.preset)[i + 1];
    assert (lower, current) in {(0.70, 0.75), (0.55, 0.60), (0.25, 0.30)};
  }

  /** One slow sample a state above the floor lowers it on probation. */
  lemma ProbeLowers(preset: Preset, fps: real)
    requires fps > 0.0
    ensures var (c, o) := (Started(preset, Floor(preset) - 1), Probing(fps));
            var d := c.Step(o);
            && c.Sound() && d.Sound() && d.preset == preset && d.enabled && d.telemetry.stateIndex == Floor(preset)
            && d.downstep.active && d.downstep.exploratory && d.downstep.startedSeconds == 0.25
            && d.downstep.baseline.sourceFps == fps && !d.recovery.active
            && d.clock == Clock(0.25, 0.50, 0.0, false, 0.0) && d.recovery == NO_RECOVERY
            && d.exploration == Exploration(true, false, fps)
  {
    hide Ladder;
    LastStepIsWorth(Heard(Started(preset, Floor(preset) - 1), Probing(fps)), Probing(fps));
    StartIsSound(preset, Floor(preset) - 1);
    StepAdvances(Started(preset, Floor(preset) - 1), Probing(fps));
  }

  /** A sample twice as fast confirms it, and no probe is left pending at the floor. */
  lemma GainConfirms(d: Controller, preset: Preset, fps: real)
    requires d.Sound() && d.preset == preset && d.enabled && d.telemetry.stateIndex == Floor(preset) && fps > 0.0
    requires d.downstep.active && d.downstep.exploratory && d.downstep.startedSeconds == 0.25
    requires d.downstep.baseline.sourceFps == fps && d.recovery == NO_RECOVERY
    requires d.clock == Clock(0.25, 0.50, 0.0, false, 0.0) && d.exploration == Exploration(true, false, fps)
    ensures var c := d.Step(Probing(2.0 * fps));
            && c.Sound() && c.preset == preset && c.enabled && c.telemetry.stateIndex == Floor(preset)
            && !Trial(c) && c.recovery == NO_RECOVERY && c.evidence == NO_EVIDENCE
            && c.clock == Clock(0.50, 0.50, 0.0, false, 0.0)
            && c.exploration == Exploration(true, false, 2.0 * fps)
  {
    hide Ladder;
    StepAdvances(d, Probing(2.0 * fps));
  }

  /** A run from a start to the floor, ready to wait for `o`. */
  lemma Prepares(preset: Preset, o: Observation) returns (run: seq<Controller>, obs: seq<Observation>, start: nat)
    requires AdmitsRaise(preset, Floor(preset), o)
    ensures start <= Floor(preset) && IsRun(run, obs) && run[0] == Started(preset, start)
    ensures Waiting(run[|obs|], 0.0, o) && run[|obs|].preset == preset
  {
    hide Ladder, Controller.Step, Headroom, Started;
    start := Floor(preset);
    StartIsSound(preset, start);
    run, obs := [Started(preset, start)], [];
    NoObservation(run[0]);
    if o.FixedMode() && !o.SourceTargetValid() {
      start := Floor(preset) - 1;
      var fps := o.sourceFps / 2.0;
      StartIsSound(preset, start);
      var c := Started(preset, start);
      NoObservation(c);
      ProbeLowers(preset, fps);
      RunGoesOn([c], [], Probing(fps));
      var d := c.Step(Probing(fps));
      GainConfirms(d, preset, fps);
      RunGoesOn([c] + [d], [] + [Probing(fps)], Probing(2.0 * fps));
      run, obs := [c] + [d] + [d.Step(Probing(2.0 * fps))], [] + [Probing(fps)] + [Probing(2.0 * fps)];
    } else {
      StartedWaits(preset, o);
    }
  }

  lemma StartedWaits(preset: Preset, o: Observation)
    requires !(o.FixedMode() && !o.SourceTargetValid())
    ensures Waiting(Started(preset, Floor(preset)), 0.0, o)
  {
    hide Ladder;
  }

  /**
    Some controller reached from a reset or a seed raises quality on `o` from state `index` in spite
    of a pressure signal, if and only if that state is the floor, the observation shows headroom of
    every kind together with an announced deadline, and it is a sample that counts outside
    transitions, with a source rate where fixed mode has no target to compare it with.
  */
  lemma RaisesAgainstPressureIff(preset: Preset, index: nat, o: Observation)
    ensures (exists c :: Reached(c, preset) && c.telemetry.stateIndex == index && RaisesAgainstPressure(c, o))
            <==> AdmitsRaise(preset, index, o)
  {
    hide Ladder, RaisesAgainstPressure, AdmitsRaise, Reached;
    forall c | Reached(c, preset) && c.telemetry.stateIndex == index && RaisesAgainstPressure(c, o)
      ensures AdmitsRaise(preset, index, o)
    {
      RaiseIsAdmitted(c, preset, o);
    }
    if AdmitsRaise(preset, index, o) {
      RaiseHappens(preset, index, o);
    }
  }

  lemma RaiseHappens(preset: Preset, index: nat, o: Observation)
    requires AdmitsRaise(preset, index, o)
    ensures exists c :: Reached(c, preset) && c.telemetry.stateIndex == index && RaisesAgainstPressure(c, o)
  {
    hide Ladder, RaisesAgainstPressure, Headroom, Waiting;
    var run, obs, start := Prepares(preset, o);
    var longer, more := WaitingEnds(run, obs, 0.0, o);
    var c := longer[|more|];
    assert LeadsTo(longer, more, preset, start, c);
    assert Reached(c, preset);
  }

  /** Cheap work with an announced deadline, 100 ms after the last sample. */
  const LATE_SOON :=
    Observation(0.1, 10.0, 1.0, 0.0, 1, false, true, false, 0.0, 60.0, 0.0, true, 1.0, false, 120.0, 0.0,
                false, false, true, false, 0.0, false, 0, false, false, false, true, false, false, false, true)

  /** A run that gets there: such samples, again and again, at the floor. */
  lemma FloorRaisesAgainstDeadline() returns (run: seq<Controller>, obs: seq<Observation>)
    ensures IsRun(run, obs) && run[0] == Started(Balanced, 5) && RaisesAgainstPressure(run[|obs|], LATE_SOON)
  {
    hide Controller.Step, Started, RaisesAgainstPressure, Waiting;
    StartIsSound(Balanced, 5);
    NoObservation(Started(Balanced, 5));
    StartedWaits(Balanced, LATE_SOON);
    run, obs := WaitingEnds([Started(Balanced, 5)], [], 0.0, LATE_SOON);
  }
}
