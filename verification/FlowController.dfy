/**
  The Adaptive Flow governor: a controller that walks a discrete ladder of quality states, one
  state per decision, on evidence accumulated over observed time.

  `Controller` is the controller's state as a value and `Step` the specification of one
  observation; class `AdaptiveFlowController` keeps the same state in fields and updates them in
  place. Durations and ratios are exact reals.
*/
module FlowController {
  import opened Numbers

  datatype Preset = Quality | Balanced | Low | Auto

  datatype Reason =
    | NoReason | Disabled | InvalidTelemetry | FlowTransition | FlowTransitionSettle
    | SchedulerTransition | Cooldown | InsufficientFlowContribution | SustainedPressure
    | SustainedGlobalPressure | SustainedOutputPressure | SustainedSourcePressure
    | ExploratorySourcePressure | EvaluatingDownstep | DownstepBenefitConfirmed
    | DownstepReverted | InsufficientRecoveryHeadroom | SustainedHeadroom
    | EvaluatingRecoveryPacing | RecoveryPacingConfirmed | RecoveryPacingReverted

  const PRESSURE_RATIO := 0.90
  const RECOVERY_PREDICTED_RATIO := 0.82
  const MINIMUM_FLOW_BUDGET_RATIO := 0.10
  const MINIMUM_PREDICTED_RELIEF_RATIO := 0.025
  const MINIMUM_GLOBAL_PRESSURE_LSFG_BUDGET_RATIO := 0.40
  const DOWN_CONFIRM_SECONDS := 0.40
  const GLOBAL_DOWN_CONFIRM_SECONDS := 0.20
  const THERMAL_ACCELERATED_CONFIRM_SECONDS := 0.25
  const THERMAL_STATUS_SEVERE := 3
  const THERMAL_STATUS_MODERATE := 2
  const OUTPUT_DOWN_CONFIRM_SECONDS := 0.15
  const UP_CONFIRM_SECONDS := 1.75
  const GLOBAL_GPU_PRESSURE_PERCENT := 96.0
  const GLOBAL_GPU_RECOVERY_PERCENT := 88.0
  const TRANSITION_COOLDOWN_SECONDS := 0.50
  const OUTPUT_TRANSITION_COOLDOWN_SECONDS := 0.25
  const FLOW_TRANSITION_SETTLE_SECONDS := 0.25
  const SCHEDULER_TRANSITION_HOLD_SECONDS := 0.50
  const DOWNSTEP_EVALUATION_SECONDS := 0.30
  const OUTPUT_DOWNSTEP_EVALUATION_SECONDS := 0.15
  const DOWNSTEP_NO_BENEFIT_HOLD_SECONDS := 2.0
  const RECOVERY_PACING_EVALUATION_SECONDS := 0.40
  const RECOVERY_PACING_REGRESSION_CONFIRM_SECONDS := 0.15
  const RECOVERY_PACING_SOURCE_RETENTION_RATIO := 0.94
  const RECOVERY_PACING_DENSITY_INCREASE_TOLERANCE := 0.25
  const RECOVERY_PACING_REVERT_HOLD_SECONDS := 15.0
  const SOURCE_TARGET_SATISFIED_RATIO := 0.98
  const EXPLORATORY_SOURCE_DROP_RATIO := 0.97
  const MATERIAL_PRESSURE_RATIO_RELIEF := 0.05
  const MATERIAL_OUTPUT_GAIN_RATIO := 1.02
  const MATERIAL_SOURCE_GAIN_RATIO := 1.03
  const MATERIAL_FLOW_RELIEF_RATIO := 0.88
  const MATERIAL_TOTAL_RELIEF_RATIO := 0.95
  const MATERIAL_WSI_RELIEF_RATIO := 0.75
  const MATERIAL_GLOBAL_GPU_RELIEF_PERCENT := 3.0
  const EVIDENCE_CAP_SECONDS := 0.250
  const SCALE_EPSILON := 0.0005

  /** The quality states of a preset, best first. */
  function Ladder(preset: Preset): (states: seq<real>)
    ensures 6 <= |states| <= 16
    ensures forall i :: 0 <= i < |states| ==> 0.25 <= states[i] <= 1.0
  {
    match preset
    case Quality => [1.00, 0.95, 0.90, 0.85, 0.80, 0.75, 0.70]
    case Balanced => [0.80, 0.75, 0.70, 0.65, 0.60, 0.55]
    case Low => [0.55, 0.50, 0.45, 0.40, 0.35, 0.30, 0.25]
    case Auto => [1.00, 0.95, 0.90, 0.85, 0.80, 0.75, 0.70, 0.65,
                  0.60, 0.55, 0.50, 0.45, 0.40, 0.35, 0.30, 0.25]
  }

  function Floor(preset: Preset): nat { |Ladder(preset)| - 1 }

  datatype Observation = Observation(
    elapsedSeconds: real, frameBudgetMs: real, totalLsfgMs: real, flowMs: real,
    generationCount: nat, deadlineMissed: bool, computeDeadlinePressure: bool,
    wsiPresentationPressure: bool, wsiLossRate: real, sourceFps: real, sourceTargetFps: real,
    adaptiveFramegenMode: bool, scheduledGenerationDensity: real, fixedMultiplierMode: bool,
    outputFps: real, outputTargetFps: real, outputCadenceValid: bool, outputTargeted: bool,
    outputTargetSatisfied: bool, fixedMultiplierBaseTarget: bool, globalGpuUsagePercent: real,
    globalPressureValid: bool, thermalStatus: int, thermalPressureValid: bool,
    outputDeficit: bool, syntheticDropPressure: bool, generatedWorkSample: bool,
    retainedGeneratedTimingSample: bool, schedulerTransition: bool, flowTransition: bool,
    valid: bool)
  {
    predicate FixedMode() { fixedMultiplierMode || fixedMultiplierBaseTarget }

    predicate SourceTargetValid() { FixedMode() && sourceTargetFps > 0.0 }

    predicate TimingUsable() {
      valid && frameBudgetMs > 0.0 && totalLsfgMs >= 0.0 && flowMs >= 0.0
    }

    /** The share of real time that counts as evidence: never negative, capped per sample. */
    function EvidenceSeconds(): (dt: real)
      ensures 0.0 <= dt <= EVIDENCE_CAP_SECONDS
    {
      if elapsedSeconds > 0.0 then Least(elapsedSeconds, EVIDENCE_CAP_SECONDS) else 0.0
    }
  }

  /** What one observation measured. */
  datatype Sample = Sample(
    pressureRatio: real, flowBudgetRatio: real, globalGpuUsagePercent: real,
    globalPressure: bool, thermalStatus: int, thermalPressure: bool, computePressure: bool,
    wsiPressure: bool, outputDeficit: bool, outputPressure: bool, sourcePressure: bool,
    exploratorySourcePressure: bool, sourceReferenceFps: real)

  const NO_SAMPLE :=
    Sample(0.0, 0.0, 0.0, false, 0, false, false, false, false, false, false, false, 0.0)

  datatype Telemetry = Telemetry(
    targetScale: real, minimumScale: real, stateCount: nat, currentScale: real, stateIndex: nat,
    changed: bool, reason: Reason, estimatedNextTotalMs: real, downstepEvaluationActive: bool,
    sample: Sample)
  {
    /** What every observation clears before looking at its sample. */
    function Cleared(trialActive: bool): Telemetry {
      this.(changed := false, estimatedNextTotalMs := 0.0,
            downstepEvaluationActive := trialActive, sample := NO_SAMPLE)
    }

    function Moved(index: nat, scale: real, why: Reason): Telemetry {
      this.(stateIndex := index, currentScale := scale, changed := true, reason := why)
    }
  }

  const DEFAULT_TELEMETRY :=
    Telemetry(1.0, 1.0, 0, 1.0, 0, false, NoReason, 0.0, false, NO_SAMPLE)

  function TargetTelemetry(preset: Preset): Telemetry {
    DEFAULT_TELEMETRY.(targetScale := Ladder(preset)[0], minimumScale := Ladder(preset)[Floor(preset)],
                       currentScale := Ladder(preset)[0], stateCount := |Ladder(preset)|)
  }

  /** What a quality reduction is measured against. */
  datatype Baseline = Baseline(
    pressureRatio: real, flowMs: real, totalMs: real, sourceFps: real, outputFps: real,
    wsiLossRate: real, globalGpuPercent: real, outputValid: bool, computePressure: bool,
    wsiPressure: bool, globalPressure: bool)

  const NO_BASELINE := Baseline(0.0, 0.0, 0.0, 0.0, 0.0, 0.0, 0.0, false, false, false, false)

  /** A quality reduction under measurement. */
  datatype DownstepTrial = DownstepTrial(
    active: bool, benefitSeen: bool, outputDriven: bool, sourceDriven: bool, exploratory: bool,
    previousIndex: nat, startedSeconds: real, baseline: Baseline)
  {
    function Cancelled(): DownstepTrial {
      this.(active := false, benefitSeen := false, outputDriven := false, sourceDriven := false,
            exploratory := false)
    }

    /** Measured afresh from `now` on, when it is running. */
    function Restarted(now: real): DownstepTrial {
      if active then this.(startedSeconds := now, benefitSeen := false) else this
    }
  }

  /** A quality increase under measurement in Adaptive frame generation. */
  datatype RecoveryTrial = RecoveryTrial(
    active: bool, previousIndex: nat, startedSeconds: real, regressionSeconds: real,
    retryBlockedUntilSeconds: real, sourceFps: real, density: real)
  {
    /** Measured afresh from `now` on, when it is running. */
    function Restarted(now: real): RecoveryTrial {
      if active then this.(startedSeconds := now, regressionSeconds := 0.0) else this
    }
  }

  datatype Exploration = Exploration(
    referenceValid: bool, probePending: bool, bestSourceFps: real)

  const NO_DOWNSTEP :=
    DownstepTrial(false, false, false, false, false, 0, 0.0, NO_BASELINE)

  const NO_RECOVERY := RecoveryTrial(false, 0, 0.0, 0.0, 0.0, 0.0, 0.0)

  const NO_EXPLORATION := Exploration(false, false, 0.0)

  /** The pressure signals one observation raises. */
  datatype Signals = Signals(
    compute: bool, sourceSample: bool, actionableDeficit: bool, output: bool, source: bool,
    exploratory: bool, globalGpu: bool, global: bool, thermalSevere: bool, wsiFlow: bool,
    recoveryWsi: bool)
  {
    predicate Any() { compute || global || wsiFlow || output || source || exploratory }
    predicate Target() { output || source }
    predicate Fast() { Target() || exploratory }
  }

  /** Observed time and the barriers that stand in it. */
  datatype Clock = Clock(
    now: real, cooldownUntil: real, schedulerHoldUntil: real, transitionHoldActive: bool,
    transitionSettleUntil: real)

  const EPOCH := Clock(0.0, 0.0, 0.0, false, 0.0)

  /** Seconds of uninterrupted pressure, and of uninterrupted headroom. */
  datatype Evidence = Evidence(pressure: real, headroom: real)

  const NO_EVIDENCE := Evidence(0.0, 0.0)

  datatype Controller = Controller(
    enabled: bool, preset: Preset, clock: Clock, evidence: Evidence, downstep: DownstepTrial,
    recovery: RecoveryTrial, exploration: Exploration, telemetry: Telemetry)
  {
    function Report(reason: Reason): Controller {
      this.(telemetry := telemetry.(reason := reason))
    }

    function NoEvidence(): Controller {
      this.(evidence := NO_EVIDENCE)
    }

    function MoveTo(index: nat, reason: Reason): Controller
      requires index <= Floor(preset)
    {
      this.(telemetry := telemetry.Moved(index, Ladder(preset)[index], reason))
    }

    function Advance(dt: real, flowTransition: bool): Controller {
      var t := clock.now + dt;
      if flowTransition then
        this.(clock := clock.(now := t, transitionHoldActive := true,
                              transitionSettleUntil := t + FLOW_TRANSITION_SETTLE_SECONDS))
      else this.(clock := clock.(now := t))
    }

    /** A barrier restarts whichever trial is running and drops all evidence. */
    function RestartTrials(): Controller {
      NoEvidence().(
        downstep := downstep.Restarted(clock.now),
        recovery := recovery.Restarted(clock.now),
        telemetry := telemetry.(downstepEvaluationActive := downstep.active))
    }

    function DeferTrials(dt: real): Controller {
      NoEvidence().(
        downstep := if downstep.active
                    then downstep.(startedSeconds := downstep.startedSeconds + dt) else downstep,
        recovery := if recovery.active
                    then recovery.(startedSeconds := recovery.startedSeconds + dt) else recovery,
        telemetry := telemetry.(downstepEvaluationActive := downstep.active))
    }

    function Explore(o: Observation): Exploration {
      if !o.FixedMode() || o.SourceTargetValid() then NO_EXPLORATION
      else if !(o.sourceFps > 0.0 && o.generatedWorkSample && o.generationCount > 0) then exploration
      else
        var x :=
          if !exploration.referenceValid then Exploration(true, true, o.sourceFps)
          else if !downstep.active && o.sourceFps > exploration.bestSourceFps
          then exploration.(bestSourceFps := o.sourceFps)
          else exploration;
        if !x.probePending && o.sourceFps < x.bestSourceFps * EXPLORATORY_SOURCE_DROP_RATIO
        then x.(probePending := true) else x
    }

    /** The signals of `o`, read after exploration was updated. */
    function Read(o: Observation): Signals
      requires o.frameBudgetMs > 0.0
    {
      var ratio := o.totalLsfgMs / o.frameBudgetMs;
      var sourceSample := o.sourceFps > 0.0;
      var deficit := o.outputDeficit && !o.FixedMode();
      var globalGpu := o.globalPressureValid && o.globalGpuUsagePercent >= GLOBAL_GPU_PRESSURE_PERCENT;
      Signals(
        compute := (o.generatedWorkSample
                    && (o.computeDeadlinePressure || o.deadlineMissed || ratio >= PRESSURE_RATIO))
                   || (o.retainedGeneratedTimingSample && ratio >= 1.0),
        sourceSample := sourceSample,
        actionableDeficit := deficit,
        output := o.outputCadenceValid && o.outputTargeted && deficit && !o.outputTargetSatisfied,
        source := o.SourceTargetValid() && sourceSample
                  && o.sourceFps < o.sourceTargetFps * SOURCE_TARGET_SATISFIED_RATIO,
        exploratory := o.FixedMode() && !o.SourceTargetValid() && exploration.referenceValid
                       && exploration.probePending && sourceSample && o.generatedWorkSample
                       && o.generationCount > 0,
        globalGpu := globalGpu,
        global := globalGpu && (deficit || o.syntheticDropPressure),
        thermalSevere := o.thermalPressureValid && o.thermalStatus >= THERMAL_STATUS_SEVERE,
        wsiFlow := o.wsiPresentationPressure && globalGpu && deficit,
        recoveryWsi := o.wsiPresentationPressure && !o.FixedMode())
    }

    function Measured(o: Observation, s: Signals): Sample
      requires o.frameBudgetMs > 0.0
    {
      Sample(
        pressureRatio := o.totalLsfgMs / o.frameBudgetMs,
        flowBudgetRatio := o.flowMs / o.frameBudgetMs,
        globalGpuUsagePercent := if o.globalPressureValid then o.globalGpuUsagePercent else 0.0,
        outputDeficit := o.outputDeficit,
        computePressure := s.compute,
        wsiPressure := o.wsiPresentationPressure,
        globalPressure := s.global,
        thermalStatus := if o.thermalPressureValid then o.thermalStatus else 0,
        thermalPressure := s.thermalSevere,
        outputPressure := s.output,
        sourcePressure := s.source,
        exploratorySourcePressure := s.exploratory,
        sourceReferenceFps := if o.SourceTargetValid() then o.sourceTargetFps
                              else if exploration.referenceValid then exploration.bestSourceFps
                              else 0.0)
    }

    function Record(o: Observation, s: Signals): Controller
      requires o.frameBudgetMs > 0.0
    {
      this.(telemetry := telemetry.(sample := Measured(o, s)))
    }

    predicate Regresses(o: Observation, s: Signals) {
      && s.sourceSample
      && recovery.sourceFps > 0.0
      && o.sourceFps < recovery.sourceFps * RECOVERY_PACING_SOURCE_RETENTION_RATIO
      && o.adaptiveFramegenMode
      && o.scheduledGenerationDensity >= 0.0
      && o.scheduledGenerationDensity
         > recovery.density + RECOVERY_PACING_DENSITY_INCREASE_TOLERANCE
    }

    function EvaluateRecovery(o: Observation, s: Signals, dt: real): Controller {
      var regression := if Regresses(o, s) then recovery.regressionSeconds + dt else 0.0;
      if regression >= RECOVERY_PACING_REGRESSION_CONFIRM_SECONDS then
        NoEvidence()
          .MoveTo(if recovery.previousIndex <= Floor(preset) then recovery.previousIndex else Floor(preset),
                  RecoveryPacingReverted)
          .(recovery := recovery.(
              active := false, regressionSeconds := 0.0,
              retryBlockedUntilSeconds := clock.now + RECOVERY_PACING_REVERT_HOLD_SECONDS),
            clock := clock.(cooldownUntil := clock.now + TRANSITION_COOLDOWN_SECONDS))
      else if clock.now - recovery.startedSeconds < RECOVERY_PACING_EVALUATION_SECONDS then
        NoEvidence().(recovery := recovery.(regressionSeconds := regression))
          .Report(EvaluatingRecoveryPacing)
      else
        NoEvidence().(recovery := recovery.(active := false, regressionSeconds := 0.0))
          .Report(RecoveryPacingConfirmed)
    }

    function NoteSchedulerTransition(dt: real): Controller {
      this.(
        downstep := if downstep.active
                    then downstep.(startedSeconds := downstep.startedSeconds + dt) else downstep,
        clock := clock.(schedulerHoldUntil :=
          Most(clock.schedulerHoldUntil, clock.now + SCHEDULER_TRANSITION_HOLD_SECONDS)),
        evidence := evidence.(headroom := 0.0))
    }

    function DeferForScheduler(dt: real): Controller {
      this.(
        downstep := if downstep.active
                    then downstep.(startedSeconds := downstep.startedSeconds + dt) else downstep,
        evidence := evidence.(headroom := 0.0))
    }

    function HoldForScheduler(s: Signals, dt: real): Controller {
      this.(evidence := evidence.(pressure := if s.global then evidence.pressure + dt else 0.0))
        .Report(SchedulerTransition)
    }

    predicate SourceBenefit(o: Observation) {
      downstep.baseline.sourceFps > 0.0 && o.sourceFps >= downstep.baseline.sourceFps * MATERIAL_SOURCE_GAIN_RATIO
    }

    predicate Benefit(o: Observation, s: Signals) {
      if downstep.exploratory then SourceBenefit(o)
      else
        || (downstep.baseline.outputValid && o.outputCadenceValid
            && o.outputFps >= downstep.baseline.outputFps * MATERIAL_OUTPUT_GAIN_RATIO)
        || SourceBenefit(o)
        || (downstep.baseline.computePressure && o.generatedWorkSample
            && (!s.compute
                || telemetry.sample.pressureRatio <= downstep.baseline.pressureRatio - MATERIAL_PRESSURE_RATIO_RELIEF
                || (o.flowMs <= downstep.baseline.flowMs * MATERIAL_FLOW_RELIEF_RATIO
                    && o.totalLsfgMs <= downstep.baseline.totalMs * MATERIAL_TOTAL_RELIEF_RATIO)))
        || (downstep.baseline.wsiPressure && downstep.baseline.wsiLossRate > 0.0
            && o.wsiLossRate <= downstep.baseline.wsiLossRate * MATERIAL_WSI_RELIEF_RATIO)
        || (downstep.baseline.globalPressure && o.globalPressureValid
            && o.globalGpuUsagePercent
               <= downstep.baseline.globalGpuPercent - MATERIAL_GLOBAL_GPU_RELIEF_PERCENT)
        || (downstep.outputDriven && !o.FixedMode() && o.outputCadenceValid && o.outputTargeted
            && !o.outputTargetSatisfied && !downstep.baseline.wsiPressure)
        || (downstep.sourceDriven && s.source)
    }

    function EvaluationSeconds(): real {
      if downstep.outputDriven || downstep.sourceDriven || downstep.exploratory
      then OUTPUT_DOWNSTEP_EVALUATION_SECONDS else DOWNSTEP_EVALUATION_SECONDS
    }

    function ConfirmDownstep(o: Observation): Controller {
      NoEvidence().(
        downstep := downstep.Cancelled(),
        exploration := if downstep.exploratory
                       then Exploration(true, telemetry.stateIndex + 1 < |Ladder(preset)|,
                                        Most(exploration.bestSourceFps, o.sourceFps))
                       else exploration,
        telemetry := telemetry.(downstepEvaluationActive := false,
                                reason := DownstepBenefitConfirmed))
    }

    function RevertDownstep(): Controller {
      NoEvidence()
        .MoveTo(if downstep.previousIndex <= Floor(preset) then downstep.previousIndex else Floor(preset),
                DownstepReverted)
        .(downstep := downstep.Cancelled(),
          exploration := if downstep.exploratory then exploration.(probePending := false)
                         else exploration,
          clock := clock.(cooldownUntil := clock.now + DOWNSTEP_NO_BENEFIT_HOLD_SECONDS))
        .ClearTrialFlag()
    }

    function EvaluateDownstep(o: Observation, s: Signals): Controller {
      var seen := downstep.benefitSeen || Benefit(o, s);
      var c := NoEvidence().(downstep := downstep.(benefitSeen := seen));
      if clock.now - downstep.startedSeconds < EvaluationSeconds() then
        c.(telemetry := telemetry.(downstepEvaluationActive := true, reason := EvaluatingDownstep))
      else if seen then c.ConfirmDownstep(o)
      else c.RevertDownstep()
    }

    function ClearTrialFlag(): Controller {
      this.(telemetry := telemetry.(downstepEvaluationActive := false))
    }

    /** Flow time saved by moving from state `index` to the next cheaper one. */
    function PredictedReliefMs(o: Observation): real
      requires telemetry.stateIndex < Floor(preset)
    {
      var current := Ladder(preset)[telemetry.stateIndex];
      var lower := Ladder(preset)[telemetry.stateIndex + 1];
      o.flowMs * (1.0 - (lower * lower) / (current * current))
    }

    /** Whether a cheaper state is judged worth its quality. */
    predicate WorthLowering(o: Observation, s: Signals)
      requires telemetry.stateIndex < Floor(preset) && o.frameBudgetMs > 0.0
    {
      var relief := PredictedReliefMs(o);
      var gated :=
        && !(s.Target() && !s.compute)
        && ((s.exploratory && !s.Target() && !s.compute && !(o.flowMs >= 1.0 && relief >= 0.25))
            || (!s.Fast()
                && (telemetry.sample.flowBudgetRatio < MINIMUM_FLOW_BUDGET_RATIO
                    || relief / o.frameBudgetMs < MINIMUM_PREDICTED_RELIEF_RATIO)));
      var globalOnly := s.global && !s.compute && !s.Fast();
      !gated
      && (!globalOnly || telemetry.sample.pressureRatio >= MINIMUM_GLOBAL_PRESSURE_LSFG_BUDGET_RATIO)
    }

    function ConfirmSeconds(s: Signals): real {
      if s.Fast() then OUTPUT_DOWN_CONFIRM_SECONDS
      else if s.global then GLOBAL_DOWN_CONFIRM_SECONDS
      else if s.thermalSevere && s.Any() then THERMAL_ACCELERATED_CONFIRM_SECONDS
      else DOWN_CONFIRM_SECONDS
    }

    function OpenDownstep(o: Observation, s: Signals): DownstepTrial {
      DownstepTrial(true, false, s.output, s.source, s.exploratory && !s.Target(),
                    telemetry.stateIndex, clock.now,
                    Baseline(telemetry.sample.pressureRatio, o.flowMs, o.totalLsfgMs, o.sourceFps,
                             o.outputFps, o.wsiLossRate, o.globalGpuUsagePercent,
                             o.outputCadenceValid, s.compute, o.wsiPresentationPressure, s.global))
    }

    function DownReason(s: Signals): Reason {
      if s.output then SustainedOutputPressure
      else if s.source then SustainedSourcePressure
      else if s.exploratory && !s.Target() then ExploratorySourcePressure
      else if s.global then SustainedGlobalPressure
      else SustainedPressure
    }

    /** One state down, with a trial of it opened. */
    function Lower(o: Observation, s: Signals): Controller
      requires telemetry.stateIndex < Floor(preset) && o.frameBudgetMs > 0.0
    {
      NoEvidence().MoveTo(telemetry.stateIndex + 1, DownReason(s))
        .(downstep := OpenDownstep(o, s),
          exploration := if s.exploratory && !s.Target()
                         then exploration.(probePending := false) else exploration,
          clock := clock.(cooldownUntil := clock.now
            + (if s.Fast() then OUTPUT_TRANSITION_COOLDOWN_SECONDS
               else TRANSITION_COOLDOWN_SECONDS)))
        .MarkTrial()
    }

    function DecideLower(o: Observation, s: Signals, dt: real): Controller
      requires telemetry.stateIndex < Floor(preset) && o.frameBudgetMs > 0.0
    {
      if !WorthLowering(o, s) then NoEvidence().Report(InsufficientFlowContribution)
      else
        var pressure := evidence.pressure + dt;
        var c := this.(evidence := Evidence(pressure, 0.0));
        if pressure >= ConfirmSeconds(s) then c.Lower(o, s) else c.Report(NoReason)
    }

    function MarkTrial(): Controller {
      this.(telemetry := telemetry.(downstepEvaluationActive := true))
    }

    predicate GlobalHeadroom(o: Observation) {
      !o.globalPressureValid || o.globalGpuUsagePercent <= GLOBAL_GPU_RECOVERY_PERCENT
    }

    predicate SourceRecovered(o: Observation, s: Signals) {
      || !o.FixedMode()
      || (o.SourceTargetValid()
          && o.sourceFps >= o.sourceTargetFps * SOURCE_TARGET_SATISFIED_RATIO)
      || (!o.SourceTargetValid() && exploration.referenceValid && !exploration.probePending
          && s.sourceSample
          && o.sourceFps >= exploration.bestSourceFps * EXPLORATORY_SOURCE_DROP_RATIO)
    }

    predicate MayRaise(o: Observation, s: Signals) {
      && !o.deadlineMissed
      && (o.generatedWorkSample
          || (o.globalPressureValid && GlobalHeadroom(o) && !s.actionableDeficit
              && !o.syntheticDropPressure))
      && !s.actionableDeficit
      && !o.syntheticDropPressure
      && !s.recoveryWsi
      && (o.FixedMode() || !o.outputTargeted || o.outputTargetSatisfied)
      && SourceRecovered(o, s)
      && GlobalHeadroom(o)
      && (!o.thermalPressureValid || o.thermalStatus <= THERMAL_STATUS_MODERATE)
    }

    /** Total cost predicted for the next better state. */
    function PredictedTotalMs(o: Observation): real
      requires 0 < telemetry.stateIndex <= Floor(preset)
    {
      var current := Ladder(preset)[telemetry.stateIndex];
      var higher := Ladder(preset)[telemetry.stateIndex - 1];
      o.totalLsfgMs + o.flowMs * ((higher * higher) / (current * current) - 1.0)
    }

    predicate RetryBlocked(o: Observation) {
      && telemetry.stateIndex > 0
      && o.adaptiveFramegenMode
      && clock.now < recovery.retryBlockedUntilSeconds
    }

    /** One state up; in Adaptive frame generation the step is a trial. */
    function Raise(o: Observation, s: Signals): Controller
      requires 0 < telemetry.stateIndex <= Floor(preset)
    {
      NoEvidence().MoveTo(telemetry.stateIndex - 1, SustainedHeadroom)
        .(recovery := if o.adaptiveFramegenMode && s.sourceSample
                         && o.scheduledGenerationDensity >= 0.0
                      then recovery.(active := true, previousIndex := telemetry.stateIndex,
                                     startedSeconds := clock.now,
                                     regressionSeconds := 0.0, sourceFps := o.sourceFps,
                                     density := o.scheduledGenerationDensity)
                      else recovery,
          exploration := if o.FixedMode() && !o.SourceTargetValid()
                         then exploration.(probePending := false) else exploration,
          clock := clock.(cooldownUntil := clock.now + TRANSITION_COOLDOWN_SECONDS))
    }

    function DecideRaise(o: Observation, s: Signals, dt: real): Controller
      requires telemetry.stateIndex <= Floor(preset) && o.frameBudgetMs > 0.0
    {
      var c := this.NoEvidence();
      if RetryBlocked(o) then c.Report(InsufficientRecoveryHeadroom)
      else if telemetry.stateIndex == 0 || !MayRaise(o, s) then
        c
          .Report(if telemetry.stateIndex > 0 then InsufficientRecoveryHeadroom else NoReason)
      else
        var predicted := PredictedTotalMs(o);
        var e := c.(telemetry := telemetry.(estimatedNextTotalMs := predicted));
        if predicted / o.frameBudgetMs > RECOVERY_PREDICTED_RATIO then
          e.Report(InsufficientRecoveryHeadroom)
        else
          var h := e.(evidence := Evidence(0.0, evidence.headroom + dt));
          if h.evidence.headroom >= UP_CONFIRM_SECONDS then h.Raise(o, s) else h.Report(NoReason)
    }

    function Decide(o: Observation, s: Signals, dt: real): Controller
      requires telemetry.stateIndex <= Floor(preset) && o.frameBudgetMs > 0.0
    {
      if clock.now < clock.cooldownUntil then NoEvidence().Report(Cooldown)
      else if s.Any() && telemetry.stateIndex < Floor(preset) then DecideLower(o, s, dt)
      else DecideRaise(o, s, dt)
    }

    predicate Severe(s: Signals) { s.compute && telemetry.sample.pressureRatio >= 1.0 }

    /** The controller after trials and holds had their say, or the decision itself. */
    function Govern(o: Observation, s: Signals, dt: real): Controller
      requires telemetry.stateIndex <= Floor(preset) && o.frameBudgetMs > 0.0
    {
      if recovery.active then EvaluateRecovery(o, s, dt)
      else
        var c := if o.schedulerTransition then NoteSchedulerTransition(dt) else this;
        if o.schedulerTransition && !Severe(s) then c.HoldForScheduler(s, dt)
        else if c.clock.now < c.clock.schedulerHoldUntil && !Severe(s) then
          c.DeferForScheduler(dt).HoldForScheduler(s, dt)
        else if c.downstep.active then c.EvaluateDownstep(o, s)
        else c.Decide(o, s, dt)
    }

    /** One observation. */
    function Step(o: Observation): Controller
      requires telemetry.stateIndex <= Floor(preset)
    {
      var c := this.(telemetry := telemetry.Cleared(downstep.active));
      if !enabled then c.Report(Disabled)
      else
        var dt := o.EvidenceSeconds();
        var t := c.Advance(dt, o.flowTransition);
        if t.clock.transitionHoldActive then
          t.(clock := t.clock.(transitionHoldActive := o.flowTransition)).RestartTrials().Report(FlowTransition)
        else if t.clock.now < t.clock.transitionSettleUntil then
          t.RestartTrials().Report(FlowTransitionSettle)
        else if !o.TimingUsable() then t.DeferTrials(dt).Report(InvalidTelemetry)
        else
          var e := t.(exploration := t.Explore(o));
          var s := e.Read(o);
          e.Record(o, s).Govern(o, s, dt)
    }

    /** What holds between observations: the state is on the ladder and at most one trial runs. */
    predicate Sound() {
      && telemetry.stateIndex <= Floor(preset)
      && telemetry.currentScale == Ladder(preset)[telemetry.stateIndex]
      && evidence.pressure >= 0.0 && evidence.headroom >= 0.0
      && !(downstep.active && recovery.active)
      && (downstep.active ==> telemetry.stateIndex == downstep.previousIndex + 1)
      && (recovery.active ==> telemetry.stateIndex + 1 == recovery.previousIndex <= Floor(preset))
    }

    function Reset(): Controller {
      Controller(enabled, preset, EPOCH, NO_EVIDENCE, downstep.Cancelled(), NO_RECOVERY,
                 NO_EXPLORATION, TargetTelemetry(preset))
        .Report(if enabled then NoReason else Disabled)
    }
  }

  /** A controller as its default constructor leaves it. */
  const DORMANT :=
    Controller(false, Quality, EPOCH, NO_EVIDENCE, NO_DOWNSTEP, NO_RECOVERY, NO_EXPLORATION,
               DEFAULT_TELEMETRY)

  /** The first ladder state within tolerance of `scale`, from `from` on. */
  function FindState(states: seq<real>, scale: real, from: nat): (index: nat)
    requires from <= |states|
    ensures from <= index <= |states|
    ensures index < |states| ==>
              states[index] - SCALE_EPSILON <= scale <= states[index] + SCALE_EPSILON
    ensures forall i :: from <= i < index ==>
              !(states[i] - SCALE_EPSILON <= scale <= states[i] + SCALE_EPSILON)
    decreases |states| - from
  {
    if from == |states| then from
    else if states[from] - SCALE_EPSILON <= scale <= states[from] + SCALE_EPSILON then from
    else FindState(states, scale, from + 1)
  }
}
