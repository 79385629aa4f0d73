/**
  The controller as the runtime holds it: fields updated in place, one observation at a time.
  Every method is tied to the value-level specification of module FlowController.
*/
module AdaptiveFlow {
  import opened Numbers
  import opened FlowController
  import opened FlowTheorems

  class AdaptiveFlowController {
    var enabled: bool
    var preset: Preset
    var clock: Clock
    var evidence: Evidence
    var downstep: DownstepTrial
    var recovery: RecoveryTrial
    var exploration: Exploration
    var telemetry: Telemetry

    function State(): Controller
      reads this
    {
      Controller(enabled, preset, clock, evidence, downstep, recovery, exploration, telemetry)
    }

    constructor ()
      ensures State() == DORMANT && State().Sound()
    {
      enabled, preset := false, Quality;
      clock, evidence := EPOCH, NO_EVIDENCE;
      downstep, recovery, exploration := NO_DOWNSTEP, NO_RECOVERY, NO_EXPLORATION;
      telemetry := DEFAULT_TELEMETRY;
    }

    constructor Enabled(choice: Preset)
      ensures State() == DORMANT.(enabled := true, preset := choice, telemetry := TargetTelemetry(choice))
      ensures State().Sound()
    {
      enabled, preset := true, choice;
      clock, evidence := EPOCH, NO_EVIDENCE;
      downstep, recovery, exploration := NO_DOWNSTEP, NO_RECOVERY, NO_EXPLORATION;
      new;
      SelectTargetState();
    }

    method ResetEvidence()
      modifies this`evidence
      ensures evidence == NO_EVIDENCE
    {
      evidence := evidence.(pressure := 0.0);
      evidence := evidence.(headroom := 0.0);
    }

    method CancelDownstep()
      modifies this`downstep
      ensures downstep == old(downstep).Cancelled()
    {
      downstep := downstep.(active := false, benefitSeen := false, outputDriven := false,
                            sourceDriven := false, exploratory := false);
    }

    method SelectTargetState()
      modifies this`telemetry
      ensures telemetry == TargetTelemetry(preset)
    {
      var states := Ladder(preset);
      telemetry := DEFAULT_TELEMETRY;
      telemetry := telemetry.(targetScale := states[0], minimumScale := states[|states| - 1],
                              stateCount := |states|, currentScale := states[0], stateIndex := 0);
    }

    method Reset()
      modifies this
      ensures State() == old(State()).Reset() && State().Sound()
    {
      clock := EPOCH;
      CancelDownstep();
      recovery := NO_RECOVERY;
      exploration := NO_EXPLORATION;
      ResetEvidence();
      SelectTargetState();
      if !enabled {
        telemetry := telemetry.(reason := Disabled);
      }
    }

    method Configure(enable: bool, choice: Preset)
      requires State().Sound()
      modifies this
      ensures State().Sound()
      ensures State() == if old(enabled) == enable && old(preset) == choice then old(State())
                         else old(State()).(enabled := enable, preset := choice).Reset()
    {
      if enabled == enable && preset == choice {
        return;
      }
      enabled := enable;
      preset := choice;
      Reset();
    }

    method SeedCurrentScale(scale: real) returns (seeded: bool)
      requires State().Sound()
      modifies this
      ensures State().Sound()
      ensures preset == old(preset)
      ensures seeded <==> old(enabled) && FindState(Ladder(old(preset)), scale, 0) < |Ladder(old(preset))|
      ensures !seeded ==> State() == old(State())
      ensures seeded ==>
                var index := FindState(Ladder(old(preset)), scale, 0);
                index < |Ladder(preset)| && State() == old(State()).Reset().(
                  telemetry := TargetTelemetry(preset).(
                    stateIndex := index, currentScale := Ladder(preset)[index]))
    {
      if !enabled {
        return false;
      }
      var states := Ladder(preset);
      var index := FindState(states, scale, 0);
      if index == |states| {
        return false;
      }
      Reset();
      telemetry := telemetry.(stateIndex := index, currentScale := states[index]);
      return true;
    }

    method Move(index: nat, reason: Reason)
      requires index <= Floor(preset)
      modifies this`telemetry
      ensures telemetry == old(telemetry).Moved(index, Ladder(preset)[index], reason)
    {
      telemetry := telemetry.(stateIndex := index);
      telemetry := telemetry.(currentScale := Ladder(preset)[telemetry.stateIndex]);
      telemetry := telemetry.(changed := true, reason := reason);
    }

    method RestartDownstep()
      modifies this`downstep
      ensures downstep == old(downstep).Restarted(clock.now)
    {
      if downstep.active {
        downstep := downstep.(startedSeconds := clock.now, benefitSeen := false);
      }
    }

    method RestartRecovery()
      modifies this`recovery
      ensures recovery == old(recovery).Restarted(clock.now)
    {
      if recovery.active {
        recovery := recovery.(startedSeconds := clock.now, regressionSeconds := 0.0);
      }
    }

    method RestartTrials(reason: Reason)
      modifies this
      ensures State() == old(State()).RestartTrials().Report(reason)
    {
      RestartDownstep();
      RestartRecovery();
      ResetEvidence();
      telemetry := telemetry.(downstepEvaluationActive := downstep.active, reason := reason);
    }

    method UpdateExploration(o: Observation)
      modifies this`exploration
      ensures exploration == old(State()).Explore(o)
    {
      var fixedMode := o.fixedMultiplierMode || o.fixedMultiplierBaseTarget;
      if !fixedMode || o.sourceTargetFps > 0.0 {
        exploration := Exploration(false, false, 0.0);
      } else if o.sourceFps > 0.0 && o.generatedWorkSample && o.generationCount > 0 {
        if !exploration.referenceValid {
          exploration := Exploration(true, true, o.sourceFps);
        } else if !downstep.active && o.sourceFps > exploration.bestSourceFps {
          exploration := exploration.(bestSourceFps := o.sourceFps);
        }
        if !exploration.probePending
           && o.sourceFps < exploration.bestSourceFps * EXPLORATORY_SOURCE_DROP_RATIO {
          exploration := exploration.(probePending := true);
        }
      }
    }

    /** The pressure signals of one usable sample. */
    method ReadSignals(o: Observation) returns (s: Signals)
      requires o.frameBudgetMs > 0.0
      ensures s == State().Read(o)
    {
      var pressureRatio := o.totalLsfgMs / o.frameBudgetMs;
      var freshPressure := o.generatedWorkSample
                           && (o.computeDeadlinePressure || o.deadlineMissed || pressureRatio >= PRESSURE_RATIO);
      var retainedSevere := o.retainedGeneratedTimingSample && pressureRatio >= 1.0;
      var fixedMode := o.fixedMultiplierMode || o.fixedMultiplierBaseTarget;
      var sourceSample := o.sourceFps > 0.0;
      var sourceTargetValid := fixedMode && o.sourceTargetFps > 0.0;
      var deficit := o.outputDeficit && !fixedMode;
      var globalGpu := o.globalPressureValid && o.globalGpuUsagePercent >= GLOBAL_GPU_PRESSURE_PERCENT;
      s := Signals(
        freshPressure || retainedSevere, sourceSample, deficit,
        o.outputCadenceValid && o.outputTargeted && deficit && !o.outputTargetSatisfied,
        sourceTargetValid && sourceSample && o.sourceFps < o.sourceTargetFps * SOURCE_TARGET_SATISFIED_RATIO,
        fixedMode && !sourceTargetValid && exploration.referenceValid && exploration.probePending
        && sourceSample && o.generatedWorkSample && o.generationCount > 0,
        globalGpu, globalGpu && (deficit || o.syntheticDropPressure),
        o.thermalPressureValid && o.thermalStatus >= THERMAL_STATUS_SEVERE,
        o.wsiPresentationPressure && globalGpu && deficit, o.wsiPresentationPressure && !fixedMode);
    }

    /** Whether this sample shows that the lower state helped. */
    method SeesBenefit(o: Observation, s: Signals) returns (seen: bool)
      ensures seen == State().Benefit(o, s)
    {
      var b := downstep.baseline;
      var outputBenefit := b.outputValid && o.outputCadenceValid
                           && o.outputFps >= b.outputFps * MATERIAL_OUTPUT_GAIN_RATIO;
      var sourceBenefit := b.sourceFps > 0.0 && o.sourceFps >= b.sourceFps * MATERIAL_SOURCE_GAIN_RATIO;
      var computeBenefit := b.computePressure && o.generatedWorkSample;
      if computeBenefit && s.compute {
        var cheaper := telemetry.sample.pressureRatio <= b.pressureRatio - MATERIAL_PRESSURE_RATIO_RELIEF;
        computeBenefit := cheaper || (o.flowMs <= b.flowMs * MATERIAL_FLOW_RELIEF_RATIO
                                      && o.totalLsfgMs <= b.totalMs * MATERIAL_TOTAL_RELIEF_RATIO);
      }
      var wsiBenefit := b.wsiPressure && b.wsiLossRate > 0.0
                        && o.wsiLossRate <= b.wsiLossRate * MATERIAL_WSI_RELIEF_RATIO;
      var globalBenefit := b.globalPressure && o.globalPressureValid
                           && o.globalGpuUsagePercent <= b.globalGpuPercent - MATERIAL_GLOBAL_GPU_RELIEF_PERCENT;
      var outputMiss := !o.FixedMode() && o.outputCadenceValid && o.outputTargeted && !o.outputTargetSatisfied;
      var targetRemains := (downstep.outputDriven && outputMiss && !b.wsiPressure) || (downstep.sourceDriven && s.source);
      if downstep.exploratory {
        seen := sourceBenefit;
      } else {
        seen := outputBenefit || sourceBenefit || computeBenefit || wsiBenefit || globalBenefit || targetRemains;
      }
    }

    /** Whether the next state down is worth its quality. */
    method JudgeLowering(o: Observation, s: Signals) returns (worth: bool)
      requires telemetry.stateIndex < Floor(preset) && o.frameBudgetMs > 0.0
      ensures worth == State().WorthLowering(o, s)
    {
      hide Ladder;
      var states, index := Ladder(preset), telemetry.stateIndex;
      var workRatio := (states[index + 1] * states[index + 1]) / (states[index] * states[index]);
      var reliefMs := o.flowMs * (1.0 - workRatio);
      assert reliefMs == State().PredictedReliefMs(o);
      var target := s.output || s.source;
      var fast := target || s.exploratory;
      if s.global && !s.compute && !fast
         && telemetry.sample.pressureRatio < MINIMUM_GLOBAL_PRESSURE_LSFG_BUDGET_RATIO {
        return false;
      }
      if target && !s.compute {
        return true;
      }
      if s.exploratory && !target && !s.compute {
        return o.flowMs >= 1.0 && reliefMs >= 0.25;
      }
      worth := fast || (telemetry.sample.flowBudgetRatio >= MINIMUM_FLOW_BUDGET_RATIO
                        && reliefMs / o.frameBudgetMs >= MINIMUM_PREDICTED_RELIEF_RATIO);
    }

    /** Whether this sample counts towards the next state up. */
    method JudgeRaising(o: Observation, s: Signals) returns (eligible: bool)
      ensures eligible == State().MayRaise(o, s)
    {
      var globalHeadroom := !o.globalPressureValid || o.globalGpuUsagePercent <= GLOBAL_GPU_RECOVERY_PERCENT;
      var thermalHeadroom := !o.thermalPressureValid || o.thermalStatus <= THERMAL_STATUS_MODERATE;
      var sourceRecovered := true;
      if o.FixedMode() {
        if o.sourceTargetFps > 0.0 {
          sourceRecovered := o.sourceFps >= o.sourceTargetFps * SOURCE_TARGET_SATISFIED_RATIO;
        } else {
          sourceRecovered := exploration.referenceValid && !exploration.probePending && s.sourceSample
                             && o.sourceFps >= exploration.bestSourceFps * EXPLORATORY_SOURCE_DROP_RATIO;
        }
      }
      eligible := !o.deadlineMissed && (o.generatedWorkSample || o.globalPressureValid)
                  && !s.actionableDeficit && !o.syntheticDropPressure && !s.recoveryWsi
                  && (o.FixedMode() || !o.outputTargeted || o.outputTargetSatisfied)
                  && sourceRecovered && globalHeadroom && thermalHeadroom;
    }

    method EvaluateRecovery(o: Observation, s: Signals, dt: real)
      modifies this
      ensures State() == old(State()).EvaluateRecovery(o, s, dt)
    {
      var densityRegression :=
        o.adaptiveFramegenMode && o.scheduledGenerationDensity >= 0.0
        && o.scheduledGenerationDensity
           > recovery.density + RECOVERY_PACING_DENSITY_INCREASE_TOLERANCE;
      var sourceRegression :=
        s.sourceSample && recovery.sourceFps > 0.0
        && o.sourceFps < recovery.sourceFps * RECOVERY_PACING_SOURCE_RETENTION_RATIO;
      if sourceRegression && densityRegression {
        recovery := recovery.(regressionSeconds := recovery.regressionSeconds + dt);
      } else {
        recovery := recovery.(regressionSeconds := 0.0);
      }
      if recovery.regressionSeconds >= RECOVERY_PACING_REGRESSION_CONFIRM_SECONDS {
        Move(if recovery.previousIndex <= Floor(preset) then recovery.previousIndex else Floor(preset),
             RecoveryPacingReverted);
        recovery := recovery.(
          active := false, regressionSeconds := 0.0,
          retryBlockedUntilSeconds := clock.now + RECOVERY_PACING_REVERT_HOLD_SECONDS);
        clock := clock.(cooldownUntil := clock.now + TRANSITION_COOLDOWN_SECONDS);
      } else if clock.now - recovery.startedSeconds < RECOVERY_PACING_EVALUATION_SECONDS {
        telemetry := telemetry.(reason := EvaluatingRecoveryPacing);
      } else {
        recovery := recovery.(active := false, regressionSeconds := 0.0);
        telemetry := telemetry.(reason := RecoveryPacingConfirmed);
      }
      ResetEvidence();
    }

    method EvaluateDownstep(o: Observation, s: Signals)
      modifies this
      ensures State() == old(State()).EvaluateDownstep(o, s)
    {
      hide Controller.Benefit, Controller.ConfirmDownstep, Controller.RevertDownstep;
      var seen := SeesBenefit(o, s);
      var evaluationSeconds := if downstep.outputDriven || downstep.sourceDriven || downstep.exploratory
                               then OUTPUT_DOWNSTEP_EVALUATION_SECONDS else DOWNSTEP_EVALUATION_SECONDS;
      downstep := downstep.(benefitSeen := downstep.benefitSeen || seen);
      ResetEvidence();
      if clock.now - downstep.startedSeconds < evaluationSeconds {
        telemetry := telemetry.(downstepEvaluationActive := true, reason := EvaluatingDownstep);
        return;
      }
      if downstep.benefitSeen {
        ConfirmDownstep(o);
      } else {
        RevertDownstep();
      }
    }

    method ConfirmDownstep(o: Observation)
      modifies this
      ensures State() == old(State()).ConfirmDownstep(o)
    {
      if downstep.exploratory {
        exploration := Exploration(true, telemetry.stateIndex + 1 < |Ladder(preset)|,
                                   Most(exploration.bestSourceFps, o.sourceFps));
      }
      CancelDownstep();
      ResetEvidence();
      telemetry := telemetry.(downstepEvaluationActive := false, reason := DownstepBenefitConfirmed);
    }

    method RevertDownstep()
      modifies this
      ensures State() == old(State()).RevertDownstep()
    {
      Move(if downstep.previousIndex <= Floor(preset) then downstep.previousIndex else Floor(preset),
           DownstepReverted);
      if downstep.exploratory {
        exploration := exploration.(probePending := false);
      }
      CancelDownstep();
      clock := clock.(cooldownUntil := clock.now + DOWNSTEP_NO_BENEFIT_HOLD_SECONDS);
      telemetry := telemetry.(downstepEvaluationActive := false);
      ResetEvidence();
    }

    method ConfirmSeconds(s: Signals) returns (seconds: real)
      ensures seconds == State().ConfirmSeconds(s)
    {
      var fast := s.output || s.source || s.exploratory;
      var pressure := s.compute || s.global || s.wsiFlow || fast;
      var accelerated := s.thermalSevere && pressure && !fast && !s.global;
      if fast {
        seconds := OUTPUT_DOWN_CONFIRM_SECONDS;
      } else if s.global {
        seconds := GLOBAL_DOWN_CONFIRM_SECONDS;
      } else if accelerated {
        seconds := THERMAL_ACCELERATED_CONFIRM_SECONDS;
      } else {
        seconds := DOWN_CONFIRM_SECONDS;
      }
    }

    method DownReason(s: Signals) returns (reason: Reason)
      ensures reason == State().DownReason(s)
    {
      reason := SustainedPressure;
      if s.output {
        reason := SustainedOutputPressure;
      } else if s.source {
        reason := SustainedSourcePressure;
      } else if s.exploratory {
        reason := ExploratorySourcePressure;
      } else if s.global {
        reason := SustainedGlobalPressure;
      }
    }

    /** Start the trial of a lower state against what this sample measured. */
    method OpenDownstep(o: Observation, s: Signals)
      modifies this`downstep
      ensures downstep == old(State()).OpenDownstep(o, s)
      ensures downstep.exploratory <==> s.exploratory && !s.Target()
    {
      downstep := downstep.(active := true, benefitSeen := false, previousIndex := telemetry.stateIndex,
                            startedSeconds := clock.now);
      downstep := downstep.(baseline := Baseline(
        telemetry.sample.pressureRatio, o.flowMs, o.totalLsfgMs, o.sourceFps, o.outputFps, o.wsiLossRate,
        o.globalGpuUsagePercent, o.outputCadenceValid, s.compute, o.wsiPresentationPressure, s.global));
      downstep := downstep.(outputDriven := s.output, sourceDriven := s.source,
                            exploratory := s.exploratory && !(s.output || s.source));
    }

    /** The total cost predicted for the next state up. */
    method PredictTotal(o: Observation) returns (totalMs: real)
      requires 0 < telemetry.stateIndex <= Floor(preset)
      ensures totalMs == State().PredictedTotalMs(o)
    {
      hide Ladder;
      var states, index := Ladder(preset), telemetry.stateIndex;
      var current, higher := states[index], states[index - 1];
      var addedMs := o.flowMs * ((higher * higher) / (current * current) - 1.0);
      totalMs := o.totalLsfgMs + addedMs;
    }

    /** Record what the sample measured. */
    method Measure(o: Observation, s: Signals)
      requires o.frameBudgetMs > 0.0
      modifies this`telemetry
      ensures telemetry == old(telemetry).(sample := old(State()).Measured(o, s))
    {
      var gpuPercent, thermalStatus, reference := 0.0, 0, 0.0;
      if o.globalPressureValid {
        gpuPercent := o.globalGpuUsagePercent;
      }
      if o.thermalPressureValid {
        thermalStatus := o.thermalStatus;
      }
      if (o.fixedMultiplierMode || o.fixedMultiplierBaseTarget) && o.sourceTargetFps > 0.0 {
        reference := o.sourceTargetFps;
      } else if exploration.referenceValid {
        reference := exploration.bestSourceFps;
      }
      var sample := Sample(o.totalLsfgMs / o.frameBudgetMs, o.flowMs / o.frameBudgetMs, gpuPercent, s.global,
                           thermalStatus, s.thermalSevere, s.compute, o.wsiPresentationPressure, o.outputDeficit,
                           s.output, s.source, s.exploratory, reference);
      telemetry := telemetry.(sample := sample);
    }

    /** What every observation clears before it looks at its sample. */
    method ClearTelemetry()
      modifies this`telemetry
      ensures telemetry == old(telemetry).Cleared(downstep.active)
    {
      telemetry := telemetry.(changed := false, estimatedNextTotalMs := 0.0);
      telemetry := telemetry.(sample := Sample(0.0, 0.0, 0.0, false, 0, false, false, false, false, false, false, false, 0.0));
      telemetry := telemetry.(downstepEvaluationActive := downstep.active);
    }

    method Lower(o: Observation, s: Signals)
      requires telemetry.stateIndex < Floor(preset) && o.frameBudgetMs > 0.0
      modifies this
      ensures State() == old(State()).Lower(o, s)
    {
      hide Ladder, Controller.OpenDownstep;
      OpenDownstep(o, s);
      if downstep.exploratory {
        exploration := exploration.(probePending := false);
      }
      var reason := DownReason(s);
      Move(telemetry.stateIndex + 1, reason);
      telemetry := telemetry.(downstepEvaluationActive := true);
      clock := clock.(cooldownUntil := clock.now
        + (if s.output || s.source || s.exploratory then OUTPUT_TRANSITION_COOLDOWN_SECONDS else TRANSITION_COOLDOWN_SECONDS));
      ResetEvidence();
    }

    method DecideLower(o: Observation, s: Signals, dt: real)
      requires telemetry.stateIndex < Floor(preset) && o.frameBudgetMs > 0.0
      modifies this
      ensures State() == old(State()).DecideLower(o, s, dt)
    {
      hide Controller.WorthLowering, Controller.Lower, Ladder;
      var worth := JudgeLowering(o, s);
      if !worth {
        ResetEvidence();
        telemetry := telemetry.(reason := InsufficientFlowContribution);
        return;
      }
      evidence := evidence.(pressure := evidence.pressure + dt);
      evidence := evidence.(headroom := 0.0);
      var confirmSeconds := ConfirmSeconds(s);
      if evidence.pressure >= confirmSeconds {
        Lower(o, s);
      } else {
        telemetry := telemetry.(reason := NoReason);
      }
    }

    method Raise(o: Observation, s: Signals)
      requires 0 < telemetry.stateIndex <= Floor(preset)
      modifies this
      ensures State() == old(State()).Raise(o, s)
    {
      var index := telemetry.stateIndex;
      Move(index - 1, SustainedHeadroom);
      if o.adaptiveFramegenMode && s.sourceSample && o.scheduledGenerationDensity >= 0.0 {
        recovery := recovery.(
          active := true, previousIndex := index, startedSeconds := clock.now,
          regressionSeconds := 0.0, sourceFps := o.sourceFps,
          density := o.scheduledGenerationDensity);
      }
      if (o.fixedMultiplierMode || o.fixedMultiplierBaseTarget) && !(o.sourceTargetFps > 0.0) {
        exploration := exploration.(probePending := false);
      }
      clock := clock.(cooldownUntil := clock.now + TRANSITION_COOLDOWN_SECONDS);
      ResetEvidence();
    }

    method DecideRaise(o: Observation, s: Signals, dt: real)
      requires telemetry.stateIndex <= Floor(preset) && o.frameBudgetMs > 0.0
      modifies this
      ensures State() == old(State()).DecideRaise(o, s, dt)
    {
      hide Controller.MayRaise, Controller.PredictedTotalMs, Controller.Raise;
      var canRaise := telemetry.stateIndex > 0;
      var eligible := JudgeRaising(o, s);
      eligible := eligible && canRaise;
      var predictedTotalMs := 0.0;
      if eligible {
        predictedTotalMs := PredictTotal(o);
      }
      evidence := evidence.(pressure := 0.0);
      if canRaise && o.adaptiveFramegenMode && clock.now < recovery.retryBlockedUntilSeconds {
        evidence := evidence.(headroom := 0.0);
        telemetry := telemetry.(reason := InsufficientRecoveryHeadroom);
        return;
      }
      if eligible {
        telemetry := telemetry.(estimatedNextTotalMs := predictedTotalMs);
        if predictedTotalMs / o.frameBudgetMs > RECOVERY_PREDICTED_RATIO {
          evidence := evidence.(headroom := 0.0);
          telemetry := telemetry.(reason := InsufficientRecoveryHeadroom);
          return;
        }
        evidence := evidence.(headroom := evidence.headroom + dt);
        if evidence.headroom >= UP_CONFIRM_SECONDS {
          Raise(o, s);
        } else {
          telemetry := telemetry.(reason := NoReason);
        }
        return;
      }
      evidence := evidence.(headroom := 0.0);
      telemetry := telemetry.(
        reason := if canRaise then InsufficientRecoveryHeadroom else NoReason);
    }

    /** Trials, holds and the decision, once the sample is known to be usable. */
    method Govern(o: Observation, s: Signals, dt: real)
      requires telemetry.stateIndex <= Floor(preset) && o.frameBudgetMs > 0.0
      modifies this
      ensures State() == old(State()).Govern(o, s, dt)
    {
      hide Controller.EvaluateRecovery, Controller.EvaluateDownstep, Controller.DecideLower, Controller.DecideRaise,
           Controller.HoldForScheduler;
      if recovery.active {
        EvaluateRecovery(o, s, dt);
        return;
      }
      var severe := s.compute && telemetry.sample.pressureRatio >= 1.0;
      if o.schedulerTransition {
        NoteSchedulerTransition(dt);
        if !severe {
          HoldForScheduler(s, dt);
          return;
        }
      }
      if clock.now < clock.schedulerHoldUntil && !severe {
        DeferForScheduler(dt);
        HoldForScheduler(s, dt);
      } else if downstep.active {
        EvaluateDownstep(o, s);
      } else if clock.now < clock.cooldownUntil {
        ResetEvidence();
        telemetry := telemetry.(reason := Cooldown);
      } else if (s.compute || s.global || s.wsiFlow || s.output || s.source || s.exploratory)
                && telemetry.stateIndex < Floor(preset) {
        DecideLower(o, s, dt);
      } else {
        DecideRaise(o, s, dt);
      }
    }

    method DeferForScheduler(dt: real)
      modifies this`downstep, this`evidence
      ensures State() == old(State()).DeferForScheduler(dt)
    {
      if downstep.active {
        downstep := downstep.(startedSeconds := downstep.startedSeconds + dt);
      }
      evidence := evidence.(headroom := 0.0);
    }

    method NoteSchedulerTransition(dt: real)
      modifies this`clock, this`downstep, this`evidence
      ensures State() == old(State()).NoteSchedulerTransition(dt)
    {
      DeferForScheduler(dt);
      clock := clock.(schedulerHoldUntil :=
        Most(clock.schedulerHoldUntil, clock.now + SCHEDULER_TRANSITION_HOLD_SECONDS));
    }

    method HoldForScheduler(s: Signals, dt: real)
      modifies this`evidence, this`telemetry
      ensures State() == old(State()).HoldForScheduler(s, dt)
    {
      if s.global {
        evidence := evidence.(pressure := evidence.pressure + dt);
      } else {
        evidence := evidence.(pressure := 0.0);
      }
      telemetry := telemetry.(reason := SchedulerTransition);
    }

    method AdvanceClock(dt: real, flowTransition: bool)
      modifies this`clock
      ensures State() == old(State()).Advance(dt, flowTransition)
    {
      clock := clock.(now := clock.now + dt);
      if flowTransition {
        clock := clock.(transitionHoldActive := true,
                        transitionSettleUntil := clock.now + FLOW_TRANSITION_SETTLE_SECONDS);
      }
    }

    method DeferTrials(dt: real)
      modifies this`downstep, this`recovery, this`evidence, this`telemetry
      ensures State() == old(State()).DeferTrials(dt)
    {
      if downstep.active {
        downstep := downstep.(startedSeconds := downstep.startedSeconds + dt);
      }
      if recovery.active {
        recovery := recovery.(startedSeconds := recovery.startedSeconds + dt);
      }
      ResetEvidence();
      telemetry := telemetry.(downstepEvaluationActive := downstep.active);
    }

    method Observe(o: Observation) returns (scale: real)
      requires State().Sound()
      modifies this
      ensures State() == old(State()).Step(o) && State().Sound()
      ensures scale == telemetry.currentScale
    {
      hide Controller.Explore, Controller.Read, Controller.Measured, Controller.Govern, Controller.RestartTrials,
           Controller.DeferTrials, Changes, Rests;
      StepAdvances(State(), o);
      ClearTelemetry();
      if !enabled {
        telemetry := telemetry.(reason := Disabled);
        return telemetry.currentScale;
      }
      var dt := if o.elapsedSeconds > 0.0 then Least(o.elapsedSeconds, EVIDENCE_CAP_SECONDS) else 0.0;
      AdvanceClock(dt, o.flowTransition);
      if clock.transitionHoldActive {
        if !o.flowTransition {
          clock := clock.(transitionHoldActive := false);
        }
        RestartTrials(FlowTransition);
        return telemetry.currentScale;
      }
      if clock.now < clock.transitionSettleUntil {
        RestartTrials(FlowTransitionSettle);
        return telemetry.currentScale;
      }
      if !o.valid || !(o.frameBudgetMs > 0.0) || o.totalLsfgMs < 0.0 || o.flowMs < 0.0 {
        DeferTrials(dt);
        telemetry := telemetry.(reason := InvalidTelemetry);
        return telemetry.currentScale;
      }
      UpdateExploration(o);
      var signals := ReadSignals(o);
      Measure(o, signals);
      Govern(o, signals, dt);
      return telemetry.currentScale;
    }
  }
}
