/** Sustained output starvation drives the governor to the floor of its ladder, without a revert. */
module FlowProgress {
  import opened FlowController
  import opened FlowTheorems

  /** A usable sample of a targeted output that misses its target, with nothing else going on. */
  predicate Starving(o: Observation) {
    && o.TimingUsable()
    && !o.FixedMode()
    && o.outputCadenceValid && o.outputTargeted && o.outputDeficit && !o.outputTargetSatisfied
    && !o.wsiPresentationPressure && !o.flowTransition && !o.schedulerTransition
  }

  /** `c` is where a reset leaves an enabled controller, or a seed at ladder state `start`. */
  predicate Begins(c: Controller, start: nat) {
    && c.enabled && c.Sound()
    && c.telemetry.stateIndex == start
    && c.clock == EPOCH && c.evidence == NO_EVIDENCE
    && !Trial(c)
  }

  /** No barrier stands in the way of the next sample. */
  predicate Unobstructed(c: Controller) {
    && c.enabled && c.Sound() && !c.recovery.active
    && !c.clock.transitionHoldActive
    && c.clock.transitionSettleUntil <= c.clock.now
    && c.clock.schedulerHoldUntil <= c.clock.now
  }

  /**
    Where a starving run from `start` stands. Step `n` of the ladder was taken before
    0.80 n - 0.40 seconds, its trial cannot fail, and evidence for the next step is building.
  */
  predicate Descending(c: Controller, start: nat) {
    var taken := c.telemetry.stateIndex - start;
    && Unobstructed(c)
    && taken >= 0
    && (taken == 0 ==>
          && !c.downstep.active
          && (start < Floor(c.preset) ==> c.clock.now <= c.evidence.pressure)
          && c.clock.cooldownUntil <= c.clock.now)
    && (taken > 0 ==>
          && c.downstep.startedSeconds < 0.80 * taken as real - 0.40
          && c.downstep.startedSeconds <= c.clock.now
          && c.clock.cooldownUntil == c.downstep.startedSeconds + OUTPUT_TRANSITION_COOLDOWN_SECONDS)
    && (c.downstep.active ==>
          && taken > 0
          && c.downstep.outputDriven && !c.downstep.exploratory && !c.downstep.baseline.wsiPressure
          && c.clock.now - c.downstep.startedSeconds < OUTPUT_DOWNSTEP_EVALUATION_SECONDS)
    && (!c.downstep.active && c.telemetry.stateIndex < Floor(c.preset) ==>
          && c.evidence.pressure < OUTPUT_DOWN_CONFIRM_SECONDS
          && (taken > 0 ==> c.clock.now - c.evidence.pressure < c.downstep.startedSeconds + 0.40))
  }

  /** The controller as the decision stage of a starving sample finds it. */
  function Arrived(c: Controller, o: Observation): Controller
    requires o.frameBudgetMs > 0.0
  {
    var t := c.(telemetry := c.telemetry.Cleared(c.downstep.active))
              .Advance(o.EvidenceSeconds(), false);
    var e := t.(exploration := NO_EXPLORATION);
    e.Record(o, e.Read(o))
  }

  lemma StarvingStep(c: Controller, o: Observation)
    requires Unobstructed(c) && Starving(o)
    ensures var e := Arrived(c, o);
            var s := e.Read(o);
            && s.output && !s.exploratory && !s.source
            && c.Step(o) == if e.downstep.active then e.EvaluateDownstep(o, s)
                            else e.Decide(o, s, o.EvidenceSeconds())
  {
    hide Ladder, Controller.EvaluateDownstep, Controller.Decide, Controller.Measured;
  }

  lemma TrialSucceeds(c: Controller, o: Observation, s: Signals)
    requires Starving(o) && c.downstep.active && c.downstep.outputDriven && !c.downstep.exploratory
    requires !c.downstep.baseline.wsiPressure
    ensures c.EvaluateDownstep(o, s)
            == if c.clock.now - c.downstep.startedSeconds < OUTPUT_DOWNSTEP_EVALUATION_SECONDS
               then c.NoEvidence().(
                 downstep := c.downstep.(benefitSeen := true),
                 telemetry := c.telemetry.(downstepEvaluationActive := true,
                                           reason := EvaluatingDownstep))
               else c.ConfirmDownstep(o)
  {
    hide Ladder;
  }

  lemma DecisionFollowsOutput(c: Controller, o: Observation, s: Signals, dt: real)
    requires Starving(o) && c.Sound() && s.output && s == c.Read(o)
    requires c.clock.now >= c.clock.cooldownUntil
    ensures c.Decide(o, s, dt)
            == if c.telemetry.stateIndex < Floor(c.preset) then
                 var pressure := c.evidence.pressure + dt;
                 if pressure >= OUTPUT_DOWN_CONFIRM_SECONDS then
                   c.NoEvidence().MoveTo(c.telemetry.stateIndex + 1, SustainedOutputPressure)
                     .(downstep := c.OpenDownstep(o, s),
                       clock := c.clock.(cooldownUntil := c.clock.now + OUTPUT_TRANSITION_COOLDOWN_SECONDS))
                     .MarkTrial()
                 else c.(evidence := Evidence(pressure, 0.0)).Report(NoReason)
               else c.NoEvidence().Report(
                      if c.telemetry.stateIndex > 0 then InsufficientRecoveryHeadroom else NoReason)
  {
    hide Ladder, Controller.PredictedReliefMs, Controller.PredictedTotalMs, Controller.Raise;
  }

  lemma StepDescends(c: Controller, o: Observation, start: nat)
    requires Descending(c, start) && Starving(o)
    ensures Descending(c.Step(o), start)
    ensures c.Step(o).telemetry.stateIndex >= c.telemetry.stateIndex
    ensures !DownstepUndone(c.Step(o))
  {
    hide Ladder, Controller.Step, Controller.Read, Controller.Measured, Controller.EvaluateDownstep,
         Controller.DecideLower, Controller.DecideRaise, Controller.Sound;
    StepAdvances(c, o);
    StarvingStep(c, o);
    var e := Arrived(c, o);
    if e.downstep.active {
      TrialSucceeds(e, o, e.Read(o));
    } else if e.clock.now >= e.clock.cooldownUntil {
      assert e.Sound() by { SoundArrival(c, o); }
      DecisionFollowsOutput(e, o, e.Read(o), o.EvidenceSeconds());
    }
  }

  lemma SoundArrival(c: Controller, o: Observation)
    requires c.Sound() && o.frameBudgetMs > 0.0
    ensures Arrived(c, o).Sound()
  {
    hide Ladder, Controller.Read, Controller.Measured;
  }

  /**
    Progress to the floor. However a starving run is sampled, it never climbs, never reverts a
    step, and at every moment has either reached the floor or spent less than 0.80 s of observed
    time per step taken.
  */
  lemma {:induction false} StarvationReachesFloor(
    run: seq<Controller>, obs: seq<Observation>, start: nat, k: nat)
    requires IsRun(run, obs) && k <= |obs| && Begins(run[0], start)
    requires forall i :: 0 <= i < |obs| ==> Starving(obs[i])
    ensures Descending(run[k], start)
    ensures forall i :: 0 <= i <= k ==> run[i].telemetry.stateIndex <= run[k].telemetry.stateIndex
    ensures forall i :: 0 < i <= k ==> !DownstepUndone(run[i])
    ensures run[k].telemetry.stateIndex == Floor(run[k].preset)
            || run[k].clock.now < 0.80 * (run[k].telemetry.stateIndex - start) as real + 0.15
    decreases k
  {
    hide Ladder, Controller.Step, Controller.Sound;
    if k > 0 {
      StarvationReachesFloor(run, obs, start, k - 1);
      assert Steps(run[k - 1], obs[k - 1], run[k]);
      StepDescends(run[k - 1], obs[k - 1], start);
    }
    StaysOnLadder(run[k], start);
  }

  /** In particular 0.80 s of observed time per ladder step are enough. */
  lemma FloorWithinBudget(run: seq<Controller>, obs: seq<Observation>, start: nat)
    requires IsRun(run, obs) && Begins(run[0], start)
    requires forall i :: 0 <= i < |obs| ==> Starving(obs[i])
    requires run[|obs|].clock.now >= 0.80 * (Floor(run[0].preset) - start) as real
    ensures run[|obs|].telemetry.stateIndex == Floor(run[0].preset)
  {
    hide Ladder, Controller.Step, Descending, Advances;
    StarvationReachesFloor(run, obs, start, |obs|);
    RunIsTrace(run, obs);
    SamePreset(run, obs, 0, |obs|);
    assert run[|obs|].telemetry.stateIndex <= Floor(run[0].preset) by {
      assert Descending(run[|obs|], start);
      StaysOnLadder(run[|obs|], start);
    }
  }

  lemma StaysOnLadder(c: Controller, start: nat)
    requires Descending(c, start)
    ensures c.telemetry.stateIndex <= Floor(c.preset)
  {
    hide Ladder;
  }

  /** A reset leaves an enabled controller ready for such a run, from the best state. */
  lemma ResetBegins(c: Controller)
    requires c.enabled
    ensures Begins(c.Reset(), 0)
  {
  }
}
