/** How the governor's trials end: the verdict on a cheaper and on a better state, read off the samples. */
module FlowTrials {
  import opened Numbers
  import opened FlowController
  import opened FlowTheorems
  import opened FlowPressure
  import opened FlowDecisions

  // ---- A cheaper state on trial ----

  /**
    Whether sample `b`, taken in the cheaper state, is better than sample `a`, on which it was
    entered: more output, a faster source, relief of whatever pressed, or a target still missed.
    A probe is judged by the source alone.
  */
  predicate Helps(a: Observation, b: Observation, probe: bool)
    requires a.frameBudgetMs > 0.0 && b.frameBudgetMs > 0.0
  {
    || (a.sourceFps > 0.0 && b.sourceFps >= 1.03 * a.sourceFps)
    || (!(probe && !TargetMissed(a))
        && (|| (a.outputCadenceValid && b.outputCadenceValid && b.outputFps >= 1.02 * a.outputFps)
            || (ComputePressure(a) && b.generatedWorkSample
                && (|| !ComputePressure(b)
                    || b.totalLsfgMs / b.frameBudgetMs <= a.totalLsfgMs / a.frameBudgetMs - 0.05
                    || (b.flowMs <= 0.88 * a.flowMs && b.totalLsfgMs <= 0.95 * a.totalLsfgMs)))
            || (a.wsiPresentationPressure && a.wsiLossRate > 0.0 && b.wsiLossRate <= 0.75 * a.wsiLossRate)
            || (DevicePressure(a) && b.globalPressureValid && b.globalGpuUsagePercent <= a.globalGpuUsagePercent - 3.0)
            || (TargetMissed(a) && !a.FixedMode() && !a.wsiPresentationPressure
                && !b.FixedMode() && b.outputCadenceValid && b.outputTargeted && !b.outputTargetSatisfied)
            || (TargetMissed(a) && a.FixedMode() && b.FixedMode() && TargetMissed(b))))
  }

  /** How long the trial of a state entered on `a` lasts. */
  function TrialSeconds(a: Observation, probe: bool): real {
    if TargetMissed(a) || probe then 0.15 else 0.30
  }

  /** The trial is measured against `a`. */
  predicate Remembers(t: DownstepTrial, a: Observation, probe: bool)
    requires a.frameBudgetMs > 0.0
  {
    && t.active
    && t.outputDriven == (TargetMissed(a) && !a.FixedMode()) && t.sourceDriven == (TargetMissed(a) && a.FixedMode())
    && t.exploratory == (probe && !TargetMissed(a))
    && t.baseline == Baseline(a.totalLsfgMs / a.frameBudgetMs, a.flowMs, a.totalLsfgMs, a.sourceFps, a.outputFps,
                              a.wsiLossRate, a.globalGpuUsagePercent, a.outputCadenceValid, ComputePressure(a),
                              a.wsiPresentationPressure, DevicePressure(a))
  }

  lemma DecisionRemembers(d: Controller, o: Observation, s: Signals, dt: real)
    requires !d.telemetry.changed && !d.downstep.active && o.frameBudgetMs > 0.0
    requires d.telemetry.stateIndex <= Floor(d.preset) && Lowered(d.Decide(o, s, dt))
    ensures d.telemetry.stateIndex < Floor(d.preset) && d.Decide(o, s, dt).downstep == d.OpenDownstep(o, s)
  {
    hide Ladder, Controller.WorthLowering, Controller.ConfirmSeconds, Controller.MayRaise, Controller.PredictedTotalMs,
         Signals.Any;
  }

  lemma TargetSignals(c: Controller, o: Observation)
    requires o.frameBudgetMs > 0.0
    ensures Heard(c, o).Read(o).output == (TargetMissed(o) && !o.FixedMode())
    ensures Heard(c, o).Read(o).source == (TargetMissed(o) && o.FixedMode())
  {
  }

  lemma TrialIs(d: Controller, o: Observation, s: Signals, probe: bool)
    requires o.frameBudgetMs > 0.0 && d.telemetry.sample.pressureRatio == o.totalLsfgMs / o.frameBudgetMs
    requires s.compute == ComputePressure(o) && s.global == DevicePressure(o) && s.exploratory == probe
    requires s.output == (TargetMissed(o) && !o.FixedMode()) && s.source == (TargetMissed(o) && o.FixedMode())
    ensures Remembers(d.OpenDownstep(o, s), o, probe)
  {
    hide TargetMissed, ComputePressure, DevicePressure, Ladder;
  }

  /** A sample that passes the barriers leaves them passed. */
  lemma BarriersStayPassed(c: Controller, o: Observation)
    requires c.Sound() && Passes(c, o)
    ensures var d := c.Step(o);
            && d.Sound() && d.enabled && d.preset == c.preset && !d.clock.transitionHoldActive
            && d.clock.transitionSettleUntil <= d.clock.now && d.clock.now == c.clock.now + o.EvidenceSeconds()
  {
    hide Ladder, Controller.Step, Controller.Govern, Controller.Read, Heard, Controller.Sound, Changes, Rests;
    PassingIsGoverned(c, o);
    GovernIsGoverned(Heard(c, o), o, Heard(c, o).Read(o), o.EvidenceSeconds());
  }

  /** A sample that lowers quality is what the cheaper state is measured against. */
  lemma LoweringOpens(c: Controller, o: Observation)
    requires c.Sound() && Lowered(c.Step(o))
    ensures o.frameBudgetMs > 0.0 && c.telemetry.stateIndex < Floor(c.preset)
    ensures var d := c.Step(o);
            && Remembers(d.downstep, o, Probes(c, o)) && !d.downstep.benefitSeen
            && d.downstep.startedSeconds == d.clock.now && d.downstep.previousIndex == c.telemetry.stateIndex
            && d.telemetry.stateIndex == c.telemetry.stateIndex + 1
  {
    hide Ladder, Controller.Step, Controller.Govern, Controller.Read, Heard, Probes, Controller.Decide, TargetMissed,
         ComputePressure, DevicePressure, Signalled, CountsAgainst, Patience, Remembers, Signals.Any, Decides,
         Controller.Sound;
    OnlyPassingChanges(c, o);
    LowersIff(c, o);
    StepAdvances(c, o);
    var e, dt := Heard(c, o), o.EvidenceSeconds();
    var s := e.Read(o);
    PassingIsGoverned(c, o);
    GovernDecides(e, o, s, dt);
    FreeDecides(c, o);
    SignalsRead(c, o);
    TargetSignals(c, o);
    HeardIs(c, o);
    DecisionRemembers(Deciding(e, o, dt), o, s, dt);
    TrialIs(Deciding(e, o, dt), o, s, Probes(c, o));
  }

  /** The trial runs and the next plain sample is judged. */
  predicate Judging(c: Controller) {
    && c.enabled && c.Sound() && c.downstep.active && !c.clock.transitionHoldActive
    && c.clock.transitionSettleUntil <= c.clock.now && c.clock.schedulerHoldUntil <= c.clock.now
  }

  lemma GovernJudges(e: Controller, o: Observation, s: Signals, dt: real)
    requires e.Sound() && e.downstep.active && o.frameBudgetMs > 0.0
    requires !o.schedulerTransition && e.clock.schedulerHoldUntil <= e.clock.now
    ensures e.Govern(o, s, dt) == e.EvaluateDownstep(o, s)
  {
    hide Ladder, Controller.EvaluateRecovery, Controller.EvaluateDownstep, Controller.Decide;
  }

  lemma BenefitIs(c: Controller, a: Observation, b: Observation, probe: bool)
    requires a.frameBudgetMs > 0.0 && b.frameBudgetMs > 0.0 && Remembers(c.downstep, a, probe)
    ensures var e := Heard(c, b);
            && e.Benefit(b, e.Read(b)) == Helps(a, b, probe) && e.EvaluationSeconds() == TrialSeconds(a, probe)
  {
    hide Controller.Explore, ComputePressure, DevicePressure, TargetMissed, Controller.Read;
    var e := Heard(c, b);
    ReadsAgain(c, b);
    assert e.downstep == c.downstep;
    TargetSignals(c, b);
  }

  lemma ReadsAgain(c: Controller, b: Observation)
    requires b.frameBudgetMs > 0.0
    ensures Heard(c, b).Read(b).compute == ComputePressure(b)
    ensures Heard(c, b).telemetry.sample.pressureRatio == b.totalLsfgMs / b.frameBudgetMs
  {
    hide Controller.Explore;
    Scales(b.totalLsfgMs, b.frameBudgetMs, PRESSURE_RATIO);
    Scales(b.totalLsfgMs, b.frameBudgetMs, 1.0);
  }

  lemma EvaluationEnds(e: Controller, o: Observation, s: Signals)
    requires e.Sound() && e.downstep.active && !e.telemetry.changed
    ensures var (d, seen) := (e.EvaluateDownstep(o, s), e.downstep.benefitSeen || e.Benefit(o, s));
            && d.enabled == e.enabled && d.clock.now == e.clock.now
            && (if e.clock.now - e.downstep.startedSeconds < e.EvaluationSeconds() then
                  !d.telemetry.changed && d.downstep == e.downstep.(benefitSeen := seen) && d.clock == e.clock
                else
                  && !d.downstep.active && (DownstepUndone(d) <==> !seen)
                  && d.telemetry.stateIndex == (if seen then e.telemetry.stateIndex else e.downstep.previousIndex))
  {
    hide Ladder, Controller.Benefit;
  }

  lemma JudgedStep(c: Controller, a: Observation, o: Observation, probe: bool)
    requires Judging(c) && Plain(o) && a.frameBudgetMs > 0.0 && Remembers(c.downstep, a, probe)
    ensures var d := c.Step(o);
            && d.clock.now == c.clock.now + o.EvidenceSeconds()
            && (if d.clock.now - c.downstep.startedSeconds < TrialSeconds(a, probe) then
                  && Judging(d) && Remembers(d.downstep, a, probe) && d.telemetry.stateIndex == c.telemetry.stateIndex
                  && d.downstep.benefitSeen == (c.downstep.benefitSeen || Helps(a, o, probe))
                  && d.downstep.startedSeconds == c.downstep.startedSeconds
                  && d.downstep.previousIndex == c.downstep.previousIndex
                else
                  && !d.downstep.active
                  && (DownstepUndone(d) <==> !c.downstep.benefitSeen && !Helps(a, o, probe))
                  && d.telemetry.stateIndex
                     == (if DownstepUndone(d) then c.downstep.previousIndex else c.telemetry.stateIndex))
  {
    hide Ladder, Controller.Step, Controller.Govern, Controller.Read, Heard, Helps, Remembers, TrialSeconds,
         Controller.EvaluateDownstep, Controller.Benefit, Controller.EvaluationSeconds;
    PassingIsGoverned(c, o);
    var e := Heard(c, o);
    GovernJudges(e, o, e.Read(o), o.EvidenceSeconds());
    BenefitIs(c, a, o, probe);
    EvaluationEnds(e, o, e.Read(o));
    StepAdvances(c, o);
    KeepsMemory(c.downstep, a, probe, e.downstep.benefitSeen || e.Benefit(o, e.Read(o)));
  }

  lemma KeepsMemory(t: DownstepTrial, a: Observation, probe: bool, seen: bool)
    requires a.frameBudgetMs > 0.0 && Remembers(t, a, probe)
    ensures Remembers(t.(benefitSeen := seen), a, probe)
  {
  }

  /** Plain samples from `j + 1` on, after a lowering on `j` that no scheduler hold follows. */
  predicate OnTrial(run: seq<Controller>, obs: seq<Observation>, j: nat, k: nat) {
    && IsRun(run, obs) && j < k <= |obs| && Lowered(run[j + 1])
    && run[j + 1].clock.schedulerHoldUntil <= run[j + 1].clock.now
    && (forall i :: j < i < k ==> Plain(obs[i]))
  }

  lemma {:induction false} TrialRuns(run: seq<Controller>, obs: seq<Observation>, j: nat, k: nat)
    requires OnTrial(run, obs, j, k) && obs[j].frameBudgetMs > 0.0
    requires run[k].clock.now - run[j + 1].clock.now < TrialSeconds(obs[j], Probes(run[j], obs[j]))
    ensures var probe := Probes(run[j], obs[j]);
            && Judging(run[k]) && Remembers(run[k].downstep, obs[j], probe)
            && run[k].downstep.startedSeconds == run[j + 1].clock.now
            && run[k].downstep.previousIndex == run[j].telemetry.stateIndex
            && run[k].telemetry.stateIndex == run[j].telemetry.stateIndex + 1
            && (run[k].downstep.benefitSeen <==> exists i :: j < i < k && Helps(obs[j], obs[i], probe))
  {
    hide Ladder, Controller.Step, Controller.Sound, Helps, Remembers, TrialSeconds, Probes;
    if k == j + 1 {
      assert Steps(run[j], obs[j], run[j + 1]);
      LoweringOpens(run[j], obs[j]);
      OnlyPassingChanges(run[j], obs[j]);
      BarriersStayPassed(run[j], obs[j]);
    } else {
      assert Steps(run[k - 1], obs[k - 1], run[k]);
      StepAdvances(run[k - 1], obs[k - 1]);
      TrialRuns(run, obs, j, k - 1);
      JudgedStep(run[k - 1], obs[j], obs[k - 1], Probes(run[j], obs[j]));
    }
  }

  /**
    The verdict on a cheaper state. The first sample after its trial time ends the trial; it returns
    to the better state if and only if no sample of the trial helped, and stays where it is otherwise.
  */
  lemma TrialVerdict(run: seq<Controller>, obs: seq<Observation>, j: nat, k: nat)
    requires OnTrial(run, obs, j, k + 1) && j < k && obs[j].frameBudgetMs > 0.0
    requires run[k].clock.now - run[j + 1].clock.now < TrialSeconds(obs[j], Probes(run[j], obs[j]))
    requires run[k + 1].clock.now - run[j + 1].clock.now >= TrialSeconds(obs[j], Probes(run[j], obs[j]))
    ensures var probe := Probes(run[j], obs[j]);
            && !run[k + 1].downstep.active
            && (DownstepUndone(run[k + 1]) <==> forall i :: j < i <= k ==> !Helps(obs[j], obs[i], probe))
            && run[k + 1].telemetry.stateIndex
               == run[j].telemetry.stateIndex + (if DownstepUndone(run[k + 1]) then 0 else 1)
  {
    hide Ladder, Controller.Step, Controller.Sound, Helps, Remembers, TrialSeconds, Probes;
    TrialRuns(run, obs, j, k);
    assert Steps(run[k], obs[k], run[k + 1]);
    JudgedStep(run[k], obs[j], obs[k], Probes(run[j], obs[j]));
  }

  // ---- A better state on trial ----

  /** Sample `b` is paced worse than sample `a`, on which the better state was entered: a slower source with more generated frames. */
  predicate PacesWorse(a: Observation, b: Observation) {
    && b.sourceFps > 0.0 && b.sourceFps < 0.94 * a.sourceFps
    && b.adaptiveFramegenMode && b.scheduledGenerationDensity > a.scheduledGenerationDensity + 0.25
  }

  /** A sample whose raise opens a trial: Adaptive generation, at a known source rate and density. */
  predicate OpensRecovery(a: Observation) {
    a.adaptiveFramegenMode && a.sourceFps > 0.0 && a.scheduledGenerationDensity >= 0.0
  }

  /** The pacing trial runs, and is measured against `a`. */
  predicate Pacing(c: Controller, a: Observation) {
    && c.enabled && c.Sound() && c.recovery.active
    && c.recovery.sourceFps == a.sourceFps && c.recovery.density == a.scheduledGenerationDensity
    && !c.clock.transitionHoldActive && c.clock.transitionSettleUntil <= c.clock.now
  }

  lemma DecisionOpens(d: Controller, o: Observation, s: Signals, dt: real)
    requires !d.telemetry.changed && !d.recovery.active && o.frameBudgetMs > 0.0
    requires d.telemetry.stateIndex <= Floor(d.preset) && Raised(d.Decide(o, s, dt))
    ensures var r := d.Decide(o, s, dt).recovery;
            if o.adaptiveFramegenMode && s.sourceSample && o.scheduledGenerationDensity >= 0.0 then
              && r.active && r.startedSeconds == d.clock.now && r.regressionSeconds == 0.0
              && r.sourceFps == o.sourceFps && r.density == o.scheduledGenerationDensity
            else !r.active
  {
    hide Ladder, Controller.DecideLower, Controller.MayRaise, Controller.PredictedTotalMs, Signals.Any;
    if d.telemetry.stateIndex < Floor(d.preset) {
      DownstepsNeverRaise(d, o, s, dt);
    }
  }

  lemma SourceHeard(c: Controller, o: Observation)
    requires o.frameBudgetMs > 0.0
    ensures Heard(c, o).Read(o).sourceSample <==> o.sourceFps > 0.0
  {
  }

  /** A sample that raises quality opens a pacing trial exactly in Adaptive generation, and is its measure. */
  lemma RaisingOpens(c: Controller, o: Observation)
    requires c.Sound() && Raised(c.Step(o))
    ensures var d := c.Step(o);
            && (d.recovery.active <==> OpensRecovery(o))
            && (OpensRecovery(o) ==>
                  && Pacing(d, o) && d.recovery.startedSeconds == d.clock.now && d.recovery.regressionSeconds == 0.0
                  && d.recovery.previousIndex == c.telemetry.stateIndex)
  {
    hide Ladder, Controller.Step, Controller.Govern, Controller.Read, Heard, Controller.Decide, Decides, Headroom,
         HoldsBest, Signalled, Controller.Sound;
    OnlyPassingChanges(c, o);
    RaisesIff(c, o);
    StepAdvances(c, o);
    var e, dt := Heard(c, o), o.EvidenceSeconds();
    var s := e.Read(o);
    PassingIsGoverned(c, o);
    BarriersStayPassed(c, o);
    GovernDecides(e, o, s, dt);
    FreeDecides(c, o);
    SourceHeard(c, o);
    OnLadder(e);
    DecisionOpens(Deciding(e, o, dt), o, s, dt);
  }

  lemma OnLadder(c: Controller)
    requires c.Sound()
    ensures c.telemetry.stateIndex <= Floor(c.preset)
  {
    hide Ladder;
  }

  lemma RecoveryEnds(e: Controller, o: Observation, s: Signals, dt: real)
    requires e.Sound() && e.recovery.active && !e.telemetry.changed && e.recovery.density >= 0.0
    requires e.recovery.sourceFps > 0.0 && (s.sourceSample <==> o.sourceFps > 0.0)
    ensures var (d, r) := (e.EvaluateRecovery(o, s, dt), e.recovery);
            var worse := && o.sourceFps > 0.0 && o.sourceFps < 0.94 * r.sourceFps && o.adaptiveFramegenMode
                         && o.scheduledGenerationDensity > r.density + 0.25;
            var undone := worse && r.regressionSeconds + dt >= 0.15;
            && (RecoveryUndone(d) <==> undone)
            && d.telemetry.stateIndex == (if undone then r.previousIndex else e.telemetry.stateIndex)
            && (d.recovery.active <==> !undone && e.clock.now - r.startedSeconds < 0.40)
            && (!undone ==> d.recovery == r.(active := e.clock.now - r.startedSeconds < 0.40,
                                             regressionSeconds := d.recovery.regressionSeconds))
            && (d.recovery.active ==> d.recovery.regressionSeconds == if worse then r.regressionSeconds + dt else 0.0)
  {
    hide Ladder;
  }

  lemma PacedStep(c: Controller, a: Observation, o: Observation)
    requires Pacing(c, a) && OpensRecovery(a) && o.TimingUsable() && !o.flowTransition
    ensures var (d, r) := (c.Step(o), c.recovery);
            var undone := PacesWorse(a, o) && r.regressionSeconds + o.EvidenceSeconds() >= 0.15;
            && d.clock.now == c.clock.now + o.EvidenceSeconds()
            && (RecoveryUndone(d) <==> undone)
            && d.telemetry.stateIndex == (if undone then r.previousIndex else c.telemetry.stateIndex)
            && (d.recovery.active <==> !undone && d.clock.now - r.startedSeconds < 0.40)
            && (d.recovery.active ==>
                  && Pacing(d, a) && d.recovery.startedSeconds == r.startedSeconds
                  && d.recovery.previousIndex == r.previousIndex
                  && d.recovery.regressionSeconds
                     == (if PacesWorse(a, o) then r.regressionSeconds + o.EvidenceSeconds() else 0.0))
  {
    hide Ladder, Controller.Step, Controller.Read, Heard, Controller.EvaluateRecovery, Controller.Sound;
    PassingIsGoverned(c, o);
    BarriersStayPassed(c, o);
    SourceHeard(c, o);
    RecoveryEnds(Heard(c, o), o, Heard(c, o).Read(o), o.EvidenceSeconds());
  }

  /** Usable samples outside flow transitions, after a raise on `j` that opened a trial running up to sample `k`. */
  predicate OnPacingTrial(run: seq<Controller>, obs: seq<Observation>, j: nat, k: nat) {
    && IsRun(run, obs) && j < k <= |obs| && Raised(run[j + 1]) && OpensRecovery(obs[j])
    && (forall i :: j < i < k ==> obs[i].TimingUsable() && !obs[i].flowTransition)
    && (forall i :: j < i <= k ==> run[i].recovery.active)
  }

  /** Since sample `i`, and not since the one before, every sample was paced worse. */
  lemma {:induction false} PacingRuns(run: seq<Controller>, obs: seq<Observation>, j: nat, k: nat) returns (i: nat)
    requires OnPacingTrial(run, obs, j, k)
    ensures Pacing(run[k], obs[j]) && run[k].recovery.startedSeconds == run[j + 1].clock.now
    ensures run[k].recovery.previousIndex == run[j].telemetry.stateIndex
    ensures run[k].telemetry.stateIndex + 1 == run[j].telemetry.stateIndex
    ensures j < i <= k && run[k].recovery.regressionSeconds == run[k].clock.now - run[i].clock.now
    ensures forall m :: i <= m < k ==> PacesWorse(obs[j], obs[m])
    ensures i == j + 1 || !PacesWorse(obs[j], obs[i - 1])
  {
    hide Ladder, Controller.Step, Controller.Sound, PacesWorse, OpensRecovery;
    if k == j + 1 {
      assert Steps(run[j], obs[j], run[j + 1]);
      RaisingOpens(run[j], obs[j]);
      OnlyPassingChanges(run[j], obs[j]);
      BarriersStayPassed(run[j], obs[j]);
      RaisesIff(run[j], obs[j]);
      StepAdvances(run[j], obs[j]);
      i := k;
    } else {
      assert Steps(run[k - 1], obs[k - 1], run[k]);
      i := PacingRuns(run, obs, j, k - 1);
      PacedStep(run[k - 1], obs[j], obs[k - 1]);
      if !PacesWorse(obs[j], obs[k - 1]) {
        i := k;
      }
    }
  }

  /** From sample `i` to sample `k` every sample was paced worse, for 0.15 s of observed time. */
  predicate WorseSince(run: seq<Controller>, obs: seq<Observation>, j: nat, i: nat, k: nat)
    requires j < |obs| && k < |obs| && |run| == |obs| + 1
  {
    && j < i <= k && run[k + 1].clock.now - run[i].clock.now >= 0.15
    && (forall m :: i <= m <= k ==> PacesWorse(obs[j], obs[m]))
  }

  /**
    The verdict on a better state. A sample of its trial returns to the cheaper state if and only
    if pacing was worse without a break for 0.15 s up to it; otherwise the better state stays, and
    the trial is over once it has lasted 0.40 s.
  */
  lemma PacingVerdict(run: seq<Controller>, obs: seq<Observation>, j: nat, k: nat)
    requires OnPacingTrial(run, obs, j, k) && k < |obs| && obs[k].TimingUsable() && !obs[k].flowTransition
    ensures RecoveryUndone(run[k + 1]) <==> exists i :: WorseSince(run, obs, j, i, k)
    ensures run[k + 1].telemetry.stateIndex + 1
            == run[j].telemetry.stateIndex + (if RecoveryUndone(run[k + 1]) then 1 else 0)
    ensures run[k + 1].recovery.active
            <==> !RecoveryUndone(run[k + 1]) && run[k + 1].clock.now - run[j + 1].clock.now < 0.40
  {
    hide Ladder, Controller.Step, Controller.Sound, PacesWorse, OpensRecovery;
    var i := PacingRuns(run, obs, j, k);
    assert Steps(run[k], obs[k], run[k + 1]);
    PacedStep(run[k], obs[j], obs[k]);
    if RecoveryUndone(run[k + 1]) {
      assert WorseSince(run, obs, j, i, k);
    }
    forall w | WorseSince(run, obs, j, w, k)
      ensures RecoveryUndone(run[k + 1])
    {
      RunIsTrace(run, obs);
      SamePreset(run, obs, i, w);
    }
  }
}
