/** What the Adaptive Flow governor guarantees over every run of observations. */
module FlowTheorems {
  import opened FlowController

  /** A pressure decision moved the controller one state down and opened a trial. */
  predicate Lowered(d: Controller) { d.telemetry.changed && d.downstep.active }

  predicate Raised(d: Controller) { d.telemetry.changed && d.telemetry.reason == SustainedHeadroom }

  predicate DownstepUndone(d: Controller) {
    d.telemetry.changed && d.telemetry.reason == DownstepReverted
  }

  predicate RecoveryUndone(d: Controller) {
    d.telemetry.changed && d.telemetry.reason == RecoveryPacingReverted
  }

  /** A sample that moved nothing: trials only end or go on, and never move their origin. */
  predicate Rests(c: Controller, d: Controller) {
    && d.telemetry.stateIndex == c.telemetry.stateIndex
    && d.clock.cooldownUntil == c.clock.cooldownUntil
    && (d.downstep.active ==>
          && c.downstep.active
          && (d.downstep.startedSeconds >= c.downstep.startedSeconds
              || d.downstep.startedSeconds >= d.clock.now)
          && d.downstep.previousIndex == c.downstep.previousIndex)
    && (c.downstep.active && !d.downstep.active ==>
          && d.clock.now - c.downstep.startedSeconds >= OUTPUT_DOWNSTEP_EVALUATION_SECONDS
          && d.evidence == NO_EVIDENCE)
    && (d.recovery.active ==>
          c.recovery.active && d.recovery.previousIndex == c.recovery.previousIndex)
  }

  /** The four ways a sample may move the controller, each with what it must have waited for. */
  predicate Changes(c: Controller, d: Controller, o: Observation, dt: real) {
    var i, j := c.telemetry.stateIndex, d.telemetry.stateIndex;
    || (&& Lowered(d) && !Raised(d) && !DownstepUndone(d) && !RecoveryUndone(d)
        && j == i + 1 && d.downstep.previousIndex == i && d.downstep.startedSeconds == d.clock.now
        && !c.downstep.active && !c.recovery.active
        && d.clock.now >= c.clock.cooldownUntil
        && c.evidence.pressure + dt >= OUTPUT_DOWN_CONFIRM_SECONDS)
    || (&& Raised(d) && !Lowered(d)
        && j + 1 == i && !c.downstep.active && !c.recovery.active
        && (d.recovery.active ==> d.recovery.previousIndex == i)
        && d.clock.now >= c.clock.cooldownUntil
        && (o.adaptiveFramegenMode ==> d.clock.now >= c.recovery.retryBlockedUntilSeconds)
        && c.evidence.headroom + dt >= UP_CONFIRM_SECONDS
        && d.evidence == NO_EVIDENCE)
    || (&& DownstepUndone(d) && !Lowered(d) && !d.recovery.active
        && c.downstep.active && j == c.downstep.previousIndex
        && d.clock.now - c.downstep.startedSeconds >= OUTPUT_DOWNSTEP_EVALUATION_SECONDS
        && d.clock.cooldownUntil == d.clock.now + DOWNSTEP_NO_BENEFIT_HOLD_SECONDS
        && d.evidence == NO_EVIDENCE)
    || (&& RecoveryUndone(d) && !Lowered(d) && !d.recovery.active
        && c.recovery.active && j == c.recovery.previousIndex
        && d.recovery.retryBlockedUntilSeconds == d.clock.now + RECOVERY_PACING_REVERT_HOLD_SECONDS)
  }

  /** What the decision stage may do to a controller whose clock already shows the sample. */
  predicate Governed(c: Controller, d: Controller, o: Observation, dt: real) {
    && d.Sound() && d.preset == c.preset && d.enabled == c.enabled
    && d.clock.now == c.clock.now
    && d.clock.transitionHoldActive == c.clock.transitionHoldActive
    && d.clock.transitionSettleUntil == c.clock.transitionSettleUntil
    && d.evidence.pressure <= c.evidence.pressure + dt
    && d.evidence.headroom <= c.evidence.headroom + dt
    && (!RecoveryUndone(d) ==>
          d.recovery.retryBlockedUntilSeconds == c.recovery.retryBlockedUntilSeconds)
    && (if d.telemetry.changed then Changes(c, d, o, dt) else Rests(c, d))
  }

  lemma RecoveryIsGoverned(c: Controller, o: Observation, s: Signals, dt: real)
    requires c.Sound() && !c.telemetry.changed && dt >= 0.0 && c.recovery.active
    ensures Governed(c, c.EvaluateRecovery(o, s, dt), o, dt)
  {
    hide Controller.Regresses;
  }

  lemma ConfirmIsGoverned(c: Controller, seen: bool, o: Observation, dt: real)
    requires c.Sound() && !c.telemetry.changed && dt >= 0.0 && c.downstep.active
    requires c.clock.now - c.downstep.startedSeconds >= OUTPUT_DOWNSTEP_EVALUATION_SECONDS
    ensures Governed(c, c.NoEvidence().(downstep := c.downstep.(benefitSeen := seen)).ConfirmDownstep(o), o, dt)
  {
  }

  lemma RevertIsGoverned(c: Controller, seen: bool, o: Observation, dt: real)
    requires c.Sound() && dt >= 0.0 && c.downstep.active
    requires c.clock.now - c.downstep.startedSeconds >= OUTPUT_DOWNSTEP_EVALUATION_SECONDS
    ensures Governed(c, c.NoEvidence().(downstep := c.downstep.(benefitSeen := seen)).RevertDownstep(), o, dt)
  {
  }

  lemma DownstepIsGoverned(c: Controller, o: Observation, s: Signals, dt: real)
    requires c.Sound() && !c.telemetry.changed && dt >= 0.0 && c.downstep.active
    ensures Governed(c, c.EvaluateDownstep(o, s), o, dt)
  {
    hide Controller.Benefit, Controller.ConfirmDownstep, Controller.RevertDownstep;
    if c.clock.now - c.downstep.startedSeconds >= c.EvaluationSeconds() {
      hide Governed, Controller.Sound;
      var seen := c.downstep.benefitSeen || c.Benefit(o, s);
      if seen {
        ConfirmIsGoverned(c, seen, o, dt);
      } else {
        RevertIsGoverned(c, seen, o, dt);
      }
    }
  }

  lemma LowerOpens(c: Controller, o: Observation, s: Signals, dt: real)
    requires c.Sound() && dt >= 0.0 && o.frameBudgetMs > 0.0
    requires !c.downstep.active && !c.recovery.active && c.clock.now >= c.clock.cooldownUntil
    requires c.telemetry.stateIndex < Floor(c.preset)
    requires c.evidence.pressure >= OUTPUT_DOWN_CONFIRM_SECONDS
    ensures Governed(c, c.Lower(o, s), o, dt)
    ensures Lowered(c.Lower(o, s))
  {
    hide Ladder;
  }

  lemma LowerIsGoverned(c: Controller, o: Observation, s: Signals, dt: real)
    requires c.Sound() && !c.telemetry.changed && dt >= 0.0 && o.frameBudgetMs > 0.0
    requires !c.downstep.active && !c.recovery.active && c.clock.now >= c.clock.cooldownUntil
    requires c.telemetry.stateIndex < Floor(c.preset)
    ensures Governed(c, c.DecideLower(o, s, dt), o, dt)
  {
    hide Controller.WorthLowering, Controller.Lower, Ladder;
    var h := c.(evidence := Evidence(c.evidence.pressure + dt, 0.0));
    if h.evidence.pressure >= OUTPUT_DOWN_CONFIRM_SECONDS {
      LowerOpens(h, o, s, 0.0);
    }
  }

  lemma RaiseOpens(c: Controller, o: Observation, s: Signals, dt: real)
    requires c.Sound() && dt >= 0.0 && 0 < c.telemetry.stateIndex
    requires !c.downstep.active && !c.recovery.active && c.clock.now >= c.clock.cooldownUntil
    requires o.adaptiveFramegenMode ==> c.clock.now >= c.recovery.retryBlockedUntilSeconds
    requires c.evidence.headroom >= UP_CONFIRM_SECONDS
    ensures Governed(c, c.Raise(o, s), o, dt)
    ensures Raised(c.Raise(o, s))
  {
  }

  lemma RaiseIsGoverned(c: Controller, o: Observation, s: Signals, dt: real)
    requires c.Sound() && !c.telemetry.changed && dt >= 0.0 && o.frameBudgetMs > 0.0
    requires !c.downstep.active && !c.recovery.active && c.clock.now >= c.clock.cooldownUntil
    ensures Governed(c, c.DecideRaise(o, s, dt), o, dt)
  {
    hide Controller.MayRaise, Controller.PredictedTotalMs, Controller.Raise, Ladder;
    if c.telemetry.stateIndex > 0 && !c.RetryBlocked(o) {
      var h := c.(evidence := Evidence(0.0, c.evidence.headroom + dt),
                  telemetry := c.telemetry.(estimatedNextTotalMs := c.PredictedTotalMs(o)));
      if h.evidence.headroom >= UP_CONFIRM_SECONDS {
        RaiseOpens(h, o, s, 0.0);
      }
    }
  }

  lemma SettledIsGoverned(c: Controller, o: Observation, s: Signals, dt: real)
    requires c.Sound() && !c.telemetry.changed && dt >= 0.0 && o.frameBudgetMs > 0.0
    requires !c.recovery.active && !c.downstep.active
    ensures Governed(c, c.Decide(o, s, dt), o, dt)
  {
    hide Controller.DecideLower, Controller.DecideRaise;
    if c.clock.now >= c.clock.cooldownUntil {
      if s.Any() && c.telemetry.stateIndex < Floor(c.preset) {
        LowerIsGoverned(c, o, s, dt);
      } else {
        RaiseIsGoverned(c, o, s, dt);
      }
    }
  }

  /** Noting a scheduler transition only postpones a trial, so what follows is still governed. */
  lemma NotingIsGoverned(c: Controller, d: Controller, o: Observation, dt: real)
    requires c.Sound() && dt >= 0.0
    requires Governed(c.NoteSchedulerTransition(dt), d, o, dt)
    ensures Governed(c, d, o, dt)
  {
  }

  lemma HoldIsGoverned(c: Controller, o: Observation, s: Signals, dt: real)
    requires c.Sound() && !c.telemetry.changed && dt >= 0.0
    ensures Governed(c, c.HoldForScheduler(s, dt), o, dt)
    ensures Governed(c, c.DeferForScheduler(dt).HoldForScheduler(s, dt), o, dt)
  {
  }

  lemma GovernIsGoverned(c: Controller, o: Observation, s: Signals, dt: real)
    requires c.Sound() && !c.telemetry.changed && dt >= 0.0 && o.frameBudgetMs > 0.0
    ensures Governed(c, c.Govern(o, s, dt), o, dt)
  {
    hide Controller.EvaluateRecovery, Controller.EvaluateDownstep, Controller.Decide, Governed,
         Controller.HoldForScheduler, Controller.DeferForScheduler;
    if c.recovery.active {
      RecoveryIsGoverned(c, o, s, dt);
    } else {
      var e := if o.schedulerTransition then c.NoteSchedulerTransition(dt) else c;
      HoldIsGoverned(e, o, s, dt);
      if e.downstep.active {
        DownstepIsGoverned(e, o, s, dt);
      } else {
        SettledIsGoverned(e, o, s, dt);
      }
      if o.schedulerTransition {
        NotingIsGoverned(c, c.Govern(o, s, dt), o, dt);
      }
    }
  }

  /** What one observation may do. Barriers and unusable samples rest; the rest is governed. */
  predicate Advances(c: Controller, d: Controller, o: Observation) {
    var dt := o.EvidenceSeconds();
    && c.Sound() && d.Sound() && d.preset == c.preset && d.enabled == c.enabled
    && (c.enabled ==> d.clock.now == c.clock.now + dt)
    && c.clock.now <= d.clock.now
    && d.evidence.pressure <= c.evidence.pressure + (d.clock.now - c.clock.now)
    && d.evidence.headroom <= c.evidence.headroom + (d.clock.now - c.clock.now)
    && d.clock.transitionSettleUntil
       == (if c.enabled && o.flowTransition then d.clock.now + FLOW_TRANSITION_SETTLE_SECONDS
           else c.clock.transitionSettleUntil)
    && (!RecoveryUndone(d) ==>
          d.recovery.retryBlockedUntilSeconds == c.recovery.retryBlockedUntilSeconds)
    && (d.telemetry.changed ==>
          && c.enabled && !o.flowTransition
          && d.clock.now >= c.clock.transitionSettleUntil
          && d.clock.now == c.clock.now + dt
          && Changes(c, d, o, dt))
    && (!d.telemetry.changed ==> Rests(c, d))
  }

  lemma StepAdvances(c: Controller, o: Observation)
    requires c.Sound()
    ensures Advances(c, c.Step(o), o)
  {
    hide Controller.Govern, Controller.Explore, Controller.Read, Controller.Measured;
    var dt := o.EvidenceSeconds();
    var t := c.(telemetry := c.telemetry.Cleared(c.downstep.active)).Advance(dt, o.flowTransition);
    if c.enabled && !t.clock.transitionHoldActive
       && t.clock.now >= t.clock.transitionSettleUntil && o.TimingUsable() {
      var e := t.(exploration := t.Explore(o));
      var s := e.Read(o);
      GovernIsGoverned(e.Record(o, s), o, s, dt);
    }
  }

  predicate Steps(c: Controller, o: Observation, d: Controller) {
    c.Sound() && d == c.Step(o)
  }

  /** `run` holds the controller before the first observation and after each one. */
  predicate IsRun(run: seq<Controller>, obs: seq<Observation>) {
    && |run| == |obs| + 1
    && run[0].Sound()
    && forall k :: 0 <= k < |obs| ==> Steps(run[k], obs[k], run[k + 1])
  }

  /** A run goes on with whatever is observed next. */
  lemma RunGoesOn(run: seq<Controller>, obs: seq<Observation>, o: Observation)
    requires IsRun(run, obs) && run[|obs|].Sound()
    ensures |run| == |obs| + 1 && IsRun(run + [run[|obs|].Step(o)], obs + [o]) && run[|obs|].Step(o).Sound()
  {
    hide Controller.Step, Controller.Sound;
    StepAdvances(run[|obs|], o);
  }

  lemma NoObservation(c: Controller)
    requires c.Sound()
    ensures IsRun([c], [])
  {
  }

  /** Every sound controller can observe anything: the run always exists. */
  lemma {:induction false} RunExists(c: Controller, obs: seq<Observation>) returns (run: seq<Controller>)
    requires c.Sound()
    ensures |run| == |obs| + 1 && IsRun(run, obs) && run[0] == c && run[|obs|].Sound()
  {
    hide Controller.Step, IsRun;
    if obs == [] {
      NoObservation(c);
      run := [c];
    } else {
      var before, o := obs[..|obs| - 1], obs[|obs| - 1];
      run := RunExists(c, before);
      RunGoesOn(run, before, o);
      assert before + [o] == obs;
      run := run + [run[|before|].Step(o)];
    }
  }

  /** What the run theorems use of a run. */
  predicate Trace(run: seq<Controller>, obs: seq<Observation>) {
    && |run| == |obs| + 1
    && forall k :: 0 <= k < |obs| ==> Advances(run[k], run[k + 1], obs[k])
  }

  lemma RunIsTrace(run: seq<Controller>, obs: seq<Observation>)
    requires IsRun(run, obs)
    ensures Trace(run, obs)
  {
    hide Controller.Step, Advances, Controller.Sound;
    forall k | 0 <= k < |obs|
      ensures Advances(run[k], run[k + 1], obs[k])
    {
      assert Steps(run[k], obs[k], run[k + 1]);
      StepAdvances(run[k], obs[k]);
    }
  }

  /** Every observation moves the controller at most one state, and says so exactly when it does. */
  lemma OneStateAtATime(run: seq<Controller>, obs: seq<Observation>, k: nat)
    requires IsRun(run, obs) && k < |obs|
    ensures var i, j := run[k].telemetry.stateIndex, run[k + 1].telemetry.stateIndex;
            && -1 <= j - i <= 1
            && (run[k + 1].telemetry.changed <==> i != j)
            && 0 <= j <= Floor(run[k + 1].preset)
            && run[k + 1].telemetry.currentScale == Ladder(run[k + 1].preset)[j]
  {
    hide Ladder, Controller.Step;
    assert Steps(run[k], obs[k], run[k + 1]);
    StepAdvances(run[k], obs[k]);
  }

  predicate Trial(c: Controller) { c.downstep.active || c.recovery.active }

  /** The state a running trial would fall back to. */
  function Fallback(c: Controller): nat {
    if c.downstep.active then c.downstep.previousIndex else c.recovery.previousIndex
  }

  /** Sample `j` opened a trial, and none of the samples up to `k` moved the controller again. */
  predicate OpenedAt(run: seq<Controller>, j: nat, k: nat)
    requires k < |run|
  {
    && j < k
    && (Lowered(run[j + 1]) || Raised(run[j + 1]))
    && forall i :: j + 1 < i <= k ==> !run[i].telemetry.changed
  }

  /** A trial running after a sample was opened by it, or ran before it with the same fallback. */
  lemma TrialGoesOn(c: Controller, d: Controller, o: Observation)
    requires Advances(c, d, o) && Trial(d)
    ensures d.telemetry.changed ==> (Lowered(d) || Raised(d)) && c.telemetry.stateIndex == Fallback(d)
    ensures !d.telemetry.changed ==> Trial(c) && Fallback(c) == Fallback(d)
  {
    hide Ladder;
  }

  /** The sample that opened the trial running after `k` samples. */
  lemma {:induction false} TrialOrigin(run: seq<Controller>, obs: seq<Observation>, k: nat)
    returns (j: nat)
    requires Trace(run, obs) && k <= |obs| && !Trial(run[0]) && Trial(run[k])
    ensures OpenedAt(run, j, k)
    ensures run[j].telemetry.stateIndex == Fallback(run[k])
  {
    hide Advances, Fallback, Lowered, Raised;
    if k == 0 {
      assert false;
    } else {
      TrialGoesOn(run[k - 1], run[k], obs[k - 1]);
      if run[k].telemetry.changed {
        j := k - 1;
      } else {
        j := TrialOrigin(run, obs, k - 1);
      }
    }
  }

  /**
    A revert restores exactly the state the trial started from: the sample that opened the trial
    is the last one that moved the controller, and the scale is again what it was before it.
  */
  lemma RevertRestores(run: seq<Controller>, obs: seq<Observation>, k: nat) returns (j: nat)
    requires IsRun(run, obs) && !Trial(run[0]) && k < |obs|
    requires DownstepUndone(run[k + 1]) || RecoveryUndone(run[k + 1])
    ensures OpenedAt(run, j, k)
    ensures run[k + 1].telemetry.stateIndex == run[j].telemetry.stateIndex
    ensures run[k + 1].telemetry.currentScale == run[j].telemetry.currentScale
  {
    hide Ladder, Controller.Step;
    RunIsTrace(run, obs);
    assert Advances(run[k], run[k + 1], obs[k]);
    j := TrialOrigin(run, obs, k);
    SamePreset(run, obs, j, k + 1);
    assert Steps(run[j], obs[j], run[j + 1]);
  }

  lemma {:induction false} SamePreset(run: seq<Controller>, obs: seq<Observation>, i: nat, k: nat)
    requires Trace(run, obs) && i <= k <= |obs|
    ensures run[i].preset == run[k].preset && run[i].enabled == run[k].enabled
    ensures run[i].clock.now <= run[k].clock.now
    decreases k - i
  {
    hide Ladder, Changes, Rests, Controller.Sound;
    if i < k {
      assert Advances(run[k - 1], run[k], obs[k - 1]);
      SamePreset(run, obs, i, k - 1);
    }
  }

  /** Since a downstep at time `t`, pressure has had no time to build before the trial's end. */
  predicate PressureSince(c: Controller, t: real) {
    && t <= c.clock.now
    && (if c.downstep.active then t <= c.downstep.startedSeconds
        else t + OUTPUT_DOWNSTEP_EVALUATION_SECONDS <= c.clock.now - c.evidence.pressure)
  }

  lemma PressureWaits(c: Controller, d: Controller, o: Observation, t: real)
    requires Advances(c, d, o) && PressureSince(c, t)
    ensures if Lowered(d) then d.clock.now >= t + 0.30 else PressureSince(d, t)
  {
    hide Ladder;
  }

  lemma {:induction false} PressureBuilds(run: seq<Controller>, obs: seq<Observation>, i: nat, k: nat)
    requires Trace(run, obs) && i < k <= |obs| && Lowered(run[i + 1])
    requires forall j :: i + 1 < j <= k ==> !Lowered(run[j])
    ensures PressureSince(run[k], run[i + 1].clock.now)
    decreases k
  {
    hide Ladder, Controller.Sound, Rests;
    assert Advances(run[k - 1], run[k], obs[k - 1]);
    if i + 1 < k {
      PressureBuilds(run, obs, i, k - 1);
      PressureWaits(run[k - 1], run[k], obs[k - 1], run[i + 1].clock.now);
    }
  }

  /** Two pressure downsteps are at least 0.30 s of observed time apart. */
  lemma {:induction false} DownstepsKeepApart(run: seq<Controller>, obs: seq<Observation>, i: nat, k: nat)
    requires IsRun(run, obs) && i < k < |obs| && Lowered(run[i + 1]) && Lowered(run[k + 1])
    ensures run[k + 1].clock.now - run[i + 1].clock.now >= 0.30
    decreases k
  {
    hide Ladder, Controller.Step, Controller.Sound, Advances, PressureSince;
    RunIsTrace(run, obs);
    assert Advances(run[k], run[k + 1], obs[k]);
    if j :| i + 1 < j <= k && Lowered(run[j]) {
      DownstepsKeepApart(run, obs, i, j - 1);
      SamePreset(run, obs, j, k + 1);
    } else {
      PressureBuilds(run, obs, i, k);
      PressureWaits(run[k], run[k + 1], obs[k], run[i + 1].clock.now);
    }
  }

  lemma {:induction false} HeadroomBuilds(run: seq<Controller>, obs: seq<Observation>, i: nat, k: nat)
    requires Trace(run, obs) && i < k <= |obs| && Raised(run[i + 1])
    ensures run[k].clock.now - run[k].evidence.headroom >= run[i + 1].clock.now
    decreases k
  {
    hide Ladder, Controller.Sound, Rests;
    assert Advances(run[k - 1], run[k], obs[k - 1]);
    if i + 1 < k {
      HeadroomBuilds(run, obs, i, k - 1);
    }
  }

  /** Two headroom upsteps are at least 1.75 s of observed time apart. */
  lemma UpstepsKeepApart(run: seq<Controller>, obs: seq<Observation>, i: nat, k: nat)
    requires IsRun(run, obs) && i < k < |obs| && Raised(run[i + 1]) && Raised(run[k + 1])
    ensures run[k + 1].clock.now - run[i + 1].clock.now >= 1.75
  {
    hide Ladder, Controller.Step, Controller.Sound, Rests;
    RunIsTrace(run, obs);
    assert Advances(run[k], run[k + 1], obs[k]);
    HeadroomBuilds(run, obs, i, k);
  }

  predicate QuietUntil(c: Controller, until: real) {
    c.clock.now >= until || (!Trial(c) && c.clock.cooldownUntil == until)
  }

  lemma QuietHolds(c: Controller, d: Controller, o: Observation, until: real)
    requires Advances(c, d, o) && QuietUntil(c, until)
    ensures QuietUntil(d, until) && (d.telemetry.changed ==> d.clock.now >= until)
  {
    hide Ladder, Controller.Sound;
  }

  lemma {:induction false} RevertQuiets(run: seq<Controller>, obs: seq<Observation>, i: nat, k: nat)
    requires Trace(run, obs) && i < k <= |obs| && DownstepUndone(run[i + 1])
    ensures QuietUntil(run[k], run[i + 1].clock.now + DOWNSTEP_NO_BENEFIT_HOLD_SECONDS)
    decreases k
  {
    hide Ladder, Controller.Sound, Rests;
    assert Advances(run[k - 1], run[k], obs[k - 1]);
    if i + 1 < k {
      RevertQuiets(run, obs, i, k - 1);
      QuietHolds(run[k - 1], run[k], obs[k - 1],
                 run[i + 1].clock.now + DOWNSTEP_NO_BENEFIT_HOLD_SECONDS);
    }
  }

  /** Nothing changes for 2.0 s after a downstep was reverted. */
  lemma QuietAfterRevert(run: seq<Controller>, obs: seq<Observation>, i: nat, k: nat)
    requires IsRun(run, obs) && i < k < |obs|
    requires DownstepUndone(run[i + 1]) && run[k + 1].telemetry.changed
    ensures run[k + 1].clock.now >= run[i + 1].clock.now + 2.0
  {
    hide Ladder, Controller.Step, Controller.Sound, Advances;
    RunIsTrace(run, obs);
    RevertQuiets(run, obs, i, k);
    assert Advances(run[k], run[k + 1], obs[k]);
    QuietHolds(run[k], run[k + 1], obs[k],
               run[i + 1].clock.now + DOWNSTEP_NO_BENEFIT_HOLD_SECONDS);
  }

  lemma {:induction false} RetryStaysBlocked(run: seq<Controller>, obs: seq<Observation>, i: nat, k: nat)
    requires Trace(run, obs) && i < k <= |obs| && RecoveryUndone(run[i + 1])
    ensures run[k].recovery.retryBlockedUntilSeconds >= run[i + 1].clock.now + 15.0
    decreases k
  {
    hide Ladder, Controller.Sound, Rests;
    assert Advances(run[k - 1], run[k], obs[k - 1]);
    SamePreset(run, obs, i + 1, k);
    if i + 1 < k {
      RetryStaysBlocked(run, obs, i, k - 1);
    }
  }

  /** For 15 s after a recovery revert, no Adaptive-generation sample raises quality. */
  lemma NoRetryAfterPacingRevert(run: seq<Controller>, obs: seq<Observation>, i: nat, k: nat)
    requires IsRun(run, obs) && i < k < |obs|
    requires RecoveryUndone(run[i + 1])
    requires Raised(run[k + 1]) && obs[k].adaptiveFramegenMode
    ensures run[k + 1].clock.now >= run[i + 1].clock.now + 15.0
  {
    hide Ladder, Controller.Step, Controller.Sound, Rests;
    RunIsTrace(run, obs);
    assert Advances(run[k], run[k + 1], obs[k]);
    RetryStaysBlocked(run, obs, i, k);
  }

  lemma {:induction false} SettleExtends(run: seq<Controller>, obs: seq<Observation>, i: nat, k: nat)
    requires Trace(run, obs) && run[0].enabled && i < k <= |obs| && obs[i].flowTransition
    ensures run[k].clock.transitionSettleUntil >= run[i + 1].clock.now + FLOW_TRANSITION_SETTLE_SECONDS
    decreases k
  {
    hide Ladder, Controller.Sound, Rests, Changes;
    assert Advances(run[k - 1], run[k], obs[k - 1]);
    SamePreset(run, obs, 0, k - 1);
    SamePreset(run, obs, i + 1, k);
    if i + 1 < k {
      SettleExtends(run, obs, i, k - 1);
    }
  }

  /** Nothing changes during a flow transition, nor for 0.25 s after its last sample. */
  lemma SettlesAfterTransition(run: seq<Controller>, obs: seq<Observation>, i: nat, k: nat)
    requires IsRun(run, obs) && i <= k < |obs|
    requires obs[i].flowTransition && run[k + 1].telemetry.changed
    ensures i < k && run[k + 1].clock.now >= run[i + 1].clock.now + 0.25
  {
    hide Ladder, Controller.Step, Controller.Sound, Rests, Changes;
    RunIsTrace(run, obs);
    assert Advances(run[k], run[k + 1], obs[k]);
    SamePreset(run, obs, 0, k);
    if i < k {
      SettleExtends(run, obs, i, k);
    }
  }
}
