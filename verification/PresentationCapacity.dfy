/**
  How many generated frames per source frame the swapchain really takes. The cap is lowered on
  trial when frames are rejected and raised by probing; below one frame per source frame it turns
  into a duty cycle.
*/
module PresentationCapacity {
  import opened Numbers

  const EVIDENCE_THRESHOLD := 5
  const EVIDENCE_INCREMENT := 2
  const EVIDENCE_DECAY := 1
  const PRESSURE_RATIO := 0.20
  const SEVERE_RATIO := 0.50
  const EWMA_ALPHA := 0.25
  const GOOD_EFFICIENCY := 0.80
  const RECOVERY_INCREMENT := 1.0
  const RECOVERY_REJECT_DECAY := 0.25
  const DEFICIT_EVIDENCE := 0.75
  const RECOVERY_THRESHOLD := 8.0
  const DEFICIT_THRESHOLD := 2.5
  const TRIAL_SAMPLES := 6
  const EFFICIENCY_IMPROVEMENT := 0.08
  const THROUGHPUT_PRESERVE := 0.95
  const MAX_DEADLINE_ERROR := 8_000_000
  const SIZE_MAX := 0xFFFF_FFFF_FFFF_FFFF
  const DUTIES: seq<real> := [1.0, 0.75, 0.50, 0.25]

  datatype Context = Context(
    outputDeficit: bool, deadlineCapacityValid: bool, safeGenerationHint: nat, schedulerCostLimit: nat,
    sourceInsideBudget: bool, deadlineError: int, higherCapacityProven: bool)
  {
    predicate Proves(cap: nat) {
      && deadlineCapacityValid && safeGenerationHint > cap && schedulerCostLimit > cap
      && sourceInsideBudget && deadlineError <= MAX_DEADLINE_ERROR && higherCapacityProven
    }
  }

  const NO_CONTEXT := Context(false, false, 0, 0, false, 0, false)

  datatype Reason =
    | NoChange | RejectionProbe | ProfitabilityKeepLower | ProfitabilityRestoreHigher
    | RecoveryEvidenceRaise | TargetDeficitProbeSuccess | SubOneDutyLower | SubOneDutyRecover

  /** A cap lowered on trial, and what it is compared with. */
  datatype Trial = Trial(
    active: bool, previousCap: nat, samples: nat, acceptedSum: real, efficiencySum: real,
    baselineAccepted: real, baselineEfficiency: real)

  const NO_TRIAL := Trial(false, 0, 0, 0.0, 0.0, 0.0, 0.0)

  datatype Probe = Probe(pending: bool, inFlight: bool, attempted: nat)

  datatype Ewma = Ewma(observed: bool, accepted: real, efficiency: real, rejection: real)

  /** What is only reported. */
  datatype Report = Report(
    rejectionEvidence: nat, recoveryEvidence: real, attempted: nat, accepted: nat,
    highestUseful: nat, probePending: bool, trialActive: bool, pressure: bool)

  datatype Change = Change(reason: Reason, deficit: bool, lowered: bool, raised: bool)

  datatype Tracker = Tracker(
    max: nat, cap: nat, duty: real, phase: real, rejection: nat, recovery: real,
    ewma: Ewma, trial: Trial, probe: Probe, out: (Report, Change))
  {
    predicate Valid() {
      && duty in DUTIES
      && phase in {0.0, 0.25, 0.50, 0.75}
      && (max >= 1 ==> 1 <= cap <= max)
      && (max == 0 ==> cap == 0)
      && (duty < 1.0 ==> cap == 1 && !trial.active)
      && (trial.active ==> trial.previousCap == cap + 1 <= max && trial.samples < TRIAL_SAMPLES)
      && (probe.inFlight ==> !trial.active && cap < max)
      && rejection <= EVIDENCE_THRESHOLD * 3
      && recovery >= 0.0
    }

    // ---- Asking for frames ----

    predicate ProbeDue(context: Context) {
      && !trial.active && cap < max
      && (|| probe.pending
          || (recovery >= RECOVERY_THRESHOLD && ewma.efficiency >= GOOD_EFFICIENCY)
          || (context.outputDeficit && context.Proves(cap) && recovery >= DEFICIT_THRESHOLD))
    }

    /** The frames granted of those requested, and the state after the call. */
    function Limit(requested: nat, context: Context): (r: (Tracker, nat))
      ensures r.1 <= requested
    {
      if requested == 0 || max == 0 then (this, 0)
      else
        var t := if probe.inFlight then this.(probe := Probe(probe.pending, false, 0)) else this;
        var due := t.ProbeDue(context);
        var attempt := Min(requested, t.cap + 1);
        if due && attempt > t.cap then (t.(probe := Probe(false, true, attempt)), attempt)
        else
          var u := if due then t.(probe := Probe(false, false, attempt)) else t;
          u.Cycle(Min(requested, u.cap))
    }

    /** A cap of one at a lower duty becomes a fractional duty cycle. */
    function Cycle(capped: nat): (r: (Tracker, nat))
      ensures r.1 <= capped
    {
      if capped != 1 || duty >= 0.999 then (this, capped)
      else if phase + duty + 0.000000001 < 1.0 then (this.(phase := phase + duty), 0)
      else (this.(phase := Most(0.0, phase + duty - 1.0)), 1)
    }

    // ---- Observing what was presented ----

    /** Averages and counters of one batch. */
    function Average(attempted: nat, accepted: nat, rejected: nat): Tracker
      requires 0 < attempted
    {
      var efficiency := accepted as real / attempted as real;
      var sample := rejected as real / attempted as real;
      var report := out.0;
      var useful := if accepted > 0 && attempted >= cap then Max(report.highestUseful, attempted)
                    else report.highestUseful;
      this.(
        ewma := if !ewma.observed then Ewma(true, accepted as real, efficiency, sample)
                else Ewma(true, ewma.accepted + EWMA_ALPHA * (accepted as real - ewma.accepted),
                          ewma.efficiency + EWMA_ALPHA * (efficiency - ewma.efficiency),
                          ewma.rejection + EWMA_ALPHA * (sample - ewma.rejection)),
        out := (report.(attempted := report.attempted + attempted, accepted := report.accepted + accepted,
                        highestUseful := useful),
                out.1.(lowered := false, raised := false)))
    }

    /** Evidence of rejection and of recovery. */
    function Weigh(efficiency: real, rejected: nat, context: Context): Tracker {
      var recover := if rejected > 0 then Most(0.0, recovery - RECOVERY_REJECT_DECAY)
                     else if efficiency >= GOOD_EFFICIENCY then recovery + RECOVERY_INCREMENT
                     else recovery;
      this.(
        rejection := if rejected > 0 then Min(rejection + EVIDENCE_INCREMENT, EVIDENCE_THRESHOLD * 3)
                     else if rejection > EVIDENCE_DECAY then rejection - EVIDENCE_DECAY
                     else 0,
        recovery := if context.outputDeficit && context.Proves(cap) then recover + DEFICIT_EVIDENCE else recover)
    }

    /** A probe that got more than the cap accepted raises it. */
    function SettleProbe(accepted: nat, context: Context): Tracker {
      if !probe.inFlight then this
      else
        var done := Probe(probe.pending, false, 0);
        if accepted > cap then
          this.(cap := Min(cap + 1, max), duty := 1.0, phase := 0.0, rejection := 0, recovery := 0.0, probe := done,
                out := (out.0, Change(if context.outputDeficit then TargetDeficitProbeSuccess
                                      else RecoveryEvidenceRaise,
                                      context.outputDeficit, out.1.lowered, true)))
        else this.(recovery := Most(0.0, recovery - 1.0), probe := done)
    }

    predicate Unprofitable(acceptedSum: real, efficiencySum: real, samples: nat, context: Context)
      requires samples > 0
    {
      var improved := efficiencySum / samples as real >= trial.baselineEfficiency + EFFICIENCY_IMPROVEMENT;
      var preserved := trial.baselineAccepted <= 0.0
                       || acceptedSum / samples as real >= trial.baselineAccepted * THROUGHPUT_PRESERVE;
      if context.outputDeficit then !preserved || !improved else !preserved && !improved
    }

    /** A trial ends after six batches: the lower cap is kept, or the higher one restored. */
    function JudgeTrial(accepted: nat, efficiency: real, context: Context): Tracker {
      if !trial.active then this
      else
        var samples := trial.samples + 1;
        var acceptedSum, efficiencySum := trial.acceptedSum + accepted as real, trial.efficiencySum + efficiency;
        if samples < TRIAL_SAMPLES then
          this.(trial := trial.(samples := samples, acceptedSum := acceptedSum, efficiencySum := efficiencySum))
        else
          var over := trial.(active := false, samples := 0, acceptedSum := 0.0, efficiencySum := 0.0);
          if Unprofitable(acceptedSum, efficiencySum, samples, context) then
            this.(cap := Min(trial.previousCap, max), rejection := 0, recovery := 0.0, trial := over,
                  out := (out.0, Change(ProfitabilityRestoreHigher, context.outputDeficit, out.1.lowered, true)))
          else
            this.(trial := over,
                  out := (out.0, out.1.(reason := ProfitabilityKeepLower, deficit := context.outputDeficit)))
    }

    predicate CanLowerCap() {
      && !trial.active && cap > 1 && rejection >= EVIDENCE_THRESHOLD && ewma.rejection >= PRESSURE_RATIO
    }

    predicate CanLowerDuty(context: Context, proven: bool) {
      && !trial.active && cap == 1 && rejection >= EVIDENCE_THRESHOLD && ewma.rejection >= SEVERE_RATIO
      && !(context.outputDeficit && context.sourceInsideBudget && proven)
      && duty > DUTIES[3] + 0.000001
    }

    /** Sustained rejection starts a trial one frame lower, or at one frame lowers the duty. */
    function Lower(context: Context, proven: bool): Tracker {
      if CanLowerCap() then
        this.(cap := cap - 1, phase := 0.0, rejection := 1,
              trial := Trial(true, cap, 0, 0.0, 0.0, ewma.accepted, ewma.efficiency),
              out := (out.0, Change(RejectionProbe, context.outputDeficit, true, out.1.raised)))
      else if CanLowerDuty(context, proven) then
        this.(duty := NextLowerDuty(duty), phase := 0.0, rejection := 0, recovery := 0.0,
              out := (out.0, Change(SubOneDutyLower, context.outputDeficit, true, out.1.raised)))
      else this
    }

    /** Recovery evidence restores duty first, then raises the cap or asks for a probe. */
    function Recover(context: Context, proven: bool): Tracker {
      if duty < 0.999 && recovery >= RECOVERY_THRESHOLD then
        this.(duty := NextHigherDuty(duty), phase := 0.0, recovery := 0.0,
              out := (out.0, Change(SubOneDutyRecover, context.outputDeficit, out.1.lowered, true)))
      else if !trial.active && cap < max && recovery >= RECOVERY_THRESHOLD then
        if !context.outputDeficit && !context.deadlineCapacityValid then
          this.(cap := cap + 1, recovery := 0.0,
                out := (out.0, Change(RecoveryEvidenceRaise, false, out.1.lowered, true)))
        else this.(probe := probe.(pending := true))
      else if context.outputDeficit && proven && recovery >= DEFICIT_THRESHOLD then
        this.(probe := probe.(pending := true))
      else this
    }

    function Publish(attempted: nat, accepted: nat, rejected: nat): Tracker {
      this.(out := (out.0.(rejectionEvidence := rejection, recoveryEvidence := recovery,
                           highestUseful := Max(out.0.highestUseful, if accepted > 0 then attempted else 0),
                           probePending := probe.pending, trialActive := trial.active,
                           pressure := rejected > 0 || ewma.rejection >= 0.10 || trial.active || cap < max
                                       || duty < 0.999),
                    out.1))
    }

    function Observe(attempted: nat, acceptedFrames: nat, wsiRejected: nat, context: Context): Tracker {
      if attempted == 0 || max == 0 then this.(out := (out.0, out.1.(lowered := false, raised := false)))
      else
        var rejected := Min(wsiRejected, attempted);
        var accepted := Min(acceptedFrames, attempted - rejected);
        var efficiency := accepted as real / attempted as real;
        var proven := context.Proves(cap);
        Average(attempted, accepted, rejected)
          .Weigh(efficiency, rejected, context)
          .SettleProbe(accepted, context)
          .JudgeTrial(accepted, efficiency, context)
          .Lower(context, proven)
          .Recover(context, proven)
          .Publish(attempted, accepted, rejected)
    }

    function Configure(newMax: nat): Tracker {
      if max == newMax then this else Fresh(newMax)
    }

    /** A reset goes through a maximum no caller is expected to use. */
    function Reset(): Tracker {
      this.(max := SIZE_MAX).Configure(max)
    }
  }

  function Fresh(max: nat): (t: Tracker)
    ensures t.Valid()
  {
    Tracker(max, max, 1.0, 0.0, 0, 0.0, Ewma(false, 0.0, 0.0, 0.0), NO_TRIAL, Probe(false, false, 0),
            (Report(0, 0.0, 0, 0, 0, false, false, false), Change(NoChange, false, false, false)))
  }

  function NextLowerDuty(duty: real): real {
    if duty >= 1.0 - 0.000001 then 0.75 else if duty >= 0.75 - 0.000001 then 0.50 else 0.25
  }

  function NextHigherDuty(duty: real): real {
    if duty <= 0.25 + 0.000001 then 0.50 else if duty <= 0.50 + 0.000001 then 0.75 else 1.0
  }

  /** Duties are one ladder: each step down is undone by a step up. */
  lemma DutyLadder(duty: real)
    requires duty in DUTIES
    ensures NextLowerDuty(duty) in DUTIES && NextHigherDuty(duty) in DUTIES
    ensures duty > 0.25 ==> NextLowerDuty(duty) < duty && NextHigherDuty(NextLowerDuty(duty)) == duty
    ensures duty < 1.0 ==> NextHigherDuty(duty) > duty && NextLowerDuty(NextHigherDuty(duty)) == duty
  {
    assert duty in {1.0, 0.75, 0.50, 0.25};
    assert DUTIES[0] == 1.0 && DUTIES[1] == 0.75 && DUTIES[2] == 0.50 && DUTIES[3] == 0.25;
  }

  // ---- The invariant ----

  lemma LimitIsValid(t: Tracker, requested: nat, context: Context)
    requires t.Valid()
    ensures t.Limit(requested, context).0.Valid()
    ensures t.Limit(requested, context).1 <= Min(requested, t.max)
    ensures t.Limit(requested, context).0.(phase := t.phase, probe := t.probe) == t
  {
    hide Tracker.Cycle, Tracker.ProbeDue, Context.Proves;
    if requested > 0 && t.max > 0 {
      var u := if t.probe.inFlight then t.(probe := Probe(t.probe.pending, false, 0)) else t;
      var v := if u.ProbeDue(context) then u.(probe := Probe(false, false, Min(requested, u.cap + 1))) else u;
      DueBelowMax(u, context);
      CycleIsValid(v, Min(requested, v.cap));
    }
  }

  lemma DueBelowMax(t: Tracker, context: Context)
    ensures t.ProbeDue(context) ==> !t.trial.active && t.cap < t.max
  {
  }

  lemma CycleIsValid(t: Tracker, capped: nat)
    requires t.Valid()
    ensures t.Cycle(capped).0.Valid() && t.Cycle(capped).0.(phase := t.phase) == t
  {
  }

  lemma AverageIsValid(t: Tracker, attempted: nat, accepted: nat, rejected: nat)
    requires t.Valid() && 0 < attempted
    ensures var u := t.Average(attempted, accepted, rejected);
            && u.Valid() && u.(ewma := t.ewma, out := t.out) == t && !u.out.1.lowered && !u.out.1.raised
  {
  }

  lemma WeighIsValid(t: Tracker, efficiency: real, rejected: nat, context: Context)
    requires t.Valid()
    ensures var u := t.Weigh(efficiency, rejected, context);
            u.Valid() && u.(rejection := t.rejection, recovery := t.recovery) == t
  {
  }

  /** Either nothing was raised, or the cap was, by one, and all evidence is spent. */
  lemma SettleIsValid(t: Tracker, accepted: nat, context: Context)
    requires t.Valid() && !t.out.1.lowered && !t.out.1.raised
    ensures var u := t.SettleProbe(accepted, context);
            && u.Valid() && u.max == t.max && !u.probe.inFlight && !u.out.1.lowered
            && (if u.out.1.raised then u.cap == t.cap + 1 && !u.trial.active && u.rejection == 0 && u.recovery == 0.0
                else u.cap == t.cap && u.duty == t.duty)
  {
    assert DUTIES[0] == 1.0;
  }

  lemma JudgeIsValid(t: Tracker, accepted: nat, efficiency: real, context: Context, before: nat)
    requires t.Valid() && !t.probe.inFlight && !t.out.1.lowered
    requires if t.out.1.raised then t.cap == before + 1 && !t.trial.active && t.rejection == 0 && t.recovery == 0.0
             else t.cap == before
    ensures var u := t.JudgeTrial(accepted, efficiency, context);
            && u.Valid() && u.max == t.max && !u.probe.inFlight && !u.out.1.lowered
            && (if u.out.1.raised then u.cap == before + 1 && !u.trial.active && u.rejection == 0 && u.recovery == 0.0
                else u.cap == before)
  {
  }

  lemma LowerIsValid(t: Tracker, context: Context, proven: bool, before: nat)
    requires t.Valid() && !t.probe.inFlight && !t.out.1.lowered
    requires if t.out.1.raised then t.cap == before + 1 && !t.trial.active && t.rejection == 0 && t.recovery == 0.0
             else t.cap == before
    ensures var u := t.Lower(context, proven);
            && u.Valid() && u.max == t.max && !u.probe.inFlight
            && !(u.out.1.lowered && u.out.1.raised)
            && (u.out.1.lowered ==>
                  (u.trial.active && u.cap == before - 1) || (u.cap == before && u.recovery == 0.0))
            && (u.out.1.raised ==> u.cap == before + 1 && !u.trial.active && u.recovery == 0.0)
            && (!u.out.1.lowered && !u.out.1.raised ==> u.cap == before)
  {
    DutyLadder(t.duty);
    assert DUTIES[3] == 0.25;
  }

  lemma RecoverIsValid(t: Tracker, context: Context, proven: bool, before: nat)
    requires t.Valid() && !t.probe.inFlight && !(t.out.1.lowered && t.out.1.raised)
    requires t.out.1.lowered ==>
               (t.trial.active && t.cap == before - 1) || (t.cap == before && t.recovery == 0.0)
    requires t.out.1.raised ==> t.cap == before + 1 && !t.trial.active && t.recovery == 0.0
    requires !t.out.1.lowered && !t.out.1.raised ==> t.cap == before
    ensures var u := t.Recover(context, proven);
            && u.Valid() && u.max == t.max && !u.probe.inFlight
            && before - 1 <= u.cap <= before + 1 && !(u.out.1.lowered && u.out.1.raised)
            && (u.cap < before ==> u.out.1.lowered) && (u.cap > before ==> u.out.1.raised)
  {
    DutyLadder(t.duty);
    assert t.duty < 0.999 || t.duty == 1.0;
  }

  /**
    Every batch keeps the invariant, moves the cap by at most one frame in the direction it reports,
    and never both lowers and raises.
  */
  lemma ObserveIsValid(t: Tracker, attempted: nat, accepted: nat, rejected: nat, context: Context)
    requires t.Valid()
    ensures var u := t.Observe(attempted, accepted, rejected, context);
            && u.Valid() && u.max == t.max && (attempted > 0 && t.max > 0 ==> !u.probe.inFlight)
            && t.cap - 1 <= u.cap <= t.cap + 1
            && !(u.out.1.lowered && u.out.1.raised)
            && (u.cap < t.cap ==> u.out.1.lowered) && (u.cap > t.cap ==> u.out.1.raised)
  {
    hide Tracker.Average, Tracker.Weigh, Tracker.SettleProbe, Tracker.JudgeTrial, Tracker.Lower, Tracker.Recover;
    if attempted > 0 && t.max > 0 {
      var r := Min(rejected, attempted);
      var a := Min(accepted, attempted - r);
      var proven := context.Proves(t.cap);
      var t0 := t.Average(attempted, a, r);
      AverageIsValid(t, attempted, a, r);
      var t1 := t0.Weigh(a as real / attempted as real, r, context);
      WeighIsValid(t0, a as real / attempted as real, r, context);
      var t2 := t1.SettleProbe(a, context);
      SettleIsValid(t1, a, context);
      var t3 := t2.JudgeTrial(a, a as real / attempted as real, context);
      JudgeIsValid(t2, a, a as real / attempted as real, context, t.cap);
      var t4 := t3.Lower(context, proven);
      LowerIsValid(t3, context, proven, t.cap);
      RecoverIsValid(t4, context, proven, t.cap);
    }
  }

  datatype Event =
    | Configured(max: nat)
    | Limited(requested: nat, context: Context)
    | Observed(attempted: nat, accepted: nat, rejected: nat, context: Context)
    | WasReset

  function Step(t: Tracker, e: Event): Tracker {
    match e
    case Configured(max) => t.Configure(max)
    case Limited(requested, context) => t.Limit(requested, context).0
    case Observed(attempted, accepted, rejected, context) => t.Observe(attempted, accepted, rejected, context)
    case WasReset => t.Reset()
  }

  function After(t: Tracker, run: seq<Event>): Tracker
    decreases |run|
  {
    if run == [] then t else After(Step(t, run[0]), run[1..])
  }

  /** The invariant holds in every reachable state. */
  lemma {:induction false} RunIsValid(t: Tracker, run: seq<Event>)
    requires t.Valid()
    ensures After(t, run).Valid()
    decreases |run|
  {
    hide Tracker.Valid, Tracker.Limit, Tracker.Observe;
    if run != [] {
      match run[0] {
        case Configured(max) => {}
        case Limited(requested, context) => LimitIsValid(t, requested, context);
        case Observed(attempted, accepted, rejected, context) =>
          ObserveIsValid(t, attempted, accepted, rejected, context);
        case WasReset => ResetIsValid(t);
      }
      RunIsValid(Step(t, run[0]), run[1..]);
    }
  }

  lemma ResetIsValid(t: Tracker)
    requires t.Valid()
    ensures t.Reset().Valid()
  {
  }

  /** A reset starts over unless the configured maximum is the one value it reserves. */
  lemma ResetIffNotReserved(max: nat)
    ensures (forall t: Tracker :: t.max == max ==> t.Reset() == Fresh(max)) <==> max != SIZE_MAX
  {
    if max == SIZE_MAX {
      var t := Fresh(max).(phase := 0.5);
      assert t.Reset() == t != Fresh(max);
    }
  }

  // ---- The duty cycle ----

  /** Frames admitted over consecutive calls. */
  function Admitted(t: Tracker, calls: seq<(nat, Context)>): (n: nat)
    decreases |calls|
  {
    if calls == [] then 0
    else t.Limit(calls[0].0, calls[0].1).1 + Admitted(t.Limit(calls[0].0, calls[0].1).0, calls[1..])
  }

  function AfterCalls(t: Tracker, calls: seq<(nat, Context)>): Tracker
    decreases |calls|
  {
    if calls == [] then t else AfterCalls(t.Limit(calls[0].0, calls[0].1).0, calls[1..])
  }

  /** No call asks for nothing, and none starts a probe. */
  predicate Plain(t: Tracker, calls: seq<(nat, Context)>) {
    forall k :: 0 <= k < |calls| ==>
      calls[k].0 > 0 && !t.(probe := Probe(t.probe.pending, false, 0)).ProbeDue(calls[k].1)
  }

  lemma CycleStep(t: Tracker, requested: nat, context: Context)
    requires t.Valid() && t.duty < 1.0 && t.max >= 1 && Plain(t, [(requested, context)])
    ensures var (u, n) := t.Limit(requested, context);
            && u.Valid() && u.duty == t.duty && u.max == t.max && u.phase + n as real == t.phase + t.duty
            && t.(probe := Probe(t.probe.pending, false, 0)) == u.(phase := t.phase, probe := Probe(u.probe.pending, false, 0))
  {
    assert [(requested, context)][0] == (requested, context);
    assert t.duty in {0.75, 0.50, 0.25} by {
      assert t.duty in {1.0, 0.75, 0.50, 0.25};
    }
  }

  lemma PlainStep(t: Tracker, u: Tracker, calls: seq<(nat, Context)>)
    requires calls != [] && Plain(t, calls)
    requires t.(probe := Probe(t.probe.pending, false, 0)) == u.(phase := t.phase, probe := Probe(u.probe.pending, false, 0))
    ensures Plain(t, [calls[0]]) && Plain(u, calls[1..])
  {
    var rest := calls[1..];
    forall k | 0 <= k < |rest|
      ensures rest[k].0 > 0 && !u.(probe := Probe(u.probe.pending, false, 0)).ProbeDue(rest[k].1)
    {
      assert rest[k] == calls[k + 1];
    }
  }

  /** Suppressed slots never become debt: phase and admitted frames add up to the duty handed out. */
  lemma {:induction false} CycleConserves(t: Tracker, calls: seq<(nat, Context)>)
    requires t.Valid() && t.duty < 1.0 && t.max >= 1 && Plain(t, calls)
    ensures Admitted(t, calls) as real + AfterCalls(t, calls).phase == t.phase + |calls| as real * t.duty
    ensures AfterCalls(t, calls).Valid()
    decreases |calls|
  {
    hide Tracker.Limit, Tracker.ProbeDue, Plain, Tracker.Valid;
    if calls == [] {
      assert |calls| as real * t.duty == 0.0;
    } else {
      var (requested, context) := calls[0];
      var (u, n) := t.Limit(requested, context);
      PlainFirst(t, calls);
      CycleStep(t, requested, context);
      PlainStep(t, u, calls);
      CycleConserves(u, calls[1..]);
      assert |calls| as real * t.duty == t.duty + |calls[1..]| as real * t.duty;
    }
  }

  lemma PlainFirst(t: Tracker, calls: seq<(nat, Context)>)
    requires calls != [] && Plain(t, calls)
    ensures Plain(t, [(calls[0].0, calls[0].1)])
  {
  }

  /** At a duty of k quarters, n calls admit exactly the whole part of phase plus n k quarters. */
  lemma DutyAdmitsExactly(t: Tracker, calls: seq<(nat, Context)>)
    requires t.Valid() && t.duty < 1.0 && t.max >= 1 && Plain(t, calls)
    ensures Admitted(t, calls) == (t.phase + |calls| as real * t.duty).Floor
  {
    CycleConserves(t, calls);
  }

  // ---- The object ----

  class GeneratedPresentationCapacityTracker {
    var max: nat
    var cap: nat
    var duty: real
    var phase: real
    var rejection: nat
    var recovery: real
    var ewma: Ewma
    var trial: Trial
    var probe: Probe
    var report: Report
    var change: Change

    function State(): Tracker
      reads this
    {
      Tracker(max, cap, duty, phase, rejection, recovery, ewma, trial, probe, (report, change))
    }

    constructor ()
      ensures State() == Fresh(0)
    {
      max, cap, duty, phase, rejection, recovery := 0, 0, 1.0, 0.0, 0, 0.0;
      ewma, trial, probe := Ewma(false, 0.0, 0.0, 0.0), NO_TRIAL, Probe(false, false, 0);
      report, change := Report(0, 0.0, 0, 0, 0, false, false, false), Change(NoChange, false, false, false);
    }

    method Configure(newMax: nat)
      modifies this
      ensures State() == old(State()).Configure(newMax)
    {
      if max == newMax {
        return;
      }
      max, cap, duty, phase, rejection, recovery := newMax, newMax, 1.0, 0.0, 0, 0.0;
      ewma, trial, probe := Ewma(false, 0.0, 0.0, 0.0), NO_TRIAL, Probe(false, false, 0);
      report, change := Report(0, 0.0, 0, 0, 0, false, false, false), Change(NoChange, false, false, false);
    }

    method Reset()
      modifies this
      ensures State() == old(State()).Reset()
    {
      var configured := max;
      max := SIZE_MAX;
      Configure(configured);
    }

    method Limit(requested: nat, context: Context) returns (granted: nat)
      modifies this
      ensures (State(), granted) == old(State()).Limit(requested, context)
    {
      if requested == 0 || max == 0 {
        return 0;
      }
      if probe.inFlight {
        probe := Probe(probe.pending, false, 0);
      }
      var proven := context.Proves(cap);
      var recovering := recovery >= RECOVERY_THRESHOLD && ewma.efficiency >= GOOD_EFFICIENCY && cap < max;
      if !trial.active && cap < max
         && (probe.pending || recovering || (context.outputDeficit && proven && recovery >= DEFICIT_THRESHOLD)) {
        probe := Probe(false, true, Min(requested, cap + 1));
        if probe.attempted > cap {
          return probe.attempted;
        }
        probe := probe.(inFlight := false);
      }
      var capped := Min(requested, cap);
      if capped != 1 || duty >= 0.999 {
        return capped;
      }
      phase := phase + duty;
      if phase + 0.000000001 < 1.0 {
        return 0;
      }
      phase := Most(0.0, phase - 1.0);
      granted := 1;
    }

    method ObservePlain(attempted: nat, wsiRejected: nat)
      modifies this
      ensures var rejected := Min(wsiRejected, attempted);
              State() == old(State()).Observe(attempted, attempted - rejected, rejected, NO_CONTEXT)
    {
      var rejected := Min(wsiRejected, attempted);
      Observe(attempted, attempted - rejected, rejected, NO_CONTEXT);
    }

    method Observe(attempted: nat, acceptedFrames: nat, wsiRejected: nat, context: Context)
      modifies this
      ensures State() == old(State()).Observe(attempted, acceptedFrames, wsiRejected, context)
    {
      hide Tracker.Average, Tracker.Weigh, Tracker.SettleProbe, Tracker.JudgeTrial, Tracker.Lower, Tracker.Recover,
           Tracker.Publish;
      if attempted == 0 || max == 0 {
        change := change.(lowered := false, raised := false);
        return;
      }
      var rejected := Min(wsiRejected, attempted);
      var accepted := Min(acceptedFrames, attempted - rejected);
      var efficiency := accepted as real / attempted as real;
      var proven := context.Proves(cap);
      Average(attempted, accepted, rejected);
      Weigh(efficiency, rejected, context);
      SettleProbe(accepted, context);
      JudgeTrial(accepted, efficiency, context);
      Lower(context, proven);
      Recover(context, proven);
      Publish(attempted, accepted, rejected);
    }

    method Average(attempted: nat, accepted: nat, rejected: nat)
      requires 0 < attempted
      modifies this
      ensures State() == old(State()).Average(attempted, accepted, rejected)
    {
      change := change.(lowered := false, raised := false);
      var efficiency := accepted as real / attempted as real;
      var sample := rejected as real / attempted as real;
      if !ewma.observed {
        ewma := Ewma(true, accepted as real, efficiency, sample);
      } else {
        ewma := Ewma(true, ewma.accepted + EWMA_ALPHA * (accepted as real - ewma.accepted),
                     ewma.efficiency + EWMA_ALPHA * (efficiency - ewma.efficiency),
                     ewma.rejection + EWMA_ALPHA * (sample - ewma.rejection));
      }
      report := report.(attempted := report.attempted + attempted, accepted := report.accepted + accepted);
      if accepted > 0 && attempted >= cap {
        report := report.(highestUseful := Max(report.highestUseful, attempted));
      }
    }

    method Weigh(efficiency: real, rejected: nat, context: Context)
      modifies this
      ensures State() == old(State()).Weigh(efficiency, rejected, context)
    {
      if rejected > 0 {
        rejection := Min(rejection + EVIDENCE_INCREMENT, EVIDENCE_THRESHOLD * 3);
        recovery := Most(0.0, recovery - RECOVERY_REJECT_DECAY);
      } else {
        rejection := if rejection > EVIDENCE_DECAY then rejection - EVIDENCE_DECAY else 0;
        if efficiency >= GOOD_EFFICIENCY {
          recovery := recovery + RECOVERY_INCREMENT;
        }
      }
      if context.outputDeficit && context.Proves(cap) {
        recovery := recovery + DEFICIT_EVIDENCE;
      }
    }

    method SettleProbe(accepted: nat, context: Context)
      modifies this
      ensures State() == old(State()).SettleProbe(accepted, context)
    {
      if !probe.inFlight {
        return;
      }
      if accepted > cap {
        cap := Min(cap + 1, max);
        duty, recovery, rejection, phase := 1.0, 0.0, 0, 0.0;
        change := Change(if context.outputDeficit then TargetDeficitProbeSuccess else RecoveryEvidenceRaise,
                         context.outputDeficit, change.lowered, true);
      } else {
        recovery := Most(0.0, recovery - 1.0);
      }
      probe := Probe(probe.pending, false, 0);
    }

    method JudgeTrial(accepted: nat, efficiency: real, context: Context)
      modifies this
      ensures State() == old(State()).JudgeTrial(accepted, efficiency, context)
    {
      if !trial.active {
        return;
      }
      trial := trial.(samples := trial.samples + 1, acceptedSum := trial.acceptedSum + accepted as real,
                      efficiencySum := trial.efficiencySum + efficiency);
      if trial.samples < TRIAL_SAMPLES {
        return;
      }
      var lowerAccepted := trial.acceptedSum / trial.samples as real;
      var lowerEfficiency := trial.efficiencySum / trial.samples as real;
      var improved := lowerEfficiency >= trial.baselineEfficiency + EFFICIENCY_IMPROVEMENT;
      var preserved := trial.baselineAccepted <= 0.0 || lowerAccepted >= trial.baselineAccepted * THROUGHPUT_PRESERVE;
      var unprofitable := if context.outputDeficit then !preserved || !improved else !preserved && !improved;
      if unprofitable {
        cap := Min(trial.previousCap, max);
        change := Change(ProfitabilityRestoreHigher, context.outputDeficit, change.lowered, true);
        recovery, rejection := 0.0, 0;
      } else {
        change := change.(reason := ProfitabilityKeepLower, deficit := context.outputDeficit);
      }
      trial := trial.(active := false, samples := 0, acceptedSum := 0.0, efficiencySum := 0.0);
    }

    method Lower(context: Context, proven: bool)
      modifies this
      ensures State() == old(State()).Lower(context, proven)
    {
      if !trial.active && cap > 1 && rejection >= EVIDENCE_THRESHOLD && ewma.rejection >= PRESSURE_RATIO {
        trial := Trial(true, cap, 0, 0.0, 0.0, ewma.accepted, ewma.efficiency);
        cap := cap - 1;
        change := Change(RejectionProbe, context.outputDeficit, true, change.raised);
        rejection, phase := 1, 0.0;
      } else if !trial.active && cap == 1 && rejection >= EVIDENCE_THRESHOLD && ewma.rejection >= SEVERE_RATIO
                && !(context.outputDeficit && context.sourceInsideBudget && proven)
                && duty > DUTIES[3] + 0.000001 {
        duty := LowerDuty(duty);
        change := Change(SubOneDutyLower, context.outputDeficit, true, change.raised);
        rejection, recovery, phase := 0, 0.0, 0.0;
      }
    }

    method Recover(context: Context, proven: bool)
      modifies this
      ensures State() == old(State()).Recover(context, proven)
    {
      if duty < 0.999 && recovery >= RECOVERY_THRESHOLD {
        duty := HigherDuty(duty);
        change := Change(SubOneDutyRecover, context.outputDeficit, change.lowered, true);
        recovery, phase := 0.0, 0.0;
      } else if !trial.active && cap < max && recovery >= RECOVERY_THRESHOLD {
        if !context.outputDeficit && !context.deadlineCapacityValid {
          cap := cap + 1;
          change := Change(RecoveryEvidenceRaise, false, change.lowered, true);
          recovery := 0.0;
        } else {
          probe := probe.(pending := true);
        }
      } else if context.outputDeficit && proven && recovery >= DEFICIT_THRESHOLD {
        probe := probe.(pending := true);
      }
    }

    method Publish(attempted: nat, accepted: nat, rejected: nat)
      modifies this
      ensures State() == old(State()).Publish(attempted, accepted, rejected)
    {
      report := report.(rejectionEvidence := rejection, recoveryEvidence := recovery,
                        highestUseful := Max(report.highestUseful, if accepted > 0 then attempted else 0),
                        probePending := probe.pending, trialActive := trial.active,
                        pressure := rejected > 0 || ewma.rejection >= 0.10 || trial.active || cap < max || duty < 0.999);
    }

    /** The next duty down the ladder, by search. */
    static method LowerDuty(duty: real) returns (lower: real)
      ensures lower == NextLowerDuty(duty)
    {
      assert DUTIES[0] == 1.0 && DUTIES[1] == 0.75 && DUTIES[2] == 0.50 && DUTIES[3] == 0.25;
      for index := 0 to 3
        invariant forall k :: 0 <= k < index ==> duty < DUTIES[k] - 0.000001
      {
        if duty >= DUTIES[index] - 0.000001 {
          return DUTIES[index + 1];
        }
      }
      lower := DUTIES[3];
    }

    static method HigherDuty(duty: real) returns (higher: real)
      ensures higher == NextHigherDuty(duty)
    {
      assert DUTIES[0] == 1.0 && DUTIES[1] == 0.75 && DUTIES[2] == 0.50 && DUTIES[3] == 0.25;
      var index := 3;
      while index > 0
        invariant 0 <= index <= 3
        invariant forall k :: index < k <= 3 ==> duty > DUTIES[k] + 0.000001
      {
        if duty <= DUTIES[index] + 0.000001 {
          return DUTIES[index - 1];
        }
        index := index - 1;
      }
      higher := DUTIES[0];
    }
  }
}
