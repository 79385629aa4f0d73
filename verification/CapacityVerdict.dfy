/** How a cap lowered on trial is judged, read off the six batches of the trial, and when one is lowered. */
module CapacityVerdict {
  import opened Numbers
  import opened PresentationCapacity

  /** A batch as it counts: what was rejected cannot have been accepted. */
  datatype Batch = Batch(attempted: nat, accepted: nat)

  /** The batch an event reports, if any. */
  function Reported(e: Event): seq<Batch> {
    if e.Observed? && e.attempted > 0
    then [Batch(e.attempted, Min(e.accepted, e.attempted - Min(e.rejected, e.attempted)))]
    else []
  }

  function Batches(run: seq<Event>): seq<Batch> {
    if run == [] then [] else Batches(run[..|run| - 1]) + Reported(run[|run| - 1])
  }

  function Accepted(batches: seq<Batch>): nat {
    if batches == [] then 0 else Accepted(batches[..|batches| - 1]) + batches[|batches| - 1].accepted
  }

  /** The sum of the shares that were accepted. */
  function Shares(batches: seq<Batch>): real {
    if batches == [] then 0.0
    else
      var b := batches[|batches| - 1];
      Shares(batches[..|batches| - 1])
      + if b.attempted > 0 then b.accepted as real / b.attempted as real else 0.0
  }

  /**
    The higher cap did better. Fewer frames got through at the lower one, by more than a twentieth;
    the share that got through did not improve by 0.08. One of the two is enough while output is
    missing, otherwise it takes both.
  */
  predicate HigherWasBetter(batches: seq<Batch>, acceptedBefore: real, shareBefore: real, deficit: bool) {
    var fewer := acceptedBefore > 0.0 && Accepted(batches) as real < 6.0 * 0.95 * acceptedBefore;
    var noBetterShare := Shares(batches) < 6.0 * (shareBefore + 0.08);
    if deficit then fewer || noBetterShare else fewer && noBetterShare
  }

  /** A trial as it stands after `batches`. */
  predicate Trying(t: Tracker, opened_: Tracker, batches: seq<Batch>) {
    && t.Valid() && t.max == opened_.max && t.cap == opened_.cap && |batches| < 6 && opened_.trial.active
    && t.trial == opened_.trial.(samples := |batches|, acceptedSum := Accepted(batches) as real,
                                 efficiencySum := Shares(batches))
  }

  /** Nothing else that goes on touches a running trial. */
  lemma TrialKeeps(t: Tracker, attempted: nat, accepted: nat, rejected: nat, context: Context)
    requires t.Valid() && t.trial.active && t.max > 0 && 0 < attempted
    ensures var efficiency := accepted as real / attempted as real;
            var u := t.Average(attempted, accepted, rejected).Weigh(efficiency, rejected, context)
                      .SettleProbe(accepted, context);
            && u.trial == t.trial && u.cap == t.cap && u.max == t.max && u.duty == 1.0 && !u.probe.inFlight
            && !u.out.1.lowered && !u.out.1.raised
  {
    assert DUTIES[0] == 1.0;
  }

  lemma OngoingStays(t: Tracker, context: Context, proven: bool)
    requires t.trial.active && t.duty == 1.0
    ensures var u := t.Lower(context, proven).Recover(context, proven);
            u.trial == t.trial && u.cap == t.cap && u.max == t.max
  {
    hide Context.Proves;
  }

  /** A restored cap has no evidence left to change it again. */
  lemma RestoredStays(t: Tracker, context: Context, proven: bool)
    requires !t.trial.active && t.duty == 1.0 && t.rejection == 0 && t.recovery == 0.0
    ensures t.Lower(context, proven).Recover(context, proven) == t
  {
    hide Context.Proves;
  }

  /** Whatever follows, it does not report a restored cap. */
  lemma KeptIsNotRestored(t: Tracker, context: Context, proven: bool)
    requires t.out.1.reason != ProfitabilityRestoreHigher
    ensures t.Lower(context, proven).Recover(context, proven).out.1.reason != ProfitabilityRestoreHigher
  {
    hide Context.Proves;
  }

  lemma SumsGrow(batches: seq<Batch>, b: Batch)
    requires b.attempted > 0
    ensures Accepted(batches + [b]) == Accepted(batches) + b.accepted
    ensures Shares(batches + [b]) == Shares(batches) + b.accepted as real / b.attempted as real
  {
    assert (batches + [b])[..|batches|] == batches;
  }

  lemma Divides(sum: real, bound: real)
    ensures sum / 6.0 >= bound <==> sum >= 6.0 * bound
  {
  }

  /** One more batch, before the sixth. */
  lemma TrialGoesOn(t: Tracker, opened_: Tracker, batches: seq<Batch>, e: Event)
    requires Trying(t, opened_, batches) && (e.Limited? || e.Observed?) && |batches + Reported(e)| < 6
    ensures Trying(Step(t, e), opened_, batches + Reported(e))
  {
    hide Tracker.Average, Tracker.Weigh, Tracker.SettleProbe, Tracker.Lower, Tracker.Recover, Tracker.Limit, Accepted,
         Shares, Context.Proves, Tracker.Valid;
    TrialHasRoom(t);
    if e.Limited? {
      LimitIsValid(t, e.requested, e.context);
      assert batches + Reported(e) == batches;
    } else {
      ObserveIsValid(t, e.attempted, e.accepted, e.rejected, e.context);
      if e.attempted == 0 {
        assert batches + Reported(e) == batches;
      } else {
        var b := Reported(e)[0];
        var rejected := Min(e.rejected, e.attempted);
        SumsGrow(batches, b);
        TrialKeeps(t, e.attempted, b.accepted, rejected, e.context);
        var u := t.Average(e.attempted, b.accepted, rejected)
                  .Weigh(b.accepted as real / e.attempted as real, rejected, e.context).SettleProbe(b.accepted, e.context);
        OngoingStays(u.JudgeTrial(b.accepted, b.accepted as real / e.attempted as real, e.context), e.context,
                     e.context.Proves(t.cap));
      }
    }
  }

  lemma TrialHasRoom(t: Tracker)
    requires t.Valid()
    ensures t.trial.active ==> t.max > 0 && t.trial.previousCap == t.cap + 1 <= t.max
  {
  }

  /** The sixth batch ends the trial. */
  lemma TrialEnds(t: Tracker, opened_: Tracker, batches: seq<Batch>, e: Event)
    requires Trying(t, opened_, batches) && |batches| == 5 && e.Observed? && e.attempted > 0
    ensures var u := Step(t, e);
            var better := HigherWasBetter(batches + Reported(e), opened_.trial.baselineAccepted,
                                          opened_.trial.baselineEfficiency, e.context.outputDeficit);
            && (u.out.1.reason == ProfitabilityRestoreHigher <==> better)
            && (better ==> u.cap == opened_.trial.previousCap && !u.trial.active)
  {
    hide Tracker.Average, Tracker.Weigh, Tracker.SettleProbe, Tracker.Lower, Tracker.Recover, Accepted, Shares,
         Context.Proves, Tracker.Valid;
    TrialHasRoom(t);
    var b := Reported(e)[0];
    var rejected := Min(e.rejected, e.attempted);
    var efficiency := b.accepted as real / e.attempted as real;
    SumsGrow(batches, b);
    TrialKeeps(t, e.attempted, b.accepted, rejected, e.context);
    var u := t.Average(e.attempted, b.accepted, rejected).Weigh(efficiency, rejected, e.context)
              .SettleProbe(b.accepted, e.context);
    var all := batches + [b];
    Divides(Shares(all), opened_.trial.baselineEfficiency + 0.08);
    Divides(Accepted(all) as real, opened_.trial.baselineAccepted * 0.95);
    var v, proven := u.JudgeTrial(b.accepted, efficiency, e.context), e.context.Proves(t.cap);
    if HigherWasBetter(all, opened_.trial.baselineAccepted, opened_.trial.baselineEfficiency, e.context.outputDeficit) {
      RestoredStays(v, e.context, proven);
    } else {
      KeptIsNotRestored(v, e.context, proven);
    }
  }

  /** Requests and batches, with a trial just opened at the start. */
  predicate TrialRun(opened_: Tracker, run: seq<Event>) {
    && opened_.Valid() && opened_.trial.active && opened_.trial.samples == 0
    && opened_.trial.acceptedSum == 0.0 && opened_.trial.efficiencySum == 0.0
    && (forall k :: 0 <= k < |run| ==> run[k].Limited? || run[k].Observed?)
  }

  lemma {:induction false} AfterOneMore(t: Tracker, run: seq<Event>, e: Event)
    ensures After(t, run + [e]) == Step(After(t, run), e)
    decreases |run|
  {
    hide Step;
    if run != [] {
      assert (run + [e])[1..] == run[1..] + [e];
      AfterOneMore(Step(t, run[0]), run[1..], e);
    }
  }

  lemma {:induction false} TrialContinues(opened_: Tracker, run: seq<Event>)
    requires TrialRun(opened_, run) && |Batches(run)| < 6
    ensures Trying(After(opened_, run), opened_, Batches(run))
  {
    hide Tracker.Valid, Step, Trying;
    if run == [] {
      assert Accepted([]) == 0 && Shares([]) == 0.0;
      TrialBegins(opened_);
    } else {
      var before, e := run[..|run| - 1], run[|run| - 1];
      TrialContinues(opened_, before);
      AfterOneMore(opened_, before, e);
      assert before + [e] == run;
      TrialGoesOn(After(opened_, before), opened_, Batches(before), e);
    }
  }

  lemma TrialBegins(opened_: Tracker)
    requires TrialRun(opened_, [])
    ensures Trying(opened_, opened_, [])
  {
    hide Tracker.Valid;
  }

  /**
    The verdict on a lower cap. Whatever is requested and presented meanwhile, the sixth batch ends
    the trial, and the higher cap comes back if and only if it was better, by the batches of the trial.
  */
  lemma LowerCapVerdict(opened_: Tracker, run: seq<Event>, e: Event)
    requires TrialRun(opened_, run) && |Batches(run)| == 5 && e.Observed? && e.attempted > 0
    ensures var u := After(opened_, run + [e]);
            var better := HigherWasBetter(Batches(run + [e]), opened_.trial.baselineAccepted,
                                          opened_.trial.baselineEfficiency, e.context.outputDeficit);
            && (u.out.1.reason == ProfitabilityRestoreHigher <==> better)
            && (better ==> u.cap == opened_.trial.previousCap && !u.trial.active)
  {
    hide Tracker.Valid, Step, Trying, HigherWasBetter;
    TrialContinues(opened_, run);
    AfterOneMore(opened_, run, e);
    assert (run + [e])[..|run|] == run;
    TrialEnds(After(opened_, run), opened_, Batches(run), e);
  }

  // ---- When a cap is lowered ----

  /** A batch of which nothing gets through. */
  predicate Refused(e: Event) { e.Observed? && e.attempted > 0 && e.rejected >= e.attempted }

  /** The cap was lowered by one, on a trial against the averages so far. */
  predicate OnTrial(t: Tracker, before: Tracker) {
    t.cap == before.cap - 1 && t.trial.active && t.trial.previousCap == before.cap && t.trial.samples == 0
  }

  /** No trial, `batches` refused so far, and too little evidence of recovery to raise anything soon. */
  predicate Rejecting(t: Tracker, before: Tracker, batches: nat) {
    && t.Valid() && !t.trial.active && t.max == before.max && t.cap == before.cap > 1
    && t.rejection >= 2 * batches && t.recovery <= 5.25 + 0.75 * batches as real
    && t.ewma.rejection >= 0.0 && (batches > 0 ==> t.ewma.rejection >= 0.25)
  }

  lemma RejectedWeighs(t: Tracker, attempted: nat, context: Context)
    requires t.Valid() && 0 < attempted && t.ewma.rejection >= 0.0
    ensures var u := t.Average(attempted, 0, attempted).Weigh(0.0, attempted, context).SettleProbe(0, context);
            && u.cap == t.cap && u.max == t.max && u.trial == t.trial && u.duty == t.duty
            && u.rejection == Min(t.rejection + 2, 15) && u.recovery <= t.recovery + 0.75
            && u.ewma.rejection >= 0.25
  {
    hide Context.Proves;
    assert attempted as real / attempted as real == 1.0;
    assert 0 as real / attempted as real == 0.0;
  }

  lemma RejectedLowers(t: Tracker, context: Context, proven: bool)
    requires t.Valid() && !t.trial.active && t.cap > 1 && t.ewma.rejection >= 0.25 && t.recovery <= 7.5
    ensures var u := t.Lower(context, proven).Recover(context, proven);
            if t.rejection >= 5 then OnTrial(u, t)
            else && !u.trial.active && u.cap == t.cap && u.max == t.max && u.rejection == t.rejection
                 && u.recovery == t.recovery && u.ewma == t.ewma
  {
    hide Context.Proves;
    assert DUTIES[0] == 1.0;
  }

  lemma RejectedStep(t: Tracker, before: Tracker, batches: nat, e: Event)
    requires Rejecting(t, before, batches) && batches < 3 && Refused(e)
    ensures OnTrial(Step(t, e), before) || (batches < 2 && Rejecting(Step(t, e), before, batches + 1))
  {
    hide Tracker.Average, Tracker.Weigh, Tracker.SettleProbe, Tracker.Lower, Tracker.Recover, Context.Proves;
    ObserveIsValid(t, e.attempted, e.accepted, e.rejected, e.context);
    RejectedWeighs(t, e.attempted, e.context);
    var u := t.Average(e.attempted, 0, e.attempted).Weigh(0.0, e.attempted, e.context).SettleProbe(0, e.context);
    assert 0 as real / e.attempted as real == 0.0;
    SettledIsValid(t, e.attempted, e.context);
    RejectedLowers(u, e.context, e.context.Proves(t.cap));
  }

  lemma SettledIsValid(t: Tracker, attempted: nat, context: Context)
    requires t.Valid() && 0 < attempted
    ensures t.Average(attempted, 0, attempted).Weigh(0.0, attempted, context).SettleProbe(0, context).Valid()
  {
    hide Tracker.Valid, Tracker.Weigh, Tracker.SettleProbe, Tracker.Average;
    AverageIsValid(t, attempted, 0, attempted);
    WeighIsValid(t.Average(attempted, 0, attempted), 0.0, attempted, context);
    SettleIsValid(t.Average(attempted, 0, attempted).Weigh(0.0, attempted, context), 0, context);
  }

  /** Three batches in a row of which nothing gets through lower the cap by one, on trial, by the third at the latest. */
  lemma ThreeRefusalsLower(t: Tracker, a: Event, b: Event, c: Event)
    requires t.Valid() && !t.trial.active && t.cap > 1 && t.recovery <= 5.25 && t.ewma.rejection >= 0.0
    requires Refused(a) && Refused(b) && Refused(c)
    ensures OnTrial(Step(t, a), t) || OnTrial(After(t, [a, b]), t) || OnTrial(After(t, [a, b, c]), t)
  {
    hide Tracker.Valid, Step, OnTrial;
    RejectedStep(t, t, 0, a);
    assert [a, b][1..] == [b] && [a, b, c][1..] == [b, c] && [b, c][1..] == [c] && [b][1..] == [] && [c][1..] == [];
    if !OnTrial(Step(t, a), t) {
      RejectedStep(Step(t, a), t, 1, b);
      if !OnTrial(Step(Step(t, a), b), t) {
        RejectedStep(Step(Step(t, a), b), t, 2, c);
      }
    }
    AfterThree(t, a, b, c);
  }

  lemma AfterThree(t: Tracker, a: Event, b: Event, c: Event)
    ensures After(t, [a, b]) == Step(Step(t, a), b) && After(t, [a, b, c]) == Step(Step(Step(t, a), b), c)
  {
    hide Step;
    AfterOneMore(t, [], a);
    AfterOneMore(t, [a], b);
    AfterOneMore(t, [a, b], c);
    assert [] + [a] == [a] && [a] + [b] == [a, b] && [a, b] + [c] == [a, b, c];
  }
}
