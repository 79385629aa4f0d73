# Frame generation: governor, scheduler, transport and shader rewriters

A verification model of the parts of the frame-generation layer whose guarantees only show over
whole runs. `dafny verify dfyconfig.toml` checks everything.

## What is modelled

| files | part of the program |
|---|---|
| `FlowController`, `FlowTheorems`, `FlowPressure`, `FlowDecisions`, `FlowTrials`, `FlowProgress`, `FlowSeed`, `AdaptiveFlowController` | the Adaptive Flow governor: quality ladder, evidence, cooldown, barriers, downstep and recovery trials |
| `SourceTimeline` | the integer phase predictor of the source timeline |
| `DeadlineAdmission` | admission of generated batches against a time budget, and the delivery reserve |
| `PresentationCapacity`, `CapacityVerdict` | the cap on generated frames: trials, probes, sub-one duty |
| `OutputCadence`, `OutputRates` | the output-rate ring and its confirmed deficit and satisfaction |
| `CadenceWindow`, `FrameScheduler`, `FrameTarget`, `AdaptiveFrameScheduler` | trimmed-mean cadence, density lock, error diffusion, cost ceiling |
| `PresentTransport`, `TransportSafety`, `TransportOrder`, `PresentChain`, `LsContext` | presenting one source frame on Android without conservative synchronisation: pass ring, fences, cross-frame semaphores, the image pair shared by two devices |
| `BitMasks`, `SpirvStream`, `PredicateRewrite`, `PredicateTheorems`, `PredicateMeaning`, `PredicateRewriter`, `PredicateAccepts`, `PredicateWrites` | the predicate rewriter of one reduction shader at its three levels: canonical (B4), masked (B11), fused (B13) |
| `TailFusion`, `TailChecks`, `TailWitness`, `TailFuser`, `TailMeaning`, `TailLevels`, `TailTexels` | the mipmap tail fusion (B14), and what the fused tail computes |
| `Numbers`, `Options` | minimum, maximum, clamping, and optional values |

Each stateful component exists twice. A datatype with a step function is the specification; a class
with the program's fields, updated in place by methods with the program's branches and loops, is
proved to compute exactly that step. The theorems are about runs of the step, so they hold of every
sequence of calls on the object.

How values are read:

- `double` and `float` are exact reals, and time is a real that accumulates. Nanosecond values are
  integers with an explicit 64-bit maximum where the program saturates.
- SPIR-V words are integers below 2^32; `&` and `|` are defined bit by bit on them. Byte order is
  little-endian, as the four-byte copies of the program assume.
- The hash fingerprints are an arbitrary predicate on the bytes, so what is proved holds of every
  module that passes the structural checks, not only of the shipped one.
- In the transport, fence status, image acquisition, export and import of handles, and timeouts are
  answers of the environment (`Cycle`), quantified over. The GPU is a record of signalled and waited
  semaphores, outstanding waits and busy fences; it raises a fault flag at the first use that
  sections 7.3 (Fences) and 7.4 (Semaphores) of the Vulkan 1.3 specification forbid. It also keeps what
  every swapchain image holds and the log of presents in queue order, so what is seen on the screen is
  read off the copies and presents made, not off what a call reports. A second record (`Order`) follows
  which work comes behind which: what an image or the shared pair was last touched by, what each
  semaphore covers, and when each output of the second device is ready; a flag is raised by a present, a
  copy or a start of the second device that does not wait for what it reads or overwrites. The six facts
  assumed of the environment are listed at the head of `PresentTransport.dfy`.
- The evaluator of `PredicateMeaning` runs the inserted instructions in stream order for one lane;
  instructions of the original shader are passed over.
- The evaluator of `TailMeaning` runs the fused tail in lockstep over the lanes of one subgroup:
  32-bit words with wrap-around, exact reals for shader numbers, an arbitrary reading of a word's bits as
  a number, divergence and reconvergence by labels, and broadcasts between lanes. Constants of the
  original module are named by their ids; index offsets and shifts among them are parameters.

## Findings

Where the code differs from what one would expect of it, the model follows the code.

- `SourceProtectedTimeline` settles on a constant interval exactly when it starts over, or its
  prediction is at least 5 ns or not more than 2 ns below the interval; a prediction of 4 ns or less that
  is further below stays where it is for ever (`SourceTimeline.SettlesIff`, `SourceTimeline.ConvergesIff`,
  `SourceTimeline.StaysIffSettled`).
- `GeneratedPresentationCapacityTracker::reset` starts over if and only if the configured maximum is
  not `SIZE_MAX` (`PresentationCapacity.ResetIffNotReserved`).
- `LsfgOutputCadenceTracker::configure` with a new target leaves the target confirmed as satisfied
  (`OutputCadence.ConfiguredCountsAsSatisfied`). In every run a target is confirmed without ten good
  windows in a row if and only if no accepted or stale observation and no transition has followed the
  configuration (`OutputCadence.UnearnedIffUntouched`).
- An output that shows no frame at all, or is reported in samples below 1/512 s, never has a valid rate, so
  neither a deficit nor a satisfaction is confirmed however long it lasts (`OutputRates.UnseenOutput`).
- The governor may raise quality against a pressure signal: the announcement that a compute deadline is
  close does not block an upstep at the floor. Some controller reached from a reset or a seed does so on
  an observation if and only if it stands at the floor, the observation shows headroom of every kind
  together with that announcement, and it is a usable sample outside transitions
  (`FlowPressure.RaisesAgainstPressureIff`); a run that gets there is
  `FlowPressure.FloorRaisesAgainstDeadline`.
- A full delivery reserve survives 130 consecutive successes and is forgotten after 131
  (`DeadlineAdmission.ReserveRemembered`, `DeadlineAdmission.ReserveForgotten`).
- The predicate rewriter compares with id 54 as zero and never looks at its value; only the fingerprint
  guarantees it. Masked and canonical modules decide alike whatever it is
  (`PredicateMeaning.MaskedIsCanonical`); fused and canonical modules decide alike in every lane if and
  only if it is zero or not below any of the five steps (`PredicateMeaning.FusedAgreesIff`).
- A present that finds its pass slot busy and whose passthrough fails returns the error without
  queueing anything and without ending the lockstep. It does so exactly when the slot's fence failed, or
  was submitted and is not seen signalled and reset, and the passthrough is not taken
  (`PresentChain.RefusedIff`); eight presents with no fence seen make the ninth such a call
  (`PresentChain.FullRingRefuses`).
- Of the seven checks `fuseTail` makes of what it wrote, two can never fail, the barrier check fails
  exactly when the first function comes after the fifth barrier, and what survives of the module decides
  the others (`TailChecks.WhatCanFail`).

## Model

| member | source | states |
|---|---|---|
| `FlowTheorems.OneStateAtATime` | src/adaptive_flow_controller.cpp:179-810 | in every run each observation moves at most one ladder state, `changed` is reported exactly when the state moved, the index stays in range and the scale is the ladder's |
| `FlowTheorems.StepAdvances` | src/adaptive_flow_controller.cpp:197-263 | one observation keeps the trial invariant (trials exclude each other; a downstep trial sits one state below its origin, a recovery trial one above), time advances by the capped evidence, and every change obeys the barriers |
| `FlowTheorems.RunExists` | src/adaptive_flow_controller.cpp:179-180 | any sequence of observations can be observed from any sound state, and the invariant holds at its end |
| `FlowTheorems.RevertRestores` | src/adaptive_flow_controller.cpp:390-407 | a reverted downstep or recovery restores exactly the index and scale before the sample that opened the trial, which is the last sample that moved the controller |
| `FlowTheorems.DownstepsKeepApart` | src/adaptive_flow_controller.cpp:633-690 | two pressure downsteps are at least 0.30 s of observed time apart, in every run |
| `FlowTheorems.UpstepsKeepApart` | src/adaptive_flow_controller.cpp:773-798 | two headroom upsteps are at least 1.75 s of observed time apart |
| `FlowTheorems.QuietAfterRevert` | src/adaptive_flow_controller.cpp:556-577 | nothing changes for 2.0 s after a downstep revert |
| `FlowTheorems.NoRetryAfterPacingRevert` | src/adaptive_flow_controller.cpp:699-706 | no upstep on an Adaptive-generation sample for 15 s after a recovery revert |
| `FlowTheorems.SettlesAfterTransition` | src/adaptive_flow_controller.cpp:209-246 | nothing changes during a flow transition or for 0.25 s after its last sample |
| `FlowTheorems.DownstepIsGoverned` | src/adaptive_flow_controller.cpp:461-571 | evaluating a downstep either keeps it, ends it where it is, or reverts it to its origin with the 2.0 s hold |
| `FlowTheorems.RecoveryIsGoverned` | src/adaptive_flow_controller.cpp:368-423 | evaluating a recovery either keeps it, ends it where it is, or reverts it to its origin with the 15 s block |
| `FlowTheorems.LowerIsGoverned` | src/adaptive_flow_controller.cpp:595-695 | a lowering decision goes down one state only with confirmed evidence and opens the trial that can undo it |
| `FlowTheorems.RaiseIsGoverned` | src/adaptive_flow_controller.cpp:697-809 | a raising decision goes up one state only with 1.75 s of headroom and outside the retry block |
| `FlowPressure.LoweringNeedsPressure` | src/adaptive_flow_controller.cpp:584-631 | quality is lowered only if the observation itself shows compute, device or cadence pressure; thermal state, a presentation loss, or in fixed mode a missed output target, is never enough |
| `FlowDecisions.LowersIff` | src/adaptive_flow_controller.cpp:584-690 | exactly when quality is lowered: the sample reaches a decision above the floor (no trial, barrier, cooldown or hold), shows compute, device, target or probe pressure, that pressure is worth a cheaper state (compute or device pressure needs Flow to take 0.10 of the budget and the next state to give back 0.025 of it, device pressure alone also 0.40 of the budget for frame generation), and it has lasted 0.15, 0.20, 0.25 or 0.40 s by its kind |
| `FlowDecisions.EvidenceCounts` | src/adaptive_flow_controller.cpp:595-643 | what a deciding sample under pressure does to the evidence: its time is added if it counts, all evidence is dropped if it does not, and enough of it is spent on the next state |
| `FlowDecisions.PressureLowers` | src/adaptive_flow_controller.cpp:596-690 | a run of samples under compute pressure with Flow above both ratios lowers a state before 0.40 s and a sample have passed (0.20 s for device pressure), and changes nothing until then |
| `FlowDecisions.CheapFlowIsKept` | src/adaptive_flow_controller.cpp:596-631 | in any run in which Flow is below either ratio for every step of the ladder, no target is missed and nothing is probed, quality is never lowered |
| `FlowDecisions.RaisesIff` | src/adaptive_flow_controller.cpp:697-809 | exactly when quality is raised: the sample reaches a decision below the best state outside the retry block and a scheduler transition, nothing presses it down, it shows headroom of every kind (in fixed mode without a target, the best source rate), and headroom has lasted 1.75 s |
| `FlowDecisions.HeadroomRaises` | src/adaptive_flow_controller.cpp:708-803 | a run of samples with headroom raises a state before 1.75 s and a sample have passed, and changes nothing until then |
| `FlowTrials.LoweringOpens` | src/adaptive_flow_controller.cpp:643-690 | the sample that lowers quality is what the cheaper state is measured against |
| `FlowTrials.TrialVerdict` | src/adaptive_flow_controller.cpp:461-571 | in every run the first plain sample after 0.15 s (targets and probes) or 0.30 s ends the trial of a cheaper state, and returns to the better one if and only if no sample of the trial was better than the one that opened it: more output, a faster source, relief of whatever pressed, or a target still missed |
| `FlowTrials.RaisingOpens` | src/adaptive_flow_controller.cpp:773-798 | a raise opens a pacing trial exactly in Adaptive generation at a known source rate and density, and is its measure |
| `FlowTrials.PacingVerdict` | src/adaptive_flow_controller.cpp:368-423 | in every run a sample of a pacing trial returns to the cheaper state if and only if the source was slower than 0.94 with over 0.25 more density without a break for 0.15 s up to it; otherwise the better state stays, and the trial is over after 0.40 s |
| `FlowPressure.RaisingNeedsHeadroom` | src/adaptive_flow_controller.cpp:708-771 | quality is raised only if the observation itself shows headroom of every kind and the better state is predicted within 0.82 of the budget |
| `FlowPressure.RaisedAgainstPressure` | src/adaptive_flow_controller.cpp:595-803 | an upstep in spite of a pressure signal happens only at the floor and only against an announced compute deadline, in any sound state |
| `FlowPressure.RaisesAgainstPressureIff` | src/adaptive_flow_controller.cpp:595-803 | a controller reached from a reset or a seed makes such an upstep from a state on an observation if and only if the state is the floor, the observation has full headroom and the announced deadline, and it is a usable, elapsed sample outside transitions (with a source rate where fixed mode has no target) |
| `FlowPressure.FloorRaisesAgainstDeadline` | src/adaptive_flow_controller.cpp:595-803 | a run from a controller seeded at its floor that ends in such an upstep |
| `FlowProgress.StarvationReachesFloor` | src/adaptive_flow_controller.cpp:461-577 | a run in which a targeted output keeps missing its target never climbs, never reverts, and at every moment has reached the floor or spent less than 0.80 s per step taken (plus 0.15 s) |
| `FlowProgress.FloorWithinBudget` | src/adaptive_flow_controller.cpp:584-695 | 0.80 s of observed time per remaining ladder step bring such a run to the floor |
| `FlowProgress.ResetBegins` | src/adaptive_flow_controller.cpp:154-177 | a reset of an enabled controller is a start of such a run from the best state |
| `FlowSeed.SeedRoundTrip` | src/adaptive_flow_controller.cpp:816-830 | the conservative seed is the best state not above the scale, or the floor; seeding with it lands on that very state; a seed seeds itself |
| `AdaptiveFlow.AdaptiveFlowController.constructor` | include/adaptive_flow_controller.hpp:135-160 | a controller made without a preset is disabled and satisfies the invariant |
| `AdaptiveFlow.AdaptiveFlowController.Enabled` | src/adaptive_flow_controller.cpp:79-82 | one made for a preset is enabled at its best state and satisfies the invariant |
| `AdaptiveFlow.AdaptiveFlowController.Configure` | src/adaptive_flow_controller.cpp:84-111 | an unchanged configuration changes nothing; any other one resets under the new settings |
| `AdaptiveFlow.AdaptiveFlowController.SeedCurrentScale` | src/adaptive_flow_controller.cpp:113-131 | seeding is accepted exactly when enabled and the scale is a ladder state, then resets to that state; otherwise nothing changes |
| `AdaptiveFlow.AdaptiveFlowController.SelectTargetState` | src/adaptive_flow_controller.cpp:133-141 | the telemetry of the best state of the preset |
| `AdaptiveFlow.AdaptiveFlowController.Reset` | src/adaptive_flow_controller.cpp:154-177 | every timer, trial and piece of evidence is dropped and the best state selected |
| `AdaptiveFlow.AdaptiveFlowController.Observe` | src/adaptive_flow_controller.cpp:179-810 | the whole new state after one observation is the specified step, and the scale returned is the current one |
| `AdaptiveFlow.AdaptiveFlowController.UpdateExploration` | src/adaptive_flow_controller.cpp:291-315 | the fixed-mode reference and probe flag after one sample |
| `AdaptiveFlow.AdaptiveFlowController.ReadSignals` | src/adaptive_flow_controller.cpp:270-352 | the pressure signals of one usable sample |
| `AdaptiveFlow.AdaptiveFlowController.Measure` | src/adaptive_flow_controller.cpp:265-366 | the telemetry of one usable sample |
| `AdaptiveFlow.AdaptiveFlowController.RestartTrials` | src/adaptive_flow_controller.cpp:216-246 | a barrier restarts the running trial and drops all evidence |
| `AdaptiveFlow.AdaptiveFlowController.DeferTrials` | src/adaptive_flow_controller.cpp:255-261 | an unusable sample postpones the running trial and drops all evidence |
| `AdaptiveFlow.AdaptiveFlowController.SeesBenefit` | src/adaptive_flow_controller.cpp:462-519 | whether a sample shows that the lower state helped, by its baseline |
| `AdaptiveFlow.AdaptiveFlowController.JudgeLowering` | src/adaptive_flow_controller.cpp:596-631 | whether the next state down is worth its quality |
| `AdaptiveFlow.AdaptiveFlowController.JudgeRaising` | src/adaptive_flow_controller.cpp:708-755 | whether a sample counts towards the next state up |
| `AdaptiveFlow.AdaptiveFlowController.EvaluateRecovery` | src/adaptive_flow_controller.cpp:368-423 | the recovery trial after one sample: confirmed, running or reverted |
| `AdaptiveFlow.AdaptiveFlowController.Govern` | src/adaptive_flow_controller.cpp:425-582 | order of recovery trial, scheduler hold, downstep trial, cooldown and decision |
| `AdaptiveFlow.AdaptiveFlowController.EvaluateDownstep` | src/adaptive_flow_controller.cpp:461-571 | the downstep trial after one sample: confirmed, running or reverted |
| `AdaptiveFlow.AdaptiveFlowController.RevertDownstep` | src/adaptive_flow_controller.cpp:556-570 | the state after a downstep without benefit |
| `AdaptiveFlow.AdaptiveFlowController.DecideLower` | src/adaptive_flow_controller.cpp:595-695 | gates, confirmation time and new state of a lowering decision |
| `AdaptiveFlow.AdaptiveFlowController.Lower` | src/adaptive_flow_controller.cpp:643-689 | one state down with the opened trial, its reason and its cooldown |
| `AdaptiveFlow.AdaptiveFlowController.ConfirmSeconds` | src/adaptive_flow_controller.cpp:635-642 | how long pressure must last, by its kind |
| `AdaptiveFlow.AdaptiveFlowController.OpenDownstep` | src/adaptive_flow_controller.cpp:644-663 | the trial with the baseline it is measured against |
| `AdaptiveFlow.AdaptiveFlowController.DownReason` | src/adaptive_flow_controller.cpp:676-685 | the reason reported, by the kind of pressure |
| `AdaptiveFlow.AdaptiveFlowController.DecideRaise` | src/adaptive_flow_controller.cpp:697-809 | gates, prediction, headroom and new state of a raising decision |
| `AdaptiveFlow.AdaptiveFlowController.PredictTotal` | src/adaptive_flow_controller.cpp:756-765 | the total predicted for the next better state, from the ratio of the scales squared |
| `SourceTimeline.PredictBetween` | src/adaptive_scheduler.cpp:157-169 | a new prediction lies between the old one and the observed interval |
| `SourceTimeline.PredictionStaysInHull` | src/adaptive_scheduler.cpp:66-182 | over any run the prediction lies in the hull of the intervals accepted since the last restart |
| `SourceTimeline.ComesCloser` | src/adaptive_scheduler.cpp:157-169 | outside the band, and from 5 ns on, each step comes strictly closer to a constant interval and never overshoots |
| `SourceTimeline.StaysIffSettled` | src/adaptive_scheduler.cpp:157-169 | the prediction stays exactly when it is at most 2 ns below or 1 ns above, or is stuck at 4 ns or less |
| `SourceTimeline.ConvergesIff` | src/adaptive_scheduler.cpp:157-169 | the band is reached and kept under a constant interval if and only if the prediction is at least 5 ns or already not more than 2 ns below |
| `SourceTimeline.TimelineConverges` | src/adaptive_scheduler.cpp:112-182 | a timeline that goes on with one interval is in its band after at most as many samples as nanoseconds of error, whatever the arrival times |
| `SourceTimeline.StartsOver` | src/adaptive_scheduler.cpp:90-140 | one that is not initialised, or takes the interval for a discontinuity, restarts and is in the band after at most two samples |
| `SourceTimeline.SettlesIff` | src/adaptive_scheduler.cpp:66-182 | every long enough run of one interval ends in its band if and only if the timeline starts over, or predicts at least 5 ns or not more than 2 ns below the interval |
| `SourceTimeline.DeadlineFollowsArrival` | src/adaptive_scheduler.cpp:90-181 | every valid sample's deadline is its arrival plus the interval, saturated, and is later unless time runs out |
| `SourceTimeline.ReportsLateness` | src/adaptive_scheduler.cpp:66-182 | what a valid sample reports on the one before it: the error is how late its arrival was after the deadline announced before, clamped to the signed range, and it is rebased exactly when that is at least a quarter of the interval predicted before, within 1 and 8 ms; a held sample reports neither |
| `SourceTimeline.SettledKeepsTime` | src/adaptive_scheduler.cpp:141-181 | a settled timeline under a source that arrives on time meets every deadline within 2 ns and never rebases |
| `SourceTimeline.SyntheticKeepsOrder` | src/adaptive_scheduler.cpp:184-197 | deadlines of interpolated frames are ordered by fraction and stay inside the source interval |
| `SourceTimeline.SourceProtectedTimeline.Observe` | src/adaptive_scheduler.cpp:66-182 | the new state and the sample are the specified step |
| `SourceTimeline.SourceProtectedTimeline.Reset` | src/adaptive_scheduler.cpp:199-205 | the timeline is fresh again |
| `DeadlineAdmission.RunIsConservative` | src/adaptive_scheduler.cpp:234-324 | over any run each measured count's total is at least the lesser of its last sample and its GPU estimate, and at least the last sample where no GPU time is known |
| `DeadlineAdmission.NeverOptimistic` | src/adaptive_scheduler.cpp:234-324 | the same from a fresh predictor, for every run and count |
| `DeadlineAdmission.NearestIsNearest` | src/adaptive_scheduler.cpp:362-391 | a prediction uses a measured count of least distance, the lower of two equally near ones |
| `DeadlineAdmission.AdmitsIff` | src/adaptive_scheduler.cpp:346-414 | exactly when a batch is admitted: something is measured, and the budget less the reserve covers the cost of the nearest measured size, scaled to the count by 1.10 (not below 0.70 for fewer frames), with a margin of 12 % and of 0.35 ms |
| `DeadlineAdmission.PredictIsMonotone` | src/adaptive_scheduler.cpp:346-414 | a larger budget never turns an admitted batch away |
| `DeadlineAdmission.SlotHintIsLargest` | src/adaptive_scheduler.cpp:416-443 | the slot hint is the largest count all of whose prefixes fit their slots |
| `DeadlineAdmission.BatchHintIsLargest` | src/adaptive_scheduler.cpp:445-463 | the batch hint is the largest admitted count |
| `DeadlineAdmission.SlotHintBelowBatchHint` | src/adaptive_scheduler.cpp:416-463 | for the same interval the slot hint never exceeds the batch hint, and both are tracked counts |
| `DeadlineAdmission.StepIsValid` | src/adaptive_scheduler.cpp:326-344 | every event keeps the delivery reserve in 0 to 8 ms |
| `DeadlineAdmission.ReserveForgotten` | src/adaptive_scheduler.cpp:340-344 | 131 consecutive successes bring any reserve to 0 |
| `DeadlineAdmission.ReserveRemembered` | src/adaptive_scheduler.cpp:340-344 | 130 do not: a full reserve survives them |
| `DeadlineAdmission.DeadlineAdmissionPredictor.Observe` | src/adaptive_scheduler.cpp:234-281 | the estimates after one measured batch |
| `DeadlineAdmission.DeadlineAdmissionPredictor.ObserveBlockingCompletion` | src/adaptive_scheduler.cpp:283-305 | the estimates after one host-side completion |
| `DeadlineAdmission.DeadlineAdmissionPredictor.ObserveSourceOnlyRecovery` | src/adaptive_scheduler.cpp:307-324 | every blocked estimate relaxes towards its GPU time and not below |
| `DeadlineAdmission.DeadlineAdmissionPredictor.ObserveDeliveryMiss` | src/adaptive_scheduler.cpp:326-338 | the reserve after a late delivery |
| `DeadlineAdmission.DeadlineAdmissionPredictor.ObserveDeliverySuccess` | src/adaptive_scheduler.cpp:340-344 | the reserve after a delivery in time |
| `DeadlineAdmission.DeadlineAdmissionPredictor.FindNearest` | src/adaptive_scheduler.cpp:362-391 | the outward search finds the specified nearest measured count |
| `DeadlineAdmission.DeadlineAdmissionPredictor.Predict` | src/adaptive_scheduler.cpp:346-414 | the decision for a count and a budget |
| `DeadlineAdmission.DeadlineAdmissionPredictor.SafeGenerationHint` | src/adaptive_scheduler.cpp:416-443 | the downward search with early exit returns the slot hint |
| `DeadlineAdmission.DeadlineAdmissionPredictor.SafeBatchGenerationHint` | src/adaptive_scheduler.cpp:445-463 | the downward search returns the batch hint |
| `DeadlineAdmission.DeadlineAdmissionPredictor.Clear` | src/adaptive_scheduler.cpp:465-469 | the predictor is fresh again |
| `PresentationCapacity.DutyLadder` | src/adaptive_scheduler.cpp:490-504 | the duties form one ladder on which a step down and a step up undo each other |
| `PresentationCapacity.LimitIsValid` | src/adaptive_scheduler.cpp:574-623 | `limit` grants at most the requested and the maximum, touches only phase and probe, and keeps the invariant |
| `PresentationCapacity.ObserveIsValid` | src/adaptive_scheduler.cpp:636-838 | every batch keeps the invariant, moves the cap by at most one in the direction it reports, and never both lowers and raises |
| `PresentationCapacity.RunIsValid` | src/adaptive_scheduler.cpp:542-838 | the invariant holds in every reachable state: cap within 1 to maximum, duty below one only at cap one without a trial, a trial remembers cap plus one and has fewer than six samples, a probe in flight excludes a trial |
| `PresentationCapacity.CycleConserves` | src/adaptive_scheduler.cpp:610-622 | below duty one, admitted frames plus phase equal the initial phase plus the duty handed out, over any calls without a probe |
| `PresentationCapacity.DutyAdmitsExactly` | src/adaptive_scheduler.cpp:610-622 | n calls at a duty of k quarters from phase p admit exactly the whole part of p + n k / 4 |
| `PresentationCapacity.ResetIffNotReserved` | src/adaptive_scheduler.cpp:840-844 | a reset gives a fresh tracker for every state if and only if the maximum is not SIZE_MAX |
| `CapacityVerdict.LowerCapVerdict` | src/adaptive_scheduler.cpp:716-753 | whatever is requested and presented meanwhile, the sixth batch ends the trial of a lower cap, and the higher cap comes back if and only if the six batches were fewer by more than a twentieth, or did not improve the accepted share by 0.08 (one of both while output is missing, otherwise both) |
| `CapacityVerdict.ThreeRefusalsLower` | src/adaptive_scheduler.cpp:640-779 | three batches in a row of which nothing gets through lower a cap above one, on trial, by the third at the latest |
| `PresentationCapacity.GeneratedPresentationCapacityTracker.Configure` | src/adaptive_scheduler.cpp:542-567 | the state after configuring a maximum |
| `PresentationCapacity.GeneratedPresentationCapacityTracker.Limit` | src/adaptive_scheduler.cpp:574-623 | the state after a request, and the frames granted |
| `PresentationCapacity.GeneratedPresentationCapacityTracker.ObservePlain` | src/adaptive_scheduler.cpp:625-634 | the two-argument observation is the general one with everything not rejected accepted |
| `PresentationCapacity.GeneratedPresentationCapacityTracker.Observe` | src/adaptive_scheduler.cpp:636-838 | the state after one presented batch |
| `PresentationCapacity.GeneratedPresentationCapacityTracker.Reset` | src/adaptive_scheduler.cpp:840-844 | the state after a reset |
| `PresentationCapacity.GeneratedPresentationCapacityTracker.LowerDuty` | src/adaptive_scheduler.cpp:490-496 | the search down the duty table finds the next lower duty |
| `PresentationCapacity.GeneratedPresentationCapacityTracker.HigherDuty` | src/adaptive_scheduler.cpp:498-504 | the search up the duty table finds the next higher duty |
| `OutputCadence.ScanIsShortestWindow` | src/adaptive_scheduler.cpp:880-889 | the newest-first scan sums exactly the shortest suffix of the last 128 samples that covers 0.40 s, or all of them |
| `OutputRates.ReportedRate` | src/adaptive_scheduler.cpp:872-905 | the reported rate times the covered time is the number of frames in the shortest suffix that covers the window; it is valid from 0.25 s with a frame on |
| `OutputRates.SlowOutputIsDeficit` | src/adaptive_scheduler.cpp:872-951 | from a cleared window, 0.55 s of samples each below 0.97 of the target confirm a deficit, whatever their lengths between 1/512 s and 50 ms |
| `OutputRates.FastOutputIsSatisfied` | src/adaptive_scheduler.cpp:872-951 | from a cleared window, 0.75 s of samples each at 0.985 of the target or more confirm it as satisfied |
| `OutputRates.UnseenOutput` | src/adaptive_scheduler.cpp:872-926 | from a cleared window, samples without frames, or all below 1/512 s, never give a valid rate, a deficit or a satisfaction |
| `OutputCadence.DeficitNeedsSix` | src/adaptive_scheduler.cpp:910-925 | in every run deficit and satisfaction are never both confirmed, and a confirmed deficit rests on at least six valid windows below 0.97 of the target with no other valid window between them |
| `OutputCadence.UnearnedIffUntouched` | src/adaptive_scheduler.cpp:846-951 | in every run, a target is confirmed as satisfied with fewer than ten good windows in a row if and only if no accepted or stale observation, transition or reset followed the last configuration that changed something |
| `OutputCadence.SatisfiedNeedsTen` | src/adaptive_scheduler.cpp:910-925 | in particular, with a sample in the ring a confirmed satisfaction rests on at least ten good windows in a row |
| `OutputCadence.ConfiguredCountsAsSatisfied` | src/adaptive_scheduler.cpp:846-855 | after any run, configuring a new target confirms it as satisfied with no sample at all |
| `OutputCadence.PushMirrors` | src/adaptive_scheduler.cpp:944-949 | writing at the cursor keeps the ring a mirror of the newest 128 samples |
| `OutputCadence.LsfgOutputCadenceTracker.Configure` | src/adaptive_scheduler.cpp:846-855 | the state after configuring a target |
| `OutputCadence.LsfgOutputCadenceTracker.ClearWindow` | src/adaptive_scheduler.cpp:857-866 | samples and evidence are dropped, the target kept |
| `OutputCadence.LsfgOutputCadenceTracker.RebuildSnapshot` | src/adaptive_scheduler.cpp:872-926 | the ring scan gives the snapshot a scan of the whole history gives |
| `OutputCadence.LsfgOutputCadenceTracker.Observe` | src/adaptive_scheduler.cpp:928-951 | the state after one cycle: ignored, cleared as stale, or appended and judged |
| `OutputCadence.LsfgOutputCadenceTracker.Reset` | src/adaptive_scheduler.cpp:953-957 | target and window are dropped |
| `CadenceWindow.RobustToOutliers` | src/adaptive_scheduler.cpp:1298-1323 | with seven or more samples, at most one above b and at most one below a, the trimmed mean is in a to b |
| `CadenceWindow.RobustIsTrimmedMean` | src/adaptive_scheduler.cpp:1298-1323 | the robust interval is the mean of all samples, and from seven on the mean without one smallest and one largest, in any order |
| `CadenceWindow.SortedSorts` | src/adaptive_scheduler.cpp:1302-1306 | the sorted intervals are ascending and a permutation |
| `CadenceWindow.RingHoldsNewest` | src/adaptive_scheduler.cpp:1327-1336 | the ring holds exactly the newest nine intervals, each as often as it occurred |
| `CadenceWindow.UpdateStaysInHull` | src/adaptive_scheduler.cpp:1325-1377 | one update keeps the smoothed interval in the hull of all samples and changes it by a factor in 0.925 to 1.135 |
| `FrameScheduler.CadenceStaysInHull` | src/adaptive_scheduler.cpp:1142-1284 | over any run of `plan` the smoothed cadence stays in the hull of the intervals accepted since the cadence was last dropped, whatever was ignored or held in between |
| `FrameScheduler.PlanIsValid` | src/adaptive_scheduler.cpp:1142-1284 | one cycle: density in 0 to maximum, whole count at most the maximum, a held lock in 1 to maximum at phase 0, the grant is what ceiling and maximum leave, last trusted equals smoothed |
| `FrameScheduler.ScheduledInRange` | src/adaptive_scheduler.cpp:1076-1140 | the stabilised density is in 0 to maximum, and whole under a lock |
| `FrameScheduler.DiffusionNeverDrifts` | src/adaptive_scheduler.cpp:1238-1284 | over any run without a reset whole counts plus phase never exceed densities plus initial phase plus n times 1e-6, and while no lock changes they never fall behind |
| `FrameTarget.TargetIsMet` | src/adaptive_scheduler.cpp:1142-1284 | with a steady interval I and 1 <= target I <= maximum + 1, over any n cycles from an unlocked scheduler the source frames plus the whole counts are within 1 + n (off + 1e-6) of n I target, where off is how far a whole number of frames within 0.10 of the demand is from it, and zero if there is none |
| `FrameTarget.NoneAboveTarget` | src/adaptive_scheduler.cpp:1214-1217 | a source at or above the target gets no generated frames, in any run |
| `FrameTarget.MaximumBelowTarget` | src/adaptive_scheduler.cpp:1214-1217 | one too slow for the maximum gets the maximum in every cycle |
| `FrameTarget.GenerationFirstGrantsAll` | src/adaptive_scheduler.cpp:1067-1074 | generation first grants every whole count |
| `FrameTarget.CeilingMeetsDemand` | src/adaptive_scheduler.cpp:1379-1432 | under a steady demand the cost ceiling never falls, rises only while the demand is above it, and the time it stays below the demand is bounded by the steps it rises |
| `FrameTarget.CeilingClimbs` | src/adaptive_scheduler.cpp:1379-1432 | from a ceiling at rest, each step up takes at most the sustained-demand time plus two intervals |
| `FrameTarget.WarmStartCovers` | src/adaptive_scheduler.cpp:1220-1233 | a warm start seeds a ceiling that covers the demand at once, up to the maximum |
| `FrameScheduler.CappedIsNeverRepaid` | src/adaptive_scheduler.cpp:1276-1284 | two schedulers that differ in cost limit or hints go through the same phases and whole counts |
| `FrameScheduler.AcquisitionsKeepApart` | src/adaptive_scheduler.cpp:1076-1140 | between resets two lock acquisitions are at least eleven calls apart |
| `FrameScheduler.ReleaseNeedsEight` | src/adaptive_scheduler.cpp:1090-1108 | a lock is left only after eight consecutive calls outside its window |
| `FrameScheduler.ControlsAreValid` | src/adaptive_scheduler.cpp:1033-1074 | configuring, resetting, hints and the generation-first policy keep the invariant |
| `FrameScheduler.CostIsBounded` | src/adaptive_scheduler.cpp:1379-1432 | with a maximum of at least one the cost ceiling stays between one and the maximum |
| `AdaptiveFrames.AdaptiveFrameScheduler.constructor` | src/adaptive_scheduler.cpp:1026-1031 | the state of a new scheduler |
| `AdaptiveFrames.AdaptiveFrameScheduler.Configure` | src/adaptive_scheduler.cpp:1033-1057 | the state after a change of target or maximum, with warm start where a cadence was established |
| `AdaptiveFrames.AdaptiveFrameScheduler.SetSafeGenerationHint` | src/adaptive_scheduler.cpp:1059-1065 | the hint after clamping |
| `AdaptiveFrames.AdaptiveFrameScheduler.SetGenerationFirst` | src/adaptive_scheduler.cpp:1067-1074 | the policy, and the ceiling it opens |
| `AdaptiveFrames.AdaptiveFrameScheduler.StabilizeDensity` | src/adaptive_scheduler.cpp:1076-1140 | density, lock evidence and phase after one call are those of the specified stabiliser |
| `AdaptiveFrames.AdaptiveFrameScheduler.Plan` | src/adaptive_scheduler.cpp:1142-1284 | the whole new state and the grant of one cycle are those specified |
| `AdaptiveFrames.AdaptiveFrameScheduler.RobustSourceInterval` | src/adaptive_scheduler.cpp:1298-1323 | the mean of the kept intervals, trimmed by one on each side from seven on |
| `AdaptiveFrames.AdaptiveFrameScheduler.UpdateSourceRate` | src/adaptive_scheduler.cpp:1325-1377 | ring, smoothed interval and stability after one interval |
| `AdaptiveFrames.AdaptiveFrameScheduler.UpdateCostLimit` | src/adaptive_scheduler.cpp:1379-1432 | the ceiling after one cycle |
| `AdaptiveFrames.AdaptiveFrameScheduler.ResetRuntimeState` | src/adaptive_scheduler.cpp:1434-1455 | everything but settings, established cadence and last trusted interval is dropped |
| `AdaptiveFrames.AdaptiveFrameScheduler.Reset` | src/adaptive_scheduler.cpp:1457-1461 | those are dropped too |
| `TransportSafety.ReachableIsSafe` | src/context.cpp:1537-1717 | in every reachable state no forbidden use of a fence or binary semaphore was made (so each is signalled and waited for at most once and no busy fence is submitted), every semaphore with an outstanding wait is owned by a slot, a retention or a retirement list, the shared image pair is never overwritten before the second device's last use of it, and until out of date both devices are at the same frame and dispatched = accepted + deadline drops + WSI drops |
| `TransportOrder.NothingIsEarly` | src/context.cpp:4928-6180 | in every run from a safe state no present is queued, no output copied, no image overwritten and no batch begun before what it depends on is done or waited for: generated copies wait for their image and for the imported ready semaphore of an output that is not ready, presents wait for their copies, and the second device starts only on a copied pair handed over |
| `TransportOrder.CallIsOrdered` | src/context.cpp:2128-2184 | one call keeps that, for every answer of the environment |
| `TransportOrder.FreshIsKept` | src/context.cpp:1537-1717 | a new context satisfies it |
| `PresentChain.CallQueues` | src/context.cpp:2128-2184 | for every state and every answer of the environment, the log of presents grows by nothing when the call is refused, and otherwise by the generated frames it accepted, in order and each from the image it was copied to, and then the source from the acquired image; refused means slot busy and passthrough not taken |
| `PresentChain.LineShows` | src/context.cpp:5914-6107 | the accepted frames are generated frames 0, 1, 2 and so on, each in the image acquired for it |
| `PresentChain.CallDelivers` | src/context.cpp:5553-6127 | a call adds to the dispatched count exactly when it generates, and then, if its batch completes, the accepted frames are those before the first late or imageless one, and the others are counted as drops of that kind; nothing is counted otherwise |
| `PresentChain.EveryCall` | src/context.cpp:2128-2184 | every call of a run from a safe state: both devices are at its frame, the shared pair is not torn, it queues the accepted frames and the source or is refused, and ends the lockstep exactly when it reports out of date |
| `PresentChain.RefusedIff` | src/context.cpp:1550-2184 | in reachable states a call is refused if and only if its slot's fence failed, or was submitted and is not seen signalled and reset, and the passthrough is not taken |
| `PresentChain.FullRingRefuses` | src/context.cpp:1550-2184 | a run from a new context that fills the ring and whose next call is refused |
| `TransportSafety.CallKeeps` | src/context.cpp:4928-6180 | one call keeps the protocol invariant, and ends the lockstep exactly when it reports out of date |
| `TransportSafety.FreshIsSafe` | include/context.hpp:551-604 | a new context satisfies the protocol invariant |
| `TransportSafety.RecycleKeeps` | src/context.cpp:1550-1629 | a slot is recorded again only after its fence was seen signalled and was reset, or its queue was idle, and then nothing outstanding refers to it |
| `TransportSafety.RetireKeeps` | src/context.cpp:1668-1717 | success means every output fence to be used is free; failure changes only the fences that were retired |
| `TransportSafety.EpochKeeps` | src/context.cpp:6385-6390 | an epoch reset, or entering the source-only bypass, forgets the chain to the last copy but not the second device's release |
| `TransportSafety.CopyWaitsPending` | src/context.cpp:4965-5022 | every semaphore the source copy waits for has a signal no one else has waited for, and the waits cover the second device's last batch |
| `TransportSafety.CopyKeeps` | src/context.cpp:4928-5162 | after the copy is submitted its slot owns all it waits for and the release is consumed |
| `TransportSafety.HistoryKeeps` | src/context.cpp:5282-5550 | a history-only cycle advances the second device once and keeps the invariant |
| `TransportSafety.GenerateKeeps` | src/context.cpp:5553-5880 | a generated cycle advances the second device once and keeps the invariant, is never refused, and ends the lockstep exactly when it reports out of date |
| `TransportSafety.ShowFramesKeep` | src/context.cpp:5914-6107 | acquiring, copying and queueing generated frames keeps ownership of displaced presentation waits and uses each semaphore once |
| `TransportSafety.PresentSourceKeeps` | src/context.cpp:6128-6180 | arming the slot and queueing the source behind a pending copy completes the frame |
| `LsContexts.LsContext.TryRecyclePass` | src/context.cpp:1550-1629 | the slot and fence state after a try to free the slot, and whether it is free |
| `LsContexts.LsContext.RetireOutputCopies` | src/context.cpp:1668-1717 | the output fences after a try to retire them, and whether all are free |
| `LsContexts.LsContext.ArmPassGpuRetirement` | src/context.cpp:4810-4824 | the slot after its completion fence was queued, replaced by an idle queue, or lost |
| `LsContexts.LsContext.ReleasePresentWaitRetirements` | src/context.cpp:1537-1540 | the retirement list of an image that came back is emptied |
| `LsContexts.LsContext.CopySource` | src/context.cpp:4934-5162 | semaphores, retentions and consumed signals of the source copy |
| `LsContexts.LsContext.ConsumeRelease` | src/context.cpp:5012-5160 | the release of the previous batch is waited for once |
| `LsContexts.LsContext.ImportRelease` | src/context.cpp:5765-5800 | the release of the batch becomes a semaphore of the slot |
| `LsContexts.LsContext.ImportOutputs` | src/context.cpp:5743-5764 | the output-ready semaphores imported for a batch |
| `LsContexts.LsContext.TakeImage` | src/context.cpp:5959-6012 | the acquired image, with owners of its old presentation waits moved to the pass |
| `LsContexts.LsContext.CopyOutput` | src/context.cpp:6015-6050 | waits, signals and fence of one generated copy |
| `LsContexts.LsContext.GeneratedCopyWaits` | src/context.cpp:6033-6037 | a generated copy waits for its acquired image, and for the ready semaphore of its output where one was imported this time |
| `LsContexts.LsContext.SubmitOutput` | src/context.cpp:6043-6052 | the copy is submitted with those waits, its signals and its output fence |
| `LsContexts.LsContext.ShowFrames` | src/context.cpp:5914-6107 | how many generated frames were queued, and why the loop ended |
| `LsContexts.LsContext.History` | src/context.cpp:5282-5550 | the state and result of a history-only cycle |
| `LsContexts.LsContext.Generate` | src/context.cpp:5553-6180 | the state and result of a generated cycle |
| `LsContexts.LsContext.HandOver` | src/context.cpp:5024-5216 | the handoff to the second device, failing open to the source when its handle cannot be exported |
| `LsContexts.LsContext.Present` | src/context.cpp:2128-2184 | one call computes the specified state and result |
| `BitMasks.PowerTestIsExact` | scripts/apply-candidate-b11-beta4-pow2-mask.py:69-73 | the resolver's test accepts exactly the powers of two |
| `BitMasks.MaskIsRemainder` | scripts/apply-candidate-b11-beta4-pow2-mask.py:75-75 | masking with a power of two less one is the remainder |
| `BitMasks.FusedMask` | scripts/apply-candidate-b13-beta4-fused-mask.py:109-114 | for every accepted step one mask of the union is zero exactly when both remainders are |
| `BitMasks.FusedMaskIffPower` | scripts/apply-candidate-b11-beta4-pow2-mask.py:69-73 | that equivalence holds for all coordinates if and only if the step passes the test |
| `BitMasks.FusedComparisonIff` | scripts/apply-candidate-b13-beta4-fused-mask.py:109-114 | compared with a constant z, the fused and the two-remainder test of a step agree for all coordinates if and only if z is zero or not below the step |
| `SpirvStream.TileFlatten` | scripts/b14_mipmaps_tail_fusion.hpp:162-167 | any list of well-sized instructions is read back from the stream written of it |
| `SpirvStream.FlattenTile` | scripts/b14_mipmaps_tail_fusion.hpp:67-85 | reading tiles the stream exactly |
| `SpirvStream.WordsBytes` | scripts/b14_mipmaps_tail_fusion.hpp:175-179 | words survive being written as bytes |
| `SpirvStream.BytesWords` | scripts/apply-candidate-b4-beta4-predicate.py:64-68 | bytes survive being read as words |
| `PredicateTheorems.RewriteRestores` | scripts/apply-candidate-b4-beta4-predicate.py:112-204 | erasing instructions whose id is at or above the old bound and restoring the recorded conditions gives back the input code |
| `PredicateTheorems.UndoRewrite` | scripts/apply-candidate-b4-beta4-predicate.py:112-204 | with the bound restored, it gives back the input words, at every level and for every accepted module |
| `PredicateTheorems.BodyIsSequential` | scripts/apply-candidate-b13-beta4-fused-mask.py:51-141 | new ids run without gap from the old bound to the written bound in stream order, each defined before it is read |
| `PredicateTheorems.SequentialIds` | scripts/apply-candidate-b4-beta4-predicate.py:143-164 | such numbering makes new ids pairwise distinct, below the bound, and every read of one preceded by its definition |
| `PredicateTheorems.RewriteKeepsMerges` | scripts/apply-candidate-b4-beta4-predicate.py:134-183 | every selection merge stays directly in front of its branch |
| `PredicateTheorems.WrittenModule` | scripts/apply-candidate-b4-beta4-predicate.py:191-204 | the written words are a module with the written bound, sequential new ids and adjacent merges |
| `PredicateMeaning.BodyMeans` | scripts/apply-candidate-b13-beta4-fused-mask.py:66-141 | at every level the five redirected branches compare, in order, both remainders of the lane by the step, or the masked union of its coordinates, with the value of the shared constant |
| `PredicateMeaning.BodyTestsAlignment` | scripts/apply-candidate-b13-beta4-fused-mask.py:66-141 | where that value is zero, every level branches on whether both lane coordinates are multiples of the step |
| `PredicateMeaning.MaskedIsCanonical` | scripts/apply-candidate-b11-beta4-pow2-mask.py:91-148 | masked and canonical modules decide alike in every lane, whatever the constant compared with |
| `PredicateMeaning.FusedAgreesIff` | scripts/apply-candidate-b13-beta4-fused-mask.py:66-141 | fused and canonical modules decide alike in every lane if and only if the constant compared with is zero or not below any of the five steps |
| `PredicateMeaning.LevelsAgree` | scripts/apply-candidate-b13-beta4-fused-mask.py:66-141 | any two levels branch alike in every lane on every accepted module: always where some step is no known power of two, always between levels that test alike, and otherwise under that condition |
| `PredicateMeaning.LevelsAccept` | scripts/apply-candidate-b13-beta4-fused-mask.py:150-157 | no level accepts a module another rejects |
| `PredicateMeaning.PlanIsConsistent` | scripts/apply-candidate-b11-beta4-pow2-mask.py:130-138 | predicates share a mask id only for the same value, and an id below the old bound is a constant of that value |
| `PredicateRewriter.BytesRecovered` | scripts/apply-candidate-b4-beta4-predicate.py:197-199 | the input bytes can be recovered from the bytes written |
| `PredicateRewriter.ReadConstants` | scripts/apply-candidate-b11-beta4-pow2-mask.py:38-61 | the tables hold exactly the unsigned constants, and reading fails exactly on a broken stream, an id out of bound or a reused id |
| `PredicateRewriter.ResolvePow2Masks` | scripts/apply-candidate-b11-beta4-pow2-mask.py:35-90 | masks are enabled exactly when every step is a known power of two; mask ids are the first constants holding the values, or 0 |
| `PredicateRewriter.FindConstant` | scripts/apply-candidate-b11-beta4-pow2-mask.py:76-82 | the first id that holds a value, or 0 |
| `PredicateRewriter.PlanFreshMasks` | scripts/apply-candidate-b11-beta4-pow2-mask.py:130-138 | missing masks get an earlier predicate's fresh id for the same value or the next new id |
| `PredicateRewriter.DeclareMasks` | scripts/apply-candidate-b11-beta4-pow2-mask.py:140-148 | each fresh mask is declared once, in front of the first function |
| `PredicateRewriter.WritePredicate` | scripts/apply-candidate-b13-beta4-fused-mask.py:91-141 | the code of one selection at each level, the ids it takes and the coordinates it leaves |
| `PredicateRewriter.WalkBody` | scripts/apply-candidate-b4-beta4-predicate.py:112-195 | the loop over the words succeeds exactly when the specified pass does and writes its result |
| `PredicateRewriter.Apply` | scripts/apply-candidate-b4-beta4-predicate.py:91-205 | the buffer holds the rewritten module on success and is unchanged on any failure |
| `PredicateAccepts.AcceptsIff` | scripts/apply-candidate-b4-beta4-predicate.py:122-190 | at every level exactly the modules are accepted in which the merges at 1082, 1355, 1619, 1882 and 2145 are found in this order, each the first of its kind after the branch before it and directly followed by the branch with its literal condition and labels |
| `PredicateAccepts.AppliesIff` | scripts/apply-candidate-b4-beta4-predicate.py:91-190 | a run applies exactly to the named shader with its fingerprint, a whole number of words, the header of a module of bound 2311, and such a stream of whole instructions |
| `PredicateWrites.Writes` | scripts/apply-candidate-b11-beta4-pow2-mask.py:35-148 | what an accepted module becomes, read off its constants: with all steps declared powers of two, unique constants and a later level, no remainder is added and the bound grows by the masks no constant holds plus 40, or plus 14 when fused; otherwise by 40 with ten remainders |
| `PredicateWrites.SampleIsWritten` | scripts/apply-candidate-b13-beta4-fused-mask.py:51-157 | a module that every level accepts, and that the later levels write with masks |
| `PredicateWrites.SampleApplies` | scripts/apply-candidate-b4-beta4-predicate.py:91-205 | a buffer on which a run reports success at every level, and which it changes |
| `TailFusion.Fuse` | scripts/b14_mipmaps_tail_fusion.hpp:183-608 | any outcome but applied leaves the bytes unchanged |
| `TailFusion.FuseIsIdempotent` | scripts/b14_mipmaps_tail_fusion.hpp:198-244 | whenever fusion applies, running it again reports already-applied and leaves the bytes alone, for any fingerprint |
| `TailChecks.CandidateBody` | scripts/b14_mipmaps_tail_fusion.hpp:282-556 | what is written parses back as exactly the intended instructions and carries the marker |
| `TailChecks.CountCandidate` | scripts/b14_mipmaps_tail_fusion.hpp:558-576 | barriers, image writes and broadcasts of the new module are those that survive of the old one plus those of the new tail |
| `TailChecks.SurvivingBarriers` | scripts/b14_mipmaps_tail_fusion.hpp:246-280 | four of the five barriers survive exactly when the first function comes before the fifth |
| `TailChecks.CandidateDeclares` | scripts/b14_mipmaps_tail_fusion.hpp:297-345 | capabilities of the new module are those that survive plus the two new ones, once; local sizes are those that survive |
| `TailChecks.CandidateLoads` | scripts/b14_mipmaps_tail_fusion.hpp:136-160 | in a module with single definitions the new module makes three more workgroup loads than what survives, and as many stores |
| `TailChecks.WhatCanFail` | scripts/b14_mipmaps_tail_fusion.hpp:552-591 | which check of the written module fails, as a function of what survives of the old one and the new access counts; the barrier check fails exactly when the first function comes after the fifth barrier, and with single definitions the access check asks for nine surviving loads and four stores |
| `TailWitness.FuseApplies` | scripts/b14_mipmaps_tail_fusion.hpp:183-608 | a module the fusion applies to |
| `TailTexels.TailWrites` | scripts/b14_mipmaps_tail_fusion.hpp:369-546 | what the fused tail computes, from the constants and built-ins declared with it: lane r of the first four lanes of subgroup 0 writes to image 30, at the shifted start of the workgroup plus its role, a quarter of the sum of its carried value and of the elements at 256, at the lower offset and at 264 from its own base; lane 0 writes to image 31, at the shifted start, a quarter of the sum of the four lanes' values; no other lane of any subgroup writes anything |
| `TailTexels.SubgroupStarts` | scripts/b14_mipmaps_tail_fusion.hpp:288-369 | any inputs of a workgroup start such a subgroup |
| `TailLevels.BlockRuns` | scripts/b14_mipmaps_tail_fusion.hpp:402-484 | in its block a lane has the mean of its square, its texel and its color at hand |
| `TailLevels.BroadcastsRun` | scripts/b14_mipmaps_tail_fusion.hpp:486-505 | every lane hears the values of lanes 0, 1, 2 and 3 |
| `TailLevels.LastRuns` | scripts/b14_mipmaps_tail_fusion.hpp:506-546 | after the broadcasts only the first lane of subgroup 0 writes, the mean of the four values |
| `TailFuser.Parse` | scripts/b14_mipmaps_tail_fusion.hpp:67-85 | exactly the non-empty whole streams with the right header are read, as the instructions they hold |
| `TailFuser.Count` | scripts/b14_mipmaps_tail_fusion.hpp:87-92 | the number of instructions with an opcode |
| `TailFuser.HasLocalSize32` | scripts/b14_mipmaps_tail_fusion.hpp:94-108 | exactly one 32 x 32 x 1 local size is declared |
| `TailFuser.HasAppliedMagic` | scripts/b14_mipmaps_tail_fusion.hpp:110-120 | whether the marker constant is declared |
| `TailFuser.HasExactCapabilities` | scripts/b14_mipmaps_tail_fusion.hpp:122-134 | whether the declared capabilities are the expected ones, each as often |
| `TailFuser.StaticWorkgroupAccessCounts` | scripts/b14_mipmaps_tail_fusion.hpp:136-160 | loads and stores through pointers into the workgroup array |
| `TailFuser.AppendWords` | scripts/b14_mipmaps_tail_fusion.hpp:169-173 | a copied run of words, empty when it ends before it begins |
| `TailFuser.FindCuts` | scripts/b14_mipmaps_tail_fusion.hpp:246-280 | the anchors the scan finds, or which of them is missing |
| `TailFuser.CopyPrologue` | scripts/b14_mipmaps_tail_fusion.hpp:297-345 | everything before the first function with the new declarations in place, and whether both places were found |
| `TailFuser.WriteCandidate` | scripts/b14_mipmaps_tail_fusion.hpp:282-550 | the words of the fused module |
| `TailFuser.CheckWritten` | scripts/b14_mipmaps_tail_fusion.hpp:552-590 | the first check the written module fails, if any |
| `TailFuser.FuseTail` | scripts/b14_mipmaps_tail_fusion.hpp:183-608 | reason and bytes after a run are those specified |

## Left out

Behaviour not modelled:

- Finiteness and NaN guards, floating-point rounding, and the formatting of names, presets and logs.
- Telemetry that only repeats state: metrics windows, counters copied for display, most fields of the scheduler's telemetry (a cycle keeps density, whole count, grant and reset), the constants in the tail-fusion report.
- The conservative Adreno block of `present` and the deferred-completion branch, which no configuration enables together with the modelled path.
- `FixedSourceCadenceTracker`, the scene-transition guard, the startup handoff and swapchain mode policies, and `framegenBatchBudgetMs`: easy members that add little.
- Calls of `present` that throw: after a failed present or acquire, or when more frames are planned than there are outputs. The protocol properties are about calls that return.
- Image barriers, blits, image contents and the command buffers themselves; only their submission, waits, signals and fences are modelled.
- A refused acquisition leaves its fresh acquire semaphore unused, and a failing import may follow successful ones; both only produce semaphores nothing waits for, so the model allocates none for them.
- Presents of the application that bypass the context while generation is off: they touch no transport state, and entering the bypass only drops the chain to the last copy, which is what a reset before the next call does here.
- Wrap-around of counters that only grow (frame index, source index, attempted and accepted totals).
- Hash values: a fingerprint is any predicate, including the expected byte count of the predicate rewriter.
- Whether the canonical predicate equals the shader's original conditions, and whether what the fused tail writes equals what the original tail wrote: the source shaders are not part of this model.
- What the constants 819, 960, 1144 and 1259 of the fused shader are: the offset of the lower element, the stride of a row and the shifts are parameters of the tail's meaning.

Contracts weaker than they could be:

- TailTexels.TailWrites: shader numbers are exact reals, every shift is below 32, and in subgroup 0 the elements read are inside the workgroup array, because a shift or an access beyond that has no defined value; a subgroup has at least the four lanes the broadcasts name.
- OutputRates.SlowOutputIsDeficit: takes samples of 1/512 s to 50 ms with a frame each; what happens outside is `OutputRates.UnseenOutput` where all samples are so, and not stated where only some are.
- CapacityVerdict.ThreeRefusalsLower: starts with recovery evidence of at most 5.25, because evidence of 8 raises a cap even on a batch that was rejected.
- FrameTarget.TargetIsMet: starts without a lock, as a lock held from before is left only after eight calls outside its window.
- PredicateMeaning.LevelsAgree: the evaluator runs inserted code in stream order, so that the hoisted coordinates dominate their later uses is taken from the stream order, not from a control-flow graph.
- PredicateMeaning.BodyMeans: requires the five steps to be known and not zero, because a remainder by zero has no value, and the constant compared with to be known.
- PredicateTheorems.UndoRewrite: assumes that the input's ids are below the bound it declares, as a valid module's are.
- TailChecks.WhatCanFail: the access counts are reduced to what survives only for modules with single definitions, whose ids are below the bound; the program does not check that they are.
- TailFuser.HasExactCapabilities: the comparison of sorted lists is stated as equality of multisets.
- CadenceWindow.SortedSorts: the library sort is an insertion sort here; only its result matters.
- SpirvStream.TileFlatten: `emit` is modelled as returning one instruction that is appended, and an entry point that the fused module widens is assumed to keep its word count in sixteen bits, which the byte size of the baseline guarantees.
