/** What one call, and every call of a run, queues for presentation, and when a call is refused. */
module PresentChain {
  import opened Options
  import opened PresentTransport
  import opened TransportSafety

  /** Frames `from` to `to`, each in the image acquired for it. */
  function Generated(e: Cycle, from: nat, to: nat): seq<Queued>
    requires from <= to <= |e.frames|
    decreases |e.frames| - from
  {
    if from == to then []
    else
      (match e.frames[from].image
       case None => []
       case Some(m) => [Queued(GeneratedFrame(from), m)])
      + Generated(e, from + 1, to)
  }

  /** The first `n` generated frames in order, then the source in the application's image. */
  function Line(e: Cycle, n: nat): seq<Queued>
    requires n <= |e.frames|
  {
    Generated(e, 0, n) + [Queued(SourceFrame, e.image)]
  }

  /** The order in which they are seen: one source frame, after frames 0 to n - 1. */
  lemma {:induction false} LineShows(e: Cycle, from: nat, to: nat)
    requires from <= to <= |e.frames| && forall i :: from <= i < to ==> e.frames[i].image.Some?
    ensures |Generated(e, from, to)| == to - from
    ensures forall i :: from <= i < to ==>
                          Generated(e, from, to)[i - from] == Queued(GeneratedFrame(i), e.frames[i].image.value)
    decreases |e.frames| - from
  {
    if from < to {
      LineShows(e, from + 1, to);
      var rest := Generated(e, from + 1, to);
      forall i | from < i < to
        ensures Generated(e, from, to)[i - from] == Queued(GeneratedFrame(i), e.frames[i].image.value)
      {
        assert Generated(e, from, to)[i - from] == rest[i - (from + 1)];
      }
    }
  }

  /** Nothing is queued, and image `image` holds what it held. */
  predicate QueuesNothing(w: World, v: World, image: nat) {
    && |v.gpu.contents| == |w.gpu.contents| && v.gpu.queued == w.gpu.queued
    && (image < |w.gpu.contents| ==> v.gpu.contents[image] == w.gpu.contents[image])
  }

  lemma FrameQueues(w: World, i: nat, image: nat, waitsOutput: bool, source: nat)
    requires w.Shaped() && i < w.ctx.outputs && image < |w.ctx.retained| && source != image
    requires i > 0 ==> w.ctx.slots[w.Current()].outputs[i - 1].prevPostCopy.Some?
    ensures var v := w.ShowFrame(i, image, waitsOutput);
            && v.gpu.queued == w.gpu.queued + [Queued(GeneratedFrame(i), image)]
            && |v.gpu.contents| == |w.gpu.contents|
            && (source < |w.gpu.contents| ==> v.gpu.contents[source] == w.gpu.contents[source])
  {
  }

  /** From `w` to `v` the frames `i` to `q` are queued, and the source image is as it was. */
  predicate QueuesFrames(w: World, v: World, e: Cycle, i: nat, q: nat) {
    && i <= q <= |e.frames| && (forall j :: i <= j < q ==> e.frames[j].image.Some?)
    && v.gpu.queued == w.gpu.queued + Generated(e, i, q)
    && e.image < |w.gpu.contents| == |v.gpu.contents| && v.gpu.contents[e.image] == w.gpu.contents[e.image]
    && v.tally == w.tally
  }

  lemma OneFrameMore(w: World, u: World, v: World, e: Cycle, i: nat, q: nat)
    requires i < |e.frames| && e.frames[i].image.Some?
    requires u.gpu.queued == w.gpu.queued + [Queued(GeneratedFrame(i), e.frames[i].image.value)]
    requires |u.gpu.contents| == |w.gpu.contents| && u.tally == w.tally
    requires e.image < |w.gpu.contents| && u.gpu.contents[e.image] == w.gpu.contents[e.image]
    requires QueuesFrames(u, v, e, i + 1, q)
    ensures QueuesFrames(w, v, e, i, q)
  {
    assert Generated(e, i, q) == [Queued(GeneratedFrame(i), e.frames[i].image.value)] + Generated(e, i + 1, q);
  }

  lemma {:induction false} FramesQueue(w: World, e: Cycle, i: nat, fds: seq<bool>)
    requires w.Shaped() && e.Fits(w.ctx.outputs, |w.ctx.retained|) && i <= e.planned <= |fds|
    requires i > 0 ==> w.ctx.slots[w.Current()].outputs[i - 1].prevPostCopy.Some?
    ensures QueuesFrames(w, w.ShowFrames(e, i, fds).0, e, i, w.ShowFrames(e, i, fds).1)
    decreases e.planned - i
  {
    hide World.ShowFrame, QueuesFrames, World.StopAt;
    if w.StopAt(e, i).Some? {
      NoFrameQueued(w, e, i);
    }
    if w.StopAt(e, i).None? {
      var image := e.frames[i].image.value;
      FrameQueues(w, i, image, fds[i], e.image);
      ShowFrameLeaves(w, i, image, fds[i]);
      var u := w.ShowFrame(i, image, fds[i]);
      FramesQueue(u, e, i + 1, fds);
      OneFrameMore(w, u, w.ShowFrames(e, i, fds).0, e, i, w.ShowFrames(e, i, fds).1);
    }
  }

  lemma NoFrameQueued(w: World, e: Cycle, i: nat)
    requires i <= |e.frames| && e.image < |w.gpu.contents|
    ensures QueuesFrames(w, w, e, i, i)
  {
  }

  lemma SourceQueues(w: World, e: Cycle, ready: Sem, result: Result)
    requires w.Shaped() && e.image < |w.ctx.retained| && w.gpu.contents[e.image] == SourceFrame
    ensures var v := w.PresentSource(e, ready, result);
            v.gpu.queued == w.gpu.queued + [Queued(SourceFrame, e.image)] && v.tally == w.tally
  {
  }

  lemma {:induction false} ImportsQueueNothing(w: World, fds: seq<bool>, n: nat, image: nat)
    requires w.Shaped() && n <= |fds| && n <= w.ctx.outputs
    ensures QueuesNothing(w, w.ImportOutputs(fds, n), image) && w.ImportOutputs(fds, n).tally == w.tally
    decreases n
  {
    if n > 0 {
      ImportsQueueNothing(w, fds, n - 1, image);
    }
  }

  lemma {:induction false} RetiresQueueNothing(w: World, n: nat, checks: seq<FenceCheck>, image: nat)
    requires w.Shaped() && n <= |w.ctx.outputSubmitted| && n <= |checks|
    ensures var v := w.RetireOutputs(n, checks).0; QueuesNothing(w, v, image) && v.tally == w.tally
    decreases n
  {
    if n > 0 {
      RetiresQueueNothing(w, n - 1, checks, image);
    }
  }

  lemma StagesQueueNothing(w: World, how: Settled, a: BatchAnswer, flag: bool, n: nat, image: nat)
    requires w.Shaped()
    ensures QueuesNothing(w, w.Conclude(how, a, flag, n), image) && w.Conclude(how, a, flag, n).tally == w.tally
    ensures image < |w.ctx.retained| ==>
              QueuesNothing(w, w.CopySource(flag, image), image) && w.CopySource(flag, image).tally == w.tally
  {
  }

  /** From a call's source copy on: what is queued is the line of the frames the tally gains. */
  predicate QueuesLine(w: World, v: World, e: Cycle) {
    && w.tally.accepted <= v.tally.accepted <= w.tally.accepted + |e.frames|
    && v.gpu.queued == w.gpu.queued + Line(e, v.tally.accepted - w.tally.accepted)
    && forall j :: 0 <= j < v.tally.accepted - w.tally.accepted ==> e.frames[j].image.Some?
  }

  lemma HistoryQueues(w: World, e: Cycle, usesAsync: bool, ready: Sem)
    requires w.Shaped() && e.Fits(w.ctx.outputs, |w.ctx.retained|) && w.gpu.contents[e.image] == SourceFrame
    ensures QueuesLine(w, w.History(e, usesAsync, ready).0, e)
    ensures !w.History(e, usesAsync, ready).1.Refused?
  {
    hide World.Conclude, World.PresentSource;
    var a, async := e.Batching(), w.ctx.asyncCompletion && usesAsync;
    var how := if !async then HostWait
               else if a.exported && a.batchFd then (if a.imported then Settled.Imported else HostWait)
               else if a.hostFallback then Done
               else HostWait;
    StagesQueueNothing(w.Begin(), how, a, async && how.HostWait?, 0, e.image);
    var v := w.Begin().Conclude(how, a, async && how.HostWait?, 0);
    SourceQueues(v, e, ready, if how.HostWait? && !a.waited then OutOfDate else Presented);
  }

  lemma ShowAllQueues(w: World, e: Cycle, fds: seq<bool>, ready: Sem)
    requires w.Shaped() && e.Fits(w.ctx.outputs, |w.ctx.retained|) && e.planned <= |fds|
    requires w.gpu.contents[e.image] == SourceFrame
    ensures QueuesLine(w, w.ShowAll(e, fds, ready).0, e) && !w.ShowAll(e, fds, ready).1.Refused?
  {
    hide World.ShowFrames, World.PresentSource;
    w.FramesKeepShape(e, 0, fds);
    FramesQueue(w, e, 0, fds);
    var (v, q, stop) := w.ShowFrames(e, 0, fds);
    var last := if q > 0 then v.ctx.slots[v.Current()].outputs[q - 1].prevPostCopy.value else ready;
    SourceQueues(v.Counted(e.planned, q, stop), e, last, Presented);
  }

  /** Stages that queue nothing may come first. */
  lemma LineAfter(w: World, u: World, v: World, e: Cycle)
    requires QueuesNothing(w, u, e.image) && u.tally.accepted == w.tally.accepted && QueuesLine(u, v, e)
    ensures QueuesLine(w, v, e)
  {
  }

  lemma GenerateQueues(w: World, e: Cycle, ready: Sem)
    requires w.Shaped() && e.Fits(w.ctx.outputs, |w.ctx.retained|) && w.gpu.contents[e.image] == SourceFrame
    ensures QueuesLine(w, w.Generate(e, ready).0, e) && !w.Generate(e, ready).1.Refused?
  {
    hide World.ShowAll, World.PresentSource, World.ImportOutputs, World.Conclude, QueuesLine;
    var a, n := e.Batching(), e.planned;
    var imports := w.ctx.asyncCompletion && a.exported && |a.outputFds| == n && a.imported;
    var how := if imports then (if a.batchFd then Settled.Imported else Done)
               else if w.ctx.asyncCompletion && !a.exported && a.hostFallback then Done
               else HostWait;
    var fds := if imports then a.outputFds else seq(n, _ => false);
    var u := w.Dispatched(n).ImportOutputs(fds, n);
    ImportsQueueNothing(w.Dispatched(n), fds, n, e.image);
    StagesQueueNothing(u, how, a, w.ctx.asyncCompletion && how.HostWait?, n, e.image);
    var v := u.Conclude(how, a, w.ctx.asyncCompletion && how.HostWait?, n);
    if how.HostWait? && !a.waited {
      SourceLine(v, e, ready, OutOfDate);
    } else {
      ShowAllQueues(v, e, fds, ready);
    }
    LineAfter(w, v, w.Generate(e, ready).0, e);
  }

  /** A source alone is a line without generated frames. */
  lemma SourceLine(w: World, e: Cycle, ready: Sem, result: Result)
    requires w.Shaped() && e.image < |w.ctx.retained| && w.gpu.contents[e.image] == SourceFrame
    ensures QueuesLine(w, w.PresentSource(e, ready, result), e)
  {
    hide World.PresentSource;
    SourceQueues(w, e, ready, result);
  }

  lemma HandOverQueues(w: World, e: Cycle, historyOnly: bool)
    requires w.Shaped() && e.Fits(w.ctx.outputs, |w.ctx.retained|) && w.gpu.contents[e.image] == SourceFrame
    ensures QueuesLine(w, w.HandOver(e, historyOnly).0, e) && !w.HandOver(e, historyOnly).1.Refused?
  {
    hide World.CopySource, World.PresentSource, World.History, World.Generate;
    var usesAsync := w.ctx.asyncHandoff && e.Handing().created;
    var u := if w.ctx.asyncHandoff && !usesAsync then w.LoseHandoff() else w;
    StagesQueueNothing(u, Done, e.Batching(), usesAsync, 0, e.image);
    var v := u.CopySource(usesAsync, e.image).Hand(!usesAsync, e.Handing().exported);
    if usesAsync && !e.Handing().exported {
      SourceQueues(v.LoseHandoff(), e, w.ctx.nextSem, OutOfDate);
    } else if historyOnly {
      HistoryQueues(v, e, usesAsync, w.ctx.nextSem);
    } else {
      GenerateQueues(v, e, w.ctx.nextSem);
    }
  }

  /** Whether the slot of this frame can be used again. */
  predicate SlotFree(s: Slot, check: FenceCheck) {
    && !s.fenceFailed
    && (s.fenceSubmitted ==> check.ready && check.reset)
    && (s.acquired != {} ==> s.armed)
  }

  lemma EnteringQueuesNothing(w: World, e: Cycle)
    requires w.Shaped() && e.Fits(w.ctx.outputs, |w.ctx.retained|)
    ensures var (v, free) := w.Release(e.image).Recycle(w.Current(), e.fence);
            && free == SlotFree(w.ctx.slots[w.Current()], e.fence)
            && v.gpu.contents[e.image] == SourceFrame && v.gpu.queued == w.gpu.queued && v.tally == w.tally
  {
  }

  /**
    Whatever the environment answers, a call queues nothing when it is refused, and otherwise the
    generated frames it accepts, in order and each in its image, and then the source in its own.
  */
  lemma CallQueues(w: World, e: Cycle)
    requires w.Shaped() && e.Fits(w.ctx.outputs, |w.ctx.retained|)
    ensures var (v, r) := w.Call(e);
            if r.Refused? then v.gpu.queued == w.gpu.queued && v.tally == w.tally else QueuesLine(w, v, e)
    ensures w.Call(e).1.Refused? <==> !SlotFree(w.ctx.slots[w.Current()], e.fence) && !e.SourceTaken()
  {
    hide World.HandOver, World.RetireOutputs, World.Recycle, World.Release, SlotFree;
    EnteringQueuesNothing(w, e);
    var (w2, free) := w.Release(e.image).Recycle(w.Current(), e.fence);
    if free {
      var w3 := w2.ResetEpoch(e.resetBefore);
      if w3.ctx.fifo && e.planned > 0 && !e.warmup {
        RetiresQueueNothing(w3, e.planned, e.outputChecks, e.image);
        var (w4, retired) := w3.RetireOutputs(e.planned, e.outputChecks);
        HandOverQueues(w4, e, e.warmup || e.planned == 0 || !retired);
      } else {
        HandOverQueues(w3, e, e.warmup || e.planned == 0);
      }
    }
  }

  /** In reachable states only the slot's fence decides. */
  lemma RefusedIff(w: World, e: Cycle)
    requires Safe(w) && e.Fits(w.ctx.outputs, |w.ctx.retained|)
    ensures var s := w.ctx.slots[w.Current()];
            w.Call(e).1.Refused?
            <==> (s.fenceFailed || (s.fenceSubmitted && !(e.fence.ready && e.fence.reset))) && !e.SourceTaken()
  {
    hide World.Call;
    CallQueues(w, e);
    var k := w.Current();
    assert SlotSafe(w.ctx.slots[k], w.gpu.passFences[k], w.gpu.queueWaits[k], w.gpu.displaced[k], false);
  }

  /**
    Every call of a run that finds the swapchain in date: both devices are at its frame, and unless
    it is refused it queues exactly the generated frames the tally gains and then the source.
  */
  lemma EveryCall(w: World, run: seq<Cycle>, k: nat)
    requires Safe(w) && AllFit(w, run) && k < |run|
    requires AllFit(w, run[..k]) && !After(w, run[..k]).ctx.dead
    ensures AllFit(w, run[..k + 1])
    ensures var (before, after) := (After(w, run[..k]), After(w, run[..k + 1]));
            && before.priv.count == before.ctx.frameIdx && !after.priv.torn
            && run[k].Fits(before.ctx.outputs, |before.ctx.retained|)
            && var r := before.Call(run[k]).1;
            && after.ctx.dead == r.OutOfDate?
            && if r.Refused? then after.gpu.queued == before.gpu.queued else QueuesLine(before, after, run[k])
  {
    hide World.Call, SlotsSafe, ImagesSafe, SemsOk, Chained, Cycle.Fits, QueuesLine;
    RunStep(w, run, k);
    CallKeeps(After(w, run[..k]), run[k]);
    CallQueues(After(w, run[..k]), run[k]);
  }

  // ---- How many frames a call accepts ----

  /** Frame `i` gets an image, and is not late where lateness counts. */
  predicate InTime(e: Cycle, fifo: bool, i: nat)
    requires i < |e.frames|
  {
    e.frames[i].image.Some? && !(e.adaptive && !fifo && e.frames[i].late)
  }

  /** The frames in time up to the first that is not are accepted; the rest is dropped for its reason. */
  predicate Delivers(w: World, v: World, e: Cycle, from: nat) {
    && w.tally.accepted <= v.tally.accepted <= w.tally.accepted + e.planned - from && from <= e.planned <= |e.frames|
    && var q: nat := from + (v.tally.accepted - w.tally.accepted);
    && (forall i :: from <= i < q ==> InTime(e, w.ctx.fifo, i))
    && (q < e.planned ==> !InTime(e, w.ctx.fifo, q))
    && var late := q < e.planned && e.adaptive && !w.ctx.fifo && e.frames[q].late;
    && v.tally.deadlineDrops == w.tally.deadlineDrops + (if late then e.planned - q else 0)
    && v.tally.wsiDrops == w.tally.wsiDrops + (if late then 0 else e.planned - q)
  }

  lemma {:induction false} FramesInTime(w: World, e: Cycle, i: nat, fds: seq<bool>)
    requires w.Shaped() && e.Fits(w.ctx.outputs, |w.ctx.retained|) && i <= e.planned <= |fds|
    requires i > 0 ==> w.ctx.slots[w.Current()].outputs[i - 1].prevPostCopy.Some?
    ensures var (v, q, stop) := w.ShowFrames(e, i, fds);
            && v.tally == w.tally && (forall j :: i <= j < q ==> InTime(e, w.ctx.fifo, j))
            && (q < e.planned ==> !InTime(e, w.ctx.fifo, q))
            && (stop.Late? <==> q < e.planned && e.adaptive && !w.ctx.fifo && e.frames[q].late)
            && (stop.NoImage? <==> q < e.planned && !stop.Late?)
    decreases e.planned - i
  {
    hide World.ShowFrame;
    if w.StopAt(e, i).None? {
      var image := e.frames[i].image.value;
      ShowFrameLeaves(w, i, image, fds[i]);
      FramesInTime(w.ShowFrame(i, image, fds[i]), e, i + 1, fds);
    }
  }

  lemma ShowAllDelivers(w: World, e: Cycle, fds: seq<bool>, ready: Sem)
    requires w.Shaped() && e.Fits(w.ctx.outputs, |w.ctx.retained|) && e.planned <= |fds|
    ensures Delivers(w, w.ShowAll(e, fds, ready).0, e, 0)
    ensures w.ShowAll(e, fds, ready).0.tally.dispatched == w.tally.dispatched && w.ShowAll(e, fds, ready).1.Presented?
  {
    hide World.ShowFrames, World.PresentSource;
    w.FramesKeepShape(e, 0, fds);
    FramesInTime(w, e, 0, fds);
    var (v, q, stop) := w.ShowFrames(e, 0, fds);
    var last := if q > 0 then v.ctx.slots[v.Current()].outputs[q - 1].prevPostCopy.value else ready;
    SourceCounts(v.Counted(e.planned, q, stop), e, last, Presented);
  }

  lemma SourceCounts(w: World, e: Cycle, ready: Sem, result: Result)
    requires w.Shaped() && e.image < |w.ctx.retained|
    ensures w.PresentSource(e, ready, result).tally == w.tally
  {
  }

  /** The batch is known to end, or has ended, without a timeout. */
  predicate Completes(w: World, e: Cycle) {
    var a := e.Batching();
    if w.ctx.asyncCompletion && a.exported && |a.outputFds| == e.planned && a.imported then true
    else if w.ctx.asyncCompletion && !a.exported && a.hostFallback then true
    else a.waited
  }

  lemma GenerateDelivers(w: World, e: Cycle, ready: Sem)
    requires w.Shaped() && e.Fits(w.ctx.outputs, |w.ctx.retained|)
    ensures var (v, r) := w.Generate(e, ready);
            && v.tally.dispatched == w.tally.dispatched + e.planned
            && if Completes(w, e) then r.Presented? && Delivers(w, v, e, 0)
               else r.OutOfDate? && v.tally.(dispatched := w.tally.dispatched) == w.tally
  {
    hide World.ShowAll, World.PresentSource, World.ImportOutputs, World.Conclude, Delivers;
    var a, n := e.Batching(), e.planned;
    var imports := w.ctx.asyncCompletion && a.exported && |a.outputFds| == n && a.imported;
    var how := if imports then (if a.batchFd then Settled.Imported else Done)
               else if w.ctx.asyncCompletion && !a.exported && a.hostFallback then Done
               else HostWait;
    var fds := if imports then a.outputFds else seq(n, _ => false);
    var u := w.Dispatched(n).ImportOutputs(fds, n);
    ImportsQueueNothing(w.Dispatched(n), fds, n, e.image);
    StagesQueueNothing(u, how, a, w.ctx.asyncCompletion && how.HostWait?, n, e.image);
    var v := u.Conclude(how, a, w.ctx.asyncCompletion && how.HostWait?, n);
    if how.HostWait? && !a.waited {
      SourceCounts(v, e, ready, OutOfDate);
    } else {
      ShowAllDelivers(v, e, fds, ready);
      DeliversAlike(v, w, w.Generate(e, ready).0, e);
    }
  }

  lemma DeliversAlike(u: World, w: World, v: World, e: Cycle)
    requires Delivers(u, v, e, 0) && u.ctx.fifo == w.ctx.fifo
    requires u.tally.(dispatched := w.tally.dispatched) == w.tally
    ensures Delivers(w, v, e, 0)
  {
  }

  lemma HistoryCounts(w: World, e: Cycle, usesAsync: bool, ready: Sem)
    requires w.Shaped() && e.Fits(w.ctx.outputs, |w.ctx.retained|)
    ensures w.History(e, usesAsync, ready).0.tally == w.tally
  {
  }

  /** The handle of the source copy could not be exported. */
  predicate HandoffFails(w: World, e: Cycle) { w.ctx.asyncHandoff && e.Handing().created && !e.Handing().exported }

  lemma HandOverDelivers(w: World, e: Cycle, historyOnly: bool)
    requires w.Shaped() && e.Fits(w.ctx.outputs, |w.ctx.retained|)
    ensures var (v, r) := w.HandOver(e, historyOnly);
            && v.tally.dispatched
               == w.tally.dispatched + (if historyOnly || HandoffFails(w, e) then 0 else e.planned)
            && if !historyOnly && !HandoffFails(w, e) && Completes(w, e) then r.Presented? && Delivers(w, v, e, 0)
               else v.tally.(dispatched := w.tally.dispatched) == w.tally
  {
    hide World.CopySource, World.PresentSource, World.History, World.Generate, Delivers;
    var usesAsync := w.ctx.asyncHandoff && e.Handing().created;
    var u := if w.ctx.asyncHandoff && !usesAsync then w.LoseHandoff() else w;
    StagesQueueNothing(u, Done, e.Batching(), usesAsync, 0, e.image);
    CopyLeavesModes(u, usesAsync, e.image);
    var v := u.CopySource(usesAsync, e.image).Hand(!usesAsync, e.Handing().exported);
    if usesAsync && !e.Handing().exported {
      SourceCounts(v.LoseHandoff(), e, w.ctx.nextSem, OutOfDate);
    } else if historyOnly {
      HistoryCounts(v, e, usesAsync, w.ctx.nextSem);
    } else {
      GenerateDelivers(v, e, w.ctx.nextSem);
      if Completes(w, e) {
        DeliversAlike(v, w, w.HandOver(e, historyOnly).0, e);
      }
    }
  }

  lemma CopyLeavesModes(w: World, flag: bool, image: nat)
    requires w.Shaped() && image < |w.ctx.retained|
    ensures w.CopySource(flag, image).ctx.asyncCompletion == w.ctx.asyncCompletion
  {
  }

  /** The output fences that generated copies need are free, or seen signalled and reset. */
  predicate OutputsFree(w: World, e: Cycle)
    requires w.Shaped() && e.Fits(w.ctx.outputs, |w.ctx.retained|)
  {
    w.ctx.fifo ==>
      forall i :: 0 <= i < e.planned ==>
                    w.ctx.outputSubmitted[i] ==> e.outputChecks[i].ready && e.outputChecks[i].reset
  }

  /** The last of `n` output fences, after those before it. */
  lemma RetiresOne(w: World, n: nat, checks: seq<FenceCheck>)
    requires w.Shaped() && 0 < n <= |w.ctx.outputSubmitted| && n <= |checks|
    ensures var ((u, before), (v, all)) := (w.RetireOutputs(n - 1, checks), w.RetireOutputs(n, checks));
            |u.ctx.outputSubmitted| == |w.ctx.outputSubmitted| ==>
              var free := u.ctx.outputSubmitted[n - 1] ==> checks[n - 1].ready && checks[n - 1].reset;
              && (all <==> before && free)
              && v.ctx.outputSubmitted == (if free then u.ctx.outputSubmitted[n - 1 := false] else u.ctx.outputSubmitted)
              && v.tally == u.tally && v.ctx.asyncHandoff == u.ctx.asyncHandoff
              && v.ctx.asyncCompletion == u.ctx.asyncCompletion
  {
    hide World.Shaped;
    var u := w.RetireOutputs(n - 1, checks).0;
    if |u.ctx.outputSubmitted| == |w.ctx.outputSubmitted| && !u.ctx.outputSubmitted[n - 1] {
      assert u.ctx.outputSubmitted[n - 1 := false] == u.ctx.outputSubmitted;
    }
  }

  lemma {:induction false} RetiresAll(w: World, n: nat, checks: seq<FenceCheck>)
    requires w.Shaped() && n <= |w.ctx.outputSubmitted| && n <= |checks|
    ensures var (v, all) := w.RetireOutputs(n, checks);
            && (all <==> forall i :: 0 <= i < n ==> w.ctx.outputSubmitted[i] ==> checks[i].ready && checks[i].reset)
            && (forall i :: n <= i < |w.ctx.outputSubmitted| ==> v.ctx.outputSubmitted[i] == w.ctx.outputSubmitted[i])
            && |v.ctx.outputSubmitted| == |w.ctx.outputSubmitted| && v.tally == w.tally
            && v.ctx.asyncHandoff == w.ctx.asyncHandoff && v.ctx.asyncCompletion == w.ctx.asyncCompletion
    decreases n
  {
    hide World.Shaped;
    if n > 0 {
      RetiresAll(w, n - 1, checks);
      RetiresOne(w, n, checks);
    }
  }

  /** Whether a call generates frames at all. */
  predicate Generates(w: World, e: Cycle)
    requires w.Shaped() && e.Fits(w.ctx.outputs, |w.ctx.retained|)
  {
    && SlotFree(w.ctx.slots[w.Current()], e.fence) && !e.warmup && e.planned > 0 && OutputsFree(w, e)
    && !HandoffFails(w, e)
  }

  /**
    A call dispatches a batch exactly when its slot and the output fences are free, it is no warm-up
    and the source can be handed over. It then accepts exactly the frames before the first that is
    late or gets no image, unless the batch times out.
  */
  lemma CallDelivers(w: World, e: Cycle)
    requires w.Shaped() && e.Fits(w.ctx.outputs, |w.ctx.retained|)
    ensures var v := w.Call(e).0;
            && v.tally.dispatched == w.tally.dispatched + (if Generates(w, e) then e.planned else 0)
            && if Generates(w, e) && Completes(w, e) then w.Call(e).1.Presented? && Delivers(w, v, e, 0)
               else v.tally.(dispatched := w.tally.dispatched) == w.tally
  {
    hide World.HandOver, World.RetireOutputs, World.Recycle, World.Release, SlotFree, Delivers;
    EnteringQueuesNothing(w, e);
    EnteringLeavesModes(w, e);
    var (w2, free) := w.Release(e.image).Recycle(w.Current(), e.fence);
    if free {
      var w3 := w2.ResetEpoch(e.resetBefore);
      var w4 := w3;
      var retired := true;
      if w3.ctx.fifo && e.planned > 0 && !e.warmup {
        RetiresAll(w3, e.planned, e.outputChecks);
        w4, retired := w3.RetireOutputs(e.planned, e.outputChecks).0, w3.RetireOutputs(e.planned, e.outputChecks).1;
      }
      HandOverDelivers(w4, e, e.warmup || e.planned == 0 || !retired);
      if Generates(w, e) && Completes(w, e) {
        DeliversAlike(w4, w, w.Call(e).0, e);
      }
    }
  }

  lemma EnteringLeavesModes(w: World, e: Cycle)
    requires w.Shaped() && e.Fits(w.ctx.outputs, |w.ctx.retained|)
    ensures var v := w.Release(e.image).Recycle(w.Current(), e.fence).0;
            && v.ctx.asyncHandoff == w.ctx.asyncHandoff && v.ctx.asyncCompletion == w.ctx.asyncCompletion
            && v.ctx.outputSubmitted == w.ctx.outputSubmitted
  {
  }

  // ---- A run that ends in a refused call ----

  /** A source-only call whose slot fence stays unsignalled and whose source cannot be passed through. */
  const QUIET :=
    Cycle(0, FenceCheck(false, false), [FenceCheck(false, false)], 0, true, false, false, false,
          (Handoff(false, false), BatchAnswer(false, false, [], false, false, true), ArmAnswer(true, false), false), [])

  const START := Fresh(1, 2, false, false, false)

  /** The first `n` slots of the ring are in use, the others untouched. */
  predicate Filled(w: World, n: nat) {
    && Safe(w) && !w.ctx.dead && w.ctx.frameIdx == n <= RING && w.SameSizes(START.ctx)
    && !w.ctx.fifo && !w.ctx.asyncHandoff
    && forall k :: 0 <= k < RING ==> var s := w.ctx.slots[k];
                                      !s.fenceFailed && s.acquired == {} && (s.fenceSubmitted <==> k < n)
  }

  /** What the ring tracks of each slot is the same. */
  predicate SameFlags(a: seq<Slot>, b: seq<Slot>) {
    && |a| == |b|
    && forall k :: 0 <= k < |a| ==> a[k].fenceSubmitted == b[k].fenceSubmitted && a[k].fenceFailed == b[k].fenceFailed
                                    && a[k].acquired == b[k].acquired
  }

  predicate SameModes(w: World, v: World) {
    v.SameSizes(w.ctx) && v.ctx.fifo == w.ctx.fifo && v.ctx.asyncHandoff == w.ctx.asyncHandoff
  }

  lemma QuietEnters(w: World, n: nat)
    requires w.Shaped() && w.ctx.frameIdx == n < RING && |w.ctx.retained| > 0
    requires SlotFree(w.ctx.slots[n], QUIET.fence) && w.ctx.slots[n].acquired == {}
    ensures var (v, free) := w.Release(0).Recycle(n, QUIET.fence);
            && free && v.Shaped() && SameModes(w, v) && v.ctx.frameIdx == n && SameFlags(w.ctx.slots, v.ctx.slots)
  {
  }

  lemma QuietCopies(w: World, n: nat)
    requires w.Shaped() && w.ctx.frameIdx == n < RING && |w.ctx.retained| > 0
    ensures var v := w.CopySource(false, 0).Hand(true, false).Begin().Conclude(HostWait, QUIET.Batching(), false, 0);
            && v.Shaped() && SameModes(w, v) && v.ctx.frameIdx == n && SameFlags(w.ctx.slots, v.ctx.slots)
  {
    hide World.CopyWaits, Gpu.Submit;
  }

  lemma QuietPresents(w: World, n: nat, ready: Sem)
    requires w.Shaped() && w.ctx.frameIdx == n < RING && |w.ctx.retained| > 0
    requires !w.ctx.slots[n].fenceSubmitted && !w.ctx.slots[n].fenceFailed
    ensures var v := w.PresentSource(QUIET, ready, Presented);
            && SameModes(w, v) && v.ctx.frameIdx == n + 1
            && v.ctx.slots == w.ctx.slots[n := w.ctx.slots[n].(fenceSubmitted := true, armed := true)]
  {
  }

  lemma QuietCall(w: World, n: nat)
    requires w.Shaped() && w.ctx.frameIdx == n < RING && w.SameSizes(START.ctx) && !w.ctx.fifo && !w.ctx.asyncHandoff
    requires SlotFree(w.ctx.slots[n], QUIET.fence) && w.ctx.slots[n].acquired == {} && !w.ctx.slots[n].fenceSubmitted
    ensures QUIET.Fits(w.ctx.outputs, |w.ctx.retained|)
    ensures var (v, r) := w.Call(QUIET);
            && r.Presented? && SameModes(w, v) && v.ctx.frameIdx == n + 1
            && |v.ctx.slots| == RING
            && SameFlags(w.ctx.slots[n := w.ctx.slots[n].(fenceSubmitted := true)], v.ctx.slots)
  {
    hide World.Release, World.Recycle, World.CopySource, World.Conclude, World.PresentSource;
    QuietEnters(w, n);
    var u := w.Release(0).Recycle(n, QUIET.fence).0;
    QuietCopies(u, n);
    QuietPresents(u.CopySource(false, 0).Hand(true, false).Begin().Conclude(HostWait, QUIET.Batching(), false, 0), n,
                  u.ctx.nextSem);
  }

  lemma QuietFills(w: World, n: nat)
    requires Filled(w, n) && n < RING
    ensures QUIET.Fits(w.ctx.outputs, |w.ctx.retained|)
    ensures Filled(w.Call(QUIET).0, n + 1)
  {
    hide SlotsSafe, Chained, SemsOk, ImagesSafe, InStep, World.Call;
    QuietCall(w, n);
    CallKeeps(w, QUIET);
  }

  function Quiets(n: nat): (run: seq<Cycle>)
    ensures |run| == n && forall k :: 0 <= k < n ==> run[k] == QUIET
  {
    seq(n, _ => QUIET)
  }

  lemma {:induction false} QuietsFill(n: nat)
    requires n <= RING
    ensures Safe(START) && AllFit(START, Quiets(n)) && Filled(After(START, Quiets(n)), n)
  {
    hide World.Call, Filled, Safe;
    FreshIsSafe(1, 2, false, false, false);
    if n == 0 {
      NothingFilled();
    } else {
      QuietsFill(n - 1);
      QuietFills(After(START, Quiets(n - 1)), n - 1);
      RunStep(START, Quiets(n), n - 1);
      assert Quiets(n)[..n - 1] == Quiets(n - 1) && Quiets(n)[..n] == Quiets(n);
      FilledIsLive(After(START, Quiets(n - 1)), n - 1);
    }
  }

  lemma NothingFilled()
    requires Safe(START)
    ensures AllFit(START, Quiets(0)) && Filled(After(START, Quiets(0)), 0)
  {
  }

  lemma FilledIsLive(w: World, n: nat)
    requires Filled(w, n)
    ensures !w.ctx.dead
  {
  }

  /** After eight such calls the ring is full, and the next one is refused. */
  lemma FullRingRefuses()
    ensures Safe(START) && AllFit(START, Quiets(RING))
    ensures var w := After(START, Quiets(RING));
            !w.ctx.dead && QUIET.Fits(w.ctx.outputs, |w.ctx.retained|) && w.Call(QUIET).1.Refused?
  {
    hide World.Call, SlotsSafe, Chained, SemsOk, ImagesSafe, InStep;
    QuietsFill(RING);
    CallQueues(After(START, Quiets(RING)), QUIET);
  }
}
