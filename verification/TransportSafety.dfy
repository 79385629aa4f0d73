/** What every reachable state of the present transport keeps, and what each call does in it. */
module TransportSafety {
  import opened Options
  import opened PresentTransport

  // ---- The invariant ----

  /** Signalled, and not waited for yet. */
  predicate Pending(g: Gpu, s: Sem) { s in g.signalled && s !in g.waited }

  predicate SemsOk(w: World) {
    && !w.gpu.fault
    && w.gpu.waited <= w.gpu.signalled
    && forall s :: s in w.gpu.signalled ==> s < w.ctx.nextSem
  }

  /** Every semaphore a slot's submissions wait for is kept by the slot, by its first `n` outputs. */
  predicate QueueHeld(slot: Slot, waits: set<Sem>, n: nat) {
    n <= |slot.outputs| && forall s :: s in waits ==> Keeps(slot, s, n)
  }

  predicate Keeps(slot: Slot, s: Sem, n: nat)
    requires n <= |slot.outputs|
  {
    s in slot.crossFrame
    || exists j :: 0 <= j < n && (slot.outputs[j].acquire == Some(s) || slot.outputs[j].render == Some(s))
  }

  /**
    A slot's fence is free whenever it may be submitted; what its submissions wait for is kept by
    it; and once nothing tracks its submissions any more they have executed.
  */
  predicate SlotSafe(slot: Slot, fence: Fence, waits: set<Sem>, displaced: set<Sem>, open: bool) {
    && (fence.Busy? ==> slot.fenceSubmitted || slot.fenceFailed)
    && QueueHeld(slot, waits, |slot.outputs|)
    && displaced <= slot.acquired
    && (!slot.fenceSubmitted && !slot.fenceFailed && !open ==> waits == {} && displaced == {})
    && (slot.acquired != {} && !open ==> slot.armed || slot.fenceFailed)
  }

  predicate SlotsSafe(w: World, open: int)
    requires w.Shaped()
  {
    forall k :: 0 <= k < RING ==>
      SlotSafe(w.ctx.slots[k], w.gpu.passFences[k], w.gpu.queueWaits[k], w.gpu.displaced[k], k == open)
  }

  /** Presentation waits are kept by image; output fences are in use exactly when marked. */
  predicate ImagesSafe(w: World)
    requires w.Shaped()
  {
    && (forall m :: 0 <= m < |w.ctx.retained| ==> w.gpu.presentWaits[m] <= w.ctx.retained[m])
    && forall i :: 0 <= i < |w.ctx.outputSubmitted| ==> (w.gpu.outputFences[i].Busy? <==> w.ctx.outputSubmitted[i])
  }

  predicate Inv(w: World, open: int) {
    w.Shaped() && SemsOk(w) && SlotsSafe(w, open) && ImagesSafe(w) && !w.priv.torn
  }

  /** What the last call left for the next copy to wait for. */
  predicate Chained(w: World)
    requires w.Shaped()
  {
    var p := w.ctx.slots[w.Previous()];
    && (w.ctx.frameIdx > 0 && w.ctx.previousSignal ==> |p.preCopy| == 2 && Pending(w.gpu, p.preCopy[1]))
    && (w.ctx.frameIdx > 0 && p.batchValid ==>
          p.batch.Some? && Pending(w.gpu, p.batch.value) && (|p.preCopy| == 2 ==> p.batch.value != p.preCopy[1]))
    && (w.priv.last.Released? && !w.ctx.dead ==>
          w.ctx.frameIdx > 0 && p.batchValid && p.batch == Some(w.priv.last.sem))
  }

  predicate Balanced(t: Tally) { t.dispatched == t.accepted + t.deadlineDrops + t.wsiDrops }

  /** Both devices are at the same frame, and every dispatched frame is accounted for. */
  predicate InStep(w: World) { w.priv.count == w.ctx.frameIdx && !w.priv.last.Lost? && Balanced(w.tally) }

  predicate Safe(w: World) {
    Inv(w, -1) && Chained(w) && (!w.ctx.dead ==> InStep(w))
  }

  lemma FreshIsSafe(outputs: nat, images: nat, fifo: bool, asyncHandoff: bool, asyncCompletion: bool)
    ensures Safe(Fresh(outputs, images, fifo, asyncHandoff, asyncCompletion))
  {
  }

  // ---- Entering a call ----

  lemma ReleaseKeeps(w: World, image: nat)
    requires Safe(w) && image < |w.ctx.retained|
    ensures Safe(w.Release(image)) && w.Release(image).ctx.dead == w.ctx.dead
  {
    hide SlotSafe;
  }

  /** Nothing of the slot's last use is left. */
  predicate Clean(w: World, k: nat)
    requires w.Shaped() && k < RING
  {
    var s := w.ctx.slots[k];
    && s.crossFrame == {} && s.acquired == {} && !s.armed && !s.batchValid && !s.fenceSubmitted && !s.fenceFailed
    && w.gpu.queueWaits[k] == {} && w.gpu.displaced[k] == {}
  }

  lemma SlotsDiffer(w: World)
    ensures w.Current() != w.Previous()
  {
  }

  lemma RecycledIsSafe(s: Slot, fence: Fence, waits: set<Sem>, displaced: set<Sem>, check: FenceCheck)
    requires SlotSafe(s, fence, waits, displaced, false)
    ensures var r := RecycleSlot(s, check);
            && SlotSafe(r.slot, if r.executed && !r.slot.fenceFailed then Free else fence,
                        if r.executed then {} else waits, if r.executed then {} else displaced, false)
            && (r.free ==>
                  && r.slot.crossFrame == {} && r.slot.acquired == {} && !r.slot.armed && !r.slot.batchValid
                  && !r.slot.fenceSubmitted && !r.slot.fenceFailed
                  && (s.fenceSubmitted ==> r.executed && check.ready && check.reset)
                  && (!s.fenceSubmitted ==> waits == {} && displaced == {}))
  {
  }

  /** A slot is recorded again only after its fence was seen signalled and reset, or its queue idle. */
  lemma RecycleKeeps(w: World, check: FenceCheck)
    requires Safe(w)
    ensures var (v, free) := w.Recycle(w.Current(), check);
            && Safe(v) && v.ctx.dead == w.ctx.dead && v.tally == w.tally && v.priv == w.priv
            && (free ==> Clean(v, w.Current()))
            && (free && w.ctx.slots[w.Current()].fenceSubmitted ==> check.ready && check.reset)
  {
    hide SlotSafe, RecycleSlot;
    SlotsDiffer(w);
    var k := w.Current();
    assert SlotSafe(w.ctx.slots[k], w.gpu.passFences[k], w.gpu.queueWaits[k], w.gpu.displaced[k], k == -1);
    RecycledIsSafe(w.ctx.slots[k], w.gpu.passFences[k], w.gpu.queueWaits[k], w.gpu.displaced[k], check);
  }

  lemma EpochKeeps(w: World, reset: bool)
    requires Safe(w)
    ensures Safe(w.ResetEpoch(reset))
  {
    hide SlotSafe;
  }

  lemma RetireOneKeeps(w: World, i: nat)
    requires Safe(w) && i < |w.ctx.outputSubmitted|
    ensures Safe(w.RetireOutput(i))
    ensures var v := w.RetireOutput(i);
            v == w.(ctx := w.ctx.(outputSubmitted := v.ctx.outputSubmitted),
                    gpu := w.gpu.(outputFences := v.gpu.outputFences))
            && v.ctx.outputSubmitted == w.ctx.outputSubmitted[i := false]
  {
    hide SlotSafe;
  }

  lemma {:induction false} RetireKeeps(w: World, n: nat, checks: seq<FenceCheck>)
    requires w.Shaped() && Safe(w) && n <= |w.ctx.outputSubmitted| && n <= |checks|
    ensures var (v, ready) := w.RetireOutputs(n, checks);
            && Safe(v) && v == w.(ctx := w.ctx.(outputSubmitted := v.ctx.outputSubmitted),
                                  gpu := w.gpu.(outputFences := v.gpu.outputFences))
            && (ready ==> forall i :: 0 <= i < n ==> !v.ctx.outputSubmitted[i])
    decreases n
  {
    hide Safe, World.RetireOutput;
    if n > 0 {
      RetireKeeps(w, n - 1, checks);
      var v := w.RetireOutputs(n - 1, checks).0;
      RetireOneKeeps(v, n - 1);
    }
  }

  // ---- Copying the source ----

  /** The slot of this frame is being recorded; its copy's semaphores are there to be waited for. */
  predicate Recording(w: World) {
    && Inv(w, w.Current())
    && var s := w.ctx.slots[w.Current()];
    && !s.fenceSubmitted && !s.fenceFailed
    && |s.preCopy| == 2 && s.preCopy[0] != s.preCopy[1]
    && Pending(w.gpu, s.preCopy[0]) && Pending(w.gpu, s.preCopy[1])
    && (s.batchValid ==> s.batch.Some? && Pending(w.gpu, s.batch.value) && s.batch.value !in s.preCopy)
  }

  lemma CopyWaitsPending(w: World)
    requires Safe(w)
    ensures forall s :: s in w.CopyWaits() ==> Pending(w.gpu, s)
    ensures !w.ctx.dead ==> w.priv.DoneBefore(w.CopyWaits())
  {
  }

  lemma CopiedSlotIsSafe(w: World, withInput: bool, image: nat, j: nat)
    requires Safe(w) && !w.ctx.dead && Clean(w, w.Current()) && j < RING && image < |w.ctx.retained|
    ensures var v := w.CopySource(withInput, image);
            SlotSafe(v.ctx.slots[j], v.gpu.passFences[j], v.gpu.queueWaits[j], v.gpu.displaced[j], j == w.Current())
  {
    SlotsDiffer(w);
    assert SlotSafe(w.ctx.slots[j], w.gpu.passFences[j], w.gpu.queueWaits[j], w.gpu.displaced[j], false);
  }

  lemma CopyKeeps(w: World, withInput: bool, image: nat)
    requires Safe(w) && !w.ctx.dead && Clean(w, w.Current()) && image < |w.ctx.retained|
    ensures var v := w.CopySource(withInput, image);
            && Recording(v) && !v.ctx.slots[v.Current()].batchValid
            && v.ctx.slots[v.Current()].preCopy == [w.ctx.nextSem, w.ctx.nextSem + 1]
            && v.gpu.queueWaits[v.Current()] <= v.ctx.slots[v.Current()].crossFrame
            && v.ctx.outputSubmitted == w.ctx.outputSubmitted && v.tally == w.tally && v.priv == w.priv
            && v.ctx.dead == w.ctx.dead
  {
    hide SlotSafe, World.CopyWaits;
    CopyWaitsPending(w);
    var k := w.Current();
    var v := w.CopySource(withInput, image);
    var n := w.ctx.nextSem;
    assert n !in w.gpu.signalled && n + 1 !in w.gpu.signalled && n + 2 !in w.gpu.signalled;
    assert v.ctx.slots[k].preCopy == [n, n + 1];
    assert v.gpu.queueWaits[k] == w.CopyWaits();
    forall j | 0 <= j < RING
      ensures SlotSafe(v.ctx.slots[j], v.gpu.passFences[j], v.gpu.queueWaits[j], v.gpu.displaced[j], j == k)
    {
      CopiedSlotIsSafe(w, withInput, image, j);
    }
  }

  // ---- One slot changes ----

  /** Everything but the current slot, its part of the GPU record and new semaphores stays. */
  predicate OnlyCurrent(w: World, v: World)
    requires w.Shaped() && v.Shaped() && w.Sized(v.ctx)
  {
    forall j :: 0 <= j < RING && j != w.Current() ==>
      && v.ctx.slots[j] == w.ctx.slots[j] && v.gpu.passFences[j] == w.gpu.passFences[j]
      && v.gpu.queueWaits[j] == w.gpu.queueWaits[j] && v.gpu.displaced[j] == w.gpu.displaced[j]
  }

  lemma CurrentChanges(w: World, v: World, before: int, after: int)
    requires w.Shaped() && v.Shaped() && w.Sized(v.ctx) && SlotsSafe(w, before) && OnlyCurrent(w, v)
    requires (before == -1 || before == w.Current()) && (after == -1 || after == w.Current())
    requires var k := w.Current();
             SlotSafe(v.ctx.slots[k], v.gpu.passFences[k], v.gpu.queueWaits[k], v.gpu.displaced[k], k == after)
    ensures SlotsSafe(v, after)
  {
    hide SlotSafe;
    forall j | 0 <= j < RING
      ensures SlotSafe(v.ctx.slots[j], v.gpu.passFences[j], v.gpu.queueWaits[j], v.gpu.displaced[j], j == after)
    {
      assert SlotSafe(w.ctx.slots[j], w.gpu.passFences[j], w.gpu.queueWaits[j], w.gpu.displaced[j], j == before);
    }
  }

  lemma HeldByMore(slot: Slot, waits: set<Sem>, n: nat, more: nat)
    requires QueueHeld(slot, waits, n) && n <= more <= |slot.outputs|
    ensures QueueHeld(slot, waits, more)
  {
    forall s | s in waits
      ensures Keeps(slot, s, more)
    {
      assert Keeps(slot, s, n);
    }
  }

  // ---- Frames that can still be shown ----

  predicate RenderReady(g: Gpu, s: Slot, j: nat, base: Sem)
    requires j < |s.outputs|
  {
    && s.outputs[j].render.Some? && Pending(g, s.outputs[j].render.value)
    && s.outputs[j].render.value < base && s.outputs[j].render.value !in s.preCopy
    && !(s.batchValid && s.batch == s.outputs[j].render)
  }

  /** Frames from `i` on have their ready signals, all different, and free output fences. */
  predicate Showable(w: World, i: nat, fds: seq<bool>, base: Sem)
    requires w.Shaped() && |fds| <= w.ctx.outputs
  {
    var s := w.ctx.slots[w.Current()];
    && base <= w.ctx.nextSem
    && (forall j :: i <= j < |fds| && fds[j] ==> RenderReady(w.gpu, s, j, base))
    && (forall j, m :: i <= j < m < |fds| && fds[j] && fds[m] ==> s.outputs[j].render != s.outputs[m].render)
    && (w.ctx.fifo ==> forall j :: i <= j < |fds| ==> !w.ctx.outputSubmitted[j])
  }

  /** The semaphores the next call may wait for are older than `base`. */
  predicate Older(w: World, base: Sem)
    requires w.Shaped()
  {
    var s := w.ctx.slots[w.Current()];
    (forall p :: p in s.preCopy ==> p < base) && (s.batchValid && s.batch.Some? ==> s.batch.value < base)
  }

  /** A new semaphore of this call, signalled and not waited for. */
  predicate NewPending(w: World, s: Option<Sem>, base: Sem) { s.Some? && s.value >= base && Pending(w.gpu, s.value) }

  /** Frames before `i` are queued; the last copy is there for the next present to wait for. */
  predicate Showing(w: World, i: nat, fds: seq<bool>, base: Sem) {
    && Recording(w) && |fds| <= w.ctx.outputs && i <= |fds|
    && Showable(w, i, fds, base) && Older(w, base)
    && var s := w.ctx.slots[w.Current()];
    && QueueHeld(s, w.gpu.queueWaits[w.Current()], i)
    && (i > 0 ==> NewPending(w, s.outputs[i - 1].prevPostCopy, base))
  }

  predicate Taken(w: World, i: nat, fds: seq<bool>, base: Sem) {
    && Showing(w, i, fds, base) && i < |fds|
    && NewPending(w, w.ctx.slots[w.Current()].outputs[i].acquire, base)
    && (i > 0 ==> w.ctx.slots[w.Current()].outputs[i - 1].prevPostCopy != w.ctx.slots[w.Current()].outputs[i].acquire)
  }

  lemma TakeKeepsSlot(w: World, i: nat, image: nat)
    requires Inv(w, w.Current()) && i < w.ctx.outputs && image < |w.ctx.retained|
    requires QueueHeld(w.ctx.slots[w.Current()], w.gpu.queueWaits[w.Current()], i)
    ensures var (v, k) := (w.TakeImage(i, image), w.Current());
            && QueueHeld(v.ctx.slots[k], v.gpu.queueWaits[k], i)
            && SlotSafe(v.ctx.slots[k], v.gpu.passFences[k], v.gpu.queueWaits[k], v.gpu.displaced[k], true)
  {
    var v, k := w.TakeImage(i, image), w.Current();
    var s, t := w.ctx.slots[k], v.ctx.slots[k];
    assert SlotSafe(s, w.gpu.passFences[k], w.gpu.queueWaits[k], w.gpu.displaced[k], true);
    forall x | x in v.gpu.queueWaits[k]
      ensures Keeps(t, x, i)
    {
      assert Keeps(s, x, i);
      if j: nat :| j < i && (s.outputs[j].acquire == Some(x) || s.outputs[j].render == Some(x)) {
        assert t.outputs[j] == s.outputs[j];
      }
    }
    HeldByMore(t, v.gpu.queueWaits[k], i, |t.outputs|);
  }

  lemma TakeKeeps(w: World, i: nat, image: nat, fds: seq<bool>, base: Sem)
    requires Showing(w, i, fds, base) && i < |fds| && image < |w.ctx.retained|
    ensures Taken(w.TakeImage(i, image), i, fds, base)
  {
    hide QueueHeld, SlotSafe;
    var v, k := w.TakeImage(i, image), w.Current();
    assert w.ctx.nextSem !in w.gpu.signalled;
    TakeKeepsSlot(w, i, image);
    CurrentChanges(w, v, k, k);
    assert forall j :: 0 <= j < |fds| ==> v.ctx.slots[k].outputs[j].render == w.ctx.slots[k].outputs[j].render;
  }

  /** The copy of output `i` is submitted; its two signals are new. */
  predicate CopiedOut(w: World, i: nat, fds: seq<bool>, base: Sem) {
    && Recording(w) && i < |fds| <= w.ctx.outputs
    && Showable(w, i + 1, fds, base) && Older(w, base)
    && var s := w.ctx.slots[w.Current()];
    && QueueHeld(s, w.gpu.queueWaits[w.Current()], i + 1)
    && NewPending(w, s.outputs[i].postCopy, base) && NewPending(w, s.outputs[i].prevPostCopy, base)
    && s.outputs[i].postCopy != s.outputs[i].prevPostCopy
    && (i > 0 ==> NewPending(w, s.outputs[i - 1].prevPostCopy, base)
                  && s.outputs[i - 1].prevPostCopy !in {s.outputs[i].postCopy, s.outputs[i].prevPostCopy})
  }

  lemma CopyKeepsSlot(w: World, i: nat, image: nat, waitsOutput: bool)
    requires Inv(w, w.Current()) && i < w.ctx.outputs && image < |w.ctx.retained|
    requires QueueHeld(w.ctx.slots[w.Current()], w.gpu.queueWaits[w.Current()], i)
    ensures var (v, k) := (w.CopyOutput(i, image, waitsOutput), w.Current());
            && QueueHeld(v.ctx.slots[k], v.gpu.queueWaits[k], i + 1)
            && SlotSafe(v.ctx.slots[k], v.gpu.passFences[k], v.gpu.queueWaits[k], v.gpu.displaced[k], true)
  {
    var v, k := w.CopyOutput(i, image, waitsOutput), w.Current();
    var s, t := w.ctx.slots[k], v.ctx.slots[k];
    assert SlotSafe(s, w.gpu.passFences[k], w.gpu.queueWaits[k], w.gpu.displaced[k], true);
    forall x | x in v.gpu.queueWaits[k]
      ensures Keeps(t, x, i + 1)
    {
      if x in w.gpu.queueWaits[k] {
        assert Keeps(s, x, i);
        if j: nat :| j < i && (s.outputs[j].acquire == Some(x) || s.outputs[j].render == Some(x)) {
          assert t.outputs[j] == s.outputs[j];
        }
      } else {
        assert t.outputs[i].acquire == Some(x) || t.outputs[i].render == Some(x);
      }
    }
    HeldByMore(t, v.gpu.queueWaits[k], i + 1, |t.outputs|);
  }

  lemma CopyOutKeeps(w: World, i: nat, image: nat, fds: seq<bool>, base: Sem)
    requires Taken(w, i, fds, base) && image < |w.ctx.retained|
    ensures CopiedOut(w.CopyOutput(i, image, fds[i]), i, fds, base)
  {
    hide QueueHeld, SlotSafe;
    var v, k, n := w.CopyOutput(i, image, fds[i]), w.Current(), w.ctx.nextSem;
    var s, t := w.ctx.slots[k], v.ctx.slots[k];
    assert n !in w.gpu.signalled && n + 1 !in w.gpu.signalled;
    assert fds[i] ==> RenderReady(w.gpu, s, i, base);
    CopyKeepsSlot(w, i, image, fds[i]);
    CurrentChanges(w, v, k, k);
    CopyOutImages(w, i, image, fds, base);
    forall j | i + 1 <= j < |fds| && fds[j]
      ensures RenderReady(v.gpu, t, j, base)
    {
      assert RenderReady(w.gpu, s, j, base);
      assert fds[i] ==> s.outputs[i].render != s.outputs[j].render;
    }
    assert forall j :: 0 <= j < |fds| ==> t.outputs[j].render == s.outputs[j].render;
    assert s.preCopy[0] in s.preCopy && s.preCopy[1] in s.preCopy;
  }

  lemma CopyOutImages(w: World, i: nat, image: nat, fds: seq<bool>, base: Sem)
    requires Taken(w, i, fds, base) && image < |w.ctx.retained|
    ensures var v := w.CopyOutput(i, image, fds[i]);
            && v.Shaped() && ImagesSafe(v)
            && (v.ctx.fifo ==> forall j :: i + 1 <= j < |fds| ==> !v.ctx.outputSubmitted[j])
  {
    hide QueueHeld, SlotSafe, RenderReady, Keeps;
  }

  lemma QueueKeeps(w: World, i: nat, image: nat, fds: seq<bool>, base: Sem)
    requires CopiedOut(w, i, fds, base) && image < |w.ctx.retained|
    ensures Showing(w.QueueOutput(i, image), i + 1, fds, base)
  {
    hide QueueHeld, SlotSafe;
    var v, k := w.QueueOutput(i, image), w.Current();
    var s := w.ctx.slots[k];
    assert s.preCopy[0] in s.preCopy && s.preCopy[1] in s.preCopy;
    forall j | i + 1 <= j < |fds| && fds[j]
      ensures RenderReady(v.gpu, v.ctx.slots[k], j, base)
    {
      assert RenderReady(w.gpu, s, j, base);
    }
  }

  lemma ShowFrameKeeps(w: World, i: nat, image: nat, fds: seq<bool>, base: Sem)
    requires Showing(w, i, fds, base) && i < |fds| && image < |w.ctx.retained|
    requires w.Shaped() && i < w.ctx.outputs
    requires i > 0 ==> w.ctx.slots[w.Current()].outputs[i - 1].prevPostCopy.Some?
    ensures Showing(w.ShowFrame(i, image, fds[i]), i + 1, fds, base)
  {
    hide Showing, Taken, CopiedOut;
    TakeKeeps(w, i, image, fds, base);
    CopyOutKeeps(w.TakeImage(i, image), i, image, fds, base);
    QueueKeeps(w.TakeImage(i, image).CopyOutput(i, image, fds[i]), i, image, fds, base);
  }

  lemma {:induction false} ShowFramesKeep(w: World, e: Cycle, i: nat, fds: seq<bool>, base: Sem)
    requires w.Shaped() && e.Fits(w.ctx.outputs, |w.ctx.retained|) && i <= e.planned == |fds|
    requires i > 0 ==> w.ctx.slots[w.Current()].outputs[i - 1].prevPostCopy.Some?
    requires Showing(w, i, fds, base)
    ensures var (v, q, stop) := w.ShowFrames(e, i, fds);
            && v.Shaped() && v.Sized(w.ctx) && Showing(v, q, fds, base)
            && v.tally == w.tally && v.priv == w.priv && v.ctx.dead == w.ctx.dead && SameBatch(w, v)
    decreases e.planned - i
  {
    hide Showing, World.ShowFrame;
    w.FramesKeepShape(e, i, fds);
    if w.StopAt(e, i).None? {
      var image := e.frames[i].image.value;
      ShowFrameKeeps(w, i, image, fds, base);
      ShowFrameLeaves(w, i, image, fds[i]);
      ShowFramesKeep(w.ShowFrame(i, image, fds[i]), e, i + 1, fds, base);
    }
  }

  lemma ShowFrameLeaves(w: World, i: nat, image: nat, waitsOutput: bool)
    requires w.Shaped() && i < w.ctx.outputs && image < |w.ctx.retained|
    requires i > 0 ==> w.ctx.slots[w.Current()].outputs[i - 1].prevPostCopy.Some?
    ensures var v := w.ShowFrame(i, image, waitsOutput);
            v.tally == w.tally && v.priv == w.priv && v.ctx.dead == w.ctx.dead && SameBatch(w, v)
  {
  }

  /** The slot's copy and batch are those they were. */
  predicate SameBatch(w: World, v: World)
    requires w.Shaped() && v.Shaped() && v.Sized(w.ctx)
  {
    var s, t := w.ctx.slots[w.Current()], v.ctx.slots[w.Current()];
    s.batch == t.batch && s.batchValid == t.batchValid && s.preCopy == t.preCopy
  }

  // ---- The second device ----

  /** The first `n` outputs have their ready signals, all different. */
  predicate Imported(w: World, fds: seq<bool>, n: nat)
    requires w.Shaped() && n <= |fds| <= w.ctx.outputs
  {
    var s := w.ctx.slots[w.Current()];
    && (forall j :: 0 <= j < n && fds[j] ==> RenderReady(w.gpu, s, j, w.ctx.nextSem))
    && (forall j, m :: 0 <= j < m < n && fds[j] && fds[m] ==> s.outputs[j].render != s.outputs[m].render)
  }

  /** Nothing is submitted for the second device's results yet. */
  predicate Importing(w: World, fds: seq<bool>, n: nat) {
    && Recording(w) && n <= |fds| <= w.ctx.outputs && !w.ctx.slots[w.Current()].batchValid
    && w.gpu.queueWaits[w.Current()] <= w.ctx.slots[w.Current()].crossFrame
    && Imported(w, fds, n)
    && forall p: Sem :: p in w.ctx.slots[w.Current()].preCopy ==> p < w.ctx.nextSem
  }

  lemma ImportOneKeeps(w: World, fds: seq<bool>, i: nat)
    requires Importing(w, fds, i) && i < |fds|
    ensures Importing(w.ImportOutput(i), fds, i + 1)
    ensures var (v, k) := (w.ImportOutput(i), w.Current());
            && v.ctx.slots[k].preCopy == w.ctx.slots[k].preCopy && v.tally == w.tally && v.priv == w.priv
            && v.ctx.outputSubmitted == w.ctx.outputSubmitted && v.ctx.dead == w.ctx.dead
  {
    hide SlotSafe;
    var v, k := w.ImportOutput(i), w.Current();
    var s, t := w.ctx.slots[k], v.ctx.slots[k];
    assert w.ctx.nextSem !in w.gpu.signalled;
    KeptByCrossFrame(t, v.gpu.queueWaits[k]);
    SlotStillSafe(s, t, w.gpu.passFences[k], w.gpu.queueWaits[k], w.gpu.displaced[k]);
    CurrentChanges(w, v, k, k);
    forall j | 0 <= j < i && fds[j]
      ensures RenderReady(v.gpu, t, j, v.ctx.nextSem)
    {
      assert RenderReady(w.gpu, s, j, w.ctx.nextSem);
      assert t.outputs[j] == s.outputs[j];
    }
  }

  lemma KeptByCrossFrame(slot: Slot, waits: set<Sem>)
    requires waits <= slot.crossFrame
    ensures forall n :: 0 <= n <= |slot.outputs| ==> QueueHeld(slot, waits, n)
  {
  }

  lemma SlotStillSafe(s: Slot, t: Slot, fence: Fence, waits: set<Sem>, displaced: set<Sem>)
    requires SlotSafe(s, fence, waits, displaced, true) && QueueHeld(t, waits, |t.outputs|)
    requires t.fenceSubmitted == s.fenceSubmitted && t.fenceFailed == s.fenceFailed && t.acquired == s.acquired
    ensures SlotSafe(t, fence, waits, displaced, true)
  {
  }

  lemma {:induction false} ImportKeeps(w: World, fds: seq<bool>, n: nat)
    requires Importing(w, fds, 0) && n <= |fds|
    ensures var (v, k) := (w.ImportOutputs(fds, n), w.Current());
            && Importing(v, fds, n)
            && v.ctx.slots[k].preCopy == w.ctx.slots[k].preCopy && v.tally == w.tally && v.priv == w.priv
            && v.ctx.outputSubmitted == w.ctx.outputSubmitted && v.ctx.dead == w.ctx.dead
    decreases n
  {
    hide RenderReady, SlotSafe, World.ImportOutput, SemsOk, SlotsSafe, ImagesSafe;
    if n > 0 {
      ImportKeeps(w, fds, n - 1);
      if fds[n - 1] {
        ImportOneKeeps(w.ImportOutputs(fds, n - 1), fds, n - 1);
      }
    }
  }

  /** A batch is known complete, released by a pending semaphore of the slot, or lost. */
  predicate Settles(w: World, n: nat)
    requires w.Shaped()
  {
    && w.priv.count == n
    && (w.priv.last.Released? ==>
          w.ctx.slots[w.Current()].batchValid && w.ctx.slots[w.Current()].batch == Some(w.priv.last.sem))
  }

  lemma DispatchKeeps(w: World, last: Batch, losesAsync: bool, fds: seq<bool>)
    requires Importing(w, fds, |fds|)
    ensures var v := (if losesAsync then w.(ctx := w.ctx.(asyncCompletion := false)) else w).Dispatch(last);
            && Importing(v, fds, |fds|) && v.priv.count == w.priv.count + 1 && v.priv.last == last
            && v.ctx.dead == w.ctx.dead && v.tally == w.tally && v.ctx.outputSubmitted == w.ctx.outputSubmitted
            && v.ctx.slots[v.Current()].preCopy == w.ctx.slots[w.Current()].preCopy && v.ctx.fifo == w.ctx.fifo
  {
    hide SlotSafe, RenderReady;
  }

  lemma ImportingIsShaped(w: World, fds: seq<bool>)
    requires Importing(w, fds, |fds|)
    ensures w.order.Shaped(|w.ctx.retained|)
  {
  }

  /** What is kept here does not look at the record of what comes before what. */
  lemma OrderAside(w: World, order: Order)
    requires order.Shaped(|w.ctx.retained|)
    ensures forall fds: seq<bool>, n: nat :: Importing(w, fds, n) ==> Importing(w.(order := order), fds, n)
    ensures Recording(w) ==> Recording(w.(order := order))
  {
    hide SlotSafe, RenderReady;
  }

  /** With everything imported, all frames can be shown. */
  lemma ImportedShows(w: World, fds: seq<bool>)
    requires Importing(w, fds, |fds|)
    requires w.ctx.fifo ==> forall j :: 0 <= j < |fds| ==> !w.ctx.outputSubmitted[j]
    ensures Showing(w, 0, fds, w.ctx.nextSem)
  {
    hide SlotSafe, RenderReady;
    KeptByCrossFrame(w.ctx.slots[w.Current()], w.gpu.queueWaits[w.Current()]);
  }

  lemma ReleaseImports(w: World, fds: seq<bool>)
    requires Importing(w, fds, |fds|)
    requires w.ctx.fifo ==> forall j :: 0 <= j < |fds| ==> !w.ctx.outputSubmitted[j]
    ensures var v := w.ImportRelease();
            && Showing(v, 0, fds, v.ctx.nextSem) && Settles(v, w.priv.count) && v.priv.last.Released?
            && v.ctx.dead == w.ctx.dead && v.tally == w.tally
            && v.ctx.slots[v.Current()].preCopy == w.ctx.slots[w.Current()].preCopy
  {
    hide SlotSafe, QueueHeld;
    var v, k := w.ImportRelease(), w.Current();
    var s, t := w.ctx.slots[k], v.ctx.slots[k];
    assert w.ctx.nextSem !in w.gpu.signalled;
    KeptByCrossFrame(t, v.gpu.queueWaits[k]);
    SlotStillSafe(s, t, w.gpu.passFences[k], w.gpu.queueWaits[k], w.gpu.displaced[k]);
    CurrentChanges(w, v, k, k);
    forall j | 0 <= j < |fds| && fds[j]
      ensures RenderReady(v.gpu, t, j, v.ctx.nextSem)
    {
      assert RenderReady(w.gpu, s, j, w.ctx.nextSem);
    }
  }

  lemma ConcludeKeeps(w: World, how: Settled, a: BatchAnswer, losesAsync: bool, n: nat, fds: seq<bool>)
    requires Importing(w, fds, |fds|) && (how.Done? ==> a.Finished())
    requires w.ctx.fifo ==> forall j :: 0 <= j < |fds| ==> !w.ctx.outputSubmitted[j]
    ensures var v := w.Conclude(how, a, losesAsync, n);
            && Showing(v, 0, fds, v.ctx.nextSem) && Settles(v, w.priv.count + 1)
            && (v.priv.last.Lost? <==> how.HostWait? && !a.waited)
            && v.ctx.dead == w.ctx.dead && v.tally == w.tally
            && v.ctx.slots[v.Current()].preCopy == w.ctx.slots[w.Current()].preCopy
  {
    hide Importing, Showing, World.ImportRelease, World.Dispatch;
    var last := if how.Done? || (how.HostWait? && a.waited) then Complete else Lost;
    var settled := w.(order := if a.Settles(how) then w.order.Settle(n) else w.order);
    ImportingIsShaped(w, fds);
    OrderAside(w, settled.order);
    DispatchKeeps(settled, last, losesAsync, fds);
    var v := (if losesAsync then settled.(ctx := w.ctx.(asyncCompletion := false)) else settled).Dispatch(last);
    if how.Imported? {
      ReleaseImports(v, fds);
    } else {
      ImportedShows(v, fds);
    }
  }

  // ---- Presenting the source ----

  lemma ArmedSlotIsSafe(s: Slot, fence: Fence, waits: set<Sem>, displaced: set<Sem>, answer: ArmAnswer)
    requires SlotSafe(s, fence, waits, displaced, true) && !s.fenceSubmitted && !s.fenceFailed
    ensures fence.Free?
    ensures SlotSafe(s.(fenceSubmitted := true, armed := true), Busy, waits, displaced, false)
    ensures SlotSafe(s.(armed := true), fence, {}, {}, false)
    ensures SlotSafe(s.(fenceFailed := true), fence, waits, displaced, false)
  {
    hide QueueHeld;
    HeldAlike(s, s.(fenceSubmitted := true, armed := true), waits);
    HeldAlike(s, s.(fenceFailed := true), waits);
    NothingHeld(s.(armed := true));
  }

  lemma HeldAlike(s: Slot, t: Slot, waits: set<Sem>)
    requires QueueHeld(s, waits, |s.outputs|) && t.outputs == s.outputs && t.crossFrame == s.crossFrame
    ensures QueueHeld(t, waits, |t.outputs|)
  {
    forall x | x in waits
      ensures Keeps(t, x, |t.outputs|)
    {
      assert Keeps(s, x, |s.outputs|);
    }
  }

  lemma NothingHeld(s: Slot)
    ensures QueueHeld(s, {}, |s.outputs|)
  {
  }

  lemma ArmKeeps(w: World, answer: ArmAnswer)
    requires Recording(w)
    ensures var (v, k) := (w.Arm(answer), w.Current());
            && Inv(v, -1) && v.ctx.slots[k].preCopy == w.ctx.slots[k].preCopy
            && v.ctx.slots[k].batch == w.ctx.slots[k].batch && v.ctx.slots[k].batchValid == w.ctx.slots[k].batchValid
            && v.gpu.signalled == w.gpu.signalled && v.gpu.waited == w.gpu.waited
            && v.ctx.(slots := w.ctx.slots) == w.ctx && v.priv == w.priv && v.tally == w.tally
  {
    hide SlotSafe;
    var v, k := w.Arm(answer), w.Current();
    var s := w.ctx.slots[k];
    assert SlotSafe(s, w.gpu.passFences[k], w.gpu.queueWaits[k], w.gpu.displaced[k], k == k);
    ArmedSlotIsSafe(s, w.gpu.passFences[k], w.gpu.queueWaits[k], w.gpu.displaced[k], answer);
    CurrentChanges(w, v, k, -1);
  }

  lemma QueueImageKeeps(w: World, image: nat, ready: Sem)
    requires Inv(w, -1) && image < |w.ctx.retained| && Pending(w.gpu, ready)
    ensures Inv(w.QueueImage(image, {ready}), -1)
  {
    hide SlotSafe;
  }

  /** The source is queued behind the last copy that was shown, or its own. */
  lemma PresentSourceKeeps(w: World, e: Cycle, ready: Sem, result: Result)
    requires Recording(w) && e.image < |w.ctx.retained| && Pending(w.gpu, ready)
    requires var s := w.ctx.slots[w.Current()];
             ready != s.preCopy[1] && !(s.batchValid && s.batch == Some(ready))
    requires !result.OutOfDate? ==>
               Settles(w, w.ctx.frameIdx + 1) && !w.priv.last.Lost? && Balanced(w.tally)
    ensures var v := w.PresentSource(e, ready, result);
            Safe(v) && v.ctx.dead == result.OutOfDate? && v.tally == w.tally
  {
    hide SlotSafe;
    var k := w.Current();
    var u := w.Arm(e.Arming());
    ArmKeeps(w, e.Arming());
    QueueImageKeeps(u, e.image, ready);
    var v := w.PresentSource(e, ready, result);
    assert v.Previous() == k;
  }

  // ---- A call ----

  lemma HistoryKeeps(w: World, e: Cycle, usesAsync: bool)
    requires Importing(w, [], 0) && e.Fits(w.ctx.outputs, |w.ctx.retained|)
    requires w.priv.count == w.ctx.frameIdx && Balanced(w.tally)
    ensures var (v, r) := w.History(e, usesAsync, w.ctx.slots[w.Current()].preCopy[0]);
            && Safe(v) && v.ctx.dead == r.OutOfDate? && !r.Refused? && v.tally == w.tally
  {
    hide SlotSafe, QueueHeld, Showable, Imported, World.PresentSource;
    var a, async := e.Batching(), w.ctx.asyncCompletion && usesAsync;
    var how := if !async then HostWait
               else if a.exported && a.batchFd then (if a.imported then Settled.Imported else HostWait)
               else if a.hostFallback then Done
               else HostWait;
    OrderAside(w, w.Begin().order);
    ConcludeKeeps(w.Begin(), how, a, async && how.HostWait?, 0, []);
    var v := w.Begin().Conclude(how, a, async && how.HostWait?, 0);
    var ready := w.ctx.slots[w.Current()].preCopy[0];
    PresentSourceKeeps(v, e, ready, if how.HostWait? && !a.waited then OutOfDate else Presented);
  }

  lemma CountedKeeps(w: World, n: nat, q: nat, stop: Stop, fds: seq<bool>, base: Sem)
    requires Showing(w, q, fds, base) && q <= n && (stop.AllQueued? ==> q == n)
    requires w.tally.dispatched == w.tally.accepted + w.tally.deadlineDrops + w.tally.wsiDrops + n
    ensures var v := w.Counted(n, q, stop);
            Showing(v, q, fds, base) && Balanced(v.tally) && v.tally.accepted == w.tally.accepted + q
  {
    hide SlotSafe, RenderReady, QueueHeld;
  }

  /** The last copy queued, or the source's own, is there to be waited for. */
  lemma LastIsPending(w: World, q: nat, fds: seq<bool>, base: Sem)
    requires Showing(w, q, fds, base)
    ensures var s := w.ctx.slots[w.Current()];
            var last := if q > 0 then s.outputs[q - 1].prevPostCopy.value else s.preCopy[0];
            Pending(w.gpu, last) && last != s.preCopy[1] && !(s.batchValid && s.batch == Some(last))
  {
    var s := w.ctx.slots[w.Current()];
    assert s.preCopy[0] in s.preCopy && s.preCopy[1] in s.preCopy;
  }

  lemma ShowAllKeeps(w: World, e: Cycle, fds: seq<bool>, base: Sem)
    requires Showing(w, 0, fds, base) && e.Fits(w.ctx.outputs, |w.ctx.retained|) && |fds| == e.planned
    requires Settles(w, w.ctx.frameIdx + 1) && !w.priv.last.Lost?
    requires w.tally.dispatched == w.tally.accepted + w.tally.deadlineDrops + w.tally.wsiDrops + e.planned
    ensures var (v, r) := w.ShowAll(e, fds, w.ctx.slots[w.Current()].preCopy[0]);
            && Safe(v) && !v.ctx.dead && r.Presented?
  {
    hide SlotSafe, QueueHeld, RenderReady, World.PresentSource, World.ShowFrames, Safe;
    w.FramesKeepShape(e, 0, fds);
    ShowFramesKeep(w, e, 0, fds, base);
    var (v, q, stop) := w.ShowFrames(e, 0, fds);
    CountedKeeps(v, e.planned, q, stop, fds, base);
    var u := v.Counted(e.planned, q, stop);
    LastIsPending(u, q, fds, base);
    var last := if q > 0 then u.ctx.slots[u.Current()].outputs[q - 1].prevPostCopy.value
                else u.ctx.slots[u.Current()].preCopy[0];
    PresentSourceKeeps(u, e, last, Presented);
    NotDead(u, e, last);
  }

  lemma NotDead(w: World, e: Cycle, ready: Sem)
    requires w.Shaped() && e.image < |w.ctx.retained|
    ensures !w.PresentSource(e, ready, Presented).ctx.dead
  {
  }

  lemma GenerateKeeps(w: World, e: Cycle)
    requires Importing(w, [], 0) && e.Fits(w.ctx.outputs, |w.ctx.retained|)
    requires w.priv.count == w.ctx.frameIdx && Balanced(w.tally)
    requires w.ctx.fifo ==> forall j :: 0 <= j < e.planned ==> !w.ctx.outputSubmitted[j]
    ensures var (v, r) := w.Generate(e, w.ctx.slots[w.Current()].preCopy[0]);
            && Safe(v) && v.ctx.dead == r.OutOfDate? && !r.Refused?
  {
    hide SlotSafe, QueueHeld, RenderReady, Showing, World.PresentSource, World.ShowAll, World.ImportOutputs,
         World.Conclude, Safe;
    var a, n, ready := e.Batching(), e.planned, w.ctx.slots[w.Current()].preCopy[0];
    var imports := w.ctx.asyncCompletion && a.exported && |a.outputFds| == n && a.imported;
    var how := if imports then (if a.batchFd then Settled.Imported else Done)
               else if w.ctx.asyncCompletion && !a.exported && a.hostFallback then Done
               else HostWait;
    var fds := if imports then a.outputFds else seq(n, _ => false);
    var lost := w.ctx.asyncCompletion && how.HostWait?;
    var w1 := w.Dispatched(n);
    StartsImporting(w, n, fds);
    ImportKeeps(w1, fds, n);
    var w2 := w1.ImportOutputs(fds, n);
    ConcludeKeeps(w2, how, a, lost, n, fds);
    var w3 := w2.Conclude(how, a, lost, n);
    if how.HostWait? && !a.waited {
      LastIsPending(w3, 0, fds, w3.ctx.nextSem);
      ShowingRecords(w3, 0, fds, w3.ctx.nextSem);
      PresentSourceKeeps(w3, e, ready, OutOfDate);
    } else {
      ShowAllKeeps(w3, e, fds, w3.ctx.nextSem);
    }
  }

  lemma StartsImporting(w: World, n: nat, fds: seq<bool>)
    requires Importing(w, [], 0) && |fds| <= w.ctx.outputs
    ensures Importing(w.Dispatched(n), fds, 0)
  {
    hide SlotSafe, RenderReady;
  }

  lemma ShowingRecords(w: World, i: nat, fds: seq<bool>, base: Sem)
    requires Showing(w, i, fds, base)
    ensures Recording(w)
  {
  }

  lemma HandoffAlone(w: World)
    requires Safe(w)
    ensures Safe(w.LoseHandoff())
  {
    hide SlotSafe;
  }

  lemma RecordingLosesHandoff(w: World)
    requires Recording(w)
    ensures Recording(w.LoseHandoff())
  {
    hide SlotSafe;
  }

  lemma CopyStartsImporting(w: World, withInput: bool, image: nat)
    requires Safe(w) && !w.ctx.dead && Clean(w, w.Current()) && image < |w.ctx.retained|
    ensures var v := w.CopySource(withInput, image);
            Importing(v, [], 0) && v.ctx.slots[v.Current()].preCopy == [w.ctx.nextSem, w.ctx.nextSem + 1]
  {
    hide SlotSafe;
    CopyKeeps(w, withInput, image);
  }

  lemma HandOverKeeps(w: World, e: Cycle, historyOnly: bool)
    requires Safe(w) && !w.ctx.dead && Clean(w, w.Current()) && e.Fits(w.ctx.outputs, |w.ctx.retained|)
    requires !historyOnly && w.ctx.fifo ==> forall j :: 0 <= j < e.planned ==> !w.ctx.outputSubmitted[j]
    ensures var (v, r) := w.HandOver(e, historyOnly);
            && Safe(v) && v.ctx.dead == r.OutOfDate? && !r.Refused?
  {
    hide SlotSafe, World.History, World.Generate, World.CopySource, World.PresentSource, Importing, Recording, Chained;
    var usesAsync := w.ctx.asyncHandoff && e.Handing().created;
    var w1 := if w.ctx.asyncHandoff && !usesAsync then w.LoseHandoff() else w;
    HandoffAlone(w);
    CopyWaitsPending(w);
    CopyKeeps(w1, usesAsync, e.image);
    CopyStartsImporting(w1, usesAsync, e.image);
    var copied := w1.CopySource(usesAsync, e.image);
    var v := copied.Hand(!usesAsync, e.Handing().exported);
    OrderAside(copied, v.order);
    if usesAsync && !e.Handing().exported {
      RecordingLosesHandoff(v);
      CopyIsPending(v);
      PresentSourceKeeps(v.LoseHandoff(), e, w.ctx.nextSem, OutOfDate);
    } else if historyOnly {
      HistoryKeeps(v, e, usesAsync);
    } else {
      GenerateKeeps(v, e);
    }
  }

  lemma CopyIsPending(w: World)
    requires Recording(w)
    ensures var s := w.ctx.slots[w.Current()];
            Pending(w.gpu, s.preCopy[0]) && s.preCopy[0] != s.preCopy[1]
  {
  }

  lemma PassThroughKeeps(w: World, image: nat, taken: bool)
    requires Safe(w) && image < |w.ctx.retained|
    ensures Safe(w.PassThrough(image, taken).0)
  {
    hide SlotSafe;
    EpochKeeps(w, true);
  }

  /**
    One call on a live context keeps the invariant, and only a call that reports the swapchain out
    of date ends the lockstep.
  */
  lemma CallKeeps(w: World, e: Cycle)
    requires Safe(w) && !w.ctx.dead && e.Fits(w.ctx.outputs, |w.ctx.retained|)
    ensures var (v, r) := w.Call(e);
            Safe(v) && v.ctx.dead == r.OutOfDate?
  {
    hide SlotSafe, World.Recycle, World.HandOver, World.RetireOutputs, Chained;
    ReleaseKeeps(w, e.image);
    var w1 := w.Release(e.image);
    RecycleKeeps(w1, e.fence);
    var (w2, free) := w1.Recycle(w.Current(), e.fence);
    if !free {
      PassThroughKeeps(w2, e.image, e.SourceTaken());
    } else {
      EpochKeeps(w2, e.resetBefore);
      var w3 := w2.ResetEpoch(e.resetBefore);
      if w3.ctx.fifo && e.planned > 0 && !e.warmup {
        RetireKeeps(w3, e.planned, e.outputChecks);
        var (w4, retired) := w3.RetireOutputs(e.planned, e.outputChecks);
        HandOverKeeps(w4, e, e.warmup || e.planned == 0 || !retired);
      } else {
        HandOverKeeps(w3, e, e.warmup || e.planned == 0);
      }
    }
  }

  // ---- Runs ----

  predicate AllFit(w: World, run: seq<Cycle>) {
    forall k :: 0 <= k < |run| ==> run[k].Fits(w.ctx.outputs, |w.ctx.retained|)
  }

  /** The context after a run of calls; nothing is called once the swapchain is out of date. */
  function After(w: World, run: seq<Cycle>): (v: World)
    requires Safe(w) && AllFit(w, run)
    ensures Safe(v) && v.SameSizes(w.ctx)
    decreases |run|
  {
    if run == [] || w.ctx.dead then w
    else
      assert run[0].Fits(w.ctx.outputs, |w.ctx.retained|);
      CallKeeps(w, run[0]);
      After(w.Call(run[0]).0, run[1..])
  }

  lemma {:induction false} RunStep(w: World, run: seq<Cycle>, k: nat)
    requires Safe(w) && AllFit(w, run) && k < |run|
    ensures AllFit(w, run[..k]) && AllFit(w, run[..k + 1])
    ensures var before := After(w, run[..k]);
            run[k].Fits(before.ctx.outputs, |before.ctx.retained|)
            && After(w, run[..k + 1]) == if before.ctx.dead then before else before.Call(run[k]).0
    decreases k
  {
    hide World.Call, SlotsSafe, ImagesSafe, SemsOk, Chained, InStep, Cycle.Fits;
    assert run[..k + 1][..k] == run[..k];
    if k > 0 && !w.ctx.dead {
      CallKeeps(w, run[0]);
      RunStep(w.Call(run[0]).0, run[1..], k - 1);
      assert run[..k][1..] == run[1..][..k - 1] && run[..k + 1][1..] == run[1..][..k];
    }
  }

  /** A slot, an image's retirement list or a pass's retentions own a semaphore. */
  predicate Owned(c: Context, s: Sem) {
    || (exists k :: 0 <= k < |c.slots| && SlotOwns(c.slots[k], s))
    || exists m :: 0 <= m < |c.retained| && s in c.retained[m]
  }

  predicate SlotOwns(slot: Slot, s: Sem) {
    s in slot.acquired || Keeps(slot, s, |slot.outputs|)
  }

  /** A queue wait, a presentation wait, or one displaced by a new acquisition has not executed yet. */
  predicate WaitOutstanding(g: Gpu, s: Sem) {
    || (exists k :: 0 <= k < |g.queueWaits| && s in g.queueWaits[k])
    || (exists k :: 0 <= k < |g.displaced| && s in g.displaced[k])
    || exists m :: 0 <= m < |g.presentWaits| && s in g.presentWaits[m]
  }

  /**
    In every state a run reaches from a fresh context: no use the specification forbids was ever
    made, every semaphore with an outstanding wait is owned, no semaphore was waited for without its
    signal, the image pair was never overwritten before the second device was done with it, and
    until the swapchain is out of date both devices are at the same frame and every
    dispatched frame is accounted for.
  */
  lemma ReachableIsSafe(w: World, run: seq<Cycle>, s: Sem)
    requires Safe(w) && AllFit(w, run)
    ensures var v := After(w, run);
            && !v.gpu.fault
            && (WaitOutstanding(v.gpu, s) ==> Owned(v.ctx, s))
            && v.gpu.waited <= v.gpu.signalled
            && !v.priv.torn
            && (!v.ctx.dead ==> v.priv.count == v.ctx.frameIdx && Balanced(v.tally))
  {
    hide SlotSafe, Owned, WaitOutstanding;
    if WaitOutstanding(After(w, run).gpu, s) {
      OutstandingIsOwned(After(w, run), s);
    }
  }

  lemma OutstandingIsOwned(w: World, s: Sem)
    requires Inv(w, -1) && WaitOutstanding(w.gpu, s)
    ensures Owned(w.ctx, s)
  {
    if k :| 0 <= k < RING && (s in w.gpu.queueWaits[k] || s in w.gpu.displaced[k]) {
      assert SlotSafe(w.ctx.slots[k], w.gpu.passFences[k], w.gpu.queueWaits[k], w.gpu.displaced[k], false);
      assert SlotOwns(w.ctx.slots[k], s);
    } else {
      var m :| 0 <= m < |w.gpu.presentWaits| && s in w.gpu.presentWaits[m];
      assert s in w.ctx.retained[m];
    }
  }
}
