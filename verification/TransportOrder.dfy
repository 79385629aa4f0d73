/**
  Nothing is used before it is ready. An image is read or written only after it was acquired, shown
  only after all work on it, and copied to only after the second device finished what is copied; the
  second device starts only on a complete source. This holds for every answer of the environment.
*/
module TransportOrder {
  import opened Options
  import opened PresentTransport
  import opened TransportSafety

  /** Semaphores still to be made reach nothing, and images are touched by past submissions. */
  predicate Kept(w: World) {
    && w.Shaped() && !w.order.early
    && (forall s :: s in w.order.reach ==> s < w.ctx.nextSem)
    && forall m :: 0 <= m < |w.order.touched| ==> w.order.touched[m] <= w.order.submitted
  }

  /** Nothing of the record changes. */
  predicate Aside(w: World, v: World) {
    && v.Shaped() && v.SameSizes(w.ctx) && v.ctx.frameIdx == w.ctx.frameIdx && v.ctx.fifo == w.ctx.fifo
    && v.order == w.order && v.ctx.nextSem >= w.ctx.nextSem
  }

  lemma AsideKeeps(w: World, v: World)
    requires Kept(w) && Aside(w, v)
    ensures Kept(v)
  {
  }

  // ---- Entering a call ----

  /** Whoever waits for `ready` comes after all that was done with the image. */
  predicate Behindhand(w: World, image: nat, ready: Sem) {
    && image < |w.order.touched| == |w.order.acquired| && w.order.acquired[image].None?
    && ready in w.order.reach && w.order.reach[ready] >= w.order.touched[image]
  }

  lemma ReleaseOrders(w: World, image: nat)
    requires Kept(w) && image < |w.ctx.retained|
    ensures var v := w.Release(image); Kept(v) && v.order.acquired[image].None? && v.order.touched[image] == 0
  {
  }

  lemma RecycleAside(w: World, check: FenceCheck)
    requires w.Shaped()
    ensures Aside(w, w.Recycle(w.Current(), check).0)
  {
  }

  lemma {:induction false} RetireAside(w: World, n: nat, checks: seq<FenceCheck>)
    requires w.Shaped() && n <= |w.ctx.outputSubmitted| && n <= |checks|
    ensures Aside(w, w.RetireOutputs(n, checks).0)
    decreases n
  {
    if n > 0 {
      RetireAside(w, n - 1, checks);
    }
  }

  // ---- Source ----

  lemma CopyOrders(w: World, withInput: bool, image: nat)
    requires Kept(w) && image < |w.ctx.retained| && w.order.acquired[image].None?
    ensures var v := w.CopySource(withInput, image);
            && Kept(v) && v.SameSizes(w.ctx) && v.ctx.asyncCompletion == w.ctx.asyncCompletion
            && Behindhand(v, image, w.ctx.nextSem) && v.ctx.fifo == w.ctx.fifo
  {
    hide World.CopyWaits, Gpu.Submit;
  }

  lemma ArmAside(w: World, answer: ArmAnswer)
    requires w.Shaped()
    ensures Aside(w, w.Arm(answer))
  {
  }

  lemma SourceOrders(w: World, e: Cycle, ready: Sem, result: Result)
    requires Kept(w) && e.image < |w.ctx.retained| && Behindhand(w, e.image, ready)
    ensures Kept(w.PresentSource(e, ready, result))
  {
    hide World.Arm, Gpu.QueuePresent;
    ArmAside(w, e.Arming());
    assert ready in {ready};
  }

  // ---- The second device ----

  /** From `i` on every output is known to be ready, or to be behind the semaphore imported for it. */
  predicate Announced(w: World, fds: seq<bool>, i: nat) {
    && w.Shaped() && |fds| <= w.ctx.outputs
    && forall j :: i <= j < |fds| ==>
                     var o := w.ctx.slots[w.Current()].outputs[j];
                     j in w.order.outputs
                     && (if fds[j] then o.render.Some? && w.order.outputs[j] == Behind(o.render.value)
                         else w.order.outputs[j] == Ready)
  }

  /** Of the first `n` outputs those with a handle are behind their semaphore, and no other is known. */
  predicate Imports(w: World, fds: seq<bool>, n: nat) {
    && w.Shaped() && n <= |fds| <= w.ctx.outputs
    && (forall j :: j in w.order.outputs ==> j < n && fds[j])
    && forall j :: 0 <= j < n && fds[j] ==>
                     var o := w.ctx.slots[w.Current()].outputs[j];
                     j in w.order.outputs && o.render.Some? && w.order.outputs[j] == Behind(o.render.value)
  }

  lemma ImportOneOrders(w: World, fds: seq<bool>, i: nat)
    requires Kept(w) && Imports(w, fds, i) && i < |fds| && fds[i]
    ensures var v := w.ImportOutput(i);
            && Kept(v) && Imports(v, fds, i + 1) && v.SameSizes(w.ctx) && v.ctx.fifo == w.ctx.fifo
            && v.order.touched == w.order.touched && v.order.acquired == w.order.acquired && v.order.reach == w.order.reach
  {
    hide Gpu.Signal;
  }

  lemma {:induction false} ImportsOrder(w: World, fds: seq<bool>, n: nat)
    requires Kept(w) && Imports(w, fds, 0) && n <= |fds|
    ensures var v := w.ImportOutputs(fds, n);
            && Kept(v) && Imports(v, fds, n) && v.SameSizes(w.ctx) && v.ctx.fifo == w.ctx.fifo
            && v.order.touched == w.order.touched && v.order.acquired == w.order.acquired && v.order.reach == w.order.reach
    decreases n
  {
    hide World.ImportOutput;
    if n > 0 {
      ImportsOrder(w, fds, n - 1);
      if fds[n - 1] {
        ImportOneOrders(w.ImportOutputs(fds, n - 1), fds, n - 1);
      }
    }
  }

  lemma ConcludeOrders(w: World, how: Settled, a: BatchAnswer, losesAsync: bool, fds: seq<bool>)
    requires Kept(w) && Imports(w, fds, |fds|)
    ensures var v := w.Conclude(how, a, losesAsync, |fds|);
            && Kept(v) && v.SameSizes(w.ctx) && v.ctx.fifo == w.ctx.fifo
            && (a.Settles(how) ==> Announced(v, fds, 0))
            && v.order.touched == w.order.touched && v.order.acquired == w.order.acquired && v.order.reach == w.order.reach
  {
    hide Gpu.Signal;
  }

  // ---- Generated frames ----

  /** Frames from `i` on can be shown, and `last` is what the source waits for so far. */
  predicate Going(w: World, e: Cycle, fds: seq<bool>, i: nat, last: Sem) {
    Kept(w) && Announced(w, fds, i) && Behindhand(w, e.image, last)
  }

  lemma TakeOrders(w: World, e: Cycle, fds: seq<bool>, i: nat, last: Sem, image: nat)
    requires Going(w, e, fds, i, last) && i < |fds| && image < |w.ctx.retained| && image != e.image
    ensures var (v, k) := (w.TakeImage(i, image), w.Current());
            && Going(v, e, fds, i, last) && v.SameSizes(w.ctx) && v.ctx.fifo == w.ctx.fifo && v.Current() == k
            && v.order.acquired[image] == Some(w.ctx.nextSem)
            && v.ctx.slots[k].outputs[i].acquire == Some(w.ctx.nextSem)
            && (i > 0 && w.ctx.slots[k].outputs[i - 1].prevPostCopy.Some? ==>
                  v.ctx.slots[k].outputs[i - 1] == w.ctx.slots[k].outputs[i - 1])
  {
    hide Gpu.Signal, Gpu.Reacquire;
  }

  lemma CopyOutOrders(w: World, e: Cycle, fds: seq<bool>, i: nat, last: Sem, image: nat)
    requires Going(w, e, fds, i, last) && i < |fds| && image < |w.ctx.retained| && image != e.image
    requires w.order.acquired[image].Some?
    requires w.ctx.slots[w.Current()].outputs[i].acquire == w.order.acquired[image]
    ensures var (v, k, n) := (w.CopyOutput(i, image, fds[i]), w.Current(), w.ctx.nextSem);
            && Going(v, e, fds, i + 1, n + 1) && v.SameSizes(w.ctx) && v.ctx.fifo == w.ctx.fifo && v.Current() == k
            && v.ctx.slots[k].outputs[i].postCopy == Some(n) && v.ctx.slots[k].outputs[i].prevPostCopy == Some(n + 1)
            && (i > 0 ==> v.ctx.slots[k].outputs[i - 1] == w.ctx.slots[k].outputs[i - 1])
            && Behindhand(v, image, n)
  {
    hide Gpu.Submit, Gpu.SubmitOutputFence;
  }

  lemma QueueOrders(w: World, e: Cycle, fds: seq<bool>, i: nat, last: Sem, image: nat)
    requires Going(w, e, fds, i + 1, last) && i < w.ctx.outputs && image < |w.ctx.retained|
    requires w.ctx.slots[w.Current()].outputs[i].postCopy.Some?
    requires i > 0 ==> w.ctx.slots[w.Current()].outputs[i - 1].prevPostCopy.Some?
    requires Behindhand(w, image, w.ctx.slots[w.Current()].outputs[i].postCopy.value)
    ensures var v := w.QueueOutput(i, image);
            && Going(v, e, fds, i + 1, last) && v.SameSizes(w.ctx) && v.ctx.fifo == w.ctx.fifo
            && v.Current() == w.Current() && v.ctx.slots == w.ctx.slots
  {
    hide Gpu.QueuePresent;
  }

  lemma ShowFrameOrders(w: World, e: Cycle, fds: seq<bool>, i: nat, last: Sem, image: nat)
    requires Going(w, e, fds, i, last) && i < |fds| && image < |w.ctx.retained| && image != e.image
    requires i > 0 ==> w.ctx.slots[w.Current()].outputs[i - 1].prevPostCopy.Some?
    ensures var (v, k) := (w.ShowFrame(i, image, fds[i]), w.Current());
            && v.SameSizes(w.ctx) && v.ctx.fifo == w.ctx.fifo && v.Current() == k && v.Shaped()
            && v.ctx.slots[k].outputs[i].prevPostCopy.Some?
            && Going(v, e, fds, i + 1, v.ctx.slots[k].outputs[i].prevPostCopy.value)
  {
    hide World.TakeImage, World.CopyOutput, World.QueueOutput, Behindhand;
    TakeOrders(w, e, fds, i, last, image);
    var taken := w.TakeImage(i, image);
    CopyOutOrders(taken, e, fds, i, last, image);
    var copied := taken.CopyOutput(i, image, fds[i]);
    QueueOrders(copied, e, fds, i, taken.ctx.nextSem + 1, image);
  }

  lemma {:induction false} FramesOrder(w: World, e: Cycle, i: nat, fds: seq<bool>, last: Sem)
    requires Going(w, e, fds, i, last) && e.Fits(w.ctx.outputs, |w.ctx.retained|) && i <= e.planned == |fds|
    requires i > 0 ==> w.ctx.slots[w.Current()].outputs[i - 1].prevPostCopy == Some(last)
    ensures var (v, q, stop) := w.ShowFrames(e, i, fds);
            && v.SameSizes(w.ctx) && v.Shaped() && q <= v.ctx.outputs
            && (q > 0 ==> v.ctx.slots[v.Current()].outputs[q - 1].prevPostCopy.Some?)
            && Going(v, e, fds, q, if q > 0 then v.ctx.slots[v.Current()].outputs[q - 1].prevPostCopy.value else last)
    decreases e.planned - i
  {
    hide World.ShowFrame, World.StopAt, Announced, Behindhand;
    if w.StopAt(e, i).None? {
      var image := e.frames[i].image.value;
      ShowFrameOrders(w, e, fds, i, last, image);
      var u := w.ShowFrame(i, image, fds[i]);
      FramesOrder(u, e, i + 1, fds, u.ctx.slots[u.Current()].outputs[i].prevPostCopy.value);
    }
  }

  // ---- A call ----

  lemma ShowAllOrders(w: World, e: Cycle, fds: seq<bool>, ready: Sem)
    requires Going(w, e, fds, 0, ready) && e.Fits(w.ctx.outputs, |w.ctx.retained|) && e.planned == |fds|
    ensures Kept(w.ShowAll(e, fds, ready).0)
  {
    hide World.ShowFrames, World.PresentSource, Announced, Behindhand;
    w.FramesKeepShape(e, 0, fds);
    FramesOrder(w, e, 0, fds, ready);
    var (v, q, stop) := w.ShowFrames(e, 0, fds);
    var last := if q > 0 then v.ctx.slots[v.Current()].outputs[q - 1].prevPostCopy.value else ready;
    var counted := v.Counted(e.planned, q, stop);
    assert Behindhand(counted, e.image, last) by { SameRecord(v, counted, e.image, last); }
    SourceOrders(counted, e, last, Presented);
  }

  lemma SameRecord(w: World, v: World, image: nat, ready: Sem)
    requires Behindhand(w, image, ready) && v.order.touched == w.order.touched
    requires v.order.acquired == w.order.acquired && v.order.reach == w.order.reach
    ensures Behindhand(v, image, ready)
  {
  }

  lemma BeginOrders(w: World, fds: seq<bool>)
    requires Kept(w) && w.order.handed && |fds| <= w.ctx.outputs
    ensures Kept(w.Begin()) && Imports(w.Begin(), fds, 0)
  {
  }

  lemma HistoryOrders(w: World, e: Cycle, usesAsync: bool, ready: Sem)
    requires Kept(w) && w.order.handed && e.Fits(w.ctx.outputs, |w.ctx.retained|) && Behindhand(w, e.image, ready)
    ensures Kept(w.History(e, usesAsync, ready).0)
  {
    hide World.Conclude, World.PresentSource, Behindhand, Imports;
    var a, async := e.Batching(), w.ctx.asyncCompletion && usesAsync;
    var how := if !async then HostWait
               else if a.exported && a.batchFd then (if a.imported then Settled.Imported else HostWait)
               else if a.hostFallback then Done
               else HostWait;
    BeginOrders(w, []);
    ConcludeOrders(w.Begin(), how, a, async && how.HostWait?, []);
    var v := w.Begin().Conclude(how, a, async && how.HostWait?, 0);
    SameRecord(w, v, e.image, ready);
    SourceOrders(v, e, ready, if how.HostWait? && !a.waited then OutOfDate else Presented);
  }

  lemma GenerateOrders(w: World, e: Cycle, ready: Sem)
    requires Kept(w) && w.order.handed && e.Fits(w.ctx.outputs, |w.ctx.retained|) && Behindhand(w, e.image, ready)
    ensures Kept(w.Generate(e, ready).0)
  {
    hide World.Conclude, World.PresentSource, World.ImportOutputs, World.ShowAll, Behindhand, Imports, Announced, Kept;
    var a, n := e.Batching(), e.planned;
    var imports := w.ctx.asyncCompletion && a.exported && |a.outputFds| == n && a.imported;
    var how := if imports then (if a.batchFd then Settled.Imported else Done)
               else if w.ctx.asyncCompletion && !a.exported && a.hostFallback then Done
               else HostWait;
    var fds := if imports then a.outputFds else seq(n, _ => false);
    var lost := w.ctx.asyncCompletion && how.HostWait?;
    DispatchOrders(w, n, fds);
    var u := w.Dispatched(n).ImportOutputs(fds, n);
    ImportsOrder(w.Dispatched(n), fds, n);
    ConcludeOrders(u, how, a, lost, fds);
    var v := u.Conclude(how, a, lost, n);
    SameRecord(w, v, e.image, ready);
    if how.HostWait? && !a.waited {
      SourceOrders(v, e, ready, OutOfDate);
    } else {
      ShowAllOrders(v, e, fds, ready);
    }
  }

  lemma DispatchOrders(w: World, n: nat, fds: seq<bool>)
    requires Kept(w) && w.order.handed && |fds| <= w.ctx.outputs
    ensures var v := w.Dispatched(n);
            && Kept(v) && Imports(v, fds, 0) && v.SameSizes(w.ctx) && v.ctx.asyncCompletion == w.ctx.asyncCompletion
            && v.order.touched == w.order.touched && v.order.acquired == w.order.acquired && v.order.reach == w.order.reach
  {
  }

  lemma HandOrders(w: World, image: nat, ready: Sem, waited: bool, exported: bool)
    requires Kept(w) && Behindhand(w, image, ready)
    ensures var v := w.Hand(waited, exported);
            && Kept(v) && Behindhand(v, image, ready) && v.SameSizes(w.ctx) && (waited || exported ==> v.order.handed)
            && v.LoseHandoff().Shaped() && Kept(v.LoseHandoff()) && Behindhand(v.LoseHandoff(), image, ready)
            && v.LoseHandoff().SameSizes(w.ctx)
  {
  }

  lemma HandOverOrders(w: World, e: Cycle, historyOnly: bool)
    requires Kept(w) && e.Fits(w.ctx.outputs, |w.ctx.retained|) && w.order.acquired[e.image].None?
    ensures Kept(w.HandOver(e, historyOnly).0)
  {
    hide World.CopySource, World.PresentSource, World.History, World.Generate, Behindhand;
    var usesAsync, ready := w.ctx.asyncHandoff && e.Handing().created, w.ctx.nextSem;
    var u := if w.ctx.asyncHandoff && !usesAsync then w.LoseHandoff() else w;
    CopyOrders(u, usesAsync, e.image);
    HandOrders(u.CopySource(usesAsync, e.image), e.image, ready, !usesAsync, e.Handing().exported);
    var v := u.CopySource(usesAsync, e.image).Hand(!usesAsync, e.Handing().exported);
    if usesAsync && !e.Handing().exported {
      SourceOrders(v.LoseHandoff(), e, ready, OutOfDate);
    } else if historyOnly {
      HistoryOrders(v, e, usesAsync, ready);
    } else {
      GenerateOrders(v, e, ready);
    }
  }

  /** Whatever the environment answers, a call uses nothing before it is ready. */
  lemma CallIsOrdered(w: World, e: Cycle)
    requires Kept(w) && e.Fits(w.ctx.outputs, |w.ctx.retained|)
    ensures Kept(w.Call(e).0) && w.Call(e).0.SameSizes(w.ctx)
  {
    hide World.Release, World.Recycle, World.HandOver, World.RetireOutputs, Cycle.Fits;
    assert e.image < |w.ctx.retained| by { ImageFits(w, e); }
    ReleaseOrders(w, e.image);
    var w1 := w.Release(e.image);
    RecycleAside(w1, e.fence);
    var (w2, free) := w1.Recycle(w1.Current(), e.fence);
    AsideKeeps(w1, w2);
    if free {
      var w3 := w2.ResetEpoch(e.resetBefore);
      if w3.ctx.fifo && e.planned > 0 && !e.warmup {
        PlanFits(w3, e);
        RetireAside(w3, e.planned, e.outputChecks);
        var (w4, retired) := w3.RetireOutputs(e.planned, e.outputChecks);
        AsideKeeps(w3, w4);
        HandOverOrders(w4, e, e.warmup || e.planned == 0 || !retired);
      } else {
        HandOverOrders(w3, e, e.warmup || e.planned == 0);
      }
    }
  }

  lemma ImageFits(w: World, e: Cycle)
    requires e.Fits(w.ctx.outputs, |w.ctx.retained|)
    ensures e.image < |w.ctx.retained|
  {
  }

  lemma PlanFits(w: World, e: Cycle)
    requires e.Fits(w.ctx.outputs, |w.ctx.retained|) && w.Shaped() && w.ctx.fifo
    ensures e.planned <= |w.ctx.outputSubmitted| && e.planned <= |e.outputChecks|
  {
  }

  lemma FreshIsKept(outputs: nat, images: nat, fifo: bool, asyncHandoff: bool, asyncCompletion: bool)
    ensures Kept(Fresh(outputs, images, fifo, asyncHandoff, asyncCompletion))
  {
  }

  /** In every run nothing is used before it is ready. */
  lemma {:induction false} NothingIsEarly(w: World, run: seq<Cycle>)
    requires Safe(w) && Kept(w) && AllFit(w, run)
    ensures Kept(After(w, run)) && !After(w, run).order.early
    decreases |run|
  {
    hide World.Call, SlotsSafe, ImagesSafe, SemsOk, Chained, InStep, Cycle.Fits;
    if run != [] && !w.ctx.dead {
      assert run[0].Fits(w.ctx.outputs, |w.ctx.retained|);
      CallKeeps(w, run[0]);
      CallIsOrdered(w, run[0]);
      assert forall k :: 0 <= k < |run[1..]| ==> run[1..][k] == run[k + 1];
      NothingIsEarly(w.Call(run[0]).0, run[1..]);
    }
  }
}
