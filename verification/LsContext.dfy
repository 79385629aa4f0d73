/** The present transport as the object whose calls update the pass ring in place. */
module LsContexts {
  import opened Options
  import opened PresentTransport

  class LsContext {
    var frameIdx: nat
    const passInfos: array<Slot>
    var presentWaitRetirements: seq<set<Sem>>
    var previousSourceCopySignalValid: bool
    var outputFenceSubmitted: seq<bool>
    const outputs: nat
    var asyncHandoffEnabled: bool
    var asyncCompletionEnabled: bool
    const fifo: bool
    var outOfDate: bool
    var nextSemaphore: Sem
    var totals: Tally
    ghost var gpu: Gpu
    ghost var privateDevice: Private
    ghost var order: Order

    ghost function State(): World
      reads this, passInfos
    {
      World(Context(frameIdx, passInfos[..], presentWaitRetirements, previousSourceCopySignalValid,
                    outputFenceSubmitted, outputs, asyncHandoffEnabled, asyncCompletionEnabled, fifo, outOfDate,
                    nextSemaphore),
            gpu, privateDevice, totals, order)
    }

    ghost predicate Valid()
      reads this, passInfos
    {
      State().Shaped()
    }

    constructor (outputs: nat, images: nat, fifo: bool, asyncHandoff: bool, asyncCompletion: bool)
      ensures fresh(passInfos) && State() == Fresh(outputs, images, fifo, asyncHandoff, asyncCompletion)
    {
      var n := if fifo then outputs else 0;
      frameIdx, previousSourceCopySignalValid, outOfDate, nextSemaphore := 0, false, false, 0;
      passInfos := new Slot[RING](_ => NewSlot(outputs));
      presentWaitRetirements := seq(images, _ => {});
      outputFenceSubmitted := seq(n, _ => false);
      this.outputs, this.fifo := outputs, fifo;
      asyncHandoffEnabled, asyncCompletionEnabled := asyncHandoff, asyncCompletion;
      totals := Tally(0, 0, 0, 0);
      gpu := Gpu(seq(RING, _ => Free), seq(n, _ => Free), seq(RING, _ => {}), seq(RING, _ => {}),
                 seq(images, _ => {}), {}, {}, seq(images, _ => SourceFrame), [], false);
      privateDevice := Private(0, Complete, false);
      order := Order(0, map[], seq(images, _ => 0), seq(images, _ => None), false, map[], false);
      new;
      assert passInfos[..] == seq(RING, _ => NewSlot(outputs));
    }

    method ReleasePresentWaitRetirements(image: nat)
      requires Valid() && image < |presentWaitRetirements|
      modifies this`presentWaitRetirements, this`gpu, this`order
      ensures State() == old(State()).Release(image)
    {
      presentWaitRetirements := presentWaitRetirements[image := {}];
      gpu := gpu.Returned(image);
      order := order.Returned(image);
    }

    /** Free the slot of this frame, if nothing of its last use can still run. */
    method TryRecyclePass(check: FenceCheck) returns (free: bool)
      requires Valid()
      modifies passInfos, this`gpu
      ensures (State(), free) == old(State()).Recycle(old(State()).Current(), check)
    {
      var k := frameIdx % RING;
      var slot := passInfos[k];
      ghost var executed := false;
      free := false;
      if slot.fenceSubmitted && !slot.fenceFailed && check.ready {
        executed := true;
        slot := if check.reset then slot.(fenceSubmitted := false) else slot.(fenceFailed := true);
      }
      if !slot.fenceFailed && !slot.fenceSubmitted && !(slot.acquired != {} && !slot.armed) {
        slot := slot.(acquired := {}, armed := false, crossFrame := {}, batchValid := false);
        free := true;
      }
      ghost var r := RecycleSlot(passInfos[k], check);
      assert r == Recycling(slot, executed, free);
      passInfos[k] := slot;
      gpu := gpu.Recycled(k, executed, executed && !slot.fenceFailed);
    }

    /** Whether the first `n` output fences are free again; none of them is waited for. */
    method RetireOutputCopies(n: nat, checks: seq<FenceCheck>) returns (allReady: bool)
      requires Valid() && n <= |outputFenceSubmitted| && n <= |checks|
      modifies this`outputFenceSubmitted, this`gpu
      ensures (State(), allReady) == old(State()).RetireOutputs(n, checks)
    {
      hide World.RetireOutput;
      allReady := true;
      for i := 0 to n
        invariant Valid() && |outputFenceSubmitted| == |old(outputFenceSubmitted)|
        invariant (State(), allReady) == old(State()).RetireOutputs(i, checks)
      {
        if outputFenceSubmitted[i] {
          if checks[i].ready && checks[i].reset {
            RetireOne(i);
          } else {
            allReady := false;
          }
        }
      }
    }

    method RetireOne(i: nat)
      requires Valid() && i < |outputFenceSubmitted|
      modifies this`outputFenceSubmitted, this`gpu
      ensures State() == old(State()).RetireOutput(i)
    {
      outputFenceSubmitted := outputFenceSubmitted[i := false];
      gpu := gpu.(outputFences := gpu.outputFences[i := Free]);
    }

    method ResetSourceEpoch(reset: bool)
      modifies this`previousSourceCopySignalValid
      ensures State() == old(State()).ResetEpoch(reset)
    {
      if reset {
        previousSourceCopySignalValid := false;
      }
    }

    /** The last copy's second signal and the second device's release, where they are valid. */
    method CrossFrameWaits() returns (waits: set<Sem>)
      requires Valid()
      ensures waits == State().CopyWaits()
    {
      var previous := (frameIdx + RING - 1) % RING;
      waits := {};
      if previousSourceCopySignalValid && frameIdx > 0 && |passInfos[previous].preCopy| == 2 {
        waits := waits + {passInfos[previous].preCopy[1]};
      }
      if frameIdx > 0 && passInfos[previous].batchValid && passInfos[previous].batch.Some? {
        waits := waits + {passInfos[previous].batch.value};
      }
    }

    /** The release of the previous batch is waited for by this copy and by no later one. */
    method ConsumeRelease()
      requires Valid()
      modifies passInfos
      ensures passInfos[..] == old(State()).Consumed()
    {
      if frameIdx > 0 {
        var previous := (frameIdx + RING - 1) % RING;
        passInfos[previous] := passInfos[previous].(batchValid := false);
      }
    }

    method CopiedInto(k: nat, retentions: set<Sem>, withInput: bool) returns (slot: Slot)
      requires Valid() && k == frameIdx % RING && retentions == State().CopyWaits()
      ensures slot == State().CopySlot(withInput)
    {
      slot := passInfos[k];
      slot := slot.(preCopy := [nextSemaphore, nextSemaphore + 1], crossFrame := slot.crossFrame + retentions);
      if withInput {
        slot := slot.(input := Some(nextSemaphore + 2));
      }
    }

    method SubmitCopy(k: nat, image: nat, waits: set<Sem>, signals: set<Sem>)
      requires Valid() && k == frameIdx % RING && image < |presentWaitRetirements|
      modifies this`gpu, this`privateDevice, this`order
      ensures State() == old(State()).SubmitCopy(image, waits, signals)
    {
      gpu := gpu.Submit(k, waits, signals);
      privateDevice := privateDevice.Overwritten(waits);
      order := order.Submit(image, waits, signals).Overwritten();
    }

    /** Submit the copy of the source into the shared pair. */
    method CopySource(withInput: bool, image: nat)
      requires Valid() && image < |presentWaitRetirements|
      modifies passInfos, this`previousSourceCopySignalValid, this`nextSemaphore, this`gpu, this`privateDevice,
               this`order
      ensures State() == old(State()).CopySource(withInput, image)
    {
      hide World.CopyWaits, World.SubmitCopy, World.Consumed, World.CopySlot;
      var k, n := frameIdx % RING, nextSemaphore;
      var retentions := CrossFrameWaits();
      var slot := CopiedInto(k, retentions, withInput);
      ConsumeRelease();
      passInfos[k] := slot;
      nextSemaphore := n + 3;
      previousSourceCopySignalValid := true;
      assert State() == old(State()).Copying(withInput);
      SubmitCopy(k, image, retentions, if withInput then {n, n + 1, n + 2} else {n, n + 1});
    }

    /** Import the release of the batch into the slot. */
    method ImportRelease()
      requires Valid()
      modifies passInfos, this`nextSemaphore, this`gpu, this`privateDevice
      ensures Valid() && State() == old(State()).ImportRelease()
    {
      var k := frameIdx % RING;
      passInfos[k] := passInfos[k].(batch := Some(nextSemaphore), batchValid := true);
      gpu := gpu.Signal({nextSemaphore});
      privateDevice := privateDevice.(last := Released(nextSemaphore));
      nextSemaphore := nextSemaphore + 1;
    }

    method Dispatch(last: Batch)
      modifies this`privateDevice
      ensures State() == old(State()).Dispatch(last)
    {
      privateDevice := privateDevice.(count := privateDevice.count + 1, last := last);
    }

    /** Import what the second device exported, or wait for it on the host. */
    method Conclude(how: Settled, answer: BatchAnswer, losesAsync: bool, ghost n: nat)
      requires Valid()
      modifies passInfos, this`asyncCompletionEnabled, this`nextSemaphore, this`gpu, this`privateDevice, this`order
      ensures Valid() && State() == old(State()).Conclude(how, answer, losesAsync, n)
    {
      hide World.ImportRelease;
      if losesAsync {
        asyncCompletionEnabled := false;
      }
      order := if answer.Settles(how) then order.Settle(n) else order;
      match how {
        case Imported =>
          Dispatch(Lost);
          ImportRelease();
        case Done =>
          Dispatch(if answer.Finished() then Complete else Lost);
        case HostWait =>
          Dispatch(if answer.waited then Complete else Lost);
      }
    }

    method ImportOutputs(fds: seq<bool>, n: nat)
      requires Valid() && n <= |fds| && n <= outputs
      modifies passInfos, this`nextSemaphore, this`gpu, this`order
      ensures Valid() && State() == old(State()).ImportOutputs(fds, n)
    {
      hide World.ImportOutput;
      for i := 0 to n
        invariant Valid() && State() == old(State()).ImportOutputs(fds, i)
      {
        if fds[i] {
          ImportOutput(i);
        }
      }
    }

    method ImportOutput(i: nat)
      requires Valid() && i < outputs
      modifies passInfos, this`nextSemaphore, this`gpu, this`order
      ensures Valid() && State() == old(State()).ImportOutput(i)
    {
      var k := frameIdx % RING;
      var s := passInfos[k];
      passInfos[k] := s.(outputs := s.outputs[i := s.outputs[i].(render := Some(nextSemaphore))]);
      gpu := gpu.Signal({nextSemaphore});
      order := order.Announce(i, nextSemaphore);
      nextSemaphore := nextSemaphore + 1;
    }

    /** Submit the slot's fence behind its work; fall back to an idle queue. */
    method ArmPassGpuRetirement(answer: ArmAnswer)
      requires Valid()
      modifies passInfos, this`gpu
      ensures Valid() && State() == old(State()).Arm(answer)
    {
      var k := frameIdx % RING;
      if passInfos[k].fenceSubmitted || passInfos[k].fenceFailed {
        return;
      }
      if answer.submitted {
        gpu := gpu.SubmitPassFence(k);
        passInfos[k] := passInfos[k].(fenceSubmitted := true, armed := true);
      } else if answer.idle {
        gpu := gpu.Executed(k);
        passInfos[k] := passInfos[k].(armed := true);
      } else {
        passInfos[k] := passInfos[k].(fenceFailed := true);
      }
    }

    /** Queue an image and keep the owners of what it waits for. */
    method QueueImage(image: nat, waits: set<Sem>)
      requires Valid() && image < |presentWaitRetirements|
      modifies this`presentWaitRetirements, this`gpu, this`order
      ensures Valid() && State() == old(State()).QueueImage(image, waits)
    {
      presentWaitRetirements := presentWaitRetirements[image := presentWaitRetirements[image] + waits];
      gpu := gpu.QueuePresent(image, waits);
      order := order.Present(image, waits);
    }

    /** The image goes to frame `i`; owners of its old presentation waits move to the pass. */
    method TakeImage(i: nat, image: nat)
      requires Valid() && i < outputs && image < |presentWaitRetirements|
      modifies passInfos, this`presentWaitRetirements, this`nextSemaphore, this`gpu, this`order
      ensures Valid() && State() == old(State()).TakeImage(i, image)
    {
      var k := frameIdx % RING;
      var s := passInfos[k];
      passInfos[k] := s.(outputs := s.outputs[i := s.outputs[i].(acquire := Some(nextSemaphore))],
                         acquired := s.acquired + presentWaitRetirements[image]);
      presentWaitRetirements := presentWaitRetirements[image := {}];
      gpu := gpu.Signal({nextSemaphore}).Reacquire(image, k);
      order := order.Acquired(image, nextSemaphore);
      nextSemaphore := nextSemaphore + 1;
    }

    method SubmitOutput(i: nat, image: nat, waits: set<Sem>, signals: set<Sem>)
      requires Valid() && i < outputs && image < |presentWaitRetirements|
      modifies this`outputFenceSubmitted, this`gpu, this`order
      ensures Valid() && State() == old(State()).SubmitOutput(i, image, waits, signals)
    {
      gpu := gpu.Submit(frameIdx % RING, waits, signals).Fill(image, GeneratedFrame(i));
      if fifo {
        gpu := gpu.SubmitOutputFence(i);
        outputFenceSubmitted := outputFenceSubmitted[i := true];
      }
      order := order.Read(i, waits).Submit(image, waits, signals);
    }

    /** What the copy of an output waits for: its image, and its ready signal if one was imported. */
    method GeneratedCopyWaits(i: nat, waitsOutput: bool) returns (waits: set<Sem>)
      requires Valid() && i < outputs
      ensures waits == OutputWaits(passInfos[frameIdx % RING].outputs[i], waitsOutput)
    {
      var o := passInfos[frameIdx % RING].outputs[i];
      waits := {};
      if o.acquire.Some? {
        waits := waits + {o.acquire.value};
      }
      if waitsOutput && o.render.Some? {
        waits := waits + {o.render.value};
      }
    }

    method CopyOutput(i: nat, image: nat, waitsOutput: bool)
      requires Valid() && i < outputs && image < |presentWaitRetirements|
      modifies passInfos, this`nextSemaphore, this`outputFenceSubmitted, this`gpu, this`order
      ensures Valid() && State() == old(State()).CopyOutput(i, image, waitsOutput)
    {
      hide World.SubmitOutput, OutputWaits;
      var k, n := frameIdx % RING, nextSemaphore;
      var waits := GeneratedCopyWaits(i, waitsOutput);
      var s := passInfos[k];
      passInfos[k] := s.(outputs := s.outputs[i := s.outputs[i].(postCopy := Some(n), prevPostCopy := Some(n + 1))]);
      nextSemaphore := n + 2;
      assert State() == old(State()).Copied(i);
      SubmitOutput(i, image, waits, {n, n + 1});
    }

    /** Acquire, copy and queue generated frames until one is late or gets no image. */
    method ShowFrames(e: Cycle, fds: seq<bool>) returns (queued: nat, stop: Stop)
      requires Valid() && e.Fits(outputs, |presentWaitRetirements|) && e.planned <= |fds|
      modifies passInfos, this`presentWaitRetirements, this`nextSemaphore, this`outputFenceSubmitted, this`gpu,
               this`order
      ensures Valid() && (State(), queued, stop) == old(State()).ShowFrames(e, 0, fds)
      ensures queued <= e.planned && |presentWaitRetirements| == |old(presentWaitRetirements)|
      ensures queued > 0 ==> passInfos[frameIdx % RING].outputs[queued - 1].prevPostCopy.Some?
    {
      hide World.ShowFrame;
      var i := 0;
      while i < e.planned
        invariant Valid() && 0 <= i <= e.planned && |presentWaitRetirements| == |old(presentWaitRetirements)|
        invariant i > 0 ==> passInfos[frameIdx % RING].outputs[i - 1].prevPostCopy.Some?
        invariant State().ShowFrames(e, i, fds) == old(State()).ShowFrames(e, 0, fds)
      {
        if e.adaptive && !fifo && e.frames[i].late {
          return i, Late;
        }
        if e.frames[i].image.None? {
          return i, NoImage;
        }
        ShowFrame(i, e.frames[i].image.value, fds[i]);
        i := i + 1;
      }
      queued, stop := i, AllQueued;
    }

    method ShowFrame(i: nat, image: nat, waitsOutput: bool)
      requires Valid() && i < outputs && image < |presentWaitRetirements|
      requires i > 0 ==> passInfos[frameIdx % RING].outputs[i - 1].prevPostCopy.Some?
      modifies passInfos, this`presentWaitRetirements, this`nextSemaphore, this`outputFenceSubmitted, this`gpu,
               this`order
      ensures Valid() && State() == old(State()).ShowFrame(i, image, waitsOutput)
    {
      ghost var w := State();
      TakeImage(i, image);
      CopyOutput(i, image, waitsOutput);
      assert State() == w.TakeImage(i, image).CopyOutput(i, image, waitsOutput);
      var os := passInfos[frameIdx % RING].outputs;
      QueueImage(image, {os[i].postCopy.value} + (if i > 0 then {os[i - 1].prevPostCopy.value} else {}));
    }

    /** Arm the slot, queue the source behind `ready`, and finish the frame. */
    method PresentSource(e: Cycle, ready: Sem, result: Result)
      requires Valid() && e.image < |presentWaitRetirements|
      modifies this, passInfos
      ensures State() == old(State()).PresentSource(e, ready, result)
    {
      hide World.Arm, World.QueueImage;
      ArmPassGpuRetirement(e.Arming());
      QueueImage(e.image, {ready});
      frameIdx := frameIdx + 1;
      outOfDate := result.OutOfDate?;
      previousSourceCopySignalValid := previousSourceCopySignalValid && !e.resetAfter;
    }

    /** Advance the second device's history, then present the source. */
    method History(e: Cycle, usesAsync: bool, ready: Sem) returns (result: Result)
      requires Valid() && e.Fits(outputs, |presentWaitRetirements|)
      modifies this, passInfos
      ensures (State(), result) == old(State()).History(e, usesAsync, ready)
    {
      hide World.Conclude, World.PresentSource;
      var a := e.Batching();
      var async, how := asyncCompletionEnabled && usesAsync, HostWait;
      if async {
        if a.exported && a.batchFd {
          if a.imported {
            how := Imported;
          }
        } else if a.hostFallback {
          how := Done;
        }
      }
      order := order.Begin();
      Conclude(how, a, async && how.HostWait?, 0);
      result := if how.HostWait? && !a.waited then OutOfDate else Presented;
      PresentSource(e, ready, result);
    }

    /** Generate, show what can be shown, then present the source. */
    method Generate(e: Cycle, ready: Sem) returns (result: Result)
      requires Valid() && e.Fits(outputs, |presentWaitRetirements|)
      modifies this, passInfos
      ensures (State(), result) == old(State()).Generate(e, ready)
    {
      hide World.Conclude, World.PresentSource, World.ImportOutputs, World.ShowAll;
      var a, n := e.Batching(), e.planned;
      order := order.Begin();
      totals := totals.(dispatched := totals.dispatched + n);
      var imports := asyncCompletionEnabled && a.exported && |a.outputFds| == n && a.imported;
      var how := if imports then (if a.batchFd then Imported else Done)
                 else if asyncCompletionEnabled && !a.exported && a.hostFallback then Done
                 else HostWait;
      var losesAsync := asyncCompletionEnabled && how.HostWait?;
      var fds := if imports then a.outputFds else seq(n, _ => false);
      ImportOutputs(fds, n);
      Conclude(how, a, losesAsync, n);
      if how.HostWait? && !a.waited {
        PresentSource(e, ready, OutOfDate);
        return OutOfDate;
      }
      result := ShowAll(e, fds, ready);
    }

    method ShowAll(e: Cycle, fds: seq<bool>, ready: Sem) returns (result: Result)
      requires Valid() && e.Fits(outputs, |presentWaitRetirements|) && e.planned <= |fds|
      modifies this, passInfos
      ensures (State(), result) == old(State()).ShowAll(e, fds, ready)
    {
      hide World.ShowFrames, World.PresentSource;
      var q, stop := ShowFrames(e, fds);
      totals := totals.(
        accepted := totals.accepted + q,
        deadlineDrops := totals.deadlineDrops + (if stop.Late? then e.planned - q else 0),
        wsiDrops := totals.wsiDrops + (if stop.NoImage? then e.planned - q else 0));
      var last := if q > 0 then passInfos[frameIdx % RING].outputs[q - 1].prevPostCopy.value else ready;
      PresentSource(e, last, Presented);
      result := Presented;
    }

    method HandOver(e: Cycle, historyOnly: bool) returns (result: Result)
      requires Valid() && e.Fits(outputs, |presentWaitRetirements|)
      modifies this, passInfos
      ensures (State(), result) == old(State()).HandOver(e, historyOnly)
    {
      hide World.CopySource, World.PresentSource, World.History, World.Generate;
      var usesAsync, ready := asyncHandoffEnabled && e.Handing().created, nextSemaphore;
      if asyncHandoffEnabled && !usesAsync {
        asyncHandoffEnabled := false;
      }
      CopySource(usesAsync, e.image);
      order := order.Hand(!usesAsync, e.Handing().exported);
      if usesAsync && !e.Handing().exported {
        asyncHandoffEnabled := false;
        PresentSource(e, ready, OutOfDate);
        result := OutOfDate;
      } else if historyOnly {
        result := History(e, usesAsync, ready);
      } else {
        result := Generate(e, ready);
      }
    }

    /** One source frame of the application. */
    method Present(e: Cycle) returns (result: Result)
      requires Valid() && e.Fits(outputs, |presentWaitRetirements|)
      modifies this, passInfos
      ensures (State(), result) == old(State()).Call(e)
    {
      hide World.Recycle, World.HandOver, World.RetireOutputs;
      ReleasePresentWaitRetirements(e.image);
      var free := TryRecyclePass(e.fence);
      if !free {
        if e.SourceTaken() {
          gpu := gpu.QueuePresent(e.image, {});
          order := order.Present(e.image, {});
          ResetSourceEpoch(true);
          return Presented;
        }
        return Refused;
      }
      ResetSourceEpoch(e.resetBefore);
      var retired := true;
      if fifo && e.planned > 0 && !e.warmup {
        retired := RetireOutputCopies(e.planned, e.outputChecks);
      }
      result := HandOver(e, e.warmup || e.planned == 0 || !retired);
    }
  }
}
