/**
  The transport of one presented source frame on the Android path without conservative
  cross-device synchronisation: an eight-slot pass ring, completion fences, semaphores that outlive
  the call that made them, and an image pair shared with a second device.

  What the GPU, the presentation engine and the second device do is kept beside the context. The
  GPU record raises its fault flag at the first use the Vulkan 1.3 specification forbids: a fence
  submitted while in use (section 7.3), a binary semaphore waited for twice or without a signal, or
  signalled twice (section 7.4). It also keeps what each swapchain image holds and, in order, what
  was queued for presentation. Six facts about the environment are built in:

  - a fence seen signalled, or an idle queue, means the queue waits of that slot have executed;
  - so have the presentation waits of images the slot's submissions acquired;
  - when the application presents an image again, the waits of its previous presentation have executed;
  - an image the application holds is not acquired for a generated frame, and the application's
    image holds its source frame when it is presented;
  - a batch the second device reports as completed on the host, or exports without a handle for its
    end, is complete;
  - an output exported without a handle is ready.
*/
module PresentTransport {
  import opened Options

  const RING := 8

  type Sem = nat

  datatype Fence = Free | Busy

  // ---- The GPU, as the specification lets it be used ----

  /** What an image shows. */
  datatype Shown = GeneratedFrame(i: nat) | SourceFrame

  /** An image queued for presentation, and what it held. */
  datatype Queued = Queued(shown: Shown, image: nat)

  datatype Gpu = Gpu(
    passFences: seq<Fence>, outputFences: seq<Fence>, queueWaits: seq<set<Sem>>, displaced: seq<set<Sem>>,
    presentWaits: seq<set<Sem>>, signalled: set<Sem>, waited: set<Sem>, contents: seq<Shown>, queued: seq<Queued>,
    fault: bool)
  {
    predicate Shaped(outputs: nat, images: nat) {
      && |passFences| == |queueWaits| == |displaced| == RING
      && |outputFences| == outputs && |presentWaits| == |contents| == images
    }

    function Signal(sems: set<Sem>): Gpu {
      this.(signalled := signalled + sems, fault := fault || !(sems !! signalled))
    }

    function Wait(sems: set<Sem>): Gpu {
      this.(waited := waited + sems, fault := fault || !(sems <= signalled) || !(sems !! waited))
    }

    function Submit(k: nat, waits: set<Sem>, signals: set<Sem>): (g: Gpu)
      requires k < |queueWaits|
      ensures g.outputFences == outputFences && g.contents == contents
    {
      Wait(waits).Signal(signals).(queueWaits := queueWaits[k := queueWaits[k] + waits])
    }

    function SubmitPassFence(k: nat): Gpu
      requires k < |passFences|
    {
      this.(passFences := passFences[k := Busy], fault := fault || passFences[k].Busy?)
    }

    function SubmitOutputFence(i: nat): Gpu
      requires i < |outputFences|
    {
      this.(outputFences := outputFences[i := Busy], fault := fault || outputFences[i].Busy?)
    }

    /** The slot's submissions have executed. */
    function Executed(k: nat): Gpu
      requires k < |queueWaits| == |displaced|
    {
      this.(queueWaits := queueWaits[k := {}], displaced := displaced[k := {}])
    }

    function Recycled(k: nat, executed: bool, freed: bool): Gpu
      requires k < |queueWaits| == |displaced| == |passFences|
    {
      this.(passFences := passFences[k := if freed then Free else passFences[k]],
            queueWaits := queueWaits[k := if executed then {} else queueWaits[k]],
            displaced := displaced[k := if executed then {} else displaced[k]])
    }

    function QueuePresent(image: nat, waits: set<Sem>): Gpu
      requires image < |presentWaits| == |contents|
    {
      Wait(waits).(presentWaits := presentWaits[image := presentWaits[image] + waits],
                   queued := queued + [Queued(contents[image], image)])
    }

    function Fill(image: nat, shown: Shown): Gpu
      requires image < |contents|
    {
      this.(contents := contents[image := shown])
    }

    /** An image is acquired again; the waits of its last presentation execute with slot `k`. */
    function Reacquire(image: nat, k: nat): Gpu
      requires image < |presentWaits| && k < |displaced|
    {
      this.(displaced := displaced[k := displaced[k] + presentWaits[image]],
            presentWaits := presentWaits[image := {}])
    }

    /** The application presents an image it rendered a frame to. */
    function Returned(image: nat): Gpu
      requires image < |presentWaits| == |contents|
    {
      Fill(image, SourceFrame).(presentWaits := presentWaits[image := {}])
    }
  }

  // ---- The context ----

  /** The semaphores of one generated output. */
  datatype Output = Output(render: Option<Sem>, acquire: Option<Sem>, postCopy: Option<Sem>, prevPostCopy: Option<Sem>)

  /** What the copy of an output waits for: its image, and its ready signal if one was imported. */
  function OutputWaits(o: Output, waitsOutput: bool): set<Sem> {
    (if o.acquire.Some? then {o.acquire.value} else {})
    + (if waitsOutput && o.render.Some? then {o.render.value} else {})
  }

  const NO_OUTPUT := Output(None, None, None, None)

  datatype Slot = Slot(
    preCopy: seq<Sem>, input: Option<Sem>, batch: Option<Sem>, batchValid: bool, outputs: seq<Output>,
    crossFrame: set<Sem>, acquired: set<Sem>, armed: bool, fenceSubmitted: bool, fenceFailed: bool)

  function NewSlot(outputs: nat): Slot {
    Slot([], None, None, false, seq(outputs, _ => NO_OUTPUT), {}, {}, false, false, false)
  }

  /** A slot after a try to free it: whether its work was seen executed, and whether it is free. */
  datatype Recycling = Recycling(slot: Slot, executed: bool, free: bool)

  function RecycleSlot(s: Slot, check: FenceCheck): (r: Recycling)
    ensures r.slot.outputs == s.outputs
  {
    if s.fenceFailed || (s.fenceSubmitted && !check.ready) then Recycling(s, false, false)
    else if s.fenceSubmitted && !check.reset then Recycling(s.(fenceFailed := true), true, false)
    else
      var t := s.(fenceSubmitted := false);
      if t.acquired != {} && !t.armed then Recycling(t, s.fenceSubmitted, false)
      else
        Recycling(t.(acquired := {}, armed := false, crossFrame := {}, batchValid := false), s.fenceSubmitted, true)
  }

  datatype Context = Context(
    frameIdx: nat, slots: seq<Slot>, retained: seq<set<Sem>>, previousSignal: bool, outputSubmitted: seq<bool>,
    outputs: nat, asyncHandoff: bool, asyncCompletion: bool, fifo: bool, dead: bool, nextSem: Sem)

  /** The second device's last batch: known complete, released by a semaphore, or lost to a timeout. */
  datatype Batch = Complete | Released(sem: Sem) | Lost

  /** How often the second device was driven, and whether the pair was ever overwritten under it. */
  datatype Private = Private(count: nat, last: Batch, torn: bool)
  {
    /** Whether what waits for `waits` comes after the last use of the image pair. */
    predicate DoneBefore(waits: set<Sem>) {
      match last
      case Complete => true
      case Released(sem) => sem in waits
      case Lost => false
    }

    function Overwritten(waits: set<Sem>): Private { this.(torn := torn || !DoneBefore(waits)) }
  }

  /** When an output of the running batch may be read: at once, or behind a semaphore. */
  datatype Readiness = Ready | Behind(sem: Sem)

  /**
    What must have happened before what. `submitted` counts queue submissions, and a semaphore
    reaches as many of them as its signal comes after. An image is touched by the last submission
    that reads or writes it and may have to be waited for after its acquisition. The second device
    may start a batch once the image pair was handed over, and what it has not announced is not
    ready. `early` is raised by the first use that was not waited for.
  */
  datatype Order = Order(
    submitted: nat, reach: map<Sem, nat>, touched: seq<nat>, acquired: seq<Option<Sem>>, handed: bool,
    outputs: map<nat, Readiness>, early: bool)
  {
    predicate Shaped(images: nat) { |touched| == |acquired| == images }

    function Demand(ok: bool): Order { this.(early := early || !ok) }

    /** A submission that uses an image. */
    function Submit(image: nat, waits: set<Sem>, signals: set<Sem>): Order
      requires image < |touched| == |acquired|
    {
      Demand(acquired[image].Some? ==> acquired[image].value in waits)
        .(submitted := submitted + 1, reach := reach + map s | s in signals :: submitted + 1,
          touched := touched[image := submitted + 1], acquired := acquired[image := None])
    }

    /** Whether a semaphore among `waits` comes after everything submitted for the image. */
    predicate Covered(image: nat, waits: set<Sem>)
      requires image < |touched| == |acquired|
    {
      && acquired[image].None?
      && (touched[image] == 0 || exists s :: s in waits && s in reach && reach[s] >= touched[image])
    }

    function Present(image: nat, waits: set<Sem>): Order
      requires image < |touched| == |acquired|
    {
      Demand(Covered(image, waits))
    }

    function Returned(image: nat): Order
      requires image < |touched| == |acquired|
    {
      this.(touched := touched[image := 0], acquired := acquired[image := None])
    }

    function Acquired(image: nat, sem: Sem): Order
      requires image < |acquired|
    {
      this.(acquired := acquired[image := Some(sem)])
    }

    /** The pair holds a new frame, which nobody but this queue knows to be complete. */
    function Overwritten(): Order { this.(handed := false) }

    /** The second device gets a handle for the end of the copy, or the host has waited for it. */
    function Hand(waited: bool, exported: bool): Order { this.(handed := waited || exported) }

    function Begin(): Order { Demand(handed).(outputs := map[]) }

    function Announce(i: nat, sem: Sem): Order { this.(outputs := outputs[i := Behind(sem)]) }

    /** The batch is complete but for what is behind a semaphore. */
    function Settle(n: nat): Order {
      this.(outputs := outputs + map i | 0 <= i < n && i !in outputs :: Ready)
    }

    function Read(i: nat, waits: set<Sem>): Order {
      Demand(i in outputs && (outputs[i].Behind? ==> outputs[i].sem in waits))
    }
  }

  datatype Tally = Tally(dispatched: nat, accepted: nat, deadlineDrops: nat, wsiDrops: nat)

  // ---- What the environment answers during one call ----

  datatype FenceCheck = FenceCheck(ready: bool, reset: bool)
  datatype Handoff = Handoff(created: bool, exported: bool)
  datatype BatchAnswer = BatchAnswer(
    exported: bool, batchFd: bool, outputFds: seq<bool>, hostFallback: bool, imported: bool, waited: bool)
  {
    /** Completed on the host, or exported without a handle for its end. */
    predicate Finished() { !(exported && batchFd) && (exported || hostFallback) }

    /** Nothing of the batch is outstanding but what it announced handles for. */
    predicate Settles(how: Settled) { if how.HostWait? then waited else (exported && imported) || Finished() }
  }
  datatype FrameAnswer = FrameAnswer(late: bool, image: Option<nat>)
  datatype ArmAnswer = ArmAnswer(submitted: bool, idle: bool)

  datatype Cycle = Cycle(
    image: nat, fence: FenceCheck, outputChecks: seq<FenceCheck>, planned: nat, warmup: bool, adaptive: bool,
    resetBefore: bool, resetAfter: bool, answers: (Handoff, BatchAnswer, ArmAnswer, bool), frames: seq<FrameAnswer>)
  {
    function Handing(): Handoff { answers.0 }
    function Batching(): BatchAnswer { answers.1 }
    function Arming(): ArmAnswer { answers.2 }
    predicate SourceTaken() { answers.3 }

    /** Answers for as many images, outputs and frames as there are. */
    predicate Fits(outputs: nat, images: nat) {
      && image < images && planned <= outputs && |outputChecks| >= outputs && |frames| >= planned
      && forall i :: 0 <= i < |frames| && frames[i].image.Some? ==> image != frames[i].image.value < images
    }
  }

  datatype Result = Presented | OutOfDate | Refused

  datatype World = World(ctx: Context, gpu: Gpu, priv: Private, tally: Tally, order: Order)
  {
    function Current(): (k: nat) ensures k < RING { ctx.frameIdx % RING }

    function Previous(): (k: nat) ensures k < RING { (ctx.frameIdx + RING - 1) % RING }

    predicate Shaped() {
      && |ctx.slots| == RING && |ctx.outputSubmitted| == (if ctx.fifo then ctx.outputs else 0)
      && gpu.Shaped(|ctx.outputSubmitted|, |ctx.retained|) && order.Shaped(|ctx.retained|)
      && (forall k :: 0 <= k < RING ==> |ctx.slots[k].outputs| == ctx.outputs)
    }

    /** Same sizes, same frame. */
    predicate Sized(c: Context) {
      && ctx.outputs == c.outputs && |ctx.retained| == |c.retained| && ctx.fifo == c.fifo
      && ctx.frameIdx == c.frameIdx
    }

    predicate SameSizes(c: Context) { ctx.outputs == c.outputs && |ctx.retained| == |c.retained| }

    function SetSlot(k: nat, slot: Slot): World
      requires k < |ctx.slots|
    {
      this.(ctx := ctx.(slots := ctx.slots[k := slot]))
    }

    // -- Entering a call --

    /** The owners of an image's last presentation waits go when the image comes back. */
    function Release(image: nat): (w: World)
      requires Shaped() && image < |ctx.retained|
      ensures w.Shaped() && w.Sized(ctx)
    {
      this.(ctx := ctx.(retained := ctx.retained[image := {}]), gpu := gpu.Returned(image),
            order := order.Returned(image))
    }

    /** Make the slot's resources free again, if its fence says so. */
    function Recycle(k: nat, check: FenceCheck): (r: (World, bool))
      requires Shaped() && k < RING
      ensures r.0.Shaped() && r.0.Sized(ctx)
    {
      var r := RecycleSlot(ctx.slots[k], check);
      (World(ctx.(slots := ctx.slots[k := r.slot]), gpu.Recycled(k, r.executed, r.executed && !r.slot.fenceFailed),
             priv, tally, order),
       r.free)
    }

    /** A new source epoch does not chain to the last copy; releases of the second device stay. */
    function ResetEpoch(reset: bool): (w: World)
      ensures w.Sized(ctx) && (Shaped() ==> w.Shaped())
    {
      if reset then this.(ctx := ctx.(previousSignal := false)) else this
    }

    function RetireOutput(i: nat): (w: World)
      requires Shaped() && i < |ctx.outputSubmitted|
      ensures w.Shaped() && w.Sized(ctx)
    {
      this.(ctx := ctx.(outputSubmitted := ctx.outputSubmitted[i := false]),
            gpu := gpu.(outputFences := gpu.outputFences[i := Free]))
    }

    /** Retire the output fences of the first `n` generated frames; false if one is still in use. */
    function RetireOutputs(n: nat, checks: seq<FenceCheck>): (r: (World, bool))
      requires Shaped() && n <= |ctx.outputSubmitted| && n <= |checks|
      ensures r.0.Shaped() && r.0.Sized(ctx)
    {
      if n == 0 then (this, true)
      else
        var (w, ready) := RetireOutputs(n - 1, checks);
        if !w.ctx.outputSubmitted[n - 1] then (w, ready)
        else if checks[n - 1].ready && checks[n - 1].reset then
          (w.RetireOutput(n - 1), ready)
        else (w, false)
    }

    // -- Copying the source --

    /** What the copy waits for besides the game's rendering. */
    function CopyWaits(): set<Sem>
      requires Shaped()
    {
      var prev := ctx.slots[Previous()];
      (if ctx.previousSignal && ctx.frameIdx > 0 && |prev.preCopy| == 2 then {prev.preCopy[1]} else {})
      + (if ctx.frameIdx > 0 && prev.batchValid && prev.batch.Some? then {prev.batch.value} else {})
    }

    /** Submit work that reads `image` and overwrites the image pair. */
    function SubmitCopy(image: nat, waits: set<Sem>, signals: set<Sem>): (w: World)
      requires Shaped() && image < |ctx.retained|
      ensures w.Shaped() && w.Sized(ctx)
    {
      this.(gpu := gpu.Submit(Current(), waits, signals), priv := priv.Overwritten(waits),
            order := order.Submit(image, waits, signals).Overwritten())
    }

    /** This slot gets new semaphores for its copy and keeps those the copy waits for. */
    function CopySlot(withInput: bool): Slot
      requires Shaped()
    {
      var s, n := ctx.slots[Current()], ctx.nextSem;
      s.(preCopy := [n, n + 1], crossFrame := s.crossFrame + CopyWaits(), input := if withInput then Some(n + 2) else s.input)
    }

    /** The release of the previous batch is waited for by this copy and by no later one. */
    function Consumed(): (slots: seq<Slot>)
      requires Shaped()
      ensures |slots| == RING
    {
      if ctx.frameIdx > 0 then ctx.slots[Previous() := ctx.slots[Previous()].(batchValid := false)] else ctx.slots
    }

    function Copying(withInput: bool): (w: World)
      requires Shaped()
      ensures w.Shaped() && w.Sized(ctx)
    {
      this.(ctx := ctx.(slots := Consumed()[Current() := CopySlot(withInput)], previousSignal := true,
                        nextSem := ctx.nextSem + 3))
    }

    /** Submit the copy. */
    function CopySource(withInput: bool, image: nat): (w: World)
      requires Shaped() && image < |ctx.retained|
      ensures w.Shaped() && w.Sized(ctx)
    {
      var n := ctx.nextSem;
      Copying(withInput).SubmitCopy(image, CopyWaits(), if withInput then {n, n + 1, n + 2} else {n, n + 1})
    }

    // -- The second device --

    function Hand(waited: bool, exported: bool): (w: World)
      ensures w.Sized(ctx) && (Shaped() ==> w.Shaped())
    {
      this.(order := order.Hand(waited, exported))
    }

    /** The second device starts on the image pair. */
    function Begin(): (w: World)
      ensures w.Sized(ctx) && (Shaped() ==> w.Shaped())
    {
      this.(order := order.Begin())
    }

    /** One batch is submitted to the second device; `answer` says how its end becomes known. */
    function Dispatch(last: Batch): World {
      this.(priv := priv.(count := priv.count + 1, last := last))
    }

    /** Import the release of the batch into the slot. */
    function ImportRelease(): World
      requires Shaped()
    {
      var k, n := Current(), ctx.nextSem;
      var s := ctx.slots[k].(batch := Some(n), batchValid := true);
      SetSlot(k, s).(ctx := SetSlot(k, s).ctx.(nextSem := n + 1), gpu := gpu.Signal({n}),
                     priv := priv.(last := Released(n)))
    }

    function ImportOutput(i: nat): (w: World)
      requires Shaped() && i < ctx.outputs
      ensures w.Shaped() && w.Sized(ctx)
    {
      var k, sem := Current(), ctx.nextSem;
      var s := ctx.slots[k];
      var t := s.(outputs := s.outputs[i := s.outputs[i].(render := Some(sem))]);
      this.(ctx := ctx.(slots := ctx.slots[k := t], nextSem := sem + 1), gpu := gpu.Signal({sem}),
            order := order.Announce(i, sem))
    }

    /** Import the ready signals of the outputs that are not ready yet. */
    function ImportOutputs(fds: seq<bool>, n: nat): (w: World)
      requires Shaped() && n <= |fds| && n <= ctx.outputs
      ensures w.Shaped() && w.Sized(ctx)
    {
      if n == 0 then this
      else
        var w := ImportOutputs(fds, n - 1);
        if fds[n - 1] then w.ImportOutput(n - 1) else w
    }

    // -- Presenting --

    /** Queue the slot's completion fence, or make sure by an idle queue. */
    function Arm(answer: ArmAnswer): (w: World)
      requires Shaped()
      ensures w.Shaped() && w.Sized(ctx)
    {
      var k := Current();
      var s := ctx.slots[k];
      if s.fenceSubmitted || s.fenceFailed then this
      else if answer.submitted then
        SetSlot(k, s.(fenceSubmitted := true, armed := true)).(gpu := gpu.SubmitPassFence(k))
      else if answer.idle then SetSlot(k, s.(armed := true)).(gpu := gpu.Executed(k))
      else SetSlot(k, s.(fenceFailed := true))
    }

    /** Queue an image that waits for `sems`, and keep their owners until it comes back. */
    function QueueImage(image: nat, sems: set<Sem>): (w: World)
      requires Shaped() && image < |ctx.retained|
      ensures w.Shaped() && w.Sized(ctx)
    {
      this.(ctx := ctx.(retained := ctx.retained[image := ctx.retained[image] + sems]),
            gpu := gpu.QueuePresent(image, sems), order := order.Present(image, sems))
    }

    function Finish(resetAfter: bool, result: Result): World {
      this.(ctx := ctx.(frameIdx := ctx.frameIdx + 1, dead := result.OutOfDate?,
                        previousSignal := ctx.previousSignal && !resetAfter))
    }

    /** Arm the slot and queue the source image behind semaphore `ready`. */
    function PresentSource(e: Cycle, ready: Sem, result: Result): (w: World)
      requires Shaped() && e.image < |ctx.retained|
      ensures w.SameSizes(ctx)
    {
      Arm(e.Arming()).QueueImage(e.image, {ready}).Finish(e.resetAfter, result)
    }

    /** The image goes to frame `i`; its old presentation waits go to the slot. */
    function TakeImage(i: nat, image: nat): (w: World)
      requires Shaped() && i < ctx.outputs && image < |ctx.retained|
      ensures w.Shaped() && w.ctx.outputs == ctx.outputs
    {
      var k, n := Current(), ctx.nextSem;
      var s := ctx.slots[k];
      var t := s.(outputs := s.outputs[i := s.outputs[i].(acquire := Some(n))],
                  acquired := s.acquired + ctx.retained[image]);
      World(ctx.(slots := ctx.slots[k := t], retained := ctx.retained[image := {}], nextSem := n + 1),
            gpu.Signal({n}).Reacquire(image, k), priv, tally, order.Acquired(image, n))
    }

    /** Submit the copy of output `i` to `image`, with its fence where outputs have one. */
    function SubmitOutput(i: nat, image: nat, waits: set<Sem>, signals: set<Sem>): (w: World)
      requires Shaped() && i < ctx.outputs && image < |ctx.retained|
      ensures w.Shaped() && w.ctx == ctx.(outputSubmitted := w.ctx.outputSubmitted)
    {
      var g := gpu.Submit(Current(), waits, signals).Fill(image, GeneratedFrame(i));
      this.(ctx := ctx.(outputSubmitted := if ctx.fifo then ctx.outputSubmitted[i := true] else ctx.outputSubmitted),
            gpu := if ctx.fifo then g.SubmitOutputFence(i) else g,
            order := order.Read(i, waits).Submit(image, waits, signals))
    }

    /** The slot's semaphores for the copy of output `i`. */
    function Copied(i: nat): (w: World)
      requires Shaped() && i < ctx.outputs
      ensures w.Shaped() && w.Sized(ctx)
    {
      var s, n := ctx.slots[Current()], ctx.nextSem;
      var t := s.(outputs := s.outputs[i := s.outputs[i].(postCopy := Some(n), prevPostCopy := Some(n + 1))]);
      this.(ctx := ctx.(slots := ctx.slots[Current() := t], nextSem := n + 2))
    }

    /** Copy output `i` to its image. `waitsOutput` when its ready signal was imported this time. */
    function CopyOutput(i: nat, image: nat, waitsOutput: bool): (w: World)
      requires Shaped() && i < ctx.outputs && image < |ctx.retained|
      ensures w.Shaped() && w.ctx.outputs == ctx.outputs
    {
      var n := ctx.nextSem;
      Copied(i).SubmitOutput(i, image, OutputWaits(ctx.slots[Current()].outputs[i], waitsOutput), {n, n + 1})
    }

    /** Queue output `i` behind its own copy and the copy before it. */
    function QueueOutput(i: nat, image: nat): (w: World)
      requires Shaped() && i < ctx.outputs && image < |ctx.retained|
      requires ctx.slots[Current()].outputs[i].postCopy.Some?
      requires i > 0 ==> ctx.slots[Current()].outputs[i - 1].prevPostCopy.Some?
      ensures w.Shaped()
    {
      var os := ctx.slots[Current()].outputs;
      QueueImage(image, {os[i].postCopy.value} + (if i > 0 then {os[i - 1].prevPostCopy.value} else {}))
    }

    /** One generated frame, from acquisition to presentation. */
    function ShowFrame(i: nat, image: nat, waitsOutput: bool): (w: World)
      requires Shaped() && i < ctx.outputs && image < |ctx.retained|
      requires i > 0 ==> ctx.slots[Current()].outputs[i - 1].prevPostCopy.Some?
      ensures w.Shaped() && w.Sized(ctx) && w.ctx.slots[Current()].outputs[i].prevPostCopy.Some?
    {
      var taken := TakeImage(i, image);
      var copied := taken.CopyOutput(i, image, waitsOutput);
      assert copied.Shaped() && copied.Current() == Current() && copied.ctx.slots[Current()].outputs[i].postCopy.Some?;
      copied.QueueOutput(i, image)
    }

    /** Why no frame is shown at `i`, if none is. */
    function StopAt(e: Cycle, i: nat): (stop: Option<Stop>)
      requires i <= e.planned <= |e.frames|
      ensures stop.Some? ==> (stop.value.AllQueued? <==> i == e.planned)
      ensures stop.None? ==> i < e.planned && e.frames[i].image.Some?
    {
      if i == e.planned then Some(AllQueued)
      else if e.adaptive && !ctx.fifo && e.frames[i].late then Some(Late)
      else if e.frames[i].image.None? then Some(NoImage)
      else None
    }

    /** Frames from `i` on until one is late or gets no image; the count queued, and why it stopped. */
    function ShowFrames(e: Cycle, i: nat, fds: seq<bool>): (r: (World, nat, Stop))
      requires Shaped() && e.Fits(ctx.outputs, |ctx.retained|) && i <= e.planned <= |fds|
      requires i > 0 ==> ctx.slots[Current()].outputs[i - 1].prevPostCopy.Some?
      ensures i <= r.1 <= e.planned && (r.2.AllQueued? <==> r.1 == e.planned)
      decreases e.planned - i
    {
      var stop := StopAt(e, i);
      if stop.Some? then (this, i, stop.value)
      else
        var next := ShowFrame(i, e.frames[i].image.value, fds[i]);
        assert next.Shaped() && next.Sized(ctx) && next.Current() == Current();
        next.ShowFrames(e, i + 1, fds)
    }

    lemma {:induction false} FramesKeepShape(e: Cycle, i: nat, fds: seq<bool>)
      requires Shaped() && e.Fits(ctx.outputs, |ctx.retained|) && i <= e.planned <= |fds|
      requires i > 0 ==> ctx.slots[Current()].outputs[i - 1].prevPostCopy.Some?
      ensures var (w, q, stop) := ShowFrames(e, i, fds);
              && w.Shaped() && w.Sized(ctx)
              && (q > 0 ==> w.ctx.slots[w.Current()].outputs[q - 1].prevPostCopy.Some?)
      decreases e.planned - i
    {
      hide World.ShowFrame, World.StopAt;
      if StopAt(e, i).None? {
        ShowFrame(i, e.frames[i].image.value, fds[i]).FramesKeepShape(e, i + 1, fds);
      }
    }

    // -- One call --

    function LoseHandoff(): (w: World)
      ensures w.Sized(ctx) && (Shaped() ==> w.Shaped())
    {
      this.(ctx := ctx.(asyncHandoff := false))
    }

    /** Record how the batch of `n` outputs just submitted ends, after whatever was imported. */
    function Conclude(how: Settled, answer: BatchAnswer, losesAsync: bool, n: nat): (w: World)
      requires Shaped()
      ensures w.Shaped() && w.Sized(ctx)
    {
      var u := if losesAsync then this.(ctx := ctx.(asyncCompletion := false)) else this;
      var w := if answer.Settles(how) then u.(order := u.order.Settle(n)) else u;
      match how
      case Imported => w.Dispatch(Lost).ImportRelease()
      case Done => w.Dispatch(if answer.Finished() then Complete else Lost)
      case HostWait => w.Dispatch(if answer.waited then Complete else Lost)
    }

    /** Advance the second device's history without generating. */
    function History(e: Cycle, usesAsync: bool, ready: Sem): (r: (World, Result))
      requires Shaped() && e.Fits(ctx.outputs, |ctx.retained|)
      ensures r.0.SameSizes(ctx)
    {
      var a := e.Batching();
      var async := ctx.asyncCompletion && usesAsync;
      var how := if !async then HostWait
                 else if a.exported && a.batchFd then (if a.imported then Imported else HostWait)
                 else if a.hostFallback then Done
                 else HostWait;
      var w := Begin().Conclude(how, a, async && how.HostWait?, 0);
      var result := if how.HostWait? && !a.waited then OutOfDate else Presented;
      (w.PresentSource(e, ready, result), result)
    }

    function Dispatched(n: nat): (w: World)
      ensures w.Sized(ctx) && (Shaped() ==> w.Shaped())
    {
      Begin().(tally := tally.(dispatched := tally.dispatched + n))
    }

    function Counted(n: nat, q: nat, stop: Stop): World
      requires q <= n
    {
      this.(tally := tally.(
        accepted := tally.accepted + q,
        deadlineDrops := tally.deadlineDrops + (if stop.Late? then n - q else 0),
        wsiDrops := tally.wsiDrops + (if stop.NoImage? then n - q else 0)))
    }

    /** Show the frames that get an image in time, then the source behind the last of them. */
    function ShowAll(e: Cycle, fds: seq<bool>, ready: Sem): (r: (World, Result))
      requires Shaped() && e.Fits(ctx.outputs, |ctx.retained|) && e.planned <= |fds|
      ensures r.0.SameSizes(ctx)
    {
      FramesKeepShape(e, 0, fds);
      var (v, q, stop) := ShowFrames(e, 0, fds);
      var last := if q > 0 then v.ctx.slots[v.Current()].outputs[q - 1].prevPostCopy.value else ready;
      (v.Counted(e.planned, q, stop).PresentSource(e, last, Presented), Presented)
    }

    /** Generate frames, show those that get an image in time, then the source. */
    function Generate(e: Cycle, ready: Sem): (r: (World, Result))
      requires Shaped() && e.Fits(ctx.outputs, |ctx.retained|)
      ensures r.0.SameSizes(ctx)
    {
      var a, n := e.Batching(), e.planned;
      var imports := ctx.asyncCompletion && a.exported && |a.outputFds| == n && a.imported;
      var how := if imports then (if a.batchFd then Imported else Done)
                 else if ctx.asyncCompletion && !a.exported && a.hostFallback then Done
                 else HostWait;
      var fds := if imports then a.outputFds else seq(n, _ => false);
      var w := Dispatched(n).ImportOutputs(fds, n).Conclude(how, a, ctx.asyncCompletion && how.HostWait?, n);
      if how.HostWait? && !a.waited then
        (w.PresentSource(e, ready, OutOfDate), OutOfDate)
      else w.ShowAll(e, fds, ready)
    }

    /** Copy the source, hand it over, and go on with history or generation. */
    function HandOver(e: Cycle, historyOnly: bool): (r: (World, Result))
      requires Shaped() && e.Fits(ctx.outputs, |ctx.retained|)
      ensures r.0.SameSizes(ctx)
    {
      var usesAsync := ctx.asyncHandoff && e.Handing().created;
      var ready := ctx.nextSem;
      var w := (if ctx.asyncHandoff && !usesAsync then LoseHandoff() else this)
               .CopySource(usesAsync, e.image).Hand(!usesAsync, e.Handing().exported);
      if usesAsync && !e.Handing().exported then (w.LoseHandoff().PresentSource(e, ready, OutOfDate), OutOfDate)
      else if historyOnly then w.History(e, usesAsync, ready)
      else w.Generate(e, ready)
    }

    /** Nothing but the source, because the slot is still in use. */
    function PassThrough(image: nat, taken: bool): (r: (World, Result))
      requires Shaped() && image < |ctx.retained|
      ensures r.0.SameSizes(ctx)
    {
      if taken then
        (this.(gpu := gpu.QueuePresent(image, {}), order := order.Present(image, {})).ResetEpoch(true), Presented)
      else (this, Refused)
    }

    function Call(e: Cycle): (r: (World, Result))
      requires Shaped() && e.Fits(ctx.outputs, |ctx.retained|)
      ensures r.0.SameSizes(ctx)
    {
      var (w, free) := Release(e.image).Recycle(Current(), e.fence);
      if !free then w.PassThrough(e.image, e.SourceTaken())
      else
        var v := w.ResetEpoch(e.resetBefore);
        var (u, retired) := if ctx.fifo && e.planned > 0 && !e.warmup then v.RetireOutputs(e.planned, e.outputChecks)
                            else (v, true);
        u.HandOver(e, e.warmup || e.planned == 0 || !retired)
    }
  }

  datatype Settled = Imported | Done | HostWait

  datatype Stop = AllQueued | Late | NoImage

  /** A context nothing has been presented with. */
  function Fresh(outputs: nat, images: nat, fifo: bool, asyncHandoff: bool, asyncCompletion: bool): World {
    var n := if fifo then outputs else 0;
    World(Context(0, seq(RING, _ => NewSlot(outputs)), seq(images, _ => {}), false, seq(n, _ => false),
                  outputs, asyncHandoff, asyncCompletion, fifo, false, 0),
          Gpu(seq(RING, _ => Free), seq(n, _ => Free), seq(RING, _ => {}), seq(RING, _ => {}), seq(images, _ => {}),
              {}, {}, seq(images, _ => SourceFrame), [], false),
          Private(0, Complete, false), Tally(0, 0, 0, 0),
          Order(0, map[], seq(images, _ => 0), seq(images, _ => None), false, map[], false))
  }
}
