/**
  The rolling output rate. Samples go into a ring of 128; the rate is read from the newest ones,
  just as many as cover 0.40 s, and a deficit or a satisfied target is confirmed only by sustained
  evidence.
*/
module OutputCadence {
  import opened Numbers

  const CAPACITY := 128
  const WINDOW := 0.40
  const MINIMUM_COVERAGE := 0.25
  const STALE := 0.250
  const EVIDENCE_CAP := 0.050
  const DEFICIT_CONFIRM := 0.30
  const SATISFIED_CONFIRM := 0.50
  const DEFICIT_RATIO := 0.97
  const SATISFIED_RATIO := 0.985

  datatype Sample = Sample(seconds: real, frames: nat)

  datatype Snapshot = Snapshot(
    valid: bool, targeted: bool, fps: real, coverage: real, deficitConfirmed: bool, satisfiedConfirmed: bool)

  datatype Sum = Sum(seconds: real, frames: nat)

  /** Newest first from `offset` on, while the window is not covered. */
  function Scan(samples: seq<Sample>, offset: nat, sum: Sum): Sum
    decreases |samples| - offset
  {
    if offset >= Min(|samples|, CAPACITY) || sum.seconds >= WINDOW then sum
    else
      var s := samples[|samples| - 1 - offset];
      Scan(samples, offset + 1, Sum(sum.seconds + s.seconds, sum.frames + s.frames))
  }

  datatype Kind = Low | Between | Good | Unknown

  /** All samples since the window was last cleared, and the evidence gathered from them. */
  datatype Cadence = Cadence(
    samples: seq<Sample>, targeted: bool, targetFps: nat, deficit: real, satisfied: real, snapshot: Snapshot)
  {
    function Cleared(): Cadence {
      Cadence([], targeted, targetFps, 0.0, 0.0, Snapshot(false, targeted, 0.0, 0.0, false, !targeted))
    }

    function Reset(): Cadence { this.(targeted := false, targetFps := 0).Cleared() }

    function Configure(newTargeted: bool, newFps: nat): Cadence {
      if targeted == newTargeted && targetFps == newFps then this
      else
        var r := Reset();
        r.(targeted := newTargeted, targetFps := newFps,
           snapshot := r.snapshot.(targeted := newTargeted,
                                   satisfiedConfirmed := !newTargeted || r.snapshot.satisfiedConfirmed))
    }

    /** What the window says about the target. */
    function Judge(sum: Sum): Kind {
      if !(sum.seconds >= MINIMUM_COVERAGE && sum.frames > 0) || targetFps == 0 then Unknown
      else
        var fps := sum.frames as real / sum.seconds;
        if fps < targetFps as real * DEFICIT_RATIO then Low
        else if fps >= targetFps as real * SATISFIED_RATIO then Good
        else Between
    }

    function Rebuilt(evidence: real): Cadence {
      var sum := Scan(samples, 0, Sum(0.0, 0));
      var valid := sum.seconds >= MINIMUM_COVERAGE && sum.frames > 0;
      var fps := if valid then sum.frames as real / sum.seconds else 0.0;
      var kind := Judge(sum);
      var d := if !targeted || kind.Unknown? then deficit else if kind.Low? then deficit + evidence else 0.0;
      var s := if !targeted || kind.Unknown? then satisfied else if kind.Good? then satisfied + evidence else 0.0;
      this.(deficit := d, satisfied := s,
            snapshot := Snapshot(valid, targeted, fps, sum.seconds,
                                 targeted && !kind.Unknown? && d >= DEFICIT_CONFIRM,
                                 !targeted || (!kind.Unknown? && s >= SATISFIED_CONFIRM)))
    }

    function Observe(seconds: real, sourceFrames: nat, generatedFrames: nat): Cadence {
      if !(seconds > 0.0) then this
      else if seconds >= STALE then Cleared()
      else
        this.(samples := samples + [Sample(seconds, sourceFrames + generatedFrames)])
          .Rebuilt(Least(seconds, EVIDENCE_CAP))
    }
  }

  const FRESH := Cadence([], false, 0, 0.0, 0.0, Snapshot(false, false, 0.0, 0.0, false, false))

  // ---- Which samples the rate is read from ----

  function Total(samples: seq<Sample>): Sum {
    if samples == [] then Sum(0.0, 0)
    else
      var rest := Total(samples[1..]);
      Sum(samples[0].seconds + rest.seconds, samples[0].frames + rest.frames)
  }

  /** The shortest suffix that covers the window, or the last 128 samples if none does. */
  predicate IsWindow(samples: seq<Sample>, k: nat) {
    && k <= Min(|samples|, CAPACITY)
    && (Total(samples[|samples| - k..]).seconds >= WINDOW || k == Min(|samples|, CAPACITY))
    && (k > 0 ==> Total(samples[|samples| - k + 1..]).seconds < WINDOW)
  }

  lemma TotalGrows(samples: seq<Sample>, offset: nat)
    requires offset < |samples|
    ensures var s, sum := samples[|samples| - 1 - offset], Total(samples[|samples| - offset..]);
            Total(samples[|samples| - (offset + 1)..]) == Sum(sum.seconds + s.seconds, sum.frames + s.frames)
  {
    var longer := samples[|samples| - (offset + 1)..];
    assert longer[1..] == samples[|samples| - offset..];
  }

  lemma {:induction false} ScanFindsWindow(samples: seq<Sample>, offset: nat) returns (k: nat)
    requires offset <= Min(|samples|, CAPACITY)
    requires offset > 0 ==> Total(samples[|samples| - offset + 1..]).seconds < WINDOW
    ensures offset <= k && IsWindow(samples, k)
    ensures Scan(samples, offset, Total(samples[|samples| - offset..])) == Total(samples[|samples| - k..])
    decreases |samples| - offset
  {
    hide Total;
    var sum := Total(samples[|samples| - offset..]);
    if offset == Min(|samples|, CAPACITY) || sum.seconds >= WINDOW {
      k := offset;
    } else {
      TotalGrows(samples, offset);
      k := ScanFindsWindow(samples, offset + 1);
    }
  }

  /** The scan sums exactly the shortest suffix of the last 128 samples that covers 0.40 s. */
  lemma ScanIsShortestWindow(samples: seq<Sample>)
    ensures exists k :: IsWindow(samples, k) && Scan(samples, 0, Sum(0.0, 0)) == Total(samples[|samples| - k..])
  {
    assert samples[|samples|..] == [];
    var k := ScanFindsWindow(samples, 0);
    assert IsWindow(samples, k);
  }

  // ---- Evidence over a run ----

  datatype Event =
    | Configured(targeted: bool, fps: nat)
    | Observed(seconds: real, sourceFrames: nat, generatedFrames: nat)
    | TransitionBegan
    | WasReset

  function Step(c: Cadence, e: Event): Cadence {
    match e
    case Configured(targeted, fps) => c.Configure(targeted, fps)
    case Observed(seconds, sourceFrames, generatedFrames) => c.Observe(seconds, sourceFrames, generatedFrames)
    case TransitionBegan => c.Cleared()
    case WasReset => c.Reset()
  }

  function After(c: Cadence, run: seq<Event>): Cadence
    decreases |run|
  {
    if run == [] then c else After(Step(c, run[0]), run[1..])
  }

  /** How each window since the last clear was judged. */
  function Kinds(c: Cadence, kinds: seq<Kind>, e: Event): seq<Kind> {
    var next := Step(c, e);
    if next.samples == [] then []
    else if next.samples == c.samples then kinds
    else kinds + [if c.targeted then next.Judge(Scan(next.samples, 0, Sum(0.0, 0))) else Unknown]
  }

  function AllKinds(c: Cadence, kinds: seq<Kind>, run: seq<Event>): seq<Kind>
    decreases |run|
  {
    if run == [] then kinds else AllKinds(Step(c, run[0]), Kinds(c, kinds, run[0]), run[1..])
  }

  /** How many judgements of one kind stand at the end, with none of another in between. */
  function Streak(kinds: seq<Kind>, kind: Kind): nat {
    if kinds == [] then 0
    else
      var last, before := kinds[|kinds| - 1], kinds[..|kinds| - 1];
      if last == kind then Streak(before, kind) + 1
      else if last.Unknown? then Streak(before, kind)
      else 0
  }

  predicate Supported(c: Cadence, kinds: seq<Kind>) {
    && 0.0 <= c.deficit <= Streak(kinds, Low) as real * EVIDENCE_CAP
    && 0.0 <= c.satisfied <= Streak(kinds, Good) as real * EVIDENCE_CAP
    && (c.deficit == 0.0 || c.satisfied == 0.0)
    && (c.samples == [] ==> c.deficit == 0.0 && c.satisfied == 0.0)
    && (c.snapshot.deficitConfirmed ==> c.targeted && c.deficit >= DEFICIT_CONFIRM && !c.snapshot.satisfiedConfirmed)
    && (c.targeted && c.snapshot.satisfiedConfirmed ==> c.satisfied >= SATISFIED_CONFIRM || c.samples == [])
    && c.snapshot.targeted == c.targeted
  }

  lemma StreakAppends(kinds: seq<Kind>, last: Kind, kind: Kind)
    ensures Streak(kinds + [last], kind)
            == if last == kind then Streak(kinds, kind) + 1
               else if last.Unknown? then Streak(kinds, kind)
               else 0
  {
    assert (kinds + [last])[..|kinds|] == kinds;
  }

  lemma StepSupported(c: Cadence, kinds: seq<Kind>, e: Event)
    requires Supported(c, kinds)
    ensures Supported(Step(c, e), Kinds(c, kinds, e))
  {
    hide Scan;
    match e {
      case Observed(seconds, sourceFrames, generatedFrames) =>
        if 0.0 < seconds < STALE {
          var longer := c.samples + [Sample(seconds, sourceFrames + generatedFrames)];
          assert |longer| == |c.samples| + 1;
          var last := if c.targeted then c.(samples := longer).Judge(Scan(longer, 0, Sum(0.0, 0))) else Unknown;
          StreakAppends(kinds, last, Low);
          StreakAppends(kinds, last, Good);
        }
      case _ =>
    }
  }

  lemma {:induction false} RunSupported(c: Cadence, kinds: seq<Kind>, run: seq<Event>)
    requires Supported(c, kinds)
    ensures Supported(After(c, run), AllKinds(c, kinds, run))
    decreases |run|
  {
    hide Step, Kinds, Supported;
    if run != [] {
      StepSupported(c, kinds, run[0]);
      RunSupported(Step(c, run[0]), Kinds(c, kinds, run[0]), run[1..]);
    }
  }

  /** A confirmed deficit rests on at least six windows in a row below 97 % of the target. */
  lemma DeficitNeedsSix(run: seq<Event>)
    ensures var c := After(FRESH, run);
            && !(c.snapshot.deficitConfirmed && c.snapshot.satisfiedConfirmed)
            && (c.snapshot.deficitConfirmed ==> Streak(AllKinds(FRESH, [], run), Low) >= 6)
  {
    RunSupported(FRESH, [], run);
  }

  /** Whether no counting sample, stale sample or transition followed the last configuration that changed something. */
  function Untouched(c: Cadence, untouched: bool, e: Event): bool {
    match e
    case Configured(targeted, fps) => untouched || c.targeted != targeted || c.targetFps != fps
    case Observed(seconds, _, _) => untouched && !(seconds > 0.0)
    case TransitionBegan => false
    case WasReset => false
  }

  function StaysUntouched(c: Cadence, untouched: bool, run: seq<Event>): bool
    decreases |run|
  {
    if run == [] then untouched else StaysUntouched(Step(c, run[0]), Untouched(c, untouched, run[0]), run[1..])
  }

  /** An untouched target counts as satisfied; any other satisfaction rests on evidence. */
  predicate Earned(c: Cadence, kinds: seq<Kind>, untouched: bool) {
    && Supported(c, kinds)
    && (untouched ==> c.samples == [] && kinds == [] && c.snapshot.satisfiedConfirmed)
    && (c.targeted && !untouched && c.snapshot.satisfiedConfirmed ==> c.satisfied >= SATISFIED_CONFIRM)
  }

  lemma StepEarned(c: Cadence, kinds: seq<Kind>, untouched: bool, e: Event)
    requires Earned(c, kinds, untouched)
    ensures Earned(Step(c, e), Kinds(c, kinds, e), Untouched(c, untouched, e))
  {
    hide Scan, Streak;
    StepSupported(c, kinds, e);
  }

  lemma {:induction false} RunEarned(c: Cadence, kinds: seq<Kind>, untouched: bool, run: seq<Event>)
    requires Earned(c, kinds, untouched)
    ensures Earned(After(c, run), AllKinds(c, kinds, run), StaysUntouched(c, untouched, run))
    decreases |run|
  {
    hide Step, Kinds, Untouched, Earned;
    if run != [] {
      StepEarned(c, kinds, untouched, run[0]);
      RunEarned(Step(c, run[0]), Kinds(c, kinds, run[0]), Untouched(c, untouched, run[0]), run[1..]);
    }
  }

  /**
    Over every run, a target is confirmed as satisfied without ten good windows in a row to rest on
    if and only if nothing has been heard and no transition has begun since it was configured.
  */
  lemma UnearnedIffUntouched(run: seq<Event>)
    ensures var c := After(FRESH, run);
            c.targeted ==>
              (c.snapshot.satisfiedConfirmed && Streak(AllKinds(FRESH, [], run), Good) < 10
               <==> StaysUntouched(FRESH, false, run))
  {
    RunEarned(FRESH, [], false, run);
  }

  /** In particular a satisfied target with samples rests on at least ten good windows in a row. */
  lemma SatisfiedNeedsTen(run: seq<Event>)
    ensures var c := After(FRESH, run);
            c.targeted && c.snapshot.satisfiedConfirmed && c.samples != [] ==>
              Streak(AllKinds(FRESH, [], run), Good) >= 10
  {
    RunEarned(FRESH, [], false, run);
  }

  /** And configuring a new target leaves it so, whatever was heard before. */
  lemma ConfiguredCountsAsSatisfied(run: seq<Event>, fps: nat)
    requires var c := After(FRESH, run); !c.targeted || c.targetFps != fps
    ensures var (c, more) := (After(FRESH, run + [Configured(true, fps)]), run + [Configured(true, fps)]);
            c.targeted && c.snapshot.satisfiedConfirmed && c.samples == [] && StaysUntouched(FRESH, false, more)
  {
    AfterOneMore(FRESH, false, run, Configured(true, fps));
  }

  lemma {:induction false} AfterOneMore(c: Cadence, untouched: bool, run: seq<Event>, e: Event)
    ensures After(c, run + [e]) == Step(After(c, run), e)
    ensures StaysUntouched(c, untouched, run + [e]) == Untouched(After(c, run), StaysUntouched(c, untouched, run), e)
    decreases |run|
  {
    hide Step, Untouched;
    if run == [] {
      assert ([] + [e])[1..] == [];
    } else {
      assert (run + [e])[1..] == run[1..] + [e];
      AfterOneMore(Step(c, run[0]), Untouched(c, untouched, run[0]), run[1..], e);
    }
  }

  // ---- The ring ----

  /** Where the sample `offset` places before the newest one is kept. */
  function Slot(next: nat, offset: nat): (index: nat)
    requires next < CAPACITY && offset < CAPACITY
    ensures index < CAPACITY
  {
    (next + CAPACITY - 1 - offset) % CAPACITY
  }

  predicate Mirrors(ring: seq<Sample>, next: nat, history: seq<Sample>)
    requires |ring| == CAPACITY && next < CAPACITY
  {
    forall offset :: 0 <= offset < Min(|history|, CAPACITY) ==>
      ring[Slot(next, offset)] == history[|history| - 1 - offset]
  }

  /** After a push the newest sample is at the old cursor and the others have moved one back. */
  lemma SlotMoves(next: nat, offset: nat)
    requires next < CAPACITY && offset < CAPACITY
    ensures var moved := Slot((next + 1) % CAPACITY, offset);
            if offset == 0 then moved == next else moved == Slot(next, offset - 1) && moved != next
  {
  }

  lemma PushMirrors(ring: seq<Sample>, next: nat, history: seq<Sample>, sample: Sample)
    requires |ring| == CAPACITY && next < CAPACITY && Mirrors(ring, next, history)
    ensures Mirrors(ring[next := sample], (next + 1) % CAPACITY, history + [sample])
  {
    hide Slot;
    var pushed, after, longer := ring[next := sample], (next + 1) % CAPACITY, history + [sample];
    forall offset | 0 <= offset < Min(|longer|, CAPACITY)
      ensures pushed[Slot(after, offset)] == longer[|longer| - 1 - offset]
    {
      SlotMoves(next, offset);
      if offset > 0 {
        assert ring[Slot(next, offset - 1)] == history[|history| - 1 - (offset - 1)];
      }
    }
  }

  // ---- The object ----

  class LsfgOutputCadenceTracker {
    const samples: array<Sample>
    var sampleCount: nat
    var nextSample: nat
    var targeted: bool
    var targetFps: nat
    var deficitSeconds: real
    var satisfiedSeconds: real
    var snapshot: Snapshot
    ghost var history: seq<Sample>

    /** The ring holds the newest samples of the history, and its cursor is the next one to write. */
    ghost predicate Valid()
      reads this, samples
    {
      && samples.Length == CAPACITY && nextSample < CAPACITY
      && sampleCount == Min(|history|, CAPACITY)
      && Mirrors(samples[..], nextSample, history)
    }

    ghost function State(): Cadence
      reads this
    {
      Cadence(history, targeted, targetFps, deficitSeconds, satisfiedSeconds, snapshot)
    }

    constructor ()
      ensures Valid() && fresh(samples) && State() == FRESH
    {
      samples := new Sample[CAPACITY](_ => Sample(0.0, 0));
      sampleCount, nextSample, targeted, targetFps := 0, 0, false, 0;
      deficitSeconds, satisfiedSeconds := 0.0, 0.0;
      snapshot := Snapshot(false, false, 0.0, 0.0, false, false);
      history := [];
    }

    method ClearWindow()
      requires Valid()
      modifies this
      ensures Valid() && State() == old(State()).Cleared()
    {
      sampleCount, nextSample, deficitSeconds, satisfiedSeconds := 0, 0, 0.0, 0.0;
      snapshot := Snapshot(false, targeted, 0.0, 0.0, false, false);
      if !targeted {
        snapshot := snapshot.(satisfiedConfirmed := true);
      }
      history := [];
    }

    method BeginTransition()
      requires Valid()
      modifies this
      ensures Valid() && State() == old(State()).Cleared()
    {
      ClearWindow();
    }

    method Reset()
      requires Valid()
      modifies this
      ensures Valid() && State() == old(State()).Reset()
    {
      targeted, targetFps := false, 0;
      ClearWindow();
    }

    method Configure(newTargeted: bool, newFps: nat)
      requires Valid()
      modifies this
      ensures Valid() && State() == old(State()).Configure(newTargeted, newFps)
    {
      if targeted == newTargeted && targetFps == newFps {
        return;
      }
      Reset();
      targeted, targetFps := newTargeted, newFps;
      snapshot := snapshot.(targeted := targeted);
      if !targeted {
        snapshot := snapshot.(satisfiedConfirmed := true);
      }
    }

    /** The ring scan sees what a scan of the whole history sees. */
    method RebuildSnapshot(evidence: real)
      requires Valid()
      modifies this
      ensures Valid() && State() == old(State()).Rebuilt(evidence)
    {
      hide Slot;
      var seconds, frames: nat := 0.0, 0;
      var offset := 0;
      while offset < sampleCount && seconds < WINDOW
        invariant 0 <= offset <= sampleCount
        invariant Scan(history, 0, Sum(0.0, 0)) == Scan(history, offset, Sum(seconds, frames))
      {
        var index := Slot(nextSample, offset);
        assert samples[..][index] == history[|history| - 1 - offset];
        seconds := seconds + samples[index].seconds;
        frames := frames + samples[index].frames;
        offset := offset + 1;
      }
      var valid := seconds >= MINIMUM_COVERAGE && frames > 0;
      var fps := if valid then frames as real / seconds else 0.0;
      snapshot := snapshot.(targeted := targeted, coverage := seconds, valid := valid, fps := fps);
      if !targeted {
        snapshot := snapshot.(deficitConfirmed := false, satisfiedConfirmed := true);
        return;
      }
      if !valid || targetFps == 0 {
        snapshot := snapshot.(deficitConfirmed := false, satisfiedConfirmed := false);
        return;
      }
      if fps < targetFps as real * DEFICIT_RATIO {
        deficitSeconds, satisfiedSeconds := deficitSeconds + evidence, 0.0;
      } else if fps >= targetFps as real * SATISFIED_RATIO {
        deficitSeconds, satisfiedSeconds := 0.0, satisfiedSeconds + evidence;
      } else {
        deficitSeconds, satisfiedSeconds := 0.0, 0.0;
      }
      snapshot := snapshot.(deficitConfirmed := deficitSeconds >= DEFICIT_CONFIRM,
                            satisfiedConfirmed := satisfiedSeconds >= SATISFIED_CONFIRM);
    }

    method Push(sample: Sample)
      requires Valid()
      modifies this`history, this`nextSample, this`sampleCount, samples
      ensures Valid() && history == old(history) + [sample]
    {
      PushMirrors(samples[..], nextSample, history, sample);
      ghost var ring := samples[..][nextSample := sample];
      samples[nextSample] := sample;
      assert samples[..] == ring;
      nextSample := (nextSample + 1) % CAPACITY;
      sampleCount := Min(sampleCount + 1, CAPACITY);
      history := history + [sample];
    }

    method Observe(seconds: real, sourceFrames: nat, generatedFrames: nat)
      requires Valid()
      modifies this, samples
      ensures Valid() && State() == old(State()).Observe(seconds, sourceFrames, generatedFrames)
    {
      if !(seconds > 0.0) {
        return;
      }
      if seconds >= STALE {
        ClearWindow();
        return;
      }
      Push(Sample(seconds, sourceFrames + generatedFrames));
      RebuildSnapshot(Least(seconds, EVIDENCE_CAP));
    }
  }
}
