/** What the rolling output rate says about an output that is slow or fast enough throughout. */
module OutputRates {
  import opened Numbers
  import opened OutputCadence

  /** The window the rate is read from. */
  lemma WindowOf(samples: seq<Sample>) returns (k: nat)
    ensures k <= |samples| && IsWindow(samples, k) && Scan(samples, 0, Sum(0.0, 0)) == Total(samples[|samples| - k..])
  {
    hide Scan, Total;
    ScanIsShortestWindow(samples);
    k :| IsWindow(samples, k) && Scan(samples, 0, Sum(0.0, 0)) == Total(samples[|samples| - k..]);
  }

  /**
    What is reported is the rate of the shortest suffix that covers the window: times the time it was
    read from, it is the number of frames in that time.
  */
  lemma ReportedRate(c: Cadence, seconds: real, sourceFrames: nat, generatedFrames: nat) returns (k: nat)
    requires 0.0 < seconds < 0.25
    ensures var d := c.Observe(seconds, sourceFrames, generatedFrames);
            && d.samples == c.samples + [Sample(seconds, sourceFrames + generatedFrames)]
            && k <= |d.samples| && IsWindow(d.samples, k) && IsRateOf(d.snapshot, Total(d.samples[|d.samples| - k..]))
  {
    hide Scan, IsWindow, Total;
    var longer := c.samples + [Sample(seconds, sourceFrames + generatedFrames)];
    k := WindowOf(longer);
    var sum := Total(longer[|longer| - k..]);
    RateTimes(sum.frames as real, sum.seconds);
  }

  /** From a quarter of a second with a frame in it on, the rate is valid. */
  predicate IsRateOf(s: Snapshot, window: Sum) {
    && s.coverage == window.seconds && (s.valid <==> window.seconds >= 0.25 && window.frames > 0)
    && s.fps * s.coverage == if s.valid then window.frames as real else 0.0
  }

  lemma RateTimes(frames: real, seconds: real)
    ensures seconds > 0.0 ==> frames / seconds * seconds == frames
    ensures 0.0 * seconds == 0.0
  {
  }

  // ---- Slow and fast throughout ----

  /** A sample of 1/512 s to 50 ms with at least one frame. */
  predicate Counts(s: Sample) { 0.001953125 <= s.seconds <= 0.05 && s.frames > 0 }

  /** Fewer frames than 0.97 of the target, in the time of the sample. */
  predicate Slow(s: Sample, fps: nat) { Counts(s) && s.frames as real < 0.97 * fps as real * s.seconds }

  /** At least 0.985 of the target. */
  predicate Fast(s: Sample, fps: nat) { Counts(s) && s.frames as real >= 0.985 * fps as real * s.seconds }

  predicate AllSlow(samples: seq<Sample>, fps: nat) { forall k :: 0 <= k < |samples| ==> Slow(samples[k], fps) }

  predicate AllFast(samples: seq<Sample>, fps: nat) { forall k :: 0 <= k < |samples| ==> Fast(samples[k], fps) }

  predicate AllCount(samples: seq<Sample>) { forall k :: 0 <= k < |samples| ==> Counts(samples[k]) }

  lemma {:induction false} TotalCounts(samples: seq<Sample>)
    requires AllCount(samples)
    ensures Total(samples).seconds >= 0.001953125 * |samples| as real && (samples != [] ==> Total(samples).frames > 0)
  {
    if samples != [] {
      assert Counts(samples[0]);
      TotalCounts(samples[1..]);
    }
  }

  lemma {:induction false} TotalSlow(samples: seq<Sample>, fps: nat)
    requires AllSlow(samples, fps) && samples != []
    ensures Total(samples).frames as real < 0.97 * fps as real * Total(samples).seconds
  {
    assert Slow(samples[0], fps);
    if |samples| > 1 {
      TotalSlow(samples[1..], fps);
      Distributes(0.97 * fps as real, samples[0].seconds, Total(samples[1..]).seconds);
    } else {
      assert samples[1..] == [];
    }
  }

  lemma {:induction false} TotalFast(samples: seq<Sample>, fps: nat)
    requires AllFast(samples, fps)
    ensures Total(samples).frames as real >= 0.985 * fps as real * Total(samples).seconds
  {
    if samples != [] {
      assert Fast(samples[0], fps);
      TotalFast(samples[1..], fps);
      Distributes(0.985 * fps as real, samples[0].seconds, Total(samples[1..]).seconds);
    }
  }

  lemma Distributes(k: real, a: real, b: real)
    ensures k * (a + b) == k * a + k * b
  {
  }

  lemma {:induction false} TotalAppend(a: seq<Sample>, b: seq<Sample>)
    ensures Total(a + b) == Sum(Total(a).seconds + Total(b).seconds, Total(a).frames + Total(b).frames)
  {
    if a == [] {
      assert a + b == b;
    } else {
      assert (a + b)[1..] == a[1..] + b;
      TotalAppend(a[1..], b);
    }
  }

  lemma TotalOne(s: Sample)
    ensures Total([s]) == Sum(s.seconds, s.frames)
  {
    assert [s][1..] == [];
  }

  /** Samples long enough fill the window as soon as they cover a quarter of a second. */
  lemma WindowCovers(samples: seq<Sample>, k: nat)
    requires IsWindow(samples, k) && AllCount(samples) && Total(samples).seconds >= 0.25
    ensures 0 < k <= |samples| && Total(samples[|samples| - k..]).seconds >= 0.25
  {
    hide Total, Counts;
    var window := samples[|samples| - k..];
    assert AllCount(window);
    TotalCounts(window);
    NothingTotal();
    assert samples[|samples|..] == [] && samples[0..] == samples;
  }

  lemma NothingTotal()
    ensures Total([]) == Sum(0.0, 0)
  {
  }

  lemma Compares(frames: real, seconds: real, rate: real)
    requires seconds > 0.0
    ensures frames / seconds < rate <==> frames < rate * seconds
    ensures frames / seconds >= rate <==> frames >= rate * seconds
  {
    var q := frames / seconds;
    assert q * seconds == frames;
    Cancels(q, rate, seconds);
  }

  lemma Cancels(a: real, b: real, k: real)
    requires k > 0.0
    ensures a < b <==> a * k < b * k
  {
    if a < b {
      assert (b - a) * k > 0.0;
    } else {
      assert (a - b) * k >= 0.0;
    }
  }

  /** A window of slow samples is judged low, whichever it is. */
  lemma SlowJudged(c: Cadence, k: nat)
    requires IsWindow(c.samples, k) && AllSlow(c.samples, c.targetFps) && Total(c.samples).seconds >= 0.25
    requires c.targetFps > 0 && k <= |c.samples|
    ensures c.Judge(Total(c.samples[|c.samples| - k..])).Low?
  {
    hide Total, Counts, IsWindow;
    var window, fps := c.samples[|c.samples| - k..], c.targetFps;
    assert forall j :: 0 <= j < |c.samples| ==> Slow(c.samples[j], fps);
    WindowCovers(c.samples, k);
    assert AllCount(window) && AllSlow(window, fps);
    TotalCounts(window);
    TotalSlow(window, fps);
    Compares(Total(window).frames as real, Total(window).seconds, fps as real * 0.97);
  }

  lemma FastJudged(c: Cadence, k: nat)
    requires IsWindow(c.samples, k) && AllFast(c.samples, c.targetFps) && Total(c.samples).seconds >= 0.25
    requires c.targetFps > 0 && k <= |c.samples|
    ensures c.Judge(Total(c.samples[|c.samples| - k..])).Good?
  {
    hide Total, Counts, IsWindow;
    var window, fps := c.samples[|c.samples| - k..], c.targetFps;
    assert forall j :: 0 <= j < |c.samples| ==> Fast(c.samples[j], fps);
    WindowCovers(c.samples, k);
    assert AllCount(window) && AllFast(window, fps);
    TotalCounts(window);
    TotalFast(window, fps);
    var sum := Total(window);
    Compares(sum.frames as real, sum.seconds, fps as real * 0.985);
    Compares(sum.frames as real, sum.seconds, fps as real * 0.97);
    Cancels(fps as real * 0.97, fps as real * 0.985, sum.seconds);
  }

  /** Evidence so far: all time heard, but for the quarter second before the first judgement. */
  predicate Slowly(c: Cadence, fps: nat) {
    && c.targeted && c.targetFps == fps > 0 && AllSlow(c.samples, fps)
    && c.deficit >= 0.0 && c.deficit >= Total(c.samples).seconds - 0.25
    && (Total(c.samples).seconds >= 0.55 ==> c.snapshot.deficitConfirmed && !c.snapshot.satisfiedConfirmed)
  }

  predicate Swiftly(c: Cadence, fps: nat) {
    && c.targeted && c.targetFps == fps > 0 && AllFast(c.samples, fps)
    && c.satisfied >= 0.0 && c.satisfied >= Total(c.samples).seconds - 0.25
    && (Total(c.samples).seconds >= 0.75 ==> c.snapshot.satisfiedConfirmed && !c.snapshot.deficitConfirmed)
  }

  lemma SlowStep(c: Cadence, fps: nat, seconds: real, source: nat, generated: nat)
    requires Slowly(c, fps) && Slow(Sample(seconds, source + generated), fps)
    ensures Slowly(c.Observe(seconds, source, generated), fps)
    ensures c.Observe(seconds, source, generated).samples == c.samples + [Sample(seconds, source + generated)]
  {
    hide Scan, IsWindow, Total;
    var s := Sample(seconds, source + generated);
    var d := c.(samples := c.samples + [s]);
    TotalAppend(c.samples, [s]);
    TotalOne(s);
    if Total(d.samples).seconds >= 0.25 {
      var k := WindowOf(d.samples);
      SlowJudged(d, k);
    }
  }

  lemma FastStep(c: Cadence, fps: nat, seconds: real, source: nat, generated: nat)
    requires Swiftly(c, fps) && Fast(Sample(seconds, source + generated), fps)
    ensures Swiftly(c.Observe(seconds, source, generated), fps)
    ensures c.Observe(seconds, source, generated).samples == c.samples + [Sample(seconds, source + generated)]
  {
    hide Scan, IsWindow, Total;
    var s := Sample(seconds, source + generated);
    var d := c.(samples := c.samples + [s]);
    TotalAppend(c.samples, [s]);
    TotalOne(s);
    if Total(d.samples).seconds >= 0.25 {
      var k := WindowOf(d.samples);
      FastJudged(d, k);
    }
  }

  /** The events that report these samples. */
  predicate Reports(run: seq<Event>, samples: seq<Sample>) {
    && |run| == |samples|
    && forall k :: 0 <= k < |run| ==>
         run[k].Observed? && samples[k] == Sample(run[k].seconds, run[k].sourceFrames + run[k].generatedFrames)
  }

  lemma {:induction false} SlowRuns(c: Cadence, fps: nat, run: seq<Event>, samples: seq<Sample>)
    requires Slowly(c, fps) && Reports(run, samples) && AllSlow(samples, fps)
    ensures Slowly(After(c, run), fps) && After(c, run).samples == c.samples + samples
    decreases |run|
  {
    hide Slowly, Slow, Cadence.Observe;
    if run != [] {
      assert Slow(samples[0], fps);
      SlowStep(c, fps, run[0].seconds, run[0].sourceFrames, run[0].generatedFrames);
      SlowRuns(Step(c, run[0]), fps, run[1..], samples[1..]);
      assert samples == [samples[0]] + samples[1..];
    }
  }

  lemma {:induction false} FastRuns(c: Cadence, fps: nat, run: seq<Event>, samples: seq<Sample>)
    requires Swiftly(c, fps) && Reports(run, samples) && AllFast(samples, fps)
    ensures Swiftly(After(c, run), fps) && After(c, run).samples == c.samples + samples
    decreases |run|
  {
    hide Swiftly, Fast, Cadence.Observe;
    if run != [] {
      assert Fast(samples[0], fps);
      FastStep(c, fps, run[0].seconds, run[0].sourceFrames, run[0].generatedFrames);
      FastRuns(Step(c, run[0]), fps, run[1..], samples[1..]);
      assert samples == [samples[0]] + samples[1..];
    }
  }

  /** A window as a transition or a change of target leaves it, with a target. */
  predicate Cleared(c: Cadence, fps: nat) {
    c.targeted && c.targetFps == fps > 0 && c.samples == [] && c.deficit == 0.0 && c.satisfied == 0.0
  }

  /**
    An output that misses its target throughout is found out: 0.55 s of samples below 0.97 of the
    target confirm a deficit, whatever their lengths.
  */
  lemma SlowOutputIsDeficit(c: Cadence, fps: nat, run: seq<Event>, samples: seq<Sample>)
    requires Cleared(c, fps) && Reports(run, samples) && AllSlow(samples, fps) && Total(samples).seconds >= 0.55
    ensures After(c, run).snapshot.deficitConfirmed && !After(c, run).snapshot.satisfiedConfirmed
  {
    hide Slow, Cadence.Observe;
    NothingTotal();
    SlowRuns(c, fps, run, samples);
    assert c.samples + samples == samples;
  }

  /** And one that meets it throughout is confirmed as satisfied after 0.75 s. */
  lemma FastOutputIsSatisfied(c: Cadence, fps: nat, run: seq<Event>, samples: seq<Sample>)
    requires Cleared(c, fps) && Reports(run, samples) && AllFast(samples, fps) && Total(samples).seconds >= 0.75
    ensures After(c, run).snapshot.satisfiedConfirmed && !After(c, run).snapshot.deficitConfirmed
  {
    hide Fast, Cadence.Observe;
    NothingTotal();
    FastRuns(c, fps, run, samples);
    assert c.samples + samples == samples;
  }

  // ---- What is never seen ----

  /** Without a frame, or so short that 128 of them do not cover a quarter of a second. */
  predicate AllSilent(samples: seq<Sample>) { forall k :: 0 <= k < |samples| ==> samples[k].frames == 0 }

  predicate AllHasty(samples: seq<Sample>) { forall k :: 0 <= k < |samples| ==> samples[k].seconds < 0.001953125 }

  lemma {:induction false} TotalSilent(samples: seq<Sample>)
    requires AllSilent(samples)
    ensures Total(samples).frames == 0
  {
    if samples != [] {
      TotalSilent(samples[1..]);
    }
  }

  lemma {:induction false} TotalHasty(samples: seq<Sample>)
    requires AllHasty(samples) && samples != []
    ensures Total(samples).seconds < 0.001953125 * |samples| as real
  {
    if |samples| > 1 {
      TotalHasty(samples[1..]);
    } else {
      assert samples[1..] == [];
    }
  }

  predicate Unseen(c: Cadence, fps: nat) {
    && c.targeted && c.targetFps == fps && c.deficit == 0.0 && c.satisfied == 0.0 && !c.snapshot.deficitConfirmed
    && (c.samples != [] ==> !c.snapshot.valid && !c.snapshot.satisfiedConfirmed)
    && (AllSilent(c.samples) || AllHasty(c.samples))
  }

  lemma NothingToJudge(samples: seq<Sample>)
    requires AllSilent(samples) || AllHasty(samples)
    ensures var sum := Scan(samples, 0, Sum(0.0, 0)); sum.seconds < 0.25 || sum.frames == 0
  {
    hide Scan, Total;
    var k := WindowOf(samples);
    var window := samples[|samples| - k..];
    AtMost128(samples, k);
    if AllSilent(samples) {
      assert AllSilent(window);
      TotalSilent(window);
    } else if window != [] {
      assert AllHasty(window);
      TotalHasty(window);
    } else {
      NothingTotal();
    }
  }

  lemma AtMost128(samples: seq<Sample>, k: nat)
    requires IsWindow(samples, k)
    ensures k <= 128
  {
    hide Total;
  }

  lemma UnseenStep(c: Cadence, fps: nat, seconds: real, source: nat, generated: nat)
    requires Unseen(c, fps) && 0.0 < seconds < 0.25
    requires var more := c.samples + [Sample(seconds, source + generated)]; AllSilent(more) || AllHasty(more)
    ensures Unseen(c.Observe(seconds, source, generated), fps)
    ensures c.Observe(seconds, source, generated).samples == c.samples + [Sample(seconds, source + generated)]
  {
    hide Scan, Total, AllSilent, AllHasty;
    NothingToJudge(c.samples + [Sample(seconds, source + generated)]);
  }

  lemma {:induction false} UnseenRuns(c: Cadence, fps: nat, run: seq<Event>, samples: seq<Sample>)
    requires Unseen(c, fps) && Reports(run, samples)
    requires AllSilent(c.samples + samples) || AllHasty(c.samples + samples)
    requires forall k :: 0 <= k < |samples| ==> 0.0 < samples[k].seconds < 0.25
    ensures Unseen(After(c, run), fps) && After(c, run).samples == c.samples + samples
    decreases |run|
  {
    hide Cadence.Observe;
    if run != [] {
      var more := c.samples + [samples[0]];
      assert c.samples + samples == more + samples[1..];
      assert forall k :: 0 <= k < |more| ==> more[k] == (c.samples + samples)[k];
      UnseenStep(c, fps, run[0].seconds, run[0].sourceFrames, run[0].generatedFrames);
      UnseenRuns(Step(c, run[0]), fps, run[1..], samples[1..]);
    }
  }

  /**
    An output that shows nothing at all, or is reported in samples below 1/512 s, is never found out,
    however long it lasts: there is no valid rate, no deficit and no satisfaction.
  */
  lemma UnseenOutput(c: Cadence, fps: nat, run: seq<Event>, samples: seq<Sample>)
    requires Cleared(c, fps) && !c.snapshot.deficitConfirmed && Reports(run, samples) && samples != []
    requires AllSilent(samples) || AllHasty(samples)
    requires forall k :: 0 <= k < |samples| ==> 0.0 < samples[k].seconds < 0.25
    ensures var s := After(c, run).snapshot; !s.valid && !s.deficitConfirmed && !s.satisfiedConfirmed
  {
    assert c.samples + samples == samples;
    UnseenRuns(c, fps, run, samples);
  }
}
