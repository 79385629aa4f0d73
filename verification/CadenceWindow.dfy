/**
  The robust source cadence: a ring of the nine newest intervals, the mean of what is left of them
  without the smallest and the largest, and a bounded, asymmetric smoothing of that mean.
*/
module CadenceWindow {
  import opened Numbers

  const WINDOW := 9
  const TRIM_FROM := 7
  const STABLE_WINDOW := 4
  const STABLE_RATIO := 0.20
  const SLOWDOWN_ALPHA := 0.45
  const SPEEDUP_ALPHA := 0.30
  const TARGET_MIN_RATIO := 0.75
  const TARGET_MAX_RATIO := 1.30

  // ---- Sorting ----

  function Insert(sorted: seq<real>, x: real): (more: seq<real>)
    ensures |more| == |sorted| + 1
  {
    if sorted == [] || x <= sorted[0] then [x] + sorted else [sorted[0]] + Insert(sorted[1..], x)
  }

  function Sorted(s: seq<real>): (sorted: seq<real>)
    ensures |sorted| == |s|
  {
    if s == [] then [] else Insert(Sorted(s[..|s| - 1]), s[|s| - 1])
  }

  predicate Ascending(s: seq<real>) { forall i, j :: 0 <= i < j < |s| ==> s[i] <= s[j] }

  lemma {:induction false} InsertAdds(sorted: seq<real>, x: real)
    ensures multiset(Insert(sorted, x)) == multiset(sorted) + multiset{x}
  {
    if sorted != [] && x > sorted[0] {
      InsertAdds(sorted[1..], x);
      assert sorted == [sorted[0]] + sorted[1..];
    }
  }

  lemma {:induction false} InsertSorts(sorted: seq<real>, x: real)
    requires Ascending(sorted)
    ensures Ascending(Insert(sorted, x))
  {
    if sorted != [] && x > sorted[0] {
      var rest := Insert(sorted[1..], x);
      InsertSorts(sorted[1..], x);
      InsertAdds(sorted[1..], x);
      forall k | 0 <= k < |rest|
        ensures sorted[0] <= rest[k]
      {
        assert rest[k] in multiset(rest);
        assert rest[k] == x || rest[k] in multiset(sorted[1..]);
      }
    }
  }

  lemma {:induction false} SortedSorts(s: seq<real>)
    ensures Ascending(Sorted(s)) && multiset(Sorted(s)) == multiset(s)
  {
    if s != [] {
      SortedSorts(s[..|s| - 1]);
      InsertSorts(Sorted(s[..|s| - 1]), s[|s| - 1]);
      InsertAdds(Sorted(s[..|s| - 1]), s[|s| - 1]);
      assert s == s[..|s| - 1] + [s[|s| - 1]];
    }
  }

  // ---- The trimmed mean ----

  function Sum(s: seq<real>): real {
    if s == [] then 0.0 else Sum(s[..|s| - 1]) + s[|s| - 1]
  }

  /** What is averaged: everything, or from seven samples on everything but one low and one high. */
  function Trimmed(s: seq<real>): (t: seq<real>)
    ensures s != [] ==> t != []
  {
    var sorted := Sorted(s);
    if |s| >= TRIM_FROM then sorted[1..|s| - 1] else sorted
  }

  function Mean(s: seq<real>): real
    requires s != []
  {
    Sum(s) / |s| as real
  }

  function RobustInterval(s: seq<real>): real {
    if s == [] then 0.0 else Mean(Trimmed(s))
  }

  lemma {:induction false} SumWithin(s: seq<real>, a: real, b: real)
    requires forall k :: 0 <= k < |s| ==> a <= s[k] <= b
    ensures |s| as real * a <= Sum(s) <= |s| as real * b
  {
    if s != [] {
      SumWithin(s[..|s| - 1], a, b);
    }
  }

  lemma MeanWithin(s: seq<real>, a: real, b: real)
    requires s != [] && forall k :: 0 <= k < |s| ==> a <= s[k] <= b
    ensures a <= Mean(s) <= b
  {
    SumWithin(s, a, b);
    var n := |s| as real;
    Divides(Sum(s), n, a, b);
  }

  lemma Divides(sum: real, n: real, a: real, b: real)
    requires n > 0.0 && n * a <= sum <= n * b
    ensures a <= sum / n <= b
  {
    var q := sum / n;
    assert q * n == sum;
    assert (q - a) * n >= 0.0 && (b - q) * n >= 0.0;
  }

  /** At most one sample is outside on this side. */
  predicate AtMostOneAbove(s: seq<real>, b: real) {
    forall i, j :: 0 <= i < j < |s| ==> s[i] <= b || s[j] <= b
  }

  predicate AtMostOneBelow(s: seq<real>, a: real) {
    forall i, j :: 0 <= i < j < |s| ==> s[i] >= a || s[j] >= a
  }

  function CountAbove(s: seq<real>, b: real): nat {
    if s == [] then 0 else CountAbove(s[..|s| - 1], b) + (if s[|s| - 1] > b then 1 else 0)
  }

  function CountBelow(s: seq<real>, a: real): nat {
    if s == [] then 0 else CountBelow(s[..|s| - 1], a) + (if s[|s| - 1] < a then 1 else 0)
  }

  lemma {:induction false} AtMostOneCounts(s: seq<real>, a: real, b: real)
    requires AtMostOneAbove(s, b) && AtMostOneBelow(s, a)
    ensures CountAbove(s, b) <= 1 && CountBelow(s, a) <= 1
    ensures CountAbove(s, b) == 1 <==> exists k :: 0 <= k < |s| && s[k] > b
    ensures CountBelow(s, a) == 1 <==> exists k :: 0 <= k < |s| && s[k] < a
  {
    if s != [] {
      var front, last := s[..|s| - 1], s[|s| - 1];
      AtMostOneCounts(front, a, b);
      if CountAbove(front, b) == 1 {
        var k :| 0 <= k < |front| && front[k] > b;
        assert s[k] > b;
        assert s[k] <= b || s[|s| - 1] <= b;
      }
      if CountBelow(front, a) == 1 {
        var k :| 0 <= k < |front| && front[k] < a;
        assert s[k] < a;
        assert s[k] >= a || s[|s| - 1] >= a;
      }
      if last > b {
        assert s[|s| - 1] > b;
      }
      if last < a {
        assert s[|s| - 1] < a;
      }
    }
  }

  lemma {:induction false} CountsAppend(s: seq<real>, t: seq<real>, a: real, b: real)
    ensures CountAbove(s + t, b) == CountAbove(s, b) + CountAbove(t, b)
    ensures CountBelow(s + t, a) == CountBelow(s, a) + CountBelow(t, a)
    decreases |t|
  {
    if t == [] {
      assert s + t == s;
    } else {
      assert (s + t)[..|s + t| - 1] == s + t[..|t| - 1];
      CountsAppend(s, t[..|t| - 1], a, b);
    }
  }

  lemma CountsOne(x: real, a: real, b: real)
    ensures CountAbove([x], b) == (if x > b then 1 else 0) && CountBelow([x], a) == (if x < a then 1 else 0)
  {
    assert [x][..0] == [];
  }

  lemma {:induction false} InsertCounts(sorted: seq<real>, x: real, a: real, b: real)
    ensures CountAbove(Insert(sorted, x), b) == CountAbove(sorted, b) + (if x > b then 1 else 0)
    ensures CountBelow(Insert(sorted, x), a) == CountBelow(sorted, a) + (if x < a then 1 else 0)
  {
    CountsOne(x, a, b);
    if sorted == [] || x <= sorted[0] {
      CountsAppend([x], sorted, a, b);
    } else {
      InsertCounts(sorted[1..], x, a, b);
      CountsAppend([sorted[0]], Insert(sorted[1..], x), a, b);
      CountsAppend([sorted[0]], sorted[1..], a, b);
      assert sorted == [sorted[0]] + sorted[1..];
    }
  }

  lemma {:induction false} SortedCounts(s: seq<real>, a: real, b: real)
    ensures CountAbove(Sorted(s), b) == CountAbove(s, b) && CountBelow(Sorted(s), a) == CountBelow(s, a)
  {
    if s != [] {
      SortedCounts(s[..|s| - 1], a, b);
      InsertCounts(Sorted(s[..|s| - 1]), s[|s| - 1], a, b);
    }
  }

  lemma CountsPair(x: real, y: real, a: real, b: real)
    ensures x > b && y > b ==> CountAbove([x, y], b) == 2
    ensures x < a && y < a ==> CountBelow([x, y], a) == 2
  {
    CountsOne(x, a, b);
    assert [x, y][..1] == [x];
  }

  /**
    With seven or more samples, one wild sample on each side does not matter: if at most one is
    above b and at most one below a, the trimmed mean is between a and b.
  */
  lemma RobustToOutliers(s: seq<real>, a: real, b: real)
    requires |s| >= TRIM_FROM && AtMostOneAbove(s, b) && AtMostOneBelow(s, a)
    ensures a <= RobustInterval(s) <= b
  {
    hide Sorted, CountAbove, CountBelow;
    SortedSorts(s);
    AtMostOneCounts(s, a, b);
    SortedCounts(s, a, b);
    MiddleWithin(Sorted(s), a, b);
    MeanWithin(Trimmed(s), a, b);
  }

  lemma MiddleWithin(sorted: seq<real>, a: real, b: real)
    requires |sorted| >= 2 && Ascending(sorted) && CountAbove(sorted, b) <= 1 && CountBelow(sorted, a) <= 1
    ensures forall k :: 0 < k < |sorted| - 1 ==> a <= sorted[k] <= b
  {
    hide CountAbove, CountBelow;
    var n := |sorted|;
    CountsPair(sorted[n - 2], sorted[n - 1], a, b);
    CountsPair(sorted[0], sorted[1], a, b);
    assert sorted == sorted[..n - 2] + [sorted[n - 2], sorted[n - 1]];
    CountsAppend(sorted[..n - 2], [sorted[n - 2], sorted[n - 1]], a, b);
    assert sorted == [sorted[0], sorted[1]] + sorted[2..];
    CountsAppend([sorted[0], sorted[1]], sorted[2..], a, b);
  }

  lemma {:induction false} SumFront(s: seq<real>)
    requires s != []
    ensures Sum(s) == s[0] + Sum(s[1..])
  {
    if |s| > 1 {
      SumFront(s[..|s| - 1]);
      assert s[..|s| - 1][1..] == s[1..][..|s| - 2];
    }
  }

  lemma {:induction false} InsertSums(sorted: seq<real>, x: real)
    ensures Sum(Insert(sorted, x)) == Sum(sorted) + x
  {
    SumFront(Insert(sorted, x));
    if sorted != [] {
      SumFront(sorted);
    }
    if sorted == [] || x <= sorted[0] {
      assert ([x] + sorted)[1..] == sorted;
    } else {
      InsertSums(sorted[1..], x);
      assert ([sorted[0]] + Insert(sorted[1..], x))[1..] == Insert(sorted[1..], x);
    }
  }

  lemma {:induction false} SortedSums(s: seq<real>)
    ensures Sum(Sorted(s)) == Sum(s)
  {
    if s != [] {
      SortedSums(s[..|s| - 1]);
      InsertSums(Sorted(s[..|s| - 1]), s[|s| - 1]);
    }
  }

  lemma EndsAreExtremes(s: seq<real>)
    requires s != []
    ensures |Sorted(s)| == |s| && Sorted(s)[0] in s && Sorted(s)[|s| - 1] in s
    ensures forall k :: 0 <= k < |s| ==> Sorted(s)[0] <= s[k] <= Sorted(s)[|s| - 1]
  {
    SortedSorts(s);
    var sorted := Sorted(s);
    hide Sorted;
    assert sorted[0] in multiset(s) && sorted[|s| - 1] in multiset(s);
    forall k | 0 <= k < |s|
      ensures sorted[0] <= s[k] <= sorted[|s| - 1]
    {
      assert s[k] in multiset(sorted);
    }
  }

  /**
    What the robust interval is, whatever the order of the samples: the mean of them all, and from
    seven on the mean of what is left without one smallest and one largest.
  */
  lemma RobustIsTrimmedMean(s: seq<real>) returns (low: real, high: real)
    requires s != []
    ensures low in s && high in s && forall k :: 0 <= k < |s| ==> low <= s[k] <= high
    ensures RobustInterval(s) == if |s| >= 7 then (Sum(s) - low - high) / (|s| - 2) as real else Sum(s) / |s| as real
  {
    EndsAreExtremes(s);
    SortedSums(s);
    var sorted := Sorted(s);
    hide Sorted;
    low, high := sorted[0], sorted[|s| - 1];
    if |s| >= 7 {
      SumFront(sorted);
      assert sorted[1..][..|s| - 2] == sorted[1..|s| - 1];
    }
  }

  /** In every case the robust interval lies among the samples. */
  lemma RobustInHull(s: seq<real>, a: real, b: real)
    requires s != [] && forall k :: 0 <= k < |s| ==> a <= s[k] <= b
    ensures a <= RobustInterval(s) <= b
  {
    SortedSorts(s);
    var sorted := Sorted(s);
    forall k | 0 <= k < |sorted|
      ensures a <= sorted[k] <= b
    {
      assert sorted[k] in multiset(sorted);
      assert sorted[k] in multiset(s);
    }
    MeanWithin(Trimmed(s), a, b);
  }

  lemma {:induction false} SumPositive(s: seq<real>)
    requires forall k :: 0 <= k < |s| ==> s[k] > 0.0
    ensures if s == [] then Sum(s) == 0.0 else Sum(s) > 0.0
  {
    if s != [] {
      SumPositive(s[..|s| - 1]);
    }
  }

  lemma SortedIsPositive(s: seq<real>)
    requires forall k :: 0 <= k < |s| ==> s[k] > 0.0
    ensures forall k :: 0 <= k < |s| ==> Sorted(s)[k] > 0.0
  {
    SortedSorts(s);
    var sorted := Sorted(s);
    forall k | 0 <= k < |sorted|
      ensures sorted[k] > 0.0
    {
      assert sorted[k] in multiset(sorted);
      assert sorted[k] in multiset(s);
    }
  }

  lemma RobustIsPositive(s: seq<real>)
    requires s != [] && forall k :: 0 <= k < |s| ==> s[k] > 0.0
    ensures RobustInterval(s) > 0.0
  {
    hide Sorted, Sum;
    SortedIsPositive(s);
    SumPositive(Trimmed(s));
    Positive(Sum(Trimmed(s)), |Trimmed(s)| as real);
  }

  lemma Positive(sum: real, n: real)
    requires sum > 0.0 && n > 0.0
    ensures sum / n > 0.0
  {
  }

  // ---- The ring ----

  /** The ring as it is stored, how much of it is filled, and where the next interval goes. */
  datatype Recent = Recent(ring: seq<real>, count: nat, cursor: nat)
  {
    predicate Valid() { |ring| == WINDOW && count <= WINDOW && cursor < WINDOW && (count < WINDOW ==> cursor == count) }

    function Push(x: real): (next: Recent)
      requires Valid()
      ensures next.Valid()
    {
      Recent(ring[cursor := x], Min(count + 1, WINDOW), (cursor + 1) % WINDOW)
    }

    function Held(): seq<real>
      requires Valid()
    {
      ring[..count]
    }

    /** The newest sample is at offset 0. */
    function Newest(offset: nat): real
      requires Valid() && offset < WINDOW
    {
      ring[(cursor + WINDOW - 1 - offset) % WINDOW]
    }

    function LeastOf(n: nat): real
      requires Valid() && 0 < n <= WINDOW
    {
      if n == 1 then Newest(0) else Least(LeastOf(n - 1), Newest(n - 1))
    }

    function MostOf(n: nat): real
      requires Valid() && 0 < n <= WINDOW
    {
      if n == 1 then Most(0.0, Newest(0)) else Most(MostOf(n - 1), Newest(n - 1))
    }

    /** The four newest intervals differ by little. */
    predicate Stable()
      requires Valid()
    {
      && count >= STABLE_WINDOW && RobustInterval(Held()) > 0.0
      && MostOf(STABLE_WINDOW) - LeastOf(STABLE_WINDOW) <= RobustInterval(Held()) * STABLE_RATIO
    }
  }

  const NOTHING_RECENT := Recent([0.0, 0.0, 0.0, 0.0, 0.0, 0.0, 0.0, 0.0, 0.0], 0, 0)

  function PushAll(recent: Recent, samples: seq<real>): (after: Recent)
    requires recent.Valid()
    ensures after.Valid()
  {
    if samples == [] then recent else PushAll(recent, samples[..|samples| - 1]).Push(samples[|samples| - 1])
  }

  function LastOf(samples: seq<real>): seq<real> {
    if |samples| <= WINDOW then samples else samples[|samples| - WINDOW..]
  }

  /** In front of the cursor are the newest samples, from the cursor on the older ones of the window. */
  predicate NewestInFront(ring: seq<real>, c: nat, samples: seq<real>) {
    c <= |ring| && ring[..c] == samples[|samples| - Min(c, |samples|)..]
  }

  predicate OlderBehind(ring: seq<real>, c: nat, samples: seq<real>) {
    c <= |ring| && c <= WINDOW <= |samples| && ring[c..] == samples[|samples| - WINDOW..|samples| - c]
  }

  predicate Rotated(recent: Recent, samples: seq<real>)
    requires recent.Valid()
  {
    && recent.count == Min(|samples|, WINDOW)
    && NewestInFront(recent.ring, recent.cursor, samples)
    && (|samples| >= WINDOW ==> OlderBehind(recent.ring, recent.cursor, samples))
  }

  lemma PushRotates(recent: Recent, samples: seq<real>, x: real)
    requires recent.Valid() && Rotated(recent, samples)
    ensures Rotated(recent.Push(x), samples + [x])
  {
    hide NewestInFront, OlderBehind;
    var ring, c := recent.ring, recent.cursor;
    if c + 1 == WINDOW {
      PushWraps(ring, samples, x);
    } else {
      PushFront(ring, c, samples, x);
      if |samples| >= WINDOW {
        PushBack(ring, c, samples, x);
      } else {
        FullAfterLast(recent, samples);
      }
    }
  }

  /** Before the ring is full its cursor is its count. */
  lemma FullAfterLast(recent: Recent, samples: seq<real>)
    requires recent.Valid() && Rotated(recent, samples) && |samples| < WINDOW
    ensures recent.cursor == WINDOW - 1 || |samples| + 1 < WINDOW
  {
  }

  lemma PushFront(ring: seq<real>, c: nat, samples: seq<real>, x: real)
    requires c < |ring| && NewestInFront(ring, c, samples)
    ensures NewestInFront(ring[c := x], c + 1, samples + [x])
  {
    PushSplits(ring, c, x);
    AppendSplits(samples, x, |samples| - Min(c, |samples|));
  }

  lemma PushBack(ring: seq<real>, c: nat, samples: seq<real>, x: real)
    requires c < |ring| && c + 1 < WINDOW && OlderBehind(ring, c, samples)
    ensures OlderBehind(ring[c := x], c + 1, samples + [x])
  {
    var n := |samples|;
    PushSplits(ring, c, x);
    DropFirst(samples, n - WINDOW, n - c);
    AppendKeeps(samples, x, n + 1 - WINDOW, n - c);
  }

  /** The push that fills the last place makes the whole ring the older part. */
  lemma PushWraps(ring: seq<real>, samples: seq<real>, x: real)
    requires |ring| == WINDOW <= |samples| + 1 && NewestInFront(ring, WINDOW - 1, samples)
    ensures NewestInFront(ring[WINDOW - 1 := x], 0, samples + [x])
    ensures OlderBehind(ring[WINDOW - 1 := x], 0, samples + [x])
  {
    PushSplits(ring, WINDOW - 1, x);
    AppendSplits(samples, x, |samples| - (WINDOW - 1));
    WholeRing(ring[WINDOW - 1 := x], samples + [x]);
  }

  /** A ring written to its end is the newest samples in order. */
  lemma WholeRing(ring: seq<real>, samples: seq<real>)
    requires |ring| == WINDOW <= |samples|
    ensures ring[..WINDOW] == ring[0..] && ring[..0] == samples[|samples|..]
    ensures samples[|samples| - WINDOW..] == samples[|samples| - WINDOW..|samples| - 0]
  {
  }

  lemma PushSplits(ring: seq<real>, c: nat, x: real)
    requires c < |ring|
    ensures ring[c := x][..c + 1] == ring[..c] + [x] && ring[c := x][c + 1..] == ring[c..][1..]
  {
  }

  lemma AppendSplits(s: seq<real>, x: real, from: nat)
    requires from <= |s|
    ensures (s + [x])[from..] == s[from..] + [x]
  {
  }

  lemma DropFirst(s: seq<real>, from: nat, to: nat)
    requires from < to <= |s|
    ensures s[from..to][1..] == s[from + 1..to]
  {
  }

  lemma AppendKeeps(s: seq<real>, x: real, from: nat, to: nat)
    requires from <= to <= |s|
    ensures (s + [x])[from..to] == s[from..to]
  {
  }

  /** The ring holds exactly the newest nine intervals, each as often as it occurred. */
  lemma RingHoldsNewest(samples: seq<real>)
    ensures multiset(PushAll(NOTHING_RECENT, samples).Held()) == multiset(LastOf(samples))
  {
    AllRotated(samples);
    RotationKeeps(PushAll(NOTHING_RECENT, samples), samples);
  }

  lemma RotationKeeps(recent: Recent, samples: seq<real>)
    requires recent.Valid() && Rotated(recent, samples)
    ensures multiset(recent.Held()) == multiset(LastOf(samples))
  {
    hide Rotated, LastOf, Recent.Held;
    var n, c := |samples|, recent.cursor;
    HeldParts(recent, samples);
    if n >= WINDOW {
      LastSplits(samples, c);
      Swaps(samples[n - c..], samples[n - WINDOW..n - c]);
    }
  }

  lemma HeldParts(recent: Recent, samples: seq<real>)
    requires recent.Valid() && Rotated(recent, samples)
    ensures var n, c := |samples|, recent.cursor;
            if n >= WINDOW then recent.Held() == samples[n - c..] + samples[n - WINDOW..n - c]
            else recent.Held() == samples == LastOf(samples)
  {
    SplitsAt(recent.ring, recent.cursor);
  }

  lemma SplitsAt(s: seq<real>, c: nat)
    requires c <= |s|
    ensures s == s[..c] + s[c..] == s[..|s|]
  {
  }

  lemma LastSplits(samples: seq<real>, c: nat)
    requires |samples| >= WINDOW && c <= WINDOW
    ensures LastOf(samples) == samples[|samples| - WINDOW..|samples| - c] + samples[|samples| - c..]
  {
  }

  lemma Swaps(a: seq<real>, b: seq<real>)
    ensures multiset(a + b) == multiset(b + a)
  {
  }

  lemma NothingRotated()
    ensures Rotated(NOTHING_RECENT, [])
  {
  }

  lemma {:induction false} AllRotated(samples: seq<real>)
    ensures Rotated(PushAll(NOTHING_RECENT, samples), samples)
  {
    hide Rotated, Recent.Push;
    if samples == [] {
      NothingRotated();
    } else {
      var front, last := samples[..|samples| - 1], samples[|samples| - 1];
      AllRotated(front);
      PushRotates(PushAll(NOTHING_RECENT, front), front, last);
      assert samples == front + [last];
    }
  }

  // ---- Smoothing ----

  datatype Cadence = Cadence(smoothed: real, hasSmoothed: bool, recent: Recent, stableSamples: nat)
  {
    predicate Valid() { recent.Valid() }

    function Updated(interval: real): (next: Cadence)
      requires Valid()
      ensures next.Valid()
    {
      var r := recent.Push(interval);
      var robust := RobustInterval(r.Held());
      Cadence(if !hasSmoothed then robust else if robust > 0.0 then Smooth(smoothed, robust) else smoothed,
              hasSmoothed || robust > 0.0, r, if r.Stable() then stableSamples + 1 else 0)
    }
  }

  const NO_CADENCE := Cadence(0.0, false, NOTHING_RECENT, 0)

  function Smooth(previous: real, robust: real): real {
    var bounded := Clamp(robust, previous * TARGET_MIN_RATIO, previous * TARGET_MAX_RATIO);
    previous + (if bounded > previous then SLOWDOWN_ALPHA else SPEEDUP_ALPHA) * (bounded - previous)
  }

  /** One update changes the smoothed interval by a factor between 0.925 and 1.135. */
  lemma SmoothIsGentle(previous: real, robust: real)
    requires previous > 0.0
    ensures 0.925 * previous <= Smooth(previous, robust) <= 1.135 * previous
  {
  }

  lemma SmoothInHull(previous: real, robust: real, a: real, b: real)
    requires 0.0 < a <= previous <= b && a <= robust <= b
    ensures a <= Smooth(previous, robust) <= b
  {
  }

  /** Every held interval and the smoothed one lie in the hull of what was heard. */
  predicate InHull(c: Cadence, a: real, b: real)
    requires c.Valid()
  {
    && (c.hasSmoothed <==> c.recent.count > 0)
    && (c.hasSmoothed ==> a <= c.smoothed <= b)
    && forall k :: 0 <= k < c.recent.count ==> a <= c.recent.ring[k] <= b
  }

  lemma UpdateStaysInHull(c: Cadence, interval: real, a: real, b: real)
    requires c.Valid() && InHull(c, a, b) && 0.0 < a <= interval <= b
    ensures InHull(c.Updated(interval), a, b)
    ensures c.hasSmoothed ==> 0.925 * c.smoothed <= c.Updated(interval).smoothed <= 1.135 * c.smoothed
  {
    hide RobustInterval, Recent.Stable, Smooth;
    var r := c.recent.Push(interval);
    RobustInHull(r.Held(), a, b);
    if c.hasSmoothed {
      SmoothInHull(c.smoothed, RobustInterval(r.Held()), a, b);
      SmoothIsGentle(c.smoothed, RobustInterval(r.Held()));
    }
  }
}
