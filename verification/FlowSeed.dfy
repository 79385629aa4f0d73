/** The state a configured scale starts from, and how seeding a controller with it behaves. */
module FlowSeed {
  import opened FlowController

  /** The first state from `from` on that is not above the scale, or the floor. */
  function SeedFrom(preset: Preset, scale: real, from: nat): (index: nat)
    requires from <= Floor(preset)
    ensures from <= index <= Floor(preset)
    decreases Floor(preset) - from
  {
    if Ladder(preset)[from] <= scale + SCALE_EPSILON || from == Floor(preset) then from
    else SeedFrom(preset, scale, from + 1)
  }

  function ConservativeSeedScale(preset: Preset, scale: real): real {
    Ladder(preset)[SeedFrom(preset, scale, 0)]
  }

  lemma LadderDescends(preset: Preset, i: nat)
    requires i < Floor(preset)
    ensures Ladder(preset)[i] >= Ladder(preset)[i + 1] + 0.04
  {
  }

  lemma {:induction false} LadderIsOrdered(preset: Preset, i: nat, j: nat)
    requires i < j <= Floor(preset)
    ensures Ladder(preset)[i] >= Ladder(preset)[j] + 0.04
    decreases j - i
  {
    hide Ladder;
    LadderDescends(preset, j - 1);
    if i < j - 1 {
      LadderIsOrdered(preset, i, j - 1);
    }
  }

  lemma {:induction false} SeedIsBest(preset: Preset, scale: real, from: nat)
    requires from <= Floor(preset)
    ensures var seed := SeedFrom(preset, scale, from);
            && (Ladder(preset)[seed] <= scale + SCALE_EPSILON || seed == Floor(preset))
            && forall i :: from <= i < seed ==> Ladder(preset)[i] > scale + SCALE_EPSILON
    decreases Floor(preset) - from
  {
    hide Ladder;
    if !(Ladder(preset)[from] <= scale + SCALE_EPSILON) && from < Floor(preset) {
      SeedIsBest(preset, scale, from + 1);
    }
  }

  lemma FindsItself(preset: Preset, index: nat)
    requires index <= Floor(preset)
    ensures FindState(Ladder(preset), Ladder(preset)[index], 0) == index
  {
    hide Ladder;
    var found := FindState(Ladder(preset), Ladder(preset)[index], 0);
    if found < index {
      LadderIsOrdered(preset, found, index);
    }
  }

  lemma SeedSeedsItself(preset: Preset, index: nat)
    requires index <= Floor(preset)
    ensures SeedFrom(preset, Ladder(preset)[index], 0) == index
  {
    hide Ladder, SeedFrom;
    var seed := SeedFrom(preset, Ladder(preset)[index], 0);
    SeedIsBest(preset, Ladder(preset)[index], 0);
    if seed < index {
      LadderIsOrdered(preset, seed, index);
    }
  }

  lemma SeedAllows(preset: Preset, scale: real, i: nat)
    requires i <= Floor(preset) && Ladder(preset)[i] <= scale + SCALE_EPSILON
    ensures Ladder(preset)[i] <= ConservativeSeedScale(preset, scale) <= scale + SCALE_EPSILON
  {
    hide Ladder, SeedFrom;
    var seed := SeedFrom(preset, scale, 0);
    SeedIsBest(preset, scale, 0);
    if seed < i {
      LadderIsOrdered(preset, seed, i);
    }
  }

  /**
    The seed is the best state the scale allows, or the floor when it allows none; seeding a
    controller with it is always accepted and lands on exactly that state; and a seed seeds itself.
  */
  lemma SeedRoundTrip(preset: Preset, scale: real)
    ensures var seeded := ConservativeSeedScale(preset, scale);
            && (forall i :: 0 <= i <= Floor(preset) && Ladder(preset)[i] <= scale + SCALE_EPSILON ==>
                              Ladder(preset)[i] <= seeded <= scale + SCALE_EPSILON)
            && ((forall i :: 0 <= i <= Floor(preset) ==> Ladder(preset)[i] > scale + SCALE_EPSILON) ==>
                  seeded == Ladder(preset)[Floor(preset)])
            && FindState(Ladder(preset), seeded, 0) == SeedFrom(preset, scale, 0)
            && ConservativeSeedScale(preset, seeded) == seeded
  {
    hide Ladder, SeedFrom;
    var seed := SeedFrom(preset, scale, 0);
    SeedIsBest(preset, scale, 0);
    FindsItself(preset, seed);
    SeedSeedsItself(preset, seed);
    forall i | 0 <= i <= Floor(preset) && Ladder(preset)[i] <= scale + SCALE_EPSILON
      ensures Ladder(preset)[i] <= ConservativeSeedScale(preset, scale) <= scale + SCALE_EPSILON
    {
      SeedAllows(preset, scale, i);
    }
  }
}
