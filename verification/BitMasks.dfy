/**
  Bitwise arithmetic on unsigned words, defined bit by bit on naturals, and the identity that
  lets a pair of remainders by a power of two be replaced by one mask.
*/
module BitMasks {

  type Word = w: int | 0 <= w < 0x1_0000_0000

  function Pow2(k: nat): (p: nat)
    ensures p > 0
  {
    if k == 0 then 1 else 2 * Pow2(k - 1)
  }

  function And(x: nat, y: nat): (z: nat)
    ensures z <= x && z <= y
  {
    if x == 0 || y == 0 then 0
    else (if x % 2 == 1 && y % 2 == 1 then 1 else 0) + 2 * And(x / 2, y / 2)
  }

  function Or(x: nat, y: nat): (z: nat)
    ensures x <= z && y <= z && z <= x + y
  {
    if x == 0 then y
    else if y == 0 then x
    else (if x % 2 == 1 || y % 2 == 1 then 1 else 0) + 2 * Or(x / 2, y / 2)
  }

  /** The test the resolver applies to a step: clearing the lowest set bit leaves nothing. */
  predicate PassesPowerTest(v: nat) { v != 0 && And(v, v - 1) == 0 }

  ghost predicate IsPower(v: nat) { exists k: nat :: v == Pow2(k) }

  lemma {:induction false} PowerTestIsExact(v: nat)
    requires v > 0
    ensures PassesPowerTest(v) <==> IsPower(v)
  {
    hide And, Pow2, IsPower;
    var u := v / 2;
    AndUnfolds(v, v - 1);
    if v % 2 == 1 {
      assert (v - 1) / 2 == u && (v - 1) % 2 == 0;
      AndSelf(u);
      OddPower(v);
    } else {
      assert (v - 1) / 2 == u - 1 && (v - 1) % 2 == 1;
      PowerTestIsExact(u);
      EvenPower(u);
    }
  }

  lemma OddPower(v: nat)
    requires v % 2 == 1
    ensures IsPower(v) <==> v == 1
  {
    assert Pow2(0) == 1;
    if k: nat :| v == Pow2(k) {
      PowerParity(k);
    }
  }

  lemma {:induction false} PowerParity(k: nat)
    ensures Pow2(k) == 1 || Pow2(k) % 2 == 0
  {
    if k > 0 {
      var half := Pow2(k - 1);
      assert Pow2(k) == 2 * half;
      DoubleIsEven(half);
    }
  }

  lemma DoubleIsEven(x: nat)
    ensures (2 * x) % 2 == 0
  {
  }

  lemma EvenPower(u: nat)
    requires u > 0
    ensures IsPower(2 * u) <==> IsPower(u)
  {
    if k: nat :| u == Pow2(k) {
      assert 2 * u == Pow2(k + 1);
    }
    if k: nat :| 2 * u == Pow2(k) {
      assert k > 0;
      var j: nat := k - 1;
      assert u == Pow2(j);
    }
  }

  lemma {:induction false} AndSelf(x: nat)
    ensures And(x, x) == x
  {
    if x != 0 {
      AndSelf(x / 2);
    }
  }

  lemma HalveRemainder(x: nat, p: nat)
    requires p > 0
    ensures x % (2 * p) == x % 2 + 2 * ((x / 2) % p)
  {
    var q, r := (x / 2) / p, (x / 2) % p;
    assert x / 2 == q * p + r;
    assert x == q * (2 * p) + (2 * r + x % 2);
    EuclidUnique(x, 2 * p, q, 2 * r + x % 2);
  }

  lemma EuclidUnique(x: int, d: int, q: int, r: int)
    requires d > 0 && 0 <= r < d && x == q * d + r
    ensures x / d == q && x % d == r
  {
    var q', r' := x / d, x % d;
    assert (q' - q) * d == r - r';
    if q' > q {
      AtLeastOnce(q' - q, d);
    } else if q' < q {
      AtLeastOnce(q - q', d);
    }
  }

  lemma AtLeastOnce(n: int, d: int)
    requires n >= 1 && d > 0
    ensures n * d >= d
  {
  }

  function Bit(b: bool): nat { if b then 1 else 0 }

  lemma OrUnfolds(x: nat, y: nat)
    ensures Or(x, y) == Bit(x % 2 == 1 || y % 2 == 1) + 2 * Or(x / 2, y / 2)
  {
  }

  lemma AndUnfolds(x: nat, y: nat)
    ensures And(x, y) == Bit(x % 2 == 1 && y % 2 == 1) + 2 * And(x / 2, y / 2)
  {
  }

  lemma Halves(x: nat, b: bool)
    ensures (Bit(b) + 2 * x) / 2 == x && ((Bit(b) + 2 * x) % 2 == 1 <==> b)
  {
  }

  /** A mask below a power of two keeps exactly the remainder. */
  lemma {:induction false} MaskIsRemainder(x: nat, k: nat)
    ensures And(x, Pow2(k) - 1) == x % Pow2(k)
  {
    hide And;
    if x == 0 || k == 0 {
      NothingKept(x, k);
    } else {
      var p := Pow2(k - 1);
      MaskIsRemainder(x / 2, k - 1);
      HalveRemainder(x, p);
      AndUnfolds(x, 2 * p - 1);
      assert (2 * p - 1) / 2 == p - 1 && (2 * p - 1) % 2 == 1;
    }
  }

  lemma NothingKept(x: nat, k: nat)
    requires x == 0 || k == 0
    ensures And(x, Pow2(k) - 1) == x % Pow2(k)
  {
    var p := Pow2(k);
    SmallRemainder(p);
    if k == 0 {
      assert p == 1 && x % 1 == 0;
    }
  }

  lemma SmallRemainder(p: nat)
    requires p > 0
    ensures 0 % p == 0
  {
  }

  lemma {:induction false} OrVanishes(x: nat, y: nat)
    ensures Or(x, y) == 0 <==> x == 0 && y == 0
  {
  }

  /** Both sides agree in their lowest bit, and beyond it by induction. */
  lemma {:induction false} MaskDistributes(x: nat, y: nat, m: nat)
    ensures And(Or(x, y), m) == Or(And(x, m), And(y, m))
  {
    hide And, Or;
    if x == 0 || y == 0 || m == 0 {
      NothingMasked(x, y, m);
    } else {
      var a, b, c := x % 2 == 1, y % 2 == 1, m % 2 == 1;
      MaskDistributes(x / 2, y / 2, m / 2);
      OrUnfolds(x, y);
      AndUnfolds(x, m);
      AndUnfolds(y, m);
      Halves(Or(x / 2, y / 2), a || b);
      Halves(And(x / 2, m / 2), a && c);
      Halves(And(y / 2, m / 2), b && c);
      AndUnfolds(Or(x, y), m);
      OrUnfolds(And(x, m), And(y, m));
    }
  }

  lemma NothingMasked(x: nat, y: nat, m: nat)
    requires x == 0 || y == 0 || m == 0
    ensures And(Or(x, y), m) == Or(And(x, m), And(y, m))
  {
  }

  /** A union of words is a word. */
  lemma {:induction false} OrFits(x: nat, y: nat, k: nat)
    requires x < Pow2(k) && y < Pow2(k)
    ensures Or(x, y) < Pow2(k)
  {
    if x != 0 && y != 0 {
      OrFits(x / 2, y / 2, k - 1);
    }
  }

  function WordOr(x: Word, y: Word): (z: Word)
    ensures z == Or(x, y)
  {
    assert Pow2(32) == 0x1_0000_0000 by {
      assert Pow2(8) == 256;
      assert Pow2(16) == 65536;
      assert Pow2(24) == 16777216;
    }
    OrFits(x, y, 32);
    Or(x, y)
  }

  /**
    Strength reduction: for every step that passes the power test, one mask of the union decides
    whether both coordinates are multiples of the step.
  */
  lemma FusedMask(x: nat, y: nat, step: nat)
    requires PassesPowerTest(step)
    ensures And(Or(x, y), step - 1) == 0 <==> x % step == 0 && y % step == 0
    ensures And(x, step - 1) == x % step && And(y, step - 1) == y % step
  {
    hide And, Or, PassesPowerTest, Pow2;
    PowerPositive(step);
    PowerTestIsExact(step);
    var k: nat :| step == Pow2(k);
    MaskIsRemainder(x, k);
    MaskIsRemainder(y, k);
    MaskDistributes(x, y, step - 1);
    OrVanishes(And(x, step - 1), And(y, step - 1));
  }

  lemma PowerPositive(step: nat)
    requires PassesPowerTest(step)
    ensures step > 0
  {
  }

  /** The power test is exactly what the reduction needs: no other step reduces correctly. */
  lemma FusedMaskIffPower(step: nat)
    requires step > 0
    ensures (forall x: nat, y: nat ::
               And(Or(x, y), step - 1) == 0 <==> x % step == 0 && y % step == 0)
            <==> PassesPowerTest(step)
  {
    hide And, Or;
    if PassesPowerTest(step) {
      forall x: nat, y: nat
        ensures And(Or(x, y), step - 1) == 0 <==> x % step == 0 && y % step == 0
      {
        FusedMask(x, y, step);
      }
    } else {
      var x: nat, y: nat := step, 0;
      OrZero(step);
      OwnRemainder(step);
      assert Or(x, y) == step && And(step, step - 1) != 0;
      assert !(And(Or(x, y), step - 1) == 0 <==> x % step == 0 && y % step == 0);
    }
  }

  lemma OwnRemainder(step: nat)
    requires step > 0
    ensures step % step == 0 && 0 % step == 0
  {
  }

  lemma OrZero(x: nat)
    ensures Or(x, 0) == x
  {
  }

  /** A remainder is below a power of two, and a smaller number is its own. */
  lemma RemainderRange(x: nat, step: nat)
    requires step > 0
    ensures x % step < step
    ensures x < step ==> x % step == x
  {
  }

  /** Compared with zero, or with something no remainder reaches, both forms say the same. */
  lemma FusedComparison(x: nat, y: nat, step: nat, z: nat)
    requires PassesPowerTest(step) && (z == 0 || z >= step)
    ensures And(Or(x, y), step - 1) == z <==> x % step == z && y % step == z
  {
    hide And, Or, PassesPowerTest;
    PowerPositive(step);
    FusedMask(x, y, step);
    RemainderRange(x, step);
  }

  /**
    What both forms are compared with matters: they agree for all coordinates if and only if it is
    zero, or so large that neither form is ever true.
  */
  lemma FusedComparisonIff(step: nat, z: nat)
    requires PassesPowerTest(step)
    ensures (forall x: nat, y: nat ::
               And(Or(x, y), step - 1) == z <==> x % step == z && y % step == z)
            <==> z == 0 || z >= step
  {
    hide And, Or, PassesPowerTest;
    PowerPositive(step);
    if z == 0 || z >= step {
      forall x: nat, y: nat
        ensures And(Or(x, y), step - 1) == z <==> x % step == z && y % step == z
      {
        FusedComparison(x, y, step, z);
      }
    } else {
      FusedMask(z, 0, step);
      OrZero(z);
      RemainderRange(z, step);
      RemainderRange(0, step);
      var x: nat, y: nat := z, 0;
      assert !(And(Or(x, y), step - 1) == z <==> x % step == z && y % step == z);
    }
  }
}
