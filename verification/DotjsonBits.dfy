/** Bit operations on naturals, as the object's capacity and slot arithmetic uses them. */
module DotjsonBits {

  function Pow2(k: nat): (r: nat)
    ensures r > 0
  {
    if k == 0 then 1 else 2 * Pow2(k - 1)
  }

  function Bit(x: nat, i: nat): nat {
    if i == 0 then x % 2 else Bit(x / 2, i - 1)
  }

  /** x >> s. */
  function Shr(x: nat, s: nat): nat {
    if s == 0 then x else Shr(x / 2, s - 1)
  }

  /** x | y. */
  function Or(x: nat, y: nat): nat {
    if x == 0 then y else if y == 0 then x
    else (if x % 2 == 1 || y % 2 == 1 then 1 else 0) + 2 * Or(x / 2, y / 2)
  }

  /** x & y. */
  function And(x: nat, y: nat): nat {
    if x == 0 || y == 0 then 0 else (if x % 2 == 1 && y % 2 == 1 then 1 else 0) + 2 * And(x / 2, y / 2)
  }

  lemma {:induction false} BitOr(x: nat, y: nat, i: nat)
    ensures Bit(Or(x, y), i) == if Bit(x, i) == 1 || Bit(y, i) == 1 then 1 else 0
  {
    BitIsBit(x, i);
    BitIsBit(y, i);
    if x == 0 {
      BitOfZero(i);
    } else if y == 0 {
      BitOfZero(i);
    } else if i > 0 {
      BitOr(x / 2, y / 2, i - 1);
    }
  }

  lemma {:induction false} BitIsBit(x: nat, i: nat)
    ensures Bit(x, i) == 0 || Bit(x, i) == 1
  {
    if i > 0 { BitIsBit(x / 2, i - 1); }
  }

  lemma {:induction false} BitOfZero(i: nat)
    ensures Bit(0, i) == 0
  {
    if i > 0 { BitOfZero(i - 1); }
  }

  lemma {:induction false} BitShr(x: nat, s: nat, i: nat)
    ensures Bit(Shr(x, s), i) == Bit(x, i + s)
    decreases s
  {
    if s > 0 { BitShr(x / 2, s - 1, i); }
  }

  /** One of the w places from i up holds a one. */
  ghost predicate OneWithin(x: nat, i: nat, w: nat) {
    exists c: nat :: i <= c < i + w && Bit(x, c) == 1
  }

  /** y has a one exactly where x has one at that place or less than w places above it. */
  ghost predicate Smeared(x: nat, y: nat, w: nat) {
    forall i: nat :: Bit(y, i) == 1 <==> OneWithin(x, i, w)
  }

  lemma NotSmeared(x: nat)
    ensures Smeared(x, x, 1)
  {
  }

  /** Or-ing the number shifted by w doubles the width. */
  lemma Smear(x: nat, y: nat, w: nat)
    requires Smeared(x, y, w)
    ensures Smeared(x, Or(y, Shr(y, w)), 2 * w)
  {
    var z := Or(y, Shr(y, w));
    forall i: nat ensures Bit(z, i) == 1 <==> OneWithin(x, i, 2 * w) {
      BitOr(y, Shr(y, w), i);
      BitShr(y, w, i);
      WithinBoth(x, i, w);
    }
  }

  lemma WithinBoth(x: nat, i: nat, w: nat)
    ensures OneWithin(x, i, 2 * w) <==> OneWithin(x, i, w) || OneWithin(x, i + w, w)
  {
    if c: nat :| i <= c < i + 2 * w && Bit(x, c) == 1 {
      assert c < i + w || i + w <= c < i + w + w;
    }
  }

  /** The highest one of x is at j. */
  ghost predicate IsTop(x: nat, j: nat) {
    Bit(x, j) == 1 && forall i: nat :: i > j ==> Bit(x, i) == 0
  }

  lemma {:induction false} TopBit(x: nat) returns (j: nat)
    requires x > 0
    ensures IsTop(x, j) && Pow2(j) <= x < Pow2(j + 1)
  {
    if x == 1 {
      j := 0;
      forall i: nat | i > 0 ensures Bit(x, i) == 0 { BitOfZero(i - 1); }
    } else {
      var k := TopBit(x / 2);
      j := k + 1;
      forall i: nat | i > j ensures Bit(x, i) == 0 { assert Bit(x / 2, i - 1) == 0; }
      assert Bit(x, j) == Bit(x / 2, k);
    }
  }

  lemma {:induction false} AllOnes(x: nat, m: nat)
    requires forall i: nat :: Bit(x, i) == if i < m then 1 else 0
    ensures x == Pow2(m) - 1
    decreases m, x
  {
    assert Bit(x, 0) == if 0 < m then 1 else 0;
    if x != 0 {
      forall i: nat ensures Bit(x / 2, i) == if i + 1 < m then 1 else 0 { assert Bit(x, i + 1) == Bit(x / 2, i); }
      AllOnes(x / 2, if m == 0 then 0 else m - 1);
    }
  }

  lemma {:induction false} Pow2Monotone(a: nat, b: nat)
    requires a <= b
    ensures Pow2(a) <= Pow2(b)
  {
    if a < b { Pow2Monotone(a, b - 1); }
  }

  lemma Doubles(k: nat)
    ensures Pow2(k + 1) == 2 * Pow2(k)
  {
  }

  /** The least power of two that is at least n. */
  ghost predicate LeastPower(n: nat, r: nat) {
    exists k: nat :: r == Pow2(k) && n <= r && (k > 0 ==> Pow2(k - 1) < n)
  }

  /** Below its highest one x never has 32 zeros in a row. */
  ghost predicate Dense(x: nat) {
    forall i: nat, j: nat :: i <= j && Bit(x, j) == 1 ==> OneWithin(x, i, 32)
  }

  /**
   * On a size_t of 64 bits five shifts smear over 32 places: the result is the least power of two exactly if that
   * fits and no gap is wider. At 0 the decrement wraps, and the increment behind the shifts wraps back.
   */
  method MinBucket(n: nat) returns (r: nat)
    requires n < Pow2(64)
    ensures n == 0 ==> r == 0
    ensures n > 0 ==> (LeastPower(n, r) <==> n <= Pow2(63) && Dense(n - 1))
  {
    hide Or, Shr, Smeared, Pow2, LeastPower, Dense;
    var max := Pow2(64) - 1;
    ghost var x0 := if n == 0 then max else n - 1;
    var x := if n == 0 then max else n - 1;
    NotSmeared(x0);
    Smear(x0, x, 1);
    x := Or(x, Shr(x, 1));
    Smear(x0, x, 2);
    x := Or(x, Shr(x, 2));
    Smear(x0, x, 4);
    x := Or(x, Shr(x, 4));
    Smear(x0, x, 8);
    x := Or(x, Shr(x, 8));
    Smear(x0, x, 16);
    x := Or(x, Shr(x, 16));
    r := if x == max then 0 else x + 1;
    BucketIs(n, x0, x, r);
  }

  lemma BucketIs(n: nat, x: nat, y: nat, r: nat)
    requires n < Pow2(64) && x == (if n == 0 then Pow2(64) - 1 else n - 1) && Smeared(x, y, 32)
    requires r == if y == Pow2(64) - 1 then 0 else y + 1
    ensures n == 0 ==> r == 0
    ensures n > 0 ==> (LeastPower(n, r) <==> n <= Pow2(63) && Dense(n - 1))
  {
    hide Pow2, Smeared, LeastPower, Dense;
    Doubles(63);
    SmearBound(x, y, 32, 64);
    if n == 0 {
      OnesStay(y, 64);
    } else if n <= Pow2(63) {
      SmearBound(x, y, 32, 63);
      FillsIfDense(x, y);
    } else {
      NoPowerFits(n, r);
    }
  }

  /** Smearing reaches no place above the highest one. */
  lemma SmearBound(x: nat, y: nat, w: nat, m: nat)
    requires x < Pow2(m) && Smeared(x, y, w)
    ensures y < Pow2(m)
  {
    hide Pow2;
    if y > 0 {
      var j := TopBit(y);
      var c: nat :| j <= c < j + w && Bit(x, c) == 1;
      if x == 0 { BitOfZero(c); }
      var k := TopBit(x);
      if k >= m { Pow2Monotone(m, k); }
      Pow2Monotone(j + 1, m);
    }
  }

  lemma OnesStay(y: nat, m: nat)
    requires Smeared(Pow2(m) - 1, y, 32)
    ensures y == Pow2(m) - 1
  {
    var x := Pow2(m) - 1;
    hide Pow2;
    forall c: nat ensures Bit(x, c) == if c < m then 1 else 0 { OnesBits(m, c); }
    forall i: nat ensures Bit(y, i) == if i < m then 1 else 0 {
      BitIsBit(y, i);
      assert Bit(x, i) == 1 ==> OneWithin(x, i, 32);
    }
    AllOnes(y, m);
  }

  lemma NoPowerFits(n: nat, r: nat)
    requires Pow2(63) < n && r < Pow2(64)
    ensures !LeastPower(n, r)
  {
    hide Pow2;
    if LeastPower(n, r) {
      var k: nat :| r == Pow2(k) && n <= r && (k > 0 ==> Pow2(k - 1) < n);
      if k <= 63 {
        Pow2Monotone(k, 63);
      } else {
        Pow2Monotone(64, k);
      }
    }
  }

  lemma FillsIfDense(x: nat, y: nat)
    requires Smeared(x, y, 32)
    ensures LeastPower(x + 1, y + 1) <==> Dense(x)
  {
    if x == 0 {
      NothingToFill(y);
    } else {
      var j := TopBit(x);
      OnlyFilled(x, y, j);
      FilledIsDense(x, y, j);
    }
  }

  lemma NothingToFill(y: nat)
    requires Smeared(0, y, 32)
    ensures LeastPower(1, y + 1) && Dense(0)
  {
    forall i: nat ensures Bit(0, i) == 0 && Bit(y, i) == 0 {
      BitIsBit(y, i);
      forall c: nat ensures Bit(0, c) == 0 { BitOfZero(c); }
      assert !OneWithin(0, i, 32);
    }
    AllOnes(y, 0);
    assert Pow2(0) == 1;
  }

  /** A least power above x can only be the one above its highest bit, so it means all ones below. */
  lemma OnlyFilled(x: nat, y: nat, j: nat)
    requires Pow2(j) <= x < Pow2(j + 1)
    ensures LeastPower(x + 1, y + 1) <==> y == Pow2(j + 1) - 1
  {
    hide Pow2;
    if LeastPower(x + 1, y + 1) {
      var k: nat :| y + 1 == Pow2(k) && x + 1 <= y + 1 && (k > 0 ==> Pow2(k - 1) < x + 1);
      if k <= j { Pow2Monotone(k, j); }
      if k > j + 1 { Pow2Monotone(j + 1, k - 1); }
    }
    if y == Pow2(j + 1) - 1 { assert y + 1 == Pow2(j + 1) && Pow2(j + 1 - 1) < x + 1; }
  }

  lemma FilledIsDense(x: nat, y: nat, j: nat)
    requires Smeared(x, y, 32) && IsTop(x, j)
    ensures y == Pow2(j + 1) - 1 <==> Dense(x)
  {
    if y == Pow2(j + 1) - 1 {
      forall i: nat, k: nat | i <= k && Bit(x, k) == 1 ensures OneWithin(x, i, 32) {
        OnesBits(j + 1, i);
        assert Bit(y, i) == 1;
      }
    }
    if Dense(x) {
      forall i: nat ensures Bit(y, i) == if i < j + 1 then 1 else 0 {
        BitIsBit(y, i);
        assert i > j ==> !OneWithin(x, i, 32);
      }
      AllOnes(y, j + 1);
    }
  }

  lemma {:induction false} OnesBits(m: nat, i: nat)
    ensures Bit(Pow2(m) - 1, i) == if i < m then 1 else 0
    decreases i
  {
    if m == 0 {
      BitOfZero(i);
    } else if i > 0 {
      assert (Pow2(m) - 1) / 2 == Pow2(m - 1) - 1;
      OnesBits(m - 1, i - 1);
    }
  }

  lemma SmallFits(x: nat)
    requires x < Pow2(32)
    ensures x + 1 <= Pow2(63) < Pow2(64)
  {
    hide Pow2;
    Doubles(63);
    Pow2Monotone(32, 63);
  }

  /** Up to 2^32 there is no room for such a gap. */
  lemma SmallIsDense(x: nat)
    requires x < Pow2(32)
    ensures Dense(x)
  {
    if x == 0 {
      forall j: nat ensures Bit(0, j) == 0 { BitOfZero(j); }
    } else {
      var t := TopBit(x);
      if t >= 32 { Pow2Monotone(32, t); }
      forall i: nat, j: nat | i <= j && Bit(x, j) == 1 ensures OneWithin(x, i, 32) {
        assert j <= t;
      }
    }
  }

  /** A power of two, the size of a full object, has one exactly from 2^32 on. */
  lemma PowerIsDense(k: nat)
    ensures Dense(Pow2(k)) <==> k < 32
  {
    PowerBits(k, k);
    if k < 32 {
      Pow2Monotone(k, 31);
      assert Pow2(32) == 2 * Pow2(31);
      hide Pow2;
      SmallIsDense(Pow2(k));
    } else {
      forall c: nat | c < 32 ensures Bit(Pow2(k), c) == 0 { PowerBits(k, c); }
      assert !OneWithin(Pow2(k), 0, 32);
    }
  }

  lemma {:induction false} PowerBits(k: nat, i: nat)
    ensures Bit(Pow2(k), i) == if i == k then 1 else 0
    decreases i
  {
    if k == 0 {
      if i > 0 { BitOfZero(i - 1); }
    } else if i > 0 {
      assert Pow2(k) / 2 == Pow2(k - 1);
      PowerBits(k - 1, i - 1);
    }
  }

  /** Masking with a power of two less one is the remainder. */
  lemma {:induction false} MaskIsMod(x: nat, k: nat)
    ensures And(x, Pow2(k) - 1) == x % Pow2(k)
  {
    if x == 0 {
      ModUnique(0, Pow2(k), 0, 0);
      hide Pow2;
    } else if k > 0 {
      var m := Pow2(k - 1);
      assert Pow2(k) == 2 * m;
      hide Pow2, And;
      MaskIsMod(x / 2, k - 1);
      MaskStep(x, m);
    }
  }

  lemma MaskStep(x: nat, m: nat)
    requires m > 0 && x > 0 && And(x / 2, m - 1) == x / 2 % m
    ensures And(x, 2 * m - 1) == x % (2 * m)
  {
    AndStep(x, m);
    ModHalf(x, m);
    hide And;
  }

  lemma AndStep(x: nat, m: nat)
    requires m > 0 && x > 0
    ensures And(x, 2 * m - 1) == x % 2 + 2 * And(x / 2, m - 1)
  {
    assert (2 * m - 1) / 2 == m - 1 && (2 * m - 1) % 2 == 1;
  }

  lemma ModHalf(x: nat, m: nat)
    requires m > 0
    ensures x % (2 * m) == x % 2 + 2 * (x / 2 % m)
  {
    var q, r := x / 2 / m, x / 2 % m;
    assert x / 2 == m * q + r;
    assert x == (2 * m) * q + (x % 2 + 2 * r);
    ModUnique(x, 2 * m, q, x % 2 + 2 * r);
  }

  lemma ModUnique(x: nat, d: nat, q: nat, r: nat)
    requires d > 0 && r < d && x == d * q + r
    ensures x % d == r && x / d == q
  {
    var q2 := x / d;
    assert x == d * q2 + x % d;
    Gap(d, q, q2);
    Gap(d, q2, q);
  }

  lemma {:induction false} Gap(d: nat, a: nat, b: nat)
    ensures a < b ==> d * b >= d * a + d
    decreases b
  {
    if a < b {
      assert d * b == d * (b - 1) + d;
      Gap(d, a, b - 1);
    }
  }
}
