/** Bitwise `and` and `or` on non-negative integers, and what they do to low and high bits. */
module Bits {

  function Pow2(n: nat): (p: nat)
    ensures p > 0
  {
    if n == 0 then 1 else 2 * Pow2(n - 1)
  }

  function BitOr(x: nat, y: nat): nat
    decreases x + y
  {
    if x == 0 && y == 0 then 0
    else 2 * BitOr(x / 2, y / 2) + (if x % 2 == 1 || y % 2 == 1 then 1 else 0)
  }

  function BitAnd(x: nat, y: nat): nat
    decreases x + y
  {
    if x == 0 && y == 0 then 0
    else 2 * BitAnd(x / 2, y / 2) + (if x % 2 == 1 && y % 2 == 1 then 1 else 0)
  }

  lemma {:induction false} Pow2Add(a: nat, b: nat)
    ensures Pow2(a + b) == Pow2(a) * Pow2(b)
    decreases a
  {
    if a == 0 {
    } else {
      Pow2Add(a - 1, b);
      assert Pow2(a + b) == 2 * Pow2(a - 1 + b);
      assert 2 * (Pow2(a - 1) * Pow2(b)) == 2 * Pow2(a - 1) * Pow2(b);
    }
  }

  lemma {:induction false} Pow2Grows(a: nat, b: nat)
    requires a <= b
    ensures Pow2(a) <= Pow2(b)
    decreases b
  {
    if a == b {
    } else {
      Pow2Grows(a, b - 1);
    }
  }

  lemma {:induction false} OrZero(x: nat)
    ensures BitOr(x, 0) == x
  {
    if x == 0 {
    } else {
      OrZero(x / 2);
    }
  }

  /** A multiple of 2^h is even, and half of it is that multiple of 2^(h-1). */
  lemma Halve(k: nat, h: nat, y: nat)
    requires h > 0
    ensures (k * Pow2(h) + y) / 2 == k * Pow2(h - 1) + y / 2 && (k * Pow2(h) + y) % 2 == y % 2
  {
    assert k * Pow2(h) == 2 * (k * Pow2(h - 1));
  }

  /** `or` fills the low bits of a value that has none set. */
  lemma {:induction false} OrFills(k: nat, y: nat, h: nat)
    requires y < Pow2(h)
    ensures BitOr(k * Pow2(h), y) == k * Pow2(h) + y
    decreases h
  {
    if h == 0 {
      OrZero(k);
      assert k * Pow2(0) == k;
    } else {
      Halve(k, h, 0);
      Halve(k, h, y);
      OrFills(k, y / 2, h - 1);
      if k * Pow2(h) == 0 && y == 0 {
      } else {
        assert BitOr(k * Pow2(h), y) == 2 * BitOr(k * Pow2(h - 1), y / 2) + y % 2;
      }
    }
  }

  lemma {:induction false} AndZero(x: nat)
    ensures BitAnd(x, 0) == 0
  {
    if x == 0 {
    } else {
      AndZero(x / 2);
    }
  }

  /** `and` with 2^h - 1 keeps the low h bits. */
  lemma {:induction false} AndLow(k: nat, y: nat, h: nat)
    requires y < Pow2(h)
    ensures BitAnd(k * Pow2(h) + y, Pow2(h) - 1) == y
    decreases h
  {
    if h == 0 {
      AndZero(k * Pow2(0) + y);
    } else {
      Halve(k, h, y);
      AndLow(k, y / 2, h - 1);
      assert (Pow2(h) - 1) / 2 == Pow2(h - 1) - 1 && (Pow2(h) - 1) % 2 == 1;
    }
  }

  /** `and` with m * 2^h drops the low h bits of a value and masks the others with m. */
  lemma {:induction false} AndHigh(k: nat, y: nat, m: nat, h: nat)
    requires y < Pow2(h)
    ensures BitAnd(k * Pow2(h) + y, m * Pow2(h)) == BitAnd(k, m) * Pow2(h)
    decreases h
  {
    hide BitAnd;
    if h == 0 {
      assert k * Pow2(0) + y == k && m * Pow2(0) == m && BitAnd(k, m) * Pow2(0) == BitAnd(k, m);
    } else {
      var x, z := k * Pow2(h) + y, m * Pow2(h);
      Halve(k, h, y);
      Halve(m, h, 0);
      AndHigh(k, y / 2, m, h - 1);
      AndEven(x, z);
      ScaleDouble(BitAnd(k, m), h);
    }
  }

  lemma AndEven(x: nat, z: nat)
    requires z % 2 == 0
    ensures BitAnd(x, z) == 2 * BitAnd(x / 2, z / 2)
  {
  }

  lemma ScaleDouble(a: nat, h: nat)
    requires h > 0
    ensures a * Pow2(h) == 2 * (a * Pow2(h - 1))
  {
  }

  /** `and` with as many ones as a value has bits keeps it. */
  lemma AndOnes(k: nat, h: nat)
    requires k < Pow2(h)
    ensures BitAnd(k, Pow2(h) - 1) == k
  {
    AndLow(0, k, h);
  }

  lemma {:induction false} OrCommutes(x: nat, y: nat)
    ensures BitOr(x, y) == BitOr(y, x)
    decreases x + y
  {
    if x == 0 && y == 0 {
    } else {
      OrCommutes(x / 2, y / 2);
    }
  }

  /** Setting bit b of a value whose lower bits are all ones. */
  lemma OrNextBit(b: nat)
    ensures BitOr(Pow2(b) - 1, Pow2(b)) == Pow2(b + 1) - 1
  {
    OrFills(1, Pow2(b) - 1, b);
    OrCommutes(Pow2(b) - 1, Pow2(b));
  }
}
