/** Bitwise operations on naturals, by recursion on the bits. */
module Bits {
  import opened Arith

  /** Bit `k` of `x`. */
  function Bit(x: nat, k: nat): nat {
    if k == 0 then x % 2 else Bit(x / 2, k - 1)
  }

  function Or(x: nat, y: nat): nat
    decreases x + y
  {
    if x == 0 && y == 0 then 0
    else 2 * Or(x / 2, y / 2) + (if x % 2 == 1 || y % 2 == 1 then 1 else 0)
  }

  function And(x: nat, y: nat): nat
    decreases x + y
  {
    if x == 0 || y == 0 then 0
    else 2 * And(x / 2, y / 2) + (if x % 2 == 1 && y % 2 == 1 then 1 else 0)
  }

  lemma {:induction false} OrZero(x: nat)
    ensures Or(x, 0) == x
  {
    if x > 0 { OrZero(x / 2); }
  }

  /** Setting bit `k` with OR adds its weight unless the bit is already set. */
  lemma {:induction false} OrBit(x: nat, k: nat)
    ensures Or(x, Pow2(k)) == if Bit(x, k) == 1 then x else x + Pow2(k)
  {
    if k == 0 { OrZero(x / 2); } else { OrBit(x / 2, k - 1); }
  }

  /** Setting a bit below the width stays below the width. */
  lemma {:induction false} AddBitFits(x: nat, k: nat, n: nat)
    requires x < Pow2(n) && k < n && Bit(x, k) != 1
    ensures x + Pow2(k) < Pow2(n)
  {
    var half := Pow2(n - 1);
    assert Pow2(n) == 2 * half;
    if k > 0 {
      assert Pow2(k) == 2 * Pow2(k - 1);
      assert Bit(x, k) == Bit(x / 2, k - 1);
      AddBitFits(x / 2, k - 1, n - 1);
    }
  }

  lemma {:induction false} AndAllOnes(x: nat, n: nat)
    requires x < Pow2(n)
    ensures And(x, Pow2(n) - 1) == x
  {
    if n > 0 {
      AndOdd(x, Pow2(n - 1) - 1);
      AndAllOnes(x / 2, n - 1);
    }
  }

  /** AND with a mask of `n - k` leading ones over `k` zeros clears the low `k` bits of an n-bit number. */
  lemma {:induction false} AndLeadingOnes(x: nat, n: nat, k: nat)
    requires k <= n && x < Pow2(n)
    ensures Pow2(k) <= Pow2(n)
    ensures And(x, Pow2(n) - Pow2(k)) == ClearLow(x, k)
    decreases n
  {
    hide And;
    Pow2Mono(k, n);
    if k == 0 {
      AndAllOnes(x, n);
    } else {
      AndLeadingOnes(x / 2, n - 1, k - 1);
      var m := Pow2(n - 1) - Pow2(k - 1);
      assert Pow2(n) - Pow2(k) == 2 * m;
      AndEven(x, m);
    }
  }

  lemma AndOdd(x: nat, m: nat)
    ensures And(x, 2 * m + 1) == 2 * And(x / 2, m) + x % 2
  {
    assert (2 * m + 1) / 2 == m && (2 * m + 1) % 2 == 1;
  }

  lemma AndEven(x: nat, m: nat)
    ensures And(x, 2 * m) == 2 * And(x / 2, m)
  {
    assert (2 * m) / 2 == m && (2 * m) % 2 == 0;
  }

  /** `v` with the bits from `lo` up to, but not including, `hi` set. */
  function Fill(v: nat, lo: nat, hi: nat): nat
    requires lo <= hi
    decreases hi
  {
    if hi == 0 then v
    else if lo == 0 then 2 * Fill(v / 2, 0, hi - 1) + 1
    else 2 * Fill(v / 2, lo - 1, hi - 1) + v % 2
  }

  lemma {:induction false} FillNone(v: nat, hi: nat)
    ensures Fill(v, hi, hi) == v
  {
    if hi > 0 { FillNone(v / 2, hi - 1); }
  }

  lemma FillUnfold(v: nat, lo: nat, hi: nat)
    requires lo <= hi && 0 < hi
    ensures Fill(v, lo, hi) == 2 * Fill(v / 2, if lo == 0 then 0 else lo - 1, hi - 1) + if lo == 0 then 1 else v % 2
  {
  }

  lemma BitUnfold(x: nat, b: nat, k: nat)
    requires b < 2
    ensures Bit(2 * x + b, k) == if k == 0 then b else Bit(x, k - 1)
  {
    assert (2 * x + b) / 2 == x && (2 * x + b) % 2 == b;
  }

  lemma PowUnfold(k: nat)
    ensures Pow2(k + 1) == 2 * Pow2(k) && Pow2(0) == 1
  {
  }

  lemma {:induction false} FillStep(v: nat, lo: nat, hi: nat)
    requires lo < hi
    ensures var x := Fill(v, lo + 1, hi);
            Fill(v, lo, hi) == if Bit(x, lo) == 1 then x else x + Pow2(lo)
  {
    hide *;
    FillUnfold(v, lo, hi);
    FillUnfold(v, lo + 1, hi);
    BitUnfold(Fill(v / 2, lo, hi - 1), v % 2, lo);
    if lo == 0 {
      PowUnfold(0);
    } else {
      FillStep(v / 2, lo - 1, hi - 1);
      PowUnfold(lo - 1);
    }
  }

  lemma {:induction false} FillAll(v: nat, hi: nat)
    ensures Fill(v, 0, hi) == ClearLow(v, hi) + Pow2(hi) - 1
  {
    if hi > 0 { FillAll(v / 2, hi - 1); }
  }

  /** Clearing low bits of a sum whose first part has none there. */
  lemma {:induction false} ClearLowSum(a: nat, v: nat, k: nat)
    requires Aligned(a, k)
    ensures ClearLow(a + v, k) == a + ClearLow(v, k)
  {
    if k > 0 {
      ClearLowSum(a / 2, v / 2, k - 1);
      assert (a + v) / 2 == a / 2 + v / 2;
    }
  }
}
