/** Powers of two, and numbers read bit by bit: the arithmetic every CIDR argument rests on. */
module Arith {

  function Pow2(n: nat): (r: nat)
    ensures r >= 1
  {
    if n == 0 then 1 else 2 * Pow2(n - 1)
  }

  lemma {:induction false} Pow2Mono(a: nat, b: nat)
    requires a <= b
    ensures Pow2(a) <= Pow2(b)
    ensures a < b ==> 2 * Pow2(a) <= Pow2(b)
    decreases b - a
  {
    if a < b {
      Pow2Mono(a, b - 1);
    }
  }

  lemma SmallerPower(j: nat, k: nat)
    ensures Pow2(j) < Pow2(k) <==> j < k
  {
    if j < k { Pow2Mono(j, k); } else { Pow2Mono(k, j); }
  }

  /** Eight more bits are a factor of 256. */
  lemma Pow2Byte(n: nat)
    ensures Pow2(n + 8) == 256 * Pow2(n)
  {
    assert Pow2(n + 2) == 2 * Pow2(n + 1) && Pow2(n + 4) == 2 * Pow2(n + 3);
    assert Pow2(n + 6) == 2 * Pow2(n + 5) && Pow2(n + 8) == 2 * Pow2(n + 7);
  }

  lemma Pow2At32()
    ensures Pow2(8) == 0x100 && Pow2(16) == 0x1_0000 && Pow2(24) == 0x100_0000 && Pow2(32) == 0x1_0000_0000
  {
    Pow2Byte(0);
    Pow2Byte(8);
    Pow2Byte(16);
    Pow2Byte(24);
  }

  /** The low `k` bits of `x` are zero. */
  predicate Aligned(x: nat, k: nat) {
    k == 0 || (x % 2 == 0 && Aligned(x / 2, k - 1))
  }

  /** Two different numbers aligned to 2^k are at least 2^k apart. */
  lemma {:induction false} AlignedApart(x: nat, y: nat, k: nat)
    requires Aligned(x, k) && Aligned(y, k) && x < y
    ensures x + Pow2(k) <= y
  {
    if k > 0 { AlignedApart(x / 2, y / 2, k - 1); }
  }

  lemma {:induction false} AlignedSum(x: nat, y: nat, k: nat)
    requires Aligned(x, k) && Aligned(y, k)
    ensures Aligned(x + y, k) && (x <= y ==> Aligned(y - x, k))
  {
    if k > 0 {
      AlignedSum(x / 2, y / 2, k - 1);
      assert (x + y) / 2 == x / 2 + y / 2;
      assert x <= y ==> (y - x) / 2 == y / 2 - x / 2;
    }
  }

  lemma {:induction false} AlignedCoarser(x: nat, small: nat, big: nat)
    requires small <= big && Aligned(x, big)
    ensures Aligned(x, small)
  {
    if small > 0 { AlignedCoarser(x / 2, small - 1, big - 1); }
  }

  lemma {:induction false} AlignedPow2(n: nat, k: nat)
    requires k <= n
    ensures Aligned(Pow2(n), k)
  {
    if k > 0 {
      AlignedPow2(n - 1, k - 1);
      assert Pow2(n) == 2 * Pow2(n - 1);
    }
  }

  lemma {:induction false} AlignedZero(k: nat)
    ensures Aligned(0, k)
  {
    if k > 0 { AlignedZero(k - 1); }
  }

  /** `x` with its low `k` bits cleared. */
  function ClearLow(x: nat, k: nat): (r: nat)
    ensures Aligned(r, k) && r <= x < r + Pow2(k)
  {
    if k == 0 then x else 2 * ClearLow(x / 2, k - 1)
  }

  lemma ClearLowUnique(x: nat, k: nat, r: nat)
    requires Aligned(r, k) && r <= x < r + Pow2(k)
    ensures ClearLow(x, k) == r
  {
    var f := ClearLow(x, k);
    if f < r { AlignedApart(f, r, k); }
    if r < f { AlignedApart(r, f, k); }
  }

  /** Distinct indices below `m` number at most `m`. */
  lemma {:induction false} DistinctBelow(f: seq<nat>, m: nat)
    requires forall i :: 0 <= i < |f| ==> f[i] < m
    requires forall i, j :: 0 <= i < j < |f| ==> f[i] != f[j]
    ensures |f| <= m
  {
    DistinctSize(f);
    SubsetSize(Elements(f), Below(m));
  }

  function Elements(f: seq<int>): set<int> {
    set x | x in f
  }

  function Below(m: nat): (r: set<int>)
    ensures forall x :: x in r <==> 0 <= x < m
    ensures |r| == m
  {
    if m == 0 then {} else Below(m - 1) + {m - 1}
  }

  lemma {:induction false} DistinctSize(f: seq<int>)
    requires forall i, j :: 0 <= i < j < |f| ==> f[i] != f[j]
    ensures |Elements(f)| == |f|
  {
    if f != [] {
      var g, l := f[..|f| - 1], f[|f| - 1];
      DistinctSize(g);
      assert Elements(f) == Elements(g) + {l};
      assert l !in Elements(g);
    }
  }

  lemma {:induction false} SubsetSize<T>(a: set<T>, b: set<T>)
    requires a <= b
    ensures |a| <= |b|
  {
    if a != {} {
      var x :| x in a;
      SubsetSize(a - {x}, b - {x});
    }
  }
}
