/** `rangeToCIDR`: an inclusive address range as the shortest list of prefixes. */
module Ranges {
  import opened Arith
  import opened Cidr
  import opened Canonical
  import LastAddr

  /** `p` cannot be widened: the parent starts earlier or runs past `e`. */
  predicate Widest(p: Prefix, e: nat)
    requires IsBlock(p)
  {
    p.bits == 0 || Parent(p).base != p.base || e < Top(Parent(p))
  }

  /** The blocks follow each other without gaps from `s` up to `t`, and none can be widened within `e`. */
  predicate GreedyTiling(ps: seq<Prefix>, fam: Family, s: nat, t: nat, e: nat) {
    if ps == [] then s == t
    else
      && IsBlock(ps[0]) && ps[0].fam == fam && ps[0].base == s
      && Top(ps[0]) <= e && Widest(ps[0], e)
      && GreedyTiling(ps[1..], fam, Top(ps[0]), t, e)
  }

  /** Every block lies in the range and cannot be widened. */
  predicate WithinRange(ps: seq<Prefix>, fam: Family, s: nat, t: nat, e: nat) {
    forall i :: 0 <= i < |ps| ==>
      IsBlock(ps[i]) && ps[i].fam == fam && s <= ps[i].base && Top(ps[i]) <= t && Widest(ps[i], e)
  }

  lemma {:induction false} TilingWithin(ps: seq<Prefix>, fam: Family, s: nat, t: nat, e: nat)
    requires GreedyTiling(ps, fam, s, t, e)
    ensures s <= t && (s <= e ==> t <= e)
    ensures WithinRange(ps, fam, s, t, e) && AllBlocks(ps)
  {
    if ps != [] {
      TilingWithin(ps[1..], fam, Top(ps[0]), t, e);
      forall i | 0 <= i < |ps|
        ensures IsBlock(ps[i]) && ps[i].fam == fam && s <= ps[i].base && Top(ps[i]) <= t && Widest(ps[i], e)
      {
        if i > 0 { assert ps[i] == ps[1..][i - 1]; }
      }
    }
  }

  /** The tiling covers exactly the range. */
  lemma {:induction false} TilingCovers(ps: seq<Prefix>, fam: Family, s: nat, t: nat, e: nat, a: Addr)
    requires GreedyTiling(ps, fam, s, t, e)
    ensures AllBlocks(ps) && (Covered(ps, a) <==> a.fam == fam && s <= a.val < t)
  {
    if ps != [] {
      TilingCovers(ps[1..], fam, Top(ps[0]), t, e, a);
      TilingWithin(ps[1..], fam, Top(ps[0]), t, e);
      assert ps == [ps[0]] + ps[1..];
      CoveredOne(ps[0], a);
      CoveredConcat([ps[0]], ps[1..], a);
    }
  }

  lemma {:induction false} TilingOrdered(ps: seq<Prefix>, fam: Family, s: nat, t: nat, e: nat)
    requires GreedyTiling(ps, fam, s, t, e)
    ensures AllBlocks(ps) && SortedDisjoint(ps)
  {
    if ps != [] {
      TilingOrdered(ps[1..], fam, Top(ps[0]), t, e);
      TilingWithin(ps[1..], fam, Top(ps[0]), t, e);
      SortedPrepend(ps[0], ps[1..]);
      assert ps == [ps[0]] + ps[1..];
    }
  }

  /** A greedy tiling is canonical, hence unique and minimal among all prefix lists for the range. */
  lemma TilingCanonical(ps: seq<Prefix>, fam: Family, s: nat, e: nat)
    requires GreedyTiling(ps, fam, s, e, e)
    ensures IsCanonical(ps)
  {
    TilingWithin(ps, fam, s, e, e);
    TilingOrdered(ps, fam, s, e, e);
    forall i, j | 0 <= i < |ps| && 0 <= j < |ps| ensures !Siblings(ps[i], ps[j]) {
      if Siblings(ps[i], ps[j]) {
        if ps[i].base <= ps[j].base {
          SiblingsTile(ps[i], ps[j]);
        } else {
          SiblingsTile(ps[j], ps[i]);
        }
      }
    }
  }

  lemma {:induction false} TilingAppend(ps: seq<Prefix>, p: Prefix, s: nat, t: nat, e: nat)
    requires IsBlock(p) && GreedyTiling(ps, p.fam, s, t, e)
    requires p.base == t && Top(p) <= e && Widest(p, e)
    ensures GreedyTiling(ps + [p], p.fam, s, Top(p), e)
  {
    if ps == [] {
      assert [p][1..] == [];
    } else {
      TilingAppend(ps[1..], p, Top(ps[0]), t, e);
      assert (ps + [p])[1..] == ps[1..] + [p];
    }
  }

  /** No list of prefixes for the same range is shorter than the greedy one. */
  lemma GreedyIsShortest(ps: seq<Prefix>, fam: Family, s: nat, e: nat, other: seq<Prefix>)
    requires GreedyTiling(ps, fam, s, e, e) && AllBlocks(other)
    requires forall a :: Covered(other, a) <==> a.fam == fam && s <= a.val < e
    ensures |ps| <= |other|
  {
    TilingCanonical(ps, fam, s, e);
    forall a ensures Covered(ps, a) <==> Covered(other, a) {
      TilingCovers(ps, fam, s, e, e, a);
    }
    CanonicalMinimal(ps, other);
  }

  // ---- how many blocks a range takes ----

  /** A start aligned to twice the block size makes the parent start there too. */
  lemma AlignedParent(p: Prefix, k: nat)
    requires IsBlock(p) && HostBits(p) < k && Aligned(p.base, k) && p.bits > 0
    ensures Parent(p).base == p.base && Size(Parent(p)) == 2 * Size(p)
  {
    AlignedCoarser(p.base, HostBits(p) + 1, k);
    ClearLowUnique(p.base, HostBits(p) + 1, p.base);
  }

  /** The first block when less than 2^k remains: what is left after it is smaller than the block. */
  lemma FirstDescending(p: Prefix, e: nat, k: nat)
    requires IsBlock(p) && k <= Width(p.fam) && Aligned(p.base, k)
    requires Top(p) <= e < p.base + Pow2(k) && Widest(p, e)
    ensures HostBits(p) < k && e < Top(p) + Size(p) && Aligned(Top(p), HostBits(p))
  {
    SmallerPower(HostBits(p), k);
    AlignedParent(p, k);
    BlockFits(p);
  }

  /** Once less than 2^k remains, block sizes only shrink: at most `k` blocks are left. */
  lemma {:induction false} DescentBound(ps: seq<Prefix>, fam: Family, s: nat, e: nat, k: nat)
    requires GreedyTiling(ps, fam, s, e, e) && k <= Width(fam)
    requires Aligned(s, k) && e < s + Pow2(k)
    ensures |ps| <= k
    decreases |ps|
  {
    if ps != [] {
      FirstDescending(ps[0], e, k);
      DescentBound(ps[1..], fam, Top(ps[0]), e, HostBits(ps[0]));
    }
  }

  /**
    The first block after a non-zero start aligned to 2^k: either the end stops it, and less than
    its size remains, or its own alignment does, and the next block starts at a coarser boundary.
    */
  lemma FirstAscending(p: Prefix, e: nat, k: nat)
    requires IsBlock(p) && k < Width(p.fam) && 0 < p.base && Aligned(p.base, k)
    requires Top(p) <= e && Widest(p, e)
    ensures p.bits > 0 && Aligned(Top(p), HostBits(p))
    ensures Parent(p).base == p.base ==> HostBits(p) + 1 < Width(p.fam) && e < Top(p) + Size(p)
    ensures Parent(p).base != p.base ==>
              k <= HostBits(p) && Aligned(Top(p), HostBits(p) + 1) && Top(p) == Top(Parent(p))
  {
    if HostBits(p) < k { AlignedParent(p, k); }
    BlockFits(p);
    NotAtZero(p);
    NotAtZero(Parent(p));
    ParentHalves(p);
    BlockFits(Parent(p));
  }

  lemma ZeroOnly(x: nat, k: nat)
    requires x < Pow2(k) && Aligned(x, k)
    ensures x == 0
  {
    AlignedZero(k);
    if x > 0 { AlignedApart(0, x, k); }
  }

  /** The whole address space is the only block without leading bits, and it starts at zero. */
  lemma NotAtZero(p: Prefix)
    requires IsBlock(p)
    ensures p.base > 0 ==> p.bits > 0
    ensures p.bits == 0 ==> Top(p) == Pow2(Width(p.fam))
  {
    if p.bits == 0 { ZeroOnly(p.base, Width(p.fam)); }
  }

  /** From a non-zero start aligned to 2^k, sizes first grow with the alignment and then shrink. */
  lemma {:induction false} AscentBound(ps: seq<Prefix>, fam: Family, s: nat, e: nat, k: nat)
    requires GreedyTiling(ps, fam, s, e, e) && k < Width(fam)
    requires 0 < s && Aligned(s, k) && e <= Pow2(Width(fam))
    ensures |ps| <= (Width(fam) - 1 - k) + (Width(fam) - 1)
    decreases |ps|
  {
    if ps != [] {
      var p := ps[0];
      FirstAscending(p, e, k);
      if Parent(p).base == p.base {
        DescentBound(ps[1..], fam, Top(p), e, HostBits(p));
      } else if HostBits(p) + 1 < Width(fam) {
        AscentBound(ps[1..], fam, Top(p), e, HostBits(p) + 1);
      } else {
        NotAtZero(Parent(p));
        NothingLeft(ps[1..], fam, Top(p), e);
      }
    }
  }

  lemma NothingLeft(ps: seq<Prefix>, fam: Family, s: nat, e: nat)
    requires GreedyTiling(ps, fam, s, e, e) && e <= s
    ensures ps == []
  {
  }

  /** At most 2W - 2 prefixes: 62 for IPv4, 254 for IPv6. */
  lemma TilingBound(ps: seq<Prefix>, fam: Family, s: nat, e: nat)
    requires GreedyTiling(ps, fam, s, e, e) && e <= Pow2(Width(fam))
    ensures |ps| <= 2 * Width(fam) - 2
  {
    var w := Width(fam);
    if s > 0 {
      AscentBound(ps, fam, s, e, 0);
    } else if ps != [] {
      AlignedZero(w);
      if e < Pow2(w) {
        DescentBound(ps, fam, s, e, w);
      } else {
        WholeSpace(ps[0], w);
        NothingLeft(ps[1..], fam, Top(ps[0]), e);
      }
    }
  }

  lemma WholeSpace(p: Prefix, w: nat)
    requires IsBlock(p) && p.base == 0 && w == Width(p.fam) && Widest(p, Pow2(w))
    ensures Top(p) == Pow2(w)
  {
    AlignedZero(w);
    NotAtZero(p);
    if p.bits > 0 {
      AlignedParent(p, w);
      BlockFits(Parent(p));
    }
  }

  lemma {:induction false} DescentExact(ps: seq<Prefix>, fam: Family, s: nat, e: nat, k: nat)
    requires GreedyTiling(ps, fam, s, e, e) && k <= Width(fam)
    requires Aligned(s, k) && e == s + Pow2(k) - 1
    ensures |ps| == k
    decreases k
  {
    hide Aligned, Widest, ClearLow;
    if k == 0 {
      NothingLeft(ps, fam, s, e);
    } else {
      FirstDescending(ps[0], e, k);
      SmallerPower(HostBits(ps[0]) + 1, k);
      DescentExact(ps[1..], fam, Top(ps[0]), e, HostBits(ps[0]));
    }
  }

  lemma {:induction false} AscentExact(ps: seq<Prefix>, fam: Family, k: nat, e: nat)
    requires k < Width(fam) && e == Pow2(Width(fam)) - 1
    requires GreedyTiling(ps, fam, Pow2(k), e, e)
    ensures |ps| == (Width(fam) - 1 - k) + (Width(fam) - 1)
    decreases Width(fam) - k
  {
    hide Aligned, Widest, ClearLow;
    AlignedPow2(k, k);
    if k == Width(fam) - 1 {
      DescentExact(ps, fam, Pow2(k), e, k);
    } else {
      SmallerPower(k + 1, Width(fam));
      FirstSize(ps[0], e, k);
      AscentExact(ps[1..], fam, k + 1, e);
    }
  }

  /** The first block from 2^k is the one of size 2^k while the end is at least that far away again. */
  lemma FirstSize(p: Prefix, e: nat, k: nat)
    requires IsBlock(p) && p.base == Pow2(k) && k + 1 < Width(p.fam)
    requires Top(p) <= e && Widest(p, e) && 2 * Pow2(k) <= e
    ensures HostBits(p) == k
  {
    var j := HostBits(p);
    SmallerPower(k, j);
    SmallerPower(j, k);
    AlignedPow2(k, k);
    FirstAscending(p, e, k);
    if j > k {
      ZeroOnly(Pow2(k), j);
    } else if j < k {
      SmallerPower(k, j + 1);
    }
  }

  /** The bound is reached: everything but the first and the last address takes exactly 2W - 2 prefixes. */
  lemma BoundReached(ps: seq<Prefix>, fam: Family)
    requires GreedyTiling(ps, fam, 1, Pow2(Width(fam)) - 1, Pow2(Width(fam)) - 1)
    ensures |ps| == 2 * Width(fam) - 2
  {
    AscentExact(ps, fam, 0, Pow2(Width(fam)) - 1);
  }

  /**
    main.go:842-877. A range in one family with start <= end gives its canonical cover, of at
    most 2W - 2 prefixes; anything else gives nothing.
    */
  method RangeToCidr(first: Addr, end: Addr) returns (out: seq<Prefix>)
    requires ValidAddr(first) && ValidAddr(end)
    ensures first.fam != end.fam || first.val > end.val ==> out == []
    ensures first.fam == end.fam && first.val <= end.val ==>
              GreedyTiling(out, first.fam, first.val, end.val + 1, end.val + 1)
    ensures IsCanonical(out) && |out| <= 2 * Width(first.fam) - 2
    ensures forall a :: Covered(out, a) <==>
              a.fam == first.fam == end.fam && first.val <= a.val <= end.val
  {
    if first.fam != end.fam || !AddrLe(first, end) {
      return [];
    }
    out := CoverRange(first, end);
    RangeFacts(out, first, end);
  }

  /** The outer loop (main.go:853-874). It stops at the top of the address space, where there is no next address. */
  method CoverRange(first: Addr, end: Addr) returns (out: seq<Prefix>)
    requires ValidAddr(first) && ValidAddr(end) && first.fam == end.fam && first.val <= end.val
    ensures GreedyTiling(out, first.fam, first.val, end.val + 1, end.val + 1)
  {
    hide Aligned, ClearLow, Widest, Pow2;
    out := [];
    var start := first;
    ghost var e := end.val + 1;
    while AddrLe(start, end)
      invariant start.fam == first.fam && ValidAddr(start) && start.val <= e
      invariant GreedyTiling(out, first.fam, first.val, start.val, e)
      decreases e - start.val
    {
      var mask := WidestMask(start, end);
      var prefix := Masked(Prefix(start.fam, start.val, mask));
      TilingAppend(out, prefix, first.val, start.val, e);
      out := out + [prefix];
      var last := LastAddr.LastAddr(prefix);
      var nextStart := Next(last);
      if nextStart.None? {
        return;
      }
      start := nextStart.value;
    }
  }

  lemma RangeFacts(ps: seq<Prefix>, first: Addr, end: Addr)
    requires ValidAddr(end) && first.fam == end.fam && first.val <= end.val
    requires GreedyTiling(ps, first.fam, first.val, end.val + 1, end.val + 1)
    ensures IsCanonical(ps) && |ps| <= 2 * Width(first.fam) - 2
    ensures forall a :: Covered(ps, a) <==> a.fam == first.fam == end.fam && first.val <= a.val <= end.val
  {
    var e := end.val + 1;
    TilingCanonical(ps, first.fam, first.val, e);
    TilingBound(ps, first.fam, first.val, e);
    forall a ensures Covered(ps, a) <==> a.fam == first.fam && first.val <= a.val < e {
      TilingCovers(ps, first.fam, first.val, e, e, a);
    }
  }

  /** The inner loop (main.go:854-866): the shortest mask whose block starts at `start` and ends within `end`. */
  method WidestMask(start: Addr, end: Addr) returns (mask: nat)
    requires ValidAddr(start) && ValidAddr(end) && start.fam == end.fam && start.val <= end.val
    ensures IsBlock(Prefix(start.fam, start.val, mask))
    ensures Masked(Prefix(start.fam, start.val, mask)) == Prefix(start.fam, start.val, mask)
    ensures Top(Prefix(start.fam, start.val, mask)) <= end.val + 1
    ensures Widest(Prefix(start.fam, start.val, mask), end.val + 1)
  {
    mask := Width(start.fam);
    while mask > 0
      invariant mask <= Width(start.fam)
      invariant IsBlock(Prefix(start.fam, start.val, mask)) && Top(Prefix(start.fam, start.val, mask)) <= end.val + 1
    {
      var tryMask := mask - 1;
      var prefix := Masked(Prefix(start.fam, start.val, tryMask));
      if prefix.base != start.val {
        break;
      }
      var last := LastAddr.LastAddr(prefix);
      if last.val > end.val {
        break;
      }
      mask := tryMask;
    }
    MaskedBlock(Prefix(start.fam, start.val, mask));
  }
}
