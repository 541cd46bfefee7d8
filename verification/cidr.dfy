/**
  Addresses and prefixes as `net/netip` has them: an address is a family and a number
  below 2^W with W = 32 or 128 (no IPv6 zones), a prefix is an address and a length.
  A prefix whose host bits are zero ("masked") is called a block.
  */
module Cidr {
  import opened Arith

  datatype Family = V4 | V6

  function Width(f: Family): nat {
    match f
    case V4 => 32
    case V6 => 128
  }

  datatype Addr = Addr(fam: Family, val: nat)

  predicate ValidAddr(a: Addr) {
    a.val < Pow2(Width(a.fam))
  }

  /** `Addr.Compare`: IPv4 sorts before IPv6, then by value. */
  predicate AddrLe(a: Addr, b: Addr) {
    if a.fam == b.fam then a.val <= b.val else a.fam.V4?
  }

  datatype Option<+T> = None | Some(value: T)

  /** `Addr.Next`: none after the top address of the family. */
  function Next(a: Addr): Option<Addr> {
    if a.val + 1 < Pow2(Width(a.fam)) then Some(Addr(a.fam, a.val + 1)) else None
  }

  datatype Prefix = Prefix(fam: Family, base: nat, bits: nat)

  predicate ValidPrefix(p: Prefix) {
    p.bits <= Width(p.fam) && p.base < Pow2(Width(p.fam))
  }

  function HostBits(p: Prefix): nat
    requires ValidPrefix(p)
  {
    Width(p.fam) - p.bits
  }

  function Size(p: Prefix): nat
    requires ValidPrefix(p)
  {
    Pow2(HostBits(p))
  }

  predicate IsBlock(p: Prefix) {
    ValidPrefix(p) && Aligned(p.base, HostBits(p))
  }

  predicate AllBlocks(ps: seq<Prefix>) {
    forall i :: 0 <= i < |ps| ==> IsBlock(ps[i])
  }

  /** One past the last address of a block. */
  function Top(p: Prefix): nat
    requires ValidPrefix(p)
  {
    p.base + Size(p)
  }

  /** `Prefix.Contains` on a block: the same family and the same leading bits. */
  predicate Contains(p: Prefix, a: Addr)
    requires IsBlock(p)
  {
    a.fam == p.fam && p.base <= a.val < Top(p)
  }

  /** `Prefix.Masked`: the block with the same leading bits. */
  function Masked(p: Prefix): (b: Prefix)
    requires ValidPrefix(p)
    ensures IsBlock(b) && b.fam == p.fam && b.bits == p.bits
    ensures Contains(b, Addr(p.fam, p.base))
  {
    Prefix(p.fam, ClearLow(p.base, HostBits(p)), p.bits)
  }

  lemma MaskedBlock(p: Prefix)
    requires ValidPrefix(p)
    ensures IsBlock(p) ==> Masked(p) == p
  {
    if IsBlock(p) { ClearLowUnique(p.base, HostBits(p), p.base); }
  }

  lemma BlockFits(p: Prefix)
    requires IsBlock(p)
    ensures Top(p) <= Pow2(Width(p.fam))
    ensures Aligned(Top(p), HostBits(p))
  {
    AlignedPow2(Width(p.fam), HostBits(p));
    AlignedApart(p.base, Pow2(Width(p.fam)), HostBits(p));
    AlignedPow2(HostBits(p), HostBits(p));
    AlignedSum(p.base, Size(p), HostBits(p));
  }

  predicate Inside(q: Prefix, p: Prefix)
    requires IsBlock(p) && IsBlock(q)
  {
    p.fam == q.fam && p.base <= q.base && Top(q) <= Top(p)
  }

  predicate Disjoint(p: Prefix, q: Prefix)
    requires IsBlock(p) && IsBlock(q)
  {
    p.fam != q.fam || Top(p) <= q.base || Top(q) <= p.base
  }

  /** Blocks are laminar: two of them are disjoint, or the longer prefix lies inside the shorter one. */
  lemma Laminar(p: Prefix, q: Prefix)
    requires IsBlock(p) && IsBlock(q) && p.bits <= q.bits && !Disjoint(p, q)
    ensures Inside(q, p)
  {
    var k := HostBits(q);
    BlockFits(p);
    AlignedCoarser(p.base, k, HostBits(p));
    AlignedCoarser(Top(p), k, HostBits(p));
    AlignedApart(q.base, Top(p), k);
    if q.base < p.base {
      AlignedApart(q.base, p.base, k);
    }
  }

  /** A block inside a block of the same length is that block. */
  lemma InsideShorter(q: Prefix, p: Prefix)
    requires IsBlock(p) && IsBlock(q) && Inside(q, p)
    ensures p.bits <= q.bits
    ensures p.bits == q.bits ==> p == q
  {
    if q.bits < p.bits {
      Pow2Mono(HostBits(p), HostBits(q));
    }
  }

  function Half(p: Prefix, upper: bool): (h: Prefix)
    requires IsBlock(p) && p.bits < Width(p.fam)
    ensures IsBlock(h) && h.bits == p.bits + 1 && h.fam == p.fam
    ensures Size(p) == 2 * Size(h)
    ensures h.base == if upper then p.base + Size(h) else p.base
  {
    var k := HostBits(p) - 1;
    AlignedCoarser(p.base, k, k + 1);
    AlignedPow2(k, k);
    AlignedSum(p.base, Pow2(k), k);
    BlockFits(p);
    Prefix(p.fam, if upper then p.base + Pow2(k) else p.base, p.bits + 1)
  }

  function Parent(p: Prefix): (q: Prefix)
    requires IsBlock(p) && p.bits > 0
    ensures IsBlock(q) && q.bits == p.bits - 1 && q.fam == p.fam
  {
    Masked(Prefix(p.fam, p.base, p.bits - 1))
  }

  /** A block is one of the two halves of its parent. */
  lemma ParentHalves(p: Prefix)
    requires IsBlock(p) && p.bits > 0
    ensures p == Half(Parent(p), false) || p == Half(Parent(p), true)
  {
    var q, k := Parent(p), HostBits(p);
    var lo, hi := Half(q, false), Half(q, true);
    if lo.base < p.base {
      AlignedApart(lo.base, p.base, k);
      if hi.base < p.base {
        AlignedApart(hi.base, p.base, k);
      }
    }
  }

  /** The two halves of one parent. */
  predicate Siblings(a: Prefix, b: Prefix)
    requires IsBlock(a) && IsBlock(b)
  {
    a != b && a.bits == b.bits && a.bits > 0 && a.fam == b.fam && Parent(a) == Parent(b)
  }

  lemma HalvesAreSiblings(p: Prefix)
    requires IsBlock(p) && p.bits < Width(p.fam)
    ensures Parent(Half(p, false)) == p && Parent(Half(p, true)) == p
    ensures Siblings(Half(p, false), Half(p, true))
  {
    ClearLowUnique(Half(p, false).base, HostBits(p), p.base);
    ClearLowUnique(Half(p, true).base, HostBits(p), p.base);
  }

  /** Siblings in order are adjacent, and together they are exactly the parent. */
  lemma SiblingsTile(a: Prefix, b: Prefix)
    requires IsBlock(a) && IsBlock(b) && Siblings(a, b) && a.base <= b.base
    ensures a == Half(Parent(a), false) && b == Half(Parent(a), true)
    ensures Top(a) == b.base && Parent(a).base == a.base && Top(Parent(a)) == Top(b)
  {
    ParentHalves(a);
    ParentHalves(b);
  }

  // ---- lists of prefixes as sets of addresses ----

  ghost predicate Covered(ps: seq<Prefix>, a: Addr)
    requires AllBlocks(ps)
  {
    exists i :: 0 <= i < |ps| && Contains(ps[i], a)
  }

  ghost predicate SameAddrs(ps: seq<Prefix>, qs: seq<Prefix>)
    requires AllBlocks(ps) && AllBlocks(qs)
  {
    forall a :: Covered(ps, a) <==> Covered(qs, a)
  }

  lemma CoveredConcat(ps: seq<Prefix>, qs: seq<Prefix>, a: Addr)
    requires AllBlocks(ps) && AllBlocks(qs)
    ensures AllBlocks(ps + qs)
    ensures Covered(ps + qs, a) <==> Covered(ps, a) || Covered(qs, a)
  {
    var r := ps + qs;
    forall i | 0 <= i < |r| ensures IsBlock(r[i]) {
      assert r[i] == if i < |ps| then ps[i] else qs[i - |ps|];
    }
    if Covered(ps, a) {
      var i :| 0 <= i < |ps| && Contains(ps[i], a);
      assert Contains(r[i], a);
    }
    if Covered(qs, a) {
      var i :| 0 <= i < |qs| && Contains(qs[i], a);
      assert Contains(r[|ps| + i], a);
    }
    if Covered(r, a) {
      var i :| 0 <= i < |r| && Contains(r[i], a);
      assert if i < |ps| then Contains(ps[i], a) else Contains(qs[i - |ps|], a);
    }
  }

  lemma CoveredOne(p: Prefix, a: Addr)
    requires IsBlock(p)
    ensures AllBlocks([p]) && (Covered([p], a) <==> Contains(p, a))
  {
    if Contains(p, a) {
      assert Contains([p][0], a);
    }
  }

  lemma SameAddrsTrans(ps: seq<Prefix>, qs: seq<Prefix>, rs: seq<Prefix>)
    requires AllBlocks(ps) && AllBlocks(qs) && AllBlocks(rs)
    requires SameAddrs(ps, qs) && SameAddrs(qs, rs)
    ensures SameAddrs(ps, rs)
  {
  }
}
