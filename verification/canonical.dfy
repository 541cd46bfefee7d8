/**
  What makes a prefix list canonical, and why canonical means minimal. A list that is strictly
  sorted, pairwise disjoint and free of sibling pairs is determined by the set of addresses it
  covers, and no list of prefixes covering exactly that set is shorter.
  */
module Canonical {
  import opened Arith
  import opened Cidr

  /** Strictly sorted by family and address, each block starting after the previous one ends. */
  predicate SortedDisjoint(ps: seq<Prefix>)
    requires AllBlocks(ps)
  {
    forall i, j :: 0 <= i < j < |ps| ==> Before(ps[i], ps[j])
  }

  predicate Before(p: Prefix, q: Prefix)
    requires IsBlock(p) && IsBlock(q)
  {
    if p.fam == q.fam then Top(p) <= q.base else p.fam.V4?
  }

  lemma SortedPrepend(p: Prefix, rest: seq<Prefix>)
    requires IsBlock(p) && AllBlocks(rest) && SortedDisjoint(rest)
    requires forall i :: 0 <= i < |rest| ==> Before(p, rest[i])
    ensures AllBlocks([p] + rest) && SortedDisjoint([p] + rest)
  {
    var ps := [p] + rest;
    forall i | 0 <= i < |ps| ensures IsBlock(ps[i]) {
      assert ps[i] == if i == 0 then p else rest[i - 1];
    }
    forall i, j | 0 <= i < j < |ps| ensures Before(ps[i], ps[j]) {
      assert ps[j] == rest[j - 1];
      assert ps[i] == if i == 0 then p else rest[i - 1];
    }
  }

  predicate NoSiblings(ps: seq<Prefix>)
    requires AllBlocks(ps)
  {
    forall i, j :: 0 <= i < |ps| && 0 <= j < |ps| ==> !Siblings(ps[i], ps[j])
  }

  predicate IsCanonical(ps: seq<Prefix>) {
    AllBlocks(ps) && SortedDisjoint(ps) && NoSiblings(ps)
  }

  /** Every address of `b` is covered by `ps`. */
  ghost predicate CoversBlock(ps: seq<Prefix>, b: Prefix)
    requires AllBlocks(ps) && IsBlock(b)
  {
    forall a :: Contains(b, a) ==> Covered(ps, a)
  }

  /**
    The covering lemma. When no two elements are siblings, a block lies inside the union only by
    lying inside a single element: split the block; if each half lies in an element and neither
    element holds the whole block, the two elements are the halves themselves, which are siblings.
    */
  lemma {:induction false} CoveredBySingle(ps: seq<Prefix>, b: Prefix) returns (i: nat)
    requires AllBlocks(ps) && NoSiblings(ps) && IsBlock(b) && CoversBlock(ps, b)
    ensures i < |ps| && Inside(b, ps[i])
    decreases Width(b.fam) - b.bits
  {
    var low := Addr(b.fam, b.base);
    assert Contains(b, low);
    if b.bits == Width(b.fam) {
      i :| 0 <= i < |ps| && Contains(ps[i], low);
    } else {
      var lo, hi := Half(b, false), Half(b, true);
      assert CoversBlock(ps, lo) by {
        forall a | Contains(lo, a) ensures Covered(ps, a) { assert Contains(b, a); }
      }
      assert CoversBlock(ps, hi) by {
        forall a | Contains(hi, a) ensures Covered(ps, a) { assert Contains(b, a); }
      }
      i := CoveredBySingle(ps, lo);
      var j := CoveredBySingle(ps, hi);
      if ps[i].bits <= b.bits {
        Laminar(ps[i], b);
      } else if ps[j].bits <= b.bits {
        Laminar(ps[j], b);
        i := j;
      } else {
        InsideShorter(lo, ps[i]);
        InsideShorter(hi, ps[j]);
        HalvesAreSiblings(b);
      }
    }
  }

  lemma Ordered(ps: seq<Prefix>, i: nat, j: nat)
    requires AllBlocks(ps) && SortedDisjoint(ps) && i < |ps| && j < |ps|
    ensures i < j ==> Before(ps[i], ps[j])
  {
  }

  /** In a disjoint list, an element inside another element is that element. */
  lemma InsideIsSame(ps: seq<Prefix>, i: nat, j: nat)
    requires AllBlocks(ps) && SortedDisjoint(ps)
    requires i < |ps| && j < |ps| && Inside(ps[i], ps[j])
    ensures i == j
  {
    Ordered(ps, i, j);
    Ordered(ps, j, i);
  }

  lemma BlockOfListIsCovered(ps: seq<Prefix>, i: nat, qs: seq<Prefix>)
    requires AllBlocks(ps) && AllBlocks(qs) && i < |ps|
    requires forall a :: Covered(ps, a) ==> Covered(qs, a)
    ensures CoversBlock(qs, ps[i])
  {
    forall a | Contains(ps[i], a) ensures Covered(qs, a) { assert Covered(ps, a); }
  }

  /** An element of a canonical list is an element of every canonical list with the same addresses. */
  lemma SharedElement(ps: seq<Prefix>, qs: seq<Prefix>, i: nat) returns (j: nat)
    requires IsCanonical(ps) && IsCanonical(qs) && SameAddrs(ps, qs) && i < |ps|
    ensures j < |qs| && qs[j] == ps[i]
  {
    BlockOfListIsCovered(ps, i, qs);
    j := CoveredBySingle(qs, ps[i]);
    BlockOfListIsCovered(qs, j, ps);
    var k := CoveredBySingle(ps, qs[j]);
    InsideIsSame(ps, i, k);
    InsideShorter(ps[i], qs[j]);
    InsideShorter(qs[j], ps[i]);
  }

  /** Canonical form: two canonical lists with the same addresses are the same list. */
  lemma {:induction false} CanonicalUnique(ps: seq<Prefix>, qs: seq<Prefix>)
    requires IsCanonical(ps) && IsCanonical(qs) && SameAddrs(ps, qs)
    ensures ps == qs
  {
    SamePositions(ps, qs, |ps|);
    SamePositions(qs, ps, |qs|);
  }

  lemma SamePrefixAt<T>(s: seq<T>, t: seq<T>, n: nat, i: nat)
    requires n <= |s| && n <= |t| && s[..n] == t[..n]
    ensures i < n ==> s[i] == t[i]
  {
    if i < n { assert s[..n][i] == t[..n][i]; }
  }

  lemma {:induction false} SamePositions(ps: seq<Prefix>, qs: seq<Prefix>, n: nat)
    requires IsCanonical(ps) && IsCanonical(qs) && SameAddrs(ps, qs) && n <= |ps|
    ensures n <= |qs| && ps[..n] == qs[..n]
  {
    if n > 0 {
      SamePositions(ps, qs, n - 1);
      var j := SharedElement(ps, qs, n - 1);
      var k := SharedElement(qs, ps, n - 1);
      SamePrefixAt(ps, qs, n - 1, j);
      SamePrefixAt(ps, qs, n - 1, k);
      Ordered(ps, j, n - 1);
      Ordered(qs, k, n - 1);
      Ordered(qs, n - 1, j);
      Ordered(ps, n - 1, k);
      assert j == n - 1;
      assert ps[..n] == ps[..n - 1] + [ps[n - 1]];
      assert qs[..n] == qs[..n - 1] + [qs[n - 1]];
    }
  }

  /**
    Minimality: no list of prefixes with the same addresses is shorter than a canonical one.
    Each element of the canonical list holds an element of the other list, and disjoint
    elements hold different ones.
    */
  lemma CanonicalMinimal(ps: seq<Prefix>, qs: seq<Prefix>)
    requires IsCanonical(ps) && AllBlocks(qs) && SameAddrs(ps, qs)
    ensures |ps| <= |qs|
  {
    var f := Witnesses(ps, qs, |ps|);
    forall i, j | 0 <= i < j < |ps| ensures f[i] != f[j] {
      assert Before(ps[i], ps[j]);
    }
    DistinctBelow(f, |qs|);
  }

  lemma {:induction false} Witnesses(ps: seq<Prefix>, qs: seq<Prefix>, n: nat) returns (f: seq<nat>)
    requires IsCanonical(ps) && AllBlocks(qs) && SameAddrs(ps, qs) && n <= |ps|
    ensures |f| == n
    ensures forall i :: 0 <= i < n ==> f[i] < |qs| && Inside(qs[f[i]], ps[i])
  {
    if n == 0 {
      f := [];
    } else {
      f := Witnesses(ps, qs, n - 1);
      var p := ps[n - 1];
      var low := Addr(p.fam, p.base);
      assert Contains(p, low) && Covered(ps, low) && Covered(qs, low);
      var j: nat :| j < |qs| && Contains(qs[j], low);
      BlockOfListIsCovered(qs, j, ps);
      var k := CoveredBySingle(ps, qs[j]);
      Ordered(ps, k, n - 1);
      Ordered(ps, n - 1, k);
      assert k == n - 1;
      f := f + [j];
    }
  }
}
