/** `aggregate`: sort, drop covered prefixes with a one-element look-back, merge siblings until nothing changes. */
module Aggregate {
  import opened Arith
  import opened Cidr
  import opened Canonical

  // ---- sorting ----

  /** The comparison handed to `sort.Slice`, as a total order: address first, then length. */
  predicate Le(p: Prefix, q: Prefix) {
    if p.fam != q.fam then p.fam.V4?
    else if p.base != q.base then p.base < q.base
    else p.bits <= q.bits
  }

  predicate Sorted(ps: seq<Prefix>) {
    forall i, j :: 0 <= i < j < |ps| ==> Le(ps[i], ps[j])
  }

  lemma LeOrder()
    ensures forall p, q :: Le(p, q) || Le(q, p)
    ensures forall p, q, r :: Le(p, q) && Le(q, r) ==> Le(p, r)
  {
  }

  /** Swapping neighbours is a permutation. */
  lemma SwapPermutes<T>(s: seq<T>, m: nat)
    requires 0 < m < |s|
    ensures multiset(s[m - 1 := s[m]][m := s[m - 1]]) == multiset(s)
  {
  }

  /** The elements before `n` but for the one at `m` are in order, and so are it and those after it. */
  predicate OrderedBut<T(!new)>(s: seq<T>, le: (T, T) -> bool, n: nat, m: nat) {
    forall i, j :: 0 <= i < j < n <= |s| && j != m ==> le(s[i], s[j])
  }

  /** Moving the element at `m` one place to the front when it belongs there. */
  lemma SwapOrders<T(!new)>(s: seq<T>, le: (T, T) -> bool, n: nat, m: nat)
    requires 0 < m < n <= |s| && OrderedBut(s, le, n, m) && !le(s[m - 1], s[m])
    requires forall x, y :: le(x, y) || le(y, x)
    requires forall x, y, z :: le(x, y) && le(y, z) ==> le(x, z)
    ensures OrderedBut(s[m - 1 := s[m]][m := s[m - 1]], le, n, m - 1)
  {
    var t := s[m - 1 := s[m]][m := s[m - 1]];
    forall i, j | 0 <= i < j < n && j != m - 1 ensures le(t[i], t[j]) {
      if j == m {
        assert i == m - 1 || le(s[i], s[m - 1]);
      } else if i == m - 1 || i == m {
        assert le(s[m], s[j]) && le(s[m - 1], s[j]);
      }
    }
  }

  /** Stands in for `sort.Slice`: an in-place sort by a total order. */
  method SortSlice<T(!new)>(a: array<T>, le: (T, T) -> bool)
    requires forall x, y :: le(x, y) || le(y, x)
    requires forall x, y, z :: le(x, y) && le(y, z) ==> le(x, z)
    modifies a
    ensures multiset(a[..]) == old(multiset(a[..]))
    ensures forall i, j :: 0 <= i < j < a.Length ==> le(a[i], a[j])
  {
    for n := 0 to a.Length
      invariant multiset(a[..]) == old(multiset(a[..]))
      invariant OrderedBut(a[..], le, n, n)
    {
      var m := n;
      while m > 0 && !le(a[m - 1], a[m])
        invariant m <= n
        invariant multiset(a[..]) == old(multiset(a[..]))
        invariant OrderedBut(a[..], le, n + 1, m)
      {
        SwapPermutes(a[..], m);
        SwapOrders(a[..], le, n + 1, m);
        ghost var s := a[..];
        a[m - 1], a[m] := a[m], a[m - 1];
        assert a[..] == s[m - 1 := s[m]][m := s[m - 1]];
        m := m - 1;
      }
      InPlace(a[..], le, n + 1, m);
    }
  }

  lemma InPlace<T(!new)>(s: seq<T>, le: (T, T) -> bool, n: nat, m: nat)
    requires m < n <= |s| && OrderedBut(s, le, n, m) && (m > 0 ==> le(s[m - 1], s[m]))
    requires forall x, y, z :: le(x, y) && le(y, z) ==> le(x, z)
    ensures OrderedBut(s, le, n, n)
  {
    forall i, j | 0 <= i < j < n ensures le(s[i], s[j]) {
      if j == m && i < m - 1 { assert le(s[i], s[m - 1]); }
    }
  }

  lemma SameFirst(ps: seq<Prefix>, qs: seq<Prefix>)
    requires multiset(ps) == multiset(qs) && Sorted(ps) && Sorted(qs) && ps != [] && qs != []
    ensures ps[0] == qs[0]
  {
    assert ps[0] in multiset(qs) && qs[0] in multiset(ps);
    var i :| 0 <= i < |qs| && qs[i] == ps[0];
    var j :| 0 <= j < |ps| && ps[j] == qs[0];
    assert i == 0 || Le(qs[0], qs[i]);
    assert j == 0 || Le(ps[0], ps[j]);
  }

  lemma RestPermutes<T>(x: T, ps: seq<T>, qs: seq<T>)
    requires multiset([x] + ps) == multiset([x] + qs)
    ensures multiset(ps) == multiset(qs)
  {
    assert multiset([x] + ps) == multiset{x} + multiset(ps) && multiset([x] + qs) == multiset{x} + multiset(qs);
    assert multiset(ps) == multiset([x] + ps) - multiset{x};
  }

  lemma SortedRest(ps: seq<Prefix>)
    requires Sorted(ps) && ps != []
    ensures Sorted(ps[1..])
  {
    hide Le;
  }

  /** There is one way to put a list in order. */
  lemma {:induction false} SortedUnique(ps: seq<Prefix>, qs: seq<Prefix>)
    requires multiset(ps) == multiset(qs) && Sorted(ps) && Sorted(qs)
    ensures ps == qs
    decreases |ps|
  {
    hide Sorted;
    assert |multiset(ps)| == |ps| && |multiset(qs)| == |qs|;
    if ps != [] {
      SameFirst(ps, qs);
      assert ps == [ps[0]] + ps[1..] && qs == [ps[0]] + qs[1..];
      RestPermutes(ps[0], ps[1..], qs[1..]);
      SortedRest(ps);
      SortedRest(qs);
      SortedUnique(ps[1..], qs[1..]);
    }
  }

  lemma DisjointSorted(ps: seq<Prefix>)
    requires AllBlocks(ps) && SortedDisjoint(ps)
    ensures Sorted(ps)
  {
    forall i, j | 0 <= i < j < |ps| ensures Le(ps[i], ps[j]) {
      assert Before(ps[i], ps[j]);
    }
  }

  lemma PermutationCovers(ps: seq<Prefix>, qs: seq<Prefix>)
    requires multiset(ps) == multiset(qs) && AllBlocks(ps)
    ensures AllBlocks(qs) && SameAddrs(ps, qs)
  {
    forall i | 0 <= i < |qs| ensures IsBlock(qs[i]) {
      assert qs[i] in multiset(qs);
    }
    forall a ensures Covered(ps, a) <==> Covered(qs, a) {
      if Covered(ps, a) {
        var i :| 0 <= i < |ps| && Contains(ps[i], a);
        assert ps[i] in multiset(qs);
      }
      if Covered(qs, a) {
        var i :| 0 <= i < |qs| && Contains(qs[i], a);
        assert qs[i] in multiset(ps);
      }
    }
  }

  // ---- one-look-back deduplication ----

  /** After sorting, a prefix that the last kept one does not contain starts after it ends. */
  lemma LookBackSuffices(last: Prefix, p: Prefix)
    requires IsBlock(last) && IsBlock(p) && Le(last, p)
    ensures last.bits <= p.bits && Contains(last, Addr(p.fam, p.base)) ==> Inside(p, last)
    ensures !(last.bits <= p.bits && Contains(last, Addr(p.fam, p.base))) ==> Before(last, p)
  {
    if !Disjoint(last, p) {
      if last.bits <= p.bits {
        Laminar(last, p);
      } else {
        Laminar(p, last);
      }
    }
  }

  lemma SortedAppend(ps: seq<Prefix>, p: Prefix)
    requires AllBlocks(ps) && SortedDisjoint(ps) && IsBlock(p)
    requires ps != [] ==> Before(ps[|ps| - 1], p)
    ensures AllBlocks(ps + [p]) && SortedDisjoint(ps + [p])
  {
    var t := ps + [p];
    forall i | 0 <= i < |t| ensures IsBlock(t[i]) {
      assert t[i] == if i < |ps| then ps[i] else p;
    }
    forall i, j | 0 <= i < j < |t| ensures Before(t[i], t[j]) {
      if j == |ps| && i < |ps| - 1 {
        assert Before(ps[i], ps[|ps| - 1]);
      }
    }
  }

  /** main.go:913-919: the kept prefixes are sorted and disjoint and cover the same addresses. */
  method Dedup(sorted: seq<Prefix>) returns (deduped: seq<Prefix>)
    requires AllBlocks(sorted) && Sorted(sorted)
    ensures AllBlocks(deduped) && SortedDisjoint(deduped) && SameAddrs(deduped, sorted)
    ensures |deduped| <= |sorted| && forall p :: p in deduped ==> p in sorted
    ensures SortedDisjoint(sorted) ==> deduped == sorted
  {
    hide Aligned, Pow2, ClearLow;
    deduped := [];
    for i := 0 to |sorted|
      invariant AllBlocks(deduped) && SortedDisjoint(deduped) && |deduped| <= i
      invariant SameAddrs(deduped, sorted[..i]) && forall p :: p in deduped ==> p in sorted
      invariant deduped != [] ==> forall j :: i <= j < |sorted| ==> Le(deduped[|deduped| - 1], sorted[j])
      invariant SortedDisjoint(sorted) ==> deduped == sorted[..i]
    {
      var p, n := sorted[i], |deduped|;
      assert sorted[..i + 1] == sorted[..i] + [p];
      if n > 0 { LookBackSuffices(deduped[n - 1], p); }
      if n > 0 && SortedDisjoint(sorted) { Apart(sorted, n); }
      if n > 0 && deduped[n - 1].bits <= p.bits && Contains(deduped[n - 1], Addr(p.fam, p.base)) {
        SkipCovers(deduped, sorted[..i], p);
        continue;
      }
      SortedAppend(deduped, p);
      KeepCovers(deduped, sorted[..i], p);
      deduped := deduped + [p];
    }
    assert sorted[..|sorted|] == sorted;
  }

  lemma Apart(ps: seq<Prefix>, n: nat)
    requires AllBlocks(ps) && SortedDisjoint(ps) && 0 < n < |ps|
    ensures !Contains(ps[n - 1], Addr(ps[n].fam, ps[n].base))
  {
    Ordered(ps, n - 1, n);
  }

  lemma SkipCovers(kept: seq<Prefix>, seen: seq<Prefix>, p: Prefix)
    requires AllBlocks(kept) && AllBlocks(seen) && IsBlock(p) && SameAddrs(kept, seen)
    requires kept != [] && Inside(p, kept[|kept| - 1])
    ensures AllBlocks(seen + [p]) && SameAddrs(kept, seen + [p])
  {
    forall a ensures AllBlocks(seen + [p]) && (Covered(kept, a) <==> Covered(seen + [p], a)) {
      CoveredConcat(seen, [p], a);
      CoveredOne(p, a);
      if Contains(p, a) { assert Contains(kept[|kept| - 1], a); }
    }
  }

  lemma KeepCovers(kept: seq<Prefix>, seen: seq<Prefix>, p: Prefix)
    requires AllBlocks(kept) && AllBlocks(seen) && IsBlock(p) && SameAddrs(kept, seen)
    ensures AllBlocks(kept + [p]) && AllBlocks(seen + [p]) && SameAddrs(kept + [p], seen + [p])
  {
    forall a ensures AllBlocks(kept + [p]) && AllBlocks(seen + [p]) && (Covered(kept + [p], a) <==> Covered(seen + [p], a)) {
      CoveredConcat(seen, [p], a);
      CoveredConcat(kept, [p], a);
    }
  }

  // ---- merging ----

  /** main.go:948-956. */
  predicate CanMerge(a: Prefix, b: Prefix)
    requires IsBlock(a) && IsBlock(b)
  {
    if a.bits != b.bits || a.bits == 0 || a.fam != b.fam then false
    else
      var parentA, parentB := Parent(a), Parent(b);
      parentA == parentB && Contains(parentA, Addr(a.fam, a.base)) && Contains(parentA, Addr(b.fam, b.base))
  }

  /** `canMerge` accepts the two halves of a parent, but also a prefix and itself. */
  lemma CanMergeExactly(a: Prefix, b: Prefix)
    requires IsBlock(a) && IsBlock(b)
    ensures CanMerge(a, b) <==> Siblings(a, b) || (a == b && a.bits > 0)
  {
  }

  /** One left-to-right pass over the list (main.go:926-937). */
  function Pass(ps: seq<Prefix>): (r: seq<Prefix>)
    requires AllBlocks(ps)
    ensures AllBlocks(r) && |r| <= |ps|
  {
    if ps == [] then []
    else if |ps| > 1 && CanMerge(ps[0], ps[1]) then [Parent(ps[0])] + Pass(ps[2..])
    else [ps[0]] + Pass(ps[1..])
  }

  /** In a disjoint list mergeable neighbours are siblings, in order, and tile their parent. */
  lemma MergeHead(ps: seq<Prefix>)
    requires AllBlocks(ps) && SortedDisjoint(ps) && |ps| > 1 && CanMerge(ps[0], ps[1])
    ensures Siblings(ps[0], ps[1])
    ensures Parent(ps[0]).base == ps[0].base && Top(ps[0]) == ps[1].base && Top(Parent(ps[0])) == Top(ps[1])
  {
    assert Before(ps[0], ps[1]);
    CanMergeExactly(ps[0], ps[1]);
    SiblingsTile(ps[0], ps[1]);
  }

  lemma {:induction false} PassAfter(p: Prefix, ps: seq<Prefix>)
    requires IsBlock(p) && AllBlocks(ps) && SortedDisjoint(ps)
    requires forall i :: 0 <= i < |ps| ==> Before(p, ps[i])
    ensures forall i :: 0 <= i < |Pass(ps)| ==> Before(p, Pass(ps)[i])
  {
    if |ps| > 1 && CanMerge(ps[0], ps[1]) {
      MergeHead(ps);
      PassAfter(p, ps[2..]);
    } else if ps != [] {
      PassAfter(p, ps[1..]);
    }
  }

  /** A pass keeps the list sorted and disjoint. */
  lemma {:induction false} PassSorted(ps: seq<Prefix>)
    requires AllBlocks(ps) && SortedDisjoint(ps)
    ensures SortedDisjoint(Pass(ps))
  {
    if |ps| > 1 && CanMerge(ps[0], ps[1]) {
      MergeHead(ps);
      PassSorted(ps[2..]);
      forall i | 0 <= i < |ps[2..]| ensures Before(Parent(ps[0]), ps[2..][i]) {
        assert Before(ps[1], ps[i + 2]);
      }
      PassAfter(Parent(ps[0]), ps[2..]);
      SortedPrepend(Parent(ps[0]), Pass(ps[2..]));
    } else if ps != [] {
      PassSorted(ps[1..]);
      PassAfter(ps[0], ps[1..]);
      SortedPrepend(ps[0], Pass(ps[1..]));
    }
  }

  /** A pass covers the same addresses. */
  lemma {:induction false} PassCovers(ps: seq<Prefix>, a: Addr)
    requires AllBlocks(ps) && SortedDisjoint(ps)
    ensures Covered(Pass(ps), a) <==> Covered(ps, a)
  {
    if |ps| > 1 && CanMerge(ps[0], ps[1]) {
      MergeHead(ps);
      PassCovers(ps[2..], a);
      assert ps == [ps[0]] + ([ps[1]] + ps[2..]);
      CoveredConcat([ps[1]], ps[2..], a);
      CoveredConcat([ps[0]], [ps[1]] + ps[2..], a);
      CoveredConcat([Parent(ps[0])], Pass(ps[2..]), a);
      CoveredOne(ps[0], a);
      CoveredOne(ps[1], a);
      CoveredOne(Parent(ps[0]), a);
    } else if ps != [] {
      PassCovers(ps[1..], a);
      assert ps == [ps[0]] + ps[1..];
      CoveredConcat([ps[0]], ps[1..], a);
      CoveredConcat([ps[0]], Pass(ps[1..]), a);
    }
  }

  /** Siblings in a sorted disjoint list stand next to each other. */
  lemma SiblingsAdjacent(ps: seq<Prefix>, i: nat, j: nat)
    requires AllBlocks(ps) && SortedDisjoint(ps)
    requires i < |ps| && j < |ps| && Siblings(ps[i], ps[j]) && ps[i].base <= ps[j].base
    ensures j == i + 1
  {
    SiblingsTile(ps[i], ps[j]);
    Ordered(ps, j, i);
    if i + 1 < |ps| {
      Ordered(ps, i, i + 1);
      Ordered(ps, i + 1, j);
    }
  }

  lemma {:induction false} PassShrinks(ps: seq<Prefix>, i: nat)
    requires AllBlocks(ps) && i + 1 < |ps| && CanMerge(ps[i], ps[i + 1])
    ensures |Pass(ps)| < |ps|
  {
    if i > 0 && !CanMerge(ps[0], ps[1]) {
      PassShrinks(ps[1..], i - 1);
    }
  }

  lemma {:induction false} PassKeepsOrShrinks(ps: seq<Prefix>)
    requires AllBlocks(ps)
    ensures |Pass(ps)| == |ps| ==> Pass(ps) == ps
  {
    if ps != [] && !(|ps| > 1 && CanMerge(ps[0], ps[1])) {
      PassKeepsOrShrinks(ps[1..]);
    }
  }

  /** The fixpoint of the passes is canonical. */
  lemma FixpointCanonical(ps: seq<Prefix>)
    requires AllBlocks(ps) && SortedDisjoint(ps) && Pass(ps) == ps
    ensures IsCanonical(ps)
  {
    forall i, j | 0 <= i < |ps| && 0 <= j < |ps| ensures !Siblings(ps[i], ps[j]) {
      if Siblings(ps[i], ps[j]) {
        if ps[i].base <= ps[j].base { MergedAway(ps, i, j); } else { MergedAway(ps, j, i); }
      }
    }
  }

  lemma MergedAway(ps: seq<Prefix>, i: nat, j: nat)
    requires AllBlocks(ps) && SortedDisjoint(ps) && i < |ps| && j < |ps|
    requires Siblings(ps[i], ps[j]) && ps[i].base <= ps[j].base
    ensures |Pass(ps)| < |ps|
  {
    SiblingsAdjacent(ps, i, j);
    CanMergeExactly(ps[i], ps[j]);
    PassShrinks(ps, i);
  }

  // ---- how many passes ----

  /** Every sibling pair still present has at least `k` host bits. */
  predicate Settled(ps: seq<Prefix>, k: nat)
    requires AllBlocks(ps)
  {
    forall i, j :: 0 <= i < |ps| && 0 <= j < |ps| && Siblings(ps[i], ps[j]) ==> k <= HostBits(ps[i])
  }

  /** `x` stood at `t` and could not merge with its neighbour. */
  predicate KeptAt(ps: seq<Prefix>, t: nat, x: Prefix)
    requires AllBlocks(ps)
  {
    t < |ps| && ps[t] == x && (t + 1 < |ps| ==> !CanMerge(ps[t], ps[t + 1]))
  }

  /** `x` is the parent of the mergeable pair at `t`. */
  predicate BornAt(ps: seq<Prefix>, t: nat, x: Prefix)
    requires AllBlocks(ps)
  {
    t + 1 < |ps| && CanMerge(ps[t], ps[t + 1]) && x == Parent(ps[t])
  }

  lemma OriginShift(ps: seq<Prefix>, n: nat, t: nat, x: Prefix)
    requires AllBlocks(ps) && n <= |ps|
    ensures KeptAt(ps[n..], t, x) ==> KeptAt(ps, n + t, x)
    ensures BornAt(ps[n..], t, x) ==> BornAt(ps, n + t, x)
  {
    if t < |ps[n..]| { assert ps[n..][t] == ps[n + t]; }
    if t + 1 < |ps[n..]| { assert ps[n..][t + 1] == ps[n + t + 1]; }
  }

  /** How many blocks the first step of a pass consumes. */
  function Consumed(ps: seq<Prefix>): (n: nat)
    requires AllBlocks(ps) && ps != []
    ensures 1 <= n <= |ps|
  {
    if |ps| > 1 && CanMerge(ps[0], ps[1]) then 2 else 1
  }

  lemma FirstOrigin(ps: seq<Prefix>)
    requires AllBlocks(ps) && ps != []
    ensures Pass(ps) != [] && Pass(ps)[1..] == Pass(ps[Consumed(ps)..])
    ensures KeptAt(ps, 0, Pass(ps)[0]) || BornAt(ps, 0, Pass(ps)[0])
  {
  }

  /** A block in the output of a pass was kept, unable to merge, or is the parent of a mergeable pair. */
  lemma {:induction false} PassOrigin(ps: seq<Prefix>, m: nat) returns (t: nat)
    requires AllBlocks(ps) && m < |Pass(ps)|
    ensures KeptAt(ps, t, Pass(ps)[m]) || BornAt(ps, t, Pass(ps)[m])
  {
    FirstOrigin(ps);
    if m == 0 {
      t := 0;
    } else {
      var n := Consumed(ps);
      t := PassOrigin(ps[n..], m - 1);
      OriginShift(ps, n, t, Pass(ps)[1..][m - 1]);
      t := n + t;
    }
  }

  /** A pass merges every sibling pair present: pairs left afterwards involve a block it created. */
  lemma PassSettles(ps: seq<Prefix>, k: nat)
    requires AllBlocks(ps) && SortedDisjoint(ps) && Settled(ps, k)
    ensures Settled(Pass(ps), k + 1)
  {
    var r := Pass(ps);
    PassSorted(ps);
    forall i, j | 0 <= i < |r| && 0 <= j < |r| && Siblings(r[i], r[j]) ensures k + 1 <= HostBits(r[i]) {
      var s := PassOrigin(ps, i);
      var t := PassOrigin(ps, j);
      if KeptAt(ps, s, r[i]) && KeptAt(ps, t, r[j]) {
        CanMergeExactly(ps[s], ps[t]);
        CanMergeExactly(ps[t], ps[s]);
        if ps[s].base <= ps[t].base { SiblingsAdjacent(ps, s, t); } else { SiblingsAdjacent(ps, t, s); }
      } else {
        var u, x := if BornAt(ps, s, r[i]) then s else t, if BornAt(ps, s, r[i]) then r[i] else r[j];
        BornLarge(ps, k, u, x);
      }
    }
  }

  lemma BornLarge(ps: seq<Prefix>, k: nat, t: nat, x: Prefix)
    requires AllBlocks(ps) && SortedDisjoint(ps) && Settled(ps, k) && BornAt(ps, t, x)
    ensures k + 1 <= HostBits(x)
  {
    CanMergeExactly(ps[t], ps[t + 1]);
    Ordered(ps, t, t + 1);
  }

  /** The width of the widest family present: 32 for an IPv4-only list, else 128. */
  function MaxWidth(ps: seq<Prefix>): nat {
    if exists p :: p in ps && p.fam.V6? then 128 else 32
  }

  lemma WidthWithin(ps: seq<Prefix>, i: nat)
    requires i < |ps|
    ensures Width(ps[i].fam) <= MaxWidth(ps)
  {
  }

  /** How many times the outer loop (main.go:921-943) runs. */
  function Passes(ps: seq<Prefix>): nat
    requires AllBlocks(ps)
    decreases |ps|
  {
    if |Pass(ps)| == |ps| then 1 else 1 + Passes(Pass(ps))
  }

  lemma {:induction false} PassFamilies(ps: seq<Prefix>, m: nat)
    requires AllBlocks(ps) && m < |Pass(ps)|
    ensures exists p :: p in ps && p.fam == Pass(ps)[m].fam
  {
    if |ps| > 1 && CanMerge(ps[0], ps[1]) {
      assert ps[0] in ps;
      if m > 0 { PassFamilies(ps[2..], m - 1); }
    } else {
      assert ps[0] in ps;
      if m > 0 { PassFamilies(ps[1..], m - 1); }
    }
  }

  /** At most W + 1 passes: 33 for IPv4, 129 for IPv6. */
  lemma PassBound(ps: seq<Prefix>)
    requires AllBlocks(ps) && SortedDisjoint(ps)
    ensures Passes(ps) <= MaxWidth(ps) + 1
  {
    RemainingPasses(ps, 0, MaxWidth(ps));
  }

  lemma {:induction false} RemainingPasses(ps: seq<Prefix>, k: nat, w: nat)
    requires AllBlocks(ps) && SortedDisjoint(ps) && Settled(ps, k) && k <= w
    requires MaxWidth(ps) <= w
    ensures Passes(ps) <= w - k + 1
    decreases |ps|
  {
    if |Pass(ps)| != |ps| {
      var i := MergeableIndex(ps);
      WidthWithin(ps, i);
      assert Siblings(ps[i], ps[i + 1]);
      PassSorted(ps);
      PassSettles(ps, k);
      forall p | p in Pass(ps) ensures exists q :: q in ps && q.fam == p.fam {
        var m :| 0 <= m < |Pass(ps)| && Pass(ps)[m] == p;
        PassFamilies(ps, m);
      }
      RemainingPasses(Pass(ps), k + 1, w);
    }
  }

  lemma {:induction false} MergeableIndex(ps: seq<Prefix>) returns (i: nat)
    requires AllBlocks(ps) && SortedDisjoint(ps) && |Pass(ps)| != |ps|
    ensures i + 1 < |ps| && Siblings(ps[i], ps[i + 1])
  {
    if |ps| > 1 && CanMerge(ps[0], ps[1]) {
      MergeHead(ps);
      i := 0;
    } else {
      i := MergeableIndex(ps[1..]);
      i := i + 1;
    }
  }

  /** [0, 2^k) followed by the blocks [2^k, 2^(k+1)), ..., [2^(W-1), 2^W). */
  function Chain(fam: Family, k: nat): seq<Prefix>
    requires k <= Width(fam)
  {
    [Prefix(fam, 0, Width(fam) - k)] + Doublings(fam, k)
  }

  function Doublings(fam: Family, k: nat): seq<Prefix>
    requires k <= Width(fam)
    decreases Width(fam) - k
  {
    if k == Width(fam) then [] else [Prefix(fam, Pow2(k), Width(fam) - k)] + Doublings(fam, k + 1)
  }

  lemma DoublingIsBlock(fam: Family, k: nat)
    requires k < Width(fam)
    ensures IsBlock(Prefix(fam, Pow2(k), Width(fam) - k))
  {
    SmallerPower(k, Width(fam));
    AlignedPow2(k, k);
  }

  lemma {:induction false} DoublingsStay(fam: Family, k: nat)
    requires k <= Width(fam)
    ensures AllBlocks(Doublings(fam, k)) && Pass(Doublings(fam, k)) == Doublings(fam, k)
    decreases Width(fam) - k
  {
    hide IsBlock, Pow2, Parent, Contains;
    if k < Width(fam) {
      DoublingIsBlock(fam, k);
      DoublingsStay(fam, k + 1);
      var d := Doublings(fam, k);
      assert d[1..] == Doublings(fam, k + 1);
    }
  }

  lemma {:induction false} DoublingsFrom(fam: Family, k: nat, i: nat)
    requires k <= Width(fam) && i < |Doublings(fam, k)|
    ensures Doublings(fam, k)[i].fam == fam && Pow2(k) <= Doublings(fam, k)[i].base
    decreases Width(fam) - k
  {
    if i > 0 {
      SmallerPower(k, k + 1);
      DoublingsFrom(fam, k + 1, i - 1);
    }
  }

  lemma {:induction false} DoublingsSorted(fam: Family, k: nat)
    requires k <= Width(fam)
    ensures AllBlocks(Doublings(fam, k)) && SortedDisjoint(Doublings(fam, k))
    decreases Width(fam) - k
  {
    hide IsBlock, Aligned;
    DoublingsStay(fam, k);
    if k < Width(fam) {
      DoublingIsBlock(fam, k);
      DoublingsSorted(fam, k + 1);
      var p, rest := Prefix(fam, Pow2(k), Width(fam) - k), Doublings(fam, k + 1);
      forall i | 0 <= i < |rest| ensures Before(p, rest[i]) {
        DoublingsFrom(fam, k + 1, i);
      }
      SortedPrepend(p, rest);
    }
  }

  /** The chain is what the loop that drops covered prefixes leaves: itself. */
  lemma ChainSorted(fam: Family, k: nat)
    requires k <= Width(fam)
    ensures AllBlocks(Chain(fam, k)) && SortedDisjoint(Chain(fam, k))
  {
    hide Pow2, Aligned, Doublings;
    ChainBlocks(fam, k);
    DoublingsSorted(fam, k);
    var p, rest := Prefix(fam, 0, Width(fam) - k), Doublings(fam, k);
    assert Chain(fam, k)[0] == p;
    forall i | 0 <= i < |rest| ensures Before(p, rest[i]) {
      DoublingsFrom(fam, k, i);
    }
    SortedPrepend(p, rest);
  }

  /**
    The bound is reached: on the chain of a family, which is sorted and disjoint, each pass merges
    just the first pair, and `Aggregate` makes W + 1 passes.
    */
  lemma PassBoundReached(fam: Family)
    ensures AllBlocks(Chain(fam, 0)) && SortedDisjoint(Chain(fam, 0)) && MaxWidth(Chain(fam, 0)) == Width(fam)
    ensures Passes(Chain(fam, 0)) == MaxWidth(Chain(fam, 0)) + 1
  {
    hide Passes, Doublings;
    ChainSorted(fam, 0);
    ChainPasses(fam, 0);
    ChainWidth(fam);
  }

  lemma ChainWidth(fam: Family)
    ensures MaxWidth(Chain(fam, 0)) == Width(fam)
  {
    hide Pow2, Doublings, Chain;
    ChainHead(fam, 0);
    OneFamily(fam, Chain(fam, 0));
  }

  lemma ChainHead(fam: Family, k: nat)
    requires k <= Width(fam)
    ensures Chain(fam, k) != [] && forall i :: 0 <= i < |Chain(fam, k)| ==> Chain(fam, k)[i].fam == fam
  {
    hide Pow2, Doublings;
    forall i | 0 <= i < |Doublings(fam, k)| ensures Doublings(fam, k)[i].fam == fam {
      DoublingsFrom(fam, k, i);
    }
  }

  lemma OneFamily(fam: Family, ps: seq<Prefix>)
    requires ps != [] && forall i :: 0 <= i < |ps| ==> ps[i].fam == fam
    ensures MaxWidth(ps) == Width(fam)
  {
    assert ps[0] in ps;
  }

  lemma {:induction false} ChainPasses(fam: Family, k: nat)
    requires k <= Width(fam)
    ensures AllBlocks(Chain(fam, k)) && Passes(Chain(fam, k)) == Width(fam) - k + 1
    decreases Width(fam) - k
  {
    hide IsBlock, Chain, Pass, Passes, CanMerge;
    ChainBlocks(fam, k);
    OnePass(Chain(fam, k));
    if k < Width(fam) {
      ChainStep(fam, k);
      ChainPasses(fam, k + 1);
    } else {
      ChainEnds(fam);
    }
  }

  lemma OnePass(ps: seq<Prefix>)
    requires AllBlocks(ps)
    ensures Passes(ps) == if |Pass(ps)| == |ps| then 1 else 1 + Passes(Pass(ps))
  {
    hide Pass, IsBlock;
  }

  lemma ChainEnds(fam: Family)
    requires AllBlocks(Chain(fam, Width(fam)))
    ensures |Pass(Chain(fam, Width(fam)))| == |Chain(fam, Width(fam))|
  {
    hide IsBlock, Parent, CanMerge;
    assert Chain(fam, Width(fam)) == [Prefix(fam, 0, 0)];
    var rest := Chain(fam, Width(fam))[1..];
    assert rest == [] && Pass(rest) == [];
  }

  lemma ChainBlocks(fam: Family, k: nat)
    requires k <= Width(fam)
    ensures AllBlocks(Chain(fam, k))
  {
    AlignedZero(k);
    DoublingsStay(fam, k);
  }

  lemma MergeFirstTwo(p: Prefix, q: Prefix, rest: seq<Prefix>)
    requires IsBlock(p) && IsBlock(q) && AllBlocks(rest) && CanMerge(p, q)
    ensures AllBlocks([p] + ([q] + rest)) && Pass([p] + ([q] + rest)) == [Parent(p)] + Pass(rest)
  {
    hide IsBlock, CanMerge, Parent;
    var c := [p] + ([q] + rest);
    assert c[0] == p && c[1] == q && c[2..] == rest;
  }

  lemma ChainMerge(fam: Family, k: nat)
    requires k < Width(fam)
    ensures var p, q := Prefix(fam, 0, Width(fam) - k), Prefix(fam, Pow2(k), Width(fam) - k);
            IsBlock(p) && IsBlock(q) && CanMerge(p, q) && Parent(p) == Prefix(fam, 0, Width(fam) - k - 1)
  {
    hide Pow2, Aligned, ClearLow;
    var p, q := Prefix(fam, 0, Width(fam) - k), Prefix(fam, Pow2(k), Width(fam) - k);
    ChainBlocks(fam, k);
    assert Chain(fam, k)[0] == p;
    DoublingIsBlock(fam, k);
    ChainParent(fam, k, p);
    ChainParent(fam, k, q);
  }

  lemma ChainStep(fam: Family, k: nat)
    requires k < Width(fam)
    ensures AllBlocks(Chain(fam, k)) && Pass(Chain(fam, k)) == Chain(fam, k + 1)
    ensures |Chain(fam, k)| == |Chain(fam, k + 1)| + 1
  {
    hide Pow2, IsBlock, CanMerge, Parent, Pass;
    ChainMerge(fam, k);
    DoublingsStay(fam, k + 1);
    MergeFirstTwo(Prefix(fam, 0, Width(fam) - k), Prefix(fam, Pow2(k), Width(fam) - k), Doublings(fam, k + 1));
  }

  lemma ChainParent(fam: Family, k: nat, p: Prefix)
    requires k < Width(fam) && IsBlock(p) && p.fam == fam && p.bits == Width(fam) - k && p.base <= Pow2(k)
    ensures Parent(p) == Prefix(fam, 0, Width(fam) - k - 1)
  {
    AlignedZero(k + 1);
    ClearLowUnique(p.base, k + 1, 0);
  }

  // ---- the function itself ----

  /** One run of the inner loop; `changed` says whether anything merged. */
  method MergePass(deduped: seq<Prefix>) returns (merged: seq<Prefix>, changed: bool)
    requires AllBlocks(deduped)
    ensures merged == Pass(deduped)
    ensures changed <==> |merged| < |deduped|
  {
    merged := [];
    changed := false;
    var i := 0;
    while i < |deduped|
      invariant i <= |deduped| && |merged| <= i
      invariant merged + Pass(deduped[i..]) == Pass(deduped)
      invariant changed <==> |merged| < i
    {
      PassUnfold(deduped, i);
      ghost var was := merged;
      if i + 1 < |deduped| && CanMerge(deduped[i], deduped[i + 1]) {
        var parent := Masked(Prefix(deduped[i].fam, deduped[i].base, deduped[i].bits - 1));
        Shift(was, parent, Pass(deduped[i + 2..]));
        merged := merged + [parent];
        i := i + 2;
        changed := true;
        continue;
      }
      Shift(was, deduped[i], Pass(deduped[i + 1..]));
      merged := merged + [deduped[i]];
      i := i + 1;
    }
    assert deduped[i..] == [];
  }

  lemma Shift<T>(s: seq<T>, x: T, t: seq<T>)
    ensures s + ([x] + t) == (s + [x]) + t
  {
  }

  lemma PassUnfold(ps: seq<Prefix>, i: nat)
    requires AllBlocks(ps) && i < |ps|
    ensures if i + 1 < |ps| && CanMerge(ps[i], ps[i + 1])
            then Pass(ps[i..]) == [Parent(ps[i])] + Pass(ps[i + 2..])
            else Pass(ps[i..]) == [ps[i]] + Pass(ps[i + 1..])
  {
    var rest := ps[i..];
    assert rest[1..] == ps[i + 1..];
    if |rest| > 1 { assert rest[2..] == ps[i + 2..]; }
  }

  /**
    main.go:897-946. Sorts its argument in place and returns the canonical list for its addresses:
    by `CanonicalUnique` that list depends on the addresses alone, and by `CanonicalMinimal` no
    prefix list for them is shorter. The merge loop runs at most W + 1 times, and as often as
    `Passes` says on a sorted, disjoint argument.
    */
  method Aggregate(input: array<Prefix>) returns (out: seq<Prefix>, ghost passes: nat)
    requires AllBlocks(input[..])
    modifies input
    ensures multiset(input[..]) == old(multiset(input[..])) && Sorted(input[..])
    ensures IsCanonical(out) && SameAddrs(out, old(input[..]))
    ensures |out| <= input.Length && passes <= MaxWidth(old(input[..])) + 1
    ensures input.Length > 0 && SortedDisjoint(old(input[..])) ==> passes == Passes(old(input[..]))
  {
    passes := 0;
    if input.Length == 0 {
      return input[..], passes;
    }
    ghost var given := input[..];
    LeOrder();
    SortSlice(input, Le);
    PermutationCovers(given, input[..]);
    var deduped := Dedup(input[..]);
    SortedAlready(given, input[..], deduped);
    SameAddrsTrans(deduped, input[..], given);
    PassBound(deduped);
    SubsetWidth(deduped, given) by {
      forall p | p in deduped ensures p in given { assert p in multiset(input[..]); }
    }
    ghost var total, sorted := Passes(deduped), input[..];
    while true
      invariant input[..] == sorted
      invariant AllBlocks(deduped) && SortedDisjoint(deduped) && SameAddrs(deduped, given)
      invariant |deduped| <= input.Length && passes + Passes(deduped) == total
      decreases |deduped|
    {
      PassInvariant(deduped);
      var merged, changed := MergePass(deduped);
      SameAddrsTrans(merged, deduped, given);
      deduped := merged;
      passes := passes + 1;
      if !changed {
        break;
      }
    }
    out := deduped;
  }

  /** A sorted, disjoint list comes through sorting and the look-back as it is. */
  lemma SortedAlready(given: seq<Prefix>, sorted: seq<Prefix>, deduped: seq<Prefix>)
    requires AllBlocks(given) && AllBlocks(sorted) && multiset(given) == multiset(sorted) && Sorted(sorted)
    requires SortedDisjoint(sorted) ==> deduped == sorted
    ensures SortedDisjoint(given) ==> deduped == given
  {
    if SortedDisjoint(given) {
      DisjointSorted(given);
      SortedUnique(given, sorted);
    }
  }

  lemma SubsetWidth(ps: seq<Prefix>, qs: seq<Prefix>)
    requires forall p :: p in ps ==> p in qs
    ensures MaxWidth(ps) <= MaxWidth(qs)
  {
  }

  /** What a pass keeps, and what it means that it changed nothing. */
  lemma PassInvariant(ps: seq<Prefix>)
    requires AllBlocks(ps) && SortedDisjoint(ps)
    ensures SortedDisjoint(Pass(ps)) && SameAddrs(Pass(ps), ps)
    ensures |Pass(ps)| == |ps| ==> Pass(ps) == ps && IsCanonical(ps)
  {
    PassSorted(ps);
    forall a ensures Covered(Pass(ps), a) <==> Covered(ps, a) { PassCovers(ps, a); }
    PassKeepsOrShrinks(ps);
    if |Pass(ps)| == |ps| { FixpointCanonical(ps); }
  }
}
