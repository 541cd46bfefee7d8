/** From the entries of a feed, plus the operator's extras, to the aggregated list of one family. */
module Feed {
  import opened Arith
  import opened Cidr
  import opened Canonical
  import Ranges
  import Aggregate

  /**
    One feed string as the `net/netip` parsers see it: blank, a prefix whose host bits may be set,
    an address range, or something that does not parse.
    */
  datatype Entry =
    | Blank
    | Bad
    | Network(p: Prefix)
    | Range(first: Addr, end: Addr)

  predicate ValidEntry(e: Entry) {
    && (e.Network? ==> ValidPrefix(e.p))
    && (e.Range? ==> ValidAddr(e.first) && ValidAddr(e.end))
  }

  predicate AllValid(raw: seq<Entry>) {
    forall i :: 0 <= i < |raw| ==> ValidEntry(raw[i])
  }

  /** `x` without its low `k` bits. */
  function LeadingBits(x: nat, k: nat): nat {
    if k == 0 then x else LeadingBits(x / 2, k - 1)
  }

  /**
    The addresses an entry stands for: those that share the leading bits of the prefix
    (section 3.1 of RFC 4632), or those from the first to the last of a range in one family.
    */
  predicate Denotes(e: Entry, a: Addr)
    requires ValidEntry(e)
  {
    match e
    case Network(p) => a.fam == p.fam && LeadingBits(a.val, HostBits(p)) == LeadingBits(p.base, HostBits(p))
    case Range(first, end) => a.fam == first.fam == end.fam && first.val <= a.val <= end.val
    case _ => false
  }

  ghost predicate Listed(raw: seq<Entry>, a: Addr)
    requires AllValid(raw)
  {
    exists i :: 0 <= i < |raw| && Denotes(raw[i], a)
  }

  lemma {:induction false} SameLeadingBits(x: nat, y: nat, k: nat)
    ensures LeadingBits(x, k) == LeadingBits(y, k) <==> ClearLow(x, k) == ClearLow(y, k)
  {
    if k > 0 { SameLeadingBits(x / 2, y / 2, k - 1); }
  }

  /** `Masked` keeps exactly the addresses that share the leading bits. */
  lemma MaskedDenotes(p: Prefix, a: Addr)
    requires ValidPrefix(p)
    ensures Contains(Masked(p), a) <==> Denotes(Network(p), a)
  {
    var k := HostBits(p);
    SameLeadingBits(a.val, p.base, k);
    if Contains(Masked(p), a) {
      ClearLowUnique(a.val, k, Masked(p).base);
    }
  }

  /** main.go:801-839: bad and blank entries are skipped, ranges become their CIDR cover. */
  method ParsePrefixes(raw: seq<Entry>) returns (out: seq<Prefix>)
    requires AllValid(raw)
    ensures AllBlocks(out)
    ensures forall a :: Covered(out, a) <==> Listed(raw, a)
  {
    out := [];
    for i := 0 to |raw|
      invariant AllBlocks(out)
      invariant forall a :: Covered(out, a) <==> Listed(raw[..i], a)
    {
      ghost var before := out;
      var more := [];
      match raw[i] {
        case Blank =>
        case Bad =>
        case Range(first, end) =>
          more := Ranges.RangeToCidr(first, end);
        case Network(p) =>
          more := [Masked(p)];
      }
      EntryAdded(raw, i, before, more) by {
        forall a ensures Covered(more, a) <==> Denotes(raw[i], a) {
          if raw[i].Network? {
            MaskedDenotes(raw[i].p, a);
            CoveredOne(Masked(raw[i].p), a);
          }
        }
      }
      out := out + more;
    }
    assert raw[..|raw|] == raw;
  }

  lemma EntryAdded(raw: seq<Entry>, i: nat, out: seq<Prefix>, more: seq<Prefix>)
    requires AllValid(raw) && i < |raw| && AllBlocks(out) && AllBlocks(more)
    requires forall a :: Covered(out, a) <==> Listed(raw[..i], a)
    requires forall a :: Covered(more, a) <==> Denotes(raw[i], a)
    ensures AllBlocks(out + more)
    ensures forall a :: Covered(out + more, a) <==> Listed(raw[..i + 1], a)
  {
    CoveredConcat(out, more, Addr(V4, 0));
    forall a ensures Covered(out + more, a) <==> Listed(raw[..i + 1], a) {
      CoveredConcat(out, more, a);
      if Listed(raw[..i], a) {
        var j :| 0 <= j < i && Denotes(raw[..i][j], a);
        assert Denotes(raw[..i + 1][j], a);
      }
      if Denotes(raw[i], a) { assert Denotes(raw[..i + 1][i], a); }
      if Listed(raw[..i + 1], a) {
        var j :| 0 <= j < i + 1 && Denotes(raw[..i + 1][j], a);
        if j < i { assert Denotes(raw[..i][j], a); }
      }
    }
  }

  /**
    main.go:584-587 for one family: what both planes are given is the canonical list for the union
    of the feed and the extras.
    */
  method AggregateFeed(raw: seq<Entry>, extras: seq<Prefix>) returns (agg: seq<Prefix>)
    requires AllValid(raw) && AllBlocks(extras)
    ensures IsCanonical(agg)
    ensures forall a :: Covered(agg, a) <==> Listed(raw, a) || Covered(extras, a)
  {
    var feed := ParsePrefixes(raw);
    var parsed := feed + extras;
    CoveredConcat(feed, extras, Addr(V4, 0));
    var input := new Prefix[|parsed|](i requires 0 <= i < |parsed| => parsed[i]);
    assert input[..] == parsed;
    ghost var passes;
    agg, passes := Aggregate.Aggregate(input);
    forall a ensures Covered(agg, a) <==> Listed(raw, a) || Covered(extras, a) {
      CoveredConcat(feed, extras, a);
    }
  }

  /** Aggregating the cover of a range gives that cover back. */
  lemma RangeIsAggregated(ps: seq<Prefix>, fam: Family, s: nat, e: nat, agg: seq<Prefix>)
    requires Ranges.GreedyTiling(ps, fam, s, e, e)
    requires IsCanonical(agg) && forall a :: Covered(agg, a) <==> a.fam == fam && s <= a.val < e
    ensures agg == ps
  {
    Ranges.TilingCanonical(ps, fam, s, e);
    forall a ensures Covered(ps, a) <==> Covered(agg, a) {
      Ranges.TilingCovers(ps, fam, s, e, e, a);
    }
    CanonicalUnique(agg, ps);
  }

  /** Any two feeds that list the same addresses, in any order and split in any way, aggregate to the same list. */
  lemma FeedDetermines(raw: seq<Entry>, extras: seq<Prefix>, agg: seq<Prefix>,
                       raw': seq<Entry>, extras': seq<Prefix>, agg': seq<Prefix>)
    requires AllValid(raw) && AllBlocks(extras) && AllValid(raw') && AllBlocks(extras')
    requires IsCanonical(agg) && forall a :: Covered(agg, a) <==> Listed(raw, a) || Covered(extras, a)
    requires IsCanonical(agg') && forall a :: Covered(agg', a) <==> Listed(raw', a) || Covered(extras', a)
    ensures agg == agg' <==>
            forall a :: (Listed(raw, a) || Covered(extras, a)) <==> (Listed(raw', a) || Covered(extras', a))
  {
    if forall a :: (Listed(raw, a) || Covered(extras, a)) <==> (Listed(raw', a) || Covered(extras', a)) {
      assert SameAddrs(agg, agg');
      CanonicalUnique(agg, agg');
    }
  }
}
