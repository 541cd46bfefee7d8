/**
  Several countries on one host, whose marker regions share frr.conf: each leaves the blocks of the
  others alone, and the order of their updates does not matter.
  */
module Shared {
  import opened Cidr
  import opened Text
  import opened Splice
  import opened Rollback
  import opened Render
  import opened Readback
  import opened Deployment

  // ---- many regions in one file ----

  /** Marker lines, begin and end by turns, no two of which start alike. */
  predicate Distinct(ms: seq<string>) {
    && |ms| % 2 == 0 && (forall i :: 0 <= i < |ms| ==> Solo(ms[i]))
    && forall i, j :: 0 <= i < j < |ms| ==> Unlike(ms[i], ms[j])
  }

  predicate IsRegion(ms: seq<string>, r: nat) {
    2 * r + 1 < |ms|
  }

  function Begin(ms: seq<string>, r: nat): string
    requires IsRegion(ms, r)
  {
    ms[2 * r]
  }

  function End(ms: seq<string>, r: nat): string
    requires IsRegion(ms, r)
  {
    ms[2 * r + 1]
  }

  predicate Ahead(cfg: string, ms: seq<string>, r: nat, t: nat)
    requires IsRegion(ms, r) && IsRegion(ms, t)
  {
    Index(cfg, End(ms, r)) < Index(cfg, Begin(ms, t))
  }

  /** Every region is there, and of two regions one stands wholly before the other. */
  ghost predicate Placed(cfg: string, ms: seq<string>) {
    && Distinct(ms) && (forall r: nat :: IsRegion(ms, r) ==> Region(cfg, Begin(ms, r), End(ms, r)))
    && forall r: nat, t: nat :: IsRegion(ms, r) && IsRegion(ms, t) && r != t ==> Ahead(cfg, ms, r, t) || Ahead(cfg, ms, t, r)
  }

  /** A body without any of the marker lines and without an empty first line. */
  ghost predicate Plain(body: string, ms: seq<string>) {
    (forall i :: 0 <= i < |ms| ==> Clean(body, ms[i])) && (body == "" || body[0] != '\n')
  }

  function Put(cfg: string, ms: seq<string>, r: nat, body: string): string
    requires IsRegion(ms, r)
  {
    match Splice.Splice(cfg, Begin(ms, r), End(ms, r), body)
    case Spliced(text) => text
    case _ => cfg
  }

  lemma PairOf(ms: seq<string>, r: nat)
    requires Distinct(ms) && IsRegion(ms, r)
    ensures MarkerPair(Begin(ms, r), End(ms, r))
  {
  }

  function TheBlock(cfg: string, ms: seq<string>, r: nat): string
    requires Placed(cfg, ms) && IsRegion(ms, r)
  {
    PairOf(ms, r);
    Block(cfg, Begin(ms, r), End(ms, r))
  }

  // ---- two of them ----

  /** Two regions, as the theorems about two regions want them. */
  function Two(ms: seq<string>, r: nat, t: nat): Markers
    requires IsRegion(ms, r) && IsRegion(ms, t)
  {
    Markers(Begin(ms, r), End(ms, r), Begin(ms, t), End(ms, t))
  }

  lemma TwoFit(cfg: string, ms: seq<string>, r: nat, t: nat)
    requires Placed(cfg, ms) && IsRegion(ms, r) && IsRegion(ms, t) && r != t
    ensures FourMarkers(Two(ms, r, t)) && Apart(cfg, Two(ms, r, t))
    ensures Ahead(cfg, ms, r, t) ==> RegionsApart(cfg, Two(ms, r, t))
  {
    hide Solo, Unlike, Region, Index, Distinct;
    TwoUnlike(ms, r, t);
  }

  lemma TwoUnlike(ms: seq<string>, r: nat, t: nat)
    requires Distinct(ms) && IsRegion(ms, r) && IsRegion(ms, t) && r != t
    ensures FourMarkers(Two(ms, r, t))
  {
    hide Unlike, Distinct, Solo;
    UnlikeBoth(ms, 2 * r, 2 * t);
    UnlikeBoth(ms, 2 * r, 2 * t + 1);
    UnlikeBoth(ms, 2 * r + 1, 2 * t);
    UnlikeBoth(ms, 2 * r + 1, 2 * t + 1);
    UnlikeBoth(ms, 2 * r, 2 * r + 1);
    UnlikeBoth(ms, 2 * t, 2 * t + 1);
  }

  lemma TwoPlain(ms: seq<string>, r: nat, t: nat, body: string)
    requires IsRegion(ms, r) && IsRegion(ms, t) && Plain(body, ms)
    ensures PlainBody(body, Two(ms, r, t))
  {
    hide Clean;
  }

  lemma UnlikeBoth(ms: seq<string>, i: nat, j: nat)
    requires Distinct(ms) && i < |ms| && j < |ms| && i != j
    ensures Unlike(ms[i], ms[j]) && Unlike(ms[j], ms[i]) && Solo(ms[i]) && Solo(ms[j])
  {
    hide Solo;
    if i < j { assert Unlike(ms[i], ms[j]); } else { assert Unlike(ms[j], ms[i]); }
  }

  // ---- writing one region ----

  /** What `Put` writes, and where it leaves the region's own markers. */
  lemma PutOwn(cfg: string, ms: seq<string>, r: nat, body: string)
    requires Placed(cfg, ms) && IsRegion(ms, r) && Plain(body, ms)
    ensures var b, e := Begin(ms, r), End(ms, r); var next := Put(cfg, ms, r, body);
            && MarkerPair(b, e)
            && next == Before(cfg, b, e) + Terminated(body) + After(cfg, b, e)
            && Layout(b, e, Before(cfg, b, e), TheBlock(cfg, ms, r), After(cfg, b, e), Index(cfg, b))
            && Layout(b, e, Before(cfg, b, e), Terminated(body), After(cfg, b, e), Index(cfg, b))
            && Region(next, b, e) && Index(next, b) == Index(cfg, b) && Block(next, b, e) == Terminated(body)
            && Index(next, e) == Index(cfg, e) - |TheBlock(cfg, ms, r)| + |Terminated(body)|
  {
    hide Solo, Unlike, Clean, OccursAt, Layout;
    var b, e := Begin(ms, r), End(ms, r);
    PairOf(ms, r);
    RegionLayout(cfg, b, e);
    var a, m, c, p := Before(cfg, b, e), Block(cfg, b, e), After(cfg, b, e), Index(cfg, b);
    LayoutFound(b, e, a, m, c, p);
    PutLayout(b, e, a, m, c, p, body);
    LayoutFound(b, e, a, Terminated(body), c, p);
  }

  /** A marker of a region further up stays where it is. */
  lemma StaysAbove(cfg: string, a: string, rest: string, next: string, x: string)
    requires a <= cfg && next == a + rest && 0 <= Index(cfg, x) && Index(cfg, x) + |x| <= |a|
    ensures Index(next, x) == Index(cfg, x)
  {
    var i := Index(cfg, x);
    assert cfg == a + cfg[|a|..];
    forall j | j <= i ensures OccursAt(next, x, j) <==> OccursAt(cfg, x, j) {
      OccursLeft(a, rest, x, j);
      OccursLeft(a, cfg[|a|..], x, j);
    }
    IndexIs(next, x, i);
  }

  lemma RegionOf(ms: seq<string>, k: nat)
    requires Distinct(ms) && k < |ms|
    ensures IsRegion(ms, k / 2) && ms[k] == if k % 2 == 0 then Begin(ms, k / 2) else End(ms, k / 2)
  {
  }

  /** What is known of another region's marker. */
  lemma OtherMarker(cfg: string, ms: seq<string>, r: nat, k: nat)
    requires Placed(cfg, ms) && IsRegion(ms, r) && k < |ms| && k / 2 != r
    ensures var x, b, e := ms[k], Begin(ms, r), End(ms, r);
            && IsRegion(ms, k / 2) && Solo(x) && Solo(b) && SameOrUnlike(x, b) && SameOrUnlike(x, e) && 0 <= Index(cfg, x)
            && Region(cfg, b, e)
            && if Ahead(cfg, ms, k / 2, r) then Index(cfg, x) < Index(cfg, b) else Index(cfg, e) < Index(cfg, x)
  {
    hide Solo, Unlike, Index, Distinct;
    var t := k / 2;
    RegionOf(ms, k);
    UnlikeBoth(ms, k, 2 * r);
    UnlikeBoth(ms, k, 2 * r + 1);
    assert Region(cfg, Begin(ms, t), End(ms, t)) && Region(cfg, Begin(ms, r), End(ms, r));
  }

  /** The region cut out of the file. */
  lemma Around(cfg: string, ms: seq<string>, r: nat)
    requires Placed(cfg, ms) && IsRegion(ms, r)
    ensures var b, e := Begin(ms, r), End(ms, r);
            && MarkerPair(b, e) && Region(cfg, b, e)
            && var a, m, c := Before(cfg, b, e), TheBlock(cfg, ms, r), After(cfg, b, e);
               && cfg == a + m + c && Index(cfg, b) < |a| && a <= cfg && Index(cfg, e) == |a| + |m|
  {
    hide Solo, Unlike, Clean, OccursAt;
    var b, e := Begin(ms, r), End(ms, r);
    PairOf(ms, r);
    RegionLayout(cfg, b, e);
    var a, m, c := Before(cfg, b, e), Block(cfg, b, e), After(cfg, b, e);
    LayoutFound(b, e, a, m, c, Index(cfg, b));
    LongEnough(b, e, a, Index(cfg, b), m, c);
    assert cfg == a + (m + c);
  }

  /** Writing a region moves the markers of those after it, and no others. */
  lemma PutMoves(cfg: string, ms: seq<string>, r: nat, body: string, k: nat)
    requires Placed(cfg, ms) && IsRegion(ms, r) && Plain(body, ms) && k < |ms| && k / 2 != r
    ensures IsRegion(ms, k / 2)
    ensures Index(Put(cfg, ms, r, body), ms[k])
            == Index(cfg, ms[k]) + if Ahead(cfg, ms, k / 2, r) then 0 else |Terminated(body)| - |TheBlock(cfg, ms, r)|
  {
    hide Solo, Clean, OccursAt, Layout, Unlike, MarkerPair, SameOrUnlike, Placed, Index, Splice.Splice, Put;
    hide Before, After;
    hide TheBlock, Terminated;
    var b, e, x := Begin(ms, r), End(ms, r), ms[k];
    OtherMarker(cfg, ms, r, k);
    PutOwn(cfg, ms, r, body);
    Around(cfg, ms, r);
    CleanTerminated(body, x);
    var a, m, c := Before(cfg, b, e), TheBlock(cfg, ms, r), After(cfg, b, e);
    if Ahead(cfg, ms, k / 2, r) {
      NoOverlap(cfg, x, Index(cfg, x), b, Index(cfg, b));
      Reassociate(a, Terminated(body), c);
      StaysAbove(cfg, a, Terminated(body) + c, Put(cfg, ms, r, body), x);
    } else {
      FirstBehind(cfg, b, e, a, m, c, Index(cfg, b), x, Terminated(body));
    }
  }

  lemma FirstBehind(cfg: string, b: string, e: string, a: string, m: string, c: string, p: int, x: string, t: string)
    requires cfg == a + m + c && MarkerPair(b, e) && Layout(b, e, a, m, c, p) && Layout(b, e, a, t, c, p)
    requires Solo(x) && SameOrUnlike(x, b) && SameOrUnlike(x, e) && Clean(t, x) && |a| + |m| <= Index(cfg, x)
    ensures Index(a + t + c, x) == Index(cfg, x) - |m| + |t|
  {
    hide Clean, OccursAt, Layout, Unlike, MarkerPair, SameOrUnlike, SoloAt;
    var i := Index(cfg, x);
    ThreeSlices(a, m, c);
    CleanSlice(cfg, |a|, |a| + |m|, x);
    assert Clean(m, x) && OccursAt(a + m + c, x, i);
    forall j | j < i ensures !OccursAt(a + m + c, x, j) {
      assert !OccursAt(cfg, x, j);
    }
    FirstMoves(b, e, a, m, c, p, x, t, i);
    IndexIs(a + t + c, x, i - |m| + |t|);
  }

  /** Writing a region keeps every region in its place among the others. */
  lemma PutPlaced(cfg: string, ms: seq<string>, r: nat, body: string)
    requires Placed(cfg, ms) && IsRegion(ms, r) && Plain(body, ms)
    ensures Placed(Put(cfg, ms, r, body), ms)
  {
    hide Solo, Unlike, Put, Index, Plain, TheBlock, Distinct, Layout;
    var next := Put(cfg, ms, r, body);
    var delta := |Terminated(body)| - |TheBlock(cfg, ms, r)|;
    PutOwn(cfg, ms, r, body);
    Around(cfg, ms, r);
    forall t: nat | IsRegion(ms, t) && t != r
      ensures Index(next, Begin(ms, t)) == Index(cfg, Begin(ms, t)) + if Ahead(cfg, ms, t, r) then 0 else delta
      ensures Index(next, End(ms, t)) == Index(cfg, End(ms, t)) + if Ahead(cfg, ms, t, r) then 0 else delta
    {
      PutMoves(cfg, ms, r, body, 2 * t);
      PutMoves(cfg, ms, r, body, 2 * t + 1);
    }
    forall t: nat | IsRegion(ms, t) ensures Region(next, Begin(ms, t), End(ms, t)) {
      assert Region(cfg, Begin(ms, t), End(ms, t));
    }
    forall t: nat, u: nat | IsRegion(ms, t) && IsRegion(ms, u) && t != u
      ensures Ahead(next, ms, t, u) || Ahead(next, ms, u, t)
    {
      OrderKept(cfg, ms, r, t, u, next, delta);
    }
  }

  lemma OrderKept(cfg: string, ms: seq<string>, r: nat, t: nat, u: nat, next: string, delta: int)
    requires Placed(cfg, ms) && IsRegion(ms, r) && IsRegion(ms, t) && IsRegion(ms, u) && t != u
    requires Index(next, Begin(ms, r)) == Index(cfg, Begin(ms, r)) && Index(next, End(ms, r)) == Index(cfg, End(ms, r)) + delta
    requires Region(next, Begin(ms, r), End(ms, r))
    requires forall v: nat :: IsRegion(ms, v) && v != r ==>
               && Index(next, Begin(ms, v)) == Index(cfg, Begin(ms, v)) + (if Ahead(cfg, ms, v, r) then 0 else delta)
               && Index(next, End(ms, v)) == Index(cfg, End(ms, v)) + (if Ahead(cfg, ms, v, r) then 0 else delta)
    ensures Ahead(next, ms, t, u) || Ahead(next, ms, u, t)
  {
    hide Solo, Unlike, Index, Distinct;
    assert Region(cfg, Begin(ms, r), End(ms, r)) && Region(cfg, Begin(ms, t), End(ms, t));
    assert Region(cfg, Begin(ms, u), End(ms, u));
  }

  /** Writing a region leaves the blocks of the others alone. */
  lemma PutElsewhere(cfg: string, ms: seq<string>, r: nat, body: string, t: nat)
    requires Placed(cfg, ms) && IsRegion(ms, r) && IsRegion(ms, t) && r != t && Plain(body, ms)
    ensures Placed(Put(cfg, ms, r, body), ms)
    ensures TheBlock(Put(cfg, ms, r, body), ms, t) == TheBlock(cfg, ms, t)
  {
    hide Solo, Unlike, Index, Distinct, Layout, Clean, Region;
    hide FourMarkers, TwoLayouts;
    PutPlaced(cfg, ms, r, body);
    if Ahead(cfg, ms, r, t) {
      FirstOfTwo(cfg, ms, r, t, body);
    } else {
      SecondOfTwo(cfg, ms, t, r, body);
    }
  }

  lemma FirstOfTwo(cfg: string, ms: seq<string>, r: nat, t: nat, body: string)
    requires Placed(cfg, ms) && IsRegion(ms, r) && IsRegion(ms, t) && r != t && Plain(body, ms) && Ahead(cfg, ms, r, t)
    requires Placed(Put(cfg, ms, r, body), ms)
    ensures TheBlock(Put(cfg, ms, r, body), ms, t) == TheBlock(cfg, ms, t)
  {
    hide Solo, Unlike, Index, Distinct, Layout, Clean, Region, Placed, Plain, FourMarkers, TwoLayouts;
    hide RegionsApart, PlainBody;
    TwoFit(cfg, ms, r, t);
    TwoPlain(ms, r, t, body);
    var m := Two(ms, r, t);
    var p := Cut(cfg, m);
    RegionsLayouts(cfg, m);
    WriteFirst(m, p, body);
    BothFound(m, p.(v4 := Terminated(body), q := p.q - |p.v4| + |Terminated(body)|));
  }

  lemma SecondOfTwo(cfg: string, ms: seq<string>, t: nat, r: nat, body: string)
    requires Placed(cfg, ms) && IsRegion(ms, r) && IsRegion(ms, t) && r != t && Plain(body, ms) && Ahead(cfg, ms, t, r)
    requires Placed(Put(cfg, ms, r, body), ms)
    ensures TheBlock(Put(cfg, ms, r, body), ms, t) == TheBlock(cfg, ms, t)
  {
    hide Solo, Unlike, Index, Distinct, Layout, Clean, Region, Placed, Plain, FourMarkers, TwoLayouts;
    hide RegionsApart, PlainBody;
    TwoFit(cfg, ms, t, r);
    TwoPlain(ms, t, r, body);
    var m := Two(ms, t, r);
    var p := Cut(cfg, m);
    RegionsLayouts(cfg, m);
    WriteSecond(m, p, body);
    BothFound(m, p.(v6 := Terminated(body)));
  }

  /** Two regions can be written in either order. */
  lemma PutsCommute(cfg: string, ms: seq<string>, r: nat, x: string, t: nat, y: string)
    requires Placed(cfg, ms) && IsRegion(ms, r) && IsRegion(ms, t) && r != t && Plain(x, ms) && Plain(y, ms)
    ensures Put(Put(cfg, ms, r, x), ms, t, y) == Put(Put(cfg, ms, t, y), ms, r, x)
  {
    hide Solo, Unlike, Index, Distinct, Clean, Region, Placed, Plain, FourMarkers, Apart, PlainBody, Splice.Splice;
    TwoFit(cfg, ms, r, t);
    TwoPlain(ms, r, t, x);
    TwoPlain(ms, r, t, y);
    WritesCommute(cfg, Two(ms, r, t), x, y);
  }

  /** Writing what is there changes nothing, and only that does. */
  lemma PutFixed(cfg: string, ms: seq<string>, r: nat, body: string)
    requires Placed(cfg, ms) && IsRegion(ms, r) && Plain(body, ms)
    ensures Placed(Put(cfg, ms, r, body), ms) && TheBlock(Put(cfg, ms, r, body), ms, r) == Terminated(body)
    ensures Put(cfg, ms, r, body) == cfg <==> TheBlock(cfg, ms, r) == Terminated(body)
  {
    hide Placed, Plain, Index, Put, Before, After, Layout, Terminated;
    PutPlaced(cfg, ms, r, body);
    PutOwn(cfg, ms, r, body);
    Around(cfg, ms, r);
  }

  // ---- two countries ----

  /**
    The four marker lines of each country, and the blocks each wants to write: v4 and v6 of the
    first, then of the second.
    */
  datatype Wish = Wish(ms: seq<string>, bodies: seq<string>)

  predicate Sized(w: Wish) {
    |w.ms| == 8 && |w.bodies| == 4
  }

  ghost predicate Fits(cfg: string, w: Wish)
    requires Sized(w)
  {
    Placed(cfg, w.ms) && forall r :: 0 <= r < 4 ==> Plain(w.bodies[r], w.ms)
  }

  /** The file country `who`, 0 or 1, writes when it has read `cfg`. */
  function Update(cfg: string, w: Wish, who: nat): string
    requires Sized(w) && who < 2
  {
    Put(Put(cfg, w.ms, 2 * who, w.bodies[2 * who]), w.ms, 2 * who + 1, w.bodies[2 * who + 1])
  }

  lemma UpdateFits(cfg: string, w: Wish, who: nat)
    requires Sized(w) && Fits(cfg, w) && who < 2
    ensures Fits(Update(cfg, w, who), w)
  {
    hide Put, Placed, Plain;
    PutPlaced(cfg, w.ms, 2 * who, w.bodies[2 * who]);
    PutPlaced(Put(cfg, w.ms, 2 * who, w.bodies[2 * who]), w.ms, 2 * who + 1, w.bodies[2 * who + 1]);
  }

  /** Each country leaves the blocks of the other alone, and its own hold what it wants. */
  lemma UpdateBlocks(cfg: string, w: Wish, who: nat, r: nat)
    requires Sized(w) && Fits(cfg, w) && who < 2 && r < 4
    ensures Fits(Update(cfg, w, who), w)
    ensures TheBlock(Update(cfg, w, who), w.ms, r)
            == if r / 2 == who then Terminated(w.bodies[r]) else TheBlock(cfg, w.ms, r)
  {
    hide Put, Placed, Plain, TheBlock;
    UpdateFits(cfg, w, who);
    var i, j := 2 * who, 2 * who + 1;
    var mid := Put(cfg, w.ms, i, w.bodies[i]);
    PutFixed(cfg, w.ms, i, w.bodies[i]);
    PutFixed(mid, w.ms, j, w.bodies[j]);
    if r != i { PutElsewhere(cfg, w.ms, i, w.bodies[i], r); }
    if r != j { PutElsewhere(mid, w.ms, j, w.bodies[j], r); }
  }

  /** A country has nothing to do exactly when its blocks hold what it wants. */
  lemma NothingToDo(cfg: string, w: Wish, who: nat)
    requires Sized(w) && Fits(cfg, w) && who < 2
    ensures Update(cfg, w, who) == cfg <==>
            && TheBlock(cfg, w.ms, 2 * who) == Terminated(w.bodies[2 * who])
            && TheBlock(cfg, w.ms, 2 * who + 1) == Terminated(w.bodies[2 * who + 1])
  {
    hide Put, Placed, Plain, TheBlock;
    var i, j := 2 * who, 2 * who + 1;
    UpdateBlocks(cfg, w, who, i);
    UpdateBlocks(cfg, w, who, j);
    PutFixed(cfg, w.ms, i, w.bodies[i]);
    PutFixed(cfg, w.ms, j, w.bodies[j]);
  }

  /** The countries' updates commute, and each is idempotent. */
  lemma UpdatesCommute(cfg: string, w: Wish)
    requires Sized(w) && Fits(cfg, w)
    ensures Update(Update(cfg, w, 0), w, 1) == Update(Update(cfg, w, 1), w, 0)
    ensures forall who :: 0 <= who < 2 ==> Update(Update(cfg, w, who), w, who) == Update(cfg, w, who)
  {
    hide Put, Placed, Plain, TheBlock;
    var ms, b := w.ms, w.bodies;
    var c1 := Put(cfg, ms, 2, b[2]);
    PutPlaced(cfg, ms, 2, b[2]);
    PutPlaced(cfg, ms, 0, b[0]);
    PutPlaced(c1, ms, 0, b[0]);
    PutsCommute(cfg, ms, 0, b[0], 2, b[2]);
    PutsCommute(c1, ms, 0, b[0], 3, b[3]);
    PutsCommute(Put(c1, ms, 0, b[0]), ms, 1, b[1], 3, b[3]);
    PutsCommute(Put(cfg, ms, 0, b[0]), ms, 1, b[1], 2, b[2]);
    forall who: nat | who < 2 ensures Update(Update(cfg, w, who), w, who) == Update(cfg, w, who) {
      UpdateBlocks(cfg, w, who, 2 * who);
      UpdateBlocks(cfg, w, who, 2 * who + 1);
      NothingToDo(Update(cfg, w, who), w, who);
    }
  }

  // ---- the countries of the deployment ----

  /** The lines of two marker prefixes (main.go:275-280). */
  function LinesOf(p: string, q: string): seq<string> {
    var m, n := MarkersFor(p), MarkersFor(q);
    [m.beginV4, m.endV4, m.beginV6, m.endV6, n.beginV4, n.endV4, n.beginV6, n.endV6]
  }

  lemma Difference(p: string, q: string) returns (i: nat)
    requires Unlike(p, q)
    ensures i < |p| && i < |q| && p[i] != q[i]
  {
    if |p| <= |q| {
      assert q[..|p|] != p;
      i :| i < |p| && p[i] != q[i];
    } else {
      assert p[..|q|] != q;
      i :| i < |q| && p[i] != q[i];
    }
  }

  lemma UnlikeTails(head: string, p: string, q: string, x: string, y: string)
    requires Unlike(p, q)
    ensures Unlike(head + p + x, head + q + y)
  {
    var a, b := head + p + x, head + q + y;
    var i := Difference(p, q);
    assert a[|head| + i] == p[i] && b[|head| + i] == q[i];
  }

  lemma UnlikeHeads(a: string, b: string)
    requires |a| > 4 && |b| > 4 && a[4] != b[4]
    ensures Unlike(a, b)
  {
  }

  /**
    Two marker prefixes neither of which starts like the other give eight distinct lines, as those
    of two country codes do.
    */
  lemma CountriesDistinct(p: string, q: string)
    requires NoneOf(p, ' ', '\n') && NoneOf(q, ' ', '\n') && Unlike(p, q)
    ensures Distinct(LinesOf(p, q))
  {
    hide Solo, Unlike;
    MarkersDistinct(p);
    MarkersDistinct(q);
    var ms := LinesOf(p, q);
    forall i, j | 0 <= i < 4 <= j < 8 ensures Unlike(ms[i], ms[j]) {
      if i % 2 == j % 2 {
        UnlikeTails(if i % 2 == 0 then "  ! BEGIN-" else "  ! END-", p, q,
                    if i < 2 then "-V4" else "-V6", if j < 6 then "-V4" else "-V6");
      } else {
        UnlikeHeads(ms[i], ms[j]);
      }
    }
  }

  /** What two countries with these lists want to write. */
  function WishOf(e: Env, v4: seq<Prefix>, v6: seq<Prefix>, f: Env, u4: seq<Prefix>, u6: seq<Prefix>): (w: Wish)
    ensures Sized(w)
  {
    Wish(LinesOf(e.prefix, f.prefix), [Rendered(e, v4), Rendered(e, v6), Rendered(f, u4), Rendered(f, u6)])
  }

  /**
    Two countries with any lists, on a file that holds their regions: each writes what `Update` says,
    which is the next file of its own cycle.
    */
  lemma TwoCountries(e: Env, v4: seq<Prefix>, v6: seq<Prefix>, f: Env, u4: seq<Prefix>, u6: seq<Prefix>, cfg: string)
    requires GoodEnv(e) && GoodEnv(f) && AllBlocks(v4) && AllBlocks(v6) && AllBlocks(u4) && AllBlocks(u6)
    requires Placed(cfg, LinesOf(e.prefix, f.prefix))
    ensures var w := WishOf(e, v4, v6, f, u4, u6);
            && Fits(cfg, w)
            && NextFile(e, cfg, v4, v6) == Spliced(Update(cfg, w, 0))
            && NextFile(f, cfg, u4, u6) == Spliced(Update(cfg, w, 1))
  {
    hide GoodEnv, Placed, Rendered, MarkersFor, Plain, SpliceBoth, Update, Fits;
    var w := WishOf(e, v4, v6, f, u4, u6);
    WishFits(e, v4, v6, f, u4, u6, cfg);
    PutsSplice(cfg, w, 0);
    PutsSplice(cfg, w, 1);
  }

  lemma WishFits(e: Env, v4: seq<Prefix>, v6: seq<Prefix>, f: Env, u4: seq<Prefix>, u6: seq<Prefix>, cfg: string)
    requires GoodEnv(e) && GoodEnv(f) && AllBlocks(v4) && AllBlocks(v6) && AllBlocks(u4) && AllBlocks(u6)
    requires Placed(cfg, LinesOf(e.prefix, f.prefix))
    ensures Fits(cfg, WishOf(e, v4, v6, f, u4, u6))
  {
    hide GoodEnv, Placed, Rendered, MarkersFor, Plain, LinesOf;
    var ms := LinesOf(e.prefix, f.prefix);
    LinesBang(e.prefix, f.prefix);
    BlockPlain(e, v4, ms);
    BlockPlain(e, v6, ms);
    BlockPlain(f, u4, ms);
    BlockPlain(f, u6, ms);
  }

  lemma LinesBang(p: string, q: string)
    ensures |LinesOf(p, q)| == 8 && forall i :: 0 <= i < 8 ==> |LinesOf(p, q)[i]| > 2 && LinesOf(p, q)[i][2] == '!'
  {
  }

  lemma PutsSplice(cfg: string, w: Wish, who: nat)
    requires Sized(w) && Fits(cfg, w) && who < 2
    ensures SpliceBoth(cfg, Two(w.ms, 2 * who, 2 * who + 1), w.bodies[2 * who], w.bodies[2 * who + 1])
            == Spliced(Update(cfg, w, who))
  {
    hide Solo, Unlike, Index, Distinct, Clean, Region, Placed, FourMarkers, Apart, PlainBody, Splice.Splice, Plain;
    var i := 2 * who;
    TwoFit(cfg, w.ms, i, i + 1);
    TwoPlain(w.ms, i, i + 1, w.bodies[i]);
    TwoPlain(w.ms, i, i + 1, w.bodies[i + 1]);
    WritesCommute(cfg, Two(w.ms, i, i + 1), w.bodies[i], w.bodies[i + 1]);
  }

  /** A rendered block holds no marker line of anybody. */
  lemma BlockPlain(env: Env, ps: seq<Prefix>, ms: seq<string>)
    requires GoodEnv(env) && AllBlocks(ps) && forall i :: 0 <= i < |ms| ==> |ms[i]| > 2 && ms[i][2] == '!'
    ensures Plain(Rendered(env, ps), ms)
  {
    hide GoodEnv, Clean;
    var ls, body := NetworkLines(env, ps), Rendered(env, ps);
    RenderedPlain(env, ps);
    LinesPlain(env, ps);
    JoinChars(ls, '!');
    forall i | 0 <= i < |ms| ensures Clean(body, ms[i]) { CleanOfBang(body, ms[i]); }
  }

  // ---- a file for two countries ----

  /** Just the marker lines. */
  function MarkersOnly(ms: seq<string>): string {
    if ms == [] then "" else MarkersOnly(ms[..|ms| - 1]) + ms[|ms| - 1] + "\n"
  }

  lemma {:induction false} MarkersClean(ms: seq<string>, q: string)
    requires (forall i :: 0 <= i < |ms| ==> Solo(ms[i]) && Unlike(ms[i], q)) && Solo(q)
    ensures Clean(MarkersOnly(ms), q) && WholeLines(MarkersOnly(ms))
  {
    hide Solo, Unlike, Clean;
    if ms == [] {
      NothingClean(q);
    } else {
      var front, l := ms[..|ms| - 1], ms[|ms| - 1];
      MarkersClean(front, q);
      OtherLine(l, "\n", q);
      CleanJoin(MarkersOnly(front), l + "\n", q);
      assert MarkersOnly(ms) == MarkersOnly(front) + (l + "\n");
    }
  }

  lemma {:induction false} MarkersStart(ms: seq<string>, k: nat)
    requires k <= |ms|
    ensures MarkersOnly(ms[..k]) <= MarkersOnly(ms)
    ensures k < |ms| ==> |MarkersOnly(ms[..k])| + |ms[k]| < |MarkersOnly(ms)|
  {
    if k == |ms| {
      assert ms[..k] == ms;
    } else {
      var n := |ms| - 1;
      if k < n {
        MarkersStart(ms[..n], k);
        assert ms[..n][..k] == ms[..k] && ms[..n][k] == ms[k];
      }
    }
  }

  lemma MarkersFound(ms: seq<string>, k: nat)
    requires Distinct(ms) && k < |ms|
    ensures Index(MarkersOnly(ms), ms[k]) == |MarkersOnly(ms[..k])|
  {
    hide Solo, Unlike, Clean, OccursAt, Index;
    var x, l, s := MarkersOnly(ms[..k]), ms[k], MarkersOnly(ms);
    forall i | 0 <= i < k ensures Solo(ms[..k][i]) && Unlike(ms[..k][i], l) { UnlikeBoth(ms, i, k); }
    MarkersClean(ms[..k], l);
    FirstFoundAfter(x, l);
    MarkersStart(ms, k + 1);
    assert ms[..k + 1][..k] == ms[..k];
    var head := x + l + "\n";
    assert MarkersOnly(ms[..k + 1]) == head;
    var rest := s[|head|..];
    assert s == head + rest;
    forall i | i <= |x| ensures OccursAt(s, l, i) <==> OccursAt(head, l, i) { OccursLeft(head, rest, l, i); }
    IndexIs(s, l, |x|);
  }

  /** A file of just the marker lines holds every region, empty. */
  lemma MarkersPlaced(ms: seq<string>)
    requires Distinct(ms)
    ensures Placed(MarkersOnly(ms), ms)
  {
    hide Solo, Unlike, Index;
    var s := MarkersOnly(ms);
    forall i, j | 0 <= i < j < |ms| ensures 0 <= Index(s, ms[i]) < Index(s, ms[j]) {
      MarkersFound(ms, i);
      MarkersFound(ms, j);
      MarkersStart(ms[..j], i);
      assert ms[..j][..i] == ms[..i] && ms[..j][i] == ms[i];
    }
  }
}
