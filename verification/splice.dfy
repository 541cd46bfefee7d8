/** The marker-delimited blocks of frr.conf: `markers` and `splice`. */
module Splice {
  import opened Text

  datatype Result = Spliced(text: string) | BeginMissing | EndMissing

  function AfterBegin(cfg: string, begin: string): int {
    var i := Index(cfg, begin) + |begin|;
    if 0 <= i < |cfg| && cfg[i] == '\n' then i + 1 else i
  }

  function Terminated(body: string): string {
    if body == "" then "" else body + "\n"
  }

  /** main.go:971-992. */
  function Splice(cfg: string, begin: string, end: string, body: string): Result {
    var bIdx := Index(cfg, begin);
    if bIdx < 0 then BeginMissing
    else
      var eIdx := Index(cfg, end);
      if eIdx < 0 || eIdx < bIdx then EndMissing
      else Spliced(cfg[..AfterBegin(cfg, begin)] + Terminated(body) + cfg[eIdx..])
  }

  /**
    Which error, for any markers: the begin marker is missing if it occurs nowhere; the end marker if
    it does not occur although the begin marker does, or first occurs before that.
    */
  lemma SpliceErrors(cfg: string, begin: string, end: string, body: string)
    ensures var r := Splice(cfg, begin, end, body);
            && (r.BeginMissing? <==> forall i :: !OccursAt(cfg, begin, i))
            && (r.EndMissing? <==>
                  && (exists i :: OccursAt(cfg, begin, i))
                  && ((forall j :: !OccursAt(cfg, end, j))
                      || exists j :: OccursAt(cfg, end, j) && forall i :: OccursAt(cfg, begin, i) ==> j < i))
  {
    IndexMeans(cfg, begin);
    IndexMeans(cfg, end);
    hide OccursAt;
    var b, e := Index(cfg, begin), Index(cfg, end);
    if 0 <= e < b {
      assert OccursAt(cfg, end, e) && forall i :: OccursAt(cfg, begin, i) ==> e < i;
    }
    if b >= 0 { assert OccursAt(cfg, begin, b); }
  }

  lemma IndexMeans(s: string, pat: string)
    ensures Index(s, pat) < 0 <==> forall i :: !OccursAt(s, pat, i)
    ensures Index(s, pat) >= 0 ==> OccursAt(s, pat, Index(s, pat))
    ensures forall i :: OccursAt(s, pat, i) ==> Index(s, pat) <= i
  {
  }

  // ---- markers ----

  /** Two leading spaces and no other pair of spaces: such a line cannot overlap another one. */
  predicate Solo(m: string) {
    |m| >= 3 && forall j :: 0 <= j < |m| ==> SoloAt(m, j)
  }

  predicate SoloAt(m: string, j: nat)
    requires j < |m|
  {
    && (j < 2 ==> m[j] == ' ') && (j == |m| - 1 ==> m[j] != ' ') && m[j] != '\n'
    && (0 < j < |m| - 1 ==> m[j] != ' ' || m[j + 1] != ' ')
  }

  lemma SoloHas(m: string, j: nat)
    requires Solo(m) && j < |m|
    ensures SoloAt(m, j)
  {
  }

  predicate MarkerPair(begin: string, end: string) {
    Solo(begin) && Solo(end) && Unlike(begin, end)
  }

  datatype Markers = Markers(beginV4: string, endV4: string, beginV6: string, endV6: string)

  /** main.go:275-280. */
  function MarkersFor(prefix: string): Markers {
    Markers("  ! BEGIN-" + prefix + "-V4", "  ! END-" + prefix + "-V4",
            "  ! BEGIN-" + prefix + "-V6", "  ! END-" + prefix + "-V6")
  }

  predicate Unlike(a: string, b: string) {
    !(a <= b) && !(b <= a)
  }

  predicate AllUnlike(m: Markers) {
    && Unlike(m.beginV4, m.endV4) && Unlike(m.beginV4, m.beginV6) && Unlike(m.beginV4, m.endV6)
    && Unlike(m.endV4, m.beginV6) && Unlike(m.endV4, m.endV6) && Unlike(m.beginV6, m.endV6)
  }

  lemma SoloMarker(head: string, prefix: string, tail: string)
    requires head == "  ! BEGIN-" || head == "  ! END-"
    requires tail == "-V4" || tail == "-V6"
    requires ' ' !in prefix && '\n' !in prefix
    ensures Solo(head + prefix + tail)
  {
    var m := head + prefix + tail;
    forall j | 0 <= j < |m| ensures SoloAt(m, j) {
      if |head| <= j < |head| + |prefix| { assert m[j] in prefix; }
    }
  }

  /** For a prefix without spaces or newlines no two marker lines overlap or start alike. */
  lemma MarkersDistinct(prefix: string)
    requires ' ' !in prefix && '\n' !in prefix
    ensures var m := MarkersFor(prefix);
            Solo(m.beginV4) && Solo(m.endV4) && Solo(m.beginV6) && Solo(m.endV6) && AllUnlike(m)
  {
    SoloMarker("  ! BEGIN-", prefix, "-V4");
    SoloMarker("  ! END-", prefix, "-V4");
    SoloMarker("  ! BEGIN-", prefix, "-V6");
    SoloMarker("  ! END-", prefix, "-V6");
    var m := MarkersFor(prefix);
    assert m.beginV4[4] == 'B' && m.endV4[4] == 'E' && m.beginV6[4] == 'B' && m.endV6[4] == 'E';
    assert m.beginV4[|m.beginV4| - 1] == '4' && m.beginV6[|m.beginV6| - 1] == '6';
    assert m.endV4[|m.endV4| - 1] == '4' && m.endV6[|m.endV6| - 1] == '6';
  }

  /** Occurrences of solo lines never overlap. */
  lemma NoOverlap(s: string, p: string, i: int, q: string, j: int)
    requires Solo(p) && Solo(q) && OccursAt(s, p, i) && OccursAt(s, q, j)
    ensures i < j ==> i + |p| <= j
    ensures i == j ==> p <= q || q <= p
  {
    if i < j < i + |p| {
      SoloHas(p, j - i);
      SoloHas(q, 0);
      SoloHas(q, 1);
      OccursChar(s, q, j, 0);
      OccursChar(s, q, j, 1);
      OccursChar(s, p, i, j - i);
      if j + 1 < i + |p| { OccursChar(s, p, i, j + 1 - i); }
    }
    if i == j {
      if |p| <= |q| { assert s[i..i + |q|][..|p|] == p; } else { assert s[i..i + |p|][..|q|] == q; }
    }
  }

  // ---- one region ----

  /** The first end marker comes after the first begin marker. */
  predicate Region(cfg: string, begin: string, end: string) {
    0 <= Index(cfg, begin) < Index(cfg, end)
  }

  /** For marker lines, `splice` succeeds exactly on a region, and the markers do not overlap. */
  lemma SpliceDefined(cfg: string, begin: string, end: string, body: string)
    requires MarkerPair(begin, end)
    ensures Splice(cfg, begin, end, body).Spliced? <==> Region(cfg, begin, end)
    ensures Region(cfg, begin, end) ==> Index(cfg, begin) + |begin| <= AfterBegin(cfg, begin) <= Index(cfg, end)
  {
    var i, j := Index(cfg, begin), Index(cfg, end);
    if 0 <= i && 0 <= j {
      NoOverlap(cfg, begin, i, end, j);
      SoloHas(end, 0);
      OccursChar(cfg, end, j, 0);
    }
  }

  /** The text before and after the block, and the block itself. */
  function Before(cfg: string, begin: string, end: string): string
    requires MarkerPair(begin, end) && Region(cfg, begin, end)
  {
    SpliceDefined(cfg, begin, end, "");
    cfg[..AfterBegin(cfg, begin)]
  }

  function After(cfg: string, begin: string, end: string): string
    requires MarkerPair(begin, end) && Region(cfg, begin, end)
  {
    cfg[Index(cfg, end)..]
  }

  function Block(cfg: string, begin: string, end: string): string
    requires MarkerPair(begin, end) && Region(cfg, begin, end)
  {
    SpliceDefined(cfg, begin, end, "");
    cfg[AfterBegin(cfg, begin)..Index(cfg, end)]
  }

  /** Reading a block: its text without the final newline. */
  function ReadBlock(cfg: string, begin: string, end: string): string
    requires MarkerPair(begin, end) && Region(cfg, begin, end)
  {
    var t := Block(cfg, begin, end);
    if t != "" && t[|t| - 1] == '\n' then t[..|t| - 1] else t
  }

  /** `q` does not occur in the text. */
  ghost predicate Clean(text: string, q: string) {
    forall i :: !OccursAt(text, q, i)
  }

  lemma CleanTerminated(body: string, q: string)
    requires Solo(q) && Clean(body, q)
    ensures Clean(Terminated(body), q)
  {
    forall i ensures !OccursAt(Terminated(body), q, i) {
      if body != "" && OccursAt(body + "\n", q, i) {
        if i + |q| <= |body| {
          OccursLeft(body, "\n", q, i);
        } else {
          SoloHas(q, |q| - 1);
          OccursChar(body + "\n", q, i, |q| - 1);
        }
      }
    }
  }

  /**
    The text a + m + c has its region exactly around `m`: `a` ends in the begin marker, first found
    at `p`, with its newline if there is one; `c` starts with the end marker, which occurs in
    neither `a` nor `m`.
    */
  ghost predicate Layout(begin: string, end: string, a: string, m: string, c: string, p: int) {
    && OccursAt(c, end, 0) && Clean(a, end) && Clean(m, end)
    && OccursAt(a, begin, p) && (forall i :: i < p ==> !OccursAt(a, begin, i))
    && (|a| == p + |begin| || (|a| == p + |begin| + 1 && a[|a| - 1] == '\n'))
    && (|a| == p + |begin| && m != "" ==> m[0] != '\n')
  }

  /** Two lines are the same line or start differently. */
  predicate SameOrUnlike(q: string, m: string) {
    q == m || Unlike(q, m)
  }

  /** In a layout no line occurs across the ends of the block. */
  lemma NotAcross(begin: string, end: string, a: string, m: string, c: string, p: int, q: string, i: int)
    requires MarkerPair(begin, end) && Layout(begin, end, a, m, c, p)
    requires Solo(q) && SameOrUnlike(q, begin) && SameOrUnlike(q, end) && OccursAt(a + m + c, q, i)
    ensures i + |q| <= |a| || (|a| <= i && i + |q| <= |a| + |m|) || |a| + |m| <= i
  {
    hide Clean;
    var s := a + m + c;
    OccursRight(a + m, c, end, |a| + |m|);
    if i < |a| + |m| { NoOverlap(s, q, i, end, |a| + |m|); }
    assert s == a + (m + c);
    OccursLeft(a, m + c, begin, p);
    NoOverlap(s, begin, p, q, i);
    NoOverlap(s, q, i, begin, p);
    if i < |a| < i + |q| && |a| == p + |begin| + 1 {
      SoloHas(q, |a| - 1 - i);
      OccursChar(s, q, i, |a| - 1 - i);
    }
  }

  /** Where a line occurs in a layout whose block is clean of it. */
  lemma OccursInParts(begin: string, end: string, a: string, m: string, c: string, p: int, q: string, i: int)
    requires MarkerPair(begin, end) && Layout(begin, end, a, m, c, p) && Clean(m, q)
    requires Solo(q) && SameOrUnlike(q, begin) && SameOrUnlike(q, end)
    ensures OccursAt(a + m + c, q, i) <==> OccursAt(a, q, i) || OccursAt(c, q, i - |a| - |m|)
  {
    hide Solo, Unlike, MarkerPair, SameOrUnlike, Layout, OccursAt;
    OccursPlaced(a, m, c, q, i);
    OccursBounds(a, q, i);
    OccursBounds(c, q, i - |a| - |m|);
    if OccursAt(a + m + c, q, i) { NotAcross(begin, end, a, m, c, p, q, i); }
  }

  lemma OccursBounds(s: string, q: string, i: int)
    ensures OccursAt(s, q, i) ==> 0 <= i && i + |q| <= |s|
  {
  }

  /** Within one of three parts a line occurs in the whole exactly when it occurs there. */
  lemma OccursPlaced(a: string, m: string, c: string, q: string, i: int)
    ensures i + |q| <= |a| ==> (OccursAt(a + m + c, q, i) <==> OccursAt(a, q, i))
    ensures |a| <= i && i + |q| <= |a| + |m| ==> (OccursAt(a + m + c, q, i) <==> OccursAt(m, q, i - |a|))
    ensures |a| + |m| <= i ==> (OccursAt(a + m + c, q, i) <==> OccursAt(c, q, i - |a| - |m|))
  {
    hide OccursAt;
    assert a + m + c == a + (m + c);
    if i + |q| <= |a| { OccursLeft(a, m + c, q, i); }
    if |a| + |m| <= i { OccursRight(a + m, c, q, i); }
    if |a| <= i && i + |q| <= |a| + |m| {
      OccursRight(a, m + c, q, i);
      OccursLeft(m, c, q, i - |a|);
    }
  }

  lemma PairFacts(begin: string, end: string)
    requires MarkerPair(begin, end)
    ensures Solo(begin) && Solo(end) && SameOrUnlike(end, begin) && SameOrUnlike(end, end)
  {
    hide Solo;
  }

  lemma LayoutBegin(begin: string, end: string, a: string, m: string, c: string, p: int)
    requires Layout(begin, end, a, m, c, p)
    ensures Index(a + m + c, begin) == p
  {
    hide Solo, Unlike, Clean, OccursAt;
    var s := a + m + c;
    assert s == a + (m + c);
    forall i | i <= p ensures OccursAt(s, begin, i) <==> OccursAt(a, begin, i) {
      OccursLeft(a, m + c, begin, i);
    }
    IndexIs(s, begin, p);
  }

  lemma LayoutEnd(begin: string, end: string, a: string, m: string, c: string, p: int)
    requires MarkerPair(begin, end) && Layout(begin, end, a, m, c, p)
    ensures Index(a + m + c, end) == |a| + |m|
  {
    PairFacts(begin, end);
    hide Solo, Unlike, MarkerPair, SameOrUnlike;
    OccursRight(a + m, c, end, |a| + |m|);
    forall i | i < |a| + |m| ensures !OccursAt(a + m + c, end, i) {
      OccursInParts(begin, end, a, m, c, p, end, i);
    }
    IndexIs(a + m + c, end, |a| + |m|);
  }

  /** A layout determines what `splice` finds. */
  lemma LayoutFound(begin: string, end: string, a: string, m: string, c: string, p: int)
    requires MarkerPair(begin, end) && Layout(begin, end, a, m, c, p)
    ensures var s := a + m + c;
            && Index(s, begin) == p && AfterBegin(s, begin) == |a| && Index(s, end) == |a| + |m|
            && Region(s, begin, end)
            && Before(s, begin, end) == a && Block(s, begin, end) == m && After(s, begin, end) == c
  {
    hide Solo, Unlike, Clean, OccursAt;
    LayoutBegin(begin, end, a, m, c, p);
    LayoutEnd(begin, end, a, m, c, p);
    NextChar(begin, end, a, m, c, p);
    ThreeSlices(a, m, c);
    LongEnough(begin, end, a, p, m, c);
  }

  lemma LongEnough(begin: string, end: string, a: string, p: int, m: string, c: string)
    requires MarkerPair(begin, end) && Layout(begin, end, a, m, c, p)
    ensures 0 <= p < |a|
  {
  }

  lemma ThreeSlices(a: string, m: string, c: string)
    ensures var s := a + m + c; s[..|a|] == a && s[|a|..|a| + |m|] == m && s[|a| + |m|..] == c
  {
  }

  lemma NextChar(begin: string, end: string, a: string, m: string, c: string, p: int)
    requires MarkerPair(begin, end) && Layout(begin, end, a, m, c, p)
    requires Index(a + m + c, begin) == p
    ensures AfterBegin(a + m + c, begin) == |a|
  {
    var s, k := a + m + c, p + |begin|;
    SoloHas(end, 0);
    OccursChar(c, end, 0, 0);
    if |a| == k {
      assert s[k] == if m == "" then c[0] else m[0];
    } else {
      assert s[k] == a[k];
    }
  }

  /** Every region is a layout. */
  lemma RegionLayout(cfg: string, begin: string, end: string)
    requires MarkerPair(begin, end) && Region(cfg, begin, end)
    ensures cfg == Before(cfg, begin, end) + Block(cfg, begin, end) + After(cfg, begin, end)
    ensures Layout(begin, end, Before(cfg, begin, end), Block(cfg, begin, end), After(cfg, begin, end), Index(cfg, begin))
  {
    hide Solo, Unlike;
    SpliceDefined(cfg, begin, end, "");
    var s, p, e := AfterBegin(cfg, begin), Index(cfg, begin), Index(cfg, end);
    CleanSlice(cfg, 0, s, end);
    CleanSlice(cfg, s, e, end);
    OccursSlice(cfg, e, |cfg|, end, 0);
    assert cfg[e..|cfg|] == cfg[e..] && cfg[0..s] == cfg[..s];
    OccursSlice(cfg, 0, s, begin, p);
    forall i | i < p ensures !OccursAt(cfg[..s], begin, i) {
      OccursSlice(cfg, 0, s, begin, i);
    }
  }

  /** A slice that ends before the first occurrence has none. */
  lemma CleanSlice(s: string, lo: nat, hi: nat, q: string)
    requires lo <= hi <= |s| && forall i :: i + |q| <= hi ==> !OccursAt(s, q, i)
    ensures Clean(s[lo..hi], q)
  {
    forall i ensures !OccursAt(s[lo..hi], q, i) { OccursSlice(s, lo, hi, q, i); }
  }

  /** Whether a new body would be told apart from the begin marker line. */
  predicate StartsFresh(cfg: string, begin: string, body: string) {
    AfterBegin(cfg, begin) == Index(cfg, begin) + |begin| + 1 || body == "" || body[0] != '\n'
  }

  /** Writing a block keeps the layout and the text around it; the new block is the terminated body. */
  lemma PutLayout(begin: string, end: string, a: string, m: string, c: string, p: int, body: string)
    requires MarkerPair(begin, end) && Layout(begin, end, a, m, c, p)
    requires Clean(body, end) && (|a| == p + |begin| && body != "" ==> body[0] != '\n')
    ensures Splice(a + m + c, begin, end, body) == Spliced(a + Terminated(body) + c)
    ensures Layout(begin, end, a, Terminated(body), c, p)
  {
    LayoutFound(begin, end, a, m, c, p);
    CleanTerminated(body, end);
  }

  /**
    Put then get: writing a block leaves the text before and after it alone, and reading it gives
    the body back.
    */
  lemma PutGet(cfg: string, begin: string, end: string, body: string)
    requires MarkerPair(begin, end) && Region(cfg, begin, end) && Clean(body, end) && StartsFresh(cfg, begin, body)
    ensures var r := Splice(cfg, begin, end, body);
            && r.Spliced? && Region(r.text, begin, end)
            && Before(r.text, begin, end) == Before(cfg, begin, end)
            && After(r.text, begin, end) == After(cfg, begin, end)
            && ReadBlock(r.text, begin, end) == body
  {
    hide Solo, Unlike, MarkerPair;
    RegionLayout(cfg, begin, end);
    var a, m, c, p := Before(cfg, begin, end), Block(cfg, begin, end), After(cfg, begin, end), Index(cfg, begin);
    LayoutFound(begin, end, a, m, c, p);
    PutLayout(begin, end, a, m, c, p, body);
    LayoutFound(begin, end, a, Terminated(body), c, p);
    if body != "" { assert Terminated(body)[..|Terminated(body)| - 1] == body; }
  }

  /** Put twice: only the last body written counts. */
  lemma PutPut(cfg: string, begin: string, end: string, body: string, body': string)
    requires MarkerPair(begin, end) && Region(cfg, begin, end) && Clean(body, end) && StartsFresh(cfg, begin, body)
    ensures var r := Splice(cfg, begin, end, body);
            r.Spliced? && Splice(r.text, begin, end, body') == Splice(cfg, begin, end, body')
  {
    PutGet(cfg, begin, end, body);
    SpliceDefined(cfg, begin, end, body');
    SpliceDefined(Splice(cfg, begin, end, body).text, begin, end, body');
  }

  /**
    Get then put: writing back what was read changes nothing exactly when the block is empty or a
    non-empty body with its newline.
    */
  lemma GetPut(cfg: string, begin: string, end: string)
    requires MarkerPair(begin, end) && Region(cfg, begin, end)
    ensures var t := Block(cfg, begin, end);
            Splice(cfg, begin, end, ReadBlock(cfg, begin, end)) == Spliced(cfg)
            <==> t == "" || (|t| > 1 && t[|t| - 1] == '\n')
  {
    var t, body := Block(cfg, begin, end), ReadBlock(cfg, begin, end);
    SpliceDefined(cfg, begin, end, body);
    RegionLayout(cfg, begin, end);
    var r := Before(cfg, begin, end) + Terminated(body) + After(cfg, begin, end);
    assert Splice(cfg, begin, end, body) == Spliced(r);
    if t != "" && t[|t| - 1] == '\n' {
      assert t == t[..|t| - 1] + "\n";
    }
    if r == cfg {
      assert |Terminated(body)| == |t|;
    }
  }

  // ---- two regions ----

  /** The marker lines of two regions. */
  predicate FourMarkers(m: Markers) {
    Solo(m.beginV4) && Solo(m.endV4) && Solo(m.beginV6) && Solo(m.endV6) && AllUnlike(m)
  }

  /** What four markers give for any two of them. */
  lemma FourPairs(m: Markers)
    requires FourMarkers(m)
    ensures MarkerPair(m.beginV4, m.endV4) && MarkerPair(m.beginV6, m.endV6)
    ensures Solo(m.beginV4) && Solo(m.endV4) && Solo(m.beginV6) && Solo(m.endV6)
    ensures SameOrUnlike(m.beginV6, m.beginV4) && SameOrUnlike(m.beginV6, m.endV4)
    ensures SameOrUnlike(m.endV6, m.beginV4) && SameOrUnlike(m.endV6, m.endV4)
  {
    hide Solo;
  }

  /** The region of one pair of markers lies wholly before that of the other. */
  predicate RegionsApart(cfg: string, m: Markers) {
    && Region(cfg, m.beginV4, m.endV4) && Region(cfg, m.beginV6, m.endV6)
    && Index(cfg, m.endV4) < Index(cfg, m.beginV6)
  }

  /** A body as it is rendered: no marker line in it, no empty first line. */
  ghost predicate PlainBody(body: string, m: Markers) {
    && Clean(body, m.beginV4) && Clean(body, m.endV4) && Clean(body, m.beginV6) && Clean(body, m.endV6)
    && (body == "" || body[0] != '\n')
  }

  /** A text cut at its two blocks: before + v4 + middle + v6 + after, with the places of the begin markers. */
  datatype Parts = Parts(before: string, v4: string, middle: string, v6: string, after: string, p: int, q: int)

  function Whole(t: Parts): string {
    t.before + t.v4 + t.middle + t.v6 + t.after
  }

  lemma Regroup(t: Parts)
    ensures Whole(t) == t.before + t.v4 + (t.middle + (t.v6 + t.after))
  {
    var end := t.v6 + t.after;
    assert t.before + t.v4 + t.middle + t.v6 + t.after == t.before + t.v4 + t.middle + end;
  }

  /** Two layouts of one text, the second region after the first. */
  ghost predicate TwoLayouts(m: Markers, t: Parts) {
    && Layout(m.beginV4, m.endV4, t.before, t.v4, t.middle, t.p)
    && Layout(m.beginV6, m.endV6, t.before + t.v4 + t.middle, t.v6, t.after, t.q)
    && |t.before| + |t.v4| < t.q && Clean(t.v4, m.beginV6) && Clean(t.v4, m.endV6)
  }

  /** Layouts look only at the start of what follows the block. */
  lemma LayoutExtends(begin: string, end: string, a: string, m: string, c: string, rest: string, p: int)
    requires Layout(begin, end, a, m, c, p)
    ensures Layout(begin, end, a, m, c + rest, p)
  {
    OccursLeft(c, rest, end, 0);
  }

  lemma FiveSlices(s: string, i: nat, j: nat, k: nat, l: nat)
    requires i <= j <= k <= l <= |s|
    ensures s[..i] + s[i..j] + s[j..k] == s[..k]
    ensures s[..i] + s[i..j] + s[j..k] + s[k..l] + s[l..] == s
  {
  }

  /** A configuration with two regions, cut at its blocks. */
  function Cut(cfg: string, m: Markers): (t: Parts)
    requires FourMarkers(m) && RegionsApart(cfg, m)
    ensures Whole(t) == cfg
    ensures t.before == Before(cfg, m.beginV4, m.endV4) && t.v4 == Block(cfg, m.beginV4, m.endV4)
    ensures t.before + t.v4 + t.middle == Before(cfg, m.beginV6, m.endV6)
    ensures t.v6 == Block(cfg, m.beginV6, m.endV6) && t.after == After(cfg, m.beginV6, m.endV6)
    ensures t.middle == cfg[Index(cfg, m.endV4)..AfterBegin(cfg, m.beginV6)]
  {
    SpliceDefined(cfg, m.beginV4, m.endV4, "");
    SpliceDefined(cfg, m.beginV6, m.endV6, "");
    var s1, e1, s2, e2 := AfterBegin(cfg, m.beginV4), Index(cfg, m.endV4), AfterBegin(cfg, m.beginV6), Index(cfg, m.endV6);
    FiveSlices(cfg, s1, e1, s2, e2);
    Parts(cfg[..s1], cfg[s1..e1], cfg[e1..s2], cfg[s2..e2], cfg[e2..], Index(cfg, m.beginV4), Index(cfg, m.beginV6))
  }

  /** Two regions apart are two layouts. */
  lemma RegionsLayouts(cfg: string, m: Markers)
    requires FourMarkers(m) && RegionsApart(cfg, m)
    ensures TwoLayouts(m, Cut(cfg, m))
  {
    var t, e1, s2 := Cut(cfg, m), Index(cfg, m.endV4), AfterBegin(cfg, m.beginV6);
    SpliceDefined(cfg, m.beginV4, m.endV4, "");
    SpliceDefined(cfg, m.beginV6, m.endV6, "");
    NoOverlap(cfg, m.endV4, e1, m.beginV6, t.q);
    CleanSlice(cfg, AfterBegin(cfg, m.beginV4), e1, m.beginV6);
    CleanSlice(cfg, AfterBegin(cfg, m.beginV4), e1, m.endV6);
    RegionLayout(cfg, m.beginV6, m.endV6);
    FirstLayout(cfg, m);
  }

  lemma FirstLayout(cfg: string, m: Markers)
    requires FourMarkers(m) && RegionsApart(cfg, m)
    ensures var t := Cut(cfg, m); Layout(m.beginV4, m.endV4, t.before, t.v4, t.middle, t.p)
  {
    RegionLayout(cfg, m.beginV4, m.endV4);
    MiddleStarts(cfg, m);
  }

  lemma MiddleStarts(cfg: string, m: Markers)
    requires FourMarkers(m) && RegionsApart(cfg, m)
    ensures OccursAt(Cut(cfg, m).middle, m.endV4, 0)
  {
    hide Solo, Unlike, AllUnlike;
    FourPairs(m);
    var e1, s2 := Index(cfg, m.endV4), AfterBegin(cfg, m.beginV6);
    SpliceDefined(cfg, m.beginV6, m.endV6, "");
    NoOverlap(cfg, m.endV4, e1, m.beginV6, Index(cfg, m.beginV6));
    OccursSlice(cfg, e1, s2, m.endV4, 0);
  }

  /** A text is clean of a line exactly when its parts are. */
  lemma InParts(begin: string, end: string, a: string, m: string, c: string, p: int, q: string)
    requires MarkerPair(begin, end) && Layout(begin, end, a, m, c, p) && Clean(m, q)
    requires Solo(q) && SameOrUnlike(q, begin) && SameOrUnlike(q, end)
    ensures Clean(a + m + c, q) <==> Clean(a, q) && Clean(c, q)
  {
    if !Clean(a, q) {
      var i :| OccursAt(a, q, i);
      OccursInParts(begin, end, a, m, c, p, q, i);
    } else if !Clean(c, q) {
      var i :| OccursAt(c, q, i);
      OccursInParts(begin, end, a, m, c, p, q, i + |a| + |m|);
    } else {
      forall i ensures !OccursAt(a + m + c, q, i) { OccursInParts(begin, end, a, m, c, p, q, i); }
    }
  }

  /** The block can change without a line coming to occur in the whole. */
  lemma CleanMoves(begin: string, end: string, a: string, m: string, c: string, p: int, x: string, t: string)
    requires MarkerPair(begin, end) && Layout(begin, end, a, m, c, p) && Layout(begin, end, a, t, c, p)
    requires Solo(x) && SameOrUnlike(x, begin) && SameOrUnlike(x, end) && Clean(m, x) && Clean(t, x)
    requires Clean(a + m + c, x)
    ensures Clean(a + t + c, x)
  {
    hide *;
    InParts(begin, end, a, m, c, p, x);
    InParts(begin, end, a, t, c, p, x);
  }

  /** A line that is not in the text before the block moves with the text after it. */
  lemma Moves(begin: string, end: string, a: string, m: string, c: string, p: int, x: string, t: string, j: int)
    requires MarkerPair(begin, end) && Layout(begin, end, a, m, c, p) && Layout(begin, end, a, t, c, p)
    requires Solo(x) && SameOrUnlike(x, begin) && SameOrUnlike(x, end) && Clean(m, x) && Clean(t, x) && Clean(a, x)
    ensures OccursAt(a + m + c, x, j) <==> OccursAt(a + t + c, x, j - |m| + |t|)
  {
    hide Solo, Unlike, MarkerPair, SameOrUnlike, Layout, OccursAt;
    OccursInParts(begin, end, a, m, c, p, x, j);
    OccursInParts(begin, end, a, t, c, p, x, j - |m| + |t|);
  }

  /** A line first found after the block is not in the text before it. */
  lemma NotBefore(begin: string, end: string, a: string, m: string, c: string, p: int, x: string, q: int)
    requires MarkerPair(begin, end) && Layout(begin, end, a, m, c, p)
    requires Solo(x) && SameOrUnlike(x, begin) && SameOrUnlike(x, end) && Clean(m, x)
    requires |a| <= q && forall i :: i < q ==> !OccursAt(a + m + c, x, i)
    ensures Clean(a, x)
  {
    hide Unlike, MarkerPair, SameOrUnlike, Layout;
    forall i ensures !OccursAt(a, x, i) {
      OccursInParts(begin, end, a, m, c, p, x, i);
    }
  }

  /** A line first found after the block is first found at the moved place when the block changes. */
  lemma FirstMoves(begin: string, end: string, a: string, m: string, c: string, p: int, x: string, t: string, q: int)
    requires MarkerPair(begin, end) && Layout(begin, end, a, m, c, p) && Layout(begin, end, a, t, c, p)
    requires Solo(x) && SameOrUnlike(x, begin) && SameOrUnlike(x, end) && Clean(m, x) && Clean(t, x)
    requires |a| <= q && OccursAt(a + m + c, x, q) && forall i :: i < q ==> !OccursAt(a + m + c, x, i)
    ensures OccursAt(a + t + c, x, q - |m| + |t|)
    ensures forall i :: i < q - |m| + |t| ==> !OccursAt(a + t + c, x, i)
  {
    hide *;
    NotBefore(begin, end, a, m, c, p, x, q);
    Moves(begin, end, a, m, c, p, x, t, q);
    forall i | i < q - |m| + |t| ensures !OccursAt(a + t + c, x, i) {
      Moves(begin, end, a, m, c, p, x, t, i - |t| + |m|);
    }
  }

  /** Changing the first block moves the second region along. */
  lemma SecondMoves(m: Markers, t: Parts, v4: string)
    requires FourMarkers(m) && TwoLayouts(m, t)
    requires Layout(m.beginV4, m.endV4, t.before, v4, t.middle, t.p) && Clean(v4, m.beginV6) && Clean(v4, m.endV6)
    ensures TwoLayouts(m, t.(v4 := v4, q := t.q - |t.v4| + |v4|))
  {
    hide Solo, Unlike, MarkerPair, SameOrUnlike, FourMarkers, OccursAt, Clean;
    FourPairs(m);
    var a, d := t.before, t.middle;
    CleanMoves(m.beginV4, m.endV4, a, t.v4, d, t.p, m.endV6, v4);
    FirstMoves(m.beginV4, m.endV4, a, t.v4, d, t.p, m.beginV6, v4, t.q);
    SameLast(a, t.v4, d, v4);
    assert OccursAt(d, m.endV4, 0);
    NotEmpty(d, m.endV4, m);
  }

  lemma SameLast(a: string, m: string, c: string, t: string)
    ensures c != "" ==> (a + m + c)[|a + m + c| - 1] == (a + t + c)[|a + t + c| - 1]
  {
  }

  lemma NotEmpty(d: string, x: string, m: Markers)
    requires FourMarkers(m) && x == m.endV4 && OccursAt(d, x, 0)
    ensures d != ""
  {
  }

  /** Writing the first block of two. */
  lemma WriteFirst(m: Markers, t: Parts, body: string)
    requires FourMarkers(m) && TwoLayouts(m, t) && PlainBody(body, m)
    ensures var t' := t.(v4 := Terminated(body), q := t.q - |t.v4| + |Terminated(body)|);
            Splice(Whole(t), m.beginV4, m.endV4, body) == Spliced(Whole(t')) && TwoLayouts(m, t')
  {
    hide *;
    FourPairs(m);
    WriteFacts(m, t, body);
    CleanTerminated(body, m.beginV6);
    CleanTerminated(body, m.endV6);
    FirstSpliced(m.beginV4, m.endV4, t, body, t.q - |t.v4| + |Terminated(body)|);
    SecondMoves(m, t, Terminated(body));
  }

  lemma WriteFacts(m: Markers, t: Parts, body: string)
    requires TwoLayouts(m, t) && PlainBody(body, m)
    ensures Clean(body, m.endV4) && Clean(body, m.beginV6) && Clean(body, m.endV6)
    ensures body != "" ==> body[0] != '\n'
    ensures Layout(m.beginV4, m.endV4, t.before, t.v4, t.middle, t.p)
  {
    hide Solo, Clean, Layout, OccursAt;
  }

  lemma FirstSpliced(begin: string, end: string, t: Parts, body: string, q: int)
    requires MarkerPair(begin, end) && Layout(begin, end, t.before, t.v4, t.middle, t.p)
    requires Clean(body, end) && (body != "" ==> body[0] != '\n')
    ensures Splice(Whole(t), begin, end, body) == Spliced(Whole(t.(v4 := Terminated(body), q := q)))
    ensures Layout(begin, end, t.before, Terminated(body), t.middle, t.p)
  {
    LayoutExtends(begin, end, t.before, t.v4, t.middle, t.v6 + t.after, t.p);
    PutLayout(begin, end, t.before, t.v4, t.middle + (t.v6 + t.after), t.p, body);
    Regroup(t);
    Regroup(t.(v4 := Terminated(body), q := q));
    PutLayout(begin, end, t.before, t.v4, t.middle, t.p, body);
  }

  /** Writing the second block of two. */
  lemma WriteSecond(m: Markers, t: Parts, body: string)
    requires FourMarkers(m) && TwoLayouts(m, t) && PlainBody(body, m)
    ensures var t' := t.(v6 := Terminated(body));
            Splice(Whole(t), m.beginV6, m.endV6, body) == Spliced(Whole(t')) && TwoLayouts(m, t')
  {
    PutLayout(m.beginV6, m.endV6, t.before + t.v4 + t.middle, t.v6, t.after, t.q, body);
  }

  /** The two splices `run` makes one after the other (main.go:653-661). */
  function SpliceBoth(cfg: string, m: Markers, x: string, y: string): Result {
    match Splice(cfg, m.beginV4, m.endV4, x)
    case Spliced(next) => Splice(next, m.beginV6, m.endV6, y)
    case e => e
  }

  /** Both blocks written. */
  function Written(t: Parts, x: string, y: string): Parts {
    t.(v4 := Terminated(x), v6 := Terminated(y), q := t.q - |t.v4| + |Terminated(x)|)
  }

  lemma WriteBoth(m: Markers, t: Parts, x: string, y: string)
    requires FourMarkers(m) && TwoLayouts(m, t) && PlainBody(x, m) && PlainBody(y, m)
    ensures SpliceBoth(Whole(t), m, x, y) == Spliced(Whole(Written(t, x, y)))
    ensures TwoLayouts(m, Written(t, x, y))
  {
    hide OccursAt, Solo, Unlike;
    WriteFirst(m, t, x);
    WriteSecond(m, t.(v4 := Terminated(x), q := t.q - |t.v4| + |Terminated(x)|), y);
  }

  lemma WriteBackwards(m: Markers, t: Parts, x: string, y: string)
    requires FourMarkers(m) && TwoLayouts(m, t) && PlainBody(x, m) && PlainBody(y, m)
    ensures var other := Splice(Whole(t), m.beginV6, m.endV6, y);
            other.Spliced? && Splice(other.text, m.beginV4, m.endV4, x) == Spliced(Whole(Written(t, x, y)))
  {
    hide OccursAt, Solo, Unlike;
    WriteSecond(m, t, y);
    WriteFirst(m, t.(v6 := Terminated(y)), x);
  }

  /** For disjoint regions the two blocks can be written in either order. */
  lemma SplicesCommute(cfg: string, m: Markers, x: string, y: string)
    requires FourMarkers(m) && RegionsApart(cfg, m) && PlainBody(x, m) && PlainBody(y, m)
    ensures var other := Splice(cfg, m.beginV6, m.endV6, y);
            && SpliceBoth(cfg, m, x, y).Spliced? && other.Spliced?
            && SpliceBoth(cfg, m, x, y) == Splice(other.text, m.beginV4, m.endV4, x)
  {
    RegionsLayouts(cfg, m);
    WriteBoth(m, Cut(cfg, m), x, y);
    WriteBackwards(m, Cut(cfg, m), x, y);
  }

  lemma BothFound(m: Markers, t: Parts)
    requires FourMarkers(m) && TwoLayouts(m, t)
    ensures RegionsApart(Whole(t), m) && Cut(Whole(t), m) == t
  {
    FirstFound(m.beginV4, m.endV4, t);
    LayoutFound(m.beginV6, m.endV6, t.before + t.v4 + t.middle, t.v6, t.after, t.q);
    MiddleSlice(t);
  }

  lemma FirstFound(begin: string, end: string, t: Parts)
    requires MarkerPair(begin, end) && Layout(begin, end, t.before, t.v4, t.middle, t.p)
    ensures var s := Whole(t);
            && Index(s, begin) == t.p && AfterBegin(s, begin) == |t.before| && Index(s, end) == |t.before| + |t.v4|
            && Region(s, begin, end) && Before(s, begin, end) == t.before && Block(s, begin, end) == t.v4
  {
    LayoutExtends(begin, end, t.before, t.v4, t.middle, t.v6 + t.after, t.p);
    LayoutFound(begin, end, t.before, t.v4, t.middle + (t.v6 + t.after), t.p);
    Regroup(t);
  }

  lemma MiddleSlice(t: Parts)
    ensures Whole(t)[|t.before| + |t.v4|..|t.before| + |t.v4| + |t.middle|] == t.middle
  {
  }

  /**
    A second run on the same feed splices the file into itself, so that `run` finds it unchanged
    and skips the reload (main.go:663-667). The file keeps its text outside the blocks, and the
    blocks are the two bodies.
    */
  lemma SecondRunUnchanged(cfg: string, m: Markers, x: string, y: string)
    requires FourMarkers(m) && RegionsApart(cfg, m) && PlainBody(x, m) && PlainBody(y, m)
    ensures var r := SpliceBoth(cfg, m, x, y);
            && r.Spliced? && RegionsApart(r.text, m) && SpliceBoth(r.text, m, x, y) == r
            && Cut(r.text, m) == Cut(cfg, m).(v4 := Terminated(x), v6 := Terminated(y), q := Cut(r.text, m).q)
  {
    hide OccursAt, Solo, Unlike;
    RegionsLayouts(cfg, m);
    var t := Cut(cfg, m);
    WriteBoth(m, t, x, y);
    BothFound(m, Written(t, x, y));
    WriteBoth(m, Written(t, x, y), x, y);
    assert Written(Written(t, x, y), x, y) == Written(t, x, y);
  }

  // ---- the regions in either order ----

  /** The markers with the two families' roles exchanged. */
  function Swapped(m: Markers): Markers {
    Markers(m.beginV6, m.endV6, m.beginV4, m.endV4)
  }

  /** Two regions, one wholly before the other. */
  predicate Apart(cfg: string, m: Markers) {
    RegionsApart(cfg, m) || RegionsApart(cfg, Swapped(m))
  }

  /** The markers in the order their regions stand in. */
  function InOrder(cfg: string, m: Markers): Markers {
    if RegionsApart(cfg, m) then m else Swapped(m)
  }

  lemma SwappedFits(m: Markers)
    requires FourMarkers(m)
    ensures FourMarkers(Swapped(m))
    ensures forall body :: PlainBody(body, m) ==> PlainBody(body, Swapped(m))
  {
    hide Solo, Clean;
  }

  lemma OneOrder(cfg: string, m: Markers)
    ensures !(RegionsApart(cfg, m) && RegionsApart(cfg, Swapped(m)))
  {
  }

  /** Writing v4 first or v6 first gives the same file, whichever region stands first. */
  lemma WritesCommute(cfg: string, m: Markers, x: string, y: string)
    requires FourMarkers(m) && Apart(cfg, m) && PlainBody(x, m) && PlainBody(y, m)
    ensures SpliceBoth(cfg, m, x, y).Spliced? && SpliceBoth(cfg, m, x, y) == SpliceBoth(cfg, Swapped(m), y, x)
  {
    hide PlainBody, FourMarkers, RegionsApart, Splice;
    SwappedFits(m);
    if RegionsApart(cfg, m) { SplicesCommute(cfg, m, x, y); } else { SplicesCommute(cfg, Swapped(m), y, x); }
  }

  /** The file cut at its blocks, in the order they stand in. */
  function CutAtBlocks(cfg: string, m: Markers): (t: Parts)
    requires FourMarkers(m) && Apart(cfg, m)
    ensures Whole(t) == cfg
  {
    SwappedFits(m);
    Cut(cfg, InOrder(cfg, m))
  }

  /** The second run, for regions in either order. */
  lemma SecondRunEitherOrder(cfg: string, m: Markers, x: string, y: string)
    requires FourMarkers(m) && Apart(cfg, m) && PlainBody(x, m) && PlainBody(y, m)
    ensures var r := SpliceBoth(cfg, m, x, y); var v4First := RegionsApart(cfg, m);
            && r.Spliced? && Apart(r.text, m) && InOrder(r.text, m) == InOrder(cfg, m)
            && SpliceBoth(r.text, m, x, y) == r
            && CutAtBlocks(r.text, m) == CutAtBlocks(cfg, m).(v4 := Terminated(if v4First then x else y),
                                                              v6 := Terminated(if v4First then y else x),
                                                              q := CutAtBlocks(r.text, m).q)
  {
    hide PlainBody, FourMarkers, RegionsApart, SpliceBoth, Cut;
    SwappedFits(m);
    OneOrder(cfg, m);
    WritesCommute(cfg, m, x, y);
    var r := SpliceBoth(cfg, m, x, y);
    if RegionsApart(cfg, m) {
      SecondRunUnchanged(cfg, m, x, y);
    } else {
      SecondRunUnchanged(cfg, Swapped(m), y, x);
      OneOrder(r.text, m);
      WritesCommute(r.text, m, x, y);
    }
  }
}
