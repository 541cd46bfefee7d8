/**
  A fresh deployment. A configuration with the marker lines set in it as the shipped snippet shows
  meets what the theorems about `splice` and about runs ask of frr.conf.
  */
module Deployment {
  import opened Arith
  import opened Cidr
  import opened Dotted
  import opened Text
  import opened Splice
  import opened Rollback
  import opened Render
  import opened Readback
  import opened Canonical
  import opened Cycle
  import Feed
  import Nft

  /** Whole lines, or no text at all. */
  predicate WholeLines(s: string) {
    s == "" || EndsLine(s)
  }

  /** Text that ends a line stays clean of a line when clean text follows. */
  lemma CleanJoin(x: string, y: string, q: string)
    requires Solo(q) && WholeLines(x) && Clean(x, q) && Clean(y, q)
    ensures Clean(x + y, q)
  {
    forall i ensures !OccursAt(x + y, q, i) {
      if i + |q| <= |x| {
        OccursLeft(x, y, q, i);
      } else if |x| <= i {
        OccursRight(x, y, q, i);
      } else if OccursAt(x + y, q, i) {
        SoloHas(q, |x| - 1 - i);
        OccursChar(x + y, q, i, |x| - 1 - i);
      }
    }
  }

  /** A marker line, with a line break of one or two characters, is clean of the others. */
  lemma OtherLine(l: string, brk: string, q: string)
    requires Solo(l) && Solo(q) && Unlike(l, q) && |brk| <= 2
    ensures Clean(l + brk, q)
  {
    assert OccursAt(l, l, 0);
    OccursLeft(l, brk, l, 0);
    forall i ensures !OccursAt(l + brk, q, i) {
      if OccursAt(l + brk, q, i) { NoOverlap(l + brk, l, 0, q, i); }
    }
  }

  /** After clean text that ends a line, a marker line is first found where it stands. */
  lemma FirstFoundAfter(x: string, l: string)
    requires Solo(l) && Clean(x, l)
    ensures OccursAt(x + l + "\n", l, |x|) && forall i :: i < |x| ==> !OccursAt(x + l + "\n", l, i)
  {
    var s := x + l + "\n";
    assert s[|x|..|x| + |l|] == l;
    assert s == x + (l + "\n");
    forall i | i < |x| ensures !OccursAt(s, l, i) {
      if OccursAt(s, l, i) {
        NoOverlap(s, l, i, l, |x|);
        OccursLeft(x, l + "\n", l, i);
      }
    }
  }

  /** The shipped snippet: other lines, the v4 markers, other lines, the v6 markers, anything. */
  function Snippet(m: Markers, a: string, b: string, c: string): Parts {
    Parts(a + m.beginV4 + "\n", "", m.endV4 + "\n" + b + m.beginV6 + "\n", "", m.endV6 + "\n" + c,
          |a|, |a + m.beginV4 + "\n" + (m.endV4 + "\n") + b|)
  }

  ghost predicate CleanOfAll(text: string, m: Markers) {
    Clean(text, m.beginV4) && Clean(text, m.endV4) && Clean(text, m.beginV6) && Clean(text, m.endV6)
  }

  lemma FirstRegion(m: Markers, a: string, b: string, c: string)
    requires FourMarkers(m) && WholeLines(a) && CleanOfAll(a, m)
    ensures var t := Snippet(m, a, b, c); Layout(m.beginV4, m.endV4, t.before, t.v4, t.middle, t.p)
  {
    hide Solo, Unlike;
    var t := Snippet(m, a, b, c);
    FirstFoundAfter(a, m.beginV4);
    OtherLine(m.beginV4, "\n", m.endV4);
    CleanJoin(a, m.beginV4 + "\n", m.endV4);
    assert t.before == a + (m.beginV4 + "\n");
    StartsWith(m.endV4, "\n" + b + m.beginV6 + "\n");
    assert t.middle == m.endV4 + ("\n" + b + m.beginV6 + "\n");
    NothingClean(m.endV4);
  }

  lemma StartsWith(q: string, rest: string)
    ensures OccursAt(q + rest, q, 0)
  {
  }

  lemma NothingClean(q: string)
    requires Solo(q)
    ensures Clean("", q)
  {
  }

  /** The text before the second begin marker, with any short break after the first. */
  lemma Ahead(m: Markers, a: string, brk: string, b: string, q: string)
    requires FourMarkers(m) && WholeLines(a) && CleanOfAll(a, m) && WholeLines(b) && CleanOfAll(b, m)
    requires EndsLine(brk) && |brk| <= 2 && (q == m.beginV6 || q == m.endV6)
    ensures var x := a + m.beginV4 + brk + (m.endV4 + "\n") + b; Clean(x, q) && WholeLines(x)
  {
    hide Solo, Unlike, OccursAt;
    OtherLine(m.beginV4, brk, q);
    OtherLine(m.endV4, "\n", q);
    assert a + m.beginV4 + brk == a + (m.beginV4 + brk);
    CleanJoin(a, m.beginV4 + brk, q);
    CleanJoin(a + m.beginV4 + brk, m.endV4 + "\n", q);
    CleanJoin(a + m.beginV4 + brk + (m.endV4 + "\n"), b, q);
  }

  lemma SecondRegion(m: Markers, x: string, c: string)
    requires FourMarkers(m) && WholeLines(x) && Clean(x, m.beginV6) && Clean(x, m.endV6)
    ensures Layout(m.beginV6, m.endV6, x + m.beginV6 + "\n", "", m.endV6 + "\n" + c, |x|)
  {
    hide Solo, Unlike;
    OtherLine(m.beginV6, "\n", m.endV6);
    FirstFoundAfter(x, m.beginV6);
    CleanJoin(x, m.beginV6 + "\n", m.endV6);
    assert x + m.beginV6 + "\n" == x + (m.beginV6 + "\n");
    StartsWith(m.endV6, "\n" + c);
    assert m.endV6 + "\n" + c == m.endV6 + ("\n" + c);
    NothingClean(m.endV6);
  }

  lemma SnippetLayouts(m: Markers, a: string, b: string, c: string)
    requires FourMarkers(m) && WholeLines(a) && CleanOfAll(a, m) && WholeLines(b) && CleanOfAll(b, m)
    ensures TwoLayouts(m, Snippet(m, a, b, c))
  {
    hide Solo, Unlike, Layout, OccursAt;
    var t, x := Snippet(m, a, b, c), a + m.beginV4 + "\n" + (m.endV4 + "\n") + b;
    FirstRegion(m, a, b, c);
    Ahead(m, a, "\n", b, m.beginV6);
    Ahead(m, a, "\n", b, m.endV6);
    SecondRegion(m, x, c);
    assert t.before + t.v4 + t.middle == x + m.beginV6 + "\n";
    NothingClean(m.beginV6);
    NothingClean(m.endV6);
  }

  /** Such a file is well placed, its begin markers end their lines, and its blocks are empty. */
  lemma SnippetPlaced(env: Env, a: string, b: string, c: string)
    requires NoneOf(env.prefix, ' ', '\n')
    requires WholeLines(a) && CleanOfAll(a, Marks(env)) && WholeLines(b) && CleanOfAll(b, Marks(env))
    ensures var t := Snippet(Marks(env), a, b, c);
            && WellPlaced(env, Whole(t)) && OwnMarkers(env, Whole(t))
            && TwoLayouts(Marks(env), t) && CutAtBlocks(Whole(t), Marks(env)) == t
  {
    hide Solo, Unlike, Layout, OccursAt, RegionsApart, MarkersFor, TwoLayouts, OwnLine;
    var m, t := Marks(env), Snippet(Marks(env), a, b, c);
    MarkersDistinct(env.prefix);
    SnippetLayouts(m, a, b, c);
    BothFound(m, t);
    OwnLines(Whole(t), m);
  }

  /** The marker lines of the snippet are those for its marker prefix. */
  lemma SnippetLines()
    ensures MarkersFor("RU-FEED") ==
            Markers("  ! BEGIN-RU-FEED-V4", "  ! END-RU-FEED-V4", "  ! BEGIN-RU-FEED-V6", "  ! END-RU-FEED-V6")
  {
    var m := MarkersFor("RU-FEED");
    assert m.beginV4 == "  ! BEGIN-RU-FEED-V4" && m.endV4 == "  ! END-RU-FEED-V4";
    assert m.beginV6 == "  ! BEGIN-RU-FEED-V6" && m.endV6 == "  ! END-RU-FEED-V6";
  }

  // ---- the environment can be met ----

  /** A printer of both families that is plain to invert. */
  function Show(p: Prefix): string {
    [if p.fam.V4? then '4' else '6'] + Dec(p.base) + ['/'] + Dec(p.bits)
  }

  lemma ShowInjective(p: Prefix, q: Prefix)
    requires Show(p) == Show(q)
    ensures p == q
  {
    hide Dec;
    var l, r := [if p.fam.V4? then '4' else '6'] + Dec(p.base), [if q.fam.V4? then '4' else '6'] + Dec(q.base);
    DecPlain(p.base, '/');
    DecPlain(q.base, '/');
    CutJoined(l, '/', Dec(p.bits));
    CutJoined(r, '/', Dec(q.bits));
    assert l[1..] == Dec(p.base) && r[1..] == Dec(q.base);
    assert l[0] == r[0];
    DecReads(p.base);
    DecReads(q.base);
    DecReads(p.bits);
    DecReads(q.bits);
  }

  /** The line whose prefix is `p`. */
  ghost predicate IsLineOf(line: string, p: Prefix) {
    IsBlock(p) && line == "  network " + Show(p) + " route-map M"
  }

  ghost function ReadBack(line: string): Option<Prefix> {
    if exists p :: IsLineOf(line, p) then
      var p :| IsLineOf(line, p);
      Some(p)
    else None
  }

  lemma ReadsBack(p: Prefix)
    requires IsBlock(p)
    ensures ReadBack("  network " + Show(p) + " route-map M") == Some(p)
  {
    hide Show, IsBlock;
    var line := "  network " + Show(p) + " route-map M";
    assert IsLineOf(line, p);
    var q := ReadBack(line).value;
    assert line[10..|line| - 12] == Show(p);
    assert ("  network " + Show(q) + " route-map M")[10..10 + |Show(q)|] == Show(q);
    ShowInjective(p, q);
  }

  lemma ShowPlain(p: Prefix)
    ensures NoneOf(Show(p), '!', '\n')
  {
    hide Dec;
    DecPlain(p.base, '!');
    DecPlain(p.base, '\n');
    DecPlain(p.bits, '!');
    DecPlain(p.bits, '\n');
  }

  ghost function SampleEnv(): Env {
    Env(line => ReadBack(line), p => Show(p), "M", "RU-FEED", "ru_v4", "ru_v6")
  }

  /** FRR reads nothing from a line with a comment mark in it. */
  lemma BangUnread(line: string)
    requires '!' in line
    ensures ReadBack(line) == None
  {
    hide Show, IsBlock;
    forall p ensures !IsLineOf(line, p) {
      ShowPlain(p);
    }
  }

  lemma SampleSilent(q: string)
    requires |q| > 2 && q[2] == '!'
    ensures Silent(SampleEnv(), q)
  {
    hide ReadBack;
    var env := SampleEnv();
    forall line, i | OccursAt(line, q, i) ensures env.read(line) == None {
      OccursChar(line, q, i, 2);
      BangUnread(line);
      assert env.read(line) == ReadBack(line);
    }
  }

  lemma SampleReads(p: Prefix)
    requires IsBlock(p)
    ensures var env := SampleEnv(); NoneOf(env.show(p), '!', '\n') && env.read(NetworkLine(env, p)) == Some(p)
  {
    hide Show, ReadBack, IsBlock;
    var env := SampleEnv();
    ShowPlain(p);
    ReadsBack(p);
    assert NetworkLine(env, p) == "  network " + Show(p) + " route-map M";
    assert env.read(NetworkLine(env, p)) == ReadBack(NetworkLine(env, p));
  }

  lemma EmptyUnread()
    ensures ReadBack("") == None
  {
    hide Show;
  }

  lemma SampleGood()
    ensures GoodEnv(SampleEnv())
  {
    hide Show, ReadBack, IsBlock, Silent, NetworkLine;
    var env := SampleEnv();
    forall p | IsBlock(p) ensures NoneOf(env.show(p), '!', '\n') && env.read(NetworkLine(env, p)) == Some(p) {
      SampleReads(p);
    }
    EmptyUnread();
    assert env.read("") == ReadBack("");
    var m := Marks(env);
    SampleSilent(m.beginV4);
    SampleSilent(m.endV4);
    SampleSilent(m.beginV6);
    SampleSilent(m.endV6);
  }

  // ---- a configuration with a network of its own ----

  /** 192.0.2.n/32 */
  function HostRoute(n: nat): Prefix {
    Prefix(V4, 0xC000_0200 + n, 32)
  }

  /** 2000::/3 */
  function GlobalUnicast(): Prefix {
    Prefix(V6, Pow2(125), 3)
  }

  lemma SampleBlocks(n: nat)
    requires n < 0x100
    ensures IsBlock(HostRoute(n)) && IsBlock(GlobalUnicast())
  {
    hide Pow2, Aligned;
    Pow2At32();
    AlignedNone(HostRoute(n).base);
    SmallerPower(125, 128);
    AlignedPow2(125, 125);
  }

  lemma AlignedNone(x: nat)
    ensures Aligned(x, 0)
  {
  }

  /** A line outside the blocks, as in the snippet. */
  function OwnNetwork(env: Env): string {
    NetworkLine(env, HostRoute(0)) + "\n"
  }

  function SampleParts(env: Env): Parts {
    Snippet(Marks(env), OwnNetwork(env), "", "")
  }

  lemma BangClean(text: string, prefix: string)
    requires '!' !in text
    ensures CleanOfAll(text, MarkersFor(prefix))
  {
    hide Clean;
    var m := MarkersFor(prefix);
    CleanOfBang(text, m.beginV4);
    CleanOfBang(text, m.endV4);
    CleanOfBang(text, m.beginV6);
    CleanOfBang(text, m.endV6);
  }

  lemma OwnNetworkPlain(env: Env)
    requires GoodEnv(env)
    ensures '!' !in OwnNetwork(env) && '\n' !in NetworkLine(env, HostRoute(0))
    ensures env.read(NetworkLine(env, HostRoute(0))) == Some(HostRoute(0))
  {
    hide Silent, NetworkLine, HostRoute, IsBlock;
    SampleBlocks(0);
    LinesPlain(env, [HostRoute(0)]);
    assert NoneOf(NetworkLines(env, [HostRoute(0)])[0], '!', '\n');
  }

  lemma OwnNetworkClean(env: Env)
    requires GoodEnv(env)
    ensures CleanOfAll(OwnNetwork(env), Marks(env)) && CleanOfAll("", Marks(env)) && WholeLines(OwnNetwork(env))
  {
    hide GoodEnv, NetworkLine, CleanOfAll, MarkersFor;
    OwnNetworkPlain(env);
    BangClean(OwnNetwork(env), env.prefix);
    BangClean("", env.prefix);
  }

  lemma SamplePlaced(env: Env)
    requires GoodEnv(env)
    ensures var t := SampleParts(env);
            WellPlaced(env, Whole(t)) && OwnMarkers(env, Whole(t)) && TwoLayouts(Marks(env), t)
            && CutAtBlocks(Whole(t), Marks(env)) == t
  {
    hide Silent, CleanOfAll, Whole, Snippet, OwnNetwork, OwnMarkers, TwoLayouts, WellPlaced, CutAtBlocks;
    OwnNetworkClean(env);
    SnippetPlaced(env, OwnNetwork(env), "", "");
  }

  lemma LineThen(read: Reader, l: string, rest: string)
    requires '\n' !in l
    ensures Networks(read, l + "\n" + rest) == (if read(l).Some? then {read(l).value} else {}) + Networks(read, rest)
  {
    hide Lines;
    LinesConcat(l, rest);
    LinesOfLine(l);
    NetworksConcat(read, [l], Lines(rest));
    NetworksOne(read, l);
  }

  lemma NothingRead(read: Reader)
    requires read("") == None
    ensures Networks(read, "") == {}
  {
  }

  lemma MarkerThen(env: Env, q: string, rest: string)
    requires Silent(env, q) && '\n' !in q
    ensures Networks(env.read, q + "\n" + rest) == Networks(env.read, rest)
  {
    assert OccursAt(q, q, 0);
    LineThen(env.read, q, rest);
  }

  lemma SampleAround(env: Env)
    requires GoodEnv(env)
    ensures Outside(env, SampleParts(env)) == {HostRoute(0)}
  {
    hide Silent, Networks, NetworkLine, MarkersFor, OccursAt, HostRoute, GoodEnv;
    var m, t, line := Marks(env), SampleParts(env), NetworkLine(env, HostRoute(0));
    MarkersPlain(env);
    OwnNetworkPlain(env);
    EmptySilent(env);
    NothingRead(env.read);
    LineThen(env.read, line, m.beginV4 + "\n" + "");
    MarkerThen(env, m.beginV4, "");
    assert t.before == line + "\n" + (m.beginV4 + "\n" + "");
    MarkerThen(env, m.endV4, m.beginV6 + "\n" + "");
    MarkerThen(env, m.beginV6, "");
    assert t.middle == m.endV4 + "\n" + (m.beginV6 + "\n" + "");
    MarkerThen(env, m.endV6, "");
    assert t.after == m.endV6 + "\n" + "";
  }

  lemma MarkersPlain(env: Env)
    requires GoodEnv(env)
    ensures FourMarkers(Marks(env)) && SilentMarkers(env, Marks(env))
    ensures var m := Marks(env);
            '\n' !in m.beginV4 && '\n' !in m.endV4 && '\n' !in m.beginV6 && '\n' !in m.endV6
  {
    hide Silent, MarkersFor, Solo, AllUnlike;
    MarkersDistinct(env.prefix);
    GoodMarks(env);
    NoNewlines(Marks(env));
  }

  /** The sample file lists its one network of its own. */
  lemma SampleNetworks(env: Env)
    requires GoodEnv(env)
    ensures Networks(env.read, Whole(SampleParts(env))) == {HostRoute(0)}
  {
    hide GoodEnv, Silent, Networks, Whole, Marks, TwoLayouts, HostRoute, Outside, WellPlaced, CutAtBlocks;
    hide OwnMarkers, SilentMarkers;
    SamplePlaced(env);
    SampleAround(env);
    MarkersPlain(env);
    EmptySilent(env);
    PartsNetworks(env, Marks(env), SampleParts(env), [], []);
    NoElements();
  }

  lemma NoElements()
    ensures Nft.Elements(Seen([], true)) == {} && Nft.Elements(Seen([], false)) == {}
  {
  }

  // ---- a router, two feeds and cycles on them ----

  /** FRR runs the sample file, and both sets are there. */
  ghost function SampleHost(env: Env): Host {
    var file := Whole(SampleParts(env));
    Host(Some(file), None, Loaded(file), map[env.setV4 := Nft.IntervalSet(V4, {}), env.setV6 := Nft.IntervalSet(V6, {})])
  }

  function SampleFeed(n: nat): Fetched {
    Fetched([Feed.Network(HostRoute(n))], [Feed.Network(GlobalUnicast())], [], [])
  }

  function SampleLists(n: nat): Lists {
    Lists([HostRoute(n)], [GlobalUnicast()])
  }

  /** Nothing fails, nothing is forced. */
  function Smooth(): Input {
    Input(false, true, NftRuns, true, false, true, Faults(true, true, true, Written, Reloaded, Written, Reloaded))
  }

  lemma OneCanonical(p: Prefix)
    requires IsBlock(p)
    ensures IsCanonical([p])
  {
  }

  lemma OneListed(p: Prefix, a: Addr)
    requires IsBlock(p)
    ensures Feed.AllValid([Feed.Network(p)]) && AllBlocks([p]) && AllBlocks([])
    ensures Covered([p], a) <==> Feed.Listed([Feed.Network(p)], a) || Covered([], a)
  {
    MaskedBlock(p);
    Feed.MaskedDenotes(p, a);
    CoveredOne(p, a);
    var raw := [Feed.Network(p)];
    if Feed.Denotes(raw[0], a) { assert Feed.Listed(raw, a); }
  }

  /** The lists are what `run` makes of the feed. */
  lemma SampleAggregates(n: nat)
    requires n < 0x100
    ensures ValidFetched(SampleFeed(n)) && Aggregates(SampleFeed(n), SampleLists(n))
  {
    hide IsBlock, IsCanonical, Covered, Feed.Listed, HostRoute, GlobalUnicast;
    SampleBlocks(n);
    OneCanonical(HostRoute(n));
    OneCanonical(GlobalUnicast());
    OneListed(HostRoute(n), Addr(V4, 0));
    OneListed(GlobalUnicast(), Addr(V4, 0));
    forall a ensures Covered([HostRoute(n)], a) <==> Feed.Listed([Feed.Network(HostRoute(n))], a) || Covered([], a) {
      OneListed(HostRoute(n), a);
    }
    forall a ensures Covered([GlobalUnicast()], a) <==> Feed.Listed([Feed.Network(GlobalUnicast())], a) || Covered([], a) {
      OneListed(GlobalUnicast(), a);
    }
  }

  /** Two sets of the two families, which every sample list fits. */
  predicate TwoSets(env: Env, st: Nft.Ruleset) {
    env.setV4 in st && env.setV6 in st && st[env.setV4].fam.V4? && st[env.setV6].fam.V6?
  }

  lemma SampleNft(env: Env, st: Nft.Ruleset, n: nat)
    requires TwoSets(env, st)
    ensures NftOk(env, st, SampleLists(n), Smooth()) && TwoSets(env, NftAfter(env, st, SampleLists(n), Smooth()))
  {
  }

  /** A cycle on a list whose first prefix is not in the file yet swaps the file. */
  lemma NewSwaps(env: Env, s: Host, n: nat)
    requires Deployed(env, s) && n < 0x100 && s.live.Some? && OwnMarkers(env, s.live.value) && TwoSets(env, s.nft)
    requires HostRoute(n) !in Networks(env.read, s.live.value)
    ensures Swaps(env, s, Some(SampleLists(n)), Smooth())
  {
    hide GoodEnv, WellPlaced, NextFile, Networks, NftOk, Outside, CutAtBlocks, OwnMarkers, HostRoute;
    hide GlobalUnicast, Shown, SameAround;
    var l := SampleLists(n);
    SampleAggregates(n);
    AggregatedBlocks(l);
    SampleNft(env, s.nft, n);
    NextFileNetworks(env, s.live.value, l.v4, l.v6);
    assert HostRoute(n) in Nft.Elements(l.v4);
  }

  lemma SmoothApplies(env: Env, s: Host, l: Lists)
    requires Swaps(env, s, Some(l), Smooth())
    ensures Steps(env, s, Some(l), Smooth()).result == Swapped(Applied)
  {
    hide NextFile, NftAfter, NftOk, Networks;
  }

  lemma SampleStart(env: Env)
    requires GoodEnv(env)
    ensures var s := SampleHost(env);
            && Deployed(env, s) && InSync(s) && Nft.ValidRuleset(s.nft) && TwoSets(env, s.nft)
            && OwnMarkers(env, s.live.value) && Networks(env.read, s.live.value) == {HostRoute(0)}
  {
    hide GoodEnv, WellPlaced, Networks, OwnMarkers, HostRoute, SampleParts, Whole, TwoLayouts, CutAtBlocks;
    SamplePlaced(env);
    SampleNetworks(env);
    DistinctSets(env);
  }

  lemma DistinctSets(env: Env)
    requires GoodEnv(env)
    ensures env.setV4 != env.setV6
  {
  }

  /**
    There are an environment, a router in sync whose file has a network of its own, and a feed of
    both families that meet every assumption of the theorems about cycles and runs, with a cycle
    that swaps the file and returns nil.
    */
  lemma AssumptionsMet() returns (env: Env, s: Host, f: Fetched, l: Lists, i: Input)
    ensures Deployed(env, s) && InSync(s) && Nft.ValidRuleset(s.nft) && Networks(env.read, s.live.value) != {}
    ensures ValidFetched(f) && Aggregates(f, l) && l.v4 != [] && l.v6 != []
    ensures Swaps(env, s, Some(l), i) && i.updateNft && i.reload && !i.dryRun && !i.force
    ensures Nil(Steps(env, s, Some(l), i).result)
  {
    hide GoodEnv, Deployed, Networks, HostRoute, GlobalUnicast, Swaps, SampleHost, Steps, Aggregates, ValidFetched;
    hide OwnMarkers;
    hide TwoSets;
    env, f, l, i := SampleEnv(), SampleFeed(1), SampleLists(1), Smooth();
    s := SampleHost(env);
    SampleGood();
    SampleStart(env);
    SampleAggregates(1);
    DistinctRoutes(0, 1);
    NewSwaps(env, s, 1);
    SmoothApplies(env, s, l);
  }

  lemma DistinctRoutes(i: nat, j: nat)
    ensures HostRoute(i) == HostRoute(j) <==> i == j
    ensures HostRoute(i) != GlobalUnicast()
  {
  }

  // ---- what a stop between write and reload can lead to ----

  /** A first cycle on feed 1, stopped when the new file is in place and FRR has not been reloaded. */
  ghost function StoppedFirst(): seq<Turn> {
    [Turn(Some(SampleLists(1)), Smooth(), TO_RENAME)]
  }

  lemma StoppedRun(env: Env, s: Host)
    ensures Run(env, s, StoppedFirst()) == Reached(env, s, Turn(Some(SampleLists(1)), Smooth(), TO_RENAME))
    ensures WriteOk(Smooth().faults)
  {
    hide Reached;
  }

  /** The router after that. */
  lemma StoppedState(env: Env)
    requires GoodEnv(env)
    ensures var s := SampleHost(env); var x := Run(env, s, StoppedFirst());
            && Deployed(env, s) && InSync(s) && Networks(env.read, s.live.value) == {HostRoute(0)} && OwnMarkers(env, s.live.value)
            && Swaps(env, s, Some(SampleLists(1)), Smooth()) && Aggregated(SampleLists(1))
            && Deployed(env, x) && TwoSets(env, x.nft) && x.live.Some? && OwnMarkers(env, x.live.value)
            && Networks(env.read, x.live.value) <= {HostRoute(0), HostRoute(1), GlobalUnicast()}
  {
    hide GoodEnv, WellPlaced, Networks, OwnMarkers, HostRoute, GlobalUnicast, SampleHost, Swaps, NextFile, Reached;
    hide Run, NftAfter;
    hide Outside, CutAtBlocks, TwoSets, SameAround, Aggregated, NftOk;
    var s, l := SampleHost(env), SampleLists(1);
    SampleStart(env);
    SampleAggregates(1);
    DistinctRoutes(0, 1);
    NewSwaps(env, s, 1);
    StoppedRun(env, s);
    StoppedBeforeReload(env, s, l, Smooth());
    AggregatedBlocks(l);
    NextFileNetworks(env, s.live.value, l.v4, l.v6);
    OutsideInFile(env, s.live.value);
    SampleNft(env, s.nft, 1);
  }

  lemma OneAddress(n: nat, a: Addr)
    requires n < 0x100 && a == Addr(V4, HostRoute(n).base)
    ensures forall ps: set<Prefix>, k :: k != n && ps <= {HostRoute(k), GlobalUnicast()} ==> !Reaches(ps, a)
    ensures forall ps: set<Prefix> :: HostRoute(n) in ps ==> Reaches(ps, a)
  {
    SampleBlocks(n);
    assert Contains(HostRoute(n), a);
  }

  /**
    The plane ordering can fail. From a router in sync a cycle on one feed is stopped between write
    and reload; the next cycle, on another feed, marks that one, its reload fails, and the rollback
    makes FRR advertise an address of the first feed, which the sets no longer hold.
    */
  lemma OrderingCanFail() returns (env: Env, s: Host, ts: seq<Turn>, l: Lists, i: Input)
    ensures Deployed(env, s) && InSync(s) && GoodTurns(ts) && Aggregated(l) && i.updateNft && i.reload
    ensures Swaps(env, Run(env, s, ts), Some(l), i)
    ensures !AddrOrdered(env, Run(env, s, ts), l, i, BringsBack())
  {
    hide GoodEnv, Deployed, Networks, HostRoute, GlobalUnicast, Swaps, SampleHost, OwnMarkers, TwoSets, Run;
    hide Reached, Reaches;
    hide Aggregated, AddrOrdered, NftAfter;
    env, ts, l, i := SampleEnv(), StoppedFirst(), SampleLists(2), Smooth();
    s := SampleHost(env);
    SampleGood();
    StoppedState(env);
    StoppedRun(env, s);
    SampleAggregates(2);
    DistinctRoutes(2, 0);
    DistinctRoutes(2, 1);
    NewSwaps(env, Run(env, s, ts), 2);
    OrderedAfterStop(env, s, SampleLists(1), Smooth(), l, i);
    var a := Addr(V4, HostRoute(1).base);
    OneAddress(1, a);
    assert Reaches(Listed(env, s, SampleLists(1)), a) && !Reaches({HostRoute(0)}, a) && !Reaches(All(l), a);
  }

  /**
    A nil result does not mean that FRR runs the file: after the same stop a cycle on the same feed
    finds the file unchanged.
    */
  lemma NilOutOfSync() returns (env: Env, s: Host, ts: seq<Turn>, l: Lists, i: Input)
    ensures Deployed(env, s) && InSync(s) && GoodTurns(ts) && Aggregated(l) && i.updateNft && i.reload && !i.dryRun
    ensures var x := Run(env, s, ts);
            Nil(Steps(env, x, Some(l), i).result) && !InSync(End(env, x, Some(l), i)) && End(env, x, Some(l), i).running == s.running
  {
    hide GoodEnv, Deployed, Networks, Swaps, SampleHost, OwnMarkers, TwoSets, Run, Reached, Steps, Aggregated;
    env, ts, l, i := SampleEnv(), StoppedFirst(), SampleLists(1), Smooth();
    s := SampleHost(env);
    SampleGood();
    StoppedState(env);
    StoppedRun(env, s);
    QuietAfterStop(env, s, l, Smooth(), i);
  }

  // ---- a begin marker that does not end its line ----

  /** The v4 begin marker is followed by a carriage return. */
  function CrlfParts(m: Markers): Parts {
    Parts(m.beginV4, "\r\n", m.endV4 + "\n" + m.beginV6 + "\n", "", m.endV6 + "\n",
          0, |m.beginV4 + "\r\n" + (m.endV4 + "\n")|)
  }

  lemma CrlfLayouts(env: Env)
    requires NoneOf(env.prefix, ' ', '\n')
    ensures var m := Marks(env); FourMarkers(m) && TwoLayouts(m, CrlfParts(m))
  {
    hide Solo, Unlike, MarkersFor, Layout, OccursAt, Clean;
    var m := Marks(env);
    var t, x := CrlfParts(m), "" + m.beginV4 + "\r\n" + (m.endV4 + "\n") + "";
    MarkersDistinct(env.prefix);
    BangClean("", env.prefix);
    CrlfFirst(m);
    ShortClean("\r\n", m.beginV6);
    ShortClean("\r\n", m.endV6);
    Ahead(m, "", "\r\n", "", m.beginV6);
    Ahead(m, "", "\r\n", "", m.endV6);
    SecondRegion(m, x, "");
    CrlfJoins(m);
  }

  lemma CrlfFirst(m: Markers)
    requires FourMarkers(m)
    ensures var t := CrlfParts(m); Layout(m.beginV4, m.endV4, t.before, t.v4, t.middle, t.p)
  {
    hide Solo, Unlike;
    var t := CrlfParts(m);
    OtherLine(m.beginV4, "", m.endV4);
    assert m.beginV4 + "" == m.beginV4;
    assert OccursAt(m.beginV4, m.beginV4, 0);
    ShortClean("\r\n", m.endV4);
    StartsWith(m.endV4, "\n" + m.beginV6 + "\n");
    assert t.middle == m.endV4 + ("\n" + m.beginV6 + "\n");
  }

  lemma CrlfJoins(m: Markers)
    ensures var t, x := CrlfParts(m), "" + m.beginV4 + "\r\n" + (m.endV4 + "\n") + "";
            && t.before + t.v4 + t.middle == x + m.beginV6 + "\n" && t.after == m.endV6 + "\n" + ""
            && |x| == t.q && |t.before| + |t.v4| <= |x|
  {
    var t, x := CrlfParts(m), "" + m.beginV4 + "\r\n" + (m.endV4 + "\n") + "";
    assert t.before + t.v4 + t.middle == x + m.beginV6 + "\n" && t.after == m.endV6 + "\n" + "";
    assert |x| == t.q;
  }

  lemma ShortClean(s: string, q: string)
    requires Solo(q) && |s| < 3
    ensures Clean(s, q)
  {
  }

  lemma CrlfPlaced(env: Env)
    requires GoodEnv(env)
    ensures var t := CrlfParts(Marks(env));
            && WellPlaced(env, Whole(t)) && CutAtBlocks(Whole(t), Marks(env)) == t
            && !OwnLine(Whole(t), Marks(env).beginV4)
  {
    hide Silent, TwoLayouts, Whole, OwnLine, MarkersFor, RegionsApart, Solo;
    var m, t := Marks(env), CrlfParts(Marks(env));
    CrlfLayouts(env);
    BothFound(m, t);
    OwnLines(Whole(t), m);
    SoloPlain(m.beginV4);
  }

  lemma CrlfAround(env: Env)
    requires GoodEnv(env)
    ensures Outside(env, CrlfParts(Marks(env))) == {}
  {
    hide Silent, Networks, MarkersFor, OccursAt, GoodEnv;
    var m, t := Marks(env), CrlfParts(Marks(env));
    MarkersPlain(env);
    EmptySilent(env);
    NothingRead(env.read);
    MarkerAlone(env, m.beginV4);
    MarkerThen(env, m.endV4, m.beginV6 + "\n" + "");
    MarkerThen(env, m.beginV6, "");
    assert t.middle == m.endV4 + "\n" + (m.beginV6 + "\n" + "");
    MarkerThen(env, m.endV6, "");
    assert t.after == m.endV6 + "\n" + "";
  }

  lemma MarkerAlone(env: Env, q: string)
    requires Silent(env, q) && '\n' !in q
    ensures Networks(env.read, q) == {}
  {
    assert OccursAt(q, q, 0);
    LinesOfLine(q);
    NetworksOne(env.read, q);
  }

  /** With a file like that FRR never sees the first prefix: it is glued to the marker. */
  lemma MarkerCanCost() returns (env: Env, cfg: string, p: Prefix)
    ensures GoodEnv(env) && WellPlaced(env, cfg) && IsBlock(p)
    ensures var r := NextFile(env, cfg, [p], []); r.Spliced? && p !in Networks(env.read, r.text)
  {
    hide GoodEnv, Networks, HostRoute, MarkersFor, CrlfParts, Whole, NextFile, CutAtBlocks, Outside, OwnLine, IsBlock;
    hide WellPlaced, SameAround;
    env, p := SampleEnv(), HostRoute(1);
    cfg := Whole(CrlfParts(Marks(env)));
    SampleGood();
    SampleBlocks(1);
    CrlfPlaced(env);
    CrlfAround(env);
    NextFileNetworks(env, cfg, [p], []);
    assert Seen([p], false) == [] && Seen([], true) == [] && Seen([], false) == [];
  }
}
