/**
  The file `run` writes, and what FRR reads back from it: the rendered lists, less the first prefix
  of a family whose begin marker does not end its line, and the networks outside the blocks.
  */
module Readback {
  import opened Cidr
  import opened Text
  import opened Splice
  import opened Rollback
  import opened Render
  import Nft

  lemma NetworksConcat(read: Reader, a: seq<string>, b: seq<string>)
    ensures NetworksIn(read, a + b) == NetworksIn(read, a) + NetworksIn(read, b)
  {
    var u := NetworksIn(read, a) + NetworksIn(read, b);
    forall p | p in u ensures p in NetworksIn(read, a + b) {
      if p in NetworksIn(read, a) {
        var l :| l in a && read(l) == Some(p);
        assert l in a + b;
      } else {
        var l :| l in b && read(l) == Some(p);
        assert l in a + b;
      }
    }
  }

  lemma NetworksOne(read: Reader, l: string)
    ensures NetworksIn(read, [l]) == if read(l).Some? then {read(l).value} else {}
  {
    assert l in [l];
  }

  // ---- texts put together ----

  function Init(ls: seq<string>): seq<string>
    requires ls != []
  {
    ls[..|ls| - 1]
  }

  /** Lines before a silent last line, and lines after a silent first one. */
  lemma SilentEnds(read: Reader, s: string)
    ensures read(LastLine(s)) == None ==> NetworksIn(read, Init(Lines(s))) == Networks(read, s)
    ensures read(FirstLine(s)) == None ==> NetworksIn(read, Lines(s)[1..]) == Networks(read, s)
  {
    hide Lines, NetworksIn;
    var ls := Lines(s);
    assert ls == Init(ls) + [LastLine(s)] && ls == [FirstLine(s)] + ls[1..];
    NetworksConcat(read, Init(ls), [LastLine(s)]);
    NetworksConcat(read, [FirstLine(s)], ls[1..]);
    NetworksOne(read, LastLine(s));
    NetworksOne(read, FirstLine(s));
  }

  /** What is read in a joined text: the line at the joint is read as one. */
  lemma JoinedNetworks(read: Reader, a: string, b: string)
    ensures Networks(read, a + b) == NetworksIn(read, Init(Lines(a))) + NetworksIn(read, [LastLine(a) + FirstLine(b)])
                               + NetworksIn(read, Lines(b)[1..])
  {
    hide Lines;
    LinesJoined(a, b);
    NetworksConcat(read, Init(Lines(a)) + [LastLine(a) + FirstLine(b)], Lines(b)[1..]);
    NetworksConcat(read, Init(Lines(a)), [LastLine(a) + FirstLine(b)]);
  }

  /** At the end of a line the texts are read one by one. */
  lemma CleanBreak(read: Reader, a: string, b: string)
    requires LastLine(a) == "" && read("") == None
    ensures Networks(read, a + b) == Networks(read, a) + Networks(read, b)
  {
    hide Lines, NetworksIn;
    JoinedNetworks(read, a, b);
    SilentEnds(read, a);
    assert "" + FirstLine(b) == FirstLine(b) && Lines(b) == [FirstLine(b)] + Lines(b)[1..];
    NetworksConcat(read, [FirstLine(b)], Lines(b)[1..]);
  }

  /** A silent joint loses the first line of what follows. */
  lemma SilentJoint(read: Reader, a: string, b: string)
    requires read(LastLine(a)) == None && read(LastLine(a) + FirstLine(b)) == None
    ensures Networks(read, a + b) == Networks(read, a) + NetworksIn(read, Lines(b)[1..])
  {
    hide Lines, NetworksIn;
    JoinedNetworks(read, a, b);
    SilentEnds(read, a);
    NetworksOne(read, LastLine(a) + FirstLine(b));
  }

  lemma KeepsLeft(read: Reader, a: string, b: string)
    requires read(LastLine(a)) == None
    ensures Networks(read, a) <= Networks(read, a + b)
  {
    hide Lines, NetworksIn;
    JoinedNetworks(read, a, b);
    SilentEnds(read, a);
  }

  lemma KeepsRight(read: Reader, a: string, b: string)
    requires read(FirstLine(b)) == None
    ensures Networks(read, b) <= Networks(read, a + b)
  {
    hide Lines, NetworksIn;
    JoinedNetworks(read, a, b);
    SilentEnds(read, b);
  }

  // ---- markers at the ends of texts ----

  predicate EndsLine(s: string) {
    s != "" && s[|s| - 1] == '\n'
  }

  /** The text ends in the marker, or in a newline. */
  predicate EndsIn(a: string, marker: string) {
    EndsLine(a) || OccursAt(a, marker, |a| - |marker|)
  }

  lemma AfterNewline(a: string)
    requires EndsLine(a)
    ensures LastLine(a) == ""
  {
    LinesConcat(a[..|a| - 1], "");
    assert a == a[..|a| - 1] + "\n" + "";
  }

  /** The last line then is empty or holds the marker, whatever follows. */
  lemma EndSilent(env: Env, a: string, marker: string, more: string)
    requires Silent(env, marker) && env.read("") == None && '\n' !in marker && EndsIn(a, marker)
    ensures env.read(LastLine(a)) == None
    ensures EndsLine(a) ==> LastLine(a) == ""
    ensures !EndsLine(a) ==> env.read(LastLine(a) + more) == None
  {
    if EndsLine(a) {
      AfterNewline(a);
    } else {
      var front := a[..|a| - |marker|];
      assert a == front + marker;
      LinesJoined(front, marker);
      LinesOfLine(marker);
      var l := LastLine(front);
      assert LastLine(a) == l + marker;
      assert OccursAt(l + marker, marker, |l|) && OccursAt(l + marker + more, marker, |l|);
    }
  }

  /** A text that starts with a marker has it in its first line, whatever stands before. */
  lemma StartSilent(env: Env, c: string, marker: string, before: string)
    requires Silent(env, marker) && '\n' !in marker && OccursAt(c, marker, 0)
    ensures env.read(before + FirstLine(c)) == None && env.read(FirstLine(c)) == None
  {
    var rest := c[|marker|..];
    assert c == marker + rest;
    LinesJoined(marker, rest);
    LinesOfLine(marker);
    var l := FirstLine(c);
    assert l == marker + FirstLine(rest);
    assert OccursAt(l, marker, 0) && OccursAt(before + l, marker, |before|);
  }

  // ---- one block ----

  function Rest(ps: seq<Prefix>): seq<Prefix> {
    if ps == [] then [] else ps[1..]
  }

  /** The prefixes of a block that FRR gets to see. */
  function Seen(ps: seq<Prefix>, endsLine: bool): seq<Prefix> {
    if endsLine then ps else Rest(ps)
  }

  /** FRR reads exactly the rendered prefixes from rendered lines. */
  lemma LinesRead(env: Env, ps: seq<Prefix>)
    requires GoodEnv(env) && AllBlocks(ps)
    ensures NetworksIn(env.read, NetworkLines(env, ps)) == Nft.Elements(ps)
  {
    var ls := NetworkLines(env, ps);
    forall p | p in ps ensures p in NetworksIn(env.read, ls) {
      var i :| 0 <= i < |ps| && ps[i] == p;
      assert ls[i] in ls && env.read(ls[i]) == Some(p);
    }
    forall p | p in NetworksIn(env.read, ls) ensures p in ps {
      var l :| l in ls && env.read(l) == Some(p);
      var i :| 0 <= i < |ls| && ls[i] == l;
      assert env.read(NetworkLine(env, ps[i])) == Some(ps[i]);
    }
  }

  /** The lines of a rendered block and of what follows it. */
  lemma BlockLines(env: Env, ps: seq<Prefix>, c: string)
    requires GoodEnv(env) && AllBlocks(ps) && ps != []
    ensures Lines(Terminated(Rendered(env, ps)) + c) == NetworkLines(env, ps) + Lines(c)
  {
    hide GoodEnv;
    var ls, body := NetworkLines(env, ps), Rendered(env, ps);
    LastChar(env, ps);
    LinesPlain(env, ps);
    LinesOfJoin(ls);
    LinesConcat(body, c);
  }

  /** A block between a text that ends in its begin marker and one that starts with its end marker. */
  lemma BlockNetworks(env: Env, a: string, begin: string, end: string, ps: seq<Prefix>, c: string)
    requires GoodEnv(env) && AllBlocks(ps) && Silent(env, begin) && Silent(env, end)
    requires '\n' !in begin && '\n' !in end && EndsIn(a, begin) && OccursAt(c, end, 0)
    ensures Networks(env.read, a + Terminated(Rendered(env, ps)) + c)
            == Networks(env.read, a) + Nft.Elements(Seen(ps, EndsLine(a))) + Networks(env.read, c)
  {
    hide GoodEnv, Silent, Lines, NetworksIn, EndsIn, EndsLine, OccursAt, Rendered;
    EmptySilent(env);
    var block := Terminated(Rendered(env, ps));
    var x := block + c;
    Reassociate(a, block, c);
    if ps == [] {
      assert x == c;
      StartSilent(env, c, end, LastLine(a));
      EndSilent(env, a, begin, "");
      SilentJoint(env.read, a, c);
      SilentEnds(env.read, c);
      assert Nft.Elements(Seen(ps, EndsLine(a))) == {};
    } else {
      BlockLines(env, ps, c);
      EndSilent(env, a, begin, FirstLine(x));
      if EndsLine(a) {
        CleanBreak(env.read, a, x);
        NetworksConcat(env.read, NetworkLines(env, ps), Lines(c));
        LinesRead(env, ps);
      } else {
        SilentJoint(env.read, a, x);
        assert Lines(x)[1..] == NetworkLines(env, ps)[1..] + Lines(c);
        assert NetworkLines(env, ps)[1..] == NetworkLines(env, ps[1..]);
        NetworksConcat(env.read, NetworkLines(env, ps[1..]), Lines(c));
        LinesRead(env, ps[1..]);
      }
    }
  }

  lemma EmptySilent(env: Env)
    requires GoodEnv(env)
    ensures env.read("") == None
    ensures Rendered(env, []) == ""
  {
  }

  lemma Reassociate(a: string, b: string, c: string)
    ensures a + b + c == a + (b + c)
  {
  }

  // ---- the file ----

  /** What stands outside the blocks. */
  function Outside(env: Env, t: Parts): set<Prefix> {
    Networks(env.read, t.before) + Networks(env.read, t.middle) + Networks(env.read, t.after)
  }

  ghost predicate SilentMarkers(env: Env, m: Markers) {
    Silent(env, m.beginV4) && Silent(env, m.endV4) && Silent(env, m.beginV6) && Silent(env, m.endV6)
  }

  /** Where the text before a block ends and the text after it starts. */
  lemma LayoutEnds(begin: string, end: string, a: string, m: string, c: string, p: int)
    requires MarkerPair(begin, end) && Layout(begin, end, a, m, c, p)
    ensures EndsIn(a, begin) && OccursAt(c, end, 0)
    ensures EndsLine(a) <==> |a| == p + |begin| + 1
  {
    SoloHas(begin, |begin| - 1);
    OccursChar(a, begin, p, |begin| - 1);
  }

  lemma NoNewlines(m: Markers)
    requires FourMarkers(m)
    ensures '\n' !in m.beginV4 && '\n' !in m.endV4 && '\n' !in m.beginV6 && '\n' !in m.endV6
  {
    SoloPlain(m.beginV4);
    SoloPlain(m.endV4);
    SoloPlain(m.beginV6);
    SoloPlain(m.endV6);
  }

  lemma SoloPlain(q: string)
    requires Solo(q)
    ensures '\n' !in q
  {
    forall c | c in q ensures c != '\n' {
      var j :| 0 <= j < |q| && q[j] == c;
      SoloHas(q, j);
    }
  }

  /** The same for two blocks. */
  lemma TwoEnds(m: Markers, t: Parts)
    requires FourMarkers(m) && TwoLayouts(m, t)
    ensures EndsIn(t.before, m.beginV4) && OccursAt(t.middle, m.endV4, 0)
    ensures EndsIn(t.before + t.v4 + t.middle, m.beginV6) && EndsIn(t.middle, m.beginV6) && OccursAt(t.after, m.endV6, 0)
    ensures EndsLine(t.before + t.v4 + t.middle) <==> EndsLine(t.middle)
    ensures EndsLine(t.before) <==> |t.before| == t.p + |m.beginV4| + 1
    ensures EndsLine(t.middle) <==> |t.before + t.v4 + t.middle| == t.q + |m.beginV6| + 1
  {
    hide Solo, Unlike, Clean;
    FourPairs(m);
    var a := t.before + t.v4 + t.middle;
    LayoutEnds(m.beginV4, m.endV4, t.before, t.v4, t.middle, t.p);
    LayoutEnds(m.beginV6, m.endV6, a, t.v6, t.after, t.q);
    NotEmpty(t.middle, m.endV4, m);
    OccursRight(t.before + t.v4, t.middle, m.beginV6, t.q);
  }

  /** What FRR reads in a file whose blocks are rendered lists. */
  lemma PartsNetworks(env: Env, m: Markers, t: Parts, x: seq<Prefix>, y: seq<Prefix>)
    requires GoodEnv(env) && FourMarkers(m) && SilentMarkers(env, m) && TwoLayouts(m, t) && AllBlocks(x) && AllBlocks(y)
    requires t.v4 == Terminated(Rendered(env, x)) && t.v6 == Terminated(Rendered(env, y))
    ensures Networks(env.read, Whole(t))
            == Outside(env, t) + Nft.Elements(Seen(x, EndsLine(t.before))) + Nft.Elements(Seen(y, EndsLine(t.middle)))
  {
    hide GoodEnv, Silent, Networks, EndsIn, EndsLine, OccursAt, Rendered, Solo, FourMarkers, TwoLayouts, Terminated;
    NoNewlines(m);
    TwoEnds(m, t);
    BlockNetworks(env, t.before, m.beginV4, m.endV4, x, t.middle);
    BlockNetworks(env, t.before + t.v4 + t.middle, m.beginV6, m.endV6, y, t.after);
  }

  /** Networks outside the blocks are networks of the file, whatever the blocks hold. */
  lemma OutsideInParts(env: Env, m: Markers, t: Parts)
    requires GoodEnv(env) && FourMarkers(m) && SilentMarkers(env, m) && TwoLayouts(m, t)
    ensures Outside(env, t) <= Networks(env.read, Whole(t))
  {
    hide GoodEnv, Silent, Networks, EndsIn, EndsLine, OccursAt, Solo, FourMarkers, TwoLayouts;
    NoNewlines(m);
    TwoEnds(m, t);
    EmptySilent(env);
    var a, rest := t.before + t.v4 + t.middle, t.v6 + t.after;
    EndSilent(env, t.before, m.beginV4, "");
    EndSilent(env, a, m.beginV6, "");
    StartSilent(env, t.middle, m.endV4, "");
    StartSilent(env, t.after, m.endV6, "");
    KeepsLeft(env.read, t.before, t.v4 + t.middle);
    Reassociate(t.before, t.v4, t.middle);
    KeepsRight(env.read, t.before + t.v4, t.middle);
    KeepsLeft(env.read, a, rest);
    KeepsRight(env.read, a + t.v6, t.after);
    Reassociate(a, t.v6, t.after);
  }

  /** frr.conf as `run` needs it: two regions, one wholly before the other. */
  predicate WellPlaced(env: Env, cfg: string) {
    FourMarkers(Marks(env)) && Apart(cfg, Marks(env))
  }

  /** What `run` writes (main.go:653-661): the file after both splices, if they succeed. */
  function NextFile(env: Env, cfg: string, v4: seq<Prefix>, v6: seq<Prefix>): Splice.Result {
    SpliceBoth(cfg, Marks(env), Rendered(env, v4), Rendered(env, v6))
  }

  /** Two files with the same text outside the blocks. */
  predicate SameAround(t: Parts, u: Parts) {
    t.before == u.before && t.middle == u.middle && t.after == u.after
  }

  /** The begin marker is followed by a newline. */
  predicate OwnLine(cfg: string, begin: string) {
    AfterBegin(cfg, begin) == Index(cfg, begin) + |begin| + 1
  }

  /** Both begin markers end their lines, as in the shipped snippet. */
  predicate OwnMarkers(env: Env, cfg: string) {
    OwnLine(cfg, Marks(env).beginV4) && OwnLine(cfg, Marks(env).beginV6)
  }

  /** The prefixes of the two lists that FRR gets to see in the next file. */
  function Shown(env: Env, cfg: string, v4: seq<Prefix>, v6: seq<Prefix>): (r: set<Prefix>)
    ensures r <= Nft.Elements(v4) + Nft.Elements(v6)
    ensures OwnMarkers(env, cfg) ==> r == Nft.Elements(v4) + Nft.Elements(v6)
  {
    Nft.Elements(Seen(v4, OwnLine(cfg, Marks(env).beginV4))) + Nft.Elements(Seen(v6, OwnLine(cfg, Marks(env).beginV6)))
  }

  /** The cut of a file tells whether its begin markers end their lines. */
  lemma OwnLines(cfg: string, m: Markers)
    requires FourMarkers(m) && RegionsApart(cfg, m)
    ensures var t := Cut(cfg, m);
            && TwoLayouts(m, t) && (EndsLine(t.before) <==> OwnLine(cfg, m.beginV4))
            && (EndsLine(t.middle) <==> OwnLine(cfg, m.beginV6))
  {
    hide Solo, Unlike, TwoLayouts, EndsLine, EndsIn, OccursAt;
    RegionsLayouts(cfg, m);
    TwoEnds(m, Cut(cfg, m));
    SpliceDefined(cfg, m.beginV4, m.endV4, "");
    SpliceDefined(cfg, m.beginV6, m.endV6, "");
  }

  lemma GoodMarks(env: Env)
    requires GoodEnv(env)
    ensures SilentMarkers(env, Marks(env)) && SilentMarkers(env, Swapped(Marks(env)))
  {
    hide Silent, MarkersFor;
  }

  /**
    The next file always exists, keeps its text around the blocks, and FRR reads in it what stands
    outside and the lists, less what a begin marker that does not end its line costs. Splicing
    again gives the same file.
    */
  lemma NextFileNetworks(env: Env, cfg: string, v4: seq<Prefix>, v6: seq<Prefix>)
    requires GoodEnv(env) && WellPlaced(env, cfg) && AllBlocks(v4) && AllBlocks(v6)
    ensures var r := NextFile(env, cfg, v4, v6);
            && r.Spliced? && WellPlaced(env, r.text) && NextFile(env, r.text, v4, v6) == r
            && SameAround(CutAtBlocks(r.text, Marks(env)), CutAtBlocks(cfg, Marks(env)))
            && (OwnMarkers(env, r.text) <==> OwnMarkers(env, cfg))
            && Networks(env.read, r.text) == Outside(env, CutAtBlocks(cfg, Marks(env))) + Shown(env, cfg, v4, v6)
  {
    hide Solo, OccursAt, PlainBody, FourMarkers, Rendered, GoodEnv, EndsLine, SpliceBoth, Networks, Whole;
    hide RegionsApart, Cut, OwnLine, TwoLayouts, Terminated, Marks, Seen;
    var m := Marks(env);
    RenderedPlain(env, v4);
    RenderedPlain(env, v6);
    SecondRunEitherOrder(cfg, m, Rendered(env, v4), Rendered(env, v6));
    var r := NextFile(env, cfg, v4, v6).text;
    GoodMarks(env);
    SwappedFits(m);
    OneOrder(cfg, m);
    var o := InOrder(cfg, m);
    OwnLines(cfg, o);
    OwnLines(r, o);
    var t := Cut(r, o);
    if RegionsApart(cfg, m) { PartsNetworks(env, o, t, v4, v6); } else { PartsNetworks(env, o, t, v6, v4); }
  }

  lemma OutsideInFile(env: Env, cfg: string)
    requires GoodEnv(env) && WellPlaced(env, cfg)
    ensures Outside(env, CutAtBlocks(cfg, Marks(env))) <= Networks(env.read, cfg)
  {
    hide Solo, OccursAt, FourMarkers, GoodEnv, Networks, RegionsApart, Cut, TwoLayouts, Marks, OwnLine;
    var m := Marks(env);
    GoodMarks(env);
    SwappedFits(m);
    OwnLines(cfg, InOrder(cfg, m));
    OutsideInParts(env, InOrder(cfg, m), CutAtBlocks(cfg, m));
  }

  /**
    FRR reads both lists whole in the next file if and only if, for each family, the begin marker
    ends its line, or the list is empty, or its first prefix is listed elsewhere: outside the blocks
    or where FRR sees the other list.
    */
  lemma ShownExactly(env: Env, cfg: string, v4: seq<Prefix>, v6: seq<Prefix>)
    requires GoodEnv(env) && WellPlaced(env, cfg) && AllBlocks(v4) && AllBlocks(v6)
    requires (forall i, j :: 0 <= i < j < |v4| ==> v4[i] != v4[j]) && (forall i, j :: 0 <= i < j < |v6| ==> v6[i] != v6[j])
    ensures NextFile(env, cfg, v4, v6).Spliced?
    ensures var own4, own6 := OwnLine(cfg, Marks(env).beginV4), OwnLine(cfg, Marks(env).beginV6);
            var out := Outside(env, CutAtBlocks(cfg, Marks(env)));
            Nft.Elements(v4) + Nft.Elements(v6) <= Networks(env.read, NextFile(env, cfg, v4, v6).text) <==>
              && (own4 || v4 == [] || v4[0] in out || v4[0] in Seen(v6, own6))
              && (own6 || v6 == [] || v6[0] in out || v6[0] in Seen(v4, own4))
  {
    hide GoodEnv, WellPlaced, NextFile, Networks, Outside, CutAtBlocks, Marks, OwnLine, SameAround;
    NextFileNetworks(env, cfg, v4, v6);
    if v4 != [] { assert v4[0] in Nft.Elements(v4) && v4[0] !in Rest(v4); }
    if v6 != [] { assert v6[0] in Nft.Elements(v6) && v6[0] !in Rest(v6); }
  }
}
