/**
  The whole IOS XE candidate, and what it does to a device that may hold anything before: prefix
  lists, static routes, route maps and what BGP redistributes.
  */
module Candidate {
  import opened Arith
  import opened Cidr
  import opened Dotted
  import opened Iosxe

  const STATIC_SEQ := 10
  const LEAK_SEQ := 20
  const DENY_SEQ := 9999

  // ---- the device ----

  datatype Hop = Hop(dest: nat, mask: Octets, hop: string)

  datatype Via = Via(tag: int, routeName: string)

  /** One entry of a route map. Without a match clause it takes every route. */
  datatype Clause = Clause(permit: bool, on: set<string>)

  type Clauses = map<nat, Clause>

  /** `redistributed` is the route map by which each BGP process takes static routes. */
  datatype Device = Device(
    lists: map<string, Listing>, routes: map<Hop, Via>, maps: map<string, Clauses>, redistributed: map<string, string>)

  function HopOf(c: Command): Hop
    requires c.Route?
  {
    Hop(c.dest, c.mask, c.hop)
  }

  function MapIn(d: Device, name: string): Clauses {
    if name in d.maps then d.maps[name] else map[]
  }

  /** A match line adds a list to those its entry has. */
  function Enter(m: Clauses, at: nat, permit: bool, on: Option<string>): Clauses {
    m[at := Clause(permit, (if at in m then m[at].on else {}) + if on.Some? then {on.value} else {})]
  }

  function Effect(c: Command, d: Device, overwrites: bool): Device {
    match c
    case Route(_, _, _, tag, routeName) => d.(routes := d.routes[HopOf(c) := Via(tag, routeName)])
    case RouteMap(name, permit, at, on) => d.(maps := d.maps[name := Enter(MapIn(d, name), at, permit, on)])
    case Redistribute(asn, routeMap) => d.(redistributed := d.redistributed[asn := routeMap])
    case _ => d.(lists := Do(c, d.lists, overwrites))
  }

  function Configure(cs: seq<Command>, d: Device, overwrites: bool): Device {
    if cs == [] then d else Effect(cs[|cs| - 1], Configure(cs[..|cs| - 1], d, overwrites), overwrites)
  }

  /** The device has a static route to the prefix, by whatever next hop. */
  ghost predicate IsStatic(d: Device, r: Prefix) {
    exists h :: h in d.routes && h.dest == r.base && h.mask == MaskDotted(r.bits)
  }

  /** A list that is not there takes every route. */
  ghost predicate ClauseTakes(d: Device, c: Clause, r: Prefix) {
    c.on == {} || exists l :: l in c.on && (l !in d.lists || Permits(d.lists[l], r))
  }

  ghost predicate ClauseDecides(d: Device, m: Clauses, r: Prefix, s: nat) {
    s in m && ClauseTakes(d, m[s], r) && forall t :: t in m && t < s ==> !ClauseTakes(d, m[t], r)
  }

  /** The first entry that takes the route decides. */
  ghost predicate MapPermits(d: Device, name: string, r: Prefix) {
    exists s :: ClauseDecides(d, MapIn(d, name), r, s) && MapIn(d, name)[s].permit
  }

  /** What `redistribute static` lets into BGP. */
  ghost predicate LetOut(d: Device, asn: string, r: Prefix) {
    IsStatic(d, r) && asn in d.redistributed && MapPermits(d, d.redistributed[asn], r)
  }

  // ---- the candidate ----

  /** The flags `renderIOSXECandidate` looks at. */
  datatype Settings = Settings(
    prefixList: string, replace: bool,
    nextHop: string, routeName: string, tag: int,
    staticMap: string, asn: string,
    leakMap: string, leakSeq: int,
    outMap: string, outSeq: int, denySeq: int)

  function OrDefault(n: int, default: nat): nat {
    if n <= 0 then default else n
  }

  /** target.go:60-73. */
  function RouteMapOf(name: string, list: string, permitSeq: int, denySeq: int): seq<Command> {
    if name == "" || list == "" then []
    else
      [RouteMap(name, true, OrDefault(permitSeq, STATIC_SEQ), Some(list)),
       RouteMap(name, false, OrDefault(denySeq, DENY_SEQ), None)]
  }

  /** target.go:75-85. */
  function RouteMapPermit(name: string, list: string, permitSeq: int): seq<Command> {
    if name == "" || list == "" then [] else [RouteMap(name, true, OrDefault(permitSeq, LEAK_SEQ), Some(list))]
  }

  /** target.go:118-124. */
  function BgpOf(asn: string, routeMap: string): seq<Command> {
    if asn == "" || routeMap == "" then [] else [Redistribute(asn, routeMap)]
  }

  /** target.go:144-147. */
  function StaticMap(f: Settings): string {
    if f.nextHop != "" || f.asn != "" then f.staticMap else ""
  }

  /** target.go:143-167, the parts in order. */
  function ListPart(f: Settings, ps: seq<Prefix>): seq<Command> {
    (if f.replace && f.prefixList != "" then [NoPrefixList(f.prefixList)] else [])
    + if ps == [] then [] else ListCommands(f.prefixList, ps)
  }

  function RoutePart(f: Settings, ps: seq<Prefix>): seq<Command> {
    if f.nextHop == "" then [] else StaticRoutes(ps, f.nextHop, f.routeName, f.tag)
  }

  function StaticMapPart(f: Settings): seq<Command> {
    RouteMapOf(StaticMap(f), f.prefixList, STATIC_SEQ, f.denySeq)
  }

  function LeakPart(f: Settings): seq<Command> {
    RouteMapPermit(f.leakMap, f.prefixList, f.leakSeq)
  }

  function OutPart(f: Settings): seq<Command> {
    RouteMapOf(f.outMap, f.prefixList, f.outSeq, f.denySeq)
  }

  function BgpPart(f: Settings): seq<Command> {
    BgpOf(f.asn, StaticMap(f))
  }

  function Commands(f: Settings, ps: seq<Prefix>): seq<Command> {
    ListPart(f, ps) + RoutePart(f, ps) + StaticMapPart(f) + LeakPart(f) + OutPart(f) + BgpPart(f)
  }

  // ---- one part at a time ----

  lemma {:induction false} ConfigureConcat(a: seq<Command>, b: seq<Command>, d: Device, overwrites: bool)
    ensures Configure(a + b, d, overwrites) == Configure(b, Configure(a, d, overwrites), overwrites)
  {
    hide Effect;
    if b == [] {
      assert a + b == a;
    } else {
      assert (a + b)[..|a + b| - 1] == a + b[..|b| - 1];
      ConfigureConcat(a, b[..|b| - 1], d, overwrites);
    }
  }

  /** The lists are what the commands make of the lists. */
  lemma {:induction false} ListsAlone(cs: seq<Command>, d: Device, overwrites: bool)
    ensures Configure(cs, d, overwrites).lists == Apply(cs, d.lists, overwrites)
  {
    hide Enter;
    if cs != [] { ListsAlone(cs[..|cs| - 1], d, overwrites); }
  }

  predicate NoRoute(cs: seq<Command>) {
    forall i :: 0 <= i < |cs| ==> !cs[i].Route?
  }

  predicate NoMap(cs: seq<Command>, name: string) {
    forall i :: 0 <= i < |cs| ==> !(cs[i].RouteMap? && cs[i].name == name)
  }

  predicate NoBgp(cs: seq<Command>) {
    forall i :: 0 <= i < |cs| ==> !cs[i].Redistribute?
  }

  predicate NoList(cs: seq<Command>) {
    forall i :: 0 <= i < |cs| ==> cs[i].Route? || cs[i].RouteMap? || cs[i].Redistribute?
  }

  lemma {:induction false} KeepsRoutes(cs: seq<Command>, d: Device, overwrites: bool)
    requires NoRoute(cs)
    ensures Configure(cs, d, overwrites).routes == d.routes
  {
    hide Enter, Do;
    if cs != [] { KeepsRoutes(cs[..|cs| - 1], d, overwrites); }
  }

  lemma {:induction false} KeepsMap(cs: seq<Command>, d: Device, overwrites: bool, name: string)
    requires NoMap(cs, name)
    ensures MapIn(Configure(cs, d, overwrites), name) == MapIn(d, name)
  {
    hide Enter, Do;
    if cs != [] { KeepsMap(cs[..|cs| - 1], d, overwrites, name); }
  }

  lemma {:induction false} KeepsBgp(cs: seq<Command>, d: Device, overwrites: bool)
    requires NoBgp(cs)
    ensures Configure(cs, d, overwrites).redistributed == d.redistributed
  {
    hide Enter, Do;
    if cs != [] { KeepsBgp(cs[..|cs| - 1], d, overwrites); }
  }

  lemma {:induction false} KeepsLists(cs: seq<Command>, d: Device, overwrites: bool)
    requires NoList(cs)
    ensures Configure(cs, d, overwrites).lists == d.lists
  {
    hide Enter, Do;
    if cs != [] { KeepsLists(cs[..|cs| - 1], d, overwrites); }
  }

  // ---- the routes ----

  function HopFor(p: Prefix, nextHop: string): Hop {
    Hop(p.base, MaskDotted(p.bits), nextHop)
  }

  function Hops(ps: seq<Prefix>, nextHop: string): set<Hop> {
    set p | p in ps :: HopFor(p, nextHop)
  }

  /** The static routes the candidate asks for. */
  function Asked(f: Settings, ps: seq<Prefix>): map<Hop, Via> {
    if f.nextHop == "" then map[]
    else map h | h in Hops(ps, f.nextHop) :: Via(if f.tag > 0 then f.tag else 0, f.routeName)
  }

  lemma {:induction false} RoutesLand(f: Settings, ps: seq<Prefix>, d: Device, overwrites: bool)
    requires f.nextHop != ""
    ensures Configure(RoutePart(f, ps), d, overwrites) == d.(routes := d.routes + Asked(f, ps))
  {
    hide MaskDotted, Do, Enter;
    var cs := RoutePart(f, ps);
    if ps == [] {
      assert d.routes + Asked(f, ps) == d.routes;
    } else {
      var n, front := |ps| - 1, ps[..|ps| - 1];
      assert cs[..n] == RoutePart(f, front);
      RoutesLand(f, front, d, overwrites);
      OneRoute(f, ps, d);
    }
  }

  lemma OneRoute(f: Settings, ps: seq<Prefix>, d: Device)
    requires f.nextHop != "" && ps != []
    ensures var p, front := ps[|ps| - 1], ps[..|ps| - 1];
            (d.routes + Asked(f, front))[HopFor(p, f.nextHop) := Via(if f.tag > 0 then f.tag else 0, f.routeName)]
            == d.routes + Asked(f, ps)
  {
    hide MaskDotted;
    var p, front := ps[|ps| - 1], ps[..|ps| - 1];
    assert ps == front + [p];
  }

  /** Two lengths with the same mask are the same. */
  lemma MaskInjective(m: nat, n: nat)
    requires m <= 32 && n <= 32 && MaskDotted(m) == MaskDotted(n)
    ensures m == n
  {
    hide MaskDotted, Pow2;
    MaskReadsBack(m);
    MaskReadsBack(n);
    SmallerPower(32 - m, 32 - n);
    SmallerPower(32 - n, 32 - m);
  }

  lemma AskedStatic(f: Settings, ps: seq<Prefix>, d: Device, d': Device, r: Prefix)
    requires AllRoutes(ps) && IsRoute(r) && d'.routes == d.routes + Asked(f, ps)
    ensures IsStatic(d', r) <==> IsStatic(d, r) || (f.nextHop != "" && r in ps)
  {
    hide MaskDotted;
    if f.nextHop != "" && r in ps {
      assert HopFor(r, f.nextHop) in d'.routes;
    }
    if IsStatic(d, r) {
      var h :| h in d.routes && h.dest == r.base && h.mask == MaskDotted(r.bits);
      assert h in d'.routes;
    }
    if IsStatic(d', r) && !IsStatic(d, r) {
      var h :| h in d'.routes && h.dest == r.base && h.mask == MaskDotted(r.bits);
      var p :| p in ps && h == HopFor(p, f.nextHop);
      MaskInjective(p.bits, r.bits);
    }
  }

  predicate HopTakes(h: Hop, a: Addr) {
    RouteCovers(Route(h.dest, h.mask, h.hop, 0, ""), a)
  }

  /** Some static route of the device takes the address. */
  ghost predicate Routed(d: Device, a: Addr) {
    exists h :: h in d.routes && HopTakes(h, a)
  }

  lemma AskedRouted(f: Settings, ps: seq<Prefix>, d: Device, d': Device, a: Addr)
    requires AllRoutes(ps) && ValidAddr(a) && d'.routes == d.routes + Asked(f, ps)
    ensures AllBlocks(ps) && (Routed(d', a) <==> Routed(d, a) || (f.nextHop != "" && Covered(ps, a)))
  {
    hide MaskDotted, HopTakes, ValidAddr, IsBlock, Contains;
    forall p | p in ps ensures IsBlock(p) && (HopTakes(HopFor(p, f.nextHop), a) <==> Contains(p, a)) {
      HopMeans(p, f.nextHop, a);
    }
    if Routed(d, a) {
      var h :| h in d.routes && HopTakes(h, a);
      assert h in d'.routes;
    }
    if f.nextHop != "" && Covered(ps, a) {
      var i :| 0 <= i < |ps| && Contains(ps[i], a);
      assert HopFor(ps[i], f.nextHop) in d'.routes;
    }
    if Routed(d', a) && !Routed(d, a) {
      var h :| h in d'.routes && HopTakes(h, a);
      var p :| p in ps && h == HopFor(p, f.nextHop);
    }
  }

  lemma HopMeans(p: Prefix, nextHop: string, a: Addr)
    requires IsRoute(p) && ValidAddr(a)
    ensures IsBlock(p) && (HopTakes(HopFor(p, nextHop), a) <==> Contains(p, a))
  {
    hide MaskDotted, RouteCovers;
    MaskMeans(p, a, nextHop, 0, "");
    SameTaking(HopFor(p, nextHop), a);
  }

  lemma SameTaking(h: Hop, a: Addr)
    ensures HopTakes(h, a) <==> RouteCovers(Route(h.dest, h.mask, h.hop, 0, ""), a)
  {
    hide RouteCovers;
  }

  // ---- the route maps ----

  /** The device has no entries of the map but those the candidate itself would have entered. */
  predicate TidyMap(d: Device, name: string, list: string, permit: nat, deny: nat) {
    var m := MapIn(d, name);
    forall s :: s in m ==> if s == permit then m[s].on <= {list} else s == deny && m[s].on == {}
  }

  /** The two entries, or one that denies the list if both have the same number. */
  predicate TwoEntries(m: Clauses, list: string, permit: nat, deny: nat) {
    && m.Keys == {permit, deny} && m[permit] == Clause(deny != permit, {list})
    && (deny != permit ==> m[deny] == Clause(false, {}))
  }

  lemma TwoCommands(a: Command, b: Command, d: Device, overwrites: bool)
    ensures Configure([a, b], d, overwrites) == Effect(b, Effect(a, d, overwrites), overwrites)
    ensures Configure([a], d, overwrites) == Effect(a, d, overwrites)
  {
    hide Effect;
    assert [a, b][..1] == [a] && [a][..0] == [];
    assert Configure([a], d, overwrites) == Effect(a, d, overwrites);
  }

  lemma EntersTwo(m: Clauses, list: string, permit: nat, deny: nat)
    requires forall s :: s in m ==> if s == permit then m[s].on <= {list} else s == deny && m[s].on == {}
    ensures TwoEntries(Enter(Enter(m, permit, true, Some(list)), deny, false, None), list, permit, deny)
  {
    if permit in m { assert m[permit].on + {list} == {list}; }
  }

  /** What the lines of a route map do to whatever entries the device has. */
  lemma MapEntered(name: string, list: string, permitSeq: int, denySeq: int, d: Device, overwrites: bool)
    requires name != "" && list != ""
    ensures MapIn(Configure(RouteMapOf(name, list, permitSeq, denySeq), d, overwrites), name) ==
            Enter(Enter(MapIn(d, name), OrDefault(permitSeq, STATIC_SEQ), true, Some(list)),
                  OrDefault(denySeq, DENY_SEQ), false, None)
  {
    hide Do, Enter, Configure;
    var cs := RouteMapOf(name, list, permitSeq, denySeq);
    TwoCommands(cs[0], cs[1], d, overwrites);
  }

  lemma PermitEntered(name: string, list: string, permitSeq: int, d: Device, overwrites: bool)
    requires name != "" && list != ""
    ensures MapIn(Configure(RouteMapPermit(name, list, permitSeq), d, overwrites), name) ==
            Enter(MapIn(d, name), OrDefault(permitSeq, LEAK_SEQ), true, Some(list))
  {
    hide Do, Enter, Configure;
    var c := RouteMapPermit(name, list, permitSeq)[0];
    TwoCommands(c, c, d, overwrites);
  }

  /** Two such entries let through what the list permits, unless the deny entry is numbered up to the permit. */
  lemma MapMeaning(d: Device, name: string, list: string, permit: nat, deny: nat, r: Prefix)
    requires TwoEntries(MapIn(d, name), list, permit, deny) && list in d.lists
    ensures MapPermits(d, name, r) <==> deny > permit && Permits(d.lists[list], r)
  {
    hide Permits, MapIn;
    var m := MapIn(d, name);
    assert ClauseTakes(d, m[permit], r) <==> Permits(d.lists[list], r) by {
      assert list in m[permit].on;
    }
    if deny > permit && Permits(d.lists[list], r) {
      assert ClauseDecides(d, m, r, permit);
    }
    if MapPermits(d, name, r) {
      var s :| ClauseDecides(d, m, r, s) && m[s].permit;
      assert s == permit;
    }
  }

  /** A single permit entry lets through what the list permits. */
  lemma OneMeaning(d: Device, name: string, list: string, permit: nat, r: Prefix)
    requires MapIn(d, name) == map[permit := Clause(true, {list})] && list in d.lists
    ensures MapPermits(d, name, r) <==> Permits(d.lists[list], r)
  {
    hide Permits, MapIn;
    var m := MapIn(d, name);
    assert ClauseTakes(d, m[permit], r) <==> Permits(d.lists[list], r) by {
      assert list in m[permit].on;
    }
    if Permits(d.lists[list], r) { assert ClauseDecides(d, m, r, permit); }
  }

  // ---- the candidate on a device ----

  /** The map for static routes is rendered if they are, or if BGP is to take them. */
  predicate UsesStaticMap(f: Settings, name: string) {
    name == f.staticMap && (f.nextHop != "" || f.asn != "")
  }

  lemma PartKinds(f: Settings, ps: seq<Prefix>)
    ensures NoRoute(ListPart(f, ps)) && NoBgp(ListPart(f, ps)) && forall n :: NoMap(ListPart(f, ps), n)
    ensures NoBgp(RoutePart(f, ps)) && NoList(RoutePart(f, ps)) && forall n :: NoMap(RoutePart(f, ps), n)
    ensures NoRoute(StaticMapPart(f)) && NoBgp(StaticMapPart(f)) && NoList(StaticMapPart(f))
    ensures NoRoute(LeakPart(f)) && NoBgp(LeakPart(f)) && NoList(LeakPart(f))
    ensures NoRoute(OutPart(f)) && NoBgp(OutPart(f)) && NoList(OutPart(f))
    ensures NoRoute(BgpPart(f)) && NoList(BgpPart(f)) && forall n :: NoMap(BgpPart(f), n)
  {
    hide MaskDotted, OrDefault;
  }

  lemma PartMaps(f: Settings, n: string)
    ensures !UsesStaticMap(f, n) ==> NoMap(StaticMapPart(f), n)
    ensures n != f.leakMap ==> NoMap(LeakPart(f), n)
    ensures n != f.outMap ==> NoMap(OutPart(f), n)
    ensures n == "" || f.prefixList == "" ==>
              NoMap(StaticMapPart(f), n) && NoMap(LeakPart(f), n) && NoMap(OutPart(f), n)
  {
    hide OrDefault;
  }

  /** The states after the first parts. */
  lemma InParts(f: Settings, ps: seq<Prefix>, d: Device, overwrites: bool)
    returns (a: Device, b: Device, c: Device, e: Device, g: Device)
    ensures a == Configure(ListPart(f, ps), d, overwrites) && b == Configure(RoutePart(f, ps), a, overwrites)
    ensures c == Configure(StaticMapPart(f), b, overwrites) && e == Configure(LeakPart(f), c, overwrites)
    ensures g == Configure(OutPart(f), e, overwrites)
    ensures Configure(Commands(f, ps), d, overwrites) == Configure(BgpPart(f), g, overwrites)
  {
    hide Configure, ListPart, RoutePart, StaticMapPart, LeakPart, OutPart, BgpPart;
    var l, r, m, n, o := ListPart(f, ps), RoutePart(f, ps), StaticMapPart(f), LeakPart(f), OutPart(f);
    a := Configure(l, d, overwrites);
    b := Configure(r, a, overwrites);
    c := Configure(m, b, overwrites);
    e := Configure(n, c, overwrites);
    g := Configure(o, e, overwrites);
    ConfigureConcat(l, r, d, overwrites);
    ConfigureConcat(l + r, m, d, overwrites);
    ConfigureConcat(l + r + m, n, d, overwrites);
    ConfigureConcat(l + r + m + n, o, d, overwrites);
    ConfigureConcat(l + r + m + n + o, BgpPart(f), d, overwrites);
  }

  /** The lists are what the list part makes of them. */
  lemma ListsAfter(f: Settings, ps: seq<Prefix>, d: Device, overwrites: bool)
    ensures Configure(Commands(f, ps), d, overwrites).lists == Apply(ListPart(f, ps), d.lists, overwrites)
  {
    hide Configure, ListPart, RoutePart, StaticMapPart, LeakPart, OutPart, BgpPart, NoList, NoRoute, NoMap, NoBgp;
    hide Commands;
    hide Apply;
    var a, b, c, e, g := InParts(f, ps, d, overwrites);
    PartKinds(f, ps);
    ListsAlone(ListPart(f, ps), d, overwrites);
    KeepsLists(RoutePart(f, ps), a, overwrites);
    KeepsLists(StaticMapPart(f), b, overwrites);
    KeepsLists(LeakPart(f), c, overwrites);
    KeepsLists(OutPart(f), e, overwrites);
    KeepsLists(BgpPart(f), g, overwrites);
  }

  /** A route map sees only the part that names it. */
  lemma MapAfter(f: Settings, ps: seq<Prefix>, d: Device, overwrites: bool, n: string)
    returns (b: Device, c: Device, e: Device)
    ensures MapIn(b, n) == MapIn(d, n) && c == Configure(StaticMapPart(f), b, overwrites)
    ensures e == Configure(LeakPart(f), c, overwrites)
    ensures MapIn(Configure(Commands(f, ps), d, overwrites), n) == MapIn(Configure(OutPart(f), e, overwrites), n)
  {
    hide Configure, ListPart, RoutePart, StaticMapPart, LeakPart, OutPart, BgpPart, NoList, NoRoute, NoMap, NoBgp;
    hide Commands;
    hide MapIn;
    var a, g;
    a, b, c, e, g := InParts(f, ps, d, overwrites);
    PartKinds(f, ps);
    KeepsMap(ListPart(f, ps), d, overwrites, n);
    KeepsMap(RoutePart(f, ps), a, overwrites, n);
    KeepsMap(BgpPart(f), g, overwrites, n);
  }

  lemma BgpAfter(f: Settings, ps: seq<Prefix>, d: Device, overwrites: bool)
    ensures Configure(Commands(f, ps), d, overwrites).redistributed ==
            if f.asn == "" || f.staticMap == "" then d.redistributed else d.redistributed[f.asn := f.staticMap]
  {
    hide Configure, ListPart, RoutePart, StaticMapPart, LeakPart, OutPart, NoList, NoRoute, NoMap, NoBgp, Commands;
    var a, b, c, e, g := InParts(f, ps, d, overwrites);
    PartKinds(f, ps);
    KeepsBgp(ListPart(f, ps), d, overwrites);
    KeepsBgp(RoutePart(f, ps), a, overwrites);
    KeepsBgp(StaticMapPart(f), b, overwrites);
    KeepsBgp(LeakPart(f), c, overwrites);
    KeepsBgp(OutPart(f), e, overwrites);
    if f.asn == "" || f.staticMap == "" {
      NothingDone(g, overwrites);
    } else {
      TwoCommands(Redistribute(f.asn, f.staticMap), Redistribute(f.asn, f.staticMap), g, overwrites);
    }
  }

  /** The lists. In replace mode the list permits exactly the first 99,999 prefixes, whatever the device held. */
  lemma CandidateList(f: Settings, ps: seq<Prefix>, d: Device, overwrites: bool, r: Prefix)
    requires f.replace && f.prefixList != "" && ps != [] && IsRoute(r)
    ensures var after := Configure(Commands(f, ps), d, overwrites);
            f.prefixList in after.lists && (Permits(after.lists[f.prefixList], r) <==> r in Heard(ps))
  {
    hide Configure, Commands, Permits, Heard, Apply, ListCommands;
    ListsAfter(f, ps, d, overwrites);
    ReplacedMeaning(f.prefixList, ps, d.lists, overwrites, r);
    ListThere(f.prefixList, ps, d.lists, overwrites);
  }

  /**
    Without replace mode nothing is taken back. After two feeds on a device that did not have the
    list, it permits the second and what the first had beyond the length of that, or the first and
    what the second has beyond, depending on whether the device overwrites an entry that is there.
    */
  lemma CandidateListAdds(f: Settings, earlier: seq<Prefix>, ps: seq<Prefix>, d: Device, overwrites: bool, r: Prefix)
    requires !f.replace && earlier != [] && ps != [] && IsRoute(r) && f.prefixList !in d.lists
    ensures var after := Configure(Commands(f, ps), Configure(Commands(f, earlier), d, overwrites), overwrites);
            Permits(ListIn(after.lists, f.prefixList), r) <==>
              if overwrites then r in Heard(ps) || r in Beyond(Heard(earlier), |ps|)
              else r in Heard(earlier) || r in Beyond(Heard(ps), |earlier|)
  {
    hide Configure, Commands, Permits, Heard, Apply, ListCommands, ListIn, Beyond;
    ListsAfter(f, earlier, d, overwrites);
    ListsAfter(f, ps, Configure(Commands(f, earlier), d, overwrites), overwrites);
    assert [] + ListCommands(f.prefixList, earlier) == ListCommands(f.prefixList, earlier);
    assert [] + ListCommands(f.prefixList, ps) == ListCommands(f.prefixList, ps);
    EarlierShowsThrough(f.prefixList, earlier, ps, d.lists, overwrites, r);
  }

  /** With no prefixes there is no list left in replace mode, and without it the device keeps the one it has. */
  lemma CandidateListEmpty(f: Settings, d: Device, overwrites: bool)
    requires f.prefixList != ""
    ensures var after := Configure(Commands(f, []), d, overwrites);
            after.lists == if f.replace then d.lists - {f.prefixList} else d.lists
  {
    hide Configure, Commands;
    ListsAfter(f, [], d, overwrites);
    assert [NoPrefixList(f.prefixList)] + [] == [NoPrefixList(f.prefixList)];
    assert [NoPrefixList(f.prefixList)][..0] == [];
  }

  lemma {:induction false} OtherListStays(cs: seq<Command>, lists: map<string, Listing>, overwrites: bool, n: string)
    requires forall i :: 0 <= i < |cs| ==> (cs[i].NoPrefixList? || cs[i].PrefixList?) ==> cs[i].name != n
    ensures ListIn(Apply(cs, lists, overwrites), n) == ListIn(lists, n)
  {
    if cs != [] { OtherListStays(cs[..|cs| - 1], lists, overwrites, n); }
  }

  /** What the candidate does not name stays: every other list, every other route map and every other BGP process. */
  lemma CandidateElsewhere(f: Settings, ps: seq<Prefix>, d: Device, overwrites: bool, n: string)
    ensures var after := Configure(Commands(f, ps), d, overwrites);
            && (n != f.prefixList ==> ListIn(after.lists, n) == ListIn(d.lists, n))
            && ((!UsesStaticMap(f, n) && n != f.leakMap && n != f.outMap) || n == "" || f.prefixList == "" ==>
                  MapIn(after, n) == MapIn(d, n))
            && (n != f.asn || n == "" || f.staticMap == "" ==>
                  (n in after.redistributed <==> n in d.redistributed)
                  && (n in d.redistributed ==> after.redistributed[n] == d.redistributed[n]))
  {
    hide Configure, Commands, Apply, MapIn, ListIn, StaticMapPart, LeakPart, OutPart, NoMap;
    ListsAfter(f, ps, d, overwrites);
    if n != f.prefixList { OtherListStays(ListPart(f, ps), d.lists, overwrites, n); }
    BgpAfter(f, ps, d, overwrites);
    PartMaps(f, n);
    if (!UsesStaticMap(f, n) && n != f.leakMap && n != f.outMap) || n == "" || f.prefixList == "" {
      var b, c, e := MapAfter(f, ps, d, overwrites, n);
      KeepsMap(StaticMapPart(f), b, overwrites, n);
      KeepsMap(LeakPart(f), c, overwrites, n);
      KeepsMap(OutPart(f), e, overwrites, n);
    }
  }

  lemma ListThere(name: string, ps: seq<Prefix>, lists: map<string, Listing>, overwrites: bool)
    ensures name in Apply([NoPrefixList(name)] + ListCommands(name, ps), lists, overwrites)
  {
    var cs := [NoPrefixList(name)] + ListCommands(name, ps);
    assert cs[|cs| - 1] == DenyTail(name);
  }

  /** The routes. Those the device had stay, and the candidate's are added or renewed. */
  lemma CandidateRoutes(f: Settings, ps: seq<Prefix>, d: Device, overwrites: bool, r: Prefix, a: Addr)
    requires AllRoutes(ps) && IsRoute(r) && ValidAddr(a)
    ensures var after := Configure(Commands(f, ps), d, overwrites);
            && after.routes == d.routes + Asked(f, ps)
            && (IsStatic(after, r) <==> IsStatic(d, r) || (f.nextHop != "" && r in ps))
    ensures AllBlocks(ps)
    ensures Routed(Configure(Commands(f, ps), d, overwrites), a) <==>
            Routed(d, a) || (f.nextHop != "" && Covered(ps, a))
  {
    hide *;
    RoutesAfter(f, ps, d, overwrites);
    AskedStatic(f, ps, d, Configure(Commands(f, ps), d, overwrites), r);
    AskedRouted(f, ps, d, Configure(Commands(f, ps), d, overwrites), a);
  }

  lemma RoutesAfter(f: Settings, ps: seq<Prefix>, d: Device, overwrites: bool)
    ensures Configure(Commands(f, ps), d, overwrites).routes == d.routes + Asked(f, ps)
  {
    hide Configure, ListPart, StaticMapPart, LeakPart, OutPart, BgpPart, NoList, NoRoute, NoMap, NoBgp, Commands;
    var a, b, c, e, g := InParts(f, ps, d, overwrites);
    PartKinds(f, ps);
    KeepsRoutes(ListPart(f, ps), d, overwrites);
    if f.nextHop != "" {
      RoutesLand(f, ps, a, overwrites);
    } else {
      assert b == a by { NothingDone(a, overwrites); }
    }
    KeepsRoutes(StaticMapPart(f), b, overwrites);
    KeepsRoutes(LeakPart(f), c, overwrites);
    KeepsRoutes(OutPart(f), e, overwrites);
    KeepsRoutes(BgpPart(f), g, overwrites);
  }

  lemma NothingDone(d: Device, overwrites: bool)
    ensures Configure([], d, overwrites) == d
  {
  }

  /** A positive number of the operator's, or the default. */
  lemma Numbers(f: Settings)
    ensures OrDefault(f.denySeq, DENY_SEQ) == if f.denySeq <= 0 then 9999 else f.denySeq
    ensures OrDefault(f.outSeq, STATIC_SEQ) == if f.outSeq <= 0 then 10 else f.outSeq
    ensures OrDefault(f.leakSeq, LEAK_SEQ) == if f.leakSeq <= 0 then 20 else f.leakSeq
    ensures OrDefault(STATIC_SEQ, STATIC_SEQ) == 10
  {
  }

  function Deny(f: Settings): nat {
    if f.denySeq <= 0 then 9999 else f.denySeq
  }

  function OutPermit(f: Settings): nat {
    if f.outSeq <= 0 then 10 else f.outSeq
  }

  function LeakPermit(f: Settings): nat {
    if f.leakSeq <= 0 then 20 else f.leakSeq
  }

  /** The map for static routes and BGP. */
  lemma CandidateMaps(f: Settings, ps: seq<Prefix>, d: Device, overwrites: bool)
    requires f.asn != "" && f.staticMap != "" && f.prefixList != "" && f.staticMap != f.leakMap && f.staticMap != f.outMap
    requires TidyMap(d, f.staticMap, f.prefixList, 10, Deny(f))
    ensures var after := Configure(Commands(f, ps), d, overwrites);
            && f.asn in after.redistributed && after.redistributed[f.asn] == f.staticMap
            && TwoEntries(MapIn(after, f.staticMap), f.prefixList, 10, Deny(f))
  {
    hide Configure, LeakPart, OutPart, NoMap, Commands, MapIn, RouteMapOf, OrDefault, Enter, TwoEntries;
    Numbers(f);
    BgpAfter(f, ps, d, overwrites);
    PartMaps(f, f.staticMap);
    var b, c, e := MapAfter(f, ps, d, overwrites, f.staticMap);
    MapEntered(f.staticMap, f.prefixList, STATIC_SEQ, f.denySeq, b, overwrites);
    EntersTwo(MapIn(b, f.staticMap), f.prefixList, 10, Deny(f));
    KeepsMap(LeakPart(f), c, overwrites, f.staticMap);
    KeepsMap(OutPart(f), e, overwrites, f.staticMap);
  }

  lemma EntriesTidy(d: Device, name: string, list: string, permit: nat, deny: nat)
    requires TwoEntries(MapIn(d, name), list, permit, deny)
    ensures TidyMap(d, name, list, permit, deny)
  {
  }

  /**
    What the device lets into BGP. In replace mode, on a device in any state whose map for static
    routes holds nothing of somebody else's, the static routes let out are those of the first 99,999
    prefixes, and none if the deny entry is numbered up to the permit, which has number 10.
    */
  lemma CandidateLetsOut(f: Settings, ps: seq<Prefix>, d: Device, overwrites: bool, r: Prefix)
    requires f.replace && f.prefixList != "" && ps != [] && AllRoutes(ps) && IsRoute(r)
    requires f.asn != "" && f.staticMap != "" && f.staticMap != f.leakMap && f.staticMap != f.outMap
    requires TidyMap(d, f.staticMap, f.prefixList, 10, Deny(f))
    ensures var after := Configure(Commands(f, ps), d, overwrites);
            && TidyMap(after, f.staticMap, f.prefixList, 10, Deny(f))
            && (LetOut(after, f.asn, r) <==> r in Heard(ps) && (f.nextHop != "" || IsStatic(d, r)) && Deny(f) > 10)
  {
    hide Configure, Commands, MapIn, IsStatic, MapPermits, Permits, IsRoute, AllRoutes, TidyMap, TwoEntries, Asked;
    var after := Configure(Commands(f, ps), d, overwrites);
    CandidateList(f, ps, d, overwrites, r);
    RoutesAfter(f, ps, d, overwrites);
    AskedStatic(f, ps, d, after, r);
    CandidateMaps(f, ps, d, overwrites);
    EntriesTidy(after, f.staticMap, f.prefixList, 10, Deny(f));
    MapMeaning(after, f.staticMap, f.prefixList, 10, Deny(f), r);
  }

  /**
    The entries of the outbound map, on a device in any state: the permit at its number, 10 by
    default, which matches the list beside what it matched before; the deny at its own, 9999 by
    default; and all others as they were.
    */
  lemma CandidateOutEntries(f: Settings, ps: seq<Prefix>, d: Device, overwrites: bool)
    requires f.prefixList != "" && f.outMap != "" && f.outMap != f.leakMap && !UsesStaticMap(f, f.outMap)
    ensures var m, m' := MapIn(d, f.outMap), MapIn(Configure(Commands(f, ps), d, overwrites), f.outMap);
            var permit, deny := OutPermit(f), Deny(f);
            && m'.Keys == m.Keys + {permit, deny} && !m'[deny].permit
            && (permit != deny ==>
                  && m'[permit] == Clause(true, (if permit in m then m[permit].on else {}) + {f.prefixList})
                  && m'[deny].on == if deny in m then m[deny].on else {})
            && forall s :: s in m && s != permit && s != deny ==> m'[s] == m[s]
  {
    hide Configure, StaticMapPart, LeakPart, NoMap, Commands, MapIn, RouteMapOf, OrDefault;
    Numbers(f);
    PartMaps(f, f.outMap);
    var b, c, e := MapAfter(f, ps, d, overwrites, f.outMap);
    KeepsMap(StaticMapPart(f), b, overwrites, f.outMap);
    KeepsMap(LeakPart(f), c, overwrites, f.outMap);
    MapEntered(f.outMap, f.prefixList, f.outSeq, f.denySeq, e, overwrites);
  }

  lemma OutTwoEntries(f: Settings, ps: seq<Prefix>, d: Device, overwrites: bool)
    requires f.prefixList != "" && f.outMap != "" && f.outMap != f.leakMap && !UsesStaticMap(f, f.outMap)
    requires TidyMap(d, f.outMap, f.prefixList, OutPermit(f), Deny(f))
    ensures TwoEntries(MapIn(Configure(Commands(f, ps), d, overwrites), f.outMap), f.prefixList, OutPermit(f), Deny(f))
  {
    hide Configure, StaticMapPart, LeakPart, NoMap, Commands, MapIn, RouteMapOf, OrDefault, Enter, TwoEntries;
    Numbers(f);
    PartMaps(f, f.outMap);
    var b, c, e := MapAfter(f, ps, d, overwrites, f.outMap);
    KeepsMap(StaticMapPart(f), b, overwrites, f.outMap);
    KeepsMap(LeakPart(f), c, overwrites, f.outMap);
    MapEntered(f.outMap, f.prefixList, f.outSeq, f.denySeq, e, overwrites);
    EntersTwo(MapIn(e, f.outMap), f.prefixList, OutPermit(f), Deny(f));
  }

  /**
    The outbound policy. In replace mode, on a device in any state whose outbound map holds nothing of
    somebody else's, the map lets through exactly the first 99,999 prefixes if its permit is numbered
    below its deny, and no route otherwise.
    */
  lemma CandidateOutbound(f: Settings, ps: seq<Prefix>, d: Device, overwrites: bool, r: Prefix)
    requires f.replace && f.prefixList != "" && ps != [] && IsRoute(r)
    requires f.outMap != "" && f.outMap != f.leakMap && !UsesStaticMap(f, f.outMap)
    requires TidyMap(d, f.outMap, f.prefixList, OutPermit(f), Deny(f))
    ensures var after := Configure(Commands(f, ps), d, overwrites);
            && TidyMap(after, f.outMap, f.prefixList, OutPermit(f), Deny(f))
            && (MapPermits(after, f.outMap, r) <==> OutPermit(f) < Deny(f) && r in Heard(ps))
  {
    hide Configure, Commands, MapIn, MapPermits, Permits, IsRoute, TidyMap, TwoEntries, UsesStaticMap;
    var after := Configure(Commands(f, ps), d, overwrites);
    CandidateList(f, ps, d, overwrites, r);
    OutTwoEntries(f, ps, d, overwrites);
    EntriesTidy(after, f.outMap, f.prefixList, OutPermit(f), Deny(f));
    MapMeaning(after, f.outMap, f.prefixList, OutPermit(f), Deny(f), r);
  }

  /** The leak into a VRF: likewise, with one entry, a permit numbered 20 by default, and so never none. */
  lemma CandidateLeak(f: Settings, ps: seq<Prefix>, d: Device, overwrites: bool, r: Prefix)
    requires f.replace && f.prefixList != "" && ps != [] && IsRoute(r)
    requires f.leakMap != "" && f.leakMap != f.outMap && !UsesStaticMap(f, f.leakMap)
    requires TidyMap(d, f.leakMap, f.prefixList, LeakPermit(f), LeakPermit(f))
    ensures var after := Configure(Commands(f, ps), d, overwrites);
            && MapIn(after, f.leakMap) == map[LeakPermit(f) := Clause(true, {f.prefixList})]
            && (MapPermits(after, f.leakMap, r) <==> r in Heard(ps))
  {
    hide Configure, StaticMapPart, OutPart, NoMap, Commands, MapIn, RouteMapPermit, OrDefault, Permits, MapPermits;
    hide IsRoute;
    Numbers(f);
    PartMaps(f, f.leakMap);
    var after := Configure(Commands(f, ps), d, overwrites);
    CandidateList(f, ps, d, overwrites, r);
    var b, c, e := MapAfter(f, ps, d, overwrites, f.leakMap);
    KeepsMap(StaticMapPart(f), b, overwrites, f.leakMap);
    PermitEntered(f.leakMap, f.prefixList, f.leakSeq, c, overwrites);
    EntersOne(MapIn(c, f.leakMap), f.prefixList, LeakPermit(f));
    KeepsMap(OutPart(f), e, overwrites, f.leakMap);
    OneMeaning(after, f.leakMap, f.prefixList, LeakPermit(f), r);
  }

  lemma EntersOne(m: Clauses, list: string, permit: nat)
    requires forall s :: s in m ==> s == permit && m[s].on <= {list}
    ensures Enter(m, permit, true, Some(list)) == map[permit := Clause(true, {list})]
  {
    var m' := Enter(m, permit, true, Some(list));
    assert m'.Keys == {permit} && m'[permit].on == {list};
    assert m' == map[permit := Clause(true, {list})];
  }

  /**
    Two feeds one after the other. The candidate takes no route back, so the static routes of the
    earlier feed stay on the device; but BGP is let have those of the new feed alone.
    */
  lemma EarlierRoutesStay(f: Settings, earlier: seq<Prefix>, ps: seq<Prefix>, d: Device, overwrites: bool, r: Prefix)
    requires f.replace && f.prefixList != "" && earlier != [] && ps != [] && AllRoutes(earlier) && AllRoutes(ps) && IsRoute(r)
    requires f.asn != "" && f.staticMap != "" && f.staticMap != f.leakMap && f.staticMap != f.outMap
    requires TidyMap(d, f.staticMap, f.prefixList, 10, Deny(f)) && f.nextHop != "" && Deny(f) > 10
    ensures var after := Configure(Commands(f, ps), Configure(Commands(f, earlier), d, overwrites), overwrites);
            && (IsStatic(after, r) <==> IsStatic(d, r) || r in earlier || r in ps)
            && (LetOut(after, f.asn, r) <==> r in Heard(ps))
  {
    hide Configure, Commands, IsStatic, IsRoute, AllRoutes, TidyMap, Asked, LetOut, Heard;
    var d' := Configure(Commands(f, earlier), d, overwrites);
    RoutesAfter(f, earlier, d, overwrites);
    AskedStatic(f, earlier, d, d', r);
    CandidateLetsOut(f, earlier, d, overwrites, r);
    RoutesAfter(f, ps, d', overwrites);
    AskedStatic(f, ps, d', Configure(Commands(f, ps), d', overwrites), r);
    CandidateLetsOut(f, ps, d', overwrites, r);
  }

  lemma Assembled(f: Settings, ps: seq<Prefix>, no: seq<Command>, l: seq<Command>, r: seq<Command>)
    requires no + l == ListPart(f, ps) && r == RoutePart(f, ps)
    ensures no + (l + r + StaticMapPart(f) + LeakPart(f) + OutPart(f) + BgpPart(f)) == Commands(f, ps)
  {
    hide ListPart, RoutePart, StaticMapPart, LeakPart, OutPart, BgpPart;
    var m, n, o, g := StaticMapPart(f), LeakPart(f), OutPart(f), BgpPart(f);
    assert no + (l + r + m + n + o + g) == no + l + r + m + n + o + g;
  }

  /** target.go:143-167. */
  method RenderCandidate(f: Settings, prefixes: seq<Prefix>) returns (out: seq<Command>)
    requires AllRoutes(prefixes)
    ensures out == Commands(f, prefixes)
  {
    hide AllRoutes, StaticRoutes, Numbered, RouteMapOf, RouteMapPermit, BgpOf, StaticMap, Commands;
    V4OnlyAll(prefixes);
    var staticMap := StaticMap(f);
    var list := RenderPrefixList(f.prefixList, prefixes, DEFAULT_STEP);
    var routes := RenderStaticRoutes(prefixes, f.nextHop, f.routeName, f.tag);
    var redistribute := RouteMapOf(staticMap, f.prefixList, STATIC_SEQ, f.denySeq);
    var leak := RouteMapPermit(f.leakMap, f.prefixList, f.leakSeq);
    var send := RouteMapOf(f.outMap, f.prefixList, f.outSeq, f.denySeq);
    var bgp := BgpOf(f.asn, staticMap);
    var no := if f.replace && f.prefixList != "" then [NoPrefixList(f.prefixList)] else [];
    Assembled(f, prefixes, no, list, routes);
    out := no + (list + routes + redistribute + leak + send + bgp);
  }
}
