/** The IOS XE target: prefix lists and static routes, and what they mean on a device. */
module Iosxe {
  import opened Arith
  import opened Bits
  import opened Cidr
  import opened Dotted

  const DEFAULT_STEP := 10
  const DENY_TAIL := 999999

  /** A prefix-list condition: just this prefix, or anything in it up to a length. */
  datatype Match = Exact(p: Prefix) | UpTo(p: Prefix, le: nat)

  datatype Entry = Entry(permit: bool, on: Match)

  datatype Command =
    | NoPrefixList(name: string)
    | PrefixList(name: string, at: nat, entry: Entry)
    | Route(dest: nat, mask: Octets, hop: string, tag: int, routeName: string)
    | RouteMap(name: string, permit: bool, at: nat, on: Option<string>)
    | Redistribute(asn: string, routeMap: string)

  // ---- prefix lists on the device ----

  /** One list: entries by sequence number. */
  type Listing = map<nat, Entry>

  predicate Matches(m: Match, r: Prefix) {
    match m
    case Exact(p) => r == p
    case UpTo(p, le) => IsBlock(p) && IsBlock(r) && Inside(r, p) && p.bits <= r.bits <= le
  }

  /** The matching entry with the lowest number decides; without one the route is denied. */
  ghost predicate Permits(l: Listing, r: Prefix) {
    exists s :: Decides(l, r, s) && l[s].permit
  }

  predicate Decides(l: Listing, r: Prefix, s: nat) {
    s in l && Matches(l[s].on, r) && forall t :: t in l && t < s ==> !Matches(l[t].on, r)
  }

  /**
    What a command does to the lists. An entry whose number is taken replaces the one there, or is
    refused, depending on the software: `overwrites`.
    */
  function Do(c: Command, lists: map<string, Listing>, overwrites: bool): map<string, Listing> {
    match c
    case NoPrefixList(n) => lists - {n}
    case PrefixList(n, at, e) =>
      var l := if n in lists then lists[n] else map[];
      if at in l && !overwrites then lists else lists[n := l[at := e]]
    case _ => lists
  }

  function Apply(cs: seq<Command>, lists: map<string, Listing>, overwrites: bool): map<string, Listing> {
    if cs == [] then lists else Do(cs[|cs| - 1], Apply(cs[..|cs| - 1], lists, overwrites), overwrites)
  }

  lemma {:induction false} ApplyConcat(a: seq<Command>, b: seq<Command>, lists: map<string, Listing>, overwrites: bool)
    ensures Apply(a + b, lists, overwrites) == Apply(b, Apply(a, lists, overwrites), overwrites)
  {
    if b == [] {
      assert a + b == a;
    } else {
      assert (a + b)[..|a + b| - 1] == a + b[..|b| - 1];
      ApplyConcat(a, b[..|b| - 1], lists, overwrites);
    }
  }

  // ---- rendering a prefix list ----

  /** The permit entries, numbered by `step`. */
  function Numbered(name: string, ps: seq<Prefix>, step: nat): seq<Command> {
    seq(|ps|, i requires 0 <= i < |ps| => PrefixList(name, (i + 1) * step, Entry(true, Exact(ps[i]))))
  }

  function DenyTail(name: string): Command {
    PrefixList(name, DENY_TAIL, Entry(false, UpTo(Prefix(V4, 0, 0), 32)))
  }

  /** target.go:43-58. */
  method RenderPrefixList(name: string, prefixes: seq<Prefix>, seqStep: int) returns (out: seq<Command>)
    ensures out == if prefixes == [] then []
                   else Numbered(name, prefixes, if seqStep <= 0 then DEFAULT_STEP else seqStep) + [DenyTail(name)]
    ensures prefixes != [] ==>
              && |out| == |prefixes| + 1
              && out[|prefixes|] == PrefixList(name, 999999, Entry(false, UpTo(Prefix(V4, 0, 0), 32)))
              && forall i :: 0 <= i < |prefixes| ==>
                   out[i] == PrefixList(name, (i + 1) * (if seqStep <= 0 then 10 else seqStep), Entry(true, Exact(prefixes[i])))
  {
    if |prefixes| == 0 {
      return [];
    }
    var step := seqStep;
    if seqStep <= 0 {
      step := DEFAULT_STEP;
    }
    out := [];
    for i := 0 to |prefixes|
      invariant out == Numbered(name, prefixes[..i], step)
    {
      out := out + [PrefixList(name, (i + 1) * step, Entry(true, Exact(prefixes[i])))];
      assert prefixes[..i + 1][..i] == prefixes[..i];
    }
    assert prefixes[..|prefixes|] == prefixes;
    out := out + [PrefixList(name, DENY_TAIL, Entry(false, UpTo(Prefix(V4, 0, 0), 32)))];
  }

  // ---- what the rendered list means ----

  /** The number of one of the first `n` permits. */
  predicate IsSlot(s: nat, n: nat) {
    s % DEFAULT_STEP == 0 && 1 <= s / DEFAULT_STEP <= n
  }

  /** `l` is `l0` with the slots of `ps` written over it, or only the free ones. */
  predicate SlotWritten(l: Listing, l0: Listing, ps: seq<Prefix>, overwrites: bool, s: nat) {
    if IsSlot(s, |ps|) && (overwrites || s !in l0) then s in l && l[s] == Entry(true, Exact(ps[s / DEFAULT_STEP - 1]))
    else (s in l <==> s in l0) && (s in l ==> l[s] == l0[s])
  }

  ghost predicate Written(l: Listing, l0: Listing, ps: seq<Prefix>, overwrites: bool) {
    forall s: nat :: SlotWritten(l, l0, ps, overwrites, s)
  }

  function ListIn(lists: map<string, Listing>, name: string): Listing {
    if name in lists then lists[name] else map[]
  }

  /** The numbered permits land in their slots, whatever the list held. */
  lemma {:induction false} PermitsLand(name: string, ps: seq<Prefix>, lists: map<string, Listing>, overwrites: bool)
    ensures Written(ListIn(Apply(Numbered(name, ps, DEFAULT_STEP), lists, overwrites), name), ListIn(lists, name), ps, overwrites)
  {
    hide ListIn, Do, SlotWritten;
    var cs, l0 := Numbered(name, ps, DEFAULT_STEP), ListIn(lists, name);
    if ps == [] {
      Untouched(l0, overwrites);
    } else {
      var n, front := |ps|, ps[..|ps| - 1];
      assert cs[..n - 1] == Numbered(name, front, DEFAULT_STEP);
      PermitsLand(name, front, lists, overwrites);
      var before := ListIn(Apply(cs[..n - 1], lists, overwrites), name);
      var after := ListIn(Apply(cs, lists, overwrites), name);
      EntryLands(name, ps, Apply(cs[..n - 1], lists, overwrites), overwrites);
      assert cs[n - 1] == PrefixList(name, n * DEFAULT_STEP, Entry(true, Exact(ps[n - 1])));
      forall s: nat ensures SlotWritten(after, l0, ps, overwrites, s) {
        SlotAfter(before, after, l0, ps, overwrites, s);
      }
    }
  }

  lemma Untouched(l: Listing, overwrites: bool)
    ensures Written(l, l, [], overwrites)
  {
  }

  /** Entering the permit of the last slot. */
  lemma EntryLands(name: string, ps: seq<Prefix>, lists: map<string, Listing>, overwrites: bool)
    requires ps != []
    ensures var at, e := |ps| * DEFAULT_STEP, Entry(true, Exact(ps[|ps| - 1])); var l := ListIn(lists, name);
            ListIn(Do(PrefixList(name, at, e), lists, overwrites), name) == if at in l && !overwrites then l else l[at := e]
  {
  }

  lemma SlotAfter(before: Listing, after: Listing, l0: Listing, ps: seq<Prefix>, overwrites: bool, s: nat)
    requires ps != [] && Written(before, l0, ps[..|ps| - 1], overwrites)
    requires var at := |ps| * DEFAULT_STEP;
             after == if at in before && !overwrites then before else before[at := Entry(true, Exact(ps[|ps| - 1]))]
    ensures SlotWritten(after, l0, ps, overwrites, s)
  {
    assert SlotWritten(before, l0, ps[..|ps| - 1], overwrites, s);
    assert SlotWritten(before, l0, ps[..|ps| - 1], overwrites, |ps| * DEFAULT_STEP);
  }

  function FirstAt(ps: seq<Prefix>, r: Prefix): (i: nat)
    requires r in ps
    ensures i < |ps| && ps[i] == r && forall j :: 0 <= j < i ==> ps[j] != r
  {
    if ps[0] == r then 0 else 1 + FirstAt(ps[1..], r)
  }

  /** IPv4 routes are what `0.0.0.0/0 le 32` matches. */
  predicate IsRoute(r: Prefix) {
    IsBlock(r) && r.fam.V4?
  }

  lemma TailMatches(r: Prefix)
    requires IsRoute(r)
    ensures Matches(UpTo(Prefix(V4, 0, 0), 32), r)
  {
    AlignedZero(32);
    BlockFits(r);
  }

  /** Only permits below the deny tail, and the tail. */
  predicate Ended(l: Listing) {
    && DENY_TAIL in l && l[DENY_TAIL] == DenyTail("").entry
    && forall s :: s in l && s < DENY_TAIL ==> l[s].permit
  }

  /** `r` has an entry below the deny tail. */
  predicate Named(l: Listing, r: Prefix, s: nat) {
    s < DENY_TAIL && s in l && Matches(l[s].on, r)
  }

  lemma {:induction false} FirstDecides(l: Listing, r: Prefix, s: nat)
    requires Named(l, r, s)
    ensures exists t: nat :: t <= s && Decides(l, r, t)
  {
    if exists t: nat :: t < s && Named(l, r, t) {
      var t: nat :| t < s && Named(l, r, t);
      FirstDecides(l, r, t);
    } else {
      forall t | t in l && t < s ensures !Matches(l[t].on, r) {
        assert !Named(l, r, t);
      }
      assert Decides(l, r, s);
    }
  }

  /** A list that ends so permits exactly the routes with an entry below the tail. */
  lemma EndedMeaning(l: Listing, r: Prefix)
    requires Ended(l) && IsRoute(r)
    ensures Permits(l, r) <==> exists s :: Named(l, r, s)
  {
    hide IsRoute, Matches, Ended, Named;
    if exists s :: Named(l, r, s) {
      var s :| Named(l, r, s);
      FirstDecides(l, r, s);
      var t: nat :| t <= s && Decides(l, r, t);
      EarlyPermits(l, r, s, t);
    }
    if Permits(l, r) {
      var s :| Decides(l, r, s) && l[s].permit;
      PermitNames(l, r, s);
    }
  }

  lemma EarlyPermits(l: Listing, r: Prefix, s: nat, t: nat)
    requires Ended(l) && Named(l, r, s) && t <= s && Decides(l, r, t)
    ensures t in l && l[t].permit
  {
    hide Matches;
  }

  lemma PermitNames(l: Listing, r: Prefix, s: nat)
    requires Ended(l) && IsRoute(r) && Decides(l, r, s) && l[s].permit
    ensures Named(l, r, s)
  {
    hide IsRoute, Matches;
    TailMatches(r);
  }

  /** What the list holds after the permits and the tail are entered into one that is empty or already ends so. */
  lemma Entered(name: string, ps: seq<Prefix>, lists: map<string, Listing>, overwrites: bool)
    requires ListIn(lists, name) == map[] || Ended(ListIn(lists, name))
    ensures var l := ListIn(Apply(Numbered(name, ps, DEFAULT_STEP) + [DenyTail(name)], lists, overwrites), name);
            && Ended(l)
            && forall s: nat :: s < DENY_TAIL ==> SlotWritten(l, ListIn(lists, name), ps, overwrites, s)
  {
    var permits, l0 := Numbered(name, ps, DEFAULT_STEP), ListIn(lists, name);
    assert (permits + [DenyTail(name)])[..|ps|] == permits;
    PermitsLand(name, ps, lists, overwrites);
    var base := ListIn(Apply(permits, lists, overwrites), name);
    var l := ListIn(Apply(permits + [DenyTail(name)], lists, overwrites), name);
    assert SlotWritten(base, l0, ps, overwrites, DENY_TAIL);
    forall s: nat | s < DENY_TAIL ensures SlotWritten(l, l0, ps, overwrites, s) {
      assert SlotWritten(base, l0, ps, overwrites, s);
    }
    forall s | s in l && s < DENY_TAIL ensures l[s].permit {
      assert SlotWritten(l, l0, ps, overwrites, s);
    }
  }

  /** The permits that stand before the deny tail: the first 99,999. */
  function Heard(ps: seq<Prefix>): seq<Prefix> {
    if |ps| <= 99_999 then ps else ps[..99_999]
  }

  function Beyond(ps: seq<Prefix>, n: nat): seq<Prefix> {
    if |ps| <= n then [] else ps[n..]
  }

  /** Slots of `ps` from slot `n` on, below the tail. */
  lemma NamedAt(ps: seq<Prefix>, n: nat, r: Prefix)
    ensures r in Beyond(Heard(ps), n) <==>
            exists s: nat :: s < DENY_TAIL && IsSlot(s, |ps|) && s / DEFAULT_STEP > n && ps[s / DEFAULT_STEP - 1] == r
  {
    var qs := Beyond(Heard(ps), n);
    if r in qs {
      var i := FirstAt(qs, r);
      var s := (n + i + 1) * DEFAULT_STEP;
      assert IsSlot(s, |ps|) && s / DEFAULT_STEP > n && ps[s / DEFAULT_STEP - 1] == r;
    }
    if exists s: nat :: s < DENY_TAIL && IsSlot(s, |ps|) && s / DEFAULT_STEP > n && ps[s / DEFAULT_STEP - 1] == r {
      var s: nat :| s < DENY_TAIL && IsSlot(s, |ps|) && s / DEFAULT_STEP > n && ps[s / DEFAULT_STEP - 1] == r;
      assert qs[s / DEFAULT_STEP - 1 - n] == r;
    }
  }

  /** The commands of one list. */
  function ListCommands(name: string, ps: seq<Prefix>): seq<Command> {
    Numbered(name, ps, DEFAULT_STEP) + [DenyTail(name)]
  }

  /** Below the tail `l` holds the permits of `w`, and those of `v` in the slots beyond. */
  predicate Layered(l: Listing, w: seq<Prefix>, v: seq<Prefix>, s: nat) {
    if IsSlot(s, |w|) then s in l && l[s] == Entry(true, Exact(w[s / DEFAULT_STEP - 1]))
    else if IsSlot(s, |v|) then s in l && l[s] == Entry(true, Exact(v[s / DEFAULT_STEP - 1]))
    else s !in l
  }

  lemma LayeredNames(l: Listing, w: seq<Prefix>, v: seq<Prefix>, r: Prefix)
    requires forall s: nat :: s < DENY_TAIL ==> Layered(l, w, v, s)
    ensures (exists s :: Named(l, r, s)) <==> r in Heard(w) || r in Beyond(Heard(v), |w|)
  {
    hide Heard, Beyond;
    NamedAt(w, 0, r);
    NamedAt(v, |w|, r);
    assert Beyond(Heard(w), 0) == Heard(w) by { NothingSkipped(Heard(w)); }
    if exists s :: Named(l, r, s) {
      var s :| Named(l, r, s);
      assert Layered(l, w, v, s);
    }
    if r in Heard(w) {
      var s: nat :| s < DENY_TAIL && IsSlot(s, |w|) && s / DEFAULT_STEP > 0 && w[s / DEFAULT_STEP - 1] == r;
      assert Layered(l, w, v, s);
      assert Named(l, r, s);
    }
    if r in Beyond(Heard(v), |w|) {
      var s: nat :| s < DENY_TAIL && IsSlot(s, |v|) && s / DEFAULT_STEP > |w| && v[s / DEFAULT_STEP - 1] == r;
      assert Layered(l, w, v, s);
      assert Named(l, r, s);
    }
  }

  lemma NothingSkipped(ps: seq<Prefix>)
    ensures Beyond(ps, 0) == ps
  {
  }

  /**
    The prefix list in replace mode. Whatever the device held, after the candidate the list permits
    exactly the first 99,999 prefixes: the later ones stand behind the deny tail.
    */
  lemma ReplacedMeaning(name: string, ps: seq<Prefix>, lists: map<string, Listing>, overwrites: bool, r: Prefix)
    requires IsRoute(r)
    ensures Permits(ListIn(Apply([NoPrefixList(name)] + ListCommands(name, ps), lists, overwrites), name), r) <==>
            r in Heard(ps)
  {
    hide Permits, Heard, Ended, Written;
    var no, cs := [NoPrefixList(name)], ListCommands(name, ps);
    var empty := Apply(no, lists, overwrites);
    assert no[..0] == [] && ListIn(empty, name) == map[];
    ApplyConcat(no, cs, lists, overwrites);
    Entered(name, ps, empty, overwrites);
    var l := ListIn(Apply(cs, empty, overwrites), name);
    EndedMeaning(l, r);
    forall s: nat | s < DENY_TAIL ensures Layered(l, ps, [], s) {
      assert SlotWritten(l, map[], ps, overwrites, s);
    }
    LayeredNames(l, ps, [], r);
    assert Beyond(Heard([]), |ps|) == [] by { NothingHeard(|ps|); }
  }

  lemma NothingHeard(n: nat)
    ensures Beyond(Heard([]), n) == []
  {
  }

  /** So on the device a list without repeats means exactly itself if and only if it has at most 99,999 entries. */
  lemma ExactUpTo(name: string, ps: seq<Prefix>, lists: map<string, Listing>, overwrites: bool)
    requires forall i :: 0 <= i < |ps| ==> IsRoute(ps[i])
    requires forall i, j :: 0 <= i < j < |ps| ==> ps[i] != ps[j]
    ensures var l := ListIn(Apply([NoPrefixList(name)] + ListCommands(name, ps), lists, overwrites), name);
            (forall r :: IsRoute(r) ==> (Permits(l, r) <==> r in ps)) <==> |ps| <= 99_999
  {
    hide Permits, IsRoute, ListCommands, ListIn, Apply;
    var l := ListIn(Apply([NoPrefixList(name)] + ListCommands(name, ps), lists, overwrites), name);
    forall r | IsRoute(r) ensures Permits(l, r) <==> r in Heard(ps) {
      ReplacedMeaning(name, ps, lists, overwrites, r);
    }
    if |ps| > 99_999 {
      assert IsRoute(ps[99_999]) && ps[99_999] in ps && ps[99_999] !in Heard(ps);
    }
  }

  /**
    Without replace mode an earlier feed shows through. Where entering a taken number replaces the
    entry, what the device permits is the new list and the earlier entries beyond its length; where
    it is refused, the earlier list and the new entries beyond that one's length.
    */
  lemma EarlierShowsThrough(name: string, earlier: seq<Prefix>, ps: seq<Prefix>, lists: map<string, Listing>,
                            overwrites: bool, r: Prefix)
    requires name !in lists && IsRoute(r)
    ensures var l := ListIn(Apply(ListCommands(name, ps), Apply(ListCommands(name, earlier), lists, overwrites), overwrites), name);
            Permits(l, r) <==> if overwrites then r in Heard(ps) || r in Beyond(Heard(earlier), |ps|)
                               else r in Heard(earlier) || r in Beyond(Heard(ps), |earlier|)
  {
    hide Permits, Heard, Ended, Written, IsRoute, Apply, Beyond;
    var lists' := Apply(ListCommands(name, earlier), lists, overwrites);
    Entered(name, earlier, lists, overwrites);
    Entered(name, ps, lists', overwrites);
    var l0, l := ListIn(lists', name), ListIn(Apply(ListCommands(name, ps), lists', overwrites), name);
    EndedMeaning(l, r);
    var w, v := if overwrites then ps else earlier, if overwrites then earlier else ps;
    forall s: nat | s < DENY_TAIL ensures Layered(l, w, v, s) {
      assert SlotWritten(l0, map[], earlier, overwrites, s);
      assert SlotWritten(l, l0, ps, overwrites, s);
    }
    LayeredNames(l, w, v, r);
  }

  // ---- static routes ----

  /** `x & 0xff` */
  function LowByte(x: nat): nat {
    And(x, 0xff)
  }

  /** `uint32(0xffffffff) << k` */
  function ShiftedOnes(k: nat): nat {
    0xffff_ffff * Pow2(k) % 0x1_0000_0000
  }

  /** target.go:126-141. */
  function MaskDotted(bits: int): Octets {
    if bits <= 0 then Octets(0, 0, 0, 0)
    else if bits >= 32 then Octets(255, 255, 255, 255)
    else
      var mask := ShiftedOnes(32 - bits);
      Octets(LowByte(mask / 0x100_0000), LowByte(mask / 0x1_0000), LowByte(mask / 0x100), LowByte(mask))
  }

  /** Four low bits of a mask ending in ones. */
  lemma NibbleOff(x: nat, m: nat)
    ensures And(x, 16 * m + 15) == 16 * And(x / 16, m) + x % 16
  {
    hide And;
    AndOdd(x, 8 * m + 7);
    AndOdd(x / 2, 4 * m + 3);
    AndOdd(x / 4, 2 * m + 1);
    AndOdd(x / 8, m);
    assert x / 2 / 2 == x / 4 && x / 4 / 2 == x / 8 && x / 8 / 2 == x / 16;
  }

  lemma LowByteIs(x: nat)
    ensures LowByte(x) == x % 0x100
  {
    hide And;
    NibbleOff(x, 15);
    NibbleOff(x / 16, 0);
    AndNothing(x / 16 / 16);
    TwoNibbles(x);
  }

  lemma TwoNibbles(x: nat)
    ensures x % 0x100 == 16 * (x / 16 % 16) + x % 16
  {
    var q := x / 16;
    assert x == 16 * q + x % 16 && q == 16 * (q / 16) + q % 16;
    assert x == 0x100 * (q / 16) + (16 * (q % 16) + x % 16);
  }

  lemma AndNothing(x: nat)
    ensures And(x, 0) == 0
  {
  }

  /** The shift drops the top bits: 2^32 - 2^k. */
  lemma ShiftedOnesIs(k: nat)
    requires 0 < k < 32
    ensures ShiftedOnes(k) == 0x1_0000_0000 - Pow2(k)
  {
    hide Pow2;
    Pow2At32();
    Pow2Mono(k, 32);
    WrappedProduct(Pow2(k));
  }

  lemma WrappedProduct(x: nat)
    requires 0 < x < 0x1_0000_0000
    ensures 0xffff_ffff * x % 0x1_0000_0000 == 0x1_0000_0000 - x
  {
    assert 0xffff_ffff * x == 0x1_0000_0000 * (x - 1) + (0x1_0000_0000 - x);
  }

  lemma MaskBytes(bits: nat)
    requires 0 < bits < 32
    ensures var m := ShiftedOnes(32 - bits);
            MaskDotted(bits) == OctetsOf(m)
  {
    hide ShiftedOnes, LowByte;
    var m := ShiftedOnes(32 - bits);
    LowByteIs(m / 0x100_0000);
    LowByteIs(m / 0x1_0000);
    LowByteIs(m / 0x100);
    LowByteIs(m);
  }

  /** For every length in range the dotted mask reads back as 2^32 - 2^(32 - bits). */
  lemma MaskReadsBack(bits: nat)
    requires bits <= 32
    ensures Word(MaskDotted(bits)) == 0x1_0000_0000 - Pow2(32 - bits)
  {
    hide *;
    if 0 < bits < 32 {
      MaskReadsBackInside(bits);
    } else {
      Pow2At32();
      MaskEnds();
    }
  }

  lemma MaskEnds()
    ensures Word(MaskDotted(0)) == 0 && Word(MaskDotted(32)) == 0xffff_ffff && Pow2(0) == 1
  {
    hide ShiftedOnes, LowByte, Word;
    SameOctets(0);
    SameOctets(255);
  }

  lemma SameOctets(x: nat)
    ensures Word(Octets(x, x, x, x)) == 0x101_0101 * x
  {
  }

  lemma MaskReadsBackInside(bits: nat)
    requires 0 < bits < 32
    ensures Word(MaskDotted(bits)) == 0x1_0000_0000 - Pow2(32 - bits)
  {
    hide *;
    ShiftedOnesIs(32 - bits);
    MaskBytes(bits);
    OctetsAreWord(ShiftedOnes(32 - bits));
  }

  /** A device sends an address along a route when the masked address is the destination. */
  predicate RouteCovers(c: Command, a: Addr) {
    c.Route? && a.fam.V4? && And(a.val, Word(c.mask)) == c.dest
  }

  /** The addresses x with x AND mask equal to the base are exactly those of the prefix. */
  lemma MaskMeans(p: Prefix, a: Addr, hop: string, tag: int, routeName: string)
    requires IsRoute(p) && ValidAddr(a)
    ensures RouteCovers(Route(p.base, MaskDotted(p.bits), hop, tag, routeName), a) <==> Contains(p, a)
  {
    hide MaskDotted, Word, Pow2, And, ClearLow, Aligned;
    MaskReadsBack(p.bits);
    Pow2At32();
    if a.fam.V4? {
      AndLeadingOnes(a.val, 32, 32 - p.bits);
      if Contains(p, a) { ClearLowUnique(a.val, 32 - p.bits, p.base); }
    }
  }

  ghost predicate RoutesCover(cs: seq<Command>, a: Addr) {
    exists i :: 0 <= i < |cs| && RouteCovers(cs[i], a)
  }

  /** The IPv4 prefixes of a list, masked. */
  function V4Only(ps: seq<Prefix>): (r: seq<Prefix>)
    requires AllValid(ps)
    ensures AllBlocks(r)
  {
    if ps == [] then []
    else
      var l := ps[|ps| - 1];
      V4Only(ps[..|ps| - 1]) + if l.fam.V4? then [Masked(l)] else []
  }

  predicate AllValid(ps: seq<Prefix>) {
    forall i :: 0 <= i < |ps| ==> ValidPrefix(ps[i])
  }

  predicate AllRoutes(ps: seq<Prefix>) {
    forall i :: 0 <= i < |ps| ==> IsRoute(ps[i])
  }

  lemma {:induction false} V4OnlyAll(ps: seq<Prefix>)
    requires AllRoutes(ps)
    ensures AllValid(ps) && V4Only(ps) == ps
  {
    hide ValidPrefix, Aligned;
    if ps != [] {
      assert IsRoute(ps[|ps| - 1]);
      V4OnlyAll(ps[..|ps| - 1]);
      MaskedBlock(ps[|ps| - 1]);
    }
  }

  /** One route command for each prefix. A tag that is not positive is left out, which a device reads as tag 0. */
  function StaticRoutes(ps: seq<Prefix>, nextHop: string, routeName: string, tag: int): seq<Command> {
    seq(|ps|, i requires 0 <= i < |ps| =>
      Route(ps[i].base, MaskDotted(ps[i].bits), nextHop, if tag > 0 then tag else 0, routeName))
  }

  /**
    target.go:87-112. The routes cover exactly the addresses of the IPv4 prefixes; without a next
    hop there are none.
    */
  method RenderStaticRoutes(prefixes: seq<Prefix>, nextHop: string, routeName: string,
                            tag: int) returns (out: seq<Command>)
    requires AllValid(prefixes)
    ensures nextHop == "" ==> out == []
    ensures nextHop != "" ==> out == StaticRoutes(V4Only(prefixes), nextHop, routeName, tag)
    ensures nextHop != "" ==> forall a :: ValidAddr(a) ==> (RoutesCover(out, a) <==> Covered(V4Only(prefixes), a))
  {
    hide ValidPrefix, Aligned, ValidAddr, Covered, RoutesCover, RouteCovers, V4Only, MaskDotted;
    assert StaticRoutes([], nextHop, routeName, tag) == [];
    if |prefixes| == 0 || nextHop == "" {
      NoRoutes(prefixes);
      return [];
    }
    out := [];
    NoRoutes([]);
    for i := 0 to |prefixes|
      invariant out == StaticRoutes(V4Only(prefixes[..i]), nextHop, routeName, tag)
      invariant forall a :: ValidAddr(a) ==> (RoutesCover(out, a) <==> Covered(V4Only(prefixes[..i]), a))
    {
      var p := Masked(prefixes[i]);
      V4OnlySnoc(prefixes[..i], prefixes[i]);
      assert prefixes[..i + 1] == prefixes[..i] + [prefixes[i]];
      if p.fam.V4? {
        ghost var before := out;
        var c := Route(p.base, MaskDotted(prefixes[i].bits), nextHop, if tag > 0 then tag else 0, routeName);
        out := out + [c];
        forall a | ValidAddr(a) ensures RoutesCover(out, a) <==> Covered(V4Only(prefixes[..i + 1]), a) {
          MaskMeans(p, a, nextHop, c.tag, routeName);
          OneMoreRoute(before, c, a);
          CoveredConcat(V4Only(prefixes[..i]), [p], a);
          CoveredOne(p, a);
        }
      }
    }
    assert prefixes[..|prefixes|] == prefixes;
  }

  lemma NoRoutes(ps: seq<Prefix>)
    ensures forall a :: !RoutesCover([], a)
    ensures ps == [] ==> V4Only(ps) == [] && forall a :: !Covered(V4Only(ps), a)
  {
  }

  lemma V4OnlySnoc(ps: seq<Prefix>, l: Prefix)
    requires AllValid(ps) && ValidPrefix(l)
    ensures AllValid(ps + [l])
    ensures V4Only(ps + [l]) == if l.fam.V4? then V4Only(ps) + [Masked(l)] else V4Only(ps)
  {
    assert (ps + [l])[..|ps|] == ps;
  }

  lemma OneMoreRoute(cs: seq<Command>, c: Command, a: Addr)
    ensures RoutesCover(cs + [c], a) <==> RoutesCover(cs, a) || RouteCovers(c, a)
  {
    if RoutesCover(cs, a) {
      var i :| 0 <= i < |cs| && RouteCovers(cs[i], a);
      assert RouteCovers((cs + [c])[i], a);
    }
    if RouteCovers(c, a) { assert RouteCovers((cs + [c])[|cs|], a); }
  }
}
