/** One cycle of `run`, step by step, and whole runs of cycles that may fail or stop anywhere. */
module Cycle {
  import opened Cidr
  import opened Canonical
  import opened Splice
  import opened Rollback
  import opened Render
  import opened Readback
  import Feed
  import Nft

  /** A fetched feed with the operator's extras, as `run` merges them. */
  datatype Fetched = Fetched(rawV4: seq<Feed.Entry>, rawV6: seq<Feed.Entry>, extrasV4: seq<Prefix>, extrasV6: seq<Prefix>)

  predicate ValidFetched(f: Fetched) {
    Feed.AllValid(f.rawV4) && Feed.AllValid(f.rawV6) && AllBlocks(f.extrasV4) && AllBlocks(f.extrasV6)
  }

  /** The aggregated lists both planes are given. */
  datatype Lists = Lists(v4: seq<Prefix>, v6: seq<Prefix>)

  ghost predicate Aggregated(l: Lists) {
    IsCanonical(l.v4) && IsCanonical(l.v6)
  }

  function All(l: Lists): set<Prefix> {
    Nft.Elements(l.v4) + Nft.Elements(l.v6)
  }

  /** The lists aggregate the feed: same addresses, family by family. By `CanonicalUnique` there is one such pair. */
  ghost predicate Aggregates(f: Fetched, l: Lists)
    requires ValidFetched(f)
  {
    && Aggregated(l)
    && (forall a :: Covered(l.v4, a) <==> Feed.Listed(f.rawV4, a) || Covered(f.extrasV4, a))
    && (forall a :: Covered(l.v6, a) <==> Feed.Listed(f.rawV6, a) || Covered(f.extrasV6, a))
  }

  /** How `nft -f -` ends. A call that reports an error may still have committed, as when it times out. */
  datatype NftCall = NftRuns | NftFails(committed: bool)

  /** The settings of a cycle and the outcome of every call it makes. */
  datatype Input = Input(
    dryRun: bool, updateNft: bool, nft: NftCall, readable: bool, force: bool, reload: bool, faults: Faults)

  datatype Result =
    | FetchFailed
    | DryRun
    | NftFailed
    | Unreadable
    | MarkersMissing
    | Unchanged
    | Swapped(outcome: Outcome)

  datatype Report = Report(steps: seq<Host>, result: Result)

  /** `run` returned nil. */
  predicate Nil(r: Result) {
    r.DryRun? || r.Unchanged? || r == Swapped(Applied)
  }

  predicate NftOk(env: Env, st: Nft.Ruleset, l: Lists, i: Input) {
    i.updateNft ==> i.nft.NftRuns? && Nft.Replacement(st, env.setV4, env.setV6, l.v4, l.v6).Some?
  }

  function NftAfter(env: Env, st: Nft.Ruleset, l: Lists, i: Input): Nft.Ruleset {
    match Nft.Replacement(st, env.setV4, env.setV6, l.v4, l.v6)
    case Some(st') => if i.updateNft && (i.nft.NftRuns? || i.nft.committed) then st' else st
    case None => st
  }

  /** main.go:545-688. `lists` is `None` when the feed or the extras could not be had. */
  function Steps(env: Env, s: Host, lists: Option<Lists>, i: Input): (r: Report)
    ensures |r.steps| >= 1
  {
    if lists.None? then Report([s], FetchFailed)
    else if i.dryRun then Report([s], DryRun)
    else
      var l := lists.value;
      var m := s.(nft := NftAfter(env, s.nft, l, i));
      if !NftOk(env, s.nft, l, i) then Report([m], NftFailed)
      else if s.live.None? || !i.readable then Report([m], Unreadable)
      else
        var next := NextFile(env, s.live.value, l.v4, l.v6);
        if !next.Spliced? then Report([m], MarkersMissing)
        else if !i.force && next.text == s.live.value then Report([m], Unchanged)
        else
          var t := ApplySteps(env.read, m, next.text, !i.reload, i.faults);
          Report([m] + t.steps, Swapped(t.outcome))
  }

  // ---- what one cycle does to the two planes ----

  function Marked(env: Env, st: Nft.Ruleset): set<Prefix> {
    (if env.setV4 in st then st[env.setV4].elements else {}) + (if env.setV6 in st then st[env.setV6].elements else {})
  }

  ghost predicate Deployed(env: Env, s: Host) {
    GoodEnv(env) && (s.live.Some? ==> WellPlaced(env, s.live.value))
  }

  lemma MarkedAfter(env: Env, st: Nft.Ruleset, l: Lists, i: Input)
    requires GoodEnv(env) && i.updateNft && NftOk(env, st, l, i)
    ensures Marked(env, NftAfter(env, st, l, i)) == All(l)
  {
  }

  lemma AggregatedBlocks(l: Lists)
    requires Aggregated(l)
    ensures AllBlocks(l.v4) && AllBlocks(l.v6)
  {
  }

  /** What FRR gets to see of the lists in the file: all of them, if the begin markers end their lines. */
  function Listed(env: Env, s: Host, l: Lists): (r: set<Prefix>)
    requires s.live.Some?
    ensures r <= All(l) && (OwnMarkers(env, s.live.value) ==> r == All(l))
  {
    Shown(env, s.live.value, l.v4, l.v6)
  }

  /** The cycle gets as far as swapping the file. */
  predicate Swaps(env: Env, s: Host, lists: Option<Lists>, i: Input) {
    && lists.Some? && !i.dryRun && NftOk(env, s.nft, lists.value, i) && s.live.Some? && i.readable
    && var next := NextFile(env, s.live.value, lists.value.v4, lists.value.v6);
       next.Spliced? && (i.force || next.text != s.live.value)
  }

  function NewNft(env: Env, s: Host, lists: Option<Lists>, i: Input): Nft.Ruleset {
    if lists.None? || i.dryRun then s.nft else NftAfter(env, s.nft, lists.value, i)
  }

  /**
    One transaction, in every case: with nft updates off the rules stay as they are; otherwise both
    sets are replaced, each by its own family's list, or nothing is, and no other set is touched.
    */
  lemma NftExactly(env: Env, st: Nft.Ruleset, l: Lists, i: Input)
    requires env.setV4 != env.setV6
    ensures var st' := NftAfter(env, st, l, i);
            var fits := env.setV4 in st && env.setV6 in st
                        && Nft.AllOf(st[env.setV4].fam, l.v4) && Nft.AllOf(st[env.setV6].fam, l.v6);
            && (!i.updateNft ==> NftOk(env, st, l, i) && st' == st)
            && (i.updateNft ==> (NftOk(env, st, l, i) <==> i.nft.NftRuns? && fits))
            && (i.updateNft && fits && (i.nft.NftRuns? || i.nft.committed) ==>
                  && st'.Keys == st.Keys
                  && st'[env.setV4] == Nft.IntervalSet(st[env.setV4].fam, Nft.Elements(l.v4))
                  && st'[env.setV6] == Nft.IntervalSet(st[env.setV6].fam, Nft.Elements(l.v6))
                  && forall n :: n in st && n != env.setV4 && n != env.setV6 ==> st'[n] == st[n])
            && (!fits || (i.nft.NftFails? && !i.nft.committed) ==> st' == st)
  {
  }

  /**
    The result of a cycle, in every case, first things first: what it reports, and that it changes
    nothing but the sets unless it swaps the file.
    */
  lemma CycleExactly(env: Env, s: Host, lists: Option<Lists>, i: Input)
    ensures var r := Steps(env, s, lists, i);
            && (lists.None? ==> r == Report([s], FetchFailed))
            && (lists.Some? && i.dryRun ==> r == Report([s], DryRun))
            && (lists.Some? && !i.dryRun ==>
                  var l := lists.value; var m := s.(nft := NftAfter(env, s.nft, l, i));
                  && (!NftOk(env, s.nft, l, i) ==> r == Report([m], NftFailed))
                  && (NftOk(env, s.nft, l, i) ==>
                        && (s.live.None? || !i.readable ==> r == Report([m], Unreadable))
                        && (s.live.Some? && i.readable ==>
                              match NextFile(env, s.live.value, l.v4, l.v6)
                              case Spliced(text) =>
                                if text == s.live.value && !i.force then r == Report([m], Unchanged)
                                else
                                  var t := ApplySteps(env.read, m, text, !i.reload, i.faults);
                                  r == Report([m] + t.steps, Result.Swapped(t.outcome))
                              case _ => r == Report([m], MarkersMissing))))
  {
    hide NextFile, NftAfter, NftOk, ApplySteps;
  }

  /** With nft updates off no step of a cycle touches the rules. */
  lemma SetsStay(env: Env, s: Host, lists: Option<Lists>, i: Input, x: Host)
    requires !i.updateNft && x in Steps(env, s, lists, i).steps
    ensures x.nft == s.nft
  {
    hide NextFile, Networks, NftOk, ApplySteps, Steps;
    if Swaps(env, s, lists, i) {
      SwapShape(env, s, lists.value, i, x);
      var m := s.(nft := NftAfter(env, s.nft, lists.value, i));
      var next := NextFile(env, s.live.value, lists.value.v4, lists.value.v6);
      if x != m { LiveWhole(env.read, m, next.text, !i.reload, i.faults, x); }
    } else {
      NoSwap(env, s, lists, i);
    }
  }

  /**
    With the reload off a cycle that finds the file changed writes it and leaves FRR alone, at every
    step; it returns nil if and only if the write succeeds.
    */
  lemma WrittenNotLoaded(env: Env, s: Host, l: Lists, i: Input)
    requires Swaps(env, s, Some(l), i) && !i.reload
    ensures s.live.Some? && NextFile(env, s.live.value, l.v4, l.v6).Spliced?
    ensures var r := Steps(env, s, Some(l), i); var e := Last(r.steps);
            && (forall x :: x in r.steps ==> x.running == s.running)
            && (Nil(r.result) <==> i.faults.write.Written?)
            && (Nil(r.result) ==> e.live == Some(NextFile(env, s.live.value, l.v4, l.v6).text) && e.temp == None)
            && (!Nil(r.result) ==> r.result == Result.Swapped(WriteFailed) && e.live == s.live)
  {
    hide NextFile, NftAfter, NftOk, ApplySteps;
    var m, next := s.(nft := NftAfter(env, s.nft, l, i)), NextFile(env, s.live.value, l.v4, l.v6);
    OnlyWritten(env.read, m, next.text, i.faults);
  }

  /** A cycle that does not swap the file leaves the file and FRR alone. */
  lemma NoSwap(env: Env, s: Host, lists: Option<Lists>, i: Input)
    requires !Swaps(env, s, lists, i)
    ensures Steps(env, s, lists, i).steps == [s.(nft := NewNft(env, s, lists, i))]
  {
    hide NextFile, NftAfter, NftOk;
  }

  /** The steps of a swap are the nft update and those of `applyFRRConfigOpts`. */
  lemma SwapShape(env: Env, s: Host, l: Lists, i: Input, x: Host)
    requires Swaps(env, s, Some(l), i) && x in Steps(env, s, Some(l), i).steps
    ensures s.live.Some?
    ensures var m := s.(nft := NftAfter(env, s.nft, l, i)); var next := NextFile(env, s.live.value, l.v4, l.v6);
            && next.Spliced?
            && (x == m || x in ApplySteps(env.read, m, next.text, !i.reload, i.faults).steps)
  {
    hide NextFile, NftAfter, NftOk, ApplySteps;
  }

  /**
    Every step of a swap comes after the nft update. The file is wholly old or wholly new, and FRR
    advertises nothing but what it did, what the old file has and what is new.
    */
  lemma SwapStep(env: Env, s: Host, l: Lists, i: Input, x: Host)
    requires Deployed(env, s) && Aggregated(l) && Swaps(env, s, Some(l), i) && x in Steps(env, s, Some(l), i).steps
    ensures x.nft == NftAfter(env, s.nft, l, i)
    ensures x.live == s.live || x.live == Some(NextFile(env, s.live.value, l.v4, l.v6).text)
    ensures FileNetworks(env.read, x) <= FileNetworks(env.read, s) + All(l)
    ensures Advertised(env.read, x.running) <= Advertised(env.read, s.running) + FileNetworks(env.read, s) + All(l)
  {
    hide WellPlaced, GoodEnv, NextFile, CutAtBlocks, Marks, Outside, Networks, NftAfter, NftOk, IsCanonical;
    hide ApplySteps, Steps, Swaps, SameAround;
    SwapShape(env, s, l, i, x);
    var m := s.(nft := NftAfter(env, s.nft, l, i));
    var next := NextFile(env, s.live.value, l.v4, l.v6);
    AggregatedBlocks(l);
    NextFileNetworks(env, s.live.value, l.v4, l.v6);
    OutsideInFile(env, s.live.value);
    if x != m {
      LiveWhole(env.read, m, next.text, !i.reload, i.faults, x);
      AdvertisedBound(env.read, m, next.text, !i.reload, i.faults, x);
    }
  }

  /**
    Plane ordering: with nft updates on, at every step of a cycle that starts in sync, FRR newly
    advertises only what is in the nft sets, and what it advertises unmarked is in the old file
    and, once the sets are updated, not in the new lists.
    */
  lemma PlaneOrdering(env: Env, s: Host, lists: Option<Lists>, i: Input, x: Host)
    requires Deployed(env, s) && InSync(s) && i.updateNft && (lists.Some? ==> Aggregated(lists.value))
    requires x in Steps(env, s, lists, i).steps
    ensures Advertised(env.read, x.running) - Advertised(env.read, s.running) <= Marked(env, x.nft)
    ensures Steps(env, s, lists, i).result != NftFailed && lists.Some? && !i.dryRun ==>
              Marked(env, x.nft) == All(lists.value)
              && Advertised(env.read, x.running) - Marked(env, x.nft) <= Networks(env.read, s.live.value) - All(lists.value)
  {
    hide Networks, WellPlaced, NftAfter, NftOk, NextFile, Aggregated, Swaps, ApplySteps;
    SwapsNft(env, s, lists, i);
    if lists.Some? && NftOk(env, s.nft, lists.value, i) { MarkedAfter(env, s.nft, lists.value, i); }
    if Swaps(env, s, lists, i) {
      SwapStep(env, s, lists.value, i, x);
    } else {
      NoSwap(env, s, lists, i);
    }
  }

  // ---- the same, address by address ----

  /** Some block of the set holds the address. */
  ghost predicate Reaches(ps: set<Prefix>, a: Addr) {
    exists p :: p in ps && IsBlock(p) && Contains(p, a)
  }

  lemma ReachesUnion(ps: set<Prefix>, qs: set<Prefix>, a: Addr)
    ensures Reaches(ps + qs, a) <==> Reaches(ps, a) || Reaches(qs, a)
  {
  }

  lemma ReachesMore(ps: set<Prefix>, qs: set<Prefix>, a: Addr)
    requires ps <= qs && Reaches(ps, a)
    ensures Reaches(qs, a)
  {
  }

  /**
    Plane ordering over addresses: an address FRR newly advertises is marked, and one it advertises
    unmarked is in the old file and, once the sets are updated, not in the new lists.
    */
  lemma PlaneOrderingAddresses(env: Env, s: Host, lists: Option<Lists>, i: Input, x: Host, a: Addr)
    requires Deployed(env, s) && InSync(s) && i.updateNft && (lists.Some? ==> Aggregated(lists.value))
    requires x in Steps(env, s, lists, i).steps && Reaches(Advertised(env.read, x.running), a)
    ensures !Reaches(Advertised(env.read, s.running), a) ==> Reaches(Marked(env, x.nft), a)
    ensures Steps(env, s, lists, i).result != NftFailed && lists.Some? && !i.dryRun && !Reaches(Marked(env, x.nft), a) ==>
              Reaches(Networks(env.read, s.live.value), a) && !Reaches(All(lists.value), a)
  {
    hide Networks, Deployed, Aggregated, Marked, Reaches, Steps;
    PlaneOrdering(env, s, lists, i, x);
    var now, was, marked := Advertised(env.read, x.running), Advertised(env.read, s.running), Marked(env, x.nft);
    ReachesMore(now, was + marked, a);
    ReachesUnion(was, marked, a);
  }

  lemma SwapsNft(env: Env, s: Host, lists: Option<Lists>, i: Input)
    ensures Swaps(env, s, lists, i) ==> lists.Some? && NftOk(env, s.nft, lists.value, i) && !i.dryRun && s.live.Some?
    ensures lists.Some? && !i.dryRun ==>
            (Steps(env, s, lists, i).result == NftFailed <==> !NftOk(env, s.nft, lists.value, i))
  {
  }

  // ---- the end of a cycle ----

  function End(env: Env, s: Host, lists: Option<Lists>, i: Input): Host {
    Last(Steps(env, s, lists, i).steps)
  }

  /** Where a cycle that returns nil ends. */
  lemma NilEnd(env: Env, s: Host, lists: Option<Lists>, i: Input)
    requires Nil(Steps(env, s, lists, i).result) && !i.dryRun && i.updateNft
    ensures lists.Some? && s.live.Some? && NftOk(env, s.nft, lists.value, i)
    ensures var e := End(env, s, lists, i); var next := NextFile(env, s.live.value, lists.value.v4, lists.value.v6);
            && next.Spliced? && e.live == Some(next.text) && e.nft == NftAfter(env, s.nft, lists.value, i)
            && (Swaps(env, s, lists, i) && i.reload ==> e.running == Loaded(next.text))
            && (!Swaps(env, s, lists, i) ==> e.running == s.running && e.live == s.live)
  {
    hide NextFile, NftAfter, NftOk, Networks;
  }

  /**
    A cycle that returns nil with nft and reload on leaves the sets holding the new lists and the
    file listing them beside what stands outside the blocks, whole if the begin markers end their
    lines. FRR runs that file, and so advertises
    just that, if the cycle started in sync or swapped the file, and only then: one that finds the
    file unchanged does not look at FRR.
    */
  lemma Converged(env: Env, s: Host, lists: Option<Lists>, i: Input)
    requires Deployed(env, s) && (lists.Some? ==> Aggregated(lists.value))
    requires Nil(Steps(env, s, lists, i).result) && !i.dryRun && i.updateNft && i.reload
    ensures lists.Some? && s.live.Some?
    ensures var e := End(env, s, lists, i); var out := Outside(env, CutAtBlocks(s.live.value, Marks(env)));
            && Marked(env, e.nft) == All(lists.value)
            && Deployed(env, e) && FileNetworks(env.read, e) == out + Listed(env, s, lists.value)
            && (InSync(e) <==> InSync(s) || Swaps(env, s, lists, i))
            && (InSync(e) ==> Advertised(env.read, e.running) == out + Listed(env, s, lists.value))
  {
    hide WellPlaced, GoodEnv, NextFile, CutAtBlocks, Marks, Outside, Networks, NftAfter, NftOk, IsCanonical, Steps;
    hide End, Nil, Swaps, Marked;
    NilEnd(env, s, lists, i);
    var l := lists.value;
    AggregatedBlocks(l);
    NextFileNetworks(env, s.live.value, l.v4, l.v6);
    MarkedAfter(env, s.nft, l, i);
  }

  /**
    Address by address, FRR then advertises the feed, the extras and what stands outside the blocks,
    and nft marks the feed and the extras.
    */
  lemma ConvergedAddresses(env: Env, s: Host, f: Fetched, l: Lists, i: Input, a: Addr)
    requires Deployed(env, s) && ValidFetched(f) && Aggregates(f, l)
    requires Nil(Steps(env, s, Some(l), i).result) && !i.dryRun && i.updateNft && i.reload
    requires InSync(s) || Swaps(env, s, Some(l), i)
    ensures s.live.Some?
    ensures var e := End(env, s, Some(l), i); var out := Outside(env, CutAtBlocks(s.live.value, Marks(env)));
            && (Reaches(Marked(env, e.nft), a) <==> InFeed(f, a))
            && (Reaches(Advertised(env.read, e.running), a) <==> Reaches(out, a) || Reaches(Listed(env, s, l), a))
            && (OwnMarkers(env, s.live.value) ==> (Reaches(Listed(env, s, l), a) <==> InFeed(f, a)))
  {
    hide GoodEnv, NextFile, CutAtBlocks, Marks, Outside, NftAfter, NftOk, Steps, End, Nil, Swaps;
    hide Marked, Covered, IsCanonical, Reaches, All, Apart, FourMarkers, OwnMarkers, Listed;
    Converged(env, s, Some(l), i);
    AggregatedBlocks(l);
    AllReaches(l, a);
    ReachesUnion(Outside(env, CutAtBlocks(s.live.value, Marks(env))), Listed(env, s, l), a);
  }

  ghost predicate InFeed(f: Fetched, a: Addr)
    requires ValidFetched(f)
  {
    Feed.Listed(f.rawV4, a) || Covered(f.extrasV4, a) || Feed.Listed(f.rawV6, a) || Covered(f.extrasV6, a)
  }

  lemma AllReaches(l: Lists, a: Addr)
    requires AllBlocks(l.v4) && AllBlocks(l.v6)
    ensures Reaches(All(l), a) <==> Covered(l.v4, a) || Covered(l.v6, a)
  {
    if Reaches(All(l), a) {
      var p :| p in All(l) && IsBlock(p) && Contains(p, a);
      if p in l.v4 { CoveredBy(l.v4, p, a); } else { CoveredBy(l.v6, p, a); }
    }
    if Covered(l.v4, a) { CoveredReached(l.v4, All(l), a); }
    if Covered(l.v6, a) { CoveredReached(l.v6, All(l), a); }
  }

  lemma CoveredBy(ps: seq<Prefix>, p: Prefix, a: Addr)
    requires AllBlocks(ps) && p in ps && Contains(p, a)
    ensures Covered(ps, a)
  {
  }

  lemma CoveredReached(ps: seq<Prefix>, all: set<Prefix>, a: Addr)
    requires AllBlocks(ps) && Nft.Elements(ps) <= all && Covered(ps, a)
    ensures Reaches(all, a)
  {
    var i :| 0 <= i < |ps| && Contains(ps[i], a);
    assert ps[i] in Nft.Elements(ps) && IsBlock(ps[i]);
  }

  /**
    The next cycle on the same lists changes nothing: the file is unchanged, and the sets are
    refilled with what they hold.
    */
  lemma SecondCycleQuiet(env: Env, s: Host, lists: Option<Lists>, i: Input, j: Input)
    requires Deployed(env, s) && (lists.Some? ==> Aggregated(lists.value))
    requires Nil(Steps(env, s, lists, i).result) && !i.dryRun && i.updateNft
    requires !j.dryRun && !j.force && j.readable && (j.updateNft ==> j.nft.NftRuns?)
    ensures var e := End(env, s, lists, i); Steps(env, e, lists, j) == Report([e], Unchanged)
  {
    hide WellPlaced, GoodEnv, NextFile, CutAtBlocks, Marks, Outside, Networks, IsCanonical, Nil, Swaps, NftAfter, End;
    NilEnd(env, s, lists, i);
    var l := lists.value;
    AggregatedBlocks(l);
    NextFileNetworks(env, s.live.value, l.v4, l.v6);
    RefillTwice(env, s.nft, l, i, j);
  }

  lemma RefillTwice(env: Env, st: Nft.Ruleset, l: Lists, i: Input, j: Input)
    requires i.updateNft && NftOk(env, st, l, i) && (j.updateNft ==> j.nft.NftRuns?)
    ensures var st' := NftAfter(env, st, l, i); NftOk(env, st', l, j) && NftAfter(env, st', l, j) == st'
  {
    var st' := NftAfter(env, st, l, i);
    var again := Nft.Replacement(st', env.setV4, env.setV6, l.v4, l.v6);
    assert again.Some? && again.value.Keys == st'.Keys;
    assert forall n :: n in st' ==> again.value[n] == st'[n];
    assert again.value == st';
  }

  // ---- which starts are safe ----

  /** With these faults, every step of the cycle newly advertises only marked prefixes. */
  ghost predicate Ordered(env: Env, s: Host, l: Lists, i: Input, f: Faults) {
    forall x :: x in Steps(env, s, Some(l), i.(faults := f)).steps ==>
      Advertised(env.read, x.running) <= Advertised(env.read, s.running) + Marked(env, x.nft)
  }

  /** The faults that bring the old file back: the reload fails, restore and rollback reload succeed. */
  function BringsBack(): Faults {
    Faults(true, true, true, Written, ReloadFails(Part({})), Written, Reloaded)
  }

  /** With these faults, every step of the cycle newly advertises only marked addresses. */
  ghost predicate AddrOrdered(env: Env, s: Host, l: Lists, i: Input, f: Faults) {
    forall x, a :: x in Steps(env, s, Some(l), i.(faults := f)).steps && Reaches(Advertised(env.read, x.running), a) ==>
      Reaches(Advertised(env.read, s.running), a) || Reaches(Marked(env, x.nft), a)
  }

  /** Every address of the file is advertised or in the new lists. */
  ghost predicate FileAccounted(env: Env, s: Host, l: Lists) {
    forall a :: Reaches(FileNetworks(env.read, s), a) ==> Reaches(Advertised(env.read, s.running), a) || Reaches(All(l), a)
  }

  /**
    From which states the ordering holds whatever fails: exactly those whose file lists no address
    that FRR does not already advertise and the new lists do not hold. A start in sync is one; after
    a stop between write and reload a rollback can advertise addresses that the sets no longer hold.
    */
  lemma AddrOrderedExactly(env: Env, s: Host, l: Lists, i: Input)
    requires Deployed(env, s) && Aggregated(l) && Swaps(env, s, Some(l), i) && i.updateNft && i.reload
    ensures (forall f :: AddrOrdered(env, s, l, i, f)) <==> FileAccounted(env, s, l)
    ensures !FileAccounted(env, s, l) ==> !AddrOrdered(env, s, l, i, BringsBack())
  {
    hide WellPlaced, GoodEnv, NextFile, Networks, NftAfter, NftOk, Aggregated, Steps, Swaps, Marked, Reaches, All;
    SwapsNft(env, s, Some(l), i);
    MarkedAfter(env, s.nft, l, i);
    BroughtBack(env, s, l, i);
    if FileAccounted(env, s, l) {
      forall f ensures AddrOrdered(env, s, l, i, f) {
        forall x, a | x in Steps(env, s, Some(l), i.(faults := f)).steps && Reaches(Advertised(env.read, x.running), a)
          ensures Reaches(Advertised(env.read, s.running), a) || Reaches(Marked(env, x.nft), a)
        {
          FaultsDoNotSteer(env, s, l, i, f);
          SwapStep(env, s, l, i.(faults := f), x);
          StepReaches(env, s, l, x, a);
        }
      }
    } else {
      assert !AddrOrdered(env, s, l, i, BringsBack());
    }
  }

  lemma StepReaches(env: Env, s: Host, l: Lists, x: Host, a: Addr)
    requires Advertised(env.read, x.running) <= Advertised(env.read, s.running) + FileNetworks(env.read, s) + All(l)
    requires Reaches(Advertised(env.read, x.running), a)
    ensures Reaches(Advertised(env.read, s.running), a) || Reaches(FileNetworks(env.read, s), a) || Reaches(All(l), a)
  {
    hide *;
    var was, file := Advertised(env.read, s.running), FileNetworks(env.read, s);
    ReachesMore(Advertised(env.read, x.running), was + file + All(l), a);
    ReachesUnion(was + file, All(l), a);
    ReachesUnion(was, file, a);
  }

  /** The same over prefixes: the ordering holds prefix by prefix exactly when the file lists no such prefix. */
  lemma OrderedExactly(env: Env, s: Host, l: Lists, i: Input)
    requires Deployed(env, s) && Aggregated(l) && Swaps(env, s, Some(l), i) && i.updateNft && i.reload
    ensures (forall f :: Ordered(env, s, l, i, f)) <==>
            FileNetworks(env.read, s) <= Advertised(env.read, s.running) + All(l)
  {
    hide WellPlaced, GoodEnv, NextFile, Networks, NftAfter, NftOk, Aggregated, Steps, Swaps, Marked;
    SwapsNft(env, s, Some(l), i);
    MarkedAfter(env, s.nft, l, i);
    BroughtBack(env, s, l, i);
    if FileNetworks(env.read, s) <= Advertised(env.read, s.running) + All(l) {
      forall f ensures Ordered(env, s, l, i, f) {
        forall x | x in Steps(env, s, Some(l), i.(faults := f)).steps
          ensures Advertised(env.read, x.running) <= Advertised(env.read, s.running) + Marked(env, x.nft)
        {
          FaultsDoNotSteer(env, s, l, i, f);
          SwapStep(env, s, l, i.(faults := f), x);
        }
      }
    } else {
      assert !Ordered(env, s, l, i, BringsBack());
    }
  }

  lemma FaultsDoNotSteer(env: Env, s: Host, l: Lists, i: Input, f: Faults)
    ensures Swaps(env, s, Some(l), i) ==> Swaps(env, s, Some(l), i.(faults := f))
    ensures NftAfter(env, s.nft, l, i.(faults := f)) == NftAfter(env, s.nft, l, i)
  {
  }

  lemma BroughtBack(env: Env, s: Host, l: Lists, i: Input)
    requires Swaps(env, s, Some(l), i) && i.reload
    ensures exists x :: x in Steps(env, s, Some(l), i.(faults := BringsBack())).steps
                        && x.nft == NftAfter(env, s.nft, l, i)
                        && Advertised(env.read, x.running) == FileNetworks(env.read, s)
  {
    hide NextFile, Networks;
    var r := Steps(env, s, Some(l), i.(faults := BringsBack()));
    var x := Last(r.steps);
    assert x in r.steps && x.running == Loaded(s.live.value);
  }

  // ---- whole runs ----

  /** One cycle of a run, stopped after `stop` of its steps if it has that many. */
  datatype Turn = Turn(lists: Option<Lists>, input: Input, stop: nat)

  function Reached(env: Env, s: Host, t: Turn): Host {
    var steps := Steps(env, s, t.lists, t.input).steps;
    if t.stop == 0 then s else if t.stop <= |steps| then steps[t.stop - 1] else Last(steps)
  }

  function Run(env: Env, s: Host, ts: seq<Turn>): Host
    decreases |ts|
  {
    if ts == [] then s else Run(env, Reached(env, s, ts[0]), ts[1..])
  }

  /** Every prefix that was in the sets at the start or at the end of a turn. */
  function EverMarked(env: Env, s: Host, ts: seq<Turn>): set<Prefix>
    decreases |ts|
  {
    Marked(env, s.nft) + if ts == [] then {} else EverMarked(env, Reached(env, s, ts[0]), ts[1..])
  }

  ghost predicate GoodTurns(ts: seq<Turn>) {
    forall k :: 0 <= k < |ts| ==> ts[k].lists.Some? ==> Aggregated(ts[k].lists.value)
  }

  lemma ReachedStep(env: Env, s: Host, t: Turn)
    ensures Reached(env, s, t) == s || Reached(env, s, t) in Steps(env, s, t.lists, t.input).steps
  {
    hide Steps;
  }

  // ---- a stop between write and reload ----

  /** The number of steps up to the rename of the new file, before the reload. */
  const TO_RENAME := 4

  /** And up to the rename of the old file back, before the rollback reload. */
  const TO_RESTORE := 8

  predicate WriteOk(f: Faults) {
    f.stagingOk && f.syntaxOk && f.backupReadable && f.write.Written?
  }

  lemma StoppedBeforeReload(env: Env, s: Host, l: Lists, i: Input)
    requires Swaps(env, s, Some(l), i) && i.reload && WriteOk(i.faults)
    ensures s.live.Some?
    ensures var next := NextFile(env, s.live.value, l.v4, l.v6);
            && next.Spliced?
            && Reached(env, s, Turn(Some(l), i, TO_RENAME))
               == s.(live := Some(next.text), temp := None, nft := NftAfter(env, s.nft, l, i))
  {
    hide NextFile, NftAfter, NftOk, Networks;
  }

  /**
    After such a stop the ordering of the next swap is safe exactly when no address was in the lists
    of the stopped cycle alone: neither advertised before it nor in the new lists.
    */
  lemma OrderedAfterStop(env: Env, s: Host, l: Lists, i: Input, l': Lists, j: Input)
    requires Deployed(env, s) && InSync(s) && Aggregated(l) && Aggregated(l')
    requires Swaps(env, s, Some(l), i) && i.reload && WriteOk(i.faults)
    requires Swaps(env, Reached(env, s, Turn(Some(l), i, TO_RENAME)), Some(l'), j) && j.updateNft && j.reload
    ensures var x := Reached(env, s, Turn(Some(l), i, TO_RENAME));
            (forall f :: AddrOrdered(env, x, l', j, f)) <==>
            forall a :: Reaches(Listed(env, s, l), a) ==> Reaches(Networks(env.read, s.live.value), a) || Reaches(All(l'), a)
    ensures var x := Reached(env, s, Turn(Some(l), i, TO_RENAME));
            AddrOrdered(env, x, l', j, BringsBack()) ==> forall f :: AddrOrdered(env, x, l', j, f)
  {
    hide GoodEnv, NextFile, Networks, NftAfter, NftOk, Aggregated, Steps, Swaps, Marked, Reaches, All, Reached;
    hide AddrOrdered;
    hide CutAtBlocks, Outside, Marks, Apart, FourMarkers, Listed, OwnMarkers;
    StoppedBeforeReload(env, s, l, i);
    AggregatedBlocks(l);
    NextFileNetworks(env, s.live.value, l.v4, l.v6);
    OutsideInFile(env, s.live.value);
    var x, was := Reached(env, s, Turn(Some(l), i, TO_RENAME)), Networks(env.read, s.live.value);
    var out := Outside(env, CutAtBlocks(s.live.value, Marks(env)));
    AddrOrderedExactly(env, x, l', j);
    forall a ensures Reaches(FileNetworks(env.read, x), a) <==> Reaches(out, a) || Reaches(Listed(env, s, l), a) {
      FileIs(env, s, l, x);
      ReachesUnion(out, Listed(env, s, l), a);
    }
    forall a | Reaches(out, a) ensures Reaches(was, a) { ReachesMore(out, was, a); }
  }

  lemma FileIs(env: Env, s: Host, l: Lists, x: Host)
    requires Deployed(env, s) && s.live.Some? && AllBlocks(l.v4) && AllBlocks(l.v6)
    requires NextFile(env, s.live.value, l.v4, l.v6).Spliced?
    requires x.live == Some(NextFile(env, s.live.value, l.v4, l.v6).text)
    ensures FileNetworks(env.read, x) == Outside(env, CutAtBlocks(s.live.value, Marks(env))) + Listed(env, s, l)
    ensures Deployed(env, x)
  {
    hide GoodEnv, NextFile, Networks, CutAtBlocks, Outside, Marks, Apart, FourMarkers;
    NextFileNetworks(env, s.live.value, l.v4, l.v6);
  }

  /**
    After such a stop the next cycle on the same lists, unforced, returns nil and changes nothing:
    the file holds the lists already, and FRR keeps running the old text.
    */
  lemma QuietAfterStop(env: Env, s: Host, l: Lists, i: Input, j: Input)
    requires Deployed(env, s) && InSync(s) && Aggregated(l)
    requires Swaps(env, s, Some(l), i) && !i.force && i.updateNft && i.reload && WriteOk(i.faults)
    requires !j.dryRun && !j.force && j.readable && (j.updateNft ==> j.nft.NftRuns?)
    ensures var x := Reached(env, s, Turn(Some(l), i, TO_RENAME));
            Steps(env, x, Some(l), j) == Report([x], Unchanged) && x.running == s.running && !InSync(x)
  {
    hide WellPlaced, GoodEnv, NextFile, Networks, NftAfter, Aggregated, Reached, SameAround, Outside, CutAtBlocks;
    StoppedBeforeReload(env, s, l, i);
    AggregatedBlocks(l);
    NextFileNetworks(env, s.live.value, l.v4, l.v6);
    RefillTwice(env, s.nft, l, i, j);
  }

  /** What a turn keeps, wherever it is stopped: the file around the blocks, and that only marked prefixes are added. */
  lemma TurnKeeps(env: Env, s: Host, t: Turn)
    requires Deployed(env, s) && (t.lists.Some? ==> Aggregated(t.lists.value))
    ensures var x := Reached(env, s, t);
            && Deployed(env, x) && x.live.Some? == s.live.Some?
            && (s.live.Some? ==> SameAround(CutAtBlocks(x.live.value, Marks(env)), CutAtBlocks(s.live.value, Marks(env))))
            && (t.input.updateNft ==>
                  Advertised(env.read, x.running) + FileNetworks(env.read, x)
                  <= Advertised(env.read, s.running) + FileNetworks(env.read, s) + Marked(env, x.nft))
  {
    hide GoodEnv, NextFile, CutAtBlocks, Marks, Networks, NftAfter, NftOk, Aggregated, Steps, Swaps, Marked;
    hide Reached, FourMarkers, Apart;
    var x := Reached(env, s, t);
    ReachedStep(env, s, t);
    SwapsNft(env, s, t.lists, t.input);
    if x != s {
      if Swaps(env, s, t.lists, t.input) {
        var l := t.lists.value;
        AggregatedBlocks(l);
        SwapStep(env, s, l, t.input, x);
        NextFileNetworks(env, s.live.value, l.v4, l.v6);
        if t.input.updateNft { MarkedAfter(env, s.nft, l, t.input); }
      } else {
        NoSwap(env, s, t.lists, t.input);
      }
    }
  }

  /** Over whole runs, with stops and failures anywhere, the operator's text around the two blocks is untouched. */
  lemma {:induction false} RunKeepsText(env: Env, s: Host, ts: seq<Turn>)
    requires Deployed(env, s) && GoodTurns(ts)
    ensures var x := Run(env, s, ts);
            && Deployed(env, x) && x.live.Some? == s.live.Some?
            && (s.live.Some? ==> SameAround(CutAtBlocks(x.live.value, Marks(env)), CutAtBlocks(s.live.value, Marks(env))))
    decreases |ts|
  {
    hide GoodEnv, CutAtBlocks, Marks, Aggregated, Steps, Reached, FourMarkers, Apart;
    if ts != [] {
      TurnKeeps(env, s, ts[0]);
      RunKeepsText(env, Reached(env, s, ts[0]), ts[1..]);
    }
  }

  /** Over whole runs, with stops and failures anywhere, nothing is advertised or written that was not marked first. */
  lemma {:induction false} RunOrdering(env: Env, s: Host, ts: seq<Turn>)
    requires Deployed(env, s) && GoodTurns(ts) && forall k :: 0 <= k < |ts| ==> ts[k].input.updateNft
    ensures var x := Run(env, s, ts);
            Advertised(env.read, x.running) + FileNetworks(env.read, x)
            <= Advertised(env.read, s.running) + FileNetworks(env.read, s) + EverMarked(env, s, ts)
    decreases |ts|
  {
    hide Deployed, Aggregated, Steps, Reached, Networks, Marked;
    if ts != [] {
      TurnKeeps(env, s, ts[0]);
      RunOrdering(env, Reached(env, s, ts[0]), ts[1..]);
    }
  }

  /** The same address by address. */
  lemma RunOrderingAddresses(env: Env, s: Host, ts: seq<Turn>, a: Addr)
    requires Deployed(env, s) && GoodTurns(ts) && forall k :: 0 <= k < |ts| ==> ts[k].input.updateNft
    ensures var x := Run(env, s, ts);
            Reaches(Advertised(env.read, x.running), a) || Reaches(FileNetworks(env.read, x), a) ==>
              || Reaches(Advertised(env.read, s.running), a) || Reaches(FileNetworks(env.read, s), a)
              || Reaches(EverMarked(env, s, ts), a)
  {
    hide *;
    RunOrdering(env, s, ts);
    var x := Run(env, s, ts);
    var now, file := Advertised(env.read, x.running), FileNetworks(env.read, x);
    var was, oldFile := Advertised(env.read, s.running), FileNetworks(env.read, s);
    var marked := EverMarked(env, s, ts);
    if Reaches(now, a) { ReachesMore(now, was + oldFile + marked, a); }
    if Reaches(file, a) { ReachesMore(file, was + oldFile + marked, a); }
    ReachesUnion(was + oldFile, marked, a);
    ReachesUnion(was, oldFile, a);
  }

  /** A turn that runs to its end with reload on. */
  predicate Finished(env: Env, s: Host, t: Turn) {
    t.stop >= |Steps(env, s, t.lists, t.input).steps| && t.input.reload
  }

  predicate ReportsIncident(env: Env, s: Host, t: Turn) {
    var r := Steps(env, s, t.lists, t.input).result;
    r.Swapped? && Incident(r.outcome)
  }

  predicate AllFinished(env: Env, s: Host, ts: seq<Turn>)
    decreases |ts|
  {
    ts == [] || (Finished(env, s, ts[0]) && AllFinished(env, Reached(env, s, ts[0]), ts[1..]))
  }

  /** The cycle reports an incident that is not harmless. */
  predicate Harm(env: Env, s: Host, t: Turn) {
    var r := Steps(env, s, t.lists, t.input).result;
    && r.Swapped? && Incident(r.outcome) && s.live.Some? && t.lists.Some?
    && var next := NextFile(env, s.live.value, t.lists.value.v4, t.lists.value.v6);
       next.Spliced? && !Harmless(s.live.value, next.text, t.input.faults, r.outcome)
  }

  predicate SomeHarm(env: Env, s: Host, ts: seq<Turn>)
    decreases |ts|
  {
    ts != [] && (Harm(env, s, ts[0]) || SomeHarm(env, Reached(env, s, ts[0]), ts[1..]))
  }

  /**
    A cycle that starts in sync ends in sync exactly when it reports no incident or a harmless one,
    and an incident is never a nil result.
    */
  lemma CycleSync(env: Env, s: Host, t: Turn)
    requires InSync(s) && Finished(env, s, t)
    ensures InSync(Reached(env, s, t)) <==> !Harm(env, s, t)
    ensures Harm(env, s, t) ==> ReportsIncident(env, s, t)
    ensures ReportsIncident(env, s, t) ==> !Nil(Steps(env, s, t.lists, t.input).result)
  {
    hide NftAfter, NftOk, NextFile, Networks, Harmless;
    if Swaps(env, s, t.lists, t.input) {
      var l := t.lists.value;
      DesyncNeverSilent(env.read, s.(nft := NftAfter(env, s.nft, l, t.input)),
                        NextFile(env, s.live.value, l.v4, l.v6).text, t.input.faults);
    } else {
      NoSwap(env, s, t.lists, t.input);
    }
  }

  /**
    Over whole runs of finished cycles FRR never falls out of step with the file unless some cycle
    said so, and did harm.
    */
  lemma {:induction false} RunSync(env: Env, s: Host, ts: seq<Turn>)
    requires InSync(s) && AllFinished(env, s, ts)
    ensures InSync(Run(env, s, ts)) || SomeHarm(env, s, ts)
    decreases |ts|
  {
    hide Steps, Finished, ReportsIncident, Harm;
    if ts != [] {
      CycleSync(env, s, ts[0]);
      if !Harm(env, s, ts[0]) { RunSync(env, Reached(env, s, ts[0]), ts[1..]); }
    }
  }

  // ---- the code ----

  /** main.go:545-688 on the router, from the fetched feed to the reload. The lists it works with aggregate the feed. */
  method RunCycle(router: Router, env: Env, fetched: Option<Fetched>, i: Input) returns (result: Result,
                  ghost lists: Option<Lists>)
    requires Nft.ValidRuleset(router.nft) && router.read == env.read && NoneOf(env.routeMap, '!', '\n')
    requires fetched.Some? ==> ValidFetched(fetched.value)
    modifies router
    ensures Nft.ValidRuleset(router.nft)
    ensures lists.Some? == fetched.Some? && (lists.Some? ==> Aggregates(fetched.value, lists.value))
    ensures var r := Steps(env, old(router.Now()), lists, i);
            result == r.result && router.trace == old(router.trace) + r.steps && router.Now() == Last(r.steps)
  {
    hide ApplySteps, IsCanonical, Aggregates, Aggregated, Feed.AllValid, Covered, Nft.Replacement, Splice.Splice;
    hide Marks, Rendered;
    hide Nft.ValidRuleset, Feed.Listed;
    lists := None;
    if fetched.None? {
      router.Step();
      return FetchFailed, lists;
    }
    var f := fetched.value;
    var v4 := Feed.AggregateFeed(f.rawV4, f.extrasV4);
    var v6 := Feed.AggregateFeed(f.rawV6, f.extrasV6);
    lists := Some(Lists(v4, v6));
    ListsAggregate(f, lists.value);
    var v4Block := RenderNetworks(env, v4);
    var v6Block := RenderNetworks(env, v6);
    if i.dryRun {
      router.Step();
      return DryRun, lists;
    }
    if i.updateNft {
      var ok := ApplyNft(router, env, v4, v6, i.nft);
      if !ok {
        router.Step();
        return NftFailed, lists;
      }
    }
    router.Step();
    if router.live.None? || !i.readable {
      return Unreadable, lists;
    }
    var cur := router.live.value;
    var m := Marks(env);
    var next := Splice.Splice(cur, m.beginV4, m.endV4, v4Block);
    if next.Spliced? {
      next := Splice.Splice(next.text, m.beginV6, m.endV6, v6Block);
    }
    if !next.Spliced? {
      return MarkersMissing, lists;
    }
    if !i.force && cur == next.text {
      return Unchanged, lists;
    }
    var o := router.ApplyFrrConfig(next.text, !i.reload, i.faults);
    result := Swapped(o);
  }

  lemma ListsAggregate(f: Fetched, l: Lists)
    requires ValidFetched(f) && IsCanonical(l.v4) && IsCanonical(l.v6)
    requires forall a :: Covered(l.v4, a) <==> Feed.Listed(f.rawV4, a) || Covered(f.extrasV4, a)
    requires forall a :: Covered(l.v6, a) <==> Feed.Listed(f.rawV6, a) || Covered(f.extrasV6, a)
    ensures Aggregates(f, l)
  {
    hide IsCanonical, Covered, Feed.Listed;
  }

  /** main.go:693-723. */
  method ApplyNft(router: Router, env: Env, v4: seq<Prefix>, v6: seq<Prefix>, call: NftCall) returns (ok: bool)
    requires Nft.ValidRuleset(router.nft) && IsCanonical(v4) && IsCanonical(v6)
    modifies router`nft
    ensures Nft.ValidRuleset(router.nft)
    ensures var r := Nft.Replacement(old(router.nft), env.setV4, env.setV6, v4, v6);
            && ok == (call.NftRuns? && r.Some?)
            && router.nft == if r.Some? && (call.NftRuns? || call.committed) then r.value else old(router.nft)
  {
    var script := Nft.BuildScript(env.setV4, env.setV6, v4, v6);
    var st := router.nft;
    Nft.ReplacementValid(st, env.setV4, env.setV6, v4, v6);
    assert Nft.Exec(script, st) == Nft.Replacement(st, env.setV4, env.setV6, v4, v6);
    ok := call.NftRuns? && Nft.Exec(script, st).Some?;
    if call.NftRuns? || call.committed {
      router.nft := Nft.Commit(script, st);
    }
  }
}
