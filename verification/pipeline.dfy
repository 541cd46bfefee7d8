/**
  `run` from the network to the router: the feed, fetched or from the cache, the operator's extras,
  and the two planes; one cycle, and histories of cycles.
  */
module Pipeline {
  import opened Cidr
  import opened Canonical
  import Splice
  import opened Rollback
  import opened Render
  import opened Readback
  import opened Cycle
  import Cache
  import Extras
  import Feed
  import Nft

  /** The extras files an operator named, as they are on disk. */
  datatype Sources = Sources(pathV4: string, fileV4: Extras.OnDisk, pathV6: string, fileV6: Extras.OnDisk, parse: Extras.Parser)

  /** The feed was had, from the network or from the cache. */
  predicate Had(s: Cache.Source) {
    s.Fresh? || s.FromCache?
  }

  predicate ValidSource(s: Cache.Source) {
    Had(s) ==> ValidAnswer(s.answer)
  }

  predicate ValidAnswer(a: Cache.Answer) {
    Feed.AllValid(a.v4) && Feed.AllValid(a.v6)
  }

  ghost function ExtrasV4(x: Sources): Extras.Result
    requires Extras.GoodParser(x.parse)
  {
    Extras.Loaded(x.pathV4, x.fileV4, 4, x.parse)
  }

  ghost function ExtrasV6(x: Sources): Extras.Result
    requires Extras.GoodParser(x.parse)
  {
    Extras.Loaded(x.pathV6, x.fileV6, 6, x.parse)
  }

  /** A loaded extras file holds masked prefixes. */
  lemma {:induction false} LoadBlocks(parse: Extras.Parser, family: int, lines: seq<string>, k: nat, out: seq<Prefix>)
    requires Extras.GoodParser(parse) && k <= |lines| && AllBlocks(out)
    ensures var r := Extras.Load(parse, family, lines, k, out); r.Ok? ==> AllBlocks(r.prefixes)
    decreases |lines| - k
  {
    hide IsBlock, Extras.TextOf, Extras.Fits, Extras.MatchesFamily;
    if k < |lines| && Extras.Fits(lines[k]) {
      match Extras.ReadLine(parse, family, Extras.TextOf(lines, k), k + 1) {
        case Skip => LoadBlocks(parse, family, lines, k + 1, out);
        case Keep(p) =>
          LineBlock(parse, family, Extras.TextOf(lines, k), k + 1);
          LoadBlocks(parse, family, lines, k + 1, out + [p]);
        case Fail(_) =>
      }
    }
  }

  lemma LineBlock(parse: Extras.Parser, family: int, clean: string, line: nat)
    requires Extras.GoodParser(parse)
    ensures var l := Extras.ReadLine(parse, family, clean, line); l.Keep? ==> IsBlock(l.p)
  {
    hide Extras.MatchesFamily;
    if parse(clean).Some? { MaskedBlock(parse(clean).value); }
  }

  lemma LoadedBlocks(path: string, file: Extras.OnDisk, family: int, parse: Extras.Parser)
    requires Extras.GoodParser(parse)
    ensures var r := Extras.Loaded(path, file, family, parse); r.Ok? ==> AllBlocks(r.prefixes)
  {
    hide IsBlock, Extras.Load, Extras.RawLines;
    if file.Data? { LoadBlocks(parse, family, Extras.RawLines(file.text), 0, []); }
  }

  lemma ExtrasBlocks(x: Sources)
    requires Extras.GoodParser(x.parse)
    ensures ExtrasV4(x).Ok? ==> AllBlocks(ExtrasV4(x).prefixes)
    ensures ExtrasV6(x).Ok? ==> AllBlocks(ExtrasV6(x).prefixes)
  {
    hide Extras.Loaded, IsBlock;
    LoadedBlocks(x.pathV4, x.fileV4, 4, x.parse);
    LoadedBlocks(x.pathV6, x.fileV6, 6, x.parse);
  }

  // ---- the code ----

  /** How the feed is fetched: whether there is a cache, how old it may be, and how often to try. */
  datatype Policy = Policy(cached: bool, maxAge: int, attempts: int)

  /**
    What a cycle works on: a feed that was had and both extras files, or nothing. Each family's list
    is canonical for the addresses of that family's feed and extras.
    */
  ghost predicate Worked(lists: Option<Lists>, served: Cache.Source, x: Sources)
    requires Extras.GoodParser(x.parse) && ValidSource(served)
  {
    ExtrasBlocks(x);
    && (lists.Some? <==> Had(served) && ExtrasV4(x).Ok? && ExtrasV6(x).Ok?)
    && (lists.Some? ==>
          && Aggregated(lists.value)
          && (forall a :: Covered(lists.value.v4, a) <==>
                Feed.Listed(served.answer.v4, a) || Covered(ExtrasV4(x).prefixes, a))
          && (forall a :: Covered(lists.value.v6, a) <==>
                Feed.Listed(served.answer.v6, a) || Covered(ExtrasV6(x).prefixes, a)))
  }

  /**
    main.go:545-688, whole: fetch with the cache behind it, load the extras, aggregate, mark, write
    and reload. The router passes through exactly the states of `Steps`, on the lists of the feed and
    the extras.
    */
  method WholeCycle(cache: Cache.FeedCache, router: Router, env: Env, t: Cache.Turn, p: Policy, x: Sources, i: Input)
    returns (served: Cache.Source, result: Cycle.Result, ghost lists: Option<Lists>)
    requires Nft.ValidRuleset(router.nft) && router.read == env.read && NoneOf(env.routeMap, '!', '\n')
    requires Extras.GoodParser(x.parse) && ValidSource(Cache.Served(cache.cache, t, p.cached, p.maxAge, p.attempts))
    modifies cache, router
    ensures Nft.ValidRuleset(router.nft)
    ensures served == Cache.Served(old(cache.cache), t, p.cached, p.maxAge, p.attempts)
    ensures cache.trace == old(cache.trace) + Cache.CacheSteps(old(cache.Now()), t, p.cached, p.attempts)
    ensures cache.Now() == Cache.Last(Cache.CacheSteps(old(cache.Now()), t, p.cached, p.attempts))
    ensures Worked(lists, served, x)
    ensures result == FetchFailed <==> !((served.Fresh? || served.FromCache?) && ExtrasV4(x).Ok? && ExtrasV6(x).Ok?)
    ensures var r := Steps(env, old(router.Now()), lists, i);
            result == r.result && router.trace == old(router.trace) + r.steps && router.Now() == Rollback.Last(r.steps)
  {
    hide Extras.Loaded, Steps, Cache.Served, Cache.CacheSteps, Nft.ValidRuleset, Extras.GoodParser, Covered, Aggregated;
    hide IsBlock, Feed.Listed, Feed.AllValid;
    served := cache.FetchWithCache(t, p.cached, p.maxAge, p.attempts);
    ExtrasBlocks(x);
    var fetched := None;
    if served.Fresh? || served.FromCache? {
      var v4 := Extras.LoadExtras(x.pathV4, x.fileV4, 4, x.parse);
      if v4.Ok? {
        var v6 := Extras.LoadExtras(x.pathV6, x.fileV6, 6, x.parse);
        if v6.Ok? {
          fetched := Some(Fetched(served.answer.v4, served.answer.v6, v4.prefixes, v6.prefixes));
        }
      }
    }
    FailsWithout(env, router.Now(), i);
    result, lists := RunCycle(router, env, fetched, i);
  }

  lemma FailsWithout(env: Env, s: Host, i: Input)
    ensures forall lists :: Steps(env, s, lists, i).result == FetchFailed <==> lists.None?
  {
    hide NextFile, NftAfter, NftOk, ApplySteps;
  }

  // ---- histories of whole cycles ----

  /** One cycle: what the network and the cache file did, the extras on disk, and how the swap went and how far. */
  datatype Day = Day(fetch: Cache.Turn, extras: Sources, swap: Turn)

  function Fetches(days: seq<Day>): seq<Cache.Turn> {
    seq(|days|, i requires 0 <= i < |days| => days[i].fetch)
  }

  function Swaps(days: seq<Day>): seq<Turn> {
    seq(|days|, i requires 0 <= i < |days| => days[i].swap)
  }

  /** The cache file and the host when cycle `j` starts. */
  function FilesAt(files: Cache.Files, days: seq<Day>, j: nat, p: Policy): Cache.Files
    requires j <= |days|
  {
    Cache.After(files, Fetches(days)[..j], p.cached, p.attempts)
  }

  function HostAt(env: Env, s: Host, days: seq<Day>, j: nat): Host
    requires j <= |days|
  {
    Cycle.Run(env, s, Swaps(days)[..j])
  }

  ghost function ServedAt(files: Cache.Files, days: seq<Day>, j: nat, p: Policy): Cache.Source
    requires j < |days|
  {
    Cache.Served(FilesAt(files, days, j, p).cache, days[j].fetch, p.cached, p.maxAge, p.attempts)
  }

  /** The lists a cycle swaps in are those `WholeCycle` makes. */
  ghost predicate History(files: Cache.Files, days: seq<Day>, p: Policy) {
    forall j: nat :: j < |days| ==>
      && Extras.GoodParser(days[j].extras.parse) && ValidSource(ServedAt(files, days, j, p))
      && Worked(days[j].swap.lists, ServedAt(files, days, j, p), days[j].extras)
  }

  lemma HistoryGood(files: Cache.Files, days: seq<Day>, p: Policy, j: nat)
    requires History(files, days, p) && j <= |days|
    ensures GoodTurns(Swaps(days)[..j])
  {
    hide ServedAt, ValidSource, Extras.GoodParser, Aggregated, ExtrasV4, ExtrasV6, Covered;
    forall k | 0 <= k < j && Swaps(days)[..j][k].lists.Some? ensures Aggregated(Swaps(days)[..j][k].lists.value) {
      assert Worked(days[k].swap.lists, ServedAt(files, days, k, p), days[k].extras);
    }
  }

  /** A cycle that returns nil marks exactly what its lists cover. */
  lemma NilMarks(env: Env, s: Host, l: Lists, i: Input, a: Addr)
    requires Deployed(env, s) && Aggregated(l)
    requires Nil(Steps(env, s, Some(l), i).result) && !i.dryRun && i.updateNft && i.reload
    ensures AllBlocks(l.v4) && AllBlocks(l.v6)
    ensures Reaches(Marked(env, Cycle.End(env, s, Some(l), i).nft), a) <==> Covered(l.v4, a) || Covered(l.v6, a)
  {
    hide GoodEnv, NextFile, Steps, Nil, Marked, Covered, IsCanonical, Reaches, All, Deployed, Networks, Listed, Outside;
    AggregatedBlocks(l);
    Converged(env, s, Some(l), i);
    AllReaches(l, a);
  }

  /**
    And FRR then advertises that and what stands outside, if it runs the file and the begin markers
    end their lines.
    */
  lemma NilAdvertises(env: Env, s: Host, l: Lists, i: Input, a: Addr)
    requires Deployed(env, s) && Aggregated(l) && s.live.Some? && OwnMarkers(env, s.live.value)
    requires Nil(Steps(env, s, Some(l), i).result) && !i.dryRun && i.updateNft && i.reload
    requires InSync(s) || Cycle.Swaps(env, s, Some(l), i)
    ensures AllBlocks(l.v4) && AllBlocks(l.v6)
    ensures Reaches(Advertised(env.read, Cycle.End(env, s, Some(l), i).running), a) <==>
              || Reaches(Outside(env, Splice.CutAtBlocks(s.live.value, Marks(env))), a)
              || Covered(l.v4, a) || Covered(l.v6, a)
  {
    hide GoodEnv, NextFile, Steps, Nil, Marked, Covered, IsCanonical, Reaches, All, Networks, Listed, Outside;
    hide Cycle.Swaps;
    hide Cycle.End, OwnMarkers, Splice.Apart, Splice.FourMarkers, Splice.CutAtBlocks, Marks, InSync;
    AggregatedBlocks(l);
    Converged(env, s, Some(l), i);
    AllReaches(l, a);
    ReachesUnion(Outside(env, Splice.CutAtBlocks(s.live.value, Marks(env))), All(l), a);
  }

  /** A cycle fails for want of input exactly when no feed was had or an extras file does not load. */
  lemma FailsExactly(env: Env, s: Host, served: Cache.Source, x: Sources, lists: Option<Lists>, i: Input)
    requires Extras.GoodParser(x.parse) && ValidSource(served) && Worked(lists, served, x)
    ensures var v4 := Extras.Loaded(x.pathV4, x.fileV4, 4, x.parse); var v6 := Extras.Loaded(x.pathV6, x.fileV6, 6, x.parse);
            Steps(env, s, lists, i).result == FetchFailed <==> !((served.Fresh? || served.FromCache?) && v4.Ok? && v6.Ok?)
  {
    hide Steps, Extras.Loaded, Extras.GoodParser, Covered, Aggregated, Feed.Listed, IsBlock;
    FailsWithout(env, s, i);
  }

  /**
    A cycle that returns nil, on a feed from the network or from the cache: an address is marked
    exactly when that feed's IPv4 or IPv6 entries or one of the two extras files list it. So both
    extras files count, each in its family's list, and nothing else does. If the cycle started in
    sync or swapped the file, and the begin markers end their lines, FRR advertises just those
    addresses and the ones that stand outside the blocks.
    */
  lemma FeedReaches(env: Env, s: Host, served: Cache.Source, x: Sources, l: Lists, i: Input, a: Addr)
    requires Deployed(env, s) && Extras.GoodParser(x.parse) && ValidSource(served) && Worked(Some(l), served, x)
    requires Nil(Steps(env, s, Some(l), i).result) && !i.dryRun && i.updateNft && i.reload
    ensures served.Fresh? || served.FromCache?
    ensures var v4 := Extras.Loaded(x.pathV4, x.fileV4, 4, x.parse); var v6 := Extras.Loaded(x.pathV6, x.fileV6, 6, x.parse);
            var e := Cycle.End(env, s, Some(l), i);
            && v4.Ok? && v6.Ok? && AllBlocks(v4.prefixes) && AllBlocks(v6.prefixes) && AllBlocks(l.v4) && AllBlocks(l.v6)
            && ValidAnswer(served.answer)
            && (Covered(l.v4, a) <==> Feed.Listed(served.answer.v4, a) || Covered(v4.prefixes, a))
            && (Covered(l.v6, a) <==> Feed.Listed(served.answer.v6, a) || Covered(v6.prefixes, a))
            && (Reaches(Marked(env, e.nft), a) <==>
                  || Feed.Listed(served.answer.v4, a) || Feed.Listed(served.answer.v6, a)
                  || Covered(v4.prefixes, a) || Covered(v6.prefixes, a))
            && s.live.Some?
            && ((InSync(s) || Cycle.Swaps(env, s, Some(l), i)) && OwnMarkers(env, s.live.value) ==>
                  (Reaches(Advertised(env.read, e.running), a) <==>
                     || Reaches(Outside(env, Splice.CutAtBlocks(s.live.value, Marks(env))), a)
                     || Feed.Listed(served.answer.v4, a) || Feed.Listed(served.answer.v6, a)
                     || Covered(v4.prefixes, a) || Covered(v6.prefixes, a)))
  {
    hide GoodEnv, Steps, Nil, Marked, Covered, Aggregated, Reaches, Networks, Outside, OwnMarkers, Marks, InSync;
    hide Splice.Apart, Splice.FourMarkers, Splice.CutAtBlocks, Cycle.End, Cycle.Swaps, Extras.Loaded;
    hide Extras.GoodParser, Feed.Listed;
    ExtrasBlocks(x);
    NilMarks(env, s, l, i, a);
    NilEnd(env, s, Some(l), i);
    if (InSync(s) || Cycle.Swaps(env, s, Some(l), i)) && OwnMarkers(env, s.live.value) { NilAdvertises(env, s, l, i, a); }
  }

  /** What the cache serves, in terms of the cycles of the history. */
  ghost predicate LatestAnswer(files: Cache.Files, days: seq<Day>, p: Policy, j: nat, answer: Cache.Answer)
    requires j < |days|
  {
    || (exists k: nat :: Cache.LatestWrite(Fetches(days), k, j, p.cached, p.attempts)
                         && Cache.RetryFrom(days[k].fetch.net, p.attempts, 1, None) == Cache.Fetched(answer)
                         && days[j].fetch.now - days[k].fetch.now <= p.maxAge)
    || ((forall k :: 0 <= k < j ==> !Cache.Wrote(days[k].fetch, p.cached, p.attempts))
        && files.cache.Some? && files.cache.value.content == Cache.Full(answer)
        && days[j].fetch.now - files.cache.value.at <= p.maxAge)
  }

  lemma ServedLatest(files: Cache.Files, days: seq<Day>, p: Policy, j: nat, answer: Cache.Answer)
    requires j < |days| && ServedAt(files, days, j, p) == Cache.FromCache(answer)
    ensures LatestAnswer(files, days, p, j, answer)
  {
    hide Cache.Served, Cache.RetryFrom, Cache.Wrote, Cache.After;
    var ts := Fetches(days);
    Cache.CacheHistory(files, ts, j, p.cached, p.maxAge, p.attempts, answer);
    forall k | 0 <= k < j ensures ts[k] == days[k].fetch {}
    if k: nat :| Cache.LatestWrite(ts, k, j, p.cached, p.attempts)
                 && Cache.RetryFrom(ts[k].net, p.attempts, 1, None) == Cache.Fetched(answer)
                 && ts[j].now - ts[k].now <= p.maxAge {
      assert Cache.RetryFrom(days[k].fetch.net, p.attempts, 1, None) == Cache.Fetched(answer);
    }
  }

  /** A cycle of the history starts from a file as the theorems want it. */
  lemma StartsDeployed(env: Env, s: Host, files: Cache.Files, days: seq<Day>, p: Policy, j: nat)
    requires Deployed(env, s) && History(files, days, p) && j < |days|
    ensures Deployed(env, HostAt(env, s, days, j))
    ensures Extras.GoodParser(days[j].extras.parse) && ValidSource(ServedAt(files, days, j, p))
    ensures Worked(days[j].swap.lists, ServedAt(files, days, j, p), days[j].extras)
  {
    hide Deployed, ServedAt, ValidSource, Extras.GoodParser, GoodTurns, Worked;
    HistoryGood(files, days, p, j);
    RunKeepsText(env, s, Swaps(days)[..j]);
  }

  lemma NilHasLists(env: Env, s: Host, lists: Option<Lists>, i: Input)
    requires Nil(Steps(env, s, lists, i).result) && !i.dryRun && i.updateNft
    ensures lists.Some?
  {
    NilEnd(env, s, lists, i);
  }

  /**
    Served from the cache. Over any history of whole cycles, stopped or failing anywhere, take one
    whose feed came from the cache and that returned nil with nft and reload on. The answer is that of
    the latest cycle that fetched and wrote one, no older than the limit, or of the cache file there
    was at the start if none did, and an address is marked exactly when that answer or one of the two
    extras files of the day list it.
    */
  lemma CachedFeedReaches(env: Env, s: Host, files: Cache.Files, days: seq<Day>, p: Policy, j: nat,
                          answer: Cache.Answer, a: Addr)
    requires Deployed(env, s) && History(files, days, p) && j < |days|
    requires ServedAt(files, days, j, p) == Cache.FromCache(answer)
    requires var t, host := days[j].swap, HostAt(env, s, days, j);
             Nil(Steps(env, host, t.lists, t.input).result) && !t.input.dryRun && t.input.updateNft && t.input.reload
    ensures LatestAnswer(files, days, p, j, answer)
    ensures ValidAnswer(answer) && Extras.GoodParser(days[j].extras.parse)
    ensures var t, host, x := days[j].swap, HostAt(env, s, days, j), days[j].extras;
            var v4 := Extras.Loaded(x.pathV4, x.fileV4, 4, x.parse); var v6 := Extras.Loaded(x.pathV6, x.fileV6, 6, x.parse);
            var e := Cycle.End(env, host, t.lists, t.input);
            && v4.Ok? && v6.Ok? && AllBlocks(v4.prefixes) && AllBlocks(v6.prefixes)
            && (Reaches(Marked(env, e.nft), a) <==>
                  || Feed.Listed(answer.v4, a) || Feed.Listed(answer.v6, a)
                  || Covered(v4.prefixes, a) || Covered(v6.prefixes, a))
            && host.live.Some? && Deployed(env, host)
            && ((InSync(host) || Cycle.Swaps(env, host, t.lists, t.input)) && OwnMarkers(env, host.live.value) ==>
                  (Reaches(Advertised(env.read, e.running), a) <==>
                     || Reaches(Outside(env, Splice.CutAtBlocks(host.live.value, Marks(env))), a)
                     || Feed.Listed(answer.v4, a) || Feed.Listed(answer.v6, a)
                     || Covered(v4.prefixes, a) || Covered(v6.prefixes, a)))
  {
    hide *;
    ServedLatest(files, days, p, j, answer);
    StartsDeployed(env, s, files, days, p, j);
    var t, host := days[j].swap, HostAt(env, s, days, j);
    NilHasLists(env, host, t.lists, t.input);
    FeedReaches(env, host, Cache.FromCache(answer), days[j].extras, t.lists.value, t.input, a);
  }
}
