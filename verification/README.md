# georoute: a verified model

georoute turns the prefix feed of one country into two artefacts that must agree: BGP `network`
lines in `frr.conf`, and the elements of two nftables interval sets. This project models that
pipeline in Dafny and proves what it is for.

| file | models |
|---|---|
| `arith.dfy`, `bits.dfy` | powers of two, alignment, bitwise OR and AND on naturals |
| `cidr.dfy`, `canonical.dfy` | addresses and prefixes of both families; canonical prefix lists and why they are the shortest |
| `lastaddr.dfy`, `ranges.dfy` | `lastAddr` on its 16-byte buffer; `rangeToCIDR` |
| `aggregate.dfy`, `feed.dfy` | `aggregate` and `canMerge`; `parsePrefixes`, from feed strings to the two lists |
| `nft.dfy` | the script of `applyNft` and what it does to interval sets |
| `text.dfy`, `splice.dfy`, `render.dfy` | lines and substrings, `splice`, `markers`, `renderNetworks` |
| `readback.dfy` | the file `run` writes and what FRR reads back from it |
| `rollback.dfy` | `applyFRRConfigOpts` and `atomicWrite`, step by step, with a failure at every step |
| `cycle.dfy` | `run`: one cycle and whole runs of cycles that may fail or stop anywhere |
| `deployment.dfy` | the shipped snippet, a router and feeds that meet the assumptions of the theorems, and inputs on which the claims below fail |
| `refresh.dfy` | `refreshLoop` as a concurrent transition system, and what it makes of runs |
| `signal.dfy` | what a signal does to the loop, the calls under way and FRR |
| `shared.dfy`, `interleaving.dfy` | several countries on one `frr.conf`; two runs at once |
| `dotted.dfy`, `iosxe.dfy`, `candidate.dfy` | dotted IPv4 text; the prefix list and the static routes of the IOS XE target; the whole candidate and what it does to a device |
| `space.dfy`, `extras.dfy` | `strings.TrimSpace`; `loadExtras`, the files an operator may write, and the round trip with the file target |
| `cache.dfy` | retries, the feed cache, and its history over many cycles |
| `pipeline.dfy` | `run` from the network to the router, and histories of such cycles |

An address is a family and a number below 2^W, W being 32 or 128; a prefix is an address and a
length (section 3.1 of RFC 4632, section 2.3 of RFC 4291). Code that changes things step by step
is imperative here (`LastAddr`, `RangeToCidr`, `Dedup`, `MergePass`, `Aggregate`, `Router`,
`FeedCache`, `LoadExtras`, the renderers), each method proved against a specification or a
specification function; `splice` and `canMerge` are functions, as in the source.

What the outside world does is a parameter: the outcome of every call (`Faults`, `NftCall`,
`Input`, `Net`), the lines FRR reads (`Reader`), the printed form of a prefix (`Env.show`) and the
prefix parser (`Parser`). A successful reload makes FRR run the file; one that does not start leaves
FRR alone; one that fails or is killed under way leaves it with nothing, all or any part of what it
ran and what it was given. In `refresh.dfy` the outcomes of the calls that get the context become
known one by one, and a call made after the context ended starts nothing.

## Where code and documentation differ

- `docs/ARCHITECTURE.md:62-63` says nft knows every prefix before peers see it. True of every cycle
  that starts in sync (`PlaneOrderingAddresses`). A withdrawn prefix stays advertised after it has
  left the sets. After a stop between write and reload the next cycle can bring back a file with
  addresses the sets no longer hold: `OrderingCanFail` is such a run, and `AddrOrderedExactly` gives
  the exact condition on the start, address by address (`OrderedAfterStop` for this very case). Over
  whole runs nothing is advertised that was not marked at some time before (`RunOrdering`).
- A cycle that finds the file unchanged returns nil without looking at FRR (main.go:663-667), so one
  that starts out of sync stays so: `NilOutOfSync` is a run, and `Converged` says exactly when a nil
  result means FRR runs the file.
- `refresh.go:67-69` says the drain keeps a signal from racing an open transaction. The signal ends
  the context of the cycle: it kills the reload under way and keeps the rollback reload from
  starting. `DrainCanTear` is a run that drains and returns with FRR out of step. `SignalExactly`
  says when, over every interleaving of ticks, cycles and the signal: if reloads fail by the signal
  alone, FRR is out of step exactly when the signal found a reload under way and that reload left
  something else than the old text. A signal just before the reload is reported as an incident too,
  but leaves FRR running the live file (`EarlySignalHarmless`).
- An error of `applyFRRConfigOpts` that names an incident does not mean that FRR is out of step: with
  a wrong `--frr-reload-script` neither reload starts, and FRR runs the old file, which is back
  (`NotStartedHarmless`; exactly when, in `DesyncNeverSilent`).
- `deploy/examples/frr-snippet.conf:9-10` says everything between the markers is replaced. If a begin
  marker is followed by anything but a newline, a carriage return say, the first prefix of the
  family is glued to the marker: `MarkerCanCost` is a file in which FRR does not see it, and
  `ShownExactly` says when the lists are read whole.
- `README.md:28-33` has one binary serve any number of countries, on one `frr.conf`. Their updates
  commute (`UpdatesCommute`), but the lock is one for each country (main.go:179-181), so that runs
  can interleave: `LostInDeployment` is a run in which both report success and the networks of the
  first are not in the file, and `TwoRuns` says exactly when an update is lost, or one that was rolled
  back returns, over every interleaving.
- `README.md:137-139` recommends `--iosxe-replace-prefix-list` when the candidate is the authoritative
  state. The candidate takes no static route back: those of earlier feeds stay on the device, though
  BGP lets out only what the new list permits (`EarlierRoutesStay`).
- `cache.go:139-142` says 4xx errors are never masked by the cache. They are when the process is told
  to stop during the wait after a 4xx attempt: the error is then that of the wait
  (`ClientErrorCanServe`; exact condition in `ClientErrorServes`). A 5xx answer whose body quotes a
  4xx status counts as a client error (`ServerErrorCounts`; exactly when, in `QuotesExactly`).
- `canMerge` (main.go:948-956) also accepts two equal prefixes (`CanMergeExactly`); it is sound
  because `aggregate` calls it on disjoint lists only.

## Model

| member | source | states |
|---|---|---|
| `Cidr.Laminar` | main.go:911-919 | two CIDR blocks are disjoint or the longer prefix lies inside the shorter one, the fact the one-element look-back rests on |
| `Canonical.CanonicalUnique` | main.go:896-946 | a sorted, disjoint list without sibling pairs is determined by its addresses: any two inputs of `aggregate` with the same addresses give the same list |
| `Canonical.CanonicalMinimal` | main.go:896 | no prefix list with the same addresses is shorter: the "minimal covering set" that is promised |
| `LastAddr.LastAddr` | main.go:879-894 | the byte loop over the 16-byte form returns base + 2^(W-bits) - 1 in the prefix's own family, IPv4 held as an IPv4-mapped address |
| `Ranges.WidestMask` | main.go:854-866 | the shortest mask whose block starts at `start` and ends within `end` |
| `Ranges.CoverRange` | main.go:853-874 | the outer loop ends, also at the top of the address space, with a gapless tiling in which no block can be widened |
| `Ranges.RangeToCidr` | main.go:841-877 | the result is canonical, covers exactly [start, end] and has at most 2W - 2 prefixes; mixed families or start > end give nothing |
| `Ranges.TilingCovers` | main.go:853-874 | the greedy blocks cover exactly the range |
| `Ranges.TilingCanonical` | main.go:841-877 | they are sorted, disjoint and free of sibling pairs |
| `Ranges.GreedyIsShortest` | main.go:841 | no list of prefixes for the same range is shorter |
| `Ranges.TilingBound` | main.go:853-874 | 62 prefixes at most for IPv4, 254 for IPv6 |
| `Ranges.BoundReached` | main.go:853-874 | the range without its first and last address takes exactly that many |
| `Aggregate.SortSlice` | main.go:902-909 | an in-place sort: a permutation in the given order |
| `Aggregate.LookBackSuffices` | main.go:914-917 | after sorting, a prefix is inside the last kept one exactly when the loop says so, and otherwise starts after it ends |
| `Aggregate.Dedup` | main.go:911-919 | the kept prefixes are strictly sorted, disjoint, taken from the input and cover the same addresses; a list that is sorted and disjoint already is kept whole |
| `Aggregate.CanMergeExactly` | main.go:948-956 | `canMerge` accepts siblings, and also a prefix and itself |
| `Aggregate.MergePass` | main.go:922-937 | the inner loop is one left-to-right pass, and `changed` says whether anything merged |
| `Aggregate.PassSorted` | main.go:926-939 | a pass keeps the list sorted and disjoint |
| `Aggregate.PassCovers` | main.go:926-939 | a pass keeps the addresses |
| `Aggregate.SiblingsAdjacent` | main.go:927 | in a sorted disjoint list siblings are neighbours, so looking at neighbours finds them all |
| `Aggregate.FixpointCanonical` | main.go:940-942 | when nothing changes any more the list is canonical |
| `Aggregate.PassSettles` | main.go:926-939 | a pass merges every sibling pair present: one left afterwards involves a block it created |
| `Aggregate.PassBound` | main.go:921-943 | at most W + 1 passes, whatever the length of the list |
| `Aggregate.PassBoundReached` | main.go:921-943 | for either family there is a sorted, disjoint list, which sorting and the look-back leave as it is, on which the outer loop makes W + 1 passes |
| `Aggregate.Aggregate` | main.go:896-946 | the result is canonical for the addresses of the input, no longer than it, found in at most W + 1 passes, and in exactly as many as `PassBoundReached` counts if the input is sorted and disjoint; the input is left sorted |
| `Feed.MaskedDenotes` | main.go:820 | `Masked` keeps exactly the addresses that share the leading bits |
| `Feed.ParsePrefixes` | main.go:801-839 | the prefixes cover exactly what the good entries denote; blank and bad ones are skipped |
| `Feed.AggregateFeed` | main.go:584-587 | one family's list is canonical for the union of feed and extras |
| `Feed.FeedDetermines` | main.go:584-587 | two feeds give the same list if and only if they list the same addresses, in whatever order and pieces |
| `Feed.RangeIsAggregated` | main.go:838-877 | aggregating the cover of a range gives that cover back |
| `Nft.AddAllExactly` | deploy/nftables/pbr.nft:16-20 | adding a list to an interval set without auto-merge succeeds exactly when types match and nothing overlaps, and then adds just it |
| `Nft.FlushAdd` | main.go:695-698 | flush and add replace a set's contents whatever they were |
| `Nft.BuildScript` | main.go:693-702 | from any rules at all the script leaves both sets holding exactly the two lists, or fails where a set is missing or of the wrong type |
| `Nft.CommitTwice` | main.go:690-702 | committing the script twice is committing it once |
| `Splice.MarkersDistinct` | main.go:275-280 | for a prefix without spaces or newlines no marker line starts like another |
| `Splice.NoOverlap` | main.go:275-280 | occurrences of marker lines never overlap |
| `Splice.SpliceDefined` | main.go:971-984 | `splice` succeeds exactly when the first end marker stands after the first begin marker |
| `Splice.SpliceErrors` | main.go:971-980 | otherwise the begin marker is missing if it occurs nowhere, and the end marker if it does not occur or first occurs before the begin marker |
| `Splice.PutGet` | main.go:971-992 | writing a block leaves the text before and after it alone, and reading it gives the body back |
| `Splice.PutPut` | main.go:971-992 | of two bodies written only the last counts |
| `Splice.GetPut` | main.go:981-991 | writing back what was read changes nothing exactly when the block is empty or ends in a newline after some text |
| `Splice.SplicesCommute` | main.go:653-661 | for two disjoint regions, v4 first, the two splices commute |
| `Splice.WritesCommute` | main.go:653-661 | the same for regions in either order |
| `Splice.SecondRunUnchanged` | main.go:653-667 | a second run splices the file into itself, the text outside the blocks is untouched and the blocks hold the bodies |
| `Splice.SecondRunEitherOrder` | main.go:653-667 | the same for regions in either order |
| `Render.RenderNetworks` | main.go:958-969 | the block is the network lines joined by newlines, trimmed of newlines at its end |
| `Render.RenderedPlain` | main.go:958-969 | a rendered block holds no marker line and no empty first line |
| `Readback.BlockNetworks` | main.go:981-991 | from a block FRR reads exactly the rendered prefixes, less the first if the begin marker does not end its line, and the text around is read as before |
| `Readback.NextFileNetworks` | main.go:653-661 | the next file always exists, keeps the text around the blocks, and lists what stands outside and the prefixes FRR gets to see, no more |
| `Readback.ShownExactly` | main.go:981-984 | FRR reads both lists whole in the next file if and only if, for each family, the begin marker ends its line, or the list is empty, or its first prefix is listed outside the blocks or seen in the other one |
| `Rollback.DesyncNeverSilent` | rollback.go:61-134 | from a state in sync the swap ends in sync if and only if its outcome names no incident, or one after which what the two reloads did has FRR running the live text; on the new contents if nil, else, without an incident, on the old ones byte for byte |
| `Rollback.SwapExactly` | rollback.go:66-134 | the outcome and the live file in every case: what goes wrong first decides; before the write nothing changes, and after a failed reload the new file stays if there was no old one or it cannot be written back |
| `Rollback.OnlyWritten` | rollback.go:62-64 | with the reload off, at every step FRR runs what it ran and nft is not touched; the file is the new one and the outcome nil if and only if the write succeeds, and the old one otherwise |
| `Rollback.WriteExactly` | main.go:997-1033 | a write leaves the new file if it succeeds and the old one otherwise, and in either case no temporary file |
| `Rollback.NotStartedHarmless` | rollback.go:105-130 | when neither reload starts the outcome is a failed rollback reload, and FRR, file and nft are as before |
| `Rollback.LiveWhole` | rollback.go:93-134 | at every step the live file is wholly old or wholly new |
| `Rollback.AdvertisedBound` | rollback.go:100-134 | at every step FRR advertises nothing but what it did, what the old file lists and what the new one lists |
| `Rollback.Router.AtomicWrite` | main.go:997-1033 | the file changes only by the rename; every failure leaves it and removes the temporary file |
| `Rollback.Router.Reload` | rollback.go:152-170 | a reload loads the file, or does not start and changes nothing, or fails and leaves nothing, all or some of the old and new networks |
| `Rollback.Router.ApplyFrrConfig` | rollback.go:61-134 | the code passes through exactly the states of `ApplySteps` and reports its outcome |
| `Cycle.NoSwap` | main.go:601-667 | a cycle that stops before the swap changes nothing but the nft sets |
| `Cycle.CycleExactly` | main.go:545-688 | the result of a cycle in every case, first things first, and that only a swap changes more than the sets |
| `Cycle.NftExactly` | main.go:629-641 | with nft updates off the rules stay; otherwise each set is replaced by its own family's list, or nothing is, and no other set is touched |
| `Cycle.SetsStay` | main.go:629 | with nft updates off no step of a cycle touches the rules |
| `Cycle.WrittenNotLoaded` | main.go:671-687 | with the reload off a changed file is written and FRR runs what it ran, at every step; nil if and only if the write succeeds |
| `Cycle.SwapStep` | main.go:625-687 | every step of a swap comes after the nft update and shows FRR only old and new prefixes |
| `Cycle.PlaneOrdering` | main.go:625-687 | from a state in sync, at every step every prefix FRR newly advertises is marked; what it advertises unmarked is in the old file and not in the new lists |
| `Cycle.PlaneOrderingAddresses` | main.go:625-687 | the same of addresses |
| `Cycle.Converged` | main.go:625-687 | a nil result with nft and reload on leaves sets and file holding the new lists, the file whole if the begin markers end their lines; FRR runs that file if and only if the cycle started in sync or swapped the file |
| `Cycle.ConvergedAddresses` | main.go:584-687 | then an address is marked exactly when the feed or the extras list it, and advertised exactly when they do or it stands outside the blocks |
| `Cycle.SecondCycleQuiet` | main.go:663-667 | the next cycle on the same lists reports the file unchanged and changes nothing |
| `Cycle.AddrOrderedExactly` | main.go:625-687 | the ordering holds whatever fails if and only if the old file lists no address that FRR does not advertise and the new lists do not hold; otherwise a failed reload that is rolled back breaks it |
| `Cycle.OrderedExactly` | main.go:625-687 | the same comparing prefixes |
| `Cycle.OrderedAfterStop` | main.go:625-687 | after a stop between write and reload the next swap is safe exactly when every address of the stopped lists was advertised before or is in the new lists |
| `Cycle.QuietAfterStop` | main.go:663-667 | after such a stop the next cycle on the same lists returns nil and FRR keeps running the old text |
| `Cycle.TurnKeeps` | main.go:545-688 | wherever a cycle stops, the operator's text stands and only marked prefixes were added |
| `Cycle.RunKeepsText` | main.go:545-688 | over whole runs with stops and failures anywhere the text around the blocks is untouched |
| `Cycle.RunOrdering` | main.go:625-687 | over such runs nothing is advertised or written that was not marked first |
| `Cycle.RunOrderingAddresses` | main.go:625-687 | the same of addresses |
| `Cycle.CycleSync` | main.go:545-688 | a cycle in sync ends in sync exactly when it reports no incident or a harmless one, and an incident is never a nil result |
| `Cycle.RunSync` | main.go:545-688 | over whole runs FRR never falls out of step unless some cycle reported an incident, and one that was not harmless |
| `Cycle.ApplyNft` | main.go:693-723 | one transaction: the replacement or no change, and an error that may hide a commit |
| `Cycle.RunCycle` | main.go:545-688 | the code passes through exactly the states of `Steps`, on lists that aggregate the feed |
| `Deployment.SnippetPlaced` | deploy/examples/frr-snippet.conf:24-62 | a file with the four marker lines set among other lines as the snippet shows has two disjoint, empty blocks whose begin markers end their lines |
| `Deployment.SnippetLines` | deploy/examples/frr-snippet.conf:31-44 | the marker lines for the prefix `RU-FEED` are those of the snippet |
| `Deployment.AssumptionsMet` | deploy/examples/frr-snippet.conf:24-62 | there are an environment, a router in sync whose file has a network of its own, and a feed of both families that meet every assumption of the theorems about cycles and runs, with a cycle that swaps the file and returns nil |
| `Deployment.OrderingCanFail` | main.go:625-687 | a run from a start in sync, stopped between write and reload, after which a cycle on another feed lets FRR advertise an unmarked address |
| `Deployment.NilOutOfSync` | main.go:663-667 | a run after which a cycle returns nil and FRR does not run the file |
| `Deployment.MarkerCanCost` | main.go:981-991 | a file with a carriage return after the begin marker in which FRR does not see the one prefix written |
| `Refresh.MoveKeeps` | refresh.go:43-87 | every move of every goroutine keeps mutual exclusion, the counts and seriality |
| `Refresh.LoopMoves` | refresh.go:76-87 | a tick is taken exactly while the loop selects and dispatches one goroutine; the end of the context is seen exactly then too; the loop returns exactly when it drains, or runs inline, and every goroutine has left |
| `Refresh.TryLock` | refresh.go:43-54 | a goroutine can take the mutex exactly when it is free, and then works on the host as it stands with its own lists and settings; it is skipped exactly when the mutex is taken, which changes nothing but the counter |
| `Refresh.NeverBlocked` | refresh.go:43-54 | in every reachable state each goroutine that has not left can move |
| `Refresh.Serializable` | refresh.go:43-87 | at most one cycle is inside `work`, and the host is where running whole cycles one after the other, and at most one unfinished, leaves it |
| `Refresh.Conservation` | refresh.go:70-87 | dispatched = 1 + ticks = waiting + working + completed + skipped; on return nothing waits or works, the mutex is free, something completed and dispatched = completed + skipped |
| `Refresh.Oneshot` | refresh.go:55-62 | interval zero runs exactly one cycle and skips none |
| `Refresh.DrainNotStuck` | refresh.go:78-83 | while draining some move is always possible |
| `Refresh.DrainEnds` | refresh.go:78-83 | draining takes at most thirty-two moves for each goroutine and one to return |
| `Refresh.DrainReturns` | refresh.go:78-83 | however the drain has gone so far, it can go on to the return |
| `Refresh.Daemon` | refresh.go:31-88 | from a start in sync, with nft and reload on, whatever interleaves, fails or is under way: the operator's text stands, nothing unmarked is added, and with no cycle running FRR runs the live file unless a cycle reported an incident that was not harmless |
| `Signal.MoveKeepsSignal` | rollback.go:88-134 | every move of every goroutine keeps what is known of the calls: a reload failed only after the signal, one not started was followed by one not started, and after a torn reload no later cycle gets anywhere |
| `Signal.TornOrInSync` | rollback.go:105-134 | a cycle from a start in sync whose failed reload was followed by one that could not start ends in sync unless the first left something else than the old text; it then ends with the old file and what that reload left, and reports the failed rollback reload |
| `Signal.SignalExactly` | refresh.go:43-87 | over every interleaving in which reloads fail by the signal alone, whenever no cycle runs and so on return: FRR is out of step if and only if some cycle's reload was torn; then the signal found a reload under way, the host is as that cycle left it, and the failure was reported |
| `Signal.CutInReload` | rollback.go:160-167 | from any router and cycle that gets to the reload there is a run in which the signal finds the reload under way, whatever that leaves, and the loop drains and returns |
| `Signal.CutBeforeReload` | rollback.go:95-105 | and one in which it comes between the write and the reload |
| `Signal.SignalledEnd` | rollback.go:105-134 | where these two end: the old file live, the failed rollback reload reported, and FRR in step if and only if the reload left it on the old text |
| `Signal.DrainCanTear` | refresh.go:67-69 | a run from a router in sync in which the loop drains and returns and FRR does not run the live file |
| `Signal.EarlySignalHarmless` | rollback.go:95-130 | a run in which the signal comes after the write and before the reload: an incident is reported, and FRR runs the live file |
| `Shared.PutMoves` | main.go:971-992 | writing a region moves the marker lines of the regions after it by the change of length, and no others |
| `Shared.PutPlaced` | main.go:971-992 | so regions that stand apart stay apart, in the same order |
| `Shared.PutElsewhere` | main.go:971-992 | writing a region leaves the block of every other region alone |
| `Shared.PutsCommute` | main.go:971-992 | any two regions can be written in either order |
| `Shared.UpdateBlocks` | main.go:653-661 | after a country's update its blocks hold its lists and the other country's blocks what they held |
| `Shared.NothingToDo` | main.go:663-667 | a country finds the file unchanged exactly when its two blocks hold its lists |
| `Shared.UpdatesCommute` | main.go:653-661 | the updates of two countries commute, and each is idempotent |
| `Shared.CountriesDistinct` | main.go:275-280 | marker prefixes neither of which starts like the other give eight lines no two of which start alike |
| `Shared.TwoCountries` | main.go:653-661 | on a file with their regions these updates are the next files of the two countries' cycles, whatever their lists |
| `Shared.MarkersPlaced` | main.go:275-280 | a file of just the marker lines holds every region |
| `Interleaving.TwoRuns` | main.go:648-687 | over every interleaving of two countries' runs, either of whose reloads may fail: the file has a country's update exactly when its run wrote last and did not restore, or the other wrote last, from a text it took up between this one's write and its restore |
| `Interleaving.UpdateLost` | main.go:179-181 | on any such file there is an interleaving in which nothing fails and only the second update is there at the end |
| `Interleaving.UpdateReturns` | rollback.go:110-125 | and one in which a country restores its backup and its update is there at the end all the same |
| `Interleaving.LostInDeployment` | main.go:179-181 | two countries with networks, a fresh file and a run in which both succeed and the first has its networks to write again |
| `Dotted.PrintParse` | target.go:176 | a printed IPv4 prefix parses to itself |
| `Dotted.ParsePrint` | extras.go:114 | only the printed form parses to a prefix: no leading zeros, no other spelling |
| `Iosxe.RenderPrefixList` | target.go:43-58 | one permit for each prefix, in order, numbered by the step, ten if it is not positive, then the deny of everything at 999999; nothing for an empty list |
| `Iosxe.ReplacedMeaning` | target.go:43-58 | in replace mode, over any prior state of the device, the list permits exactly the first 99,999 prefixes |
| `Iosxe.ExactUpTo` | target.go:21 | so it means exactly the given list if and only if that has at most 99,999 entries |
| `Iosxe.EarlierShowsThrough` | target.go:156-158 | without replace mode the device permits the new list and the earlier entries beyond its length, or the earlier list where taken numbers are refused |
| `Iosxe.MaskReadsBack` | target.go:126-141 | for every length from 0 to 32 the dotted mask read as a word is 2^32 - 2^(32-bits) |
| `Iosxe.MaskMeans` | target.go:98-101 | the addresses x with x AND mask equal to the base are exactly those of the prefix |
| `Iosxe.RenderStaticRoutes` | target.go:87-112 | the routes cover exactly the addresses of the IPv4 prefixes; without a next hop there are none |
| `Candidate.RenderCandidate` | target.go:143-167 | the commands of every part, in order: the rows below say what they do to a device |
| `Candidate.CandidateList` | target.go:143-167 | in replace mode, on a device in any state, the list permits exactly the first 99,999 prefixes |
| `Candidate.CandidateListAdds` | target.go:156-158 | without replace mode, after two feeds the list permits the second and what the first had beyond its length, or the first and what the second has beyond, depending on the device |
| `Candidate.CandidateListEmpty` | target.go:43-46 | with no prefixes the list goes in replace mode and stays as it is otherwise |
| `Candidate.CandidateRoutes` | target.go:87-112 | on a device in any state the static routes are the old ones with those of the prefixes added or renewed; an address is routed exactly when it was before or a prefix covers it |
| `Candidate.CandidateLetsOut` | target.go:114-124 | in replace mode `redistribute static` lets out exactly the first 99,999 prefixes that have a static route, and none if the deny entry is numbered up to the permit; the route map must hold no entries of somebody else |
| `Candidate.CandidateOutEntries` | target.go:60-73 | on a device in any state the outbound map gets its permit, 10 by default, matching the list beside what it matched, and its deny, 9999 by default; its other entries stay |
| `Candidate.CandidateOutbound` | target.go:153 | in replace mode the outbound map lets through exactly the first 99,999 prefixes if its permit is numbered below its deny, and no route otherwise; it must hold no entries of somebody else |
| `Candidate.CandidateLeak` | target.go:152 | likewise the map for the VRF leak, which has the permit alone, 20 by default |
| `Candidate.CandidateElsewhere` | target.go:143-167 | lists, route maps and BGP processes that the flags do not name stay; the map for static routes is rendered only with a next hop or a BGP process |
| `Candidate.EarlierRoutesStay` | target.go:143-167 | after two feeds the static routes of both are on the device, and those of the second alone are let out |
| `Extras.LoadExtras` | extras.go:62-138 | the scanner loop is the line-by-line reading, with its limits, the errors of the file and the line number of the first bad line |
| `Extras.LoadExactly` | extras.go:95-137 | it succeeds exactly when every line fits and every text is a prefix of the family, and returns them masked, in order |
| `Extras.LoadedExactly` | extras.go:62-138 | what a flag and its file give in every case: nothing for an unset flag, the error of the file, and otherwise, if and only if every line is under 4096 bytes, every text is a prefix for the flag and the file is read to its end, those prefixes masked, in order |
| `Extras.LoadedFamily` | extras.go:144-153 | an IPv4 file gives IPv4 prefixes, an IPv6 file IPv6 ones of which none is IPv4-mapped |
| `Extras.FirstBadLine` | extras.go:95-133 | the first bad line decides and the error has its number: too long, no prefix, or a prefix for the other flag; an IPv4-mapped one is for neither |
| `Extras.NoiseIgnored` | extras.go:95-126 | files with the same texts load alike, up to the line an error names |
| `Extras.CleanedDecorated` | extras.go:105-109 | white space, of all Unicode, around a text and a comment after it are stripped |
| `Space.TrimVisible` | extras.go:109 | `strings.TrimSpace` removes white space around a text and nothing else |
| `Space.WhiteExactly` | extras.go:109 | white space is the UTF-8 form (section 3 of RFC 3629) of the White_Space code points of Unicode |
| `Extras.Inserted` | extras.go:105-112 | a blank or comment line after the first line changes no text |
| `Extras.InsertedFirst` | extras.go:101-112 | so does one before the first line, unless that starts with a byte-order mark |
| `Extras.Marked` | extras.go:98-103 | a byte-order mark in front changes no text |
| `Extras.LaterMarkStays` | extras.go:98-103 | on a later line a byte-order mark is not stripped |
| `Extras.RenderPrefixLines` | target.go:169-180 | the printed prefixes joined by newlines |
| `Extras.SpelledFile` | extras.go:62-138 | any file of at most 1 MiB whose fitting lines each hold white space, a printed prefix or nothing, white space and perhaps a comment, with or without a byte-order mark, carriage returns and a final newline, loads as exactly those prefixes; a larger one is refused |
| `Extras.RoundTrip` | target.go:169-180 | the file target's output given back as an extras file is the list it was rendered from if it is within 1 MiB, and refused otherwise |
| `Cache.FetchWithRetry` | main.go:738-761 | the loop is the attempts in order, with a wait before each but the first |
| `Cache.RetryMeaning` | main.go:738-761 | the first success wins unless a wait before it is cancelled; with neither, the error is that of the last attempt |
| `Cache.ContainsStr` | cache.go:199-210 | true exactly when the text occurs |
| `Cache.IsClientError` | cache.go:182-195 | true exactly for an HTTP error whose message quotes a status from 400 to 499 |
| `Cache.QuotesExactly` | cache.go:182-195 | that is: the status is one, or the body quotes one |
| `Cache.ServerErrorCounts` | cache.go:182-195 | a 503 whose body is `status=404` counts as a client error |
| `Cache.CacheWhole` | cache.go:44-98 | a write stopped or failing anywhere leaves the old cache file or the complete new one, never a truncated one |
| `Cache.FeedCache.WriteCachedFeed` | cache.go:47-98 | the code passes through exactly the states of `WriteSteps`, of which `CacheWhole` speaks, and reports whether the rename was reached |
| `Cache.FeedCache.ReadCachedFeed` | cache.go:103-137 | the stored feed if it is there, readable and no older than the limit |
| `Cache.FeedCache.FetchWithCache` | cache.go:146-177 | what is served and what is kept; the two rows below say what that is |
| `Cache.ServedExactly` | cache.go:146-177 | in every case: the answer of the first attempt that succeeds; without one, unless the last attempt ended in a client error, the cached answer if and only if there is a cache and its file is there, can be opened, is complete and no older than the limit; the error that applies otherwise |
| `Cache.KeptExactly` | cache.go:148-158 | a new cache file if and only if an answer was fetched, there is a cache and the write succeeds; the old one otherwise |
| `Cache.LastIsClientErrorExactly` | cache.go:182-195 | the fetch ends in a client error if and only if no wait was cancelled and the last attempt was answered with a 4xx status or with a body that quotes one |
| `Cache.CacheHistory` | cache.go:146-177 | over any history, stopped or failing anywhere, a feed served from the cache is that of the latest cycle that fetched and wrote it, or of the file there was at the start, no older than the limit |
| `Cache.ClientErrorServes` | cache.go:161-176 | a cycle whose last attempt ended in 4xx serves the cache if and only if the wait after it was cancelled and the cache is usable |
| `Cache.ClientErrorCanServe` | cache.go:161-176 | such a cycle exists |
| `Pipeline.WholeCycle` | main.go:545-688 | fetch with the cache behind it, extras, aggregation, nft and the swap in one: cache and router pass through exactly the states of their parts, on lists that are canonical for each family's feed and extras together; without a feed or an extras file the cycle fails |
| `Pipeline.FailsExactly` | main.go:549-582 | a cycle fails for want of input if and only if no feed was had, fresh or cached, or one of the two extras files does not load |
| `Pipeline.FeedReaches` | main.go:584-687 | after a cycle that returned nil, on a fresh or a cached feed, an address is marked exactly when the feed's IPv4 or IPv6 entries or one of the two extras files list it, each list holding its own family's sources; FRR advertises those and what stands outside the blocks if the cycle started in sync or swapped and the markers end their lines |
| `Pipeline.CachedFeedReaches` | main.go:545-688 | over any history of whole cycles, stopped or failing anywhere, one that was served from the cache and returned nil worked on the answer of the latest cycle that fetched and wrote one, no older than the limit, or of the file there was at the start, and has the same effect |

## Left out

- HTTP, JSON, gzip, SSH, exec, flock, signals, metrics, health endpoints and logging: only success or failure is kept, as an outcome of the call. A feed written to the cache is taken to decode to itself.
- `net/netip` text for IPv6 and IPv6 zones: the parser of `LoadExtras` is a parameter that must agree with the modelled one on IPv4; feed strings are modelled as parsed entries.
- Aggregate.SortSlice: stands in for `sort.Slice`, of which only the contract (a sorted permutation) is used; prefixes that compare equal are equal.
- Rollback.Router.AtomicWrite: names of temporary files, and those a stopped process leaves behind; the staging file of the syntax check.
- Rollback.Router.Reload: what a failed reload leaves is any part of what FRR ran and was given, not the individual vtysh commands; nothing of it is a text FRR runs unless it left nothing or all.
- Refresh.Serializable: the loop is a transition system on values, because goroutines, the mutex and the wait group have no imperative counterpart here; panics inside `work` are not modelled.
- Splice.SecondRunEitherOrder: nested or interleaved marker regions, where `splice` deletes markers; each region must stand wholly before or after the other.
- Readback.NextFileNetworks: names and printed prefixes without `!` or newlines, and FRR reading nothing from an empty line or one that holds a marker.
- Cycle.RunCycle: the nft script is modelled as commands, not as text; the two set names are different; targets other than `frr` leave the cycle early and are modelled by what they render; edits of the files by others during a run, but for another country's run (`Interleaving`).
- Interleaving.TwoRuns: speaks of the file; what FRR runs between the two runs' reloads is not modelled, nor a write that fails.
- Signal.SignalExactly: a reload that fails for another reason, or an old file that cannot be written back; `Refresh.Daemon` speaks of those.
- Pipeline.WholeCycle: a stop of the process in the middle of the method; `CachedFeedReaches` speaks of histories with stops.
- Candidate.CandidateLetsOut: next hops are taken as reachable, and other routes of BGP are not modelled; with an empty list in replace mode the route maps match a list that is not there.
- Iosxe.ReplacedMeaning: the numbering step is the default of ten, the only one the candidate uses.
- Extras.SpelledFile: speaks of IPv4 lists; for IPv6 `LoadExactly` holds with the parser as a parameter.
- Cache.CacheHistory: one process at a time writes the cache file; a temporary file that a stopped write leaves behind is taken over by the next.
- Flag defaults, mode validation, hashing, sample printing and the SSH apply guard: they would only add easy members.
