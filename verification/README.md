# A verified model of the build cache

The cache keeps objects by key in *tiers*: a disk with a size budget, a bucket, a remote server. A
chain of tiers acts as one store, an upload queue writes to the bucket behind the caller's back, a
breaker keeps a dead server from slowing builds down, and the Go build front-end stores its action
records and outputs through all of that. This project models those parts in Dafny 4.11 and proves
what each of them is for. `dafny verify dfyconfig.toml` checks everything.

## How the project is laid out

| file | what it holds |
|---|---|
| `Keys`, `Sorting`, `Sums`, `Int64`, `Tiers` | key order and front-end names; sorting by a strict order; sums over sequences; int64 wrap-around; metadata, objects, errors |
| `Lru`, `LruIndex` | the index as a value (a list from most to least recently used, the cold flag, the tombstones) and as the class the source has: map, doubly linked list, running totals |
| `Eviction`, `IndexMap` | what `takeLRU` removes, said without its loop; the list seen as a map |
| `Watermarks`, `Collection` | the collector's arithmetic; one pass and one admission on the value of the index |
| `Volume`, `Store` | the disk tier as a value, and the classes `Disk` and `Gc` that carry it out |
| `Walk`, `Phantoms`, `Recency`, `LastUse`, `Budget` | runs: the start-up walk beside whole operations, what a race it loses leaves and until when, recency after it by the times kept and by the operations done, the budget over any sequence of Puts |
| `Listing` | paging |
| `Chain`, `ChainRuns`, `ChainAlone`, `SharedFlights`, `StaleCopies` | the chain called once (module `TierChain`); any number of calls interleaved step by step; that one uninterrupted call of the second is the first; what callers that share a flight are given; when an older copy replaces a newer body |
| `UploadQueue`, `Breaker` | the queue as an interleaved transition system; the breaker as a class and over all runs |
| `ActionRecord`, `BuildCache`, `CrashOrder`, `BuildAlone`, `RecordRaces` | the action record and the key layout; lookups; Puts and Gets interleaved and cut off anywhere; that one uninterrupted call is the lookup or the Put; when a record survives the Gets beside it |
| `BucketDelete`, `Wire` | prefix deletion in batches; bodies and errors crossing the network |

Classes follow the source's objects and each method is proved against a function on values; the
laws are lemmas about those functions. Failures of the file system, of a tier or of a temp file,
clock readings and the order a map is iterated in are parameters or arbitrary choices, so a theorem
covers all of them.

## What the proofs found

- **The walk can unlink a good file.** Between reading a header it cannot decode and unlinking the
  name (`engine/disk/disk.go:726-733`), a Put may have replaced the file. `Walk.RaceExact` shows that
  this is the only step that leaves an index entry without a file; `Walk.RaceReachable` gives the run, and
  `Phantoms.ExactUnlessHaunted` says of every run which entries have no file: the raced keys not written,
  deleted or evicted since.
- **Watermarks can be reversed.** A low mark of 0 or less (read as 85) with a high mark of 1 to 85
  puts low at or above high: `Watermarks.WatermarksOrdered` is the exact condition. With an uncapped
  front-end, every pass ends at or under the high mark if and only if the low mark is not above it or is
  under a single header (`Collection.CollectHighExact`); `Collection.CollectOverHigh` gives the index otherwise.
- **`pct` is not monotone in the volume** across its branch (`Watermarks.PctDipsAtSplit`). Two volumes
  keep the order of their marks at every percentage if and only if both lie on one side of the branch
  or the larger one's whole hundreds reach the smaller (`Watermarks.PctMonotoneInVolume`).
- **Admission wraps.** Header and declared size are added in int64 (`engine/disk/disk.go:329`), so a
  declared size above 2^63-1025 claims a negative number and is admitted unseen; used and claim are added
  in int64 too (`engine/gc/gc.go:206`), so under a budget above 2^62 a sum can wrap and read as room.
  `Budget.PutStaysWithin` is the exact condition under which no Put of a body within its declared size
  takes a settled volume past its budget, `Budget.Overflow` the volume and body otherwise; up to 2^62 only the first
  addition matters (`Budget.SmallBudgetsFit`).
- **The budget needs its collector attached.** A Put consults a collector only after `SetSpaceManager`
  or `WithSpaceManager`, and outside tests nothing in the repository calls either:
  `cmd/ci-cache/serve.go:118` and `agent/agent.go:248` build and start a collector without attaching it,
  so there Puts are not admitted at all and only later passes shrink the volume. The budget theorems are
  about a disk with its collector attached.
- **A spilled fault-in may serve only some of its callers.** Callers that shared one flight of an empty,
  unknown-size or large object open one temp file, and each that has opened it unlinks the name. In every
  run a caller is served if and only if its open works and comes before every such unlink
  (`SharedFlights.SpillServes`); without any failure one of two can be told of an error
  (`SharedFlights.SharedSpillFails`) or both can be served (`SharedFlights.SharedSpillServes`). A body of
  1 byte to 8 MiB serves them all.
- **Faulting forward nearest-last leaves no gap exactly when every tier in front of one that refused its
  copy refused too** (`TierChain.ForwardGapless`; `ChainRuns.NearestLast` covers all interleavings of Gets
  whose copies do not fail). The comment at `engine/chain/chain.go:157-159` states it without a condition.
- **A Get can delete the record a Put has just written.** A Get that read an older record whose output has
  gone, or an unusable one, deletes the key whatever is there by then (`frontend/gobuild/gobuild.go:129-137`,
  `frontend/gobuild/gobuild.go:242-256`). `RecordRaces.RecordSurvives` is the exact condition under which a
  record survives everything under way and to come, `RecordRaces.ThreatReachable` a run from an empty cache
  to a record that does not.
- **A forward copy can bring back an older body.** For a key that may be written again, a Get that read the
  old body behind copies it over what a Put has since left in front (`engine/chain/chain.go:157-183`):
  `StaleCopies.StaleReachable` is the run. `StaleCopies.PutStaysShown` is the exact condition, over all
  continuations, under which what a Put left stays what the chain shows.
- **An upload whose source fails ends cleanly.** The client's Put closes the stream when reading its
  source fails (`engine/remote/remote.go:364-370`), so the server sees the end of a whole body, where
  the server's Get answers the same failure with an error. `Wire.Transfer` states both directions: a
  clean end means a whole source if and only if this is not an upload whose source failed.
- **A declined write-behind is dropped.** The comment at `engine/bucket/queue.go:270-274` says the object
  is written inline; the chain (`engine/chain/chain.go:266-278`) drops it, and so does the model.
- **A record holds instants an int64 of nanoseconds can name and no others**
  (`ActionRecord.RoundTrip`), and a saved index loads back exactly when every entry has a key, a
  positive size on disk and the front-end its key implies (`Lru.SaveLoad`).

## Model

| member | source | states |
|---|---|---|
| `LruIndex.LinkedUnique` | engine/disk/index.go:95-121 | the pointers determine one sequence: any two that a heap's head, tail, prev and next represent are equal |
| `LruIndex.Index.constructor` | engine/disk/index.go:85-93 | a new index is valid, empty, cold and has no tombstones |
| `LruIndex.Index.LinkFront` | engine/disk/index.go:96-106 | the node goes before the whole list and both directions of pointers stay right |
| `LruIndex.Index.Unlink` | engine/disk/index.go:109-121 | exactly the node at its position leaves, the others keep their order and their links both ways |
| `LruIndex.Index.Account` | engine/disk/index.go:126-137 | the front-end's record moves by the given counts and disappears when nothing is left |
| `LruIndex.Index.Set` | engine/disk/index.go:141-160 | validity (pointers, map, totals, per-front-end totals) is kept and the new entry replaces any old one at the front; its tombstone goes |
| `LruIndex.Index.AddIfAbsent` | engine/disk/index.go:169-188 | the entry is taken exactly when the key is neither held nor dead, and then goes to the front; validity is kept |
| `LruIndex.Index.Touch` | engine/disk/index.go:191-202 | a held entry moves to the front with the new time, nothing else changes; the answer says whether it was held |
| `LruIndex.Index.Remove` | engine/disk/index.go:205-227 | the entry leaves and is returned, and while cold the key is remembered as dead, held or not; validity is kept |
| `LruIndex.Index.TakeLru` | engine/disk/index.go:240-260 | list, totals, tombstones and returned victims are those of the functional take; validity is kept |
| `LruIndex.Index.Stats` | engine/disk/index.go:283-287 | the running totals are the length and the byte sum recomputed from the list |
| `LruIndex.Index.UsedBy` | engine/disk/index.go:289-296 | the per-front-end totals are those recomputed from its own entries, zero when it holds none |
| `LruIndex.Index.Collect` | engine/disk/index.go:313-318 | whatever order the map gives, every live entry is gathered once |
| `LruIndex.Index.Relink` | engine/disk/index.go:319-324 | relinking from the last to the first makes the list the given sequence |
| `LruIndex.Index.FinishWalk` | engine/disk/index.go:304-324 | the list becomes the same entries newest first, the index is warm, tombstones are gone, totals and validity kept |
| `LruIndex.Index.Save` | engine/disk/index.go:411-423 | the records written are those of the list, head first |
| `LruIndex.Index.Load` | engine/disk/index.go:480-506 | list, links and totals are those of the usable records in their order, whatever the file says; the index is valid if and only if they name each key once |
| `LruIndex.Index.Seed` | engine/disk/index.go:491-504 | one record joins list, links and totals even when its key is there already; the map stays right as long as no key came twice |
| `Lru.SortsByAccess` | engine/disk/disk.go:778-788 | the repaired order is strictly newest first, key breaking ties, and a permutation of what it held |
| `Lru.SaveLoad` | engine/disk/index.go:411-506 | loading what was saved gives the same list if and only if every entry has a key, a positive size on disk and its own front-end |
| `Lru.RepairKeeps` | engine/disk/disk.go:199-204 | the repair after a load keeps the order if and only if it was newest first, in particular for strictly decreasing times |
| `Eviction.TakeRun` | engine/disk/index.go:240-260 | victims are a run of the candidates counted from the tail, worth n bytes or all there are |
| `Eviction.TakeStops` | engine/disk/index.go:240-260 | no shorter run would do: every proper prefix of the victims is worth less than n |
| `Eviction.TakesLeast` | engine/disk/index.go:240-260 | where every entry is a candidate and there is enough, victims are the shortest run from the tail, and what is left is at most what was asked for and more than that less the last victim |
| `Eviction.TakesFromTail` | engine/disk/index.go:240-260 | every victim stands behind every candidate that is spared |
| `Eviction.TakeRest` | engine/disk/index.go:240-260 | what remains is the old list without the victims, in its order |
| `Eviction.TakeMembers` | engine/disk/index.go:240-260 | victims were held and match; victims and rest together are the old entries and their bytes add up |
| `Eviction.TakeSpares` | engine/disk/index.go:240-260 | a restricted take leaves every other front-end's entries as they were |
| `Eviction.TakesOldest` | engine/disk/index.go:230-260 | in a list ordered by use no victim was used later than a surviving candidate |
| `Eviction.TakeIsLocal` | engine/disk/index.go:240-260 | a restricted take's victims depend on that front-end's own entries only |
| `Eviction.TakeFrees` | engine/disk/index.go:240-260 | asking for no more than the candidates hold frees at least that much |
| `IndexMap.DictSet` | engine/disk/index.go:141-160 | as a map, set is an update of one key |
| `IndexMap.DictAdd` | engine/disk/index.go:169-188 | as a map, addIfAbsent changes nothing when the key is held or dead and is an update of one key otherwise |
| `IndexMap.DictTouch` | engine/disk/index.go:191-202 | as a map, touch changes one entry's time |
| `IndexMap.DictTake` | engine/disk/index.go:240-260 | as a map, takeLRU removes exactly the victims' keys |
| `IndexMap.DictFinish` | engine/disk/index.go:304-324 | as a map, the end of the walk changes nothing |
| `Keys.FrontendDir` | engine/disk/disk.go:608-624 | the directory component is never empty, has 1 to 64 characters and only letters, digits, dash and underscore |
| `Keys.TokenIsItsDir` | engine/disk/disk.go:608-624 | a key that is a plain token is its own front-end |
| `Keys.SegmentDecides` | engine/disk/disk.go:608-624 | whatever follows the first slash, the segment before it is the front-end if it is a short token, and the underscore is otherwise |
| `Keys.TokensAreSafe` | engine/disk/disk.go:608-624 | a token has no slash, dot or NUL, and every name of 1 to 64 plain characters is one |
| `Keys.LessExact` | engine/disk/disk.go:480-480 | the order of keys is that of the first character in which they differ, a proper prefix coming first |
| `Watermarks.PctExact` | engine/gc/gc.go:333-341 | for int64 volumes and 0 to 100 percent no intermediate leaves int64; the result is in 0..v, at most the exact floor and less than 100 below it |
| `Watermarks.PctBounds` | engine/gc/gc.go:336-341 | the same bounds on the result for volumes of any size |
| `Watermarks.PctMonotone` | engine/gc/gc.go:336-341 | monotone in the percentage |
| `Watermarks.PctDipsAtSplit` | engine/gc/gc.go:337 | not monotone in the volume: half of one byte more can be less |
| `Watermarks.PctMonotoneInVolume` | engine/gc/gc.go:336-341 | every percentage of the smaller volume is at most that of the larger if and only if both lie on one side of the branch or the larger one less its remainder by 100 reaches the smaller |
| `Watermarks.Floor` | engine/gc/gc.go:307-317 | the floor is always 0 to 90 percent |
| `Watermarks.High` | engine/gc/gc.go:319-324 | the high mark is always 1 to 100 percent |
| `Watermarks.Low` | engine/gc/gc.go:326-331 | the low mark is always 1 to 99 percent |
| `Watermarks.SettingsTaken` | engine/gc/gc.go:307-331 | settings that make sense are the marks and the floor, each that does not is its default, and a configuration that says nothing gives 10, 95 and 85 |
| `Watermarks.WatermarksOrdered` | engine/gc/gc.go:319-331 | low is below high if and only if the configuration is not Low at most 0 with High in 1..85 |
| `Watermarks.RefreshedSafe` | engine/gc/gc.go:286-305 | a measured budget leaves the floor free; a failed measurement keeps the previous budget and never leaves zero |
| `Watermarks.RefreshedExact` | engine/gc/gc.go:292-305 | a configured budget is the budget; a measured one is within 100 bytes below what the floor leaves; otherwise the previous one stays or 2^60 stands in |
| `Collection.EmptyNameSpares` | engine/gc/gc.go:274-285 | no entry is filed under the empty name, so a cap spelled that way evicts nothing and takeLRU never sees it |
| `Collection.CapHonoured` | engine/gc/gc.go:274-285 | a cap's victims are that front-end's own and removing them brings it within the cap |
| `Collection.CapTakesLeast` | engine/gc/gc.go:274-285 | a cap takes something if and only if the front-end is over it, and then the shortest run from its tail: what is left is within the cap and above it less the last victim |
| `Collection.CapsTakeLeast` | engine/gc/gc.go:274-285 | after all caps each front-end at or under its cap, or without one, is as it was, and each that was over lost the shortest run that brings it within |
| `Collection.OthersSpare` | engine/gc/gc.go:254-258 | a front-end loses nothing to the caps of others |
| `Collection.CapStep` | engine/gc/gc.go:274-285 | whichever caps were enforced before, the next one takes the same victims: the iteration order does not matter |
| `Collection.CapsIndependent` | engine/gc/gc.go:274-285 | after all caps a front-end has lost exactly what its own cap takes |
| `Collection.CollectedMinus` | engine/gc/gc.go:248-272 | a pass only removes; what stays keeps its order and is sound |
| `Collection.CollectHonoursCaps` | engine/gc/gc.go:248-285 | after a pass every front-end with a cap in 1..100 is within it |
| `Collection.TotalPassStops` | engine/gc/gc.go:260-271 | a total pass that evicts ends at or under its target and above the target minus its last victim |
| `Collection.TotalPassTakesLeast` | engine/gc/gc.go:260-271 | the total pass takes something if and only if the volume is over the high mark and over the target, and then the shortest run from the tail |
| `Collection.PassLeavesAlone` | engine/gc/gc.go:248-272 | a pass changes nothing if and only if every cap is met and the volume is at or under the high mark with its headroom or at or under the target without |
| `Collection.CollectUnderHigh` | engine/gc/gc.go:248-272 | a pass ends at or under the high mark unless the low mark lies above it |
| `Collection.CollectOverHigh` | engine/gc/gc.go:260-271 | otherwise, from a header up, there is an index of entries as operations make them that a pass leaves over the high mark |
| `Collection.CollectUnderHeader` | engine/gc/gc.go:260-271 | a low mark under a single header leaves nothing behind, so the high mark holds then too |
| `Collection.CollectHighExact` | engine/gc/gc.go:248-272 | over all indexes operations can make, some front-end being uncapped, a pass ends at or under the high mark if and only if the low mark is not above it or is under a header |
| `Collection.CollectMakesRoom` | engine/gc/gc.go:248-272 | a pass with headroom makes room for anything the budget can hold, when used plus headroom does not wrap |
| `Collection.AdmitExact` | engine/gc/gc.go:195-216 | a positive size is refused if and only if it exceeds the budget; nothing is evicted for one that is refused or fits already; an admitted one fits beside what is used if and only if the int64 sum Admit computes does not wrap |
| `Volume.ReclaimedTwice` | engine/disk/disk.go:545-559 | evicting in two goes is evicting the union, in index, tombstones and files |
| `Volume.EvictedReclaims` | engine/disk/disk.go:545-559 | an eviction is the removal of its victims from index and volume, remembered as dead while cold |
| `Store.Disk.Observe` | engine/disk/disk.go:641-653 | a key that was held, or was not dead, heads the list with the time of the hit and the rest is the old list without it; a key not held is entered with the file's current size |
| `Store.Disk.Get` | engine/disk/disk.go:269-301 | an object if and only if the file can be opened and is good, and then it is that file's; the hit is a use, the key heading the list with this time; a file that cannot be decoded leaves index and volume; an open that fails otherwise is an error that changes nothing; no other file changes |
| `Store.Disk.Stat` | engine/disk/disk.go:416-439 | the same state change as Get, the use included, and the same answer without the body |
| `Store.Disk.Delete` | engine/disk/disk.go:442-448 | the key leaves the list, which is otherwise as it was, and is remembered as dead while cold; its file goes unless the unlink fails, an error exactly when it is still there |
| `Store.Disk.Unlink` | engine/disk/disk.go:545-559 | every victim's name goes unless its unlink fails and all their bytes are counted |
| `Store.Disk.Evict` | engine/disk/disk.go:545-559 | volume, index and tombstones lose exactly the victims; the bytes returned are theirs |
| `Store.Disk.DeletePrefix` | engine/disk/disk.go:490-511 | the list and the volume lose exactly the keys under the prefix, those whose unlink fails staying on the volume; entries and bytes counted plus those of the failed unlinks are exactly what left the index; what failed is exactly what is still on the volume |
| `Volume.ReclaimOne` | engine/disk/disk.go:494-509 | deleting one more key finds its entry, takes its bytes off the total and is the removal of the larger set |
| `Store.Disk.Put` | engine/disk/disk.go:304-413 | without an error the file is exactly these bytes under this metadata and their real length, and its entry heads the list; a write-once key present is refused and used, and nothing else is ever refused that way; a cancelled or nameless Put changes nothing; every other file, and on an error every file, is as it was or was evicted by the collector |
| `Store.Disk.Commit` | engine/disk/disk.go:304-413 | new state and error are those of the functional Put: cancellation, empty key, write-once rule, admission of header plus declared size in int64, failing write, then file and entry together |
| `Volume.PutStores` | engine/disk/disk.go:304-413 | for every volume, limit and failure: the bytes a Put without an error leaves are the caller's, and no other file changes but by the collector's evictions, each of which leaves index and volume together |
| `Volume.PutKeepsPromises` | engine/disk/disk.go:304-413 | all of Put's promises at once: contents, head of the list, when it refuses, and what it leaves alone |
| `Volume.HitIsUse` | engine/disk/disk.go:641-653 | after a hit the key heads the list with the time of the hit, its entry as known or as the file says, and the rest is the old list without it |
| `Store.Gc.constructor` | engine/gc/gc.go:124-140 | the first budget is the configured, measured or fallback one |
| `Store.Gc.RefreshBudget` | engine/gc/gc.go:292-305 | the configured budget, else the measured one, else the previous or fallback one |
| `Store.Gc.EnforceCap` | engine/gc/gc.go:274-285 | one front-end's iteration adds exactly its cap's victims to what the earlier ones removed |
| `Store.Gc.EnforceSubBudgets` | engine/gc/gc.go:274-285 | for every iteration order the volume loses the same set of keys, and evicted rises by what used falls |
| `Store.Gc.Collect` | engine/gc/gc.go:248-272 | index and volume are those of the functional pass, evicted bytes rise by exactly the fall in used bytes, runs by one |
| `Store.Gc.Admit` | engine/gc/gc.go:195-216 | a positive size is refused exactly when it exceeds the budget; the volume loses exactly what one pass takes, if one was needed |
| `Walk.StepKeeps` | engine/disk/disk.go:641-753 | every step of the walk, Put, Get, Delete and eviction but the lost race keeps: no phantom, dead keys have no file, every file is indexed, listed, in an unlisted directory or in the walk's hand |
| `Walk.RaceExact` | engine/disk/disk.go:726-733 | a step leaves an entry without its file or with a stale size if and only if it is the walk's unlink of a file replaced since |
| `Walk.RaceReachable` | engine/disk/disk.go:726-733 | there is a run in which that happens |
| `Walk.NeverPhantom` | engine/disk/index.go:139-227 | at every moment of every other run each entry stands for a file that is there, with its current size |
| `Walk.WalkExact` | engine/disk/disk.go:686-753 | after the walk has run to its end the index holds exactly the files on the volume with their current sizes, and keeps doing so |
| `Phantoms.ExactUnlessHaunted` | engine/disk/disk.go:686-753 | in every run, races lost or not, the entries without a file are exactly the raced keys not written, deleted or evicted since; a finished walk leaves the index exact if and only if there is none |
| `Phantoms.LeftIs` | engine/disk/disk.go:726-733 | such a key is one the walk raced at some step and no step from there on wrote, deleted or evicted |
| `Recency.WarmRecent` | engine/disk/index.go:298-324 | after the walk, under a clock that does not go back, the list stays in order of use through every operation |
| `Recency.EvictsOldest` | engine/disk/index.go:229-260 | in such a run no eviction takes an object used later than a candidate it spares |
| `LastUse.LastBounds` | engine/disk/disk.go:641-653 | a key's last use is the last step that hit it, stored it or found it there to be write-once; no later step did |
| `LastUse.RunInOrder` | engine/disk/disk.go:641-653 | in every run after the walk, whatever the clock says, the list is in order of last use, and each entry used since carries the time of that use |
| `LastUse.EvictsLeastRecentlyUsed` | engine/disk/index.go:229-260 | no eviction takes a key whose last use came after that of a candidate it spares |
| `Budget.PutBytes` | engine/disk/disk.go:304-413 | a Put whose declared size fits takes the total past the budget by at most what the body exceeds that size; one that errs never does; uncancelled, it is refused for space if and only if header and declared size exceed the budget without wrapping |
| `Budget.ClaimWraps` | engine/disk/disk.go:324-332 | the claim handed to Admit is not positive if and only if the declared size is above 2^63-1025 |
| `Budget.SmallBudgetsFit` | engine/gc/gc.go:195-216 | under a budget of at most 2^62 only the addition of the header can wrap |
| `Budget.PutStaysWithin` | engine/gc/gc.go:195-216 | over all settled volumes within the budget and bodies within the declared size, no Put leaves the budget if and only if neither int64 sum of the admission can wrap |
| `Budget.Overflow` | engine/disk/disk.go:324-332 | for every declared size and budget that do not fit, a settled volume within budget and a body within the declared size that take it past the budget |
| `Budget.HonestStep` | engine/disk/disk.go:324-332 | one honest operation whose declared size fits keeps a settled volume settled and within budget |
| `Budget.NeverOverBudget` | engine/gc/gc.go:195-216 | no sequence of such operations that starts within the budget ever leaves it |
| `Listing.List` | engine/disk/disk.go:458-487 | page and next token are those of the functional page, filter, sort and cut |
| `Listing.PageSize` | engine/disk/disk.go:458-466 | every request is served between 1 and 10000 entries at a time |
| `Listing.PageCounts` | engine/disk/disk.go:458-487 | a page has the number asked for, 1000 if none was, 10000 at most, or all the matches if they are fewer; there is a token if and only if there are more, and it is the last key |
| `Listing.PageSound` | engine/disk/disk.go:458-487 | a page is sorted, past the token, matches the prefix and leaves out nothing up to its own end |
| `Listing.PagedIncreases` | engine/disk/disk.go:458-487 | over successive pages keys strictly increase, however the index changes between calls |
| `Listing.PagedComplete` | engine/disk/disk.go:458-487 | a matching key present at every call is seen by a client that reaches the last page |
| `Listing.Remaining` | engine/disk/disk.go:458-487 | what the next call pages out of is what this one left, and it is strictly less, so paging ends |
| `Listing.AllPagesExact` | engine/disk/disk.go:458-487 | on an unchanged index the pages concatenate to the sorted matches |
| `TierChain.TierPut` | engine/tier/tier.go:48-51 | a call that fails stores nothing and returns its error; otherwise a write-once key present is refused and anything else stored under its real length |
| `TierChain.FirstUp` | engine/chain/chain.go:120-127 | the frontmost tier that holds the key and answers; every tier before it does not |
| `TierChain.ForwardKeepsView` | engine/chain/chain.go:157-183 | whichever copies land, forwarding from the first holder changes nothing a caller can see, and never touches other keys |
| `TierChain.ForwardGapless` | engine/chain/chain.go:157-183 | after a forward no tier between two holders misses the key if and only if every tier in front of a refusing one refused too |
| `TierChain.BufferedWhole` | engine/chain/chain.go:225-231 | the whole body is kept if and only if no small declared size falls two or more bytes short of it |
| `TierChain.GetMisses` | engine/chain/chain.go:97-203 | a search through tiers that lack the key is a miss, one that comes to a tier behind the front that fails is an error, and both change nothing |
| `TierChain.GetHitsFront` | engine/chain/chain.go:97-118 | a hit in the front tier is the answer and nothing is copied |
| `TierChain.GetFills` | engine/chain/chain.go:120-203 | a hit further back is the answer, and every tier in front that does not fail and has no write-once copy holds it afterwards; tiers from the hit on are as they were |
| `TierChain.PutFails` | engine/chain/chain.go:210-262 | a front tier that fails is the answer, and nothing was written or queued anywhere |
| `TierChain.PutPasses` | engine/chain/chain.go:210-224 | a single tier gets the body as it is and its answer is the answer |
| `TierChain.PutReaches` | engine/chain/chain.go:225-291 | with several tiers every one is offered the buffered body: inline, or behind the first through an upload for exactly the tiers the queue takes, in order |
| `TierChain.PutShows` | engine/chain/chain.go:205-209 | whatever the tiers behind did, the chain shows what the front tier holds, and other keys are as before |
| `TierChain.Chain.Forward` | engine/chain/chain.go:157-183 | exactly the tiers in front get a Put of what was found, up to where the temp file stops opening |
| `TierChain.Chain.Get` | engine/chain/chain.go:97-203 | answer and tiers for every combination of failures; with reads that work it is the view, and the view is unchanged whichever forward copies fail; other keys are never touched |
| `TierChain.Chain.Put` | engine/chain/chain.go:210-291 | outcome, tiers and uploads for every combination of failures; with several tiers nil exactly when the body could be read and the front tier did not fail; an error changes nothing; nil means the chain shows the new body or the front tier's existing write-once one; other keys are untouched |
| `TierChain.Chain.WriteRest` | engine/chain/chain.go:263-289 | the tiers behind are each written once inline, or an upload is queued, front to back, for those the queue takes |
| `TierChain.Chain.Land` | engine/bucket/queue.go:245-264 | any waiting upload, in any order, writes its one tier and key and never changes what a nearer tier shows |
| `TierChain.Chain.Stat` | engine/chain/chain.go:293-320 | the frontmost tier that can be asked and has it, a miss otherwise, never a tier's error |
| `TierChain.Chain.Delete` | engine/chain/chain.go:322-332 | the errors name, in order, exactly the tiers that kept the key; none means the key is gone; what still shows comes from one of them; other keys are untouched |
| `ChainRuns.StepKeeps` | engine/chain/chain.go:97-291 | every step of every caller, flight, upload, eviction or delete keeps all stored, buffered and returned bodies right and the flight group exact |
| `ChainRuns.HitsCarryContent` | engine/chain/chain.go:97-291 | in every run, over any number of tiers and any failures, a hit on a content-addressed key returns that key's content |
| `ChainRuns.OneFlightPerKey` | engine/chain/chain.go:33-36 | in every run at most one flight per key is looking or copying |
| `SharedFlights.MemoryServesAll` | engine/chain/chain.go:187-202 | a landed body held in memory is what every caller that shared the flight gets, whenever it asks |
| `SharedFlights.SpillServes` | engine/chain/chain.go:190-200 | in every run a caller of a flight that landed in a temp file is served, for good, if and only if its open works and no caller of that flight has unlinked the file before; otherwise it fails, for good |
| `SharedFlights.RunTracked` | engine/chain/chain.go:129-200 | in every run a flight's temp file is no other flight's and no Put's, and is there if and only if no caller of the flight has unlinked it |
| `SharedFlights.SharedSpillFails` | engine/chain/chain.go:190-200 | a run with no failure at all in which one of two callers of a present object is told of an error |
| `SharedFlights.SharedSpillServes` | engine/chain/chain.go:190-200 | a run of the same two in which both are served |
| `ChainRuns.NearestLast` | engine/chain/chain.go:157-159 | in every interleaving of Gets whose copies do not fail no tier between two holders of a key ever misses it |
| `ChainAlone.GetAlone` | engine/chain/chain.go:97-203 | the steps of one uninterrupted Get give exactly the result and the tiers of the one-call Get, for every combination of failures |
| `ChainAlone.PutAlone` | engine/chain/chain.go:210-291 | the steps of one uninterrupted Put give exactly the outcome, tiers and uploads of the one-call Put, and leave no temp file behind |
| `StaleCopies.PutStaysShown` | engine/chain/chain.go:157-183 | what the front tier has been given stays what the chain shows through every continuation without a new Put of the key or its eviction in front if and only if no other writable copy of the key is in a tier a search can come to, in the queue for one, in a flight with tiers left to copy to, or in another Put with such a tier or the front left |
| `StaleCopies.RunSearches` | engine/chain/chain.go:97-291 | every state of every run is one that condition applies to |
| `StaleCopies.StaleReachable` | engine/chain/chain.go:157-183 | a run in which a nil Put's body is shown and the next step of a Get under way replaces it by the old one |
| `UploadQueue.StepKeeps` | engine/bucket/queue.go:112-264 | every atomic action of every Offer, worker and Stop keeps all counters exact and the lock discipline |
| `UploadQueue.BytesBounded` | engine/bucket/queue.go:151-165 | in every run queued is the bytes claimed and unresolved, in the channel and in flight, never negative and never over a positive bound |
| `UploadQueue.ChannelBounded` | engine/bucket/queue.go:69-91 | in every run the channel holds at most its slots, and there is at least one whatever was configured |
| `UploadQueue.NeverSendsOnClosed` | engine/bucket/queue.go:112-148 | in every run an Offer about to send finds the channel open |
| `UploadQueue.OffersAccounted` | engine/bucket/queue.go:112-148 | in every run dropped counts the Offers that answered false, and each item was enqueued as often as Offers took it and as often as it was flushed, waits or is being flushed |
| `UploadQueue.OfferDenied` | engine/bucket/queue.go:112-165 | in every run an Offer ends false if and only if it read that the queue is closed, read a byte count that with its size exceeds a positive bound, or found every slot taken at its send |
| `UploadQueue.OfferAlone` | engine/bucket/queue.go:112-165 | one uninterrupted Offer on an open queue with room answers true, its item last in the channel, its bytes claimed and the depth one more; one under MinSize answers true and changes nothing |
| `UploadQueue.WorkerAlone` | engine/bucket/queue.go:224-264 | one uninterrupted worker uploads what has waited longest and gives its bytes and its place back |
| `UploadQueue.StopReports` | engine/bucket/queue.go:207-219 | in every run, halted workers included, the depth Stop reads is exactly what is enqueued and not signed off, so it is zero if and only if nothing is left |
| `UploadQueue.Drained` | engine/bucket/queue.go:167-264 | when workers ran, none was halted and all have drained, depth and queued are zero and each enqueued item was flushed exactly once |
| `Breaker.Breaker.constructor` | agent/breaker/breaker.go:57-92 | options that make no sense fall back to five failures and thirty seconds; the breaker starts closed |
| `Breaker.Breaker.Ask` | agent/breaker/breaker.go:197-209 | lets through exactly when closed or past its time, and then is closed, with the count at zero if it was open; a refusal changes nothing |
| `Breaker.Breaker.Note` | agent/breaker/breaker.go:214-229 | no error, a miss or an existing key resets the count; any other error counts, and the one that makes it the threshold trips, opens for a window from now and starts the count afresh |
| `Breaker.Breaker.Read` | agent/breaker/breaker.go:116-172 | a read is the tier's answer or a miss, never an error; bypasses are counted and reach nothing |
| `Breaker.Breaker.Write` | agent/breaker/breaker.go:138-191 | every write or delete the tier did not take is counted as a drop |
| `Breaker.TripsPaidFor` | agent/breaker/breaker.go:197-229 | in every interleaving the failure count stays below the threshold and each trip is paid for by threshold failures of its own |
| `Breaker.RefusedExactly` | agent/breaker/breaker.go:197-209 | in every interleaving a call is refused if and only if it begins within the window of the last trip and no call has begun past that window since |
| `Breaker.Reopens` | agent/breaker/breaker.go:205-208 | the first call at or after the end of that window is let through, the breaker closed and its count at zero |
| `Breaker.TripsExactly` | agent/breaker/breaker.go:214-229 | the breaker trips if and only if a failure makes the failures since the last healthy note, trip or reopening the threshold |
| `Breaker.TripNeeds` | agent/breaker/breaker.go:214-229 | so every trip comes after threshold failures with no healthy note and no other trip between them |
| `Breaker.DeadRounds` | agent/breaker/breaker.go:197-229 | against a dead tier calls come in rounds of threshold, a new round a window or more after the last |
| `Breaker.DeadTierBound` | agent/breaker/breaker.go:197-229 | calls that reach a dead tier in any interval of length L number at most threshold times (L/window + 1) |
| `ActionRecord.UnixSplits` | frontend/gobuild/gobuild.go:380-390 | truncated quotient and remainder recombine to the instant, before the epoch too |
| `ActionRecord.ParseFormatInt` | frontend/gobuild/gobuild.go:371-390 | every int64 prints to decimal that parses back to it |
| `ActionRecord.ReadsBack` | frontend/gobuild/gobuild.go:371-390 | a record of a valid id parses to that id and to the instant its nanoseconds name, white space after it or not |
| `ActionRecord.RoundTrip` | frontend/gobuild/gobuild.go:371-390 | parse after format gives back exactly id and instant if and only if the instant's nanoseconds fit an int64 |
| `ActionRecord.RecordIs` | frontend/gobuild/gobuild.go:371-373 | the record is the id, one space and the nanoseconds in decimal, for every instant an int64 can name |
| `ActionRecord.RecordExample` | frontend/gobuild/gobuild.go:371-373 | two records spelled out, one from before the epoch |
| `ActionRecord.ParseRefusesWide` | frontend/gobuild/gobuild.go:380-390 | a number no int64 holds is refused, not wrapped |
| `ActionRecord.FieldCountMatters` | frontend/gobuild/gobuild.go:380-390 | a record of no field, of one or of three is refused, whatever they are |
| `ActionRecord.KeyInjective` | frontend/gobuild/gobuild.go:345-353 | two keys are equal if and only if prefix, kind and id are |
| `ActionRecord.KeyExample` | frontend/gobuild/gobuild.go:351-353 | one key of the layout spelled out |
| `ActionRecord.ValidIds` | frontend/gobuild/gobuild.go:398-414 | a valid id has no slash, dot, space or NUL, and every hash in hexadecimal of 2 to 128 characters is valid |
| `BuildCache.PrefixesFromMembers` | frontend/gobuild/gobuild.go:333-343 | starting from a layout changes the order asked, not the layouts |
| `BuildCache.PrefixesFromIs` | frontend/gobuild/gobuild.go:333-343 | the layouts asked for an output, spelled out: the record's own, then the other if there is one |
| `BuildCache.GetSound` | frontend/gobuild/gobuild.go:117-148 | a hit carries bytes an output key holds under the id a record names; a miss after a record means no layout has the output and the record is gone unless its delete failed; only this action's records are ever removed |
| `BuildCache.GetFindsNone` | frontend/gobuild/gobuild.go:117-148 | without a usable record in any layout a lookup misses and deletes every unusable one |
| `BuildCache.GetFollows` | frontend/gobuild/gobuild.go:117-148 | the first usable record is followed and unusable ones before it go; a caller that declines the bytes is told id and time; otherwise the answer is the output's bytes and size from the record's own layout if it has it, else from the other; only if none has it does the record go |
| `BuildCache.Cache.FindAction` | frontend/gobuild/gobuild.go:223-263 | the first layout with a usable record, the unusable ones before it deleted, nothing else changed |
| `BuildCache.Cache.FindOutput` | frontend/gobuild/gobuild.go:268-294 | the first layout holding the output, the record's own asked first |
| `BuildCache.Cache.GetIf` | frontend/gobuild/gobuild.go:117-148 | a malformed id is an error that touches nothing, any other error means that a key the lookup may ask for cannot be read; otherwise answer and new state are those of the functional lookup |
| `BuildCache.Cache.Stat` | frontend/gobuild/gobuild.go:155-171 | the output id, size and time Get would report, or none, with the same clean-up; a malformed id is an error that touches nothing |
| `BuildCache.Cache.Put` | frontend/gobuild/gobuild.go:181-218 | ids are checked first and success is exactly valid ids and no failing tier call; on a bad id or a failing output nothing changes; otherwise the output is in place, as it was or as given, and the record names it and the time, or is as it was if it failed; nothing else changes |
| `BuildCache.Cache.DeleteQuietly` | frontend/gobuild/gobuild.go:318-322 | the key goes unless the tier refuses, nothing else changes |
| `BuildCache.OutputsSpared` | frontend/gobuild/gobuild.go:310-322 | dropping an action's records changes no output lookup |
| `CrashOrder.StepRight` | frontend/gobuild/gobuild.go:117-218 | every tier call of every Put and Get, failing or not, and every loss of a non-output keeps every record backed |
| `CrashOrder.RecordsBacked` | frontend/gobuild/gobuild.go:173-218 | in every run of Puts and Gets interleaved tier call by tier call, each cut off anywhere, every action record names a present output |
| `CrashOrder.RecordedMeansHit` | frontend/gobuild/gobuild.go:117-148 | in such a state an action with a usable record is a hit with bytes |
| `CrashOrder.PutThenGet` | frontend/gobuild/gobuild.go:117-218 | a finished Put is what the next Get returns: id, instant, and the bytes stored under the output id |
| `RecordRaces.RecordSurvives` | frontend/gobuild/gobuild.go:129-137 | a usable record whose output is in place, outputs staying from there on, survives every continuation of all Gets and Puts if and only if no Get under way has read an unusable record or one whose output is in no layout still to ask, and no Put under way is about to record a vanished output |
| `RecordRaces.ThreatReachable` | frontend/gobuild/gobuild.go:129-137 | a run from an empty cache to a state in which two Puts of an action are over, its record and output are in place and a Get under way will delete the record |
| `BuildAlone.PutAlone` | frontend/gobuild/gobuild.go:181-218 | the steps of one uninterrupted Put end it and leave what the one-call Put does |
| `BuildAlone.GetAlone` | frontend/gobuild/gobuild.go:117-148 | one uninterrupted Get, tier call by tier call, answers and leaves what the one-call lookup does |
| `BucketDelete.Wipe.Append` | engine/bucket/bucket.go:454-458 | a listed key joins the pending batch and its bytes the pending count |
| `BucketDelete.SizeOne` | engine/bucket/bucket.go:454-458 | an object counts with its size, or with nothing when the store does not say |
| `BucketDelete.Wipe.Flush` | engine/bucket/bucket.go:420-442 | nothing is asked for an empty batch; a batch taken moves its counts, a refused one moves none |
| `BucketDelete.Wipe.TakePage` | engine/bucket/bucket.go:454-464 | a page of any size is batched without losing or repeating a key |
| `BucketDelete.Wipe.Run` | engine/bucket/bucket.go:413-474 | batches have 1 to 1000 keys, all but the last 1000; those taken concatenate to a prefix of the listing, all of it without an error; counts are exactly theirs on every path |
| `Wire.SendAll` | server/cacheservice.go:93-114 | the chunks the transport took, no more than it takes, are the source's bytes in order, none empty or over a mebibyte, all of them unless a send failed |
| `Wire.ChunkReader.Read` | server/cacheservice.go:167-193 | a read gives the next of what is left and counts it; an error comes only once nothing is left and then stays; a second header ends the body for the server and is passed over by the client |
| `Wire.HeaderInside` | server/cacheservice.go:167-193 | a header in the middle ends the body with an error for the server, and for the client is as if it were not there |
| `Wire.ChunkReader.Drain` | engine/remote/remote.go:294-313 | reads into buffers of any sizes give the body in order, all of it when an end is seen |
| `Wire.Transfer` | engine/remote/remote.go:350-371 | however source and destination split, what is read is what was sent, in order and counted; a clean end comes after all of it and means a whole source if and only if this is not an upload whose source failed; a stream broken off never looks complete |
| `Wire.WireFaithful` | server/cacheservice.go:202-223 | not-found, exists and no-space arrive if and only if the server's error wraps it and none asked about earlier, or wraps none and carried its code |
| `Wire.CodeSent` | server/cacheservice.go:202-223 | the code sent is that of the first of the five errors wrapped, in the order asked; without any it is the one carried, and internal otherwise |
| `Wire.CodesRoundTrip` | engine/remote/remote.go:474-494 | every code survives the client's vocabulary and back |
| `Tiers.Stored` | engine/disk/disk.go:370-377 | an object is recorded with the length that was stored, whatever was declared |

## Left out

- Real files: temp names, fsync, sha256 paths, header and index JSON; a volume is a map from key to an object or to a file that cannot be decoded, and a failure of any write step is one failing write.
- A file that holds another key's object under this key's name, which needs a hash collision or a hand-edited volume.
- Walk.WalkExact: a directory that cannot be read, a file that cannot be opened and a walk stopped early are not modelled; unlinks succeed in these runs, and a listing names every file present.
- Races between whole disk operations: Put, Get, Delete and evict are atomic beside the walk, so a Get between an index removal and its unlink is not modelled.
- Freshness of a saved index: a save during writes and a walk stopped early are not modelled.
- Store.Gc.Collect: int64 wrap-around is modelled where declared sizes and budgets enter - the sums of Put, Admit and the pass, `pct` - and in the action record's nanoseconds; the running total and the lengths of bodies that were stored are taken to fit an int64.
- Budget.NeverOverBudget: the collector is attached to the disk, declared sizes are honest and the budget fixed; `Budget.PutBytes` says what a dishonest one costs.
- Store.Disk.Put: a negative length in a file's header is not modelled; entries have a key and a positive size on disk.
- Negative entries, the collector's loop and its wake-up, and the copy of the index a listing works on: easy beside what is modelled.
- TierChain.Chain.Put: evictions a tier makes to admit a Put do not appear in the one-call chain; they are `Forget` steps in the runs.
- ChainRuns.HitsCarryContent: temp file names are never used again, tier Puts are atomic, and a Put's small declared size is at most one byte short (`TierChain.BufferedWhole` is the exact condition).
- ChainRuns.OneFlightPerKey: a caller that joins between the end of a flight and its removal from the group is taken to start a new flight.
- UploadQueue.Drained: upload timeouts and the error counters are not modelled; a flush that fails counts as a flush.
- Breaker.Breaker.Read: `Open` and the `Counts` snapshot are not modelled.
- StaleCopies.PutStaysShown: other Puts of the key that begin later are left out of the continuations, since what they write is newer.
- BuildCache.Cache.GetIf: bodies are text, the tier's failures are a set of keys it cannot read and a set it cannot delete; the local tier that stores records only is not modelled.
- CrashOrder.RecordsBacked: a Get whose caller declines the bytes is one that stops after its record.
- BucketDelete.Wipe.Run: a batch answered with per-key refusals counts as not taken, as in the source, although the store may have removed some of its keys.
- Wire.ChunkReader.Read: idle timers, the first header message and the metadata conversion are not modelled; client and server readers share one class, and only the server's keeps the count.
- Wire.Transfer: what the client makes of a failed send, and the server's answer to an upload, are not modelled; that a stream whose send failed does not end cleanly at the other side is assumed of the transport.
- The S3 client, the Connect transport, the goproxy front-end, the command line, configuration, metrics, admin pages and the bench: plumbing or libraries.
