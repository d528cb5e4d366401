# SMART in Dafny

A model of SMART, an adaptive radix tree that lives in remote memory and is changed only by one-sided reads, writes and
compare-and-swap (CAS), together with the compute-side structures around it, and proofs of what they guarantee.
`dafny verify dfyconfig.toml` checks everything.

The build that is modelled is the default one with write combining turned off, which turns the lock handover on: lock-free
internal nodes, in-place leaf updates, an ART-indexed cache, read delegation. Each 64-bit CAS is one atomic step, a masked CAS compares and swaps under the same mask, and a page is read word
by word with other threads' steps in between.

## How the model is built

**Remote memory** (`RemoteMemory`, `MemoryOps`, `Splits`, `Lookup`). Pages, leaves and the root slot are maps. Two further maps
record what the code never stores: the full key prefix of every page and leaf (`pre`) and the one slot that points to it (`par`).
With them a well-formed tree is a condition on single slots. The path of a key is the byte 0 of the root slot and the key's bytes.

**The protocol** (`Machine`, `Invariant`, `Steps`, `PageSteps`, `SlotSteps`, `Runs`, `Views`, `RunTheorems`,
`SwitchTermination`, `SearchTermination`, `TypeSizes`, `Linearization`, `CachedSearches`, `Repairs`, `LateReveal`, `MissedKey`).
Any number of threads run insert and search; every remote operation is one step. Header trims and reverse-pointer CASes are
posted and may take effect at any later time or never, each as often as it was posted. Inserts may start from any entry that any
cache ever read. Theorems speak about every state of every finite run.

**One operation at a time** (`Settling`, `SettlingSteps`, `ChainWriter`, `NewPages`, `SequentialTree`). The class `Tree` has the loops of
insert and search, starting at the root or at any entry read at any earlier time. They return the pages that they hand to the
cache.

**Caches** (`CacheTrie`, `CacheProbe`, `Accounting`, `RadixCaching`, `CacheToTree`). The class `RadixCache` keeps a trie, a free-memory
counter, recorded node sizes and an eviction list; a ghost map `spec` says which prefix has which entry. `NormalCache` is the simple
form of the lookup. The source builds a split node with both its records and records its size once; the model records it once
more in between, which leaves the same sizes and the same free memory. The class `CachedTree` puts a `Tree` behind a `RadixCache`.

**Lock table** (`LockHandover`, `ReadDelegation`, `LateReader`). One lock node with any number of threads as a transition system. Ticket
counters are bytes that wrap around; fewer than 256 tickets are outstanding. Steps are sequentially consistent. The write half of
the node, which only runs with write combining, is one step that may set the time windows to anything.

**Range queries, key arithmetic, allocation** (`RangePruning`, `RangeScan`, `RangeQueries`, `KeyMath`, `RemoteAllocation`).

## Promises that do not hold

**A key can be found once its insert has returned.** The code suggests this because an insert raises the node type of the page whose
slot it filled behind the advertised capacity before it returns. It is false. A second insert whose key falls under the same byte
meets the filled slot while it looks for a free one, goes on below it and returns, although the first insert has not raised the
type yet. `LateReveal.ReturnedButHidden` is such a run. `RunTheorems.InsertReturned` gives the exact condition, for inserts from the
root and from cached entries: the key is not found if and only if some thread has yet to raise the type of a page with a slot that
hides it. `RunTheorems.QuiescentView` shows that only a type switch under way can hide a key.

**A type raise only reveals keys whose insert is still under way.** False for the same reason: `LateReveal.RaiseRevealsReturned` goes on
with the run above to the step in which the first insert's header CAS reveals the second insert's key. `RunTheorems.RaiseReveals`
gives the exact condition: the raised page holds all slots that still hide the key, and the raise covers them.

**The reverse pointer tells a search that its cached entry is out of date.** False: an in-place update writes the whole leaf back,
with the reverse pointer it read before. If the leaf was split off in between, the old reverse pointer comes back, and no posted
CAS is left to correct it; only a traversal that reaches the leaf without the cache does. `MissedKey.CachedMisses` is such a run: at
its end no thread is running and nothing is posted, a root search finds a key, and a search that starts with a cached leaf reads
one leaf and returns without it. `CachedSearches.CachedAgrees` gives the exact condition for all runs: while no type switch is under
way, a cached entry answers like the root for every key below it if and only if its target does not confirm it or is still in the
slot. `CachedSearches.CachedAgreesAlways` is the condition key by key in every state, also while types are being switched.

**A range query returns the stored keys of its range.** False even on a quiescent tree with nothing cached: `search_entries` walks
along the lower end down to the depth at which the two ends part and gives up at a leaf above that depth. `RangeQueries.MissesLone`
shows it for every key: on a tree that holds only `k`, the query for `k` alone returns nothing. `RangeQueries.RangeQuery` gives the
exact condition: the query is right if and only if no stored key of the range hangs off a slot above that depth; if one does, it
is the only stored key of the range.

**A delegated reader gets a result that is not older than its own request.** The time window is there to ensure this, and without
write combining it does: `ReadDelegation.ToldInTime` shows for every run that a reader that takes over a result had its ticket
before the reader that left it there decided. With writers it is false. A skipped reader of another key leaves `read_handover`
set, and a writer may start the window again. `LateReader.ToldTooLate` is such a run. `ReadDelegation.ToldSince` gives the exact
condition for all runs: the result is from after the reader's ticket if and only if fewer readers have been skipped since the
decision than were waiting then.

## Model

| member | source | states |
|---|---|---|
| `RemoteMemory.Cover` | src/Tree.cpp:394-482 | everything whose prefix lies under the byte of a filled slot extends the full prefix of that slot's target, so the path to a key is unique |
| `RemoteMemory.Unique` | src/Tree.cpp:394-482 | no two pages or leaves of a well-formed memory have the same full prefix |
| `MemoryOps.PutLeafWF` | src/Tree.cpp:791-822 | publishing a leaf in the first free slot keeps the tree well formed |
| `MemoryOps.InterposeWF` | src/Tree.cpp:888-903 | putting a page between a slot and its old target keeps the tree well formed |
| `MemoryOps.InterposeGrows` | src/Tree.cpp:888-903 | and only grows the memory: prefixes, slot bytes, types and depths that were there stay or rise, and the new page leads on by record 0 |
| `MemoryOps.TrimHeaderShape` | src/Tree.cpp:451-453 | a header trim moves the header start down at most to the slot's depth and changes no slot, prefix or type |
| `MemoryOps.RaiseHeaderShape` | src/Tree.cpp:988-991 | a header-type CAS changes nothing but the type, upwards |
| `Lookup.ViewIs` | src/Tree.cpp:1123-1223 | a root search returns the value of a stored key if no slot on its path lies behind the capacity of its page, and nothing otherwise |
| `Splits.SplitKeeps` | src/Tree.cpp:855-903 | a split with any common prefix length keeps the tree well formed, only grows it, and stores exactly one more leaf |
| `Splits.SplitTarget` | src/Tree.cpp:888-903 | after the split the old entry hangs off record 0 of the last new page, at the depth where the keys fork |
| `Splits.ChainLen` | src/Tree.cpp:858 | the chain has len / 7 + 1 pages |
| `StaleEntries.HeldStable` | src/Tree.cpp:262-282 | an entry once read from a slot leads to its target from that slot by records 0 only, after any growth of the memory |
| `StaleEntries.ChaseStep` | src/Tree.cpp:994-1016 | each step of the chase in cas_node_type gets closer to the page it looks for and never leaves the way to it |
| `Publishing.SplitClear` | src/Tree.cpp:429-454 | after a split CAS nothing below the split slot hides the new key |
| `Machine.CommonLen` | include/Key.h:60-70 | the length is maximal: all bytes before it agree and the next ones differ |
| `Machine.NumToNodeType` | include/Node.h:113-148 | for a slot behind slot 0 the result is the least type whose capacity covers the slot |
| `SlotSteps.ThreadStep` | src/Tree.cpp:290-527 | every step of insert and search keeps the memory well formed, only grows it, and keeps all that the thread relies on true |
| `SlotSteps.AsyncStep` | src/Tree.cpp:940-943 | so do posted trims and reverse-pointer CASes, whenever they take effect; what is posted is stated by `Repairs.SplitPosts` and `Repairs.ReadPosts` |
| `PageSteps.DecideStep` | src/Tree.cpp:394-482 | what a thread concludes from a page read whose words come from different moments is true of the memory now |
| `PageSteps.NotFull` | src/Tree.cpp:1033-1055 | by the pigeonhole principle a page whose first slots hold distinct bytes other than the key's has a slot left |
| `Invariant.LocalStable` | src/Tree.cpp:290-527 | what a thread relies on survives every growth of the memory by others |
| `Runs.NextInv` | src/Tree.cpp:215-527 | every step of every thread and every posted operation keeps the system invariant and only grows the memory |
| `RunTheorems.RunInv` | src/Tree.cpp:215-1243 | the invariant holds in every state of every run |
| `RunTheorems.RunGrows` | src/Tree.cpp:215-1243 | between any two states of a run prefixes and slot bytes are fixed, and node types and header depths never fall |
| `RunTheorems.SlotDiscipline` | src/Tree.cpp:466-501 | filled slots form a prefix of the page, have distinct bytes, stay filled and keep their byte, with non-atomic page reads |
| `RunTheorems.PrefixFixed` | src/Tree.cpp:429-454 | the full prefix of a page never changes, header depth plus length is its length, and the header never starts below the slot that points to it |
| `RunTheorems.LateTrim` | src/Tree.cpp:429-454 | a search through an untrimmed header departs from the key at the same depth as through the trimmed one, so it does not matter if the trim is lost |
| `RunTheorems.NeverFull` | src/Tree.cpp:1033-1055 | insert_behind is never called on a NODE_256 page and never runs off the end of a page |
| `SwitchTermination.SwitchProgress` | src/Tree.cpp:1000-1025 | every step of a type switch, chase hops included, uses up a measure of rounds and depth |
| `SwitchTermination.SwitchEnds` | src/Tree.cpp:1000-1025 | a type switch ends under any interference: from any moment on the thread takes at most 276 more steps, and after so many it has returned |
| `RunTheorems.SwitchRaises` | src/Tree.cpp:1000-1025 | when a type switch is over, header and parent entry both have at least the new type |
| `RunTheorems.SwitchReturns` | src/Tree.cpp:504-515 | and they keep it for the rest of the run |
| `RunTheorems.BehindReturns` | src/Tree.cpp:504-515 | when an insert that filled a slot behind the capacity has returned, its slot is below the header's capacity from then on |
| `TypeSizes.NoLarger` | src/Tree.cpp:504-515 | nodes are adaptive: in every state of every run a page has the least type, or all slots up to the one that the next smaller type does not cover are filled: more than 4, 8, 16, 32, 64 and 128 records for the types above the least |
| `RunTheorems.StaysReachable` | src/Tree.cpp:994-1016 | once a slot has pointed to a page or leaf, the slot leads to it by records 0 through any number of splits |
| `RunTheorems.PublishedVisible` | src/Tree.cpp:517-523 | a published key is found from the root if and only if the slots its insert passed behind a capacity, and those above its cached start, are covered by now |
| `RunTheorems.HiddenKey` | src/Tree.cpp:1059-1243 | a stored key is not found from the root if and only if a slot on its path lies behind the capacity of its page |
| `RunTheorems.InsertReturned` | src/Tree.cpp:517-523 | in every state after an insert from the root or a cached entry has returned, its key is not found if and only if some thread has yet to raise the type of a page that hides it, by a slot above the start or one the insert passed behind the capacity; from the root, it is found if and only if all slots passed are covered |
| `RunTheorems.RaiseReveals` | src/Tree.cpp:988-991 | a header raise reveals the key of a returned insert if and only if the raised page holds all slots that still hide it and the raise covers them |
| `RunTheorems.QuiescentView` | src/Tree.cpp:1059-1243 | when no type switch is under way, every stored key is found from the root |
| `RunTheorems.NeverLost` | src/Tree.cpp:1059-1243 | a key that a root search finds is found in every later state |
| `RunTheorems.ViewStep` | src/Tree.cpp:290-527 | what a root search returns changes only by a publish, split or leaf write, and then from nothing or an old value to the value of that thread's own insert, for the insert's key only, or by a header raise, and then only from nothing for keys behind the raised page's capacity; an insert with is_load never changes the value of a key that is found |
| `RunTheorems.QuietEffect` | src/Tree.cpp:940-943 | header trims, entry-type raises and reverse-pointer CASes change the result of no root search |
| `Linearization.SearchLinearizes` | src/Tree.cpp:1059-1243 | the result of every root search is what the atomic root search would have returned at some moment between its begin and its end |
| `Linearization.InsertTakesEffect` | src/Tree.cpp:215-549 | every insert that has returned took effect exactly once: one of its own steps between its begin and its end is the map update of its key in the set of stored keys and values, where with is_load an existing key keeps its value; its other steps change no stored key and no value |
| `Linearization.OthersQuiet` | src/Tree.cpp:940-943 | searches, posted operations, begins and cache reads change no stored key and no value |
| `SearchTermination.SearchProgress` | src/Tree.cpp:1123-1224 | every step of a root search uses up a measure of the depth left and of how far the entry in hand reaches: it reads an entry again only when a split has put a shorter prefix in the slot |
| `SearchTermination.SearchEnds` | src/Tree.cpp:1059-1243 | searches are wait-free: in every run, whatever other threads do, a root search takes at most 269 steps besides the words of its page reads, after so many it has returned, and until then it can always go on |
| `LateReveal.ReturnedButHidden` | src/Tree.cpp:517-523 | a run exists in which an insert has returned and a root search does not find its key |
| `LateReveal.RaiseRevealsReturned` | src/Tree.cpp:988-991 | a step of a run exists in which a header raise makes a root search find the key of an insert that has returned |
| `CachedSearches.SeenStrays` | src/Tree.cpp:888-903 | in every run, a slot that no longer points to what a cache once read from it has a leaf below it that is not below the cached target |
| `CachedSearches.CachedAgrees` | src/Tree.cpp:1100-1186 | with no type switch under way, a search with a cached entry finds what a root search finds, for every key below the entry, if and only if the target does not confirm the entry or the slot still points to the target |
| `CachedSearches.CachedFinds` | src/Tree.cpp:1100-1223 | in any well-formed tree a search with a once-held entry finds a key if and only if the key is stored, no slot below the entry's slot hides it, and the entry is not confirmed after its target has moved away from the key; what it finds is the stored value |
| `CachedSearches.CachedAgreesAlways` | src/Tree.cpp:1100-1223 | in every state of every run, also while types are being switched, a cached search and a root search agree on a key if and only if it is not stored, or hidden from both below the entry's slot, or both or neither miss it: the one by a moved target, the other by a slot that hides the key above |
| `Repairs.SplitPosts` | src/Tree.cpp:429-454 | a split above a leaf posts exactly the CAS of the leaf's reverse pointer from the split slot to the slot that points to it now; above a page it also posts exactly the trim from the header that was compared to one that starts right below the new slot; the old target hangs deeper than before |
| `Repairs.TrimMatches` | src/Tree.cpp:451-453 | the posted trim takes effect if and only if no other trim has moved the header since it was read: a header read earlier never starts deeper, and at equal depth it still matches |
| `Repairs.RevLands` | src/Tree.cpp:940-943 | a posted reverse-pointer CAS that lands while the target still names the old slot moves it, and no entry for the target is confirmed for the old slot any more |
| `Repairs.TrimLands` | include/Node.h:278 | a trim that lands while the header matches moves the header's start, and the page is not confirmed any more for a slot above that |
| `Repairs.SplitRepaired` | src/Tree.cpp:429-454 | in every run, after what a split posted has landed, a search with any entry for the old target that a cache has from the split slot finds a key if and only if it is stored and nothing below the slot hides it |
| `Repairs.ReadPosts` | src/Tree.cpp:825-852 | a read posts the reverse-pointer repair if and only if the traversal has not come from the cache and the target read names another slot, and posts nothing else |
| `Repairs.OthersPostNothing` | src/Tree.cpp:290-527 | no other step of a thread posts anything |
| `Repairs.LeafChecked` | src/Tree.cpp:552-580 | a cached leaf is read again from its slot if and only if it is not confirmed |
| `Repairs.PageChecked` | include/Node.h:278 | so is a cached page |
| `Repairs.RereadOnce` | src/Tree.cpp:1137-1186 | in every run, once a thread has read an entry again from its slot it accepts every leaf whatever its reverse pointer, and rejects a page if and only if it is deleted or its header starts below the slot |
| `MissedKey.CachedMisses` | src/Tree.cpp:583-680 | a run exists after which, with no thread running and nothing posted, a search with a cached leaf misses a key that a root search finds |
| `ChainWriter.WriteNode` | src/Tree.cpp:855-943 | writing the pages top down and swapping the parent entry last gives the page-by-page split |
| `Settling.LeafDecides` | src/Tree.cpp:1133-1166 | the leaf in a slot on the key's path decides the search, found or not |
| `Settling.HeaderDecides` | src/Tree.cpp:1203-1208 | a header byte that differs from the key rules the key out |
| `Settling.RecordsDecide` | src/Tree.cpp:1211-1224 | a page without a record for the key's byte below its capacity rules the key out |
| `Settling.HeldCurrent` | include/Node.h:278 | a cached entry whose target points back to the slot is what the slot holds now |
| `SettlingSteps.PutSettled` | src/Tree.cpp:791-822 | a new leaf leaves reverse pointers, header depths and types exact |
| `SettlingSteps.BehindSettled` | src/Tree.cpp:504-515 | so does an insert behind the capacity followed by the type switch |
| `SettlingSteps.LeafSettles` | src/Tree.cpp:940-943 | so does a leaf split with the reverse-pointer CAS |
| `SettlingSteps.PageSettles` | src/Tree.cpp:429-454 | so does a page split with the reverse-pointer CAS and the header trim |
| `NewPages.SplitMade` | src/Tree.cpp:855-903 | the pages that a split adds are exactly those of its chain, and all lie on the key's path |
| `NewPages.SplitMoves` | src/Tree.cpp:888-903 | a split replaces the entry of its slot and of no other filled slot |
| `SequentialTree.HitStable` | src/Tree.cpp:262-282 | an entry read at any earlier time stays a place to start from while the tree grows |
| `SequentialTree.ReadTarget` | src/Tree.cpp:1129-1186 | between operations a target is accepted if and only if the slot still points to it, and only an entry from the cache is ever rejected |
| `SequentialTree.Tree.Insert` | src/Tree.cpp:215-549 | from the root or any entry read at any earlier time, insert ends and is the map update of its key: all other keys keep their values; with is_load an existing key keeps its value. It hands on exactly the pages on its way and exactly the pages it adds. It reports its start entry as stale if and only if the slot no longer holds it, and as replaced if and only if the entry was a page that the slot pointed to and the insert changed the slot's entry |
| `SequentialTree.Tree.Search` | src/Tree.cpp:1059-1243 | from the root or any entry read at any earlier time, search ends, returns what the root search returns, hands on exactly the pages on its way, and reports its start entry as stale if and only if the slot no longer holds it |
| `SequentialTree.Tree.InsertBehind` | src/Tree.cpp:1029-1056 | a full page: the key is inserted behind the capacity and visible after the type switch, which replaces the entry of the page's slot and of no other and gives the page no larger type than its records need |
| `SequentialTree.AboveLeaf` | src/Tree.cpp:379-391 | the leaf split inserts the key and keeps the tree settled |
| `SequentialTree.AbovePage` | src/Tree.cpp:429-454 | the header split inserts the key and keeps the tree settled |
| `SequentialTree.CommonPrefix` | include/Key.h:60-70 | the loop computes the maximal common length |
| `SequentialTree.FindBehind` | src/Tree.cpp:1033-1055 | the loop ends inside the page at a free slot or at the key's byte, past slots with other bytes |
| `CacheTrie.Cover` | src/RadixCache.cpp:240-274 | every trie node whose prefix lies under a byte of a node lies under the node that the byte points to |
| `CacheTrie.SetEntryModels` | src/RadixCache.cpp:152-171 | writing an entry at the last byte is the map update of exactly that prefix |
| `CacheTrie.AddNodeModels` | src/RadixCache.cpp:172-188 | a new node below an empty byte is the map update of exactly the new prefix |
| `CacheTrie.SplitNodeModels` | src/RadixCache.cpp:97-117 | a split moves no entry |
| `CacheProbe.ProbeLongest` | src/NormalCache.cpp:72-101 | probing from long to short answers with the longest cached prefix whose entry has a time that is not before the present one and a record for the next byte, with the first such record, and with none only if there is none |
| `CacheProbe.ProbeDrops` | src/NormalCache.cpp:76-82 | it drops exactly the entries longer than the answer whose time is before the present one |
| `NormalCaching.NormalCache.Search` | src/NormalCache.cpp:72-101 | the pop-a-byte loop is that probe, and leaves the contents it leaves |
| `RadixCaching.RadixCache.constructor` | src/RadixCache.cpp:15-40 | an empty cache with the whole budget free |
| `RadixCaching.RadixCache.ConsumeByNode` | include/RadixCache.h:138-153 | records the node's size and takes exactly the difference off the free memory |
| `RadixCaching.RadixCache.Insert` | src/RadixCache.cpp:91-203 | for every non-empty prefix, through all split shapes, the contents become the old ones with that prefix mapped to the entry; the accounts stay balanced, and the root is never split |
| `RadixCaching.RadixCache.Split` | src/RadixCache.cpp:97-117 | a split keeps contents and balance and gives a node for the common prefix |
| `RadixCaching.RadixCache.Invalidate` | src/RadixCache.cpp:301-306 | removes the prefix of a place if it still holds the entry, and then returns 17 bytes and 8 per record; otherwise changes nothing |
| `RadixCaching.Walk` | src/RadixCache.cpp:240-274 | the stack holds all cached prefixes of the key, ascending, with their entries |
| `RadixCaching.RadixCache.SearchFromCache` | src/RadixCache.cpp:206-238 | answer and remaining contents are those of probing all prefixes from long to short; the entry returned is the one cached at the answer's prefix; the free memory does not fall and the eviction list stays |
| `RadixCaching.RadixCache.Evict` | src/RadixCache.cpp:308-326 | takes pairs from the front of the eviction list; exactly the entries that were still live at those places leave the contents, each returning 17 bytes and 8 per record; before every pair after the first the free memory was negative; it ends with non-negative free memory, which is exactly what the entries and nodes left leave of the budget, and rebuilds the trie exactly when the list runs out |
| `RadixCaching.NothingLeft` | src/RadixCache.cpp:308-326 | an empty eviction list means that no entry is live, so a rebuild discards none |
| `RadixCaching.RadixCache.AddToCache` | src/RadixCache.cpp:62-88 | a page below the root slot is cached at exactly its prefix, with its address, time and the records that its type covers, and queued last; this takes 17 bytes and 8 per covered record besides what the trie grows by, and gives back what a replaced entry took; eviction happens exactly if the insertion exceeded the budget, and then in list order; afterwards 17 bytes per entry, 8 per record of an entry, 1 per node and header byte and 17 per record of a node are at most the budget, and the free memory is exactly the rest |
| `RadixCaching.CachedUntil` | include/NormalCache.h:41-46 | while a page is cached with a time, every key below its prefix for whose next byte the page had a record is answered by this entry or a longer one as long as the present time is not after that time; later it never answers, and it is dropped if and only if the lookup gets to it |
| `RadixCaching.Accounted` | include/RadixCache.h:126-153 | in every state the free memory is the budget minus 17 bytes per entry and 8 per record of an entry, minus 1 per node and header byte and 17 per record of a node |
| `Accounting.BalancedPut` | include/RadixCache.h:126-153 | the balance, free memory is the budget minus all recorded node sizes minus all live entry sizes, survives every insertion or replacement of an entry |
| `Accounting.BalancedTake` | src/RadixCache.cpp:301-306 | and every invalidation |
| `CacheToTree.CachedAtPrefix` | src/Tree.cpp:422-424 | a page whose prefix is the key's path up to where its header starts is cached under its own full prefix |
| `CacheToTree.TrailLies` | src/Tree.cpp:422-424 | all pages that a traversal hands to the cache are such pages |
| `CacheToTree.CopyStable` | src/RadixCache.cpp:62-88 | a cached copy stays usable while the tree grows |
| `CacheToTree.AnswerUsable` | src/Tree.cpp:262-282 | every answer of the cache is an entry on the key's path that its slot once held, as insert and search need |
| `CacheToTree.CachedTree.Search` | src/Tree.cpp:1100-1243 | after any history of cached operations, a search that starts where the radix cache says finds what a root search finds. If the slot no longer holds the cached record, the entry it came from is gone afterwards. Without eviction the contents become the probed ones, without that entry if it was out of date, with exactly the pages on the way added |
| `CacheToTree.CachedTree.Insert` | src/Tree.cpp:261-549 | likewise for insert: it is the map update of its key; the pages on the way and then the pages it adds are cached; the entry it started from is gone if the record was out of date or if the insert replaced a page's record in the slot, by a header split or a type switch |
| `CacheToTree.CachedTree.Drop` | src/RadixCache.cpp:301-306 | dropping a place found earlier removes exactly the entry found there, if it is still cached, also after the trie was rebuilt |
| `LockHandover.NextInv` | include/LocalLockTable.h:315-364 | every step of every thread keeps the lock invariant, with byte tickets that wrap around |
| `LockHandover.WriterHolds` | include/LocalLockTable.h:315-364 | in every run a writer is alone and holds the remote lock of its address, acquired or handed over |
| `LockHandover.BetweenHolders` | include/LocalLockTable.h:340-364 | between holders exactly the lock of unique_addr is held if it is to be handed over, and a thread waits for it; otherwise none is held and all acquired locks have been released once |
| `LockHandover.ReleasesOwn` | include/LocalLockTable.h:355-360 | an unlock only clears a lock that the node holds, also when addresses collide |
| `LockHandover.ReleaseDecides` | include/LocalLockTable.h:340-353 | in every run a release hands the remote lock over if and only if a thread waits and fewer than nine releases in a row have handed over before it |
| `LockHandover.BoundedRow` | include/LocalLockTable.h:347-353 | among any ten consecutive releases of a run one does not hand over |
| `ReadDelegation.NextInv` | include/LocalLockTable.h:122-211 | every step of every reader keeps the delegation invariant: tickets and window count match the queue, also when the write half sets the windows to anything |
| `ReadDelegation.OneReader` | include/LocalLockTable.h:135-162 | at most one reader is served at a time |
| `ReadDelegation.ReturnsLatest` | include/LocalLockTable.h:166-211 | every reader that leaves returns the result stored last, and that was stored for its own key |
| `ReadDelegation.WinnerStores` | include/LocalLockTable.h:171-178 | a delegated reader stores nothing and copies the latest winner's result for the same key; any other reader stores its own |
| `ReadDelegation.DecideHandsOver` | include/LocalLockTable.h:194 | in every run a reader that leaves sets the handover if and only if another reader waits with a ticket |
| `ReadDelegation.EpochEnds` | include/LocalLockTable.h:196-198 | and it frees the key of the node if and only if the handover is not set |
| `ReadDelegation.EnterDecides` | include/LocalLockTable.h:145-162 | a reader whose turn it is is skipped if and only if its key is not the node's, and otherwise told to take over if and only if the handover is set and its ticket is in the window; the result in the node is then one for its key |
| `ReadDelegation.NextTold` | include/LocalLockTable.h:145-162 | the reader of the same key next behind one that decides is told to take over its result if and only if the window is open when its turn comes, whatever writers do |
| `ReadDelegation.WindowServed` | include/LocalLockTable.h:183-198 | without writers, one search serves all readers of its key in the window, however many others come in between; a winner that starts the window has all waiting readers in it |
| `ReadDelegation.WindowTaken` | include/LocalLockTable.h:183-206 | without writers, only readers that hold tickets are ever in the window, and the windows can start again if and only if both have run out |
| `ReadDelegation.ToldSince` | include/LocalLockTable.h:145-162 | in every run a reader that is told to take over gets the result of the last decision, and had its ticket at that decision if and only if fewer readers have been skipped since than were waiting then |
| `ReadDelegation.ToldInTime` | include/LocalLockTable.h:159-162 | without writers it always had |
| `LateReader.ToldTooLate` | include/LocalLockTable.h:283-292 | a run exists in which a writer starts the window again and a reader takes over a result from before it came |
| `RangePruning.MeetsIff` | src/Tree.cpp:1515-1550 | the two sides decide exactly whether some key below a path is in the range |
| `RangePruning.HeaderLeft` | src/Tree.cpp:1515-1521 | the first header byte that differs from the lower end gives the right side of the page |
| `RangePruning.HeaderRight` | src/Tree.cpp:1522-1528 | likewise for the upper end |
| `RangePruning.NextBound` | src/Tree.cpp:1556-1563 | the remade bound starts with the true path of the entry |
| `RangeScan.OnPage` | src/Tree.cpp:1502-1568 | a record is kept if and only if some key below it is in the range, with sides and bounds that are right for it |
| `RangeScan.ScanRange` | src/Tree.cpp:1408-1499 | on a quiescent tree the scan from BORDER/BORDER at the root ends and returns exactly the stored keys of the range with their values |
| `RangeQueries.SearchEntries` | src/Tree.cpp:1246-1365 | the walk along the lower end returns places that lead to all stored keys of the range, unless one of them hangs off a slot above the depth at which the ends part; then it returns nothing |
| `RangeQueries.RangeQuery` | src/Tree.cpp:1371-1499 | on a quiescent tree with nothing cached, the query over [from, to) returns exactly the stored keys of the range with their values if and only if none of them hangs off a slot above that depth; if one does, it is the only stored key of the range and nothing is returned; an empty range returns nothing |
| `RangeQueries.MissesLone` | src/Tree.cpp:1298-1300 | for every key, the query for that key alone returns nothing on a tree that holds only that key |
| `KeyMath.LessIsNumeric` | include/Key.h:6-9 | for every key length lexicographic order is big-endian numeric order |
| `KeyMath.Plus` | include/Key.h:87-102 | addition of a byte modulo 256^n |
| `KeyMath.Minus` | include/Key.h:105-121 | subtraction of a byte modulo 256^n |
| `KeyMath.AddOne` | include/Key.h:73-84 | addition of 1 modulo 256^n, in place |
| `KeyMath.AddOneIsPlus` | include/Key.h:73-102 | add_one and + 1 give the same key |
| `KeyMath.Undone` | include/Key.h:87-121 | subtraction undoes addition, with wrap-around; with a negative amount, addition undoes subtraction |
| `KeyMath.PrefixInterval` | include/Key.h:18-30 | the keys that share d bytes are exactly the interval from leftmost to rightmost |
| `KeyMath.Key2Int` | include/Key.h:145-149 | the big-endian number modulo 2^64 |
| `KeyMath.Int2Key` | include/Key.h:124-134 | the key whose number is the integer modulo 256^n |
| `KeyMath.EightBytes` | include/Key.h:124-149 | at eight bytes the two conversions are inverse to each other |
| `RemoteAllocation.LocalAllocator.Malloc` | include/LocalAllocator.h:22-49 | the next aligned block of the chunk if it fits, else the first free block that is large enough, and in both cases a block that was not live; a chunk is needed if and only if neither fits, and then nothing is handed out |
| `RemoteAllocation.LocalAllocator.SetChunk` | include/LocalAllocator.h:51-53 | a fresh chunk keeps all blocks apart |
| `RemoteAllocation.LocalAllocator.Free` | include/LocalAllocator.h:55-57 | a block given back in its rounded-up size goes to the end of the free list and may be handed out again |
| `RemoteAllocation.LiveBlocks` | include/LocalAllocator.h:22-58 | after any history of allocations, releases and new chunks, live blocks are 256-byte aligned, each within one chunk, and pairwise disjoint |
| `EntryPacking.AddressKept` | include/Node.h:233-255 | addr() returns the stored address if and only if the node id is below 256 and the offset is an aligned 48-bit offset |
| `EntryPacking.BlockKept` | include/Node.h:233-255 | hence after any history every live block's address survives packing |
| `EntryPacking.WordsDecide` | include/Node.h:233-261 | two filled entries have equal words exactly if all fields are equal, and no filled entry equals the null word |

## Left out

- RDMA verbs, coroutines, on-chip memory, NUMA placement, timers and statistics: remote operations are atomic steps, the clock and the results of remote searches are parameters.
- Write combining: the buffer is set before the ticket is taken, so combined values need not belong to the same key.
- CRC checks and torn leaf reads: a leaf is read and written in one step.
- Leaf deletion: nothing in the source clears a leaf's valid bit, so every leaf is valid.
- Leaf locks during the in-place update: two concurrent updates of one key are ordered by their writes.
- Reclaiming the pages of a failed split: addresses that a step uses are fresh.
- Search from a cached entry while other threads write: not a step of the concurrent runs; `CachedSearches.CachedAgreesAlways` says what such a search finds in each state of a run.
- Range queries with cached entries, under concurrent writes, and the token set that skips addresses read before: not modelled.
- Progress of concurrent inserts: not claimed, except that a type switch ends. A header split compares the slot with the entry under the type read from the header, so it is tried again as long as a type switch is between its two CASes.
- Embedded-lock handover and deadlock freedom of the address lock: not claimed.
- Write half of the lock table's time windows: its steps change the counters outside their lock, so the model lets them leave any values.
- Concurrent access to the radix cache: only sequential runs.
- `NormalCache` insertion, accounting and eviction, `LocalCache`, `GlobalAllocator` after exhaustion: fresh chunks are a precondition.
- Header packing into a word: fields are compared one by one, as the masks do.
