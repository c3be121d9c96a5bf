# Models of RocksDB's caches, SuperVersions and iterator

A Dafny 4.11 model of the concurrent and stateful core of RocksDB 8.11.4, with proofs of
what that code promises. `dafny verify dfyconfig.toml` checks all of it.

What is modelled, in the order of the modules:

* **Auto HyperClockCache.** `LinearHashing` is the packed length and the home of a hash.
  `ChainSplit` is SplitForGrow as a state machine: one thread splits a chain while any
  number of threads insert at its heads and change the states of entries, one atomic access
  at a time. `ChainLookup` and `ChainMiss` add a lookup with both of its passes. `ChainLock` is
  the rewrite lock, `ChainPurge` the unlinking of entries under construction, `AutoEvict` the
  clock sweep, `AutoAccounts` the accounts of the table run by one thread.
* **Slot protocol and fixed HyperClockCache.** `SlotProtocol` is the meta word of a slot under
  any number of threads. `Probing`, `ClockEntries` and `FixedTable` are the open-addressing
  table run by one thread, with its displacement counts, evictions and accounts.
* **SuperVersions.** `SuperVersions` is the protocol of thread-local caching, return, install
  and scrape.
* **DBIter.** `DbEntries` says what a snapshot shows: the visible versions of each key folded
  from oldest to newest, and the sorted view of live keys. `DbIter` is the iterator with its
  saved key, direction, merge state and reseeks, `DbSnapshot` whole runs of it, `DbView` the
  facts about the view.
* **LRU cache.** `HashPositions`, `HandleTable` and `HandleScan` are the doubling hash table and
  its scan in steps. `LruLinks` and `LruPools` are the circular list with its three pools,
  `LruHandles` and `LruShard` the states of handles and the shard.
* **Reservations and chunks.** `Reservations` is the reservation manager and the sharing of
  reservations with a secondary cache, `ValueChunks` the splitting of compressed values.

Interleavings are sequences of actions, each one sequentially consistent atomic access; the
theorems are about every state of every such run. Sequential code keeps its loops and its
fields.

Four properties that one would expect of the code do not hold of it without a condition.
Each has a concrete example and an exact condition:

* A lookup that runs against a split can miss an entry that is visible throughout. It steps
  from its own chain onto entries of the other chain and is carried past the entry by a link
  that the split rewrites. This takes at least ten newer entries, because the first pass of the
  lookup looks at ten. With fewer, the first pass finds the entry, or is itself carried past it
  by a link that is rewritten only after the entry's own chain is in order down to the entry,
  where the second pass finds it. `ChainMiss.LookupCanMissIffOvertaken` gives the condition for
  a lookup and a split that start together, `ChainMiss.ExampleMiss` an example;
  `ChainLookup.LookupMissesOnlyOvertaken` is the necessary half for runs with insertions and
  changes of state as well.
* The pools of an LRU shard, their usages and the low boundary pointer stay right through an
  insertion into the low pool exactly if the high pool fits its capacity when it starts, because
  LRU_Insert lets the pools overflow before it moves that pointer. A capacity that is set smaller
  can break this. `LruPools.LowInsertExact` gives the condition, `LruPools.ShrinkThenInsertFails`
  a list on which it fails. Without a later SetCapacity it always holds, without a low pool it is
  not needed, and setting a pool ratio restores it.
* With a secondary cache, less than one chunk of the placeholders that fit is unshared after any
  insertion, but not after any release: what was inserted over the capacity is not shared when a
  release makes it fit. `Reservations.Adapter.Release` gives the condition,
  `Reservations.ReleaseLeavesUnshared` an example.
* ApplyToAllEntries takes the minimum of the requested entries per lock and one. With a request
  of zero it makes no progress: `HandleScan.RotationEndsExactly`.

Some predicates (`DbView.Rank`, `LruPools.ListOk`, `LruHandles.CacheOk`, `HandleTable.TableOk`,
`ChainMiss.Sync`) are chosen values whose definition is used only where a marker predicate is
mentioned. A lemma beside each of them states that it equals its definition.

## Model

| member | source | states |
|---|---|---|
| `LinearHashing.LengthInfoRoundTrip` | rocksdb-8.11.4/cache/clock_cache.cc:1682-1712 | Packing a used length of at least 2 into length_info_ and unpacking it gives the length back; the unpacked shift is its floored logarithm, the threshold the rest. |
| `LinearHashing.LengthInfoRoundTripBack` | rocksdb-8.11.4/cache/clock_cache.cc:1682-1712 | Every well-formed length_info_ word is the packing of the length it unpacks to, so packing is a bijection. |
| `LinearHashing.HomeInTable` | rocksdb-8.11.4/cache/clock_cache.cc:1724-1736 | The home of any hash lies in the used part of the table. |
| `LinearHashing.OwnHome` | rocksdb-8.11.4/cache/clock_cache.cc:1724-1736 | Every used slot is the home of its own index, so no slot is unreachable. |
| `LinearHashing.GrowthSplitsOneHome` | rocksdb-8.11.4/cache/clock_cache.cc:2165-2187 | Between the length_info_ words of two successive lengths the home or shift changes for exactly the hashes of one old home, the one that Grow computes; they use one more bit and stay or move to the new slot. |
| `ChainSplit.GrowOfValid` | rocksdb-8.11.4/cache/clock_cache.cc:2180-2187 | The two homes computed by Grow satisfy what SplitForGrow relies on. |
| `ChainSplit.StepPreserves` | rocksdb-8.11.4/cache/clock_cache.cc:2293-2621 | Every atomic step of SplitForGrow, of any inserting thread and of any change of an entry's state keeps the invariant that ties heads, links, frontiers and program counters to the insertion history. |
| `ChainSplit.RunInvariant` | rocksdb-8.11.4/cache/clock_cache.cc:2293-2621 | The invariant and the lock invariant hold in every state of every interleaving. |
| `ChainSplit.LookupWalkComplete` | rocksdb-8.11.4/cache/clock_cache.cc:1807-1838 | In every state of every interleaving, the walk from the head that a key maps to reaches every completed entry of its home and ends at an end marker with that home. |
| `ChainSplit.SplitResult` | rocksdb-8.11.4/cache/clock_cache.cc:2293-2621 | A finished split leaves two chains that are the order-preserving partition of all entries by the new hash bit, all links at the new shift, ends naming their own heads, locks free. |
| `ChainSplit.InsertPreserves` | rocksdb-8.11.4/cache/clock_cache.cc:3017-3072 | Each atomic step of a head insertion, stale or fresh length_info_, keeps the invariant during a split. |
| `ChainLookup.LookupMissesOnlyOvertaken` | rocksdb-8.11.4/cache/clock_cache.cc:3075-3309 | Whatever threads insert, change states and split meanwhile, a lookup reports a miss of an entry that stays visible only if at least ten entries are newer and it is overtaken: an entry under construction of the other chain lies behind it, another one before it, and an entry of its own chain before that. |
| `ChainMiss.OvertakenCanBeMissed` | rocksdb-8.11.4/cache/clock_cache.cc:3075-3309 | Whenever an entry is overtaken in this sense at the start of a split and at least ten entries are newer, some schedule of the split and one lookup makes the lookup, through both its passes, miss it. |
| `ChainMiss.LookupCanMissIffOvertaken` | rocksdb-8.11.4/cache/clock_cache.cc:3075-3309 | Among all schedules of a split and one lookup there is one in which the lookup misses a visible entry if and only if the entry is overtaken and at least ten entries are newer: the exact condition under which "lookups never miss" fails. |
| `ChainMiss.ExampleMiss` | rocksdb-8.11.4/cache/clock_cache.cc:3075-3309 | A concrete chain of twelve entries, ten of them newer than the target, on which a lookup can miss a visible entry. |
| `ChainLock.MutualExclusion` | rocksdb-8.11.4/cache/clock_cache.cc:1861-1953 | In every interleaving at most one thread holds the rewrite lock of a non-empty chain, and the lock bit is set exactly if one does. |
| `ChainLock.HolderFindsItsLock` | rocksdb-8.11.4/cache/clock_cache.cc:1861-1953 | A releasing holder finds the head non-empty and locked, and a failed update of a holder finds its lock still set. |
| `ChainLock.OnlyInsertsMoveLockedHead` | rocksdb-8.11.4/cache/clock_cache.cc:1861-1953 | While a thread holds the lock, only insertions by others change the head. |
| `ChainLock.InsertPreservesLock` | rocksdb-8.11.4/cache/clock_cache.cc:3051-3071 | A head insertion keeps the lock bit, including on chains that become non-empty. |
| `ChainPurge.StepPreserves` | rocksdb-8.11.4/cache/clock_cache.cc:2635-2756 | Every step of the purge and of concurrent insertions and ownership changes keeps the purge invariant, also when the head update fails and the walk restarts. |
| `ChainPurge.PurgeNeverLosesEntries` | rocksdb-8.11.4/cache/clock_cache.cc:2635-2756 | In every state of every interleaving the chain is a clean walk over the inserted entries that were not unlinked, and only entries seen under construction are unlinked. |
| `ChainPurge.PurgeResult` | rocksdb-8.11.4/cache/clock_cache.cc:2635-2756 | A finished purge has unlinked exactly the entries it saw under construction and kept all others in order, concurrent insertions included. |
| `SlotProtocol.ActBalance` | rocksdb-8.11.4/cache/clock_cache.cc:42-163 | Every atomic access to a slot's word, of lookup, release, erase, insert, clock update or freeing, changes the counters and the references of the acting thread in balance. |
| `SlotProtocol.RefcountExact` | rocksdb-8.11.4/cache/clock_cache.cc:238-313 | In every interleaving acquire minus release is exactly the number of references outstanding, and references exist only in the shareable states. |
| `SlotProtocol.ExclusiveOwner` | rocksdb-8.11.4/cache/clock_cache.cc:238-313 | In every interleaving a slot is under construction if and only if some thread owns it, and no two threads own it. |
| `SlotProtocol.PinnedEntryStays` | rocksdb-8.11.4/cache/clock_cache.cc:893-1056 | While a thread holds a reference, no step of another thread frees, reuses or takes the slot. |
| `SlotProtocol.PinnedThroughout` | rocksdb-8.11.4/cache/clock_cache.h:143-185 | Over any stretch of a run in which a thread keeps a reference it sees one and the same entry and key. |
| `SlotProtocol.NeverVisibleAgain` | rocksdb-8.11.4/cache/clock_cache.cc:980-1037 | An entry made invisible never becomes visible again; a later visible slot holds a newer entry. |
| `SlotProtocol.ClockSparesReferenced` | rocksdb-8.11.4/cache/clock_cache.cc:98-163 | The clock leaves a referenced entry alone, and ages an unreferenced one strictly, below the maximum countdown. |
| `SuperVersions.StepInv` | rocksdb-8.11.4/db/column_family.cc:1241-1370 | Every atomic step of readers, returning threads, exiting threads and installers keeps the reference invariant. |
| `SuperVersions.RefcountExact` | rocksdb-8.11.4/db/column_family.cc:434-503 | In every interleaving the count of a SuperVersion equals its holders: current pointer, thread-local slots, readers in flight and the installer. |
| `SuperVersions.HeldIsAlive` | rocksdb-8.11.4/db/column_family.cc:1241-1300 | Nothing that a thread holds, caches or has handed out is ever freed. |
| `SuperVersions.CacheNeverHoldsLastRef` | rocksdb-8.11.4/db/column_family.cc:1254-1300 | Dropping a scraped pointer, the slot of an exiting thread, or a pointer that could not be put back never brings a count to zero. |
| `SuperVersions.CacheIsCurrent` | rocksdb-8.11.4/db/column_family.cc:1284-1300 | Whenever no install is in progress, every cached pointer and every pointer that can still be put back is the current SuperVersion. |
| `SuperVersions.ScrapeLeavesNothing` | rocksdb-8.11.4/db/column_family.cc:1354-1370 | Once a scrape has passed over all slots, and until the install ends, no slot caches any pointer. |
| `SuperVersions.SourceAssertions` | rocksdb-8.11.4/db/column_family.cc:1254-1300 | A reader never finds its own in-use mark, and a failed return always finds the obsolete mark. |
| `Probing.ProbesEverySlotOnce` | rocksdb-8.11.4/cache/clock_cache.cc:1059-1092 | The odd step over a power-of-two table visits every slot exactly once before it returns to the first. |
| `ClockEntries.ClockUpdate` | rocksdb-8.11.4/cache/clock_cache.cc:98-163 | A clock update keeps key, charge, visibility and references, never touches a referenced entry, and strictly lowers the clock of an unreferenced one or evicts it. |
| `ClockEntries.EffortExceededIs` | rocksdb-8.11.4/cache/clock_cache.cc:572-580 | The effort is exceeded exactly if the pinned entries seen reach the cap times one more than the entries freed. |
| `FixedTable.LayoutInsert` | rocksdb-8.11.4/cache/clock_cache.cc:784-829 | Storing an entry after incrementing its path keeps each displacement equal to the number of entries whose probe path passes the slot. |
| `FixedTable.LayoutRemove` | rocksdb-8.11.4/cache/clock_cache.cc:1094-1102 | Removing an entry and rolling back its path keeps that equality. |
| `FixedTable.NoneVisible` | rocksdb-8.11.4/cache/clock_cache.cc:831-891 | Stopping at displacement zero is sound: no visible entry with the key is anywhere in the table. |
| `FixedTable.Table.constructor` | rocksdb-8.11.4/cache/clock_cache.cc:720-740 | A new table is empty, undisplaced and charged for its metadata only. |
| `FixedTable.Table.DoInsert` | rocksdb-8.11.4/cache/clock_cache.cc:784-829 | The search stores the entry in the first empty slot of its path, all earlier ones being occupied and no visible match, or finds a visible match and restores all displacements, or finds the table full. |
| `FixedTable.Table.Lookup` | rocksdb-8.11.4/cache/clock_cache.cc:831-891 | Lookup succeeds exactly if a visible entry with the key exists anywhere in the table, and then references one. |
| `FixedTable.Table.Release` | rocksdb-8.11.4/cache/clock_cache.cc:893-967 | Release frees the entry exactly if the reference was the last and the entry is invisible or to be erased; the accounts follow. |
| `FixedTable.Table.Erase` | rocksdb-8.11.4/cache/clock_cache.cc:980-1037 | Erase leaves no visible entry with the key, frees the unreferenced ones and keeps the others invisible. |
| `FixedTable.Table.EraseUnRefEntries` | rocksdb-8.11.4/cache/clock_cache.cc:1039-1056 | Exactly the referenced entries remain. |
| `FixedTable.Table.Rollback` | rocksdb-8.11.4/cache/clock_cache.cc:1094-1102 | Rollback lowers exactly the displacements on the path before the slot, by one. |
| `FixedTable.Table.Reclaim` | rocksdb-8.11.4/cache/clock_cache.cc:1104-1113 | Freeing an entry gives back its charge and its slot. |
| `FixedTable.TickedClock` | rocksdb-8.11.4/cache/clock_cache.cc:98-163 | Whatever the clock of an entry was, n updates leave an unreferenced one visible with at most kMaxCountdown - n on it. |
| `FixedTable.HitsThree` | rocksdb-8.11.4/cache/clock_cache.cc:1129-1134 | A clock that runs kMaxCountdown times the table size passes every slot at least kMaxCountdown times, wherever it starts. |
| `FixedTable.Table.Evict` | rocksdb-8.11.4/cache/clock_cache.cc:1115-1160 | Each slot is updated exactly as often as the clock passes it, in at most kMaxCountdown rounds and a step; eviction ages or frees only unreferenced entries, reports exactly the charge and the number it freed, and if it stops short without hitting the effort cap leaves no unreferenced entry with time on its clock. |
| `FixedTable.Table.ChargeStrict` | rocksdb-8.11.4/cache/clock_cache.cc:441-495 | A strict reservation succeeds only within the capacity, and accounts for exactly the charge, with everything evicted given back. |
| `FixedTable.Table.ChargeNonStrict` | rocksdb-8.11.4/cache/clock_cache.cc:497-553 | A non-strict reservation accounts for exactly the charge, and fails only if a slot had to be freed and none was; then nothing is charged. |
| `FixedTable.Table.Insert` | rocksdb-8.11.4/cache/clock_cache.cc:582-684 | Through every path (stored, matched, standalone, dropped, refused) usage_ stays metadata plus stored plus standalone charges and occupancy_ the number of used slots; a strict success leaves usage within capacity; referenced entries survive. |
| `FixedTable.Table.CreateStandalone` | rocksdb-8.11.4/cache/clock_cache.cc:404-439 | A standalone handle is charged, or left uncharged if allowed, or refused only in the strict case; the accounts follow. |
| `FixedTable.Table.ReleaseStandalone` | rocksdb-8.11.4/cache/clock_cache.cc:893-967 | A standalone handle is freed with its last reference and its charge given back. |
| `FixedTable.Table.EmptyAgain` | rocksdb-8.11.4/cache/clock_cache.cc:742-776 | With no entries and no handles left, usage, occupancy and all displacements are back to their initial values. |
| `AutoEvict.SweepNAges` | rocksdb-8.11.4/cache/clock_cache.cc:98-163 | After n sweeps every unreferenced entry left on a chain has less than kMaxCountdown + 1 - n on its clock, whatever it started with. |
| `AutoEvict.FourSweepsSuffice` | rocksdb-8.11.4/cache/clock_cache.cc:98-163 | After kMaxCountdown + 1 sweeps of a chain only referenced entries are left. |
| `AutoEvict.SweepNKeepsPinned` | rocksdb-8.11.4/cache/clock_cache.cc:98-163 | No number of sweeps changes the referenced entries of a chain or their order. |
| `AutoEvict.Table.SweepGroup` | rocksdb-8.11.4/cache/clock_cache.cc:3505-3516 | One turn of the clock sweeps exactly the homes of one group of four, in both halves of the used table. |
| `AutoEvict.Table.Evict` | rocksdb-8.11.4/cache/clock_cache.cc:3454-3553 | Eviction ends within four passes, sweeps each home at most four times, never evicts a referenced entry, reports exactly what it freed, and if it stops short without hitting the effort cap leaves only referenced entries. |
| `AutoAccounts.Accounts.constructor` | rocksdb-8.11.4/cache/clock_cache.cc:1955-1976 | A new table is empty and charged for its metadata only. |
| `AutoAccounts.Accounts.Free` | rocksdb-8.11.4/cache/clock_cache.cc:3311-3317 | Removing an entry takes it off its chain, keeps the order of the others, and gives its charge and slot back. |
| `AutoAccounts.Accounts.TryEraseHandle` | rocksdb-8.11.4/cache/clock_cache.cc:3319-3366 | The entry is freed exactly if there are no references but the caller's, and made invisible if asked for; usage_ stays metadata plus chained plus standalone charges, occupancy_ the number of chained entries, standalone_usage_ the standalone charges. |
| `AutoAccounts.Accounts.Release` | rocksdb-8.11.4/cache/clock_cache.cc:3368-3403 | Release frees the entry exactly if the reference was the last and the entry is invisible or to be erased; the accounts follow. |
| `AutoAccounts.EraseOne` | rocksdb-8.11.4/cache/clock_cache.cc:3417-3429 | Erasing any one match is a step towards erasing all of them: what is left to erase is the same and there is one match less. |
| `AutoAccounts.Accounts.Erase` | rocksdb-8.11.4/cache/clock_cache.cc:3417-3429 | Erase leaves no visible entry with the key on the chain of its home, frees the unreferenced ones, keeps the others invisible and in order, and ends. |
| `AutoAccounts.Accounts.EraseUnRefEntries` | rocksdb-8.11.4/cache/clock_cache.cc:3431-3452 | Exactly the referenced entries remain, in order, and the accounts follow. |
| `AutoAccounts.SweptFrees` | rocksdb-8.11.4/cache/clock_cache.cc:523-548 | An eviction that frees no entry frees no charge, which the source asserts. |
| `AutoAccounts.Accounts.ChargeStrict` | rocksdb-8.11.4/cache/clock_cache.cc:441-495 | With the auto table's eviction, a strict reservation succeeds only within the capacity and accounts for exactly the charge. |
| `AutoAccounts.Accounts.ChargeNonStrict` | rocksdb-8.11.4/cache/clock_cache.cc:497-553 | With the auto table's eviction, a non-strict reservation accounts for exactly the charge, and fails only if a slot had to be freed and none was; then nothing is charged. |
| `AutoAccounts.Accounts.Insert` | rocksdb-8.11.4/cache/clock_cache.cc:582-684 | Through every path (chained, standalone, dropped, refused) the same equations hold; a strict success leaves usage within capacity; referenced entries stay as they are. |
| `AutoAccounts.Accounts.CreateStandalone` | rocksdb-8.11.4/cache/clock_cache.cc:404-439 | A standalone handle is charged, or left uncharged if allowed, or refused only in the strict case; the accounts follow. |
| `AutoAccounts.Accounts.ReleaseStandalone` | rocksdb-8.11.4/cache/clock_cache.cc:3351-3364 | A standalone handle is freed with its last reference and its charge given back. |
| `AutoAccounts.Accounts.EmptyAgain` | rocksdb-8.11.4/cache/clock_cache.cc:2098-2102 | With no entries and no handles left, usage and occupancy are back to their initial values. |
| `DbView.ViewExact` | rocksdb-8.11.4/db/db_iter.cc:1389-1407 | A row is in the view exactly if its key has entries, is within the bounds, and its visible versions applied from oldest to newest leave the row's value or merge failure. |
| `DbView.ViewAscends` | rocksdb-8.11.4/db/db_iter.cc:289-528 | The view is strictly ascending in user keys. |
| `DbIter.MergeContext.PushedOlder` | rocksdb-8.11.4/db/merge_context.h:33-45 | Pushing an older operand puts it in front of the operands in merge order, whatever direction was used before. |
| `DbIter.MergeContext.PushedNewer` | rocksdb-8.11.4/db/merge_context.h:48-61 | Pushing a newer operand puts it at the end of the operands in merge order. |
| `DbIter.DBIter.constructor` | rocksdb-8.11.4/db/db_iter.cc:40-97 | A new iterator shows nothing and is on no row. |
| `DbIter.DBIter.MergeValuesNewToOld` | rocksdb-8.11.4/db/db_iter.cc:537-659 | Merging from new to old gives the outcome of all visible versions of the key, and leaves the inner iterator within or just past the key. |
| `DbIter.DBIter.FindNextUserEntry` | rocksdb-8.11.4/db/db_iter.cc:283-528 | From any forward position the scan, with its skipping, reseeks and sequence-zero shortcut, ends on exactly the next row of the view, or past the last; it always terminates. |
| `DbIter.DBIter.Examine` | rocksdb-8.11.4/db/db_iter.cc:330-468 | What one iteration of the forward scan may conclude from one entry. |
| `DbIter.DBIter.Next` | rocksdb-8.11.4/db/db_iter.cc:135-184 | Next moves to the following row, whichever direction the iterator was moving in. |
| `DbIter.DBIter.Prev` | rocksdb-8.11.4/db/db_iter.cc:661-695 | Prev moves to the preceding row, whichever direction the iterator was moving in. |
| `DbIter.DBIter.ReverseToForward` | rocksdb-8.11.4/db/db_iter.cc:697-736 | A backward iterator is turned around onto the newest entry of its key. |
| `DbIter.DBIter.ReverseToBackward` | rocksdb-8.11.4/db/db_iter.cc:739-770 | A forward iterator is turned around onto the entry before its key, also when merging has run off the end. |
| `DbIter.DBIter.PrevInternal` | rocksdb-8.11.4/db/db_iter.cc:772-825 | From the last entry of any key the scan ends on exactly the nearest row at or before it, or before the first. |
| `DbIter.DBIter.FindValueForCurrentKey` | rocksdb-8.11.4/db/db_iter.cc:838-1068 | The scan from old to new finds the outcome of all visible versions of the key, or switches to the search from the newest. |
| `DbIter.DBIter.FindValueForCurrentKeyUsingSeek` | rocksdb-8.11.4/db/db_iter.cc:1074-1272 | The search from the newest visible version finds the same outcome. |
| `DbIter.DBIter.FindUserKeyBeforeSavedKey` | rocksdb-8.11.4/db/db_iter.cc:1314-1375 | The inner iterator ends on the entry just before the key, with or without a reseek. |
| `DbIter.DBIter.Seek` | rocksdb-8.11.4/db/db_iter.cc:1409-1529 | Seek goes to the first row at or after the target, clamped to the lower bound. |
| `DbIter.DBIter.SeekForPrev` | rocksdb-8.11.4/db/db_iter.cc:1426-1599 | SeekForPrev goes to the last row at or before the target, clamped below the upper bound. |
| `DbIter.DBIter.SeekToFirst` | rocksdb-8.11.4/db/db_iter.cc:1601-1651 | SeekToFirst goes to the first row. |
| `DbIter.DBIter.SeekToLast` | rocksdb-8.11.4/db/db_iter.cc:1653-1705 | SeekToLast goes to the last row. |
| `DbSnapshot.RunIterator` | rocksdb-8.11.4/db/db_iter.cc:135-1705 | Any sequence of moves shows, move by move, exactly what the same moves on a plain cursor over the view show, errors of the merge operator included. |
| `DbSnapshot.LaterWriteInvisible` | rocksdb-8.11.4/db/db_iter.cc:1389-1407 | A write after the snapshot, wherever it sorts, changes nothing in the view, so nothing that any run shows. |
| `HandleTable.Table.constructor` | rocksdb-8.11.4/cache/lru_cache.cc:25-31 | A new table has 16 empty chains. |
| `HandleTable.Table.FindPointer` | rocksdb-8.11.4/cache/lru_cache.cc:75-81 | FindPointer finds the node of a key in its chain, or the end of that chain. |
| `HandleTable.Table.Lookup` | rocksdb-8.11.4/cache/lru_cache.cc:45-47 | Lookup returns what the map that the table stands for holds. |
| `HandleTable.Table.Insert` | rocksdb-8.11.4/cache/lru_cache.cc:49-63 | Insert updates the map at the key, returns what was there, keeps elems_ equal to the size of the map, and may double the table. |
| `HandleTable.Table.Remove` | rocksdb-8.11.4/cache/lru_cache.cc:65-73 | Remove deletes the key from the map and returns what was there. |
| `HandleTable.Table.Resize` | rocksdb-8.11.4/cache/lru_cache.cc:83-115 | Doubling keeps the map; it happens exactly below both limits; the moved nodes are as many as elems_. |
| `HandleTable.Table.ApplyToSomeEntries` | rocksdb-8.11.4/cache/lru_cache.cc:168-202 | A step visits exactly the entries of the chains it covers, each once, and saves the position after them. |
| `HandleScan.StepCovers` | rocksdb-8.11.4/cache/lru_cache.cc:182-195 | A step covers exactly the hashes between its saved position and the next, whatever the length of the table. |
| `HandleScan.VisitedAtMostOnce` | rocksdb-8.11.4/cache/lru_cache.cc:168-202 | No entry is visited twice in a scan, however the table changes and doubles between the steps. |
| `HandleScan.StayingVisitedOnce` | rocksdb-8.11.4/cache/lru_cache.cc:168-202 | A finished scan has visited every entry that stayed in the table exactly once. |
| `HandleScan.ScanEnds` | rocksdb-8.11.4/cache/sharded_cache.h:238-260 | A scan with at least one chain to a step ends within 2^31 steps. |
| `HandleScan.ApplyToAllEntries` | rocksdb-8.11.4/cache/sharded_cache.h:238-260 | The rotation over the shards and their saved positions ends within 2^31 rounds, calls back for no entry twice, for every entry that stays in its shard exactly once, and for nothing else, however the tables change between any two steps. |
| `HandleScan.Round` | rocksdb-8.11.4/cache/sharded_cache.h:251-258 | One round takes every shard that is not done one step on, and tells whether any is left. |
| `HandleScan.RotationEndsExactly` | rocksdb-8.11.4/cache/sharded_cache.h:247-260 | The rotation is bounded if and only if average_entries_per_lock is at least one: with zero the minimum taken in the source leaves no progress. |
| `LruLinks.LinkInserted` | rocksdb-8.11.4/cache/lru_cache.cc:257-291 | Linking a handle in behind any element keeps the circular list well linked, with the handle at that place of the order. |
| `LruLinks.LinkRemoved` | rocksdb-8.11.4/cache/lru_cache.cc:233-244 | Unlinking a handle keeps the list well linked, without it, and leaves it without links. |
| `LruLinks.LinkedUnique` | rocksdb-8.11.4/cache/lru_cache.h:32-48 | The links determine the order of the list. |
| `LruPools.PoolList.MaintainPoolSize` | rocksdb-8.11.4/cache/lru_cache.cc:299-320 | Afterwards both pools fit; the list keeps its order; as few of the oldest entries of each pool as necessary have moved down, none if the pools fit before; pools, boundaries and usages agree; the source's assertions hold. |
| `LruPools.PoolList.LRU_Insert` | rocksdb-8.11.4/cache/lru_cache.cc:257-297 | The handle goes to the newest end of its pool; from oldest to newest the list stays bottom, low, high with both boundary pointers right and each usage the charge of its segment; the pools fit afterwards if they did before or the handle went above the bottom pool; nothing moves if there is room. Into the low pool with a high pool that does not fit, an assertion fails or the list is left broken. |
| `LruPools.PoolList.LRU_Remove` | rocksdb-8.11.4/cache/lru_cache.cc:233-255 | Removing any handle keeps the order of the others, the boundaries and the usages. |
| `LruPools.PoolList.SetCapacity` | rocksdb-8.11.4/cache/lru_cache.cc:354-362 | A new capacity recomputes the pool capacities and leaves the list alone. |
| `LruPools.PoolList.SetHighPriorityPoolRatio` | rocksdb-8.11.4/cache/lru_cache.cc:458-463 | A new ratio recomputes the pool capacity and makes the pools fit. |
| `LruPools.PoolList.SetLowPriorityPoolRatio` | rocksdb-8.11.4/cache/lru_cache.cc:465-470 | The same for the low pool. |
| `LruPools.LowInsertExact` | rocksdb-8.11.4/cache/lru_cache.cc:270-281 | On every well-formed list, inserting a low priority handle as the source does (link it in, overflow from the old boundary, then move the boundary) leaves a list that is well formed for some order of handles and pools if and only if the high pool fits its capacity when it starts. |
| `LruPools.LowInsertBreaks` | rocksdb-8.11.4/cache/lru_cache.cc:270-281 | The failing half of this, for any number of steps that the loops may take. |
| `LruPools.ShrinkThenInsertFails` | rocksdb-8.11.4/cache/lru_cache.cc:354-362 | A list built by a constructor, an insertion and a smaller capacity on which a low priority insertion does not leave a well-formed list. |
| `LruShard.MakeRoomTakes` | rocksdb-8.11.4/cache/lru_cache.cc:322-335 | Eviction takes the shortest stretch of the oldest handles that makes room. |
| `LruShard.MakeRoomKeeps` | rocksdb-8.11.4/cache/lru_cache.cc:322-335 | Eviction changes no other handle. |
| `LruShard.Shard.constructor` | rocksdb-8.11.4/cache/lru_cache.cc:117-144 | A new shard is empty and its pools fit. |
| `LruShard.Shard.EvictFromLRU` | rocksdb-8.11.4/cache/lru_cache.cc:322-335 | Eviction follows the least recently used order until there is room or the list is empty. |
| `LruShard.Shard.Insert` | rocksdb-8.11.4/cache/lru_cache.cc:372-427 | Insertion evicts in that order, then refuses (strict), drops (no handle wanted) or installs the handle in place of the old one, which is freed unless referenced. The states of the handles and the usage are right afterwards; so are the list and its pools, and a shard over capacity has an empty list, unless the entry goes to the low pool and the high pool does not fit once the eviction is done and the old handle gone. |
| `LruShard.Shard.Lookup` | rocksdb-8.11.4/cache/lru_cache.cc:430-448 | Lookup returns the handle of the key with one more reference, marked as hit and off the list. |
| `LruShard.Shard.Ref` | rocksdb-8.11.4/cache/lru_cache.cc:450-456 | A handle that has references gets one more; nothing else changes. |
| `LruShard.Shard.Release` | rocksdb-8.11.4/cache/lru_cache.cc:472-518 | The last reference of a handle in the table puts it back on the list, unless the shard is over capacity or it is to be erased; else it is freed and its charge given back. The states of the handles and the usage are right afterwards; so is the list, unless the handle goes to the low pool and the high pool does not fit. |
| `LruShard.Shard.CreateStandalone` | rocksdb-8.11.4/cache/lru_cache.cc:559-589 | A standalone handle is charged, left uncharged, or refused, after the same eviction. |
| `LruShard.Shard.Erase` | rocksdb-8.11.4/cache/lru_cache.cc:591-615 | The key leaves the table; its handle is freed unless referenced. |
| `LruShard.Shard.EraseUnRefEntries` | rocksdb-8.11.4/cache/lru_cache.cc:146-166 | The list is emptied and no referenced handle changes. |
| `LruShard.Shard.SetCapacity` | rocksdb-8.11.4/cache/lru_cache.cc:354-365 | A new capacity evicts down to it in LRU order and keeps the shard's invariants other than the pool sizes. |
| `LruShard.ShardMeans` | rocksdb-8.11.4/cache/lru_cache.h:32-48 | What every operation keeps: each handle is in exactly one of its states, on the list iff in the table without references; usage is the charge of the live handles; over capacity the list is empty; the list runs through its pools in order. |
| `Reservations.Manager.UpdateCacheReservation` | rocksdb-8.11.4/cache/cache_reservation_manager.cc:58-85 | Without delayed decrease a successful update reserves the least multiple of the dummy size that covers the memory used; a failure stops at the first refused insertion. |
| `Reservations.Manager.Increase` | rocksdb-8.11.4/cache/cache_reservation_manager.cc:112-127 | Dummy entries are only added, until they cover the memory or one is refused. |
| `Reservations.Manager.Decrease` | rocksdb-8.11.4/cache/cache_reservation_manager.cc:130-147 | The newest dummy entries are released as long as the rest covers the memory. |
| `Reservations.Manager.UpdateByDelta` | rocksdb-8.11.4/cache/cache_reservation_manager.h:270-286 | A change of the memory used is applied on top of the last one, not below zero. |
| `Reservations.Adapter.constructor` | rocksdb-8.11.4/cache/secondary_cache_adapter.cc:80-110 | Initially the whole secondary capacity is reserved in the primary, nothing is given up, and the capacities are those asked for. |
| `Reservations.Adapter.Insert` | rocksdb-8.11.4/cache/secondary_cache_adapter.cc:236-268 | After any placeholder insertion, reserved plus given up is the secondary capacity, given up is the rounded-down share of the reserved usage, and less than one chunk is unshared while the placeholders fit. |
| `Reservations.Adapter.Release` | rocksdb-8.11.4/cache/secondary_cache_adapter.cc:307-337 | After any release, reserved plus given up is the secondary capacity and given up is the rounded-down share of the reserved usage; less than one chunk is unshared while the placeholders fit, if and only if the rest does not fit or is less than one chunk over what was shared before; releasing the last placeholder restores the initial state. |
| `Reservations.ReleaseLeavesUnshared` | rocksdb-8.11.4/cache/secondary_cache_adapter.cc:316-320 | Placeholders of 5, 20 and 4 chunks in a capacity of 10, of which the second is released: the rest fits, and four whole chunks of it stay unshared. |
| `ValueChunks.ChunkSize` | rocksdb-8.11.4/cache/compressed_secondary_cache.cc:323-338 | The next chunk is the largest bin that the rest fills, or all of the rest. |
| `ValueChunks.SplitValueIntoChunks` | rocksdb-8.11.4/cache/compressed_secondary_cache.cc:305-351 | The chunks hold the value, none is empty, all but the last fill a bin, and the charge grows by exactly the allocated sizes. |
| `ValueChunks.MergeChunksIntoValue` | rocksdb-8.11.4/cache/compressed_secondary_cache.cc:353-373 | Merging copies the chunks one after the other into a buffer of exactly their size. |
| `ValueChunks.SplitAndMerge` | rocksdb-8.11.4/cache/compressed_secondary_cache.cc:305-373 | Merging what was split gives the value back, for every value and compression type. |

## Left out

- C++ memory orders, yields, spurious waits and cache-line layout: every atomic access is one sequentially consistent step.
- CorrectNearOverflow, CHECK_TOO_MANY_ITERATIONS, hit counters and the width of the acquire and release counters: the counters are unbounded.
- ChainSplit.StepPreserves: entries may become invisible and be taken for construction during a split, but no slot is freed and used again while the split runs; unlinking by a purge on an unlocked, initially empty half is not part of the runs.
- ChainLookup.LookupMissesOnlyOvertaken: the key comparison of the first pass is the one made outside thread-sanitizer builds, and a reference it takes and gives back at once is one step. Termination of the second pass under endless insertions is not stated.
- ChainMiss.LookupCanMissIffOvertaken: the schedules consist of steps of the split and of one lookup that reads the length before the split starts; no other entry has the key.
- ChainPurge.PurgeResult: says what a finished purge has done; that a purge finishes under endless head insertions is not stated.
- AutoEvict.Table.Evict: one thread, a table that does not grow, and a clock mask that matches its length.
- AutoAccounts.Accounts.Insert: one thread and a table that does not grow, so that the metadata charge is fixed; whether the occupancy limit is reached and whether DoInsert finds a free slot before a match are parameters, and the clock boost of a match is left out.
- CatchUpLengthInfoNoWait, the search for a free slot in DoInsert and the initial table layout of the auto table.
- SuperVersions.RefcountExact: SuperVersions are named apart, so that an address that is used again after being freed is a new name.
- Standalone handles and pinned-usage reports in the concurrent slot protocol; they are in the sequential accounts only.
- FixedTable.Table.Insert: the countdown and the address of a new heap handle are parameters.
- DbIter.DBIter.FindNextUserEntry: no timestamps, blobs, wide columns, prefix mode, read callback, pinning or max_skippable_internal_keys; the inner iterator is a sorted sequence in total order that does not fail, and user keys are real numbers standing for any countable order.
- DbIter.DBIter.FindValueForCurrentKeyUsingSeek: without a read callback the entry it seeks is visible at once, so its search loop is one step.
- DbIter.DBIter.Next: requires a valid iterator, as the source asserts; DbSnapshot.RunIterator does not take a step that is not allowed.
- LruShard.Shard.Insert: the shard uses the hash table through the map that HandleTable.Table is proved to refine, and erases the old handle before it adds the new one, where the source adds first; freed handles are not reused.
- LruPools.PoolList.LRU_Insert: what happens to a list after an insertion that left it broken, or on which an assertion failed, is not modelled.
- Eviction callbacks, metadata charge policies, allocators, statistics and printable options of the caches.
- HandleScan.ApplyToAllEntries: requires at least one entry per lock, without which it does not end (see HandleScan.RotationEndsExactly); tables of all shards change only between steps, as the mutexes of the shards ensure.
- Reservations.Adapter.Insert: fixed capacities and an exact rational ratio in place of a double; a target cache that accepts the placeholder; SetCapacity and UpdateCacheReservationRatio are left out.
- Reservation handles that release on destruction, and cache keys of dummy entries.
- ColumnFamilyData options, write stalls and directories; MemTable, Version and WriteController.
- Cache key uniqueness, the zoned-block-device library, table building, tools and the Java interface.
