# Verification of the TL2 software transactional memory

A Dafny model of the repository's transactional memory, of the radix sort and hash table it
stands on, and of its two concurrent ordered lists, with proofs of what they promise.
`dafny verify dfyconfig.toml` checks everything.

## What is modelled

**The commit protocol** (`Protocol*.dfy`). Any number of threads run `atomically` with
arbitrary deterministic bodies. A step is one atomic access to shared state: sampling the
clock, finding a lock word unlocked, starting and ending the copy of a value, staging a write,
taking one lock, incrementing the clock, validating one location, loading and storing a lock
word, starting and ending a move into memory, releasing one lock. A copy that overlaps a move
may return any value. Committed attempts are filed in a history under their write version,
which is also the serial order, because commits can finish out of clock order. The code
differs from its documentation: `main.tex:242` says that a read checks the version it sees,
but `tl2/op.h:90-97` only waits for an unlocked word, so versions are checked at commit alone
(`tl2/stm.h:50-56`). The model follows the code; what is proved is strict serializability of
committed transactions, that a call of `atomically` which returns has committed exactly one run
of its body (`ProtocolCalls`), that an attempt fails only for a reason (`ProtocolAborts`) and that
attempts are finite (`ProtocolProgress`).

**One thread's view** (`VersionLock.dfy`, `TransactionLog.dfy`, `LockGuard.dfy`, `Stm.dfy`,
`Nesting.dfy`). The packed lock word, the two location sets, the guard's loops, `try_commit`,
`atomically` with its retries and restored arguments, and nested transactions, as methods over
the state the source updates, with their results stated address by address, apart from how the log and
the table hold them. What other threads do meanwhile is arbitrary: every read may show
another value, and locks are found in any state. The log that `Stm` keeps is the one that
`Protocol` gives its threads, and it is put in order by the radix sort below.

**The in-place radix sort** (`RadixBuckets.dfy`, `RadixKeys.dfy`, `SkaSort.dfy`). Both
partitioning algorithms work on the array through offsets, with the source's thresholds,
early exit, skipping of full blocks, side-effecting partition predicate and recursion from the
most significant byte to the least. `RadixBuckets` holds the counting arguments.

**The out-of-place radix sorters** (`StableSort.dfy`, `LsdSort.dfy`, `LsdCompose.dfy`). Numbers
of any byte width, Booleans, pairs, tuples and arrays, nested in any way. What the source picks
by template is picked by a description of the key type.

**The Robin Hood hash table** (`RobinHood.dfy`, `DenseTable.dfy`). Buckets that pack distance
and fingerprint, dense values, probing, shifting up and down, growth up to the largest table and
the overflow error there. The hash is any function to 64-bit words, the capacity any number
below the bucket count, or all buckets in the largest table, which may be full.

**The concurrent lists** (`SetHistory.dfy`, `Linearizability.dfy`, `SortedChain.dfy`,
`Measures.dfy`, `LockFreeList*.dfy`, `LockFreeContains*.dfy`, `FineList*.dfy`). Both are state machines for any number of threads with one
step per access to a link or lock. They are linearizable if the operations, the completed ones
with their answers and possibly some others, can be put in one order that respects real time
and in which a sequential set gives every answer. `SetHistory` records at which instant each
operation takes effect; `Linearizability` proves that such instants give such an order. The
`*Progress` files prove that every call is answered: once no more operations are called, a number
fixed by the state bounds the steps of all threads together, under any schedule.

## Results that a reader of the code might not expect

- Commits are deadlock free exactly when no address in play lies between two addresses of
  another lock. The lock of an address is its bits above the second, masked, so address order is
  lock order only inside an aligned window of 2^24 bytes; addresses 0, 4 and 2^24 are enough for
  two commits to deadlock (`ProtocolDeadlock`).
- Both lists are linearizable sets exactly when `INT_MAX` is not used as a key: it collides with
  the tail sentinel, so that `add` of it to an empty list, the only call made, returns false.
  `INT_MIN` is harmless.
- `contains` of the lock-free list is right exactly when `remove` is not in use: behind a marked
  node it walks past the next one unseen, and so it answers false for a key that was added before,
  and that nobody ever removes, while a smaller key is being removed (`LockFreeContains`).
- Sorting the log in place leaves its hash index wrong unless the log was already in address
  order; `atomically` never looks an address up between the sort and the next clear.
- `pack` and `unpack_version` keep a version exactly if it is below 2^63.
- A program raises `invalid_access` exactly if its run comes to an access outside every
  `atomically`; an access in a branch that is not taken raises nothing.
- The hash table's largest size lets every bucket be occupied. Shifting down on erasing still
  stops, because a full table always has a value in its home bucket.

## Model

| member | source | states |
|---|---|---|
| ProtocolTheorems.Serializable | tl2/stm.h:26-59 | Every committed transaction is its body run alone, straight on the memory left by all committed transactions of smaller write version, in every interleaving and with arbitrary torn reads |
| ProtocolTheorems.RealTimeOrder | tl2/state.h:28-32 | A transaction that ended before another began has the smaller write version |
| ProtocolTheorems.MemoryIsReplay | tl2/stm.h:31-38 | With no write-back under way, memory is the initial memory with all committed write sets applied in write-version order, however the write-backs interleaved |
| ProtocolTheorems.FastPathIsSound | tl2/stm.h:43-48 | When the write version is the read version plus one, every location would pass full validation, in every reachable state |
| ProtocolTheorems.FetchedIsCurrent | tl2/stm.h:43-56 | Location by location: a value fetched is the one memory holds at validation if the version has not passed the sample, and on the fast path in any case |
| ProtocolCalls.CommitsExactlyOnce | tl2/stm.h:107-126 | In every reachable state a call of `atomically` that is over has exactly one transaction in the history, a run of its body; no call ever has two |
| ProtocolCalls.ReturnMeansCommitted | tl2/stm.h:107-126 | Whatever step takes a thread back to idle, its call is then over and has committed exactly one transaction, of the thread's body |
| ProtocolCalls.CallsAreStarts | tl2/stm.h:104-126 | A call is added exactly when a thread leaves idle, with the body it goes on to run; the thread keeps call and body until it returns, and committed transactions stay as they are |
| ProtocolCalls.CallsInRealTime | tl2/stm.h:107-126 | If a call is over before another starts, its transaction has the smaller write version |
| ProtocolAborts.AbortHasCulprit | tl2/stm.h:50-56 | In every reachable state, an attempt that has failed was overtaken by a transaction of another call, with a write version above the sample and drawn after the attempt began, that wrote an address under the lock of one the body read |
| ProtocolProgress.AttemptShrinks | tl2/stm.h:41-59 | Every step of an attempt ends it or lowers what is left of it, which the body's length bounds |
| ProtocolTheorems.WordsOnlyByHolder | tl2/version_lock.h:46-66 | Versions never fall and never pass the clock, and only its holder changes a locked word |
| ProtocolTheorems.StoreLosesNothing | tl2/version_lock.h:46-50 | Between the load and the store of `unsafe_set_version` the word has not changed and is locked |
| ProtocolTheorems.GuardHoldsEachLockOnce | tl2/lock_guard.h:10-24 | A complete guard holds the lock of every location in the log exactly once, shared with no thread, and every location is marked as owned |
| ProtocolProof.InvReachable | tl2/stm.h:41-59 | The protocol's invariant holds in every reachable state |
| ProtocolProof.InvNext | tl2/stm.h:41-59 | Every step of any thread keeps the invariant |
| ProtocolProof.ValidatedIsLatest | tl2/stm.h:50-56 | If every word read has a version not above the sample, every value fetched is the one written by the newest committed transaction before the write version |
| ProtocolDeadlock.DeadlockFreeIffContiguous | tl2/lock_guard.h:10-24 | Commits cannot deadlock in any run over a set of addresses if and only if no address of the set lies between two addresses of another lock |
| ProtocolDeadlock.CrossingDeadlocks | tl2/lock_guard.h:10-24 | Three addresses where one lies between two of another lock have a run into a deadlock |
| ProtocolDeadlock.WindowIsContiguous | tl2/hash_table.h:22-25 | All addresses in one aligned 2^24-byte window meet the condition |
| ProtocolDeadlock.StraddlingDeadlocks | tl2/hash_table.h:22-25 | Addresses 0, 4 and 2^24 deadlock |
| ProtocolDeadlock.SomeThreadProceeds | tl2/lock_guard.h:10-24 | Under the condition, while a call of `atomically` is under way and bodies access existing addresses, some thread with a call under way can step |
| ProtocolDeadlock.OwnerNeverWaits | tl2/op.h:132-142 | No version access of a committing thread spins on a lock it took itself |
| ProtocolDeadlock.ReaderWaitsEmptyHanded | tl2/t_var.h:38-42 | A thread that waits for a lock in its body holds none |
| VersionLock.PackKeepsApart | tl2/version_lock.h:72-76 | The version comes back exactly if it is below 2^63, otherwise without its top bit, and the lock bit always |
| VersionLock.PackInjective | tl2/version_lock.h:72-76 | Words are equal exactly if the lock bits are and the versions are but for the top bit |
| VersionLock.UnpackPack | tl2/version_lock.h:72-76 | Every word is the packing of its own version and lock bit |
| VersionLock.Lock.GetVersion | tl2/version_lock.h:12-20 | Whatever other threads do, the loop returns the version of the first unlocked word it loads |
| VersionLock.Lock.IncrVersion | tl2/version_lock.h:26-30 | The addition raises the version by one, round the end if need be, and keeps the lock bit |
| VersionLock.Lock.SetVersion | tl2/version_lock.h:32-44 | The loop replaces the version in the first round in which the word is unlocked and unchanged by the exchange, and leaves the lock free |
| VersionLock.Lock.UnsafeSetVersion | tl2/version_lock.h:46-50 | The version is replaced, but for a top bit, and the lock bit kept |
| VersionLock.Lock.Acquire | tl2/version_lock.h:52-64 | The loop takes the lock in the first round in which the word is unlocked and unchanged by the exchange, keeping the version |
| VersionLock.Lock.Unlock | tl2/version_lock.h:66-66 | The lock bit goes and the version stays |
| TransactionLog.LocationHashVectorSet.RegisterRead | tl2/op.h:235-242 | The log's entry for the address is marked read and keeps its staged value; a new address gets an entry |
| TransactionLog.LocationHashVectorSet.RegisterWrite | tl2/op.h:225-233 | The entry gets the staged value and keeps its read mark; a new address gets an entry |
| TransactionLog.LocationHashVectorSet.FindWrite | tl2/op.h:250-257 | The staged value of a written address, and nothing for any other |
| TransactionLog.LocationHashVectorSet.StableSort | tl2/op.h:244-248 | The locations are in address order, once each, with the same entries; the index is still right exactly if they were in order before |
| TransactionLog.StaleUnlessAscending | tl2/op.h:244-248 | The index survives sorting if and only if the locations were in address order |
| TransactionLog.LocationOrderedSet.RegisterRead | tl2/op.h:206-212 | The same change to the same map as the hash-indexed vector makes |
| TransactionLog.LocationOrderedSet.RegisterWrite | tl2/op.h:194-204 | The same change to the same map as the hash-indexed vector makes |
| TransactionLog.LocationOrderedSet.FindWrite | tl2/op.h:185-192 | The same answer as the hash-indexed vector gives |
| TransactionLog.EntriesSay | tl2/op.h:90-116 | After any sequence of log operations an address is marked read exactly if it was read since the last clear, and has a value staged exactly if it was written since, namely the last one |
| TransactionLog.SameAnswers | tl2/log.h:57-86 | Whatever sequence of log operations is performed, both location sets give the same answers |
| LockGuard.Guard.constructor | tl2/lock_guard.h:10-24 | For any log, any collisions and any state of the table: exactly the locks of the log are taken, each at its first location and as it is when the wait for it ends, and every location is marked as owned |
| LockGuard.Guard.Release | tl2/lock_guard.h:26-30 | Exactly what was taken is released; locations that were only marked keep their mark |
| LockGuard.FirstsTakeOnce | tl2/lock_guard.h:13-23 | The guard's list names each lock that the log uses once and no other |
| Stm.Commit | tl2/stm.h:26-39 | Memory becomes the write-back of the log, and exactly the locks of written locations get the write version |
| Stm.WriteBackIsSeen | tl2/stm.h:26-39 | Writing back the log makes memory exactly what the transaction saw |
| Stm.Validate | tl2/stm.h:50-56 | True exactly if every location read has a version not above the sample |
| Stm.TryCommit | tl2/stm.h:41-59 | Commits exactly if the clock has not moved or every address marked read has a version not above the sample; then memory is what the transaction saw and the lock of every address written has the new version, otherwise both are as they were; the log's locks are free again and all others untouched |
| Stm.StaleReaderFails | tl2/stm.h:26-59 | A commit turns away every attempt that sampled the clock before it and read an address it wrote |
| Stm.TMan.StartTransaction | tl2/state.h:28-32 | The log is empty whatever state its index was in, and the clock is sampled |
| Stm.TMan.EndTransaction | tl2/state.h:34-37 | The log is empty and no transaction is running |
| Stm.TMan.AssertInTransaction | tl2/state.h:43-49 | Inside a transaction nothing changes; outside, the log and state are cleared and the exception is raised |
| Stm.TMan.Read | tl2/t_var.h:22-47 | The value the transaction sees at the address, staged or from memory, and the read is logged |
| Stm.TMan.Write | tl2/t_var.h:82-92 | The value is staged and the read mark kept |
| Stm.TMan.constructor | tl2/state.h:15-26 | A new thread is in no transaction |
| Stm.Session | tl2/state.h:28-49 | Through any sequence of starts, ends and accesses, an access raises the exception exactly if no transaction has been started without having been ended since |
| Stm.RunBody | tl2/t_var.h:29-46 | A body run through the log reads its own staged values and otherwise whatever memory shows at that moment, and stages its writes |
| Stm.SightedEntries | tl2/op.h:90-116 | After a body has run, an address is marked read exactly if the body read it, and the staged values are the body's last writes |
| Stm.SightedIsDirect | tl2/t_var.h:29-46 | If each address read always showed the value that one memory has, the run through the log is the run of the body directly on that memory |
| Stm.CommitIsOneRun | tl2/stm.h:43-56 | After validation, or with the clock unmoved, the run through the log is the run directly on memory as the commit finds it |
| Stm.RestoreArgs | tl2/stm.h:61-76 | Every plain argument has its saved value again |
| Stm.Attempt | tl2/stm.h:109-113 | With other threads writing between its reads, an attempt commits exactly if the clock has not moved or no address its code read has a version above the sample; then it is one run of the code on memory, and otherwise memory is left alone |
| Stm.Atomically | tl2/stm.h:104-126 | However many attempts fail, whatever they have read, arguments, result and memory are those of one run from the saved arguments, the log is empty and no transaction runs |
| Stm.NestedAtomically | tl2/stm.h:91-102 | A nested call reads and stages through the outer transaction's log as its code would there, and leaves that transaction running |
| Nesting.NestedMeansInlined | tl2/stm.h:91-102 | A transaction with branches and loops means the same with every nested one inlined, at any depth |
| Nesting.AtomicMeansDirect | tl2/stm.h:85-126 | A transaction that ends is its body run directly on memory, after which the log is empty and none is running |
| Nesting.RunningMeansDirect | tl2/t_var.h:29-46 | Inside a transaction nothing throws or reaches memory, and what is seen changes as memory would directly |
| Nesting.ThrowsIffEscapes | tl2/state.h:43-49 | A program raises invalid_access if and only if its direct run has an access outside every transaction, and then leaves memory and the values read as they were when the first such access came; otherwise it is its direct run |
| Nesting.BoundDoesNotMatter | tl2/stm.h:85-126 | A run that ends does so in the same way whatever larger bound is put on its loops |
| SkaSort.SkaSort | tl2/ska_sort.h:1240-1243 | For every length the range is a permutation of what it was, sorted by the whole 64-bit key, and nothing outside it changes |
| SkaSort.StdSortIfLessThanThreshold | tl2/ska_sort.h:828-838 | Sorts exactly the ranges below the threshold and leaves the others alone |
| SkaSort.CountBytes | tl2/ska_sort.h:951-953 | Each count is the number of items with that byte |
| SkaSort.LayOut | tl2/ska_sort.h:954-966 | Offsets and ends delimit regions as long as the bytes are many, and the list names each non-empty bucket once in ascending order |
| SkaSort.Place | tl2/ska_sort.h:981-984 | One swap advances exactly one offset, which does not pass its bucket's end, and keeps all filled slots right |
| SkaSort.UnrollLoopFourTimes | tl2/ska_sort.h:595-620 | As many slots become filled as the loop makes calls, none twice |
| SkaSort.PlacePartition | tl2/ska_sort.h:971-987 | The predicate is true exactly if the bucket still has free slots after its pass |
| SkaSort.CustomStdPartition | tl2/ska_sort.h:622-639 | The list is rearranged with unfinished buckets in front and finished ones behind, and some slot was filled unless none is left in front |
| SkaSort.SkaPartition | tl2/ska_sort.h:946-988 | The loop ends with every byte in its bucket, buckets contiguous and ascending, the last one without being finished |
| SkaSort.NextBlock | tl2/ska_sort.h:902-909 | The next block with a free slot, or the last block, with every block passed over full |
| SkaSort.FlagStep | tl2/ska_sort.h:895-917 | One turn of the cycling loop fills one more slot, and when it leaves early every block but the last is full |
| SkaSort.FlagLastElement | tl2/ska_sort.h:899-900 | Reaching the last element means that all blocks but the last are full |
| SkaSort.FlagPartition | tl2/ska_sort.h:866-919 | The cycling loop ends with every byte in its bucket, the last block without being visited |
| SkaSort.AmericanFlagSort | tl2/ska_sort.h:866-943 | A range whose keys agree above this byte becomes a sorted permutation of itself |
| SkaSort.SkaByteSort | tl2/ska_sort.h:946-1010 | The same, with the buckets recursed into in whatever order the partitioning left |
| SkaSort.Sort | tl2/ska_sort.h:855-863 | The same, whichever of the two the threshold selects |
| RadixBuckets.SwapAdvances | tl2/ska_sort.h:914-917 | Moving the byte at an unfilled slot to its bucket's next slot advances that offset alone, within its bucket, and leaves one slot fewer unplaced |
| RadixBuckets.SlotFree | tl2/ska_sort.h:981-984 | A byte outside the filled part of its bucket leaves a free slot there |
| RadixBuckets.LastBucketIsRight | tl2/ska_sort.h:967-969 | When all buckets but one are full, every byte is in its bucket, that one's too |
| RadixKeys.ByteOrders | tl2/ska_sort.h:849-853 | Where the bytes above agree, the current byte decides the order of keys, or equal bytes extend the agreement |
| RadixKeys.BucketsSort | tl2/ska_sort.h:921-942 | Buckets in order, each sorted, make a sorted range |
| RadixKeys.SortedKeysUnique | tl2/ska_sort.h:1240-1243 | Any two sorted arrangements of the same items have the same keys in the same places |
| LsdSort.CountingPass | tl2/ska_sort.h:205-208 | One pass is a stable sort by its digit |
| LsdSort.Histogram | tl2/ska_sort.h:180-204 | Each starting place is the number of elements with a smaller digit |
| LsdSort.StartOfPermuted | tl2/ska_sort.h:180-220 | A histogram of the original order is that of any rearrangement, and so valid in every later pass |
| LsdSort.SizedSort | tl2/ska_sort.h:240-329 | Passes from the least significant byte up are a stable sort by the whole number, in the array the Boolean names |
| LsdSort.BoolSort | tl2/ska_sort.h:335-353 | A stable sort with false before true |
| StableSort.SortsCompose | tl2/ska_sort.h:388-403 | A stable sort by a low rank followed by one by a high rank is a stable sort by both |
| LsdCompose.PairSort | tl2/ska_sort.h:388-403 | A stable sort by pairs, in the array the Boolean names |
| LsdCompose.TupleSort | tl2/ska_sort.h:430-443 | A stable sort by the components from the given one on, in the array the Boolean names |
| LsdCompose.ArraySort | tl2/ska_sort.h:514-529 | A stable sort by arrays, in the array the Boolean names |
| LsdCompose.RadixSort | tl2/ska_sort.h:334-536 | A stable sort by keys of any nested type, in the array the Boolean names |
| LsdCompose.RankIsOrder | tl2/ska_sort.h:388-532 | The rank sorted by orders keys lexicographically and tells all keys apart |
| LsdCompose.SortedLexicographically | tl2/ska_sort.h:388-532 | The sorted elements' keys are in lexicographic order |
| RobinHood.Covers | tl2/ankerl/unordered_dense.h:1326-1341 | From a value's home up to its bucket every bucket is at least as poor as the value would be there |
| RobinHood.ProbeStops | tl2/ankerl/unordered_dense.h:1095-1099 | A probe ends at the first empty bucket at the latest and does not wrap around |
| RobinHood.SwapOn | tl2/ankerl/unordered_dense.h:1103-1110 | Each exchange of shifting up keeps probe order, positions and the one-to-one link, one step nearer an empty bucket |
| RobinHood.CloseOn | tl2/ankerl/unordered_dense.h:1112-1123 | Each step of shifting down keeps probe order, positions and the one-to-one link, one step nearer a bucket where it stops |
| RobinHood.Repoint | tl2/ankerl/unordered_dense.h:1246-1262 | Giving the last value the freed number keeps the one-to-one link |
| RobinHood.SomeEmpty | tl2/ankerl/unordered_dense.h:1167-1169 | With fewer values in buckets than there are buckets, some bucket is empty |
| RobinHood.DropInStops | tl2/ankerl/unordered_dense.h:1103-1110 | Taking an empty bucket, even the last, leaves one at which shifting down stops |
| RobinHood.WordsFit | tl2/ankerl/unordered_dense.h:1041-1047 | In a table of fewer than 2^24 buckets every packed word fits 32 bits |
| DenseTable.NextWhileLess | tl2/ankerl/unordered_dense.h:1090-1101 | The probe stops, past richer buckets only, at one that is no richer |
| DenseTable.PlaceAndShiftUp | tl2/ankerl/unordered_dense.h:1103-1110 | Shifting up ends with the index in order and the new value in it |
| DenseTable.EraseAndShiftDown | tl2/ankerl/unordered_dense.h:1112-1123 | Shifting down ends with the index in order but for the removed value |
| DenseTable.FillBucketsFromValues | tl2/ankerl/unordered_dense.h:1210-1222 | An empty bucket array becomes the index of all values |
| DenseTable.Table.Find | tl2/ankerl/unordered_dense.h:1344-1383 | Finds the key's entry if and only if the map has the key |
| DenseTable.Table.IncreaseSize | tl2/ankerl/unordered_dense.h:1224-1237 | Twice as many buckets index the same values; the largest table drops the value just pushed and fails |
| DenseTable.Table.Emplace | tl2/ankerl/unordered_dense.h:1755-1792 | Inserts exactly if the key is absent and the table is not the largest one with its capacity used up, in which case it fails; unless it inserts, values and map are as before |
| DenseTable.Table.TryEmplace | tl2/ankerl/unordered_dense.h:1320-1342 | Inserts exactly if the key is absent and the table is not the largest one with its capacity used up, in which case it fails; unless it inserts, values and map are as before |
| DenseTable.Table.DoErase | tl2/ankerl/unordered_dense.h:1239-1263 | The map loses the bucket's key and the last value takes the freed place |
| DenseTable.Table.BucketOf | tl2/ankerl/unordered_dense.h:1252-1259 | The scan from a value's home stops at its own bucket |
| DenseTable.Table.BucketWith | tl2/ankerl/unordered_dense.h:1272-1285 | The key's bucket, exactly if the map has the key |
| DenseTable.Table.EraseKey | tl2/ankerl/unordered_dense.h:1265-1288 | The map loses the key, and the answer says whether it was there |
| DenseTable.Table.ReplaceKey | tl2/ankerl/unordered_dense.h:1857-1908 | The value moves to the new key and keeps its place, unless the new key is present |
| LockFreeListTheorems.LinearizableIff | graphs/ordered_ll/lockfree_list.h:69-97 | `add` and `remove` are linearizable in every run over a set of keys if and only if `INT_MAX` is not among them |
| LockFreeListTheorems.TailKeyMisanswers | graphs/ordered_ll/lockfree_list.h:63-75 | A run in which the only call, `add` of `INT_MAX` to an empty list, returns false, which no order of the operations explains |
| LockFreeListTheorems.UnmarkedReachable | graphs/ordered_ll/lockfree_list.h:121-142 | Every unmarked node can be reached from the head |
| LockFreeListTheorems.KeysRise | graphs/ordered_ll/lockfree_list.h:121-142 | Keys rise strictly along every link behind the head, marked or not |
| LockFreeListTheorems.MarkedIsFrozen | graphs/ordered_ll/lockfree_list.h:45-51 | No step changes a marked node |
| LockFreeListTheorems.SetIsUnmarkedKeys | graphs/ordered_ll/lockfree_list.h:69-97 | The set that clients see is that of the unmarked nodes' keys |
| LockFreeListProgress.CompletesAlone | graphs/ordered_ll/lockfree_list.h:69-97 | From any reachable state a thread running alone completes its operation and adds the record of just that operation |
| LockFreeListProgress.EveryCallAnswered | graphs/ordered_ll/lockfree_list.h:69-97 | Lock freedom: once no more operations are called, the steps of all threads together are bounded whatever the schedule, and when none is left every call has exactly one answer |
| LockFreeListProgress.NeverWaits | graphs/ordered_ll/lockfree_list.h:121-142 | Whatever the others have done, an operation under way can step |
| LockFreeListProgress.StepNearer | graphs/ordered_ll/lockfree_list.h:69-142 | Every step comes nearer to an effect, a return or the removal of a marked node, or leaves the heap alone and the thread with fewer steps to its next exchange |
| LockFreeContainsTheorems.ContainsIffNoRemoves | graphs/ordered_ll/lockfree_list.h:99-114 | Over any set of two or more keys below `INT_MAX`, all operations with `contains` are linearizable in every run if and only if `remove` is not in use |
| LockFreeContainsTheorems.ContainsMisses | graphs/ordered_ll/lockfree_list.h:99-114 | For any two keys, a run in which the larger has been added, is never removed, and `contains` of it returns false, which no order of the operations explains |
| LockFreeContainsTheorems.WalkEnds | graphs/ordered_ll/lockfree_list.h:103-113 | A walk can always go on, and each hop answers or comes nearer the tail |
| LockFreeListProof.InsertKeeps | graphs/ordered_ll/lockfree_list.h:76-79 | A successful insertion adds exactly its key, which was absent |
| LockFreeListProof.MarkKeeps | graphs/ordered_ll/lockfree_list.h:90-95 | A successful marking removes exactly its node's key, which was present |
| LockFreeListProof.UnlinkKeeps | graphs/ordered_ll/lockfree_list.h:129-133 | Unlinking a marked node leaves the set alone and every unmarked node reachable |
| FineListTheorems.LinearizableIff | graphs/ordered_ll/fine_list.h:26-103 | `add`, `remove` and `contains` are linearizable in every run over a set of keys if and only if `INT_MAX` is not among them |
| FineListTheorems.LockedNodes | graphs/ordered_ll/fine_list.h:30-39 | A locked node has one holder and is reachable from the head, unless its holder has just unlinked it |
| FineListTheorems.ChainIsSorted | graphs/ordered_ll/fine_list.h:34-39 | Reachable nodes are linked from head to tail with strictly rising keys |
| FineListTheorems.WaitsAbove | graphs/ordered_ll/fine_list.h:34-39 | A waiting thread waits for a node of larger key than all it holds |
| FineListTheorems.SomeOperationProceeds | graphs/ordered_ll/fine_list.h:26-103 | While an operation is under way, some operation can step |
| FineListProgress.EveryCallAnswered | graphs/ordered_ll/fine_list.h:26-103 | Once no more operations are called, the steps of all threads together are bounded whatever the schedule, and when none is left every call has exactly one answer |
| FineListProgress.StepShortens | graphs/ordered_ll/fine_list.h:34-39 | Every step of an operation lowers a bound on its remaining steps that starts from the distance of its node's key to the tail's |
| FineListTheorems.TailKeyMisanswers | graphs/ordered_ll/fine_list.h:41-44 | A run in which the only call, `add` of `INT_MAX` to an empty list, returns false, which no order of the operations explains |
| Linearizability.PointsLinearize | graphs/ordered_ll/lockfree_list.h:69-97 | Instants at which operations take effect give an order that respects real time and in which a sequential set gives every answer |
| Linearizability.LoneAddMustSucceed | graphs/ordered_ll/fine_list.h:26-53 | No order of the operations explains an `add` that is the only call and fails |
| SetHistory.RealTime | graphs/ordered_ll/fine_list.h:26-103 | Operations that do not overlap take effect in their real-time order |

## Left out

- Opacity: reads are not checked before commit, so running and failed attempts may see anything; nothing is claimed of them but that they publish nothing.
- Bodies that do not end, and exceptions thrown by bodies: a doomed attempt is taken to end.
- Memory orderings and thread yields: atomic accesses are sequentially consistent, with one clock and one lock table; spinning is a step that is not enabled.
- Overflow of the version counter: versions are natural numbers in `Protocol`; `VersionLock` says where the packing stops working.
- ProtocolDeadlock.SomeThreadProceeds: with `ProtocolProgress.AttemptShrinks`, says that attempts go on ending, not that every call does, because the retry loop has no such guarantee.
- Stm.Atomically: an address whose version has not passed the sample is taken to have shown the value the commit finds, which is `ProtocolTheorems.FetchedIsCurrent`; and some attempt is taken to be undisturbed, since the loop in the source has no bound.
- Nesting.AtomicMeansDirect: is about one thread that nobody disturbs, whose first attempt therefore commits; retries are in `Stm.Atomically`.
- Stm.TryCommit: the clock and memory are as they are when the guard is complete, for the guard looks at neither.
- VersionLock.Lock.GetVersion: loops over a list of what the word is each time it is loaded, as `SetVersion` and `Acquire` do, and gives up at its end; the source never does.
- Raw memory: allocation and destruction of staged values, memory resources, leaks (`tl2/memory.h`).
- SkaSort.StdSort: stands in for `std::sort`, as a plain insertion sort.
- The list and string sub-key sorter, float keys, template dispatch and the mapping of signed numbers to unsigned ones in `tl2/ska_sort.h`.
- LsdSort.Histograms: fills the histograms one after another, where the source fills them in one loop; a moved-from element keeps its value.
- RobinHood.WordsFit: distances are unbounded in the model; from 2^24 buckets on one could outgrow its bits.
- DenseTable.Table.ReplaceKey: looks the new key up with `Find`, where the source repeats the probing loop.
- The hash mixing, allocators, segmented vectors, copying and float load factors of `tl2/ankerl/unordered_dense.h`.
- TransactionLog.LocationHashVectorSet.RegisterRead: holds its index as a finite map, which `DenseTable` proves the table to be; the version wait of `Location::read` is a step of `Protocol`.
- LockFreeContainsTheorems.ContainsIffNoRemoves: asks for two different keys; of a list that only ever sees one nothing is said.
- LockFreeContainsTheorems.WalkEnds: is stated for runs without `remove`, as is all that is shown of right answers.
- The lists' reclamation of nodes: the source never frees them, so a pointer is an index that is not reused.
- `zoo/`, `coarse_list.h`, the queue, examples and benchmarks: sequential code inside transactions or locks, which would add only easier members.
