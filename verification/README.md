# GDAL warp bindings: the dataset cache, its retry loop, and what crosses into Java

The library hands out tokens for (URI, warp options) pairs, keeps a bounded cache of opened GDAL datasets for
those pairs, and runs every raster or metadata operation against one of the cached datasets, retrying while
they are busy. Several application threads share the cache. This project models that machinery in Dafny and
proves what it promises.

The cache appears twice, because it makes two kinds of promises.

* **One thread at a time.** `FlatLruCaches.FlatLruCache` and `LockedDatasets.LockedDataset` are classes with the
  fields, loops and in-place updates of `src/flat_lru_cache.hpp` and `src/locked_dataset.hpp`. Each method is proved
  equal to a function on values in `LruModel`; `LruProperties`, `LruClock` and `LruOrder` prove what they mean: which
  slot is evicted, exactly how many datasets `get` returns, and that the flat arrays implement a list in order of
  last use.
* **Any number of threads.** `CacheProtocol` is a step relation over the shared state: the read-write lock, the slot
  mutexes, the use counts, `m_time`, `m_atimes`, and GDAL's handles. Twenty-four program counters name the places
  where another thread may come between. Misbehaviour (closing a closed handle, an UNLOCK by a thread that does not
  hold the mutex, a failing `assert`, an operation on another key's dataset) is not ruled out but recorded in
  `faults`. Two things are up to the callers and are parameters of the machine: whether anyone asks for the key of an
  empty slot, and whether `clear` is called only while nobody holds a reference. `CacheInvariants` states the
  invariant and which moves keep each part of it; `CacheSteps` and `CacheLocal` show that all actions make only such
  moves; `CacheSafety` concludes that the invariant holds in every state of every run; `CacheTheorems` draws the
  consequences, and `CacheWitnesses` builds the runs that show what fails when callers are not careful.
* **The two agree.** `CacheRefinement` proves that a `get`, a round of `TRY` or a `clear` which no other thread
  interrupts takes the machine exactly where its sequential form takes the cache, whatever references and mutexes
  other threads hold.

Around the cache: `Bindings` is the retry loop (the macros `TRY` and `DOIT`) with a complete specification of its
return code, which `RetryAnswers` puts case by case; `Marshalling` carries lists of C strings through a reused, dirty Java byte buffer; `Tokens` is the
bounded token table; `ByteOrder` is the in-place byte swapping of pixels; `Types` is the cache key and its hash.

## Where the code differs from what one would expect

The model follows the code.

* A success in the last permitted round, and any success when `attempts` is negative, is reported as
  `-ATTEMPTS_EXCEEDED` (`Bindings.SuccessReportedIff`).
* An `insert` whose open fails returns without unlocking its victim, so each such failure costs one slot until
  `clear`; after as many failures as there are slots nothing can be inserted any more
  (`CacheTheorems.LockedSlotsAreFailedInserts`, `CacheTheorems.ExhaustedCacheYieldsNothing`).
* `clear` ignores the result of `lock_for_deletion`. A `clear` that runs undisturbed fails the use-count assertion if
  and only if somebody holds a reference when it starts (`CacheTheorems.ClearFailsIff`; the run is
  `CacheWitnesses.CarelessClearRun`), and over all runs the assertions never fail if and only if `clear` is called
  only while nobody does (`CacheTheorems.AssertionsHoldIff`). An error-checking mutex that another thread's failed
  insert left locked stays locked through `clear` (`CacheTheorems.ClearEmptiesAll`).
* The check after `GDALWarp` looks at the source handle again, so a failed warp is not noticed there: the mutex of the new
  object is released, but its source handle is never closed (`LockedDatasets.WarpFailureLosesSource`,
  `CacheTheorems.HandlesConserved`).
* `get_pixels` looks up its band before TRYLOCK, so that lookup may overlap another thread's operation on the same
  dataset; the reference alone protects it (`CacheTheorems.LookupIgnoresMutex`).
* An empty slot carries the empty key and tag 0. If the empty key hashes to 0, a request for it matches empty
  slots and is handed slots without a dataset. That and a careless `clear` are the only ways in which a reference can
  fail to lead to a dataset (`CacheTheorems.ReferencesHaveDatasetsIff`), and the only ways to any fault at all
  (`CacheTheorems.FaultFreeIff`).
* `m_size` grows with every insertion, replacements included; only its minimum with the capacity means something. It is
  incremented after the new dataset is in its slot, and `size()` takes no lock, so a caller may see it one too small
  (`CacheTheorems.SizeAlwaysCoversIff`, `CacheTheorems.SizeIsOccupancy`).
* A slot whose insert failed keeps its old dataset, which `get` goes on returning and on which every TRYLOCK fails
  (`CacheTheorems.StuckStaysFrozen`, `CacheTheorems.NoOperationOnStuck`).
* When `m_time` runs over at 2^64, or when an empty slot matches, the access times no longer tell which dataset was used
  last (`LruOrder.GetMovesToBack`).
* When a list has exactly one string less than the buffer has rows, the C side writes no terminator. The
  Java side still stops at the right row, because nothing ever dirties the first byte of the last row
  (`Marshalling.Scratch.Valid`, `Marshalling.EncodeList`).
* The Java side takes -1 for "buffer too small". If the operation itself keeps failing with that code, it retries for ever
  (`Marshalling.RetryEndsIff`).
* The byte-swapping loops compare with `length - sizeof(word)` in unsigned arithmetic and leave the buffer if it is
  shorter than one word (`ByteOrder.StaysInsideIff`). They run even if reading the pixels failed.

## Model

| member | source | states |
|---|---|---|
| CacheTheorems.UseCountIsReferences | src/locked_dataset.hpp:619-630 | in every reachable state of any number of threads a slot's use count is the number of threads that have yet to give back a reference to it, and no thread has two |
| CacheTheorems.ReferencedIsNeverEvicted | src/flat_lru_cache.hpp:175-295 | no insert ever picks a referenced slot as its victim, in any reachable state; if `clear` is called carefully the slot carries the key that was asked for and its handles are open |
| CacheTheorems.ReferencesHaveDatasetsIff | src/flat_lru_cache.hpp:102-105 | references always lead to datasets if and only if no request can match an empty slot and `clear` is called only while nobody holds a reference (or there are no slots) |
| CacheWitnesses.EmptySlotRun | src/flat_lru_cache.hpp:182-195 | a run for every capacity in which the empty key with tag 0 pins a slot without a dataset and an operation uses its null handles |
| CacheWitnesses.CarelessClearRun | src/locked_dataset.hpp:117-131 | a run for every capacity in which `clear` meets a referenced slot, the assertion fails, and past it the reference is left without a dataset |
| CacheWitnesses.HalfInsertedRun | src/flat_lru_cache.hpp:282-283 | a run for every capacity in which a dataset is in its slot and not counted yet |
| CacheTheorems.NoFaults | src/locked_dataset.hpp:98-138 | no handle is closed twice and every UNLOCK of an operation or an insert is by the holder; with careful callers no handle is used when closed, from TRYLOCK to UNLOCK, no use-count assertion fails, and nobody works on another key's dataset |
| CacheTheorems.FaultFreeIff | src/locked_dataset.hpp:98-138 | no run has any fault if and only if callers are careful in both ways, or there are no slots |
| CacheTheorems.AssertionsHoldIff | src/locked_dataset.hpp:119-120 | the use-count assertions never fail if and only if `clear` is called only while nobody holds a reference, or there are no slots |
| CacheTheorems.ClearFailsIff | src/flat_lru_cache.hpp:97-109 | from every reachable state: an undisturbed `clear` fails an assertion if and only if somebody holds a reference |
| CacheTheorems.MutualExclusion | src/locked_dataset.hpp:47-66 | at most one thread is between TRYLOCK and UNLOCK on a slot, it holds the mutex, nobody replaces that slot meanwhile, and nobody clears the cache unless carelessly |
| CacheTheorems.StopsAtSuccess | src/bindings.cpp:81-94 | a thread whose operation has succeeded starts no other; it only gives back its references |
| CacheTheorems.LookupIgnoresMutex | src/locked_dataset.hpp:576-578 | the early band lookup proceeds although another thread is inside an operation on the same dataset, and is harmless |
| CacheTheorems.NoDeadlock | src/flat_lru_cache.hpp:182-238 | whenever a thread is busy, some busy thread can act |
| CacheTheorems.HandlesConserved | src/locked_dataset.hpp:668-755 | the handles that are open number one per failed warp and two per dataset in the cache (or on its way there); all others have been closed, each once; no two slots share a handle |
| CacheTheorems.LockedSlotsAreFailedInserts | src/flat_lru_cache.hpp:276-289 | when nobody is in `insert`, `clear` or an operation, the locked slots are exactly as many as the failed inserts since `clear` plus those `clear` could not free |
| CacheTheorems.ExhaustedCacheYieldsNothing | src/flat_lru_cache.hpp:260-294 | once every slot is lost, no insert gets hold of a victim |
| CacheTheorems.StuckForGood | src/flat_lru_cache.hpp:286-289 | without `clear` lost slots stay lost, and one more, the victim, is lost exactly when an open fails |
| CacheTheorems.StuckStaysFrozen | src/flat_lru_cache.hpp:286-289 | a lost slot keeps its key, its dataset and its mutex through any part of a run in which nobody clears the cache |
| CacheTheorems.NoOperationOnStuck | src/locked_dataset.hpp:47-51 | no operation is ever at work on a lost slot: the next action of a thread that tries is to give the reference back |
| CacheTheorems.ClearEmptiesAll | src/flat_lru_cache.hpp:97-109 | at the end of `clear` every slot is empty, and, if it was called carefully, as constructed exactly if no other thread's failed insert has it locked |
| CacheTheorems.SizeIsOccupancy | src/flat_lru_cache.hpp:89-92 | outside of `clear`, `size()` is at most one less than the number of datasets, less only between the move of a dataset into its slot and `m_size++`, and equal outside of replacements while no failed insert has left a slot locked |
| CacheTheorems.SizeAlwaysCoversIff | src/flat_lru_cache.hpp:282-283 | `size()` is never seen below the number of datasets if and only if there are no slots |
| CacheTheorems.EvictsOnlyWhenFull | src/flat_lru_cache.hpp:251-284 | with careful callers, when a dataset is about to be closed for replacement every empty slot is locked |
| CacheTheorems.VictimIsLeastFree | src/flat_lru_cache.hpp:256-269 | however other threads interfere with the scan, the victim is no younger than any slot that was unlocked and unreferenced throughout |
| CacheTheorems.ScanDecides | src/flat_lru_cache.hpp:204-225 | what `get` does after its scan: wait for the write lock if it has fewer than `copies`, or none, and otherwise try the lock if it has fewer than `-copies` |
| CacheTheorems.WaitsOrGoesWithout | src/flat_lru_cache.hpp:207-225 | a thread that waits goes on with the lock and all its inserts to make, however contended the lock; one that only tries goes without exactly if the lock is taken |
| CacheTheorems.TimesDistinct | src/flat_lru_cache.hpp:190-195 | no two slots have the same non-zero access time, although concurrent readers may store times out of order |
| CacheTheorems.ScanPinsAllMatches | src/flat_lru_cache.hpp:182-197 | at the end of its scan `get` has pinned exactly the slots that match then, each once |
| CacheTheorems.TagsNeverMislead | src/flat_lru_cache.hpp:185 | while no writer is at work, a slot with a dataset passes the tag-and-key test exactly for its own key |
| CacheSafety.InvAlways | src/flat_lru_cache.hpp:175-295 | the whole invariant holds in every state of every run |
| CacheSafety.InvKept | src/flat_lru_cache.hpp:175-295 | any one action of any thread keeps the invariant, whatever GDAL and the callers do |
| CacheInvariants.EvictableKept | src/locked_dataset.hpp:637-653 | what a writer has found unused stays unused, although other threads give references back without any lock |
| CacheInvariants.MutexesKept | src/locked_dataset.hpp:658-661 | each slot mutex is held exactly by the thread that stands inside its region, or was left behind by a failed insert |
| CacheInvariants.CountedKept | src/bindings.cpp:81-94 | increments and decrements keep use counts equal to outstanding references |
| CacheInvariants.HandlesKept | src/locked_dataset.hpp:117-138 | open, move and close keep every slot's two handles open and unshared |
| CacheInvariants.TimesKept | src/flat_lru_cache.hpp:183-197 | times stay distinct while some are drawn but not yet stored |
| CacheRefinement.UninterruptedGet | src/flat_lru_cache.hpp:175-241 | a `get` that runs undisturbed in the machine ends, and with the slots, clock, size and list of the sequential `get` |
| CacheRefinement.UninterruptedTry | src/bindings.cpp:81-94 | a TRY that runs undisturbed gives back one reference per dataset of its list, changes nothing else, and succeeds exactly if the operation would succeed on an unlocked one |
| CacheRefinement.UninterruptedRound | src/bindings.cpp:117-135 | `get` and TRY together restore every use count and succeed exactly if the operation would on a dataset that `get` returns |
| CacheRefinement.UninterruptedClear | src/flat_lru_cache.hpp:97-109 | a `clear` that runs undisturbed empties the slots as the sequential `clear` does, keeps exactly the mutexes of other threads, and fails an assertion if and only if some slot is referenced |
| CacheRefinement.EveryStateIsACache | src/flat_lru_cache.hpp:297-305 | every reachable state of the machine is the state of a sequential cache, and while no writer is at work one whose datasets are in order of their last use |
| CacheRefinement.ReachableGetIsLru | src/flat_lru_cache.hpp:175-241 | from every reachable state, whatever was interleaved before: an undisturbed `get` moves what it returns to the back of the list of datasets in order of last use |
| CacheRefinement.PinOne | src/flat_lru_cache.hpp:185-196 | the three interruptible actions on a match, run together, are one pin of the sequential cache |
| CacheRefinement.HuntOne | src/flat_lru_cache.hpp:258-269 | each turn of "lock the better one, then unlock the previous best" leaves exactly the victim so far locked on top of what was locked before |
| CacheRefinement.Fill | src/flat_lru_cache.hpp:276-285 | opening, retagging, moving in, unlocking and pinning amount to one sequential insert |
| LruProperties.VictimIsLeast | src/flat_lru_cache.hpp:253-269 | the victim is the lowest-numbered slot of least access time among those that are unlocked and unused; there is none only if no slot is |
| LruProperties.VictimIsLeastUnused | src/flat_lru_cache.hpp:253-269 | the same in terms of mutex, use count and time alone; only a slot with the largest 64-bit time is passed over |
| LruProperties.PinFirstPins | src/flat_lru_cache.hpp:183-197 | the pinning loop returns exactly the matches in index order, pins each once and leaves the other slots alone |
| LruProperties.InsertOneUsesUp | src/flat_lru_cache.hpp:251-295 | an insert uses up exactly one evictable slot whether or not the open succeeds, and changes no other |
| LruProperties.InsertManyPins | src/flat_lru_cache.hpp:208-216 | the inserting loop returns distinct slots that were evictable, now carry the key and are pinned once; slots that were not evictable are untouched |
| LruProperties.GetPinsOnce | src/flat_lru_cache.hpp:175-241 | `get` returns no slot twice, every slot returned carries the key, every match is returned, and exactly the returned ones gain one reference |
| LruProperties.GetYields | src/flat_lru_cache.hpp:199-238 | whatever GDAL answers and whether or not the write lock is free: `get` returns every match and one dataset for each successful open among exactly as many inserts as it wants and as slots can be evicted; it waits for the lock when it wants datasets at any price |
| LruProperties.GetSize | src/flat_lru_cache.hpp:199-238 | the exact size of the list if all opens succeed, from the number of matches, of other evictable slots, `copies` of either sign, and whether the lock is free |
| LruClock.GetClock | src/flat_lru_cache.hpp:190-195 | `get` ticks once for every dataset it returns and stamps them in the order of its list, modulo 2^64 |
| LruOrder.GetMovesToBack | src/flat_lru_cache.hpp:175-241 | on the list of datasets in order of last use, `get` moves what it returns to the back, in the order returned, if and only if no empty slot matches and the clock does not run over |
| LruOrder.MatchesAreLoadedIff | src/flat_lru_cache.hpp:185 | no empty slot matches if and only if the key is not the empty key with tag 0, or no slot is empty |
| LruOrder.SomeOrder | src/flat_lru_cache.hpp:183-197 | a cache with distinct positive times has such a list |
| LruOrder.VictimIsLeastRecentlyUsed | src/flat_lru_cache.hpp:256-269 | eviction takes the first free empty slot, and only if there is none the earliest free dataset of that list |
| LruOrder.OrderUnique | src/flat_lru_cache.hpp:251-284 | the access times determine that list |
| LruOrder.TagFilterAgrees | src/flat_lru_cache.hpp:117-161 | comparing tags first finds the slots with the key, for every key that cannot match an empty slot; for the one that can, it finds every slot with the empty key |
| FlatLruCaches.FlatLruCache.constructor | src/flat_lru_cache.hpp:50-60 | a new cache has only empty, unlocked, unused slots and its clock at zero |
| FlatLruCaches.FlatLruCache.Contains | src/flat_lru_cache.hpp:117-136 | true if and only if some slot matches |
| FlatLruCaches.FlatLruCache.Count | src/flat_lru_cache.hpp:145-161 | the number of matching slots |
| FlatLruCaches.FlatLruCache.PinMatches | src/flat_lru_cache.hpp:181-197 | the loop over the arrays computes `LruModel.PinFirst` |
| FlatLruCaches.FlatLruCache.TakeOver | src/flat_lru_cache.hpp:260-268 | of the slots compared so far exactly the better one is left locked; every other mutex is as before the scan |
| FlatLruCaches.FlatLruCache.LockVictim | src/flat_lru_cache.hpp:253-269 | the scan returns the victim (or -1) and ends with exactly that one mutex more locked |
| FlatLruCaches.FlatLruCache.Insert | src/flat_lru_cache.hpp:251-295 | the victim becomes the new dataset, unlocked; or stays as it was but locked if the open fails; or nothing changes if there is no victim |
| FlatLruCaches.FlatLruCache.InsertLoop | src/flat_lru_cache.hpp:207-217 | the loop computes `LruModel.InsertMany` and asks GDAL for exactly as many opens as are wanted and as slots can be evicted |
| FlatLruCaches.FlatLruCache.Get | src/flat_lru_cache.hpp:175-241 | `get` over the arrays computes `LruModel.Get`, about which `GetPinsOnce`, `GetYields`, `GetClock` and `GetMovesToBack` say the rest |
| FlatLruCaches.FlatLruCache.Clear | src/flat_lru_cache.hpp:97-109 | gets through if and only if no slot is referenced; otherwise it ends at the first that is, with the slots before it emptied and those after it untouched; mutexes of other threads are not released |
| LockedDatasets.LockedDataset.ForKey | src/locked_dataset.hpp:83-94 | loaded and unlocked after a success, locked and empty after a failed open, unlocked with a source handle only after a failed warp |
| LockedDatasets.LockedDataset.Attempt | src/locked_dataset.hpp:47-66 | INT_MIN if the dataset is locked, INT_MAX on success, -errno on failure, -10 if there is no errno; and the mutex is on every path as it was before |
| LockedDatasets.LockedDataset.LockForDeletion | src/locked_dataset.hpp:637-653 | succeeds, and keeps the mutex, exactly if the dataset is unlocked and unused |
| LockedDatasets.LockedDataset.MoveFrom | src/locked_dataset.hpp:117-138 | if both use counts are zero, exactly the handles held before are closed, handles and key change owner, and the mutex is released if the caller holds it; otherwise nothing changes |
| LockedDatasets.LockedDataset.Close | src/locked_dataset.hpp:740-755 | closes both handles or, if there are not both, none |
| LockedDatasets.WarpFailureLosesSource | src/locked_dataset.hpp:722-733 | a failed warp leaves one source handle open for good |
| Bindings.TryAll | src/bindings.cpp:81-94 | TRY stops operating at the first success, counts the operations, and gives every reference back |
| Bindings.DoIt | src/bindings.cpp:106-152 | the return code is the one that `Answers` demands, a positive one is the number of operations tried, all use counts are restored on every exit, and a limit on the attempts limits the operations tried to attempts times capacity |
| RetryAnswers.SucceedsInTime | src/bindings.cpp:117-143 | if every round so far is within the time budget and the first success is at a position of round k: the number of operations tried if another round would have been allowed, -100 if not |
| RetryAnswers.OverrunsBudget | src/bindings.cpp:119-123 | the first permitted round that begins more than `nanos` after the start: -3, also when the unsigned difference is large because the clock went back |
| RetryAnswers.FindsNothing | src/bindings.cpp:124-129 | a permitted round in time without datasets: -4 |
| RetryAnswers.RunsOutOfAttempts | src/bindings.cpp:140-147 | all attempts in time and in vain: -100 if the last dataset was busy, otherwise the negative error of the last operation |
| RetryAnswers.KeepsTrying | src/bindings.cpp:117 | no answer while every round is in time and in vain and another is permitted |
| RetryAnswers.UnknownToken | src/bindings.cpp:149-152 | -4 |
| Bindings.AnswerUnique | src/bindings.cpp:106-152 | `Answers` determines the return code |
| Bindings.PositiveAnswer | src/bindings.cpp:136-139 | a positive answer v means that the v-th operation of all succeeded, none before did, and another round would have been allowed |
| Bindings.NegativeAnswer | src/bindings.cpp:117-152 | any other answer is -3, -4, -100, or the error of the very last operation of the last round |
| Bindings.NeverSentinel | src/locked_dataset.hpp:44-45 | DATASET_LOCKED never reaches a caller, and ATTEMPT_SUCCESSFUL only as a count of that many operations |
| Bindings.SuccessReportedIff | src/bindings.cpp:136-143 | a call that succeeds says so if and only if its round was not the last one allowed and `attempts` is not negative |
| Marshalling.EncodeList | src/com_azavea_gdal_GDALWarp.c:224-270 | exact condition for "too small"; otherwise every row holds its string, the next row begins with zero if it is not the last, and no other byte changes |
| Marshalling.EncodeItem | src/com_azavea_gdal_GDALWarp.c:346-364 | writes the terminated value exactly if there is a byte to spare, otherwise answers -1 |
| Marshalling.EncodeInfo | src/com_azavea_gdal_GDALWarp.c:67-79 | the whole length, and the whole text if it fits |
| Marshalling.Scratch.NativeList | src/com_azavea_gdal_GDALWarp.c:285-330 | an error leaves the buffer alone; a success leaves the first byte of the last row zero and a terminator behind the strings |
| Marshalling.Scratch.DecodeList | src/main/java/com/azavea/gdal/GDALWarp.java:335-347 | as many strings as there are rows before the first empty one, and the i-th is the i-th source string without the blanks at its ends, empty strings included |
| Marshalling.Scratch.GetList | src/main/java/com/azavea/gdal/GDALWarp.java:330-355 | from any dirty buffer, whatever the operation comes to at each retry: it ends at the first native call whose strings fit the buffer doubled that often, and returns the number of attempts of that call and each of its strings, in order, without the blanks at its ends; or the error of that call |
| Marshalling.Scratch.GetItem | src/main/java/com/azavea/gdal/GDALWarp.java:442-461 | the same for a single value |
| Marshalling.Scratch.GetVersionInfo | src/main/java/com/azavea/gdal/GDALWarp.java:167-178 | the trimmed text, whatever its length, with at most one larger buffer |
| Marshalling.History | src/main/java/com/azavea/gdal/GDALWarp.java:385-410 | in any sequence of calls on one thread, each reply reads back what the operation came to at a native call of that same Java call; no call goes without a reply if one of its native calls would fit; what earlier calls left in the buffers does not show |
| Marshalling.EachReadsItsOwn | src/main/java/com/azavea/gdal/GDALWarp.java:385-410 | a list reply carries the code, or the attempts and the strings in order without the blanks at their ends, of one native call of its own Java call; likewise for values and version texts |
| Marshalling.AllAreAnswered | src/main/java/com/azavea/gdal/GDALWarp.java:385-410 | every call of a history gets its reply if a native call of each would fit a new buffer doubled that often |
| Marshalling.ListRetryReads | src/main/java/com/azavea/gdal/GDALWarp.java:330-355 | the retry ends, with the reply of that call, at the first native call that is not too big for its buffer, in terms of rows, bytes and code -1 alone |
| Marshalling.CutUnique | src/main/java/com/azavea/gdal/GDALWarp.java:345 | there is only one way to cut off the blanks |
| Marshalling.SteadyListReply | src/main/java/com/azavea/gdal/GDALWarp.java:330-355 | an operation that keeps coming to the same strings is read back whatever the size of the buffer |
| Marshalling.SteadyItemReply | src/main/java/com/azavea/gdal/GDALWarp.java:442-461 | the same for a single value |
| Marshalling.FitsIffNeeded | src/com_azavea_gdal_GDALWarp.c:262-269 | a square buffer suffices exactly from side max(longest + 2, count + 1) on |
| Marshalling.DoublingsExact | src/main/java/com/azavea/gdal/GDALWarp.java:107-118 | the buffer is doubled as often as needed to hold the strings and not once more |
| Marshalling.SettlesAtFirst | src/main/java/com/azavea/gdal/GDALWarp.java:348-350 | the retry ends at the first call whose code is not -1 for a buffer doubled that often |
| Marshalling.BoundedSettles | src/main/java/com/azavea/gdal/GDALWarp.java:348-350 | even if the operation comes to something else at each call, the retry ends within the doublings of a common bound |
| Marshalling.SteadySettles | src/main/java/com/azavea/gdal/GDALWarp.java:348-350 | the exact number of calls for an operation that comes to the same each time |
| Marshalling.RetryEndsIff | src/main/java/com/azavea/gdal/GDALWarp.java:348-350 | the retry of such an operation, for lists and for single values, ends if and only if it does not itself fail with -1 |
| Marshalling.TrimIsMiddle | src/main/java/com/azavea/gdal/GDALWarp.java:345 | trimming cuts off exactly the blanks at either end |
| Tokens.ResolvesIff | src/unit_tests/token_tests.cpp:82-109 | a token is in the table if and only if it was used and fewer than `size` distinct other tokens were used since |
| Tokens.AheadAreOthers | src/unit_tests/token_tests.cpp:96-109 | a token stands behind exactly the distinct tokens used since its last use |
| Tokens.SearchEnds | src/tokens.cpp:98-101 | the loop ends once the generator has produced more good tokens than the table holds |
| Tokens.GivenIsPrefix | src/tokens.cpp:86-91 | the options are those before the null pointer, in order |
| Tokens.TokenTable.GetToken | src/tokens.cpp:81-106 | the token is the first of 33 and the numbers drawn that is neither zero nor in the table; it is recorded for the URI and exactly the options before the null pointer |
| Tokens.TokenTable.QueryToken | src/tokens.cpp:114-133 | after the last use of the token, in whatever history: it resolves if and only if fewer than `size` distinct tokens have been used since, and then to the very key, options included, of its last issue |
| Tokens.OthersAreUsedAfter | src/tokens.cpp:128 | the tokens used after the last use of a token, issued or found alike, are those that stand before it |
| Tokens.LatestKeyIsIssued | src/tokens.cpp:102 | the key kept for a token is the one it was last issued for |
| Tokens.FirstFreeIs | src/tokens.cpp:98-101 | the search stops at the first candidate that is neither zero nor taken |
| Tokens.TokenTable.Insert | src/tokens.cpp:102 | the new token is the most recent; a full table drops the one used longest ago |
| ByteOrder.ToJavaOrder | src/com_azavea_gdal_GDALWarp.c:515-544 | for types 2, 3 and 8 words of two bytes, for 4, 5, 6, 9 and 10 of four, for 7 and 11 of eight: every whole word is turned round where it lies, so that Java reads the host's numbers, and loose bytes stay; for other types nothing changes; the loop leaves the buffer if and only if it is shorter than one word |
| ByteOrder.SwapWords | src/com_azavea_gdal_GDALWarp.c:520-524 | the loop swaps every whole word in place, and stays inside if and only if there is one |
| ByteOrder.JavaReadsTheNumbers | src/com_azavea_gdal_GDALWarp.c:515-544 | the numbers read big-endian afterwards are those that the host read before, on hosts of either byte order |
| ByteOrder.SwappedTwice | src/com_azavea_gdal_GDALWarp.c:515-544 | swapping twice is the identity |
| ByteOrder.SwappedInWord | src/com_azavea_gdal_GDALWarp.c:522-523 | each word is reversed where it lies |
| ByteOrder.SwappedKeepsRemainder | src/com_azavea_gdal_GDALWarp.c:520 | bytes after the last whole word are unchanged |
| ByteOrder.StaysInsideIff | src/com_azavea_gdal_GDALWarp.c:520 | the loop stays inside the buffer if and only if the buffer holds a word |
| Types.HashOptions | src/types.hpp:45-55 | the wrapping sum of the string hashes |
| Types.TagIsSum | src/types.hpp:62-70 | the tag of a key is the sum of the hashes of its URI and its options, modulo 2^64; without options it is the hash of the URI |
| Types.PermutedOptionsShareTag | src/types.hpp:43-71 | keys whose options are permutations of each other have the same tag, for every string hash |

## Left out

- CacheTheorems.NoFaults: some actions of the machine take several steps of the code at once, all of them under the write lock or on one object: one slot of `clear`; tag and access time of a victim (with the tick of the clock); `m_size++` with `inc` and `push_back`; TRYLOCK with the first use of the handles, and the last use with UNLOCK. The UNLOCK of `clear` on a mutex that another thread holds has no effect and is not recorded as a fault. After a failed assertion the machine goes on, where the process would end.
- CacheTheorems.TimesDistinct: `m_time` is unbounded in the interleaved machine; it would take 2^64 pins to run over. The sequential cache does run over.
- CacheRefinement.UninterruptedGet: for the same reason it asks that the clock stays below the largest access time.
- CacheTheorems.NoDeadlock: it says that somebody can act, not that every thread gets its turn; the fairness of the read-write lock is not modelled.
- Marshalling.Scratch.GetList: what the operation comes to at each native call is a finite list of inputs, and the reply is `None` if the method is still retrying at its end. Lengths are unbounded, so a side beyond 2^30, where `int` doubling overflows, and lack of memory are not modelled.
- Tokens.TokenTable.GetToken: the random generator is a finite list of numbers; the result is `None` if the loop is still drawing at its end. The distribution is not modelled.
- Tokens.TokenTable.Evict: the Boost LRU class is not part of this model's sources; it is modelled as a bounded recency list, as the token tests describe it.
- Bindings.DoIt: the clock, the datasets that `get` returns and the outcome of each operation are inputs, one round after the other; the result is `None` if it is still trying when they end. `touched`, `i` and `attempts` do not wrap.
- ByteOrder.SwapWords: what the program reads and writes beyond a buffer that is shorter than one word is not modelled, only that it does.
- `count`, `contains` and `size` as steps of the interleaved machine: the first two only read under the read lock, and the last reads one number.
- The copy constructor of the cache, and the destructor of a cache in use.
- GDAL itself: raster reads, warping, projections, histograms. Opens and operations are oracles.
- The option list that `open` builds for GDAL, with its default output format and its fixed length.
- The individual getters beyond their common shape TRYLOCK, act, UNLOCK.
- Error-code bookkeeping: `get_last_errno` is an input below 100.
- Signal handlers, initialization from the environment, real clocks.
- JNI pinning and release, UTF-8 decoding (strings are bytes), arrays of rows that are not square, passed by Java callers directly.
