# Verified models of the model cache, the safe file primitives and the evaluation kernels

This project models parts of the repository whose correctness is easy to get wrong, and proves what they
promise, for all inputs and all runs. `dafny verify dfyconfig.toml` (Dafny 4.11) covers the whole project.

| file | what it models |
|---|---|
| `VerifyDir.dfy` | when a downloaded model directory counts as verified |
| `ModelCache.dfy`, `ModelCacheTiming.dfy`, `ModelCacheOutcomes.dfy`, `ModelCacheLimits.dfy`, `ModelCacheScan.dfy` | the cross-process protocol that populates it under a `mkdir` lock, as a step system with crashes, failures and stale takeovers: its safety, its timing, how a call ends, where the guarantees end, and all of it with each verification one look or a sequence of reads; `Config.heartbeat` tells the embedder's copy from the reranker's (`packages/reranker-local/src/model-fetch.ts:270-496`) |
| `Kernel.dfy`, `PathWalk.dfy`, `AtomicWrite.dfy`, `SafeFiles.dfy` | the no-follow path walk with a pinned directory, and the atomic and no-replace writes, on an inode file system that other processes change between any two calls |
| `Lcs.dfy` | the two longest-common-subsequence kernels |
| `QueryStream.dfy`, `QueryCache.dfy` | the query stream of the cache harness, and the cache it is replayed through |
| `Batching.dfy`, `Pooling.dfy` | batched embedding: plan, padding, pooling, halving on allocation failures |
| `Reachability.dfy` | the link-graph probe |
| `BenjaminiHochberg.dfy`, `Bootstrap.dfy` | the statistics behind the ship gate |
| `Metrics.dfy`, `Fusion.dfy` | ranking metrics and rank fusion |
| `GpuVecs.dfy`, `OfflineDocVecs.dfy` | loading vectors into the embeddings table |
| `WriteVectors.dfy` | publishing a vectors file with its ids file |
| `Basics.dfy`, `Random.dfy`, `Sorting.dfy` | shared notions, seeded draws, the stable library sort |

Code that works step by step is a method proved against a specification; protocols are step systems; the
laws are lemmas about both.

## What the proofs found

- The junk rule of `verifyModelDir` refuses links only, so a FIFO or device named `.DS_Store` passes, and
  what lies in an unreadable directory is not seen; the comment (lines 168-172) says regular files only.
  `VerifyDir.DocumentedExactly` gives the exact condition.
- The comment on `downloadAndVerifyInto` (lines 383-386) says the directory only ever goes from its
  previous state to a fully verified one. Removal is not atomic: if the original directory has every pinned
  file right and something unexpected too (a decoy), it becomes verified half way through being removed, and
  another call may return on the strength of that; a call that reads it file by file may even return although
  it never verified (`ModelCacheScan.ReturnsHonestlyExactly`). Among runs in which nobody is robbed of a lock
  in use, this is the only exception (`ModelCacheLimits.ReturnsLastExactly`).
- A stale takeover can cost exclusion exactly when somebody is still using the lock it removes and, besides, either
  the directory does not verify or some call has looked before it did, and is about to make a lock or to remove it
  (`ModelCacheLimits.TakeoverLosesExclusionExactly`). Two waiters that saw one stale lock can bring that about
  (`ModelCacheLimits.TakeoverBreaksExclusion`). The lock of a crashed holder can be taken over without harm,
  and publish safety holds in any case.
- A call that makes the lock directory and then fails to write the owner file throws without removing the lock,
  which then stands until it is stale. This and a failed unlock are the only ways to leave a lock behind, short of a
  crash (`ModelCacheOutcomes.LockLeftExactly`).
- A call that finds the directory verified after its first download, and fails to remove that download at the first
  try, downloads once more (the exception in `ModelCacheOutcomes.VerifiedNeedsNoDownload`).
- A robbed holder can delete the directory that the other holder has published and returned on
  (`ModelCacheLimits.RobbedHolderDeletes`). A verified directory can be lost exactly when a call is already
  removing it (`ModelCacheLimits.LostExactly`).
- `verifyModelDir` refuses links anywhere in the tree, but not at its root: a model directory that is itself a
  link is checked where the link leads (`VerifyDir.VerifiedAtRoot`).
- The fallback of `rename_noreplace` rolls back by name. If another process replaces the new entry after the
  link, the rollback removes that process's file (`AtomicWrite.RollbackCanRemoveAnothersFile`); it removes our
  own entry exactly when the name is still bound to the inode that was linked. A replacing write never rolls
  back, nor does an exclusive one where the atomic rename is supported.
- The row count at the end of `loadOfflineDocVecs` fires exactly on repeated ids, and then after the commit.
- `ON CONFLICT` in `loadGpuVecs` leaves `dimensions` as it was.
- `dedupeByPath` with a `k` below 1 does not limit at all; the non-inferiority bound follows a shift of the
  deltas, and lies between the smallest and the largest, in general only if there is a resample.
- With a negative rate `benjaminiHochberg` can leave a p-value unrejected that is within the critical value of
  the cutoff (`BenjaminiHochberg.NegativeRateDisagrees`); for two or more p-values this happens for some
  family at every negative rate, and at no other (`BenjaminiHochberg.AlwaysExactExactly`).

## Model

| member | source | states |
|---|---|---|
| `VerifyDir.Walk` | packages/embedder-local/src/model-fetch.ts:146-164 | the recursive walk appends exactly the listing of the tree to what it was given: a link is a leaf, a directory is entered, an unreadable one contributes nothing |
| `VerifyDir.ListedSound` | packages/embedder-local/src/model-fetch.ts:140-166 | every listed entry is a non-directory reached through real directories only, marked as a link exactly when it is one |
| `VerifyDir.ListedComplete` | packages/embedder-local/src/model-fetch.ts:140-166 | every such entry is listed |
| `VerifyDir.CheckPinned` | packages/embedder-local/src/model-fetch.ts:196-227 | one result for each pinned file in pin order, ok exactly for a regular file with the pinned size and hash |
| `VerifyDir.VerifyModelDir` | packages/embedder-local/src/model-fetch.ts:189-238 | the results of the pinned files, then one refusal for each unexpected entry in listing order |
| `VerifyDir.IsVerified` | packages/embedder-local/src/model-fetch.ts:255-258 | true exactly when there is a pin, every pinned lookup finds the right regular file, and no listed entry is unexpected |
| `VerifyDir.FirstLink` | packages/embedder-local/src/model-fetch.ts:184-188 | a lookup that `lstat` would resolve through a link differs from the no-follow one only if the listing records a link |
| `VerifyDir.LstatInParts` | packages/embedder-local/src/model-fetch.ts:183-188 | looking a path up in two parts: a link at the end of the first part is followed before the second, however long its chain |
| `VerifyDir.LinksResolve` | packages/embedder-local/src/model-fetch.ts:183-188 | a chain of links leads to what is at its end, and a chain to nothing leads nowhere |
| `VerifyDir.JunkByBasename` | packages/embedder-local/src/model-fetch.ts:168-178 | what is junk is decided by the last name alone, at any depth, and exactly three names are |
| `VerifyDir.VerifiedIffLeaves` | packages/embedder-local/src/model-fetch.ts:189-238 | for a readable tree the check passes exactly when the tree's leaves are the pinned files with their sizes and hashes plus non-link junk: no link anywhere, not even as a parent of a pinned file |
| `VerifyDir.VerifiedAtRoot` | packages/embedder-local/src/model-fetch.ts:189-238 | the same for whatever is at the root: it must be a directory, or a link that leads to one |
| `VerifyDir.DocumentedExactly` | packages/embedder-local/src/model-fetch.ts:168-188 | a tree is what the documentation describes (only regular junk beside the pins) exactly when the check passes, no unreadable directory hides an entry it would refuse, and no special file bears a junk name |
| `VerifyDir.DocumentedAtRoot` | packages/embedder-local/src/model-fetch.ts:168-188 | the same for whatever is at the root |
| `VerifyDir.JunkNeedNotBeRegular` | packages/embedder-local/src/model-fetch.ts:168-178 | a FIFO named `.DS_Store` is accepted, although the comment says regular files only |
| `VerifyDir.UnreadableDirectoryHides` | packages/embedder-local/src/model-fetch.ts:148-152 | whatever is in a directory that cannot be read is accepted |
| `ModelCache.ReaderSeesOnlyOriginalOrVerified` | packages/embedder-local/src/model-fetch.ts:383-419 | in every run (any number of calls, crashes anywhere, stale takeovers, any interference with the lock) the directory is absent, a remnant of the original, or a remnant of a verified tree |
| `ModelCache.OnlyVerifiedTreesArePublished` | packages/embedder-local/src/model-fetch.ts:397-412 | in every run, what a rename puts in place is a verified directory |
| `ModelCache.NormalReturnWasVerified` | packages/embedder-local/src/model-fetch.ts:514-547 | in every run, a call that returned normally was under way at a moment at which the directory was fully verified |
| `ModelCache.MutualExclusion` | packages/embedder-local/src/model-fetch.ts:313-331 | in every run whose takeovers and lock interferences find nobody using the lock, at most one call is between acquire and release, whatever crashes or fails |
| `ModelCache.VerifiedIsForever` | packages/embedder-local/src/model-fetch.ts:405-411 | in such a run that does not start from a decoy, a verified directory is never touched again and nothing is renamed over it |
| `ModelCache.PublishedIsForever` | packages/embedder-local/src/model-fetch.ts:405-411 | in such a run, from any start, a directory the protocol has published is verified and never touched again |
| `ModelCache.AtMostOnePublish` | packages/embedder-local/src/model-fetch.ts:405-411 | in such a run, from any start, there is at most one publishing rename |
| `ModelCache.ReturnStaysVerified` | packages/embedder-local/src/model-fetch.ts:549-561 | in such a run that does not start from a decoy, `assertVerified` after a normal return cannot fail |
| `ModelCacheTiming.TakeoverWasOverdue` | packages/embedder-local/src/model-fetch.ts:366-370 | in every run, before a call takes a lock over, the last thing it did was to read the age of a lock whose owner had written, or which had been made, more than `lockStaleMs` ago |
| `ModelCacheTiming.FreshLocksAreSafe` | packages/embedder-local/src/model-fetch.ts:333-338 | where no lock ever gets that old and nobody outside removes one in use, at most one call is between acquire and release, and normal returns from no decoy are final |
| `ModelCacheTiming.AgeSinceStamp` | packages/embedder-local/src/model-fetch.ts:283-302 | a waiter goes to remove a lock exactly if more than `lockStaleMs` have passed since it was last stamped, by its making, its owner file or a heartbeat, and otherwise goes on waiting |
| `ModelCacheTiming.GivesUpExactly` | packages/embedder-local/src/model-fetch.ts:351-381 | a waiter that has found the lock in time gives up exactly if three times `lockStaleMs` have passed since its first look at the directory |
| `ModelCacheOutcomes.OutcomeExactly` | packages/embedder-local/src/model-fetch.ts:387-419 | in every run a call that is done threw if and only if some failure was fatal (before the download, in cleaning up, in unlocking, unsupported platform, waited too long) or two download attempts failed; never are there more than two |
| `ModelCacheOutcomes.VerifiedNeedsNoDownload` | packages/embedder-local/src/model-fetch.ts:514-529 | a call that finds the directory verified, at whichever look, downloads nothing afterwards, unless removing its own download fails |
| `ModelCacheOutcomes.FatalEndsDownloads` | packages/embedder-local/src/model-fetch.ts:525-528 | after a fatal failure, an unsupported platform among them, a call downloads nothing |
| `ModelCacheOutcomes.AttemptsStartEmpty` | packages/embedder-local/src/model-fetch.ts:387-391 | each of the two attempts starts with nothing downloaded |
| `ModelCacheOutcomes.NoLitter` | packages/embedder-local/src/model-fetch.ts:405-417 | a call that is done or about to unlock has removed its download directory, or has failed to |
| `ModelCacheOutcomes.LockLeftExactly` | packages/embedder-local/src/model-fetch.ts:313-331 | with no takeover and nobody else touching the lock, a call that is done leaves its lock behind if and only if it failed to write the owner file after making the lock directory, or failed to remove the lock |
| `ModelCacheOutcomes.PublishesIntoNothing` | packages/embedder-local/src/model-fetch.ts:409-411 | in a run that robs nobody, the publishing rename finds nothing in its place |
| `ModelCacheLimits.ReturnsLastExactly` | packages/embedder-local/src/model-fetch.ts:383-386 | normal returns are final in the runs that rob nobody of the lock if and only if the run does not start from a decoy (every pinned file right, something unexpected beside them), and the same for the runs without any takeover |
| `ModelCacheLimits.DecoyReturnsTooEarly` | packages/embedder-local/src/model-fetch.ts:405-411 | from any decoy there is a takeover-free run in which one call returns while another goes on deleting the directory |
| `ModelCacheLimits.TakeoverBreaksExclusion` | packages/embedder-local/src/model-fetch.ts:366-370 | two waiters that saw the same stale lock can both come to hold it, whatever the configuration |
| `ModelCacheLimits.TakeoverLosesExclusionExactly` | packages/embedder-local/src/model-fetch.ts:366-370 | an enabled takeover can lead to two holders, nobody being robbed later, if and only if the lock is in use when it is removed, and the directory does not verify or some call is about to make a lock or is removing the directory |
| `ModelCacheLimits.ReachableTakeover` | packages/embedder-local/src/model-fetch.ts:366-370 | so in every state that a run robbing nobody reaches |
| `ModelCacheLimits.LostExactly` | packages/embedder-local/src/model-fetch.ts:383-419 | in any state, whatever is robbed before or after: some run changes a verified directory if and only if a call is removing it |
| `ModelCacheLimits.RobbedHolderDeletes` | packages/embedder-local/src/model-fetch.ts:366-370 | for all satisfiable pins, a run from an empty place in which a holder that was robbed before its removal deletes what the other call has published and returned on |
| `ModelCacheLimits.EveryActionEvolves` | packages/embedder-local/src/model-fetch.ts:405-412 | each action changes the directory by nothing, one removal, or a verified publish |
| `ModelCacheLimits.ScanIsHonestExactly` | packages/embedder-local/src/model-fetch.ts:189-238 | a file-by-file scan that passes had a moment at which the whole directory verified, if and only if it did not start from a decoy |
| `ModelCacheScan.SlowReaderSeesOnlyOriginalOrVerified` | packages/embedder-local/src/model-fetch.ts:383-419 | publish safety with every verification a sequence of reads that other processes act between |
| `ModelCacheScan.SlowReturnWasVerified` | packages/embedder-local/src/model-fetch.ts:189-238 | then too, from no decoy, a call that returned normally was under way at a moment at which the whole directory verified |
| `ModelCacheScan.ReturnsHonestlyExactly` | packages/embedder-local/src/model-fetch.ts:514-547 | that holds for all runs from a directory if and only if it is no decoy |
| `ModelCacheScan.SlowMutualExclusion` | packages/embedder-local/src/model-fetch.ts:313-331 | exclusion, in runs that rob nobody of the lock, however long verifications take |
| `ModelCacheScan.SlowReturnStaysVerified` | packages/embedder-local/src/model-fetch.ts:549-561 | in such runs from no decoy the directory verifies after a normal return |
| `ModelCacheScan.AtomicRunsAreRuns` | packages/embedder-local/src/model-fetch.ts:255-258 | every run with atomic verifications is a run with reads, so the latter lose no behaviour |
| `Kernels.Kernel.Do` | packages/native/src/lib.rs:361-363 | one system call: other processes act first, then the kernel answers and the call is logged with the file systems before and after |
| `PathWalk.Components` | packages/native/src/lib.rs:371-387 | the non-empty components other than `.`; `..` anywhere is refused, and so is a path without components |
| `PathWalk.ComponentsOfJoin` | packages/native/src/lib.rs:371-387 | splitting is the inverse of joining proper components with `/` |
| `PathWalk.SplitKeepsAll` | packages/native/src/lib.rs:371-387 | splitting any string at its slashes loses nothing: with the slashes put back it is the string |
| `PathWalk.PinnedDepth` | packages/native/src/lib.rs:396-404 | accepted exactly when the pinned path is well formed and a strict ancestor, and then its depth |
| `PathWalk.OpenComponent` | packages/native/src/lib.rs:438-461 | open one component; make it only where that is allowed, and only in the directory just opened |
| `PathWalk.StillPinned` | packages/native/src/lib.rs:406-416 | passes only for the pinned (dev, ino) |
| `PathWalk.OpenParentWith` | packages/native/src/lib.rs:425-469 | against any interference: the walk makes no calls but opens, mkdirs and fstats; each descriptor was a real directory entry of the one before when it was opened, the one after component `depth` is the pinned inode, every directory made is at or below it and was made after an `fstat` had found that inode there, and a walk that ends at or before the check made none; alone: files and entries stay as they were and only directories are new, none without `create`; success gives the no-follow resolution of the path, in a directory that was there or is new and empty; without faults it succeeds exactly when, before it, the path resolved through the pinned inode or, with `create`, resolved down to a free name at or below it |
| `AtomicWrite.NeverReplaces` | packages/native/src/lib.rs:500-521 | in a history whose only removals of the target are rollbacks, every call of an exclusive write leaves what an existing target is bound to, except a rollback: an unlink after the write's own successful link of that name and its failed drop of the old one |
| `AtomicWrite.LinkThenUnlink` | packages/native/src/lib.rs:523-541 | the calls it makes, in order, with what each was answered |
| `AtomicWrite.LinkThenUnlinkKeepsPayload` | packages/native/src/lib.rs:523-541 | undisturbed: the payload is under one of its two names after every step; success leaves the new one only; an error keeps the old one, and after a successful rollback the destination is absent |
| `AtomicWrite.LinkThenUnlinkTarget` | packages/native/src/lib.rs:523-541 | against other processes that leave the source name alone: at each step the destination is as before, complete, or rolled back |
| `AtomicWrite.RollbackIsOursExactly` | packages/native/src/lib.rs:535-539 | a rollback that answers removes the entry the write had linked if and only if the name is still bound to that inode |
| `AtomicWrite.RollbackIsOursAlone` | packages/native/src/lib.rs:535-539 | with nobody else acting it always removes its own |
| `AtomicWrite.RollbackCanRemoveAnothersFile` | packages/native/src/lib.rs:535-539 | a history in which another process's file is removed |
| `AtomicWrite.MoveNoReplace` | packages/native/src/lib.rs:504-521 | where the platform has the atomic rename, that call alone, unless it answers EINVAL, ENOSYS or ENOTSUP; exactly then, and where there is no such rename, the link-and-unlink fallback; undisturbed and without faults it succeeds exactly if the new name is free |
| `AtomicWrite.MoveKeepsPayload` | packages/native/src/lib.rs:504-521 | success means the destination was absent and is complete; an error keeps the source and, unless a rollback failed, the destination |
| `AtomicWrite.WriteAll` | packages/native/src/lib.rs:631-631 | after the writes the temporary file holds exactly the data, however the kernel splits them; undisturbed, with no write failing or taking nothing, it succeeds |
| `AtomicWrite.CrashStates` | packages/native/src/lib.rs:607-647 | from step-by-step facts: after every step the target shows what it held before or the complete new data |
| `AtomicWrite.WriteImpl` | packages/native/src/lib.rs:607-647 | after every step (a crash anywhere) the target is old or complete; success installs exactly the data, leaves no temporary file and, if exclusive, found the target absent; failure leaves the target as it was unless a rollback failed, and the temporary name as it was unless its removal, which a failed write or rename always calls for, met a fault; the data is put in place only after a sync of it that succeeded, with nothing written since; against other processes, an exclusive write removes the target only as the rollback of its own link, and replaces it at no step, and there is no rollback at all of a replacing write or where the atomic rename is supported; undisturbed and without faults it succeeds exactly when the parent is a directory, the temporary name is free and nothing is in the way |
| `SafeFiles.WriteFile` | packages/native/src/lib.rs:607-647 | from the path on: a malformed path changes nothing, a failed walk makes no call of the write, and otherwise the write happens, with all its guarantees, in the directory the walk arrived at, from the file system the walk left; alone, with or without `create`: the target is at every step of the walk what it held before the whole call, and at every step of the write that or complete, an exclusive success found it absent, a failure leaves no temporary file unless its removal met a fault, and the walk has only added directories; without faults the file is written exactly when the parent can be reached or made and, if it was already there, nothing in it is in the way |
| `SafeFiles.LeafOfJoin` | packages/native/src/lib.rs:371-387 | the leaf of a joined path is its last component, and its parent is where the others lead |
| `Lcs.LengthIsLcsLength` | packages/native/src/lib.rs:119-121 | the recurrence's value is attained by some common subsequence and exceeded by none |
| `Lcs.Symmetric` | packages/native/src/lib.rs:119-121 | swapping the two sequences keeps the length |
| `Lcs.AtMostShorter` | packages/native/src/lib.rs:146-164 | the length is at most that of either sequence, so 32 bits suffice |
| `Lcs.RougeLLcsCore` | packages/native/src/lib.rs:146-164 | the two swapped rows compute the longest-common-subsequence length, and no addition overflows |
| `Lcs.RougeLLcs` | packages/native/fallback.ts:95-113 | the same for the JavaScript rows, whose stores wrap modulo 2^32 |
| `Lcs.KernelsAgree` | packages/native/fallback.ts:92-113 | both kernels give the same number |
| `Random.DrawIsShare` | packages/server/eval/query-cache-lib.ts:47-51 | `Math.floor(rng() * n)` is j exactly when the draw lies in share j of n equal shares of the unit interval |
| `QueryStream.Shuffle` | packages/server/eval/query-cache-lib.ts:47-51 | the in-place loop is the specified sequence of swaps |
| `QueryStream.ShuffledIsOrder` | packages/server/eval/query-cache-lib.ts:47-51 | shuffling loses no query and repeats none |
| `QueryStream.EveryOrderIsReached` | packages/server/eval/query-cache-lib.ts:47-51 | every order of the queries comes out for some draws |
| `QueryStream.EachOrderOnce` | packages/server/eval/query-cache-lib.ts:47-51 | two seeds give the same order if and only if they pick the same place at every step; so every order comes from exactly one sequence of picks |
| `QueryStream.FractionWithinOneCall` | packages/server/eval/query-cache-lib.ts:38-42 | repeats make up the rate of the whole stream to within one call |
| `QueryStream.DrawSlots` | packages/server/eval/query-cache-lib.ts:54-56 | the slots are the distinct positions the draws hit, none at position 0, as many as wanted exactly when the draws hit enough positions, and then no more draws were made than needed |
| `QueryStream.PickedAreHit` | packages/server/eval/query-cache-lib.ts:54-56 | a position is among them exactly when some draw falls in its own share of the unit interval, all shares being equal |
| `QueryStream.FillCalls` | packages/server/eval/query-cache-lib.ts:57-67 | first sightings in order elsewhere than in the slots, a repeat in each slot, and each repeat asks what the call so far before it asked as its own draw says, with equal shares for every distance up to 20 and to the beginning |
| `QueryStream.BuildStream` | packages/server/eval/query-cache-lib.ts:43-68 | the two argument errors, and otherwise a stream with the shuffled first sightings, the number of repeats the rate asks for, at the positions that just enough draws after the shuffle hit, each looking back by the draw that follows |
| `QueryStream.FirstSightingIsNew` | packages/server/eval/query-cache-lib.ts:43-68 | a call that is not a repeat asks something no earlier call asked |
| `QueryCaches.QueryCache.Make` | packages/server/src/search/query_cache.ts:63-73 | refuses a capacity below 1 and a time to live that is not positive |
| `QueryCaches.QueryCache.Get` | packages/server/src/search/query_cache.ts:75-93 | a live entry is returned and moved to the tail without refreshing its expiry; an expired one is dropped and counted |
| `QueryCaches.QueryCache.Set` | packages/server/src/search/query_cache.ts:95-116 | an expired front entry is swept, the key goes to the tail, the oldest are evicted down to capacity, and the counters account for both |
| `QueryCaches.RecentlyUsed` | packages/server/src/search/query_cache.ts:87-93 | a key used within the last n calls is among the n most recently used |
| `QueryCaches.Replay` | packages/server/src/search/query_cache.ts:52-116 | for any calls, nothing expiring: a call hits exactly when its key is among the `maxEntries` most recently used, and every answer equals the computed one |
| `QueryCaches.HitsAreRepeats` | packages/server/eval/query-cache-lib.ts:24-26 | on a built stream a cache of at least 20 entries hits exactly on the repeats |
| `QueryCaches.ReplayStream` | packages/server/eval/query-cache-lib.ts:38-68 | so hits number ceil(distinct r / (1 - r)) and misses number `distinct` |
| `Batching.ByLengthIsStable` | packages/server/eval/modal_embed_nomic.py:227-227 | the order has each index once, by length, lower index first among equals |
| `Batching.TakeBatch` | packages/server/eval/modal_embed_nomic.py:231-238 | one batch is within the limits and could not take the next row |
| `Batching.GreedyIsOptimal` | packages/server/eval/modal_embed_nomic.py:218-241 | no split of the order into allowed consecutive batches has fewer batches |
| `Batching.Consecutive` | packages/server/eval/modal_embed_nomic.py:218-241 | any grouping of the rows into allowed batches, in any order, can be turned into an allowed split of the sorted order with as many batches |
| `Batching.PlanBatches` | packages/server/eval/modal_embed_nomic.py:218-241 | the batches concatenate to the stable length order, each is one row or within both limits, and no grouping of the rows into such batches, consecutive or not, has fewer |
| `Batching.ForwardSplit` | packages/server/eval/modal_embed_nomic.py:249-272 | it succeeds exactly when no pass failed other than by an allocation failure of two or more rows, then every row holds its own vector and no other entry changed; a failure is that of the last pass |
| `Batching.EmbedSequences` | packages/server/eval/modal_embed_nomic.py:275-288 | vectors in input order, each the row's own, exactly when no single row fails and nothing else goes wrong; the missing-vector error never occurs |
| `Pooling.PadBatch` | packages/server/eval/modal_embed_nomic.py:291-302 | each row holds its tokens then padding, and the mask is 1 on the tokens only |
| `Pooling.PoolIgnoresPadding` | packages/server/eval/modal_embed_nomic.py:305-316 | pooling a padded row equals the normalized plain mean of its real tokens' hidden states |
| `Pooling.BatchMatesDoNotMatter` | packages/server/eval/modal_embed_nomic.py:319-337 | if real tokens' hidden states ignore padding, a row's vector depends neither on its batch-mates nor on its place |
| `Pooling.EmbedTexts` | packages/server/eval/modal_embed_nomic.py:275-337 | batched, padded and halved at will, text i gets the vector it has on its own; for a homogeneous norm that is a positive multiple of the mean of its tokens' states, and of norm 1 if the mean's norm is at least 1e-12 |
| `Pooling.OwnVectorIsUnitMean` | packages/server/eval/modal_embed_nomic.py:305-316 | that is what the normalized plain mean of a text is, and the mean is what its number of tokens times gives the sum of their states |
| `Pooling.WidthIsLongest` | packages/server/eval/modal_embed_nomic.py:291-302 | rows are padded to the length of the longest, no further |
| `Reachability.LoadUndirectedGraph` | packages/server/eval/reachability.ts:59-74 | the neighbours of a node are exactly the other ends of its rows, self-loops dropped, and the relation is symmetric |
| `Reachability.Distances` | packages/server/eval/reachability.ts:92-113 | the search gives every node exactly its shortest hop distance from the seeds, and no value to unreachable ones |
| `Reachability.ReachableWithin` | packages/server/eval/reachability.ts:83-130 | `hops` is the least distance of a target if that is within `maxHops`; the two lists are exactly the targets within the horizon, nearest first and equally near ones in the order given, and those connected at all, in the order given; each target once |
| `Reachability.SwapSeedsAndTargets` | packages/server/eval/reachability.ts:54-58 | on an undirected graph swapping seeds and targets keeps `reachable` and `hops` |
| `BenjaminiHochberg.BenjaminiHochberg` | packages/server/eval/stats.ts:214-236 | rows in input order, each with its p, a critical value that times m is its rank times q, and rejected exactly up to the cutoff rank; all verdicts are those of the counting definition if and only if no more than K p-values are within the critical value of the cutoff K, which holds for every rate or family that is not negative |
| `BenjaminiHochberg.RankMeansRejected` | packages/server/eval/stats.ts:220-232 | having a rank at most K and being at most K q / m are the same for the whole family, ties included, if and only if exactly K p-values are within K q / m or K is 0 |
| `BenjaminiHochberg.SensibleIsExact` | packages/server/eval/stats.ts:208-213 | that is so for every rate that is not negative, and for p-values that are not |
| `BenjaminiHochberg.NegativeRateDisagrees` | packages/server/eval/stats.ts:220-232 | two p-values and a negative rate for which it is not |
| `BenjaminiHochberg.AlwaysExactExactly` | packages/server/eval/stats.ts:208-213 | for all families of one size the verdicts by rank and by counting agree if and only if the rate is not negative or there is but one p-value |
| `BenjaminiHochberg.PermutationEquivariant` | packages/server/eval/stats.ts:208-213 | permuting the family keeps the cutoff and every p-value's verdict |
| `BenjaminiHochberg.MonotoneInRate` | packages/server/eval/stats.ts:208-213 | a larger rate, of either sign, has at least as large a cutoff, so it rejects at least as much by rank; and by counting, if it is not negative |
| `Bootstrap.PairedNonInferiority` | packages/server/eval/stats.ts:167-188 | the bound is a resampled mean with at most alpha R of the R resampled means below it and more than alpha R not above it (the least of them for a negative alpha, the greatest from 1 on), 0 without deltas or resamples, and the verdict is whether it exceeds the margin |
| `Bootstrap.BootstrapMeanCI` | packages/server/eval/stats.ts:49-68 | both ends are such quantiles, for alpha / 2 and 1 - alpha / 2, and the lower is at most the upper for alpha up to 1 |
| `Bootstrap.QuantileByCount` | packages/server/eval/stats.ts:174-186 | sort-free: the bound is at most c exactly when more than that many resampled means are |
| `Bootstrap.QuantileIsQuantile` | packages/server/eval/stats.ts:174-186 | the entry picked from the sorted means is a quantile by the two counts, which mention neither the sort nor the position |
| `Bootstrap.BoundMonotone` | packages/server/eval/stats.ts:160-166 | raising any delta never lowers the bound |
| `Bootstrap.ShiftNeedsResamples` | packages/server/eval/stats.ts:160-188 | adding c to every delta moves the bound by exactly c if and only if there is a resample or c is 0 |
| `Bootstrap.BoundBetween` | packages/server/eval/stats.ts:160-188 | the bound lies between the smallest and the largest delta if and only if there is a resample or 0 lies there |
| `Bootstrap.PairedPermutationTest` | packages/server/eval/stats.ts:28-46 | the smoothed fraction of at least as extreme resamples, always in (0, 1] |
| `Bootstrap.PValueTwoSided` | packages/server/eval/stats.ts:27-46 | negating every delta keeps the p-value |
| `Metrics.UniquePathsInOrder` | packages/server/eval/metrics.ts:101-111 | the loop keeps the first hit of each path |
| `Metrics.UniquePathsAreUnique` | packages/server/eval/metrics.ts:101-111 | each path that occurs is kept, once |
| `Metrics.DedupeByPath` | packages/server/eval/run.ts:130-140 | the first hit of each path, at most k of them; a k below 1 is no limit |
| `Metrics.DedupeCutsUniquePaths` | packages/server/eval/run.ts:130-140 | deduplicating cuts the unique paths to the first k and changes nothing else |
| `Metrics.NdcgPerfectExactly` | packages/server/eval/metrics.ts:141-150 | nDCG is in [0, 1], and 1 exactly when something is expected and the first min(size of expected, 10) unique paths exist and are all expected |
| `Metrics.ComputeQueryMetrics` | packages/server/eval/metrics.ts:113-189 | each score as a function of the ten best unique paths and of all of them; recall times the number of different expected paths is the number of those among the ten best, a query is satisfied exactly when a bridge was returned (without bridges a seed and a target), and leaks are the different unreadable paths returned |
| `Metrics.ReciprocalRankMeans` | packages/server/eval/metrics.ts:132-139 | the reciprocal of the first relevant rank, 0 if there is none |
| `Metrics.ScoresInUnit` | packages/server/eval/metrics.ts:113-189 | every score is in [0, 1], recall is 1 exactly when everything expected is in the top ten, and a perfect nDCG puts an expected path first |
| `Metrics.DedupeKeepsScores` | packages/server/eval/run.ts:107-140 | for k of at least 10, `dedupeByPath` on normalized hits keeps recall, MRR, both nDCGs and the found count, and leaves min(k, unique) paths |
| `Fusion.RerankOrder` | packages/server/eval/rerank-arms-lib.ts:48-62 | for any hits a permutation of the pool: scored first by descending first usable score, ties and the rest in dense order |
| `Fusion.RerankDetermined` | packages/server/eval/rerank-arms-lib.ts:48-62 | those rules leave exactly one order |
| `Fusion.RrfFuseOrder` | packages/server/eval/rerank-arms-lib.ts:64-77 | a permutation of the pool by its pool rank i and rerank rank j, larger 1 / (k + i + 1) + 1 / (k + j + 1) first, stated in whole numbers, equal ones in pool order; with distinct chunk ids, what precedes in both orders precedes in the fusion |
| `Fusion.RrfMergeLists` | packages/server/eval/run.ts:311-325 | each id once, as its first chunk, by descending total score, ties by first appearance, cut to topK |
| `Fusion.ListAddsReciprocal` | packages/server/eval/run.ts:314-318 | a duplicate-free list adds 1 / (10 + rank) to the total of each id it holds |
| `Fusion.MergeIsPareto` | packages/server/eval/run.ts:311-325 | in duplicate-free lists, if every list holding b holds a before it, a precedes b in the merge and in every cut that still has b |
| `GpuVecs.LoadGpuVecs` | packages/server/eval/gpu-embed-lib.ts:106-151 | all or nothing: a failure restores the table, a success makes it the result of all rows; no state on the way has two active rows for a chunk; for the last row of each id the bytes stored are that row of the matrix, byte for byte; it succeeds exactly when the sizes fit, no statement fails, no inserted row is for a chunk that is gone, and something is written, and each error is given exactly for its own reason |
| `GpuVecs.AfterIsLoaded` | packages/server/eval/gpu-embed-lib.ts:114-137 | row by row what a load leaves: the last blob of each id is its chunk's active row, other models' rows retired, other chunks untouched; without `insert` only existing rows change and none is activated |
| `GpuVecs.DistinctIdsLoad` | packages/server/eval/gpu-embed-lib.ts:100-105 | for distinct ids row i of the matrix, byte for byte, is the sole active row of ids[i] and no other chunk changes |
| `GpuVecs.AfterStores` | packages/server/eval/gpu-embed-lib.ts:126-134 | repeated ids too: each id is left with the bytes of its last row of the matrix |
| `GpuVecs.WidthsAgreeExactly` | packages/server/eval/gpu-embed-lib.ts:114-119 | the upsert keeps an existing row's `dimensions`, so they agree with the new bytes exactly if there was no such row or it had that width |
| `OfflineDocVecs.AssertIdsMatch` | packages/server/eval/embedder-arms-offline.ts:74-87 | accepted exactly for the same ids in the same order; otherwise the first differing position |
| `OfflineDocVecs.CheckInput` | packages/server/eval/embedder-arms-offline.ts:152-167 | passes exactly when the ids match, the bytes are whole finite rows of the right number, and every row stored under the model is for one of the ids; a refusal for stale rows counts those that are not |
| `OfflineDocVecs.LoadOfflineDocVecs` | packages/server/eval/embedder-arms-offline.ts:142-179 | a failed check or load changes nothing; once the checks pass, it returns normally exactly when no statement fails, no chunk is gone, and the ids are distinct and not none, and then each id has its own row of the matrix, byte for byte, as its sole active row |
| `OfflineDocVecs.CountFiresExactly` | packages/server/eval/embedder-arms-offline.ts:168-178 | after a successful load the final count is wrong exactly when an id is repeated, and by then the load is committed |
| `WriteVectors.PathsDiffer` | packages/server/eval/modal_embed_nomic.py:340-342 | the four file names never coincide, whatever `out` is |
| `WriteVectors.IdsPathReplacesExtension` | packages/server/eval/modal_embed_nomic.py:340-342 | the extension of the vectors file, after the last dot with something other than dots before it, gives way to `-ids.json` |
| `WriteVectors.IdsPathWithoutExtension` | packages/server/eval/modal_embed_nomic.py:340-342 | a name without an extension is kept whole |
| `WriteVectors.WriteShards` | packages/server/eval/modal_embed_nomic.py:388-399 | succeeds exactly when every shard that comes has the size that was sent and no operation fails, and then the partial file holds their bytes in order |
| `WriteVectors.Publish` | packages/server/eval/modal_embed_nomic.py:405-410 | drop the old ids, move the vectors in, move the ids in: the states shown pass through these stages in this order and never go back, and the stage reached is the last exactly when no operation fails |
| `WriteVectors.WriteVectors` | packages/server/eval/modal_embed_nomic.py:367-416 | after every step the pair is old/old, old/absent, new/absent or new/new, and the pairs come in this order; the run completes exactly when the job is good and nothing fails, with one id for each row; otherwise the files are not both new, and are untouched with no partial file left if no operation failed |

## Left out

- Network, redirects, streaming, SHA-256, `owner.json` parsing and the inference runtime: oracles or parameters.
- In `ModelCache.dfy` `isVerified` is one observation; in `ModelCacheScan.dfy` it reads the pinned files one after another, and only reading one file or listing the directory is one observation.
- In the protocol the pinned files are fixed for one `finalDir`, download directories are private to a call, and nobody outside writes to `finalDir`; the lock may be changed by anyone.
- The age that a waiter reads, from `owner.json` or from the directory's mtime, is one action.
- Temporary names are parameters that differ from the target's name.
- Permissions, hard-link checks on reading, `safe_unlink`, `safe_rmdir` and the two-parent wrapper `rename_no_replace`: easy members beside the modelled primitives.
- QueryStream.BuildStream: the loop that draws repeat slots ends only with probability 1, so the number of draws is limited and `StillDrawing` reports when they did not suffice, exactly.
- QueryCaches.Replay: assumes that the clock readings of a run lie within one time to live.
- The bits of the generator: a seed stands for any stream of numbers in [0, 1).
- Floating point: all arithmetic is over exact reals; `1 / log2(i + 2)` is any positive, strictly decreasing discount, and the Euclidean norm is any function, of which the laws about unit length use only that it is homogeneous.
- Bootstrap.ShiftNeedsResamples: states the law for non-empty deltas; without deltas the bound is the constant 0.
- Pooling.BatchMatesDoNotMatter: that real tokens' hidden states ignore padding is a hypothesis about the model; the width check after pooling is not modelled.
- Fusion.RrfFuseOrder: the fusion constant is a natural number, as every caller's is.
- `Metrics.DedupeKeepsScores` is about scores that look at ten paths; `bridge_satisfied` and leaks look at all of them, so a cut may change them.
- `GpuVecs`: SQL text and the vector index; a statement may fail at any point, `ROLLBACK` is taken to succeed.
- WriteVectors.WriteVectors: `os.path.splitext` is modelled for POSIX paths; the JSON encoder is a parameter.
- Command-line drivers, reports, `reachableTargetSet`, `aggregateMetrics`, `powerReport`, `denseOrder`, `assembleQueryVecs`: they would only add easy members.
