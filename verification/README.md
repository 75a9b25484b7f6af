# Moon, in Dafny

Moon is a C runtime that keeps shadow copies of data in sync.  A program works on a
version through a copy-on-write overlay, commits what it changed, and hosts that fell
behind catch up with one delta.  Around that core the runtime has its own balanced
tree, lock-free lifetime protocols, a DNS cache, timers, a ring buffer and a thread
pool.  This project models the parts of it that are hard to get right and proves what
they are for.

`dafny verify dfyconfig.toml` checks the whole project.

| module | what it models |
|---|---|
| `Overlay`, `Environment` | reading and writing through the overlay; a flat memory it refines |
| `CommitLists` | the lists a commit gathers from the overlay, and the version merged from them |
| `Versions`, `History` | merging a packet into a version; chains of commits |
| `Deltas`, `UpdatePackets` | the catch-up delta between two versions of a chain |
| `MoonNum`, `IdLists`, `Wire` | the variable-length numbers, the delta-coded lists of a packet, and a delta sent through them |
| `PairArrays`, `Seqs` | the in-place quicksort and floor search under versions; sequence facts |
| `AvlShape`, `AvlTree` | the parent-linked AVL tree on the heap |
| `Pipe`, `PipeRefs`, `VersionStatus`, `Crowd` | reference-counted status words changed by compare-and-swap |
| `PipeAlone` | what every call of the pipe protocol comes to when the others stand still |
| `Dns`, `DnsAnswers`, `DnsCache` | the DNS cache as a state machine, the two answers of a lookup, and its critical sections in place |
| `Timers`, `TimerCalls`, `ChainHeads`, `TimerIndex` | the timer index as a state machine, what each call does to fields and chains, and its operations in place on the AVL tree |
| `Ring`, `RingRuns`, `Pool` | the ring buffer, runs of its calls, and the thread pool on top of it |
| `Lists`, `Bytes`, `Options` | lists without repeats; bytes; optional values |

How the models relate to the code:

- The tree nodes, the sorted pair arrays and the ring's bytes are heap objects and
  arrays that methods change in place.  The DNS cache, the timer index and the
  environment are classes whose maps and sequences the methods reassign; each method is
  proved equal to a function on values.  The invariants and the run theorems are about
  those functions, and so are the laws of each call, which say in terms of fields, lists
  and answers what it changes and what it leaves alone.
- The protocols are state machines in which every load, compare-and-swap, atomic
  subtraction and mutex operation is a step of its own.  A run is any schedule of steps of
  any number of threads.
- `moon_runtime.c` is not part of the build (`moon_code/SConstruct:8-9`) and has slips of
  the pen.  The model reads `p_new->p_ids->id_array` at lines 3029-3038 as `p_ids[ i ]`,
  `HAS_WRITES_ID` at lines 2711 and 2718 as `HAS_NEW_ID`, and lets the merged id array
  grow, so that the checks at lines 2989-3027 decide which packets are bad.

Three properties one might expect do not hold, and the model says exactly when they do:

- get_update_packet does not always find a packet between two different versions of a
  chain.  It does if and only if some block of the earlier version survives rewritten
  (`UpdatePackets.GetUpdate`; `UpdatePackets.NoPacketThoughChanged` is a chain where
  it does not).
- The version under an environment is not safe from every write.  It is if and only if
  the address is not in a block that was deleted without having been written before
  (`Overlay.VersionSurvivesIff`, `Overlay.DeletionShares`).
- A timer that is neither stopped nor deleted nor being processed is not always in a
  chain.  It is if and only if it has repeats left (`Timers.EveryRun`;
  `Timers.OneShotRunsOut` is the shortest run to one that has not).

## Model

| member | source | states |
|---|---|---|
| `AvlTree.AvlMap.Delete` | moon_code/common/src/moon_avltree.c:319-401 | for every well-formed tree and node in it: the other nodes remain, in the same order, in a well-formed tree (links, ordered keys, balance = right height minus left height in -1..1), the finite map of entries loses that key and nothing else, and the node comes back zeroed |
| `AvlTree.AvlMap.Shrink` | moon_code/common/src/moon_avltree.c:353-378 | rebalancing on the way up with the doomed leaf still linked restores balance counted as if the leaf were gone |
| `AvlTree.AvlMap.Exchange` | moon_code/common/src/moon_avltree.c:311-317 | a node outside takes over place, children and balance of one inside; the order changes in that entry only |
| `AvlTree.AvlMap.Add` | moon_code/common/src/moon_avltree.c:231-283 | a fresh node is inserted at its place in key order and every invariant restored, the map of entries gaining it; or, if and only if its key is there, the entry under it comes back and nothing changes |
| `AvlTree.AvlMap.Balance` | moon_code/common/src/moon_avltree.c:154-229 | at a node that leans by two the rotations give exactly the rebalanced subtree, linked into the same place |
| `AvlShape.RebalancedIsBalanced` | moon_code/common/src/moon_avltree.c:154-229 | single and double rotations leave a balanced subtree of the height the callers count on |
| `AvlShape.RebalancedKeepsOrder` | moon_code/common/src/moon_avltree.c:154-229 | rotations keep the in-order sequence |
| `AvlShape.ShrinkStep` | moon_code/common/src/moon_avltree.c:353-378 | one step of the deletion walk: lean, stop or rotate, each with the height change it implies |
| `AvlShape.GrowStep` | moon_code/common/src/moon_avltree.c:258-281 | one step of the insertion walk, likewise |
| `AvlTree.AvlMap.Search` | moon_code/common/src/moon_avltree.c:106-126 | the entry of the map with the greatest key up to the probe, or none, after at most height comparisons |
| `AvlShape.HeightIsLogarithmic` | moon_code/common/src/moon_avltree.c:106-126 | balance forces at least fib(h + 2) - 1 nodes into height h |
| `AvlTree.AvlMap.Replace` | moon_code/common/src/moon_avltree.c:422-433 | any fresh node takes the place of an old one, which comes back zeroed; links and balance hold, and the keys are still in order if and only if the new key lies between its neighbours', as an equal key always does |
| `AvlTree.AvlMap.Leftest` | moon_code/common/src/moon_avltree.c:84-93 | the first entry in key order, the one with the least key of the map, or none |
| `AvlTree.Replay` | moon_code/common/src/moon_avltree.c:231-401 | any history of adds and deletes refines a finite sorted map: under each key that should be there the very node put there, no other entry, within the Fibonacci depth bound |
| `PairArrays.Partition` | moon_code/sync/src/moon_runtime.c:293-309 | the hole-shifting partition permutes its part and splits it around the pivot |
| `PairArrays.QSort` | moon_code/sync/src/moon_runtime.c:293-312 | in place: a sorted permutation of the part it is given, and nothing outside it moves |
| `PairArrays.Search` | moon_code/sync/src/moon_runtime.c:335-363 | the greatest entry up to the probe, or none when every entry is above it; the midpoint always stays in range |
| `UpdatePackets.SortByAddr` | moon_code/sync/src/moon_runtime.c:314-332 | the same blocks, each once, by increasing address |
| `Versions.ScanFits` | moon_code/sync/src/moon_runtime.c:2986-3027 | the merge loop accepts its lists if and only if both climb, name blocks of the version and share none |
| `Versions.ScanSplits` | moon_code/sync/src/moon_runtime.c:2986-3027 | it passes on exactly the blocks no list names, in order, and rewrites those the write list names, in its order |
| `Versions.JoinedAccepts` | moon_code/sync/src/moon_runtime.c:2972-3043 | a packet is accepted if and only if it rewrites something and its lists fit; the result has old + new - deleted blocks |
| `Versions.CommitRises` | moon_code/sync/src/moon_runtime.c:2945-3043 | an accepted commit gives strictly increasing ids, and the greatest grows by the number of rewritten and new blocks |
| `Versions.CommitLayout` | moon_code/sync/src/moon_runtime.c:2989-3043 | its array holds each untouched block once, as it was, then the rewritten blocks from the greatest id + 1, in place and with the new contents, then the new blocks |
| `Versions.Merge` | moon_code/sync/src/moon_runtime.c:2972-3096 | the three loops build that array, sorted afterwards when the packet brings ids of its own |
| `History.CommitDescends` | moon_code/sync/src/moon_runtime.c:2945-3043 | a commit keeps what later versions share with an earlier one, and its greatest id grows |
| `History.ChainDescends` | moon_code/sync/src/moon_runtime.c:2945-3043 | so it is along every chain |
| `History.RunFollows` | moon_code/sync/src/moon_runtime.c:2945-3043 | along any run of commits a later version holds under the ids of an earlier one only blocks of that one |
| `History.IdsAreNeverReused` | moon_code/sync/src/moon_runtime.c:2945-3043 | so an id names one block in all versions, and one that is gone or was passed over stays so |
| `Deltas.Fares` | moon_code/sync/src/moon_runtime.c:2598-2675 | comparing ids at one address tells an untouched block from a rewritten one |
| `Deltas.AgainIsChanged` | moon_code/sync/src/moon_runtime.c:2598-2675 | the blocks above the id threshold at known addresses are the successors of the rewritten ones |
| `UpdatePackets.PassesAgree` | moon_code/sync/src/moon_runtime.c:2598-2675 | the counts of the first pass are those the second one finds |
| `UpdatePackets.GetUpdate` | moon_code/sync/src/moon_runtime.c:2598-2675 | what it sends is the delta, and on a chain it sends one if and only if a rewritten block survives |
| `UpdatePackets.NoPacketThoughChanged` | moon_code/sync/src/moon_runtime.c:2598-2675 | a chain of two commits whose ends differ with no packet between them |
| `Deltas.DeltaCatchesUp` | moon_code/sync/src/moon_runtime.c:2598-2675 | merging the delta into any replica of the earlier version gives a replica of the later one |
| `Deltas.DeltaIsReplay` | moon_code/sync/src/moon_runtime.c:2972-3043 | that one delta gives what replaying every commit of the chain gives |
| `MoonNum.RoundTrip` | moon_code/sync/src/moon_runtime.c:2046-2131 | every number below 2^62 decodes to itself and leaves exactly the bytes that follow |
| `MoonNum.Layout` | moon_code/sync/src/moon_runtime.c:2046-2083 | the bytes of a number: little-endian parts of 15, 15 and 31 bits, low part first, the top bit of each set if and only if the number goes on above it |
| `IdLists.PackIds` | moon_code/sync/src/moon_runtime.c:2259-2282 | the loop writes the count and the successive differences |
| `IdLists.UnpackIds` | moon_code/sync/src/moon_runtime.c:2768-2794 | the loop reads them back, or fails where a number is missing |
| `IdLists.IdListRoundTrip` | moon_code/sync/src/moon_runtime.c:2259-2282 | an id list that packs unpacks to itself and leaves the bytes that follow |
| `IdLists.IdListPacks` | moon_code/sync/src/moon_runtime.c:2259-2282 | it packs if and only if every step, counted modulo 2^64, is below 2^62 |
| `IdLists.PackPairs` | moon_code/sync/src/moon_runtime.c:2502-2529 | the loop writes each old id as the step from the one before and each new id as the step from its old one |
| `IdLists.UnpackPairs` | moon_code/sync/src/moon_runtime.c:2856-2884 | the loop reads them back, or fails where a number is missing |
| `IdLists.PairListRoundTrip` | moon_code/sync/src/moon_runtime.c:2502-2529 | a list of rewritten ids that packs unpacks to itself and leaves the bytes that follow |
| `IdLists.PairListPacks` | moon_code/sync/src/moon_runtime.c:2502-2529 | it packs if and only if both steps of every pair are below 2^62 |
| `IdLists.PackNews` | moon_code/sync/src/moon_runtime.c:2531-2557 | the loop writes type, count and id difference of each new block |
| `IdLists.UnpackNews` | moon_code/sync/src/moon_runtime.c:2824-2854 | the loop reads them back, or fails where a number is missing |
| `IdLists.NewListRoundTrip` | moon_code/sync/src/moon_runtime.c:2531-2557 | a list of new blocks that packs unpacks to itself and leaves the bytes that follow |
| `IdLists.NewListPacks` | moon_code/sync/src/moon_runtime.c:2531-2557 | it packs if and only if every type, count and id step is below 2^62 |
| `IdLists.SortedListsTravel` | moon_code/sync/src/moon_runtime.c:2768-2884 | every sorted list of each kind, below 2^62, packs and decodes to itself |
| `Wire.DeltaTravels` | moon_code/sync/src/moon_runtime.c:2695-2760 | the three lists of the delta between two versions of a chain, sent one after the other, arrive as they were, with the bytes that follow left alone |
| `Wire.SentDeltaCatchesUp` | moon_code/sync/src/moon_runtime.c:2972-3043 | a host that receives that delta brings its replica of the earlier version to the later one |
| `Overlay.UnderIs` | moon_code/sync/src/moon_runtime.c:1418-1425 | floor search and range test find the block that covers an address, and only that |
| `Overlay.StoreRefines` | moon_code/sync/src/moon_runtime.c:1388-1474 | a write inside a block changes the flat memory there and nowhere else, and not at all if the block is deleted; no buffer of the version changes unless the write goes through a marker that shares it |
| `Overlay.LoadRefines` | moon_code/sync/src/moon_runtime.c:1388-1474 | a read inside a live block gives the bytes of the flat memory |
| `Overlay.NewRefines` | moon_code/sync/src/moon_runtime.c:1476-1519 | a new block adds zero bytes in a range of its own |
| `Overlay.DeleteRefines` | moon_code/sync/src/moon_runtime.c:1521-1574 | a delete takes away exactly the block that starts at the address, if one does |
| `Overlay.AfterRefines` | moon_code/sync/src/moon_runtime.c:1388-1574 | each write, new and delete keeps the overlay in step with a flat memory that knows only bytes and the length, type and count of each live block |
| `Overlay.EveryRun` | moon_code/sync/src/moon_runtime.c:1388-1574 | so after any run of them the overlay shows the flat memory and the version is as it was |
| `Overlay.VersionSurvivesIff` | moon_code/sync/src/moon_runtime.c:1407-1417 | whatever byte is written, the version survives a write if and only if it does not go to a block deleted before it was ever written |
| `Overlay.DeletionShares` | moon_code/sync/src/moon_runtime.c:1558-1573 | such a delete leaves a marker that shares the version's bytes |
| `Environment.Env.Runtime` | moon_code/sync/src/moon_runtime.c:1388-1474 | where the bytes of an address are, in the overlay if they are to be written; nobody can tell that a copy was made |
| `Environment.Env.Store` | moon_code/sync/src/moon_runtime.c:1427-1459 | a write through shadow_runtime, into any block: what the program sees and what becomes of the version; an address of no block is refused |
| `Environment.Env.Load` | moon_code/sync/src/moon_runtime.c:1407-1430 | a read through shadow_runtime, from any block; the bytes of the flat memory if the block is live |
| `Environment.Env.New` | moon_code/sync/src/moon_runtime.c:1503-1518 | shadow_new in place: the address then belongs to a live new block of the length, type and count asked for, holding zeros; all other bytes and blocks, with their types and counts, are as they were |
| `Environment.Env.Delete` | moon_code/sync/src/moon_runtime.c:1539-1573 | shadow_del in place |
| `CommitLists.Gather` | moon_code/sync/src/moon_runtime.c:1889-1951 | the traversal and the sorts give lists that report the overlay: every deleted and written block by rising id, every new one once, with its contents, type and count |
| `CommitLists.ListsFit` | moon_code/sync/src/moon_runtime.c:2339-2391 | such lists always fit the version the overlay lies on |
| `CommitLists.CommitShowsOverlay` | moon_code/sync/src/moon_runtime.c:2972-3043 | the commit is accepted and the new version holds exactly the untouched, written and new blocks of the environment, as many as there are |
| `CommitLists.CommitShowsMemory` | moon_code/sync/src/moon_runtime.c:2972-3043 | byte by byte, what the program saw is in the version it committed, at the same address, or at the same offset of a new block |
| `CommitLists.CommitShowsBlocks` | moon_code/sync/src/moon_runtime.c:2972-3043 | block by block: each one the program had, old or new, is in the committed version with its type, its count, its length and all its bytes |
| `Pipe.NextKeeps` | moon_code/common/src/moon_pipe.c:79-128 | the invariant of the pipe protocol, kept by every atomic step of every call |
| `Pipe.EveryRun` | moon_code/common/test/pipe_seq.txt:3-10 | for every schedule: the close is told at most once, to the endpoint that did not close, after init_done, with no user left; references only after a successful init_done; the mutex destroyed at most once, with no waiter; nothing owed once all calls have returned |
| `PipeRefs.EveryRun` | moon_code/common/test/pipe_seq.txt:9-11 | for every run of calls, shared and dropped references: ref_num counts them, the memory is freed at most once, with the last one, when no call is under way, no use is held and the mutex is gone; and the close was told before if and only if an endpoint was closed |
| `PipeRefs.RefsCount` | moon_code/common/src/moon_pipe.c:298-344 | a successful get makes its caller one reference, sharing makes one, letting go takes one, and the memory is freed with the last |
| `PipeRefs.FreedForGood` | moon_code/common/src/moon_pipe.c:305-344 | after that nothing happens to the pipe |
| `Pipe.FirstCloseWins` | moon_code/common/src/moon_pipe.c:196-218 | once an endpoint has closed, no other close counts and no acquire succeeds, for the rest of any run |
| `Pipe.TakesWhenReady` | moon_code/common/src/moon_pipe.c:270-303 | get_other_point_ref takes a reference only under a use and with READY set, by init_done on a two-way pipe; that it does take one then is `PipeAlone.GetEnds` |
| `Pipe.DestroysWhenFree` | moon_code/common/src/moon_pipe.c:246-267 | the mutex is destroyed once, after init_done unlocked it, when nobody holds a reference to it |
| `Pipe.WaitsForOneWhoMoves` | moon_code/common/src/moon_pipe.c:283-290 | a waiter is held up only by init_done or by a thread about to unlock |
| `PipeAlone.GetEnds` | moon_code/common/src/moon_pipe.c:270-303 | from every reachable state and wherever a get is in its call, whatever it has read before: run alone it ends within 16 steps, having taken a reference if and only if the pipe is ready and open, and dropped its use; only a held mutex keeps it waiting |
| `PipeAlone.GetTakes` | moon_code/common/src/moon_pipe.c:280-302 | a whole get on a ready and open pipe adds one reference and leaves everything else as it was; otherwise it changes nothing |
| `PipeAlone.GetAwaits` | moon_code/common/src/moon_pipe.c:283-287 | on a two-way pipe before init_done it waits at the mutex, with a use of the pipe and of the mutex, however long it is run |
| `PipeAlone.CloseShuts` | moon_code/common/src/moon_pipe.c:196-218 | a close of an open pipe sets the bit of its endpoint, keeps users and READY, and tells the other endpoint exactly when nobody uses the pipe; of a closed one it changes nothing |
| `PipeAlone.InitReadies` | moon_code/common/src/moon_pipe.c:243-267 | a successful init_done sets READY, unlocks and shuts the mutex, destroys it if nobody waits, and drops the creator's use |
| `PipeAlone.InitCloses` | moon_code/common/src/moon_pipe.c:243-267 | a failed one closes an open pipe at its endpoint, leaves READY alone, and ends in the same way |
| `PipeAlone.WaiterGetsThrough` | moon_code/common/src/moon_pipe.c:246-287 | a get that waits at the mutex takes its reference once init_done has ended |
| `VersionStatus.NextKeeps` | moon_code/sync/src/moon_runtime.c:1145-1195 | the invariant of a version's status word, kept by every load and swap |
| `VersionStatus.ClosesOnce` | moon_code/sync/src/moon_runtime.c:1191-1194 | version_close_func runs once, on a retired version nobody holds |
| `VersionStatus.StaysClosed` | moon_code/common/src/moon_common.h:131-147 | after that no use can be taken, in any run |
| `VersionStatus.EveryRun` | moon_code/sync/src/moon_runtime.c:1145-1195 | for every interleaving: OLD implies a holder, CLOSED none, and when all calls have returned a retired version was closed exactly once |
| `VersionStatus.IncEnds` | moon_code/sync/src/moon_runtime.c:1167-1174 | run alone, inc_version_user_num ends in a held use of every version that is not closed, a retired one included |
| `VersionStatus.DecEnds` | moon_code/sync/src/moon_runtime.c:1176-1195 | dec_version_user_num drops the use, and closes the version if it was the last of a retired one |
| `VersionStatus.OldEnds` | moon_code/sync/src/moon_runtime.c:1145-1165 | set_version_status_old retires a normal version, and closes it if and only if nobody holds it |
| `Dns.RunKeeps` | moon_code/network/src/moon_dns.c:360-402 | the cache invariant, kept by every request, cancel, answer and expiry of any run |
| `Dns.EveryRun` | moon_code/network/src/moon_dns.c:547-591 | the status fixes the answers outstanding; on the list with addresses if and only if status >= QUERY2; domain_num is its length, at most 1024; a freed domain is owed nothing; a waiting query sits in the list of a live domain that is owed an answer; one that stopped waiting left once and dropped its pipe once |
| `Dns.RespondTells` | moon_code/network/src/moon_dns.c:558-568 | the second answer tells every query waiting for the domain what the domain then has, and no other query |
| `Dns.RespondCaches` | moon_code/network/src/moon_dns.c:463-489 | it caches the domain with the addresses of the first answer followed by those of the second, stamped with the time, newest in the list and spared by the eviction, or frees it if neither had any |
| `Dns.RespondEvicts` | moon_code/network/src/moon_dns.c:569-579 | of the other domains exactly the oldest leaves the list, and only when there are more than 1024; it is freed, or kept with all it has if it is in a lookup |
| `DnsAnswers.FirstAnswerKept` | moon_code/network/src/moon_dns.c:548-553 | the first answer is kept beside the addresses in use, and nothing else happens |
| `DnsAnswers.TwoAnswers` | moon_code/network/src/moon_dns.c:547-591 | whatever requests, cancels, sweeps and other answers come between them, the two answers of a lookup end up in the cache together, in order |
| `Dns.SweepKeeps` | moon_code/network/src/moon_dns.c:698-723 | the list is ordered by time, so a sweep that stops at the first fresh entry leaves no expired one |
| `Dns.SweepSpares` | moon_code/network/src/moon_dns.c:698-723 | and spares every entry newer than the limit, every domain off the list, every query and every answer outstanding; a domain in a lookup keeps all it has |
| `Dns.CancelTells` | moon_code/network/src/moon_dns.c:444-457 | after a cancel the query waits nowhere and has let go of its pipe; every other query waits where it did, and nothing else of any domain has changed |
| `Dns.AskAnswers` | moon_code/network/src/moon_dns.c:350-402 | a request is answered at once if and only if the cache lists the name with addresses that are good enough for its flags, and then with those |
| `Dns.AskWaits` | moon_code/network/src/moon_dns.c:350-402 | otherwise the query waits at the domain of its name, which is owed an answer; a lookup starts if and only if none was under way; the domain leaves the list if and only if its cache is cleared |
| `Dns.AskSpares` | moon_code/network/src/moon_dns.c:350-402 | a request keeps every other domain, and the addresses and the first answer its own domain has |
| `DnsCache.Cache.GetAddrInfo` | moon_code/network/src/moon_dns.c:350-404 | the locked part of a request in place: its outcome, and the state `Dns.AskAnswers` and `Dns.AskWaits` speak of |
| `DnsCache.Cache.CancelQuery` | moon_code/network/src/moon_dns.c:430-461 | the locked part of a cancel in place, with the effect of `Dns.CancelTells` |
| `DnsCache.Cache.DomainCallback` | moon_code/network/src/moon_dns.c:525-602 | the locked part of an answer in place, the loops over waiting queries and the eviction included, with the effect of `DnsAnswers.FirstAnswerKept`, `Dns.RespondCaches`, `Dns.RespondTells` and `Dns.RespondEvicts` |
| `DnsCache.Cache.ExpirySweep` | moon_code/network/src/moon_dns.c:698-723 | the sweep loop in place, and that nothing expired is left |
| `DnsCache.Replay` | moon_code/network/src/moon_dns.c:350-723 | a cache put through any calls, in place, ends where the run of their events ends |
| `Timers.RunKeeps` | moon_code/network/src/moon_timer.c:150-230 | the index invariant, kept by every call and by both halves of the timer thread's round |
| `Timers.EveryRun` | moon_code/network/src/moon_timer.c:317-414 | chains hold exactly the armed timers with their id, each timer in one chain if and only if it counts down, and every deleted timer is released exactly once |
| `Timers.OneShotRunsOut` | moon_code/network/src/moon_timer.c:204-218 | a one-shot timer ends in no chain though it is not stopped |
| `TimerCalls.NewTells` | moon_code/network/src/moon_timer.c:290-315 | the timer has the description given and counts down from now, second in the chain of now + time or its head, in no other; without repeats it is stopped, in none |
| `TimerCalls.SetTells` | moon_code/network/src/moon_timer.c:343-368 | unless refused, the timer has the new time, repeats and mark and is not stopped; it leaves its chain for that of now + time, unless it is being processed; nothing else moves |
| `TimerCalls.StopTells` | moon_code/network/src/moon_timer.c:370-387 | the timer is stopped, out of its chain, and otherwise as it was, also while it is being processed |
| `TimerCalls.RestartTells` | moon_code/network/src/moon_timer.c:389-414 | a stopped timer with repeats is stopped no more and counts down from now, or will be put back if it is being processed |
| `TimerCalls.DelTells` | moon_code/network/src/moon_timer.c:317-340 | the timer is deleted and in no chain, and released now unless it is being processed |
| `TimerCalls.FireTells` | moon_code/network/src/moon_timer.c:164-178 | the batch is the whole chain, gone from the tree; each of its timers is told the mark it had and has one repeat less, unless it repeats for ever |
| `TimerCalls.LostTells` | moon_code/network/src/moon_timer.c:191-194 | a timer whose other endpoint is gone is marked deleted, and stays in the batch until the put-back releases it |
| `TimerCalls.DoneTells` | moon_code/network/src/moon_timer.c:200-222 | one timer of the batch counts down anew if it is neither deleted nor stopped and has repeats left; a deleted one is released; no other timer or chain changes |
| `TimerCalls.FinishTells` | moon_code/network/src/moon_timer.c:197-228 | so it goes for every timer of the batch, by one clock, and for no other |
| `ChainHeads.HeadTree.AddHead` | moon_code/network/src/moon_timer.c:277-281 | avl_add2 on a timer's node: it heads a chain of its own, or the head of the chain with its id comes back |
| `ChainHeads.HeadTree.HandOn` | moon_code/network/src/moon_timer.c:249-250 | avl_replace2: the next timer of a chain takes its head's place in the tree |
| `TimerIndex.Index.LeaveAvl` | moon_code/network/src/moon_timer.c:234-258 | a timer leaves its chain; if it was the head its node leaves the tree or the next timer's takes its place; every node of the tree still belongs to the head of the chain with its id, and the earliest timer heads the least |
| `TimerIndex.Index.JoinAvl` | moon_code/network/src/moon_timer.c:260-288 | a timer's node enters the tree, or the timer goes behind the head whose node is there already; tree, chains and earliest timer agree again |
| `TimerIndex.Index.TimerNew` | moon_code/network/src/moon_timer.c:290-315 | timer_new in place, with the effect of `TimerCalls.NewTells` |
| `TimerIndex.Index.TimerDel` | moon_code/network/src/moon_timer.c:317-340 | timer_del in place, with the effect of `TimerCalls.DelTells` |
| `TimerIndex.Index.TimerSet` | moon_code/network/src/moon_timer.c:343-368 | timer_set in place, with the effect of `TimerCalls.SetTells`, and -1 exactly when it refuses |
| `TimerIndex.Index.TimerStop` | moon_code/network/src/moon_timer.c:370-387 | timer_stop in place, with the effect of `TimerCalls.StopTells` |
| `TimerIndex.Index.TimerRestart` | moon_code/network/src/moon_timer.c:389-414 | timer_restart in place, with the effect of `TimerCalls.RestartTells`, and -1 exactly when there is nothing to restart |
| `TimerIndex.Index.TimesUp` | moon_code/network/src/moon_timer.c:150-180 | the whole chain with the least id is taken out if its time has come, and only then |
| `TimerIndex.Index.PutBack` | moon_code/network/src/moon_timer.c:197-228 | every timer of the batch is put back, left out or released |
| `TimerIndex.Replay` | moon_code/network/src/moon_timer.c:150-414 | an index put through any calls and rounds, on the real tree, ends where the run of their events ends |
| `Ring.Buffer.ReadRound` | moon_code/ring_buffer/src/ring_buffer.c:182-220 | a round takes the oldest bytes in order, wrapped or not; bytes read so far and bytes stored are the bytes written so far |
| `Ring.Buffer.WriteRound` | moon_code/ring_buffer/src/ring_buffer.c:293-344 | a round stores a prefix of the bytes after all that is there, and at most length - 1 in all |
| `Ring.Buffer.ReadStep` | moon_code/ring_buffer/src/ring_buffer.c:182-251 | a round of a read call in place and its verdict, as `Ring.ReadVerdict` has it: when exactly it waits |
| `Ring.ReadVerdict` | moon_code/ring_buffer/src/ring_buffer.c:182-251 | the bytes a round gets; it waits if and only if there were too few, the ring is open, it is neither RING_NOWAIT nor late, and it is RING_WAITALL or has nothing yet; otherwise it returns what it has, or -1 with nothing on a closed ring |
| `RingRuns.ReadFacts` | moon_code/ring_buffer/src/ring_buffer.c:182-251 | a call takes the oldest bytes, all or none in message mode, and while it waits an open ring has too little for it |
| `Ring.Buffer.WriteStep` | moon_code/ring_buffer/src/ring_buffer.c:280-375 | a round of a write call in place and its verdict, as `Ring.WriteVerdict` has it: when exactly it waits |
| `Ring.WriteVerdict` | moon_code/ring_buffer/src/ring_buffer.c:280-375 | the bytes a round puts; it waits if and only if there was too little room, the ring is open and the message fits it, it is neither RING_NOWAIT nor late, and it is RING_WAITALL or has put nothing yet; and what it returns otherwise |
| `RingRuns.WriteFacts` | moon_code/ring_buffer/src/ring_buffer.c:280-375 | a call adds its next bytes behind the others, likewise, and nothing to a closed ring |
| `Ring.WindowGrows` | moon_code/ring_buffer/src/ring_buffer.c:313-338 | bytes laid down at the end, in one stretch or two, append to the stored bytes |
| `Ring.Buffer.PutMessage` | moon_code/ring_buffer/src/ring_buffer.c:293-344 | on a ring of messages of one size a message-mode write adds one whole, if and only if there is room for it |
| `Ring.Buffer.TakeMessage` | moon_code/ring_buffer/src/ring_buffer.c:182-220 | and a message-mode read takes the oldest one whole, if there is one |
| `RingRuns.EveryRun` | moon_code/ring_buffer/src/ring_buffer.c:180-377 | after any run of rounds, waits, timeouts and closes of any number of calls: bytes taken, then bytes stored, are the bytes given, in order; at most length - 1 are stored; each call has moved just what its rounds moved; a message-mode call that is back moved all or none |
| `RingRuns.TurnTells` | moon_code/ring_buffer/src/ring_buffer.c:180-377 | a round moves its own call on by its verdict, logs what it moved, and touches no other call |
| `RingRuns.OtherEventsTell` | moon_code/ring_buffer/src/ring_buffer.c:243-259 | a call for no bytes returns 0 at once; one whose wait ends in a timeout returns what it has without another round |
| `Pool.NextKeeps` | moon_code/network/src/moon_pthread_pool.c:51-132 | the invariant of the pool, kept by every critical section, ring call and thread creation |
| `Pool.WriteTaskIs` | moon_code/network/src/moon_pthread_pool.c:123-131 | a task is accepted, whole, if and only if fewer than ten per thread are queued |
| `Pool.ReadTaskIs` | moon_code/network/src/moon_pthread_pool.c:62-66 | a worker's read takes the oldest queued task, whole |
| `Pool.EveryRun` | moon_code/network/src/moon_pthread_pool.c:51-132 | process_num stays between min(task_num, process_max) and process_max, and at least idle_max; the tasks dequeued are the first ones accepted, whole and in order, and the ring holds the bytes of the others; while it is not empty there is a worker |
| `Pool.PutAlone` | moon_code/network/src/moon_pthread_pool.c:96-132 | a whole put_task: a thread is created if and only if every one is taken and process_max is not reached; its task is queued last and counted, or refused and not counted |
| `Pool.ServeAlone` | moon_code/network/src/moon_pthread_pool.c:62-70 | a worker takes the oldest task, runs it and counts it off |
| `Pool.TimeOutAlone` | moon_code/network/src/moon_pthread_pool.c:71-81 | after a timeout a worker ends if and only if process_num exceeds task_num + idle_max |

## Left out

- Pointers inside blocks: moving them between hosts (`append.c`, id and offset tables) is not modelled; block contents are opaque bytes.
- Type tables: find_type, get_struct_len and the failures they cause in a commit; a new block carries its type and count as given.
- Packet bytes around the lists: MD5 sums, zlib and the XOR of old and new contents; a packet is its lists plus contents.
- The counting traversal of get_commit_packet, and its refusal of a commit without writes: the gathering is modelled, and the merge refuses such a packet.
- The shadow side's query and update loop, sessions, `moon_packet2.c`, the min-max heap and the linked-point status: unsettled or not built, or a simpler case of the protocols here.
- `AvlTree.AvlMap.Replace`: a node's key never changes; a timer's node is a fresh one each time it enters the tree.
- `AvlTree.AvlMap.Put`: avl_add on a duplicate key returns a node it has freed (`moon_avltree.c:304-308`); the model frees it and returns nothing.
- `IdLists.PackNews`: the shorter list of a commit packet, without ids (`moon_runtime.c:2284-2304`), is not modelled apart.
- `Overlay.EveryRun`: one thread per environment; two threads that copy the same block at the same time are not modelled, and neither are accesses across the end of a block; writes into deleted blocks are `Overlay.StoreRefines` and `Overlay.VersionSurvivesIff`.
- `Pipe.EveryRun`: the reference counts of the listeners at the endpoints are not modelled; mutexes are handed over in any order; the user count does not overflow.
- `PipeAlone.GetEnds`: the calls end when one thread runs alone; that a scheduler lets every thread run is not modelled.
- `PipeRefs.EveryRun`: a thread uses a pipe only while it holds a reference, which the code leaves to its callers.
- `Pool.EveryRun`: thread creation succeeds, and the pool's ring is never closed.
- `Dns.EveryRun`: numeric addresses, failing list allocations and the reference counts of address lists are not modelled; address lists are values; `moon_dns.c:404` belongs to the critical section before it; the resolver gives exactly two answers per lookup.
- `DnsCache.Cache.GetAddrInfo`: the links of the lists are not modelled; a list is a sequence without repeats.
- `Timers.EveryRun`: no call is made on a timer that has run out, which the code would take for a tree node (`moon_timer.c:238-243`); ids do not overflow.
- `TimerIndex.Index.JoinAvl`: the links inside a chain are not modelled, a chain is a sequence; nor are condition variables.
- `Ring.Buffer.ReadStep`: RING_PEEK is not modelled; when a call's time is up is an input.
- `Ring.Buffer.WriteStep`: RING_REPLACE_OLD is not modelled, nor is the inverted timeout test at `ring_buffer.c:361`; when a call's time is up is an input.
- Sockets, epoll, c-ares, URL parsing, logging and the interface macros.
