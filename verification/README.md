# Parallel best-first search: a model and its proofs

The repository holds several parallel best-first searches over grid and
sliding-tile graphs. What they promise is stated about whole runs, under any
interleaving of their threads. This project models each search as a transition
system, gives its mutable parts as classes, and proves the promises.

| files | what they model |
|---|---|
| `Graphs.dfy`, `SearchProblems.dfy`, `PredecessorPaths.dfy`, `Counting.dfy`, `Numbers.dfy` | finite weighted graphs, walks, search problems, tables of predecessors, set sizes, arithmetic |
| `PaseModel.dfy`, `PasePaths.dfy`, `PaseDuplicates.dfy`, `PaseSearch.dfy` | PASE: one shared multimap, an independence test, an unlocked read of g |
| `HdaModel.dfy`, `HdaTermination.dfy`, `HdaOptimality.dfy`, `HdaExpansions.dfy`, `HdaProgress.dfy`, `HdaSearch.dfy` | HDA*/PRA*: hash-distributed A* with buffered messages and a completion counter |
| `NBlocks.dfy`, `NBlockScope.dfy`, `NBlockScheduler.dfy`, `NBlockRuns.dfy`, `PbnfGraph.dfy`, `PbnfSearch.dfy`, `PbnfOptimality.dfy` | PBNF: interference scopes, the scheduler's use and hot counters and free list, the search of a block and what searches add up to |
| `PwsaModel.dfy`, `PwsaProtocol.dfy`, `PwsaStealing.dfy`, `PwsaSharing.dfy`, `PwsaSearch.dfy`, `PwsaCoverage.dfy`, `PwsaPriorities.dfy`, `PwsaProgress.dfy`, `PwsaWorkers.dfy` | PWSA: lock-free relaxation over a request/answer work-stealing protocol |
| `HeapOrder.dfy`, `Subtrees.dfy`, `BinHeap.dfy` | the splittable binary heap PWSA keeps its frontiers in |
| `ChaseLev.dfy`, `ChaseLevAstray.dfy`, `ChaseLevDeque.dfy` | the Chase-Lev deque: one owner, any number of thieves |
| `IdaStar.dfy`, `AStar.dfy`, `PriorityQueues.dfy` | the serial foundations: IDA*, weighted A* in fixed point, the indexed priority queue |
| `TileHash.dfy`, `TileBoards.dfy`, `TileHeuristic.dfy`, `TileProjection.dfy`, `TileProjects.dfy` | sliding tiles: perfect hash, moves, Manhattan heuristic, block projections |
| `WeightedGraph.dfy` | the eight-way grid graph and the length of a predecessor path |

A concurrent search is a datatype of states, a predicate saying which action of
which thread is enabled, and a function giving the state after it. One action is
one lock-protected section, one atomic load, store or compare-and-swap, or one
move on local variables. Invariants are shown to hold in the initial state and to
be kept by every action; the main theorems are about every state of every run.
Where a section contains loops over shared data (`find_independent`,
`flush_receives`, `next_nblock`, `set_hot`, ...), a class method performs them step
by step and is proved to be exactly that action. Where another thread can act
between any two accesses (the deque, the PWSA worker, publishing a bound), each access is a method of its
own, the operation is a method that calls them in the source's order and loops, and
between the calls the other threads take any number of steps.

Assumptions throughout: sequential consistency; unbounded integers, with None where
a search stores the largest integer to mean "no distance yet"; objects are garbage
collected.

What the proofs show to be untrue of the code, or true only on a condition:

- `parallel_while.hpp:85` asserts that there is work after the wait for an answer.
  That holds in every run if and only if there is a single worker, or the poll cutoff
  lets no worker pop, or no walk leads from the source to the destination
  (`PwsaProgress.AssertionHoldsExactly`). In all other problems some run comes to the
  assertion without work (`PwsaProgress.AssertionCanFail`). Within a run it holds
  exactly when the wait ended in a transfer (`PwsaStealing.AssertionAfterSwap`).
- The PBNF stop test counts blocks whose sigma is zero. A search that is declared done
  is finished in every run if and only if it does not start in an isolated block, or has
  a single worker, or prunes every value (`NBlockRuns.StopsInTimeExactly`). Otherwise,
  while one worker holds the first block, the next may declare the search done
  (`NBlockRuns.IsolatedBlockEndsSearch`). The projection of a grid by its rows modulo
  one has an isolated block (`NBlockRuns.DoneTooEarly`); the projections that track one,
  two or three tiles have none (`TileProjection.NoBlockIsIsolated`).
- `cldeque.hpp:128` loads the buffer and its capacity one after the other. A thief meets
  the right cell exactly if its index, modulo the larger of the two capacities, lies
  below the smaller (`ChaseLevAstray.ReadGoesAstrayExactly`), which is always so
  when no growth falls between the loads. Whatever the initial capacity, some run leads
  a thief astray if and only if there is one (`ChaseLevAstray.GoesAstrayExactly`).
- The array an `NBlock` allocates for its interference scope is long enough if and
  only if the predecessors for which no slot is reserved fit into the slots left over
  (`NBlockScope.FitsExactly`); for a sink, if and only if it has no predecessors
  (`NBlockScope.SinkFitsExactly`). Every projection in the repository answers with the
  same list of neighbours for successors and predecessors, and for those the array is
  always long enough (`NBlockScope.SharedListsFit`), so an overrun
  (`NBlockScope.SinkDoesNotFit`) takes another implementation of the abstract
  `Projection`.
- `search_nblock` stops at the first new goal among the children of a state and drops the
  children after it. If in every list of children none after a goal child promises less
  than that costs, as with uniform edge costs, PBNF ends with an optimal bound all the
  same (`PbnfOptimality.FinalBoundIsOptimal`). Without that order it may not
  (`PbnfOptimality.DroppedSiblingIsMissed`).
- PASE does not stop when the destination cannot be reached: in no run is the search
  done and in none does a worker leave (`PaseModel.NeverDone`). Once there is nothing
  left to do, the search is done if and only if the destination can be reached
  (`PaseModel.SpentIsDoneExactly`), and if it is not, every worker scans for good
  (`PaseModel.StuckForever`).

## Model

| member | source | states |
|---|---|---|
| PaseModel.ClaimableIsNear | src/pase.hpp:98-122 | a multimap entry, stale duplicates included, that passes the independence test against everything before it belongs to a vertex whose g is at most W times the cost of every walk from the source |
| PaseModel.BoundedSuboptimality | src/pase.hpp:128-171 | in every interleaving of any number of workers, a claimed vertex, and the destination once the search is done, has a g that is the cost of a real walk and within W of every walk |
| PaseModel.NoReexpansion | src/pase.hpp:105-117 | no vertex is ever claimed twice |
| PaseModel.ExactWhenUnweighted | src/pase.hpp:150-162 | with W = 1 a claimed vertex has its exact distance and no later relaxation changes it |
| PaseModel.ClaimableExactly | src/pase.hpp:106-116 | an entry may be claimed exactly when its vertex is neither expanded nor under expansion and its distance is at most that of every unexpanded vertex before it plus the heuristic from there |
| PasePaths.PredecessorsLeadToSource | src/pase.hpp:150-162 | with positive weights, in every state of every run the predecessors of a discovered vertex lead back to the source, without a cycle, along a walk no longer than the recorded g |
| PasePaths.DoneMeansPath | src/pase.hpp:140-148 | once the search is done, the walk along the predecessors of the destination is simple and within W of every walk |
| PasePaths.RunKeepsPaths | src/pase.hpp:150-162 | in every run a discovered vertex other than the source has a predecessor, an edge from there, and a g no smaller than the two give, and no worker has read a g that was too small |
| PasePaths.RelaxOneKeepsPaths | src/pase.hpp:155-160 | relaxing an edge from a distance read earlier keeps every vertex explained by its predecessor |
| PaseDuplicates.OneEntryIsCurrent | src/pase.hpp:152-161 | in every state of every run exactly one entry of a discovered, unexpanded vertex has the key its g gives; it is the last one inserted, and the others, which are stale, have larger keys |
| PaseDuplicates.RunFalls | src/pase.hpp:156-161 | a vertex gets another entry only when its g falls: of two entries of one vertex the later has the smaller key |
| PaseModel.ErasedIteratorIsAlive | src/pase.hpp:137-167 | the iterator kept across the unlocked expansion still refers to a node of the multimap when it is erased, after all relaxations |
| PaseModel.SpentIsDoneExactly | src/pase.hpp:135-138 | when nobody holds a vertex and no entry can be claimed, the search is done if and only if some walk leads to the destination |
| PaseModel.NeverDone | src/pase.hpp:135-148 | if no walk leads to the destination, then in no run is the search done, and no worker leaves |
| PaseModel.StuckForever | src/pase.hpp:98-125 | a run with nothing left to do that is not done stays so whatever step is taken: the vertex table never changes again, and every worker is idle and can scan again |
| PaseModel.RunKeepsInv | src/pase.hpp:128-171 | the invariant on table, multimap, holders and done flag holds in every state of every run |
| PaseModel.FirstUnexpanded | src/pase.hpp:150-167 | on every walk to an unexpanded vertex lies an unexpanded vertex whose g is justified by the part of the walk before it |
| PaseModel.RelaxAllKeepsBoard | src/pase.hpp:151-162 | relaxing all edges keeps table and multimap consistent, only improves distances, and leaves every neighbour within the claimed vertex's distance plus the edge |
| PaseModel.InsertOk | src/pase.hpp:72-75 | inserting keeps the multimap ordered and adds exactly the new entry |
| PaseModel.PurgeUpToOk | src/pase.hpp:103-105 | the scan removes only entries of expanded vertices and keeps the order |
| PaseSearch.Search.FindIndependent | src/pase.hpp:98-126 | the two nested loops over the multimap perform exactly one claim step, or a scan step that proves no entry claimable |
| PaseSearch.Search.Scan | src/pase.hpp:102-121 | the outer loop returns the first claimable entry of the list it started from, having purged the prefix |
| PaseSearch.Search.Begin | src/pase.hpp:140-150 | a claimed destination ends the search; any other vertex has its g read without the lock |
| PaseSearch.Search.Relax | src/pase.hpp:151-167 | the locked section is exactly the relax step |
| HdaTermination.TerminationIsDetected | pbnf/src/prastar.cc:106-147 | once the counter is at its maximum or done is set, nothing is pending in any open list, receive queue, send buffer or thread, then and in every later state, and the bound no longer changes |
| HdaTermination.CompleteMeansAll | pbnf/src/util/completion_counter.cc:44-59 | the counter never exceeds the number of threads, and is complete exactly when all have reported |
| HdaTermination.ActionKeepsTerm | pbnf/src/prastar.cc:71-79 | every action keeps the counter equal to the number of threads with completed set, a post to a resting thread included |
| HdaTermination.WokenAssertionHolds | pbnf/src/prastar.cc:135-139 | the assertion that the queue is empty when the search is complete holds in every run |
| HdaOptimality.FinalBoundIsOptimal | pbnf/src/prastar.cc:277-309 | with an admissible heuristic, in every interleaving and for buffered and immediate sends, the final bound is the least cost of a walk to a goal, and infinite exactly if there is none |
| HdaOptimality.ActionKeepsOpt | pbnf/src/prastar.cc:149-241 | every action keeps the closure invariant: each child of an expanded state that could still beat the bound is closed at least as cheaply by its owner, queued, buffered or in hand |
| HdaOptimality.WalkIsExpanded | pbnf/src/prastar.cc:281-308 | when complete, along any walk that would beat the bound every state is closed at no greater cost and fully expanded |
| HdaOptimality.CompleteIsOptimal | pbnf/src/prastar.cc:260-263 | a complete state of the search carries the optimal bound |
| HdaExpansions.ReexpandedOnlyCheaper | pbnf/src/prastar.cc:157-171 | in every run, between two expansions of a state by one thread its g has strictly fallen |
| HdaExpansions.ActionKeepsTaken | pbnf/src/prastar.cc:157-228 | no action reopens a state that has been taken, unless at a lower g |
| HdaProgress.NeverStuck | pbnf/src/prastar.cc:106-147 | in every state of every run a thread that has not left can take a step, or it spins on an empty queue and another thread can |
| HdaSearch.PRAStar.FlushReceives | pbnf/src/prastar.cc:106-178 | duplicate detection over the receive queue is exactly the receive action, reporting completion included; the messages thrown away are exactly those at or above the bound |
| HdaSearch.PRAStar.AfterSpin | pbnf/src/prastar.cc:131-178 | what a woken thread does is exactly the wake action, and throws away exactly the messages at or above the bound; on completion its queue is empty |
| HdaSearch.PRAStar.Merge | pbnf/src/prastar.cc:151-174 | exactly the messages at or above the bound are thrown away, every other received state is closed at no greater g afterwards; closed states only improve, a changed one is open, and its new g came from the queue; a duplicate that is no cheaper is dropped: a state is open afterwards only if it was open, is new or has become cheaper |
| HdaSearch.PRAStar.Flush | pbnf/src/util/msg_buffer.h:37-45 | the buffer moves to the end of the receiver's queue, which is told only if something was sent |
| HdaSearch.PRAStar.TryFlush | pbnf/src/util/msg_buffer.h:90-102 | a flush that gets the lock is the delivery action |
| HdaSearch.PRAStar.PostSend | pbnf/src/prastar.cc:71-79 | a post keeps the counter in step with the threads that have reported completion: their difference is unchanged, and the receiver is not among them afterwards |
| HdaSearch.PRAStar.SendState | pbnf/src/prastar.cc:204-241 | a child is absorbed by its owner or put in the owner's buffer, delivered if the lock is free; of the sender's own states only the child can be opened, and only if it is new or has become cheaper |
| HdaSearch.PRAStar.CheckComplete | pbnf/src/prastar.cc:260-263 | done is set exactly when all threads have reported completion, and then nothing is pending and the bound is optimal |
| HdaSearch.PRAStar.PublishBound | pbnf/src/prastar.cc:354-370 | with other threads acting between the read and the compare-and-swap, the loop ends and leaves the bound at the minimum of the best solution and what the others had made of it, which is no higher than at the start |
| NBlocks.InterferenceIsSymmetric | pbnf/src/pbnf/nblock.cc:41-56 | interference is symmetric when successors and predecessors are converse |
| NBlockScope.ComputeScope | pbnf/src/pbnf/nblock.cc:38-71 | the constructor's array lists exactly the interfering blocks, without duplicates and without the block itself |
| NBlockScope.CollectedIsScope | pbnf/src/pbnf/nblock.cc:45-56 | predecessors, successors and predecessors of successors, less the block, are the interfering blocks |
| NBlockScope.FitsExactly | pbnf/src/pbnf/nblock.cc:46-60 | the array is long enough if and only if the predecessors no successor accounts for fit into the slots that double counting leaves over |
| NBlockScope.SinkFitsExactly | pbnf/src/pbnf/nblock.cc:46-60 | for a block without successors it is long enough if and only if there are no predecessors |
| NBlockScope.ReachedLeavesSlots | pbnf/src/pbnf/nblock.cc:48-56 | the successors and their predecessors, less the block, leave at least one slot empty per successor |
| NBlockScope.BalancedBlocksFit | pbnf/src/pbnf/nblock.cc:46-60 | in particular it is for a block with no more predecessors than successors |
| NBlockScope.SharedListsFit | pbnf/src/tiles/tiles.cc:1042-1050 | so it is for every projection that gives the same lists of successors and predecessors |
| NBlockScope.SinkDoesNotFit | pbnf/src/pbnf/nblock.cc:46-60 | a concrete projection for which it is not |
| NBlockRuns.CountersAreRight | pbnf/src/pbnf/nblock_graph.cc:103-194 | in every reachable state sigma and sigma_hot are the numbers of interfering blocks in use and hot, num_sigma_zero counts the zero sigmas, hot implies a busy neighbour, and the free list is duplicate-free and holds free blocks only |
| NBlockRuns.ScopesNeverOverlap | pbnf/src/pbnf/nblock_graph.cc:288-328 | in every reachable state the blocks two workers may touch are disjoint |
| NBlockRuns.DoneMeansFinished | pbnf/src/pbnf/nblock_graph.cc:145-169 | without isolated blocks and with a bound that never rises, once done is set no block is in use or hot and every block still holding nodes is at or above the pruning limit, for good |
| NBlockRuns.StopsInTimeExactly | pbnf/src/pbnf/nblock_graph.cc:145-169 | that every search declared done is finished from then on holds of all runs from a given block by a given number of workers if and only if that block is not isolated, or there is one worker at most, or the pruning test always succeeds |
| NBlockRuns.StopTestIsTrusted | pbnf/src/pbnf/nblock_graph.cc:145-149 | under that condition the search is finished whenever a worker's stop test succeeds |
| NBlockRuns.OneWorkerStopsInTime | pbnf/src/pbnf/nblock_graph.cc:129-149 | a single worker, which has handed its block back before it tests, is never wrong, isolated blocks included |
| NBlockRuns.IsolatedIsUnreached | pbnf/src/pbnf_search.cc:117-121 | in every run an isolated block other than the first stays empty and is never in use |
| NBlockRuns.FinishedStays | pbnf/src/pbnf/nblock_graph.cc:103-441 | nothing that can happen after the search has been declared done makes a finished search unfinished |
| NBlockRuns.IsolatedBlockEndsSearch | pbnf/src/pbnf/nblock_graph.cc:145-171 | for every isolated block, two or more workers, and any value and bound that are not pruned there is a run that ends with done set by one worker while another holds the block |
| NBlockRuns.DoneTooEarly | pbnf/src/grid/grid_world.cc:604-616 | such a run of the row projection modulo one, whose only block is its own neighbour |
| NBlockRuns.RunKeepsInv | pbnf/src/pbnf/nblock_graph.cc:103-441 | the scheduler's invariant holds in every state of every run |
| NBlockScheduler.ProductIsMonotone | pbnf/src/pbnf/nblock_graph.cc:164 | the exact product with a non-negative weight is a test of the kind the scheduler's theorems assume |
| NBlockScheduler.StopTestIsExact | pbnf/src/pbnf/nblock_graph.cc:146-149 | when the stop test succeeds, the search is finished if and only if no isolated block is in use |
| NBlockScheduler.IsolatedBlockIsMissed | pbnf/src/pbnf/nblock_graph.cc:146-149 | a state satisfying the invariant in which an isolated block is in use and the stop test succeeds |
| NBlockScheduler.ScopesAreDisjoint | pbnf/src/pbnf/nblock_graph.cc:287-328 | from the invariant: the scopes of two blocks in use share no block |
| NBlockScheduler.SearchTouchesNoFreeBlock | pbnf/src/pbnf_search.cc:117-141 | the blocks a worker reads and writes are neither free nor in the free list, so a pruned block cannot change until it is added back |
| NBlockScheduler.ReleaseKeepsInv | pbnf/src/pbnf/nblock_graph.cc:129-143 | giving a block back keeps the invariant, its own sigma is zero, and hot blocks go cold exactly when their last busy neighbour left |
| NBlockScheduler.AcquireKeepsInv | pbnf/src/pbnf/nblock_graph.cc:169-182 | taking a block keeps the invariant, removes from the free list it and its scope and nothing else, and cools nothing |
| NBlockScheduler.SetHotKeepsInv | pbnf/src/pbnf/nblock_graph.cc:356-390 | heating a busy-shadowed block keeps the invariant and cools exactly the hot blocks around it |
| NBlockScheduler.CoolAllKeepsInv | pbnf/src/pbnf/nblock_graph.cc:418-441 | cooling a scope keeps the invariant and cools exactly that scope |
| NBlockScheduler.PruneKeepsInv | pbnf/src/pbnf/nblock_graph.cc:164-167 | emptying the free list is sound once its best block is at or above the limit |
| NBlockScheduler.SearchKeepsInv | pbnf/src/pbnf_search.cc:85-148 | whatever a worker does to the open lists in its scope keeps the scheduler's invariant |
| NBlockScheduler.RaiseAllOk | pbnf/src/pbnf/nblock_graph.cc:306-324 | raising the sigmas of a scope one by one keeps every counter right at every iteration |
| NBlockScheduler.LowerAllOk | pbnf/src/pbnf/nblock_graph.cc:306-324 | lowering them keeps every counter right, frees nothing wrongly and cools exactly the blocks that become free of busy neighbours |
| NBlockScheduler.SetColdOk | pbnf/src/pbnf/nblock_graph.cc:396-412 | cooling one block lowers the hot counters around it and frees exactly what becomes free |
| PbnfGraph.NBlockGraph.NextNBlock | pbnf/src/pbnf/nblock_graph.cc:103-194 | the answer is a block now in use, the best of the free list as it was after the caller's own block had been handed back, and below the limit; or the search is done; or the free list is empty and the caller waits; the search is declared done exactly if every block then in use is isolated, and the caller waits only while one with neighbours is in use; no other worker's block changes |
| PbnfGraph.ForemostIsBest | pbnf/src/pbnf/nblock_graph.cc:164-169 | pruned blocks make no difference: no free block at all, in the list or not, has a better value than the front of the list when that is worth searching |
| PbnfGraph.NBlockGraph.GiveBack | pbnf/src/pbnf/nblock_graph.cc:130-142 | the in-place hand-back is the specified one: the block is no longer in use, and exactly the hot blocks whose sigma fell to zero have gone cold |
| PbnfGraph.NBlockGraph.Decide | pbnf/src/pbnf/nblock_graph.cc:145-169 | the retry loop of stopping and pruning ends with such an answer: it stops, rather than waits, if and only if every block in use is isolated |
| PbnfGraph.NBlockGraph.Wake | pbnf/src/pbnf/nblock_graph.cc:151-169 | a woken worker takes the best of the free list, or stops, or waits on; while it waits some block is in use, which every operation on the scheduler preserves |
| NBlockScheduler.ZeroCountIsIdle | pbnf/src/pbnf/nblock_graph.cc:146 | the counter of zero sigmas is full if and only if every block in use is isolated |
| PbnfGraph.NBlockGraph.UpdateScopeSigmas | pbnf/src/pbnf/nblock_graph.cc:291-328 | the in-place loop computes the scope update of the specification; its assertion that only a rise starts at zero holds |
| PbnfGraph.NBlockGraph.SetHot | pbnf/src/pbnf/nblock_graph.cc:356-390 | the block becomes hot unless it is hot, unshadowed or outbid by a hotter neighbour, and then nothing changes |
| PbnfGraph.NBlockGraph.SetCold | pbnf/src/pbnf/nblock_graph.cc:396-412 | the in-place loop computes the specified cooling |
| PbnfGraph.NBlockGraph.WontRelease | pbnf/src/pbnf/nblock_graph.cc:418-441 | afterwards no block in the scope is hot and no other has changed; skipping when sigma_hot is zero is sound |
| PbnfGraph.NBlockGraph.Search | pbnf/src/pbnf_search.cc:85-148 | a worker may change the open lists of its block and its successors, and the scheduler stays valid |
| PbnfSearch.Worker.SearchNBlock | pbnf/src/pbnf_search.cc:85-148 | the lists of blocks outside the scope are untouched, no state is forgotten and no g grows, and what is reported is the cost of a real path to a goal, below the bound; a search that reports nothing has used up its turns or the open list, each turn on a state that was open, is new or has become cheaper, and every state it has taken cannot beat the bound or is no goal and has all its children known at no more than their g; all else is open that was, or is new or cheaper |
| PbnfSearch.Worker.Generate | pbnf/src/pbnf_search.cc:112-142 | only the child's own block changes, and only if the child is within the bound and new or cheaper; it is closed with its g and open, except that a new goal is reported instead |
| PbnfSearch.Worker.ExpandAll | pbnf/src/pbnf_search.cc:109-144 | either a new goal is reported, the children before it are handled and the siblings after it are dropped, or every child within the bound is known at no more than its g; apart from that goal, exactly the states that were open, are new or have become cheaper are open |
| PbnfSearch.SearchIsAllowed | pbnf/src/pbnf_search.cc:85-148 | seen from the scheduler, such a search changes the best values of its scope only |
| PbnfOptimality.FinalBoundIsOptimal | pbnf/src/pbnf_search.cc:51-69 | with an admissible heuristic, when blocks have been searched in any order until no open state can beat the bound, the bound is the least cost of a path to a goal, and infinite exactly if there is none |
| PbnfOptimality.SearchKeepsInv | pbnf/src/pbnf_search.cc:85-148 | every search of a block keeps the closure invariant: each known state is open, or cannot beat the bound, or has all its children known at no more than their g |
| PbnfSearch.ChildGoalIsDone | pbnf/src/pbnf_search.cc:134-140 | a search that ends at a goal child is such a search if no child after a goal child promises less than the goal costs |
| PbnfSearch.OpenGoalIsDone | pbnf/src/pbnf_search.cc:96-99 | a search that ends at a goal taken from the open list always is |
| PbnfOptimality.DroppedSiblingIsMissed | pbnf/src/pbnf_search.cc:134-140 | a graph of three states in which the first child is a goal at cost 10 and the dropped one leads to it at cost 2: no open state is left, and the bound is not optimal |
| PbnfOptimality.FinishedIsWorthless | pbnf/src/pbnf/nblock_graph.cc:145-169 | when the scheduler stops and prunes by f, no open state of any block can beat the bound |
| PbnfGraph.NBlockGraph.SetPath | pbnf/src/pbnf_search.cc:272-288 | with other workers publishing between the read and the compare-and-swap, the loop ends and leaves the bound at the minimum of the new cost and what the others had made of it |
| PwsaProtocol.ActionKeepsProto | src/shared/parallel_while.hpp:40-108 | every atomic step keeps the request/answer protocol: who owes whom an answer, which slots are empty, who may split |
| PwsaStealing.AtMostOneAnswer | src/shared/parallel_while.hpp:53-99 | two answers to one thief are always separated by its own reset, so each request gets at most one, although the victim answers before it clears the request |
| PwsaStealing.NoRequestBeforeAnswer | src/shared/parallel_while.hpp:60-78 | between two requests of one thief there is always an answer to it |
| PwsaStealing.SplitIsSafe | src/shared/parallel_while.hpp:92-94 | a victim splits only a frontier of at least two items, into an empty slot |
| PwsaStealing.RequestIsGrantedExactly | src/shared/parallel_while.hpp:87-98 | in every run a worker that finds a request grants it if and only if its frontier holds more than the split cutoff, or two items and the worker has gone on for longer than that without sharing; two steps of its own later the asker's slot holds work and its answer says so, or its answer is a rejection |
| PwsaSharing.SplitsByPops | src/pwsa.hpp:87-107 | in every run, when a worker is about to answer requests its frontier counts as one to be split exactly if it holds more than the split cutoff, or two items when the worker has popped more vertices than that since it last split its frontier or had none |
| PwsaStealing.AssertionAfterSwap | src/shared/parallel_while.hpp:81-85 | the frontier is non-empty after the swap if and only if the wait ended in a transfer; otherwise the search is done |
| PwsaProgress.AssertionHoldsExactly | src/shared/parallel_while.hpp:81-85 | the assertion that there is work after the swap holds in every run if and only if there is one worker only, or the poll cutoff is not positive, or no walk leads from the source to the destination |
| PwsaProgress.AssertionCanFail | src/shared/parallel_while.hpp:59-85 | otherwise a run exists in which a worker looking for work comes to the assertion with none |
| PwsaProgress.FindsAlone | src/pwsa.hpp:109-150 | with a positive poll cutoff, from every reachable state in which one worker has all the work and no request, and the others are outside the search body, that worker can go on, in as many rounds as it takes, to find the destination if it can be reached |
| PwsaProgress.NewRound | src/shared/parallel_while.hpp:33-104 | a worker that has popped as often as one round allows comes back to the search body with its frontier unchanged |
| PwsaProgress.WithoutPollsFruitless | src/pwsa.hpp:109-111 | with a poll cutoff that is not positive no run ever finds anything |
| PwsaProgress.DoneMeansPath | src/pwsa.hpp:119 | in every run the search is only declared done when the predecessors of the destination form an acyclic path from the source |
| PwsaStealing.StealingConserves | src/shared/parallel_while.hpp:43-100 | every action but popping and inserting leaves the multiset of all work unchanged |
| PwsaStealing.PopTakesOne | src/pwsa.hpp:111-114 | popping removes exactly the popped item from all work |
| PwsaStealing.InsertAddsOne | src/pwsa.hpp:135-137 | inserting adds exactly one item, or none if the neighbour is expanded |
| PwsaSearch.ActionKeepsPath | src/pwsa.hpp:116-146 | every step keeps each discovered vertex explained by a predecessor, an edge and a distance |
| PwsaSearch.RelaxKeepsGraph | src/pwsa.hpp:131-138 | a successful compare-and-swap keeps all vertices explained |
| PredecessorPaths.PredecessorPath | src/pwsa.hpp:78-81 | in a table of explained vertices the predecessor chain of a discovered vertex is an acyclic walk from the source, no longer than its distance |
| PredecessorPaths.LoweringKeepsExplained | src/pwsa.hpp:125-138 | lowering a distance along an edge, from a distance of the tail that may have fallen since it was read, keeps every vertex explained |
| PwsaSearch.ActionComesCloser | src/pwsa.hpp:125-145 | no step forgets a distance or makes one larger |
| PwsaCoverage.PredecessorsLeadToSource | src/pwsa.hpp:78-81 | in every run the predecessors of a discovered vertex lead back to the source: the walk along them has no cycle and is no longer than the recorded distance |
| PwsaCoverage.DiscoveredIsNotLost | src/pwsa.hpp:104-150 | in every run a discovered vertex is expanded, in some frontier or slot, or in the hands of a worker |
| PwsaPriorities.UpToDate | src/pwsa.hpp:131-138 | in every run no item in a frontier or slot promises less than the g + h of its vertex, and a discovered vertex that is not expanded has an item with exactly its g + h in some frontier or slot, or has just been popped or given that g by a worker |
| PwsaCoverage.QuiescenceIsExhaustive | src/pwsa.hpp:109-150 | if all frontiers, slots and workers come to rest without an announcement, every vertex reachable from the source is expanded and the destination is not reachable |
| PwsaCoverage.ExpandedOnce | src/pwsa.hpp:116-117 | no vertex is expanded twice |
| PwsaCoverage.ActionKeepsSearch | src/pwsa.hpp:109-150 | every step keeps protocol, predecessor and coverage invariants together |
| PwsaWorkers.Workers.BlockRequests | src/shared/parallel_while.hpp:44-57 | under interference the loop ends with the worker's cell blocked, unless it has tried as often as it is given; a request found in the cell has been rejected, once, and nobody else has been answered |
| PwsaWorkers.Workers.AcquireWork | src/shared/parallel_while.hpp:59-79 | the loop ends with work in the slot after a transfer, or because the search is done, or after as many tries as it is given; the cell stays blocked and nobody is answered meanwhile |
| PwsaWorkers.Workers.TakesTransfer | src/shared/parallel_while.hpp:81-85 | the frontier is what was in the slot, and there is work exactly if there was a transfer |
| PwsaWorkers.Workers.Respond | src/shared/parallel_while.hpp:87-100 | the request found in the cell gets exactly one answer, a transfer if the frontier holds more than the split cutoff, or two items after that many steps without sharing, and a rejection if not, no request gets none; a split parts the frontier into two non-empty pieces, otherwise it is unchanged; and the cell is not blocked afterwards |
| PwsaWorkers.GivenIsStored | src/shared/parallel_while.hpp:55-98 | an action changes another worker's answer cell exactly when it records a reply to that worker, and to the recorded answer |
| PwsaWorkers.Workers.RelaxNeighbor | src/pwsa.hpp:125-145 | the compare-and-swap loop leaves the neighbour at a distance no larger than the one through the expanded vertex, unless it has failed as often as it is given, and the frontier unchanged or with exactly the neighbour added |
| PwsaWorkers.Workers.Inserts | src/pwsa.hpp:135-137 | after a successful compare-and-swap the neighbour is in the frontier or expanded |
| PwsaWorkers.Workers.Expand | src/pwsa.hpp:124-146 | when an expansion is over, every neighbour is no farther than through the vertex at the distance it had at the start |
| PwsaWorkers.Workers.DoWork | src/pwsa.hpp:109-150 | under interference at most as many vertices are popped as the poll cutoff allows, and an item leaves the frontier only if its vertex is expanded; the round ends at the top, or with the destination found and expanded; nobody is answered meanwhile |
| PwsaWorkers.Workers.Run | src/shared/parallel_while.hpp:33-110 | a worker leaves its loop only when the search is done, otherwise it goes on for as many actions as it is given, and everything it does keeps the invariants |
| Subtrees.SubtreesAreHeaps | src/shared/bin_heap.hpp:167-180 | the left and the right subtree of a heap, each read level by level, are heaps |
| BinHeap.Heap.Split | src/shared/bin_heap.hpp:151-183 | a heap of two or more items and an empty one become two heaps whose items together are the original ones, root included; this heap keeps exactly its left subtree, which is less than two thirds of the items, and the other gets at most one item more than it; a smaller heap is left alone |
| BinHeap.Heap.Deal | src/shared/bin_heap.hpp:156-180 | the in-place loops leave the two subtrees in the two arrays |
| BinHeap.Heap.DealLevels | src/shared/bin_heap.hpp:165-180 | level by level, the left halves stay and the right halves go, and no subtree gets more than twice the other and one |
| BinHeap.Heap.DealLeft | src/shared/bin_heap.hpp:168-173 | moving a half level to the front never overwrites a cell not yet read |
| BinHeap.Heap.DealRight | src/shared/bin_heap.hpp:174-179 | the other half level goes to the other heap in order |
| BinHeap.Heap.Insert | src/shared/bin_heap.hpp:113-120 | exactly the new item is added and order kept, growing if needed |
| BinHeap.Heap.DeleteMin | src/shared/bin_heap.hpp:122-129 | an item of least priority is removed and its value returned |
| BinHeap.Heap.HeapifyUpFrom | src/shared/bin_heap.hpp:67-73 | restores order that fails only upwards, keeping the items |
| BinHeap.Heap.HeapifyDownFrom | src/shared/bin_heap.hpp:57-65 | restores order that fails only downwards, keeping the items, and ends |
| ChaseLev.ActionRefines | src/pasl/parutil/cldeque.hpp:103-161 | every atomic step of owner or thief has exactly its effect on a sequence: append, remove the newest, remove the oldest, or none |
| ChaseLev.NothingLostOrDuplicated | src/pasl/parutil/cldeque.hpp:103-161 | in every run, what was pushed is what was returned plus what is still there, as multisets |
| ChaseLev.ActionKeepsInv | src/pasl/parutil/cldeque.hpp:119-161 | every step keeps the invariant tying each thief's copies of top and of the item to the contents |
| ChaseLev.PopFailsOnlyWhenEmpty | src/pasl/parutil/cldeque.hpp:142-147 | pop_back reports empty exactly when the sequence is empty |
| ChaseLev.GrowKeepsInv | src/pasl/parutil/cldeque.hpp:106-113 | growing keeps the contents and the items thieves are about to take |
| ChaseLev.CopiedHolds | src/pasl/parutil/cldeque.hpp:66-75 | copying modulo the new capacity preserves every live cell |
| ChaseLevDeque.Deque.PushBack | src/pasl/parutil/cldeque.hpp:103-117 | with thieves acting between any two accesses, the owner's record grows by exactly this push, and the contents are explained by the record |
| ChaseLevDeque.Deque.PopBack | src/pasl/parutil/cldeque.hpp:138-161 | an item is returned exactly if the owner removed it from the back, once; the answer is empty exactly if the deque was empty when the owner read top, and an abort only if there was one item then and another thread took it during the operation |
| ChaseLevDeque.Deque.PopFront | src/pasl/parutil/cldeque.hpp:119-136 | an item is returned exactly if this thief removed it from the front, once, whatever the owner and the other thieves do meanwhile; the answer is empty only if there is no item but one the owner is popping, and an abort only if another thread took an item meanwhile; the thief looks into the wrong cell only if the buffer grew during the operation |
| ChaseLevDeque.Deque.LoadBoth | src/pasl/parutil/cldeque.hpp:128 | with other threads acting between the two loads, in either order, buffer and capacity fit together unless the buffer has grown |
| ChaseLevAstray.ReadGoesAstrayExactly | src/pasl/parutil/cldeque.hpp:50-52 | in every run a thief's read goes astray exactly if its index modulo the larger of the two capacities is not below the smaller, and never with equal capacities |
| ChaseLevAstray.AlignedExactly | src/pasl/parutil/cldeque.hpp:50-52 | indexes modulo two capacities, one a multiple of the other, agree exactly under that condition |
| ChaseLevAstray.GoesAstrayExactly | src/pasl/parutil/cldeque.hpp:103-136 | for every initial capacity, some run leads a thief past the end of an outgrown buffer if and only if there is a thief |
| ChaseLevDeque.Deque.PopReadsTop | src/pasl/parutil/cldeque.hpp:142-151 | the read of top decides: the deque is empty, the item is the owner's, or there may be a race for it |
| ChaseLevDeque.Deque.Grow | src/pasl/parutil/cldeque.hpp:66-75 | the loop copies exactly the live cells, each to its place modulo the new capacity |
| ChaseLevDeque.ExplainedGrows | src/pasl/parutil/cldeque.hpp:103-161 | the record of all effects, taken as one lawful deque operation after the other, always leads from the empty sequence to the contents |
| ChaseLevDeque.LawfulBalances | src/pasl/parutil/cldeque.hpp:103-161 | in such a record, pushed is returned plus present |
| SearchProblems.Shortcut | pbnf/src/cost_bound_dfs.cc:44-48 | every walk can be made free of cycles without becoming dearer, which is why pruning cycles loses no solution |
| IdaStar.CostBoundDfs.IsCycle | pbnf/src/cost_bound_dfs.cc:76-85 | true exactly when the state occurs among its ancestors |
| IdaStar.CostBoundDfs.Search | pbnf/src/cost_bound_dfs.cc:22-60 | returns a solution within the bound below the node, or has seen that there is none; min_pruned is then the least f above the bound among pruned nodes, and 0 exactly while nothing was pruned |
| IdaStar.ExpandIsComplete | pbnf/src/cost_bound_dfs.cc:40-48 | leaving out the child equal to the parent leaves out no simple path |
| IdaStar.NextBoundIsBelow | pbnf/src/ida_star.cc:76-78 | with an admissible heuristic the next bound does not exceed the cost of any solution |
| IdaStar.Search | pbnf/src/ida_star.cc:39-83 | always ends; returns a solution exactly if one exists; with an admissible heuristic a cheapest one; the bounds tried increase strictly and never exceed the cost of a solution |
| AStar.Search.Run | pbnf/src/astar.cc:29-66 | always ends; returns a path exactly if a goal is reachable, for any heuristic and weight, the path being a real walk no dearer than g; with reopening and an admissible heuristic g * fp_one <= max(weight, fp_one) * cost of every solution |
| AStar.Search.Generate | pbnf/src/astar.cc:44-59 | a new, improved or worse child: afterwards the child's vertex is known at no more than the cost through its parent, and progress has been made unless nothing changed |
| AStar.Search.GetPath | pbnf/src/state.cc:115-133 | following parents ends at the start, zero-cost edges included, and lists a real walk |
| AStar.BestOpenIsBounded | pbnf/src/state.cc:43-55 | a goal of least f' is within the weight of every solution |
| AStar.TruncationIsHarmless | pbnf/src/state.cc:52-55 | cutting off the fixed-point product does not break the bound |
| AStar.FPrimeIsCutOff | pbnf/src/state.cc:52-55 | f' times fp_one is at most g times fp_one plus weight times h, by less than fp_one |
| AStar.OrderIsWeighted | pbnf/src/state.cc:52-55 | the order of f' is that of the weighted values, up to less than one |
| AStar.SolutionMeetsOpen | pbnf/src/astar.cc:35-63 | an open state lies on every solution, reached at no more than the solution pays |
| AStar.RecordKeepsParents | pbnf/src/state.cc:77-84 | updating a parent keeps the parent chains acyclic and explained |
| PriorityQueues.PriorityQueue.Add | pbnf/src/util/priority_queue.h:258-280 | adds exactly the element, keeps order and every stored index |
| PriorityQueues.PriorityQueue.Take | pbnf/src/util/priority_queue.h:285-308 | removes and returns an element that none precedes, its index set to -1; nothing on an empty queue |
| PriorityQueues.PriorityQueue.Remove | pbnf/src/util/priority_queue.h:313-331 | removes exactly the element at the index, keeps order and indexes |
| PriorityQueues.PriorityQueue.SeeUpdate | pbnf/src/util/priority_queue.h:336-349 | after one key has changed either way, order is restored with the same elements and right indexes |
| PriorityQueues.PriorityQueue.Resort | pbnf/src/util/priority_queue.h:443-458 | after any change of keys, order is restored with the same elements and right indexes |
| PriorityQueues.PriorityQueue.SiftUp | pbnf/src/util/priority_queue.h:186-201 | order then fails at most downwards, and not at all if it failed only upwards |
| PriorityQueues.PriorityQueue.TryPush | pbnf/src/util/priority_queue.h:211-236 | writing the element at the returned index restores order, though ties push it down |
| PriorityQueues.PriorityQueue.Reset | pbnf/src/util/priority_queue.h:376-388 | empties the queue and sets every stored index to -1 |
| HeapOrder.FrontIsFirst | pbnf/src/util/priority_queue.h:355-361 | for any strict weak order nothing in an ordered heap precedes its front |
| TileHash.HashIsPerfect | pbnf/src/tiles/tiles_state.cc:27-43 | two boards of the same size have the same hash if and only if they are equal |
| TileHash.RankInRange | pbnf/src/tiles/tiles_state.cc:35-42 | the hash of a board of n tiles is below n factorial |
| TileHash.DigitInRange | pbnf/src/tiles/tiles_state.cc:36-40 | the i-th digit is at most i |
| TileHash.MaskOfBits | pbnf/src/tiles/tiles_state.cc:37-38 | masking the bit set with the low k bits keeps the members below k |
| TileHash.OnesOfBits | pbnf/src/tiles/tiles_state.cc:38-39 | counting bits counts members |
| TileHash.Tables.ComputeHash | pbnf/src/tiles/tiles_state.cc:27-43 | the loop computes the rank; every table lookup is in range, no digit is negative, and up to 20 tiles neither the 32 bits of the set nor the 64 of the sum are exceeded at any turn |
| TileHash.WordsSuffice | pbnf/src/tiles/tiles_state.cc:29-41 | up to 20 tiles the set of tiles seen fits into 32 bits and the partial sum into 64 |
| TileHash.Tables.constructor | pbnf/src/tiles/tiles.cc:57-107 | the tables hold the bit counts up to 2^(n-1) and the factorials up to n |
| TileBoards.Grid.AdjacentIsSymmetric | pbnf/src/tiles/tiles.cc:187-226 | every move of the blank can be undone |
| TileBoards.ChildUndone | pbnf/src/tiles/tiles.cc:166-193 | the child that expand leaves out is the parent itself |
| TileBoards.Expand | pbnf/src/tiles/tiles.cc:180-229 | one child for every legal move but the one back, with the right board, cost and g, and no other |
| TileHeuristic.IncrementIsExact | pbnf/src/tiles/tiles.cc:365-377 | parent's value plus the moved tile's change is the full heuristic of the child |
| TileHeuristic.MoveChangesByCost | pbnf/src/tiles/tiles.cc:298-300 | a move changes the heuristic by exactly the cost of the tile moved, so it is consistent both ways |
| TileHeuristic.ManhattanIsAdmissible | pbnf/src/tiles/tiles.cc:349-359 | the heuristic is at most the cost of every sequence of moves that reaches the goal |
| TileHeuristic.ZeroOnlyAtGoal | pbnf/src/tiles/tiles_state.cc:65-69 | with positive tile costs the heuristic is zero exactly at the goal, as the constructor asserts |
| TileHeuristic.DistanceIsShortest | pbnf/src/tiles/tiles.cc:294-301 | the tabulated distance of two cells is the length of a shortest way from cell to adjacent cell |
| TileHeuristic.ManhattanDist.constructor | pbnf/src/tiles/tiles.cc:273-303 | the flat table holds distance to the goal position times cost for every tile and position |
| TileHeuristic.ManhattanDist.ComputeIncr | pbnf/src/tiles/tiles.cc:365-377 | the incremental value is the full heuristic of the child |
| TileHeuristic.ManhattanDist.Compute | pbnf/src/tiles/tiles.cc:327-344 | along any sequence of legal moves the stored value stays the full heuristic |
| TileProjection.ChildProjectsToNeighbour | pbnf/src/tiles/tiles.cc:435-474 | for any number of tracked tiles, the block of a child follows from its parent's block and the new blank |
| TileProjection.FollowsIsSymmetric | pbnf/src/tiles/tiles.cc:476-484 | for any number of tracked tiles, the neighbour relation of blocks is symmetric |
| TileProjection.SlideBack | pbnf/src/tiles/tiles.cc:991-1008 | sliding the blank back restores the block |
| TileProjection.LexCarry | pbnf/src/tiles/tiles.cc:526-533 | the end of an inner loop is, in the order of the tuples, the start of the next turn of the loop around it |
| TileProjection.StoreReaches | pbnf/src/tiles/tiles.cc:499-514 | a tuple without repetition that the loops come to has no number yet, and numbering it covers the tuples one further |
| TileProjection.ChildrenStayInScope | pbnf/src/pbnf_search.cc:117-121 | for any number of tracked tiles, every child of a board in block b lies in a listed neighbour of b |
| TileProjection.ProjectionIsWellFormed | pbnf/src/tiles/tiles.cc:476-484 | as successors and as predecessors the neighbour lists are converse and in range |
| TileProjection.NoBlockIsIsolated | pbnf/src/tiles/tiles.cc:435-474 | with a tile tracked, every block has a neighbour other than itself |
| TileProjection.MeetsSchedulerAssumptions | pbnf/src/pbnf/nblock.cc:41-71 | the scopes computed from such a projection are symmetric and none is empty, which is what the scheduler's theorems assume |
| TileProjects.OneTileProject.constructor | pbnf/src/tiles/tiles.cc:381-403 | the two nested loops number every block exactly once: proj and unproj are inverse, and the numbers fill the allocated array exactly |
| TileProjects.OneTileProject.Project | pbnf/src/tiles/tiles.cc:410-428 | the number returned is that of the positions of the blank and tile 1 |
| TileProjects.OneTileProject.GetNeighbors | pbnf/src/tiles/tiles.cc:435-474 | the list holds exactly the numbers of the blocks reachable by one move |
| TileProjects.TwoTileProject.constructor | pbnf/src/tiles/tiles.cc:516-534 | the three nested loops number every block exactly once: proj and unproj are inverse, and the numbers fill the allocated array exactly |
| TileProjects.TwoTileProject.Project | pbnf/src/tiles/tiles.cc:541-564 | the number returned is that of the positions of the blank and tiles 1 and 2 |
| TileProjects.TwoTileProject.GetNeighbors | pbnf/src/tiles/tiles.cc:571-619 | the list holds exactly the numbers of the blocks reachable by one move |
| TileProjects.ThreeTileProject.constructor | pbnf/src/tiles/tiles.cc:925-946 | the four nested loops number every block exactly once: proj and unproj are inverse, and the numbers fill the allocated array exactly |
| TileProjects.ThreeTileProject.Project | pbnf/src/tiles/tiles.cc:953-982 | the number returned is that of the positions of the blank and tiles 1 to 3 |
| TileProjects.ThreeTileProject.GetNeighbor | pbnf/src/tiles/tiles.cc:991-1008 | the chain of tests finds the block after the blank has moved |
| TileProjects.ThreeTileProject.GetNeighbors | pbnf/src/tiles/tiles.cc:1011-1040 | the list holds exactly the numbers of the blocks reachable by one move |
| WeightedGraph.Map.AdjIsValid | src/shared/weighted_graph.hpp:47-67 | the eight-way graph is well formed and its weights positive |
| WeightedGraph.Map.AdjIsSymmetric | src/shared/weighted_graph.hpp:42-44 | every edge can be taken back at the same cost |
| WeightedGraph.Map.EdgesAreTouching | src/shared/weighted_graph.hpp:42-67 | the neighbours of a vertex are exactly the vertices in the eight cells around it, at 10000 in the same row or column and 14142 across a corner |
| WeightedGraph.Map.WeightOfEdge | src/shared/weighted_graph.hpp:220-235 | on every edge weight_between gives the stored weight, in both directions |
| WeightedGraph.Graph.PopulateNeighbors | src/shared/weighted_graph.hpp:47-67 | between consecutive offsets lies exactly the neighbour list of each vertex |
| WeightedGraph.Graph.Pathlen | src/shared/weighted_graph.hpp:237-252 | from a discovered vertex the loop ends at the source, and the length is the cost of the walk along the predecessors, of which there is exactly one, and at most the recorded distance |
| WeightedGraph.ChainIsUnique | src/shared/weighted_graph.hpp:237-252 | there is only one walk from the source along the predecessors |
| WeightedGraph.GridIsWellPosed | src/shared/weighted_graph.hpp:47-67 | a grid graph meets what the PWSA theorems ask of a graph |

## Left out

- Weak memory: every atomic access is sequentially consistent, and the fences the deque's comments ask for are not modelled.
- Machine integers: overflow of distances, of the 64-bit fixed-point product and of heap indexes; for the tile hash the words are shown to suffice up to 20 tiles.
- The two stores that publish a grown deque buffer and its capacity are one action; the source performs them one after the other without synchronisation.
- ChaseLevDeque.Deque.PopFront: a thief that has looked into the wrong cell takes no further step; the source goes on with whatever was there.
- Fairness: that a spinning, waiting or retrying thread is scheduled again, and that `try_lock` succeeds in the end; that HDA* can always go on is `HdaProgress.NeverStuck`, and ending is proved for IDA*, A*, `pathlen` and the loops of the heaps only.
- A failed `try_lock` in the PBNF scheduler and in the message buffers is a step that changes nothing and is not listed as an action of its own.
- PbnfGraph.NBlockGraph.Front: the free list is a sequence from which a block of least value is chosen, not the heap itself, whose behaviour is proved in `PriorityQueues.dfy`.
- PbnfGraph.NBlockGraph.Search: here an open list is represented by its least f', and the test best_value >= bound * weight by any test that is monotone in both arguments; the floating-point product is one.
- PbnfGraph.NBlockGraph.SetPath: of what other workers do meanwhile only their lowering of the bound is modelled, since nothing else is read.
- PbnfOptimality.FinalBoundIsOptimal: a search that ends at a goal child counts as one if no child after a goal child promises less; the other half is shown by an example only, since a dropped child may still be found by another way.
- PbnfOptimality.Run: a search of a block is one step, because the scopes of blocks in use are disjoint (`NBlockRuns.ScopesNeverOverlap`); the bound a search reads may be lower than at its start, but not higher.
- PwsaWorkers.Workers.Run: a bound on how often a worker looks again, which it uses up before it gives up, stands in for the endless loops; what a worker that reaches the bound leaves behind is what one leaves that is never scheduled again.
- PwsaStealing.SplitIsSafe: the frontier is a multiset here; that the heap's split really takes such a part of it is `BinHeap.Heap.Split`.
- PwsaWorkers.Workers.AcquireWork: a single worker has no other to draw at random; it takes no further step there.
- The child that `expand` leaves out because it is the parent is modelled for IDA*, A* and the tiles; for HDA* and PBNF every child is generated.
- HDA*: states are identified with their hash values, which `TileHash.HashIsPerfect` justifies for tiles; the solution stream keeps the cheapest path only.
- HdaModel.Enabled: a thread may take any of its open states; that the source takes one of least f' matters to speed only.
- AStar.Search.Take: picks any state of least f'; ties are not modelled, and the heap that finds it is `PriorityQueues.PriorityQueue.Take`.
- PriorityQueues.PriorityQueue.Put: the source's `add` asks nothing of the stored indexes of other elements; `Add` is `Put` with that knowledge.
- WeightedGraph.Graph.Pathlen: the destination must have been discovered; otherwise the source reads a predecessor of -1.
- Reading maps and boards, timers, statistics, pebbles, EPS output, and the exit on an error in `weight_between`, which is a result here.
- `LifeGraph`, `CoarseProject`, `TwoTileNoBlankProject`, and the third function `pwsa`, which overwrites predecessors without comparing distances.
- ARA*, Optimistic search, OPBNF, ARPBNF, wPRA*, KBFS, PAStar, PSDD, BFPSDD and the PASL scheduler.
