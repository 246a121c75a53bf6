# Verified models of the lock-free queue and the fastText core

This project states, in Dafny, how two parts of the server work and proves what they are for.

**The queue** (`server/moodycamel`). `concurrentqueue.h` is a collection of lock-free protocols, and each is a state
machine here: a shared state, a program counter for each of any number of threads, and one step for each atomic load,
store, `fetch_add` or compare-and-swap. A theorem about `run[i]` is a theorem about every interleaving.

| files | subject |
|---|---|
| `FreeList`, `FreeListTheorems` | the reference-counted CAS stack |
| `Tickets`, `TicketTheorems`, `TicketWraps` | optimistic tickets, `dequeueOvercommit`, claims on `headIndex`, and their comparisons on machine words |
| `BlockIndex`, `BlockIndexInvariant`, `Modular`, `WrapAround` | the power-of-two ring of index entries on unbounded indices, and the machine words that stand for these |
| `ImplicitProducer`, `ImplicitSteps`, `ImplicitTheorems`, `LookupWraps` | the implicit producer: blocks, elements, lookups racing with insertion, rewinding and doubling, freeing |
| `SubQueue`, `RecycleOnce` | tickets and storage together, and when blocks are given back once |
| `BlockPool`, `QueueBlocks` | initial pool, free list and allocation, on top of `FreeList`; the pool together with any number of sub-queues |
| `ProducerHash`, `ProducerHashTheorems` | the table of producers by thread |
| `Semaphore`, `SemaphoreTheorems`, `BlockingQueue` | the user-space count over a kernel semaphore, and the queue that pairs it with the inner queue |

Some states carry auxiliary components that no step reads (what became of each ticket, where each node or block is, what
has been taken); they say what the counters mean.

**The discrete core of fastText** (`server/fastText/src`). Here classes, arrays and loops follow the source, and each
method is tied to a function whose properties are then proved.

| files | subject |
|---|---|
| `CodeTrees`, `Huffman`, `HuffmanOptimality`, `HuffmanCodes`, `HierarchicalSoftmax` | the two-queue Huffman construction on a flat array, its optimality, its codes |
| `Predictions`, `TopK`, `BranchAndBound` | the prediction heap, `findKBest`, branch and bound over the tree |
| `Subwords`, `Vocabulary`, `Pruning`, `Dictionary`, `Quantization` | n-grams and hashes, what a dictionary means, the linear-probing index, reading, pruning, the cutoff |
| `RealSums`, `ProductCodes`, `KMeansTheory`, `ClusterRepair`, `KMeans` | the product quantizer and a round of k-means |

`Options` and `Sums` hold shared definitions. The parts meet where the source lets them meet: `EntryOrder.CountsDescend`
supplies the order that `BuildTree` needs, and `Quantization.CutOff` composes selection, pruning and the row copy.

Three results say exactly when the code does what it is for. `TicketTheorems.AskForSomething`: a thread whose bulk
dequeue has a maximum of zero may look up an index that holds no element, and a thread that asks for something never
does. `RecycleOnce.OnceExactlyWhenAsking`: a dequeue that asks for nothing may give back a block that another dequeuer has
just completed and is giving back too; with every call asking for something no block is given back twice.
`Pruning.PruneKeepsMeaningExactly`: with a negative `maxn` words in the vocabulary have no subwords and other words have
unlimited ones, so pruning a word changes what a line means, unless no n-gram is possible anyway or every token is a
label.

## Model

| member | source | states |
|---|---|---|
| FreeListInvariant.StepKeepsInv | server/moodycamel/concurrentqueue.h:1459-1538 | Every atomic step of `add`, `try_get` and `add_knowing_refcount_is_zero`, by any thread in any state of the others, keeps the invariant: each node in exactly one place, the chain from `freeListHead` finite and without repetition, each reference word equal to live readers plus the list's reference. |
| FreeListTheorems.RunKeepsInv | server/moodycamel/concurrentqueue.h:1459-1538 | The invariant holds in every state of every run, for any number of threads and nodes. |
| FreeListTheorems.Exclusive | server/moodycamel/concurrentqueue.h:1459-1538 | Nodes that threads are adding, pushing or have popped are pairwise different, and none of them, nor any held or flagged node, is on the list. |
| FreeListTheorems.SavedNextIsValid | server/moodycamel/concurrentqueue.h:1487-1490 | While a reader holds its reference the `next` it saved is the node's; if the node is still the head it is the rest of the list, so the pop cannot suffer from ABA. |
| FreeListTheorems.PoppedIsNotFlagged | server/moodycamel/concurrentqueue.h:1491-1496 | The assertion after a pop: the flag is clear, and there are two references to drop. |
| FreeListTheorems.WordIsReadersPlusList | server/moodycamel/concurrentqueue.h:1466-1469 | The reference word is always the number of live readers plus the list's own reference, with the flag on top, and fits 32 bits. |
| FreeListTheorems.NoWrap | server/moodycamel/concurrentqueue.h:1466-1532 | No decrement goes below zero and no increment carries into the flag. |
| FreeListTheorems.FlaggedHasObligedReader | server/moodycamel/concurrentqueue.h:1500-1506 | A flagged node always has a thread that still has to drop a reference and, if last, to push the node. |
| FreeListTheorems.RestPartition | server/moodycamel/concurrentqueue.h:1459-1538 | With no operation in flight each node is held and unreferenced, or on the list with exactly one reference. |
| FreeListTheorems.HandedOutOnce | server/moodycamel/concurrentqueue.h:1473-1510 | Between two hand-outs of a node, in any run, some thread has added it: no node goes to two callers. |
| FreeListTheorems.AddedIsListed | server/moodycamel/concurrentqueue.h:1459-1471 | A node added and not handed out since is on the list reached from `freeListHead` once nothing is in flight. |
| FreeListTheorems.NullMeansEmpty | server/moodycamel/concurrentqueue.h:1478-1509 | `try_get` returns null only if the list was empty at some point during that very call. |
| FreeListTheorems.GetAlone | server/moodycamel/concurrentqueue.h:1473-1510 | A thread running by itself, whatever the others were doing, pops exactly the first node. |
| FreeListTheorems.AddAlone | server/moodycamel/concurrentqueue.h:1459-1471 | `add` by itself pushes a node without readers in front of the list, and otherwise leaves it to its last reader. |
| FreeListTheorems.LastReaderCompletesAdd | server/moodycamel/concurrentqueue.h:1503-1506 | The last reader of a flagged node puts it on the list, completing the `add` that another thread began. |
| TicketInvariant.ClaimsStayBelowTail | server/moodycamel/concurrentqueue.h:2799-2801 | Though `overcommit` is read stale, `headIndex` never passes `tailIndex`, and a claim about to be made stays within what was published. |
| TicketInvariant.StepKeepsInv | server/moodycamel/concurrentqueue.h:1954-2048 | Every step of enqueue, `dequeue` and `dequeue_bulk` of the explicit and the implicit producer keeps the ticket invariant. |
| TicketTheorems.RunKeepsInv | server/moodycamel/concurrentqueue.h:2247-2337 | The ticket invariant, with its link from each granted ticket to enough returned ones, holds in every state of every run with any number of threads. |
| TicketTheorems.DeliveredIsPrefix | server/moodycamel/concurrentqueue.h:2779-2876 | What the claims hand out, in the order of the claims, is exactly the first `headIndex` items enqueued: first in first out, nothing lost, nothing twice. |
| TicketTheorems.SlotsAreExclusive | server/moodycamel/concurrentqueue.h:2247-2337 | No two threads are ever at work on the same slot, and every slot at work was published. |
| TicketTheorems.CountersReconcile | server/moodycamel/concurrentqueue.h:2550-2616 | `dequeueOptimisticCount` = `headIndex` + `dequeueOvercommit` + tickets in flight, always; so the counters reconcile when no ticket is in flight. |
| TicketTheorems.DequeueAlone | server/moodycamel/concurrentqueue.h:2779-2801 | A dequeue running alone takes as many items as there are, up to its maximum, and on an empty queue touches no counter. |
| TicketTheorems.AskForSomething | server/moodycamel/concurrentqueue.h:2780-2806 | The index that a bulk dequeue looks up first is an element's in every run, whatever other threads ask for, if and only if the calls of its own thread so far asked for at least one: a call with a maximum of zero can look up an index nobody has enqueued. |
| BlockIndexInvariant.LookupIsSlot | server/moodycamel/concurrentqueue.h:2948-2964 | From any key found in place, the division and masking compute the slot of the very block asked for. |
| BlockIndexInvariant.InsertKeyLive | server/moodycamel/concurrentqueue.h:2907-2914 | A free entry ahead of the tail means all live blocks are less than one turn behind the new one: a slot is never reused while an older block is live. |
| BlockIndexInvariant.StoreValueLive | server/moodycamel/concurrentqueue.h:2599-2607 | Clearing or filling the entry of a block that is not live disturbs no live block's entry. |
| BlockIndexInvariant.GrowKeepsTurn | server/moodycamel/concurrentqueue.h:2982-3003 | Within one turn behind the tail the doubled array leads to the same entries as the old one, so lookups through either agree. |
| BlockIndexInvariant.GrowLive | server/moodycamel/concurrentqueue.h:2966-3008 | Doubling keeps every live block in the index. |
| BlockIndexInvariant.GrowMakesRoom | server/moodycamel/concurrentqueue.h:2924-2931 | The assertion after doubling: the entry after the tail has never been used. |
| BlockIndexInvariant.RewindInv | server/moodycamel/concurrentqueue.h:2935-2939 | Taking back the tail after a failed block allocation keeps the ring's invariant. |
| BlockIndex.CopyIndex | server/moodycamel/concurrentqueue.h:2982-2991 | The copying loop makes exactly the old index rotated to start behind its tail. |
| ImplicitConsumer.KeyStep | server/moodycamel/concurrentqueue.h:2953-2963 | A lookup racing with insertions, rewinds and doubling never meets an unused tail key. |
| ImplicitConsumer.ValueStep | server/moodycamel/concurrentqueue.h:2961-2962 | The entry it computes carries the block's own key and that block, non-null. |
| ImplicitConsumer.MoveStep | server/moodycamel/concurrentqueue.h:2815-2820 | Each move delivers exactly the item enqueued at that index. |
| ImplicitConsumer.ConsumeKeepsInv | server/moodycamel/concurrentqueue.h:2550-2616 | Every step of a consumer keeps the joint invariant of index, blocks, elements and pool. |
| ImplicitEnqueue.GrowIndexStep | server/moodycamel/concurrentqueue.h:2966-3008 | Doubling the index while consumers are in the middle of lookups through older arrays keeps the joint invariant. |
| ImplicitEnqueue.PUndoNullStep | server/moodycamel/concurrentqueue.h:2661-2680 | Undoing an insertion of a failed bulk enqueue keeps the joint invariant, with consumers still reading. |
| ImplicitEnqueue.PPublishStep | server/moodycamel/concurrentqueue.h:2487-2547 | Publishing the tail after constructing the elements keeps the joint invariant. |
| ImplicitEnqueue.StepKeepsInv | server/moodycamel/concurrentqueue.h:2487-2876 | Every step of `enqueue`, `enqueue_bulk`, `dequeue` and `dequeue_bulk`, and anything others do to pool blocks, keeps the joint invariant, claims being of at least one element. |
| ImplicitTheorems.RunKeepsInv | server/moodycamel/concurrentqueue.h:2487-2876 | The joint invariant holds in every state of every run of one producer, any consumers with claims of at least one element, index growth and failed allocations. |
| ImplicitTheorems.LookupIsRight | server/moodycamel/concurrentqueue.h:2948-2964 | In every reachable state a lookup of a claimed unfinished index returns the entry with that block's key and a block, and the block holds the element. |
| ImplicitTheorems.FreshEntryIsDead | server/moodycamel/concurrentqueue.h:2907-2931 | The entry about to get a new key is no live block's entry in any array that a lookup may go through; storing the key leaves every such lookup as it was, and every live block less than a turn behind the new one. |
| ImplicitTheorems.DeliveredAsEnqueued | server/moodycamel/concurrentqueue.h:2550-2616 | Every value moved out is the one enqueued at that index. |
| ImplicitTheorems.TakenOnce | server/moodycamel/concurrentqueue.h:2779-2876 | No element is moved out twice or forgotten. |
| ImplicitTheorems.FreedWhenEmpty | server/moodycamel/concurrentqueue.h:1597-1633 | The dequeuer whose count completes a block finds all BLOCK_SIZE elements of it moved out and counted, and nobody else gets to free it (`BlockIsSomewhere`). |
| ImplicitTheorems.BlockIsSomewhere | server/moodycamel/concurrentqueue.h:2857-2866 | A block is always in exactly one place (pool, in transit, installed for one block number, being freed by one consumer), and who the place names has it. |
| ImplicitTheorems.InHandIsTransit | server/moodycamel/concurrentqueue.h:2508-2530 | Blocks the producer has requisitioned and not installed are nobody else's. |
| ImplicitTheorems.TailNearHead | server/moodycamel/concurrentqueue.h:2493-2495 | The guard of enqueue keeps `tailIndex` less than half the index range ahead of `headIndex`. |
| ImplicitTheorems.OnlyPublishAppends | server/moodycamel/concurrentqueue.h:2540-2546 | Elements become visible all at once, when the tail is published, and by no other step. |
| ImplicitTheorems.FailureLeavesNothing | server/moodycamel/concurrentqueue.h:2661-2680 | A failed call leaves no unpublished block in the index, the tail entry where it was, and all its blocks on the way back to the pool. |
| ImplicitTheorems.NobodyIsStuck | server/moodycamel/concurrentqueue.h:2487-2876 | Every step of a thread at work changes where it is; a failed lookup, claim or free would leave it where it was, so none occurs. |
| ImplicitTheorems.RestIsExact | server/moodycamel/concurrentqueue.h:2487-2876 | At rest exactly the claimed elements have been delivered, and the installed blocks are exactly those with an unclaimed element. |
| SubQueue.ClaimIsHonoured | server/moodycamel/concurrentqueue.h:2558-2565 | The ticket protocol alone guarantees what the storage demands of a claim. |
| SubQueue.NoClaimIsRefused | server/moodycamel/concurrentqueue.h:2780-2806 | In every run of tickets and storage together no claim exceeds what is stored, not even when some calls ask for nothing. |
| SubQueue.DequeueReturnsItsItems | server/moodycamel/concurrentqueue.h:2779-2876 | A dequeue about to return has moved out exactly the items enqueued at the indices it claimed, in every run whose calls ask for something. |
| RecycleOnce.OnceExactlyWhenAsking | server/moodycamel/concurrentqueue.h:1614-1633 | No two dequeuers ever give back the same block, in every run of tickets and storage, if and only if all calls ask for at least one element; the run of a call that asks for none and frees a block somebody else has just completed is given in full. |
| RecycleOnce.AskingFreesOnce | server/moodycamel/concurrentqueue.h:2857-2866 | In runs whose calls ask for something, a block is given back by one dequeuer only. |
| RecycleOnce.FreedTwice | server/moodycamel/concurrentqueue.h:2780-2866 | A reachable state in which a dequeuer that asked for nothing and one that emptied the block are both about to free it. |
| BlockPool.BlockIsInOnePlace | server/moodycamel/concurrentqueue.h:3056-3114 | Every block is always in exactly one of: unissued pool, care of the free list, hands of one thread or producer. |
| BlockPool.HolderKeepsBlock | server/moodycamel/concurrentqueue.h:3096-3114 | Requisitions, however they interleave, never take a block that is in use. |
| BlockPool.RestIsConserved | server/moodycamel/concurrentqueue.h:3067-3092 | With no thread at work, every issued block that is not in use is on the free list. |
| QueueBlocks.EveryBlockIsInOnePlace | server/moodycamel/concurrentqueue.h:3056-3114 | In every run of the pool and any number of sub-queues together, each block is always in exactly one of: unissued pool, care of the free list, hands of one thread, one sub-queue. |
| QueueBlocks.NobodyElseFrees | server/moodycamel/concurrentqueue.h:2599-2607 | No block is being freed by two dequeuers, be they in the same sub-queue or in different ones. |
| QueueBlocks.NoBlockIsRefused | server/moodycamel/concurrentqueue.h:2857-2866 | A block that a sub-queue gives back is always its own in the pool's books, and goes into the hands of the thread that gives it back. |
| QueueBlocks.NothingIsLost | server/moodycamel/concurrentqueue.h:3067-3103 | With no thread at work in the pool, every issued block that no thread and no sub-queue has is on the free list. |
| QueueBlocks.StepKeepsInv | server/moodycamel/concurrentqueue.h:2508-2541 | Every step of the pool and of every sub-queue keeps pool and sub-queues agreeing about who has which block. |
| ProducerHashInvariant.FewCommit | server/moodycamel/concurrentqueue.h:3451-3499 | Whatever the interleaving of `fetch_add`s and `fetch_sub`s on the counter, fewer than `limit` threads commit with a ticket below `limit`. |
| ProducerHashInvariant.StepKeepsInv | server/moodycamel/concurrentqueue.h:3388-3533 | Every step of a lookup, a lazy re-add, an insertion and a table growth keeps the invariant. |
| ProducerHashTheorems.AlwaysRoom | server/moodycamel/concurrentqueue.h:3412-3421 | Every table always has a free slot. |
| ProducerHashTheorems.ProbesEnd | server/moodycamel/concurrentqueue.h:3412-3448 | Every probe loop ends within one turn of its table. |
| ProducerHashTheorems.NeverShared | server/moodycamel/concurrentqueue.h:3388-3533 | Two threads never get the same producer. |
| ProducerHashTheorems.SameProducer | server/moodycamel/concurrentqueue.h:3394-3396 | A thread always gets the same producer back. |
| WrapAround.CircularLessIsExact | server/moodycamel/concurrentqueue.h:476-483 | For indices less than a whole range apart, `circular_less_than` on machine words answers as on true indices exactly when the first is at most half a range ahead and less than half a range behind. |
| WrapAround.EnqueueGuard | server/moodycamel/concurrentqueue.h:2495-2497 | The guard refuses exactly when the new block would end half a range or more ahead of the head. |
| WrapAround.BaseMask | server/moodycamel/concurrentqueue.h:2953 | Masking a wrapped index gives the wrapped base of its block and the same cell. |
| WrapAround.NeverInvalid | server/moodycamel/concurrentqueue.h:2883 | No block base wraps to the key of unused entries. |
| WrapAround.KeysTellBlocksApart | server/moodycamel/concurrentqueue.h:2956-2962 | Wrapped keys are equal exactly when the block numbers are, within a range. |
| WrapAround.SignedDifference | server/moodycamel/concurrentqueue.h:2960 | The signed reading of a wrapped difference is the true difference. |
| WrapAround.LookupAgrees | server/moodycamel/concurrentqueue.h:2953-2963 | Signed division, addition as `size_t` and ring mask on machine words give the slot computed on true indices, however often these wrap. |
| WrapAround.PositiveDifference | server/moodycamel/concurrentqueue.h:2785-2793 | Comparing zero with a wrapped difference tells whether it is positive. |
| LookupWraps.StepKeepsNear | server/moodycamel/concurrentqueue.h:2948-2964 | However long a reader is held up between its loads, the key it measures from stands for its block or one less than a turn newer; every step of every thread keeps that. |
| LookupWraps.LookupsWrap | server/moodycamel/concurrentqueue.h:2953-2963 | In every run the lookup of the implicit producer computes on machine words the slot it computes on true indices, as long as the blocks of one turn of the index stay within half the range of a word. |
| TicketWraps.FirstCheckWraps | server/moodycamel/concurrentqueue.h:2550-2556 | What is desired, from stale loads, is never more than the queue holds; while that is below half a range and so are the tickets out, the comparisons of `dequeue` and `dequeue_bulk` on machine words take the true branch. |
| TicketWraps.SecondCheckWraps | server/moodycamel/concurrentqueue.h:2790-2794 | In every run the comparison on the tail read again takes the true branch, as long as what the queue holds and the tickets drawn by anybody since the call began are together less than half a range. |
| SemaphoreInvariant.StepKeepsInv | server/moodycamel/lightweightsemaphore.h:278-418 | Every step of every wait, timeout, undo, bulk wait and signal keeps: waiters = max(0, -`m_count`) + kernel permits + releases to be posted, and the permit balance. |
| SemaphoreTheorems.RunKeepsInv | server/moodycamel/lightweightsemaphore.h:278-418 | The waiter count and the permit balance hold in every state of every run, whatever the mix of operations. |
| SemaphoreTheorems.NoOverAcquisition | server/moodycamel/lightweightsemaphore.h:278-390 | Permits acquired never exceed the initial ones plus those signalled. |
| SemaphoreTheorems.NoLostWakeup | server/moodycamel/lightweightsemaphore.h:292-298 | If a thread sleeps in the kernel with nothing posted or about to be, every permit has been acquired. |
| SemaphoreTheorems.UndoHasAWayOut | server/moodycamel/lightweightsemaphore.h:299-311 | The undo loop after a timeout always has a way out: a waiter still to take back, or a permit in the kernel or on its way. |
| SemaphoreTheorems.RestIsExact | server/moodycamel/lightweightsemaphore.h:357-418 | At rest the kernel holds nothing and `m_count` is exactly the permits not acquired: undone timeouts leak and steal nothing. |
| SemaphoreTheorems.WaitReturns | server/moodycamel/lightweightsemaphore.h:314-348 | A wait returns at most its maximum, and nothing only if it asked for nothing, did not mean to wait or gave up. |
| SemaphoreTheorems.UntimedReturnsSome | server/moodycamel/lightweightsemaphore.h:393-407 | In every run an untimed bulk wait returns between one and its maximum, except that it returns nothing exactly when the maximum is zero or it gave up, and it gives up only after its own kernel wait failed in that call. |
| BlockingQueue.StepKeepsInv | server/moodycamel/blockingconcurrentqueue.h:123-202 | Pairing every enqueue with a signal and every wait with dequeues keeps: queue size = permits + permits held by consumers without an item + enqueues not yet signalled. |
| BlockingQueue.RunKeepsInv | server/moodycamel/blockingconcurrentqueue.h:294-518 | The balance of elements and permits holds in every state of every run. |
| BlockingQueue.PermitImpliesElement | server/moodycamel/blockingconcurrentqueue.h:359-386 | A consumer in the loop after its wait finds elements for itself and for all other consumers there. |
| BlockingQueue.RestIsExact | server/moodycamel/blockingconcurrentqueue.h:294-350 | At rest the queue holds exactly `m_count` elements, so trying to dequeue finds one exactly when there is one. |
| BlockingQueue.SleeperMeansEmpty | server/moodycamel/blockingconcurrentqueue.h:359-386 | Nobody sleeps while an element that nobody is fetching is fully enqueued. |
| HierarchicalSoftmax.HierarchicalSoftmaxLoss.constructor | server/fastText/src/loss.cc:192-201 | The loss is built with paths and codes of the tree, of least weighted length when the counts descend. |
| HierarchicalSoftmax.HierarchicalSoftmaxLoss.BuildTree | server/fastText/src/loss.cc:203-245 | For counts in descending order no binary tree on the same leaves has a smaller sum of count times depth; paths and codes are those of the parent chains. |
| HierarchicalSoftmax.HierarchicalSoftmaxLoss.MergeAll | server/fastText/src/loss.cc:215-232 | The two-queue loop builds one tree over all leaves that is optimal among all binary trees on them. |
| HierarchicalSoftmax.HierarchicalSoftmaxLoss.ReadPath | server/fastText/src/loss.cc:234-241 | The walk from a leaf upwards ends at the root and reads the leaf's path and code. |
| HuffmanOptimality.PickIsLightest | server/fastText/src/loss.cc:220-224 | Each pick takes a lightest root, and what is left in both queues is no lighter: internal counts come in ascending order. |
| HuffmanOptimality.GreedyStep | server/fastText/src/loss.cc:217-232 | A turn of the loop merges the two lightest roots and keeps every cheaper completion possible. |
| HuffmanOptimality.OneRootIsOptimal | server/fastText/src/loss.cc:217-232 | When one root is left its tree costs no more than any tree on the same leaves. |
| CodeTrees.LightestAtBottom | server/fastText/src/loss.cc:218-225 | Exchange argument: any tree is matched by one with the two lightest leaves as siblings at the bottom. |
| CodeTrees.Reduce | server/fastText/src/loss.cc:226-228 | Any tree yields one on the merged leaves that is cheaper by the merged counts. |
| Huffman.MergeKeeps | server/fastText/src/loss.cc:217-232 | Each merge keeps the forest in the flat array well formed: children below parents, every node with at most one parent, queues in range. |
| HuffmanCodes.PathsRunToTheRoot | server/fastText/src/loss.cc:237-241 | Every parent chain runs through rows `0 .. osz - 1` exclusive and ends at node `2 * osz - 2`. |
| HuffmanCodes.CodeLeadsThere | server/fastText/src/loss.cc:296-300 | Following leaf i's code from the root reaches i across exactly the rows of its path: `forward` uses what `dfs` crosses. |
| HuffmanCodes.PrefixFree | server/fastText/src/loss.cc:237-241 | No leaf's code is a prefix of another's. |
| HuffmanCodes.KraftEquality | server/fastText/src/loss.cc:237-241 | The sum of two to the minus code length is one. |
| HuffmanCodes.ProbabilitiesSumToOne | server/fastText/src/loss.cc:247-261 | For any node probabilities the leaf probabilities sum to one. |
| HuffmanCodes.CostIsWeightedLength | server/fastText/src/loss.cc:226-244 | The cost of the built tree is the sum of count times code length. |
| HuffmanCodes.CountsAreBounded | server/fastText/src/loss.cc:228 | No node counts more than all leaves together, so 64 bits are enough whenever the total fits. |
| BranchAndBound.Dfs | server/fastText/src/loss.cc:272-301 | Below any node the search keeps at most k leaves; each leaf it loses scores no more than the larger of the least kept and the floor, plus the slack of its path. |
| BranchAndBound.Predict | server/fastText/src/loss.cc:263-270 | From the root: at most k labels, best first, each with its own path score; every omitted label scores at most the k-th or the threshold plus depth times eps. |
| BranchAndBound.BelowIsBounded | server/fastText/src/loss.cc:279-284 | No leaf below a node beats the node's score by more than eps an edge, which justifies the cut. |
| BranchAndBound.RootFindsAll | server/fastText/src/loss.cc:263-270 | From the root every label is found exactly once, with the score of its own path. |
| BranchAndBound.ExactWithoutSlack | server/fastText/src/loss.cc:263-301 | With eps = 0 the result is the best k labels that reach the threshold. |
| BranchAndBound.SameScoresAsExhaustive | server/fastText/src/loss.cc:263-301 | With eps = 0 the scores are exactly those of any exhaustive search of the same labels. |
| TopK.FindKBest | server/fastText/src/loss.cc:74-93 | `findKBest` ends with the best k outputs that reach the threshold, for any increasing logarithm. |
| TopK.BestScoresAreUnique | server/fastText/src/loss.cc:74-93 | The scores of the best k do not depend on how ties are broken. |
| Dictionaries.Dictionary.Find | server/fastText/src/dictionary.cc:49-56 | `find` ends, at the word's slot or at a free slot, and then the word is nowhere in the index. |
| Dictionaries.Dictionary.GetId | server/fastText/src/dictionary.cc:129-137 | `getId` is the unique position of the word in `words_`, or -1. |
| Dictionaries.Dictionary.Add | server/fastText/src/dictionary.cc:58-71 | `add` counts one more occurrence of the word, or appends it, and changes no other entry; the index stays right. |
| Dictionaries.Dictionary.Threshold | server/fastText/src/dictionary.cc:261-292 | Exactly the frequent entries stay, sorted, words before labels, indexed anew. |
| Dictionaries.Dictionary.ReadFromFile | server/fastText/src/dictionary.cc:234-259 | The size stays at most three quarters of the table, so every probe ends; counts never exceed the corpus' tallies, and they are exactly those of the frequent entries whenever the different tokens fit three quarters of the table, which is when it is never thinned out. |
| Dictionaries.Dictionary.ComputeSubwords | server/fastText/src/dictionary.cc:172-195 | The byte loops push exactly the rows of the word's n-grams, in order. |
| Dictionaries.Dictionary.InitNgrams | server/fastText/src/dictionary.cc:197-206 | Every entry gets its own row and its subwords' rows. |
| Dictionaries.Dictionary.AddWordNgrams | server/fastText/src/dictionary.cc:312-323 | The rows of the runs of up to `wordNgrams` words, with 64-bit wrap-around. |
| Dictionaries.Dictionary.GetLine | server/fastText/src/dictionary.cc:383-412 | Rows and labels of a line are those of its tokens up to the end of the sentence, then those of the word n-grams. |
| Dictionaries.Dictionary.Prune | server/fastText/src/dictionary.cc:540-577 | In place, the kept words stay in order, labels follow, kept n-gram rows are renumbered so that `idx[new] = old`, and the index stays right. |
| Dictionaries.Dictionary.Load | server/fastText/src/dictionary.cc:525-533 | The table rebuilt on load indexes exactly the loaded entries and has a free slot, unless there are no entries. |
| ProbeTable.SearchEnds | server/fastText/src/dictionary.cc:52-54 | A probe sequence meets a free slot before it comes round. |
| ProbeTable.SearchIsRight | server/fastText/src/dictionary.cc:49-56 | A search that stops at a free slot proves that the word is not indexed. |
| ProbeTable.InsertKeeps | server/fastText/src/dictionary.cc:65-67 | Filling the slot where a search stopped keeps every word findable. |
| EntryOrder.SortedWordsFirst | server/fastText/src/dictionary.cc:261-267 | Sorted entries have all words before all labels. |
| EntryOrder.ThresholdCounts | server/fastText/src/dictionary.cc:268-276 | Thresholding keeps the count of each frequent word and makes that of every other zero. |
| EntryOrder.CountsDescend | server/fastText/src/dictionary.cc:302-310 | `getCounts` after `threshold` is descending, which is what the Huffman construction needs. |
| Subwords.NgramsAre | server/fastText/src/dictionary.cc:172-195 | The n-grams found are exactly the runs of `minn` to `maxn` whole UTF-8 characters, without the lone first and last. |
| Subwords.ComputeHash | server/fastText/src/dictionary.cc:163-170 | The loop computes the 32-bit hash with sign-extended bytes. |
| Pruning.PruneKeepsLines | server/fastText/src/dictionary.cc:540-577 | For any tokens, the rows of `getLine` after `prune` are those before with dropped rows left out and kept rows renamed so that `idx[new] = old`, in order; the labels are the same. |
| Pruning.LineLabelsNameTheSame | server/fastText/src/dictionary.cc:473-479 | The labels of any line, before and after `prune`, are valid and name the same texts. |
| Pruning.PruneKeepsMeaningExactly | server/fastText/src/dictionary.cc:334-345 | Pruning keeps every line of every dictionary if and only if `maxn` is not negative, or smaller than `minn` as the `size_t`s they are compared as, or the label prefix is empty. |
| Pruning.SameVectors | server/fastText/src/fasttext.cc:337-347 | With the rows copied, a line reads exactly the vectors of its kept rows, in order. |
| Quantization.SelectEmbeddings | server/fastText/src/fasttext.cc:305-321 | Exactly `cutoff` different rows are kept, the end-of-sentence row among them, and no other kept row has a smaller norm than a dropped one. |
| Quantization.CopyRows | server/fastText/src/fasttext.cc:340-346 | Row i of the new matrix is row `idx[i]` of the old one. |
| Quantization.CutOff | server/fastText/src/fasttext.cc:337-347 | Selection, pruning and row copy together: every line reads the same labels and the same vectors for its kept rows as before. |
| ProductCodes.RegionsAreDisjoint | server/fastText/src/productquantizer.cc:42-54 | No two centroids share a cell of the flat array. |
| ProductCodes.RegionsStayInside | server/fastText/src/productquantizer.cc:42-54 | Every centroid lies inside the `dim * 256` cells. |
| ProductCodes.RegionsCoverAll | server/fastText/src/productquantizer.cc:28-54 | Every cell belongs to a centroid, the short last sub-vector included. |
| ProductCodes.NearestCode | server/fastText/src/productquantizer.cc:215-223 | A code that is nearest in every sub-vector is nearest of all `256^nsubq` codes. |
| ProductCodes.ProductQuantizer.AssignCentroid | server/fastText/src/productquantizer.cc:56-73 | The centroid chosen is at least as near as all others, and nearer than all before it. |
| ProductCodes.ProductQuantizer.ComputeCode | server/fastText/src/productquantizer.cc:215-223 | No other code reconstructs a vector closer to the input. |
| ProductCodes.ProductQuantizer.MulCode | server/fastText/src/productquantizer.cc:177-195 | `mulcode` is alpha times the dot product with the reconstruction. |
| ProductCodes.ProductQuantizer.AddCode | server/fastText/src/productquantizer.cc:197-213 | `addcode` adds alpha times the reconstruction in place. |
| KMeansTheory.MeanIsBest | server/fastText/src/productquantizer.cc:105-114 | The mean minimises the squared distance of a cluster. |
| KMeansTheory.MeansAreBest | server/fastText/src/productquantizer.cc:86-114 | For given clusters no centroids are better than the means. |
| KMeansTheory.NearestIsBetter | server/fastText/src/productquantizer.cc:75-84 | Assigning points to nearest centroids does not increase the total. |
| KMeans.EStep | server/fastText/src/productquantizer.cc:75-84 | `Estep` gives every point a nearest centroid. |
| KMeans.Divide | server/fastText/src/productquantizer.cc:105-114 | Centroids become the means of their clusters. |
| ClusterRepair.PickCluster | server/fastText/src/productquantizer.cc:119-122 | The resampling loop settles on the first cluster that accepts its draw, which has two points or more, and fails only if every draw left is rejected. |
| ClusterRepair.SearchIsShort | server/fastText/src/productquantizer.cc:119-122 | Draws that accept a cluster of two settle the search within one turn of the clusters. |
| ClusterRepair.SomeoneHasTwo | server/fastText/src/productquantizer.cc:116-122 | With at least 256 points an empty cluster means another has two, so the loop can exit. |
| ClusterRepair.HalvesKeepSum | server/fastText/src/productquantizer.cc:129-130 | Splitting a cluster of two or more leaves both parts positive and the sizes summing to n. |
| ClusterRepair.SplitCluster | server/fastText/src/productquantizer.cc:123-128 | The empty cluster gets the other centroid moved by the offset, the other is moved the opposite way, and nothing else changes. |
| ClusterRepair.EnoughDraws | server/fastText/src/productquantizer.cc:116-132 | If the draws are enough, the sizes they lead to do not depend on later draws. |
| ClusterRepair.Repair | server/fastText/src/productquantizer.cc:116-132 | After the repair no cluster is empty unless the search rejected all draws left, and enough small draws rule that out; sizes sum to n, clusters that keep their size keep their centroid, every other one lies beside an original one, and nothing outside the region changes. |
| KMeans.MStep | server/fastText/src/productquantizer.cc:86-133 | `MStep`: the centroids become the means, then empty clusters are repaired; untouched clusters keep their means, the region alone changes, and no cluster is left empty unless the draws run out. |
| KMeans.Round | server/fastText/src/productquantizer.cc:143-146 | `Estep` then `MStep`: the means are never worse in total squared distance than the centroids before, and they are the new centroids except where an empty cluster was repaired. |

## Left out

- Memory orders and fences: steps are atomic and sequentially consistent.
- Throwing constructors and assignments with their rollback (`MOODYCAMEL_CATCH`), destructors, move and swap, debug and statistics code.
- Allocation, alignment and placement of nodes and blocks: an allocation is a step that may fail.
- The explicit producer's block list, its block index and the rollback of its `enqueue_bulk`: of the explicit producer only the ticket protocol is modelled.
- Producer and consumer tokens, and the choice among producers in `try_dequeue`.
- The `MAX_SUBQUEUE_SIZE` disjunct of the enqueue guard: the default, no limit, is modelled.
- The `next` links between the blocks of one bulk enqueue: the blocks in hand are a sequence local to the producer.
- Ring and table masks are remainders by capacities that only ever double.
- ImplicitTheorems.RunKeepsInv: claims are of at least one element, as in all theorems about the storage; `RecycleOnce.OnceExactlyWhenAsking` shows that they need it.
- ImplicitEnqueue.StepKeepsInv: steps that claim nothing are left out; the invariant does not survive such a claim, as the run behind `RecycleOnce.FreedTwice` shows.
- ImplicitTheorems.FreedWhenEmpty: false once a claim of nothing is made, because its thread also sees as its own to give back a block that another thread completed; hence claims of at least one element.
- ImplicitTheorems.BlockIsSomewhere: false likewise, two threads having one block to give back (`RecycleOnce.FreedTwice`); hence claims of at least one element.
- SubQueue.DequeueReturnsItsItems: every call of the run asks for at least one element, for the same reason.
- QueueBlocks.EveryBlockIsInOnePlace: calls ask for at least one element. What a block contains when a sub-queue takes it is arbitrary, as other sub-queues may have left anything in it.
- ProducerHashTheorems.SameProducer: the build without thread-exit listeners is modelled, where no thread id is ever released and no producer becomes inactive; every new thread gets a fresh producer.
- SemaphoreTheorems.RestIsExact: counts are unbounded integers; the narrowing of the number released to `int` is not modelled.
- BlockingQueue.PermitImpliesElement: the inner queue is a bag in which a try to dequeue may fail to find anything for a while; that the spin loop is scheduled fairly is not modelled.
- Wall-clock time: a timeout is a step that may be taken at any point of a timed wait.
- Floating point: scores, distances and norms are reals. The logarithm of an edge is any value up to a slack, which covers the 1e-5 that `std_log` adds; `TopK.FindKBest` takes any increasing logarithm.
- HierarchicalSoftmax.HierarchicalSoftmaxLoss.BuildTree: there is at least one leaf, and counts are not negative and below 1e15, the mark of nodes not made yet. Node counts are unbounded integers; `HuffmanCodes.CountsAreBounded` gives the bound under which 64 bits suffice.
- `std::sort`, `std::push_heap`, `std::pop_heap` and `std::sort_heap` have simple stand-ins with the contract of the library; where it leaves the order of ties open, the theorems do not depend on it.
- Splitting a stream into tokens (`readWord`, `reset`), `getStringNoNewline`, the `getLine` for unsupervised models with its random discarding, and the discard table.
- Dictionaries.Dictionary.Load: takes the entries as read; the byte format of models is left out. As in the source, an empty dictionary gets a table with no slot, in which no search is possible.
- Dictionaries.Dictionary.Prune: row numbers are distinct, not negative, and the dictionary has not been pruned before, as with the rows that `selectEmbeddings` delivers.
- TopK.FindKBest: k is at least one, as `Model::predict` demands before it gets here; so for `BranchAndBound.Predict`.
- ClusterRepair.Repair: the random draws are an input, and the method reports running out of them where the source would go on drawing; by `ClusterRepair.EnoughDraws` those it would go on to draw do not matter once there are enough.
- Training proper, subsampling and shuffling in `kmeans` and `train`, `binaryLogistic` and its tables, autotuning, argument parsing, gRPC, HTTP, Redis and document workers.
