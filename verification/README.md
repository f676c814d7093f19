# Verified model of the Sandia OpenSHMEM core

This project models the parts of Sandia OpenSHMEM whose correctness is an argument rather than a
reading: the one-sided collective protocols, the distributed queue lock, the allocator behind the
symmetric heap, the STX resource pool and the agreement on team slots. It proves what the callers of
these parts rely on.

**Collectives and lock.** Each protocol is a transition system. Every PE has a program counter, any
PE may take the next step, and every remote put, atomic or flag is issued in one step and lands in a
later one. A fence only makes a flag land after the data put before it. The number of PEs, the buffer
contents, their lengths and the number of barrier epochs are arbitrary, and the reduction operator is
any associative and commutative function. A run is any finite sequence of such steps; the theorems
hold in every state of every run. For the reductions and gathers it is also proved that no run is longer
than a bound computed from the number of PEs, and that every run can be continued until all PEs are
back. The barriers run on for any number of epochs, so there every step but a new entry lowers a
measure: a run in which no PE enters more than e barriers is bounded in e and the number of PEs, and one
in which every PE has entered epoch e can be continued, without a further entry, until every PE has
left it. The liveness theorems of the lock are about infinite fair runs, and such runs exist. The protocols implement sections 9.9 and 9.12 of the OpenSHMEM 1.5 specification.

**Trees and local loops.** The tree construction, the local reduction, the bitmaps and the searches
are methods over arrays with loops, as in the source.

**Symmetric heap.** `SymmetricHeap` is a class with the fields of `malloc_state`, the bump pointer
and the words of the heap; its methods follow the source branch by branch and update the boundary
tags, the link words of the bins, the bin marks, `dv` and `top` in place. A ghost field records the
division of the segment into chunks. `Valid()` says that chunks tile the segment up to `top` with no
two free ones adjacent, that head and foot words agree with the chunks, that every free chunk is
exactly once in its bin or is `dv`, that the fd, bk, child, parent and index words of the free chunks
and the bin words of `malloc_state` say what the bins say, and that everything the bump pointer handed
out is this one segment. Every method keeps `Valid()` and states which blocks are live afterwards and
that no payload of any other live block has changed, by tags or by links.

**Bins.** A small bin is a ring through its header, a tree bin a trie whose nodes are rings of chunks
of one size; only the first chunk of a node has a parent and children. `InsertLargeChunk` and
`UnlinkLargeChunk` follow the macros on the words alone: the one descends by child words and chunk
sizes, the other starts at the chunk and is led by its bk, parent, index and child words. Both are
proved to leave words that represent the trie with, or without, exactly that chunk. The searches of
`TreeSearch` go by head words and child words too. The lists and tries themselves are ghost.

**Resource managers.** `Pool` is a class with the reference counts, the private flags and the hash of
private STXs. The team protocol is a transition system over all PEs' bitmaps and team pools.

| files | modules |
|---|---|
| Lock | McsLock |
| DissemBarrier, TreeBarrier | the three barriers |
| Trees | k-ary tree, full tree, star |
| Reduction, ChunkLayout, Hypercube, Arith, Progress, Wrappers | folds, chunking, rank bits, arithmetic, run lengths, Option |
| RingCollective, RecDblReduce, TreeReduce, AllReduce | the all-reduce algorithms and their dispatcher |
| RecDblGather, LinearGather, FixedGather, Collect | the gathers and their dispatcher |
| TreeBins, SmallBins | the bins as values |
| Rings, SmallLinks, TreeLinks, TreeUnlinks, BinLinks, TreeSearch | the link words of the bins, and the searches on them |
| HeapLayout, HeapWords, HeapLinks, MemBytes, Heap | the division into chunks, the tags, tags and links together, bytes of words, the allocator |
| Stx, Teams | the resource managers |

Five places where the code does less than one might read into it are kept as they are, and it is
proved when they are right, for the first four exactly when. `shmem_internal_team_translate_pe` compares the source rank with the size by
`>` (`src/shmem_team.c:230`), so it also accepts the size itself, and it does not exclude negative
ranks. `TranslateIsExact` says for every int that the answer is right if and only if the rank is one
of the source team, is above its size, or leads to no member of the destination; `TranslatePastTheEnd`
gives a wrong answer of each kind. `compute_tree_index` drops the bits of a size from 2^40 on
(`src/malloc.c:2877`). `TreeIndexIsExact` says for every size from 256 that the index is that of the
size's bin if and only if the size is below 2^40 or the bits that are kept are those of the last bin;
`FirstMisfiledSize` is the smallest size that fails. Chunks are below 2^40 because the heap is, and
`BestFit` is proved for requests of any 64-bit size. The loop in which memalign doubles an alignment
ends if and only if the alignment is at most 2^63 (`DoublingEnds`). The k-ary tree's root divides -1 by
the radix (`src/collectives.c:60`): `RootParentNeedsRadix` says that every parent is right if and only
if the radix is at least 2, the PE is not the root, or there is only one PE. The ring all-reduce does not
wait for the puts it has issued (`src/collectives.c:733`). `PutsOutliveTheCall` continues every run in
which a PE's last put has not landed to one in which that PE has returned and the put is still under
way, `LateStoreIsSent` says that a store into the target then goes out in place of the result, and
`PutsHaveArrived` that this is over once the next PE is past its last wait. A fence that waits for
completion, as with `WANT_TOTAL_DATA_ORDERING` 0 (`src/transport_ofi.h:482`), is stronger than the one
modelled and rules it out.

In contracts, `P(x) == true` is the same as `P(x)`. It is used where splitting P into its conjuncts at
every call would make the verifier several times slower.

## Model

| member | source | states |
|---|---|---|
| McsLock.MaskedSwapsAreIndependent | src/shmem_lock.h:70-114 | the masked swap of a successor id and the masked swap of the signal bit into one lock word never destroy each other's part |
| McsLock.MutualExclusion | src/shmem_lock.h:39-149 | in every interleaving of set, test and clear by any number of PEs, at most one PE is between a successful acquire and the end of its release |
| McsLock.GrantsFollowArrivals | src/shmem_lock.h:79-115 | PEs acquire the lock in the order in which their ids entered `last`, and the acquires exceed the completed releases by one exactly while some PE owns the lock |
| McsLock.TestLockOutcome | src/shmem_lock.h:125-149 | the compare-and-swap of test_lock acquires exactly when nobody is queued, including PEs that have swapped but not linked; otherwise it leaves every lock word and the queue alone |
| McsLock.ReleaseEnds | src/shmem_lock.h:47-74 | in a fair run, a release that has begun is completed, even if the successor has swapped but not linked when the release looks for it |
| McsLock.QueueMoves | src/shmem_lock.h:40-121 | in a fair run whose holders release, a non-empty queue always advances by one |
| McsLock.EveryArrivalAcquires | src/shmem_lock.h:79-121 | no lost wake-up and no starvation: in a fair run whose holders release, every PE whose id has entered `last` comes to own the lock |
| McsLock.SetReturnsWithLock | src/shmem_lock.h:79-121 | in every run, a PE that has called set_lock and is idle again, or owns the lock, has been given the lock since the call |
| McsLock.EverySetAcquires | src/shmem_lock.h:79-121 | in a fair run whose holders release, every call of set_lock is given the lock |
| McsLock.TestReturns | src/shmem_lock.h:125-149 | in a fair run every call of test_lock ends with one compare-and-swap: if it finds 0 in `last` the PE has the lock and its id is there, if not the PE is back and nothing else has changed |
| McsLock.ClearReturns | src/shmem_lock.h:40-75 | in a fair run every call of clear_lock returns, one release later |
| McsLock.FairRunsExist | src/shmem_lock.h:39-149 | for every number of PEs below 2^31 there is a fair run whose holders release and in which every PE calls set_lock |
| DissemBarrier.NoEarlyExit | src/collectives.c:371-407 | no PE has returned from its e-th dissemination barrier before every PE has entered its e-th, over any number of epochs |
| DissemBarrier.SlotsStayBelowThree | src/collectives.c:371-407 | every slot lies in 0 to 2 in every reachable state, so the assertion on it cannot fail |
| DissemBarrier.PSyncIsRestored | src/collectives.c:371-407 | when no PE is inside a barrier, all slots are 0 and no add or subtract is under way |
| DissemBarrier.NoDeadlock | src/collectives.c:371-407 | if every PE has entered epoch e and one has not finished it, some step other than an entry is possible |
| DissemBarrier.StepIsProgress | src/collectives.c:387-406 | every step other than a new entry lowers the work left: steps of the PEs, and adds and subtracts in flight; an entry uses up one of a budget of e calls per PE |
| DissemBarrier.RunsAreBounded | src/collectives.c:371-407 | a run of n PEs in which none enters more than e barriers has at most n e (5 ceil(log2 n) + 2) steps |
| DissemBarrier.RunsComplete | src/collectives.c:371-407 | every wait is reached: a run in which every PE has entered epoch e can be continued, without a further entry, until every PE has left it |
| DissemBarrier.EveryEpochHappens | src/collectives.c:371-407 | from zeroed slots, for every e, there is a run in which every PE has returned from e barriers |
| DissemBarrier.EveryBarrierStarts | src/collectives.c:371-407 | zeroed slots meet the initial condition for every number of PEs |
| TreeBarrier.NoEarlyExit | src/collectives.c:247-367 | no PE has returned from its e-th linear or tree barrier before every PE has entered its e-th, over any number of epochs on one pSync |
| TreeBarrier.ClearSeesAll | src/collectives.c:290-367 | a PE that is about to clear its word has received every child's arrival and its parent's acknowledgement of this epoch, and none of the next |
| TreeBarrier.WordsNeverOvershoot | src/collectives.c:247-367 | a word never exceeds what its next equality wait asks for, and right after a clear nothing is under way to it, so no arrival of the next epoch is discarded |
| TreeBarrier.OneMessageEachWay | src/collectives.c:290-367 | between a PE and its parent at most one arrival and one acknowledgement exist at a time, and neither side is more than one epoch ahead |
| TreeBarrier.StarAckIsAdd | src/collectives.c:247-287 | when the linear barrier's acknowledgement lands, the word is 0, so writing 1 and adding 1 are the same |
| TreeBarrier.NoDeadlock | src/collectives.c:247-367 | if every PE has entered epoch e and one has not finished it, some step other than an entry is possible |
| TreeBarrier.StepIsProgress | src/collectives.c:247-367 | every step other than a new entry lowers the work left: steps of the PEs, and arrivals and acknowledgements in flight; an entry uses up one of a budget of e calls per PE |
| TreeBarrier.RunsAreBounded | src/collectives.c:247-367 | over any tree of n PEs, a run in which none enters more than e barriers has at most e (9 n - 2) steps |
| TreeBarrier.RunsComplete | src/collectives.c:247-367 | every equality wait is reached: a run in which every PE has entered epoch e can be continued, without a further entry, until every PE has left it |
| TreeBarrier.EveryEpochHappens | src/collectives.c:247-367 | from zeroed words, for every e, there is a run in which every PE has returned from e barriers |
| TreeBarrier.EveryBarrierStarts | src/collectives.c:247-367 | the theorems apply to the linear barrier and to both trees for every number of PEs and every radix from 2 |
| Trees.BuildKaryTree | src/collectives.c:47-69 | for any active set, with a stride of either sign, any root and any radix, the parent (with C's truncating divisions) and the children written to the array are the PEs of the k-ary parent and child ids, except that with radix 1 the root's parent is one place before it |
| Trees.RootParentNeedsRadix | src/collectives.c:60 | the parent computed is the right one if and only if the radix is at least 2, the PE is not the root, or the set has one PE |
| Trees.IdsAreOneToOne | src/collectives.c:53-69 | numbering the PEs of an active set from the root is one-to-one in both directions, for every stride but 0, and the root is id 0 |
| Trees.KaryInverse | src/collectives.c:55-69 | c is among the children PE id computes for itself exactly when id is the parent PE c computes for itself |
| Trees.KaryTreeIsValid | src/collectives.c:46-69 | the k-ary tree is a tree rooted at id 0 with mutually inverse parents and children, for every size and radix from 2 |
| Trees.GroupLeader | src/collectives.c:139-143 | at each level the PE either leads its group, and the children of that level and of the coarser levels are all its children, or the leader it computes is its parent and it has no more children |
| Trees.CountFullChildren | src/collectives.c:138-149 | the counting loop finds exactly the number of PEs that have this PE as parent |
| Trees.BuildFullTree | src/collectives.c:138-166 | the backward-filling loop fills the counted array exactly, with the children in descending order, and leaves with the parent |
| Trees.FullInverse | src/collectives.c:139-166 | in the full tree, c is a child of `me` exactly when `me` is the parent of c, and parents are smaller |
| Trees.FullKidsAscend | src/collectives.c:154-165 | the children of a PE are found in strictly ascending order, so none is stored twice |
| Trees.FullTreeIsValid | src/collectives.c:138-166 | the full tree is a tree over all PEs, for every number of PEs and radix from 2 |
| Trees.TreeSpans | src/collectives.c:46-166 | in both trees every PE reaches the root, and only the root is its own parent |
| Reduction.ReduceLocal | src/shmem_internal_op.h:23-33 | the loop replaces the first `count` elements of `out` by the operator applied to both buffers and leaves the rest |
| Reduction.SetFoldIsRankFold | src/collectives.c:569-971 | the fold of all contributions does not depend on the order in which they were combined |
| Reduction.ZipIsAssociativeCommutative | src/shmem_internal_op.h:23-33 | whole buffers combine associatively and commutatively when their elements do |
| Reduction.ZipFoldsElements | src/shmem_internal_op.h:23-33 | an element of the fold of buffers is the fold of that element of every buffer |
| ChunkLayout.ChunksAreAdjacent | src/collectives.c:684-696 | each chunk of the ring starts where the one before it ends, the first at 0, the last ends at count |
| ChunkLayout.ChunksTile | src/collectives.c:684-696 | every element lies in exactly one chunk, for every count and number of PEs, also with fewer elements than PEs |
| RingCollective.ReduceScatterResult | src/collectives.c:672-714 | in every interleaving, a PE that has finished its first n - 1 rounds holds the fold of all contributions on chunk r + 1 mod n, and keeps it |
| RingCollective.AllReduceResult | src/collectives.c:635-751 | in every interleaving, a PE that returns holds in every element the fold of all n sources, in place or not |
| RingCollective.OutstandingPutsAreStable | src/collectives.c:680-740 | what an issued put will carry does not change at the source until it lands, so no chunk is overwritten before it has been forwarded |
| RingCollective.PSyncIsRestored | src/collectives.c:703-751 | when all have returned, both pSync words are 0 everywhere and every put and add has landed |
| RingCollective.NoDeadlock | src/collectives.c:635-751 | as long as a PE has not returned, some step is possible |
| RingCollective.RunsAreBounded | src/collectives.c:635-751 | every step does part of the work left to some PE and adds none to others, so no run is longer than a bound in the number of PEs and rounds |
| RingCollective.RunsComplete | src/collectives.c:635-751 | every run can be continued until all PEs have returned |
| RingCollective.PutsOutliveTheCall | src/collectives.c:731-747 | from every state of every run in which a PE's last put has not landed, the run can go on so that the PE returns with that put still under way |
| RingCollective.LateStoreIsSent | src/collectives.c:733-736 | then what the caller stores into the chunk under way is what reaches the next PE |
| RingCollective.PutsHaveArrived | src/collectives.c:743-744 | once the next PE is past its last wait, all puts and adds of this PE have landed |
| RingCollective.GatherResult | src/collectives.c:1101-1146 | in every interleaving, a PE that returns from the ring gather holds PE c's block in chunk c, for every c and any number of PEs |
| Hypercube.FlipTwice | src/collectives.c:920-945 | partners of a round are mutual and different, and the lower one is the one whose bit is clear |
| Hypercube.FlipSwapsHalves | src/collectives.c:920-945 | the partner lies in the other half of the pair of groups that the round joins |
| Hypercube.FlipStaysBelow | src/collectives.c:920-945 | the partner of a PE below a power of two is below it as well |
| Hypercube.LargestPow2 | src/collectives.c:844-869 | the halving loop yields the largest power of two that is at most n, and its logarithm |
| RecDblReduce.PartnersAreMutual | src/collectives.c:838-971 | partners, also of extra PEs, exist and are mutual, and exactly one of two partners is the lower |
| RecDblReduce.RoundHoldsGroup | src/collectives.c:918-950 | a PE that begins round i holds the fold of its aligned group of 2^i PEs and of that group's extra PEs |
| RecDblReduce.AllReduceResult | src/collectives.c:838-971 | for every n from 2, in every interleaving, every PE that returns, extra PEs included, has the fold of all contributions |
| RecDblReduce.NoPutHitsUnreadScratch | src/collectives.c:838-971 | whenever a put is under way, its destination has offered its target in exactly this exchange and has not gone past the matching wait |
| RecDblReduce.PSyncIsRestored | src/collectives.c:950-971 | a PE that returns has zeroed its pSync words and no flag is under way to them |
| RecDblReduce.NoDeadlock | src/collectives.c:838-971 | in a state in which nothing can happen every PE has returned |
| RecDblReduce.RunsAreBounded | src/collectives.c:838-971 | every step does part of the work left to some PE and adds none to others, so no run is longer than a bound in the number of PEs and rounds |
| RecDblReduce.RunsComplete | src/collectives.c:838-971 | every run can be continued until all PEs have returned |
| TreeReduce.AllReduceResult | src/collectives.c:755-832 | with the tree or the linear algorithm, followed by the broadcast, every PE past the broadcast has the fold of all contributions |
| TreeReduce.NothingLandsTooEarly | src/collectives.c:755-832 | a child's atomic accumulation only lands while the parent waits with its own contribution and those of the children landed before, and the broadcast only lands on a PE whose partial result has been taken |
| TreeReduce.PSyncIsRestored | src/collectives.c:755-832 | a PE that returns has zero words and nothing is under way to them |
| TreeReduce.NoDeadlock | src/collectives.c:755-832 | in a state in which nothing can happen every PE has returned |
| TreeReduce.RunsAreBounded | src/collectives.c:755-832 | every step does part of the work left to some PE and adds none to others, so no run is longer than a bound in the number of PEs and rounds |
| TreeReduce.RunsComplete | src/collectives.c:755-832 | every run can be continued until all PEs have returned |
| TreeReduce.EveryTreeWorks | src/collectives.c:755-832 | the theorems apply to the k-ary tree, the full tree and the star for every n and radix from 2 |
| AllReduce.BufferFoldIsReduction | src/collectives.c:569-971 | folding whole buffers in rank order is folding every element in rank order |
| AllReduce.DispatchPicks | src/shmem_collectives.h:177-232 | linear and tree, which accumulate by remote atomics, are picked only where the transport has them for the operator and type, and there whenever ring and recursive doubling are not asked for; setting, number of PEs and size decide the rest |
| AllReduce.EveryAlgorithmReduces | src/shmem_collectives.h:170-238 | linear, ring, tree and recursive doubling all refine one specification: whatever a PE returns with is the element-wise fold of all sources |
| AllReduce.EveryCallReturns | src/shmem_collectives.h:170-238 | for every setting, call and PE there is a run of the algorithm picked in which the PE returns, with the reduction; linear and tree runs count only where the atomics are supported |
| AllReduce.DispatchDoesNotMatter | src/shmem_collectives.h:170-238 | the dispatcher's choice, whatever its settings, changes no result, and all PEs return the same |
| RecDblGather.GroupsPair | src/collectives.c:1184-1206 | the blocks a PE and its partner hold are the two halves of the next larger group, and the lower bound moves down exactly when the partner is lower |
| RecDblGather.NothingHeldIsOverwritten | src/collectives.c:1184-1206 | no interfering write: in every state of every run, a put under way is of a round its receiver has not left, and its blocks are apart from those the receiver holds, from those of the receiver's own puts under way and from those of every other put under way to it |
| RecDblGather.RoundHoldsGroup | src/collectives.c:1180-1206 | a PE that begins round i holds the 2^i contributions of its aligned group at its current offset |
| RecDblGather.GatherResult | src/collectives.c:1157-1210 | a PE that returns holds the contributions of all PEs in rank order, in every interleaving |
| RecDblGather.PSyncIsRestored | src/collectives.c:1195-1210 | every word stays 0 or 1; a PE that returns has zero words and nothing it sent is under way |
| RecDblGather.NoDeadlock | src/collectives.c:1157-1210 | in a state in which nothing can happen every PE has returned |
| RecDblGather.RunsAreBounded | src/collectives.c:1157-1210 | every step does part of the work left to some PE and adds none to others, so no run is longer than a bound in the number of PEs and rounds |
| RecDblGather.RunsComplete | src/collectives.c:1157-1210 | every run can be continued until all PEs have returned |
| LinearGather.GatherResult | src/collectives.c:1049-1090 | with either broadcast, a PE that returns holds the contributions of all PEs in rank order |
| LinearGather.CountNeverOvershoots | src/collectives.c:1058-1088 | the first PE's counter never exceeds the number of PEs, so its equality wait cannot be overshot |
| LinearGather.PSyncIsRestored | src/collectives.c:1060-1090 | a PE that returns has a zero flag word, the first PE also a zero counter, and nothing more lands in them |
| LinearGather.NoDeadlock | src/collectives.c:1049-1090 | in a state in which nothing can happen every PE has returned |
| LinearGather.RunsAreBounded | src/collectives.c:1049-1090 | every step does part of the work left to some PE and adds none to others, so no run is longer than a bound in the number of PEs and rounds |
| LinearGather.RunsComplete | src/collectives.c:1049-1090 | every run can be continued until all PEs have returned |
| FixedGather.PowerOfTwoTest | src/shmem_collectives.h:291 | the bit test n & (n - 1) == 0 holds exactly for the powers of two |
| FixedGather.RecDblGetsPowersOfTwo | src/shmem_collectives.h:277-302 | recursive doubling is chosen exactly when asked for and the number of PEs is a power of two, the linear algorithm exactly when asked for |
| FixedGather.EvenChunks | src/collectives.c:1117-1131 | with equal blocks, the ring's chunk of an element is the block it belongs to |
| FixedGather.EveryAlgorithmGathers | src/shmem_collectives.h:272-302 | linear, ring and recursive doubling all return the blocks of all PEs in rank order |
| FixedGather.EveryCallReturns | src/shmem_collectives.h:272-302 | whatever the dispatcher picks, for every call and PE there is a run in which the PE returns, with the blocks in rank order |
| FixedGather.DispatchDoesNotMatter | src/shmem_collectives.h:272-302 | the dispatcher's choice changes no result, and all PEs return the same |
| Collect.CircularNextIsNextRank | src/collectives.c:96-107 | the peer iterator adds one rank around the ring, for any start and positive stride |
| Collect.TurnsAreInOrder | src/collectives.c:1019-1031 | the loop over the peers reaches every PE of the active set exactly once, the caller last |
| Collect.BlockLies | src/collectives.c:996-1017 | block p lies at the sum of the lengths before it, whatever follows |
| Collect.CollectResult | src/collectives.c:980-1040 | for any lengths, zero included, a PE that returns holds all contributions one after the other in rank order |
| Collect.PutsAreDisjoint | src/collectives.c:996-1031 | puts of different PEs to one target never overlap and stay inside it |
| Collect.PSyncIsRestored | src/collectives.c:1033-1040 | a PE that returns has zero words, and nothing is under way from it or to it |
| Collect.NoDeadlock | src/collectives.c:980-1040 | in a state in which nothing can happen every PE has returned |
| Collect.RunsAreBounded | src/collectives.c:980-1040 | every step does part of the work left to some PE and adds none to others, so no run is longer than a bound in the number of PEs and rounds |
| Collect.RunsComplete | src/collectives.c:980-1040 | every run can be continued until all PEs have returned |
| Collect.EveryCallReturns | src/collectives.c:980-1040 | for any blocks and any old contents of the targets there is a run in which all PEs return with the concatenation |
| TreeBins.InsertAdds | src/malloc.c:3685-3734 | on the trie the link words represent: descending by the size's bits and adding a node or a ring member keeps path bits equal to sizes and adds exactly that chunk |
| TreeBins.UnlinkRemoves | src/malloc.c:3753-3822 | on the trie the link words represent: removing a ring member or a node, the latter replaced by its rightmost-descended leaf, keeps path bits equal to sizes and removes exactly that chunk |
| TreeBins.CutLastLeafKeeps | src/malloc.c:3768-3782 | on the trie the link words represent: the descendant cut off as replacement is a leaf and the rest of the trie is as it was |
| TreeBins.TreeIndexIsBin | src/malloc.c:2873-2887 | the computed bin index is that of the bin whose size range holds the size, for 256 <= s < 2^40, and the size's high bits are those of that bin's trie |
| TreeBins.TreeIndexIsExact | src/malloc.c:2873-2887 | for every size from 256, however large, the computed index is that of the size's bin exactly when the size is below 2^40 or its bits 8 to 39 lie in the last bin's range |
| TreeBins.FirstMisfiledSize | src/malloc.c:2877 | 2^40 gets index 0, which is not its bin |
| TreeBins.BinsAscend | src/malloc.c:2937-2950 | every size of a lower bin is smaller than every size of a higher one |
| TreeBins.InsertLargeAdds | src/malloc.c:3685-3734 | the tries with the chunk added hold exactly that chunk more over all bins, keep every trie in order and the rule that a treemap bit is set exactly for a non-empty bin |
| TreeBins.UnlinkLargeRemoves | src/malloc.c:3753-3822 | the tries with the chunk removed hold exactly that chunk less over all bins and keep the same invariants |
| TreeBins.TopBit | src/malloc.c:2942-2948 | the sign bit of the shifted request is the next path bit of its bin |
| TreeSearch.AllBinsTell | src/malloc.c:4476-4495 | the words that represent the bins tell a search every root, size and child, and where there is none |
| TreeSearch.SearchBin | src/malloc.c:4475-4500 | led by child words and head sizes, what the descent has not seen and might still be a better fit lies in the deepest right subtree not taken |
| TreeSearch.LeftmostWalk | src/malloc.c:4510-4517 | walking to the leftmost child never misses a better fit of the subtree, wrapped remainders included |
| TreeSearch.BestFit | src/malloc.c:4471-4539 | the search returns a smallest chunk of at least nb bytes over all tree bins, and none exactly when there is none, for every 64-bit nb from 256 |
| TreeSearch.SmallestChunk | src/malloc.c:4542-4561 | the search of a small request returns a smallest chunk of all tree bins |
| SmallBins.InsertSmallAdds | src/malloc.c:3607-3623 | the lists with the chunk added hold exactly that chunk more and keep the rule that a smallmap bit is set exactly for a non-empty bin |
| SmallBins.UnlinkSmallRemoves | src/malloc.c:3626-3668 | the lists with the chunk removed hold exactly that chunk less and keep the same rule |
| Rings.LinkInSecond | src/malloc.c:3618-3621 | the four stores that link a chunk in behind the first node give a ring, forwards along fd and backwards along bk, in which it comes second |
| Rings.LinkOutAt | src/malloc.c:3626-3650 | the two stores that unlink a chunk give the ring without it, and its own fd and bk are its neighbours in the ring |
| Rings.LinkOutFirst | src/malloc.c:3756-3766 | unlinking the first chunk of a ring leaves a ring in which its bk neighbour can take its place |
| Rings.OwnNeighbour | src/malloc.c:3756 | a chunk is its own bk exactly when it is alone in its ring |
| SmallLinks.InsertSmallChunk | src/malloc.c:3607-3623 | the stores of insert_small_chunk make the ring of the chunk's bin begin with it, leave the rings of all other bins, mark the bin, and change only header words and bodies of chunks of the bins |
| SmallLinks.UnlinkSmallChunk | src/malloc.c:3626-3650 | the stores of unlink_small_chunk, found in the chunk's own words, leave the ring of its bin without it and all other rings; the mark goes exactly when the bin becomes empty |
| SmallLinks.UnlinkFirstSmallChunk | src/malloc.c:3652-3668 | unlinking behind the header takes the first chunk of the bin and does the same |
| TreeLinks.ChildReplaced | src/malloc.c:3753-3822 | when the words below one child and the pointer to it come to represent another subtrie, the words of the node above represent the trie with that child replaced |
| TreeLinks.InsertLinks | src/malloc.c:3685-3734 | the words insert_large_chunk writes at the place the descent ends at represent the trie with the chunk inserted, and only bodies of the trie's chunks, of the new one and the pointer to the root differ |
| TreeUnlinks.CutLinks | src/malloc.c:3769-3782 | clearing the pointer to the last leaf leaves words that represent the trie without it, and the leaf's ring without children |
| TreeUnlinks.HandoverLinks | src/malloc.c:3783-3820 | after the replacement has taken over parent, pointer and children, the words represent a node with the replacement's ring and the old subtries, whose parent words point to it |
| TreeUnlinks.UnlinkNodeLinks | src/malloc.c:3753-3822 | in all cases (a later chunk of a ring, the first of several, alone with children, alone without) the words written represent the node without the chunk |
| TreeUnlinks.UnlinkLinks | src/malloc.c:3753-3822 | the same for a chunk anywhere in the trie |
| TreeUnlinks.SpotFacts | src/malloc.c:3784-3795 | a tree node that is not the root is a child of its parent word's node, and is told from its sibling by the word child[0] |
| BinLinks.InsertLargeChunk | src/malloc.c:3685-3734 | insert_large_chunk, reading only words, leaves the words of all 32 bins representing the tries with exactly this chunk inserted, and changes nothing outside the tree roots and the bodies of tree chunks |
| BinLinks.UnlinkLargeChunk | src/malloc.c:3753-3822 | unlink_large_chunk, starting at the chunk and reading only words, leaves the words of all bins representing the tries with exactly this chunk removed, and clears the mark exactly when the bin becomes empty |
| BinLinks.OwnWords | src/malloc.c:3753-3783 | what the words of a chunk say: its bk is itself exactly when it is alone, its parent word is zero exactly when it is not the first of its ring, its index is its bin's, its children are the roots of the subtries |
| HeapLayout.ChunksTile | src/malloc.c:3459-3488 | every byte of the segment below top lies in exactly one chunk |
| HeapLayout.FreesNeverTouch | src/malloc.c:3300-3325 | the chunk after a free one is in use, knows the free one's size and is not top |
| HeapLayout.PInuseIsExact | src/malloc.c:3289-3315 | a chunk's pinuse bit says exactly whether the chunk before it is in use |
| HeapLayout.BytesFill | src/malloc.c:3459-3488 | bytes in use and bytes free add up to all bytes below top |
| HeapLayout.SplitFreeKeeps | src/malloc.c:4525-4533 | giving the front of a free chunk away and keeping the rest free keeps the tiling; exactly these two entries change |
| HeapLayout.FreeJoinedKeeps | src/malloc.c:4750-4801 | joining a freed block with free chunks on both sides keeps the tiling and replaces them by one free chunk |
| HeapLayout.FreeIntoTopKeeps | src/malloc.c:4769-4782 | a block before top, joined with a free chunk before it, disappears into top and the rest still tiles |
| HeapLayout.ShiftFreeKeeps | src/malloc.c:4880-4892 | growing a block into a part of dv moves the free chunk's start and keeps the tiling |
| HeapWords.HeadFields | src/malloc.c:2296-2302 | size and both flag bits can be read back from a head word built from them |
| HeapWords.TagsAreNotPayload | src/malloc.c:2296-2330 | no head or foot word that is written lies in the payload of a block in use |
| HeapWords.TagsPreserve | src/malloc.c:3089-3105 | a change of tags leaves what every live block holds as it was |
| HeapWords.PayloadIsNotTag | src/malloc.c:2258-2302 | what a caller stores in its block changes no tag |
| HeapWords.SplitFreeStep | src/malloc.c:4525-4533 | the words written by a split agree with the new layout; one free chunk is replaced by its rest and one block is new; no payload changes |
| HeapWords.FreePlainStep | src/malloc.c:4750-4801 | the words written by a free agree with the new layout in which the block and a free chunk before it are one free chunk |
| HeapWords.FreeJoinedStep | src/malloc.c:4783-4798 | the same when the chunk after the block is free as well |
| HeapWords.FreeIntoTopStep | src/malloc.c:4771-4782 | the same when the block joins top |
| HeapWords.AbsorbAndSplitStep | src/malloc.c:4902-4917 | growing a block into a free neighbour and splitting the result gives two blocks, and no payload changes |
| HeapLinks.TagsKeepLinks | src/malloc.c:3089-3105 | writing tags leaves every link word of the bins as it was |
| HeapLinks.LinksKeepTags | src/malloc.c:3607-3822 | writing link words changes no tag and no payload of a live block |
| HeapLinks.PayloadKeepsLinks | src/malloc.c:2258-2302 | what a caller stores in its block changes no link word |
| Heap.RequestFits | src/malloc.c:2268-2274 | the padded size holds the request and the word of overhead, is aligned and wastes at most 32 bytes |
| Heap.AllocationSizeIsRight | src/malloc.c:4089-4091 | when the rounded size does not wrap around 64 bits it is the request and its padding rounded up to the granularity |
| Heap.SymmetricHeap.constructor | src/malloc.c:3139-3160 | an untouched heap, with malloc_state anywhere outside it, satisfies the invariant with no live block |
| Heap.SymmetricHeap.InsertChunk | src/malloc.c:3826-3828 | a free chunk joins its bin by the stores of either macro; the links still say what the bins say, and no tag and no payload changes |
| Heap.SymmetricHeap.UnlinkChunk | src/malloc.c:3830-3832 | a binned chunk leaves its bin by the stores of either macro, with the same guarantees |
| Heap.SymmetricHeap.WhereFreeChunksAre | src/malloc.c:3424-3488 | every free chunk is exactly one of dv, a member of the small bin of its size, or a member of the tree bin of its size |
| Heap.SymmetricHeap.BytesAddUp | src/malloc.c:3459-3518 | bytes in use, bytes free, top and its foot add up to the footprint |
| Heap.SymmetricHeap.BlocksAreDisjoint | src/malloc.c:3256-3298 | live blocks are aligned, inside the heap and pairwise disjoint |
| Heap.SymmetricHeap.GetNext | src/symmetric_heap_c.c:130-149 | the bump pointer moves by the increment, stops at the base when taken below it, and is left alone with a failure beyond the heap's length |
| Heap.SymmetricHeap.GiveBack | src/malloc.c:4362-4383 | exactly the given bytes at the end of the segment go back to the bump pointer; the invariant holds with top that much smaller, no payload changes, and the trim threshold is reset unless nothing was given |
| Heap.SymmetricHeap.Grow | src/malloc.c:4098-4246 | growth is contiguous and extends the one segment, also after the switch to the noncontiguous path and after failed attempts, by no more than the padded request and two units; it fails only when the heap's length would be exceeded, and then nothing has moved |
| Heap.SymmetricHeap.SysAlloc | src/malloc.c:4074-4281 | memory is taken from the bump pointer, no more than is asked for and two units, and the block is the front of top; or nothing changes, and it fails only on a wrapped size or an exhausted heap |
| Heap.SymmetricHeap.MallocSmall | src/malloc.c:4612-4664 | a small request takes a smallest sufficient chunk of all bins, unless dv is large enough and no binned chunk fits without a rest to split off; a rest becomes dv |
| Heap.SymmetricHeap.TmallocSmall | src/malloc.c:4542-4577 | the chunk taken is a smallest one of the trees, its rest becomes dv, and there is exactly one new block |
| Heap.SymmetricHeap.TmallocLarge | src/malloc.c:4471-4539 | the chunk taken is a smallest sufficient one of all bins and fits better than dv, dv stays, and there is exactly one new block; it gives up only when dv fits at least as well as every binned chunk or no free chunk fits |
| Heap.SymmetricHeap.MallocFromDv | src/malloc.c:4675-4693 | the block is the front of dv, which keeps the rest or is used up, and there is exactly one new block |
| Heap.SymmetricHeap.MallocFromTop | src/malloc.c:4695-4705 | the block is the front of top, dv stays, and there is exactly one new block |
| Heap.SymmetricHeap.Malloc | src/malloc.c:4581-4710 | the result is a new aligned block of at least the padded size and less than a smallest chunk more, disjoint from all live ones, whose contents neither tags nor links touch; it comes from a smallest sufficient binned chunk where that is preferred, else from dv, else from top, and the heap grows only when none of them has room; it is null only when no free chunk fits and the heap cannot grow, and then nothing has changed |
| Heap.SymmetricHeap.DisposeChunk | src/malloc.c:4400-4466 | exactly this block stops being live, it joins every free neighbour, a dv among those grows or goes into top and any other dv stays, and no payload changes, by tags or by links |
| Heap.SymmetricHeap.Free | src/malloc.c:4719-4826 | exactly this block stops being live (none for null), the invariant holds after coalescing and trimming, and no payload changes; only a block next to top gives memory back, and then top is left within the trim threshold or below one unit over the foot, and only what exceeded the threshold has gone |
| Heap.SymmetricHeap.SysTrim | src/malloc.c:4332-4393 | a multiple of the granularity goes back to the bump pointer, namely as much as leaves between one byte and one unit above the pad in top, and nothing where there is less or the pad is out of range; when nothing goes back the trim threshold is raised out of reach |
| Heap.SymmetricHeap.TryRealloc | src/malloc.c:4848-4924 | the block is resized in place exactly when it is large enough, or top, dv or the free chunk after it makes it so; it then has less than a chunk to spare, contents are kept, and a failure changes nothing |
| Heap.SymmetricHeap.Realloc | src/malloc.c:5222-5265 | the result holds, byte by byte, the old contents as far as both sizes go, every other block and its contents are as before, the new block has less than a chunk to spare, the block does not move if it fits in place, and it fails, changing nothing, only if the request is out of range or does not fit in place and malloc has no room for it |
| Heap.DoublingEnds | src/malloc.c:4931-4935 | doubling 32 in 64 bits reaches an alignment exactly when it is at most 2^63 |
| Heap.RoundAlignment | src/malloc.c:4929-4935 | the least power of two that is at least the alignment and at least 32 |
| Heap.SymmetricHeap.AlignedMalloc | src/malloc.c:4936-4999 | an aligned spot is always found with a leader of at least a smallest chunk and nb bytes left; leader and tail are given back and no other block is touched; it fails only when the request is at the limit or malloc has no room for the padded one |
| Heap.SymmetricHeap.Memalign | src/malloc.c:4927-4999 | the result is a new block on the requested alignment, or on the next power of two, with no more than one smallest chunk to spare, and every other block and its contents are as before; null means that malloc cannot serve the request padded for that power of two, and then nothing has changed |
| Heap.SymmetricHeap.Store | src/malloc.c:2258-2260 | a caller that writes inside its own block breaks no part of the invariant |
| Heap.SymmetricHeap.CopyPayload | src/malloc.c:5254-5260 | exactly the given number of bytes becomes equal to the source's, every other byte of memory stays, and no third block changes |
| MemBytes.MixBytes | src/malloc.c:5257 | a word of which the first r bytes are overwritten has those bytes of the one and the others of the other word |
| Stx.Pool.SearchUnused | src/transport_ofi.c:416-430 | the first unused STX is found whenever there is one, and it is not private |
| Stx.Pool.SearchRoundRobin | src/transport_ofi.c:434-465 | the first eligible STX from the rotating start is found, exactly when there is one, and the start moves past it |
| Stx.Pool.SearchShared | src/transport_ofi.c:433-488 | a shareable STX below the threshold is found exactly when there is one, the first in turn under the round-robin policy |
| Stx.Pool.Allocate | src/transport_ofi.c:490-562 | it succeeds exactly when the pool has room for the request and binds exactly the new context; a private request gets its thread's STX, else an unused one that becomes the thread's, and falls back to sharing exactly when there is neither; shared ones go below the threshold, else to an unused STX, else anywhere; counts and hash entries stay right |
| Stx.Pool.Release | src/transport_ofi.c:1690-1717 | exactly this context is unbound, and the hash entry goes exactly with the last private context of the STX |
| Stx.Pool.SharedContextMakesRoom | src/transport_ofi.c:490-562 | while a shared context lives, every allocation finds an STX |
| Stx.Pool.EmptyPoolHasRoom | src/transport_ofi.c:490-562 | with no context alive, allocation succeeds |
| Stx.Pool.OneThreadPerPrivateStx | src/transport_ofi.c:494-545 | all contexts of a private STX are private and of one thread, whose hash entry names that STX |
| Teams.BitSet | src/shmem_internal.h:526-534 | exactly the named bit of the byte array becomes set |
| Teams.BitClear | src/shmem_internal.h:537-545 | exactly the named bit becomes clear |
| Teams.AndByteBit | src/shmem_team.c:295-303 | a bit of the bytewise AND is set exactly when it is set in both bitmaps |
| Teams.FirstNonzero | src/shmem_internal.h:557-570 | the lowest set bit over all bytes, or -1 exactly when none is set |
| Teams.BitOfReduction | src/shmem_team.c:298-303 | a bit of the AND-reduction over any number of PEs' bitmaps is set exactly when it is set in all of them |
| Teams.FirstBitIsLowestCommon | src/shmem_team.c:298-325 | the first set bit of the reduced bytes is the lowest slot free at all members, and -1 exactly when there is none |
| Teams.RankIsInverse | src/shmem_internal.h:595-603 | a PE has a rank in an active set exactly when it is start plus rank times stride with the rank below the size, for the positive strides a split accepts (src/shmem_team.c:259) |
| Teams.TranslateIsExact | src/shmem_team.c:222-240 | for every int: the result is the destination rank of the PE with that source rank, or -1 if there is no such PE or it is no member, if and only if the rank is one of the source team, is above its size, or leads to no member of the destination |
| Teams.TranslatePastTheEnd | src/shmem_team.c:230 | a rank equal to the source team's size, and a negative one, that translate to a rank |
| Teams.InvalidTeamsTranslateToNothing | src/shmem_team.c:226-227 | with an invalid team on either side the answer is -1 |
| Teams.MembersAgree | src/shmem_team.c:276-334 | all members of a split get the same slot or all fail, in every run of splits and destroys |
| Teams.BitSetMeansSlotEmpty | src/shmem_team.c:169-176 | on every PE a slot's bit is set exactly when its pool entry is empty |
| Teams.NoTeamIsOverwritten | src/shmem_team.c:310-332 | a split never replaces a live team in the pool |
| Teams.LiveTeamsAgree | src/shmem_team.c:276-334 | a team is live under the same slot on any two of its members |
| Teams.SplitTakesLowestCommon | src/shmem_team.c:298-325 | a split ends with the lowest slot that was free at every member as it entered, and fails exactly when there was none |
| Teams.TeamHoldsSlot | src/shmem_team.c:324-332 | from the step in which a split ends in a slot until the step that destroys that slot's team, the pool entry is that team and the bit is clear |
| Teams.SlotsAreNotShared | src/shmem_team.c:310-332 | between two splits of one PE that end in the same slot, the first one's team is destroyed |
| Teams.DestroyedSlotIsFree | src/shmem_team.c:436-464 | from a destroy until a split ends in that slot again, the bit is set and the pool entry empty |
| Teams.TeamsCanBeDestroyed | src/shmem_team.c:436-464 | a PE outside of splits can destroy any of its teams |
| Teams.SplitsComplete | src/shmem_team.c:276-334 | a split that its members are free to call can be run until all of them have its result |

## Left out

The forms chosen:

- The collectives and the lock are transition systems rather than methods: the spin loop of one PE has a meaning only together with the steps of the others. Loops that touch one PE only (tree construction, local reduction, power-of-two search) are methods.
- Of malloc_state, the bin headers and tree roots are words of the modelled memory, the scalar fields are fields of the class. The marks smallmap and treemap are sets of bin numbers, and least_bit and left_bits become the least marked bin above one.
- The team protocol keeps a bitmap as the set of its bits and takes the AND-reduction inside a split as one agreed AND of what the members contributed; the bit operations on byte arrays are proved separately.

What the model does not have:

- Active sets of one PE, empty buffers and zero counts, where the collectives return at once, except for empty blocks of the variable-size gather.
- Overflow of ranks, distances and byte counts in 32-bit int; the heap's 64-bit wrap-around is modelled.
- Whole trees of radix 1, in which the full-tree loops do not advance (`src/collectives.c:139`) and the k-ary root has a wrong parent.
- Floating-point reductions, whose operator is not associative, and the byte-level effects of a put: a put or a vector of atomics lands as one step.
- Back-to-back recursive-doubling, tree or linear reductions and gathers on one pSync; each of these is one call from zeroed words. Only the barriers are proved over many epochs.
- Writes of a PE to its own pSync word and the wait for it are one immediate store.
- The linear all-reduce shares one pSync word between acknowledgements and clear-to-send; the model keeps two words, of which no PE uses both.
- The barrier inside the variable-size gather is a step that lets PEs out once all have entered, which is what the barrier modules prove. The length and flag it sends are one message; in the source they are two words whose order is assumed (`src/collectives.c:1002`).
- The broadcast as a call of its own with acknowledgements (`complete` = 1); it appears after the reductions and the linear gather only.
- alltoall and alltoalls: the peers' order they share with the variable-size gather is proved there, and the rest would repeat its argument.
- The barrier dispatcher, since it composes nothing with the barrier it selects.
- Disjointness of the pSync slices of different teams (`src/shmem_team.c:479`), `check_for_linear_stride`, `split_2d`, and contexts that a team owns when it is destroyed.
- mmap, mspaces, locks, footers, statistics, footprint limits, release_checks and release_unused_segments; branches taken on corruption or wrong use; the paths add_segment and prepend_alloc, which the single-segment invariant makes unreachable.
- Heaps of 2^40 bytes and more.
- Network, PMI, bindings, environment and start-up code.

Contracts that are deliberately weaker:

- Heap.SymmetricHeap.Memalign: an alignment above 2^63 is excluded, because the doubling loop of the source would not end; Heap.DoublingEnds proves that it ends exactly up to there.
- Heap.SymmetricHeap.Free: its coalescing is that of dispose_chunk, which is the same code in the source, followed by the trim check; the periodic release check is left out.
- Stx.Pool.SearchShared: with the random policy, the source's probing is any eligible STX; that the random probing ends is not modelled.
