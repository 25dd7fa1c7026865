# mpi-quicksort: the distributed quicksort core, modelled in Dafny

The program sorts a sequence of 32-bit integers spread over the workers of an MPI job. Each
worker starts with a chunk of the items. While its group has more than one worker, each round
of `Sorter::quick_sort` does four things:

- it agrees on a pivot (`getPivot`);
- it splits the local chunk into items not above the pivot and items above it (`partition`);
- it moves the left items to the first `lp` workers of the group and the right items to the
  others (`disperse`): sizes are exchanged with an all-gather, every transmission is padded to
  a common width, and the items travel in one all-to-all;
- it splits the communicator by side (`split`).

A worker that is alone sorts its chunk. The helpers in `util.cpp` plan the allocations
(`allocate_numbers`, `max_allocation`) and pad and unpad buffers.

The project has six modules:

- `Seqs` (`seqs.dfy`): sequence helpers (sums, concatenation of blocks, sortedness, the
  reference sort).
- `Util` (`util.dfy`): `util.cpp`. Each routine is a method with its loops. It is proved
  against a specification function: the balanced allocation, the padded layout and the
  unpadded items.
- `Partitioning` (`partitioning.dfy`): the local arithmetic of a round. This covers the split
  around the pivot, the gathered totals, the processor split, the send-buffer layout, the
  receive counts, the colour, and the owner scan of `getPivot`.
- `Collectives` (`collectives.dfy`): what the collective calls deliver. The all-to-all is a
  block transpose; the communicator split renumbers the ranks of one colour in rank order.
- `Rounds` (`rounds.dfy`): one round at the level of the whole group (the chunk of every
  worker before and after it), and the recursion of the whole sort (`SortGroup`).
- `Sorting` (`sorting.dfy`): `class Sorter`, with the fields of `sorter.h` and one method per
  member function.

The message-passing calls become parameters of `Sorter.Disperse`: the pairs the all-gather
delivers, and the receive buffer the all-to-all delivers. `Sorter.QuickSort` drives one
worker through its rounds and computes those parameters from the group-level model, so each
round of the worker is the round of its group. Its contract states that the worker ends with
its chunk of `SortGroup`, and that this chunk is sorted. `SortGroupSorts` proves that the
chunks of `SortGroup`, read in rank order, are sorted and hold exactly the items the workers
started with, whatever pivots are chosen.

Where the design description and the code differ, the model follows the code:

- `getPivot` draws `rand() % _comm_size`, a rank-sized number, not an index into the group's
  items.
- It scans the initial `number_alloc`, which is never updated after the first round, and not
  the group's current allocation.
- The scan has no early exit, so the last rank whose count exceeds the remaining draw becomes
  the owner. `ScanOwnersTakesLastMatch` shows a case where this differs from the holder of the
  drawn item.
- `max_allocation` compares entry 0 with itself, so it returns the first entry.
  `AllocationBalanced` shows that the first entry is the maximum for every allocation
  `allocate_numbers` builds.

## Model

| member | source | states |
|---|---|---|
| Util.AllocateNumbers | util.cpp:15-37 | returns the balanced allocation: comm_size entries, n / p each plus one more on the first n % p ranks, adding up to number_count |
| Util.AllocationSum | util.cpp:19-34 | the allocation hands out every item exactly once: its entries add up to the count |
| Util.AllocationBalanced | util.cpp:19-34 | entry i is n / p + 1 exactly when i < n % p and n / p otherwise; entries never increase, so entry 0 is the largest |
| Util.AllocationMonotone | util.cpp:19-34 | allocating fewer items over the same workers never gives any rank more than rank 0 gets from the larger allocation (why the padded width bounds every share) |
| Util.AllocationPositive | util.cpp:19-34 | with at least as many items as workers, every worker is allocated at least one item |
| Util.MaxAllocation | util.cpp:4-13 | as written, returns the first entry of the allocation whatever the later entries are |
| Util.PadBuffer | util.cpp:39-57 | the output is the input cut into consecutive pieces by the allocation, each piece followed by zeros up to the first entry; its length is entries times width |
| Util.PadBlock | util.cpp:47-55 | one pass of the outer loop appends exactly the next count input items and then fillCount zeros, and advances the input index by count |
| Util.PaddedLayout | util.cpp:45-56 | block p of the padded buffer starts at p times the width and begins with piece p of the input |
| Util.PaddedFill | util.cpp:52-55 | the rest of block p after piece p holds only the filler value |
| Util.UnpadBuffer | util.cpp:59-75 | the output is the first alloc[p] items of every block p of the width, in block order; its length is the sum of the allocation |
| Util.UnpaddedLength | util.cpp:65-74 | unpadding keeps exactly as many items as the counts add up to |
| Util.PiecesConcat | util.cpp:45-51 | putting the first k pieces of the allocation back together gives back the first items of the input |
| Util.UnpadPadRoundTrip | util.cpp:39-75 | unpadding a padded buffer with the same allocation and width gives back the padded items, whatever the filler |
| Util.UnpaddedAppend | util.cpp:59-75 | unpadding two runs of blocks laid end to end gives the two unpadded runs one after the other |
| Util.PadSingleBuffer | util.cpp:77-92 | the output is the first alloc[index] input items followed by zeros, alloc[0] items in all |
| Util.UnpadSingleBuffer | util.cpp:94-105 | the output is exactly the first alloc[index] input items |
| Util.SinglePadRoundTrip | util.cpp:77-105 | unpadding a single padded buffer with the same index and allocation gives back the worker's items |
| Partitioning.PartitionStep | sorter.cpp:232-244 | each item considered is appended to the left side when it is not above the pivot and to the right side otherwise, and to nothing else |
| Partitioning.PartitionSplits | sorter.cpp:230-245 | the two sides together hold exactly the chunk's items (as a multiset); the left holds only items not above the pivot and the right only items above it |
| Partitioning.PartitionMembers | sorter.cpp:230-245 | a value is on the left side if and only if it is in the chunk and not above the pivot, and on the right side if and only if it is in the chunk and above it |
| Partitioning.GatheredTotalsStep | sorter.cpp:104-110 | each gathered pair adds its sizes to the two totals and raises the two maxima to at least its sizes |
| Partitioning.MaxOf | sorter.cpp:108-109 | the largest gathered size is at least every size and is one of them (0 when there are none) |
| Partitioning.ShareBound | sorter.cpp:112 | the proportional left share is at most the group size; it is 0 when there are no left items and the whole group when there are no right items |
| Partitioning.ProcessorSplit | sorter.cpp:112-123 | the two sides add up to the group, the right side has at least one worker, and in a group of two or more so does the left |
| Partitioning.ProcessorSplitKeepsWork | sorter.cpp:112-123 | an empty side gets exactly one worker, and a side with two or more workers has items to sort |
| Partitioning.PlanOf | sorter.cpp:99-143 | the plan every worker derives from the gathered sizes has at least one worker on each side, and the sides add up to the group |
| Partitioning.MaxTransmissionBounds | sorter.cpp:126-143 | every count a worker packs for either side fits in the padded width |
| Partitioning.SendLayoutBlock | sorter.cpp:149-173 | the send buffer has one block of the width per rank; block p starts with the worker's left share for rank p when p < lp, and with its right share for rank p - lp otherwise |
| Partitioning.SendLeftBlock | sorter.cpp:152-162 | block p < lp of the send buffer starts with piece p of the left items |
| Partitioning.SendRightBlock | sorter.cpp:163-173 | block lp + q of the send buffer starts with piece q of the right items |
| Partitioning.SendLayoutRoundTrip | sorter.cpp:149-173 | unpadding the send buffer with the counts it was packed with gives back the left items followed by the right items |
| Partitioning.ColorOf | sorter.cpp:186-194 | a worker is on the left side if and only if its rank is below lp |
| Partitioning.ReceiveCountsFit | sorter.cpp:199-225 | every count a receiver unpads with fits in the width, so each block's items lie inside the receive buffer |
| Partitioning.ReceiveCountsMatchSendCounts | sorter.cpp:202-216 | the receiver takes from sender p's block exactly the count sender p packed into it for this rank |
| Partitioning.HolderOf | sorter.cpp:56-68 | reference for the scan: the worker holding item k0 of the allocated layout and its offset, or none exactly when k0 is past every allocated item |
| Partitioning.ScanOwnersSound | sorter.cpp:56-68 | the scan finds an owner if and only if the draw falls inside the allocated items; the owner's offset lies inside its share, never before the holder's rank and never past the holder's offset |
| Partitioning.ScanOwnersTakesLastMatch | sorter.cpp:57-68 | for allocation [2, 2] and draw 0 the scan reports rank 1 at offset 0, while item 0 is held by rank 0 |
| Partitioning.ScanOwnersFinds | sorter.cpp:56-68 | when there are at least as many items as workers, the draw (below the group size) always finds an owner in the group's leading allocation entries |
| Partitioning.ScanOwnersMisses | sorter.cpp:56-68 | with one item over two workers, draw 1 finds no owner |
| Collectives.AlltoallTransposes | sorter.cpp:176-183 | block i of what rank j receives is block j of what rank i sent |
| Collectives.AlltoallInvolution | sorter.cpp:176-183 | exchanging twice gives every rank back the buffer it sent |
| Collectives.SplitRankInRange | sorter.cpp:247-259 | the rank after the split lies inside the new communicator, which is no larger than the old one |
| Collectives.SplitRenumbers | sorter.cpp:250-254 | two workers of the same colour keep their relative order (the old rank is the key) and see the same new size |
| Collectives.CountSides | sorter.cpp:186-194 | with the first lp ranks coloured left, exactly lp workers are left and the rest are right |
| Collectives.SplitBySide | sorter.cpp:247-259 | after the split a left worker keeps its rank in a communicator of lp, and a right worker gets rank - lp in a communicator of the rest |
| Rounds.GroupSplits | sorter.cpp:230-245 | across the group the left sides and the right sides together hold exactly the group's items, the left only items not above the pivot and the right only items above it |
| Rounds.GatheredCounts | sorter.cpp:84-110 | the gathered left and right totals are the numbers of left and right items in the group |
| Rounds.GatheredHasItems | sorter.cpp:112 | in a group of two or more workers with items, the total the division uses is positive |
| Rounds.RoundPlan | sorter.cpp:99-143 | a round of the group puts at least one worker on each side, and the sides add up to the group |
| Rounds.RoundBlock | sorter.cpp:149-225 | what rank j reads from block i of its receive buffer is exactly the share sender i packed for rank j |
| Rounds.RoundReceives | sorter.cpp:196-225 | rank j's new chunk is the share every sender packed for it, in sender order |
| Rounds.LeftSharesCover | sorter.cpp:152-157 | a sender's left shares, put together, are its left items |
| Rounds.RightSharesCover | sorter.cpp:163-168 | a sender's right shares, put together, are its right items |
| Rounds.LeftColumn | sorter.cpp:196-225 | left rank j receives column j of the senders' left shares |
| Rounds.RightColumn | sorter.cpp:196-225 | right rank lp + q receives column q of the senders' right shares |
| Rounds.LeftRedistributes | sorter.cpp:81-228 | the left ranks together receive every left item of the group, each exactly once |
| Rounds.RightRedistributes | sorter.cpp:81-228 | the right ranks together receive every right item of the group, each exactly once |
| Rounds.RoundSplits | sorter.cpp:33-44 | one round divides the group at 1 <= lp < size; the left part holds only items not above the pivot and the right only items above it; together they hold the group's items; each part of two or more workers has items |
| Rounds.LeftGroup | sorter.cpp:247-259 | the left group has lp workers, strictly fewer than before, and has items when it has two or more workers |
| Rounds.RightGroup | sorter.cpp:247-259 | the right group has the other workers, strictly fewer than before, and has items when it has two or more workers |
| Rounds.RoundKeepsItems | sorter.cpp:33-44 | the two groups after a round hold exactly the items before it, the left only items not above the pivot and the right only items above it |
| Rounds.SortGroup | sorter.cpp:22-48 | the sort of a group gives every worker one final chunk |
| Rounds.SortGroupSorts | sorter.cpp:22-48 | the final chunks in rank order are sorted and hold exactly the group's items, whatever pivots are chosen |
| Rounds.FinalChunkInSortGroup | sorter.cpp:33-47 | following one worker down its side in every round ends in its chunk of the group's sort |
| Rounds.FinalChunkLeft | sorter.cpp:33-44 | a left worker's outcome is its outcome at the same rank in the left group one round deeper |
| Rounds.FinalChunkRight | sorter.cpp:33-44 | a right worker's outcome is its outcome at rank - lp in the right group one round deeper |
| Seqs.Sort | sorter.cpp:47 | the final local sort returns a sorted permutation of the chunk |
| Sorting.Sorter.constructor | sorter.cpp:10-20 | the new Sorter holds the given items, allocation and communicator, and the rank and size of the worker in it; when the rank lies in the group and the allocation covers the group, the Sorter is valid |
| Sorting.Sorter.GetPivot | sorter.cpp:50-79 | the owner is the scan's owner for the draw modulo the group size over the first entries of the initial allocation; the value is the owner's item at the offset on the owner and 0 elsewhere |
| Sorting.Sorter.Partition | sorter.cpp:230-245 | appends the items not above the pivot to left and the others to right, in chunk order |
| Sorting.Sorter.SumPartitions | sorter.cpp:99-110 | returns the sums and the maxima of the gathered left and right sizes |
| Sorting.Sorter.SplitProcessors | sorter.cpp:112-123 | returns the processor split: both sides non-empty in a group of two or more, adding up to the group |
| Sorting.Sorter.PackSendBuffer | sorter.cpp:145-173 | the send buffer is exactly the padded layout: left pieces padded with 0 for the left ranks, then right pieces padded with -1 for the right ranks |
| Sorting.Sorter.PackSide | sorter.cpp:152-162 | writes one side's padded blocks from position start and leaves the buffer before and after them unchanged |
| Sorting.Sorter.PackBlock | sorter.cpp:154-161 | writes the next count items and then fillCount filler values, advances both indices, and leaves the buffer before start and from the new send index on unchanged |
| Sorting.Sorter.Disperse | sorter.cpp:81-228 | sends the padded layout, picks the colour of the rank, and leaves the worker with the unpadded receive buffer, counted with the share each sender's size gives this rank |
| Sorting.Sorter.ReceiveCount | sorter.cpp:201-216 | the count taken from sender p is this rank's entry of the allocation of p's left items (left side) or right items (right side) |
| Sorting.Sorter.TakeReceived | sorter.cpp:218-222 | appends exactly the count received items from the index |
| Sorting.Sorter.Unpad | sorter.cpp:196-225 | the new local items are the real items of every block of the receive buffer, in sender order |
| Sorting.Sorter.Split | sorter.cpp:247-259 | the worker joins the communicator of its colour and takes its rank and size there |
| Sorting.Sorter.Round | sorter.cpp:33-44 | after one pass of the loop the worker holds its chunk of its side's group: same rank on the left, rank - lp on the right; its communicator is the part of the old one with its colour |
| Sorting.Sorter.Regroup | sorter.cpp:41-43 | partition, disperse and split with a known pivot move the worker into its side's group at its new rank, in the part of the old communicator with its colour |
| Sorting.Sorter.Redistribute | sorter.cpp:41-42 | partition then disperse leave the worker with its next chunk of the round and the colour of its rank |
| Sorting.Sorter.QuickSort | sorter.cpp:22-48 | the worker ends with its chunk of the group-level sort, and that chunk is sorted |

## Left out

- `main.cpp`: reading the input file, broadcasting the count and the status, scattering and
  gathering the chunks, and writing the output are not part of this model.
- The collective calls (`MPI_Bcast`, `MPI_Allgather`, `MPI_Alltoall`, `MPI_Comm_split`,
  `MPI_Comm_rank`, `MPI_Comm_size`) are not executed. Their results are parameters, or
  functions in `Collectives` that state what they deliver. Blocking, lock-step execution and
  failures are not modelled.
- `srand`/`rand`: the draw of round d is the parameter `draws(d)`, the same for every worker,
  because all workers seed alike and draw once per round.
- Sorting.Sorter.GetPivot: a value the program leaves undetermined is the parameter `stray`,
  not a particular value. This covers reading past the end of the owner's current chunk (the
  scan uses the stale initial allocation) and the case where no owner is found (an
  uninitialised owner rank and pivot). The broadcast is modelled as every worker taking the
  owner's value.
- Sorting.Sorter.GetPivot: when no owner is found, the source passes an uninitialised
  `pivot_owner_rank` as the root of `MPI_Bcast` (sorter.cpp:53-77). This happens whenever the
  draw modulo the group size is at least the sum of the scanned allocation entries, which is
  possible as soon as there are fewer items than workers; `ScanOwnersMisses` shows it with one
  item over two workers. The real program may then abort or hang. The model
  assumes instead that the broadcast still agrees on one value, the stray value, for every
  worker of the group. `QuickSort`'s promise of a sorted result holds only under that
  assumption in such rounds.
- Sorting.Sorter.QuickSort: requires that a group of two or more workers holds at least one
  item. The source divides by zero at sorter.cpp:112 otherwise.
- Util.PadBuffer: requires every count to be at most the first one. Otherwise the unsigned
  count of zeros at util.cpp:52 wraps around, and the loop would run about 2^64 times.
- Integer widths: items are `int` rather than `int32_t`, and counts are `nat` rather than
  `size_t`. The overflow of `_comm_size * left_count` at sorter.cpp:112 is not modelled, nor
  the mismatch of gathering `size_t` pairs as `MPI_INT`. The pairs are modelled as delivered
  intact.
- `std::sort`: only its result, a sorted permutation, is modelled, by the reference `Seqs.Sort`.
- The reference fields and in-place vectors: the caller's `local_numbers` is the field
  `localNumbers`; aliasing between the caller's vector and the Sorter's reference is not
  modelled. The `left`/`right` vectors are values. The receive buffer is a parameter.
