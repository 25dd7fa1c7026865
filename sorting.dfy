/** The per-worker Sorter of sorter.h/sorter.cpp: one instance per worker, holding the worker's
    items, the initial allocation, its communicator, its rank and the size of its group.

    The message-passing calls become parameters: what the all-gather delivers (the (|left|,
    |right|) pair of every worker of the group), what the all-to-all delivers (this worker's
    receive buffer) and, for the split, the colour every worker of the group chose. QuickSort
    drives one worker through the rounds and computes those parameters from the group-level
    model of the rounds, so that each round of the worker is the round of its group. */
module Sorting {
  import opened Seqs
  import opened Util
  import opened Partitioning
  import opened Collectives
  import opened Rounds

  /** A communicator: the world, or the part of a parent communicator that chose one colour. */
  datatype Comm = World | SplitOf(parent: Comm, color: Color)

  class Sorter {
    var localNumbers: seq<int>
    const numberAlloc: seq<nat>
    var comm: Comm
    var rank: nat
    var commSize: nat

    /** The rank lies in the group, and the group is no larger than the initial allocation the
        pivot scan indexes. */
    predicate Valid()
      reads this
    {
      rank < commSize <= |numberAlloc|
    }

    /** The rank and the size are what the communicator reports for this worker. */
    constructor(localNumbers: seq<int>, numberAlloc: seq<nat>, comm: Comm, rank: nat, commSize: nat)
      requires rank < commSize <= |numberAlloc|
      ensures Valid()
      ensures this.localNumbers == localNumbers && this.numberAlloc == numberAlloc
      ensures this.comm == comm && this.rank == rank && this.commSize == commSize
    {
      this.localNumbers := localNumbers;
      this.numberAlloc := numberAlloc;
      this.comm := comm;
      this.rank := rank;
      this.commSize := commSize;
    }

    /** getPivot before the broadcast: the draw, reduced modulo the group size, is looked up in
        the first commSize entries of the initial allocation; the owner found last is the owner,
        and this worker's candidate is its item at the owner's offset when it is the owner and 0
        otherwise. A value the program leaves undetermined is the stray value. */
    method GetPivot(draw: nat, stray: int) returns (owner: Option<Owner>, pivot: int)
      requires Valid()
      ensures owner == ScanOwners(numberAlloc[..commSize], draw % commSize).owner
      ensures pivot == Candidate(localNumbers, rank, owner, stray)
      ensures owner.Some? ==> owner.value.rank < commSize && owner.value.offset < numberAlloc[owner.value.rank]
    {
      ghost var alloc, k0 := numberAlloc[..commSize], draw % commSize;
      var k := draw % commSize;
      owner, pivot := None, stray;
      for i := 0 to commSize
        invariant k == ScanOwners(alloc[..i], k0).k
        invariant owner == ScanOwners(alloc[..i], k0).owner
        invariant pivot == Candidate(localNumbers, rank, owner, stray)
      {
        assert alloc[..i + 1][..i] == alloc[..i];
        if k < numberAlloc[i] {
          owner := Some(Owner(i, k));
          pivot := if i != rank then 0 else if k < |localNumbers| then localNumbers[k] else stray;
        } else {
          k := k - numberAlloc[i];
        }
      }
      assert alloc[..commSize] == alloc;
      ScanOwnersSound(alloc, k0);
    }

    /** partition: appends every local item to right when it is greater than the pivot and to
        left otherwise, keeping the order of the items. */
    method Partition(pivot: int, left: seq<int>, right: seq<int>) returns (newLeft: seq<int>, newRight: seq<int>)
      ensures newLeft == left + Lower(localNumbers, pivot)
      ensures newRight == right + Upper(localNumbers, pivot)
    {
      newLeft, newRight := left, right;
      for i := 0 to |localNumbers|
        invariant newLeft == left + Lower(localNumbers[..i], pivot)
        invariant newRight == right + Upper(localNumbers[..i], pivot)
      {
        PartitionStep(localNumbers, pivot, i);
        var number := localNumbers[i];
        if number > pivot {
          newRight := newRight + [number];
        } else {
          newLeft := newLeft + [number];
        }
      }
      assert localNumbers[..|localNumbers|] == localNumbers;
    }

    /** The totals loop of disperse: the sums and the maxima of the gathered left and right
        sizes. */
    static method SumPartitions(gathered: seq<(nat, nat)>) returns (t: Totals)
      ensures t == GatheredTotals(gathered)
    {
      t := Totals(0, 0, 0, 0);
      for i := 0 to |gathered|
        invariant t == GatheredTotals(gathered[..i])
      {
        GatheredTotalsStep(gathered, i);
        t := Totals(t.leftCount + gathered[i].0, t.rightCount + gathered[i].1,
                    Max(t.leftMaxCount, gathered[i].0), Max(t.rightMaxCount, gathered[i].1));
      }
      assert gathered[..|gathered|] == gathered;
    }

    /** The division of the group in disperse: the proportional share of the left side, rounded
        down, then moved by one when a side would be left without a worker. */
    static method SplitProcessors(commSize: nat, leftCount: nat, rightCount: nat)
      returns (leftProcessors: nat, rightProcessors: nat)
      requires commSize >= 1 && leftCount + rightCount > 0
      ensures (leftProcessors, rightProcessors) == ProcessorSplit(commSize, leftCount, rightCount)
    {
      ShareBound(commSize, leftCount, rightCount);
      leftProcessors := commSize * leftCount / (leftCount + rightCount);
      rightProcessors := commSize - leftProcessors;
      if leftProcessors == 0 {
        leftProcessors := leftProcessors + 1;
        rightProcessors := rightProcessors - 1;
      }
      if rightProcessors == 0 {
        rightProcessors := rightProcessors + 1;
        leftProcessors := leftProcessors - 1;
      }
    }

    /** The packing loops of disperse: a buffer of (lp + rp) blocks of the padded width, the
        left items cut by the left allocation into the first lp blocks, each piece followed by
        0s, and the right items cut by the right allocation into the remaining blocks, each
        piece followed by -1s. */
    static method PackSendBuffer(left: seq<int>, right: seq<int>, leftAlloc: seq<nat>, rightAlloc: seq<nat>,
                                 maxTransmission: nat)
      returns (sendBuffer: array<int>)
      requires Packable(left, right, Plan(|leftAlloc|, |rightAlloc|, maxTransmission))
      requires leftAlloc == Allocation(|left|, |leftAlloc|) && rightAlloc == Allocation(|right|, |rightAlloc|)
      ensures fresh(sendBuffer)
      ensures sendBuffer[..] == SendLayout(left, right, Plan(|leftAlloc|, |rightAlloc|, maxTransmission))
    {
      var leftProcessors, rightProcessors := |leftAlloc|, |rightAlloc|;
      AllocationSum(|left|, leftProcessors);
      AllocationSum(|right|, rightProcessors);
      PaddedLength(leftAlloc, left, maxTransmission, 0);
      PaddedLength(rightAlloc, right, maxTransmission, -1);
      MulDistrib(leftProcessors, rightProcessors, maxTransmission);
      sendBuffer := new int[(leftProcessors + rightProcessors) * maxTransmission](_ => 0);
      PackSide(sendBuffer, 0, leftAlloc, left, maxTransmission, 0);
      PackSide(sendBuffer, leftProcessors * maxTransmission, rightAlloc, right, maxTransmission, -1);
      assert sendBuffer[..] == sendBuffer[..leftProcessors * maxTransmission] +
        sendBuffer[leftProcessors * maxTransmission .. leftProcessors * maxTransmission + rightProcessors * maxTransmission];
    }

    /** One side of the packing loops of disperse: from position start, for each rank p of the
        side, the next alloc[p] items and then filler up to the width w. */
    static method PackSide(buffer: array<int>, start: nat, alloc: seq<nat>, items: seq<int>, w: nat, filler: int)
      requires Fits(alloc, w) && Sum(alloc) <= |items| && start + |alloc| * w <= buffer.Length
      modifies buffer
      ensures buffer[..start] == old(buffer[..start])
      ensures buffer[start .. start + |alloc| * w] == Padded(alloc, items, w, filler)
      ensures buffer[start + |alloc| * w ..] == old(buffer[start + |alloc| * w ..])
    {
      ghost var blocks, init := PaddedBlocks(alloc, items, w, filler), buffer[..];
      var sendIndex, itemIndex := start, 0;
      assert buffer[..] == init[..start] + Flatten(blocks[..0]) + init[sendIndex ..];
      for p := 0 to |alloc|
        invariant sendIndex == start + p * w <= buffer.Length
        invariant itemIndex == Sum(alloc[..p]) <= Sum(alloc)
        invariant buffer[..] == init[..start] + Flatten(blocks[..p]) + init[sendIndex ..]
      {
        BlockBounds(alloc, items, w, p, start, buffer.Length);
        ghost var before, at, from := buffer[..], sendIndex, itemIndex;
        sendIndex, itemIndex := PackBlock(buffer, start, sendIndex, items, itemIndex, alloc[p], w - alloc[p], filler);
        assert items[from .. itemIndex] == Piece(items, alloc, p);
        assert blocks[p] == items[from .. itemIndex] + Fill(w - alloc[p], filler);
        PackedStep(init, before, buffer[..], blocks, p, start, at, sendIndex);
      }
      assert blocks[..|alloc|] == blocks;
      ThreeParts(buffer[..], init[..start], Flatten(blocks), init[sendIndex ..]);
    }

    /** The two inner loops of one rank: count items from position from, then fillCount copies
        of the filler, written from position at. */
    static method PackBlock(buffer: array<int>, start: nat, at: nat, items: seq<int>, from: nat,
                            count: nat, fillCount: nat, filler: int)
      returns (sendIndex: nat, itemIndex: nat)
      requires start <= at && at + count + fillCount <= buffer.Length && from + count <= |items|
      modifies buffer
      ensures sendIndex == at + count + fillCount && itemIndex == from + count
      ensures buffer[..start] == old(buffer[..start])
      ensures buffer[start .. sendIndex] == old(buffer[start .. at]) + (items[from .. itemIndex] + Fill(fillCount, filler))
      ensures buffer[sendIndex ..] == old(buffer[sendIndex ..])
    {
      ghost var done := buffer[start .. at];
      sendIndex, itemIndex := at, from;
      for i := 0 to count
        invariant sendIndex == at + i && itemIndex == from + i && buffer[sendIndex ..] == old(buffer[sendIndex ..])
        invariant buffer[..start] == old(buffer[..start])
        invariant buffer[start .. sendIndex] == done + items[from .. itemIndex]
      {
        buffer[sendIndex] := items[itemIndex];
        sendIndex, itemIndex := sendIndex + 1, itemIndex + 1;
      }
      for i := 0 to fillCount
        invariant sendIndex == at + count + i && buffer[sendIndex ..] == old(buffer[sendIndex ..])
        invariant buffer[..start] == old(buffer[..start])
        invariant buffer[start .. sendIndex] == done + items[from .. itemIndex] + Fill(i, filler)
      {
        buffer[sendIndex] := filler;
        sendIndex := sendIndex + 1;
      }
      assert done + items[from .. itemIndex] + Fill(fillCount, filler) ==
             done + (items[from .. itemIndex] + Fill(fillCount, filler));
    }

    /** disperse: reduces the gathered sizes to the totals, divides the group into lp left and
        rp right workers, pads every transmission to the largest share any worker sends, packs
        the send buffer (left pieces padded with 0 for the left ranks, right pieces padded with
        -1 for the right ranks), picks this worker's colour, and replaces the local items by the
        real items of every block of the receive buffer, counted with the share the sender's
        size gives this rank. gathered is what the all-gather delivers and received what the
        all-to-all delivers in return for the send buffer. */
    method Disperse(left: seq<int>, right: seq<int>, gathered: seq<(nat, nat)>, received: seq<int>)
      returns (color: Color, sendBuffer: array<int>)
      requires Valid() && commSize >= 2 && |gathered| == commSize
      requires gathered[rank] == (|left|, |right|)
      requires Sum(Lefts(gathered)) + Sum(Rights(gathered)) > 0
      requires |received| == commSize * PlanOf(gathered).maxTransmission
      modifies this`localNumbers
      ensures fresh(sendBuffer)
      ensures Packable(left, right, PlanOf(gathered)) &&
        sendBuffer[..] == SendLayout(left, right, PlanOf(gathered))
      ensures color == ColorOf(rank, PlanOf(gathered).leftProcessors)
      ensures BlocksWithin(ReceiveCounts(gathered, PlanOf(gathered), rank), PlanOf(gathered).maxTransmission, |received|) &&
        localNumbers == Unpadded(ReceiveCounts(gathered, PlanOf(gathered), rank), received, PlanOf(gathered).maxTransmission)
    {
      var totals := SumPartitions(gathered);
      var leftProcessors, rightProcessors := SplitProcessors(commSize, totals.leftCount, totals.rightCount);
      var leftMaxAlloc := AllocateNumbers(totals.leftMaxCount, leftProcessors);
      var leftAlloc := AllocateNumbers(|left|, leftProcessors);
      var rightMaxAlloc := AllocateNumbers(totals.rightMaxCount, rightProcessors);
      var rightAlloc := AllocateNumbers(|right|, rightProcessors);
      var leftWidth := MaxAllocation(leftMaxAlloc);
      var rightWidth := MaxAllocation(rightMaxAlloc);
      var maxTransmission := Max(leftWidth, rightWidth);
      ghost var plan := PlanOf(gathered);
      assert plan == Plan(leftProcessors, rightProcessors, maxTransmission);

      MaxTransmissionBounds(gathered, rank);
      sendBuffer := PackSendBuffer(left, right, leftAlloc, rightAlloc, maxTransmission);

      if rank >= leftProcessors {
        color := RightColor;
      } else {
        color := LeftColor;
      }

      ReceiveCountsFit(gathered, rank);
      Unpad(gathered, leftProcessors, rightProcessors, maxTransmission, color, received);
    }

    /** How many items this worker takes from sender p's block: its entry of the allocation of
        sender p's left items over the left workers, or of its right items over the right
        workers. */
    static method ReceiveCount(gathered: seq<(nat, nat)>, p: nat, leftProcessors: nat, rightProcessors: nat,
                               maxTransmission: nat, color: Color, rank: nat) returns (recvCount: nat)
      requires leftProcessors >= 1 && rightProcessors >= 1
      requires rank < leftProcessors + rightProcessors && p < |gathered|
      requires color == ColorOf(rank, leftProcessors)
      ensures recvCount == ReceiveCounts(gathered, Plan(leftProcessors, rightProcessors, maxTransmission), rank)[p]
    {
      if color == LeftColor {
        var recvAlloc := AllocateNumbers(gathered[p].0, leftProcessors);
        recvCount := recvAlloc[rank];
      } else {
        var recvAlloc := AllocateNumbers(gathered[p].1, rightProcessors);
        recvCount := recvAlloc[rank - leftProcessors];
      }
    }

    /** The inner unpacking loop: the count items from index from of the receive buffer are
        appended to the worker's items, one at a time. */
    method TakeReceived(received: seq<int>, from: nat, count: nat)
      requires from + count <= |received|
      modifies this`localNumbers
      ensures localNumbers == old(localNumbers) + received[from .. from + count]
    {
      ghost var done := localNumbers;
      for i := 0 to count
        invariant localNumbers == done + received[from .. from + i]
      {
        localNumbers := localNumbers + [received[from + i]];
      }
    }

    /** The unpacking loop of disperse: block p of the receive buffer holds, first, the share
        of sender p's left items (for a left worker) or right items (for a right worker) that
        the allocation gives this rank; those items are appended in sender order and the rest
        of the block is skipped. */
    method Unpad(gathered: seq<(nat, nat)>, leftProcessors: nat, rightProcessors: nat, maxTransmission: nat,
                 color: Color, received: seq<int>)
      requires leftProcessors >= 1 && rightProcessors >= 1
      requires rank < leftProcessors + rightProcessors && |gathered| == commSize
      requires color == ColorOf(rank, leftProcessors)
      requires BlocksWithin(ReceiveCounts(gathered, Plan(leftProcessors, rightProcessors, maxTransmission), rank),
                            maxTransmission, |received|)
      modifies this`localNumbers
      ensures localNumbers ==
        Unpadded(ReceiveCounts(gathered, Plan(leftProcessors, rightProcessors, maxTransmission), rank), received, maxTransmission)
    {
      ghost var counts := ReceiveCounts(gathered, Plan(leftProcessors, rightProcessors, maxTransmission), rank);
      ghost var blocks := ReceivedBlocks(counts, received, maxTransmission);
      var recvIndex := 0;
      localNumbers := [];
      for p := 0 to commSize
        invariant recvIndex == p * maxTransmission
        invariant localNumbers == Flatten(blocks[..p])
      {
        var recvCount := ReceiveCount(gathered, p, leftProcessors, rightProcessors, maxTransmission, color, rank);
        ReceivedBlockAt(counts, received, maxTransmission, p);
        TakeReceived(received, recvIndex, recvCount);
        FlattenStep(blocks, p);
        recvIndex := recvIndex + maxTransmission;
        MulDistrib(p, 1, maxTransmission);
      }
      assert blocks[..commSize] == blocks;
    }

    /** split: the communicator splits by colour with the old rank as the key, and the worker
        takes its rank and size in the part of its colour. colors is the colour every worker of
        the group passes to the split. */
    method Split(color: Color, colors: seq<Color>)
      requires Valid() && |colors| == commSize && colors[rank] == color
      modifies this`comm, this`rank, this`commSize
      ensures comm == SplitOf(old(comm), color)
      ensures rank == SplitRank(colors, old(rank)) && commSize == SplitSize(colors, old(rank))
      ensures Valid()
    {
      SplitRankInRange(colors, rank);
      comm := SplitOf(comm, color);
      rank, commSize := SplitRank(colors, rank), SplitSize(colors, rank);
    }

    /** One pass of the loop of quick_sort: getPivot, partition, disperse and split. group holds
        the chunks of every worker of this worker's group, from which the values the collective
        calls deliver are computed: the owner's candidate for the broadcast, the gathered sizes,
        and this worker's part of the all-to-all. The worker ends in the left or the right group
        of the round, holding its chunk of that group. */
    method Round(group: seq<seq<int>>, draw: nat, stray: int) returns (next: seq<seq<int>>)
      requires Valid() && Splittable(group) && |group| == commSize && localNumbers == group[rank]
      modifies this`localNumbers, this`comm, this`rank, this`commSize
      ensures Valid() && |next| == commSize && localNumbers == next[rank]
      ensures var pivot := PivotOf(numberAlloc, group, draw, stray);
        var lp := RoundPlan(group, pivot).leftProcessors;
        (old(rank) < lp ==> next == LeftGroup(group, pivot) && rank == old(rank)) &&
        (lp <= old(rank) ==> next == RightGroup(group, pivot) && rank == old(rank) - lp)
      ensures comm == SplitOf(old(comm), ColorOf(old(rank),
        RoundPlan(group, PivotOf(numberAlloc, group, draw, stray)).leftProcessors))
    {
      var owner, candidate := GetPivot(draw, stray);
      var pivot := PivotOf(numberAlloc, group, draw, stray);
      assert owner.Some? && owner.value.rank == rank ==> pivot == candidate;
      next := Regroup(group, pivot);
    }

    /** The part of a round after the pivot is known: partition, disperse and split. */
    method Regroup(group: seq<seq<int>>, pivot: int) returns (next: seq<seq<int>>)
      requires Valid() && Splittable(group) && |group| == commSize && localNumbers == group[rank]
      modifies this`localNumbers, this`comm, this`rank, this`commSize
      ensures Valid() && |next| == commSize && localNumbers == next[rank]
      ensures var lp := RoundPlan(group, pivot).leftProcessors;
        (old(rank) < lp ==> next == LeftGroup(group, pivot) && rank == old(rank)) &&
        (lp <= old(rank) ==> next == RightGroup(group, pivot) && rank == old(rank) - lp)
      ensures comm == SplitOf(old(comm), ColorOf(old(rank), RoundPlan(group, pivot).leftProcessors))
    {
      ghost var oldRank := rank;
      var lp := RoundPlan(group, pivot).leftProcessors;
      var color := Redistribute(group, pivot);
      if color == LeftColor {
        LeftSide(group, pivot, oldRank, lp);
        next := LeftGroup(group, pivot);
      } else {
        RightSide(group, pivot, oldRank, lp);
        next := RightGroup(group, pivot);
      }
      Split(color, Sides(|group|, lp));
    }

    /** partition followed by disperse, with the values the all-gather and the all-to-all
        deliver computed from the group: the worker ends holding its chunk of the next round and
        knowing its side. */
    method Redistribute(group: seq<seq<int>>, pivot: int) returns (color: Color)
      requires Valid() && Splittable(group) && |group| == commSize && localNumbers == group[rank]
      modifies this`localNumbers
      ensures localNumbers == NextChunk(group, pivot, rank)
      ensures color == ColorOf(rank, RoundPlan(group, pivot).leftProcessors)
    {
      var left, right := Partition(pivot, [], []);
      assert left == Lower(group[rank], pivot) && right == Upper(group[rank], pivot);
      RoundInputs(group, pivot, rank);
      var sendBuffer;
      color, sendBuffer := Disperse(left, right, Gathered(group, pivot), Exchanged(group, pivot)[rank]);
      RoundOutputs(group, pivot, rank);
    }

    /** quick_sort, seen from worker worldRank of the world whose workers start with the chunks
        in world: while the worker's group has more than one member it runs a round; alone, it
        sorts its items. draws(d) is the value rand() gives every worker in round d and
        strays(d) the value an undetermined pivot takes in that round. The worker ends with its
        chunk of the group-level sort, and that chunk is sorted. */
    static method QuickSort(world: seq<seq<int>>, worldRank: nat, numberAlloc: seq<nat>,
                            draws: nat -> nat, strays: nat -> int) returns (sorted: seq<int>)
      requires worldRank < |world| <= |numberAlloc|
      requires |world| >= 2 ==> |Flatten(world)| > 0
      ensures sorted == SortGroup(world, 0, SourceRule(numberAlloc, draws, strays))[worldRank]
      ensures Sorted(sorted)
    {
      var sorter := new Sorter(world[worldRank], numberAlloc, World, worldRank, |world|);
      var group, depth := world, 0;
      ghost var rule := SourceRule(numberAlloc, draws, strays);
      ghost var final := FinalChunk(world, 0, rule, worldRank);
      while sorter.commSize > 1
        invariant sorter.Valid() && sorter.numberAlloc == numberAlloc
        invariant 1 <= |group| == sorter.commSize
        invariant |group| >= 2 ==> |Flatten(group)| > 0
        invariant sorter.localNumbers == group[sorter.rank]
        invariant final == FinalChunk(group, depth, rule, sorter.rank)
        decreases sorter.commSize
      {
        ghost var rank := sorter.rank;
        var next := sorter.Round(group, draws(depth), strays(depth));
        assert rule(group, depth) == PivotOf(numberAlloc, group, draws(depth), strays(depth));
        if rank < RoundPlan(group, rule(group, depth)).leftProcessors {
          FinalChunkLeft(group, depth, rule, rank, next);
        } else {
          FinalChunkRight(group, depth, rule, rank, next, sorter.rank);
        }
        group, depth := next, depth + 1;
      }
      assert sorter.rank == 0 && final == Sort(group[0]);
      sorted := Sort(sorter.localNumbers);
      FinalChunkInSortGroup(world, 0, rule, worldRank);
    }
  }

  /** One rank of the packing loop, on the buffer before and after it: a buffer that holds the
      original up to start, the first p blocks, and the original from at on, once block p is
      written at at and everything else kept, holds the original up to start, the first p + 1
      blocks, and the original from next on. */
  lemma PackedStep(init: seq<int>, before: seq<int>, after: seq<int>, blocks: seq<seq<int>>, p: nat,
                   start: nat, at: nat, next: nat)
    requires |init| == |before| == |after| && start <= at <= next <= |after| && p < |blocks|
    requires before == init[..start] + Flatten(blocks[..p]) + init[at..]
    requires after[..start] == before[..start] && after[next..] == before[next..]
    requires after[start .. next] == before[start .. at] + blocks[p]
    ensures after == init[..start] + Flatten(blocks[..p + 1]) + init[next..]
  {
    ThreeParts(before, init[..start], Flatten(blocks[..p]), init[at..]);
    FlattenStep(blocks, p);
    assert before[next..] == init[next..] by {
      assert before[next..] == before[at..][next - at..];
    }
    assert after == after[..start] + after[start .. next] + after[next..];
  }

  /** What the collective calls of a round deliver to worker rank: its own pair among the
      gathered sizes, a plan that is the group's plan, and a receive buffer of |group| blocks of
      the padded width. */
  lemma RoundInputs(group: seq<seq<int>>, pivot: int, rank: nat)
    requires Splittable(group) && rank < |group|
    ensures Gathered(group, pivot)[rank] == (|Lower(group[rank], pivot)|, |Upper(group[rank], pivot)|)
    ensures |Gathered(group, pivot)| >= 2
    ensures Sum(Lefts(Gathered(group, pivot))) + Sum(Rights(Gathered(group, pivot))) > 0
    ensures RoundPlan(group, pivot) == PlanOf(Gathered(group, pivot))
    ensures |Exchanged(group, pivot)[rank]| == |group| * PlanOf(Gathered(group, pivot)).maxTransmission
  {
    GatheredHasItems(group, pivot);
  }

  /** What worker rank unpads in a round is its chunk of the next round: its rank in the left
      group or rank - lp in the right group. */
  lemma RoundOutputs(group: seq<seq<int>>, pivot: int, rank: nat)
    requires Splittable(group) && rank < |group|
    ensures var g := Gathered(group, pivot);
      |g| >= 2 && Sum(Lefts(g)) + Sum(Rights(g)) > 0 &&
      BlocksWithin(ReceiveCounts(g, PlanOf(g), rank), PlanOf(g).maxTransmission, |Exchanged(group, pivot)[rank]|) &&
      NextChunk(group, pivot, rank) ==
        Unpadded(ReceiveCounts(g, PlanOf(g), rank), Exchanged(group, pivot)[rank], PlanOf(g).maxTransmission)
  {
    GatheredHasItems(group, pivot);
    ReceiveCountsFit(Gathered(group, pivot), rank);
  }

  /** A worker left of lp keeps its rank, finds its next chunk at that rank in the left group,
      and the split gives it a communicator of lp workers. */
  lemma LeftSide(group: seq<seq<int>>, pivot: int, rank: nat, lp: nat)
    requires Splittable(group) && lp == RoundPlan(group, pivot).leftProcessors && rank < lp
    ensures |LeftGroup(group, pivot)| == lp && LeftGroup(group, pivot)[rank] == NextChunk(group, pivot, rank)
    ensures SplitRank(Sides(|group|, lp), rank) == rank && SplitSize(Sides(|group|, lp), rank) == lp
  {
    SplitBySide(|group|, lp, rank);
  }

  /** A worker from lp on moves to rank - lp, finds its next chunk there in the right group, and
      the split gives it a communicator of the remaining workers. */
  lemma RightSide(group: seq<seq<int>>, pivot: int, rank: nat, lp: nat)
    requires Splittable(group) && lp == RoundPlan(group, pivot).leftProcessors && lp <= rank < |group|
    ensures |RightGroup(group, pivot)| == |group| - lp
    ensures RightGroup(group, pivot)[rank - lp] == NextChunk(group, pivot, rank)
    ensures SplitRank(Sides(|group|, lp), rank) == rank - lp
    ensures SplitSize(Sides(|group|, lp), rank) == |group| - lp
  {
    SplitBySide(|group|, lp, rank);
  }
}
