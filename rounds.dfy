/** One round of the distributed quicksort seen from the whole group at once, and the sort as
    the recursion of rounds down to groups of one worker.

    A group is the sequence of its workers' chunks in rank order. In a round every worker
    partitions its chunk around the common pivot, the group splits into a left side of lp
    workers and a right side of the rest, every worker sends each left worker a share of its
    left items and each right worker a share of its right items, and the group splits by side.
    A worker alone sorts its chunk locally. */
module Rounds {
  import opened Seqs
  import opened Util
  import opened Partitioning
  import opened Collectives

  /** The left items of every worker, in rank order. */
  function Lowers(chunks: seq<seq<int>>, pivot: int): (s: seq<seq<int>>)
    ensures |s| == |chunks|
  {
    seq(|chunks|, i requires 0 <= i < |chunks| => Lower(chunks[i], pivot))
  }

  /** The right items of every worker, in rank order. */
  function Uppers(chunks: seq<seq<int>>, pivot: int): (s: seq<seq<int>>)
    ensures |s| == |chunks|
  {
    seq(|chunks|, i requires 0 <= i < |chunks| => Upper(chunks[i], pivot))
  }

  /** What the all-gather delivers to every worker: each worker's (|left|, |right|). */
  function Gathered(chunks: seq<seq<int>>, pivot: int): (g: seq<(nat, nat)>)
    ensures |g| == |chunks|
  {
    seq(|chunks|, i requires 0 <= i < |chunks| => (|Lower(chunks[i], pivot)|, |Upper(chunks[i], pivot)|))
  }

  /** Across the group the two sides hold every item exactly once, and the left items are not
      above the pivot while the right items are. */
  lemma {:induction false} GroupSplits(chunks: seq<seq<int>>, pivot: int)
    ensures multiset(Flatten(Lowers(chunks, pivot))) + multiset(Flatten(Uppers(chunks, pivot))) == multiset(Flatten(chunks))
    ensures |Flatten(Lowers(chunks, pivot))| + |Flatten(Uppers(chunks, pivot))| == |Flatten(chunks)|
    ensures AllAtMost(Flatten(Lowers(chunks, pivot)), pivot) && AllAbove(Flatten(Uppers(chunks, pivot)), pivot)
  {
    var n := |chunks|;
    if n > 0 {
      var init, last := chunks[..n - 1], chunks[n - 1];
      GroupSplits(init, pivot);
      PartitionSplits(last, pivot);
      assert Lowers(chunks, pivot)[..n - 1] == Lowers(init, pivot);
      assert Uppers(chunks, pivot)[..n - 1] == Uppers(init, pivot);
    }
  }

  /** The gathered pairs count the group's left items and its right items. */
  lemma {:induction false} GatheredCounts(chunks: seq<seq<int>>, pivot: int)
    ensures Sum(Lefts(Gathered(chunks, pivot))) == |Flatten(Lowers(chunks, pivot))|
    ensures Sum(Rights(Gathered(chunks, pivot))) == |Flatten(Uppers(chunks, pivot))|
  {
    var n := |chunks|;
    if n > 0 {
      var init := chunks[..n - 1];
      GatheredCounts(init, pivot);
      assert Lowers(chunks, pivot)[..n - 1] == Lowers(init, pivot);
      assert Uppers(chunks, pivot)[..n - 1] == Uppers(init, pivot);
      assert Lefts(Gathered(chunks, pivot))[..n - 1] == Lefts(Gathered(init, pivot));
      assert Rights(Gathered(chunks, pivot))[..n - 1] == Rights(Gathered(init, pivot));
    }
  }

  /** A group the loop still splits: two or more workers and at least one item among them. */
  predicate Splittable(chunks: seq<seq<int>>)
  {
    |chunks| >= 2 && |Flatten(chunks)| > 0
  }

  lemma GatheredHasItems(chunks: seq<seq<int>>, pivot: int)
    requires Splittable(chunks)
    ensures |Gathered(chunks, pivot)| >= 2
    ensures Sum(Lefts(Gathered(chunks, pivot))) + Sum(Rights(Gathered(chunks, pivot))) > 0
  {
    GroupSplits(chunks, pivot);
    GatheredCounts(chunks, pivot);
  }

  /** The plan every worker of the group derives from the gathered pairs. */
  function RoundPlan(chunks: seq<seq<int>>, pivot: int): (plan: Plan)
    requires Splittable(chunks)
    ensures plan.leftProcessors >= 1 && plan.rightProcessors >= 1
    ensures plan.leftProcessors + plan.rightProcessors == |chunks|
  {
    GatheredHasItems(chunks, pivot);
    PlanOf(Gathered(chunks, pivot))
  }

  /** The send buffer of worker i. */
  function SendBuffer(chunks: seq<seq<int>>, pivot: int, i: nat): (b: seq<int>)
    requires Splittable(chunks) && i < |chunks|
    ensures |b| == |chunks| * RoundPlan(chunks, pivot).maxTransmission
  {
    var g := Gathered(chunks, pivot);
    GatheredHasItems(chunks, pivot);
    MaxTransmissionBounds(g, i);
    SendLayoutBlock(Lower(chunks[i], pivot), Upper(chunks[i], pivot), PlanOf(g), 0);
    SendLayout(Lower(chunks[i], pivot), Upper(chunks[i], pivot), PlanOf(g))
  }

  /** What the all-to-all exchange delivers to every worker of the group. */
  function Exchanged(chunks: seq<seq<int>>, pivot: int): (recv: seq<seq<int>>)
    requires Splittable(chunks)
    ensures |recv| == |chunks|
    ensures forall j :: 0 <= j < |chunks| ==> |recv[j]| == |chunks| * RoundPlan(chunks, pivot).maxTransmission
  {
    Alltoall(seq(|chunks|, i requires 0 <= i < |chunks| => SendBuffer(chunks, pivot, i)),
             RoundPlan(chunks, pivot).maxTransmission)
  }

  /** The chunk worker j holds after the round: its receive buffer unpadded with the counts it
      recomputes from the gathered pairs. */
  function NextChunk(chunks: seq<seq<int>>, pivot: int, j: nat): seq<int>
    requires Splittable(chunks) && j < |chunks|
  {
    var g := Gathered(chunks, pivot);
    GatheredHasItems(chunks, pivot);
    ReceiveCountsFit(g, j);
    Unpadded(ReceiveCounts(g, PlanOf(g), j), Exchanged(chunks, pivot)[j], PlanOf(g).maxTransmission)
  }

  function NextChunks(chunks: seq<seq<int>>, pivot: int): (next: seq<seq<int>>)
    requires Splittable(chunks)
    ensures |next| == |chunks|
  {
    seq(|chunks|, j requires 0 <= j < |chunks| => NextChunk(chunks, pivot, j))
  }

  /** The share of worker i's items that the plan sends to rank j: a piece of its left items
      for a left rank, a piece of its right items for a right rank. */
  function Share(chunks: seq<seq<int>>, pivot: int, i: nat, j: nat): seq<int>
    requires Splittable(chunks) && i < |chunks| && j < |chunks|
  {
    var plan := RoundPlan(chunks, pivot);
    var lo, up := Lower(chunks[i], pivot), Upper(chunks[i], pivot);
    AllocationSum(|lo|, plan.leftProcessors);
    AllocationSum(|up|, plan.rightProcessors);
    if j < plan.leftProcessors then Piece(lo, Allocation(|lo|, plan.leftProcessors), j)
    else Piece(up, Allocation(|up|, plan.rightProcessors), j - plan.leftProcessors)
  }

  /** Block i of what worker j unpads is exactly the share worker i packed for it. */
  lemma RoundBlock(chunks: seq<seq<int>>, pivot: int, i: nat, j: nat)
    requires Splittable(chunks) && i < |chunks| && j < |chunks|
    ensures var plan := RoundPlan(chunks, pivot);
      var count := ReceiveCounts(Gathered(chunks, pivot), plan, j)[i];
      i * plan.maxTransmission + count <= |Exchanged(chunks, pivot)[j]| &&
      BlockPrefix(Exchanged(chunks, pivot)[j], i, plan.maxTransmission, count) == Share(chunks, pivot, i, j)
  {
    var g := Gathered(chunks, pivot);
    GatheredHasItems(chunks, pivot);
    var plan := PlanOf(g);
    var w, n := plan.maxTransmission, |chunks|;
    ReceiveCountsFit(g, j);
    var count := ReceiveCounts(g, plan, j)[i];
    var send := seq(n, k requires 0 <= k < n => SendBuffer(chunks, pivot, k));
    var recv := Exchanged(chunks, pivot);
    var lo, up := Lower(chunks[i], pivot), Upper(chunks[i], pivot);
    MaxTransmissionBounds(g, i);
    ReceiveCountsMatchSendCounts(g, plan, j, i);
    assert count == SendCounts(|lo|, |up|, plan)[j];
    SendLayoutBlock(lo, up, plan, j);
    AlltoallTransposes(send, w, i, j);
    BlockPrefixOfBlock(recv[j], n, i, w, count);
    BlockPrefixOfBlock(send[i], n, j, w, count);
  }

  /** What worker j holds after the round is the concatenation, in sender rank order, of the
      shares every worker packed for it. */
  lemma RoundReceives(chunks: seq<seq<int>>, pivot: int, j: nat)
    requires Splittable(chunks) && j < |chunks|
    ensures NextChunk(chunks, pivot, j) ==
      Flatten(seq(|chunks|, i requires 0 <= i < |chunks| => Share(chunks, pivot, i, j)))
  {
    var g := Gathered(chunks, pivot);
    GatheredHasItems(chunks, pivot);
    ReceiveCountsFit(g, j);
    var blocks := ReceivedBlocks(ReceiveCounts(g, PlanOf(g), j), Exchanged(chunks, pivot)[j], PlanOf(g).maxTransmission);
    forall i | 0 <= i < |chunks|
      ensures blocks[i] == Share(chunks, pivot, i, j)
    {
      RoundBlock(chunks, pivot, i, j);
    }
    assert blocks == seq(|chunks|, i requires 0 <= i < |chunks| => Share(chunks, pivot, i, j));
  }

  /** The shares worker i packs, one per destination rank. */
  function SharesOf(chunks: seq<seq<int>>, pivot: int, i: nat): (row: seq<seq<int>>)
    requires Splittable(chunks) && i < |chunks|
    ensures |row| == |chunks|
  {
    seq(|chunks|, j requires 0 <= j < |chunks| => Share(chunks, pivot, i, j))
  }

  /** The shares of every worker for the left ranks, one row per sender. */
  function LeftShares(chunks: seq<seq<int>>, pivot: int): (m: seq<seq<seq<int>>>)
    requires Splittable(chunks)
    ensures |m| == |chunks|
    ensures forall i :: 0 <= i < |m| ==> |m[i]| == RoundPlan(chunks, pivot).leftProcessors
  {
    var lp := RoundPlan(chunks, pivot).leftProcessors;
    seq(|chunks|, i requires 0 <= i < |chunks| => SharesOf(chunks, pivot, i)[..lp])
  }

  /** The shares of every worker for the right ranks, one row per sender. */
  function RightShares(chunks: seq<seq<int>>, pivot: int): (m: seq<seq<seq<int>>>)
    requires Splittable(chunks)
    ensures |m| == |chunks|
    ensures forall i :: 0 <= i < |m| ==> |m[i]| == RoundPlan(chunks, pivot).rightProcessors
  {
    var lp := RoundPlan(chunks, pivot).leftProcessors;
    seq(|chunks|, i requires 0 <= i < |chunks| => SharesOf(chunks, pivot, i)[lp..])
  }

  /** A share for a right rank lp + q is piece q of the sender's right items. */
  lemma ShareRight(chunks: seq<seq<int>>, pivot: int, i: nat, q: nat)
    requires Splittable(chunks) && i < |chunks|
    requires q < RoundPlan(chunks, pivot).rightProcessors
    ensures var plan := RoundPlan(chunks, pivot);
      var up := Upper(chunks[i], pivot);
      Sum(Allocation(|up|, plan.rightProcessors)) == |up| &&
      Share(chunks, pivot, i, plan.leftProcessors + q) == Piece(up, Allocation(|up|, plan.rightProcessors), q)
  {
    var plan := RoundPlan(chunks, pivot);
    AllocationSum(|Upper(chunks[i], pivot)|, plan.rightProcessors);
    assert plan.leftProcessors + q - plan.leftProcessors == q;
  }

  /** A sender's left shares put together are its left items. */
  lemma LeftSharesCover(chunks: seq<seq<int>>, pivot: int, i: nat)
    requires Splittable(chunks) && i < |chunks|
    ensures Flatten(LeftShares(chunks, pivot)[i]) == Lower(chunks[i], pivot)
  {
    var lp := RoundPlan(chunks, pivot).leftProcessors;
    var lo := Lower(chunks[i], pivot);
    var la := Allocation(|lo|, lp);
    AllocationSum(|lo|, lp);
    var row := LeftShares(chunks, pivot)[i];
    forall p | 0 <= p < lp
      ensures row[p] == Piece(lo, la, p)
    {
      assert row[p] == Share(chunks, pivot, i, p);
    }
    assert row == seq(lp, p requires 0 <= p < lp => Piece(lo, la, p));
    PiecesConcat(lo, la, lp);
    assert la[..lp] == la && lo[..|lo|] == lo;
  }

  /** A sender's right shares put together are its right items. */
  lemma RightSharesCover(chunks: seq<seq<int>>, pivot: int, i: nat)
    requires Splittable(chunks) && i < |chunks|
    ensures Flatten(RightShares(chunks, pivot)[i]) == Upper(chunks[i], pivot)
  {
    var rp := RoundPlan(chunks, pivot).rightProcessors;
    var up := Upper(chunks[i], pivot);
    var ra := Allocation(|up|, rp);
    AllocationSum(|up|, rp);
    var row := RightShares(chunks, pivot)[i];
    forall q | 0 <= q < rp
      ensures row[q] == Piece(up, ra, q)
    {
      ShareRight(chunks, pivot, i, q);
    }
    assert row == seq(rp, q requires 0 <= q < rp => Piece(up, ra, q));
    PiecesConcat(up, ra, rp);
    assert ra[..rp] == ra && up[..|up|] == up;
  }

  /** Left rank j receives column j of the left shares. */
  lemma LeftColumn(chunks: seq<seq<int>>, pivot: int, j: nat)
    requires Splittable(chunks) && j < RoundPlan(chunks, pivot).leftProcessors
    ensures NextChunk(chunks, pivot, j) == ColumnOf(LeftShares(chunks, pivot), j)
  {
    var n, left := |chunks|, LeftShares(chunks, pivot);
    var column := seq(n, i requires 0 <= i < n => Share(chunks, pivot, i, j));
    forall i | 0 <= i < n
      ensures left[i][j] == column[i]
    {
      assert left[i] == SharesOf(chunks, pivot, i)[..RoundPlan(chunks, pivot).leftProcessors];
    }
    ColumnOfEntries(left, j, column);
    RoundReceives(chunks, pivot, j);
  }

  /** Entry (i, q) of the right shares is the share sender i packed for right rank lp + q. */
  lemma RightSharesEntry(chunks: seq<seq<int>>, pivot: int, i: nat, q: nat)
    requires Splittable(chunks) && i < |chunks| && RoundPlan(chunks, pivot).leftProcessors + q < |chunks|
    ensures RightShares(chunks, pivot)[i][q] == Share(chunks, pivot, i, RoundPlan(chunks, pivot).leftProcessors + q)
  {
    var lp := RoundPlan(chunks, pivot).leftProcessors;
    assert RightShares(chunks, pivot)[i] == SharesOf(chunks, pivot, i)[lp..];
  }

  /** Column q of the right shares lists what every sender packed for right rank j = lp + q. */
  lemma RightColumnShares(chunks: seq<seq<int>>, pivot: int, q: nat, j: nat)
    requires Splittable(chunks) && j == RoundPlan(chunks, pivot).leftProcessors + q < |chunks|
    ensures ColumnOf(RightShares(chunks, pivot), q) ==
            Flatten(seq(|chunks|, i requires 0 <= i < |chunks| => Share(chunks, pivot, i, j)))
  {
    var n, right := |chunks|, RightShares(chunks, pivot);
    var column := seq(n, i requires 0 <= i < n => Share(chunks, pivot, i, j));
    forall i | 0 <= i < n
      ensures right[i][q] == column[i]
    {
      RightSharesEntry(chunks, pivot, i, q);
    }
    ColumnOfEntries(right, q, column);
  }

  /** Right rank lp + q, the q-th of the right group, receives column q of the right shares. */
  lemma RightColumn(chunks: seq<seq<int>>, pivot: int, q: nat)
    requires Splittable(chunks) && q < RoundPlan(chunks, pivot).rightProcessors
    ensures NextChunks(chunks, pivot)[RoundPlan(chunks, pivot).leftProcessors..][q] == ColumnOf(RightShares(chunks, pivot), q)
  {
    var next, lp := NextChunks(chunks, pivot), RoundPlan(chunks, pivot).leftProcessors;
    var j := lp + q;
    assert next[lp..][q] == next[j];
    assert next[j] == NextChunk(chunks, pivot, j);
    RoundReceives(chunks, pivot, j);
    RightColumnShares(chunks, pivot, q, j);
  }

  /** The left ranks together receive every left item of the group, each exactly once. */
  lemma LeftRedistributes(chunks: seq<seq<int>>, pivot: int)
    requires Splittable(chunks)
    ensures multiset(Flatten(NextChunks(chunks, pivot)[..RoundPlan(chunks, pivot).leftProcessors])) ==
            multiset(Flatten(Lowers(chunks, pivot)))
  {
    var lp, n := RoundPlan(chunks, pivot).leftProcessors, |chunks|;
    var received, left := NextChunks(chunks, pivot)[..lp], LeftShares(chunks, pivot);
    forall j | 0 <= j < lp
      ensures received[j] == ColumnOf(left, j)
    {
      assert received[j] == NextChunk(chunks, pivot, j);
      LeftColumn(chunks, pivot, j);
    }
    forall i | 0 <= i < n
      ensures Lowers(chunks, pivot)[i] == Flatten(left[i])
    {
      LeftSharesCover(chunks, pivot, i);
    }
    ColumnsKeepItems(left, lp, received, Lowers(chunks, pivot));
  }

  /** The right ranks together receive every right item of the group, each exactly once. */
  lemma RightRedistributes(chunks: seq<seq<int>>, pivot: int)
    requires Splittable(chunks)
    ensures multiset(Flatten(NextChunks(chunks, pivot)[RoundPlan(chunks, pivot).leftProcessors..])) ==
            multiset(Flatten(Uppers(chunks, pivot)))
  {
    var plan, n := RoundPlan(chunks, pivot), |chunks|;
    var lp, rp := plan.leftProcessors, plan.rightProcessors;
    var received, right := NextChunks(chunks, pivot)[lp..], RightShares(chunks, pivot);
    forall q | 0 <= q < rp
      ensures received[q] == ColumnOf(right, q)
    {
      RightColumn(chunks, pivot, q);
    }
    forall i | 0 <= i < n
      ensures Uppers(chunks, pivot)[i] == Flatten(right[i])
    {
      RightSharesCover(chunks, pivot, i);
    }
    ColumnsKeepItems(right, rp, received, Uppers(chunks, pivot));
  }

  /** A round splits a group into two strictly smaller groups; the left group holds only items
      not above the pivot and the right group only items above it; together they hold the
      group's items; and each of them that still has two or more workers has items to sort. */
  lemma RoundSplits(chunks: seq<seq<int>>, pivot: int)
    requires Splittable(chunks)
    ensures var lp, next := RoundPlan(chunks, pivot).leftProcessors, NextChunks(chunks, pivot);
      1 <= lp < |chunks| &&
      AllAtMost(Flatten(next[..lp]), pivot) && AllAbove(Flatten(next[lp..]), pivot) &&
      multiset(Flatten(next[..lp])) + multiset(Flatten(next[lp..])) == multiset(Flatten(chunks)) &&
      (lp >= 2 ==> |Flatten(next[..lp])| > 0) &&
      (|chunks| - lp >= 2 ==> |Flatten(next[lp..])| > 0)
  {
    var g, plan, next := Gathered(chunks, pivot), RoundPlan(chunks, pivot), NextChunks(chunks, pivot);
    var lp := plan.leftProcessors;
    GroupSplits(chunks, pivot);
    GatheredCounts(chunks, pivot);
    LeftRedistributes(chunks, pivot);
    RightRedistributes(chunks, pivot);
    MultisetKeepsBounds(Flatten(next[..lp]), Flatten(Lowers(chunks, pivot)), pivot);
    MultisetKeepsBounds(Flatten(next[lp..]), Flatten(Uppers(chunks, pivot)), pivot);
    assert |multiset(Flatten(next[..lp]))| == |Flatten(next[..lp])|;
    assert |multiset(Flatten(next[lp..]))| == |Flatten(next[lp..])|;
    ProcessorSplitKeepsWork(|g|, Sum(Lefts(g)), Sum(Rights(g)));
  }

  /** The group the left workers form after the round: ranks 0 .. lp - 1 of the next chunks. */
  function LeftGroup(chunks: seq<seq<int>>, pivot: int): (r: seq<seq<int>>)
    requires Splittable(chunks)
    ensures |r| == RoundPlan(chunks, pivot).leftProcessors
    ensures 1 <= |r| < |chunks| && (|r| >= 2 ==> |Flatten(r)| > 0)
  {
    RoundSplits(chunks, pivot);
    NextChunks(chunks, pivot)[..RoundPlan(chunks, pivot).leftProcessors]
  }

  /** The group the right workers form after the round: ranks lp .. |chunks| - 1. */
  function RightGroup(chunks: seq<seq<int>>, pivot: int): (r: seq<seq<int>>)
    requires Splittable(chunks)
    ensures |r| == |chunks| - RoundPlan(chunks, pivot).leftProcessors
    ensures 1 <= |r| < |chunks| && (|r| >= 2 ==> |Flatten(r)| > 0)
  {
    RoundSplits(chunks, pivot);
    NextChunks(chunks, pivot)[RoundPlan(chunks, pivot).leftProcessors..]
  }

  /** Together the two groups hold exactly the items the group held before the round. */
  lemma RoundKeepsItems(chunks: seq<seq<int>>, pivot: int)
    requires Splittable(chunks)
    ensures multiset(Flatten(LeftGroup(chunks, pivot))) + multiset(Flatten(RightGroup(chunks, pivot))) ==
            multiset(Flatten(chunks))
    ensures AllAtMost(Flatten(LeftGroup(chunks, pivot)), pivot) && AllAbove(Flatten(RightGroup(chunks, pivot)), pivot)
  {
    RoundSplits(chunks, pivot);
  }

  /** The pivot the group agrees on: the scan over the first |chunks| entries of the initial
      allocation picks an owner, and the broadcast hands every worker the owner's candidate. */
  function PivotOf(alloc: seq<nat>, chunks: seq<seq<int>>, draw: nat, stray: int): int
    requires 1 <= |chunks| <= |alloc|
  {
    var owner := ScanOwners(alloc[..|chunks|], draw % |chunks|).owner;
    ScanOwnersSound(alloc[..|chunks|], draw % |chunks|);
    if owner.None? then stray
    else Candidate(chunks[owner.value.rank], owner.value.rank, owner, stray)
  }

  /** A pivot rule: the pivot a group of workers agrees on in a given round. */
  type PivotRule = (seq<seq<int>>, nat) -> int

  /** The rule quick_sort follows: in round d every worker draws draws(d), and the group takes
      the pivot getPivot picks with that draw; strays(d) stands for the value an undetermined
      pivot takes in that round. */
  function SourceRule(alloc: seq<nat>, draws: nat -> nat, strays: nat -> int): PivotRule
  {
    (chunks: seq<seq<int>>, d: nat) =>
      if 1 <= |chunks| <= |alloc| then PivotOf(alloc, chunks, draws(d), strays(d)) else strays(d)
  }

  /** The whole sort from the group's point of view: the chunks every worker ends with. A group
      of one sorts its chunk; a larger group runs a round with the pivot the rule gives at this
      depth, and each side carries on as a group of its own. */
  function SortGroup(chunks: seq<seq<int>>, depth: nat, rule: PivotRule): (r: seq<seq<int>>)
    requires 1 <= |chunks|
    requires |chunks| >= 2 ==> |Flatten(chunks)| > 0
    ensures |r| == |chunks|
    decreases |chunks|
  {
    if |chunks| == 1 then [Sort(chunks[0])]
    else
      var pivot := rule(chunks, depth);
      SortGroup(LeftGroup(chunks, pivot), depth + 1, rule) +
      SortGroup(RightGroup(chunks, pivot), depth + 1, rule)
  }

  /** The sort is correct whatever pivots are chosen: the workers' final chunks, read in rank
      order, are sorted and hold exactly the items the group started with. */
  lemma {:induction false} SortGroupSorts(chunks: seq<seq<int>>, depth: nat, rule: PivotRule)
    requires 1 <= |chunks|
    requires |chunks| >= 2 ==> |Flatten(chunks)| > 0
    ensures Sorted(Flatten(SortGroup(chunks, depth, rule)))
    ensures multiset(Flatten(SortGroup(chunks, depth, rule))) == multiset(Flatten(chunks))
    decreases |chunks|
  {
    if |chunks| == 1 {
      FlattenSingle(Sort(chunks[0]));
      FlattenSingle(chunks[0]);
    } else {
      var pivot := rule(chunks, depth);
      var left, right := LeftGroup(chunks, pivot), RightGroup(chunks, pivot);
      var a := SortGroup(left, depth + 1, rule);
      var b := SortGroup(right, depth + 1, rule);
      SortGroupSorts(left, depth + 1, rule);
      SortGroupSorts(right, depth + 1, rule);
      RoundKeepsItems(chunks, pivot);
      FlattenAppend(a, b);
      MultisetKeepsBounds(Flatten(a), Flatten(left), pivot);
      MultisetKeepsBounds(Flatten(b), Flatten(right), pivot);
      SortedAppend(Flatten(a), Flatten(b), pivot);
    }
  }

  /** The chunk worker rank of the group ends with, followed from its own side: alone it sorts
      its chunk; otherwise it carries on as rank in the left group or as rank - lp in the right
      group. */
  function FinalChunk(chunks: seq<seq<int>>, depth: nat, rule: PivotRule, rank: nat): seq<int>
    requires 1 <= |chunks| && rank < |chunks|
    requires |chunks| >= 2 ==> |Flatten(chunks)| > 0
    decreases |chunks|
  {
    if |chunks| == 1 then Sort(chunks[0])
    else
      var pivot := rule(chunks, depth);
      var lp := RoundPlan(chunks, pivot).leftProcessors;
      if rank < lp then FinalChunk(LeftGroup(chunks, pivot), depth + 1, rule, rank)
      else FinalChunk(RightGroup(chunks, pivot), depth + 1, rule, rank - lp)
  }

  /** What one worker ends with is its own entry of the group-level sort. */
  lemma {:induction false} FinalChunkInSortGroup(chunks: seq<seq<int>>, depth: nat, rule: PivotRule, rank: nat)
    requires 1 <= |chunks| && rank < |chunks|
    requires |chunks| >= 2 ==> |Flatten(chunks)| > 0
    ensures FinalChunk(chunks, depth, rule, rank) == SortGroup(chunks, depth, rule)[rank]
    decreases |chunks|
  {
    if |chunks| >= 2 {
      var pivot := rule(chunks, depth);
      var left, right := LeftGroup(chunks, pivot), RightGroup(chunks, pivot);
      var lp := RoundPlan(chunks, pivot).leftProcessors;
      var a := SortGroup(left, depth + 1, rule);
      var b := SortGroup(right, depth + 1, rule);
      var r := SortGroup(chunks, depth, rule);
      assert r == a + b;
      AppendIndex(r, a, b, lp, rank);
      if rank < lp {
        FinalChunkInSortGroup(left, depth + 1, rule, rank);
      } else {
        FinalChunkInSortGroup(right, depth + 1, rule, rank - lp);
      }
    }
  }

  /** Unfolding one round of the worker's loop: on the left it keeps its rank, on the right it
      becomes rank - lp. */
  lemma FinalChunkStep(chunks: seq<seq<int>>, depth: nat, rule: PivotRule, rank: nat)
    requires Splittable(chunks) && rank < |chunks|
    ensures var pivot := rule(chunks, depth);
      var lp := RoundPlan(chunks, pivot).leftProcessors;
      (rank < lp ==> FinalChunk(chunks, depth, rule, rank) == FinalChunk(LeftGroup(chunks, pivot), depth + 1, rule, rank)) &&
      (lp <= rank ==> FinalChunk(chunks, depth, rule, rank) == FinalChunk(RightGroup(chunks, pivot), depth + 1, rule, rank - lp))
  {
  }

  /** A worker on the left side carries on in the left group, at the same rank. */
  lemma FinalChunkLeft(chunks: seq<seq<int>>, depth: nat, rule: PivotRule, rank: nat, next: seq<seq<int>>)
    requires Splittable(chunks) && rank < |chunks|
    requires rank < RoundPlan(chunks, rule(chunks, depth)).leftProcessors
    requires next == LeftGroup(chunks, rule(chunks, depth))
    ensures 1 <= |next| < |chunks| && (|next| >= 2 ==> |Flatten(next)| > 0) && rank < |next|
    ensures FinalChunk(chunks, depth, rule, rank) == FinalChunk(next, depth + 1, rule, rank)
  {
    FinalChunkStep(chunks, depth, rule, rank);
  }

  /** A worker on the right side carries on in the right group, at its rank less lp. */
  lemma FinalChunkRight(chunks: seq<seq<int>>, depth: nat, rule: PivotRule, rank: nat, next: seq<seq<int>>, newRank: nat)
    requires Splittable(chunks) && rank < |chunks|
    requires RoundPlan(chunks, rule(chunks, depth)).leftProcessors <= rank
    requires next == RightGroup(chunks, rule(chunks, depth))
    requires newRank == rank - RoundPlan(chunks, rule(chunks, depth)).leftProcessors
    ensures 1 <= |next| < |chunks| && (|next| >= 2 ==> |Flatten(next)| > 0) && newRank < |next|
    ensures FinalChunk(chunks, depth, rule, rank) == FinalChunk(next, depth + 1, rule, newRank)
  {
    var pivot := rule(chunks, depth);
    var lp := RoundPlan(chunks, pivot).leftProcessors;
    FinalChunkStep(chunks, depth, rule, rank);
    assert FinalChunk(chunks, depth, rule, rank) == FinalChunk(next, depth + 1, rule, rank - lp);
    FinalChunkSameRank(next, depth + 1, rule, rank - lp, newRank);
  }

  /** The final chunk depends on the rank only through its value. */
  lemma FinalChunkSameRank(chunks: seq<seq<int>>, depth: nat, rule: PivotRule, rank: nat, other: nat)
    requires 1 <= |chunks| && rank < |chunks| && (|chunks| >= 2 ==> |Flatten(chunks)| > 0)
    requires rank == other
    ensures FinalChunk(chunks, depth, rule, rank) == FinalChunk(chunks, depth, rule, other)
  {
  }
}
