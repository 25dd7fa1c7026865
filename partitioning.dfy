/** The local arithmetic of one round of the distributed quicksort in sorter.cpp: the split of
    a chunk around the pivot, the totals of the gathered partition sizes, the division of the
    group into a left and a right side, the padded layout of the send buffer, the counts a
    receiver unpads with, the colour choice, and the scan that locates the pivot's owner. */
module Partitioning {
  import opened Seqs
  import opened Util

  datatype Option<T> = None | Some(value: T)

  /** Color_t: the side of the split a worker joins. */
  datatype Color = RightColor | LeftColor

  /** The items of xs that go to the left side (not greater than the pivot), in order. */
  function Lower(xs: seq<int>, pivot: int): seq<int>
  {
    if xs == [] then []
    else if xs[|xs| - 1] > pivot then Lower(xs[..|xs| - 1], pivot)
    else Lower(xs[..|xs| - 1], pivot) + [xs[|xs| - 1]]
  }

  /** The items of xs that go to the right side (greater than the pivot), in order. */
  function Upper(xs: seq<int>, pivot: int): seq<int>
  {
    if xs == [] then []
    else if xs[|xs| - 1] > pivot then Upper(xs[..|xs| - 1], pivot) + [xs[|xs| - 1]]
    else Upper(xs[..|xs| - 1], pivot)
  }

  /** Looking at one more item appends it to exactly one of the two sides. */
  lemma PartitionStep(xs: seq<int>, pivot: int, i: nat)
    requires i < |xs|
    ensures Lower(xs[..i + 1], pivot) == Lower(xs[..i], pivot) + (if xs[i] > pivot then [] else [xs[i]])
    ensures Upper(xs[..i + 1], pivot) == Upper(xs[..i], pivot) + (if xs[i] > pivot then [xs[i]] else [])
  {
    assert xs[..i + 1][..i] == xs[..i];
  }

  /** The two sides split the chunk: together they hold every item exactly once, the left side
      holds only items not above the pivot and the right side only items above it. */
  lemma {:induction false} PartitionSplits(xs: seq<int>, pivot: int)
    ensures multiset(Lower(xs, pivot)) + multiset(Upper(xs, pivot)) == multiset(xs)
    ensures |Lower(xs, pivot)| + |Upper(xs, pivot)| == |xs|
    ensures AllAtMost(Lower(xs, pivot), pivot) && AllAbove(Upper(xs, pivot), pivot)
  {
    if xs != [] {
      var init, x := xs[..|xs| - 1], xs[|xs| - 1];
      var lo, up := Lower(init, pivot), Upper(init, pivot);
      PartitionSplits(init, pivot);
      assert xs == init + [x];
      assert multiset(xs) == multiset(init) + multiset{x};
      if x > pivot {
        assert Lower(xs, pivot) == lo && Upper(xs, pivot) == up + [x];
        assert multiset(up + [x]) == multiset(up) + multiset{x};
        AppendKeepsAbove(up, x, pivot);
      } else {
        assert Lower(xs, pivot) == lo + [x] && Upper(xs, pivot) == up;
        assert multiset(lo + [x]) == multiset(lo) + multiset{x};
        AppendKeepsAtMost(lo, x, pivot);
      }
    }
  }

  lemma AppendKeepsAtMost(s: seq<int>, x: int, bound: int)
    requires AllAtMost(s, bound) && x <= bound
    ensures AllAtMost(s + [x], bound)
  {
    forall k | 0 <= k < |s| + 1
      ensures (s + [x])[k] <= bound
    {
      if k < |s| { assert (s + [x])[k] == s[k]; }
    }
  }

  lemma AppendKeepsAbove(s: seq<int>, x: int, bound: int)
    requires AllAbove(s, bound) && x > bound
    ensures AllAbove(s + [x], bound)
  {
    forall k | 0 <= k < |s| + 1
      ensures (s + [x])[k] > bound
    {
      if k < |s| { assert (s + [x])[k] == s[k]; }
    }
  }

  /** The left side holds exactly the chunk's items not above the pivot, and the right side
      exactly those above it. */
  lemma PartitionMembers(xs: seq<int>, pivot: int)
    ensures forall v :: v in Lower(xs, pivot) <==> v in xs && v <= pivot
    ensures forall v :: v in Upper(xs, pivot) <==> v in xs && v > pivot
  {
    PartitionSplits(xs, pivot);
    var lo, up := Lower(xs, pivot), Upper(xs, pivot);
    forall v
      ensures v in lo <==> v in xs && v <= pivot
      ensures v in up <==> v in xs && v > pivot
    {
      assert v in multiset(xs) <==> v in multiset(lo) || v in multiset(up);
    }
  }

  /** The (|left|, |right|) pairs of the group, in rank order, as the all-gather delivers them. */
  function Lefts(g: seq<(nat, nat)>): (s: seq<nat>)
    ensures |s| == |g| && forall i :: 0 <= i < |g| ==> s[i] == g[i].0
  {
    seq(|g|, i requires 0 <= i < |g| => g[i].0)
  }

  function Rights(g: seq<(nat, nat)>): (s: seq<nat>)
    ensures |s| == |g| && forall i :: 0 <= i < |g| ==> s[i] == g[i].1
  {
    seq(|g|, i requires 0 <= i < |g| => g[i].1)
  }

  /** The largest entry, or 0 for no entries. */
  function MaxOf(s: seq<nat>): (m: nat)
    ensures forall i :: 0 <= i < |s| ==> s[i] <= m
    ensures s == [] ==> m == 0
    ensures s != [] ==> m in s
  {
    if s == [] then 0 else Max(MaxOf(s[..|s| - 1]), s[|s| - 1])
  }

  /** The four totals the gathered pairs are reduced to. */
  datatype Totals = Totals(leftCount: nat, rightCount: nat, leftMaxCount: nat, rightMaxCount: nat)

  function GatheredTotals(g: seq<(nat, nat)>): Totals
  {
    Totals(Sum(Lefts(g)), Sum(Rights(g)), MaxOf(Lefts(g)), MaxOf(Rights(g)))
  }

  lemma GatheredTotalsStep(g: seq<(nat, nat)>, i: nat)
    requires i < |g|
    ensures GatheredTotals(g[..i + 1]) ==
      var t := GatheredTotals(g[..i]);
      Totals(t.leftCount + g[i].0, t.rightCount + g[i].1,
             Max(t.leftMaxCount, g[i].0), Max(t.rightMaxCount, g[i].1))
  {
    assert Lefts(g[..i + 1]) == Lefts(g[..i]) + [g[i].0];
    assert Rights(g[..i + 1]) == Rights(g[..i]) + [g[i].1];
    assert Lefts(g[..i + 1])[..i] == Lefts(g[..i]);
    assert Rights(g[..i + 1])[..i] == Rights(g[..i]);
  }

  lemma ShareBound(commSize: nat, leftCount: nat, rightCount: nat)
    requires leftCount + rightCount > 0
    ensures commSize * leftCount / (leftCount + rightCount) <= commSize
    ensures leftCount == 0 ==> commSize * leftCount / (leftCount + rightCount) == 0
    ensures rightCount == 0 ==> commSize * leftCount / (leftCount + rightCount) == commSize
  {
    var total := leftCount + rightCount;
    MulMono(leftCount, total, commSize);
    DivMono(commSize * leftCount, commSize * total, total);
    MulDivCancel(commSize, total);
  }

  /** The number of workers that take the left side and the right side: the left side's
      proportional share of the group, rounded down, moved by one when it would leave a side
      without a worker. */
  function ProcessorSplit(commSize: nat, leftCount: nat, rightCount: nat): (r: (nat, nat))
    requires commSize >= 1 && leftCount + rightCount > 0
    ensures r.0 + r.1 == commSize && r.1 >= 1
    ensures commSize >= 2 ==> r.0 >= 1
  {
    ShareBound(commSize, leftCount, rightCount);
    var share := commSize * leftCount / (leftCount + rightCount);
    var (lp, rp) := if share == 0 then (1, commSize - 1) else (share, commSize - share);
    if rp == 0 then (lp - 1, 1) else (lp, rp)
  }

  /** In a group of two or more the split never strands items: a side with no items gets
      exactly one worker, so a side of two or more workers always has items to share out, and
      the next round's division is never by zero. */
  lemma ProcessorSplitKeepsWork(commSize: nat, leftCount: nat, rightCount: nat)
    requires commSize >= 2 && leftCount + rightCount > 0
    ensures var (lp, rp) := ProcessorSplit(commSize, leftCount, rightCount);
      (leftCount == 0 ==> lp == 1) && (rightCount == 0 ==> rp == 1) &&
      (lp >= 2 ==> leftCount > 0) && (rp >= 2 ==> rightCount > 0)
  {
    ShareBound(commSize, leftCount, rightCount);
  }

  /** The split of a group and the width every transmission is padded to. */
  datatype Plan = Plan(leftProcessors: nat, rightProcessors: nat, maxTransmission: nat)

  /** What every worker of the group computes from the gathered pairs. */
  function PlanOf(g: seq<(nat, nat)>): (plan: Plan)
    requires |g| >= 2 && Sum(Lefts(g)) + Sum(Rights(g)) > 0
    ensures plan.leftProcessors >= 1 && plan.rightProcessors >= 1
    ensures plan.leftProcessors + plan.rightProcessors == |g|
  {
    var t := GatheredTotals(g);
    var (lp, rp) := ProcessorSplit(|g|, t.leftCount, t.rightCount);
    Plan(lp, rp, Max(Allocation(t.leftMaxCount, lp)[0], Allocation(t.rightMaxCount, rp)[0]))
  }

  /** Every count any worker of the group sends or receives fits in the padded width, so no
      count of filler items underflows. */
  lemma MaxTransmissionBounds(g: seq<(nat, nat)>, i: nat)
    requires |g| >= 2 && Sum(Lefts(g)) + Sum(Rights(g)) > 0 && i < |g|
    ensures Fits(Allocation(g[i].0, PlanOf(g).leftProcessors), PlanOf(g).maxTransmission)
    ensures Fits(Allocation(g[i].1, PlanOf(g).rightProcessors), PlanOf(g).maxTransmission)
  {
    var plan, t := PlanOf(g), GatheredTotals(g);
    assert Lefts(g)[i] == g[i].0 && Rights(g)[i] == g[i].1;
    AllocationMonotone(g[i].0, t.leftMaxCount, plan.leftProcessors);
    AllocationMonotone(g[i].1, t.rightMaxCount, plan.rightProcessors);
  }

  /** The counts a worker packs for each destination rank: its left items spread over the left
      side, then its right items spread over the right side. */
  function SendCounts(leftSize: nat, rightSize: nat, plan: Plan): (c: seq<nat>)
    requires plan.leftProcessors >= 1 && plan.rightProcessors >= 1
    ensures |c| == plan.leftProcessors + plan.rightProcessors
  {
    Allocation(leftSize, plan.leftProcessors) + Allocation(rightSize, plan.rightProcessors)
  }

  /** A send buffer whose counts fit in the padded width. */
  predicate Packable(left: seq<int>, right: seq<int>, plan: Plan)
  {
    plan.leftProcessors >= 1 && plan.rightProcessors >= 1 &&
    Fits(Allocation(|left|, plan.leftProcessors), plan.maxTransmission) &&
    Fits(Allocation(|right|, plan.rightProcessors), plan.maxTransmission)
  }

  /** The send buffer: one block of the padded width per destination rank, the left items
      padded with 0 for the left side and the right items padded with -1 for the right side. */
  function SendLayout(left: seq<int>, right: seq<int>, plan: Plan): seq<int>
    requires Packable(left, right, plan)
  {
    AllocationSum(|left|, plan.leftProcessors);
    AllocationSum(|right|, plan.rightProcessors);
    Padded(Allocation(|left|, plan.leftProcessors), left, plan.maxTransmission, 0) +
    Padded(Allocation(|right|, plan.rightProcessors), right, plan.maxTransmission, -1)
  }

  /** Block p of the send buffer starts at p times the padded width; for p < lp it holds the
      p-th piece of the left items and then 0s, for p = lp + q the q-th piece of the right items
      and then -1s. */
  lemma SendLayoutBlock(left: seq<int>, right: seq<int>, plan: Plan, p: nat)
    requires Packable(left, right, plan) && p < plan.leftProcessors + plan.rightProcessors
    ensures |SendLayout(left, right, plan)| == (plan.leftProcessors + plan.rightProcessors) * plan.maxTransmission
    ensures SendCounts(|left|, |right|, plan)[p] <= plan.maxTransmission
    ensures p * plan.maxTransmission + SendCounts(|left|, |right|, plan)[p] <= |SendLayout(left, right, plan)|
    ensures p < plan.leftProcessors ==>
      Sum(Allocation(|left|, plan.leftProcessors)) <= |left| &&
      BlockPrefix(SendLayout(left, right, plan), p, plan.maxTransmission, SendCounts(|left|, |right|, plan)[p]) ==
        Piece(left, Allocation(|left|, plan.leftProcessors), p)
    ensures plan.leftProcessors <= p ==>
      Sum(Allocation(|right|, plan.rightProcessors)) <= |right| &&
      BlockPrefix(SendLayout(left, right, plan), p, plan.maxTransmission, SendCounts(|left|, |right|, plan)[p]) ==
        Piece(right, Allocation(|right|, plan.rightProcessors), p - plan.leftProcessors)
  {
    var lp, rp, w := plan.leftProcessors, plan.rightProcessors, plan.maxTransmission;
    var la, ra := Allocation(|left|, lp), Allocation(|right|, rp);
    AllocationSum(|left|, lp);
    AllocationSum(|right|, rp);
    var y, z := Padded(la, left, w, 0), Padded(ra, right, w, -1);
    PaddedLength(la, left, w, 0);
    PaddedLength(ra, right, w, -1);
    assert SendLayout(left, right, plan) == y + z;
    MulDistrib(lp, rp, w);
    if p < lp {
      assert SendCounts(|left|, |right|, plan)[p] == la[p];
      SendLeftBlock(left, right, plan, p);
    } else {
      var q := p - lp;
      assert p == lp + q && SendCounts(|left|, |right|, plan)[p] == ra[q];
      SendRightBlock(left, right, plan, q);
    }
  }

  /** Block p < lp of the send buffer starts with the p-th piece of the left items. */
  lemma SendLeftBlock(left: seq<int>, right: seq<int>, plan: Plan, p: nat)
    requires Packable(left, right, plan) && p < plan.leftProcessors
    ensures Sum(Allocation(|left|, plan.leftProcessors)) <= |left|
    ensures p * plan.maxTransmission + Allocation(|left|, plan.leftProcessors)[p] <= |SendLayout(left, right, plan)|
    ensures BlockPrefix(SendLayout(left, right, plan), p, plan.maxTransmission,
                        Allocation(|left|, plan.leftProcessors)[p]) ==
            Piece(left, Allocation(|left|, plan.leftProcessors), p)
  {
    var lp, rp, w := plan.leftProcessors, plan.rightProcessors, plan.maxTransmission;
    var la, ra := Allocation(|left|, lp), Allocation(|right|, rp);
    AllocationSum(|left|, lp);
    AllocationSum(|right|, rp);
    var y, z := Padded(la, left, w, 0), Padded(ra, right, w, -1);
    assert SendLayout(left, right, plan) == y + z;
    PaddedLayout(la, left, w, 0, p);
    BlockPrefixAppendLeft(y, z, p, w, la[p]);
  }

  /** Block lp + q of the send buffer starts with the q-th piece of the right items. */
  lemma SendRightBlock(left: seq<int>, right: seq<int>, plan: Plan, q: nat)
    requires Packable(left, right, plan) && q < plan.rightProcessors
    ensures Sum(Allocation(|right|, plan.rightProcessors)) <= |right|
    ensures (plan.leftProcessors + q) * plan.maxTransmission + Allocation(|right|, plan.rightProcessors)[q] <=
            |SendLayout(left, right, plan)|
    ensures BlockPrefix(SendLayout(left, right, plan), plan.leftProcessors + q, plan.maxTransmission,
                        Allocation(|right|, plan.rightProcessors)[q]) ==
            Piece(right, Allocation(|right|, plan.rightProcessors), q)
  {
    var lp, rp, w := plan.leftProcessors, plan.rightProcessors, plan.maxTransmission;
    var la, ra := Allocation(|left|, lp), Allocation(|right|, rp);
    AllocationSum(|left|, lp);
    AllocationSum(|right|, rp);
    var y, z := Padded(la, left, w, 0), Padded(ra, right, w, -1);
    PaddedLength(la, left, w, 0);
    assert SendLayout(left, right, plan) == y + z;
    PaddedLayout(ra, right, w, -1, q);
    BlockPrefixAppendRight(y, z, lp, q, w, ra[q]);
  }

  /** Unpadding the send buffer with the counts it was packed with gives back the left items
      followed by the right items. */
  lemma SendLayoutRoundTrip(left: seq<int>, right: seq<int>, plan: Plan)
    requires Packable(left, right, plan)
    ensures BlocksWithin(SendCounts(|left|, |right|, plan), plan.maxTransmission, |SendLayout(left, right, plan)|)
    ensures Unpadded(SendCounts(|left|, |right|, plan), SendLayout(left, right, plan), plan.maxTransmission) == left + right
  {
    var lp, rp, w := plan.leftProcessors, plan.rightProcessors, plan.maxTransmission;
    var la, ra := Allocation(|left|, lp), Allocation(|right|, rp);
    AllocationSum(|left|, lp);
    AllocationSum(|right|, rp);
    var y, z := Padded(la, left, w, 0), Padded(ra, right, w, -1);
    PaddedLength(la, left, w, 0);
    UnpadPadRoundTrip(la, left, w, 0);
    UnpadPadRoundTrip(ra, right, w, -1);
    UnpaddedAppend(la, ra, y, z, w);
    assert left[..|left|] == left && right[..|right|] == right;
  }

  /** The colour of a worker: the first lp ranks form the left side. */
  function ColorOf(rank: nat, leftProcessors: nat): (c: Color)
    ensures c == LeftColor <==> rank < leftProcessors
  {
    if rank >= leftProcessors then RightColor else LeftColor
  }

  /** The counts a receiver unpads with, one per sender: the share the planner gives this rank
      of that sender's left items (on the left side) or right items (on the right side). */
  function ReceiveCounts(g: seq<(nat, nat)>, plan: Plan, rank: nat): (c: seq<nat>)
    requires plan.leftProcessors >= 1 && plan.rightProcessors >= 1
    requires rank < plan.leftProcessors + plan.rightProcessors
    ensures |c| == |g|
  {
    seq(|g|, p requires 0 <= p < |g| =>
      if rank < plan.leftProcessors then Allocation(g[p].0, plan.leftProcessors)[rank]
      else Allocation(g[p].1, plan.rightProcessors)[rank - plan.leftProcessors])
  }

  /** Every count a receiver unpads with fits in the padded width, so each block's items lie
      inside a receive buffer of |g| blocks. */
  lemma ReceiveCountsFit(g: seq<(nat, nat)>, rank: nat)
    requires |g| >= 2 && Sum(Lefts(g)) + Sum(Rights(g)) > 0 && rank < |g|
    ensures forall p :: 0 <= p < |g| ==> ReceiveCounts(g, PlanOf(g), rank)[p] <= PlanOf(g).maxTransmission
    ensures BlocksWithin(ReceiveCounts(g, PlanOf(g), rank), PlanOf(g).maxTransmission, |g| * PlanOf(g).maxTransmission)
  {
    var plan := PlanOf(g);
    var c, w := ReceiveCounts(g, plan, rank), plan.maxTransmission;
    forall p | 0 <= p < |g|
      ensures c[p] <= w && p * w + c[p] <= |g| * w
    {
      MaxTransmissionBounds(g, p);
      MulMono(p + 1, |g|, w);
      MulDistrib(p, 1, w);
    }
  }

  /** The receiver unpads each block with the very count its sender packed into it. */
  lemma ReceiveCountsMatchSendCounts(g: seq<(nat, nat)>, plan: Plan, rank: nat, p: nat)
    requires plan.leftProcessors >= 1 && plan.rightProcessors >= 1
    requires rank < plan.leftProcessors + plan.rightProcessors && p < |g|
    ensures ReceiveCounts(g, plan, rank)[p] == SendCounts(g[p].0, g[p].1, plan)[rank]
  {
  }

  /** Where the scan over the allocation stands: the remaining draw and the last owner found. */
  datatype Owner = Owner(rank: nat, offset: nat)
  datatype Scan = Scan(k: nat, owner: Option<Owner>)

  /** The owner scan of getPivot as written: every rank whose count exceeds the remaining draw
      becomes the owner, with the remaining draw as the offset, and every other rank's count is
      taken off the draw. The loop has no early exit, so the last such rank wins. */
  function ScanOwners(alloc: seq<nat>, k0: nat): Scan
  {
    if alloc == [] then Scan(k0, None)
    else
      var s := ScanOwners(alloc[..|alloc| - 1], k0);
      var i := |alloc| - 1;
      if s.k < alloc[i] then Scan(s.k, Some(Owner(i, s.k)))
      else Scan(s.k - alloc[i], s.owner)
  }

  /** The worker that holds item k0 when the items are laid out by the allocation, with the
      position of the item in that worker's share. */
  function HolderOf(alloc: seq<nat>, k0: nat): (o: Option<Owner>)
    ensures o.None? <==> Sum(alloc) <= k0
    ensures o.Some? ==>
      o.value.rank < |alloc| && o.value.offset < alloc[o.value.rank] &&
      Sum(alloc[..o.value.rank]) + o.value.offset == k0
  {
    if alloc == [] then None
    else
      var init := alloc[..|alloc| - 1];
      var h := HolderOf(init, k0);
      assert alloc[..|alloc| - 1] == init;
      if h.Some? then
        assert alloc[..h.value.rank] == init[..h.value.rank];
        h
      else if k0 < Sum(alloc) then Some(Owner(|alloc| - 1, k0 - Sum(init)))
      else None
  }

  /** The scan finds an owner exactly when the draw falls inside the allocated items. The owner
      it reports is never before the worker that holds item k0 and its offset never past that
      item's position, and the offset lies inside the owner's allocated share. */
  lemma {:induction false} ScanOwnersSound(alloc: seq<nat>, k0: nat)
    ensures ScanOwners(alloc, k0).owner.None? <==> Sum(alloc) <= k0
    ensures ScanOwners(alloc, k0).owner.None? ==> ScanOwners(alloc, k0).k == k0 - Sum(alloc)
    ensures ScanOwners(alloc, k0).owner.Some? ==>
      var o := ScanOwners(alloc, k0).owner.value;
      var h := HolderOf(alloc, k0).value;
      o.rank < |alloc| && o.offset < alloc[o.rank] &&
      h.rank <= o.rank && o.offset <= h.offset && ScanOwners(alloc, k0).k <= o.offset
  {
    if alloc != [] {
      var init := alloc[..|alloc| - 1];
      ScanOwnersSound(init, k0);
      var s := ScanOwners(init, k0);
      assert HolderOf(init, k0).Some? <==> s.owner.Some?;
    }
  }

  /** The value a worker holds in getPivot once the scan is over: the owner's item at the
      owner's offset on the owner itself, 0 on every other worker. An offset past the end of
      the owner's current chunk, or no owner at all, leaves a value the program does not
      determine, given here as stray. */
  function Candidate(chunk: seq<int>, rank: nat, owner: Option<Owner>, stray: int): int
  {
    match owner
    case None => stray
    case Some(o) => if o.rank != rank then 0 else if o.offset < |chunk| then chunk[o.offset] else stray
  }

  /** For the allocation [2, 2] and draw 0 the scan reports rank 1 at offset 0, although item 0
      is held by rank 0: the later rank overwrites the first match. */
  lemma ScanOwnersTakesLastMatch()
    ensures ScanOwners([2, 2], 0).owner == Some(Owner(1, 0))
    ensures HolderOf([2, 2], 0) == Some(Owner(0, 0))
  {
    assert [2, 2][..1] == [2];
    assert [2][..0] == [];
  }

  /** With at least as many items as workers, a draw below the size of any leading group of the
      initial allocation always finds an owner. */
  lemma ScanOwnersFinds(n: nat, p: nat, g: nat, k0: nat)
    requires 0 < g <= p <= n && k0 < g
    ensures ScanOwners(Allocation(n, p)[..g], k0).owner.Some?
  {
    var a, q := Allocation(n, p)[..g], n / p;
    AllocationPrefixSum(n, p, g);
    assert q >= 1;
    MulMono(1, q, g);
    assert Sum(a) >= g;
    ScanOwnersSound(a, k0);
  }

  /** With fewer items than workers the draw can miss every share: one item over two workers
      and draw 1 leaves the scan without an owner. */
  lemma ScanOwnersMisses()
    ensures ScanOwners(Allocation(1, 2), 1).owner.None?
  {
    AllocationSum(1, 2);
    ScanOwnersSound(Allocation(1, 2), 1);
  }
}
