/** The allocation planner and the pad/unpad routines of util.cpp.

    An allocation is a sequence of per-worker counts. Padding turns a ragged run of items,
    cut into consecutive pieces by an allocation, into blocks of one fixed width, each
    piece followed by a filler value; unpadding takes from block p its first count[p]
    items, never looking at the filler. */
module Util {
  import opened Seqs

  /** n items over p workers: n / p each, and one more for each of the first n % p ranks. */
  function Allocation(n: nat, p: nat): (a: seq<nat>)
    requires p > 0
    ensures |a| == p
  {
    seq(p, i requires 0 <= i < p => if i < n % p then n / p + 1 else n / p)
  }

  /** allocate_numbers: the loop hands out the remainder one unit at a time while
      counting `mod` down. */
  method AllocateNumbers(numberCount: nat, commSize: nat) returns (result: seq<nat>)
    requires commSize > 0
    ensures result == Allocation(numberCount, commSize)
    ensures |result| == commSize && Sum(result) == numberCount
  {
    var div := numberCount / commSize;
    var mod := numberCount % commSize;
    result := [];
    for i := 0 to commSize
      invariant mod == if i < numberCount % commSize then numberCount % commSize - i else 0
      invariant result == Allocation(numberCount, commSize)[..i]
    {
      var localCount := div;
      if mod > 0 {
        localCount := localCount + 1;
        mod := mod - 1;
      }
      result := result + [localCount];
    }
    AllocationSum(numberCount, commSize);
  }

  lemma AllocationPrefixSum(n: nat, p: nat, k: nat)
    requires 0 < p && k <= p
    ensures Sum(Allocation(n, p)[..k]) == k * (n / p) + (if k < n % p then k else n % p)
  {
    var a := Allocation(n, p);
    LeadingExtraSum(a, n / p, n % p, k);
  }

  /** The prefix sums of counts that are q + 1 on the first r entries and q after them. */
  lemma {:induction false} LeadingExtraSum(a: seq<nat>, q: nat, r: nat, k: nat)
    requires k <= |a|
    requires forall i :: 0 <= i < |a| ==> a[i] == if i < r then q + 1 else q
    ensures Sum(a[..k]) == k * q + (if k < r then k else r)
  {
    if k > 0 {
      LeadingExtraSum(a, q, r, k - 1);
      SumPrefixStep(a, k - 1);
      MulDistrib(k - 1, 1, q);
    } else {
      assert a[..k] == [];
    }
  }

  /** The allocation hands out every item exactly once. */
  lemma AllocationSum(n: nat, p: nat)
    requires p > 0
    ensures Sum(Allocation(n, p)) == n
  {
    AllocationPrefixSum(n, p, p);
    assert Allocation(n, p)[..p] == Allocation(n, p);
  }

  /** The allocation is balanced: its entries are n / p or n / p + 1, with the larger value
      on exactly the first n % p ranks, so the entries never increase and entry 0 is the
      maximum. */
  lemma AllocationBalanced(n: nat, p: nat)
    requires p > 0
    ensures forall i :: 0 <= i < p ==>
      (Allocation(n, p)[i] == n / p + 1 <==> i < n % p) &&
      (Allocation(n, p)[i] == n / p <==> n % p <= i)
    ensures forall i, j :: 0 <= i <= j < p ==> Allocation(n, p)[j] <= Allocation(n, p)[i]
    ensures forall i :: 0 <= i < p ==> Allocation(n, p)[i] <= Allocation(n, p)[0]
  {
  }

  /** Planning more items never gives any rank more than rank 0 of the larger plan gets. */
  lemma AllocationMonotone(n: nat, m: nat, p: nat)
    requires p > 0 && n <= m
    ensures forall i :: 0 <= i < p ==> Allocation(n, p)[i] <= Allocation(m, p)[0]
  {
    DivMono(n, m, p);
    if n / p == m / p {
      assert n % p <= m % p;
    }
  }

  /** When there are at least as many items as workers, every worker gets at least one. */
  lemma AllocationPositive(n: nat, p: nat)
    requires 0 < p <= n
    ensures forall i :: 0 <= i < p ==> Allocation(n, p)[i] >= 1
  {
    assert n / p >= 1;
  }

  /** max_allocation as written: line 9 compares entry 0 with itself on every pass, so the
      result is the first entry whatever the later entries hold. AllocationBalanced shows
      that this is the maximum for every allocation the planner builds. */
  method MaxAllocation(numberAlloc: seq<nat>) returns (maxAlloc: nat)
    requires |numberAlloc| > 0
    ensures maxAlloc == numberAlloc[0]
  {
    maxAlloc := numberAlloc[0];
    for i := 0 to |numberAlloc|
      invariant maxAlloc == numberAlloc[0]
    {
      maxAlloc := Max(numberAlloc[0], maxAlloc);
    }
  }

  /** The width the whole-vector routines pad to: what max_allocation returns. */
  function Width(alloc: seq<nat>): nat
  {
    if alloc == [] then 0 else alloc[0]
  }

  /** Every count fits in a block of width w. */
  predicate Fits(alloc: seq<nat>, w: nat)
  {
    forall p :: 0 <= p < |alloc| ==> alloc[p] <= w
  }

  /** The p-th piece of x when x is cut into consecutive pieces of the allocated sizes. */
  function Piece(x: seq<int>, alloc: seq<nat>, p: nat): (r: seq<int>)
    requires p < |alloc| && Sum(alloc) <= |x|
    ensures |r| == alloc[p]
  {
    SumPrefixStep(alloc, p);
    SumPrefixBound(alloc, p + 1);
    x[Sum(alloc[..p]) .. Sum(alloc[..p + 1])]
  }

  /** Block p of a padded buffer: piece p followed by filler up to width w. */
  function PaddedBlocks(alloc: seq<nat>, x: seq<int>, w: nat, filler: int): (b: seq<seq<int>>)
    requires Fits(alloc, w) && Sum(alloc) <= |x|
    ensures |b| == |alloc|
    ensures forall p :: 0 <= p < |b| ==> |b[p]| == w
  {
    seq(|alloc|, p requires 0 <= p < |alloc| => Piece(x, alloc, p) + Fill(w - alloc[p], filler))
  }

  function Padded(alloc: seq<nat>, x: seq<int>, w: nat, filler: int): seq<int>
    requires Fits(alloc, w) && Sum(alloc) <= |x|
  {
    Flatten(PaddedBlocks(alloc, x, w, filler))
  }

  /** Block p of width w holds count[p] real items, and they lie inside a buffer of length n. */
  predicate BlocksWithin(counts: seq<nat>, w: nat, n: nat)
  {
    forall p :: 0 <= p < |counts| ==> p * w + counts[p] <= n
  }

  /** The real items of each block: the first counts[p] items from position p * w. */
  function ReceivedBlocks(counts: seq<nat>, y: seq<int>, w: nat): (b: seq<seq<int>>)
    requires BlocksWithin(counts, w, |y|)
    ensures |b| == |counts|
  {
    seq(|counts|, p requires 0 <= p < |counts| => BlockPrefix(y, p, w, counts[p]))
  }

  /** Block p of the received blocks is the count[p] items from position p * w. */
  lemma ReceivedBlockAt(counts: seq<nat>, y: seq<int>, w: nat, p: nat)
    requires BlocksWithin(counts, w, |y|) && p < |counts|
    ensures p * w + counts[p] <= |y|
    ensures ReceivedBlocks(counts, y, w)[p] == y[p * w .. p * w + counts[p]]
  {
  }

  /** The first count items of block p of width w. */
  function BlockPrefix(y: seq<int>, p: nat, w: nat, count: nat): (r: seq<int>)
    requires p * w + count <= |y|
    ensures |r| == count
  {
    MulMono(0, p, w);
    y[p * w .. p * w + count]
  }

  function Unpadded(counts: seq<nat>, y: seq<int>, w: nat): seq<int>
    requires BlocksWithin(counts, w, |y|)
  {
    Flatten(ReceivedBlocks(counts, y, w))
  }

  /** Unpadding keeps exactly as many items as the counts add up to. */
  lemma UnpaddedLength(counts: seq<nat>, y: seq<int>, w: nat)
    requires BlocksWithin(counts, w, |y|)
    ensures |Unpadded(counts, y, w)| == Sum(counts)
  {
    var b := ReceivedBlocks(counts, y, w);
    FlattenLength(b);
    assert seq(|b|, i requires 0 <= i < |b| => |b[i]|) == counts;
  }

  lemma SplitSlice(y: seq<int>, lo: int, hi: int, a: seq<int>, b: seq<int>)
    requires 0 <= lo <= hi <= |y| && y[lo..hi] == a + b
    ensures lo + |a| <= hi
    ensures y[lo..lo + |a|] == a && y[lo + |a|..hi] == b
  {
    assert y[lo..lo + |a|] == y[lo..hi][..|a|];
    assert y[lo + |a|..hi] == y[lo..hi][|a|..];
  }

  /** Padding lays the pieces out at a fixed stride: block p starts at p * w with piece p. */
  lemma PaddedLayout(alloc: seq<nat>, x: seq<int>, w: nat, filler: int, p: nat)
    requires Fits(alloc, w) && Sum(alloc) <= |x| && p < |alloc|
    ensures |Padded(alloc, x, w, filler)| == |alloc| * w
    ensures (p + 1) * w <= |alloc| * w
    ensures p * w + alloc[p] <= |Padded(alloc, x, w, filler)|
    ensures BlockPrefix(Padded(alloc, x, w, filler), p, w, alloc[p]) == Piece(x, alloc, p)
  {
    var b := PaddedBlocks(alloc, x, w, filler);
    var piece, fill := Piece(x, alloc, p), Fill(w - alloc[p], filler);
    assert b[p] == piece + fill;
    UniformBlockPiece(b, w, p, piece, fill);
  }

  /** The rest of block p, after piece p, is filler. */
  lemma PaddedFill(alloc: seq<nat>, x: seq<int>, w: nat, filler: int, p: nat)
    requires Fits(alloc, w) && Sum(alloc) <= |x| && p < |alloc|
    ensures p * w + alloc[p] <= (p + 1) * w <= |Padded(alloc, x, w, filler)|
    ensures forall k :: p * w + alloc[p] <= k < (p + 1) * w ==> Padded(alloc, x, w, filler)[k] == filler
  {
    var b := PaddedBlocks(alloc, x, w, filler);
    var piece, fill := Piece(x, alloc, p), Fill(w - alloc[p], filler);
    assert b[p] == piece + fill;
    UniformBlockFill(b, w, p, piece, fill);
  }

  /** Block p of a concatenation of width-w blocks, when it is piece + fill, holds piece at
      [p * w, p * w + |piece|) and fill from there up to (p + 1) * w. */
  lemma UniformBlockPiece(b: seq<seq<int>>, w: nat, p: nat, piece: seq<int>, fill: seq<int>)
    requires forall i :: 0 <= i < |b| ==> |b[i]| == w
    requires p < |b| && b[p] == piece + fill
    ensures |Flatten(b)| == |b| * w && (p + 1) * w <= |b| * w
    ensures p * w + |piece| <= (p + 1) * w
    ensures Flatten(b)[p * w .. p * w + |piece|] == piece
    ensures Flatten(b)[p * w + |piece| .. (p + 1) * w] == fill
    ensures BlockPrefix(Flatten(b), p, w, |piece|) == piece
  {
    FlattenUniformBlock(b, w, p);
    MulMono(0, p, w);
    MulDistrib(p, 1, w);
    SplitSlice(Flatten(b), p * w, (p + 1) * w, piece, fill);
  }

  /** The same, item by item: position k between the end of piece and (p + 1) * w holds
      fill[k - p * w - |piece|]. */
  lemma UniformBlockFill(b: seq<seq<int>>, w: nat, p: nat, piece: seq<int>, fill: seq<int>)
    requires forall i :: 0 <= i < |b| ==> |b[i]| == w
    requires p < |b| && b[p] == piece + fill
    ensures |Flatten(b)| == |b| * w && (p + 1) * w <= |b| * w
    ensures p * w + |piece| <= (p + 1) * w
    ensures Flatten(b)[p * w .. p * w + |piece|] == piece
    ensures forall k :: p * w + |piece| <= k < (p + 1) * w ==> Flatten(b)[k] == fill[k - p * w - |piece|]
  {
    UniformBlockPiece(b, w, p, piece, fill);
    var y, lo, hi := Flatten(b), p * w + |piece|, (p + 1) * w;
    forall k | lo <= k < hi
      ensures y[k] == fill[k - lo]
    {
      assert y[lo..hi][k - lo] == y[k];
    }
  }

  lemma PaddedLength(alloc: seq<nat>, x: seq<int>, w: nat, filler: int)
    requires Fits(alloc, w) && Sum(alloc) <= |x|
    ensures |Padded(alloc, x, w, filler)| == |alloc| * w
  {
    FlattenUniformLength(PaddedBlocks(alloc, x, w, filler), w);
  }

  /** Putting the first k pieces back together gives back the first items of x. */
  lemma {:induction false} PiecesConcat(x: seq<int>, alloc: seq<nat>, k: nat)
    requires k <= |alloc| && Sum(alloc) <= |x|
    ensures Sum(alloc[..k]) <= |x|
    ensures Flatten(seq(k, p requires 0 <= p < k => Piece(x, alloc, p))) == x[..Sum(alloc[..k])]
  {
    SumPrefixBound(alloc, k);
    var s := seq(k, p requires 0 <= p < k => Piece(x, alloc, p));
    if k > 0 {
      PiecesConcat(x, alloc, k - 1);
      assert s[..k - 1] == seq(k - 1, p requires 0 <= p < k - 1 => Piece(x, alloc, p));
      SumPrefixStep(alloc, k - 1);
    }
  }

  /** The pad/unpad round trip: unpadding a padded buffer with the same allocation and width
      gives back the items that were padded, for any filler value. */
  lemma UnpadPadRoundTrip(alloc: seq<nat>, x: seq<int>, w: nat, filler: int)
    requires Fits(alloc, w) && Sum(alloc) <= |x|
    ensures BlocksWithin(alloc, w, |Padded(alloc, x, w, filler)|)
    ensures Unpadded(alloc, Padded(alloc, x, w, filler), w) == x[..Sum(alloc)]
  {
    var y := Padded(alloc, x, w, filler);
    PaddedLength(alloc, x, w, filler);
    forall p | 0 <= p < |alloc|
      ensures p * w + alloc[p] <= |y|
      ensures BlockPrefix(y, p, w, alloc[p]) == Piece(x, alloc, p)
    {
      PaddedLayout(alloc, x, w, filler, p);
    }
    assert ReceivedBlocks(alloc, y, w) == seq(|alloc|, p requires 0 <= p < |alloc| => Piece(x, alloc, p));
    PiecesConcat(x, alloc, |alloc|);
    assert alloc[..|alloc|] == alloc;
  }

  lemma UnpaddedAppendBlock(a: seq<nat>, b: seq<nat>, y: seq<int>, z: seq<int>, w: nat, p: nat)
    requires BlocksWithin(a, w, |y|) && BlocksWithin(b, w, |z|) && |y| == |a| * w
    requires p < |a| + |b|
    ensures p * w + (a + b)[p] <= |y + z|
    ensures (y + z)[p * w .. p * w + (a + b)[p]] == (ReceivedBlocks(a, y, w) + ReceivedBlocks(b, z, w))[p]
  {
    MulMono(0, p, w);
    if p >= |a| {
      var q := p - |a|;
      MulMono(0, q, w);
      assert p * w == |a| * w + q * w;
      assert q * w + b[q] <= |z|;
    }
  }

  /** A block of the first of two buffers laid end to end is read from the first buffer. */
  lemma BlockPrefixAppendLeft(y: seq<int>, z: seq<int>, p: nat, w: nat, count: nat)
    requires p * w + count <= |y|
    ensures p * w + count <= |y + z|
    ensures BlockPrefix(y + z, p, w, count) == BlockPrefix(y, p, w, count)
  {
    MulMono(0, p, w);
  }

  /** Block n + q of two buffers laid end to end, the first of n blocks, is block q of the
      second buffer. */
  lemma BlockPrefixAppendRight(y: seq<int>, z: seq<int>, n: nat, q: nat, w: nat, count: nat)
    requires |y| == n * w && q * w + count <= |z|
    ensures (n + q) * w + count <= |y + z|
    ensures BlockPrefix(y + z, n + q, w, count) == BlockPrefix(z, q, w, count)
  {
    MulMono(0, q, w);
    assert (n + q) * w == n * w + q * w;
  }

  /** Unpadding two runs of blocks laid end to end is unpadding each run. */
  lemma UnpaddedAppend(a: seq<nat>, b: seq<nat>, y: seq<int>, z: seq<int>, w: nat)
    requires BlocksWithin(a, w, |y|) && BlocksWithin(b, w, |z|) && |y| == |a| * w
    ensures BlocksWithin(a + b, w, |y + z|)
    ensures Unpadded(a + b, y + z, w) == Unpadded(a, y, w) + Unpadded(b, z, w)
  {
    forall p | 0 <= p < |a + b|
      ensures p * w + (a + b)[p] <= |y + z|
    {
      UnpaddedAppendBlock(a, b, y, z, w, p);
    }
    var joined := ReceivedBlocks(a, y, w) + ReceivedBlocks(b, z, w);
    forall p | 0 <= p < |a + b|
      ensures ReceivedBlocks(a + b, y + z, w)[p] == joined[p]
    {
      UnpaddedAppendBlock(a, b, y, z, w, p);
    }
    assert ReceivedBlocks(a + b, y + z, w) == joined;
    FlattenAppend(ReceivedBlocks(a, y, w), ReceivedBlocks(b, z, w));
  }

  /** pad_buffer: clears the output and, for each rank p, copies the next alloc[p] input items
      and then pushes zeros up to max_allocation(alloc). Every count must fit under the first
      one, or the unsigned count of zeros wraps around. */
  method PadBuffer(numberAlloc: seq<nat>, inBuffer: seq<int>) returns (outBuffer: seq<int>)
    requires Fits(numberAlloc, Width(numberAlloc)) && Sum(numberAlloc) <= |inBuffer|
    ensures outBuffer == Padded(numberAlloc, inBuffer, Width(numberAlloc), 0)
    ensures |outBuffer| == |numberAlloc| * Width(numberAlloc)
  {
    ghost var w := Width(numberAlloc);
    ghost var blocks := PaddedBlocks(numberAlloc, inBuffer, w, 0);
    outBuffer := [];
    var index := 0;
    for p := 0 to |numberAlloc|
      invariant index == Sum(numberAlloc[..p]) <= Sum(numberAlloc)
      invariant outBuffer == Flatten(blocks[..p])
    {
      var maxAlloc := MaxAllocation(numberAlloc);
      SumPrefixStep(numberAlloc, p);
      SumPrefixBound(numberAlloc, p + 1);
      ghost var start := index;
      outBuffer, index := PadBlock(outBuffer, inBuffer, index, numberAlloc[p], maxAlloc - numberAlloc[p]);
      assert inBuffer[start .. index] == Piece(inBuffer, numberAlloc, p);
      assert blocks[p] == inBuffer[start .. index] + Fill(w - numberAlloc[p], 0);
      FlattenStep(blocks, p);
    }
    assert blocks[..|numberAlloc|] == blocks;
    PaddedLength(numberAlloc, inBuffer, w, 0);
  }

  /** The two inner loops of pad_buffer for one rank: count items from index from, then
      fillCount zeros. */
  method PadBlock(outBuffer: seq<int>, inBuffer: seq<int>, from: nat, count: nat, fillCount: nat)
    returns (padded: seq<int>, index: nat)
    requires from + count <= |inBuffer|
    ensures index == from + count
    ensures padded == outBuffer + (inBuffer[from .. index] + Fill(fillCount, 0))
  {
    padded, index := outBuffer, from;
    for i := 0 to count
      invariant index == from + i
      invariant padded == outBuffer + inBuffer[from .. index]
    {
      padded := padded + [inBuffer[index]];
      index := index + 1;
    }
    for i := 0 to fillCount
      invariant padded == outBuffer + inBuffer[from .. index] + Fill(i, 0)
    {
      padded := padded + [0];
    }
    assert outBuffer + inBuffer[from .. index] + Fill(fillCount, 0) ==
           outBuffer + (inBuffer[from .. index] + Fill(fillCount, 0));
  }

  /** Where block p of a padded buffer written from position start starts and ends, and
      where its items come from: the block fits in a buffer of length n and the piece fits in
      the input. */
  lemma BlockBounds(alloc: seq<nat>, x: seq<int>, w: nat, p: nat, start: nat, n: nat)
    requires Fits(alloc, w) && Sum(alloc) <= |x| && p < |alloc| && start + |alloc| * w <= n
    ensures alloc[p] <= w && start <= start + p * w && start + p * w + w == start + (p + 1) * w <= n
    ensures Sum(alloc[..p + 1]) == Sum(alloc[..p]) + alloc[p] <= Sum(alloc) <= |x|
  {
    MulMono(p + 1, |alloc|, w);
    MulDistrib(p, 1, w);
    SumPrefixStep(alloc, p);
    SumPrefixBound(alloc, p + 1);
  }

  /** unpad_buffer: clears the output and, for each rank p, copies alloc[p] items and skips the
      rest of the block. The skip `max_allocation(alloc) - alloc[p]` is unsigned: when alloc[p]
      exceeds alloc[0] it wraps, and the addition to the index wraps back, so block p is always
      read from p * alloc[0]; the model's integer index lands on the same position. */
  method UnpadBuffer(numberAlloc: seq<nat>, inBuffer: seq<int>) returns (outBuffer: seq<int>)
    requires BlocksWithin(numberAlloc, Width(numberAlloc), |inBuffer|)
    ensures outBuffer == Unpadded(numberAlloc, inBuffer, Width(numberAlloc))
    ensures |outBuffer| == Sum(numberAlloc)
  {
    ghost var w := Width(numberAlloc);
    ghost var blocks := ReceivedBlocks(numberAlloc, inBuffer, w);
    outBuffer := [];
    var index: int := 0;
    for p := 0 to |numberAlloc|
      invariant index == p * w
      invariant outBuffer == Flatten(blocks[..p])
    {
      var maxAlloc := MaxAllocation(numberAlloc);
      MulMono(0, p, w);
      ghost var start, done := index, outBuffer;
      assert start + numberAlloc[p] <= |inBuffer|;
      for i := 0 to numberAlloc[p]
        invariant index == start + i
        invariant outBuffer == done + inBuffer[start .. index]
      {
        outBuffer := outBuffer + [inBuffer[index]];
        index := index + 1;
      }
      assert inBuffer[start .. index] == blocks[p];
      index := index + (maxAlloc as int - numberAlloc[p] as int);
      assert index == (p + 1) * w;
      FlattenStep(blocks, p);
    }
    assert blocks[..|numberAlloc|] == blocks;
    UnpaddedLength(numberAlloc, inBuffer, w);
  }

  /** One worker's own items padded to the common width: its first alloc[index] items,
      then zeros up to alloc[0]. */
  function SinglePadded(index: nat, alloc: seq<nat>, x: seq<int>): seq<int>
    requires index < |alloc| && alloc[index] <= alloc[0] && alloc[index] <= |x|
  {
    x[..alloc[index]] + Fill(alloc[0] - alloc[index], 0)
  }

  /** pad_single_buffer: clears the output, copies alloc[index] items, then pushes zeros up to
      max_allocation(alloc). */
  method PadSingleBuffer(index: nat, numberAlloc: seq<nat>, inBuffer: seq<int>) returns (outBuffer: seq<int>)
    requires index < |numberAlloc| && numberAlloc[index] <= numberAlloc[0]
    requires numberAlloc[index] <= |inBuffer|
    ensures outBuffer == SinglePadded(index, numberAlloc, inBuffer)
    ensures |outBuffer| == numberAlloc[0]
    ensures outBuffer[..numberAlloc[index]] == inBuffer[..numberAlloc[index]]
    ensures forall k :: numberAlloc[index] <= k < |outBuffer| ==> outBuffer[k] == 0
  {
    outBuffer := [];
    for i := 0 to numberAlloc[index]
      invariant outBuffer == inBuffer[..i]
    {
      outBuffer := outBuffer + [inBuffer[i]];
    }
    var maxAlloc := MaxAllocation(numberAlloc);
    for i := 0 to maxAlloc - numberAlloc[index]
      invariant outBuffer == inBuffer[..numberAlloc[index]] + Fill(i, 0)
    {
      outBuffer := outBuffer + [0];
    }
  }

  /** unpad_single_buffer: clears the output and copies the first alloc[index] items. */
  method UnpadSingleBuffer(index: nat, numberAlloc: seq<nat>, inBuffer: seq<int>) returns (outBuffer: seq<int>)
    requires index < |numberAlloc| && numberAlloc[index] <= |inBuffer|
    ensures outBuffer == inBuffer[..numberAlloc[index]]
  {
    outBuffer := [];
    for i := 0 to numberAlloc[index]
      invariant outBuffer == inBuffer[..i]
    {
      outBuffer := outBuffer + [inBuffer[i]];
    }
  }

  /** Unpadding a single padded buffer with the same index and allocation gives back the
      worker's items. */
  lemma SinglePadRoundTrip(index: nat, alloc: seq<nat>, x: seq<int>)
    requires index < |alloc| && alloc[index] <= alloc[0] && alloc[index] <= |x|
    ensures |SinglePadded(index, alloc, x)| == alloc[0]
    ensures SinglePadded(index, alloc, x)[..alloc[index]] == x[..alloc[index]]
  {
  }
}
