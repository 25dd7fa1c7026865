/** The two message-passing steps whose outcome the sort depends on, as functions over a
    simulated group: the all-to-all exchange (section 5.8 of the MPI 3.1 standard) and the
    communicator split (section 6.4.2 of the MPI 3.1 standard). */
module Collectives {
  import opened Seqs
  import opened Util
  import opened Partitioning

  /** Block j of a buffer made of n blocks of width w. */
  function Block(y: seq<int>, n: nat, j: nat, w: nat): (b: seq<int>)
    requires |y| == n * w && j < n
    ensures |b| == w
  {
    MulMono(j + 1, n, w);
    MulDistrib(j, 1, w);
    y[j * w .. j * w + w]
  }

  /** What receiver j collects: block j of every sender's buffer, in sender rank order. */
  function Column(send: seq<seq<int>>, j: nat, w: nat): (c: seq<int>)
    requires forall i :: 0 <= i < |send| ==> |send[i]| == |send| * w
    requires j < |send|
    ensures |c| == |send| * w
  {
    var blocks := seq(|send|, i requires 0 <= i < |send| => Block(send[i], |send|, j, w));
    FlattenUniformLength(blocks, w);
    Flatten(blocks)
  }

  /** The all-to-all exchange with w items per block. */
  function Alltoall(send: seq<seq<int>>, w: nat): (recv: seq<seq<int>>)
    requires forall i :: 0 <= i < |send| ==> |send[i]| == |send| * w
    ensures |recv| == |send|
    ensures forall j :: 0 <= j < |send| ==> |recv[j]| == |send| * w
  {
    seq(|send|, j requires 0 <= j < |send| => Column(send, j, w))
  }

  /** The first count items of block j are its prefix of that length. */
  lemma BlockPrefixOfBlock(y: seq<int>, n: nat, j: nat, w: nat, count: nat)
    requires |y| == n * w && j < n && count <= w
    ensures j * w + count <= |y|
    ensures BlockPrefix(y, j, w, count) == Block(y, n, j, w)[..count]
  {
    MulMono(j + 1, n, w);
    MulDistrib(j, 1, w);
  }

  /** The exchange is a block transpose: block i of what rank j receives is block j of what
      rank i sent. */
  lemma AlltoallTransposes(send: seq<seq<int>>, w: nat, i: nat, j: nat)
    requires forall k :: 0 <= k < |send| ==> |send[k]| == |send| * w
    requires i < |send| && j < |send|
    ensures Block(Alltoall(send, w)[j], |send|, i, w) == Block(send[i], |send|, j, w)
  {
    var column := seq(|send|, k requires 0 <= k < |send| => Block(send[k], |send|, j, w));
    assert Alltoall(send, w)[j] == Flatten(column);
    FlattenUniformBlock(column, w, i);
    MulDistrib(i, 1, w);
  }

  /** A buffer of n blocks is the concatenation of its blocks. */
  lemma {:induction false} FlattenBlocks(y: seq<int>, n: nat, w: nat)
    requires |y| == n * w
    ensures Flatten(seq(n, i requires 0 <= i < n => Block(y, n, i, w))) == y
  {
    var s := seq(n, i requires 0 <= i < n => Block(y, n, i, w));
    if n > 0 {
      MulDistrib(n - 1, 1, w);
      var init := y[..(n - 1) * w];
      FlattenBlocks(init, n - 1, w);
      BlocksOfPrefix(y, n, w, s);
      FlattenStep(s, n - 1);
      assert s[..n] == s;
    }
  }

  /** The first n - 1 blocks of a buffer of n blocks are the blocks of its first (n - 1) * w
      items, and the last block is the rest. */
  lemma BlocksOfPrefix(y: seq<int>, n: nat, w: nat, s: seq<seq<int>>)
    requires |y| == n * w && n > 0
    requires s == seq(n, i requires 0 <= i < n => Block(y, n, i, w))
    ensures (n - 1) * w <= |y|
    ensures s[..n - 1] == seq(n - 1, i requires 0 <= i < n - 1 => Block(y[..(n - 1) * w], n - 1, i, w))
    ensures y == y[..(n - 1) * w] + s[n - 1]
  {
    MulDistrib(n - 1, 1, w);
    var init := y[..(n - 1) * w];
    forall i | 0 <= i < n - 1
      ensures s[i] == Block(init, n - 1, i, w)
    {
      MulMono(i + 1, n - 1, w);
      MulDistrib(i, 1, w);
    }
    assert s[n - 1] == y[(n - 1) * w ..];
  }

  /** Exchanging twice gives every rank back the buffer it started with. The program exchanges
      once per round; this is the inverse that shows the block transpose loses no item and
      invents none, independently of the round proofs that use AlltoallTransposes. */
  lemma AlltoallInvolution(send: seq<seq<int>>, w: nat)
    requires forall k :: 0 <= k < |send| ==> |send[k]| == |send| * w
    ensures Alltoall(Alltoall(send, w), w) == send
  {
    var n, recv := |send|, Alltoall(send, w);
    forall j | 0 <= j < n
      ensures Alltoall(recv, w)[j] == send[j]
    {
      forall i | 0 <= i < n
        ensures Block(recv[i], n, j, w) == Block(send[j], n, i, w)
      {
        AlltoallTransposes(send, w, j, i);
      }
      assert seq(n, i requires 0 <= i < n => Block(recv[i], n, j, w)) ==
             seq(n, i requires 0 <= i < n => Block(send[j], n, i, w));
      FlattenBlocks(send[j], n, w);
    }
  }

  /** How many of the workers chose colour c. */
  function CountColor(colors: seq<Color>, c: Color): (n: nat)
    ensures n <= |colors|
  {
    if colors == [] then 0
    else CountColor(colors[..|colors| - 1], c) + (if colors[|colors| - 1] == c then 1 else 0)
  }

  lemma CountColorStep(colors: seq<Color>, c: Color, k: nat)
    requires k < |colors|
    ensures CountColor(colors[..k + 1], c) == CountColor(colors[..k], c) + (if colors[k] == c then 1 else 0)
  {
    assert colors[..k + 1][..k] == colors[..k];
  }

  /** Counting over a longer prefix never counts fewer workers. */
  lemma {:induction false} CountColorPrefix(colors: seq<Color>, c: Color, k: nat, m: nat)
    requires k <= m <= |colors|
    ensures CountColor(colors[..k], c) <= CountColor(colors[..m], c)
    decreases m - k
  {
    if k < m {
      CountColorStep(colors, c, k);
      CountColorPrefix(colors, c, k + 1, m);
    }
  }

  /** The communicator split keyed by the old rank: a worker's new rank is the number of
      workers of its colour with a smaller old rank. */
  function SplitRank(colors: seq<Color>, rank: nat): nat
    requires rank < |colors|
  {
    CountColor(colors[..rank], colors[rank])
  }

  /** The size of the new communicator: how many workers chose the same colour. */
  function SplitSize(colors: seq<Color>, rank: nat): nat
    requires rank < |colors|
  {
    CountColor(colors, colors[rank])
  }

  /** Every new rank is a rank of the new communicator, which is no larger than the old one. */
  lemma SplitRankInRange(colors: seq<Color>, rank: nat)
    requires rank < |colors|
    ensures SplitRank(colors, rank) < SplitSize(colors, rank) <= |colors|
  {
    CountColorStep(colors, colors[rank], rank);
    CountColorPrefix(colors, colors[rank], rank + 1, |colors|);
    assert colors[..|colors|] == colors;
  }

  /** The renumbering keeps the order of the old ranks within a colour, so no two workers of
      the same colour share a new rank, and both see the same new size. */
  lemma SplitRenumbers(colors: seq<Color>, a: nat, b: nat)
    requires a < b < |colors| && colors[a] == colors[b]
    ensures SplitRank(colors, a) < SplitRank(colors, b)
    ensures SplitSize(colors, a) == SplitSize(colors, b)
  {
    CountColorStep(colors, colors[a], a);
    CountColorPrefix(colors, colors[a], a + 1, b);
  }

  /** The colours of a group whose first lp ranks take the left side. */
  function Sides(commSize: nat, leftProcessors: nat): (colors: seq<Color>)
    ensures |colors| == commSize
  {
    seq(commSize, j requires 0 <= j < commSize => ColorOf(j, leftProcessors))
  }

  lemma {:induction false} CountSides(k: nat, leftProcessors: nat)
    ensures CountColor(Sides(k, leftProcessors), LeftColor) == (if k < leftProcessors then k else leftProcessors)
    ensures CountColor(Sides(k, leftProcessors), RightColor) == (if k < leftProcessors then 0 else k - leftProcessors)
  {
    if k > 0 {
      CountSides(k - 1, leftProcessors);
      assert Sides(k, leftProcessors)[..k - 1] == Sides(k - 1, leftProcessors);
    }
  }

  /** Splitting by side: a left worker keeps its rank in a communicator of lp workers, a right
      worker becomes rank - lp in a communicator of the remaining workers. */
  lemma SplitBySide(commSize: nat, leftProcessors: nat, rank: nat)
    requires leftProcessors <= commSize && rank < commSize
    ensures rank < leftProcessors ==>
      SplitRank(Sides(commSize, leftProcessors), rank) == rank &&
      SplitSize(Sides(commSize, leftProcessors), rank) == leftProcessors
    ensures leftProcessors <= rank ==>
      SplitRank(Sides(commSize, leftProcessors), rank) == rank - leftProcessors &&
      SplitSize(Sides(commSize, leftProcessors), rank) == commSize - leftProcessors
  {
    var colors := Sides(commSize, leftProcessors);
    assert colors[..rank] == Sides(rank, leftProcessors);
    CountSides(rank, leftProcessors);
    CountSides(commSize, leftProcessors);
  }
}
