/** Sequence helpers shared by the allocation planner, the padding routines and the sorter:
    sums of counts, concatenation of blocks, filler runs, and the ascending sort that
    specifies the final local `std::sort`. */
module Seqs {

  function Max(a: nat, b: nat): nat
  {
    if a < b then b else a
  }

  /** Sum of a sequence of counts, peeled from the back so that it follows a loop that
      accumulates from left to right. */
  function Sum(s: seq<nat>): nat
  {
    if s == [] then 0 else Sum(s[..|s| - 1]) + s[|s| - 1]
  }

  lemma SumPrefixStep(s: seq<nat>, k: nat)
    requires k < |s|
    ensures Sum(s[..k + 1]) == Sum(s[..k]) + s[k]
  {
    assert s[..k + 1][..k] == s[..k];
  }

  lemma {:induction false} SumPrefixBound(s: seq<nat>, k: nat)
    requires k <= |s|
    ensures Sum(s[..k]) <= Sum(s)
    decreases |s| - k
  {
    if k < |s| {
      SumPrefixStep(s, k);
      SumPrefixBound(s, k + 1);
    } else {
      assert s[..k] == s;
    }
  }

  lemma {:induction false} SumAppend(a: seq<nat>, b: seq<nat>)
    ensures Sum(a + b) == Sum(a) + Sum(b)
    decreases |b|
  {
    if b == [] {
      assert a + b == a;
    } else {
      assert (a + b)[..|a + b| - 1] == a + b[..|b| - 1];
      SumAppend(a, b[..|b| - 1]);
    }
  }

  /** Item k of r = a + b, where a has n items, comes from a before n and from b after. */
  lemma AppendIndex<T>(r: seq<T>, a: seq<T>, b: seq<T>, n: nat, k: nat)
    requires r == a + b && |a| == n && k < |r|
    ensures k < n ==> r[k] == a[k]
    ensures n <= k ==> r[k] == b[k - n]
  {
  }

  /** The concatenation of a sequence of blocks, in order. */
  function Flatten<T>(s: seq<seq<T>>): seq<T>
  {
    if s == [] then [] else Flatten(s[..|s| - 1]) + s[|s| - 1]
  }

  lemma FlattenStep<T>(s: seq<seq<T>>, k: nat)
    requires k < |s|
    ensures Flatten(s[..k + 1]) == Flatten(s[..k]) + s[k]
  {
    assert s[..k + 1][..k] == s[..k];
  }

  lemma FlattenSingle<T>(x: seq<T>)
    ensures Flatten([x]) == x
  {
    assert [x][..0] == [];
  }

  lemma {:induction false} FlattenAppend<T>(a: seq<seq<T>>, b: seq<seq<T>>)
    ensures Flatten(a + b) == Flatten(a) + Flatten(b)
    decreases |b|
  {
    if b == [] {
      assert a + b == a;
    } else {
      var front, last := b[..|b| - 1], b[|b| - 1];
      assert (a + b)[..|a + b| - 1] == a + front && (a + b)[|a + b| - 1] == last;
      FlattenAppend(a, front);
      calc {
        Flatten(a + b);
        Flatten(a + front) + last;
        Flatten(a) + Flatten(front) + last;
        Flatten(a) + (Flatten(front) + last);
        Flatten(a) + Flatten(b);
      }
    }
  }

  /** The total length of the blocks is the sum of their lengths. */
  lemma {:induction false} FlattenLength<T>(s: seq<seq<T>>)
    ensures |Flatten(s)| == Sum(seq(|s|, i requires 0 <= i < |s| => |s[i]|))
  {
    var lens := seq(|s|, i requires 0 <= i < |s| => |s[i]|);
    if s != [] {
      var init := s[..|s| - 1];
      FlattenLength(init);
      assert lens[..|lens| - 1] == seq(|init|, i requires 0 <= i < |init| => |init[i]|);
    }
  }

  lemma {:induction false} FlattenUniformLength<T>(s: seq<seq<T>>, w: nat)
    requires forall i :: 0 <= i < |s| ==> |s[i]| == w
    ensures |Flatten(s)| == |s| * w
  {
    if s != [] {
      FlattenUniformLength(s[..|s| - 1], w);
      assert (|s| - 1) * w + w == |s| * w;
    }
  }

  /** Concatenating blocks that are all empty gives nothing. */
  lemma {:induction false} FlattenEmpties<T>(s: seq<seq<T>>)
    requires forall i :: 0 <= i < |s| ==> s[i] == []
    ensures Flatten(s) == []
  {
    if s != [] {
      FlattenEmpties(s[..|s| - 1]);
    }
  }

  /** Concatenating blocks that are each a + b keeps the items of all the a blocks and all the
      b blocks. */
  lemma {:induction false} ZipMultiset<T>(a: seq<seq<T>>, b: seq<seq<T>>)
    requires |a| == |b|
    ensures multiset(Flatten(seq(|a|, j requires 0 <= j < |a| => a[j] + b[j]))) ==
            multiset(Flatten(a)) + multiset(Flatten(b))
  {
    var n := |a|;
    var z := seq(n, j requires 0 <= j < n => a[j] + b[j]);
    if n > 0 {
      var a', b' := a[..n - 1], b[..n - 1];
      ZipMultiset(a', b');
      assert z[..n - 1] == seq(n - 1, j requires 0 <= j < n - 1 => a'[j] + b'[j]);
    }
  }

  /** A matrix of blocks read row by row. */
  function ByRows<T>(m: seq<seq<seq<T>>>): seq<T>
  {
    Flatten(seq(|m|, i requires 0 <= i < |m| => Flatten(m[i])))
  }

  /** Column j of a matrix of blocks: block j of every row, in row order. */
  function ColumnOf<T>(m: seq<seq<seq<T>>>, j: nat): seq<T>
    requires forall i :: 0 <= i < |m| ==> j < |m[i]|
  {
    Flatten(seq(|m|, i requires 0 <= i < |m| => m[i][j]))
  }

  /** A column whose entries are listed in col reads as col flattened. */
  lemma ColumnOfEntries<T>(m: seq<seq<seq<T>>>, j: nat, col: seq<seq<T>>)
    requires forall i :: 0 <= i < |m| ==> j < |m[i]|
    requires |col| == |m| && forall i :: 0 <= i < |m| ==> m[i][j] == col[i]
    ensures ColumnOf(m, j) == Flatten(col)
  {
    assert seq(|m|, i requires 0 <= i < |m| => m[i][j]) == col;
  }

  /** A matrix of blocks whose rows have cols blocks each, read column by column. */
  function ByColumns<T>(m: seq<seq<seq<T>>>, cols: nat): seq<T>
    requires forall i :: 0 <= i < |m| ==> |m[i]| == cols
  {
    Flatten(seq(cols, j requires 0 <= j < cols => ColumnOf(m, j)))
  }

  /** Reading a matrix of blocks by columns instead of by rows keeps every item. */
  lemma {:induction false} ExchangeKeepsItems<T>(m: seq<seq<seq<T>>>, cols: nat)
    requires forall i :: 0 <= i < |m| ==> |m[i]| == cols
    ensures multiset(ByColumns(m, cols)) == multiset(ByRows(m))
  {
    var n := |m|;
    if n == 0 {
      FlattenEmpties(seq(cols, j requires 0 <= j < cols => ColumnOf(m, j)));
    } else {
      var init, last := m[..n - 1], m[n - 1];
      ExchangeKeepsItems(init, cols);
      assert seq(n, i requires 0 <= i < n => Flatten(m[i]))[..n - 1] ==
             seq(n - 1, i requires 0 <= i < n - 1 => Flatten(init[i]));
      forall j | 0 <= j < cols
        ensures ColumnOf(m, j) == ColumnOf(init, j) + last[j]
      {
        assert seq(n, i requires 0 <= i < n => m[i][j])[..n - 1] ==
               seq(n - 1, i requires 0 <= i < n - 1 => init[i][j]);
      }
      var front := seq(cols, j requires 0 <= j < cols => ColumnOf(init, j));
      assert seq(cols, j requires 0 <= j < cols => ColumnOf(m, j)) ==
             seq(cols, j requires 0 <= j < cols => front[j] + last[j]);
      ZipMultiset(front, last);
    }
  }

  /** When every receiver holds one column of the matrix and every row concatenates to one
      sender's items, the receivers together hold exactly the senders' items. */
  lemma ColumnsKeepItems<T>(m: seq<seq<seq<T>>>, cols: nat, received: seq<seq<T>>, sent: seq<seq<T>>)
    requires forall i :: 0 <= i < |m| ==> |m[i]| == cols
    requires |received| == cols && forall j :: 0 <= j < cols ==> received[j] == ColumnOf(m, j)
    requires |sent| == |m| && forall i :: 0 <= i < |m| ==> sent[i] == Flatten(m[i])
    ensures multiset(Flatten(received)) == multiset(Flatten(sent))
  {
    assert received == seq(cols, j requires 0 <= j < cols => ColumnOf(m, j));
    assert sent == seq(|m|, i requires 0 <= i < |m| => Flatten(m[i]));
    ExchangeKeepsItems(m, cols);
  }

  /** In a concatenation of blocks of one width w, block j sits at [j * w, (j + 1) * w). */
  lemma FlattenUniformBlock<T>(s: seq<seq<T>>, w: nat, j: nat)
    requires forall i :: 0 <= i < |s| ==> |s[i]| == w
    requires j < |s|
    ensures |Flatten(s)| == |s| * w && (j + 1) * w <= |s| * w
    ensures Flatten(s)[j * w .. (j + 1) * w] == s[j]
  {
    FlattenUniformLength(s, w);
    MulMono(j + 1, |s|, w);
    MulDistrib(j, 1, w);
    FlattenUniformLength(s[..j], w);
    FlattenStep(s, j);
    assert s == s[..j + 1] + s[j + 1..];
    FlattenAppend(s[..j + 1], s[j + 1..]);
    SliceMiddle(Flatten(s[..j]), s[j], Flatten(s[j + 1..]));
  }

  lemma SliceMiddle<T>(x: seq<T>, y: seq<T>, z: seq<T>)
    ensures (x + y + z)[|x| .. |x| + |y|] == y
  {
  }

  /** The three parts of a concatenation of three, read back by position. */
  lemma ThreeParts<T>(s: seq<T>, x: seq<T>, y: seq<T>, z: seq<T>)
    requires s == x + y + z
    ensures s[..|x|] == x && s[|x| .. |x| + |y|] == y && s[|x| + |y| ..] == z
  {
    SliceMiddle(x, y, z);
  }

  lemma MulMono(a: nat, b: nat, c: nat)
    requires a <= b
    ensures a * c <= b * c
  {
  }

  lemma DivMono(n: nat, m: nat, p: nat)
    requires p > 0 && n <= m
    ensures n / p <= m / p
  {
    var qn, qm := n / p, m / p;
    if qn > qm {
      MulMono(qm + 1, qn, p);
      assert false;
    }
  }

  lemma MulDistrib(a: nat, b: nat, c: nat)
    ensures (a + b) * c == a * c + b * c
  {
  }

  lemma MulDivCancel(a: nat, b: nat)
    requires b > 0
    ensures a * b / b == a
  {
    var q := a * b / b;
    if q < a {
      MulMono(q + 1, a, b);
      assert false;
    } else if q > a {
      MulMono(a + 1, q, b);
      assert false;
    }
  }

  /** n copies of the filler value v. */
  function Fill(n: nat, v: int): (r: seq<int>)
    ensures |r| == n
  {
    seq(n, _ => v)
  }

  predicate AllAtMost(s: seq<int>, bound: int)
  {
    forall k :: 0 <= k < |s| ==> s[k] <= bound
  }

  predicate AllAbove(s: seq<int>, bound: int)
  {
    forall k :: 0 <= k < |s| ==> s[k] > bound
  }

  /** A bound on the elements carries over to every sequence with the same multiset. */
  lemma MultisetKeepsBounds(a: seq<int>, b: seq<int>, bound: int)
    requires multiset(a) == multiset(b)
    ensures AllAtMost(b, bound) ==> AllAtMost(a, bound)
    ensures AllAbove(b, bound) ==> AllAbove(a, bound)
  {
    forall k | 0 <= k < |a|
      ensures a[k] in b
    {
      assert a[k] in multiset(a);
    }
  }

  predicate Sorted(s: seq<int>)
  {
    forall i, j :: 0 <= i < j < |s| ==> s[i] <= s[j]
  }

  lemma SortedAppend(a: seq<int>, b: seq<int>, bound: int)
    requires Sorted(a) && Sorted(b)
    requires AllAtMost(a, bound) && AllAbove(b, bound)
    ensures Sorted(a + b)
  {
  }

  /** Inserts x before the first element it does not exceed. */
  function Insert(x: int, s: seq<int>): (r: seq<int>)
    ensures multiset(r) == multiset(s) + multiset{x}
    ensures Sorted(s) ==> Sorted(r)
  {
    if s == [] || x <= s[0] then
      [x] + s
    else
      var rest := Insert(x, s[1..]);
      assert s == [s[0]] + s[1..];
      InsertKeepsHead(x, s, rest);
      [s[0]] + rest
  }

  lemma InsertKeepsHead(x: int, s: seq<int>, rest: seq<int>)
    requires s != [] && s[0] < x
    requires multiset(rest) == multiset(s[1..]) + multiset{x}
    requires Sorted(s[1..]) ==> Sorted(rest)
    ensures Sorted(s) ==> Sorted([s[0]] + rest)
  {
    if Sorted(s) {
      assert Sorted(s[1..]) by {
        forall i, j | 0 <= i < j < |s[1..]|
          ensures s[1..][i] <= s[1..][j]
        {
          assert s[1..][i] == s[i + 1] && s[1..][j] == s[j + 1];
        }
      }
      forall k | 0 <= k < |rest|
        ensures s[0] <= rest[k]
      {
        assert rest[k] in multiset(rest);
      }
      var r := [s[0]] + rest;
      forall i, j | 0 <= i < j < |r|
        ensures r[i] <= r[j]
      {
        assert r[j] == rest[j - 1];
        if i > 0 { assert r[i] == rest[i - 1]; }
      }
    }
  }

  /** The ascending order of s: the sorted permutation that the final local sort produces. */
  function Sort(s: seq<int>): (r: seq<int>)
    ensures Sorted(r)
    ensures multiset(r) == multiset(s)
  {
    if s == [] then []
    else
      assert s == [s[0]] + s[1..];
      Insert(s[0], Sort(s[1..]))
  }
}
