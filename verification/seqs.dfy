/** Concatenating and cutting sequences of equally long blocks: the shape of nested loops
    over a grid (writing) and of a row-major array viewed as nested arrays (reading). */
module Seqs {
  import opened Arith

  /** The concatenation of all blocks, in order. */
  function Flatten<T>(ss: seq<seq<T>>): seq<T>
    decreases |ss|
  {
    if |ss| == 0 then [] else ss[0] + Flatten(ss[1..])
  }

  ghost predicate Uniform<T>(ss: seq<seq<T>>, len: nat)
  {
    forall i :: 0 <= i < |ss| ==> |ss[i]| == len
  }

  /** Blocks of `len` elements flatten to `|ss| * len` elements. */
  lemma {:induction false} FlattenLength<T>(ss: seq<seq<T>>, len: nat)
    requires Uniform(ss, len)
    ensures |Flatten(ss)| == |ss| * len
    decreases |ss|
  {
    if |ss| > 0 {
      FlattenLength(ss[1..], len);
      assert |Flatten(ss)| == len + (|ss| - 1) * len;
    }
  }

  /** Element `j` of block `i` sits at position `i * len + j` of the concatenation. */
  lemma {:induction false} FlattenIndex<T>(ss: seq<seq<T>>, len: nat, i: nat, j: nat)
    requires Uniform(ss, len)
    requires i < |ss| && j < len
    ensures i * len + j < |Flatten(ss)|
    ensures Flatten(ss)[i * len + j] == ss[i][j]
    decreases |ss|
  {
    FlattenLength(ss, len);
    MixedRadixBound(j, len, i, |ss|);
    if i > 0 {
      FlattenIndex(ss[1..], len, i - 1, j);
      assert i * len + j == len + ((i - 1) * len + j);
    }
  }

  /** `s` cut into `n` consecutive blocks of `len` elements. */
  function Chunk<T>(s: seq<T>, n: nat, len: nat): (r: seq<seq<T>>)
    requires |s| == n * len
    ensures |r| == n
    ensures forall i :: 0 <= i < n ==> |r[i]| == len
    decreases n
  {
    if n == 0 then []
    else
      assert |s| == len + (n - 1) * len;
      [s[..len]] + Chunk(s[len..], n - 1, len)
  }

  /** Element `j` of block `i` of the cut is element `i * len + j` of the whole. */
  lemma {:induction false} ChunkIndex<T>(s: seq<T>, n: nat, len: nat, i: nat, j: nat)
    requires |s| == n * len
    requires i < n && j < len
    ensures |Chunk(s, n, len)[i]| == len
    ensures i * len + j < |s|
    ensures Chunk(s, n, len)[i][j] == s[i * len + j]
    decreases n
  {
    MixedRadixBound(j, len, i, n);
    assert |s| == len + (n - 1) * len;
    if i > 0 {
      ChunkIndex(s[len..], n - 1, len, i - 1, j);
      assert i * len + j == len + ((i - 1) * len + j);
    }
  }

  /** Cutting then flattening gives the sequence back. */
  lemma {:induction false} ChunkFlatten<T>(s: seq<T>, n: nat, len: nat)
    requires |s| == n * len
    ensures Uniform(Chunk(s, n, len), len)
    ensures Flatten(Chunk(s, n, len)) == s
    decreases n
  {
    if n > 0 {
      assert |s| == len + (n - 1) * len;
      ChunkFlatten(s[len..], n - 1, len);
      assert s == s[..len] + s[len..];
    }
  }

  /** How many elements of `s` satisfy `p`. */
  function CountIf<T>(s: seq<T>, p: T -> bool): (n: nat)
    ensures n <= |s|
    decreases |s|
  {
    if |s| == 0 then 0 else (if p(s[0]) then 1 else 0) + CountIf(s[1..], p)
  }

  lemma {:induction false} CountIfAppend<T>(s: seq<T>, t: seq<T>, p: T -> bool)
    ensures CountIf(s + t, p) == CountIf(s, p) + CountIf(t, p)
    decreases |s|
  {
    if |s| > 0 {
      assert (s + t)[1..] == s[1..] + t;
      CountIfAppend(s[1..], t, p);
    } else {
      assert s + t == t;
    }
  }

  /** Counting every element, or none. */
  lemma {:induction false} CountIfAll<T>(s: seq<T>, p: T -> bool)
    ensures (forall i :: 0 <= i < |s| ==> p(s[i])) ==> CountIf(s, p) == |s|
    ensures (forall i :: 0 <= i < |s| ==> !p(s[i])) ==> CountIf(s, p) == 0
    decreases |s|
  {
    if |s| > 0 {
      CountIfAll(s[1..], p);
      assert forall i :: 0 <= i < |s| - 1 ==> s[1..][i] == s[i + 1];
    }
  }

  /** Blocks that each hold `k` matches flatten to `|ss| * k` matches. */
  lemma {:induction false} CountIfFlatten<T>(ss: seq<seq<T>>, p: T -> bool, k: nat)
    requires forall i :: 0 <= i < |ss| ==> CountIf(ss[i], p) == k
    ensures CountIf(Flatten(ss), p) == |ss| * k
    decreases |ss|
  {
    if |ss| > 0 {
      CountIfAppend(ss[0], Flatten(ss[1..]), p);
      CountIfFlatten(ss[1..], p, k);
      assert CountIf(Flatten(ss), p) == k + (|ss| - 1) * k;
    }
  }
}
