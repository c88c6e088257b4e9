/**
  Cutting a sequence into consecutive slices of a fixed size.

  `ChunksFrom(s, c, start)` is the sequence of slices that
  `for start in range(start, len(s), c): yield s[start : start + c]` produces:
  one slice per start position start, start + c, start + 2c, ..., each clipped
  to the end of `s`. The batch loader cuts its table this way, and the
  embedding exporter's batch rollover is proved to write exactly these slices.
*/
module Chunking {

  function Min(a: int, b: int): int
  {
    if a <= b then a else b
  }

  /**
    ceil(n / c): the least k with n <= k * c, the number of slices of size at
    most c that cover n elements.
  */
  function CeilDiv(n: nat, c: nat): (k: nat)
    requires c > 0
    ensures (k - 1) * c < n <= k * c
    decreases n
  {
    if n == 0 then 0 else if n <= c then 1 else 1 + CeilDiv(n - c, c)
  }

  /** One more slice of c elements: the nonlinear step the slice arithmetic needs. */
  lemma MulSucc(n: nat, c: nat)
    ensures (n + 1) * c == n * c + c
  {
  }

  /** The concatenation of a sequence of sequences, in order. */
  function Flatten<T>(ss: seq<seq<T>>): seq<T>
  {
    if ss == [] then [] else ss[0] + Flatten(ss[1..])
  }

  /** The slices of s that start at start, start + c, start + 2c, ... and end at most c later. */
  function ChunksFrom<T>(s: seq<T>, c: nat, start: nat): seq<seq<T>>
    requires c > 0
    decreases |s| - start
  {
    if start >= |s| then []
    else [s[start..Min(start + c, |s|)]] + ChunksFrom(s, c, start + c)
  }

  /** The slices s[0..c], s[c..2c], ... clipped to |s|: Python's range(0, len(s), c) slicing. */
  function Chunks<T>(s: seq<T>, c: nat): seq<seq<T>>
    requires c > 0
  {
    ChunksFrom(s, c, 0)
  }

  lemma FlattenCons<T>(x: seq<T>, rest: seq<seq<T>>)
    ensures Flatten([x] + rest) == x + Flatten(rest)
  {
    assert ([x] + rest)[1..] == rest;
  }

  lemma FlattenAppend<T>(ss: seq<seq<T>>, x: seq<T>)
    ensures Flatten(ss + [x]) == Flatten(ss) + x
  {
    if ss == [] {
      assert [] + [x] == [x];
      FlattenCons(x, []);
    } else {
      assert (ss + [x])[1..] == ss[1..] + [x];
      FlattenAppend(ss[1..], x);
    }
  }

  /** Concatenating the slices in order gives back the suffix they cover: nothing dropped or repeated. */
  lemma {:induction false} ChunksFromFlatten<T>(s: seq<T>, c: nat, start: nat)
    requires c > 0 && start <= |s|
    ensures Flatten(ChunksFrom(s, c, start)) == s[start..]
    decreases |s| - start
  {
    if start < |s| {
      var end := Min(start + c, |s|);
      FlattenCons(s[start..end], ChunksFrom(s, c, start + c));
      if start + c <= |s| {
        ChunksFromFlatten(s, c, start + c);
      } else {
        assert ChunksFrom(s, c, start + c) == [];
      }
      assert s[start..] == s[start..end] + s[end..];
    }
  }

  /** Concatenating the chunks of s in order gives s. */
  lemma ChunksFlatten<T>(s: seq<T>, c: nat)
    requires c > 0
    ensures Flatten(Chunks(s, c)) == s
  {
    ChunksFromFlatten(s, c, 0);
  }

  /** n whole slices of c elements need exactly n slices. */
  lemma {:induction false} CeilDivExact(n: nat, c: nat)
    requires c > 0
    ensures CeilDiv(n * c, c) == n
  {
    if n > 1 {
      assert n * c - c == (n - 1) * c;
      CeilDivExact(n - 1, c);
    }
  }

  /** There are ceil((|s| - start) / c) slices. */
  lemma {:induction false} ChunksFromCount<T>(s: seq<T>, c: nat, start: nat)
    requires c > 0 && start <= |s|
    ensures |ChunksFrom(s, c, start)| == CeilDiv(|s| - start, c)
    decreases |s| - start
  {
    if start < |s| && start + c < |s| {
      ChunksFromCount(s, c, start + c);
    }
  }

  /** The i-th slice starts at start + i*c and ends c later, or at the end of s. */
  lemma {:induction false} ChunksFromAt<T>(s: seq<T>, c: nat, start: nat, i: nat)
    requires c > 0 && i < |ChunksFrom(s, c, start)|
    ensures start + i * c < |s|
    ensures ChunksFrom(s, c, start)[i] == s[start + i * c..Min(start + (i + 1) * c, |s|)]
    decreases i
  {
    if i > 0 {
      assert ChunksFrom(s, c, start)[i] == ChunksFrom(s, c, start + c)[i - 1];
      ChunksFromAt(s, c, start + c, i - 1);
      MulSucc(i - 1, c);
      MulSucc(i, c);
    }
  }

  /** There are ceil(|s| / c) chunks; none exactly when s is empty. */
  lemma ChunksCount<T>(s: seq<T>, c: nat)
    requires c > 0
    ensures |Chunks(s, c)| == CeilDiv(|s|, c)
    ensures |s| == 0 <==> Chunks(s, c) == []
  {
    ChunksFromCount(s, c, 0);
  }

  /**
    The i-th chunk is the slice s[i*c .. (i+1)*c] clipped to |s|: the chunks
    start at 0, c, 2c, ..., each one where the previous one ends, so they are
    disjoint and contiguous.
  */
  lemma ChunksAt<T>(s: seq<T>, c: nat)
    requires c > 0
    ensures forall i :: 0 <= i < |Chunks(s, c)| ==>
      i * c < |s| && Chunks(s, c)[i] == s[i * c..Min((i + 1) * c, |s|)]
  {
    forall i | 0 <= i < |Chunks(s, c)|
      ensures i * c < |s| && Chunks(s, c)[i] == s[i * c..Min((i + 1) * c, |s|)]
    {
      ChunksFromAt(s, c, 0, i);
    }
  }

  /** The k-th element of the j-th chunk is the element j*c + k of s. */
  lemma ChunksElement<T>(s: seq<T>, c: nat, j: nat, k: nat)
    requires c > 0 && j < |Chunks(s, c)| && k < |Chunks(s, c)[j]|
    ensures j * c + k < |s| && Chunks(s, c)[j][k] == s[j * c + k]
  {
    ChunksFromAt(s, c, 0, j);
    assert j * c + k < Min((j + 1) * c, |s|);
  }

  /**
    Every chunk holds c elements except the last, which holds between 1 and c:
    what is left after the full ones.
  */
  lemma ChunksSizes<T>(s: seq<T>, c: nat)
    requires c > 0
    ensures forall i :: 0 <= i < |Chunks(s, c)| - 1 ==> |Chunks(s, c)[i]| == c
    ensures |s| > 0 ==>
      var last := |Chunks(s, c)| - 1;
      1 <= |Chunks(s, c)[last]| == |s| - last * c <= c
  {
    var cs := Chunks(s, c);
    ChunksFromCount(s, c, 0);
    forall i | 0 <= i < |cs| - 1
      ensures |cs[i]| == c
    {
      ChunksFromAt(s, c, 0, i);
      ChunksFromAt(s, c, 0, i + 1);
    }
    if |s| > 0 {
      var last := |cs| - 1;
      ChunksFromAt(s, c, 0, last);
      assert |s| <= (last + 1) * c;
    }
  }

  /**
    Rolling over: when the covered part of s is k whole c-slices, a further
    slice t of 1 to c elements becomes exactly one more chunk.
  */
  lemma {:induction false} ChunksFromAppend<T>(s: seq<T>, t: seq<T>, c: nat, start: nat, k: nat)
    requires c > 0 && start <= |s| && |s| - start == k * c
    requires 1 <= |t| <= c
    ensures ChunksFrom(s + t, c, start) == ChunksFrom(s, c, start) + [t]
    decreases k
  {
    var st := s + t;
    if k == 0 {
      assert st[start..Min(start + c, |st|)] == t;
      assert ChunksFrom(st, c, start + c) == [];
    } else {
      assert |s| - (start + c) == (k - 1) * c;
      assert st[start..start + c] == s[start..start + c];
      ChunksFromAppend(s, t, c, start + c, k - 1);
    }
  }

  /** The chunks of s + t are those of s followed by t, when s is k whole c-slices and 1 <= |t| <= c. */
  lemma ChunksAppend<T>(s: seq<T>, t: seq<T>, c: nat, k: nat)
    requires c > 0 && |s| == k * c && 1 <= |t| <= c
    ensures Chunks(s + t, c) == Chunks(s, c) + [t]
  {
    ChunksFromAppend(s, t, c, 0, k);
  }
}
