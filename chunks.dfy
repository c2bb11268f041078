/**
 * `chunks(_:)` of `Array+LionheartExtensions.swift`: an iterator over
 * consecutive slices of `size` elements, the last one possibly shorter.
 * `ChunksFrom` is the sequence of slices the iterator still has to yield.
 */
module ArrayChunks {
  import opened Wrappers

  function Min(a: int, b: int): int { if a <= b then a else b }

  /** The slices of `a` of `size` elements, starting at index `i`. */
  function ChunksFrom<T>(a: seq<T>, size: nat, i: nat): seq<seq<T>>
    requires size > 0
    decreases |a| - i
  {
    if i >= |a| then [] else [a[i..Min(i + size, |a|)]] + ChunksFrom(a, size, i + size)
  }

  /**
   * Everything the iterator yields: nothing when `size` is zero or negative
   * or the array is empty, and otherwise slices that concatenate back to it.
   */
  function Chunks<T>(a: seq<T>, size: int): (r: seq<seq<T>>)
    ensures r == [] <==> size <= 0 || a == []
    ensures size > 0 ==> Flatten(r) == a
  {
    if size > 0 then
      FlattenChunksFrom(a, size, 0);
      ChunksFrom(a, size, 0)
    else []
  }

  function Flatten<T>(ss: seq<seq<T>>): seq<T>
  {
    if ss == [] then [] else ss[0] + Flatten(ss[1..])
  }

  /** Concatenating the chunks in order gives back the elements. */
  lemma {:induction false} FlattenChunksFrom<T>(a: seq<T>, size: nat, i: nat)
    requires size > 0 && i <= |a|
    ensures Flatten(ChunksFrom(a, size, i)) == a[i..]
    decreases |a| - i
  {
    if i < |a| {
      var c := ChunksFrom(a, size, i);
      assert c[1..] == ChunksFrom(a, size, i + size);
      if i + size < |a| {
        FlattenChunksFrom(a, size, i + size);
        assert a[i..] == a[i..i + size] + a[i + size..];
      } else {
        assert ChunksFrom(a, size, i + size) == [];
        assert c[0] + [] == a[i..];
      }
    }
  }

  /** The number of chunks is the least `k` with `k * size` covering what is left: the ceiling of the quotient. */
  lemma {:induction false} ChunkCount<T>(a: seq<T>, size: nat, i: nat)
    requires size > 0 && i <= |a|
    ensures var k := |ChunksFrom(a, size, i)|;
            |a| - i <= k * size && (k == 0 || (k - 1) * size < |a| - i)
    decreases |a| - i
  {
    if i < |a| {
      if i + size < |a| {
        ChunkCount(a, size, i + size);
        var k' := |ChunksFrom(a, size, i + size)|;
        assert |ChunksFrom(a, size, i)| == k' + 1;
        assert (k' + 1) * size == k' * size + size;
      } else {
        assert ChunksFrom(a, size, i + size) == [];
        assert |ChunksFrom(a, size, i)| == 1;
      }
    }
  }

  /** Chunk `k` starts at `i + k * size` and runs `size` elements or to the end. */
  lemma {:induction false} ChunkAtIndex<T>(a: seq<T>, size: nat, i: nat, k: nat)
    requires size > 0 && k < |ChunksFrom(a, size, i)|
    ensures i + k * size < |a|
    ensures ChunksFrom(a, size, i)[k] == a[i + k * size..Min(i + (k + 1) * size, |a|)]
    decreases k
  {
    if k > 0 {
      var c := ChunksFrom(a, size, i);
      assert c[1..] == ChunksFrom(a, size, i + size);
      assert c[k] == ChunksFrom(a, size, i + size)[k - 1];
      ChunkAtIndex(a, size, i + size, k - 1);
      assert i + size + (k - 1) * size == i + k * size;
      assert i + size + k * size == i + (k + 1) * size;
    }
  }

  /** Every chunk is non-empty and at most `size` long; all but the last are exactly `size` long. */
  predicate WellShaped<T>(c: seq<seq<T>>, size: nat)
  {
    forall k :: 0 <= k < |c| ==> 0 < |c[k]| <= size && (k < |c| - 1 ==> |c[k]| == size)
  }

  lemma {:induction false} ChunkLengths<T>(a: seq<T>, size: nat, i: nat)
    requires size > 0
    ensures WellShaped(ChunksFrom(a, size, i), size)
    decreases |a| - i
  {
    if i < |a| {
      var c := ChunksFrom(a, size, i);
      var rest := ChunksFrom(a, size, i + size);
      ChunkLengths(a, size, i + size);
      assert c == [a[i..Min(i + size, |a|)]] + rest;
      forall k | 0 <= k < |c|
        ensures 0 < |c[k]| <= size && (k < |c| - 1 ==> |c[k]| == size)
      {
        if k == 0 {
          if |c| > 1 {
            assert i + size < |a|;
          }
        } else {
          assert c[k] == rest[k - 1];
        }
      }
    }
  }

  lemma ChunksSample()
    ensures Chunks([1, 2, 3, 4, 5], 2) == [[1, 2], [3, 4], [5]]
    ensures Chunks([1, 2, 3], 0) == [] && Chunks([1, 2, 3], -1) == []
  {
    var a := [1, 2, 3, 4, 5];
    assert a[4..5] == [5] && a[2..4] == [3, 4] && a[0..2] == [1, 2];
    assert ChunksFrom(a, 2, 6) == [];
    assert ChunksFrom(a, 2, 4) == [a[4..5]] + ChunksFrom(a, 2, 6);
    assert ChunksFrom(a, 2, 2) == [a[2..4]] + ChunksFrom(a, 2, 4);
    assert ChunksFrom(a, 2, 0) == [a[0..2]] + ChunksFrom(a, 2, 2);
  }

  /**
   * The body of the iterator's closure after `generator.next()` gave `i`:
   * `j` starts `size` past `i` and steps back until it is in bounds.
   */
  method ChunkAt<T>(a: seq<T>, size: int, i: int) returns (chunk: seq<T>)
    requires size > 0 && 0 <= i < |a|
    ensures chunk == a[i..Min(i + size, |a|)]
    ensures 0 < |chunk| <= size
  {
    var j := i + size;
    j := j - 1;
    while j >= |a|
      invariant i <= j < i + size
      invariant j + 1 < i + size ==> j + 1 >= |a|
      decreases j
    {
      j := j - 1;
    }
    chunk := a[i..j + 1];
  }

  /** The iterator `chunks(_:)` returns, over a copy of the array. */
  class ChunkIterator<T> {
    const elements: seq<T>
    const size: int
    /** The next value of the `stride(from:to:by:)` generator. */
    var position: nat

    /** The chunks still to come. */
    ghost function Remaining(): seq<seq<T>>
      reads this
    {
      if size > 0 then ChunksFrom(elements, size, position) else []
    }

    /** `chunks(_:)`. */
    constructor (elements: seq<T>, size: int)
      ensures this.elements == elements && this.size == size
      ensures Remaining() == Chunks(elements, size)
    {
      this.elements := elements;
      this.size := size;
      position := 0;
    }

    /** `next()`: the first remaining chunk, or `nil` once they are used up (forever after). */
    method Next() returns (chunk: Option<seq<T>>)
      modifies this`position
      ensures old(Remaining()) == [] ==> chunk == None && Remaining() == []
      ensures old(Remaining()) != [] ==> chunk == Some(old(Remaining())[0]) && Remaining() == old(Remaining())[1..]
    {
      if size == 0 {
        return None;
      }
      // A negative stride from 0 towards `count` is empty.
      if size < 0 || position >= |elements| {
        return None;
      }
      var i := position;
      position := position + size;
      var c := ChunkAt(elements, size, i);
      chunk := Some(c);
    }
  }
}
