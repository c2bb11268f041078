/**
 * The older `chunks(size:)` of `Array.swift`: a generator over the same
 * slices, cutting each one with `advancedBy(_:limit:)` instead of stepping
 * back. `stride(to:by:)` traps on a zero step, so `size` may not be 0.
 */
module LegacyArrayChunks {
  import opened Wrappers
  import opened ArrayChunks

  class ChunkGenerator<T> {
    const elements: seq<T>
    const size: int
    /** The next value of the `stride(to:by:)` generator. */
    var position: nat

    /** The chunks still to come. */
    ghost function Remaining(): seq<seq<T>>
      reads this
    {
      if size > 0 then ChunksFrom(elements, size, position) else []
    }

    /** `chunks(size:)`: for every `size` it allows, the slices the newer `chunks(_:)` yields. */
    constructor (elements: seq<T>, size: int)
      requires size != 0
      ensures this.elements == elements && this.size == size
      ensures Remaining() == Chunks(elements, size)
    {
      this.elements := elements;
      this.size := size;
      position := 0;
    }

    /** `next()`: the first remaining chunk, or `nil` once they are used up (forever after). */
    method Next() returns (chunk: Option<seq<T>>)
      modifies this`position
      ensures old(Remaining()) == [] ==> chunk == None && Remaining() == []
      ensures old(Remaining()) != [] ==> chunk == Some(old(Remaining())[0]) && Remaining() == old(Remaining())[1..]
    {
      // A negative stride from 0 towards `count` is empty.
      if size > 0 && position < |elements| {
        var i := position;
        position := position + size;
        var j := AdvancedBy(i, size, |elements|);
        return Some(elements[i..j]);
      }
      return None;
    }
  }

  /** `advancedBy(_:limit:)` for a forward step from an index not past the limit. */
  function AdvancedBy(i: int, n: int, limit: int): (j: int)
    requires 0 < n && i <= limit
    ensures i < j <= limit || (i == limit && j == limit)
    ensures j == limit || j == i + n
    ensures j <= i + n
  {
    Min(i + n, limit)
  }
}
