/** `CircularBuffer` of the first C++ prototype (CircularBuffer.cpp): a
    vector of chunk paths with a separate size counter.  A full buffer
    drops its oldest path before the new one is appended.  Removing the
    chunk files from disk is left out; only the paths are modelled. */
module ChunkBuffer {
  import opened Common

  /** The paths `getChunks(startIndex, count)` selects: a negative start
      counts as 0, and the range stops at `count` paths or at the end. */
  function Window(buffer: seq<string>, startIndex: int, count: int): (r: seq<string>)
    ensures var s := if startIndex < 0 then 0 else startIndex;
      |r| <= (if count < 0 then 0 else count) &&
      (s >= |buffer| ==> r == []) &&
      forall j :: 0 <= j < |r| ==> s + j < |buffer| && r[j] == buffer[s + j]
    ensures var s := if startIndex < 0 then 0 else startIndex;
      s < |buffer| && count > 0 ==> |r| == (if count < |buffer| - s then count else |buffer| - s)
  {
    var s := if startIndex < 0 then 0 else startIndex;
    if s >= |buffer| || count <= 0 then []
    else buffer[s..if s + count < |buffer| then s + count else |buffer|]
  }

  class CircularBuffer {
    var buffer: seq<string>
    const maxSize: nat
    var currentSize: nat
    /** The paths added since construction or the last `clear`, oldest first. */
    ghost var added: seq<string>

    ghost predicate Valid()
      reads this
    {
      currentSize == |buffer| && buffer == LastN(added, maxSize)
    }

    /** The constructor, apart from its clean-up of old chunk files. */
    constructor(size: nat)
      ensures Valid()
      ensures maxSize == size && buffer == [] && currentSize == 0
    {
      maxSize := size;
      buffer := [];
      currentSize := 0;
      added := [];
    }

    /** `addChunk`.  On an empty vector with `maxSize` 0 the source would
        read `buffer[0]`, so a capacity of at least one is required. */
    method AddChunk(chunkPath: string)
      requires Valid() && maxSize >= 1
      modifies this
      ensures Valid()
      ensures added == old(added) + [chunkPath]
      ensures buffer == (if old(currentSize) >= maxSize then old(buffer)[1..] else old(buffer)) + [chunkPath]
      ensures currentSize <= maxSize
    {
      if currentSize >= maxSize {
        buffer := buffer[1..];
        currentSize := currentSize - 1;
      }
      buffer := buffer + [chunkPath];
      currentSize := currentSize + 1;
      added := added + [chunkPath];
      EvictThenPush(old(added), chunkPath, maxSize);
    }

    /** `getChunks`, built with the source's index loop. */
    method GetChunks(startIndex: int, count: int) returns (result: seq<string>)
      requires Valid()
      ensures result == Window(buffer, startIndex, count)
    {
      result := [];
      var start := startIndex;
      if start < 0 {
        start := 0;
      }
      if start >= currentSize {
        return;
      }
      var i := start;
      while i < start + count && i < currentSize
        invariant start <= i <= currentSize
        invariant i <= start + count || i == start
        invariant result == buffer[start..i]
      {
        result := result + [buffer[i]];
        i := i + 1;
      }
      if count > 0 {
        assert i == if start + count < |buffer| then start + count else |buffer|;
      }
    }

    method Clear()
      modifies this
      ensures Valid()
      ensures buffer == [] && currentSize == 0 && added == []
    {
      buffer := [];
      currentSize := 0;
      added := [];
    }
  }

  // ---------------------------------------------------------------------
  // Properties
  // ---------------------------------------------------------------------

  /** Dropping the oldest path of a full buffer and appending keeps the
      buffer equal to the last `maxSize` paths added, in order. */
  lemma EvictThenPush(history: seq<string>, path: string, maxSize: nat)
    requires maxSize >= 1
    ensures var b := LastN(history, maxSize);
      (if |b| >= maxSize then b[1..] else b) + [path] == LastN(history + [path], maxSize)
  {
    var h := history + [path];
    if |history| >= maxSize {
      assert LastN(history, maxSize)[1..] + [path] == h[|h| - maxSize..];
    }
  }

  /** A window never reaches past the buffer and holds at most `count`
      paths; a window that starts inside the buffer and fits is exactly
      `count` consecutive paths. */
  lemma WindowInside(buffer: seq<string>, startIndex: nat, count: nat)
    requires startIndex + count <= |buffer|
    ensures Window(buffer, startIndex, count) == buffer[startIndex..startIndex + count]
  {
  }
}
