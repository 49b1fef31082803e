/** The reference buffer of the system test (tests/test_system.py): a list
    of chunks, each stamped with the time it was recorded, capped at
    `max_size` entries, queried by an inclusive time window.  Python's
    float timestamps are modelled as integers, and a chunk's frames are
    left out. */
module ReferenceBuffer {
  import opened Common

  datatype Chunk = Chunk(timestamp: int, startTime: int)

  const BufferSizeMinutes: int := 15
  const ChunkDurationSeconds: int := 30
  /** How far before and after an event `save_event_video` looks: 5 minutes. */
  const EventMarginSeconds: int := 5 * 60

  /** `(BUFFER_SIZE_MINUTES * 60) // CHUNK_DURATION_SECONDS` in `main`. */
  function BufferSize(): (n: int)
    ensures n == 30
  {
    FloorDiv(BufferSizeMinutes * 60, ChunkDurationSeconds)
  }

  predicate InWindow(c: Chunk, startTime: int, endTime: int)
  {
    startTime <= c.timestamp <= endTime
  }

  /** The chunks of `chunks` inside the window, in their order. */
  function InWindowChunks(chunks: seq<Chunk>, startTime: int, endTime: int): (r: seq<Chunk>)
    ensures |r| <= |chunks|
  {
    if chunks == [] then []
    else
      var init := InWindowChunks(chunks[..|chunks| - 1], startTime, endTime);
      var last := chunks[|chunks| - 1];
      if InWindow(last, startTime, endTime) then init + [last] else init
  }

  class CircularBuffer {
    var buffer: seq<Chunk>
    const maxSize: int
    /** Every chunk added so far, oldest first. */
    ghost var added: seq<Chunk>

    ghost predicate Valid()
      reads this
    {
      buffer == LastN(added, Retained(maxSize))
    }

    constructor(maxSize: int)
      ensures Valid()
      ensures this.maxSize == maxSize && buffer == [] && added == []
    {
      this.maxSize := maxSize;
      buffer := [];
      added := [];
    }

    /** `add_chunk`: append, then pop the oldest entry once if the list is
        longer than `max_size`. */
    method AddChunk(chunk: Chunk)
      requires Valid()
      modifies this
      ensures Valid()
      ensures added == old(added) + [chunk]
      ensures buffer == PushBounded(old(buffer), chunk, maxSize)
    {
      buffer := buffer + [chunk];
      if |buffer| > maxSize {
        buffer := buffer[1..];
      }
      added := added + [chunk];
      PushKeepsLastN(old(added), chunk, maxSize);
    }

    /** `get_chunks`: the loop collecting the chunks stamped inside
        `[startTime, endTime]`. */
    method GetChunks(startTime: int, endTime: int) returns (relevant: seq<Chunk>)
      ensures relevant == InWindowChunks(buffer, startTime, endTime)
    {
      relevant := [];
      var i := 0;
      while i < |buffer|
        invariant 0 <= i <= |buffer|
        invariant relevant == InWindowChunks(buffer[..i], startTime, endTime)
      {
        assert buffer[..i + 1][..i] == buffer[..i];
        var chunk := buffer[i];
        if startTime <= chunk.timestamp <= endTime {
          relevant := relevant + [chunk];
        }
        i := i + 1;
      }
      assert buffer[..i] == buffer;
    }
  }

  /** The selection `save_event_video` makes: the same rule over the window
      from five minutes before to five minutes after the event. */
  method SaveEventVideo(circularBuffer: CircularBuffer, eventTime: int) returns (relevant: seq<Chunk>)
    ensures relevant == InWindowChunks(circularBuffer.buffer, eventTime - EventMarginSeconds, eventTime + EventMarginSeconds)
  {
    var startTime := eventTime - 5 * 60;
    var endTime := eventTime + 5 * 60;
    relevant := circularBuffer.GetChunks(startTime, endTime);
  }

  // ---------------------------------------------------------------------
  // Properties
  // ---------------------------------------------------------------------

  /** The selection holds exactly the chunks of the buffer whose stamp lies
      in the window, both bounds included. */
  lemma {:induction false} InWindowChunksMembers(chunks: seq<Chunk>, startTime: int, endTime: int)
    ensures forall c :: c in InWindowChunks(chunks, startTime, endTime) <==> c in chunks && InWindow(c, startTime, endTime)
  {
    if chunks != [] {
      var init := chunks[..|chunks| - 1];
      InWindowChunksMembers(init, startTime, endTime);
      assert chunks == init + [chunks[|chunks| - 1]];
    }
  }

  /** The selection keeps the buffer's order: it is what is left of the
      buffer after dropping the chunks outside the window, so selecting
      from a concatenation selects from each part in turn. */
  lemma {:induction false} InWindowChunksAppend(a: seq<Chunk>, b: seq<Chunk>, startTime: int, endTime: int)
    ensures InWindowChunks(a + b, startTime, endTime) == InWindowChunks(a, startTime, endTime) + InWindowChunks(b, startTime, endTime)
    decreases |b|
  {
    if b == [] {
      assert a + b == a;
    } else {
      var binit := b[..|b| - 1];
      assert (a + b)[..|a + b| - 1] == a + binit;
      InWindowChunksAppend(a, binit, startTime, endTime);
    }
  }

  /** When every chunk lies in the window the whole buffer is selected. */
  lemma {:induction false} AllInWindowSelectsAll(chunks: seq<Chunk>, startTime: int, endTime: int)
    requires forall k :: 0 <= k < |chunks| ==> InWindow(chunks[k], startTime, endTime)
    ensures InWindowChunks(chunks, startTime, endTime) == chunks
  {
    if chunks != [] {
      AllInWindowSelectsAll(chunks[..|chunks| - 1], startTime, endTime);
    }
  }
}
