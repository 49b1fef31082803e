/** `VideoCapture` of the Python prototype (lab_car_video_system/
    video_capture.py): frames are gathered into chunks, closed chunks are
    kept in a bounded list, and an event taken from the event queue
    snapshots the latest chunks as the pre-event part of an event video.
    One pass of the capture loop in `start` is `Step`; whether the chunk
    duration or the 5-minute post-event period has elapsed are its inputs,
    as is the `strftime` timestamp of the saved file.  Saving hands the
    video to the storage manager, which is modelled as the returned
    `SavedVideo`.  The event queue is given to the constructor; the
    threads that add events to it while the loop runs are left out. */
module VideoCapture {
  import opened Common

  /** A frame, with its overlay already drawn; its pixels are left out. */
  datatype Frame = Frame(index: nat)

  type Chunk = seq<Frame>

  /** An element of the combined event video: a pre-event chunk, or the
      list of post-event chunks appended as a single element. */
  datatype VideoPart = Single(frames: Chunk) | Nested(chunks: seq<Chunk>)

  /** What `save_event_video` passes to `storage_manager.save_video`. */
  datatype SavedVideo = SavedVideo(video: seq<VideoPart>, filename: string, eventType: string)

  const PreEventSeconds: int := 5 * 60
  const UnknownEvent: string := "unknown"

  /** Python's `xs[start:]` for an integer `start`: a negative start counts
      from the end, and both are clamped to the list. */
  function SliceFrom<T>(xs: seq<T>, start: int): (r: seq<T>)
    ensures |r| <= |xs| && r == xs[|xs| - |r|..]
  {
    if start < 0 then (if |xs| + start < 0 then xs else xs[|xs| + start..])
    else if start > |xs| then [] else xs[start..]
  }

  /** The chunks `handle_event` keeps as pre-event footage: `buffer[-count:]`
      when the buffer holds at least `count` chunks, else all of them. */
  function PreEventChunks(buffer: seq<Chunk>, count: int): (r: seq<Chunk>)
  {
    if |buffer| >= count then SliceFrom(buffer, -count) else buffer
  }

  /** The event type of a queued event string: the part before the first
      `_` when there is one, else the whole string, lower-cased. */
  function EventTypeOf(event: string): (r: string)
    ensures '_' !in r
  {
    if '_' in event then Lower(Split(event, '_')[0]) else Lower(event)
  }

  function EventFileName(eventType: string, timestamp: string): string
  {
    "event_" + (eventType + ("_" + (timestamp + ".avi")))
  }

  /** The pre-event chunks, then the post-event chunks as one element when
      there are any. */
  function FullEventVideo(pre: seq<Chunk>, post: seq<Chunk>): (r: seq<VideoPart>)
    ensures |r| == |pre| + (if post == [] then 0 else 1)
    ensures forall k :: 0 <= k < |pre| ==> r[k] == Single(pre[k])
    ensures post != [] ==> r[|pre|] == Nested(post)
  {
    seq(|pre|, k requires 0 <= k < |pre| => Single(pre[k])) + (if post == [] then [] else [Nested(post)])
  }

  class Capture {
    const chunkDuration: int
    const bufferDuration: int
    const maxChunks: int
    var eventQueue: seq<string>
    var videoBuffer: seq<Chunk>
    var currentChunk: Chunk
    var isRecordingPostEvent: bool
    var postEventChunks: seq<Chunk>
    var preEventChunks: seq<Chunk>
    var eventType: string
    /** Every chunk closed so far, oldest first. */
    ghost var closed: seq<Chunk>

    ghost predicate Valid()
      reads this
    {
      chunkDuration != 0 &&
      maxChunks == FloorDiv(bufferDuration, chunkDuration) &&
      videoBuffer == LastN(closed, Retained(maxChunks))
    }

    /** The constructor's bookkeeping (the camera set-up is left out).
        `event_type` and `pre_event_chunks` do not exist before the first
        event; `save_event_video` reads the type with the default
        "unknown", which is the initial value here. */
    constructor(eventQueue: seq<string>, chunkDuration: int, bufferDuration: int)
      requires chunkDuration != 0
      ensures Valid()
      ensures this.chunkDuration == chunkDuration && this.bufferDuration == bufferDuration
      ensures maxChunks == FloorDiv(bufferDuration, chunkDuration)
      ensures this.eventQueue == eventQueue
      ensures videoBuffer == [] && currentChunk == [] && closed == []
      ensures !isRecordingPostEvent && postEventChunks == [] && preEventChunks == []
      ensures eventType == UnknownEvent
    {
      this.eventQueue := eventQueue;
      this.chunkDuration := chunkDuration;
      this.bufferDuration := bufferDuration;
      maxChunks := FloorDiv(bufferDuration, chunkDuration);
      videoBuffer := [];
      currentChunk := [];
      isRecordingPostEvent := false;
      postEventChunks := [];
      preEventChunks := [];
      eventType := UnknownEvent;
      closed := [];
    }

    /** The frame joins the open chunk. */
    method AddFrame(frame: Frame)
      modifies this
      ensures currentChunk == old(currentChunk) + [frame]
      ensures videoBuffer == old(videoBuffer) && closed == old(closed) && eventQueue == old(eventQueue)
      ensures isRecordingPostEvent == old(isRecordingPostEvent) && eventType == old(eventType)
      ensures postEventChunks == old(postEventChunks) && preEventChunks == old(preEventChunks)
    {
      currentChunk := currentChunk + [frame];
    }

    /** The block run once the chunk duration has elapsed: a non-empty open
        chunk is appended to the buffer, the oldest chunk dropped when the
        buffer is over `MAX_CHUNKS`, and a new chunk opened. */
    method CloseChunk()
      requires Valid()
      modifies this
      ensures Valid()
      ensures old(currentChunk) == [] ==> videoBuffer == old(videoBuffer) && currentChunk == [] && closed == old(closed)
      ensures old(currentChunk) != [] ==>
        closed == old(closed) + [old(currentChunk)] && currentChunk == [] &&
        videoBuffer == PushBounded(old(videoBuffer), old(currentChunk), maxChunks)
      ensures eventQueue == old(eventQueue) && eventType == old(eventType)
      ensures isRecordingPostEvent == old(isRecordingPostEvent)
      ensures postEventChunks == old(postEventChunks) && preEventChunks == old(preEventChunks)
    {
      if currentChunk != [] {
        videoBuffer := videoBuffer + [currentChunk];
        closed := closed + [currentChunk];
        PushKeepsLastN(old(closed), currentChunk, maxChunks);
        currentChunk := [];
        if |videoBuffer| > maxChunks {
          videoBuffer := videoBuffer[1..];
        }
      }
    }

    /** `handle_event`. */
    method HandleEvent()
      requires Valid()
      modifies this
      ensures Valid()
      ensures preEventChunks == PreEventChunks(old(videoBuffer), FloorDiv(PreEventSeconds, chunkDuration))
      ensures old(eventQueue) == [] ==> eventQueue == [] && eventType == UnknownEvent
      ensures old(eventQueue) != [] ==> eventQueue == old(eventQueue)[1..] && eventType == EventTypeOf(old(eventQueue)[0])
      ensures isRecordingPostEvent && postEventChunks == []
      ensures videoBuffer == old(videoBuffer) && currentChunk == old(currentChunk) && closed == old(closed)
    {
      var chunksToSave: seq<Chunk>;
      var chunksFor5Minutes := FloorDiv(5 * 60, chunkDuration);
      if |videoBuffer| >= chunksFor5Minutes {
        chunksToSave := SliceFrom(videoBuffer, -chunksFor5Minutes);
      } else {
        chunksToSave := videoBuffer;
      }
      assert chunksToSave == PreEventChunks(videoBuffer, FloorDiv(PreEventSeconds, chunkDuration));
      var newType := UnknownEvent;
      if eventQueue != [] {
        var event := eventQueue[0];
        eventQueue := eventQueue[1..];
        newType := EventTypeOf(event);
      }
      isRecordingPostEvent := true;
      postEventChunks := [];
      eventType := newType;
      preEventChunks := chunksToSave;
    }

    /** The event check of the loop: one event is taken off the queue and
        dropped, then `handle_event` takes the type from the next one. */
    method PollEvents()
      requires Valid()
      modifies this
      ensures Valid()
      ensures old(eventQueue) == [] ==>
        eventQueue == [] && isRecordingPostEvent == old(isRecordingPostEvent) &&
        eventType == old(eventType) && preEventChunks == old(preEventChunks) &&
        postEventChunks == old(postEventChunks)
      ensures old(eventQueue) != [] ==>
        isRecordingPostEvent && postEventChunks == [] &&
        preEventChunks == PreEventChunks(old(videoBuffer), FloorDiv(PreEventSeconds, chunkDuration))
      ensures |old(eventQueue)| == 1 ==> eventQueue == [] && eventType == UnknownEvent
      ensures |old(eventQueue)| >= 2 ==> eventQueue == old(eventQueue)[2..] && eventType == EventTypeOf(old(eventQueue)[1])
      ensures videoBuffer == old(videoBuffer) && currentChunk == old(currentChunk) && closed == old(closed)
    {
      if eventQueue != [] {
        eventQueue := eventQueue[1..];
        HandleEvent();
      }
    }

    /** `save_event_video`: the event video, its file name, and the type
        reset to "unknown" afterwards. */
    method SaveEventVideo(timestamp: string) returns (saved: SavedVideo)
      modifies this
      ensures saved == SavedVideo(FullEventVideo(old(preEventChunks), old(postEventChunks)),
                                  EventFileName(old(eventType), timestamp), old(eventType))
      ensures eventType == UnknownEvent
      ensures videoBuffer == old(videoBuffer) && currentChunk == old(currentChunk) && closed == old(closed)
      ensures eventQueue == old(eventQueue) && isRecordingPostEvent == old(isRecordingPostEvent)
      ensures postEventChunks == old(postEventChunks) && preEventChunks == old(preEventChunks)
    {
      var pre := preEventChunks;
      var full: seq<VideoPart> := [];
      var i := 0;
      while i < |pre|
        invariant 0 <= i <= |pre| && |full| == i
        invariant forall k :: 0 <= k < i ==> full[k] == Single(pre[k])
      {
        full := full + [Single(pre[i])];
        i := i + 1;
      }
      if postEventChunks != [] {
        full := full + [Nested(postEventChunks)];
      }
      var filename := "event_" + eventType + "_" + timestamp + ".avi";
      saved := SavedVideo(full, filename, eventType);
      eventType := UnknownEvent;
    }

    /** The post-event check: once the 5 minutes are up the event video is
        saved and post-event recording stops. */
    method FinishPostEvent(postEventElapsed: bool, timestamp: string) returns (saved: Option<SavedVideo>)
      requires Valid()
      modifies this
      ensures Valid()
      ensures !(old(isRecordingPostEvent) && postEventElapsed) ==>
        saved == None && isRecordingPostEvent == old(isRecordingPostEvent) &&
        eventType == old(eventType) && postEventChunks == old(postEventChunks)
      ensures old(isRecordingPostEvent) && postEventElapsed ==>
        saved == Some(SavedVideo(FullEventVideo(old(preEventChunks), old(postEventChunks)),
                                 EventFileName(old(eventType), timestamp), old(eventType))) &&
        !isRecordingPostEvent && postEventChunks == [] && eventType == UnknownEvent
      ensures videoBuffer == old(videoBuffer) && currentChunk == old(currentChunk) && closed == old(closed)
      ensures eventQueue == old(eventQueue) && preEventChunks == old(preEventChunks)
    {
      saved := None;
      if isRecordingPostEvent && postEventElapsed {
        var video := SaveEventVideo(timestamp);
        saved := Some(video);
        isRecordingPostEvent := false;
        postEventChunks := [];
      }
    }

    /** One pass of the capture loop in `start`: the frame joins the open
        chunk, which is closed into the buffer when its duration is up; a
        queued event is dropped and the next one, if any, typed while the
        latest chunks become the pre-event footage; and once the post-event
        period is up the event video is saved. */
    method Step(frame: Frame, chunkElapsed: bool, postEventElapsed: bool, timestamp: string)
      returns (saved: Option<SavedVideo>)
      requires Valid()
      modifies this
      ensures Valid()
      ensures |videoBuffer| <= Retained(maxChunks)
      ensures var c := old(currentChunk) + [frame];
        videoBuffer == (if chunkElapsed then PushBounded(old(videoBuffer), c, maxChunks) else old(videoBuffer)) &&
        currentChunk == (if chunkElapsed then [] else c) &&
        closed == (if chunkElapsed then old(closed) + [c] else old(closed))
      ensures eventQueue == (if |old(eventQueue)| >= 2 then old(eventQueue)[2..] else [])
      ensures old(eventQueue) == [] ==> preEventChunks == old(preEventChunks)
      ensures old(eventQueue) != [] ==>
        preEventChunks == PreEventChunks(videoBuffer, FloorDiv(PreEventSeconds, chunkDuration))
      ensures var q := old(eventQueue);
        var recording := old(isRecordingPostEvent) || q != [];
        var post := if q == [] then old(postEventChunks) else [];
        var kind := if q == [] then old(eventType) else if |q| == 1 then UnknownEvent else EventTypeOf(q[1]);
        if recording && postEventElapsed then
          saved == Some(SavedVideo(FullEventVideo(preEventChunks, post), EventFileName(kind, timestamp), kind)) &&
          !isRecordingPostEvent && postEventChunks == [] && eventType == UnknownEvent
        else
          saved == None && isRecordingPostEvent == recording && postEventChunks == post && eventType == kind
    {
      AddFrame(frame);
      if chunkElapsed {
        CloseChunk();
      }
      PollEvents();
      saved := FinishPostEvent(postEventElapsed, timestamp);
    }
  }

  // ---------------------------------------------------------------------
  // Properties
  // ---------------------------------------------------------------------

  /** With a positive count the pre-event chunks are the last `count`
      chunks (all of them when there are fewer); with a count of 0, as when
      chunks last longer than 5 minutes, `buffer[-0:]` is the whole buffer. */
  lemma PreEventChunksAreLatest(buffer: seq<Chunk>, count: int)
    requires count >= 0
    ensures count > 0 ==> PreEventChunks(buffer, count) == LastN(buffer, count)
    ensures count == 0 ==> PreEventChunks(buffer, count) == buffer
  {
  }

  /** Both branches of the type rule read the text before the first `_`. */
  lemma EventTypeIsLowerPrefix(event: string)
    ensures EventTypeOf(event) == Lower(Before(event, '_'))
  {
    if '_' in event {
      var i := IndexOf(event, '_').value;
      assert Split(event, '_')[0] == event[..i];
    }
  }

  /** An event `PREFIX_rest` has the type `prefix`, lower-cased. */
  lemma EventTypeOfPrefixed(prefix: string, rest: string)
    requires '_' !in prefix
    ensures EventTypeOf(prefix + "_" + rest) == Lower(prefix)
  {
    var e := prefix + "_" + rest;
    EventTypeIsLowerPrefix(e);
    assert e[|prefix|] == '_' && e[..|prefix|] == prefix;
    assert IndexOf(e, '_') == Some(|prefix|);
  }

  /** So a queued "CAN_EVENT" gives the type "can". */
  lemma EventTypeExample(prefix: string, rest: string)
    requires prefix == "CAN" && rest == "EVENT"
    ensures prefix + "_" + rest == "CAN_EVENT"
    ensures EventTypeOf(prefix + "_" + rest) == "can"
  {
    EventTypeOfPrefixed(prefix, rest);
    LowerCan(prefix);
  }

  lemma LowerCan(prefix: string)
    requires prefix == "CAN"
    ensures Lower(prefix) == "can"
  {
    var r := Lower(prefix);
    assert r[0] == 'c' && r[1] == 'a' && r[2] == 'n';
  }

  /** The event file name starts with `event_`, then the type, and ends with
      the timestamp and `.avi`; a type without `_` can be read back as the
      text between the first two underscores. */
  lemma EventFileNameParts(eventType: string, timestamp: string)
    requires '_' !in eventType
    ensures var name := EventFileName(eventType, timestamp);
      name[..6] == "event_" && Before(name[6..], '_') == eventType &&
      name[|name| - |timestamp| - 4..] == timestamp + ".avi"
  {
    var tail := timestamp + ".avi";
    var rest := eventType + ("_" + tail);
    var name := "event_" + rest;
    assert name[..6] == "event_" && name[6..] == rest;
    assert rest[|eventType|] == '_' && rest[..|eventType|] == eventType;
    assert IndexOf(rest, '_') == Some(|eventType|);
    assert name[|name| - |tail|..] == tail;
  }
}
