/** `StorageManager::saveEventVideo` of the first C++ prototype
    (StorageManager.cpp): an event directory named after the time and the
    event, a status and an error type read off the event name, and every
    chunk copied there under a new name.  The `strftime` text
    (`%Y-%m-%d_%H:%M:%S` of the local time) is an input, and so are
    whether the event directory can be created, which chunk files exist
    and which copies throw. */
module StorageManager {
  import opened Common

  function EventDir(storagePath: string, datetime: string, eventName: string): string
  {
    storagePath + "/" + datetime + "_" + eventName
  }

  /** `ifFound` when `name` contains `marker`, `otherwise` when it does
      not: the shape of both classifications of an event name. */
  function Classify(name: string, marker: string, ifFound: string, otherwise: string): (r: string)
    requires ifFound != otherwise
    ensures r == ifFound <==> Contains(name, marker)
    ensures r == otherwise <==> !Contains(name, marker)
  {
    if Find(name, marker).Some? then ifFound else otherwise
  }

  /** "post-error" when the event name contains `_post`, else "pre-error". */
  function Status(eventName: string): (r: string)
    ensures r == "post-error" <==> Contains(eventName, "_post")
    ensures r == "pre-error" <==> !Contains(eventName, "_post")
  {
    Classify(eventName, "_post", "post-error", "pre-error")
  }

  /** "manual_trigger" when the event name contains `manual_trigger`, and
      "can_warning" for every other name. */
  function ErrorType(eventName: string): (r: string)
    ensures r == "manual_trigger" <==> Contains(eventName, "manual_trigger")
    ensures r == "can_warning" <==> !Contains(eventName, "manual_trigger")
  {
    Classify(eventName, "manual_trigger", "manual_trigger", "can_warning")
  }

  function ChunkName(datetime: string, errorType: string, status: string, i: nat): string
  {
    datetime + "_" + errorType + "_" + status + "_" + NatToString(i) + ".mp4"
  }

  /** What happens to one chunk. */
  datatype ChunkOutcome = Copied(source: string, dest: string) | NotFound(source: string) | CopyError(source: string)

  /** The outcome for chunk `i`. */
  function OutcomeOf(eventDir: string, datetime: string, errorType: string, status: string,
                     chunk: string, i: nat, existing: set<string>, failingCopies: set<nat>): ChunkOutcome
  {
    if chunk !in existing then NotFound(chunk)
    else if i in failingCopies then CopyError(chunk)
    else Copied(chunk, eventDir + "/" + ChunkName(datetime, errorType, status, i))
  }

  /** One outcome per chunk, in order: a missing file or a failed copy is
      logged and the loop goes on. */
  function Outcomes(eventDir: string, datetime: string, errorType: string, status: string,
                    chunks: seq<string>, existing: set<string>, failingCopies: set<nat>): (r: seq<ChunkOutcome>)
    ensures |r| == |chunks|
    ensures forall i :: 0 <= i < |chunks| ==>
      r[i] == OutcomeOf(eventDir, datetime, errorType, status, chunks[i], i, existing, failingCopies)
  {
    seq(|chunks|, i requires 0 <= i < |chunks| =>
      OutcomeOf(eventDir, datetime, errorType, status, chunks[i], i, existing, failingCopies))
  }

  datatype SaveReport = SaveReport(eventDir: string, outcomes: seq<ChunkOutcome>)

  /** `create_directory` of the event directory throws, outside the
      per-chunk `try`, so the exception leaves `saveEventVideo`. */
  datatype SaveFailure = EventDirNotCreated(eventDir: string)

  /** `saveEventVideo`; `eventDirCreated` says whether `create_directory`
      succeeds (an existing directory counts as success). */
  method SaveEventVideo(storagePath: string, datetime: string, chunks: seq<string>, eventName: string,
                        eventDirCreated: bool, existing: set<string>, failingCopies: set<nat>)
    returns (r: Result<SaveReport, SaveFailure>)
    ensures !eventDirCreated ==> r == Err(EventDirNotCreated(EventDir(storagePath, datetime, eventName)))
    ensures eventDirCreated ==>
      r.Ok? && r.value.eventDir == EventDir(storagePath, datetime, eventName) &&
      r.value.outcomes == Outcomes(r.value.eventDir, datetime, ErrorType(eventName), Status(eventName),
                                   chunks, existing, failingCopies)
  {
    var eventDir := storagePath + "/" + datetime + "_" + eventName;
    if !eventDirCreated {
      return Err(EventDirNotCreated(eventDir));
    }
    var status := Status(eventName);
    var errorType := ErrorType(eventName);
    var outcomes: seq<ChunkOutcome> := [];
    var i := 0;
    while i < |chunks|
      invariant 0 <= i <= |chunks| && |outcomes| == i
      invariant forall k :: 0 <= k < i ==>
        outcomes[k] == OutcomeOf(eventDir, datetime, errorType, status, chunks[k], k, existing, failingCopies)
    {
      var newName := datetime + "_" + errorType + "_" + status + "_" + NatToString(i) + ".mp4";
      if chunks[i] in existing {
        if i in failingCopies {
          outcomes := outcomes + [CopyError(chunks[i])];
        } else {
          outcomes := outcomes + [Copied(chunks[i], eventDir + "/" + newName)];
        }
      } else {
        outcomes := outcomes + [NotFound(chunks[i])];
      }
      i := i + 1;
    }
    r := Ok(SaveReport(eventDir, outcomes));
  }

  // ---------------------------------------------------------------------
  // Properties
  // ---------------------------------------------------------------------

  /** Examples: a name holding `_post` is a post-trigger event whatever
      else it says, and any name without `manual_trigger`, however it is
      formed, counts as a CAN warning. */
  lemma ClassificationExamples()
    ensures Status("manual_trigger_post") == "post-error"
    ensures ErrorType("manual_trigger_post") == "manual_trigger"
    ensures Status("overspeed") == "pre-error"
    ensures ErrorType("overspeed") == "can_warning"
  {
    var m := "manual_trigger_post";
    assert OccursAt(m, "_post", 14);
    assert OccursAt(m, "manual_trigger", 0);
    var o := "overspeed";
    assert !Contains(o, "_post") by {
      forall i ensures !OccursAt(o, "_post", i) {
        if 0 <= i <= |o| - 5 {
          assert o[i..i + 5][0] == o[i] != '_';
        }
      }
    }
    assert !Contains(o, "manual_trigger") by {
      forall i ensures !OccursAt(o, "manual_trigger", i) {
      }
    }
  }

  /** Distinct chunks go to distinct files. */
  lemma ChunkNamesDistinct(datetime: string, errorType: string, status: string, i: nat, j: nat)
    requires ChunkName(datetime, errorType, status, i) == ChunkName(datetime, errorType, status, j)
    ensures i == j
  {
    var prefix := datetime + "_" + errorType + "_" + status + "_";
    var a, b := NatToString(i), NatToString(j);
    var na, nb := ChunkName(datetime, errorType, status, i), ChunkName(datetime, errorType, status, j);
    assert na == prefix + a + ".mp4" && nb == prefix + b + ".mp4";
    assert |a| == |b|;
    assert a == na[|prefix|..|prefix| + |a|];
    assert b == nb[|prefix|..|prefix| + |b|];
    NatToStringInjective(i, j);
  }

  /** Every chunk whose file exists and whose copy succeeds is copied, even
      after a missing file or a failed copy earlier on. */
  lemma EveryGoodChunkCopied(eventDir: string, datetime: string, errorType: string, status: string,
                             chunks: seq<string>, existing: set<string>, failingCopies: set<nat>, i: nat)
    requires i < |chunks| && chunks[i] in existing && i !in failingCopies
    ensures Outcomes(eventDir, datetime, errorType, status, chunks, existing, failingCopies)[i]
         == Copied(chunks[i], eventDir + "/" + ChunkName(datetime, errorType, status, i))
  {
  }
}
