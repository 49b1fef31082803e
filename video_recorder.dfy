/** `VideoRecorder` (src/VideoRecorder.cpp): a rolling buffer of segment
    file names, and one post-trigger session that copies the next segments
    under a `posttrigger_` name.  One pass of the endless `run` loop is
    `Cycle`: the encoder's exit status and the outcome of the copy are its
    inputs, and the CAN timestamp it would read is a parameter. */
module VideoRecorder {
  import opened Common

  /** The post-trigger session fields: `postTriggerActive_`,
      `postTriggerSegmentsLeft_`, `eventType_` and `postTriggerFile_`. */
  datatype Session = Session(active: bool, left: int, eventType: string, postFile: string)

  function VideoFileName(bufferDir: string, timestamp: string): string
  {
    bufferDir + "/video_" + timestamp + ".mp4"
  }

  function PostFileName(bufferDir: string, timestamp: string, eventType: string): string
  {
    bufferDir + "/posttrigger_" + timestamp + "_" + eventType + ".mp4"
  }

  /** `bufferMinutes * 60 / segmentSeconds`, with C++'s truncating division. */
  function Capacity(bufferMinutes: int, segmentSeconds: int): int
    requires segmentSeconds != 0
  {
    TruncDiv(bufferMinutes * 60, segmentSeconds)
  }

  /** The post-trigger step of a cycle whose encoder succeeded. */
  function AfterSegment(s: Session, bufferDir: string, timestamp: string, copyOk: bool): (r: Session)
    ensures r.eventType == s.eventType
    ensures !(s.active && s.left > 0 && copyOk) ==> r == s
    ensures s.active && s.left > 0 && copyOk ==>
      r.left == s.left - 1 && r.active == (r.left != 0) &&
      r.postFile == PostFileName(bufferDir, timestamp, s.eventType)
  {
    if s.active && s.left > 0 && copyOk then
      var left := s.left - 1;
      Session(left != 0, left, s.eventType, PostFileName(bufferDir, timestamp, s.eventType))
    else s
  }

  /** `startPostTriggerRecording`'s effect on the session. */
  function Arm(s: Session, count: int, eventType: string): (r: Session)
    ensures r.active && r.left == count && r.eventType == eventType && r.postFile == s.postFile
  {
    Session(true, count, eventType, s.postFile)
  }

  class Recorder {
    const bufferDir: string
    const segmentSeconds: int
    const bufferMinutes: int
    var bufferFiles: seq<string>
    var postTriggerActive: bool
    var postTriggerSegmentsLeft: int
    var eventType: string
    var postTriggerFile: string
    /** Every segment name pushed so far, oldest first. */
    ghost var appended: seq<string>

    ghost predicate Valid()
      reads this
    {
      segmentSeconds != 0 &&
      bufferFiles == LastN(appended, Retained(Capacity(bufferMinutes, segmentSeconds)))
    }

    function CurrentSession(): Session
      reads this
    {
      Session(postTriggerActive, postTriggerSegmentsLeft, eventType, postTriggerFile)
    }

    constructor(bufferDir: string, segmentSeconds: int, bufferMinutes: int)
      requires segmentSeconds != 0
      ensures Valid()
      ensures this.bufferDir == bufferDir && this.segmentSeconds == segmentSeconds
      ensures this.bufferMinutes == bufferMinutes
      ensures bufferFiles == [] && appended == []
      ensures CurrentSession() == Session(false, 0, "", "")
    {
      this.bufferDir := bufferDir;
      this.segmentSeconds := segmentSeconds;
      this.bufferMinutes := bufferMinutes;
      bufferFiles := [];
      postTriggerActive := false;
      postTriggerSegmentsLeft := 0;
      eventType := "";
      postTriggerFile := "";
      appended := [];
    }

    /** One pass of `run`. */
    method Cycle(timestamp: string, encoderOk: bool, copyOk: bool)
      requires Valid()
      modifies this
      ensures Valid()
      ensures !encoderOk ==>
        bufferFiles == old(bufferFiles) && appended == old(appended) &&
        CurrentSession() == old(CurrentSession())
      ensures encoderOk ==>
        appended == old(appended) + [VideoFileName(bufferDir, timestamp)] &&
        bufferFiles == PushBounded(old(bufferFiles), VideoFileName(bufferDir, timestamp), Capacity(bufferMinutes, segmentSeconds)) &&
        CurrentSession() == AfterSegment(old(CurrentSession()), bufferDir, timestamp, copyOk)
    {
      var videoFile := bufferDir + "/video_" + timestamp + ".mp4";
      if !encoderOk {
        return;
      }
      bufferFiles := bufferFiles + [videoFile];
      appended := appended + [videoFile];
      if |bufferFiles| > TruncDiv(bufferMinutes * 60, segmentSeconds) {
        bufferFiles := bufferFiles[1..];
      }
      PushKeepsLastN(old(appended), videoFile, Capacity(bufferMinutes, segmentSeconds));
      if postTriggerActive && postTriggerSegmentsLeft > 0 {
        var postFile := bufferDir + "/posttrigger_" + timestamp + "_" + eventType + ".mp4";
        if copyOk {
          postTriggerFile := postFile;
          postTriggerSegmentsLeft := postTriggerSegmentsLeft - 1;
          if postTriggerSegmentsLeft == 0 {
            postTriggerActive := false;
          }
        }
      }
    }

    /** The names of the last `minutesBack` minutes of segments, oldest first. */
    method GetBufferedSegments(minutesBack: int) returns (segments: seq<string>)
      requires segmentSeconds != 0
      requires TruncDiv(minutesBack * 60, segmentSeconds) >= 0
      ensures segments == LastN(bufferFiles, TruncDiv(minutesBack * 60, segmentSeconds))
    {
      var numSegments := TruncDiv(minutesBack * 60, segmentSeconds);
      if numSegments > |bufferFiles| {
        numSegments := |bufferFiles|;
      }
      segments := bufferFiles[|bufferFiles| - numSegments..];
    }

    /** Arms the session and hands back the last post-trigger file copied so
        far (possibly none yet), without waiting for the new session. */
    method StartPostTriggerRecording(minutesForward: int, eventType: string) returns (postFileOut: string)
      requires Valid()
      modifies this
      ensures Valid()
      ensures CurrentSession() == Arm(old(CurrentSession()), TruncDiv(minutesForward * 60, segmentSeconds), eventType)
      ensures postFileOut == old(postTriggerFile)
      ensures bufferFiles == old(bufferFiles) && appended == old(appended)
    {
      postTriggerActive := true;
      postTriggerSegmentsLeft := TruncDiv(minutesForward * 60, segmentSeconds);
      this.eventType := eventType;
      postFileOut := postTriggerFile;
    }
  }

  // ---------------------------------------------------------------------
  // Properties of the buffer
  // ---------------------------------------------------------------------

  /** What `getBufferedSegments` returns from a valid buffer: the last
      `min(k, capacity)` recorded names. */
  lemma BufferedSegmentsAreLatest(history: seq<string>, capacity: nat, k: nat)
    ensures LastN(LastN(history, capacity), k) == LastN(history, if k < capacity then k else capacity)
  {
  }

  // ---------------------------------------------------------------------
  // Properties of the post-trigger session
  // ---------------------------------------------------------------------

  /** The session after cycles whose encoder succeeded, one per timestamp
      with the given copy outcome. */
  function AfterSegments(s: Session, bufferDir: string, steps: seq<(string, bool)>): Session
    decreases |steps|
  {
    if steps == [] then s
    else AfterSegments(AfterSegment(s, bufferDir, steps[0].0, steps[0].1), bufferDir, steps[1..])
  }

  /** A second start replaces the first session's count and event type. */
  lemma SecondStartWins(s: Session, c1: int, e1: string, c2: int, e2: string)
    ensures Arm(Arm(s, c1, e1), c2, e2) == Arm(s, c2, e2)
  {
  }

  /** A session armed with a count of 0 (or less) stays active and never
      copies, whatever the cycles bring. */
  lemma {:induction false} ZeroCountNeverCopies(s: Session, bufferDir: string, steps: seq<(string, bool)>)
    requires s.active && s.left <= 0
    ensures AfterSegments(s, bufferDir, steps) == s
  {
    if steps != [] {
      ZeroCountNeverCopies(s, bufferDir, steps[1..]);
    }
  }

  /** A session armed with `n > 0` segments and fed `n` successful copies
      ends inactive, with the last copy's name as the post-trigger file. */
  lemma {:induction false} SessionCompletes(s: Session, bufferDir: string, timestamps: seq<string>)
    requires s.active && s.left == |timestamps| > 0
    decreases |timestamps|
    ensures var r := AfterSegments(s, bufferDir, seq(|timestamps|, k requires 0 <= k < |timestamps| => (timestamps[k], true)));
      !r.active && r.left == 0 && r.eventType == s.eventType &&
      r.postFile == PostFileName(bufferDir, timestamps[|timestamps| - 1], s.eventType)
  {
    var steps := seq(|timestamps|, k requires 0 <= k < |timestamps| => (timestamps[k], true));
    var next := AfterSegment(s, bufferDir, timestamps[0], true);
    if |timestamps| > 1 {
      var rest := timestamps[1..];
      assert steps[1..] == seq(|rest|, k requires 0 <= k < |rest| => (rest[k], true));
      SessionCompletes(next, bufferDir, rest);
    } else {
      assert steps[1..] == [];
    }
  }

  /** A failed copy leaves the session as it was. */
  lemma FailedCopyKeepsSession(s: Session, bufferDir: string, timestamp: string)
    ensures AfterSegment(s, bufferDir, timestamp, false) == s
  {
  }
}
