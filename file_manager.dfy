/** `FileManager` (src/FileManager.cpp): argument checks, the names event
    segments are copied under, and the clean-up of old buffer files, both
    as written (one error code shared by the whole loop, so that a failed
    removal silences every later entry) and as evidently intended (each
    entry handled on its own).  The file system is left out: whether a directory can be used,
    which copies and overlay commands fail, and the directory listing are
    inputs. */
module FileManager {
  import opened Common

  /** The exception classes the source throws. */
  datatype ErrorKind = InvalidArgument | FilesystemError | RuntimeError

  datatype Failure =
    | EmptyBufferDir
    | EmptyEventDir
    | BufferDirUnusable
    | EventDirUnusable
    | EmptySegments
    | EmptyWarningType
    | EmptyTimestamp
    | EmptyOverlayFile
    | EmptySuffix
    | EventDirNotCreated
    | CopyFailed(segment: string, dest: string)
    | NonPositiveMaxMinutes
    | BufferDirUnreadable

  function KindOf(f: Failure): ErrorKind
  {
    match f
    case EmptyBufferDir | EmptyEventDir | EmptySegments | EmptyWarningType
       | EmptyTimestamp | EmptyOverlayFile | EmptySuffix | NonPositiveMaxMinutes => InvalidArgument
    case BufferDirUnusable | EventDirUnusable | BufferDirUnreadable => FilesystemError
    case EventDirNotCreated | CopyFailed(_, _) => RuntimeError
  }

  /** The two directories a file manager is built with; they never change. */
  datatype Manager = Manager(bufferDir: string, eventDir: string)

  /** The constructor.  `bufferDirUsable` and `eventDirUsable` say whether
      each directory exists or could be created. */
  function NewManager(bufferDir: string, eventDir: string, bufferDirUsable: bool, eventDirUsable: bool): (r: Result<Manager, Failure>)
    ensures r.Ok? <==> bufferDir != [] && eventDir != [] && bufferDirUsable && eventDirUsable
    ensures r.Ok? ==> r.value == Manager(bufferDir, eventDir)
    ensures bufferDir == [] ==> r == Err(EmptyBufferDir)
    ensures bufferDir != [] && eventDir == [] ==> r == Err(EmptyEventDir)
  {
    if bufferDir == [] then Err(EmptyBufferDir)
    else if eventDir == [] then Err(EmptyEventDir)
    else if !bufferDirUsable then Err(BufferDirUnusable)
    else if !eventDirUsable then Err(EventDirUnusable)
    else Ok(Manager(bufferDir, eventDir))
  }

  // ---------------------------------------------------------------------
  // copyEventSegments
  // ---------------------------------------------------------------------

  /** The argument checks of `copyEventSegments`, in the order the source
      makes them. */
  function CheckCopyArguments(segments: seq<string>, warningType: string, timestamp: string,
                              overlayFile: string, suffix: string): (r: Option<Failure>)
    ensures r.None? <==> segments != [] && warningType != [] && timestamp != [] && overlayFile != [] && suffix != []
    ensures r.Some? ==> KindOf(r.value) == InvalidArgument
    ensures segments == [] ==> r == Some(EmptySegments)
    ensures segments != [] && warningType == [] ==> r == Some(EmptyWarningType)
    ensures segments != [] && warningType != [] && timestamp == [] ==> r == Some(EmptyTimestamp)
    ensures segments != [] && warningType != [] && timestamp != [] && overlayFile == [] ==> r == Some(EmptyOverlayFile)
    ensures segments != [] && warningType != [] && timestamp != [] && overlayFile != [] && suffix == [] ==> r == Some(EmptySuffix)
  {
    if segments == [] then Some(EmptySegments)
    else if warningType == [] then Some(EmptyWarningType)
    else if timestamp == [] then Some(EmptyTimestamp)
    else if overlayFile == [] then Some(EmptyOverlayFile)
    else if suffix == [] then Some(EmptySuffix)
    else None
  }

  /** Where segment `i` is copied. */
  function DestName(eventDir: string, timestamp: string, warningType: string, suffix: string, i: nat): string
  {
    eventDir + "/" + timestamp + "_" + warningType + "_" + suffix + "_" + NatToString(i) + ".mp4"
  }

  /** What a call did: the copies made (source, destination), the
      destinations whose overlay command failed, and the exception that
      ended it, if any. */
  datatype CopyReport = CopyReport(copied: seq<(string, string)>, overlayWarnings: seq<string>, failure: Option<Failure>)

  /** The index of the first segment whose copy fails, or `n` when none of
      the first `n` does. */
  function FirstFailure(failingCopies: set<nat>, n: nat): (k: nat)
    ensures k <= n
    ensures forall j :: 0 <= j < k ==> j !in failingCopies
    ensures k < n ==> k in failingCopies
  {
    if n == 0 then 0
    else
      var k := FirstFailure(failingCopies, n - 1);
      if k < n - 1 then k else if n - 1 in failingCopies then n - 1 else n
  }

  /** The copies of segments `0 .. k-1`. */
  function Copies(m: Manager, segments: seq<string>, timestamp: string, warningType: string, suffix: string, k: nat): (r: seq<(string, string)>)
    requires k <= |segments|
    ensures |r| == k
    ensures forall j :: 0 <= j < k ==> r[j] == (segments[j], DestName(m.eventDir, timestamp, warningType, suffix, j))
  {
    seq(k, j requires 0 <= j < k => (segments[j], DestName(m.eventDir, timestamp, warningType, suffix, j)))
  }

  /** The destinations among segments `0 .. k-1` whose overlay failed. */
  function OverlayWarnings(m: Manager, timestamp: string, warningType: string, suffix: string,
                           failingOverlays: set<nat>, k: nat): seq<string>
  {
    if k == 0 then []
    else
      var init := OverlayWarnings(m, timestamp, warningType, suffix, failingOverlays, k - 1);
      if k - 1 in failingOverlays then init + [DestName(m.eventDir, timestamp, warningType, suffix, k - 1)]
      else init
  }

  /** What `copyEventSegments` does, as a whole. */
  function CopyOutcome(m: Manager, segments: seq<string>, warningType: string, timestamp: string,
                       overlayFile: string, suffix: string, eventDirOk: bool,
                       failingCopies: set<nat>, failingOverlays: set<nat>): CopyReport
  {
    var bad := CheckCopyArguments(segments, warningType, timestamp, overlayFile, suffix);
    if bad.Some? then CopyReport([], [], bad)
    else if !eventDirOk then CopyReport([], [], Some(EventDirNotCreated))
    else
      var k := FirstFailure(failingCopies, |segments|);
      var failure := if k < |segments| then Some(CopyFailed(segments[k], DestName(m.eventDir, timestamp, warningType, suffix, k))) else None;
      CopyReport(Copies(m, segments, timestamp, warningType, suffix, k),
                 OverlayWarnings(m, timestamp, warningType, suffix, failingOverlays, k), failure)
  }

  /** `copyEventSegments`.  `eventDirOk` says whether the event directory
      exists or was created; the copies of the segments with an index in
      `failingCopies` fail, and so do the overlay commands for the indices
      in `failingOverlays`. */
  method CopyEventSegments(m: Manager, segments: seq<string>, warningType: string, timestamp: string,
                           overlayFile: string, suffix: string, eventDirOk: bool,
                           failingCopies: set<nat>, failingOverlays: set<nat>) returns (report: CopyReport)
    ensures report == CopyOutcome(m, segments, warningType, timestamp, overlayFile, suffix, eventDirOk, failingCopies, failingOverlays)
  {
    var bad := CheckCopyArguments(segments, warningType, timestamp, overlayFile, suffix);
    if bad.Some? {
      return CopyReport([], [], bad);
    }
    if !eventDirOk {
      return CopyReport([], [], Some(EventDirNotCreated));
    }
    var copied: seq<(string, string)> := [];
    var warnings: seq<string> := [];
    var i := 0;
    while i < |segments|
      invariant 0 <= i <= |segments|
      invariant FirstFailure(failingCopies, i) == i
      invariant copied == Copies(m, segments, timestamp, warningType, suffix, i)
      invariant warnings == OverlayWarnings(m, timestamp, warningType, suffix, failingOverlays, i)
    {
      var dest := m.eventDir + "/" + timestamp + "_" + warningType + "_" + suffix + "_" + NatToString(i) + ".mp4";
      if i in failingCopies {
        FirstFailureStops(failingCopies, i, |segments|);
        return CopyReport(copied, warnings, Some(CopyFailed(segments[i], dest)));
      }
      copied := copied + [(segments[i], dest)];
      if i in failingOverlays {
        warnings := warnings + [dest];
      }
      i := i + 1;
    }
    return CopyReport(copied, warnings, None);
  }

  lemma {:induction false} FirstFailureStops(failingCopies: set<nat>, k: nat, n: nat)
    requires k < n && k in failingCopies && FirstFailure(failingCopies, k) == k
    ensures FirstFailure(failingCopies, n) == k
  {
    if n > k + 1 {
      FirstFailureStops(failingCopies, k, n - 1);
    }
  }

  /** Distinct segment indices are copied to distinct files. */
  lemma DestNamesDistinct(eventDir: string, timestamp: string, warningType: string, suffix: string, i: nat, j: nat)
    requires DestName(eventDir, timestamp, warningType, suffix, i) == DestName(eventDir, timestamp, warningType, suffix, j)
    ensures i == j
  {
    var prefix := eventDir + "/" + timestamp + "_" + warningType + "_" + suffix + "_";
    var a, b := NatToString(i), NatToString(j);
    var da, db := DestName(eventDir, timestamp, warningType, suffix, i), DestName(eventDir, timestamp, warningType, suffix, j);
    assert da == prefix + a + ".mp4" && db == prefix + b + ".mp4";
    assert |a| == |b|;
    assert a == da[|prefix|..|prefix| + |a|];
    assert b == db[|prefix|..|prefix| + |b|];
    NatToStringInjective(i, j);
  }

  /** A copy failure ends the call: no later segment is copied and its
      overlay is not attempted, while a failing overlay only adds a warning. */
  lemma CopyFailureStops(m: Manager, segments: seq<string>, warningType: string, timestamp: string,
                         overlayFile: string, suffix: string, failingCopies: set<nat>, failingOverlays: set<nat>, k: nat)
    requires CheckCopyArguments(segments, warningType, timestamp, overlayFile, suffix).None?
    requires k < |segments| && k in failingCopies
    ensures var r := CopyOutcome(m, segments, warningType, timestamp, overlayFile, suffix, true, failingCopies, failingOverlays);
      r.failure.Some? && |r.copied| <= k &&
      forall j :: 0 <= j < |r.copied| ==> r.copied[j].1 == DestName(m.eventDir, timestamp, warningType, suffix, j)
  {
  }

  /** With no failing copy every segment is copied, in order, whatever the
      overlay commands do. */
  lemma AllCopied(m: Manager, segments: seq<string>, warningType: string, timestamp: string,
                  overlayFile: string, suffix: string, failingOverlays: set<nat>)
    requires CheckCopyArguments(segments, warningType, timestamp, overlayFile, suffix).None?
    ensures var r := CopyOutcome(m, segments, warningType, timestamp, overlayFile, suffix, true, {}, failingOverlays);
      r.failure == None && |r.copied| == |segments| &&
      forall j :: 0 <= j < |segments| ==> r.copied[j].0 == segments[j]
  {
  }

  // ---------------------------------------------------------------------
  // cleanOldSegments
  // ---------------------------------------------------------------------

  /** One entry of the buffer directory as the loop meets it: whether it is
      a regular file, `ageKnown` unless reading its write time throws, its
      age in whole minutes, and whether removing it would succeed. */
  datatype Entry = Entry(path: string, isRegular: bool, ageKnown: bool, ageMinutes: int, removeOk: bool)

  /** The buffer directory as `exists` sees it: absent, impossible to check
      (`exists` sets the error code), or present.  A directory that exists
      but cannot be opened for iteration gives `Present([])`: the iterator
      constructor only sets the error code, and the loop has nothing to do. */
  datatype Listing = Missing | Unreadable | Present(entries: seq<Entry>)

  /** The warnings the loop logs: the "Error iterating directory" one, a
      failed removal, and a file whose write time cannot be read. */
  datatype Warning = IterationWarning | RemoveWarning(path: string) | ProcessWarning(path: string)

  /** What a clean-up did: the files removed and the warnings logged. */
  datatype CleanReport = CleanReport(removed: seq<string>, warnings: seq<Warning>)

  /** The loop's state: the report so far and whether the shared
      `std::error_code` is set. */
  datatype CleanState = CleanState(removed: seq<string>, warnings: seq<Warning>, errorSet: bool)

  /** The deletion rule: a regular file older than `maxMinutes` whole minutes. */
  predicate TooOld(e: Entry, maxMinutes: int)
  {
    e.isRegular && e.ageKnown && e.ageMinutes > maxMinutes
  }

  /** A removal the loop attempts and that fails. */
  predicate RemoveFails(e: Entry, maxMinutes: int)
  {
    TooOld(e, maxMinutes) && !e.removeOk
  }

  /** One pass of the loop body as written.  The error code is tested
      first, and only a removal writes it: a failed removal sets it, and
      nothing on the `continue` path clears it again. */
  function EntryStep(st: CleanState, e: Entry, maxMinutes: int): (r: CleanState)
    ensures st.errorSet ==> r == st.(warnings := st.warnings + [IterationWarning])
    ensures |st.removed| <= |r.removed| <= |st.removed| + 1 && r.removed[..|st.removed|] == st.removed
  {
    if st.errorSet then st.(warnings := st.warnings + [IterationWarning])
    else if !e.isRegular then st
    else if !e.ageKnown then st.(warnings := st.warnings + [ProcessWarning(e.path)])
    else if e.ageMinutes > maxMinutes then
      if e.removeOk then st.(removed := st.removed + [e.path])
      else CleanState(st.removed, st.warnings + [RemoveWarning(e.path)], true)
    else st
  }

  /** The loop over `entries` as written, from a clear error code. */
  function CleanAsWritten(entries: seq<Entry>, maxMinutes: int): CleanState
  {
    if entries == [] then CleanState([], [], false)
    else EntryStep(CleanAsWritten(entries[..|entries| - 1], maxMinutes), entries[|entries| - 1], maxMinutes)
  }

  /** `cleanOldSegments`: `ec` is the shared error code. */
  method CleanOldSegments(m: Manager, maxMinutes: int, listing: Listing) returns (r: Result<CleanReport, Failure>)
    ensures maxMinutes <= 0 ==> r == Err(NonPositiveMaxMinutes)
    ensures maxMinutes > 0 && listing == Unreadable ==> r == Err(BufferDirUnreadable)
    ensures maxMinutes > 0 && listing == Missing ==> r == Ok(CleanReport([], []))
    ensures maxMinutes > 0 && listing.Present? ==>
      var st := CleanAsWritten(listing.entries, maxMinutes);
      r == Ok(CleanReport(st.removed, st.warnings))
  {
    if maxMinutes <= 0 {
      return Err(NonPositiveMaxMinutes);
    }
    if !listing.Present? {
      if listing == Unreadable {
        return Err(BufferDirUnreadable);
      }
      return Ok(CleanReport([], []));
    }
    var entries := listing.entries;
    var removed: seq<string> := [];
    var warnings: seq<Warning> := [];
    var ec := false;
    var i := 0;
    while i < |entries|
      invariant 0 <= i <= |entries|
      invariant CleanState(removed, warnings, ec) == CleanAsWritten(entries[..i], maxMinutes)
    {
      var e := entries[i];
      assert entries[..i + 1][..i] == entries[..i];
      if ec {
        warnings := warnings + [IterationWarning];
      } else if !e.isRegular {
      } else if !e.ageKnown {
        warnings := warnings + [ProcessWarning(e.path)];
      } else if e.ageMinutes > maxMinutes {
        if e.removeOk {
          removed := removed + [e.path];
        } else {
          ec := true;
          warnings := warnings + [RemoveWarning(e.path)];
        }
      }
      i := i + 1;
    }
    assert entries[..i] == entries;
    return Ok(CleanReport(removed, warnings));
  }

  // ---------------------------------------------------------------------
  // The clean-up as evidently intended: every entry handled on its own
  // ---------------------------------------------------------------------

  /** The warning an entry gets when it is handled on its own. */
  function EntryWarnings(e: Entry, maxMinutes: int): seq<Warning>
  {
    if !e.isRegular then []
    else if !e.ageKnown then [ProcessWarning(e.path)]
    else if RemoveFails(e, maxMinutes) then [RemoveWarning(e.path)]
    else []
  }

  /** The entries removed when each is handled on its own, in listing order. */
  function RemovedEntries(entries: seq<Entry>, maxMinutes: int): seq<Entry>
  {
    if entries == [] then []
    else
      var init := RemovedEntries(entries[..|entries| - 1], maxMinutes);
      var e := entries[|entries| - 1];
      if TooOld(e, maxMinutes) && e.removeOk then init + [e] else init
  }

  function Paths(entries: seq<Entry>): (r: seq<string>)
    ensures |r| == |entries| && forall k :: 0 <= k < |r| ==> r[k] == entries[k].path
  {
    seq(|entries|, k requires 0 <= k < |entries| => entries[k].path)
  }

  function IntendedWarnings(entries: seq<Entry>, maxMinutes: int): seq<Warning>
  {
    if entries == [] then []
    else IntendedWarnings(entries[..|entries| - 1], maxMinutes) + EntryWarnings(entries[|entries| - 1], maxMinutes)
  }

  /** The clean-up with the error code cleared for every entry. */
  function IntendedClean(entries: seq<Entry>, maxMinutes: int): CleanReport
  {
    CleanReport(Paths(RemovedEntries(entries, maxMinutes)), IntendedWarnings(entries, maxMinutes))
  }

  /** Intended: exactly the regular files older than the limit whose
      removal succeeds are removed, and a failure at one entry does not
      stop the others. */
  lemma {:induction false} RemovedIffTooOld(entries: seq<Entry>, maxMinutes: int)
    ensures forall e :: e in RemovedEntries(entries, maxMinutes) <==> e in entries && TooOld(e, maxMinutes) && e.removeOk
  {
    if entries != [] {
      var init := entries[..|entries| - 1];
      RemovedIffTooOld(init, maxMinutes);
      assert entries == init + [entries[|entries| - 1]];
    }
  }

  // ---------------------------------------------------------------------
  // How the loop as written differs
  // ---------------------------------------------------------------------

  /** Until a removal fails the loop as written is the intended clean-up,
      and its error code stays clear. */
  lemma {:induction false} AgreesWithoutRemoveFailure(entries: seq<Entry>, maxMinutes: int)
    requires forall k :: 0 <= k < |entries| ==> !RemoveFails(entries[k], maxMinutes)
    ensures var st := CleanAsWritten(entries, maxMinutes);
      !st.errorSet && CleanReport(st.removed, st.warnings) == IntendedClean(entries, maxMinutes)
  {
    if entries != [] {
      var init := entries[..|entries| - 1];
      AgreesWithoutRemoveFailure(init, maxMinutes);
      var e := entries[|entries| - 1];
      if TooOld(e, maxMinutes) && e.removeOk {
        assert Paths(RemovedEntries(entries, maxMinutes)) == Paths(RemovedEntries(init, maxMinutes)) + [e.path];
      }
    }
  }

  /** Once the removal of entry `k` fails, every later entry only logs the
      "Error iterating directory" warning: nothing after `k` is removed. */
  lemma {:induction false} StickyAfterFailedRemoval(entries: seq<Entry>, maxMinutes: int, k: nat)
    requires k < |entries| && RemoveFails(entries[k], maxMinutes)
    requires forall j :: 0 <= j < k ==> !RemoveFails(entries[j], maxMinutes)
    ensures var st := CleanAsWritten(entries, maxMinutes);
      st.errorSet &&
      st.removed == Paths(RemovedEntries(entries[..k], maxMinutes)) &&
      st.warnings == IntendedWarnings(entries[..k + 1], maxMinutes) + seq(|entries| - k - 1, _ => IterationWarning)
    decreases |entries|
  {
    var n := |entries|;
    if n == k + 1 {
      var init := entries[..k];
      assert entries[..k + 1] == entries;
      AgreesWithoutRemoveFailure(init, maxMinutes);
      assert seq(0, _ => IterationWarning) == [];
    } else {
      var init := entries[..n - 1];
      assert init[..k] == entries[..k] && init[..k + 1] == entries[..k + 1];
      StickyAfterFailedRemoval(init, maxMinutes, k);
      var w := IntendedWarnings(entries[..k + 1], maxMinutes);
      assert w + seq(n - k - 2, _ => IterationWarning) + [IterationWarning] == w + seq(n - k - 1, _ => IterationWarning);
    }
  }

  /** Two old files, the first of which cannot be removed: the loop as
      written removes neither, while handling each entry on its own
      removes the second. */
  lemma StickyErrorExample(a: Entry, b: Entry, maxMinutes: int)
    requires RemoveFails(a, maxMinutes) && TooOld(b, maxMinutes) && b.removeOk
    ensures CleanAsWritten([a, b], maxMinutes) == CleanState([], [RemoveWarning(a.path), IterationWarning], true)
    ensures IntendedClean([a, b], maxMinutes) == CleanReport([b.path], [RemoveWarning(a.path)])
  {
    assert [a, b][..1] == [a] && [a][..0] == [];
    var s0 := CleanAsWritten([], maxMinutes);
    assert CleanAsWritten([a], maxMinutes) == EntryStep(s0, a, maxMinutes);
    assert CleanAsWritten([a, b], maxMinutes) == EntryStep(EntryStep(s0, a, maxMinutes), b, maxMinutes);
    assert RemovedEntries([a], maxMinutes) == [];
    assert RemovedEntries([a, b], maxMinutes) == [b];
    assert IntendedWarnings([a], maxMinutes) == [RemoveWarning(a.path)];
  }
}
