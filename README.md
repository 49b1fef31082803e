# DaCL event recorder: a Dafny model

DaCL is a dash-cam event recorder for a car. It keeps a rolling buffer of
video segments. When a CAN warning frame or a manual trigger arrives, it
archives the segments before and after the event. The repository holds
three generations of the recorder:

- a root-level C++ prototype: `CircularBuffer.cpp`, `StorageManager.cpp`;
- a Python prototype: `lab_car_video_system/video_capture.py`, plus the
  reference buffer in `tests/test_system.py`;
- the current C++ code under `src/`.

This project models the sequential logic of these components.

- **CAN helpers** (`src/utils.cpp`, modules `CanSignal`, `CanWarnings`,
  `Config`, `Timestamp`, with `std::stoi` in `CNumbers`):
  - the bit-field extractor over an 8-byte CAN payload;
  - the `id,label;...` warning-table parser, which reads ids in C base 0;
  - the `key=value` configuration reader;
  - the `%04d%02d%02d_%02d%02d%02d` timestamp.
- **Rolling segment buffer** (`src/VideoRecorder.cpp`, module
  `VideoRecorder`): a class whose `Cycle` is one pass of the recording
  loop. The encoder's exit status and the outcome of the post-trigger copy
  are inputs of `Cycle`. A single post-trigger session counts the copied
  segments down.
- **Three other bounded FIFOs**:
  - `ChunkBuffer` (`CircularBuffer.cpp`): evicts before it pushes, and
    answers index-range queries;
  - `ReferenceBuffer` (`tests/test_system.py`): pushes, then pops, and
    answers inclusive time-window queries;
  - `VideoCapture` (`lab_car_video_system/video_capture.py`): closes
    chunks, handles events and saves event videos.
- **CAN warning mailbox** (`src/CANListener.cpp`, module `CanListener`):
  one slot that each warning frame overwrites and `getLatestWarning`
  reads and clears.
- **Archival rules**:
  - `FileManager` (`src/FileManager.cpp`): argument checks, destination
    names, and the clean-up loop over an abstract directory listing, both
    as written (one `std::error_code` shared by every entry) and as
    evidently intended (every entry handled on its own);
  - `CsvLogger` (`src/CSVLogger.cpp`): the event row;
  - `StorageManager` (`StorageManager.cpp`): status, error type and chunk
    names.

Shared pieces live in `Common`:

- `Option` and `Result`;
- decimal text;
- C++ truncating division and Python floor division;
- `find` and `split` (the `getline` item loop is `CanWarnings.GetlineItems`);
- the bounded push of the buffers (`PushBounded`, `LastN`).

Where the sources raise an exception, the model returns a `Result` or an
error outcome. Where they touch the outside world (camera, `system()`,
file system, clock, socket), the outcome is a parameter.

Behaviour the model makes explicit:

- **Event polling in `video_capture.py`.** The capture loop takes one event
  off the queue and drops it. `handle_event` then reads the event type
  from the *next* queued event, or uses "unknown" when there is none.
  `Capture.PollEvents` states this.
- **Where events come from in the capture model.** `Capture`'s queue is
  given to its constructor and only shrinks. The CAN and manual-trigger
  threads that put events into the queue while the loop runs are not
  modelled, so a run of `Step`s sees only the events queued at the start.
- **The clean-up's shared error code.** In `cleanOldSegments` a failed
  removal sets the error code that the loop tests for iteration errors,
  and nothing clears it. Every later entry then only logs "Error iterating
  directory" and is skipped. See "## Findings".
- **A second post-trigger start.** It replaces the first session's count
  and event type.
- **A count of 0.** The session stays active but never copies.
- **`startPostTriggerRecording`.** Its `postFileOut` is the post-trigger
  file left by an earlier session (empty before any), not one of the
  session it starts. `Recorder.StartPostTriggerRecording` states this.
- **Headers and definitions disagree.** `src/VideoRecorder.hpp:9` declares
  three constructor parameters, and `src/utils.hpp:19` a parameterless
  `currentTimestamp`. The model follows the definitions in the `.cpp`
  files.
- **The `CANListener*` parameter.** In the recorder it only feeds the
  timestamp, so `Cycle` takes the timestamp text instead.

## Model

| member | source | states |
|---|---|---|
| CNumbers.Convert | src/utils.cpp:56 | the digits after the sign give `invalid_argument` exactly when there are none; a value returned lies in the 32-bit `int` range |
| CNumbers.Stoi | src/utils.cpp:30-38 | `std::stoi` after blanks, sign and base prefix: `invalid_argument` exactly when no digit follows, a negative value only after `-`, and every value inside the 32-bit `int` range |
| CNumbers.StoiOfDecimal | src/utils.cpp:30-38 | the decimal spelling of any value up to INT_MAX is read back as that value, in base 10 and in base 0 |
| CNumbers.StoiHexExample | src/utils.cpp:56 | example: base 0 reads "0x1A1" as hexadecimal 417 |
| CNumbers.StoiOctalExample | src/utils.cpp:56 | example: base 0 reads "017" as octal 15 |
| CNumbers.StoiDecimalStopsAtLetter | src/utils.cpp:30 | example: base 10 reads "0x1A1" as 0, stopping at the `x` |
| CNumbers.StoiRejectsNonNumeric | src/utils.cpp:56 | text starting with something other than blank, sign or digit gives `invalid_argument` rather than being skipped |
| CanSignal.ExtractSignal | src/utils.cpp:64-79 | the accumulation loop (Intel or Motorola byte order), shift and mask yield the field value of the specification function, and that value is below 2^length (so a 0-bit field reads 0) |
| CanSignal.RawFitsUint64 | src/utils.cpp:65-76 | the gathered bytes fit the 64-bit accumulator, so no shift loses bits |
| CanSignal.LittleEndianBound | src/utils.cpp:70-73 | after i bytes the accumulator is below 2^(8i), so `\|=` of the next byte shifted by 8i adds it |
| CanSignal.BigEndianBound | src/utils.cpp:74-75 | the same bound for most-significant-first accumulation |
| CanSignal.OnlyFieldBytesMatter | src/utils.cpp:67-76 | bytes outside `startBit/8 .. startBit/8 + (length + startBit%8 + 7)/8 - 1` do not affect the result |
| CanSignal.Aligned16 | src/utils.cpp:70-79 | a byte-aligned 16-bit field at byte s is `d[s] + 256*d[s+1]` in Intel order and `256*d[s] + d[s+1]` in Motorola order |
| CanWarnings.GetlineItems | src/utils.cpp:51-53 | the items `getline` yields hold no `;`, and an empty string yields none |
| CanWarnings.ParseCanWarnings | src/utils.cpp:49-62 | the `getline` loop computes the fold of the item rule over the `;`-separated items, the first failing `stoi` ending the parse |
| CanWarnings.ErrorIsFinal | src/utils.cpp:53-56 | once an item's id fails, later items cannot change the outcome |
| CanWarnings.ItemWithoutCommaIsSkipped | src/utils.cpp:54-55 | an item without `,` leaves the table unchanged |
| CanWarnings.LabelIsTextAfterFirstComma | src/utils.cpp:54-58 | an item maps its id to everything after the first `,` and keeps every other entry |
| CanWarnings.DuplicateIdLastWins | src/utils.cpp:58 | of two items with the same id the later label stays |
| CanWarnings.UnreadableIdFails | src/utils.cpp:56 | an unreadable id fails the whole parse whatever follows |
| CanWarnings.WarningsRoundTrip | src/utils.cpp:49-62 | writing a table with ids in 0..INT_MAX and labels without `;` as decimal `id,label` items joined by `;` and parsing it gives the table back |
| Config.Load | src/utils.cpp:9-39 | the line loop builds the key/value map and the fields come from it, numeric ones through base-10 `stoi` in the constructor's order |
| Config.LineWithoutEqualsIgnored | src/utils.cpp:24-25 | a line without `=` changes nothing |
| Config.ApplyLineEffect | src/utils.cpp:24-28 | one line adds or replaces exactly the key it defines |
| Config.KeyPresentIffAssigned | src/utils.cpp:23-29 | a key is in the map exactly when some line assigns it |
| Config.LastAssignmentWins | src/utils.cpp:28 | a key's value is the value text of the last line assigning it |
| Config.AbsentKeyKeepsDefault | src/utils.cpp:10-38 | each of the nine settings whose key no line assigns keeps its default |
| Config.SettingsFields | src/utils.cpp:30-38 | each field of a loaded configuration is its own setting: `stoi` of the key's value when present, else the default |
| Config.KeyIsTextBeforeFirstEquals | src/utils.cpp:24-27 | the key is the text before the first `=`, the value everything after it, untrimmed |
| Config.SpacedKeyIsNotRecognised | src/utils.cpp:26-30 | example: `segment_seconds = 30` does not assign `segment_seconds` |
| Timestamp.CurrentTimestamp | src/utils.cpp:41-47 | the text fits the 32-byte buffer (at most 31 characters) |
| Timestamp.PaddedField | src/utils.cpp:43 | `%0Nd` of a value in 0..10^N-1 is N digits reading back as the value |
| Timestamp.TimestampRoundTrip | src/utils.cpp:43-45 | for in-range fields the timestamp has 15 characters, `_` at index 8, and digit groups that read back as year, month, day, hour, minute, second |
| Timestamp.NegativeFieldExample | src/utils.cpp:43 | example: a negative field keeps its sign inside the width (`%04d` of -5 is "-005") |
| Common.PushBounded | src/VideoRecorder.cpp:36-44 | a push evicts at most one entry, the front one, and keeps the length within a non-negative capacity |
| Common.PushKeepsLastN | src/VideoRecorder.cpp:36-44 | pushing onto the last `capacity` entries gives the last `capacity` entries of the longer history |
| VideoRecorder.Recorder.constructor | src/VideoRecorder.cpp:10-14 | empty buffer, inactive session with count 0, empty event type and post-trigger file |
| VideoRecorder.Recorder.Cycle | src/VideoRecorder.cpp:18-65 | a failed encoder run changes nothing; otherwise the name is pushed with one eviction at most, the buffer stays the last `capacity` names recorded, and the session takes one copy step |
| VideoRecorder.AfterSegment | src/VideoRecorder.cpp:46-64 | a successful copy in an active session with segments left sets the post-trigger name, decrements the count and deactivates at 0; otherwise the session is unchanged |
| VideoRecorder.Arm | src/VideoRecorder.cpp:84-86 | a start sets active, the count and the event type and keeps the post-trigger file |
| VideoRecorder.Recorder.GetBufferedSegments | src/VideoRecorder.cpp:70-78 | the last `min(minutesBack*60/segmentSeconds, size)` names, in order, with no state change |
| VideoRecorder.Recorder.StartPostTriggerRecording | src/VideoRecorder.cpp:80-88 | arms the session and returns the post-trigger file from before the call, leaving the buffer alone and the recorder valid |
| VideoRecorder.BufferedSegmentsAreLatest | src/VideoRecorder.cpp:72-77 | the query over the buffer is the last `min(k, capacity)` names recorded |
| VideoRecorder.SecondStartWins | src/VideoRecorder.cpp:84-86 | a second start replaces the first's count and event type |
| VideoRecorder.ZeroCountNeverCopies | src/VideoRecorder.cpp:46 | a session armed with count 0 stays active and unchanged through any cycles |
| VideoRecorder.SessionCompletes | src/VideoRecorder.cpp:46-60 | n successful copies of a session armed with n end it inactive with the last copy's name |
| VideoRecorder.FailedCopyKeepsSession | src/VideoRecorder.cpp:61-64 | a failed copy leaves the count, the active flag and the post-trigger file unchanged |
| ChunkBuffer.CircularBuffer.constructor | CircularBuffer.cpp:5-6 | the buffer starts empty with size 0 |
| ChunkBuffer.CircularBuffer.AddChunk | CircularBuffer.cpp:19-28 | a full buffer loses its oldest path before the new one is appended; the size counter equals the length and stays within `maxSize` |
| ChunkBuffer.EvictThenPush | CircularBuffer.cpp:21-27 | evict-then-push keeps the buffer equal to the last `maxSize` paths added |
| ChunkBuffer.Window | CircularBuffer.cpp:33-37 | the selected range starts at the clamped index, holds the paths in buffer order, is empty when the start is past the end, and otherwise holds `min(count, size - start)` paths (none for `count <= 0`) |
| ChunkBuffer.CircularBuffer.GetChunks | CircularBuffer.cpp:30-39 | the index loop returns exactly that range and leaves the buffer unchanged |
| ChunkBuffer.WindowInside | CircularBuffer.cpp:35-37 | a range inside the buffer is returned whole |
| ChunkBuffer.CircularBuffer.Clear | CircularBuffer.cpp:41-48 | the buffer is empty and the size 0 |
| ReferenceBuffer.BufferSize | tests/test_system.py:173 | the capacity `(15*60)//30` is 30 chunks |
| ReferenceBuffer.CircularBuffer.constructor | tests/test_system.py:27-29 | the list starts empty with the given `max_size` |
| ReferenceBuffer.CircularBuffer.AddChunk | tests/test_system.py:31-36 | append, then pop the oldest once if over `max_size`; the list stays the last `max_size` chunks added |
| ReferenceBuffer.CircularBuffer.GetChunks | tests/test_system.py:38-45 | the loop returns the chunks stamped within the window, in buffer order |
| ReferenceBuffer.SaveEventVideo | tests/test_system.py:143-153 | selects by the same rule over event time ± 300 seconds |
| ReferenceBuffer.InWindowChunksMembers | tests/test_system.py:41-44 | a chunk is selected iff it is in the buffer and `start <= timestamp <= end` |
| ReferenceBuffer.InWindowChunksAppend | tests/test_system.py:41-44 | selection distributes over concatenation, so buffer order is kept |
| ReferenceBuffer.AllInWindowSelectsAll | tests/test_system.py:41-44 | when every chunk is in the window the whole buffer is returned |
| VideoCapture.Capture.constructor | lab_car_video_system/video_capture.py:11-29 | empty buffer and chunk, `MAX_CHUNKS = BUFFER_DURATION // CHUNK_DURATION`, not recording |
| VideoCapture.Capture.AddFrame | lab_car_video_system/video_capture.py:56 | the frame joins the open chunk and nothing else changes |
| VideoCapture.Capture.CloseChunk | lab_car_video_system/video_capture.py:59-68 | a non-empty chunk is appended and the oldest dropped beyond `MAX_CHUNKS`, keeping the last `MAX_CHUNKS` chunks; an empty one changes nothing |
| VideoCapture.SliceFrom | lab_car_video_system/video_capture.py:92 | Python's `xs[start:]` is a suffix of the list |
| VideoCapture.PreEventChunksAreLatest | lab_car_video_system/video_capture.py:89-94 | with count > 0 the pre-event chunks are the last `count`; with count 0, `[-0:]` is the whole buffer |
| VideoCapture.EventTypeOf | lab_car_video_system/video_capture.py:100 | the event type contains no `_` |
| VideoCapture.EventTypeIsLowerPrefix | lab_car_video_system/video_capture.py:100 | both branches give the lower-cased text before the first `_` |
| VideoCapture.EventTypeOfPrefixed | lab_car_video_system/video_capture.py:100 | `PREFIX_rest` has type `prefix` lower-cased |
| VideoCapture.EventTypeExample | lab_car_video_system/video_capture.py:100 | example: "CAN_EVENT" has type "can" |
| VideoCapture.Capture.HandleEvent | lab_car_video_system/video_capture.py:85-110 | pre-event chunks taken from the buffer, type from the next queued event or "unknown", post-event recording started with no chunks, buffer unchanged |
| VideoCapture.Capture.PollEvents | lab_car_video_system/video_capture.py:70-73 | an event is consumed and dropped; the type comes from the event after it |
| VideoCapture.FullEventVideo | lab_car_video_system/video_capture.py:114-116 | the pre-event chunks, then the post-event chunks as one element only when there are any |
| VideoCapture.Capture.SaveEventVideo | lab_car_video_system/video_capture.py:112-127 | the saved video, `event_<type>_<timestamp>.avi`, and the type reset to "unknown" |
| VideoCapture.EventFileNameParts | lab_car_video_system/video_capture.py:121 | the file name starts `event_`, reads the type back before the next `_`, and ends with the timestamp and `.avi` |
| VideoCapture.Capture.FinishPostEvent | lab_car_video_system/video_capture.py:75-80 | once the 5 minutes are up the video is saved, recording stops and post-event chunks are cleared |
| VideoCapture.Capture.Step | lab_car_video_system/video_capture.py:45-80 | one loop pass: the frame joins the open chunk, which is pushed into the bounded buffer when its time is up; a non-empty queue loses its first two events, the second typing the event, and the pre-event chunks are the latest of the updated buffer; when recording and the 5 minutes are up the event video is saved from those chunks and recording stops, else the flags, post-event chunks and type are as the event left them |
| CanListener.TableKey | src/CANListener.cpp:42 | the unsigned 32-bit id becomes the `int` key congruent to it mod 2^32 |
| CanListener.ExtendedIdKey | src/CANListener.cpp:42 | an id with bit 31 set looks up a negative key |
| CanListener.Listener.constructor | src/CANListener.cpp:13-14 | no warning pending |
| CanListener.Listener.OnFrame | src/CANListener.cpp:40-47 | a frame with a known id overwrites the label and marks it pending; an unknown id or a failed read changes nothing |
| CanListener.Listener.GetLatestWarning | src/CANListener.cpp:54-62 | returns whether a warning was pending, delivers the label and clears the flag, or leaves the out-parameter untouched |
| CanListener.ReadBeforeAnyFrame | src/CANListener.cpp:54-61 | a read before any frame returns false |
| CanListener.TwoWarningsOneDelivery | src/CANListener.cpp:41-61 | two warning frames then two reads: only the second label, and only once |
| CanListener.IgnoredFrame | src/CANListener.cpp:41-43 | an unknown id or a failed read leaves nothing to deliver |
| FileManager.NewManager | src/FileManager.cpp:9-32 | construction succeeds iff both paths are non-empty and both directories are usable; an empty path is `invalid_argument` |
| FileManager.CheckCopyArguments | src/FileManager.cpp:39-54 | the checks pass iff no argument is empty; a failure is `invalid_argument` and names the first empty one in source order |
| FileManager.CopyEventSegments | src/FileManager.cpp:34-91 | the loop copies segments 0..k-1 to their names, where k is the first failing copy, warns on failed overlays, and reports the copy failure |
| FileManager.DestNamesDistinct | src/FileManager.cpp:64-65 | distinct indices give distinct destination names |
| FileManager.CopyFailureStops | src/FileManager.cpp:68-74 | a failing copy at k ends the call with at most k copies made |
| FileManager.AllCopied | src/FileManager.cpp:63-90 | with no failing copy every segment is copied in order, whatever the overlays do |
| FileManager.CleanOldSegments | src/FileManager.cpp:93-144 | `maxMinutes <= 0` is `invalid_argument`; a directory whose existence cannot be checked throws; a missing one removes nothing; otherwise the loop, with its one shared error code, gives the removals and warnings of the as-written fold |
| FileManager.EntryStep | src/FileManager.cpp:112-138 | once the error code is set an entry only adds the iteration warning; an entry removes at most one more file and keeps the earlier removals |
| FileManager.RemovedIffTooOld | src/FileManager.cpp:119-138 | intended clean-up: an entry is removed iff it is a regular file older than `maxMinutes` whole minutes whose removal succeeds |
| FileManager.AgreesWithoutRemoveFailure | src/FileManager.cpp:111-143 | while no removal fails, the loop as written leaves the error code clear and equals the intended clean-up |
| FileManager.StickyAfterFailedRemoval | src/FileManager.cpp:113-137 | after the first failed removal at k, the removals are those of entries before k and each later entry adds only the iteration warning |
| FileManager.StickyErrorExample | src/FileManager.cpp:113-137 | example: an unremovable old file followed by a removable one removes nothing as written, while the intended clean-up removes the second |
| CsvLogger.LogEvent | src/CSVLogger.cpp:7-19 | when the file opens exactly one row is appended after the old text; otherwise nothing changes |
| CsvLogger.EmptyPreFilesRow | src/CSVLogger.cpp:15-18 | with no pre-trigger files the row is `ts,tt,wt,speed,,post\n` |
| CsvLogger.PreFilesFieldIsJoin | src/CSVLogger.cpp:16-17 | the pre-trigger column is the names joined by `;` plus a final `;` |
| CsvLogger.RowIsJoinedFields | src/CSVLogger.cpp:15-18 | the row is six fields joined by `,` and a line break |
| CsvLogger.RowRoundTrip | src/CSVLogger.cpp:15-18 | with plain fields the row is one line splitting into the six fields, the fifth splitting into the pre-trigger files and one empty piece |
| StorageManager.Classify | StorageManager.cpp:19-20 | the first label iff the name contains the marker, the second iff it does not |
| StorageManager.Status | StorageManager.cpp:19 | "post-error" iff the event name contains `_post`, else "pre-error" |
| StorageManager.ErrorType | StorageManager.cpp:20 | "manual_trigger" iff the name contains `manual_trigger`, else "can_warning" |
| StorageManager.ClassificationExamples | StorageManager.cpp:19-20 | example: "manual_trigger_post" is post-error and manual; "overspeed" is pre-error and a CAN warning |
| StorageManager.SaveEventVideo | StorageManager.cpp:10-34 | a failing `create_directory` ends the call with an error naming the event directory; otherwise the event directory name, and one outcome per chunk in order: copied under its new name, not found, or a copy error |
| StorageManager.ChunkNamesDistinct | StorageManager.cpp:23 | distinct indices give distinct chunk names |
| StorageManager.EveryGoodChunkCopied | StorageManager.cpp:22-33 | every existing chunk whose copy succeeds is copied, whatever happened to earlier chunks |

## Left out

- Threads, mutexes, atomics and sleeps: each component is modelled as a sequential object.
- External commands are not run. `libcamera-vid` and `ffmpeg` succeed or fail according to boolean or set inputs.
- File system operations are inputs: copying, removing, `exists`, `create_directories`, directory iteration and file times. An entry's age arrives in whole minutes. The `last_write_time` clock conversion is not modelled.
- Files are not deleted when `CircularBuffer` is constructed, on eviction or on `clear`, nor when the recorder evicts a segment. Every such removal is treated as succeeding. In the source a failing `std::filesystem::remove` throws: at `CircularBuffer.cpp:22` `addChunk` then leaves the buffer unchanged; at `CircularBuffer.cpp:44` `clear` stops with the buffer not cleared and only some files removed; at `src/VideoRecorder.cpp:42` the name is already pushed but not evicted, and the exception leaves the recording loop.
- The constructor of `StorageManager.cpp` (line 7), which creates the storage directory, is not modelled.
- FileManager.CleanOldSegments: an error while advancing the directory iterator, and a throwing `is_regular_file`, leave the function as exceptions and are not modelled. A directory that exists but cannot be opened for iteration is an empty listing, as the iterator constructor only sets the error code.
- CAN socket setup and reading frames: each `read` result is an input of `OnFrame`.
- Reading the configuration file: `Config.Load` takes the lines `getline` would produce.
- Where time values come from. `currentTimestamp` takes its six fields as parameters; `src/CANListener.cpp` never writes the clock fields it reads. The `strftime` text in `StorageManager.cpp` and `video_capture.py` is an input.
- Camera capture, frame decoding and overlays in `video_capture.py`: a frame is an opaque value. `storage_manager.save_video` is replaced by returning the saved video.
- VideoCapture.Capture.SaveEventVideo and VideoCapture.Capture.FinishPostEvent: model a `save_video` that returns. As written, `lab_car_video_system/storage_manager.py:13` defines `save_video` at module level, not in the class, so the call at `video_capture.py:124` on the `StorageManager` instance raises `AttributeError`. `start` catches it at lines 82-84, closes the camera and the capture loop ends, so no event video is ever written and the type is not reset. The model covers the path where saving returns.
- `src/TriggerManager.cpp`, `main.cpp`, `src/main.cpp`, `src/StorageManager.cpp`, `src/OverlayRenderer.cpp`, `src/PreviewManager.cpp`, `VideoCapture.cpp`, `ManualTrigger.cpp`, `VideoOverlay.cpp`, `CANBusListener.cpp` and the other Python modules are not part of this model. They are wiring, hardware, rendering or random simulation.
- CanSignal.ExtractSignal: returns the masked raw value. The `double` scaling by `factor` and `offset` and the final cast to `uint32_t` are not modelled.
- CanSignal.ExtractSignal: requires a non-negative `startBit`, `length` ≤ 63, and the field's bytes inside the 8-byte payload. The source does no checking. A negative `startBit` or a field outside the payload reads outside the array, and a `length` of 64 or more makes the mask's `1ULL << length` undefined. A `length` of 0 is allowed and reads 0.
- VideoRecorder.Recorder.constructor: requires `segmentSeconds != 0`. The source accepts 0, but then every later cycle and query divides by zero.
- VideoRecorder.Recorder.GetBufferedSegments: requires the computed segment count to be non-negative. A negative count would move the iterator past the end.
- ChunkBuffer.CircularBuffer.AddChunk: requires `maxSize >= 1`. With 0 the source reads `buffer[0]` of an empty vector.
- VideoCapture.Capture.constructor: requires `chunkDuration != 0`. With 0, Python raises `ZeroDivisionError` while computing `MAX_CHUNKS`.
- C++ `int` overflow is not modelled. This covers `bufferMinutes * 60`, `minutesForward * 60`, `startIndex + count` and `segmentSeconds * 1000`; the integers here are unbounded. `stoi` results are range-checked as the standard library does.
- Python floats: timestamps in `tests/test_system.py` and the elapsed-time checks in `video_capture.py` are integers or boolean inputs.
- VideoCapture.EventTypeOf: lower-cases ASCII letters only. Python's `str.lower` also maps other Unicode letters.
- `std::stoi` is modelled for the C locale only.

## Findings

| source | as written | input that shows it | evidently intended | confidence | as-written member | corrected member |
|---|---|---|---|---|---|---|
| src/FileManager.cpp:113-137 | `cleanOldSegments` uses one `std::error_code` for the directory iterator and for `remove`. A failed removal sets it, nothing clears it, and the `if (ec)` at the top of the loop then logs "Error iterating directory" and skips every later entry | a buffer directory listing an old file that cannot be removed, followed by an old file that can | every old regular file is removed whatever happened to earlier entries, and only real iteration errors log that warning | not executed | FileManager.StickyErrorExample | FileManager.RemovedIffTooOld |
