# The desktop shell's trickier state, in Dafny

This project models seven components of the repository and proves what each of them is for. A component has a value-level
specification, laws about that specification over every input or every run, and, where the original updates objects in
place, classes with those fields whose methods are proved to do what the specification says.

* **Performance log** (`Bytes`, `PerfLogSpec`, `PerfLogLaws`, `PerfLogCallLaws`, `PerfLog`). Events are delta-time encoded into blocks of 8192
  bytes, with escape records for wide gaps and statistics that are only written when they change. The replay method, a
  separate decoder over the bytes, is proved to give back what was recorded, exactly when that is so.
* **Secure text buffer** (`Utf8`, `SecureTextBuffer`). A growable array of bytes with two counters refines a sequence of code
  points. The UTF-8 of sections 3 and 4 of RFC 3629 is defined twice, by encoding and by grammar, and both are proved equal.
* **Shift matcher** (`Motion`). An exhaustive search over shifts of two grey images, and the generator of image pairs whose
  shift it has to recover.
* **Stroke model** (`StrokeSpec`, `StrokeModelSpec`, `StrokeDrawLaws`, `Strokes`). Ink strokes, a live eraser by distance of polylines, translation
  in place and a capped undo stack of deep copies. The classes share no point between the drawing and a snapshot.
* **Pen capture** (`OverlaySpec`, `OverlayLaws`, `OverlayInkLaws`, `OverlayGateLaws`, `OverlayStrokeLaws`,
  `Overlay`). The session's handlers as a state
  machine over events with unreadable kinds, absent coordinates and wandering pointers; the class drives the stroke model.
* **Action muxers** (`MuxerSpec`, `MuxerSignals`, `MuxerLaws`, `MuxerParentLaws`, `MuxerRunLaws`, `MuxerShadowLaws`,
  `MuxerAccelLaws`, `Muxer`). A tree of muxers whose changes travel down to the observers registered with each of them, and accelerators that shadow each other.
* **Applications and the network agent** (`AppLifecycleSpec`, `AppLifecycleLaws`, `AppLifecycleInputLaws`, `AppLifecycle`,
  `NetworkAgentSpec`, `NetworkAgentCallLaws`, `NetworkAgent`). The application's state and lazily sorted windows, and the secret requests that must each be answered once.

`Options` holds optional values and `SnocLists` the lists that grow at the end: logs, runs and traces.

Conventions. A method in a class whose contract equates the new state with a specification function is the refinement of that
function; the laws are about the function. Ghost parameters and fields carry the value an object stands for. Where the code does
not do what its comments say, the model follows the code:

* `lib/overlaySession.js:30-38` takes code 16 for a tip press under another name. In `mutter/clutter/clutter/clutter-enums.h`
  that code is PROXIMITY_IN. Then ink can escape the overlay (`OverlayInkLaws.ClutterCodesEscape`), and a pen that only comes
  into range and hovers opens the gate that a press and a drag are meant to open (`OverlayGateLaws.HoverDraws`).
* `lib/strokes.js:189-196` takes the snapshot of an erase when the gesture ends, after its strokes are gone, so undo mostly
  does not bring them back (`StrokeModelSpec.EraseUndoRestoresIff`).
* `gnome-shell/src/shell-perf-log.c:655-672` marks a statistic as recorded even if the log was switched off in between
  (`PerfLogLaws.CollectionFaithfulIff`).
* `gnome-shell/src/gtkactionmuxer.c:332-340` forwards removals past a group that shadows the removed one
  (`MuxerShadowLaws.ShadowedDisagrees`); when removals, insertions, moves and changes do no harm in such trees is said by the
  `...AgreesIff` lemmas there.
* `lib/overlaySession.js:1304-1305` drops a PROXIMITY_OUT that lies outside the overlay before the code at 1519-1536 that ends
  the stroke and closes the gate when the pen leaves range (`OverlayGateLaws.LeavingOutsideKeepsDrawing`, and for exactly when
  the gate closes `OverlayGateLaws.GateClosesIff`).

## Model

| member | source | states |
|---|---|---|
| `PerfLogLaws.ReplayIsReference` | gnome-shell/src/shell-perf-log.c:324-383 | In every run of definitions, recordings, statistics and collections, replaying the records yields exactly what the accepted calls alone determine: names, signatures, arguments, and a clock that follows their times, restarts at gaps wider than 32 bits and at recorded perf.setTime, and stands still on backward steps |
| `PerfLogLaws.ReplayExactIff` | gnome-shell/src/shell-perf-log.c:690-765 | The replay of a run equals its accepted calls with their own times, in order and complete, if and only if no caller recorded perf.setTime by name and no time went back |
| `PerfLogCallLaws.RunTold` | gnome-shell/src/shell-perf-log.c:227-679 | In every run the log has exactly the names, signatures, statistics and values it was told, and has accepted exactly the calls that the operations alone determine: recorded while the log was on, under a name defined before with that signature, no larger than a block; and per collection the statistics that had a value not yet taken, and a closing event |
| `PerfLogCallLaws.ReplayTold` | gnome-shell/src/shell-perf-log.c:690-765 | Every run replays as its operations alone determine |
| `PerfLogCallLaws.RecordedIsReplayed` | gnome-shell/src/shell-perf-log.c:392-464 | A call recorded by name in a log that is on is the last event of the replay if the name was defined with its signature and it fits a block, with everything replayed before still there; otherwise the replay is as it was |
| `PerfLogLaws.ClockDrift` | gnome-shell/src/shell-perf-log.c:346-359 | For arbitrary calls the replay clock is the last recorded time plus the backward steps since the last escape record or the start of the log; a perf.setTime that a caller recorded by name sets the clock to the time it names |
| `PerfLogLaws.DriftNotNegative` | gnome-shell/src/shell-perf-log.c:346-359 | Without such a call the replay clock is never behind the recorded time |
| `PerfLogLaws.ReplayedTimeDrift` | gnome-shell/src/shell-perf-log.c:695-725 | In the replay of any later log the event of a call that is no perf.setTime shows its own time plus the drift at that call |
| `PerfLogLaws.ReplayGrows` | gnome-shell/src/shell-perf-log.c:690-765 | No later operation changes or takes back an event already replayed |
| `PerfLogLaws.CollectionShowsCurrent` | gnome-shell/src/shell-perf-log.c:619-679 | At the statisticsCollected event that closes a collection, the newest replayed value of every initialised statistic is its current value, although unchanged ones were not written again |
| `PerfLogLaws.CollectionFaithfulIff` | gnome-shell/src/shell-perf-log.c:619-679 | A collection leaves the replay right about all statistics if and only if its callbacks did not leave the log switched off with some statistic waiting to be written (the recorded flag is set although nothing was written) |
| `PerfLogLaws.LosingRunLoses` | gnome-shell/src/shell-perf-log.c:655-672 | A run in which a callback updates a statistic and switches the log off: after a later collection with the log on again the statistic is initialised, and none of its values was ever replayed |
| `PerfLogLaws.RunCollectionShowsCurrent` | gnome-shell/src/shell-perf-log.c:546-679 | The same for whole runs, from an empty log, with any definitions and with earlier collections none of which left the log switched off with a statistic waiting to be written |
| `PerfLogSpec.SweptStep` | gnome-shell/src/shell-perf-log.c:639-674 | Visiting one statistic, recording it if it is pending and remembering what was written, extends the sweep over the statistics before it |
| `PerfLogSpec.PlayGrow` | gnome-shell/src/shell-perf-log.c:227-274 | Defining a further event does not change what the records so far replay to |
| `PerfLog.EncodePrefix` | gnome-shell/src/shell-perf-log.c:324-383 | The bytes of an earlier record list begin the bytes of every list it grew into |
| `PerfLog.HeaderAt` | gnome-shell/src/shell-perf-log.c:710-725 | Where a record's image lies, the reader finds its delta, its event number and its argument |
| `PerfLog.NextRecord` | gnome-shell/src/shell-perf-log.c:703-725 | A reader that stands at the end of whole records and before the end of a block stands at the start of the next whole record |
| `PerfLog.BlockQueue.OpenBlock` | gnome-shell/src/shell-perf-log.c:361-367 | A record without room in the last block opens a new one, which then holds exactly that record |
| `PerfLog.BlockQueue.Append` | gnome-shell/src/shell-perf-log.c:361-382 | Appending puts one record behind all others; no record straddles blocks and none exceeds 8192 bytes |
| `PerfLog.ShellPerfLog.TakeDelta` | gnome-shell/src/shell-perf-log.c:346-359 | The delta written for a time: 0 for a backward step, an escape record first for a gap above 0xffffffff |
| `PerfLog.ShellPerfLog.RecordEvent` | gnome-shell/src/shell-perf-log.c:324-383 | The state after recording is that of the record function; an event that cannot fit a block is dropped, and so is any event while disabled |
| `PerfLog.ShellPerfLog.DefineEvent` | gnome-shell/src/shell-perf-log.c:227-274 | An event is added exactly when its signature is known, its name has no quote and is new, and fewer than 65536 exist |
| `PerfLog.ShellPerfLog.DefineStatistic` | gnome-shell/src/shell-perf-log.c:485-513 | A statistic is added with its event, for signatures i and x |
| `PerfLog.ShellPerfLog.RecordByName` | gnome-shell/src/shell-perf-log.c:392-464 | Recording by name does what the record function says, which drops unknown names and wrong signatures and else records (PerfLogCallLaws.RecordedIsReplayed) |
| `PerfLog.ShellPerfLog.UpdateStatistic` | gnome-shell/src/shell-perf-log.c:546-582 | A known statistic of the right type takes the value and counts as initialised |
| `PerfLog.ShellPerfLog.CollectStatistics` | gnome-shell/src/shell-perf-log.c:619-679 | Callbacks run, pending statistics are written with the time at which the collection began, and a statisticsCollected event closes it |
| `PerfLog.ShellPerfLog.ReplayRecord` | gnome-shell/src/shell-perf-log.c:705-760 | One turn of the replay loop reads exactly one record and moves to its end |
| `PerfLog.ShellPerfLog.ReplayBlock` | gnome-shell/src/shell-perf-log.c:700-763 | The loop over a block terminates having consumed every byte of it and replays its records behind those before |
| `PerfLog.ShellPerfLog.Replay` | gnome-shell/src/shell-perf-log.c:690-765 | The replay method yields the replay of the model: encoder and decoder agree on every log |
| `Bytes.LittleEndianRoundTrip` | gnome-shell/src/shell-perf-log.c:375-380 | A number that fits its width is read back from its bytes |
| `Bytes.SignedRoundTrip` | gnome-shell/src/shell-perf-log.c:379-382 | 32- and 64-bit signed arguments are read back from their bytes |
| `Utf8.WellFormedIff` | gnome-shell/src/shell-secure-text-buffer.c:75-107 | A byte string is well-formed UTF-8 by the grammar of section 4 of RFC 3629 if and only if it is the encoding by section 3 of some code points, and then of one sequence only |
| `Utf8.DecodeEncodes` | gnome-shell/src/shell-secure-text-buffer.c:75-107 | Encoding what well-formed bytes decode to gives the bytes back |
| `Utf8.EncodeAllWellFormed` | gnome-shell/src/shell-secure-text-buffer.c:75-107 | Encoding any code points gives well-formed bytes that decode to them |
| `Utf8.LeadByte` | gnome-shell/src/shell-secure-text-buffer.c:110-110 | The lead byte of a character is no NUL and tells where the next character starts |
| `Utf8.OffsetToPointer` | gnome-shell/src/shell-secure-text-buffer.c:75-75 | Stepping over lead bytes finds the byte at which the character of an index starts |
| `Utf8.FindPrevChar` | gnome-shell/src/shell-secure-text-buffer.c:99-99 | Stepping back finds the last character boundary before a byte |
| `Utf8.StrLen` | gnome-shell/src/shell-secure-text-buffer.c:100-100 | Counting characters in a prefix gives the number of whole ones |
| `SecureTextBuffer.LongestFitUnique` | gnome-shell/src/shell-secure-text-buffer.c:88-107 | There is one longest prefix of whole characters that fits; every shorter one fits and no longer one does |
| `SecureTextBuffer.EncodeSplice` | gnome-shell/src/shell-secure-text-buffer.c:109-118 | Inserting bytes at the start of a character is inserting characters at its index |
| `SecureTextBuffer.EncodeCut` | gnome-shell/src/shell-secure-text-buffer.c:133-146 | Moving the tail bytes down is cutting out the characters between two indices |
| `SecureTextBuffer.CutSplice` | gnome-shell/src/shell-secure-text-buffer.c:123-149 | Cutting what was inserted where it was inserted gives the old text |
| `SecureTextBuffer.ShellSecureTextBuffer.MakeRoom` | gnome-shell/src/shell-secure-text-buffer.c:77-107 | The growth loop terminates with room for the text and a NUL within the maximum size; when capacity runs out the insertion is cut to exactly the longest prefix of whole characters that fits |
| `SecureTextBuffer.ShellSecureTextBuffer.InsertText` | gnome-shell/src/shell-secure-text-buffer.c:65-121 | At a position in the text the contents become the old ones with the inserted characters there; the number inserted is returned, text_bytes and text_chars stay the encoded length and the character count, the bytes stay the UTF-8 of the contents and a NUL follows |
| `SecureTextBuffer.ShellSecureTextBuffer.DeleteText` | gnome-shell/src/shell-secure-text-buffer.c:123-149 | The contents become the old ones without the characters from the position on, after clamping to the text |
| `SecureTextBuffer.ShellSecureTextBuffer.InsertThenDelete` | gnome-shell/src/shell-secure-text-buffer.c:65-149 | Deleting as many characters as an insertion reports, at the same position, restores the text |
| `SecureTextBuffer.ShellSecureTextBuffer.GetText` | gnome-shell/src/shell-secure-text-buffer.c:46-56 | The text returned is the UTF-8 of the contents, and empty when there is no buffer yet |
| `Motion.SsdShift` | native/anno-motion.c:26-58 | The nested loops compute the mean squared difference over the overlap of the shifted images |
| `Motion.SumIsExact` | native/anno-motion.c:34-52 | For the accepted sizes the sum of squared differences is below 2^53, so a double holds it exactly |
| `Motion.MeanZeroIff` | native/anno-motion.c:26-58 | The overlap of any shift smaller than the image is not empty, the mean is at most 65025, and it is 0 exactly when the images agree on the overlap |
| `Motion.Search` | native/anno-motion.c:66-119 | For accepted sizes the search returns, of all shifts each of whose components is at most 4, or at most 48 and an eighth of the shorter side, the lexicographically first (sy, sx) of least mean, and as second the least mean of all others; other sizes are refused |
| `Motion.WindowIs` | native/anno-motion.c:97-104 | The shifts tried are exactly those |
| `Motion.SearchRow` | native/anno-motion.c:101-118 | One row of shifts extends what the search knows to that row |
| `Motion.ConfidenceBounds` | native/anno-motion.c:124-135 | The confidence lies between 0 and 1; for a perfect match it is 0.25 if there is a finite, positive second best and 0 if there is none |
| `Motion.ConfidenceSeparates` | native/anno-motion.c:124-135 | The best mean is the second best times one less the confidence, or less four times the confidence for an almost perfect match; the confidence is 0 if the two do not stand apart |
| `Motion.RandomStateNonzero` | lib/motionSync.js:11-23 | The generator never reaches the state 0 in which it would stay |
| `Motion.FirstStates` | lib/motionSync.js:11-23 | The first two states are those of xorshift32 from its usual seed |
| `Motion.FillRandomishGrey8` | lib/motionSync.js:11-23 | Every pixel is the low byte of the generator's state at its index |
| `Motion.BuildSyntheticGreyPair` | lib/motionSync.js:26-44 | The second image shows the first one moved by the shift, and the first one itself where nothing moved in |
| `Motion.GeneratedMeanZero` | lib/motionSync.js:26-44 | A generated pair agrees perfectly under its own shift |
| `Motion.GeneratedShiftRecovered` | native/anno-motion.c:97-135 | On a generated pair whose shift is one of those tried the best mean is 0; the result is that shift if and only if no shift tried before it gives 0, and the confidence is 0.25 if no other shift at all gives 0 and 0 otherwise |
| `StrokeSpec.SegmentIsNearest` | lib/strokes.js:22-42 | The squared distance to a segment is the least over all its points and attained, unless the segment is degenerate |
| `StrokeSpec.TouchesGrows` | lib/strokes.js:44-62 | A longer path touches whatever the shorter one touched, from one point to two and over degenerate segments too |
| `StrokeSpec.HitGrows` | lib/strokes.js:64-76 | A stroke hit by an eraser path is hit by every extension of it |
| `StrokeSpec.HitMoves` | lib/strokes.js:64-76 | Moving stroke and eraser path together changes no hit |
| `StrokeDrawLaws.HitSymmetric` | lib/strokes.js:64-76 | A stroke hits an eraser path exactly when the path, taken as a stroke, hits the stroke, taken as a path |
| `StrokeDrawLaws.TouchesIff` | lib/strokes.js:44-62 | A point touches a path exactly when it comes within 10 of one of its segments, or of its only point |
| `StrokeModelSpec.UnhitGrows` | lib/strokes.js:198-207 | Filtering with a path and then with its extension is filtering with the extension |
| `StrokeModelSpec.UnhitMoves` | lib/strokes.js:133-152 | Filtering moved strokes with the moved path is moving the filtered strokes |
| `StrokeModelSpec.LiveErasing` | lib/strokes.js:161-207 | While an eraser gesture goes on, with translations anywhere in between, the strokes left are at every moment those one pass of the path so far would leave |
| `StrokeModelSpec.ErasingIsOneFilter` | lib/strokes.js:161-207 | A finished eraser gesture leaves exactly the strokes that one filter with its complete path leaves, window restriction included |
| `StrokeModelSpec.EraseUndoRestoresIff` | lib/strokes.js:189-196 | Undoing a finished eraser gesture, with translations anywhere in between, gives the strokes as they were before it, moved like everything else, if and only if nothing was appended to it or its path hit none of them, because the snapshot is taken when the gesture ends |
| `StrokeModelSpec.ErasedDotStaysErased` | lib/strokes.js:189-196 | A dot erased by a gesture that comes over it stays erased when the gesture is undone |
| `StrokeModelSpec.UndoStackIsNewest` | lib/strokes.js:103-118 | In every run the undo stack holds the outstanding snapshots, newest last, with the values they were taken with; of the oldest as many are lost as the depth ever exceeded 48 |
| `StrokeModelSpec.UndoRestores` | lib/strokes.js:110-118 | A successful undo puts back the strokes as they were at the newest outstanding snapshot, whatever was translated since |
| `StrokeDrawLaws.GestureDraws` | lib/strokes.js:133-187 | A gesture of points, with the content shifted and the colour changed anywhere in between, adds exactly one stroke behind those that were there: with the colour last set before it, the window it began on and its points in order with their pressures; all of it is moved by the shifts that came after it |
| `StrokeDrawLaws.GestureErases` | lib/strokes.js:133-207 | A finished eraser gesture removes exactly the strokes its path hits, of those on the window it began on or of all; the path has its points in order, moved by the shifts after them, and the strokes left keep their order and are moved as the content was |
| `StrokeDrawLaws.PenIsLast` | lib/strokes.js:120-122 | In every run the pen has the colour last set |
| `StrokeDrawLaws.ClearEmpties` | lib/strokes.js:124-130 | Clearing empties the drawing and ends what is in progress, and undoing it brings the strokes back |
| `StrokeDrawLaws.NothingInProgress` | lib/strokes.js:175-196 | With nothing in progress, ending or extending a stroke and finishing an erase change neither the drawing nor its history |
| `Strokes.HitByEraser` | lib/strokes.js:64-76 | The hit test on point objects decides what the hit test on values says |
| `Strokes.PointToPolyline` | lib/strokes.js:44-62 | The loop over the segments computes the distance to the polyline |
| `Strokes.CloneStrokes` | lib/strokes.js:95-101 | The copy shows the same values and consists of fresh objects only |
| `Strokes.TranslateStrokes` | lib/strokes.js:133-139 | Moving every point in place moves every stroke by the offset, each point once |
| `Strokes.FilterStrokes` | lib/strokes.js:198-207 | The strokes kept are those the eraser path does not hit or that belong to another window |
| `Strokes.UndoHistory.PushCapped` | lib/strokes.js:103-107 | A snapshot is put on the stack and the oldest are dropped beyond 48; all others keep their values |
| `Strokes.UndoHistory.Pop` | lib/strokes.js:110-113 | The newest snapshot is handed out, with objects that no other snapshot has |
| `Strokes.StrokeModel.UndoOne` | lib/strokes.js:110-118 | Undo gives the newest snapshot back by value and ends what is in progress |
| `Strokes.StrokeModel.ClearAll` | lib/strokes.js:124-130 | Clearing takes a snapshot and empties the drawing |
| `Strokes.StrokeModel.TranslateAll` | lib/strokes.js:133-152 | Translating in place moves the strokes, the current stroke and the eraser path, and no snapshot |
| `Strokes.StrokeModel.BeginStroke` | lib/strokes.js:154-159 | A stroke in progress is committed, an eraser path dropped, and a stroke with one point begun |
| `Strokes.StrokeModel.BeginErase` | lib/strokes.js:161-166 | A stroke in progress is committed and an eraser path with one point begun |
| `Strokes.StrokeModel.AppendPoint` | lib/strokes.js:175-179 | A point is added to the stroke in progress, if there is one |
| `Strokes.StrokeModel.AppendErase` | lib/strokes.js:168-173 | A point is added to the eraser path and the strokes it now hits are gone |
| `Strokes.StrokeModel.CommitCurrent` | lib/strokes.js:181-187 | A stroke with points is added to the drawing after a snapshot (StrokeDrawLaws.GestureDraws says which) |
| `Strokes.StrokeModel.FinishErase` | lib/strokes.js:189-196 | The gesture ends with a snapshot and one more pass of the path |
| `OverlayLaws.RunKeeps` | lib/overlaySession.js:1125-2023 | In every state of every run: never both a stroke and an eraser path in progress; with the pen up neither, and no last point; with the pen down the overlay is shown, the gate open and nothing anchored; an anchor only behind a closed gate; a hidden overlay has its gate closed; and the strokes are what the calls made into the stroke model make them |
| `OverlayLaws.StepKeeps` | lib/overlaySession.js:1711-2023 | Every input keeps that, from any state that has it |
| `OverlayStrokeLaws.PenDownBegins` | lib/overlaySession.js:1823-1836 | From any state that runs reach, the step that puts the pen down begins an eraser path in erase mode and a stroke of the pen's colour with the event's pressure in draw mode, at the point of the event and on the topmost window there that is not minimised; the drawing is as it was |
| `OverlayStrokeLaws.WindowIsTopmost` | lib/overlaySession.js:412-437 | The window of a gesture is the topmost unminimised one under its first point, or none |
| `OverlayStrokeLaws.StepContinues` | lib/overlaySession.js:1846-1975 | Every event of a gesture in progress adds exactly one point, there where the event is, to the stroke or to the eraser path if it is to, and nothing otherwise; or it ends the gesture |
| `OverlayStrokeLaws.GestureCalls` | lib/overlaySession.js:1780-1975 | From the point at which the pen goes down a gesture makes exactly one call for each of its points, to the eraser if it began in erase mode and to the stroke if not, and no other but for shifts and colours |
| `OverlayStrokeLaws.InkIsDrawn` | lib/overlaySession.js:1125-1975 | In every run a gesture in draw mode that an event ends adds exactly one stroke to the drawing, with the points of its events in order and their pressures, moved as the content was after them |
| `OverlayStrokeLaws.InkIsErased` | lib/overlaySession.js:1125-1975 | In every run a gesture in erase mode that an event ends leaves exactly the strokes that the path of its events does not hit or that are on another window than the one it began on |
| `OverlayStrokeLaws.PressDownIff` | lib/overlaySession.js:1711-1836 | Exactly which presses on the canvas put the pen down: those of a pen with a drawing mode, off the dock and off the swatches, for which the gate is open or which it does not take for a press |
| `OverlayStrokeLaws.DragDownIff` | lib/overlaySession.js:1850-1923 | Behind the closed gate, exactly which motions of the pen draw: off the dock, with a drawing mode, 8 or more away from where a press was swallowed |
| `OverlayStrokeLaws.PressureDownIff` | lib/overlaySession.js:1019-1045 | With the gate open a motion of a pen that tells its pressure draws exactly if that is above 0.015 and it can draw |
| `OverlayStrokeLaws.ToolDownIff` | lib/overlaySession.js:1045-1071 | Without pressure it draws exactly if it can draw and comes from a tablet with a tool, or from a tablet or the core pointer within 900 ms of a pen coming into range |
| `OverlayStrokeLaws.PressSwallowed` | lib/overlaySession.js:1780-1821 | Behind the closed gate a press of a pen that can draw is remembered where it was, and nothing else happens |
| `OverlayStrokeLaws.CapturedMotionActs` | lib/overlaySession.js:1440-1584 | With the pen up a captured motion that gets past the dock does what it would do on the canvas |
| `OverlayStrokeLaws.CapturedPressActs` | lib/overlaySession.js:1440-1584 | So does a captured press while the dock is hidden |
| `OverlayStrokeLaws.ReleaseEnds` | lib/overlaySession.js:1955-1998 | A release on the canvas ends what is drawn or erased, if it is the pen's or one of its kinds, and else changes nothing |
| `OverlayStrokeLaws.CapturedReleaseEnds` | lib/overlaySession.js:1125-1536 | A captured release in the overlay ends what is drawn or erased |
| `OverlayStrokeLaws.ReleaseForgets` | lib/overlaySession.js:1955-1998 | A release with the pen up forgets the press that was swallowed, and nothing else changes |
| `OverlayStrokeLaws.RangeRemembered` | lib/overlaySession.js:1526-1550 | A pen that comes into range or enters behind the closed gate is remembered with the time, and nothing else happens |
| `OverlayStrokeLaws.LeftAlone` | lib/overlaySession.js:1125-1200 | Captured events of other devices are left alone while the pen is up, and so are the pen's over the dock and all while the overlay is hidden |
| `OverlayStrokeLaws.BelievedPoint` | lib/overlaySession.js:1206-1372 | Coordinates of the pen in the overlay and off the dock are believed |
| `OverlayStrokeLaws.StuckPoint` | lib/overlaySession.js:1240-1260 | Coordinates stuck at the corner of the stage are replaced by the last point of the stroke |
| `OverlayStrokeLaws.ClampedPoint` | lib/overlaySession.js:665-676 | A point outside the overlay is moved to its edge in exactly the coordinates that are outside |
| `OverlayStrokeLaws.SettledBack` | lib/overlaySession.js:1306-1372 | Exactly when a point of a stroke is moved back to the last good one |
| `OverlayStrokeLaws.OverDockIff` | lib/overlaySession.js:962-1000 | Exactly when an event is over the dock: its point or the pointer is in the palette or within 28 of the shown dock |
| `OverlayStrokeLaws.PointIsLastGood` | lib/overlaySession.js:1930-1953 | A captured point of a stroke in the overlay is the last good one from then on |
| `OverlayStrokeLaws.ToggleShows` | lib/overlaySession.js:2002-2023 | A hidden overlay is shown with the drawing as it was; a shown one is hidden with what was being drawn or erased ended |
| `OverlayStrokeLaws.ButtonsCall` | lib/overlaySession.js:1711-2023 | Undo, clear, the colours and the movement of content call the stroke model once and change nothing else |
| `OverlayStrokeLaws.SwatchTaps` | lib/overlaySession.js:858-960 | A press of the pen under whose pointer a swatch lies sets the colour of the first such swatch and draws nothing |
| `OverlayInkLaws.CaptureInkIff` | lib/overlaySession.js:1125-1584 | Exactly which captured events draw only inside the root, for all codes, from any state, with the root anywhere and event and pointer coordinates anything: all but one that enters outside it with the pen, whose kind has code 16, that is handled, lies off the dock and finds a stroke going on, or the gate open with a drawing mode and no swatch hit |
| `OverlayInkLaws.RunInkIff` | lib/overlaySession.js:1125-1584 | In a run every point drawn by a captured event lies in the overlay if and only if no event of the run is such a one |
| `OverlayInkLaws.ClampedInRoot` | lib/overlaySession.js:665-676 | Clamping puts every point into a root of at least one by one pixel |
| `OverlayInkLaws.SettledInRoot` | lib/overlaySession.js:1306-1372 | Replacing dock or hover coordinates by the last point of the stroke does not leave the root |
| `OverlayInkLaws.InkInRootIff` | lib/overlaySession.js:34-38 | Every point drawn by a captured event of all runs lies in the overlay if and only if code 16 is neither PROXIMITY_IN nor ENTER |
| `OverlayInkLaws.ClutterCodesEscape` | mutter/clutter/clutter/clutter-enums.h:535-566 | In this repository's Clutter code 16 is PROXIMITY_IN: there is a run in which a captured event draws outside the overlay |
| `OverlayGateLaws.GateStep` | lib/overlaySession.js:1778-1923 | Behind the closed gate a step keeps the anchor, drops it or swallows a pen event that counts as a discrete press, and only a motion of the pen at squared distance 64 or more from the anchor opens the gate; no other device and no repeated press does. Code 16 counts as a press, whatever it stands for |
| `OverlayGateLaws.GateHolds` | lib/overlaySession.js:1519-1536 | After any moment at which the gate stood closed with nothing anchored the pen is down only if a pen event that counts as a discrete press was swallowed at an anchor and after that the pen moved at least 8 away from it. With this repository's codes that event may be a PROXIMITY_IN |
| `OverlayGateLaws.SwallowedKindIff` | lib/overlaySession.js:34-38 | Exactly which kinds of event some run swallows as a press: BUTTON_PRESS, TOUCH_BEGIN and whatever has code 16 |
| `OverlayGateLaws.RangeNotSwallowedIff` | lib/overlaySession.js:34-38 | In every run what is swallowed is never a pen coming into range if and only if code 16 is not PROXIMITY_IN |
| `OverlayGateLaws.HoverDraws` | lib/overlaySession.js:34-38 | If code 16 is PROXIMITY_IN, as in this repository's Clutter, there is a run in which a pen that comes into range and hovers along with no pressure opens the gate and draws |
| `OverlayLaws.ToggleKeeps` | lib/overlaySession.js:2002-2023 | Toggling the overlay closes the gate, drops the anchor and lifts the pen, and keeps what every run keeps |
| `OverlayGateLaws.GateClosesIff` | lib/overlaySession.js:1125-1536 | A captured PROXIMITY_OUT of the pen leaves the gate closed, nothing anchored and the pen up if and only if the gate was closed with nothing anchored before, or the event is accepted and new, its repaired point lies in the root, and none of the three branches at the dock returns first; it is never clamped into the root |
| `OverlayGateLaws.LeavingOutsideKeepsDrawing` | lib/overlaySession.js:1274-1305 | A run in which the pen leaves range outside the overlay in the middle of a stroke: the pen stays down and the gate open |
| `OverlayGateLaws.ClosedIsQuiet` | lib/overlaySession.js:1850-1923 | A step between two states with the gate closed makes no drawing call into the stroke model |
| `OverlayGateLaws.GateBypassIff` | lib/overlaySession.js:1780-1843 | Exactly which presses on the canvas get past the closed gate: those of the pen, with a drawing mode, off the dock, whose kind is not a discrete press |
| `OverlayGateLaws.UnreadablePressDraws` | lib/overlaySession.js:1780-1843 | A run in which a press on the canvas whose kind cannot be read draws right after the overlay was shown |
| `OverlayGateLaws.CapturedOnce` | lib/overlaySession.js:1201-1205 | An event delivered over both capture connections acts once |
| `Overlay.OverlaySession.StageCoordsFromEvent` | lib/overlaySession.js:544-610 | The method computes the point an event is taken to be at; for the motions of a stroke that point lies in the root whenever the pointer does (OverlayInkLaws.StrokeCoordsInRoot) |
| `Overlay.OverlaySession.CaptureAcceptsEvent` | lib/overlaySession.js:1081-1119 | Which events the capture takes |
| `Overlay.OverlaySession.MotionShouldImplicitPress` | lib/overlaySession.js:1020-1071 | The early returns decide which events count as a press without one: behind the closed gate they open nothing (OverlayGateLaws.GateStep) |
| `Overlay.OverlaySession.ForwardPenDockIfSwatchHit` | lib/overlaySession.js:858-955 | A pen tap triggers the first swatch, or else the clear button, under the first of its candidate points that has one |
| `Overlay.OverlaySession.RepairPoint` | lib/overlaySession.js:1223-1303 | The coordinate repair of the capture handler |
| `Overlay.OverlaySession.SettlePoint` | lib/overlaySession.js:1306-1372 | The method performs the false-dock and hover replacement, which never leads out of the root (OverlayInkLaws.SettledInRoot) |
| `Overlay.OverlaySession.OnPress` | lib/overlaySession.js:1723-1843 | The press handler does to session and stroke model what the step function says (OverlayStrokeLaws.PenDownBegins and PressDownIff say what that is) |
| `Overlay.OverlaySession.OnMotion` | lib/overlaySession.js:1845-1953 | The motion handler does what the step function says |
| `Overlay.OverlaySession.OnRelease` | lib/overlaySession.js:1955-2000 | The release handler does what the step function says |
| `Overlay.OverlaySession.OnPenStageCaptured` | lib/overlaySession.js:1125-1584 | The capture handler does what the step function says and leaves no dispatch point behind |
| `Overlay.OverlaySession.CommitPenStroke` | lib/overlaySession.js:1711-1721 | Ending a stroke from the capture commits or finishes what is in progress |
| `Overlay.OverlaySession.Toggle` | lib/overlaySession.js:2002-2023 | Toggling does what the step function says |
| `MuxerLaws.NameParts` | gnome-shell/src/gtkactionmuxer.c:146-168 | A full name is taken apart at its first dot, whatever the action is called |
| `MuxerLaws.HolderAnswers` | gnome-shell/src/gtkactionmuxer.c:375-400 | With no prefix twice on the chain, a query is answered by the one group under the prefix |
| `MuxerLaws.RemoveAgrees` | gnome-shell/src/gtkactionmuxer.c:746-768 | Removing a group sends every muxer at or below it the events that lead to what a fresh query then answers |
| `MuxerLaws.InsertAgrees` | gnome-shell/src/gtkactionmuxer.c:702-734 | Inserting a group, in place of an old one or not, does so too |
| `MuxerLaws.ChangeAgrees` | gnome-shell/src/gtkactionmuxer.c:170-340 | Whatever a group adds, removes, enables, disables or changes the state of, all observers reached over all its insertions know what a fresh query then answers |
| `MuxerParentLaws.ReparentAgrees` | gnome-shell/src/gtkactionmuxer.c:822-882 | Moving a muxer replays the old and the new parent chain so that every observer at or below it knows what a fresh query then answers |
| `MuxerRunLaws.ObserversKnow` | gnome-shell/src/gtkactionmuxer.c:702-882 | In every run of inserts, removes, moves, group changes, registrations and unregistrations, of this observer and of others, in which every change fits, shadowed prefixes or not, the table of a muxer has exactly the registrations the observer has made and not taken back, and while there are any, what it asked at the first of them and was called with since is what a fresh query on its muxer returns |
| `MuxerRunLaws.AnyObserverKnows` | gnome-shell/src/gtkactionmuxer.c:702-882 | The same from any tree, with an observer that is registered or not and has just asked |
| `MuxerRunLaws.StepAgreesIff` | gnome-shell/src/gtkactionmuxer.c:170-882 | The events of a change lead every muxer from the answers before it to those after it if and only if the change fits |
| `MuxerRunLaws.UnshadowedFits` | gnome-shell/src/gtkactionmuxer.c:702-882 | Where no prefix occurs twice on a path to the root, before or after, every change fits |
| `MuxerRunLaws.SignalsTeach` | gnome-shell/src/gtkactionmuxer.c:170-330 | The calls that the signals of a step make take every registered observer, however often it is registered, from the answer before the step to the answer after it, and tell no other observer anything of the action |
| `MuxerSignals.CallsAreHeard` | gnome-shell/src/gtkactionmuxer.c:170-330 | Signals that call the watchers in their muxer's table make exactly the calls to an observer that its registrations and the muxer's events say |
| `MuxerSignals.HearsAll` | gnome-shell/src/gtkactionmuxer.c:170-330 | However often an observer is registered, its calls teach it what the muxer's events say; one that is not registered learns nothing |
| `MuxerParentLaws.ListsIff` | gnome-shell/src/gtkactionmuxer.c:105-144 | A muxer lists exactly the names it can answer for |
| `MuxerParentLaws.MovedValid` | gnome-shell/src/gtkactionmuxer.c:822-882 | Moving a muxer under one that is not below it keeps the tree a tree |
| `MuxerShadowLaws.RemoveAgreesIff` | gnome-shell/src/gtkactionmuxer.c:746-768 | With shadowed prefixes, removing a group leaves all observers knowing what a fresh query answers if and only if, for every muxer at or below, no other group answers under the prefix, or only a nearer one whose actions have other names |
| `MuxerShadowLaws.InsertAgreesIff` | gnome-shell/src/gtkactionmuxer.c:702-734 | With shadowed prefixes, inserting a group, in place of another or not, leaves all observers knowing what a fresh query answers if and only if, for every action and every muxer at or below: if the new group answers, it has what was answered from further up before, unless it replaces another; and if a nearer group answers, that loses nothing to the removals and the additions say of it what it says itself |
| `MuxerShadowLaws.ReparentAgreesIff` | gnome-shell/src/gtkactionmuxer.c:822-882 | With shadowed prefixes, moving a muxer does so if and only if, for every name that a group from a muxer up to the moved one answers, what it answers is not lost with the old parent's names or comes back with the new one's, and the new names say of a muxer's own group what it says itself |
| `MuxerShadowLaws.ChangeAgreesIff` | gnome-shell/src/gtkactionmuxer.c:170-340 | With shadowed prefixes, a group change does so if and only if, for every name it is forwarded under: a nearer group that answers is as the change says, and where the changed group answers, no later handler describes another one |
| `MuxerShadowLaws.ShadowedDisagrees` | gnome-shell/src/gtkactionmuxer.c:332-340 | A tree with a shadowed prefix in which an observer is told its action is gone while a query still finds it |
| `MuxerAccelLaws.AccelAnnouncedIff` | gnome-shell/src/gtkactionmuxer.c:342-373 | Setting or removing an accelerator is announced at exactly the muxers whose effective accelerator is the one of that muxer, whatever it is; every other muxer and every other key keeps what it had |
| `MuxerAccelLaws.ReparentAnnounces` | gnome-shell/src/gtkactionmuxer.c:795-882 | Moving a muxer announces at every muxer every key whose effective accelerator changes for it |
| `MuxerAccelLaws.KeyedIff` | gnome-shell/src/gtkactionmuxer.c:795-813 | The keys announced for a chain are those that have an effective accelerator on it |
| `MuxerAccelLaws.PrintedNameRecovered` | gnome-shell/src/gtkactionmuxer.c:920-945 | The action's name is found again after the last bar of a printed key, whatever text the target prints as |
| `Muxer.ActionMuxer.QueryAction` | gnome-shell/src/gtkactionmuxer.c:375-400 | The query on objects answers what the tree says |
| `Muxer.ActionMuxer.GetPrimaryAccel` | gnome-shell/src/gtkactionmuxer.c:900-918 | The accelerator query on objects answers what the tree says |
| `Muxer.ActionMuxer.Emit` | gnome-shell/src/gtkactionmuxer.c:170-249 | An event sent at a muxer reaches it and everything below it once, and nothing else, and each calls exactly the watchers its table has for the action, in order |
| `Muxer.ActionMuxer.ActionAdded` | gnome-shell/src/gtkactionmuxer.c:250-303 | The addition of an action reaches the muxer and everything below it once, and each describes it as its source answers, to exactly the watchers its table has for the action |
| `Muxer.ActionMuxer.Insert` | gnome-shell/src/gtkactionmuxer.c:702-734 | The tables after inserting, the events every muxer was sent, and that each called the watchers in its table |
| `Muxer.ActionMuxer.Remove` | gnome-shell/src/gtkactionmuxer.c:746-768 | The tables after removing, the events every muxer was sent, and that each called the watchers in its table |
| `Muxer.ActionGroup.ChangeAction` | gnome-shell/src/gtkactionmuxer.c:184-330 | The events every muxer is sent when a group changes, over all muxers it was inserted in, and that each called the watchers in its table |
| `Muxer.ActionMuxer.ListActions` | gnome-shell/src/gtkactionmuxer.c:105-144 | The names listed are those of all groups up the chain |
| `Muxer.ActionMuxer.PrimaryAccelChanged` | gnome-shell/src/gtkactionmuxer.c:342-373 | Exactly the muxers not cut off by an own entry hear of a key, under the name after its last bar, and each calls the watchers its table has for that name |
| `Muxer.ActionMuxer.SetPrimaryAccel` | gnome-shell/src/gtkactionmuxer.c:884-898 | The table after setting and who hears of it |
| `Muxer.ActionMuxer.SetParent` | gnome-shell/src/gtkactionmuxer.c:822-882 | The tree after moving, the events every muxer was sent, the keys it heard of, and that each called the watchers in its table |
| `Muxer.ActionMuxer.RegisterObserver` | gnome-shell/src/gtkactionmuxer.c:499-520 | The tree has the observer once more, before the other watchers of its action, and nothing else changes |
| `Muxer.ActionMuxer.UnregisterObserver` | gnome-shell/src/gtkactionmuxer.c:471-534 | The tree has one registration of the observer less, and an action no one watches is forgotten |
| `MuxerSignals.WithoutFirstCounts` | gnome-shell/src/gtkactionmuxer.c:471-487 | Taking back a registration removes one and no other |
| `AppLifecycleLaws.CompareIff` | gnome-shell/src/shell-app.c:694-722 | As long as user times span less than 2^31 the wrapped difference orders windows by workspace, visibility and time |
| `AppLifecycleLaws.SortSorts` | gnome-shell/src/shell-app.c:744-751 | Sorting gives a sorted list of the same windows |
| `AppLifecycleLaws.SortKeeps` | gnome-shell/src/shell-app.c:744-751 | Sorting what is sorted moves nothing, not even windows that compare equal |
| `AppLifecycleLaws.OneChangeIff` | gnome-shell/src/shell-app.c:929-944 | When one window changes the list is still sorted if and only if that window fits between its neighbours, so a growing time of the first window needs no new sort |
| `AppLifecycleLaws.RunKeeps` | gnome-shell/src/shell-app.c:914-1199 | In every run, whatever the user times and in whatever order windows come, go and change, interesting_windows counts exactly the windows not kept out of the taskbar and never falls below zero; there is running state exactly while there are windows; a stopped application has no such window, a running one has windows; and running_apps lists it exactly while it is running |
| `AppLifecycleLaws.StepKeeps` | gnome-shell/src/shell-app.c:914-1199 | Every step keeps that, from any state that has it |
| `AppLifecycleInputLaws.RunTold` | gnome-shell/src/shell-app.c:914-1199 | In every run an application has exactly the windows that came and did not go, is in exactly the state that its inputs alone determine, has running state exactly while it has windows, and is listed exactly while it runs |
| `AppLifecycleInputLaws.LastWindowStops` | gnome-shell/src/shell-app.c:1114-1138 | Removing its last window leaves an application that is not starting stopped, without running state and not listed |
| `AppLifecycleLaws.RunOrdered` | gnome-shell/src/shell-app.c:694-758 | As long as the times of its windows span less than 2^31, a window list that is not stale is in the current order if, since it was last marked stale or empty, every window that was hidden, shown, moved to another workspace or, as the first one, changed its time still fitted between its neighbours; with the first step at which one does not fit it is out of order |
| `AppLifecycleLaws.StepOrderIff` | gnome-shell/src/shell-app.c:694-758 | Exactly when one step, of any kind, leaves a list that is in order in order: when it is marked stale or the window that changed still fits |
| `AppLifecycleLaws.GrowingTimeStays` | gnome-shell/src/shell-app.c:929-944 | A user time that does not go back leaves the first window fitting, so it needs no new sort |
| `AppLifecycleLaws.TableIsRunning` | gnome-shell/src/shell-app-system.c:471-492 | In every run over any number of applications that share the windows of a display, in which windows pass from one application to another, running_apps holds exactly the running applications and no window has two of them |
| `AppLifecycleLaws.NeverBackToStarting` | gnome-shell/src/shell-app.c:914-927 | No step makes a running application a starting one |
| `AppLifecycleLaws.HidingKeepsOrderIff` | gnome-shell/src/shell-app.c:713-719 | Hiding or showing a window marks nothing stale: a list that is not stale stays in order if and only if the window still fits between its neighbours |
| `AppLifecycleLaws.HidingBreaksOrder` | gnome-shell/src/shell-app.c:713-719 | A run that adds two windows, asks for the windows and hides the first: the list is in order until then, and afterwards not marked stale and out of order |
| `AppLifecycleLaws.WindowsInOrder` | gnome-shell/src/shell-app.c:735-758 | The windows returned are those that are not override-redirect, in the current order |
| `AppLifecycle.ShellAppSystem.NotifyAppStateChanged` | gnome-shell/src/shell-app-system.c:471-492 | If the table lists exactly the running ones of all other applications, and does not list one that is merely starting, then it lists exactly the running ones of all of them; no other application's entry changes |
| `AppLifecycle.ShellApp.Transition` | gnome-shell/src/shell-app.c:914-927 | A transition changes the state and the table, refuses RUNNING to STARTING, and touches no other application's entry |
| `AppLifecycle.ShellApp.AddWindow` | gnome-shell/src/shell-app.c:1081-1112 | Adding a window once does what the step function says |
| `AppLifecycle.ShellApp.RemoveWindow` | gnome-shell/src/shell-app.c:1114-1138 | Removing a window does what the step function says (AppLifecycleInputLaws.RunTold), and the last one takes the running state with it |
| `AppLifecycle.ShellApp.OnSkipTaskbarChanged` | gnome-shell/src/shell-app.c:961-978 | The handler counts the window in or out and follows with the state |
| `AppLifecycle.ShellApp.OnUserTimeChanged` | gnome-shell/src/shell-app.c:929-944 | The list becomes stale unless the window is the first |
| `AppLifecycle.ShellApp.HandleStartupSequence` | gnome-shell/src/shell-app.c:1172-1199 | A startup sequence starts a stopped application, and its end makes it running if it has windows and stopped if not |
| `AppLifecycle.ShellApp.GetWindows` | gnome-shell/src/shell-app.c:735-758 | The list is sorted if it is stale, and its ordinary windows are returned in order |
| `AppLifecycle.OneChanged` | gnome-shell/src/shell-app-system.c:471-492 | When one application changes and the others do not, the table lists exactly the running ones again |
| `NetworkAgentSpec.AnsweredOnce` | gnome-shell/src/shell-network-agent.c:246-409 | In every run of requests, replacements, keyring results, dialog edits, responses, cancellations and shutdown each call is answered at most once, and is in the table exactly as long as it is not answered |
| `NetworkAgentSpec.StepKeeps` | gnome-shell/src/shell-network-agent.c:104-159 | Every input keeps that |
| `NetworkAgentSpec.FinalizeAnswersAll` | gnome-shell/src/shell-network-agent.c:131-159 | When the agent goes away every call that ever came has been answered exactly once |
| `NetworkAgentCallLaws.RunPending` | gnome-shell/src/shell-network-agent.c:350-512 | In every run the table holds exactly the requests that the inputs alone leave pending, with the setting and the flags they came with, and the user was asked for exactly those with entries |
| `NetworkAgentCallLaws.TakenIsAnswered` | gnome-shell/src/shell-network-agent.c:104-593 | A request that an input takes from the table, or replaces, is answered then and there, with the error that goes with that input or with secrets of its setting; nobody else is answered by it |
| `NetworkAgentCallLaws.FinalizeCancels` | gnome-shell/src/shell-network-agent.c:131-159 | When the agent goes away the replies are cancellations |
| `NetworkAgentCallLaws.SearchAnswers` | gnome-shell/src/shell-network-agent.c:246-345 | When a search completes with items for a request that does not go on to the user, the one reply to its call is the secrets of its own setting: a key for every item with that key and a secret, with the last such item's secret |
| `NetworkAgentCallLaws.SearchHandsOn` | gnome-shell/src/shell-network-agent.c:315-331 | When it goes on to the user, nobody is answered and the entries begin with just those secrets |
| `NetworkAgentCallLaws.SavedIsAnswered` | gnome-shell/src/shell-network-agent.c:246-345 | After a connection was saved, a request for a setting that the search answers is told exactly the kept secrets of that setting |
| `NetworkAgentCallLaws.IdsDiffer` | gnome-shell/src/shell-network-agent.c:365-365 | Requests have the same id exactly if they are for the same setting of the same connection, as setting names have no slash |
| `NetworkAgentSpec.ConfirmedAnswer` | gnome-shell/src/shell-network-agent.c:411-512 | In every run, when a call is confirmed that had entries at some earlier moment, the one reply it gets holds for every key the password last given for that call since that moment, or else what its entries had then, and all VPN secrets in the order given under their one key if there are any; exactly that is saved if the flags allow interaction or ask anew, and else nothing |
| `NetworkAgentSpec.EntriesBegin` | gnome-shell/src/shell-network-agent.c:322-330 | In every run the entries of a request begin empty if the user is asked at once, and with what the keyring had when the search was handed to the dialog |
| `NetworkAgentSpec.SavedWasAnswered` | gnome-shell/src/shell-network-agent.c:492-512 | In every run, whatever was saved is the one answer that its call got |
| `NetworkAgentSpec.SavedIsFound` | gnome-shell/src/shell-network-agent.c:246-345 | For a connection whose kept secrets have different keys in each setting, a search after a save finds for every setting exactly its secrets that are not empty and owned by the agent alone, VPN secrets included |
| `NetworkAgentSpec.StoredAreKept` | gnome-shell/src/shell-network-agent.c:673-765 | The walk over the settings stores exactly the secrets that are not empty and owned by the agent alone |
| `NetworkAgentSpec.SavedOnceIff` | gnome-shell/src/shell-network-agent.c:655-789 | A save that runs to its end calls back exactly once if and only if no completion during the walk over the settings leaves no store under way |
| `NetworkAgentSpec.SavedAtTheEnd` | gnome-shell/src/shell-network-agent.c:655-789 | With completions after the walk, as the main loop delivers them, the callback comes with the last event and not before: the last completion, or the end of the walk if nothing had to be stored |
| `NetworkAgent.ShellNetworkAgent.GetSecrets` | gnome-shell/src/shell-network-agent.c:350-409 | A pending request for the same connection and setting is cancelled and replaced; the user is asked at once exactly when the flags say so |
| `NetworkAgent.ShellNetworkAgent.KeyringDone` | gnome-shell/src/shell-network-agent.c:246-348 | A cancelled search changes nothing; a failed one is answered; found secrets are answered or, for a VPN or if there are none and interaction is allowed, handed to the dialog (NetworkAgentCallLaws.SearchAnswers and SearchHandsOn say which secrets) |
| `NetworkAgent.ShellNetworkAgent.SetPassword` | gnome-shell/src/shell-network-agent.c:427-441 | A password is put under its key in that request and no other |
| `NetworkAgent.ShellNetworkAgent.AddVpnSecret` | gnome-shell/src/shell-network-agent.c:411-425 | A VPN secret is added to that request and no other |
| `NetworkAgent.ShellNetworkAgent.Respond` | gnome-shell/src/shell-network-agent.c:443-512 | The response answers the request and drops it; the secrets of a confirmed one are also saved if the flags allow interaction or ask anew |
| `NetworkAgent.ShellNetworkAgent.CancelGetSecrets` | gnome-shell/src/shell-network-agent.c:571-593 | A pending request is answered as cancelled; one already answered is left alone |
| `NetworkAgent.ShellNetworkAgent.Finalize` | gnome-shell/src/shell-network-agent.c:131-159 | Every pending request is answered and the table is empty |
| `NetworkAgent.KeyringRequest.SaveDeleteCallback` | gnome-shell/src/shell-network-agent.c:673-789 | The walk begins one store for every secret that is not empty and owned by the agent alone, in order, those in the table of a VPN included, and completes at once if there are none |

## Left out

* Rounding: geometry, means and confidence are over real numbers; the sum of squared differences is an integer.
* Foreign effects: D-Bus, GSettings, timers, drawing, picking, repaints, file and keyring I/O appear only as the inputs and the
  abstract arguments of the callbacks they lead to. What a window, an input event, the pointer or the dock geometry is at a
  moment is a parameter of that moment.
* Debug counters and log branches, and the `try`/`catch` probing of device properties: whether an event is from a pen, has
  pressure or a tool is a field of the event. NaN coordinates are absent coordinates, and the pointer's are numbers if present.
* The serialisation of strokes and of performance dumps, dock dragging and shrinking, blur, tray, camera, polkit, gesture, usage
  and cache code: wrappers or smaller state machines that would add easier members.
- PerfLog.ShellPerfLog.Replay: bytes are stored least significant first where the original stores them in the order of the host, and the replay clock is unbounded where the original's is 64 bits wide, which matters only after backward steps adding up to centuries.
- PerfLog.ShellPerfLog.TakeDelta: the recursion by which record_event writes its escape record is unrolled once, which is all it can do.
- PerfLog.ShellPerfLog.CollectStatistics: a statistics callback is given by the operations it performs.
- SecureTextBuffer.ShellSecureTextBuffer.InsertText: the characters inserted are well-formed UTF-8 without NUL, as the interface demands; CLUTTER_TEXT_BUFFER_MAX_SIZE is 65535, its value in mutter/clutter/clutter/pango/clutter-text-buffer.h; secure allocation and wiping are not modelled.
- SecureTextBuffer.ShellSecureTextBuffer.DeleteText: its precondition leaves out counts that added to the clamped position wrap 32 bits around.
- Motion.RandomStateNonzero: nothing else is said about the quality of the generator; which other shifts of a generated pair match perfectly is a condition of the recovery.
- OverlayInkLaws.InkInRootIff: the canvas lies at the origin of the root, as the overlay allocates it, and the root is at least one by one; events delivered to the canvas directly are not captured events.
- OverlayGateLaws.GateHolds: the kind of a press delivered to the canvas directly is readable as a press (what happens otherwise is OverlayGateLaws.GateBypassIff), and code 16 is not that of MOTION if a captured event has no readable kind.
- OverlayLaws.RunKeeps: errors thrown by the toolkit inside a handler, which the handlers log, are not modelled.
- MuxerLaws.InsertAgrees: prefixes have no dot, as the interface demands; handlers of one group run in any order, where GObject runs them in the order of connection.
- MuxerParentLaws.ReparentAgrees: the parent is not below the muxer; the original does not check this and would not end. The connection to the new parent is made before the additions are sent, which go down from the muxer and not over it.
- MuxerRunLaws.ObserversKnow: observers do not register, unregister or change the tree while they are called.
- Muxer.ActionMuxer.UnregisterObserver: it is called for an action that is watched, as the original needs; an observer that is destroyed is unregistered by the same code.
- Muxer.ActionMuxer.SetParent: references, disposal, remote groups and activation are not modelled.
- AppLifecycleLaws.RunOrdered: nothing is said of the order while the user times of an application's windows span 2^31 or more, where the wrapped comparison is not transitive; what g_slist_sort_with_data makes of such a list may be another permutation than the model's. That hiding or moving a window keeps the order is not claimed because it is false (AppLifecycleLaws.HidingBreaksOrder).
- AppLifecycle.ShellApp.AddWindow: the application's actions, its busy watch and the move of a window to the workspace it was started on are left out.
- NetworkAgentSpec.AnsweredOnce: a search has one result, and it comes as cancelled exactly when its request is gone, as GTask delivers it; callbacks do not call back into the agent.
- NetworkAgent.ShellNetworkAgent.Respond: confirmed and edited requests have been put to the user, so they have entries.
- OverlayStrokeLaws.InkIsDrawn: gestures that undo, clearing or toggling interrupt are covered step by step (OverlayStrokeLaws.ButtonsCall, OverlayStrokeLaws.ToggleShows) and not as wholes.
- NetworkAgentCallLaws.SavedIsAnswered: VPN requests always go on to the user's dialog.
- NetworkAgentSpec.SavedIsFound: the keyring itself is modelled by what was stored in it, after the save has deleted the old items of the connection; stores do not fail.
- OverlayGateLaws.GateClosesIff: code 16 is not that of PROXIMITY_OUT.
