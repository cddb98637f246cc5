# Metro event scheduler, modelled in Dafny

This project models the sample-accurate event scheduler of the Metro/Pulsar
sequencer and proves properties of it. It also models the small undo-grouping
state machine of the Pulsar editor.

- **Event buffers** (`MetroEventBuffer` with `MetroNoteInfoMap`) are in
  `event_buffer.dfy` and `note_info.dfy`.
  - A buffer collects one bar of events at fractional bar offsets.
  - It encodes Note On / Note Off as three-byte MIDI 1.0 channel voice
    messages.
  - It pairs every note-off with the humanisation delta its note-on drew.
  - `prepare` sorts the events and resolves their offsets into frames. The
    frame getters refuse to answer before that.
- **Events** (`MetroNoteEvent`, `MetroEvent.BAR_OFFSET_COMPARATOR`) are in
  `events.dfy`.
  - An event is a value: bar offset, resolved frame offset, and a payload
    (MIDI port and bytes, a procedure, or an unknown kind).
  - `Between` is the from-inclusive, to-exclusive window test of
    `MetroAbstractEvent.between`.
- **Tracks** (`MetroNoteEventBufferSequence`) are in `sequence.dfy`.
  - `ProgressCursor` is one audio callback. It is proved to compute exactly the
    value-level specification in `dispatch.dfy`.
  - That specification covers the per-buffer windowed scan with its early
    exit, the whole queue walk with each buffer's window shifted, the MIDI
    messages emitted, and the retirement of passed buffers.
  - `Prepare` resolves the start cursor from the IMMEDIATE / PARALLEL / SERIAL
    sync policy.
  - `CheckBuffer`, `OfferNewBuffer` and `ClearBuffer` govern refill and
    termination. The queue never holds more than two buffers.
- **Undo grouping** (`CompoundGroupedUndoManager`) is in `undo.dfy`. The Swing
  manager underneath is abstracted as an undo stack and a redo stack of groups.
- **Worked scenarios** are in `scenarios.dfy`: a sorted prepare, a windowed
  dispatch across two callbacks, and the two sync formulas.

Modelling choices:

- Doubles are `real`.
- Java's `(int)` cast is truncation toward zero (`Trunc`). The code truncates
  the sync offset, the buffer length and the velocity byte; it does not round.
- `Math.random()` draws are parameters in [0, 1).
- `MetroMidiEvent.compare` is the parameter `tieBreak`.
- The track's queue holds `MetroEventBuffer`s prepared with sorting.

Where the code and its documentation disagree, the model follows the code.

- Humanisation: when a range has size zero, `noteOn` takes
  `humanizeVelocity_min` as the default for both deltas, the offset delta
  included. A non-zero range draws `draw * size`, because `=+` in the code is a
  plain assignment.
- Sorting: `prepare` sorts with `MetroMidiEvent.comparator`, whose body is not
  shown. It is modelled as `BAR_OFFSET_COMPARATOR`, which orders by bar offset
  and delegates ties between MIDI events to `MetroMidiEvent.compare`.
- That comparator is not transitive. A non-MIDI event at the same offset as
  two MIDI events compares equal to both, while the two MIDI events are
  ordered by the tie-break (`CompareNotTransitive`). So the sort is promised
  only to order events by bar offset and to keep them as a permutation;
  within one offset no tie-break order can be promised.

## Model

| member | source | states |
|---|---|---|
| MetroEvents.NoteEvent | pulsar/src/ats/metro/MetroNoteEvent.java:8-18 | the event keeps its bar offset, output port and bytes unchanged and is a MIDI event |
| MetroEvents.Trunc | metro/src/ats/metro/MetroEventBuffer.java:113 | the `(int)` cast: the integer part toward zero, within one of the real on the side of zero |
| MetroEvents.Resolved | metro/src/ats/metro/MetroEventBuffer.java:106-110 | resolving keeps bar offset and payload; a non-negative offset gives a non-negative frame, and an offset in [0,1) lands inside the bar |
| MetroEvents.ResolvePreservesOrder | metro/src/ats/metro/MetroEventBuffer.java:99-110 | events sorted by bar offset, resolved against a non-negative bar length, are sorted by frame |
| MetroEvents.Signum | workspace/metro/src.metro/metro/MetroEvent.java:68 | `(int) Math.signum`: -1, 0 or 1 with the sign of its argument |
| MetroEvents.Compare | workspace/metro/src.metro/metro/MetroEvent.java:64-78 | smaller bar offset first (-1 / 1); equal offsets between two MIDI events defer to the tie-break; any other tie is 0 |
| MetroEvents.CompareAntisymmetric | workspace/metro/src.metro/metro/MetroEvent.java:68-76 | swapping the arguments negates the result whenever the tie-break is antisymmetric |
| MetroEvents.InsertCorrect | metro/src/ats/metro/MetroEventBuffer.java:100-101 | one insertion step of the sort keeps the list a permutation and sorted by bar offset |
| MetroEvents.CompareNotTransitive | workspace/metro/src.metro/metro/MetroEvent.java:64-78 | a non-MIDI event ties with two MIDI events that the tie-break orders, and the sort then keeps the two MIDI events against the tie-break |
| MetroEvents.SortEventsCorrect | metro/src/ats/metro/MetroEventBuffer.java:100-101 | the sort is a permutation of the events, in ascending bar offset, for any tie-break |
| MetroEvents.StatusByte | metro/src/ats/metro/MetroEventBuffer.java:160 | the status byte's high nibble is the kind's, its low nibble the channel's |
| MetroEvents.Clamp | metro/src/ats/metro/MetroEventBuffer.java:152-153 | velocity saturates to [0,1] and is unchanged inside it |
| MetroEvents.VelocityByte | metro/src/ats/metro/MetroEventBuffer.java:162 | the velocity byte is in 0..127, 127 at full velocity, 0 below 1/127 |
| MetroEvents.NoteData | metro/src/ats/metro/MetroEventBuffer.java:156-164 | three bytes: status decodes to kind and channel, then the note's low eight bits, then the velocity byte |
| MetroEvents.NoteStatusRoundTrip | metro/src/ats/metro/MetroEventBuffer.java:197-203 | note-on and note-off statuses decode back to 0x90 / 0x80 and to the channel when it is below 16 |
| NoteInfo.NoteInfoMap.constructor | metro/src/ats/metro/MetroEventBuffer.java:280 | a new map is empty |
| NoteInfo.NoteInfoMap.Put | metro/src/ats/metro/MetroEventBuffer.java:281-283 | the key (port, channel, note) now maps to the delta, and nothing else changes |
| NoteInfo.NoteInfoMap.ContainsKey | metro/src/ats/metro/MetroEventBuffer.java:284-286 | true exactly when the key is stored |
| NoteInfo.NoteInfoMap.Get | metro/src/ats/metro/MetroEventBuffer.java:287-290 | the stored delta, or the zero delta when the key is absent |
| NoteInfo.NoteInfoMap.Clear | metro/src/ats/metro/MetroEventBuffer.java:291-293 | the map is empty afterwards |
| NoteInfo.ReplayLastWriteWins | metro/src/ats/metro/MetroEventBuffer.java:280-290 | after any series of puts a lookup sees the latest put for exactly that key, else what it had |
| NoteInfo.PutOtherKeyUnchanged | metro/src/ats/metro/MetroEventBuffer.java:258-267 | keys equal only when port, channel and note all agree: a put under a key differing in any one leaves the other alone |
| EventBuffers.HumanizeDelta | metro/src/ats/metro/MetroEventBuffer.java:183-193 | each delta is `draw * size`, within the range's extent on the side of its sign; a zero-size range gives `humanizeVelocity_min` |
| EventBuffers.Jitter | metro/src/ats/metro/MetroEventBuffer.java:185-190 | one draw scaled by the range size lies between 0 and the size; a zero size yields the default |
| EventBuffers.NoJitterByDefault | metro/src/ats/metro/MetroEventBuffer.java:30-35 | with every humanize setting at its default 0, the delta is zero whatever the draws |
| EventBuffers.EffectiveDuration | metro/src/ats/metro/MetroEventBuffer.java:174-175 | a negative duration becomes 0.0025, any other is kept |
| EventBuffers.EventBuffer.constructor | metro/src/ats/metro/MetroEventBuffer.java:30-58 | empty, unprepared, length 1, frame lengths -1, humanize settings 0, fresh empty note map |
| EventBuffers.EventBuffer.SetHumanizeOffset | metro/src/ats/metro/MetroEventBuffer.java:37-41 | stores min and max and the size max - min |
| EventBuffers.EventBuffer.SetHumanizeVelocity | metro/src/ats/metro/MetroEventBuffer.java:42-46 | stores min and max and the size max - min |
| EventBuffers.EventBuffer.GetLength | metro/src/ats/metro/MetroEventBuffer.java:59-61 | returns the length in bars |
| EventBuffers.EventBuffer.SetLength | metro/src/ats/metro/MetroEventBuffer.java:62-65 | sets the length in bars |
| EventBuffers.EventBuffer.GetActualLength | metro/src/ats/metro/MetroEventBuffer.java:66-73 | the maximum bar offset of the events, never below 0, and attained unless it is 0 |
| EventBuffers.EventBuffer.GetBarLengthInFrames | metro/src/ats/metro/MetroEventBuffer.java:88-92 | answers iff prepared, then with the stored bar length |
| EventBuffers.EventBuffer.GetLengthInFrames | metro/src/ats/metro/MetroEventBuffer.java:93-97 | answers iff prepared, then with the buffer length in frames |
| EventBuffers.EventBuffer.Prepare | metro/src/ats/metro/MetroEventBuffer.java:99-104 | events sorted only when asked, then resolved; with sorting the list is a permutation, sorted by bar offset, and sorted by frame for a non-negative bar |
| EventBuffers.EventBuffer.CalcInFrames | metro/src/ats/metro/MetroEventBuffer.java:106-118 | every event resolved in place, bar length stored, length in frames `trunc(length * bar)`, prepared set |
| EventBuffers.EventBuffer.Size | metro/src/ats/metro/MetroEventBuffer.java:125-127 | the number of events |
| EventBuffers.EventBuffer.AddEvent | metro/src/ats/metro/MetroEventBuffer.java:129-132 | appends the event at the tail, earlier events untouched |
| EventBuffers.EventBuffer.MidiEvent | metro/src/ats/metro/MetroEventBuffer.java:134-140 | appends one MIDI event with the given offset, port and bytes |
| EventBuffers.EventBuffer.Exec | metro/src/ats/metro/MetroEventBuffer.java:205-209 | appends one procedure event at the offset |
| EventBuffers.EventBuffer.Note | metro/src/ats/metro/MetroEventBuffer.java:142-168 | appends one MIDI event at the unchecked offset carrying the encoded three bytes |
| EventBuffers.EventBuffer.NoteOn | metro/src/ats/metro/MetroEventBuffer.java:182-198 | stores the drawn delta under (port, channel, note) and appends a note-on shifted by it |
| EventBuffers.EventBuffer.NoteOff | metro/src/ats/metro/MetroEventBuffer.java:200-204 | appends a note-off shifted by the delta stored for the same key, or by zero |
| EventBuffers.EventBuffer.NoteHit | metro/src/ats/metro/MetroEventBuffer.java:173-179 | appends a note-on and, one effective duration later, a note-off, both shifted by the same delta |
| EventBuffers.EventBuffer.NoteHitDefault | metro/src/ats/metro/MetroEventBuffer.java:170-172 | the note-off lands 0.0025 after the note-on |
| Dispatch.ScanSound | pulsar/src/ats/metro/MetroNoteEventBufferSequence.java:150-180 | every event the scan fires is inside [actualCursor, actualNextCursor), at relative offset `inFrames - actualCursor` in [0, nframes) |
| Dispatch.EarlyExit | pulsar/src/ats/metro/MetroNoteEventBufferSequence.java:177-179 | after a match, no event beyond the first later miss is inspected |
| Dispatch.WindowSortedComplete | pulsar/src/ats/metro/MetroNoteEventBufferSequence.java:137-217 | on a queue of frame-sorted buffers the callback fires exactly the due events: each buffer's in-window events, its window shifted by the lengths of the buffers before it |
| Dispatch.WindowFiresEveryDue | pulsar/src/ats/metro/MetroNoteEventBufferSequence.java:137-217 | on a sorted queue, every event of buffer k whose frame lies in the callback window shifted by the lengths of the buffers before k is fired, at its offset from the callback's first frame |
| Dispatch.ScanSortedComplete | pulsar/src/ats/metro/MetroNoteEventBufferSequence.java:150-180 | on a buffer sorted by frame the early exit misses nothing: the scan fires every event in the window, in order |
| Dispatch.WindowWithinCallback | pulsar/src/ats/metro/MetroNoteEventBufferSequence.java:142-217 | with buffer k's window shifted by the lengths of buffers 0..k-1, every fired event is in [0, nframes) of the callback |
| Dispatch.DispatchedWithinCallback | pulsar/src/ats/metro/MetroNoteEventBufferSequence.java:159-166 | every emitted MIDI message's offset lies in [0, nframes) |
| Dispatch.RetiredExactly | pulsar/src/ats/metro/MetroNoteEventBufferSequence.java:221-234 | each retired buffer was shorter than the cursor as it then stood, and the first buffer kept was not |
| Sequences.OffsetFrames | pulsar/src/ats/metro/MetroNoteEventBufferSequence.java:244 | `trunc(-syncOffset * barInFrames)`: 0 for no offset, never positive for a forward offset |
| Sequences.SyncStart | pulsar/src/ats/metro/MetroNoteEventBufferSequence.java:246-281 | IMMEDIATE, or no target: the offset; PARALLEL: target cursor + offset; SERIAL: target cursor - front length + offset, failing on an empty or unprepared front |
| Sequences.SerialTrailsParallel | pulsar/src/ats/metro/MetroNoteEventBufferSequence.java:261-276 | a serial follower starts one front-buffer length before a parallel one |
| Sequences.FireBuffer | pulsar/src/ats/metro/MetroNoteEventBufferSequence.java:150-181 | the nested loop with its `found` flag computes exactly the scan, its inspection count, and its MIDI messages |
| Sequences.FireQueue | pulsar/src/ats/metro/MetroNoteEventBufferSequence.java:142-217 | the walk over the queue computes exactly the window specification, per-buffer counts and messages |
| Sequences.RetireQueue | pulsar/src/ats/metro/MetroNoteEventBufferSequence.java:221-234 | pops exactly the retired prefix, FIFO order kept, taking its total length off both cursors |
| Sequences.PrepareSorted | pulsar/src/ats/metro/MetroNoteEventBufferSequence.java:287 | one queued buffer prepared with sorting: sorted, resolved, lengths stored |
| Sequences.NoteEventBufferSequence.constructor | pulsar/src/ats/metro/MetroNoteEventBufferSequence.java:57-68 | name, generator, sync type, target and offset stored; empty queue, cursor 0 |
| Sequences.NoteEventBufferSequence.Spawn | pulsar/src/ats/metro/MetroNoteEventBufferSequence.java:40-48 | a fresh track synced to this one with this one's sync type and the given offset |
| Sequences.NoteEventBufferSequence.ProgressCursor | pulsar/src/ats/metro/MetroNoteEventBufferSequence.java:130-241 | emits exactly the window's MIDI messages; retires exactly the passed buffers; new cursor = old + nframes - their total length; queue stays valid; with non-negative bar lengths, fires every due event of every queued buffer |
| Sequences.NoteEventBufferSequence.Prepare | pulsar/src/ats/metro/MetroNoteEventBufferSequence.java:243-283 | the cursor becomes the sync policy's start; on the serial failure paths it is left alone |
| Sequences.ReprepareQueue | pulsar/src/ats/metro/MetroNoteEventBufferSequence.java:285-289 | the loop over the queue: every buffer prepared again with sorting, only its resolved fields changed, the queue invariant kept |
| Sequences.NoteEventBufferSequence.Reprepare | pulsar/src/ats/metro/MetroNoteEventBufferSequence.java:285-289 | every queued buffer sorted and resolved again against the new bar, queue still valid; only the resolved fields change, so each buffer keeps its length in bars and humanize settings |
| Sequences.NoteEventBufferSequence.CheckBuffer | pulsar/src/ats/metro/MetroNoteEventBufferSequence.java:291-295 | with two buffers queued nothing happens and the buffer keeps its list, lengths and prepared flag; otherwise the new buffer is offered |
| Sequences.NoteEventBufferSequence.OfferNewBuffer | pulsar/src/ats/metro/MetroNoteEventBufferSequence.java:310-321 | the buffer is prepared either way: sorted and resolved, bar length set, length in frames `(int)(length * bar)`, frame-sorted; appended at the tail iff the generator returned true, else the track is unregistered and the queue unchanged |
| Sequences.NoteEventBufferSequence.ClearBuffer | pulsar/src/ats/metro/MetroNoteEventBufferSequence.java:297-302 | empty queue, cursor 0 |
| UndoGroups.FlattenExtendLast | pulsar/src/ats/pulsar/editor/lib/CompoundGroupedUndoManager.java:96 | adding an edit to the current group appends it to the applied edits |
| UndoGroups.UndoStep | pulsar/src/ats/pulsar/editor/lib/CompoundGroupedUndoManager.java:63 | the newest applied group moves to the redo side; throws iff nothing to undo |
| UndoGroups.RedoStep | pulsar/src/ats/pulsar/editor/lib/CompoundGroupedUndoManager.java:52 | the most recently undone group is applied again; throws iff nothing to redo |
| UndoGroups.UndoDropsNewestGroup | pulsar/src/ats/pulsar/editor/lib/CompoundGroupedUndoManager.java:59-68 | one undo takes back a whole group: the edits still applied are the old ones minus the newest group's, as a suffix |
| UndoGroups.UndoRedoRoundTrip | pulsar/src/ats/pulsar/editor/lib/CompoundGroupedUndoManager.java:48-68 | redo restores exactly what undo took back, and the other way round |
| UndoGroups.CompoundGroupedUndoManager.constructor | pulsar/src/ats/pulsar/editor/lib/CompoundGroupedUndoManager.java:12-14 | a new group is requested, so the first edit opens one |
| UndoGroups.CompoundGroupedUndoManager.SetSuspended | pulsar/src/ats/pulsar/editor/lib/CompoundGroupedUndoManager.java:15-25 | stores the flag |
| UndoGroups.CompoundGroupedUndoManager.IsSuspended | pulsar/src/ats/pulsar/editor/lib/CompoundGroupedUndoManager.java:26-28 | returns the flag |
| UndoGroups.CompoundGroupedUndoManager.StartGroup | pulsar/src/ats/pulsar/editor/lib/CompoundGroupedUndoManager.java:34-46 | requests a new group unless suspended; while suspended nothing changes |
| UndoGroups.CompoundGroupedUndoManager.AddEdit | pulsar/src/ats/pulsar/editor/lib/CompoundGroupedUndoManager.java:70-97 | opens a new group iff one was requested or none exists, else extends the current one; the edit is appended to the applied edits; request cleared; accepted |
| UndoGroups.CompoundGroupedUndoManager.Undo | pulsar/src/ats/pulsar/editor/lib/CompoundGroupedUndoManager.java:58-68 | one undo step or the failure; either way unsuspended with a new group requested |
| UndoGroups.CompoundGroupedUndoManager.Redo | pulsar/src/ats/pulsar/editor/lib/CompoundGroupedUndoManager.java:48-57 | one redo step or the failure; either way unsuspended with a new group requested |
| Scenarios.SortedPrepareExample | metro/src/ats/metro/MetroEventBuffer.java:99-104 | offsets 0.8, 0.1, 0.5 of a 48000-frame bar come out at frames 4800, 24000, 38400 |
| Scenarios.WindowedDispatchExample | pulsar/src/ats/metro/MetroNoteEventBufferSequence.java:142-166 | a note at frame 24000 fires 200 frames into the callback at 23800 and not in the next one |
| Scenarios.SyncFormulaExample | pulsar/src/ats/metro/MetroNoteEventBufferSequence.java:255-276 | target cursor 1000 with a 48000-frame front buffer: serial start -47000, parallel start 1000 |

## Left out

- JACK binding: `Metro.calcBarInFrames` and `metro.clearAllPorts` are not modelled. `barInFrames` and `nframes` are parameters.
- Locking: `synchronized` blocks and the `LinkedBlockingQueue` are left out. The queue is a sequence, and each operation runs as one step.
- Collaborator calls:
  - `metro.notifyCheckBuffer` appears as the ghost count `retired` of `ProgressCursor`.
  - `registerSequence` is left to the caller of `Spawn`.
  - The constructor's `logic.setLogicHandle(handle)` is not modelled. The generator is only stored, by identity, in `logic`.
  - `unregisterSequence` is the `Unregistered` outcome.
  - `MetroSchemeProcedureEvent.execute` is not run; a procedure event is only reached.
  - Logging of unknown event classes is not modelled.
- Sequences.NoteEventBufferSequence.CheckBuffer: the generator (`MetroLogic.processOutputNoteBuffer`) is not modelled. Its filled buffer and boolean answer are parameters, so the model does not capture that the generator runs only when a slot is free.
- Sequences.NoteEventBufferSequence.Reprepare: `MetroNoteEventBuffer` and its three-argument `prepare` are not part of this model. Queued buffers are `MetroEventBuffer`s prepared with sorting.
- Event classes: the relation between `MetroNoteEvent`, `MetroMidiEvent`, `MetroMessageEvent` and `MetroSchemeProcedureEvent` is not part of this model.
  - A MIDI payload stands for a note or MIDI event.
  - `Exec` makes a procedure payload.
  - Any other kind is `Other`.
- MetroEvents.Resolved: `MetroEvent.calcInFrames` is not part of this model. It is taken as `trunc(barOffset * barLengthInFrames)`, the same cast as the buffer length.
- MetroEvents.Compare: `MetroMidiEvent.compare` is not part of this model. It is an arbitrary function parameter.
- Sorting: `List.sort` is specified by an insertion sort. Its ensures do not state the stability of the library sort.
- Randomness: `Math.random` draws are parameters. The random sequence `id` is not modelled.
- Numbers:
  - `double` is `real`; NaN, infinities and rounding error are ignored.
  - The `(int)` and `(byte)` casts truncate, but their saturation for doubles beyond the `int` range is not modelled.
  - 32-bit overflow of `cursor` arithmetic is not modelled; integers are unbounded.
- Arrays: event byte arrays are values, so aliasing of the `data` array is not modelled.
- Shared events: events are values, while the source's events are mutable objects that `calcInFrames` resolves in place. An event object added to two buffers is re-timed by each buffer's `prepare`, so the later prepare wins for both; the model gives each buffer its own copy.
- Diagnostics: `dump`, `dumpProc`, logging and `DEBUG` output are left out.
- Deprecated members: the no-op deprecated members of `MetroEventBuffer` (`setOffset`, `getOffset`, the `int`-velocity note methods) are left out.
- Simple getters: `getLogic` and `getName` are not modelled; `name.intern()` is identity here.
- Swing undo machinery:
  - `UndoManager`'s edit limit and trimming, and edit significance, are not modelled.
  - `CompoundEdit`'s merging of child edits (`addEdit`/`replaceEdit`), its `end()` flag and the `isInProgress` override are not modelled.
  - `undoableEditHappened` and `editToBeUndone` logging are left out.
- UndoGroups.CompoundGroupedUndoManager.Undo: an exception thrown by an individual edit's own undo is not modelled. Failure means only that nothing is left to undo. The same holds for Redo.
- Context files: `PulsarMidiNoteListParsers`, `SchemeExecutor`, `KawapadEvaluator`, `PulsarApplicationLibrary`, `Invocable` and `ArgumentParser` are not part of this model.
