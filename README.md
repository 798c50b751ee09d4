# Soundboard control loop, modelled in Dafny

This project models the core of a Launchpad soundboard: the `Soundboard`
state machine of `audio_main.py`, which reads raw MIDI button events,
classifies each against the persisted document `controls.json`, drives
eight mixer channels and writes LED colours back to the pad; and the two
document operations of the web application in `app.py` (listing
unassigned audio files and committing the pending assignment).

The document is the datatype `Document.Doc` with the program's own key
names: `keys` (control name to `[eventData, colourName]`), `audios` (file
name to `eventData`, or `false`), `channel_rack` (a list of `eventData`) and
`needs_to_be_assigned` (`false` or an `eventData`). JSON objects are
ordered sequences of pairs (`OrderedMap.OMap`). An event is a `seq<int>` of at least three
numbers: status, note, velocity. Every lookup compares the whole event
list and takes the first match, as `list.index` does.

The LED output is an append-only log of `(status, key, value)` writes
(`Devices.Output`). The mixer is a class with `current_channel` and a log of
`(channel, op)` calls (`Devices.Mixer`). The file is a `Document.Store`
object shared by the soundboard and the web application.

The module `SoundboardSpec` defines one tick as pure functions. `Dispatch`
handles one event and `RunBatch` handles one call of `loop`. The class
`AudioMain.Soundboard` holds the source's fields and imperative
methods. Each method is proved to produce exactly the state that these
functions give (`State()`). The lemmas in `SoundboardLemmas`, `Colors`, `App`
and `Workflow` state what the program does in terms of those functions.

The model keeps the program's quirks as written:
- `play_key` is tested by its own `if`. After unpausing, it falls through
  to the audio, rack and assignment branch.
- The channel guard is `selected_channel - 1 == channel` (0-based against
  1-based). When it holds, `break` drops the rest of the batch, and
  re-selecting the current channel is not prevented.
- `unassigned` is not re-synchronised after a commit from the web
  application. The next press of the newly assigned button cancels instead
  of playing (`Workflow.CommitThenPressCancels`). One would expect a
  commit to return the loop to idle; the code never re-reads the pending
  value into `unassigned`, and the model follows the code.
- `update_unassigned_audio` has no guard. With nothing pending it stores
  `false` as the file's value. A later repaint of the audio buttons then
  raises `TypeError` (`False[1]`). That ends the process, and the model
  returns it as the flow `Crash`.
- `if audio_name:` treats an audio file named `""` as not found, so its
  button can be assigned to a second file
  (`Workflow.EmptyNameDuplicatesAssignment`).

## Model

| member | source | states |
|---|---|---|
| OrderedMap.FirstIndex | audio_main.py:157 | `list.index`: the result is the first position holding the value, and there is none exactly when no position holds it |
| OrderedMap.Put | app.py:42 | `d[k] = v`: afterwards `k` maps to `v` and every other key maps to what it did; an existing key keeps its place, a new one is appended; keys stay unique |
| OrderedMap.Lookup | app.py:42 | `d[k]`: nothing exactly when `k` is not a key, otherwise a value stored under `k` |
| Palette.ColorCode | audio_main.py:20-27 | the colour table is defined exactly on the six palette names, and every code is one of the six device codes |
| Resolver.FindControlByData | audio_main.py:138-144 | the name of the first control whose stored event equals the data, and not-found exactly when none does |
| Resolver.FindAudioByData | audio_main.py:147-152 | the name of the first audio entry whose stored value equals the data, and not-found exactly when none does |
| Resolver.FindChannelByData | audio_main.py:155-160 | the 1-based index (1 .. number of rack entries) of the first equal rack entry, and not-found exactly when the data is not in the rack |
| Devices.Mixer.constructor | audio_main.py:49-57 | a new mixer selects channel 0 and has sent no calls |
| Devices.Mixer.Pause | audio_main.py:60-61 | one pause call is sent to the current channel |
| Devices.Mixer.Unpause | audio_main.py:64-65 | one unpause call is sent to the current channel |
| Devices.Mixer.Stop | audio_main.py:68-69 | one stop call is sent to the current channel |
| Devices.Mixer.Fadeout | audio_main.py:72-73 | one fade-out call with the given duration is sent to the current channel |
| Devices.Mixer.Play | audio_main.py:77-81 | nothing is sent when the device is not for testing and the call is a test; otherwise one play call is sent to the current channel |
| Colors.ColorWrites | audio_main.py:163-166 | `set_color` makes one write when the colour is in the palette and none otherwise; a write carries the given status and key and the colour's code |
| Colors.ColorWritesInPalette | audio_main.py:163-166 | a palette colour gives exactly one write, with that colour's code |
| Colors.AllOffWrites | audio_main.py:169-176 | the writes of `turn_all_off`: the rack loop, then the 128 grid notes |
| Colors.RackColorWrites | audio_main.py:113-120 | the writes of `update_channel_rack_colors(a)`: one `set_color` per rack entry on its own status, light green at index a, light red elsewhere |
| Colors.KeyColorWrites | audio_main.py:132-135 | the writes of `update_colors()`: one `set_color` per control, in `keys` order, with the control's note and colour |
| Colors.AudioPaint | audio_main.py:128-131 | the writes of `update_colors(only_assigned_audios_as=c)`: one `set_color` per audio entry, in order, stopping with a raise at an entry holding `false` |
| Colors.UpdateColorsWrites | audio_main.py:124-135 | `update_colors`: a truthy colour paints the audio buttons, a missing or empty one paints the controls |
| Colors.AudioPaintAt | audio_main.py:128-131 | with no `false` entry, the paint has one write per entry and the write at position i is entry i's note in the colour |
| Colors.RackOffWritesAt | audio_main.py:172-173 | the first loop of `turn_all_off` writes `(entry[0], entry[1], 0)` for each rack entry, in rack order |
| Colors.AllOffWritesShape | audio_main.py:169-176 | `turn_all_off` makes exactly (rack entries + 128) writes, all with value 0: the rack entries in order, then `(144, i, 0)` for i = 0 .. 127 |
| Colors.RackColorWritesAt | audio_main.py:113-120 | `update_channel_rack_colors(a)` writes once per rack entry, in order, with 56 exactly at index a and 1 at every other index |
| Colors.KeyColorWritesBounded | audio_main.py:132-135 | painting the controls makes at most one write per control, each on status 144 with a palette code |
| Colors.PaletteOnly | audio_main.py:164-165 | the controls `set_color` does not skip: exactly the controls whose colour is in the palette, none longer than `keys` |
| Colors.PaletteOnlyAppend | audio_main.py:132-135 | keeping the palette controls of a concatenation keeps them part by part, so the filter keeps `keys` order |
| Colors.KeyColorWritesSkipsStale | audio_main.py:132-135 | for any controls, painting them writes once per control with a palette colour, in `keys` order, that control's note and colour code; controls with other colours write nothing |
| Colors.KeyColorWritesAt | audio_main.py:132-135 | when every control colour is in the palette, painting the controls writes once per control, in order, the control's note and colour code |
| Colors.AudioPaintShape | audio_main.py:128-131 | painting the audio buttons writes each entry's note in the given colour, in order, up to the first entry holding `false`; it completes exactly when no entry holds `false` |
| Colors.AudioPaintStopsAtFalse | audio_main.py:129-131 | once painting a prefix of the audio entries has raised, the whole paint is that prefix's: later entries add nothing |
| SoundboardSpec.PlayAudio | audio_main.py:77-81 | `Mixer.play`: no call when the device is not for testing and the call is a test, otherwise one play call on the current channel |
| SoundboardSpec.SetAsNeedsToBeAssigned | audio_main.py:181-190 | the pending value is stored first; for an event, all off, audios red and the event's note green, ending at a raise |
| SoundboardSpec.Reload | audio_main.py:101-105 | the interface reload of `init` and of a cancel: all off, controls, audios orange, pending cleared, rack highlight, ending at a raise |
| SoundboardSpec.SwitchChannel | audio_main.py:248-249 | a channel switch: rack repainted for the new index, then both soundboard and mixer select it |
| SoundboardSpec.FallThrough | audio_main.py:216-255 | the `else` branch: an audio hit cancels an assignment or plays; otherwise, for non-zero velocity, a rack hit breaks or switches channel and any other event starts an assignment |
| SoundboardSpec.Dispatch | audio_main.py:200-255 | one event: the play key unpauses and falls through; toggle, pause, stop and fade-out act and end the event; anything else goes to the `else` branch |
| SoundboardSpec.RunBatch | audio_main.py:193-255 | one `loop` call: the events in order, stopping at the first `break` or raise |
| AudioMain.Soundboard.constructor | audio_main.py:88-94 | a new soundboard is not assigning, has channel 0 selected, test mode off, and empty logs |
| AudioMain.Soundboard.UpdateSelectedChannel | audio_main.py:108-110 | the soundboard and the mixer both select the new channel |
| AudioMain.Soundboard.SetColor | audio_main.py:163-166 | appends exactly the writes of `Colors.ColorWrites` |
| AudioMain.Soundboard.TurnAllOff | audio_main.py:169-176 | the two loops append exactly the all-off writes of the current rack |
| AudioMain.Soundboard.UpdateChannelRackColors | audio_main.py:113-120 | the loop appends exactly the rack highlight writes for the given active index |
| AudioMain.Soundboard.UpdateColors | audio_main.py:124-135 | a non-empty colour paints the audio buttons, otherwise the controls are painted; it reports the raise of a `false` audio entry |
| AudioMain.Soundboard.SetAsNeedsToBeAssigned | audio_main.py:181-190 | stores the pending value; for an event, repaints all-off, audios red, the event's note green, stopping at a raise |
| AudioMain.Soundboard.ReloadInterface | audio_main.py:226-231 | the interface reload: all off, controls, audios orange, pending cleared, rack with the given channel highlighted |
| AudioMain.Soundboard.Init | audio_main.py:97-105 | `init` performs the interface reload with channel 0 highlighted and keeps the soundboard invariant |
| AudioMain.Soundboard.HandleEvent | audio_main.py:200-216 | one event goes through the control dispatch exactly as `SoundboardSpec.Dispatch` gives, keeping the soundboard invariant |
| AudioMain.Soundboard.HandleUnmatchedControl | audio_main.py:216-255 | the `else` branch: audio, then rack (non-zero velocity only), then a new assignment, exactly as `SoundboardSpec.FallThrough` gives and keeping the soundboard invariant |
| AudioMain.Soundboard.HandleRackOrNewAssignment | audio_main.py:236-255 | a non-zero-velocity press that is no control and no audio: a rack hit breaks or switches channel, anything else starts an assignment, exactly as `SoundboardSpec.FallThrough` gives and keeping the soundboard invariant |
| AudioMain.Soundboard.Loop | audio_main.py:193-255 | the batch (at most 10 events) is handled in order until a `break` or a raise, exactly as `RunBatch` gives, keeping the soundboard invariant |
| SoundboardLemmas.SetAsNeedsToBeAssignedExtends | audio_main.py:181-190 | setting the pending value changes only that value and appends writes |
| SoundboardLemmas.ReloadExtends | audio_main.py:226-231 | the reload changes no table and no soundboard field; the pending value stays or becomes `false` |
| SoundboardLemmas.ReloadShape | audio_main.py:101-105 | when no audio entry is `false`, the reload finishes, clears the pending value and changes nothing else in the document, and makes one write per rack entry, grid note, painted control, audio entry and rack entry |
| SoundboardLemmas.ReloadPaintsAudiosOrange | audio_main.py:103 | in the reload, after the all-off and control writes, each assigned audio's note is written orange (31), in order |
| SoundboardLemmas.ReloadHighlightsRack | audio_main.py:105 | the reload ends with one write per rack entry, 56 at the active index and 1 elsewhere |
| SoundboardLemmas.FallThroughExtends | audio_main.py:216-255 | the `else` branch changes no table and only appends to the logs |
| SoundboardLemmas.FallThroughFields | audio_main.py:216-255 | only a press with non-zero velocity can move the channel, break the batch, set `unassigned` or store a new pending event |
| SoundboardLemmas.FallThroughPreservesInv | audio_main.py:216-255 | the `else` branch keeps selected and mixer channel equal and within 0 .. 7 |
| SoundboardLemmas.DispatchExtends | audio_main.py:200-255 | an event changes no table, only appends to the logs, and sends every mixer call to the channel that is current |
| SoundboardLemmas.DispatchPreservesInv | audio_main.py:200-255 | selected channel and mixer channel stay equal and within 0 .. 7 |
| SoundboardLemmas.TransportControls | audio_main.py:210-215 | pause, stop and fade-out (500 ms) send one call to the current channel and change nothing else |
| SoundboardLemmas.ToggleTestMode | audio_main.py:207-209 | the test-mode key flips the flag and paints its note green (60) when now on, red (3) when now off, and nothing else |
| SoundboardLemmas.TestingModeOnlyByToggle | audio_main.py:207-209 | no other event changes the test mode |
| SoundboardLemmas.ControlsIgnoreAudiosAndRack | audio_main.py:205-216 | for toggle, pause, stop and fade-out the result does not depend on the audio table or the rack |
| SoundboardLemmas.PlayKeyFallsThrough | audio_main.py:205-216 | the play key unpauses and then behaves as an event with no control; any other non-exclusive name behaves as no control |
| SoundboardLemmas.AudioHitWinsOverRack | audio_main.py:218-235 | an audio match never breaks or changes the channel; outside an assignment it plays the file on the current channel with `test_only` = test mode |
| SoundboardLemmas.AssignedAudioCancels | audio_main.py:220-232 | during an assignment an audio press plays nothing and changes no table; unless the repaint raises, the pending value becomes `false` and `unassigned` false |
| SoundboardLemmas.FallThroughKeepsUnassigned | audio_main.py:216-255 | outside an audio press, the `else` branch never clears `unassigned` |
| SoundboardLemmas.UnassignedClearedOnlyByCancel | audio_main.py:223-232 | `unassigned` goes from true to false only on an audio press that is no exclusive control, and the only mixer call it can add is the play key's unpause |
| SoundboardLemmas.ChannelSwitch | audio_main.py:236-249 | a rack press breaks the batch unchanged when `selected_channel - 1` equals the 1-based index; otherwise selects index - 1 on both and repaints the rack |
| SoundboardLemmas.UnclassifiedStartsAssignment | audio_main.py:250-255 | an unknown press with non-zero velocity stores exactly that event as pending, sets `unassigned`, changes no table, and writes all-off, each audio red (3), then its note green (60) |
| SoundboardLemmas.ZeroVelocityEvent | audio_main.py:236 | a zero-velocity event never changes the channel, never breaks, never starts an assignment |
| SoundboardLemmas.RunBatchKeepsTables | audio_main.py:193-255 | a whole `loop` call changes no control, audio or rack entry |
| SoundboardLemmas.RunBatchPreservesInv | audio_main.py:193-255 | a whole `loop` call keeps the soundboard invariant |
| SoundboardLemmas.RunBatchCommandsInRange | audio_main.py:57-81 | over a batch both logs only grow and every mixer call addresses one of the eight channels |
| SoundboardLemmas.ZeroVelocityBatch | audio_main.py:236-255 | a batch of zero-velocity events never changes the channel or starts an assignment |
| SoundboardLemmas.RunBatchAppend | audio_main.py:243-244 | events after a `break` or a raise are dropped; otherwise a batch is its parts in sequence |
| App.UnassignedAudios | app.py:33-37 | exactly the available files not assigned, with their multiplicity, never more than the available list |
| App.UnassignedAudiosAppend | app.py:37 | the filter keeps the order of the available list |
| App.Committed | app.py:40-44 | the previous pending value is stored under the file, overwriting in place; pending becomes `false`; keys, rack and all other audio entries unchanged |
| App.CommittedNewFileAppends | app.py:42 | committing under a file with no entry yet appends `(file, pending value)` at the end of `audios` |
| App.UpdateUnassignedAudio | app.py:40-44 | the commit replaces the stored document by `Committed` of it |
| App.CommittedNotOffered | app.py:37-42 | after the commit the file is no longer listed as unassigned, and no other file changes status |
| Workflow.CommittedAudioFound | app.py:42 | after a commit of a new event, looking the event up finds the committed file |
| Workflow.CommitThenPressCancels | audio_main.py:220-232 | after an external commit, `unassigned` is still true and pressing the new button plays nothing |
| Workflow.FallThroughPendingUnheld | audio_main.py:216-255 | the `else` branch keeps the pending value, clears it, or stores an event that `if audio_name:` found no file for |
| Workflow.DispatchKeepsAssignmentsDistinct | audio_main.py:200-255 | with no audio named `""`, one event keeps every stored event list on at most one file and the pending event on none |
| Workflow.RunBatchKeepsAssignmentsDistinct | audio_main.py:193-255 | with no audio named `""`, a whole `loop` call keeps every stored event list on at most one file and the pending event on none |
| Workflow.CommittedKeepsAssignmentsDistinct | app.py:40-44 | committing the pending value keeps every stored event list on at most one file |
| Workflow.CommitHeldEventDuplicates | app.py:42 | committing, under a new file, a pending event that a file already holds leaves two files on one event list |
| Workflow.UnheldPressIsPending | audio_main.py:218-255 | a press that `if audio_name:` rejects (no matching file, or the first one named `""`), with non-zero velocity and no control or rack entry, becomes pending |
| Workflow.EmptyNameCommitted | app.py:40-44 | an event committed under `""` with no file assigned is held by that file alone, and looking it up finds `""` |
| Workflow.EmptyNameDuplicatesAssignment | audio_main.py:218-255 | from distinct assignments, commit under `""`, one press and a commit under "x.wav" leave two files on the same event list |
| Workflow.OtherVelocityCommitted | app.py:42 | committing a different pending event under a new file appends it and keeps the stored event lists distinct |
| Workflow.OtherVelocitySecondFile | audio_main.py:149 | a press of an assigned button at another velocity is no audio hit, becomes pending, and its commit puts a second file on the same status and note while the event lists stay distinct |
| Workflow.ScenarioStop | audio_main.py:212-213 | with only a stop control, its press sends one stop to channel 0 and changes nothing else |
| Workflow.ScenarioBeginAssignment | audio_main.py:250-255 | an unknown press is stored as pending, with 8 + 128 off writes and then its note green |
| Workflow.ScenarioCommit | app.py:40-44 | committing "kick.wav" stores the pending event under it and clears the pending value |
| Workflow.ScenarioPressAfterCommit | audio_main.py:220-232 | the next press of the new button cancels instead of playing |

## Left out

- MIDI and audio device set-up, `Sound` loading from `./audio/`, real playback and fade timing are not modelled. They are foreign library calls; the devices are logs of the calls made to them.
- Devices.Mixer.Play: a missing audio file would make `mixer.Sound` raise; the model records the call and does not model that failure.
- JSON encoding and the file I/O of `read_prev_data` and `save_data` are not modelled. The document is an in-memory value re-read at each use, and no serialisation round-trip is claimed.
- The document is taken as well formed: object keys are unique, stored events have at least three numbers, and the rack has at most 8 entries (one per mixer channel). JSON loading already makes keys unique, keeping the last duplicate. A longer rack lets the selection reach index 8 or more, and the next mixer call then raises `IndexError`. Only stored events shorter than two numbers make a repaint raise. The model covers none of these documents.
- Flask routes, templates, form input and `os.listdir` are not modelled. The list of available files is a parameter of `App.UnassignedAudios`.
- The `__main__` polling loop with its sleep, `KeyboardInterrupt` handling and `close()` is not modelled. `Loop` is one call over the batch of at most 10 events that `poll`/`read` returned.
- Concurrency between the web application and the loop is not modelled. The commit is a separate method called between ticks.
- `print` logging is not modelled.
- Workflow.RunBatchKeepsAssignmentsDistinct: holds only when no audio file is named `""`. `if audio_name:` skips such a file, so its button can start a new assignment and be committed to a second file (`Workflow.EmptyNameDuplicatesAssignment`). The web application accepts any form value as the file name, so the model does not rule this out. Distinct event lists are also not distinct buttons: the lists include the velocity, so the same button pressed at another velocity is a new event that can be committed to a second file (`Workflow.OtherVelocitySecondFile`).
- The event timestamp is carried in `Devices.MidiEvent` but is unused, as in the program.
