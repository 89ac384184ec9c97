# midieditor: a verified model of the track editor

midieditor is a command-line tool. It reads a Standard MIDI File, optionally prints a summary of each track, and edits tracks in place:

- renames a track;
- sets a track's channel;
- inserts a program change at the start of a track;
- sets every note of a track to one note number;
- scales the NOTE_ON velocities of a track.

It then writes the file back, either to the input path or to the `-o` path.

This project models the editing core of `midieditor.cpp` in Dafny:

- A document is a sequence of tracks, a track a sequence of events, and an event a sequence of bytes (`bv8`).
- The loaded file is the class `MidiDocument.MidiFile`, and the five edits are its methods. Four of them (track_name, note_set, volume_change, channel) run the same `for j` loop as the C++ over the track, changing bytes in place, or removing and re-adding an event at `j`. program_change has no loop: it adds one event at index 0. Each method is proved to leave the tracks equal to a specification function of the old tracks, and to change nothing when an argument is rejected.

Modules:

| module | file | contents |
|---|---|---|
| `Wrappers` | wrappers.dfy | `Option`, used for "the call returned false" |
| `MidiEvents` | midi_events.dfy | the status-byte constants of `midieditor.hpp`, event classification, well-formedness, the two events the editor builds, and track remove/insert |
| `TrackEdits` | track_edits.dfy | what each edit does to a track (spec functions and their lemmas), and the same edits on a document with the range checks |
| `TrackInspector` | track_inspector.dfy | the per-track summary of `print_info`: its loop, the spec of each field, and how each edit changes the summary |
| `MidiDocument` | midi_file.dfy | the `MidiFile` class with the five in-place edits and the info scan |
| `Options` | options.dfy | `split` and the three option readers |
| `Editor` | editor.dfy | `main` once the file is read: help, info, then the edits in their fixed order with an abort on the first failure, then the write |

Behaviour of the code worth knowing, all proved here:

- **channel ORs the channel into the status byte.** The new status byte is `b0 | (channel_no - 1)`, so a channel can gain bits but never lose them. Status 0x9F stays 0x9F for channel 1. See `TrackEdits.ChannelOnlyGainsBits` and `TrackEdits.ChannelCannotBeLowered`.
- **The printed name concatenates every name event's payload.** It does not just keep the last one. After a rename, the printed name is the new name repeated once per name event.
- **The printed program is the last program change.** So a program change inserted at the front of a track shows only when the track had none.
- **Edits run in a fixed order:** name, channel, program change, note, volume. Channel runs before program change, so the program change that `-p` inserts keeps channel 0 even when `-c` names the same track.

## Model

| member | source | states |
|---|---|---|
| MidiEvents.MessageType | midieditor.hpp:35-36 | the message type is the status byte's high nibble: its low nibble is zero |
| MidiEvents.ChannelOf | midieditor.cpp:223-226 | the channel is the low nibble, below 16, and the type OR-ed with the channel gives back the status byte |
| MidiEvents.MetaIsSysEx | midieditor.cpp:223 | every meta event (status 0xFF) also passes the 0xF0 "system exclusive" test, so meta events never carry a channel |
| MidiEvents.NameEvent | midieditor.cpp:271-278 | the event built is a well-formed name event `0xFF 0x03 len name…` of length \|name\|+3; the length byte is \|name\| when the name is shorter than 256 |
| MidiEvents.ProgramChangeEvent | midieditor.cpp:304 | the event built is exactly two bytes: a well-formed program change on channel 0, not a meta event, with the program in byte 1 |
| MidiEvents.Removed | midieditor.cpp:269 | removing event j shortens the track by one and shifts the later events down |
| MidiEvents.Inserted | midieditor.cpp:279 | adding at j lengthens the track by one, puts the event at j and shifts the later events up |
| MidiEvents.RemoveThenAdd | midieditor.cpp:268-279 | removing event j and adding a new event at j replaces event j and leaves every other event in place |
| TrackEdits.RenamedProperties | midieditor.cpp:260-282 | after track_name the event count is unchanged; each name event is replaced in place by `0xFF 0x03 (\|name\| mod 256) name…`; every other event is unchanged |
| TrackEdits.RenamedWithoutNameEvent | midieditor.cpp:260-282 | a track without a name event is left as it is: no name event is added |
| TrackEdits.RenamedIdempotent | midieditor.cpp:260-282 | renaming twice with the same name is the same as renaming once |
| TrackEdits.ProgramInsertedProperties | midieditor.cpp:303-305 | program_change adds exactly one event, `[0xC0, program]` at index 0, and old event i moves to i+1 unchanged |
| TrackEdits.NotesSetProperties | midieditor.cpp:326-335 | note_set keeps the length; byte 1 of every 0x8n/0x9n event becomes the note, with the status byte and the remaining bytes unchanged; all other events are unchanged |
| TrackEdits.Trunc | midieditor.cpp:358 | the (int) cast truncates toward zero: the result is within one of the value, on the side toward zero |
| TrackEdits.Clamp | midieditor.cpp:359-367 | values above 127 become 127, below 0 become 0, and values in 0..127 stay |
| TrackEdits.ScaledVelocity | midieditor.cpp:357-368 | the new velocity is clamp(trunc(v * mult)) and is at most 127 |
| TrackEdits.VolumeScaledProperties | midieditor.cpp:352-370 | volume_change changes only byte 2 of NOTE_ON events, to clamp(trunc(v * mult)) in 0..127; NOTE_OFF and every other event are unchanged |
| TrackEdits.HalvedVelocityExample | midieditor.cpp:352-370 | multiplier 0.5 turns velocity 100 of a NOTE_ON into 50 and leaves the NOTE_OFF alone |
| TrackEdits.RechanneledProperties | midieditor.cpp:392-400 | channel keeps the length; for every event below 0xF0 the message type and the data bytes are kept and the new channel is old channel OR (channel_no-1); events 0xF0..0xFF are unchanged |
| TrackEdits.ChannelOnlyGainsBits | midieditor.cpp:398 | the new channel is at least the old channel and at least the requested one, and it equals the requested channel exactly when the old channel's bits are among the requested one's |
| TrackEdits.ChannelCannotBeLowered | midieditor.cpp:398 | channel 16 turns status 0x91 into 0x9F, but channel 1 leaves 0x9F as 0x9F |
| TrackEdits.RenameTrack | midieditor.cpp:250-285 | succeeds exactly when 0 <= track < track count; on success only that track changes, to its renamed form, and the track count is kept |
| TrackEdits.InsertProgramChange | midieditor.cpp:289-308 | succeeds exactly when the track index is valid and the program is in 0..255; on success only that track changes |
| TrackEdits.SetNotes | midieditor.cpp:312-338 | succeeds exactly when the track index is valid and the note is in 0..127; on success only that track changes |
| TrackEdits.ScaleVolume | midieditor.cpp:342-373 | succeeds exactly when the track index is valid (any multiplier); on success only that track changes |
| TrackEdits.SetChannel | midieditor.cpp:377-403 | succeeds exactly when the track index is valid and the channel is in 1..16; on success only that track changes, OR-ed with channel-1 |
| TrackInspector.Printable | midieditor.cpp:204-213 | a name byte prints as itself when it is in 0x20..0x7E, and as '.' otherwise |
| TrackInspector.PrintableText | midieditor.cpp:202-214 | the printed payload has one character per byte |
| TrackInspector.SummaryNamePrintable | midieditor.cpp:196-216 | every character of the printed name is printable ASCII |
| TrackInspector.SummaryProgramIsLast | midieditor.cpp:218-221 | the program is -1 exactly when the track has no 0xCn event; otherwise it is byte 1 of the last one |
| TrackInspector.SummaryChannelsMembers | midieditor.cpp:223-226 | a channel is listed exactly when some event below 0xF0 carries it in its low nibble |
| TrackInspector.SummaryNotesMembers | midieditor.cpp:228-231 | a note is listed exactly when some NOTE_ON event carries it in byte 1 |
| TrackInspector.Summaries | midieditor.cpp:184-245 | one summary per track |
| TrackInspector.DisplayedChannel | midieditor.cpp:237 | a channel below 16 is printed as a number in 1..16 |
| TrackInspector.DisplayedChannels | midieditor.cpp:235-238 | the printed numbers are exactly the listed channels, each plus one, all in 1..16 |
| TrackInspector.DisplayedChannelsOfTrack | midieditor.cpp:223-238 | a number is printed for a track exactly when some event of it below 0xF0 has that channel, numbered from 1 |
| TrackInspector.SummaryStep | midieditor.cpp:193-232 | each event extends the name by its payload, replaces the program when it is a program change, adds its channel unless it is 0xFn, and adds its note when it is a NOTE_ON |
| TrackInspector.AppendName | midieditor.cpp:202-214 | the k loop appends the printed payload of the name event to the name |
| TrackInspector.ScanEvent | midieditor.cpp:195-231 | the four tests of the inner loop: name, program, channel map keys and note map keys, each updated exactly as the summary specification says |
| TrackInspector.SummarizeTrack | midieditor.cpp:188-232 | the scan of one track with its two maps produces exactly the specified summary |
| TrackInspector.RenamedSummaryName | midieditor.cpp:196-216 | after track_name, the printed name is the new name repeated once per name event of the track |
| TrackInspector.RenamedSingleName | midieditor.cpp:196-216 | with exactly one name event, the printed name after track_name is the new name |
| TrackInspector.ProgramOfPrepended | midieditor.cpp:218-221 | an event added in front only decides the printed program when the rest of the track has no program change |
| TrackInspector.ProgramInsertedSummary | midieditor.cpp:218-221 | after program_change the printed program is the new one only when the track had none; otherwise it is unchanged |
| TrackInspector.ProgramInsertedChannels | midieditor.cpp:223-226 | after program_change the printed channels gain channel 0, and nothing else |
| TrackInspector.NotesSetSummary | midieditor.cpp:228-231 | after note_set the printed notes are exactly {note} when the track has a NOTE_ON, and empty otherwise |
| TrackInspector.VolumeKeepsSummary | midieditor.cpp:193-232 | volume_change leaves the whole printed summary of the track unchanged |
| TrackInspector.RechanneledSummary | midieditor.cpp:223-226 | after channel the printed channels are the old ones, each OR-ed with channel-1 |
| MidiDocument.NewNameEvent | midieditor.cpp:271-278 | building the event in a buffer, as the source does, gives the specified name event |
| MidiDocument.MidiFile.constructor | midieditor.cpp:520 | the file holds the tracks as read |
| MidiDocument.MidiFile.Remove | midieditor.cpp:269 | remove(j) on one track, every other track unchanged |
| MidiDocument.MidiFile.Add | midieditor.cpp:279 | add(j, e) on one track, every other track unchanged |
| MidiDocument.MidiFile.TrackName | midieditor.cpp:250-285 | returns true exactly for a valid track index; on true only that track changes, to the renamed track; on false nothing changes |
| MidiDocument.MidiFile.ProgramChange | midieditor.cpp:289-308 | returns true exactly for a valid track and a program in 0..255; on true the program change is added in front; on false nothing changes |
| MidiDocument.MidiFile.NoteSet | midieditor.cpp:312-338 | returns true exactly for a valid track and a note in 0..127; on true the track's notes are set; on false nothing changes |
| MidiDocument.MidiFile.VolumeChange | midieditor.cpp:342-373 | returns true exactly for a valid track; on true the track's NOTE_ON velocities are scaled and clamped; on false nothing changes |
| MidiDocument.MidiFile.Channel | midieditor.cpp:377-403 | returns true exactly for a valid track and a channel in 1..16; on true the channel is OR-ed into the status byte of the track's events below 0xF0; on false nothing changes |
| MidiDocument.MidiFile.Info | midieditor.cpp:184-245 | print_info's loop over the tracks gives the specified summary of each track, in order |
| Options.SplitFields | midieditor.cpp:57-74 | the getline loop gives exactly the fields of the specification `Split` |
| Options.SplitFieldsAreClean | midieditor.cpp:63-70 | every field split returns is non-empty, not "\r", and free of the delimiter |
| Options.SplitWithoutDelimiter | midieditor.cpp:57-74 | a string without the delimiter gives at most one field, the string itself when it is kept |
| Options.SplitJoin | midieditor.cpp:57-74 | split undoes joining fields with the delimiter, for fields split can return |
| Options.Get2Ints | midieditor.cpp:104-126 | fails when split gives fewer than two fields or either stoi fails; otherwise gives the two converted fields |
| Options.Get1Int1String | midieditor.cpp:78-100 | fails when split gives fewer than two fields or stoi fails; otherwise gives the converted first field and the second field, which is non-empty, not "\r" and comma-free |
| Options.Get1Int1Float | midieditor.cpp:130-152 | fails when split gives fewer than two fields, stoi fails or stof fails; otherwise gives the two converted fields |
| Options.NoCommaNoPair | midieditor.cpp:78-152 | an option without a comma never gives two values, so all three readers fail |
| Editor.NameStep | midieditor.cpp:533-552 | the -t block succeeds exactly when the option is absent, or it parses and passes the edit's range checks against the track count; a success keeps the document well formed and its track count |
| Editor.ChannelStep | midieditor.cpp:554-572 | the -c block succeeds exactly when the option is absent, or it parses and passes the edit's range checks against the track count; a success keeps the document well formed and its track count |
| Editor.ProgramStep | midieditor.cpp:574-591 | the -p block succeeds exactly when the option is absent, or it parses and passes the edit's range checks against the track count; a success keeps the document well formed and its track count |
| Editor.NoteStep | midieditor.cpp:593-610 | the -n block succeeds exactly when the option is absent, or it parses and passes the edit's range checks against the track count; a success keeps the document well formed and its track count |
| Editor.VolumeStep | midieditor.cpp:612-630 | the -v block succeeds exactly when the option is absent, or it parses and passes the edit's range checks against the track count; a success keeps the document well formed and its track count |
| Editor.Edited | midieditor.cpp:533-630 | the five blocks in order, stopping at the first failure, succeed exactly when every option given is accepted, and keep the document well formed and its track count |
| Editor.InfoBeforeEdits | midieditor.cpp:527-531 | with --info (and no --help) the run shows the summaries of the unedited tracks, whatever edit options are also given |
| Editor.WrittenIffAllAccepted | midieditor.cpp:503-640 | the file is written exactly when there is no --help, no --info and every given edit option is accepted; the written document keeps the track count and goes to the -o path, or else to the input path |
| Editor.NoteStepKeepsProgram | midieditor.cpp:593-610 | -n leaves a program change at the start of a track in place |
| Editor.VolumeStepKeepsProgram | midieditor.cpp:612-630 | -v leaves a program change at the start of a track in place |
| Editor.ProgramChangeKeepsChannelZero | midieditor.cpp:554-630 | in a written file the program change from -p is the first event of its track and has channel 0, even when -c is also given |
| Editor.ApplyTrackName | midieditor.cpp:533-552 | the -t block run on the file: fails exactly when the name step fails; on success the tracks are the name step's result; on failure the tracks are unchanged |
| Editor.ApplyChannel | midieditor.cpp:554-572 | the -c block run on the file, tied to the channel step in the same way; on failure the tracks are unchanged |
| Editor.ApplyProgramChange | midieditor.cpp:574-591 | the -p block run on the file, tied to the program step in the same way; on failure the tracks are unchanged |
| Editor.ApplyNoteSet | midieditor.cpp:593-610 | the -n block run on the file, tied to the note step in the same way; on failure the tracks are unchanged |
| Editor.ApplyVolume | midieditor.cpp:612-630 | the -v block run on the file, tied to the volume step in the same way; on failure the tracks are unchanged |
| Editor.RunEditor | midieditor.cpp:503-640 | main once the file is read: its outcome is the specified run; after a write the file holds the written tracks; help and info leave the tracks unchanged |

## Left out

- The MIDI library: reading and writing Standard MIDI Files, delta times, variable-length quantities and the internals of `MidiEvent`. Its header is not part of this model. A track is a `seq` of events, and the library's `remove(j)` and `add(j, e)` are `MidiFile.Remove` and `MidiFile.Add`.
- `isMeta` is taken to mean "status byte 0xFF", as the library defines it.
- The input file must be well formed: a 0x8n/0x9n event has at least 3 bytes, a 0xCn event at least 2, a meta event a type byte, and a name event its length byte and that many payload bytes. The code reads these bytes without checking, so this is a precondition (`WellFormedDoc`), and each edit is shown to preserve it.
- `getopt_long` option scanning, `argv` handling, the `argc < 3` check and a failed file read. They are process plumbing. `Editor.Request` holds the options as parsed, and `Run` starts from the document that was read. `--help` is handled first, as in the source.
- All console output: the banner, `print_help`, the error messages and the layout of the info lines. Lines 601 and 620 print the wrong option string, but that is output only. `Info` returns the summaries rather than printing them.
- `stoi` and `stof` are parameters (`toInt`, `toFloat`) that either fail or give a value. Their prefix parsing, white space handling and overflow are not modelled.
- The `float` multiplier is a Dafny `real`. IEEE rounding, NaN and infinities are not modelled.
- TrackEdits.ScaledVelocity: does not model the undefined result of the `(int)` cast when the float product is outside the `int` range; the exact truncated value is used before clamping.
- The name length byte is stored modulo 256, as the one-byte event cell stores it. For names of 256 bytes or more, the printed name then reads fewer bytes. The summary lemmas about renaming assume a name shorter than 256 bytes.
- Names and option strings are byte sequences; no character encoding is modelled.
- Editor.RunEditor: on `Failed` the contract does not say what the tracks in memory hold. As in the source, the edits that succeeded before the failing one stay in memory, but the run ends without writing them.
