/**
 * What each of the editor's five edits does to a track, as functions of
 * the track before the edit, and the same edits on the whole document
 * with the editor's range checks.  The imperative versions (class MidiFile)
 * are proved to compute exactly these.
 */
module TrackEdits {
  import opened Wrappers
  import opened MidiEvents

  predicate IsNote(e: Event)
    requires |e| > 0
  {
    IsNoteOn(e) || IsNoteOff(e)
  }

  // ---------------------------------------------------------------- track_name

  /** Every name event replaced, at its own position, by a fresh name event. */
  function Renamed(tr: Track, name: seq<Byte>): (r: Track)
    requires WellFormedTrack(tr)
    ensures WellFormedTrack(r)
  {
    seq(|tr|, j requires 0 <= j < |tr| => if IsNameEvent(tr[j]) then NameEvent(name) else tr[j])
  }

  lemma RenamedProperties(tr: Track, name: seq<Byte>)
    requires WellFormedTrack(tr)
    ensures |Renamed(tr, name)| == |tr|
    ensures forall j :: 0 <= j < |tr| ==> (IsNameEvent(Renamed(tr, name)[j]) <==> IsNameEvent(tr[j]))
    ensures forall j :: 0 <= j < |tr| && IsNameEvent(tr[j]) ==>
      Renamed(tr, name)[j] == [MetaStatus, SequenceTrackName, ToByte(|name| % 256)] + name
    ensures forall j :: 0 <= j < |tr| && !IsNameEvent(tr[j]) ==> Renamed(tr, name)[j] == tr[j]
  {
  }

  /** A track without a name event is left as it is: no name event is added. */
  lemma RenamedWithoutNameEvent(tr: Track, name: seq<Byte>)
    requires WellFormedTrack(tr)
    requires forall j :: 0 <= j < |tr| ==> !IsNameEvent(tr[j])
    ensures Renamed(tr, name) == tr
  {
  }

  /** Renaming twice with the same name is renaming once. */
  lemma RenamedIdempotent(tr: Track, name: seq<Byte>)
    requires WellFormedTrack(tr)
    ensures Renamed(Renamed(tr, name), name) == Renamed(tr, name)
  {
  }

  // ------------------------------------------------------------ program_change

  /** A program change on channel 0 added in front of the track. */
  function ProgramInserted(tr: Track, program: Byte): (r: Track)
    requires WellFormedTrack(tr)
    ensures WellFormedTrack(r)
  {
    Inserted(tr, 0, ProgramChangeEvent(program))
  }

  lemma ProgramInsertedProperties(tr: Track, program: Byte)
    requires WellFormedTrack(tr)
    ensures |ProgramInserted(tr, program)| == |tr| + 1
    ensures ProgramInserted(tr, program)[0] == [0xC0, program]
    ensures forall i :: 0 <= i < |tr| ==> ProgramInserted(tr, program)[i + 1] == tr[i]
  {
  }

  // ------------------------------------------------------------------ note_set

  function WithNote(e: Event, note: Byte): (r: Event)
    requires WellFormed(e)
    ensures WellFormed(r)
  {
    if IsNote(e) then e[1 := note] else e
  }

  /** Byte 1 of every note on and note off event set to the note. */
  function NotesSet(tr: Track, note: Byte): (r: Track)
    requires WellFormedTrack(tr)
    ensures WellFormedTrack(r)
  {
    seq(|tr|, j requires 0 <= j < |tr| => WithNote(tr[j], note))
  }

  lemma NotesSetProperties(tr: Track, note: Byte)
    requires WellFormedTrack(tr)
    ensures |NotesSet(tr, note)| == |tr|
    ensures forall j :: 0 <= j < |tr| && IsNote(tr[j]) ==>
      var e, e' := tr[j], NotesSet(tr, note)[j];
      |e'| == |e| && e'[0] == e[0] && e'[1] == note && e'[2..] == e[2..]
    ensures forall j :: 0 <= j < |tr| && !IsNote(tr[j]) ==> NotesSet(tr, note)[j] == tr[j]
  {
  }

  // ------------------------------------------------------------- volume_change

  /** A C cast of a float to int: truncation toward zero. */
  function Trunc(x: real): (r: int)
    ensures 0.0 <= x ==> r as real <= x < r as real + 1.0
    ensures x < 0.0 ==> r as real - 1.0 < x <= r as real
  {
    if x >= 0.0 then x.Floor else -((-x).Floor)
  }

  /** The limits volume_change applies: above 127 becomes 127, below 0 becomes 0. */
  function Clamp(v: int): (r: int)
    ensures 0 <= r <= 127
    ensures 0 <= v <= 127 ==> r == v
    ensures v > 127 ==> r == 127
    ensures v < 0 ==> r == 0
  {
    if v > 127 then 127 else if v < 0 then 0 else v
  }

  /** The velocity times the multiplier, as the float product (float) vol * mult. */
  function Scale(v: Byte, mult: real): real {
    v as int as real * mult
  }

  function ScaledVelocity(v: Byte, mult: real): (r: Byte)
    ensures r as int == Clamp(Trunc(Scale(v, mult)))
    ensures r <= 127
  {
    ToByte(Clamp(Trunc(Scale(v, mult))))
  }

  function WithVelocity(e: Event, mult: real): (r: Event)
    requires WellFormed(e)
    ensures WellFormed(r)
  {
    if IsNoteOn(e) then e[2 := ScaledVelocity(e[2], mult)] else e
  }

  /** Byte 2 of every note on event scaled by the multiplier and clamped. */
  function VolumeScaled(tr: Track, mult: real): (r: Track)
    requires WellFormedTrack(tr)
    ensures WellFormedTrack(r)
  {
    seq(|tr|, j requires 0 <= j < |tr| => WithVelocity(tr[j], mult))
  }

  lemma VolumeScaledProperties(tr: Track, mult: real)
    requires WellFormedTrack(tr)
    ensures |VolumeScaled(tr, mult)| == |tr|
    ensures forall j :: 0 <= j < |tr| && IsNoteOn(tr[j]) ==>
      var e, e' := tr[j], VolumeScaled(tr, mult)[j];
      && |e'| == |e| && e'[..2] == e[..2] && e'[3..] == e[3..]
      && e'[2] as int == Clamp(Trunc(Scale(e[2], mult)))
      && e'[2] <= 127
    ensures forall j :: 0 <= j < |tr| && !IsNoteOn(tr[j]) ==> VolumeScaled(tr, mult)[j] == tr[j]
  {
  }

  /** Halving a NOTE_ON velocity of 100 gives 50; the NOTE_OFF is untouched. */
  lemma HalvedVelocityExample()
    ensures VolumeScaled([[0x90, 60, 100], [0x80, 60, 0]], 0.5) == [[0x90, 60, 50], [0x80, 60, 0]]
  {
    var tr: Track := [[0x90, 60, 100], [0x80, 60, 0]];
    assert ScaledVelocity(100, 0.5) == 50;
    assert VolumeScaled(tr, 0.5)[0] == [0x90, 60, 50];
    assert VolumeScaled(tr, 0.5)[1] == [0x80, 60, 0];
  }

  // ------------------------------------------------------------------- channel

  function WithChannel(e: Event, channel: Byte): (r: Event)
    requires WellFormed(e) && channel < 16
    ensures WellFormed(r)
  {
    if !IsSysEx(e) then e[0 := e[0] | channel] else e
  }

  /** The channel OR-ed into the status byte of every event below 0xF0. */
  function Rechanneled(tr: Track, channel: Byte): (r: Track)
    requires WellFormedTrack(tr) && channel < 16
    ensures WellFormedTrack(r)
  {
    seq(|tr|, j requires 0 <= j < |tr| => WithChannel(tr[j], channel))
  }

  lemma RechanneledProperties(tr: Track, channel: Byte)
    requires WellFormedTrack(tr) && channel < 16
    ensures |Rechanneled(tr, channel)| == |tr|
    ensures forall j :: 0 <= j < |tr| && !IsSysEx(tr[j]) ==>
      var e, e' := tr[j], Rechanneled(tr, channel)[j];
      && |e'| == |e| && e'[1..] == e[1..]
      && MessageType(e') == MessageType(e)
      && ChannelOf(e') == ChannelOf(e) | channel
    ensures forall j :: 0 <= j < |tr| && IsSysEx(tr[j]) ==> Rechanneled(tr, channel)[j] == tr[j]
  {
  }

  /**
   * Because the channel is OR-ed in, an event's channel only gains bits: it
   * never decreases, and it ends up equal to the requested channel exactly
   * when the old channel's bits were already among the requested one's.
   */
  lemma ChannelOnlyGainsBits(tr: Track, channel: Byte)
    requires WellFormedTrack(tr) && channel < 16
    ensures forall j :: 0 <= j < |tr| && !IsSysEx(tr[j]) ==>
      var old_ch, new_ch := ChannelOf(tr[j]), ChannelOf(Rechanneled(tr, channel)[j]);
      && old_ch <= new_ch && channel <= new_ch
      && (new_ch == channel <==> old_ch | channel == channel)
  {
  }

  /** Channel 16 on status 0x91 gives 0x9F, but channel 1 on 0x9F leaves 0x9F. */
  lemma ChannelCannotBeLowered()
    ensures Rechanneled([[0x91, 60, 100]], 15) == [[0x9F, 60, 100]]
    ensures Rechanneled([[0x9F, 60, 100]], 0) == [[0x9F, 60, 100]]
  {
    assert Rechanneled([[0x91, 60, 100]], 15)[0] == [0x9F, 60, 100];
    assert Rechanneled([[0x9F, 60, 100]], 0)[0] == [0x9F, 60, 100];
  }

  // -------------------------------------------------- edits on the whole document

  /** track_name on a document: fails, changing nothing, on a bad track index. */
  function RenameTrack(doc: seq<Track>, track: int, name: seq<Byte>): (r: Option<seq<Track>>)
    requires WellFormedDoc(doc)
    ensures r.Some? <==> 0 <= track < |doc|
    ensures r.Some? ==> WellFormedDoc(r.value) && |r.value| == |doc|
    ensures r.Some? ==> forall i :: 0 <= i < |doc| && i != track ==> r.value[i] == doc[i]
    ensures r.Some? ==> r.value[track] == Renamed(doc[track], name)
  {
    if track < 0 || track > |doc| - 1 then None
    else Some(doc[track := Renamed(doc[track], name)])
  }

  /** program_change on a document: the track index and a program in 0..255 are checked. */
  function InsertProgramChange(doc: seq<Track>, track: int, program: int): (r: Option<seq<Track>>)
    requires WellFormedDoc(doc)
    ensures r.Some? <==> 0 <= track < |doc| && 0 <= program <= 255
    ensures r.Some? ==> WellFormedDoc(r.value) && |r.value| == |doc|
    ensures r.Some? ==> forall i :: 0 <= i < |doc| && i != track ==> r.value[i] == doc[i]
    ensures r.Some? ==> r.value[track] == ProgramInserted(doc[track], ToByte(program))
  {
    if track < 0 || track > |doc| - 1 then None
    else if program < 0 || program > 255 then None
    else Some(doc[track := ProgramInserted(doc[track], ToByte(program))])
  }

  /** note_set on a document: the track index and a note in 0..127 are checked. */
  function SetNotes(doc: seq<Track>, track: int, note: int): (r: Option<seq<Track>>)
    requires WellFormedDoc(doc)
    ensures r.Some? <==> 0 <= track < |doc| && 0 <= note <= 127
    ensures r.Some? ==> WellFormedDoc(r.value) && |r.value| == |doc|
    ensures r.Some? ==> forall i :: 0 <= i < |doc| && i != track ==> r.value[i] == doc[i]
    ensures r.Some? ==> r.value[track] == NotesSet(doc[track], ToByte(note))
  {
    if track < 0 || track > |doc| - 1 then None
    else if note < 0 || note > 127 then None
    else Some(doc[track := NotesSet(doc[track], ToByte(note))])
  }

  /** volume_change on a document: only the track index is checked. */
  function ScaleVolume(doc: seq<Track>, track: int, mult: real): (r: Option<seq<Track>>)
    requires WellFormedDoc(doc)
    ensures r.Some? <==> 0 <= track < |doc|
    ensures r.Some? ==> WellFormedDoc(r.value) && |r.value| == |doc|
    ensures r.Some? ==> forall i :: 0 <= i < |doc| && i != track ==> r.value[i] == doc[i]
    ensures r.Some? ==> r.value[track] == VolumeScaled(doc[track], mult)
  {
    if track < 0 || track > |doc| - 1 then None
    else Some(doc[track := VolumeScaled(doc[track], mult)])
  }

  /** channel on a document: the track index and a channel in 1..16 are checked. */
  function SetChannel(doc: seq<Track>, track: int, channel: int): (r: Option<seq<Track>>)
    requires WellFormedDoc(doc)
    ensures r.Some? <==> 0 <= track < |doc| && 1 <= channel <= 16
    ensures r.Some? ==> WellFormedDoc(r.value) && |r.value| == |doc|
    ensures r.Some? ==> forall i :: 0 <= i < |doc| && i != track ==> r.value[i] == doc[i]
    ensures r.Some? ==> r.value[track] == Rechanneled(doc[track], ToByte(channel - 1))
  {
    if track < 0 || track > |doc| - 1 then None
    else if channel < 1 || channel > 16 then None
    else Some(doc[track := Rechanneled(doc[track], ToByte(channel - 1))])
  }
}
