/**
 * The loaded MIDI file and the five edits of midieditor.cpp, run in place
 * on its tracks exactly as the C++ loops do: index j walks the track, bytes
 * are assigned in place, and a name event is removed and re-added at j.
 * Each edit is proved to leave the tracks equal to its specification in
 * module TrackEdits, and to fail without any change on a bad argument.
 */
module MidiDocument {
  import opened MidiEvents
  import opened TrackEdits
  import opened TrackInspector

  /** Builds the name event as track_name does: status and type, then resize, length and bytes. */
  method NewNameEvent(name: seq<Byte>) returns (e: Event)
    ensures e == NameEvent(name)
  {
    var buf := new Byte[|name| + 3];
    buf[0], buf[1] := MetaStatus, SequenceTrackName;
    buf[2] := ToByte(|name| % 256);
    for i := 0 to |name|
      invariant buf[..3] == [MetaStatus, SequenceTrackName, ToByte(|name| % 256)]
      invariant forall k :: 0 <= k < i ==> buf[k + 3] == name[k]
    {
      buf[i + 3] := name[i];
    }
    e := buf[..];
    assert e[..3] == buf[..3] && e[3..] == name;
    assert e == e[..3] + e[3..];
  }

  /** The MIDI file the editor has read: its tracks, whose number never changes. */
  class MidiFile {
    var tracks: seq<Track>

    ghost predicate Valid()
      reads this
    {
      WellFormedDoc(tracks)
    }

    constructor (loaded: seq<Track>)
      requires WellFormedDoc(loaded)
      ensures Valid() && tracks == loaded
    {
      tracks := loaded;
    }

    /** The library's remove(j) on a track. */
    method Remove(track: nat, j: nat)
      requires Valid() && track < |tracks| && j < |tracks[track]|
      modifies this
      ensures Valid()
      ensures tracks == old(tracks)[track := Removed(old(tracks)[track], j)]
    {
      tracks := tracks[track := Removed(tracks[track], j)];
    }

    /** The library's add(j, e) on a track. */
    method Add(track: nat, j: nat, e: Event)
      requires Valid() && track < |tracks| && j <= |tracks[track]| && WellFormed(e)
      modifies this
      ensures Valid()
      ensures tracks == old(tracks)[track := Inserted(old(tracks)[track], j, e)]
    {
      tracks := tracks[track := Inserted(tracks[track], j, e)];
    }

    /** track_name: every name event of the track replaced by one holding the new name. */
    method TrackName(trackNo: int, name: seq<Byte>) returns (ok: bool)
      requires Valid()
      modifies this
      ensures Valid()
      ensures ok <==> 0 <= trackNo < |old(tracks)|
      ensures ok ==> tracks == old(tracks)[trackNo := Renamed(old(tracks)[trackNo], name)]
      ensures !ok ==> tracks == old(tracks)
    {
      if trackNo < 0 || trackNo > |tracks| - 1 {
        return false;
      }
      ghost var tr0 := tracks[trackNo];
      var j := 0;
      while j < |tracks[trackNo]|
        invariant Valid() && |tracks| == |old(tracks)|
        invariant tracks == old(tracks)[trackNo := tracks[trackNo]]
        invariant |tracks[trackNo]| == |tr0| && 0 <= j <= |tr0|
        invariant forall k :: 0 <= k < j ==> tracks[trackNo][k] == Renamed(tr0, name)[k]
        invariant forall k :: j <= k < |tr0| ==> tracks[trackNo][k] == tr0[k]
      {
        if IsMeta(tracks[trackNo][j]) {
          if tracks[trackNo][j][1] == SequenceTrackName {
            ghost var before := tracks[trackNo];
            Remove(trackNo, j);
            var newName := NewNameEvent(name);
            Add(trackNo, j, newName);
            RemoveThenAdd(before, j, newName);
          }
        }
        j := j + 1;
      }
      assert tracks[trackNo] == Renamed(tr0, name);
      return true;
    }

    /** program_change: a program change on channel 0 added as the track's first event. */
    method ProgramChange(trackNo: int, progNo: int) returns (ok: bool)
      requires Valid()
      modifies this
      ensures Valid()
      ensures ok <==> 0 <= trackNo < |old(tracks)| && 0 <= progNo <= 255
      ensures ok ==> tracks == old(tracks)[trackNo := ProgramInserted(old(tracks)[trackNo], ToByte(progNo))]
      ensures !ok ==> tracks == old(tracks)
    {
      if trackNo < 0 || trackNo > |tracks| - 1 {
        return false;
      }
      if progNo < 0 || progNo > 255 {
        return false;
      }
      Add(trackNo, 0, ProgramChangeEvent(ToByte(progNo)));
      return true;
    }

    /** note_set: byte 1 of every note on and note off event of the track set to the note. */
    method NoteSet(trackNo: int, noteNo: int) returns (ok: bool)
      requires Valid()
      modifies this
      ensures Valid()
      ensures ok <==> 0 <= trackNo < |old(tracks)| && 0 <= noteNo <= 127
      ensures ok ==> tracks == old(tracks)[trackNo := NotesSet(old(tracks)[trackNo], ToByte(noteNo))]
      ensures !ok ==> tracks == old(tracks)
    {
      if trackNo < 0 || trackNo > |tracks| - 1 {
        return false;
      }
      if noteNo < 0 || noteNo > 127 {
        return false;
      }
      var note := ToByte(noteNo);
      ghost var tr0 := tracks[trackNo];
      var j := 0;
      while j < |tracks[trackNo]|
        invariant Valid() && |tracks| == |old(tracks)|
        invariant tracks == old(tracks)[trackNo := tracks[trackNo]]
        invariant |tracks[trackNo]| == |tr0| && 0 <= j <= |tr0|
        invariant forall k :: 0 <= k < j ==> tracks[trackNo][k] == WithNote(tr0[k], note)
        invariant forall k :: j <= k < |tr0| ==> tracks[trackNo][k] == tr0[k]
      {
        if tracks[trackNo][j][0] & 0xF0 == NoteOff || tracks[trackNo][j][0] & 0xF0 == NoteOn {
          tracks := tracks[trackNo := tracks[trackNo][j := tracks[trackNo][j][1 := note]]];
        }
        j := j + 1;
      }
      assert tracks[trackNo] == NotesSet(tr0, note);
      return true;
    }

    /** volume_change: byte 2 of every note on event scaled, truncated and clamped to 0..127. */
    method VolumeChange(trackNo: int, mult: real) returns (ok: bool)
      requires Valid()
      modifies this
      ensures Valid()
      ensures ok <==> 0 <= trackNo < |old(tracks)|
      ensures ok ==> tracks == old(tracks)[trackNo := VolumeScaled(old(tracks)[trackNo], mult)]
      ensures !ok ==> tracks == old(tracks)
    {
      if trackNo < 0 || trackNo > |tracks| - 1 {
        return false;
      }
      ghost var tr0 := tracks[trackNo];
      var j := 0;
      while j < |tracks[trackNo]|
        invariant Valid() && |tracks| == |old(tracks)|
        invariant tracks == old(tracks)[trackNo := tracks[trackNo]]
        invariant |tracks[trackNo]| == |tr0| && 0 <= j <= |tr0|
        invariant forall k :: 0 <= k < j ==> tracks[trackNo][k] == WithVelocity(tr0[k], mult)
        invariant forall k :: j <= k < |tr0| ==> tracks[trackNo][k] == tr0[k]
      {
        if tracks[trackNo][j][0] & 0xF0 == NoteOn {
          var vol := Trunc(Scale(tracks[trackNo][j][2], mult));
          if vol > 127 {
            vol := 127;
          } else if vol < 0 {
            vol := 0;
          }
          tracks := tracks[trackNo := tracks[trackNo][j := tracks[trackNo][j][2 := ToByte(vol)]]];
        }
        j := j + 1;
      }
      assert tracks[trackNo] == VolumeScaled(tr0, mult);
      return true;
    }

    /** channel: channel_no - 1 OR-ed into the status byte of every event of the track below 0xF0. */
    method Channel(trackNo: int, channelNo: int) returns (ok: bool)
      requires Valid()
      modifies this
      ensures Valid()
      ensures ok <==> 0 <= trackNo < |old(tracks)| && 1 <= channelNo <= 16
      ensures ok ==> tracks == old(tracks)[trackNo := Rechanneled(old(tracks)[trackNo], ToByte(channelNo - 1))]
      ensures !ok ==> tracks == old(tracks)
    {
      if trackNo < 0 || trackNo > |tracks| - 1 {
        return false;
      }
      if channelNo < 1 || channelNo > 16 {
        return false;
      }
      var ch := ToByte(channelNo - 1);
      ghost var tr0 := tracks[trackNo];
      var j := 0;
      while j < |tracks[trackNo]|
        invariant Valid() && |tracks| == |old(tracks)|
        invariant tracks == old(tracks)[trackNo := tracks[trackNo]]
        invariant |tracks[trackNo]| == |tr0| && 0 <= j <= |tr0|
        invariant forall k :: 0 <= k < j ==> tracks[trackNo][k] == WithChannel(tr0[k], ch)
        invariant forall k :: j <= k < |tr0| ==> tracks[trackNo][k] == tr0[k]
      {
        var e := tracks[trackNo][j];
        if e[0] & MessageMask != SystemExclusive {
          assert WithChannel(e, ch) == e[0 := e[0] | ch];
          tracks := tracks[trackNo := tracks[trackNo][j := e[0 := e[0] | ch]]];
        }
        j := j + 1;
      }
      assert tracks[trackNo] == Rechanneled(tr0, ch);
      return true;
    }

    /** The scan print_info makes: one summary per track, in track order. */
    method Info() returns (info: seq<Summary>)
      requires Valid()
      ensures info == Summaries(tracks)
    {
      info := [];
      var i := 0;
      while i < |tracks|
        invariant 0 <= i <= |tracks|
        invariant |info| == i
        invariant forall k :: 0 <= k < i ==> info[k] == Summarize(tracks[k])
      {
        var s := SummarizeTrack(tracks[i]);
        info := info + [s];
        i := i + 1;
      }
    }
  }
}
