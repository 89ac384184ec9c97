/**
 * Raw MIDI events as the editor sees them: a flat byte sequence whose
 * meaning is decided by its first (status) byte.  This module holds the
 * status-byte constants of midieditor.hpp, the classification of an event,
 * the well-formedness the editor relies on when it reads bytes 1 and 2
 * without a length check, the two events the editor builds, and the
 * track primitives (remove and insert at a position) of the MIDI library.
 */
module MidiEvents {

  type Byte = bv8
  type Event = seq<Byte>
  type Track = seq<Event>

  // Message definitions (midieditor.hpp)
  const NoteOff: Byte := 0x80
  const NoteOn: Byte := 0x90
  const ProgramChange: Byte := 0xC0
  const SystemExclusive: Byte := 0xF0
  const MessageMask: Byte := 0xF0
  const ChannelMask: Byte := 0x0F

  // Meta events: status 0xFF, then the meta type, then the payload length
  const MetaStatus: Byte := 0xFF
  const SequenceTrackName: Byte := 0x03

  /** The library's isMeta test. */
  predicate IsMeta(e: Event) {
    |e| > 0 && e[0] == MetaStatus
  }

  /** The message type: the status byte's high nibble. */
  function MessageType(e: Event): (r: Byte)
    requires |e| > 0
    ensures r & ChannelMask == 0
  {
    e[0] & MessageMask
  }

  /** The 0-based channel: the status byte's low nibble. */
  function ChannelOf(e: Event): (r: Byte)
    requires |e| > 0
    ensures r < 16
    ensures MessageType(e) | r == e[0]
  {
    e[0] & ChannelMask
  }

  /** The editor's "cannot carry a channel" test; it also holds of meta events. */
  predicate IsSysEx(e: Event)
    requires |e| > 0
  {
    MessageType(e) == SystemExclusive
  }

  predicate IsNoteOn(e: Event)
    requires |e| > 0
  {
    MessageType(e) == NoteOn
  }

  predicate IsNoteOff(e: Event)
    requires |e| > 0
  {
    MessageType(e) == NoteOff
  }

  predicate IsProgramChange(e: Event)
    requires |e| > 0
  {
    MessageType(e) == ProgramChange
  }

  /** A meta event of type "sequence/track name". */
  predicate IsNameEvent(e: Event) {
    IsMeta(e) && |e| >= 2 && e[1] == SequenceTrackName
  }

  /**
   * What the editor assumes of every event it reads: a status byte; a meta
   * type byte in meta events; a length byte and that many payload bytes in
   * name events; a note and a velocity byte in note on/off events; a
   * program byte in program changes.
   */
  predicate WellFormed(e: Event) {
    && |e| > 0
    && (IsMeta(e) ==> |e| >= 2)
    && (IsNameEvent(e) ==> |e| >= 3 && 3 + e[2] as int <= |e|)
    && (IsNoteOn(e) || IsNoteOff(e) ==> |e| >= 3)
    && (IsProgramChange(e) ==> |e| >= 2)
  }

  predicate WellFormedTrack(tr: Track) {
    forall j :: 0 <= j < |tr| ==> WellFormed(tr[j])
  }

  predicate WellFormedDoc(doc: seq<Track>) {
    forall i :: 0 <= i < |doc| ==> WellFormedTrack(doc[i])
  }

  lemma ByteSuccessor(b: Byte)
    requires b < 255
    ensures (b + 1) as int == b as int + 1
  {
  }

  /** A number in 0..255 stored in a byte; it reads back as itself. */
  function ToByte(x: int): (b: Byte)
    requires 0 <= x < 256
    ensures b as int == x
  {
    if x == 0 then 0
    else
      ByteSuccessor(ToByte(x - 1));
      ToByte(x - 1) + 1
  }

  lemma MetaIsSysEx(e: Event)
    requires IsMeta(e)
    ensures IsSysEx(e)
  {
  }

  /**
   * The name event track_name builds: 0xFF 0x03, the length byte, then the
   * name's bytes.  The length is stored in one unsigned byte, so it wraps
   * modulo 256.
   */
  function NameEvent(name: seq<Byte>): (e: Event)
    ensures IsNameEvent(e) && WellFormed(e)
    ensures e[3..] == name && |e| == |name| + 3
    ensures |name| < 256 ==> e[2] as int == |name|
  {
    [MetaStatus, SequenceTrackName, ToByte(|name| % 256)] + name
  }

  /** The event program_change builds: status 0xC0 (channel 0), then the program. */
  function ProgramChangeEvent(program: Byte): (e: Event)
    ensures WellFormed(e) && IsProgramChange(e) && !IsMeta(e)
    ensures |e| == 2 && ChannelOf(e) == 0 && e[1] == program
  {
    [ProgramChange, program]
  }

  /** The library's track.remove(j). */
  function Removed(tr: Track, j: nat): (r: Track)
    requires j < |tr|
    ensures |r| == |tr| - 1
    ensures forall k :: 0 <= k < |r| ==> r[k] == if k < j then tr[k] else tr[k + 1]
  {
    tr[..j] + tr[j + 1..]
  }

  /** The library's track.add(j, e). */
  function Inserted(tr: Track, j: nat, e: Event): (r: Track)
    requires j <= |tr|
    ensures |r| == |tr| + 1 && r[j] == e
    ensures forall k :: 0 <= k < |tr| ==> r[if k < j then k else k + 1] == tr[k]
  {
    tr[..j] + [e] + tr[j..]
  }

  /** Removing event j and adding e at j replaces event j by e. */
  lemma RemoveThenAdd(tr: Track, j: nat, e: Event)
    requires j < |tr|
    ensures Inserted(Removed(tr, j), j, e) == tr[j := e]
  {
    var r := Inserted(Removed(tr, j), j, e);
    assert |r| == |tr|;
    forall k | 0 <= k < |tr|
      ensures r[k] == tr[j := e][k]
    {
      if k < j {
        assert r[k] == Removed(tr, j)[k];
      } else if k > j {
        assert r[k] == Removed(tr, j)[k - 1];
      }
    }
  }
}
