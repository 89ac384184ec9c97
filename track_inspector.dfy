/**
 * The per-track summary that the --info option prints: the track name,
 * the last program change (or -1), the channels used and the NOTE_ON note
 * numbers.  Each field is specified as a scan of the track in event order;
 * SummarizeTrack is the loop that print_info runs; the lemmas say how each
 * edit changes the summary.
 */
module TrackInspector {
  import opened MidiEvents
  import opened TrackEdits

  datatype Summary = Summary(name: string, program: int, channels: set<Byte>, notes: set<Byte>)

  /** A name byte as printed: itself when printable ASCII, otherwise '.'. */
  function Printable(b: Byte): (c: char)
    ensures ' ' <= c <= '~'
    ensures 0x20 <= b < 0x7F ==> c as int == b as int
    ensures !(0x20 <= b < 0x7F) ==> c == '.'
  {
    if 0x20 <= b < 0x7F then (b as int) as char else '.'
  }

  function PrintableText(bytes: seq<Byte>): (s: string)
    ensures |s| == |bytes|
  {
    seq(|bytes|, k requires 0 <= k < |bytes| => Printable(bytes[k]))
  }

  /** The declared payload of a name event, as printed; nothing for other events. */
  function NameText(e: Event): string
    requires WellFormed(e)
  {
    if IsNameEvent(e) then PrintableText(e[3..3 + e[2] as int]) else ""
  }

  lemma PrefixWellFormed(tr: Track, n: nat)
    requires WellFormedTrack(tr) && n <= |tr|
    ensures WellFormedTrack(tr[..n])
  {
    assert forall j :: 0 <= j < n ==> tr[..n][j] == tr[j];
  }

  /** The name: the printed payloads of all name events, concatenated in order. */
  function SummaryName(tr: Track): string
    requires WellFormedTrack(tr)
    decreases |tr|
  {
    if tr == [] then ""
    else
      PrefixWellFormed(tr, |tr| - 1);
      SummaryName(tr[..|tr| - 1]) + NameText(tr[|tr| - 1])
  }

  /** The program: byte 1 of the last program change, or -1. */
  function SummaryProgram(tr: Track): int
    requires WellFormedTrack(tr)
    decreases |tr|
  {
    if tr == [] then -1
    else if IsProgramChange(tr[|tr| - 1]) then tr[|tr| - 1][1] as int
    else
      PrefixWellFormed(tr, |tr| - 1);
      SummaryProgram(tr[..|tr| - 1])
  }

  /** The channels: the low nibble of every event below 0xF0. */
  function SummaryChannels(tr: Track): set<Byte>
    requires WellFormedTrack(tr)
    decreases |tr|
  {
    if tr == [] then {}
    else
      PrefixWellFormed(tr, |tr| - 1);
      var e := tr[|tr| - 1];
      SummaryChannels(tr[..|tr| - 1]) + if !IsSysEx(e) then {ChannelOf(e)} else {}
  }

  /** The notes: byte 1 of every NOTE_ON event. */
  function SummaryNotes(tr: Track): set<Byte>
    requires WellFormedTrack(tr)
    decreases |tr|
  {
    if tr == [] then {}
    else
      PrefixWellFormed(tr, |tr| - 1);
      var e := tr[|tr| - 1];
      SummaryNotes(tr[..|tr| - 1]) + if IsNoteOn(e) then {e[1]} else {}
  }

  function Summarize(tr: Track): Summary
    requires WellFormedTrack(tr)
  {
    Summary(SummaryName(tr), SummaryProgram(tr), SummaryChannels(tr), SummaryNotes(tr))
  }

  /** Every character of the printed name is printable ASCII. */
  lemma {:induction false} SummaryNamePrintable(tr: Track)
    requires WellFormedTrack(tr)
    ensures forall i :: 0 <= i < |SummaryName(tr)| ==> ' ' <= SummaryName(tr)[i] <= '~'
    decreases |tr|
  {
    if tr != [] {
      PrefixWellFormed(tr, |tr| - 1);
      SummaryNamePrintable(tr[..|tr| - 1]);
    }
  }

  /** The program is -1 when there is no program change, else byte 1 of the last one. */
  lemma {:induction false} SummaryProgramIsLast(tr: Track)
    requires WellFormedTrack(tr)
    ensures SummaryProgram(tr) == -1 <==> forall j :: 0 <= j < |tr| ==> !IsProgramChange(tr[j])
    ensures SummaryProgram(tr) != -1 ==>
      exists j :: && 0 <= j < |tr| && IsProgramChange(tr[j]) && tr[j][1] as int == SummaryProgram(tr)
                  && forall k :: j < k < |tr| ==> !IsProgramChange(tr[k])
    decreases |tr|
  {
    if tr != [] {
      var m := |tr| - 1;
      PrefixWellFormed(tr, m);
      SummaryProgramIsLast(tr[..m]);
      assert forall j :: 0 <= j < m ==> tr[..m][j] == tr[j];
      if !IsProgramChange(tr[m]) && SummaryProgram(tr) != -1 {
        var j :| && 0 <= j < m && IsProgramChange(tr[..m][j]) && tr[..m][j][1] as int == SummaryProgram(tr)
                 && forall k :: j < k < m ==> !IsProgramChange(tr[..m][k]);
        assert forall k :: j < k < |tr| ==> !IsProgramChange(tr[k]);
      }
    }
  }

  /** A channel is listed exactly when some event below 0xF0 carries it. */
  lemma {:induction false} SummaryChannelsMembers(tr: Track)
    requires WellFormedTrack(tr)
    ensures forall c :: c in SummaryChannels(tr) <==>
      exists j :: 0 <= j < |tr| && !IsSysEx(tr[j]) && ChannelOf(tr[j]) == c
    decreases |tr|
  {
    if tr != [] {
      var m := |tr| - 1;
      PrefixWellFormed(tr, m);
      SummaryChannelsMembers(tr[..m]);
      assert forall j :: 0 <= j < m ==> tr[..m][j] == tr[j];
    }
  }

  /** A note is listed exactly when some NOTE_ON event carries it in byte 1. */
  lemma {:induction false} SummaryNotesMembers(tr: Track)
    requires WellFormedTrack(tr)
    ensures forall n :: n in SummaryNotes(tr) <==>
      exists j :: 0 <= j < |tr| && IsNoteOn(tr[j]) && tr[j][1] == n
    decreases |tr|
  {
    if tr != [] {
      var m := |tr| - 1;
      PrefixWellFormed(tr, m);
      SummaryNotesMembers(tr[..m]);
      assert forall j :: 0 <= j < m ==> tr[..m][j] == tr[j];
    }
  }

  function Summaries(doc: seq<Track>): (r: seq<Summary>)
    requires WellFormedDoc(doc)
    ensures |r| == |doc|
  {
    seq(|doc|, i requires 0 <= i < |doc| => Summarize(doc[i]))
  }

  /** A channel as printed: numbered from 1. */
  function DisplayedChannel(c: Byte): (x: int)
    requires c < 16
    ensures 1 <= x <= 16
  {
    c as int + 1
  }

  /** The channels as the info line prints them. */
  function DisplayedChannels(channels: set<Byte>): (r: set<int>)
    requires forall c :: c in channels ==> c < 16
    ensures forall x :: x in r ==> 1 <= x <= 16
    ensures forall c :: c in channels ==> DisplayedChannel(c) in r
    ensures forall x :: x in r ==> exists c :: c in channels && x == DisplayedChannel(c)
  {
    set c | c in channels :: DisplayedChannel(c)
  }

  /** The channel numbers print_info shows for a track: those of its events below 0xF0, numbered from 1. */
  lemma DisplayedChannelsOfTrack(tr: Track)
    requires WellFormedTrack(tr)
    ensures forall c :: c in SummaryChannels(tr) ==> c < 16
    ensures forall x :: x in DisplayedChannels(SummaryChannels(tr)) <==>
      exists j :: 0 <= j < |tr| && !IsSysEx(tr[j]) && x == DisplayedChannel(ChannelOf(tr[j]))
  {
    SummaryChannelsMembers(tr);
    var channels := SummaryChannels(tr);
    var r := DisplayedChannels(channels);
    forall x | x in r
      ensures exists j :: 0 <= j < |tr| && !IsSysEx(tr[j]) && x == DisplayedChannel(ChannelOf(tr[j]))
    {
      var c :| c in channels && x == DisplayedChannel(c);
      var j :| 0 <= j < |tr| && !IsSysEx(tr[j]) && ChannelOf(tr[j]) == c;
    }
    forall j | 0 <= j < |tr| && !IsSysEx(tr[j])
      ensures DisplayedChannel(ChannelOf(tr[j])) in r
    {
      assert ChannelOf(tr[j]) in channels;
    }
  }

  /** One more event of the scan. */
  lemma SummaryStep(tr: Track, j: nat)
    requires WellFormedTrack(tr) && j < |tr|
    ensures WellFormedTrack(tr[..j]) && WellFormedTrack(tr[..j + 1])
    ensures SummaryName(tr[..j + 1]) == SummaryName(tr[..j]) + NameText(tr[j])
    ensures SummaryProgram(tr[..j + 1]) ==
      if IsProgramChange(tr[j]) then tr[j][1] as int else SummaryProgram(tr[..j])
    ensures SummaryChannels(tr[..j + 1]) ==
      SummaryChannels(tr[..j]) + if !IsSysEx(tr[j]) then {ChannelOf(tr[j])} else {}
    ensures SummaryNotes(tr[..j + 1]) ==
      SummaryNotes(tr[..j]) + if IsNoteOn(tr[j]) then {tr[j][1]} else {}
  {
    PrefixWellFormed(tr, j);
    PrefixWellFormed(tr, j + 1);
    assert tr[..j + 1][..j] == tr[..j];
  }

  lemma PrintableTextStep(bytes: seq<Byte>, k: nat)
    requires k < |bytes|
    ensures PrintableText(bytes[..k + 1]) == PrintableText(bytes[..k]) + [Printable(bytes[k])]
  {
    assert bytes[..k + 1][..k] == bytes[..k];
  }

  /** The loop print_info runs to build the printed name of one name event. */
  method AppendName(name: string, e: Event) returns (r: string)
    requires WellFormed(e) && IsNameEvent(e)
    ensures r == name + NameText(e)
  {
    r := name;
    var len := e[2] as int;
    ghost var payload := e[3..3 + len];
    for k := 0 to len
      invariant r == name + PrintableText(payload[..k])
    {
      assert e[k + 3] == payload[k];
      PrintableTextStep(payload, k);
      if 0x20 <= e[k + 3] && e[k + 3] < 0x7F {
        r := r + [(e[k + 3] as int) as char];
      } else {
        r := r + ['.'];
      }
    }
    assert payload[..len] == payload;
  }

  /** What print_info does with one event: the four tests of its inner loop. */
  method ScanEvent(e: Event, name: string, program: int, c: map<Byte, int>, n: map<Byte, int>)
    returns (name': string, program': int, c': map<Byte, int>, n': map<Byte, int>)
    requires WellFormed(e)
    ensures name' == name + NameText(e)
    ensures program' == if IsProgramChange(e) then e[1] as int else program
    ensures c'.Keys == c.Keys + if !IsSysEx(e) then {ChannelOf(e)} else {}
    ensures n'.Keys == n.Keys + if IsNoteOn(e) then {e[1]} else {}
  {
    name', program', c', n' := name, program, c, n;
    if IsMeta(e) {
      if e[1] == SequenceTrackName {
        name' := AppendName(name, e);
      }
    }
    if e[0] & MessageMask == ProgramChange {
      program' := e[1] as int;
    }
    if e[0] & MessageMask != SystemExclusive {
      c' := c[e[0] & ChannelMask := 1];
    }
    if e[0] & MessageMask == NoteOn {
      n' := n[e[1] := 1];
    }
  }

  /** The scan of one track inside print_info. */
  method SummarizeTrack(tr: Track) returns (s: Summary)
    requires WellFormedTrack(tr)
    ensures s == Summarize(tr)
  {
    var name: string := "";
    var c: map<Byte, int> := map[];
    var n: map<Byte, int> := map[];
    var program := -1;
    assert tr[..0] == [];
    var j := 0;
    while j < |tr|
      invariant 0 <= j <= |tr|
      invariant WellFormedTrack(tr[..j])
      invariant name == SummaryName(tr[..j])
      invariant program == SummaryProgram(tr[..j])
      invariant c.Keys == SummaryChannels(tr[..j])
      invariant n.Keys == SummaryNotes(tr[..j])
    {
      SummaryStep(tr, j);
      name, program, c, n := ScanEvent(tr[j], name, program, c, n);
      j := j + 1;
    }
    assert tr[..j] == tr;
    s := Summary(name, program, c.Keys, n.Keys);
  }

  // ------------------------------------------------------- edits and the summary

  function NameEventCount(tr: Track): nat
    decreases |tr|
  {
    if tr == [] then 0
    else NameEventCount(tr[..|tr| - 1]) + if IsNameEvent(tr[|tr| - 1]) then 1 else 0
  }

  function Repeat(s: string, n: nat): string {
    if n == 0 then "" else Repeat(s, n - 1) + s
  }

  /**
   * After track_name the printed name is the new name once per name event
   * of the track (the scan concatenates payloads, it does not keep the last).
   */
  lemma RenamedPrefix(tr: Track, name: seq<Byte>, m: nat)
    requires WellFormedTrack(tr) && m <= |tr|
    ensures WellFormedTrack(tr[..m])
    ensures Renamed(tr, name)[..m] == Renamed(tr[..m], name)
  {
    PrefixWellFormed(tr, m);
  }

  lemma NameTextOfNameEvent(name: seq<Byte>)
    requires |name| < 256
    ensures NameText(NameEvent(name)) == PrintableText(name)
  {
    var e := NameEvent(name);
    assert e[3..3 + e[2] as int] == name;
  }

  lemma {:induction false} RenamedSummaryName(tr: Track, name: seq<Byte>)
    requires WellFormedTrack(tr) && |name| < 256
    ensures SummaryName(Renamed(tr, name)) == Repeat(PrintableText(name), NameEventCount(tr))
    decreases |tr|
  {
    if tr != [] {
      var m := |tr| - 1;
      RenamedPrefix(tr, name, m);
      RenamedSummaryName(tr[..m], name);
      NameTextOfNameEvent(name);
      var r := Renamed(tr, name);
      assert SummaryName(r) == SummaryName(r[..m]) + NameText(r[m]);
    }
  }

  /** With exactly one name event, the printed name after track_name is the new name. */
  lemma RenamedSingleName(tr: Track, name: seq<Byte>)
    requires WellFormedTrack(tr) && |name| < 256
    requires NameEventCount(tr) == 1
    ensures SummaryName(Renamed(tr, name)) == PrintableText(name)
  {
    RenamedSummaryName(tr, name);
  }

  lemma {:induction false} ProgramOfPrepended(x: Event, tr: Track)
    requires WellFormed(x) && WellFormedTrack(tr)
    ensures WellFormedTrack([x] + tr)
    ensures SummaryProgram([x] + tr) ==
      if SummaryProgram(tr) != -1 then SummaryProgram(tr) else SummaryProgram([x])
    decreases |tr|
  {
    var t := [x] + tr;
    assert forall j :: 1 <= j < |t| ==> t[j] == tr[j - 1];
    if tr != [] {
      var m := |tr| - 1;
      PrefixWellFormed(tr, m);
      assert t[..|t| - 1] == [x] + tr[..m];
      ProgramOfPrepended(x, tr[..m]);
    } else {
      assert t == [x];
    }
  }

  /**
   * After program_change the printed program is the inserted one only when
   * the track had none: the scan keeps the LAST program change, and the new
   * one is the first event.
   */
  lemma ProgramInsertedSummary(tr: Track, program: Byte)
    requires WellFormedTrack(tr)
    ensures SummaryProgram(ProgramInserted(tr, program)) ==
      if SummaryProgram(tr) == -1 then program as int else SummaryProgram(tr)
  {
    var pc := ProgramChangeEvent(program);
    assert tr[..0] == [] && tr[0..] == tr;
    assert ProgramInserted(tr, program) == [pc] + tr;
    ProgramOfPrepended(pc, tr);
    assert [pc][..0] == [];
    assert SummaryProgram([pc]) == program as int;
  }

  /** The inserted program change adds channel 0 to the printed channels. */
  lemma ProgramInsertedChannels(tr: Track, program: Byte)
    requires WellFormedTrack(tr)
    ensures SummaryChannels(ProgramInserted(tr, program)) == SummaryChannels(tr) + {0}
  {
    var r := ProgramInserted(tr, program);
    SummaryChannelsMembers(tr);
    SummaryChannelsMembers(r);
    forall c | c in SummaryChannels(tr) + {0}
      ensures c in SummaryChannels(r)
    {
      if c in SummaryChannels(tr) {
        var j :| 0 <= j < |tr| && !IsSysEx(tr[j]) && ChannelOf(tr[j]) == c;
        assert r[j + 1] == tr[j];
      } else {
        assert !IsSysEx(r[0]) && ChannelOf(r[0]) == 0;
      }
    }
    forall c | c in SummaryChannels(r)
      ensures c in SummaryChannels(tr) + {0}
    {
      var j :| 0 <= j < |r| && !IsSysEx(r[j]) && ChannelOf(r[j]) == c;
      if j > 0 {
        assert r[j] == tr[j - 1];
      }
    }
  }

  /** After note_set the printed notes are just the new note, if the track has any NOTE_ON. */
  lemma NotesSetSummary(tr: Track, note: Byte)
    requires WellFormedTrack(tr)
    ensures SummaryNotes(NotesSet(tr, note)) ==
      if exists j :: 0 <= j < |tr| && IsNoteOn(tr[j]) then {note} else {}
  {
    var r := NotesSet(tr, note);
    SummaryNotesMembers(tr);
    SummaryNotesMembers(r);
    forall j | 0 <= j < |tr|
      ensures IsNoteOn(r[j]) == IsNoteOn(tr[j])
      ensures IsNoteOn(tr[j]) ==> r[j][1] == note
    {
    }
    forall x | x in SummaryNotes(r)
      ensures x == note
    {
    }
    if exists j :: 0 <= j < |tr| && IsNoteOn(tr[j]) {
      var j :| 0 <= j < |tr| && IsNoteOn(tr[j]);
      assert IsNoteOn(r[j]) && r[j][1] == note;
    } else {
      assert forall x :: x !in SummaryNotes(r);
    }
  }

  /** volume_change changes nothing that --info prints. */
  lemma {:induction false} VolumeKeepsSummary(tr: Track, mult: real)
    requires WellFormedTrack(tr)
    ensures Summarize(VolumeScaled(tr, mult)) == Summarize(tr)
    decreases |tr|
  {
    if tr != [] {
      var m := |tr| - 1;
      PrefixWellFormed(tr, m);
      assert VolumeScaled(tr, mult)[..m] == VolumeScaled(tr[..m], mult);
      VolumeKeepsSummary(tr[..m], mult);
    }
  }

  /** After channel the printed channels are the old ones each OR-ed with the new channel. */
  lemma RechanneledSummary(tr: Track, channel: Byte)
    requires WellFormedTrack(tr) && channel < 16
    ensures SummaryChannels(Rechanneled(tr, channel)) == set c | c in SummaryChannels(tr) :: c | channel
  {
    var r := Rechanneled(tr, channel);
    RechanneledProperties(tr, channel);
    SummaryChannelsMembers(tr);
    SummaryChannelsMembers(r);
    var want := set c | c in SummaryChannels(tr) :: c | channel;
    forall x | x in SummaryChannels(r)
      ensures x in want
    {
      var j :| 0 <= j < |r| && !IsSysEx(r[j]) && ChannelOf(r[j]) == x;
      assert !IsSysEx(tr[j]);
      assert ChannelOf(tr[j]) in SummaryChannels(tr);
    }
    forall x | x in want
      ensures x in SummaryChannels(r)
    {
      var c :| c in SummaryChannels(tr) && x == c | channel;
      var j :| 0 <= j < |tr| && !IsSysEx(tr[j]) && ChannelOf(tr[j]) == c;
      assert !IsSysEx(r[j]) && ChannelOf(r[j]) == x;
    }
  }
}
