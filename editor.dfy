/**
 * The option dispatch of main: --help, then --info (which returns before
 * any edit), then the edits in their fixed order (track name, channel,
 * program change, note, volume), each aborting the run on a parse or range
 * failure, and finally the write to the output file or back to the input.
 */
module Editor {
  import opened Wrappers
  import opened MidiEvents
  import opened TrackEdits
  import opened TrackInspector
  import opened Options
  import opened MidiDocument

  /** The options main collected (getopt_long): flags, and each edit's argument if given. */
  datatype Request = Request(
    help: bool,
    info: bool,
    trackName: Option<Text>,
    channel: Option<Text>,
    programChange: Option<Text>,
    noteSet: Option<Text>,
    volume: Option<Text>,
    outputFile: Option<Text>,
    inputFile: Text)

  /** How a run ends: the help text, the per-track info, a failure, or the file written. */
  datatype Exit =
    | HelpShown
    | InfoShown(info: seq<Summary>)
    | Failed
    | Written(path: Text, tracks: seq<Track>)

  function NameStep(doc: seq<Track>, option: Option<Text>, toInt: Text -> Option<int>): (r: Option<seq<Track>>)
    requires WellFormedDoc(doc)
    ensures r.Some? <==> NameAccepted(|doc|, option, toInt)
    ensures r.Some? ==> WellFormedDoc(r.value) && |r.value| == |doc|
  {
    match option
    case None => Some(doc)
    case Some(arg) =>
      var parsed :- Get1Int1String(arg, toInt);
      RenameTrack(doc, parsed.0, parsed.1)
  }

  function ChannelStep(doc: seq<Track>, option: Option<Text>, toInt: Text -> Option<int>): (r: Option<seq<Track>>)
    requires WellFormedDoc(doc)
    ensures r.Some? <==> ChannelAccepted(|doc|, option, toInt)
    ensures r.Some? ==> WellFormedDoc(r.value) && |r.value| == |doc|
  {
    match option
    case None => Some(doc)
    case Some(arg) =>
      var parsed :- Get2Ints(arg, toInt);
      SetChannel(doc, parsed.0, parsed.1)
  }

  function ProgramStep(doc: seq<Track>, option: Option<Text>, toInt: Text -> Option<int>): (r: Option<seq<Track>>)
    requires WellFormedDoc(doc)
    ensures r.Some? <==> ProgramAccepted(|doc|, option, toInt)
    ensures r.Some? ==> WellFormedDoc(r.value) && |r.value| == |doc|
  {
    match option
    case None => Some(doc)
    case Some(arg) =>
      var parsed :- Get2Ints(arg, toInt);
      InsertProgramChange(doc, parsed.0, parsed.1)
  }

  function NoteStep(doc: seq<Track>, option: Option<Text>, toInt: Text -> Option<int>): (r: Option<seq<Track>>)
    requires WellFormedDoc(doc)
    ensures r.Some? <==> NoteAccepted(|doc|, option, toInt)
    ensures r.Some? ==> WellFormedDoc(r.value) && |r.value| == |doc|
  {
    match option
    case None => Some(doc)
    case Some(arg) =>
      var parsed :- Get2Ints(arg, toInt);
      SetNotes(doc, parsed.0, parsed.1)
  }

  function VolumeStep(doc: seq<Track>, option: Option<Text>, toInt: Text -> Option<int>,
                      toFloat: Text -> Option<real>): (r: Option<seq<Track>>)
    requires WellFormedDoc(doc)
    ensures r.Some? <==> VolumeAccepted(|doc|, option, toInt, toFloat)
    ensures r.Some? ==> WellFormedDoc(r.value) && |r.value| == |doc|
  {
    match option
    case None => Some(doc)
    case Some(arg) =>
      var parsed :- Get1Int1Float(arg, toInt, toFloat);
      ScaleVolume(doc, parsed.0, parsed.1)
  }

  /** The edits in main's order; None as soon as one of them fails. */
  function Edited(doc: seq<Track>, req: Request, toInt: Text -> Option<int>,
                  toFloat: Text -> Option<real>): (r: Option<seq<Track>>)
    requires WellFormedDoc(doc)
    ensures r.Some? <==> AllAccepted(|doc|, req, toInt, toFloat)
    ensures r.Some? ==> WellFormedDoc(r.value) && |r.value| == |doc|
  {
    var d1 :- NameStep(doc, req.trackName, toInt);
    var d2 :- ChannelStep(d1, req.channel, toInt);
    var d3 :- ProgramStep(d2, req.programChange, toInt);
    var d4 :- NoteStep(d3, req.noteSet, toInt);
    VolumeStep(d4, req.volume, toInt, toFloat)
  }

  /** The whole run of main once the file is read. */
  function Run(doc: seq<Track>, req: Request, toInt: Text -> Option<int>, toFloat: Text -> Option<real>): Exit
    requires WellFormedDoc(doc)
  {
    if req.help then HelpShown
    else if req.info then InfoShown(Summaries(doc))
    else
      match Edited(doc, req, toInt, toFloat)
      case None => Failed
      case Some(edited) =>
        Written(if req.outputFile.Some? then req.outputFile.value else req.inputFile, edited)
  }

  // -------------------------------------------------- properties of the dispatch

  /** --info shows the input's summaries whatever edits were also asked for. */
  lemma InfoBeforeEdits(doc: seq<Track>, req: Request, toInt: Text -> Option<int>, toFloat: Text -> Option<real>)
    requires WellFormedDoc(doc)
    requires !req.help && req.info
    ensures Run(doc, req, toInt, toFloat) == InfoShown(Summaries(doc))
    ensures forall i :: 0 <= i < |doc| ==> Run(doc, req, toInt, toFloat).info[i] == Summarize(doc[i])
  {
  }

  /** Whether an option, if given, parses and passes its edit's range checks, for n tracks. */
  predicate NameAccepted(n: int, option: Option<Text>, toInt: Text -> Option<int>) {
    option.None? ||
    (var p := Get1Int1String(option.value, toInt); p.Some? && 0 <= p.value.0 < n)
  }

  predicate ChannelAccepted(n: int, option: Option<Text>, toInt: Text -> Option<int>) {
    option.None? ||
    (var p := Get2Ints(option.value, toInt); p.Some? && 0 <= p.value.0 < n && 1 <= p.value.1 <= 16)
  }

  predicate ProgramAccepted(n: int, option: Option<Text>, toInt: Text -> Option<int>) {
    option.None? ||
    (var p := Get2Ints(option.value, toInt); p.Some? && 0 <= p.value.0 < n && 0 <= p.value.1 <= 255)
  }

  predicate NoteAccepted(n: int, option: Option<Text>, toInt: Text -> Option<int>) {
    option.None? ||
    (var p := Get2Ints(option.value, toInt); p.Some? && 0 <= p.value.0 < n && 0 <= p.value.1 <= 127)
  }

  predicate VolumeAccepted(n: int, option: Option<Text>, toInt: Text -> Option<int>, toFloat: Text -> Option<real>) {
    option.None? ||
    (var p := Get1Int1Float(option.value, toInt, toFloat); p.Some? && 0 <= p.value.0 < n)
  }

  predicate AllAccepted(n: int, req: Request, toInt: Text -> Option<int>, toFloat: Text -> Option<real>) {
    NameAccepted(n, req.trackName, toInt) && ChannelAccepted(n, req.channel, toInt) &&
    ProgramAccepted(n, req.programChange, toInt) && NoteAccepted(n, req.noteSet, toInt) &&
    VolumeAccepted(n, req.volume, toInt, toFloat)
  }

  /**
   * The file is written exactly when neither --help nor --info is given and
   * every edit option given parses and is in range; any failure aborts the
   * write, and a written document keeps the input's track count.
   */
  lemma WrittenIffAllAccepted(doc: seq<Track>, req: Request, toInt: Text -> Option<int>, toFloat: Text -> Option<real>)
    requires WellFormedDoc(doc)
    ensures Run(doc, req, toInt, toFloat).Written? <==> !req.help && !req.info && AllAccepted(|doc|, req, toInt, toFloat)
    ensures Run(doc, req, toInt, toFloat).Written? ==> |Run(doc, req, toInt, toFloat).tracks| == |doc|
    ensures Run(doc, req, toInt, toFloat).Written? ==>
      Run(doc, req, toInt, toFloat).path == if req.outputFile.Some? then req.outputFile.value else req.inputFile
  {
  }

  /** Track t of the document starts with the program change event for program p. */
  predicate StartsWithProgram(doc: seq<Track>, t: int, p: Byte) {
    0 <= t < |doc| && |doc[t]| > 0 && doc[t][0] == ProgramChangeEvent(p)
  }

  lemma ProgramEventIsNoNote(p: Byte)
    ensures !IsNote(ProgramChangeEvent(p)) && !IsSysEx(ProgramChangeEvent(p))
    ensures ChannelOf(ProgramChangeEvent(p)) == 0
  {
  }

  /** -n leaves a leading program change event where it is. */
  lemma NoteStepKeepsProgram(doc: seq<Track>, option: Option<Text>, toInt: Text -> Option<int>, t: int, p: Byte)
    requires WellFormedDoc(doc) && StartsWithProgram(doc, t, p)
    requires NoteStep(doc, option, toInt).Some?
    ensures StartsWithProgram(NoteStep(doc, option, toInt).value, t, p)
  {
    if option.Some? {
      var parsed := Get2Ints(option.value, toInt).value;
      if parsed.0 == t {
        ProgramEventIsNoNote(p);
        NotesSetProperties(doc[t], ToByte(parsed.1));
      }
    }
  }

  /** -v leaves a leading program change event where it is. */
  lemma VolumeStepKeepsProgram(doc: seq<Track>, option: Option<Text>, toInt: Text -> Option<int>,
                               toFloat: Text -> Option<real>, t: int, p: Byte)
    requires WellFormedDoc(doc) && StartsWithProgram(doc, t, p)
    requires VolumeStep(doc, option, toInt, toFloat).Some?
    ensures StartsWithProgram(VolumeStep(doc, option, toInt, toFloat).value, t, p)
  {
    if option.Some? {
      var parsed := Get1Int1Float(option.value, toInt, toFloat).value;
      if parsed.0 == t {
        ProgramEventIsNoNote(p);
        VolumeScaledProperties(doc[t], parsed.1);
      }
    }
  }

  /**
   * Because -c runs before -p, the program change event -p inserts is the
   * first event of its track in the written file and keeps channel 0, even
   * when a -c for the same track is given.
   */
  lemma ProgramChangeKeepsChannelZero(doc: seq<Track>, req: Request, toInt: Text -> Option<int>,
                                      toFloat: Text -> Option<real>)
    requires WellFormedDoc(doc)
    requires Run(doc, req, toInt, toFloat).Written? && req.programChange.Some?
    ensures var parsed := Get2Ints(req.programChange.value, toInt);
      parsed.Some? && 0 <= parsed.value.1 <= 255 &&
      StartsWithProgram(Run(doc, req, toInt, toFloat).tracks, parsed.value.0, ToByte(parsed.value.1)) &&
      ChannelOf(Run(doc, req, toInt, toFloat).tracks[parsed.value.0][0]) == 0
  {
    var d1 := NameStep(doc, req.trackName, toInt).value;
    var d2 := ChannelStep(d1, req.channel, toInt).value;
    var d3 := ProgramStep(d2, req.programChange, toInt).value;
    var d4 := NoteStep(d3, req.noteSet, toInt).value;
    var parsed := Get2Ints(req.programChange.value, toInt).value;
    var t, p := parsed.0, ToByte(parsed.1);
    ProgramInsertedProperties(d2[t], p);
    assert StartsWithProgram(d3, t, p);
    NoteStepKeepsProgram(d3, req.noteSet, toInt, t, p);
    VolumeStepKeepsProgram(d4, req.volume, toInt, toFloat, t, p);
    ProgramEventIsNoNote(p);
  }

  /** The -t block of main: parse the option, then track_name. */
  method ApplyTrackName(file: MidiFile, option: Option<Text>, toInt: Text -> Option<int>) returns (ok: bool)
    requires file.Valid()
    modifies file
    ensures file.Valid()
    ensures ok <==> NameStep(old(file.tracks), option, toInt).Some?
    ensures ok ==> file.tracks == NameStep(old(file.tracks), option, toInt).value
    ensures !ok ==> file.tracks == old(file.tracks)
  {
    if option.None? {
      return true;
    }
    var parsed := Get1Int1String(option.value, toInt);
    if parsed.None? {
      return false;
    }
    ok := file.TrackName(parsed.value.0, parsed.value.1);
  }

  /** The -c block of main: parse the option, then channel. */
  method ApplyChannel(file: MidiFile, option: Option<Text>, toInt: Text -> Option<int>) returns (ok: bool)
    requires file.Valid()
    modifies file
    ensures file.Valid()
    ensures ok <==> ChannelStep(old(file.tracks), option, toInt).Some?
    ensures ok ==> file.tracks == ChannelStep(old(file.tracks), option, toInt).value
    ensures !ok ==> file.tracks == old(file.tracks)
  {
    if option.None? {
      return true;
    }
    var parsed := Get2Ints(option.value, toInt);
    if parsed.None? {
      return false;
    }
    ok := file.Channel(parsed.value.0, parsed.value.1);
  }

  /** The -p block of main: parse the option, then program_change. */
  method ApplyProgramChange(file: MidiFile, option: Option<Text>, toInt: Text -> Option<int>) returns (ok: bool)
    requires file.Valid()
    modifies file
    ensures file.Valid()
    ensures ok <==> ProgramStep(old(file.tracks), option, toInt).Some?
    ensures ok ==> file.tracks == ProgramStep(old(file.tracks), option, toInt).value
    ensures !ok ==> file.tracks == old(file.tracks)
  {
    if option.None? {
      return true;
    }
    var parsed := Get2Ints(option.value, toInt);
    if parsed.None? {
      return false;
    }
    ok := file.ProgramChange(parsed.value.0, parsed.value.1);
  }

  /** The -n block of main: parse the option, then note_set. */
  method ApplyNoteSet(file: MidiFile, option: Option<Text>, toInt: Text -> Option<int>) returns (ok: bool)
    requires file.Valid()
    modifies file
    ensures file.Valid()
    ensures ok <==> NoteStep(old(file.tracks), option, toInt).Some?
    ensures ok ==> file.tracks == NoteStep(old(file.tracks), option, toInt).value
    ensures !ok ==> file.tracks == old(file.tracks)
  {
    if option.None? {
      return true;
    }
    var parsed := Get2Ints(option.value, toInt);
    if parsed.None? {
      return false;
    }
    ok := file.NoteSet(parsed.value.0, parsed.value.1);
  }

  /** The -v block of main: parse the option, then volume_change. */
  method ApplyVolume(file: MidiFile, option: Option<Text>, toInt: Text -> Option<int>,
                     toFloat: Text -> Option<real>) returns (ok: bool)
    requires file.Valid()
    modifies file
    ensures file.Valid()
    ensures ok <==> VolumeStep(old(file.tracks), option, toInt, toFloat).Some?
    ensures ok ==> file.tracks == VolumeStep(old(file.tracks), option, toInt, toFloat).value
    ensures !ok ==> file.tracks == old(file.tracks)
  {
    if option.None? {
      return true;
    }
    var parsed := Get1Int1Float(option.value, toInt, toFloat);
    if parsed.None? {
      return false;
    }
    ok := file.VolumeChange(parsed.value.0, parsed.value.1);
  }

  /**
   * main after the file is read (help comes first, as in the source): info,
   * or the edits in order with an abort on the first failure, then the write.
   */
  method RunEditor(file: MidiFile, req: Request, toInt: Text -> Option<int>, toFloat: Text -> Option<real>)
    returns (exit: Exit)
    requires file.Valid()
    modifies file
    ensures file.Valid()
    ensures exit == Run(old(file.tracks), req, toInt, toFloat)
    ensures exit.Written? ==> file.tracks == exit.tracks
    ensures exit.HelpShown? || exit.InfoShown? ==> file.tracks == old(file.tracks)
  {
    if req.help {
      return HelpShown;
    }
    if req.info {
      var info := file.Info();
      return InfoShown(info);
    }
    ghost var d0 := file.tracks;
    var ok := ApplyTrackName(file, req.trackName, toInt);
    if !ok {
      return Failed;
    }
    ghost var d1 := file.tracks;
    ok := ApplyChannel(file, req.channel, toInt);
    if !ok {
      return Failed;
    }
    ghost var d2 := file.tracks;
    ok := ApplyProgramChange(file, req.programChange, toInt);
    if !ok {
      return Failed;
    }
    ghost var d3 := file.tracks;
    ok := ApplyNoteSet(file, req.noteSet, toInt);
    if !ok {
      return Failed;
    }
    ghost var d4 := file.tracks;
    ok := ApplyVolume(file, req.volume, toInt, toFloat);
    if !ok {
      return Failed;
    }
    assert Edited(d0, req, toInt, toFloat) == Some(file.tracks);
    if req.outputFile.Some? {
      exit := Written(req.outputFile.value, file.tracks);
    } else {
      exit := Written(req.inputFile, file.tracks);
    }
  }
}
