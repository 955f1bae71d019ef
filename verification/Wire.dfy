/**
 What the client reads out of a change object, key by key and JSON value by JSON
 value (crates/mpv-targets/src/client.rs).
 */
module Wire {
  import opened Wrappers
  import opened Json
  import opened Decimal
  import opened Protocol
  import opened Fields
  import opened Delta
  import opened Observed

  // ---- What the values mean, kind by kind; nothing if the value is rejected ----

  ghost predicate ReadsFlag(v: Json, read: Option<Option<bool>>) {
    match v
    case Null => read == Some(None)
    case Bool(b) => read == Some(Some(b))
    case _ => read == None
  }

  ghost predicate ReadsNumber(v: Json, read: Option<Option<real>>) {
    match v
    case Null => read == Some(None)
    case Num(Integer(i)) => read == Some(Some(i as real))
    case Num(Float(x)) => read == Some(Some(x))
    case _ => read == None
  }

  ghost predicate ReadsText(v: Json, read: Option<Option<string>>) {
    match v
    case Null => read == Some(None)
    case Str(text) => read == Some(Some(text))
    case _ => read == None
  }

  ghost predicate ReadsCount(v: Json, read: Option<Option<nat>>) {
    match v
    case Null => read == Some(None)
    case Num(Integer(i)) => read == if 0 <= i <= 0xffff_ffff then Some(Some(i)) else None
    case _ => read == None
  }

  ghost predicate ReadsTrack(v: Json, read: Option<Option<string>>) {
    match v
    case Null => read == Some(None)
    case Str(text) => read == Some(Some(text))
    case Num(Integer(i)) =>
      if -0x8000_0000_0000_0000 <= i < 0x8000_0000_0000_0000
      then read.Some? && read.value.Some? && SpellsInt(read.value.value, i) else read == None
    case _ => read == None
  }

  /** The reason a text names. */
  ghost predicate Names(text: string, reason: Option<MediaEndReason>) {
    match text
    case "eof" => reason == Some(Eof)
    case "stop" => reason == Some(MediaEndReason.Stop)
    case "quit" => reason == Some(Quit)
    case "error" => reason == Some(MediaEndReason.Error)
    case "redirect" => reason == Some(Redirect)
    case "unknown" => reason == Some(Unknown)
    case _ => reason == None
  }

  /** A reason is its name, or an object with that one key and null under it. */
  ghost predicate ReadsReason(v: Json, read: Option<Option<MediaEndReason>>) {
    match v
    case Null => read == Some(None)
    case Str(text) =>
      Names(text, match read case Some(reason) => reason case None => None) && read != Some(None)
    case Obj(fields) =>
      if read.None? then forall text | fields == map[text := Null] :: Names(text, None)
      else read.value.Some? && exists text :: fields == map[text := Null] && Names(text, read.value)
    case _ => read == None
  }

  /** One key of a change object: the slot it is for, and what becomes of the record. */
  ghost predicate ReadsKey(key: string, v: Json, r: TargetRecord, read: Option<TargetRecord>) {
    match key
    case "disabled" => read == (match v case Bool(b) => Some(r.(disabled := b)) case _ => None)
    case "stopped" => read == (match v case Bool(b) => Some(r.(stopped := b)) case _ => None)
    case "online" => read == (match v case Bool(b) => Some(r.(online := b)) case _ => None)
    case "channel" =>
      exists d :: ReadsText(v, d) && read == if d.None? then None else Some(r.(channel := d.value))
    case _ => ReadsStateKey(key, v, r, read)
  }

  ghost predicate ReadsStateKey(key: string, v: Json, r: TargetRecord, read: Option<TargetRecord>) {
    match key
    case "paused" => exists d :: ReadsFlag(v, d) && read == State(r, d.None?, r.state.(paused := Or(d)))
    case "muted" => exists d :: ReadsFlag(v, d) && read == State(r, d.None?, r.state.(muted := Or(d)))
    case "volume" => exists d :: ReadsNumber(v, d) && read == State(r, d.None?, r.state.(volume := Or(d)))
    case "title" => exists d :: ReadsText(v, d) && read == State(r, d.None?, r.state.(title := Or(d)))
    case "playlist_position" =>
      exists d :: ReadsCount(v, d) && read == State(r, d.None?, r.state.(playlistPosition := Or(d)))
    case "playlist_count" =>
      exists d :: ReadsCount(v, d) && read == State(r, d.None?, r.state.(playlistCount := Or(d)))
    case "idle_active" => exists d :: ReadsFlag(v, d) && read == State(r, d.None?, r.state.(idleActive := Or(d)))
    case "duration" => exists d :: ReadsNumber(v, d) && read == State(r, d.None?, r.state.(duration := Or(d)))
    case "position" => exists d :: ReadsNumber(v, d) && read == State(r, d.None?, r.state.(position := Or(d)))
    case "loop_file" => exists d :: ReadsText(v, d) && read == State(r, d.None?, r.state.(loopFile := Or(d)))
    case "loop_playlist" => exists d :: ReadsText(v, d) && read == State(r, d.None?, r.state.(loopPlaylist := Or(d)))
    case "audio_track" => exists d :: ReadsTrack(v, d) && read == State(r, d.None?, r.state.(audioTrack := Or(d)))
    case "subtitle_track" => exists d :: ReadsTrack(v, d) && read == State(r, d.None?, r.state.(subtitleTrack := Or(d)))
    case "subtitles_visible" =>
      exists d :: ReadsFlag(v, d) && read == State(r, d.None?, r.state.(subtitlesVisible := Or(d)))
    case "last_end_reason" =>
      exists d :: ReadsReason(v, d) && read == State(r, d.None?, r.state.(lastEndReason := Or(d)))
    case "last_end_error" => exists d :: ReadsText(v, d) && read == State(r, d.None?, r.state.(lastEndError := Or(d)))
    case _ => read == None
  }

  /** What was decoded, if anything was. */
  function Or<T>(d: Option<Option<T>>): Option<T> { if d.Some? then d.value else None }

  function State(r: TargetRecord, rejected: bool, st: TargetState): Option<TargetRecord> {
    if rejected then None else Some(r.(state := st))
  }

  // ---- That is what is read ----

  /** What a change object with this one key makes of a record. */
  ghost function ReadOne(r: TargetRecord, key: string, v: Json): Option<TargetRecord> {
    var changes := FromObject(map[key := v]); if changes.None? then None else ApplyChanges(r, changes.value)
  }

  lemma OneField(r: TargetRecord, key: string, v: Json)
    ensures ReadOne(r, key, v) == if FieldOf(key).None? then None else SetField(r, FieldOf(key).value, v)
  {
    hide SetField, FieldOf, FieldName, ApplyChanges;
    var fields := map[key := v];
    if FieldOf(key).Some? {
      var f := FieldOf(key).value;
      FieldNameOfFieldOf(key);
      FieldNamesDiffer();
      assert KnownChanges(fields) == map[f := v];
      SingleChange(r, f, v);
    } else {
      assert key in fields;
    }
  }

  lemma ScalarsRead(v: Json)
    ensures ReadsFlag(v, OptionalBool(v)) && ReadsNumber(v, OptionalNumber(v))
    ensures ReadsText(v, OptionalString(v)) && ReadsCount(v, OptionalU32(v))
  {
  }

  lemma TracksRead(v: Json)
    ensures ReadsTrack(v, OptionalTrack(v))
  {
    if v.Num? && v.n.Integer? { IntIsSpelled(v.n.i); }
  }

  lemma ReasonsNamed(text: string)
    ensures Names(text, ReasonOf(text))
  {
  }

  lemma OnlyKey(fields: map<string, Json>, text: string)
    ensures fields == map[text := Null] <==> |fields| == 1 && text in fields && fields[text].Null?
  {
    if |fields| == 1 && text in fields && fields[text].Null? {
      assert |fields.Keys - {text}| == 0;
      assert fields.Keys == {text};
    }
  }

  lemma ReasonsRead(v: Json)
    ensures ReadsReason(v, OptionalEndReason(v))
  {
    hide ReasonOf, Names;
    forall text ensures Names(text, ReasonOf(text)) { ReasonsNamed(text); }
    if v.Obj? {
      forall text ensures v.fields == map[text := Null] <==> |v.fields| == 1 && text in v.fields && v.fields[text].Null?
      {
        OnlyKey(v.fields, text);
      }
    }
  }

  lemma FlagsRead(r: TargetRecord, v: Json)
    ensures ReadsKey("disabled", v, r, SetField(r, Disabled, v))
    ensures ReadsKey("stopped", v, r, SetField(r, Stopped, v))
    ensures ReadsKey("online", v, r, SetField(r, Online, v))
    ensures ReadsKey("channel", v, r, SetField(r, Channel, v))
  {
    ScalarsRead(v);
  }

  lemma SwitchArms(r: TargetRecord, v: Json)
    ensures SetField(r, Paused, v)
            == State(r, OptionalBool(v).None?, r.state.(paused := Or(OptionalBool(v))))
    ensures SetField(r, Muted, v)
            == State(r, OptionalBool(v).None?, r.state.(muted := Or(OptionalBool(v))))
    ensures SetField(r, IdleActive, v)
            == State(r, OptionalBool(v).None?, r.state.(idleActive := Or(OptionalBool(v))))
    ensures SetField(r, SubtitlesVisible, v)
            == State(r, OptionalBool(v).None?, r.state.(subtitlesVisible := Or(OptionalBool(v))))
  {
    hide OptionalBool;
  }

  lemma NumberArms(r: TargetRecord, v: Json)
    ensures SetField(r, Volume, v)
            == State(r, OptionalNumber(v).None?, r.state.(volume := Or(OptionalNumber(v))))
    ensures SetField(r, Duration, v)
            == State(r, OptionalNumber(v).None?, r.state.(duration := Or(OptionalNumber(v))))
    ensures SetField(r, Field.Position, v)
            == State(r, OptionalNumber(v).None?, r.state.(position := Or(OptionalNumber(v))))
    ensures SetField(r, PlaylistPosition, v)
            == State(r, OptionalU32(v).None?, r.state.(playlistPosition := Or(OptionalU32(v))))
    ensures SetField(r, PlaylistCount, v)
            == State(r, OptionalU32(v).None?, r.state.(playlistCount := Or(OptionalU32(v))))
  {
    hide OptionalNumber, OptionalU32;
  }

  lemma TextArms(r: TargetRecord, v: Json)
    ensures SetField(r, Title, v)
            == State(r, OptionalString(v).None?, r.state.(title := Or(OptionalString(v))))
    ensures SetField(r, LoopFile, v)
            == State(r, OptionalString(v).None?, r.state.(loopFile := Or(OptionalString(v))))
    ensures SetField(r, LoopPlaylist, v)
            == State(r, OptionalString(v).None?, r.state.(loopPlaylist := Or(OptionalString(v))))
    ensures SetField(r, LastEndError, v)
            == State(r, OptionalString(v).None?, r.state.(lastEndError := Or(OptionalString(v))))
  {
    hide OptionalString;
  }

  lemma OtherArms(r: TargetRecord, v: Json)
    ensures SetField(r, AudioTrack, v)
            == State(r, OptionalTrack(v).None?, r.state.(audioTrack := Or(OptionalTrack(v))))
    ensures SetField(r, SubtitleTrack, v)
            == State(r, OptionalTrack(v).None?, r.state.(subtitleTrack := Or(OptionalTrack(v))))
    ensures SetField(r, LastEndReason, v)
            == State(r, OptionalEndReason(v).None?, r.state.(lastEndReason := Or(OptionalEndReason(v))))
  {
    hide OptionalEndReason, OptionalTrack;
  }

  lemma SwitchKeys(r: TargetRecord, f: Field, v: Json)
    requires f.Paused? || f.Muted? || f.IdleActive? || f.SubtitlesVisible?
    ensures ReadsStateKey(FieldName(f), v, r, SetField(r, f, v))
  {
    hide SetField, FieldOf, ReadsText, ReadsFlag, ReadsNumber, ReadsCount, ReadsTrack, ReadsReason, State, Or;
    hide OptionalBool, OptionalNumber, OptionalU32, OptionalString, OptionalTrack, OptionalEndReason;
    SwitchArms(r, v);
    ScalarsRead(v);
  }

  lemma NumberKeys(r: TargetRecord, f: Field, v: Json)
    requires f.Volume? || f.Duration? || f.Position?
    ensures ReadsStateKey(FieldName(f), v, r, SetField(r, f, v))
  {
    hide SetField, FieldOf, ReadsText, ReadsFlag, ReadsNumber, ReadsCount, ReadsTrack, ReadsReason, State, Or;
    hide OptionalBool, OptionalNumber, OptionalU32, OptionalString, OptionalTrack, OptionalEndReason;
    NumberArms(r, v);
    ScalarsRead(v);
  }

  lemma CountKeys(r: TargetRecord, f: Field, v: Json)
    requires f.PlaylistPosition? || f.PlaylistCount?
    ensures ReadsStateKey(FieldName(f), v, r, SetField(r, f, v))
  {
    hide SetField, FieldOf, ReadsText, ReadsFlag, ReadsNumber, ReadsCount, ReadsTrack, ReadsReason, State, Or;
    hide OptionalBool, OptionalNumber, OptionalU32, OptionalString, OptionalTrack, OptionalEndReason;
    NumberArms(r, v);
    ScalarsRead(v);
  }

  lemma TextKeys(r: TargetRecord, f: Field, v: Json)
    requires f.Title? || f.LoopFile? || f.LoopPlaylist? || f.LastEndError?
    ensures ReadsStateKey(FieldName(f), v, r, SetField(r, f, v))
  {
    hide SetField, FieldOf, ReadsText, ReadsFlag, ReadsNumber, ReadsCount, ReadsTrack, ReadsReason, State, Or;
    hide OptionalBool, OptionalNumber, OptionalU32, OptionalString, OptionalTrack, OptionalEndReason;
    TextArms(r, v);
    ScalarsRead(v);
  }

  lemma OtherKeys(r: TargetRecord, f: Field, v: Json)
    requires f.AudioTrack? || f.SubtitleTrack? || f.LastEndReason?
    ensures ReadsStateKey(FieldName(f), v, r, SetField(r, f, v))
  {
    hide SetField, FieldOf, ReadsText, ReadsFlag, ReadsNumber, ReadsCount, ReadsTrack, ReadsReason, State, Or;
    hide OptionalBool, OptionalNumber, OptionalU32, OptionalString, OptionalTrack, OptionalEndReason;
    OtherArms(r, v);
    TracksRead(v);
    ReasonsRead(v);
  }

  lemma StateFieldIsRead(r: TargetRecord, f: Field, v: Json)
    requires !TopLevel(f)
    ensures ReadsStateKey(FieldName(f), v, r, SetField(r, f, v))
  {
    hide SetField, FieldName, ReadsStateKey;
    match f
    case Paused | Muted | IdleActive | SubtitlesVisible => SwitchKeys(r, f, v);
    case Volume | Duration | Position => NumberKeys(r, f, v);
    case PlaylistPosition | PlaylistCount => CountKeys(r, f, v);
    case Title | LoopFile | LoopPlaylist | LastEndError => TextKeys(r, f, v);
    case AudioTrack | SubtitleTrack | LastEndReason => OtherKeys(r, f, v);
  }

  lemma StrangeKeyIsRejected(r: TargetRecord, key: string, v: Json)
    requires FieldOf(key).None?
    ensures ReadsKey(key, v, r, None)
  {
  }

  lemma TopKeyIsRead(r: TargetRecord, f: Field, v: Json)
    requires TopLevel(f)
    ensures ReadsKey(FieldName(f), v, r, SetField(r, f, v))
  {
    hide SetField, FieldOf, ReadsText, ReadsStateKey;
    FlagsRead(r, v);
  }

  lemma StateKey(r: TargetRecord, f: Field, v: Json)
    requires !TopLevel(f)
    ensures ReadsKey(FieldName(f), v, r, SetField(r, f, v)) <==> ReadsStateKey(FieldName(f), v, r, SetField(r, f, v))
  {
    hide SetField, FieldOf, ReadsText, ReadsStateKey;
  }

  /** Every key is read into its own slot, the values it takes as what they say, and no other key is known. */
  lemma KeyIsRead(r: TargetRecord, key: string, v: Json)
    ensures ReadsKey(key, v, r, ReadOne(r, key, v))
  {
    hide SetField, ReadOne, FieldName, FieldOf, ReadsKey, ReadsStateKey;
    OneField(r, key, v);
    if FieldOf(key).None? {
      StrangeKeyIsRejected(r, key, v);
    } else {
      var f := FieldOf(key).value;
      FieldNameOfFieldOf(key);
      if TopLevel(f) {
        TopKeyIsRead(r, f, v);
      } else {
        StateFieldIsRead(r, f, v);
        StateKey(r, f, v);
      }
    }
  }
}
