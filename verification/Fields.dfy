/**
 The field names of a target change, and the client's decoder for one field
 (crates/mpv-targets/src/client.rs).
 */
module Fields {
  import opened Wrappers
  import opened Json
  import opened Decimal
  import opened Protocol

  datatype Field =
    | Disabled | Stopped | Online | Channel
    | Paused | Muted | Volume | Title | PlaylistPosition | PlaylistCount | IdleActive
    | Duration | Position | LoopFile | LoopPlaylist | AudioTrack | SubtitleTrack | SubtitlesVisible
    | LastEndReason | LastEndError

  function FieldName(f: Field): string {
    match f
    case Disabled => "disabled"
    case Stopped => "stopped"
    case Online => "online"
    case Channel => "channel"
    case Paused => "paused"
    case Muted => "muted"
    case Volume => "volume"
    case Title => "title"
    case PlaylistPosition => "playlist_position"
    case PlaylistCount => "playlist_count"
    case IdleActive => "idle_active"
    case Duration => "duration"
    case Position => "position"
    case LoopFile => "loop_file"
    case LoopPlaylist => "loop_playlist"
    case AudioTrack => "audio_track"
    case SubtitleTrack => "subtitle_track"
    case SubtitlesVisible => "subtitles_visible"
    case LastEndReason => "last_end_reason"
    case LastEndError => "last_end_error"
  }

  /** The client's match on the key text. */
  function FieldOf(key: string): Option<Field> {
    match key
    case "disabled" => Some(Disabled)
    case "stopped" => Some(Stopped)
    case "online" => Some(Online)
    case "channel" => Some(Channel)
    case "paused" => Some(Paused)
    case "muted" => Some(Muted)
    case "volume" => Some(Volume)
    case "title" => Some(Title)
    case "playlist_position" => Some(PlaylistPosition)
    case "playlist_count" => Some(PlaylistCount)
    case "idle_active" => Some(IdleActive)
    case "duration" => Some(Duration)
    case "position" => Some(Position)
    case "loop_file" => Some(LoopFile)
    case "loop_playlist" => Some(LoopPlaylist)
    case "audio_track" => Some(AudioTrack)
    case "subtitle_track" => Some(SubtitleTrack)
    case "subtitles_visible" => Some(SubtitlesVisible)
    case "last_end_reason" => Some(LastEndReason)
    case "last_end_error" => Some(LastEndError)
    case _ => None
  }

  lemma FieldOfFieldName(f: Field)
    ensures FieldOf(FieldName(f)) == Some(f)
  {
    match f
    case Disabled => case Stopped => case Online => case Channel => case Paused =>
    case Muted => case Volume => case Title => case PlaylistPosition => case PlaylistCount =>
    case IdleActive => case Duration => case Position => case LoopFile => case LoopPlaylist =>
    case AudioTrack => case SubtitleTrack => case SubtitlesVisible => case LastEndReason =>
    case LastEndError =>
  }

  lemma FieldNameOfFieldOf(key: string)
    ensures FieldOf(key).Some? ==> FieldName(FieldOf(key).value) == key
  {
  }

  lemma FieldNamesDiffer()
    ensures forall f, g :: FieldName(f) == FieldName(g) ==> f == g
  {
    forall f, g | FieldName(f) == FieldName(g) ensures f == g {
      FieldOfFieldName(f);
      FieldOfFieldName(g);
    }
  }

  // ---- The object of changed fields, typed and on the wire ----

  /** A set of changed fields before it is written as a JSON object. */
  type Changes = map<Field, Json>

  function ToObject(changes: Changes): Json {
    FieldNamesDiffer();
    Obj(map f | f in changes :: FieldName(f) := changes[f])
  }

  /** The fields of an object the client knows, typed. */
  function KnownChanges(fields: map<string, Json>): Changes {
    map f | FieldName(f) in fields :: fields[FieldName(f)]
  }

  /** The typed fields of an object; nothing if the object has a key the client does not know. */
  function FromObject(fields: map<string, Json>): Option<Changes> {
    if exists key | key in fields :: FieldOf(key).None? then None
    else Some(KnownChanges(fields))
  }

  /** Reading back a written object gives the same changed fields. */
  lemma ObjectRoundTrip(changes: Changes)
    ensures ToObject(changes).Obj? && FromObject(ToObject(changes).fields) == Some(changes)
  {
    var fields := ToObject(changes).fields;
    forall key | key in fields ensures FieldOf(key).Some? {
      var f :| f in changes && FieldName(f) == key;
      FieldOfFieldName(f);
    }
    FieldNamesDiffer();
    assert FromObject(fields).value == changes;
  }

  // ---- Decoding one value ----

  function RequiredBool(v: Json): Option<bool> { AsBool(v) }

  function Nullable<T>(v: Json, parsed: Option<T>): Option<Option<T>> {
    if v.Null? then Some(None) else if parsed.Some? then Some(Some(parsed.value)) else None
  }

  function OptionalBool(v: Json): Option<Option<bool>> { Nullable(v, RequiredBool(v)) }

  function OptionalNumber(v: Json): Option<Option<real>> { Nullable(v, AsF64(v)) }

  function OptionalU32(v: Json): Option<Option<nat>> { Nullable(v, ToU32(AsU64(v))) }

  function OptionalString(v: Json): Option<Option<string>> { Nullable(v, AsStr(v)) }

  function OptionalTrack(v: Json): Option<Option<string>> {
    if v.Null? then Some(None)
    else if v.Str? then Some(Some(v.s))
    else if AsI64(v).Some? then Some(Some(IntToString(AsI64(v).value)))
    else None
  }

  function ReasonName(reason: MediaEndReason): string {
    match reason
    case Eof => "eof"
    case Stop => "stop"
    case Quit => "quit"
    case Error => "error"
    case Redirect => "redirect"
    case Unknown => "unknown"
  }

  function ReasonOf(name: string): Option<MediaEndReason> {
    match name
    case "eof" => Some(Eof)
    case "stop" => Some(Stop)
    case "quit" => Some(Quit)
    case "error" => Some(Error)
    case "redirect" => Some(Redirect)
    case "unknown" => Some(Unknown)
    case _ => None
  }

  lemma ReasonRoundTrip(reason: MediaEndReason)
    ensures ReasonOf(ReasonName(reason)) == Some(reason)
  {
  }

  /** Besides its name, serde reads a unit variant from an object whose one key is the name and whose value is null. */
  function OptionalEndReason(v: Json): Option<Option<MediaEndReason>> {
    if v.Null? then Some(None)
    else if v.Str? then Nullable(v, ReasonOf(v.s))
    else if v.Obj? && |v.fields| == 1 && (exists key | key in v.fields :: v.fields[key].Null? && ReasonOf(key).Some?)
    then Some(Some(TheReason(v.fields)))
    else None
  }

  function TheReason(fields: map<string, Json>): MediaEndReason
    requires |fields| == 1 && exists key | key in fields :: ReasonOf(key).Some?
  {
    assert forall a, b | a in fields.Keys && b in fields.Keys :: a == b by {
      forall a, b | a in fields.Keys && b in fields.Keys ensures a == b {
        assert |fields.Keys - {a}| == 0;
      }
    }
    var key :| key in fields && ReasonOf(key).Some?;
    ReasonOf(key).value
  }
}
