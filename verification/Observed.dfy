/**
 The daemon's side of an observed mpv property: normalisation, the update of
 the stored state, and the reasons a file ended (crates/mpv-targetsd/src/supervisor.rs).
 */
module Observed {
  import opened Wrappers
  import opened Json
  import opened Decimal
  import opened Protocol
  import opened Fields
  import opened Delta

  function LoopState(v: Json): Option<string> {
    match v
    case Bool(enabled) => Some(OnOff(enabled))
    case Num(_) => if AsI64(v).None? then None else Some(OnOff(AsI64(v).value != 0))
    case Str(text) => Some(OnOff(!(text == "no" || text == "off" || text == "false" || text == "0")))
    case _ => None
  }

  function OnOff(enabled: bool): string { if enabled then "on" else "off" }

  function Normalize(f: Field, v: Json): Json {
    if (f.LoopFile? || f.LoopPlaylist?) && LoopState(v).Some? then Str(LoopState(v).value)
    else if f.Position? && AsF64(v).Some? then Num(Float(AsF64(v).value.Floor as real))
    else if f.PlaylistPosition? && AsI64(v).Some? && AsI64(v).value < 0 then Null
    else v
  }

  /** The fields mpv's observed properties feed. */
  predicate IsObserved(f: Field) {
    !TopLevel(f) && !f.LastEndReason? && !f.LastEndError?
  }

  /** `OBSERVED_PROPERTIES`: the mpv properties that are observed, and the fields they feed. */
  function ObservedField(property: string): Option<Field> {
    match property
    case "pause" => Some(Paused)
    case "mute" => Some(Muted)
    case "volume" => Some(Volume)
    case "media-title" => Some(Title)
    case "playlist-pos" => Some(PlaylistPosition)
    case "playlist-count" => Some(PlaylistCount)
    case "idle-active" => Some(IdleActive)
    case "duration" => Some(Duration)
    case "time-pos" => Some(Position)
    case "loop-file" => Some(LoopFile)
    case "loop-playlist" => Some(LoopPlaylist)
    case "aid" => Some(AudioTrack)
    case "sid" => Some(SubtitleTrack)
    case "sub-visibility" => Some(SubtitlesVisible)
    case _ => None
  }

  lemma ObservedFieldIsObserved(property: string)
    ensures ObservedField(property).Some? ==> IsObserved(ObservedField(property).value)
  {
  }

  /** The state with the slot of `f` overwritten, or nothing if the value does not fit the slot. */
  function Assign(st: TargetState, f: Field, v: Json): Option<TargetState> {
    match f
    case Paused => var n := Nullable(v, AsBool(v)); if n.None? then None else Some(st.(paused := n.value))
    case Muted => var n := Nullable(v, AsBool(v)); if n.None? then None else Some(st.(muted := n.value))
    case Volume => var n := Nullable(v, AsF64(v)); if n.None? then None else Some(st.(volume := n.value))
    case Title => var n := Nullable(v, AsStr(v)); if n.None? then None else Some(st.(title := n.value))
    case PlaylistPosition =>
      if v.Null? then Some(st.(playlistPosition := None))
      else var n := ToU32(AsI64(v)); if n.None? then None else Some(st.(playlistPosition := n))
    case PlaylistCount =>
      if v.Null? then Some(st.(playlistCount := None))
      else var n := ToU32(AsI64(v)); if n.None? then None else Some(st.(playlistCount := n))
    case IdleActive => var n := Nullable(v, AsBool(v)); if n.None? then None else Some(st.(idleActive := n.value))
    case Duration => var n := Nullable(v, AsF64(v)); if n.None? then None else Some(st.(duration := n.value))
    case Position => var n := Nullable(v, AsF64(v)); if n.None? then None else Some(st.(position := n.value))
    case LoopFile =>
      if v.Null? then Some(st.(loopFile := None))
      else var n := LoopState(v); if n.None? then None else Some(st.(loopFile := n))
    case LoopPlaylist =>
      if v.Null? then Some(st.(loopPlaylist := None))
      else var n := LoopState(v); if n.None? then None else Some(st.(loopPlaylist := n))
    case AudioTrack => var n := TrackText(v); if n.None? then None else Some(st.(audioTrack := n.value))
    case SubtitleTrack => var n := TrackText(v); if n.None? then None else Some(st.(subtitleTrack := n.value))
    case SubtitlesVisible =>
      var n := Nullable(v, AsBool(v)); if n.None? then None else Some(st.(subtitlesVisible := n.value))
    case _ => None
  }

  function TrackText(v: Json): Option<Option<string>> {
    if v.Null? then Some(None)
    else if AsStr(v).Some? then Some(AsStr(v))
    else if AsI64(v).Some? then Some(Some(IntToString(AsI64(v).value)))
    else None
  }

  /** `apply_observed_update`: the new state, but only if the value fits and changes something. */
  function ApplyObserved(st: TargetState, f: Field, v: Json): Option<TargetState> {
    var next := Assign(st, f, v);
    if next.None? || next.value == st then None else next
  }

  /**
   After normalisation the daemon and the client read every value of every
   observed field alike: they accept the same values and store the same slot.
   */
  lemma NormalizedValuesAgree(st: TargetState, f: Field, v: Json)
    requires IsObserved(f)
    ensures Assign(st, f, Normalize(f, v)) == SetState(st, f, Normalize(f, v))
  {
    match f
    case Paused => case Muted => case Volume => case Title => case PlaylistPosition =>
    case PlaylistCount => case IdleActive => case Duration => case Position => case LoopFile =>
    case LoopPlaylist => case AudioTrack => case SubtitleTrack => case SubtitlesVisible =>
  }

  /** Without normalisation they would not: mpv's `inf` is `on` to the daemon and `inf` to the client. */
  lemma NormalizationIsNeeded(st: TargetState)
    ensures Assign(st, LoopFile, Str("inf")) != SetState(st, LoopFile, Str("inf"))
  {
    assert "on"[0] != "inf"[0];
  }

  /** A change of one field means: that field decoded. */
  lemma SingleChange(r: TargetRecord, f: Field, v: Json)
    ensures ApplyChanges(r, map[f := v]) == SetField(r, f, v)
  {
    var changes: Changes := map[f := v];
    assert [f][..0] == [];
    assert Fold(r, changes, [f]) == SetField(r, f, v);
    OrderIrrelevant(r, changes, [f]);
  }

  /** A change of two fields means: one decoded after the other. */
  lemma TwoChanges(r: TargetRecord, f: Field, v: Json, g: Field, w: Json)
    requires f != g
    ensures ApplyChanges(r, map[f := v, g := w])
            == if SetField(r, f, v).None? then None else SetField(SetField(r, f, v).value, g, w)
  {
    var changes: Changes := map[f := v, g := w];
    var order := [f, g];
    assert order[..1] == [f] && order[..1][..0] == [];
    assert Fold(r, changes, order[..1]) == SetField(r, f, v);
    OrderIrrelevant(r, changes, order);
  }

  /** The encode/decode agreement: what the daemon stored is what the client reads from the emitted change. */
  lemma ObservedUpdateAgrees(r: TargetRecord, f: Field, v: Json)
    requires IsObserved(f)
    ensures var value := Normalize(f, v);
            var stored := ApplyObserved(r.state, f, value);
            stored.Some? ==> ApplyChanges(r, map[f := value]) == Some(r.(state := stored.value))
  {
    NormalizedValuesAgree(r.state, f, v);
    SingleChange(r, f, Normalize(f, v));
  }

  function MediaEndReasonOf(reason: Option<string>): MediaEndReason {
    if reason == Some("eof") then Eof
    else if reason == Some("stop") then Stop
    else if reason == Some("quit") then Quit
    else if reason == Some("error") then Error
    else if reason == Some("redirect") then Redirect
    else Unknown
  }

  /** The daemon reads the reasons the client knows by the client's own names, and everything else as unknown. */
  lemma MediaEndReasonAgrees(name: string)
    ensures MediaEndReasonOf(Some(name)) == if ReasonOf(name).Some? then ReasonOf(name).value else Unknown
  {
  }

  // ---- What the observer reads ----

  /** A line from mpv that parses: a property change, the end of a file, the loading of one, or anything else. */
  datatype MpvMessage =
    | PropertyChange(property: Option<string>, data: Option<Json>)
    | EndFile(reason: Option<string>, fileError: Option<string>)
    | FileLoaded
    | OtherMessage

  /** An empty error text counts as none. */
  function NonEmpty(text: Option<string>): Option<string> {
    if text.Some? && text.value == [] then None else text
  }

  /** What the daemon's observed state should be once it has read the message. */
  function ObservedAfter(st: TargetState, message: MpvMessage): TargetState {
    match message
    case PropertyChange(property, data) =>
      var field := if property.Some? then ObservedField(property.value) else None;
      if field.None? then st
      else
        var stored := ApplyObserved(st, field.value, Normalize(field.value, if data.Some? then data.value else Null));
        if stored.Some? then stored.value else st
    case EndFile(reason, fileError) =>
      st.(lastEndReason := Some(MediaEndReasonOf(reason)), lastEndError := NonEmpty(fileError))
    case FileLoaded => st.(lastEndReason := None, lastEndError := None)
    case OtherMessage => st
  }

  // ---- What a report means, slot by slot, whatever the code does to get there ----

  ghost predicate HearsFlag(v: Json, before: Option<bool>, after: Option<bool>) {
    match v
    case Null => after == None
    case Bool(b) => after == Some(b)
    case _ => after == before
  }

  ghost predicate HearsNumber(v: Json, before: Option<real>, after: Option<real>) {
    match v
    case Null => after == None
    case Num(Integer(i)) => after == Some(i as real)
    case Num(Float(x)) => after == Some(x)
    case _ => after == before
  }

  ghost predicate HearsText(v: Json, before: Option<string>, after: Option<string>) {
    match v
    case Null => after == None
    case Str(text) => after == Some(text)
    case _ => after == before
  }

  /** A time is cut down to whole seconds. */
  ghost predicate HearsTime(v: Json, before: Option<real>, after: Option<real>) {
    match v
    case Null => after == None
    case Num(n) =>
      var x := match n case Integer(i) => i as real case Float(x) => x;
      after.Some? && after.value.Floor as real == after.value && after.value <= x < after.value + 1.0
    case _ => after == before
  }

  /** A count is taken as it is if it fits 32 bits. */
  ghost predicate HearsCount(v: Json, before: Option<nat>, after: Option<nat>) {
    match v
    case Null => after == None
    case Num(Integer(i)) => after == if 0 <= i <= 0xffff_ffff then Some(i) else before
    case _ => after == before
  }

  /** A place in the playlist is a count, but a negative 64-bit number means there is none. */
  ghost predicate HearsPlace(v: Json, before: Option<nat>, after: Option<nat>) {
    if v.Num? && v.n.Integer? && -0x8000_0000_0000_0000 <= v.n.i < 0 then after == None
    else HearsCount(v, before, after)
  }

  /** Off is what mpv's ways of saying no say, and nothing else. */
  ghost predicate HearsLoop(v: Json, before: Option<string>, after: Option<string>) {
    match v
    case Null => after == None
    case Bool(b) => after == Some(if b then "on" else "off")
    case Num(Integer(i)) =>
      after == if -0x8000_0000_0000_0000 <= i < 0x8000_0000_0000_0000 then Some(if i == 0 then "off" else "on")
               else before
    case Str(text) => after == Some(if text in {"no", "off", "false", "0"} then "off" else "on")
    case _ => after == before
  }

  /** A track is named by a text or by a 64-bit number. */
  ghost predicate HearsTrack(v: Json, before: Option<string>, after: Option<string>) {
    match v
    case Null => after == None
    case Str(text) => after == Some(text)
    case Num(Integer(i)) =>
      if -0x8000_0000_0000_0000 <= i < 0x8000_0000_0000_0000 then after.Some? && SpellsInt(after.value, i)
      else after == before
    case _ => after == before
  }

  /** A report of one of mpv's properties moves the one slot that property feeds; any other property moves none. */
  ghost predicate HearsProperty(property: string, v: Json, st: TargetState, after: TargetState) {
    match property
    case "pause" => HearsFlag(v, st.paused, after.paused) && after == st.(paused := after.paused)
    case "mute" => HearsFlag(v, st.muted, after.muted) && after == st.(muted := after.muted)
    case "volume" => HearsNumber(v, st.volume, after.volume) && after == st.(volume := after.volume)
    case "media-title" => HearsText(v, st.title, after.title) && after == st.(title := after.title)
    case "playlist-pos" =>
      && HearsPlace(v, st.playlistPosition, after.playlistPosition)
      && after == st.(playlistPosition := after.playlistPosition)
    case "playlist-count" =>
      HearsCount(v, st.playlistCount, after.playlistCount) && after == st.(playlistCount := after.playlistCount)
    case "idle-active" => HearsFlag(v, st.idleActive, after.idleActive) && after == st.(idleActive := after.idleActive)
    case "duration" => HearsNumber(v, st.duration, after.duration) && after == st.(duration := after.duration)
    case "time-pos" => HearsTime(v, st.position, after.position) && after == st.(position := after.position)
    case "loop-file" => HearsLoop(v, st.loopFile, after.loopFile) && after == st.(loopFile := after.loopFile)
    case "loop-playlist" =>
      HearsLoop(v, st.loopPlaylist, after.loopPlaylist) && after == st.(loopPlaylist := after.loopPlaylist)
    case "aid" => HearsTrack(v, st.audioTrack, after.audioTrack) && after == st.(audioTrack := after.audioTrack)
    case "sid" =>
      HearsTrack(v, st.subtitleTrack, after.subtitleTrack) && after == st.(subtitleTrack := after.subtitleTrack)
    case "sub-visibility" =>
      && HearsFlag(v, st.subtitlesVisible, after.subtitlesVisible)
      && after == st.(subtitlesVisible := after.subtitlesVisible)
    case _ => after == st
  }

  /** Why a file ended, by mpv's words for it. */
  ghost predicate HearsReason(reason: Option<string>, after: Option<MediaEndReason>) {
    match reason
    case Some("eof") => after == Some(Eof)
    case Some("stop") => after == Some(MediaEndReason.Stop)
    case Some("quit") => after == Some(Quit)
    case Some("error") => after == Some(MediaEndReason.Error)
    case Some("redirect") => after == Some(Redirect)
    case _ => after == Some(Unknown)
  }

  /** What the observer makes of one message. */
  ghost predicate Hears(st: TargetState, message: MpvMessage, after: TargetState) {
    match message
    case PropertyChange(None, _) => after == st
    case PropertyChange(Some(property), data) =>
      HearsProperty(property, match data case None => Null case Some(v) => v, st, after)
    case EndFile(reason, error) =>
      && HearsReason(reason, after.lastEndReason)
      && after.lastEndError == (if error == Some("") then None else error)
      && after == st.(lastEndReason := after.lastEndReason, lastEndError := after.lastEndError)
    case FileLoaded => after == st.(lastEndReason := None, lastEndError := None)
    case OtherMessage => after == st
  }

  /** The state after a report of the property that feeds `f`. */
  function Reported(st: TargetState, f: Field, v: Json): TargetState {
    var next := Assign(st, f, Normalize(f, v)); if next.None? then st else next.value
  }

  lemma ReportedFlags(st: TargetState, v: Json)
    ensures var after := Reported(st, Paused, v);
            HearsFlag(v, st.paused, after.paused) && after == st.(paused := after.paused)
    ensures var after := Reported(st, Muted, v);
            HearsFlag(v, st.muted, after.muted) && after == st.(muted := after.muted)
    ensures var after := Reported(st, IdleActive, v);
            HearsFlag(v, st.idleActive, after.idleActive) && after == st.(idleActive := after.idleActive)
    ensures var after := Reported(st, SubtitlesVisible, v);
            && HearsFlag(v, st.subtitlesVisible, after.subtitlesVisible)
            && after == st.(subtitlesVisible := after.subtitlesVisible)
  {
  }

  lemma ReportedNumbers(st: TargetState, v: Json)
    ensures var after := Reported(st, Volume, v);
            HearsNumber(v, st.volume, after.volume) && after == st.(volume := after.volume)
    ensures var after := Reported(st, Duration, v);
            HearsNumber(v, st.duration, after.duration) && after == st.(duration := after.duration)
    ensures var after := Reported(st, Title, v);
            HearsText(v, st.title, after.title) && after == st.(title := after.title)
    ensures var after := Reported(st, Field.Position, v);
            HearsTime(v, st.position, after.position) && after == st.(position := after.position)
  {
  }

  lemma ReportedCounts(st: TargetState, v: Json)
    ensures var after := Reported(st, PlaylistCount, v);
            HearsCount(v, st.playlistCount, after.playlistCount) && after == st.(playlistCount := after.playlistCount)
    ensures var after := Reported(st, PlaylistPosition, v);
            && HearsPlace(v, st.playlistPosition, after.playlistPosition)
            && after == st.(playlistPosition := after.playlistPosition)
  {
  }

  lemma ReportedLoops(st: TargetState, v: Json)
    ensures var after := Reported(st, LoopFile, v);
            HearsLoop(v, st.loopFile, after.loopFile) && after == st.(loopFile := after.loopFile)
    ensures var after := Reported(st, LoopPlaylist, v);
            HearsLoop(v, st.loopPlaylist, after.loopPlaylist) && after == st.(loopPlaylist := after.loopPlaylist)
  {
  }

  lemma ReportedTracks(st: TargetState, v: Json)
    ensures var after := Reported(st, AudioTrack, v);
            HearsTrack(v, st.audioTrack, after.audioTrack) && after == st.(audioTrack := after.audioTrack)
    ensures var after := Reported(st, SubtitleTrack, v);
            HearsTrack(v, st.subtitleTrack, after.subtitleTrack) && after == st.(subtitleTrack := after.subtitleTrack)
  {
    if v.Num? && v.n.Integer? { IntIsSpelled(v.n.i); }
  }

  lemma PropertyIsHeard(st: TargetState, property: string, v: Json)
    ensures var f := ObservedField(property);
            HearsProperty(property, v, st, if f.Some? then Reported(st, f.value, v) else st)
  {
    hide Reported, HearsFlag, HearsNumber, HearsText, HearsTime, HearsCount, HearsPlace, HearsLoop, HearsTrack;
    ReportedFlags(st, v);
    ReportedNumbers(st, v);
    ReportedCounts(st, v);
    ReportedLoops(st, v);
    ReportedTracks(st, v);
  }

  /** The observer's state after a message is what the message says. */
  lemma MessageIsHeard(st: TargetState, message: MpvMessage)
    ensures Hears(st, message, ObservedAfter(st, message))
  {
    hide HearsProperty, ObservedField, Assign, Normalize;
    match message
    case PropertyChange(Some(property), data) =>
      PropertyIsHeard(st, property, match data case None => Null case Some(v) => v);
    case _ =>
  }

  // ---- The other changes the daemon emits ----

  function EndChanges(reason: Option<MediaEndReason>, error: Option<string>): Changes {
    map[LastEndReason := if reason.Some? then Str(ReasonName(reason.value)) else Null,
        LastEndError := OptionalStr(error)]
  }

  lemma EndChangesAgree(r: TargetRecord, reason: Option<MediaEndReason>, error: Option<string>)
    ensures ApplyChanges(r, EndChanges(reason, error))
            == Some(r.(state := r.state.(lastEndReason := reason, lastEndError := error)))
  {
    if reason.Some? { ReasonRoundTrip(reason.value); }
    TwoChanges(r, LastEndReason, if reason.Some? then Str(ReasonName(reason.value)) else Null,
               LastEndError, OptionalStr(error));
  }

  /** Whether the slot of `f` holds a value, so that it is serialised as something other than null. */
  predicate Filled(st: TargetState, f: Field) {
    match f
    case Disabled | Stopped | Online | Channel => false
    case Paused => st.paused.Some?
    case Muted => st.muted.Some?
    case Volume => st.volume.Some?
    case Title => st.title.Some?
    case PlaylistPosition => st.playlistPosition.Some?
    case PlaylistCount => st.playlistCount.Some?
    case IdleActive => st.idleActive.Some?
    case Duration => st.duration.Some?
    case Position => st.position.Some?
    case LoopFile => st.loopFile.Some?
    case LoopPlaylist => st.loopPlaylist.Some?
    case AudioTrack => st.audioTrack.Some?
    case SubtitleTrack => st.subtitleTrack.Some?
    case SubtitlesVisible => st.subtitlesVisible.Some?
    case LastEndReason => st.lastEndReason.Some?
    case LastEndError => st.lastEndError.Some?
  }

  /** `clear_observed`: null for every slot that holds a value. */
  function ClearChanges(st: TargetState): Changes {
    map f | Filled(st, f) :: Null
  }

  /** A slot holds a value exactly if it differs from the default state's. */
  lemma FilledExactly(st: TargetState, f: Field)
    requires !TopLevel(f)
    ensures Filled(st, f) <==> !SameStateSlot(f, st, DEFAULT_STATE)
  {
  }

  lemma ClearedSlot(st: TargetState, f: Field)
    requires !TopLevel(f)
    ensures Filled(st, f) ==>
              SetState(st, f, Null).Some? && SameStateSlot(f, DEFAULT_STATE, SetState(st, f, Null).value)
    ensures !Filled(st, f) ==> SameStateSlot(f, DEFAULT_STATE, st)
  {
    match f
    case Paused => case Muted => case Volume => case Title => case PlaylistPosition =>
    case PlaylistCount => case IdleActive => case Duration => case Position => case LoopFile =>
    case LoopPlaylist => case AudioTrack => case SubtitleTrack => case SubtitlesVisible =>
    case LastEndReason => case LastEndError =>
  }

  lemma ClearChangesAgree(r: TargetRecord)
    ensures ApplyChanges(r, ClearChanges(r.state)) == Some(r.(state := DEFAULT_STATE))
  {
    var changes, q := ClearChanges(r.state), r.(state := DEFAULT_STATE);
    forall f ensures SlotMoves(r, changes, q, f) && (f in changes ==> Accepts(f, Null)) {
      if !TopLevel(f) {
        ClearedSlot(r.state, f);
        SetFieldAccepts(r, f, Null);
      }
    }
    ApplyChangesMeaning(r, changes, q);
  }
}
