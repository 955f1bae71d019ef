/**
 The public state types, the events, and the validators of names and channels
 (crates/mpv-targets/src/protocol.rs).
 */
module Protocol {
  import opened Wrappers
  import opened Json
  import opened Text

  const PROTOCOL_VERSION: int := 1

  datatype MediaEndReason = Eof | Stop | Quit | Error | Redirect | Unknown

  /** Observed playback state; every slot is empty until mpv reports it. */
  datatype TargetState = TargetState(
    paused: Option<bool>,
    muted: Option<bool>,
    volume: Option<real>,
    title: Option<string>,
    playlistPosition: Option<nat>,
    playlistCount: Option<nat>,
    idleActive: Option<bool>,
    duration: Option<real>,
    position: Option<real>,
    loopFile: Option<string>,
    loopPlaylist: Option<string>,
    audioTrack: Option<string>,
    subtitleTrack: Option<string>,
    subtitlesVisible: Option<bool>,
    lastEndReason: Option<MediaEndReason>,
    lastEndError: Option<string>)

  const DEFAULT_STATE: TargetState :=
    TargetState(None, None, None, None, None, None, None, None,
                None, None, None, None, None, None, None, None)

  /** What a client may see of one target. */
  datatype TargetRecord = TargetRecord(
    name: string,
    disabled: bool,
    stopped: bool,
    online: bool,
    channel: Option<string>,
    state: TargetState,
    revision: nat)

  datatype HealthState = Ready | Idle | Degraded

  datatype Health = Health(state: HealthState, configured: nat, expected: nat, online: nat)

  datatype Snapshot = Snapshot(protocolVersion: int, nodeId: string, health: Health, targets: seq<TargetRecord>)

  datatype Event =
    | SnapshotTaken(snapshot: Snapshot)
    | TargetChanged(target: string, revision: nat, changed: Json)

  /** The error of a failed response: its code as written on the wire, and a message. */
  datatype ServerError = ServerError(code: string, message: string)

  // ---- Target names and channels ----

  predicate NameChar(c: char) {
    'a' <= c <= 'z' || '0' <= c <= '9' || c == '-' || c == '_'
  }

  /** `validate_target_name` succeeds.  Accepted names are ASCII, so bytes and characters agree. */
  predicate ValidTargetName(name: string) {
    && name != []
    && name != "all"
    && |name| <= 64
    && ('a' <= name[0] <= 'z' || '0' <= name[0] <= '9')
    && forall i | 0 <= i < |name| :: NameChar(name[i])
  }

  const LETTERS := {'a', 'b', 'c', 'd', 'e', 'f', 'g', 'h', 'i', 'j', 'k', 'l', 'm',
                    'n', 'o', 'p', 'q', 'r', 's', 't', 'u', 'v', 'w', 'x', 'y', 'z'}

  const DIGITS := {'0', '1', '2', '3', '4', '5', '6', '7', '8', '9'}

  lemma AlphabetExactly(c: char)
    ensures c in LETTERS <==> 'a' <= c <= 'z'
    ensures c in DIGITS <==> '0' <= c <= '9'
  {
  }

  /** A target name is 1 to 64 lower-case letters, digits, dashes and underscores, the first neither of the last two. */
  lemma NameExactly(name: string)
    ensures ValidTargetName(name) <==>
            && 1 <= |name| <= 64 && name != "all"
            && name[0] in LETTERS + DIGITS
            && forall c | c in name :: c in LETTERS + DIGITS + {'-', '_'}
  {
    hide LETTERS, DIGITS;
    forall c ensures c in LETTERS + DIGITS + {'-', '_'} <==> NameChar(c) { AlphabetExactly(c); }
    if name != [] { AlphabetExactly(name[0]); }
    if forall i | 0 <= i < |name| :: NameChar(name[i]) {
      assert forall c | c in name :: NameChar(c);
    }
  }

  /** The components `Path::components` yields, without the root: empty and `.` pieces vanish. */
  function Components(pieces: seq<string>): seq<string> {
    if pieces == [] then []
    else (if pieces[0] == "" || pieces[0] == "." then [] else [pieces[0]]) + Components(pieces[1..])
  }

  predicate IsAbsolute(path: string) { path != [] && path[0] == '/' }

  predicate Contains(text: string, part: string) {
    part <= text || (text != [] && Contains(text[1..], part))
  }

  lemma {:induction false} ContainsExactly(text: string, part: string)
    ensures Contains(text, part) <==> exists front: string, back: string :: text == front + part + back
  {
    if Contains(text, part) {
      if part <= text {
        assert text == [] + part + text[|part|..];
      } else {
        ContainsExactly(text[1..], part);
        var front: string, back: string :| text[1..] == front + part + back;
        assert text == ([text[0]] + front) + part + back;
      }
    }
    if exists front: string, back: string :: text == front + part + back {
      var front: string, back: string :| text == front + part + back;
      if front == [] {
        assert part <= text;
      } else {
        assert text[1..] == front[1..] + part + back;
        ContainsExactly(text[1..], part);
      }
    }
  }

  function Lower(c: char): char {
    if 'A' <= c <= 'Z' then (c as int + 32) as char else c
  }

  /** The file name's extension is `m3u` or `m3u8` in any case; a leading dot starts no extension. */
  predicate HasPlaylistExtension(path: string) {
    var components := Components(Split(path, '/'));
    components != [] &&
    var file := components[|components| - 1];
    var parts := Split(file, '.');
    file != ".." && |parts| >= 2 && (|parts| > 2 || parts[0] != "") &&
    var extension := parts[|parts| - 1];
    var lowered := seq(|extension|, i requires 0 <= i < |extension| => Lower(extension[i]));
    lowered == "m3u" || lowered == "m3u8"
  }

  /** `valid_channel`: an absolute playlist path, or anything with a URL scheme separator. */
  predicate ValidChannel(value: string) {
    value != [] && (Contains(value, "://") || (IsAbsolute(value) && HasPlaylistExtension(value)))
  }
}
