/** Which channels and configuration paths are accepted, said about the text itself. */
module Paths {
  import opened Text
  import opened Protocol
  import Config

  // ---- Components ----

  predicate Real(piece: string) { piece != "" && piece != "." }

  lemma {:induction false} ComponentsConcat(a: seq<string>, b: seq<string>)
    ensures Components(a + b) == Components(a) + Components(b)
  {
    if a == [] {
      assert a + b == b;
    } else {
      assert (a + b)[1..] == a[1..] + b;
      ComponentsConcat(a[1..], b);
    }
  }

  lemma {:induction false} NoComponents(pieces: seq<string>)
    requires forall p | p in pieces :: !Real(p)
    ensures Components(pieces) == []
  {
    if pieces != [] {
      assert pieces[0] in pieces;
      NoComponents(pieces[1..]);
    }
  }

  lemma OneComponent(piece: string)
    ensures Components([piece]) == if Real(piece) then [piece] else []
  {
    assert [piece][1..] == [] && Components([]) == [];
  }

  /** The last component is the last real piece. */
  lemma LastRealPiece(before: seq<string>, piece: string, after: seq<string>)
    requires Real(piece) && forall p | p in after :: !Real(p)
    ensures var components := Components(before + [piece] + after);
            components != [] && components[|components| - 1] == piece
  {
    ComponentsConcat(before + [piece], after);
    ComponentsConcat(before, [piece]);
    NoComponents(after);
    OneComponent(piece);
  }

  lemma {:induction false} SomeRealPiece(pieces: seq<string>)
    returns (before: seq<string>, piece: string, after: seq<string>)
    requires Components(pieces) != []
    ensures pieces == before + [piece] + after && Real(piece) && forall p | p in after :: !Real(p)
  {
    var n := |pieces| - 1;
    var front, last := pieces[..n], pieces[n];
    assert pieces == front + [last];
    if Real(last) {
      before, piece, after := front, last, [];
    } else {
      ComponentsConcat(front, [last]);
      OneComponent(last);
      before, piece, after := SomeRealPiece(front);
      after := after + [last];
      assert pieces == before + [piece] + after;
    }
  }

  // ---- Slashes ----

  /** Nothing, or text that ends in a slash. */
  predicate Leads(front: string) { front == "" || front[|front| - 1] == '/' }

  /** Nothing, or text that starts with a slash. */
  predicate Trails(tail: string) { tail == "" || tail[0] == '/' }

  lemma SplitTail(piece: string, tail: string) returns (after: seq<string>)
    requires '/' !in piece && Trails(tail)
    ensures Split(piece + tail, '/') == [piece] + after
    ensures tail == "" ==> after == []
    ensures tail != "" ==> Split(tail, '/') == [""] + after
  {
    hide Split;
    if tail == "" {
      after := [];
      SplitUncut(piece, '/');
      assert piece + tail == piece;
    } else {
      after := Split(tail[1..], '/');
      assert tail == "" + "/" + tail[1..];
      SplitLine("", tail[1..], '/');
      SplitLine(piece, tail[1..], '/');
      assert piece + tail == piece + "/" + tail[1..];
    }
  }

  /** The piece between a leading and a trailing part is one of the pieces. */
  lemma SplitAround(front: string, piece: string, tail: string)
    returns (before: seq<string>, after: seq<string>)
    requires Leads(front) && '/' !in piece && Trails(tail)
    ensures Split(front + piece + tail, '/') == before + [piece] + after
    ensures tail == "" ==> after == []
    ensures tail != "" ==> Split(tail, '/') == [""] + after
  {
    hide Split;
    after := SplitTail(piece, tail);
    if front == "" {
      before := [];
      assert front + piece + tail == piece + tail;
    } else {
      var dir := front[..|front| - 1];
      before := Split(dir, '/');
      SplitConcat(dir, piece + tail, '/');
      assert front + piece + tail == dir + "/" + (piece + tail);
      assert before + ([piece] + after) == before + [piece] + after;
    }
  }

  lemma JoinAround(before: seq<string>, piece: string, after: seq<string>) returns (front: string, tail: string)
    ensures Join(before + [piece] + after, '/') == front + piece + tail && Leads(front) && Trails(tail)
    ensures after == [] ==> tail == ""
    ensures after != [] ==> tail == "/" + Join(after, '/')
  {
    front := if before == [] then "" else Join(before, '/') + "/";
    tail := if after == [] then "" else "/" + Join(after, '/');
    var rest := [piece] + after;
    assert Join(rest, '/') == piece + tail by {
      if after == [] { assert rest == [piece]; } else { assert rest[1..] == after; }
    }
    if before == [] {
      assert before + [piece] + after == rest;
      assert front + piece + tail == piece + tail;
    } else {
      assert before + [piece] + after == before + rest;
      JoinConcat(before, rest, '/');
      assert Join(before, '/') + "/" + (piece + tail) == front + piece + tail;
    }
  }

  /** After the file come only pieces that name nothing. */
  ghost predicate Idle(tail: string) { Trails(tail) && forall p | p in Split(tail, '/') :: !Real(p) }

  /** The path's last component, with what stands before and after it. */
  ghost predicate Ends(path: string, front: string, file: string, tail: string) {
    path == front + file + tail && Leads(front) && '/' !in file && Real(file) && Idle(tail)
  }

  lemma LastComponentExactly(path: string, file: string)
    ensures var components := Components(Split(path, '/'));
            (components != [] && components[|components| - 1] == file)
            <==> exists front: string, tail: string :: Ends(path, front, file, tail)
  {
    hide Components, Real;
    var pieces := Split(path, '/');
    var components := Components(pieces);
    if exists front: string, tail: string :: Ends(path, front, file, tail) {
      var front: string, tail: string :| Ends(path, front, file, tail);
      var before, after := SplitAround(front, file, tail);
      assert forall p | p in after :: p in ([""] + after);
      LastRealPiece(before, file, after);
    }
    if components != [] && components[|components| - 1] == file {
      SplitJoins(path, '/');
      var before, piece, after := SomeRealPiece(pieces);
      LastRealPiece(before, piece, after);
      var front, tail := JoinAround(before, piece, after);
      assert piece in pieces;
      IdleTail(after, tail, pieces);
      assert Ends(path, front, file, tail);
    }
  }

  lemma IdleTail(after: seq<string>, tail: string, pieces: seq<string>)
    requires (forall p | p in after :: !Real(p)) && Trails(tail)
    requires Cut(pieces, '/') && forall p | p in after :: p in pieces
    requires if after == [] then tail == "" else tail == "/" + Join(after, '/')
    ensures Idle(tail)
  {
    if after != [] {
      JoinSplits(after, '/');
      SplitLine("", Join(after, '/'), '/');
      assert tail == "" + "/" + Join(after, '/');
    }
  }

  // ---- Channels ----

  /** `m3u` or `m3u8`, in capitals or not. */
  predicate IsPlaylist(extension: string) {
    && 3 <= |extension| <= 4
    && extension[0] in {'m', 'M'} && extension[1] == '3' && extension[2] in {'u', 'U'}
    && (|extension| == 4 ==> extension[3] == '8')
  }

  lemma LoweredExactly(extension: string)
    ensures var lowered := seq(|extension|, i requires 0 <= i < |extension| => Lower(extension[i]));
            (lowered == "m3u" || lowered == "m3u8") <==> IsPlaylist(extension)
  {
    var lowered := seq(|extension|, i requires 0 <= i < |extension| => Lower(extension[i]));
    if IsPlaylist(extension) {
      assert lowered == if |extension| == 3 then "m3u" else "m3u8";
    }
    if lowered == "m3u" || lowered == "m3u8" {
      assert lowered[0] == 'm' && lowered[1] == '3' && lowered[2] == 'u';
      if |lowered| == 4 { assert lowered[3] == '8'; }
    }
  }

  /** The file has a stem and, after its last dot, a playlist's extension. */
  ghost predicate IsPlaylistFile(file: string) {
    exists stem: string, extension: string ::
      file == stem + "." + extension && stem != "" && '.' !in extension && IsPlaylist(extension)
  }

  /** The test of the file's name cut at its dots. */
  predicate HasExtension(file: string) {
    var parts := Split(file, '.');
    file != ".." && |parts| >= 2 && (|parts| > 2 || parts[0] != "") && IsPlaylist(parts[|parts| - 1])
  }

  lemma ExtensionExactly(file: string)
    ensures HasExtension(file) <==> IsPlaylistFile(file)
  {
    hide IsPlaylist;
    var parts := Split(file, '.');
    if IsPlaylistFile(file) {
      var stem: string, extension: string :|
        file == stem + "." + extension && stem != "" && '.' !in extension && IsPlaylist(extension);
      SplitConcat(stem, extension, '.');
      SplitUncut(extension, '.');
      SplitJoins(stem, '.');
      assert extension != [] by { PlaylistIsNotEmpty(extension); }
      assert file[|file| - 1] == extension[|extension| - 1] != '.';
    }
    if HasExtension(file) {
      SplitJoins(file, '.');
      var n := |parts| - 1;
      var stem, extension := Join(parts[..n], '.'), parts[n];
      assert parts == parts[..n] + [extension] && extension in parts;
      JoinConcat(parts[..n], [extension], '.');
      assert file == stem + "." + extension;
      assert stem != "" by {
        if n > 1 { assert |stem| >= 1; } else { assert parts[..n] == [parts[0]]; }
      }
    }
  }

  lemma PlaylistIsNotEmpty(extension: string)
    requires IsPlaylist(extension)
    ensures extension != []
  {
  }

  /** A channel is anything with `://` in it, or an absolute path whose last component is a playlist file. */
  lemma ChannelExactly(value: string)
    ensures ValidChannel(value) <==>
            || (exists front: string, back: string :: value == front + "://" + back)
            || (&& value != "" && value[0] == '/'
                && exists front: string, file: string, tail: string ::
                     Ends(value, front, file, tail) && IsPlaylistFile(file))
  {
    hide Components, Split, IsPlaylistFile, IsPlaylist, Ends;
    ContainsExactly(value, "://");
    var components := Components(Split(value, '/'));
    if components != [] {
      var file := components[|components| - 1];
      LastComponentExactly(value, file);
      ExtensionExactly(file);
      var parts := Split(file, '.');
      LoweredExactly(parts[|parts| - 1]);
    }
    if exists front: string, file: string, tail: string :: Ends(value, front, file, tail) && IsPlaylistFile(file) {
      var front: string, file: string, tail: string :| Ends(value, front, file, tail) && IsPlaylistFile(file);
      LastComponentExactly(value, file);
    }
    assert value == "" ==> forall front: string, back: string :: value != front + "://" + back;
  }

  // ---- Configuration paths ----

  lemma {:induction false} UpwardsIsReal(pieces: seq<string>)
    ensures ".." in Components(pieces) <==> ".." in pieces
  {
    if pieces != [] { UpwardsIsReal(pieces[1..]); }
  }

  lemma PieceExactly(path: string, piece: string)
    requires '/' !in piece
    ensures piece in Split(path, '/')
            <==> exists front: string, tail: string :: path == front + piece + tail && Leads(front) && Trails(tail)
  {
    hide Split, Leads, Trails;
    var pieces := Split(path, '/');
    if exists front: string, tail: string :: path == front + piece + tail && Leads(front) && Trails(tail) {
      var front: string, tail: string :| path == front + piece + tail && Leads(front) && Trails(tail);
      var before, after := SplitAround(front, piece, tail);
      assert (before + [piece] + after)[|before|] == piece;
    }
    if piece in pieces {
      var i :| 0 <= i < |pieces| && pieces[i] == piece;
      SplitJoins(path, '/');
      var front, tail := JoinAround(pieces[..i], piece, pieces[i + 1..]);
      assert pieces == pieces[..i] + [piece] + pieces[i + 1..];
    }
  }

  /** A configuration path is relative, and `..` never stands alone between its slashes. */
  lemma ConfigPathExactly(path: string)
    ensures Config.ValidConfigPath(path) <==>
            && path != "" && path[0] != '/'
            && !exists front: string, tail: string :: path == front + ".." + tail && Leads(front) && Trails(tail)
  {
    hide Split, Components, Leads, Trails;
    UpwardsIsReal(Split(path, '/'));
    PieceExactly(path, "..");
  }
}
