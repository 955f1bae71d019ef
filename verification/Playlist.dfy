/** The text a playlist is saved as (crates/mpv-targetsd/src/supervisor.rs). */
module Playlist {
  import opened Wrappers
  import opened Json
  import opened Text

  datatype PlaylistError = InvalidPlaylist

  predicate SingleLine(text: string) { '\n' !in text && '\r' !in text }

  /** The file name of an entry, if mpv reports one and it fits on one line. */
  function NameOf(entry: Json): Option<string> {
    if entry.Obj? && "filename" in entry.fields && entry.fields["filename"].Str?
       && SingleLine(entry.fields["filename"].s)
    then Some(entry.fields["filename"].s)
    else None
  }

  predicate Acceptable(playlist: Json) {
    playlist.Arr? && forall entry | entry in playlist.items :: NameOf(entry).Some?
  }

  function FileNames(playlist: Json): seq<string>
    requires Acceptable(playlist)
  {
    seq(|playlist.items|, i requires 0 <= i < |playlist.items| => NameOf(playlist.items[i]).value)
  }

  /** The text lists these file names under the header. */
  ghost predicate Lists(text: string, names: seq<string>) {
    Split(text, '\n') == ["#EXTM3U"] + names + [""]
  }

  /** Exactly one text lists the names: each on a line of its own under the header. */
  lemma ListsExactly(text: string, names: seq<string>)
    requires forall name | name in names :: SingleLine(name)
    ensures Lists(text, names) <==> text == Join(["#EXTM3U"] + names + [""], '\n')
  {
    var lines := ["#EXTM3U"] + names + [""];
    SplitExactly(text, '\n', lines);
    assert Cut(lines, '\n') by {
      forall p | p in lines ensures '\n' !in p { assert p == "#EXTM3U" || p in names || p == ""; }
    }
  }

  lemma JoinOneMore(lines: seq<string>, line: string)
    requires lines != []
    ensures Join(lines + [line] + [""], '\n') == Join(lines + [""], '\n') + (line + "\n")
  {
    assert lines + [line] + [""] == lines + [line, ""];
    JoinConcat(lines, [line, ""], '\n');
    JoinConcat(lines, [""], '\n');
    assert [line, ""][1..] == [""];
    assert Join([line, ""], '\n') == line + "\n";
  }

  lemma HeaderListsNothing()
    ensures Lists("#EXTM3U\n", [])
  {
    var lines := ["#EXTM3U"] + [] + [""];
    assert lines[1..] == [""] && Join(lines, '\n') == "#EXTM3U" + "\n" + "";
    ListsExactly("#EXTM3U\n", []);
  }

  lemma ListsOneMore(text: string, names: seq<string>, name: string)
    requires forall n | n in names :: SingleLine(n)
    requires Lists(text, names) && SingleLine(name)
    ensures Lists(text + (name + "\n"), names + [name])
  {
    hide Lists;
    ListsExactly(text, names);
    ListsExactly(text + (name + "\n"), names + [name]);
    JoinOneMore(["#EXTM3U"] + names, name);
    assert ["#EXTM3U"] + names + [name] == ["#EXTM3U"] + (names + [name]);
  }

  /** The entry says which file it is, on one line. */
  ghost predicate Names(entry: Json, filename: string) {
    entry.Obj? && "filename" in entry.fields && entry.fields["filename"] == Str(filename)
    && '\n' !in filename && '\r' !in filename
  }

  lemma NameOfExactly(entry: Json)
    ensures NameOf(entry).Some? ==> Names(entry, NameOf(entry).value)
    ensures NameOf(entry).None? ==> forall filename :: !Names(entry, filename)
  {
  }

  /**
   `playlist_m3u`: accepted exactly when every entry has a one-line file name, and
   then the text, cut at its newlines, is the header and the file names in order.
   */
  method PlaylistM3u(playlist: Json) returns (r: Result<(string, nat), PlaylistError>)
    ensures r.Success? <==> playlist.Arr? && forall entry | entry in playlist.items :: exists f :: Names(entry, f)
    ensures r.Success? ==>
              var lines := Split(r.value.0, '\n');
              && r.value.1 == |playlist.items|
              && |lines| == |playlist.items| + 2
              && lines[0] == "#EXTM3U" && lines[|lines| - 1] == ""
              && forall i | 0 <= i < |playlist.items| :: Names(playlist.items[i], lines[i + 1])
    ensures r.Success? ==> Acceptable(playlist) && Lists(r.value.0, FileNames(playlist))
  {
    hide Lists, Split, NameOf, Names;
    if !playlist.Arr? {
      return Failure(InvalidPlaylist);
    }
    var entries := playlist.items;
    var contents := "#EXTM3U\n";
    ghost var names: seq<string> := [];
    HeaderListsNothing();
    for i := 0 to |entries|
      invariant |names| == i && forall j | 0 <= j < i :: NameOf(entries[j]) == Some(names[j])
      invariant forall j | 0 <= j < i :: Names(entries[j], names[j])
      invariant forall name | name in names :: SingleLine(name)
      invariant Lists(contents, names)
    {
      var filename := NameOf(entries[i]);
      NameOfExactly(entries[i]);
      if filename.None? {
        assert entries[i] in playlist.items;
        return Failure(InvalidPlaylist);
      }
      NamesOneLine(entries[i], filename.value);
      ListsOneMore(contents, names, filename.value);
      contents := contents + (filename.value + "\n");
      names := names + [filename.value];
    }
    assert names == FileNames(playlist);
    ListsLines(contents, names);
    return Success((contents, |entries|));
  }

  lemma NamesOneLine(entry: Json, filename: string)
    requires Names(entry, filename)
    ensures SingleLine(filename)
  {
  }

  lemma ListsLines(text: string, names: seq<string>)
    requires Lists(text, names)
    ensures var lines := Split(text, '\n');
            && |lines| == |names| + 2 && lines[0] == "#EXTM3U" && lines[|lines| - 1] == ""
            && forall i | 0 <= i < |names| :: lines[i + 1] == names[i]
  {
  }

  /** Saving is invertible: one text lists one sequence of names, and one sequence has one text. */
  lemma ListsIsInvertible(text: string, names: seq<string>, other: string, others: seq<string>)
    requires Lists(text, names) && Lists(other, others)
    ensures text == other <==> names == others
  {
    var lines, more := Split(text, '\n'), Split(other, '\n');
    assert names == lines[1..|lines| - 1] && others == more[1..|more| - 1];
    SplitJoins(text, '\n');
    SplitJoins(other, '\n');
  }
}
