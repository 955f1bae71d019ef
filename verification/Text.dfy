/** Cutting a text at a separator and joining pieces, as the standard library's `split` and `join` do. */
module Text {

  /** The pieces of `text` between the separators; there is always at least one. */
  function Split(text: string, separator: char): (pieces: seq<string>)
    ensures pieces != []
  {
    if text == [] then [[]]
    else
      var rest := Split(text[1..], separator);
      if text[0] == separator then [[]] + rest else [[text[0]] + rest[0]] + rest[1..]
  }

  function Join(parts: seq<string>, separator: char): string {
    if parts == [] then []
    else if |parts| == 1 then parts[0]
    else parts[0] + [separator] + Join(parts[1..], separator)
  }

  /** No piece holds the separator. */
  ghost predicate Cut(pieces: seq<string>, separator: char) { forall p | p in pieces :: separator !in p }

  lemma JoinHead(c: char, rest: seq<string>, separator: char)
    requires rest != []
    ensures Join([[c] + rest[0]] + rest[1..], separator) == [c] + Join(rest, separator)
    ensures Join([[]] + rest, separator) == [separator] + Join(rest, separator)
  {
    var p := [[c] + rest[0]] + rest[1..];
    if |rest| > 1 {
      assert p[1..] == rest[1..];
      assert ([c] + rest[0]) + [separator] + Join(rest[1..], separator)
          == [c] + (rest[0] + [separator] + Join(rest[1..], separator));
    } else {
      assert p == [[c] + rest[0]];
    }
    assert ([[]] + rest)[1..] == rest;
  }

  lemma {:induction false} SplitJoins(text: string, separator: char)
    ensures Cut(Split(text, separator), separator) && Join(Split(text, separator), separator) == text
  {
    if text != [] {
      SplitJoins(text[1..], separator);
      var rest := Split(text[1..], separator);
      JoinHead(text[0], rest, separator);
      assert text == [text[0]] + text[1..];
      forall p | p in Split(text, separator) ensures separator !in p {
        assert rest[0] in rest;
      }
    }
  }

  lemma {:induction false} SplitUncut(line: string, separator: char)
    requires separator !in line
    ensures Split(line, separator) == [line]
  {
    if line != [] {
      SplitUncut(line[1..], separator);
      assert line == [line[0]] + line[1..];
    }
  }

  lemma {:induction false} SplitLine(line: string, rest: string, separator: char)
    requires separator !in line
    ensures Split(line + [separator] + rest, separator) == [line] + Split(rest, separator)
  {
    var text := line + [separator] + rest;
    if line == [] {
      assert text[1..] == rest;
    } else {
      assert text[1..] == line[1..] + [separator] + rest;
      SplitLine(line[1..], rest, separator);
      assert line == [line[0]] + line[1..];
    }
  }

  lemma {:induction false} JoinSplits(pieces: seq<string>, separator: char)
    requires pieces != [] && Cut(pieces, separator)
    ensures Split(Join(pieces, separator), separator) == pieces
  {
    assert pieces[0] in pieces;
    if |pieces| == 1 {
      SplitUncut(pieces[0], separator);
    } else {
      assert forall p | p in pieces[1..] :: p in pieces;
      JoinSplits(pieces[1..], separator);
      SplitLine(pieces[0], Join(pieces[1..], separator), separator);
      assert pieces == [pieces[0]] + pieces[1..];
    }
  }

  /** Cutting and joining are inverse: the pieces of a text are the only separator-free pieces that make it up. */
  lemma SplitExactly(text: string, separator: char, pieces: seq<string>)
    ensures Split(text, separator) == pieces
            <==> pieces != [] && Cut(pieces, separator) && Join(pieces, separator) == text
  {
    SplitJoins(text, separator);
    if pieces != [] && Cut(pieces, separator) { JoinSplits(pieces, separator); }
  }

  lemma {:induction false} JoinConcat(a: seq<string>, b: seq<string>, separator: char)
    requires a != [] && b != []
    ensures Join(a + b, separator) == Join(a, separator) + [separator] + Join(b, separator)
  {
    if |a| == 1 {
      assert a == [a[0]] && (a + b)[1..] == b;
    } else {
      assert (a + b)[1..] == a[1..] + b;
      JoinConcat(a[1..], b, separator);
      var s := [separator];
      assert a[0] + s + (Join(a[1..], separator) + s + Join(b, separator))
          == (a[0] + s + Join(a[1..], separator)) + s + Join(b, separator);
    }
  }

  /** A text with a separator in it has the pieces of both sides. */
  lemma SplitConcat(a: string, b: string, separator: char)
    ensures Split(a + [separator] + b, separator) == Split(a, separator) + Split(b, separator)
  {
    var p, q := Split(a, separator), Split(b, separator);
    SplitJoins(a, separator);
    SplitJoins(b, separator);
    JoinConcat(p, q, separator);
    JoinSplits(p + q, separator);
  }
}
