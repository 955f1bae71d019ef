/**
 The URL the command line derives from the daemon's own configuration, with an
 authority as in section 3.2 of RFC 3986
 (crates/targets/src/main.rs) and the client's parser for it
 (crates/mpv-targets/src/client.rs).
 */
module Url {
  import opened Wrappers
  import opened Decimal
  import opened Net
  import opened Text
  import opened Notation
  import opened Config

  datatype Endpoint = Endpoint(host: string, port: nat)

  datatype UrlError = InvalidListener | InvalidScheme | MissingPort | InvalidPort | MissingHost

  /** The address to connect to: a listener on every interface is reached at the loopback of its family. */
  function Reachable(a: SocketAddr): SocketAddr {
    if !Unspecified(a) then a
    else if a.V4? then a.(octets := [127, 0, 0, 1])
    else a.(segments := [0, 0, 0, 0, 0, 0, 0, 1])
  }

  /** What a client has to connect to: the listener itself unless it listens everywhere. */
  lemma ReachableMeaning(octets: seq<nat>, segments: seq<nat>, scope: nat, port: nat)
    ensures Reachable(V4(octets, port)) == V4(if octets == [0, 0, 0, 0] then [127, 0, 0, 1] else octets, port)
    ensures Reachable(V6(segments, scope, port))
            == V6(if segments == [0, 0, 0, 0, 0, 0, 0, 0] then [0, 0, 0, 0, 0, 0, 0, 1] else segments, scope, port)
  {
  }

  /** `daemon_url`. */
  method DaemonUrl(listen: Listen) returns (r: Result<string, UrlError>)
    ensures r == if listen.Listening? then Success("wss://" + AddressText(Reachable(listen.address)))
                 else Failure(InvalidListener)
    ensures listen.Listening? && ValidAddr(listen.address) ==>
              && r.Success? && "wss://" <= r.value
              && match listen.address
                 case V4(octets, port) =>
                   ShowsAddress(V4(if octets == [0, 0, 0, 0] then [127, 0, 0, 1] else octets, port), r.value[6..])
                 case V6(segments, scope, port) =>
                   var shown := if segments == [0, 0, 0, 0, 0, 0, 0, 0] then [0, 0, 0, 0, 0, 0, 0, 1] else segments;
                   ShowsAddress(V6(shown, scope, port), r.value[6..])
  {
    hide ShowsAddress, AddressText, ValidAddr;
    if listen.Unparsable? {
      return Failure(InvalidListener);
    }
    var address := listen.address;
    if Unspecified(address) {
      if address.V4? {
        address := address.(octets := [127, 0, 0, 1]);
      } else {
        address := address.(segments := [0, 0, 0, 0, 0, 0, 0, 1]);
      }
    }
    if ValidAddr(listen.address) {
      LoopbackIsValid(listen.address);
      AddressIsShown(address);
    }
    r := Success("wss://" + AddressText(address));
    assert r.value[6..] == AddressText(address);
  }

  lemma LoopbackIsValid(a: SocketAddr)
    requires ValidAddr(a)
    ensures ValidAddr(Reachable(a))
  {
  }

  // ---- The parser ----

  function Before(s: string, c: char): string {
    if s == [] || s[0] == c then [] else [s[0]] + Before(s[1..], c)
  }

  /** The position of the last `c`, or the length if there is none. */
  function LastOf(s: string, c: char): (i: nat)
    ensures i <= |s|
  {
    if s == [] then 0
    else
      var i := LastOf(s[1..], c);
      if i < |s| - 1 then i + 1 else if s[0] == c then 0 else |s|
  }

  function TrimStart(s: string, c: char): string {
    if s != [] && s[0] == c then TrimStart(s[1..], c) else s
  }

  function TrimEnd(s: string, c: char): string {
    if s != [] && s[|s| - 1] == c then TrimEnd(s[..|s| - 1], c) else s
  }

  function TrimMatches(s: string, c: char): string { TrimEnd(TrimStart(s, c), c) }

  /** `Endpoint::parse`. */
  function Parse(value: string): Result<Endpoint, UrlError> {
    if !("wss://" <= value) then Failure(InvalidScheme)
    else
      var authority := Before(value[6..], '/');
      var colon := LastOf(authority, ':');
      if colon == |authority| then Failure(MissingPort)
      else
        var host, port := authority[..colon], ParseU16(authority[colon + 1..]);
        if port.None? then Failure(InvalidPort)
        else if host == [] then Failure(MissingHost)
        else Success(Endpoint(TrimMatches(TrimMatches(host, '['), ']'), port.value))
  }

  // ---- What the parser accepts ----

  /** A port: digits, after a plus sign or not, that fit 16 bits. */
  ghost predicate IsPort(text: string, port: nat) {
    exists digits: string ::
      && (text == digits || text == "+" + digits)
      && digits != [] && AllDigits(digits) && DigitsValue(digits) == port && port <= 0xffff
  }

  lemma PortExactly(text: string, port: nat)
    ensures ParseU16(text) == Some(port) <==> IsPort(text, port)
  {
    if ParseU16(text) == Some(port) {
      var digits := if text[0] == '+' then text[1..] else text;
      assert text == digits || text == "+" + digits;
    }
    if IsPort(text, port) {
      var digits: string :|
        && (text == digits || text == "+" + digits)
        && digits != [] && AllDigits(digits) && DigitsValue(digits) == port && port <= 0xffff;
      assert IsDigit(digits[0]);
      assert ("+" + digits)[1..] == digits;
    }
  }

  function Repeated(c: char, n: nat): string { seq(n, _ => c) }

  /** What is left once every `c` at either end is gone. */
  ghost predicate Stripped(s: string, c: char, core: string) {
    && (exists i: nat, j: nat :: s == Repeated(c, i) + core + Repeated(c, j))
    && (core != [] ==> core[0] != c && core[|core| - 1] != c)
  }

  lemma {:induction false} StartTrimmed(s: string, c: char) returns (i: nat)
    ensures s == Repeated(c, i) + TrimStart(s, c)
    ensures TrimStart(s, c) != [] ==> TrimStart(s, c)[0] != c
  {
    if s != [] && s[0] == c {
      var n := StartTrimmed(s[1..], c);
      i := n + 1;
      assert s == [c] + s[1..] && Repeated(c, i) == [c] + Repeated(c, n);
    } else {
      i := 0;
    }
  }

  lemma {:induction false} EndTrimmed(s: string, c: char) returns (j: nat)
    ensures s == TrimEnd(s, c) + Repeated(c, j)
    ensures TrimEnd(s, c) != [] ==> TrimEnd(s, c)[|TrimEnd(s, c)| - 1] != c
  {
    if s != [] && s[|s| - 1] == c {
      var n := EndTrimmed(s[..|s| - 1], c);
      j := n + 1;
      assert s == s[..|s| - 1] + [c] && Repeated(c, j) == Repeated(c, n) + [c];
    } else {
      j := 0;
    }
  }

  lemma TrimMeans(s: string, c: char)
    ensures Stripped(s, c, TrimMatches(s, c))
  {
    var i := StartTrimmed(s, c);
    var j := EndTrimmed(TrimStart(s, c), c);
    assert s == Repeated(c, i) + TrimMatches(s, c) + Repeated(c, j);
    if TrimMatches(s, c) != [] { assert TrimMatches(s, c)[0] == TrimStart(s, c)[0]; }
  }

  /** The parts of an authority: no slash anywhere, no colon in the port, and then nothing or a path. */
  ghost predicate Parts(host: string, port: string, path: string) {
    '/' !in host && '/' !in port && ':' !in port && (path != [] ==> path[0] == '/')
  }

  /** The host without its square brackets. */
  ghost predicate Bare(host: string, bare: string) {
    exists mid: string :: Stripped(host, '[', mid) && Stripped(mid, ']', bare)
  }

  /** The verdict on a URL with a host and a port: the port is looked at first. */
  lemma ParseExactly(host: string, port: string, path: string)
    requires Parts(host, port, path)
    ensures var r := Parse("wss://" + (host + ":" + port) + path);
            if forall n :: !IsPort(port, n) then r == Failure(InvalidPort)
            else if host == "" then r == Failure(MissingHost)
            else r.Success? && IsPort(port, r.value.port) && Bare(host, r.value.host)
  {
    hide IsPort, Stripped, TrimMatches, ParseU16;
    var authority := host + ":" + port;
    var value := "wss://" + authority + path;
    assert value[6..] == authority + path;
    BeforePath(authority, path);
    LastOfSeparator(host, ':', port);
    assert authority[..|host|] == host && authority[|host| + 1..] == port;
    forall n: nat ensures ParseU16(port) == Some(n) <==> IsPort(port, n) { PortExactly(port, n); }
    TrimMeans(host, '[');
    TrimMeans(TrimMatches(host, '['), ']');
  }

  /** The verdict on everything else. */
  lemma ParseRejects(value: string, authority: string, path: string)
    ensures Parse(value) == Failure(InvalidScheme) <==> !("wss://" <= value)
    ensures '/' !in authority && ':' !in authority && (path != [] ==> path[0] == '/') ==>
              Parse("wss://" + authority + path) == Failure(MissingPort)
  {
    if '/' !in authority && ':' !in authority && (path != [] ==> path[0] == '/') {
      assert ("wss://" + authority + path)[6..] == authority + path;
      BeforePath(authority, path);
      LastOfAbsent(authority, ':');
    }
  }

  lemma {:induction false} BeforePath(authority: string, path: string)
    requires '/' !in authority && (path != [] ==> path[0] == '/')
    ensures Before(authority + path, '/') == authority
  {
    if authority == [] {
      assert authority + path == path;
    } else {
      assert (authority + path)[1..] == authority[1..] + path;
      BeforePath(authority[1..], path);
      assert authority == [authority[0]] + authority[1..];
    }
  }

  /** Every text with the scheme is of one of the two kinds. */
  lemma EveryUrlHasParts(value: string) returns (authority: string, path: string, colon: nat)
    requires "wss://" <= value
    ensures value == "wss://" + authority + path && '/' !in authority && (path != [] ==> path[0] == '/')
    ensures colon <= |authority|
    ensures colon == |authority| ==> ':' !in authority
    ensures colon < |authority| ==>
              && authority == authority[..colon] + ":" + authority[colon + 1..]
              && Parts(authority[..colon], authority[colon + 1..], path)
  {
    authority, path := CutBefore(value[6..], '/');
    assert value == "wss://" + value[6..];
    colon := LastOf(authority, ':');
    LastOfMeans(authority, ':');
  }

  lemma {:induction false} LastOfMeans(s: string, c: char)
    ensures LastOf(s, c) == |s| <==> c !in s
    ensures LastOf(s, c) < |s| ==> s[LastOf(s, c)] == c && c !in s[LastOf(s, c) + 1..]
  {
    if s != [] {
      LastOfMeans(s[1..], c);
      assert s == [s[0]] + s[1..];
      if LastOf(s[1..], c) < |s| - 1 {
        assert s[LastOf(s, c) + 1..] == s[1..][LastOf(s[1..], c) + 1..];
      } else if s[0] == c {
        assert s[1..] == s[LastOf(s, c) + 1..];
      }
    }
  }

  lemma {:induction false} CutBefore(s: string, c: char) returns (front: string, back: string)
    ensures s == front + back && c !in front && (back != [] ==> back[0] == c)
  {
    if s == [] || s[0] == c {
      front, back := [], s;
    } else {
      front, back := CutBefore(s[1..], c);
      front := [s[0]] + front;
    }
  }

  // ---- The round trip ----

  lemma {:induction false} BeforeAbsent(s: string, c: char)
    requires c !in s
    ensures Before(s, c) == s
  {
    if s != [] {
      BeforeAbsent(s[1..], c);
      assert s == [s[0]] + s[1..];
    }
  }

  lemma {:induction false} LastOfAbsent(s: string, c: char)
    requires c !in s
    ensures LastOf(s, c) == |s|
  {
    if s != [] { LastOfAbsent(s[1..], c); }
  }

  lemma {:induction false} LastOfSeparator(head: string, c: char, tail: string)
    requires c !in tail
    ensures LastOf(head + [c] + tail, c) == |head|
  {
    var s := head + [c] + tail;
    if head == [] {
      assert s[1..] == tail;
      LastOfAbsent(tail, c);
    } else {
      assert s[1..] == head[1..] + [c] + tail;
      LastOfSeparator(head[1..], c, tail);
    }
  }

  lemma TrimBracketed(host: string)
    requires host != [] && HostChars(host)
    ensures TrimMatches(TrimMatches("[" + host + "]", '['), ']') == host
    ensures TrimMatches(TrimMatches(host, '['), ']') == host
  {
    assert host[0] in host && host[|host| - 1] in host;
    var s := host + "]";
    assert ("[" + host + "]")[1..] == s && s[0] == host[0] && s[|s| - 1] == ']';
    assert TrimStart("[" + host + "]", '[') == TrimStart(s, '[') == s;
    assert s[..|s| - 1] == host;
    assert TrimEnd(s, ']') == TrimEnd(host, ']') == host;
  }

  lemma NoSlash(shown: string, port: string)
    requires AllDigits(port) && forall c | c in shown :: HostChar(c) || c == '[' || c == ']'
    ensures '/' !in shown + ":" + port && ':' !in port
  {
  }

  lemma AuthorityParses(value: string, shown: string, host: string, port: nat)
    requires host != [] && HostChars(host) && port <= 0xffff
    requires shown == host || shown == "[" + host + "]"
    requires value == "wss://" + (shown + ":" + NatToString(port))
    ensures Parse(value) == Success(Endpoint(host, port))
  {
    hide NatToString, ParseU16, TrimMatches, Before, LastOf;
    var text := NatToString(port);
    var authority := shown + ":" + text;
    NoSlash(shown, text);
    assert value[6..] == authority;
    BeforeAbsent(authority, '/');
    LastOfSeparator(shown, ':', text);
    assert authority[..|shown|] == shown && authority[|shown| + 1..] == text;
    PortRoundTrip(port);
    TrimBracketed(host);
  }

  /**
   For every listener address the client parses the URL derived from it back to
   the host text, without brackets, and the port of the address it stands for.
   */
  lemma UrlRoundTrip(a: SocketAddr)
    requires ValidAddr(a)
    ensures Parse("wss://" + AddressText(Reachable(a))) == Success(Endpoint(HostText(Reachable(a)), a.port))
    ensures ValidAddr(Reachable(a)) && !Unspecified(Reachable(a)) && Reachable(a).V4? == a.V4?
    ensures !Unspecified(a) ==> Reachable(a) == a
  {
    hide HostText, Parse;
    var b := Reachable(a);
    var shown := if b.V4? then HostText(b) else "[" + HostText(b) + "]";
    HostTextChars(b);
    AuthorityParses("wss://" + AddressText(b), shown, HostText(b), b.port);
  }

  /** What the unspecified listeners are reached at, as text. */
  lemma LoopbackText(port: nat)
    ensures HostText(Reachable(V4([0, 0, 0, 0], port))) == "127.0.0.1"
    ensures HostText(Reachable(V6([0, 0, 0, 0, 0, 0, 0, 0], 0, port))) == "::1"
  {
    LoopbackV4();
    LoopbackV6();
  }

  lemma LoopbackV4()
    ensures V4Text([127, 0, 0, 1]) == "127.0.0.1"
  {
    var octets := [127, 0, 0, 1];
    var parts := seq(|octets|, i requires 0 <= i < |octets| => NatToString(octets[i]));
    assert NatToString(127) == "127" by {
      assert NatToString(12) == "12" && NatToString(127) == NatToString(12) + [Digit(7)];
    }
    assert parts == ["127", "0", "0", "1"];
    assert parts[1..] == ["0", "0", "1"] && parts[1..][1..] == ["0", "1"] && parts[1..][1..][1..] == ["1"];
    assert Join(["1"], '.') == "1";
    assert Join(["0", "1"], '.') == "0.1" by { assert ["0", "1"][1..] == ["1"]; }
    assert Join(["0", "0", "1"], '.') == "0.0.1" by { assert ["0", "0", "1"][1..] == ["0", "1"]; }
  }

  const LOOPBACK_V6: seq<nat> := [0, 0, 0, 0, 0, 0, 0, 1]

  lemma {:induction false} LoopbackZeros(i: nat)
    requires i <= 7
    ensures ZeroRun(LOOPBACK_V6, i) == 7 - i
    decreases 7 - i
  {
    if i < 7 { LoopbackZeros(i + 1); }
  }

  lemma {:induction false} LoopbackRun(i: nat)
    requires i <= 7
    ensures LongestRun(LOOPBACK_V6, i) == i
    decreases 7 - i
  {
    hide ZeroRun;
    if i < 7 {
      LoopbackRun(i + 1);
      LoopbackZeros(i);
      LoopbackZeros(i + 1);
    } else {
      LoopbackZeros(7);
      assert LongestRun(LOOPBACK_V6, 8) == 8;
      assert ZeroRun(LOOPBACK_V6, 8) == 0 by { NoZerosLeft(LOOPBACK_V6); }
    }
  }

  lemma NoZerosLeft(segments: seq<nat>)
    ensures ZeroRun(segments, |segments|) == 0
  {
  }

  lemma LoopbackV6()
    ensures V6Text([0, 0, 0, 0, 0, 0, 0, 1]) == "::1"
  {
    hide ZeroRun, LongestRun;
    LoopbackRun(0);
    LoopbackZeros(0);
    assert LOOPBACK_V6[..6][5] == 0;
    assert LOOPBACK_V6[..0] == [] && LOOPBACK_V6[7..] == [1];
    assert HexGroups([]) == "" && HexGroups([1]) == "1";
  }
}
