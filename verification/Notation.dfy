/**
 What the displayed text of a socket address says: dotted decimals for IPv4, as in
 section 3.2.2 of RFC 3986, and for IPv6 the hexadecimal groups of section 2.2 of
 RFC 4291 with the longest run of zeros left out as section 4.2 of RFC 5952 asks.
 */
module Notation {
  import opened Decimal
  import opened Text
  import opened Net

  // ---- Numbers ----

  predicate IsHex(c: char) { '0' <= c <= '9' || 'a' <= c <= 'f' }

  function HexValue(c: char): nat
    requires IsHex(c)
  {
    if c <= '9' then c as int - '0' as int else c as int - 'a' as int + 10
  }

  predicate AllHex(s: string) { forall i | 0 <= i < |s| :: IsHex(s[i]) }

  function HexesValue(s: string): nat
    requires AllHex(s)
  {
    if s == [] then 0 else 16 * HexesValue(s[..|s| - 1]) + HexValue(s[|s| - 1])
  }

  /** A nonempty lower-case text without superfluous zeros that reads as the number in base 16. */
  ghost predicate SpellsHex(s: string, n: nat) {
    s != [] && AllHex(s) && HexesValue(s) == n && (s[0] == '0' ==> |s| == 1)
  }

  lemma HexDigitMeans(d: nat)
    requires d < 16
    ensures IsHex(HexDigit(d)) && HexValue(HexDigit(d)) == d && (HexDigit(d) == '0' <==> d == 0)
  {
  }

  lemma {:induction false} HexIsSpelled(n: nat)
    ensures SpellsHex(HexText(n), n)
    ensures n > 0 ==> HexText(n)[0] != '0'
  {
    hide HexDigit, HexValue, IsHex;
    HexDigitMeans(n % 16);
    var s := HexText(n);
    if n >= 16 {
      HexIsSpelled(n / 16);
      assert s[..|s| - 1] == HexText(n / 16);
    } else {
      assert s == [HexDigit(n)] && s[..|s| - 1] == [];
      assert HexesValue(s[..|s| - 1]) == 0;
    }
  }

  // ---- Lists of numbers ----

  /** The text is the numbers in order, in decimal, with dots between them. */
  ghost predicate Dotted(text: string, octets: seq<nat>) {
    var parts := Split(text, '.');
    |parts| == |octets| && forall i | 0 <= i < |octets| :: Spells(parts[i], octets[i])
  }

  /** The text is the groups in order, in base 16, with colons between them; no group is no text. */
  ghost predicate Grouped(text: string, segments: seq<nat>) {
    if segments == [] then text == ""
    else
      var parts := Split(text, ':');
      |parts| == |segments| && forall i | 0 <= i < |segments| :: SpellsHex(parts[i], segments[i])
  }

  lemma V4IsDotted(octets: seq<nat>)
    requires octets != []
    ensures Dotted(V4Text(octets), octets)
  {
    var parts := seq(|octets|, i requires 0 <= i < |octets| => NatToString(octets[i]));
    forall i | 0 <= i < |octets| ensures Spells(parts[i], octets[i]) && '.' !in parts[i] { NatIsSpelled(octets[i]); }
    JoinSplits(parts, '.');
  }

  lemma HexIsGrouped(segments: seq<nat>)
    ensures Grouped(HexGroups(segments), segments)
  {
    hide IsHex, HexValue;
    var parts := seq(|segments|, i requires 0 <= i < |segments| => HexText(segments[i]));
    forall i | 0 <= i < |segments| ensures SpellsHex(parts[i], segments[i]) && ':' !in parts[i] {
      HexIsSpelled(segments[i]);
      NoColon(parts[i]);
    }
    if segments != [] { JoinSplits(parts, ':'); }
  }

  lemma NoColon(s: string)
    requires AllHex(s)
    ensures ':' !in s
  {
  }

  // ---- Zeros ----

  /** `n` zeros stand at `i`. */
  ghost predicate Zeros(segments: seq<nat>, i: nat, n: nat) {
    i + n <= |segments| && forall k | i <= k < i + n :: segments[k] == 0
  }

  /** The `n` zeros at `i` are the first of the longest runs. */
  ghost predicate FirstLongest(segments: seq<nat>, i: nat, n: nat) {
    && Zeros(segments, i, n)
    && (forall j: nat, m: nat | Zeros(segments, j, m) :: m <= n)
    && (forall j: nat | Zeros(segments, j, n) :: i <= j)
  }

  lemma {:induction false} RunIsLongestHere(segments: seq<nat>, i: nat, m: nat)
    requires i <= |segments|
    ensures Zeros(segments, i, m) <==> m <= ZeroRun(segments, i)
    decreases |segments| - i
  {
    if m > 0 && i < |segments| && segments[i] == 0 {
      RunIsLongestHere(segments, i + 1, m - 1);
    }
  }

  lemma {:induction false} LongestIsFirst(segments: seq<nat>, i: nat, j: nat)
    requires i <= j <= |segments|
    ensures var start := LongestRun(segments, i);
            && i <= start && ZeroRun(segments, j) <= ZeroRun(segments, start)
            && (ZeroRun(segments, j) == ZeroRun(segments, start) ==> start <= j)
    decreases |segments| - i
  {
    hide ZeroRun;
    if i < |segments| {
      LongestIsFirst(segments, i + 1, if j > i then j else i + 1);
    }
  }

  lemma LongestRunMeans(segments: seq<nat>)
    ensures var start := LongestRun(segments, 0); FirstLongest(segments, start, ZeroRun(segments, start))
  {
    hide ZeroRun, LongestRun, Zeros;
    var start := LongestRun(segments, 0);
    var n := ZeroRun(segments, start);
    RunIsLongestHere(segments, start, n);
    forall j: nat, m: nat | Zeros(segments, j, m) ensures m <= n && (m == n ==> start <= j) {
      ZerosInside(segments, j, m);
      RunIsLongestHere(segments, j, m);
      LongestIsFirst(segments, 0, j);
    }
  }

  lemma ZerosInside(segments: seq<nat>, i: nat, n: nat)
    requires Zeros(segments, i, n)
    ensures i <= |segments|
  {
  }

  // ---- Addresses ----

  /** The embedded IPv4 address of a mapped one. */
  ghost predicate ShowsMapped(segments: seq<nat>, text: string)
    requires |segments| == 8
  {
    && "::ffff:" <= text
    && Dotted(text[7..], [segments[6] / 0x100, segments[6] % 0x100, segments[7] / 0x100, segments[7] % 0x100])
  }

  ghost predicate ShowsGroups(segments: seq<nat>, text: string) {
    if exists i: nat :: Zeros(segments, i, 2) then
      exists i: nat, n: nat, head: string, tail: string ::
        && FirstLongest(segments, i, n)
        && text == head + "::" + tail && Grouped(head, segments[..i]) && Grouped(tail, segments[i + n..])
    else Grouped(text, segments)
  }

  ghost predicate ShowsV6(segments: seq<nat>, text: string) {
    if |segments| == 8 && Zeros(segments, 0, 5) && segments[5] == 0xffff then ShowsMapped(segments, text)
    else ShowsGroups(segments, text)
  }

  lemma GroupsShown(segments: seq<nat>)
    ensures var start := LongestRun(segments, 0);
            var n := ZeroRun(segments, start);
            ShowsGroups(segments, if n > 1 then HexGroups(segments[..start]) + "::" + HexGroups(segments[start + n..])
                                  else HexGroups(segments))
  {
    hide ZeroRun, LongestRun, HexGroups, Grouped;
    var start := LongestRun(segments, 0);
    var n := ZeroRun(segments, start);
    LongestRunMeans(segments);
    if n > 1 {
      assert Zeros(segments, start, 2);
      HexIsGrouped(segments[..start]);
      HexIsGrouped(segments[start + n..]);
    } else {
      HexIsGrouped(segments);
    }
  }

  lemma V6IsShown(segments: seq<nat>)
    ensures ShowsV6(segments, V6Text(segments))
  {
    hide ZeroRun, LongestRun, HexGroups, V4Text, ShowsGroups, Dotted;
    GroupsShown(segments);
    if |segments| == 8 {
      var octets := [segments[6] / 256, segments[6] % 256, segments[7] / 256, segments[7] % 256];
      V4IsDotted(octets);
      assert ("::ffff:" + V4Text(octets))[7..] == V4Text(octets);
    }
  }

  /** The host: an IPv4 address in dotted decimals, or an IPv6 address with its scope if it has one. */
  ghost predicate ShowsHost(a: SocketAddr, text: string) {
    match a
    case V4(octets, _) => Dotted(text, octets)
    case V6(segments, scope, _) =>
      exists host: string, number: string ::
        && ShowsV6(segments, host)
        && (if scope == 0 then text == host else text == host + "%" + number && Spells(number, scope))
  }

  /** The whole address: the host, in brackets if it is an IPv6 address, and the port. */
  ghost predicate ShowsAddress(a: SocketAddr, text: string) {
    exists host: string, port: string ::
      && ShowsHost(a, host) && Spells(port, a.port)
      && text == (if a.V4? then host else "[" + host + "]") + ":" + port
  }

  lemma HostIsShown(a: SocketAddr)
    requires ValidAddr(a)
    ensures ShowsHost(a, HostText(a))
  {
    hide V4Text, V6Text, Dotted, ShowsV6, Spells, NatToString;
    match a
    case V4(octets, _) => V4IsDotted(octets);
    case V6(segments, scope, _) =>
      V6IsShown(segments);
      NatIsSpelled(scope);
      assert scope == 0 ==> HostText(a) == V6Text(segments);
      assert scope != 0 ==> HostText(a) == V6Text(segments) + "%" + NatToString(scope);
  }

  /** The displayed text of an address shows that address. */
  lemma AddressIsShown(a: SocketAddr)
    requires ValidAddr(a)
    ensures ShowsAddress(a, AddressText(a))
  {
    hide HostText, ShowsHost, Spells, NatToString;
    NatIsSpelled(a.port);
    HostIsShown(a);
    assert AddressText(a)
        == (if a.V4? then HostText(a) else "[" + HostText(a) + "]") + ":" + NatToString(a.port);
  }
}
