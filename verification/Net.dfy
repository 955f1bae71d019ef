/** Socket addresses and their text, as Rust's standard library displays them. */
module Net {
  import opened Decimal
  import opened Text

  datatype SocketAddr =
    | V4(octets: seq<nat>, port: nat)
    | V6(segments: seq<nat>, scope: nat, port: nat)

  /** The widths of the fields. */
  predicate ValidAddr(a: SocketAddr) {
    a.port <= 0xffff &&
    match a
    case V4(octets, _) => |octets| == 4 && forall o | o in octets :: o <= 0xff
    case V6(segments, scope, _) => |segments| == 8 && (forall s | s in segments :: s <= 0xffff) && scope <= 0xffff_ffff
  }

  predicate Unspecified(a: SocketAddr) {
    match a
    case V4(octets, _) => octets == [0, 0, 0, 0]
    case V6(segments, _, _) => segments == [0, 0, 0, 0, 0, 0, 0, 0]
  }

  // ---- Text ----

  function HexDigit(d: nat): char
    requires d < 16
  {
    if d < 10 then Digit(d) else ('a' as int + d - 10) as char
  }

  function HexText(n: nat): string {
    if n < 16 then [HexDigit(n)] else HexText(n / 16) + [HexDigit(n % 16)]
  }

  function V4Text(octets: seq<nat>): string {
    Join(seq(|octets|, i requires 0 <= i < |octets| => NatToString(octets[i])), '.')
  }

  function HexGroups(segments: seq<nat>): string {
    Join(seq(|segments|, i requires 0 <= i < |segments| => HexText(segments[i])), ':')
  }

  /** How many zero segments there are from `i` on without a break. */
  function ZeroRun(segments: seq<nat>, i: nat): (n: nat)
    requires i <= |segments|
    ensures i + n <= |segments|
    decreases |segments| - i
  {
    if i < |segments| && segments[i] == 0 then 1 + ZeroRun(segments, i + 1) else 0
  }

  /** The first of the longest runs of zeros at or after `i`. */
  function LongestRun(segments: seq<nat>, i: nat): (start: nat)
    requires i <= |segments|
    ensures start <= |segments|
    decreases |segments| - i
  {
    if i == |segments| then i
    else
      var later := LongestRun(segments, i + 1);
      if ZeroRun(segments, later) > ZeroRun(segments, i) then later else i
  }

  /** An IPv4-mapped address shows its IPv4 form; otherwise the first longest run of two or more zeros is left out. */
  function V6Text(segments: seq<nat>): string {
    if |segments| == 8 && segments[..6] == [0, 0, 0, 0, 0, 0xffff] then
      "::ffff:" + V4Text([segments[6] / 256, segments[6] % 256, segments[7] / 256, segments[7] % 256])
    else
      var start := LongestRun(segments, 0);
      var n := ZeroRun(segments, start);
      if n > 1 then HexGroups(segments[..start]) + "::" + HexGroups(segments[start + n..]) else HexGroups(segments)
  }

  function HostText(a: SocketAddr): string {
    match a
    case V4(octets, _) => V4Text(octets)
    case V6(segments, scope, _) => V6Text(segments) + if scope == 0 then "" else "%" + NatToString(scope)
  }

  function AddressText(a: SocketAddr): string {
    (if a.V4? then HostText(a) else "[" + HostText(a) + "]") + ":" + NatToString(a.port)
  }

  // ---- Which characters a host is made of ----

  predicate HostChar(c: char) { IsDigit(c) || 'a' <= c <= 'f' || c == ':' || c == '.' || c == '%' }

  predicate HostChars(s: string) { forall c | c in s :: HostChar(c) }

  lemma DigitsAreHostChars(s: string)
    requires AllDigits(s)
    ensures HostChars(s)
  {
  }

  lemma {:induction false} HexTextChars(n: nat)
    ensures HexText(n) != [] && HostChars(HexText(n))
  {
    if n >= 16 { HexTextChars(n / 16); }
  }

  lemma CharsJoined(s: string, t: string)
    requires HostChars(s) && HostChars(t)
    ensures HostChars(s + t)
  {
  }

  lemma {:induction false} JoinChars(parts: seq<string>, separator: char)
    requires HostChar(separator) && forall p | p in parts :: p != [] && HostChars(p)
    ensures HostChars(Join(parts, separator)) && (parts != [] ==> Join(parts, separator) != [])
  {
    if |parts| == 1 {
      assert parts[0] in parts;
    } else if |parts| > 1 {
      assert forall p | p in parts[1..] :: p in parts;
      JoinChars(parts[1..], separator);
      assert parts[0] in parts;
      CharsJoined(parts[0], [separator]);
      CharsJoined(parts[0] + [separator], Join(parts[1..], separator));
    }
  }

  lemma V4TextChars(octets: seq<nat>)
    ensures HostChars(V4Text(octets)) && (octets != [] ==> V4Text(octets) != [])
  {
    forall i | 0 <= i < |octets| ensures HostChars(NatToString(octets[i])) {
      DigitsAreHostChars(NatToString(octets[i]));
    }
    JoinChars(seq(|octets|, i requires 0 <= i < |octets| => NatToString(octets[i])), '.');
  }

  lemma HexGroupsChars(segments: seq<nat>)
    ensures HostChars(HexGroups(segments)) && (segments != [] ==> HexGroups(segments) != [])
  {
    forall i | 0 <= i < |segments| ensures HexText(segments[i]) != [] && HostChars(HexText(segments[i])) {
      HexTextChars(segments[i]);
    }
    JoinChars(seq(|segments|, i requires 0 <= i < |segments| => HexText(segments[i])), ':');
  }

  lemma V6TextChars(segments: seq<nat>)
    requires segments != []
    ensures HostChars(V6Text(segments)) && V6Text(segments) != []
  {
    hide HostChars, HexGroups, V4Text, LongestRun, ZeroRun;
    SeparatorChars();
    if |segments| == 8 && segments[..6] == [0, 0, 0, 0, 0, 0xffff] {
      var octets := [segments[6] / 256, segments[6] % 256, segments[7] / 256, segments[7] % 256];
      V4TextChars(octets);
      CharsJoined("::ffff:", V4Text(octets));
    } else {
      var start := LongestRun(segments, 0);
      var head, tail := HexGroups(segments[..start]), HexGroups(segments[start + ZeroRun(segments, start)..]);
      HexGroupsChars(segments[..start]);
      HexGroupsChars(segments[start + ZeroRun(segments, start)..]);
      HexGroupsChars(segments);
      CharsJoined(head, "::");
      CharsJoined(head + "::", tail);
    }
  }

  lemma SeparatorChars()
    ensures HostChars("::") && HostChars("::ffff:")
  {
  }

  /** A host is never empty and holds no slash and no bracket. */
  lemma HostTextChars(a: SocketAddr)
    requires ValidAddr(a)
    ensures HostText(a) != [] && HostChars(HostText(a))
  {
    hide V4Text, V6Text;
    match a
    case V4(octets, _) => V4TextChars(octets);
    case V6(segments, scope, _) =>
      V6TextChars(segments);
      DigitsAreHostChars(NatToString(scope));
  }
}
