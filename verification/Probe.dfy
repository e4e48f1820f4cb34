/** The parser of the port probe's output (internal/probe.go). */
module Probe {
  import opened Wrappers
  import opened Text
  import opened Order
  import opened Ports

  type Byte = b: int | 0 <= b < 256

  // ---------------------------------------------------------- addresses in hex

  /** The byte two hexadecimal digits write. */
  function HexByteAt(s: string, at: nat): (b: Option<Byte>)
    requires at + 2 <= |s|
  {
    var hi, lo := DigitValue(s[at]), DigitValue(s[at + 1]);
    if hi < 16 && lo < 16 then Some(hi * 16 + lo) else None
  }

  /** Where byte `i` of an address is written: words in order, each word backwards. */
  function HexPosition(i: nat): nat {
    (i / 4) * 8 + (3 - i % 4) * 2
  }

  predicate IsHex(s: string) {
    forall k :: 0 <= k < |s| ==> DigitValue(s[k]) < 16
  }

  /** `bytes` is what the hexadecimal words of `s` write, each word read little-endian. */
  predicate Decodes(s: string, bytes: seq<Byte>) {
    && (|s| == 8 || |s| == 32)
    && |s| == 2 * |bytes|
    && forall i :: 0 <= i < |bytes| ==> HexPosition(i) + 2 <= |s| && HexByteAt(s, HexPosition(i)) == Some(bytes[i])
  }

  /** One little-endian word, written into the buffer backwards. */
  method ParseHexWord(hex: string, out: array<Byte>, w: nat) returns (ok: bool)
    requires w * 8 + 8 <= |hex| && w * 4 + 4 <= out.Length
    modifies out
    ensures ok <==> forall k :: w * 8 <= k < w * 8 + 8 ==> DigitValue(hex[k]) < 16
    ensures ok ==> WordDone(hex, out[..], w)
    ensures forall i :: 0 <= i < w * 4 || w * 4 + 4 <= i < out.Length ==> out[i] == old(out[i])
  {
    for b := 0 to 4
      invariant forall k :: w * 8 <= k < w * 8 + b * 2 ==> DigitValue(hex[k]) < 16
      invariant forall c :: 0 <= c < b ==> HexByteAt(hex, w * 8 + c * 2) == Some(out[w * 4 + 3 - c])
      invariant forall i :: 0 <= i < w * 4 || w * 4 + 4 <= i < out.Length ==> out[i] == old(out[i])
    {
      var v := HexByteAt(hex, w * 8 + b * 2);
      if v.None? {
        return false;
      }
      out[w * 4 + 3 - b] := v.value;
    }
    ok := true;
  }

  /** Word `w` of the buffer holds what word `w` of the text writes. */
  predicate WordDone(hex: string, out: seq<Byte>, w: nat)
    requires w * 8 + 8 <= |hex| && w * 4 + 4 <= |out|
  {
    forall b :: 0 <= b < 4 ==> HexByteAt(hex, w * 8 + b * 2) == Some(out[w * 4 + 3 - b])
  }

  predicate WordsDone(hex: string, out: seq<Byte>, n: nat)
    requires n * 8 <= |hex| && n * 4 <= |out|
  {
    forall w :: 0 <= w < n ==> WordDone(hex, out, w)
  }

  /** The next word does not disturb the ones before it. */
  lemma WordsKept(hex: string, out: seq<Byte>, out': seq<Byte>, n: nat)
    requires n * 8 <= |hex| && n * 4 <= |out| && WordsDone(hex, out, n)
    requires |out'| == |out| && forall i :: 0 <= i < n * 4 ==> out'[i] == out[i]
    ensures WordsDone(hex, out', n)
  {
    forall w | 0 <= w < n
      ensures WordDone(hex, out', w)
    {
      assert WordDone(hex, out, w);
    }
  }

  /** A buffer whose words are all done decodes the text. */
  lemma WordsDecode(hex: string, out: seq<Byte>, n: nat)
    requires |hex| == n * 8 && |out| == n * 4 && (n == 1 || n == 4) && WordsDone(hex, out, n)
    ensures Decodes(hex, out)
  {
    forall i | 0 <= i < |out|
      ensures HexPosition(i) + 2 <= |hex| && HexByteAt(hex, HexPosition(i)) == Some(out[i])
    {
      var w, b := i / 4, 3 - i % 4;
      assert WordDone(hex, out, w);
      assert HexPosition(i) == w * 8 + b * 2 && i == w * 4 + 3 - b;
    }
  }

  /** `parseHexAddr`. */
  method ParseHexAddr(hex: string) returns (ip: Option<seq<Byte>>)
    ensures ip.Some? <==> (|hex| == 8 || |hex| == 32) && IsHex(hex)
    ensures ip.Some? ==> Decodes(hex, ip.value)
  {
    if |hex| != 8 && |hex| != 32 {
      return None;
    }
    var words := |hex| / 8;
    var out := new Byte[words * 4](_ => 0);
    for w := 0 to words
      invariant forall k :: 0 <= k < w * 8 ==> DigitValue(hex[k]) < 16
      invariant WordsDone(hex, out[..], w)
    {
      ghost var before := out[..];
      var ok := ParseHexWord(hex, out, w);
      if !ok {
        return None;
      }
      WordsKept(hex, before, out[..], w);
    }
    WordsDecode(hex, out[..], words);
    ip := Some(out[..]);
  }

  /** The address a hexadecimal text stands for. */
  function ParsedAddr(hex: string): (ip: Option<seq<Byte>>)
    ensures ip.Some? <==> (|hex| == 8 || |hex| == 32) && IsHex(hex)
    ensures ip.Some? ==> Decodes(hex, ip.value)
  {
    if (|hex| == 8 || |hex| == 32) && IsHex(hex) then
      Some(seq(|hex| / 2, i requires 0 <= i < |hex| / 2 => HexByteAt(hex, HexPosition(i)).value))
    else None
  }

  /** A text stands for one address only. */
  lemma DecodesOnce(s: string, a: seq<Byte>, b: seq<Byte>)
    requires Decodes(s, a) && Decodes(s, b)
    ensures a == b
  {
    forall i | 0 <= i < |a|
      ensures a[i] == b[i]
    {
      assert HexByteAt(s, HexPosition(i)) == Some(a[i]);
    }
  }

  function ByteText(b: Byte): (s: string)
    ensures |s| == 2 && IsHex(s) && HexByteAt(s, 0) == Some(b)
  {
    [Digit(b / 16), Digit(b % 16)]
  }

  function WordText(w: seq<Byte>): (s: string)
    requires |w| == 4
    ensures |s| == 8
  {
    ByteText(w[3]) + ByteText(w[2]) + ByteText(w[1]) + ByteText(w[0])
  }

  /** The words of an address, in order. */
  function WordTexts(bytes: seq<Byte>): (ws: seq<string>)
    requires |bytes| % 4 == 0
    ensures |ws| == |bytes| / 4
    ensures forall i :: 0 <= i < |ws| ==> |ws[i]| == 8
  {
    seq(|bytes| / 4, i requires 0 <= i < |bytes| / 4 => WordText(bytes[i * 4..i * 4 + 4]))
  }

  /** An address as the kernel prints it: little-endian words of upper-case hexadecimal. */
  function AddrText(bytes: seq<Byte>): string
    requires |bytes| % 4 == 0
  {
    Flatten(WordTexts(bytes))
  }

  lemma WordTextAt(w: seq<Byte>, j: nat)
    requires |w| == 4 && j < 4
    ensures HexByteAt(WordText(w), (3 - j) * 2) == Some(w[j])
    ensures DigitValue(WordText(w)[(3 - j) * 2]) < 16 && DigitValue(WordText(w)[(3 - j) * 2 + 1]) < 16
  {
    var s, k := WordText(w), (3 - j) * 2;
    assert s[k] == ByteText(w[j])[0] && s[k + 1] == ByteText(w[j])[1];
  }

  lemma HexByteIn(s: string, word: string, at: nat, k: nat)
    requires at + 8 <= |s| && s[at..at + 8] == word && k + 2 <= 8
    ensures HexByteAt(s, at + k) == HexByteAt(word, k)
  {
    assert s[at + k] == word[k] && s[at + k + 1] == word[k + 1];
  }

  /** Byte `j` of word `w` is written where its word says. */
  lemma AddrTextAt(bytes: seq<Byte>, w: nat, j: nat)
    requires |bytes| % 4 == 0 && w * 4 + j < |bytes| && j < 4
    ensures w * 8 + 8 <= |AddrText(bytes)|
    ensures HexByteAt(AddrText(bytes), w * 8 + (3 - j) * 2) == Some(bytes[w * 4 + j])
  {
    WordIsAt(WordTexts(bytes), w);
    WordTextsAt(bytes, w, j);
    HexByteIn(AddrText(bytes), WordTexts(bytes)[w], w * 8, (3 - j) * 2);
  }

  lemma {:induction false} WordsLength(words: seq<string>)
    requires forall i :: 0 <= i < |words| ==> |words[i]| == 8
    ensures |Flatten(words)| == |words| * 8
  {
    if words != [] {
      WordsLength(words[..|words| - 1]);
    }
  }

  /** Words of eight digits are found at the multiples of eight. */
  lemma {:induction false} WordIsAt(words: seq<string>, w: nat)
    requires (forall i :: 0 <= i < |words| ==> |words[i]| == 8) && w < |words|
    ensures w * 8 + 8 <= |Flatten(words)|
    ensures Flatten(words)[w * 8..w * 8 + 8] == words[w]
  {
    var init := words[..|words| - 1];
    WordsLength(init);
    if w < |init| {
      WordIsAt(init, w);
      TakeBefore(Flatten(init), words[|words| - 1], w * 8, 8);
    }
  }

  lemma TakeBefore(a: string, b: string, at: nat, size: nat)
    requires at + size <= |a|
    ensures (a + b)[at..at + size] == a[at..at + size]
  {
  }

  lemma WordTextsAt(bytes: seq<Byte>, w: nat, j: nat)
    requires |bytes| % 4 == 0 && w < |bytes| / 4 && j < 4
    ensures HexByteAt(WordTexts(bytes)[w], (3 - j) * 2) == Some(bytes[w * 4 + j])
  {
    WordTextAt(bytes[w * 4..w * 4 + 4], j);
  }

  lemma AddrTextIsHex(bytes: seq<Byte>)
    requires |bytes| % 4 == 0
    ensures IsHex(AddrText(bytes)) && |AddrText(bytes)| == 2 * |bytes|
  {
    var ws := WordTexts(bytes);
    forall i | 0 <= i < |ws|
      ensures IsHex(ws[i])
    {
      WordTextIsHex(bytes[i * 4..i * 4 + 4]);
    }
    WordsLength(ws);
    FlattenAll(ws, c => DigitValue(c) < 16);
  }

  lemma WordTextIsHex(w: seq<Byte>)
    requires |w| == 4
    ensures IsHex(WordText(w))
  {
  }

  /** Every byte is written where its position says. */
  lemma ByteIsWritten(bytes: seq<Byte>, i: nat)
    requires |bytes| % 4 == 0 && i < |bytes|
    ensures HexPosition(i) + 2 <= |AddrText(bytes)| && HexByteAt(AddrText(bytes), HexPosition(i)) == Some(bytes[i])
  {
    AddrTextAt(bytes, i / 4, i % 4);
  }

  /** Reading inverts printing, for every 4-byte and every 16-byte address. */
  lemma HexRoundTrip(bytes: seq<Byte>)
    requires |bytes| == 4 || |bytes| == 16
    ensures ParsedAddr(AddrText(bytes)) == Some(bytes)
  {
    AddrTextIsHex(bytes);
    var s := AddrText(bytes);
    forall i | 0 <= i < |bytes|
      ensures HexPosition(i) + 2 <= |s| && HexByteAt(s, HexPosition(i)) == Some(bytes[i])
    {
      ByteIsWritten(bytes, i);
    }
    DecodesOnce(s, ParsedAddr(s).value, bytes);
  }

  /** The kernel's text of 127.0.0.1. */
  lemma LoopbackText()
    ensures ParsedAddr("0100007F") == Some([127, 0, 0, 1])
  {
    var s := "0100007F";
    assert HexByteAt(s, 0) == Some(1) && HexByteAt(s, 2) == Some(0);
    assert HexByteAt(s, 4) == Some(0) && HexByteAt(s, 6) == Some(127);
    OneWord(s, 127, 0, 0, 1);
  }

  /** An IPv4 address is written backwards. */
  lemma OneWord(s: string, a: Byte, b: Byte, c: Byte, d: Byte)
    requires |s| == 8 && HexByteAt(s, 6) == Some(a) && HexByteAt(s, 4) == Some(b)
    requires HexByteAt(s, 2) == Some(c) && HexByteAt(s, 0) == Some(d)
    ensures ParsedAddr(s) == Some([a, b, c, d])
  {
    assert HexPosition(0) == 6 && HexPosition(1) == 4 && HexPosition(2) == 2 && HexPosition(3) == 0;
    assert Decodes(s, [a, b, c, d]);
    assert IsHex(s);
    DecodesOnce(s, ParsedAddr(s).value, [a, b, c, d]);
  }

  /** `net.IP.IsLoopback`: 127/8, also when mapped into IPv6, and ::1. */
  predicate IsLoopback(ip: seq<Byte>)
    requires |ip| == 4 || |ip| == 16
  {
    if |ip| == 4 then ip[0] == 127
    else if ip[..12] == [0, 0, 0, 0, 0, 0, 0, 0, 0, 0, 255, 255] then ip[12] == 127
    else ip == [0, 0, 0, 0, 0, 0, 0, 0, 0, 0, 0, 0, 0, 0, 0, 1]
  }

  /** What counts as loopback, byte by byte. */
  lemma LoopbackMeaning(ip: seq<Byte>)
    requires |ip| == 4 || |ip| == 16
    ensures IsLoopback(ip) <==>
            || (|ip| == 4 && ip[0] == 127)
            || (|ip| == 16 && (forall i :: 0 <= i < 10 ==> ip[i] == 0) && ip[10] == ip[11] == 255 && ip[12] == 127)
            || (|ip| == 16 && (forall i :: 0 <= i < 15 ==> ip[i] == 0) && ip[15] == 1)
  {
    if |ip| == 16 {
      var prefix := [0, 0, 0, 0, 0, 0, 0, 0, 0, 0, 255, 255];
      var one := [0, 0, 0, 0, 0, 0, 0, 0, 0, 0, 0, 0, 0, 0, 0, 1];
      StartsWith(ip, prefix);
      StartsWith(ip, one);
      assert ip[..16] == ip;
      assert forall i :: 0 <= i < 10 ==> prefix[i] == 0;
      assert forall i :: 0 <= i < 15 ==> one[i] == 0;
      assert prefix[10] == prefix[11] == 255 && one[15] == 1;
    }
  }

  lemma StartsWith(ip: seq<Byte>, prefix: seq<Byte>)
    requires |prefix| <= |ip|
    ensures ip[..|prefix|] == prefix <==> forall i :: 0 <= i < |prefix| ==> ip[i] == prefix[i]
  {
    if ip[..|prefix|] == prefix {
      forall i | 0 <= i < |prefix|
        ensures ip[i] == prefix[i]
      {
        assert ip[i] == ip[..|prefix|][i];
      }
    }
  }

  /** An IPv4 address mapped into IPv6. */
  function Mapped(ip: seq<Byte>): (r: seq<Byte>)
    requires |ip| == 4
    ensures |r| == 16
  {
    [0, 0, 0, 0, 0, 0, 0, 0, 0, 0, 255, 255] + ip
  }

  /** A mapped address is loopback exactly when the address it maps is. */
  lemma MappedLoopback(ip: seq<Byte>)
    requires |ip| == 4
    ensures IsLoopback(Mapped(ip)) <==> IsLoopback(ip)
  {
    assert Mapped(ip)[..12] == [0, 0, 0, 0, 0, 0, 0, 0, 0, 0, 255, 255];
  }

  // ------------------------------------------------------------- the line parser

  const MAX_INT32 := 0x7FFF_FFFF

  /** The protocol a section marker switches to. */
  function MarkerProtocol(line: string): Option<string> {
    if line == "===tcp===" || line == "===tcp6===" then Some(TCP)
    else if line == "===udp===" || line == "===udp6===" then Some(UDP)
    else None
  }

  /** The state that means listening: TCP_LISTEN, or TCP_CLOSE for a bound UDP socket. */
  function WantState(protocol: string): string {
    if protocol == UDP then "07" else "0A"
  }

  /** The listener a table line reports. */
  function LineListener(protocol: string, line: string): Option<ProtoPort> {
    var fields := Fields(line);
    if |fields| < 4 || fields[3] != WantState(protocol) then None else EndpointListener(protocol, fields[1])
  }

  function EndpointListener(protocol: string, endpoint: string): Option<ProtoPort> {
    var colon := LastIndex(endpoint, ':');
    if colon < 0 then None
    else
      var ip := ParsedAddr(endpoint[..colon]);
      if ip.None? || IsLoopback(ip.value) then None
      else
        match ParseInt(endpoint[colon + 1..], 16, -MAX_INT32 - 1, MAX_INT32)
        case None => None
        case Some(port) => if port <= 0 then None else Some(ProtoPort(port, protocol))
  }

  /** The section a line leaves the parser in. */
  function NextSection(current: string, line: string): string {
    match MarkerProtocol(TrimSpace(line))
    case Some(p) => p
    case None => current
  }

  /** What a line contributes. */
  function LineFinds(current: string, line: string): set<ProtoPort> {
    var t := TrimSpace(line);
    if current == "" || MarkerProtocol(t).Some? then {}
    else
      match LineListener(current, t)
      case None => {}
      case Some(l) => {l}
  }

  /** What lines contribute when read in section `current`. */
  function Found(lines: seq<string>, current: string): set<ProtoPort> {
    if lines == [] then {}
    else LineFinds(current, lines[0]) + Found(lines[1..], NextSection(current, lines[0]))
  }

  /** The listeners of a probe output. */
  function Listeners(text: string): set<ProtoPort> {
    Found(Split(text, '\n'), "")
  }

  /** The body of the loop over lines, past the section test. */
  method ReadLine(current: string, line: string) returns (l: Option<ProtoPort>)
    ensures l == LineListener(current, line)
  {
    var fields := Fields(line);
    if |fields| < 4 {
      return None;
    }
    var wantState := "0A";
    if current == UDP {
      wantState := "07";
    }
    if fields[3] != wantState {
      return None;
    }
    l := ReadEndpoint(current, fields[1]);
  }

  method ReadEndpoint(current: string, endpoint: string) returns (l: Option<ProtoPort>)
    ensures l == EndpointListener(current, endpoint)
  {
    var colon := LastIndex(endpoint, ':');
    if colon < 0 {
      return None;
    }
    var ip := ParseHexAddr(endpoint[..colon]);
    if ip.Some? {
      DecodesOnce(endpoint[..colon], ip.value, ParsedAddr(endpoint[..colon]).value);
    }
    if ip.None? || IsLoopback(ip.value) {
      return None;
    }
    var port := ParseInt(endpoint[colon + 1..], 16, -MAX_INT32 - 1, MAX_INT32);
    if port.None? || port.value <= 0 {
      return None;
    }
    l := Some(ProtoPort(port.value, current));
  }

  /** `ExtractListeners`: the listeners found, each once, in strictly increasing order. */
  method ExtractListeners(text: string) returns (out: seq<ProtoPort>)
    ensures Increasing(ProtoPortLess, out)
    ensures forall l :: l in out <==> l in Listeners(text)
  {
    var lines := Split(text, '\n');
    var seen: set<ProtoPort> := {};
    var current := "";
    for i := 0 to |lines|
      invariant Listeners(text) == seen + Found(lines[i..], current)
    {
      assert lines[i..][1..] == lines[i + 1..];
      var line := TrimSpace(lines[i]);
      if line == "" {
        BlankLine(current, lines[i]);
        continue;
      }
      var marker := MarkerProtocol(line);
      if marker.Some? {
        current := marker.value;
        continue;
      }
      if current == "" {
        continue;
      }
      var l := ReadLine(current, line);
      if l.None? {
        continue;
      }
      seen := seen + {l.value};
    }
    assert lines[|lines|..] == [];
    out := Collect(seen);
  }

  lemma BlankLine(current: string, line: string)
    requires TrimSpace(line) == ""
    ensures LineFinds(current, line) == {} && NextSection(current, line) == current
  {
  }

  /** A map's keys come in no particular order; sorting makes the result unique. */
  method Collect(seen: set<ProtoPort>) returns (out: seq<ProtoPort>)
    ensures Increasing(ProtoPortLess, out)
    ensures forall l :: l in out <==> l in seen
  {
    var rest := seen;
    out := [];
    while rest != {}
      invariant NoRepeats(out)
      invariant forall l :: l in out <==> l in seen && l !in rest
      invariant rest <= seen
      decreases rest
    {
      var k :| k in rest;
      out := out + [k];
      rest := rest - {k};
    }
    ProtoPortOrder();
    SortSorts(ProtoPortLess, out);
    out := Sort(ProtoPortLess, out);
  }

  /** Whatever order the map yields, there is one possible result. */
  lemma ResultIsUnique(text: string, a: seq<ProtoPort>, b: seq<ProtoPort>)
    requires Increasing(ProtoPortLess, a) && forall l :: l in a <==> l in Listeners(text)
    requires Increasing(ProtoPortLess, b) && forall l :: l in b <==> l in Listeners(text)
    ensures a == b
  {
    ProtoPortOrder();
    IncreasingIsUnique(ProtoPortLess, a, b);
  }

  // --------------------------------------------------------- section composition

  function LastSection(lines: seq<string>, current: string): string {
    if lines == [] then current else LastSection(lines[1..], NextSection(current, lines[0]))
  }

  lemma {:induction false} FoundConcat(a: seq<string>, b: seq<string>, current: string)
    ensures Found(a + b, current) == Found(a, current) + Found(b, LastSection(a, current))
  {
    if a == [] {
      assert a + b == b;
    } else {
      assert (a + b)[1..] == a[1..] + b;
      FoundConcat(a[1..], b, NextSection(current, a[0]));
    }
  }

  predicate StartsWithMarker(lines: seq<string>) {
    lines != [] && MarkerProtocol(TrimSpace(lines[0])).Some?
  }

  /**
   A text that begins with a marker line is read the same after any other text: the
   listeners of the two joined by a newline are the union of those of each.
   */
  lemma SectionsCompose(a: string, b: string)
    requires StartsWithMarker(Split(b, '\n'))
    ensures Listeners(a + "\n" + b) == Listeners(a) + Listeners(b)
  {
    SplitConcat(a, b, '\n');
    FoundConcat(Split(a, '\n'), Split(b, '\n'), "");
  }

  lemma {:induction false} NothingBeforeMarker(lines: seq<string>)
    requires forall l :: l in lines ==> MarkerProtocol(TrimSpace(l)).None?
    ensures Found(lines, "") == {} && LastSection(lines, "") == ""
  {
    if lines != [] {
      NothingBeforeMarker(lines[1..]);
    }
  }

  /** Text before the first marker contributes nothing. */
  lemma PreambleIsIgnored(a: string, b: string)
    requires forall l :: l in Split(a, '\n') ==> MarkerProtocol(TrimSpace(l)).None?
    ensures Listeners(a) == {} && Listeners(a + "\n" + b) == Listeners(b)
  {
    NothingBeforeMarker(Split(a, '\n'));
    SplitConcat(a, b, '\n');
    FoundConcat(Split(a, '\n'), Split(b, '\n'), "");
  }

  // -------------------------------------------------------------- the socket tables

  /** A line of /proc/net/tcp, tcp6, udp or udp6. */
  datatype Socket = Socket(pad: string, slot: nat, address: seq<Byte>, port: nat, remote: string, state: string,
                           rest: string)

  predicate ValidSocket(s: Socket) {
    && (forall k :: 0 <= k < |s.pad| ==> s.pad[k] == ' ')
    && (|s.address| == 4 || |s.address| == 16)
    && s.port <= MAX_PORT
    && IsWord(s.remote) && IsWord(s.state)
    && '\n' !in s.remote && '\n' !in s.state && '\n' !in s.rest
  }

  /** A 16-bit port, as the kernel prints it. */
  function PortText(port: nat): (s: string)
    requires port <= MAX_PORT
  {
    [Digit(port / 4096), Digit(port / 256 % 16), Digit(port / 16 % 16), Digit(port % 16)]
  }

  function EndpointText(s: Socket): string
    requires ValidSocket(s)
  {
    AddrText(s.address) + ":" + PortText(s.port)
  }

  function SocketLine(s: Socket): string
    requires ValidSocket(s)
  {
    s.pad + (NatText(s.slot) + ":" + " " + (EndpointText(s) + " " + (s.remote + " " + (s.state + " " + s.rest))))
  }

  /** A line above the sockets: no marker, and without a listening state for its fourth word. */
  predicate IsHeader(h: string) {
    && '\n' !in h
    && MarkerProtocol(TrimSpace(h)).None?
    && (|Fields(h)| < 4 || (Fields(h)[3] != "0A" && Fields(h)[3] != "07"))
  }

  /** The probed files. */
  datatype Kind = Tcp4 | Tcp6 | Udp4 | Udp6

  /** What the probe prints before each file. */
  function MarkerText(k: Kind): string {
    match k
    case Tcp4 => "===tcp==="
    case Tcp6 => "===tcp6==="
    case Udp4 => "===udp==="
    case Udp6 => "===udp6==="
  }

  /**
   One probed file: the line of column names, if there is one, and the sockets. A file that cannot
   be read has neither.
   */
  datatype Section = Section(kind: Kind, header: Option<string>, sockets: seq<Socket>)

  predicate ValidSection(x: Section) {
    (x.header.Some? ==> IsHeader(x.header.value)) && forall s :: s in x.sockets ==> ValidSocket(s)
  }

  function HeaderLines(x: Section): seq<string> {
    if x.header.Some? then [x.header.value] else []
  }

  function SocketLines(ss: seq<Socket>): seq<string>
    requires forall s :: s in ss ==> ValidSocket(s)
  {
    if ss == [] then [] else [SocketLine(ss[0])] + SocketLines(ss[1..])
  }

  function SectionLines(x: Section): seq<string>
    requires ValidSection(x)
  {
    [MarkerText(x.kind)] + (HeaderLines(x) + SocketLines(x.sockets))
  }

  function TableLines(xs: seq<Section>): seq<string>
    requires forall x :: x in xs ==> ValidSection(x)
  {
    if xs == [] then [""] else SectionLines(xs[0]) + TableLines(xs[1..])
  }

  /** The probe's output: every line ended by a newline. */
  function TableText(xs: seq<Section>): string
    requires forall x :: x in xs ==> ValidSection(x)
  {
    Join(TableLines(xs), '\n')
  }

  /** A socket clients outside the container can reach. */
  predicate Reachable(s: Socket, protocol: string)
    requires ValidSocket(s)
  {
    s.state == (if protocol == UDP then "07" else "0A") && s.port != 0 && !IsLoopback(s.address)
  }

  function Protocol(x: Section): string {
    if x.kind == Tcp4 || x.kind == Tcp6 then TCP else UDP
  }

  lemma MarkerIsRead(x: Section)
    ensures MarkerProtocol(MarkerText(x.kind)) == Some(Protocol(x))
  {
    var m := MarkerText(x.kind);
    assert m[3] == Protocol(x)[0];
    assert "===tcp==="[3] == 't' && "===tcp6==="[3] == 't';
  }

  lemma PortTextValue(port: nat)
    requires port <= MAX_PORT
    ensures var t := PortText(port);
            ParseInt(t, 16, -MAX_INT32 - 1, MAX_INT32) == Some(port) && ':' !in t && IsWord(t)
  {
    var t := PortText(port);
    FourDigitsValue(t);
    PortDigits(port);
    UnsignedIsRead(t, port);
  }

  lemma FourDigitsValue(t: string)
    requires |t| == 4 && IsHex(t)
    ensures DigitsValue(t, 16)
         == Some(((DigitValue(t[0]) * 16 + DigitValue(t[1])) * 16 + DigitValue(t[2])) * 16 + DigitValue(t[3]))
  {
    assert t[..3][..2] == t[..2] && t[..2][..1] == t[..1] && t[..1][..0] == "";
    assert DigitsValue(t[..1], 16) == Some(DigitValue(t[0]));
    assert DigitsValue(t[..2], 16) == Some(DigitValue(t[0]) * 16 + DigitValue(t[1]));
    assert DigitsValue(t[..3], 16) == Some((DigitValue(t[0]) * 16 + DigitValue(t[1])) * 16 + DigitValue(t[2]));
  }

  lemma PortDigits(port: nat)
    ensures ((port / 4096 * 16 + port / 256 % 16) * 16 + port / 16 % 16) * 16 + port % 16 == port
  {
    assert port / 16 / 16 == port / 256 && port / 256 / 16 == port / 4096;
  }

  lemma UnsignedIsRead(t: string, v: nat)
    requires t != "" && DigitValue(t[0]) < 16 && DigitsValue(t, 16) == Some(v) && v <= MAX_INT32
    ensures ParseInt(t, 16, -MAX_INT32 - 1, MAX_INT32) == Some(v)
  {
    assert DigitValue('+') == 16 && DigitValue('-') == 16;
  }

  lemma HexIsWord(s: string)
    requires s != "" && IsHex(s)
    ensures IsWord(s) && ':' !in s && '\n' !in s
  {
    assert forall k :: 0 <= k < |s| ==> DigitValue(s[k]) < 16;
  }

  lemma EndpointIsRead(s: Socket, protocol: string)
    requires ValidSocket(s)
    ensures IsWord(EndpointText(s)) && '\n' !in EndpointText(s)
    ensures EndpointListener(protocol, EndpointText(s))
         == if s.port != 0 && !IsLoopback(s.address) then Some(ProtoPort(s.port, protocol)) else None
  {
    AddrTextIsHex(s.address);
    HexIsWord(AddrText(s.address));
    PortTextValue(s.port);
    HexRoundTrip(s.address);
    EndpointParts(AddrText(s.address), PortText(s.port), s.address, s.port, protocol);
  }

  lemma EndpointParts(a: string, p: string, address: seq<Byte>, port: nat, protocol: string)
    requires ParsedAddr(a) == Some(address) && IsWord(a) && '\n' !in a
    requires ParseInt(p, 16, -MAX_INT32 - 1, MAX_INT32) == Some(port) && ':' !in p && IsWord(p)
    ensures IsWord(a + ":" + p) && '\n' !in a + ":" + p
    ensures EndpointListener(protocol, a + ":" + p)
         == if port != 0 && !IsLoopback(address) then Some(ProtoPort(port, protocol)) else None
  {
    LastAt(a, ':', p);
  }

  lemma {:induction false} FieldsPadded(pad: string, t: string)
    requires forall k :: 0 <= k < |pad| ==> pad[k] == ' '
    ensures Fields(pad + t) == Fields(t)
  {
    if pad == "" {
      assert pad + t == t;
    } else {
      assert (pad + t)[1..] == pad[1..] + t;
      FieldsPadded(pad[1..], t);
    }
  }

  lemma FourFields(pad: string, a: string, b: string, c: string, d: string, rest: string)
    requires forall k :: 0 <= k < |pad| ==> pad[k] == ' '
    requires IsWord(a) && IsWord(b) && IsWord(c) && IsWord(d)
    ensures var f := Fields(pad + (a + " " + (b + " " + (c + " " + (d + " " + rest)))));
            |f| >= 4 && f[1] == b && f[3] == d
  {
    var l3 := d + " " + rest;
    var l2 := c + " " + l3;
    var l1 := b + " " + l2;
    FieldsPadded(pad, a + " " + l1);
    FieldsWord(a, l1);
    FieldsWord(b, l2);
    FieldsWord(c, l3);
    FieldsWord(d, rest);
  }

  lemma {:induction false} FieldsTrimLeft(s: string)
    ensures Fields(TrimLeft(s)) == Fields(s)
  {
    if s != "" && IsSpace(s[0]) {
      FieldsTrimLeft(s[1..]);
    }
  }

  lemma {:induction false} FieldsSnocSpace(s: string, c: char)
    requires IsSpace(c)
    ensures Fields(s + [c]) == Fields(s)
    decreases |s|
  {
    var t := s + [c];
    if s == "" {
      assert t[1..] == "";
    } else if IsSpace(s[0]) {
      assert t[1..] == s[1..] + [c];
      FieldsSnocSpace(s[1..], c);
    } else {
      var n := WordLength(s);
      var u := s[n..] + [c];
      assert t == s[..n] + u;
      assert s == s[..n] + s[n..];
      WordLengthIs(s[..n], u);
      assert t[..n] == s[..n] && t[n..] == u;
      FieldsSnocSpace(s[n..], c);
    }
  }

  lemma {:induction false} FieldsTrimRight(s: string)
    ensures Fields(TrimRight(s)) == Fields(s)
  {
    if s != "" && IsSpace(s[|s| - 1]) {
      var n := |s| - 1;
      assert s == s[..n] + [s[n]];
      FieldsSnocSpace(s[..n], s[n]);
      FieldsTrimRight(s[..n]);
    }
  }

  lemma FieldsTrimmed(s: string)
    ensures Fields(TrimSpace(s)) == Fields(s)
  {
    FieldsTrimLeft(s);
    FieldsTrimRight(TrimLeft(s));
  }

  /** A marker is a single word, so a line of four or more words is none. */
  lemma WordyIsNoMarker(line: string)
    requires |Fields(line)| >= 4
    ensures MarkerProtocol(TrimSpace(line)).None?
  {
    FieldsTrimmed(line);
    var t := TrimSpace(line);
    if MarkerProtocol(t).Some? {
      MarkerIsWord(t);
      FieldsWord(t, "");
    }
  }

  lemma MarkerIsWord(m: string)
    requires MarkerProtocol(m).Some?
    ensures IsWord(m) && '\n' !in m && TrimSpace(m) == m
  {
    TrimFixed(m);
    assert forall k :: 0 <= k < |m| ==> m[k] in {'=', 't', 'c', 'p', 'u', 'd', '6'};
  }

  lemma SocketLineFinds(s: Socket, protocol: string)
    requires ValidSocket(s) && protocol != ""
    ensures NextSection(protocol, SocketLine(s)) == protocol
    ensures LineFinds(protocol, SocketLine(s)) == if Reachable(s, protocol) then {ProtoPort(s.port, protocol)} else {}
  {
    var line := SocketLine(s);
    SocketFields(s);
    EndpointIsRead(s, protocol);
    WordyIsNoMarker(line);
    FieldsTrimmed(line);
  }

  lemma SocketFields(s: Socket)
    requires ValidSocket(s)
    ensures var f := Fields(SocketLine(s)); |f| >= 4 && f[1] == EndpointText(s) && f[3] == s.state
  {
    var slot := NatText(s.slot) + ":";
    assert IsWord(slot);
    EndpointIsRead(s, TCP);
    FourFields(s.pad, slot, EndpointText(s), s.remote, s.state, s.rest);
  }

  lemma HeaderFinds(protocol: string, h: string)
    requires protocol != "" && IsHeader(h)
    ensures NextSection(protocol, h) == protocol && LineFinds(protocol, h) == {}
  {
    FieldsTrimmed(h);
  }

  lemma HeaderLinesFind(x: Section, protocol: string)
    requires protocol != "" && ValidSection(x)
    ensures LastSection(HeaderLines(x), protocol) == protocol && Found(HeaderLines(x), protocol) == {}
  {
    if x.header.Some? {
      HeaderFinds(protocol, x.header.value);
      assert HeaderLines(x)[1..] == [];
    }
  }

  predicate IsPad(pad: string) {
    forall k :: 0 <= k < |pad| ==> pad[k] == ' '
  }

  lemma FieldsWordPadded(w: string, pad: string, t: string)
    requires IsWord(w) && IsPad(pad) && pad != ""
    ensures Fields(w + pad + t) == [w] + Fields(t)
  {
    var more := pad[1..] + t;
    assert w + pad + t == w + " " + more;
    FieldsWord(w, more);
    FieldsPadded(pad[1..], t);
  }

  /** The column names the kernel prints, with blanks before each and more columns after them. */
  function ColumnNames(pads: seq<string>, remote: string, rest: string): string
    requires |pads| == 4
  {
    pads[0] + ("sl" + pads[1] + ("local_address" + pads[2] + (remote + pads[3] + ("st" + " " + rest))))
  }

  predicate ArePads(pads: seq<string>) {
    |pads| == 4 && (forall i :: 0 <= i < 4 ==> IsPad(pads[i])) && pads[1] != "" && pads[2] != "" && pads[3] != ""
  }

  /** The kernel's headers are headers: `rem_address` stands in those of IPv4, `remote_address` in those of IPv6. */
  lemma KernelHeaders(pads: seq<string>, remote: string, rest: string)
    requires ArePads(pads) && (remote == "rem_address" || remote == "remote_address") && '\n' !in rest
    ensures IsHeader(ColumnNames(pads, remote, rest))
  {
    HeaderWords();
    ColumnsAreWords(pads, remote, rest);
    WordyIsNoMarker(ColumnNames(pads, remote, rest));
    ColumnsAreLine(pads, remote, rest);
    assert "st"[0] != '0';
  }

  lemma ColumnsAreWords(pads: seq<string>, remote: string, rest: string)
    requires ArePads(pads) && IsWord(remote)
    ensures var f := Fields(ColumnNames(pads, remote, rest)); |f| >= 4 && f[3] == "st"
  {
    var l3 := "st" + " " + rest;
    var l2 := remote + pads[3] + l3;
    var l1 := "local_address" + pads[2] + l2;
    HeaderWords();
    FieldsPadded(pads[0], "sl" + pads[1] + l1);
    FieldsWordPadded("sl", pads[1], l1);
    FieldsWordPadded("local_address", pads[2], l2);
    FieldsWordPadded(remote, pads[3], l3);
    FieldsWord("st", rest);
  }

  lemma ColumnsAreLine(pads: seq<string>, remote: string, rest: string)
    requires ArePads(pads) && IsWord(remote) && '\n' !in rest
    ensures '\n' !in ColumnNames(pads, remote, rest)
  {
    HeaderWords();
    assert forall i :: 0 <= i < 4 ==> '\n' !in pads[i];
    assert IsSpace('\n');
  }

  lemma HeaderWords()
    ensures IsWord("sl") && IsWord("local_address") && IsWord("rem_address") && IsWord("remote_address") && IsWord("st")
  {
    var w := "local_address";
    assert forall k :: 0 <= k < |w| ==> w[k] >= '_';
    var v := "rem_address";
    assert forall k :: 0 <= k < |v| ==> v[k] >= '_';
    var u := "remote_address";
    assert forall k :: 0 <= k < |u| ==> u[k] >= '_';
  }

  lemma {:induction false} SocketLinesFind(ss: seq<Socket>, protocol: string, l: ProtoPort)
    requires protocol != "" && forall s :: s in ss ==> ValidSocket(s)
    ensures LastSection(SocketLines(ss), protocol) == protocol
    ensures l in Found(SocketLines(ss), protocol) <==>
            exists s :: s in ss && Reachable(s, protocol) && l == ProtoPort(s.port, protocol)
  {
    if ss != [] {
      SocketLineFinds(ss[0], protocol);
      SocketLinesFind(ss[1..], protocol, l);
      var lines := SocketLines(ss);
      assert lines[1..] == SocketLines(ss[1..]) && lines[0] == SocketLine(ss[0]);
      assert forall s :: s in ss <==> s == ss[0] || s in ss[1..];
    }
  }

  /** The listeners a section should report. */
  ghost predicate Reports(x: Section, l: ProtoPort)
    requires ValidSection(x)
  {
    exists s :: s in x.sockets && Reachable(s, Protocol(x)) && l == ProtoPort(s.port, Protocol(x))
  }

  lemma SectionFinds(x: Section, current: string, l: ProtoPort)
    requires ValidSection(x)
    ensures l in Found(SectionLines(x), current) <==> Reports(x, l)
    ensures StartsWithMarker(SectionLines(x))
  {
    var lines, p := SectionLines(x), Protocol(x);
    MarkerIsRead(x);
    MarkerIsWord(MarkerText(x.kind));
    assert lines[0] == MarkerText(x.kind);
    assert lines[1..] == HeaderLines(x) + SocketLines(x.sockets);
    FoundConcat(HeaderLines(x), SocketLines(x.sockets), p);
    HeaderLinesFind(x, p);
    SocketLinesFind(x.sockets, p, l);
  }

  lemma {:induction false} TableFinds(xs: seq<Section>, current: string, l: ProtoPort)
    requires forall x :: x in xs ==> ValidSection(x)
    ensures l in Found(TableLines(xs), current) <==> exists x :: x in xs && Reports(x, l)
  {
    if xs == [] {
      assert TableLines(xs)[1..] == [];
      assert TrimSpace("") == "";
      BlankLine(current, "");
    } else {
      SectionFinds(xs[0], current, l);
      FoundConcat(SectionLines(xs[0]), TableLines(xs[1..]), current);
      TableFinds(xs[1..], LastSection(SectionLines(xs[0]), current), l);
      assert forall x :: x in xs <==> x == xs[0] || x in xs[1..];
    }
  }

  lemma {:induction false} SocketLinesAreLines(ss: seq<Socket>)
    requires forall s :: s in ss ==> ValidSocket(s)
    ensures forall t :: t in SocketLines(ss) ==> '\n' !in t
  {
    if ss != [] {
      SocketLinesAreLines(ss[1..]);
      SocketLineIsLine(ss[0]);
    }
  }

  lemma SocketLineIsLine(s: Socket)
    requires ValidSocket(s)
    ensures '\n' !in SocketLine(s)
  {
    EndpointIsRead(s, TCP);
    assert '\n' !in s.pad;
    assert '\n' !in NatText(s.slot);
  }

  lemma {:induction false} TableLinesAreLines(xs: seq<Section>)
    requires forall x :: x in xs ==> ValidSection(x)
    ensures TableLines(xs) != []
    ensures forall t :: t in TableLines(xs) ==> '\n' !in t
  {
    if xs != [] {
      SectionLinesAreLines(xs[0]);
      TableLinesAreLines(xs[1..]);
    }
  }

  lemma SectionLinesAreLines(x: Section)
    requires ValidSection(x)
    ensures forall t :: t in SectionLines(x) ==> '\n' !in t
  {
    MarkerIsRead(x);
    MarkerIsWord(MarkerText(x.kind));
    SocketLinesAreLines(x.sockets);
  }

  /**
   Probe exactness. On the printed form of any tables, the parser finds exactly the
   sockets that listen (state 0A for TCP, 07 for UDP), on a port other than zero and
   on an address that is not loopback, under the protocol of their section.
   */
  lemma ProbeIsExact(xs: seq<Section>, l: ProtoPort)
    requires forall x :: x in xs ==> ValidSection(x)
    ensures l in Listeners(TableText(xs)) <==> exists x :: x in xs && Reports(x, l)
  {
    TableLinesAreLines(xs);
    SplitJoin(TableLines(xs), '\n');
    TableFinds(xs, "", l);
  }

  // ------------------------------------------------------------------- any text at all

  /** The line, trimmed, is a marker of this protocol. */
  predicate Marks(line: string, protocol: string) {
    || (protocol == "tcp" && TrimSpace(line) in {"===tcp===", "===tcp6==="})
    || (protocol == "udp" && TrimSpace(line) in {"===udp===", "===udp6==="})
  }

  predicate IsMarker(line: string) {
    Marks(line, "tcp") || Marks(line, "udp")
  }

  /**
   A table line that reports a listener: its fourth word is the listening state of the
   protocol, and its second a hexadecimal address that is not loopback and, after the
   last colon, a hexadecimal port that is not zero.
   */
  ghost predicate LineReports(line: string, l: ProtoPort) {
    && |Fields(line)| >= 4
    && Fields(line)[3] == (if l.protocol == "udp" then "07" else "0A")
    && l.port > 0
    && exists a, p, bytes :: EndpointParses(Fields(line)[1], a, p, bytes, l.port)
  }

  predicate EndpointParses(endpoint: string, a: string, p: string, bytes: seq<Byte>, port: int) {
    && ':' !in p && endpoint == a + ":" + p
    && (|a| == 8 || |a| == 32) && IsHex(a) && Decodes(a, bytes) && !IsLoopback(bytes)
    && ParseInt(p, 16, -0x8000_0000, 0x7FFF_FFFF) == Some(port)
  }

  lemma EndpointMeaning(protocol: string, endpoint: string, l: ProtoPort)
    ensures EndpointListener(protocol, endpoint) == Some(l) <==>
            l.protocol == protocol && l.port > 0
            && exists a, p, bytes :: EndpointParses(endpoint, a, p, bytes, l.port)
  {
    var colon := LastIndex(endpoint, ':');
    if EndpointListener(protocol, endpoint) == Some(l) {
      var a, p := endpoint[..colon], endpoint[colon + 1..];
      assert endpoint == a + ":" + p;
      assert EndpointParses(endpoint, a, p, ParsedAddr(a).value, l.port);
    }
    forall a, p, bytes | EndpointParses(endpoint, a, p, bytes, l.port)
      ensures l.protocol == protocol && l.port > 0 ==> EndpointListener(protocol, endpoint) == Some(l)
    {
      LastAt(a, ':', p);
      DecodesOnce(a, bytes, ParsedAddr(a).value);
    }
  }

  lemma LineMeaning(current: string, line: string, l: ProtoPort)
    requires current == "tcp" || current == "udp"
    ensures l in LineFinds(current, line) <==> l.protocol == current && !IsMarker(line) && LineReports(line, l)
  {
    FieldsTrimmed(line);
    SameWords(TrimSpace(line), line, l);
    ReportMeaning(current, TrimSpace(line), l);
    MarkerMeaning(line);
  }

  lemma SameWords(s: string, line: string, l: ProtoPort)
    requires Fields(s) == Fields(line)
    ensures LineReports(s, l) <==> LineReports(line, l)
  {
  }

  lemma MarkerMeaning(line: string)
    ensures MarkerProtocol(TrimSpace(line)).Some? <==> IsMarker(line)
    ensures forall p :: MarkerProtocol(TrimSpace(line)) == Some(p) <==> Marks(line, p)
  {
    assert "===tcp==="[3] == 't' && "===tcp6==="[3] == 't' && "===udp==="[3] == 'u' && "===udp6==="[3] == 'u';
  }

  lemma ReportMeaning(current: string, line: string, l: ProtoPort)
    requires current == "tcp" || current == "udp"
    ensures LineListener(current, line) == Some(l) <==> l.protocol == current && LineReports(line, l)
  {
    if |Fields(line)| >= 4 {
      EndpointMeaning(current, Fields(line)[1], l);
    }
  }

  /** A line stands in the section of the last marker before it, or else in the one it was entered in. */
  ghost predicate InSection(lines: seq<string>, k: nat, current: string, protocol: string)
    requires k < |lines|
  {
    || (current == protocol && forall j :: 0 <= j < k ==> !IsMarker(lines[j]))
    || exists i :: 0 <= i < k && Marks(lines[i], protocol) && forall j :: i < j < k ==> !IsMarker(lines[j])
  }

  lemma SectionAfter(lines: seq<string>, k: nat, current: string, protocol: string)
    requires 0 < k < |lines|
    ensures InSection(lines, k, current, protocol) <==>
            InSection(lines[1..], k - 1, NextSection(current, lines[0]), protocol)
  {
    var rest := lines[1..];
    assert forall j :: 0 <= j < |rest| ==> rest[j] == lines[j + 1];
    if InSection(lines, k, current, protocol) {
      if i :| 0 <= i < k && Marks(lines[i], protocol) && forall j :: i < j < k ==> !IsMarker(lines[j]) {
        assert i > 0 ==> Marks(rest[i - 1], protocol);
      }
    }
    if i :| 0 <= i < k - 1 && Marks(rest[i], protocol) && forall j :: i < j < k - 1 ==> !IsMarker(rest[j]) {
      assert Marks(lines[i + 1], protocol);
      assert forall j :: i + 1 < j < k ==> lines[j] == rest[j - 1];
    }
  }

  ghost predicate LineFound(lines: seq<string>, k: nat, current: string, l: ProtoPort)
    requires k < |lines|
  {
    InSection(lines, k, current, l.protocol) && !IsMarker(lines[k]) && LineReports(lines[k], l)
  }

  ghost predicate SomeLineFound(lines: seq<string>, current: string, l: ProtoPort) {
    exists k: nat :: k < |lines| && LineFound(lines, k, current, l)
  }

  lemma {:induction false} FoundMeaning(lines: seq<string>, current: string, l: ProtoPort)
    requires current in {"", "tcp", "udp"}
    ensures l in Found(lines, current) <==>
            l.protocol in {"tcp", "udp"} && SomeLineFound(lines, current, l)
  {
    if lines != [] {
      var rest, next := lines[1..], NextSection(current, lines[0]);
      FoundMeaning(rest, next, l);
      if current != "" {
        LineMeaning(current, lines[0], l);
      }
      if k: nat :| k < |lines| && LineFound(lines, k, current, l) {
        if k > 0 {
          SectionAfter(lines, k, current, l.protocol);
          assert LineFound(rest, k - 1, next, l);
        }
      }
      if k: nat :| k < |rest| && LineFound(rest, k, next, l) {
        SectionAfter(lines, k + 1, current, l.protocol);
        assert LineFound(lines, k + 1, current, l);
      }
      if l in LineFinds(current, lines[0]) {
        assert LineFound(lines, 0, current, l);
      }
    }
  }

  /** Some line reports the listener, and the last marker before it is one of the listener's protocol. */
  ghost predicate Reported(lines: seq<string>, l: ProtoPort) {
    exists i, k :: ReportedAt(lines, i, k, l)
  }

  /** A line reports the listener, and the last marker up to it is one of the listener's protocol. */
  ghost predicate ReportedAt(lines: seq<string>, i: nat, k: nat, l: ProtoPort) {
    && i < k < |lines| && Marks(lines[i], l.protocol) && LineReports(lines[k], l)
    && forall j :: i < j <= k ==> !IsMarker(lines[j])
  }

  /**
   What is found in any text, well-formed or not: a listener is reported exactly when
   some line reports it and the last marker before that line is one of its protocol.
   */
  lemma ListenersMeaning(text: string, l: ProtoPort)
    ensures l in Listeners(text) <==> Reported(Split(text, '\n'), l)
  {
    FoundMeaning(Split(text, '\n'), "", l);
    LinesMeaning(Split(text, '\n'), l);
  }

  lemma LinesMeaning(lines: seq<string>, l: ProtoPort)
    ensures l.protocol in {"tcp", "udp"} && SomeLineFound(lines, "", l) <==> Reported(lines, l)
  {
    if l.protocol in {"tcp", "udp"} && SomeLineFound(lines, "", l) {
      var k: nat :| k < |lines| && LineFound(lines, k, "", l);
      var i := LastMarker(lines, k, l);
      assert ReportedAt(lines, i, k, l);
    }
    if i, k :| ReportedAt(lines, i, k, l) {
      AfterMarker(lines, i, k, l);
    }
  }

  lemma LastMarker(lines: seq<string>, k: nat, l: ProtoPort) returns (i: nat)
    requires k < |lines| && LineFound(lines, k, "", l) && l.protocol != ""
    ensures ReportedAt(lines, i, k, l)
  {
    i :| 0 <= i < k && Marks(lines[i], l.protocol) && forall j :: i < j < k ==> !IsMarker(lines[j]);
  }

  lemma AfterMarker(lines: seq<string>, i: nat, k: nat, l: ProtoPort)
    requires ReportedAt(lines, i, k, l)
    ensures k < |lines| && LineFound(lines, k, "", l) && l.protocol in {"tcp", "udp"}
  {
  }
}
