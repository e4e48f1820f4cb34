/**
 Port pairs and the `docker run -p` style specs they are read from and
 written as (internal/ports.go).
 */
module Ports {
  import opened Wrappers
  import opened Text

  const TCP := "tcp"
  const UDP := "udp"
  const LOCALHOST := "localhost"

  /** The bind address that publishes on every IPv4 and IPv6 interface. */
  const ALL_INTERFACES := "*"

  const MAX_PORT: int := 65535

  /**
   Address parsing: the canonical text of an IP literal, or nothing for another
   string. Two literals denote the same address when their canonical texts agree.
   */
  type Netip = string -> Option<string>

  /**
   What is assumed of address parsing. A literal without a colon is dotted decimal;
   one with a colon is IPv6, where only a zone, after '%', may hold anything but
   hexadecimal digits, colons and dots. Canonical texts are their own canonical text.
   */
  ghost predicate Lawful(netip: Netip) {
    forall s {:trigger netip(s)} :: netip(s).Some? ==> LiteralShape(s) && netip(netip(s).value) == netip(s)
  }

  predicate LiteralShape(s: string) {
    && s != ""
    && (':' !in s ==> forall c :: c in s ==> '0' <= c <= '9' || c == '.')
    && ('%' !in s ==> forall c :: c in s ==> DigitValue(c) < 16 || c == '.' || c == ':')
  }

  datatype PortPair = PortPair(address: string, localPort: GoInt, remotePort: GoInt, protocol: string)

  /** Why a spec is refused. */
  datatype SpecError =
    | EmptySpec
    | UnsupportedProtocol
    | MissingPort
    | MissingBracket
    | ExpectedBracketForm
    | UnbracketedIPv6
    | InvalidAddress
    | InvalidRemotePort
    | ZeroRemotePort
    | InvalidLocalPort

  function NormalizeProtocol(p: string): string {
    if p == "" || p == TCP then TCP else p
  }

  /** A pair with the default protocol written out. */
  function Normalized(p: PortPair): PortPair {
    p.(protocol := NormalizeProtocol(p.protocol))
  }

  predicate IsValidAddress(netip: Netip, a: string) {
    a == LOCALHOST || a == ALL_INTERFACES || netip(a).Some?
  }

  predicate SupportedProtocol(p: string) {
    p == "" || p == TCP || p == UDP
  }

  predicate ValidPair(netip: Netip, p: PortPair) {
    && 0 <= p.localPort <= MAX_PORT
    && 1 <= p.remotePort <= MAX_PORT
    && SupportedProtocol(p.protocol)
    && (p.address == "" || IsValidAddress(netip, p.address))
  }

  // -------------------------------------------------------------------- writing

  function FormatAddress(a: string): string {
    if ':' in a then "[" + a + "]" else a
  }

  function LocalText(p: PortPair): string {
    if p.localPort == 0 then "" else Itoa(p.localPort)
  }

  function ProtocolSuffix(protocol: string): string {
    if NormalizeProtocol(protocol) == TCP then "" else "/" + NormalizeProtocol(protocol)
  }

  /** The part of the printed pair before the protocol suffix. */
  function SpecBody(p: PortPair): string {
    (if p.address != "" then FormatAddress(p.address) + ":" else "") + LocalText(p) + ":" + Itoa(p.remotePort)
  }

  /** `PortPair.String`. */
  function SpecText(p: PortPair): string {
    SpecBody(p) + ProtocolSuffix(p.protocol)
  }

  // -------------------------------------------------------------------- reading

  function ParsePortNumber(s: string): (n: Option<GoInt>)
    ensures n.Some? ==> 0 <= n.value <= MAX_PORT
  {
    match Atoi(s)
    case None => None
    case Some(n) => if 0 <= n <= MAX_PORT then Some(n) else None
  }

  /** Takes the protocol suffix off a trimmed spec. */
  function StripProtocol(s: string): Result<(string, string), SpecError> {
    var i := LastIndex(s, '/');
    if i < 0 then Ok((s, TCP))
    else
      var protocol := ToLower(TrimSpace(s[i + 1..]));
      var ports := TrimSpace(s[..i]);
      if protocol != TCP && protocol != UDP then Err(UnsupportedProtocol)
      else if ports == "" then Err(MissingPort)
      else Ok((ports, protocol))
  }

  /** Takes a spec without its suffix apart into address, local and remote text. */
  function SplitSpec(s: string): Result<(string, string, string), SpecError> {
    if s != "" && s[0] == '[' then SplitBracketed(s) else SplitPlain(s)
  }

  function SplitBracketed(s: string): Result<(string, string, string), SpecError>
    requires s != "" && s[0] == '['
  {
    var end := Index(s, ']');
    if end < 0 then Err(MissingBracket)
    else if end + 1 == |s| || s[end + 1] != ':' then Err(ExpectedBracketForm)
    else
      var rest := s[end + 2..];
      var i := Index(rest, ':');
      if i < 0 then Err(ExpectedBracketForm)
      else if ':' !in s[1..end] then Err(InvalidAddress)
      else Ok((s[1..end], rest[..i], rest[i + 1..]))
  }

  function SplitPlain(s: string): Result<(string, string, string), SpecError> {
    var parts := Split(s, ':');
    if |parts| == 1 then Ok(("", parts[0], parts[0]))
    else if |parts| == 2 then Ok(("", parts[0], parts[1]))
    else if |parts| == 3 then
      Ok((if parts[0] == "" then ALL_INTERFACES else parts[0], parts[1], parts[2]))
    else Err(UnbracketedIPv6)
  }

  /** What a port spec means. */
  function ParsedSpec(netip: Netip, spec: string): Result<PortPair, SpecError> {
    ParsedTrimmed(netip, TrimSpace(spec))
  }

  /** What a trimmed spec means. */
  function ParsedTrimmed(netip: Netip, s: string): Result<PortPair, SpecError> {
    if s == "" then Err(EmptySpec)
    else
      var stripped :- StripProtocol(s);
      var split :- SplitSpec(stripped.0);
      ParsedParts(netip, split.0, split.1, split.2, stripped.1)
  }

  /** What the parts of a spec mean together. */
  function ParsedParts(netip: Netip, address: string, localText: string, remoteText: string, protocol: string):
    Result<PortPair, SpecError>
  {
    if address != "" && !IsValidAddress(netip, address) then Err(InvalidAddress)
    else
      match ParsePortNumber(remoteText)
      case None => Err(InvalidRemotePort)
      case Some(remote) =>
        if remote == 0 then Err(ZeroRemotePort)
        else if localText == "" then Ok(PortPair(address, 0, remote, protocol))
        else
          match ParsePortNumber(localText)
          case None => Err(InvalidLocalPort)
          case Some(local) => Ok(PortPair(address, local, remote, protocol))
  }

  /** The suffix step of `ParsePortSpec`: the spec is rewritten to what precedes the protocol. */
  method CutProtocol(spec: string) returns (r: Result<(string, string), SpecError>)
    ensures r == StripProtocol(spec)
    ensures r.Ok? ==> SuffixForm(spec, r.value.0, r.value.1)
    ensures r.Err? ==> forall body, protocol :: !SuffixForm(spec, body, protocol)
  {
    SuffixIsCut(spec);
    var protocol := TCP;
    var rest := spec;
    var slash := LastIndex(spec, '/');
    if slash >= 0 {
      var protocolText := ToLower(TrimSpace(spec[slash + 1..]));
      var ports := TrimSpace(spec[..slash]);
      if protocolText == TCP {
        protocol := TCP;
      } else if protocolText == UDP {
        protocol := UDP;
      } else {
        return Err(UnsupportedProtocol);
      }
      if ports == "" {
        return Err(MissingPort);
      }
      rest := ports;
    }
    r := Ok((rest, protocol));
  }

  /** The address step of `ParsePortSpec`. */
  method CutAddress(spec: string) returns (r: Result<(string, string, string), SpecError>)
    ensures r == SplitSpec(spec)
  {
    var address, localText, remoteText := "", "", "";
    if spec != "" && spec[0] == '[' {
      var end := Index(spec, ']');
      if end < 0 {
        return Err(MissingBracket);
      }
      address := spec[1..end];
      if end + 1 == |spec| || spec[end + 1] != ':' {
        return Err(ExpectedBracketForm);
      }
      var rest := spec[end + 2..];
      var colon := Index(rest, ':');
      if colon < 0 {
        return Err(ExpectedBracketForm);
      }
      localText, remoteText := rest[..colon], rest[colon + 1..];
      if address == "" || ':' !in address {
        return Err(InvalidAddress);
      }
    } else {
      var parts := Split(spec, ':');
      if |parts| == 1 {
        localText, remoteText := parts[0], parts[0];
      } else if |parts| == 2 {
        localText, remoteText := parts[0], parts[1];
      } else if |parts| == 3 {
        address, localText, remoteText := parts[0], parts[1], parts[2];
        if address == "" {
          address := ALL_INTERFACES;
        }
      } else {
        return Err(UnbracketedIPv6);
      }
    }
    r := Ok((address, localText, remoteText));
  }

  /** `ParsePortSpec`. */
  method ParsePortSpec(netip: Netip, spec: string) returns (r: Result<PortPair, SpecError>)
    ensures r == ParsedSpec(netip, spec)
  {
    var s := TrimSpace(spec);
    if s == "" {
      return Err(EmptySpec);
    }
    var stripped :- CutProtocol(s);
    var split :- CutAddress(stripped.0);
    var (address, localText, remoteText) := split;
    if address != "" && !IsValidAddress(netip, address) {
      return Err(InvalidAddress);
    }
    var remote := ParsePortNumber(remoteText);
    if remote.None? {
      return Err(InvalidRemotePort);
    }
    if remote.value == 0 {
      return Err(ZeroRemotePort);
    }
    var local := Some(0);
    if localText != "" {
      local := ParsePortNumber(localText);
      if local.None? {
        return Err(InvalidLocalPort);
      }
    }
    r := Ok(PortPair(address, local.value, remote.value, stripped.1));
  }

  /** The first specs are read as these pairs, in order. */
  predicate ReadAs(netip: Netip, specs: seq<string>, pairs: seq<PortPair>) {
    |pairs| <= |specs| && forall k :: 0 <= k < |pairs| ==> ParsedSpec(netip, specs[k]) == Ok(pairs[k])
  }

  lemma ReadOneMore(netip: Netip, specs: seq<string>, pairs: seq<PortPair>, p: PortPair)
    requires ReadAs(netip, specs, pairs) && |pairs| < |specs| && ParsedSpec(netip, specs[|pairs|]) == Ok(p)
    ensures ReadAs(netip, specs, pairs + [p])
  {
  }

  /** `ParsePortSpecs` stops at the first spec that is refused. */
  method ParsePortSpecs(netip: Netip, specs: seq<string>) returns (r: Result<seq<PortPair>, SpecError>)
    ensures r.Ok? <==> specs != [] && forall s :: s in specs ==> ParsedSpec(netip, s).Ok?
    ensures r.Ok? ==> |r.value| == |specs| && ReadAs(netip, specs, r.value)
    ensures r.Err? && specs != [] ==>
              exists k :: 0 <= k < |specs| && ParsedSpec(netip, specs[k]) == Err(r.error)
                          && forall j :: 0 <= j < k ==> ParsedSpec(netip, specs[j]).Ok?
  {
    if specs == [] {
      return Err(EmptySpec);
    }
    var pairs := [];
    for i := 0 to |specs|
      invariant |pairs| == i && ReadAs(netip, specs, pairs)
    {
      var p := ParsePortSpec(netip, specs[i]);
      if p.Err? {
        return Err(p.error);
      }
      ReadOneMore(netip, specs, pairs, p.value);
      pairs := pairs + [p.value];
    }
    r := Ok(pairs);
  }

  /** `ValidateAddresses`: every default address is valid, and `*` stands alone. */
  method ValidateAddresses(netip: Netip, addresses: seq<string>) returns (ok: bool)
    ensures ok <==> (forall a :: a in addresses ==> IsValidAddress(netip, a))
                    && (ALL_INTERFACES in addresses ==> addresses == [ALL_INTERFACES])
  {
    for i := 0 to |addresses|
      invariant forall k :: 0 <= k < i ==>
                              && IsValidAddress(netip, addresses[k])
                              && (addresses[k] == ALL_INTERFACES ==> |addresses| == 1)
    {
      if !IsValidAddress(netip, addresses[i]) {
        return false;
      }
      if addresses[i] == ALL_INTERFACES && |addresses| > 1 {
        return false;
      }
    }
    ok := true;
  }

  // ------------------------------------------------------------- the spec grammar

  /** A text around its last slash. */
  predicate AroundLastSlash(s: string, before: string, after: string) {
    '/' !in after && s == before + "/" + after
  }

  /**
   A trimmed spec with what remains of it and its protocol: all of it and tcp when
   there is no slash; otherwise the trimmed text before the last slash, which may not
   be empty, and what follows it, trimmed and in lower case, when that is tcp or udp.
   */
  ghost predicate SuffixForm(s: string, body: string, protocol: string) {
    || ('/' !in s && body == s && protocol == TCP)
    || ((protocol == TCP || protocol == UDP) && body != ""
        && exists before, after :: AroundLastSlash(s, before, after) && TrimSpace(before) == body
                                   && ToLower(TrimSpace(after)) == protocol)
  }

  /** A protocol is stripped exactly along the documented suffixes. */
  lemma SuffixForms(s: string, body: string, protocol: string)
    ensures StripProtocol(s) == Ok((body, protocol)) <==> SuffixForm(s, body, protocol)
  {
    if '/' in s {
      var i := LastIndex(s, '/');
      AroundSlash(s);
      SlashedIsStripped(s, s[..i], s[i + 1..]);
      SlashedForm(s, s[..i], s[i + 1..], body, protocol);
    } else {
      NoSlashIsStripped(s);
    }
  }

  lemma NoSlashIsStripped(s: string)
    requires '/' !in s
    ensures StripProtocol(s) == Ok((s, TCP))
  {
  }

  lemma SlashedIsStripped(s: string, before: string, after: string)
    requires AroundLastSlash(s, before, after)
    ensures var body, protocol := TrimSpace(before), ToLower(TrimSpace(after));
            StripProtocol(s) == (if protocol != TCP && protocol != UDP then Err(UnsupportedProtocol)
                                 else if body == "" then Err(MissingPort)
                                 else Ok((body, protocol)))
  {
    LastAt(before, '/', after);
  }

  lemma SlashedForm(s: string, before: string, after: string, body: string, protocol: string)
    requires AroundLastSlash(s, before, after)
    ensures SuffixForm(s, body, protocol) <==>
            (protocol == TCP || protocol == UDP) && body != "" && TrimSpace(before) == body
            && ToLower(TrimSpace(after)) == protocol
  {
    assert s[|before|] == '/';
    forall b, a | AroundLastSlash(s, b, a)
      ensures b == before && a == after
    {
      LastSlashIsOne(s, before, after, b, a);
    }
  }

  lemma LastSlashIsOne(s: string, b: string, a: string, b': string, a': string)
    requires AroundLastSlash(s, b, a) && AroundLastSlash(s, b', a')
    ensures b == b' && a == a'
  {
    LastAt(b, '/', a);
    LastAt(b', '/', a');
  }

  lemma AroundSlash(s: string)
    requires '/' in s
    ensures var i := LastIndex(s, '/'); i >= 0 && AroundLastSlash(s, s[..i], s[i + 1..])
  {
  }

  lemma SuffixIsCut(s: string)
    ensures var r := StripProtocol(s);
            && (r.Ok? ==> SuffixForm(s, r.value.0, r.value.1))
            && (r.Err? ==> forall body, protocol :: !SuffixForm(s, body, protocol))
  {
    forall body, protocol
      ensures StripProtocol(s) == Ok((body, protocol)) <==> SuffixForm(s, body, protocol)
    {
      SuffixForms(s, body, protocol);
    }
  }

  /** Which refusal it is: the suffix is judged before what it leaves. */
  lemma SuffixErrors(s: string)
    ensures StripProtocol(s) == Err(UnsupportedProtocol) <==>
            exists before, after :: AroundLastSlash(s, before, after) && ToLower(TrimSpace(after)) != TCP
                                    && ToLower(TrimSpace(after)) != UDP
    ensures StripProtocol(s) == Err(MissingPort) <==>
            exists before, after :: AroundLastSlash(s, before, after) && TrimSpace(before) == ""
                                    && (ToLower(TrimSpace(after)) == TCP || ToLower(TrimSpace(after)) == UDP)
  {
    if '/' in s {
      AroundSlash(s);
    } else {
      NoSlashIsStripped(s);
    }
    forall before, after | AroundLastSlash(s, before, after)
      ensures var body, protocol := TrimSpace(before), ToLower(TrimSpace(after));
              && (StripProtocol(s) == Err(UnsupportedProtocol) <==> protocol != TCP && protocol != UDP)
              && (StripProtocol(s) == Err(MissingPort) <==> (protocol == TCP || protocol == UDP) && body == "")
    {
      SlashedIsStripped(s, before, after);
    }
    forall before, after | AroundLastSlash(s, before, after)
      ensures '/' in s
    {
      HasSlash(s, before, after);
    }
  }

  lemma HasSlash(s: string, before: string, after: string)
    requires AroundLastSlash(s, before, after)
    ensures '/' in s
  {
    assert s[|before|] == '/';
  }

  /** [IPV6]:LOCAL:REMOTE */
  predicate BracketedForm(body: string, address: string, local: string, remote: string) {
    ':' in address && ']' !in address && ':' !in local && body == "[" + address + "]:" + local + ":" + remote
  }

  /** The other documented spec forms. */
  predicate PlainForm(body: string, address: string, local: string, remote: string) {
    && !(body != "" && body[0] == '[')
    && ':' !in local && ':' !in remote && ':' !in address
       // REMOTE
    && ((address == "" && local == remote == body)
        // LOCAL:REMOTE
        || (address == "" && body == local + ":" + remote)
        // ADDRESS:LOCAL:REMOTE, where an empty address means all interfaces
        || (address != "" && body == address + ":" + local + ":" + remote)
        || (address == ALL_INTERFACES && body == ":" + local + ":" + remote))
  }

  /** The documented spec forms, without the protocol suffix. */
  predicate SpecForm(body: string, address: string, local: string, remote: string) {
    BracketedForm(body, address, local, remote) || PlainForm(body, address, local, remote)
  }

  /** A body is taken apart exactly along one of the documented forms. */
  lemma SplitSpecForms(body: string, address: string, local: string, remote: string)
    ensures SplitSpec(body) == Ok((address, local, remote)) <==> SpecForm(body, address, local, remote)
  {
    if body != "" && body[0] == '[' {
      if BracketedForm(body, address, local, remote) {
        BracketedIsSplit(body, address, local, remote);
      }
      if SplitBracketed(body) == Ok((address, local, remote)) {
        SplitIsBracketed(body, address, local, remote);
      }
    } else {
      if PlainForm(body, address, local, remote) {
        PlainIsSplit(body, address, local, remote);
      }
      if SplitPlain(body) == Ok((address, local, remote)) {
        SplitIsPlain(body, address, local, remote);
      }
    }
  }

  lemma BracketedIsSplit(body: string, address: string, local: string, remote: string)
    requires BracketedForm(body, address, local, remote)
    ensures SplitBracketed(body) == Ok((address, local, remote))
  {
    BracketRegrouped(address, local, remote);
    BracketEnd(body, address, local + ":" + remote);
    RestIsSplit(body, address, local + ":" + remote, local, remote);
  }

  lemma RestIsSplit(body: string, address: string, rest: string, local: string, remote: string)
    requires ':' in address && ':' !in local && rest == local + ":" + remote
    requires |body| > |address| + 2 && body[0] == '[' && Index(body, ']') == |address| + 1 && body[|address| + 2] == ':'
    requires body[|address| + 3..] == rest && body[1..|address| + 1] == address
    ensures SplitBracketed(body) == Ok((address, local, remote))
  {
    FirstAt(local, ':', remote);
  }

  lemma BracketRegrouped(address: string, local: string, remote: string)
    ensures "[" + address + "]:" + local + ":" + remote == "[" + address + "]:" + (local + ":" + remote)
  {
    Regroup("[" + address + "]:", local, ":");
    Regroup("[" + address + "]:", local + ":", remote);
  }

  lemma BracketEnd(body: string, address: string, rest: string)
    requires ']' !in address && body == "[" + address + "]:" + rest
    ensures |body| > |address| + 2 && Index(body, ']') == |address| + 1 && body[|address| + 2] == ':'
    ensures body[|address| + 3..] == rest && body[1..|address| + 1] == address
  {
    assert body == ("[" + address) + "]" + (":" + rest);
    FirstAt("[" + address, ']', ":" + rest);
  }

  lemma SplitIsBracketed(body: string, address: string, local: string, remote: string)
    requires body != "" && body[0] == '[' && SplitBracketed(body) == Ok((address, local, remote))
    ensures BracketedForm(body, address, local, remote)
  {
    var end := Index(body, ']');
    var rest := body[end + 2..];
    assert rest == local + ":" + remote;
    assert body == "[" + address + "]:" + rest;
    assert body == "[" + address + "]:" + local + ":" + remote;
  }

  lemma PlainIsSplit(body: string, address: string, local: string, remote: string)
    requires PlainForm(body, address, local, remote)
    ensures SplitPlain(body) == Ok((address, local, remote))
  {
    SplitWhole(local, ':');
    SplitWhole(remote, ':');
    if address == "" && body == local + ":" + remote {
      SplitConcat(local, remote, ':');
    } else if !(address == "" && local == remote == body) {
      if body == ":" + local + ":" + remote {
        assert body == "" + ":" + local + ":" + remote;
        SplitThree("", local, remote);
      } else {
        SplitThree(address, local, remote);
      }
    }
  }

  lemma SplitThree(a: string, local: string, remote: string)
    requires ':' !in a && ':' !in local && ':' !in remote
    ensures Split(a + ":" + local + ":" + remote, ':') == [a, local, remote]
  {
    assert a + ":" + local + ":" + remote == a + ":" + (local + ":" + remote);
    SplitNested(a, local, remote, ':');
  }

  lemma SplitIsPlain(body: string, address: string, local: string, remote: string)
    requires !(body != "" && body[0] == '[') && SplitPlain(body) == Ok((address, local, remote))
    ensures PlainForm(body, address, local, remote)
  {
    var parts := Split(body, ':');
    JoinOfSplit(body, ':');
    forall k | 0 <= k < |parts|
      ensures ':' !in parts[k]
    {
      SplitParts(body, ':', k);
    }
    PartsArePlain(body, parts);
    if |parts| == 3 {
      ThreeParts(body, parts[0], local, remote);
    }
  }

  lemma ThreeParts(body: string, a: string, local: string, remote: string)
    requires !(body != "" && body[0] == '[') && body == a + ":" + local + ":" + remote
    requires ':' !in a && ':' !in local && ':' !in remote
    ensures PlainForm(body, if a == "" then ALL_INTERFACES else a, local, remote)
  {
    if a == "" {
      assert body == ":" + local + ":" + remote;
    }
  }

  lemma PartsArePlain(body: string, parts: seq<string>)
    requires body == Join(parts, ':') && 1 <= |parts| <= 3
    requires forall k :: 0 <= k < |parts| ==> ':' !in parts[k]
    ensures |parts| == 1 ==> body == parts[0]
    ensures |parts| == 2 ==> body == parts[0] + ":" + parts[1]
    ensures |parts| == 3 ==> body == parts[0] + ":" + parts[1] + ":" + parts[2]
  {
    if |parts| == 2 {
      JoinTwo(parts[0], parts[1]);
      assert parts == [parts[0], parts[1]];
    } else if |parts| == 3 {
      JoinThree(parts[0], parts[1], parts[2]);
      assert parts == [parts[0], parts[1], parts[2]];
    }
  }

  lemma JoinTwo(a: string, b: string)
    ensures Join([a, b], ':') == a + ":" + b
  {
    assert [a, b][1..] == [b];
  }

  lemma JoinThree(a: string, b: string, c: string)
    ensures Join([a, b, c], ':') == a + ":" + b + ":" + c
  {
    assert [a, b, c][1..] == [b, c];
    JoinTwo(b, c);
    assert a + ":" + (b + ":" + c) == a + ":" + b + ":" + c;
  }

  // ------------------------------------------------------------------- the meaning

  lemma PortNumberMeaning(s: string, n: GoInt)
    ensures ParsePortNumber(s) == Some(n) <==> Numeral(s, n) && 0 <= n <= 65535
  {
    AtoiForms(s, n);
  }

  /** A spec taken apart: the protocol suffix off the trimmed text, and the rest along one of the forms. */
  ghost predicate SpecParts(spec: string, body: string, address: string, local: string, remote: string,
                            protocol: string) {
    SuffixForm(TrimSpace(spec), body, protocol) && SpecForm(body, address, local, remote)
  }

  /**
   What a spec means. It stands for a pair exactly when it falls into those parts, the
   address is none, `localhost`, `*` or a literal, the remote port is a numeral from 1 to
   65535, and the local port one from 0 on, or empty, which means 0.
   */
  lemma SpecMeaning(netip: Netip, spec: string, p: PortPair)
    ensures ParsedSpec(netip, spec) == Ok(p) <==>
            exists body, local, remote ::
              && SpecParts(spec, body, p.address, local, remote, p.protocol)
              && (p.address in {"", "localhost", "*"} || netip(p.address).Some?)
              && Numeral(remote, p.remotePort) && 1 <= p.remotePort <= 65535
              && (if local == "" then p.localPort == 0 else Numeral(local, p.localPort) && 0 <= p.localPort <= 65535)
  {
    if ParsedSpec(netip, spec) == Ok(p) {
      var body := StripProtocol(TrimSpace(spec)).value.0;
      var split := SplitSpec(body).value;
      TrimmedParts(netip, TrimSpace(spec), p);
      SuffixForms(TrimSpace(spec), body, p.protocol);
      SplitSpecForms(body, split.0, split.1, split.2);
      PartsMeaning(netip, split.1, split.2, p);
      assert SpecParts(spec, body, p.address, split.1, split.2, p.protocol);
    }
    if body, local, remote :|
         && SpecParts(spec, body, p.address, local, remote, p.protocol)
         && (p.address in {"", "localhost", "*"} || netip(p.address).Some?)
         && Numeral(remote, p.remotePort) && 1 <= p.remotePort <= 65535
         && (if local == "" then p.localPort == 0 else Numeral(local, p.localPort) && 0 <= p.localPort <= 65535)
    {
      SuffixForms(TrimSpace(spec), body, p.protocol);
      SplitSpecForms(body, p.address, local, remote);
      PartsMeaning(netip, local, remote, p);
      NonEmptySpec(TrimSpace(spec), body, p.protocol, p.address, local, remote, p.remotePort);
    }
  }

  /** The steps of reading a spec, and what is made of their results. */
  lemma TrimmedParts(netip: Netip, s: string, p: PortPair)
    requires ParsedTrimmed(netip, s) == Ok(p)
    ensures StripProtocol(s).Ok? && StripProtocol(s).value.1 == p.protocol
    ensures SplitSpec(StripProtocol(s).value.0).Ok?
    ensures var split := SplitSpec(StripProtocol(s).value.0).value;
            split.0 == p.address && ParsedParts(netip, p.address, split.1, split.2, p.protocol) == Ok(p)
  {
    var stripped := StripProtocol(s).value;
    var split := SplitSpec(stripped.0).value;
    PartsKept(netip, split.0, split.1, split.2, stripped.1, p);
  }

  lemma PartsKept(netip: Netip, address: string, local: string, remote: string, protocol: string, p: PortPair)
    requires ParsedParts(netip, address, local, remote, protocol) == Ok(p)
    ensures p.address == address && p.protocol == protocol
  {
  }

  lemma PartsMeaning(netip: Netip, local: string, remote: string, p: PortPair)
    ensures ParsedParts(netip, p.address, local, remote, p.protocol) == Ok(p) <==>
            && (p.address in {"", "localhost", "*"} || netip(p.address).Some?)
            && Numeral(remote, p.remotePort) && 1 <= p.remotePort <= 65535
            && (if local == "" then p.localPort == 0 else Numeral(local, p.localPort) && 0 <= p.localPort <= 65535)
  {
    PortNumberMeaning(remote, p.remotePort);
    PortNumberMeaning(local, p.localPort);
  }

  /** Which refusal it is, once a spec is taken apart: the address is judged first, then the remote port. */
  lemma PartsErrors(netip: Netip, address: string, local: string, remote: string, protocol: string)
    ensures var r := ParsedParts(netip, address, local, remote, protocol);
            var plain := address in {"", "localhost", "*"} || netip(address).Some?;
            var port := exists n: GoInt :: Numeral(remote, n) && 1 <= n <= 65535;
            && (r == Err(InvalidAddress) <==> !plain)
            && (r == Err(ZeroRemotePort) <==> plain && Numeral(remote, 0))
            && (r == Err(InvalidRemotePort) <==> plain && !Numeral(remote, 0) && !port)
            && (r == Err(InvalidLocalPort) <==>
                plain && port && local != "" && forall n: GoInt :: Numeral(local, n) ==> !(0 <= n <= 65535))
  {
    forall n: GoInt
      ensures ParsePortNumber(remote) == Some(n) <==> Numeral(remote, n) && 0 <= n <= 65535
      ensures ParsePortNumber(local) == Some(n) <==> Numeral(local, n) && 0 <= n <= 65535
    {
      PortNumberMeaning(remote, n);
      PortNumberMeaning(local, n);
    }
    var zero: GoInt := 0;
    assert ParsePortNumber(remote) == Some(zero) <==> Numeral(remote, zero);
  }

  lemma NonEmptySpec(s: string, body: string, protocol: string, address: string, local: string, remote: string,
                     n: GoInt)
    requires SuffixForm(s, body, protocol) && SpecForm(body, address, local, remote) && Numeral(remote, n)
    ensures s != ""
  {
    var sign, zeros :| Spells(remote, sign, zeros, n);
    assert remote != "" && |body| >= |remote|;
    if '/' in s {
      assert s != "";
    } else {
      forall before, after
        ensures !AroundLastSlash(s, before, after)
      {
        if AroundLastSlash(s, before, after) {
          HasSlash(s, before, after);
        }
      }
    }
  }

  // ----------------------------------------------------------------- round trips

  /** The bracket closes at the right place, and the last slash is the suffix's own. */
  predicate UnambiguousAddress(p: PortPair) {
    ']' !in p.address && ('/' in p.address ==> p.protocol == UDP)
  }

  /** An address a form yields is not ended by a bracket of its own. */
  lemma AddressHasNoBracket(netip: Netip, body: string, address: string, local: string, remote: string)
    requires Lawful(netip) && SpecForm(body, address, local, remote)
    requires address != "" ==> IsValidAddress(netip, address)
    ensures ']' !in address
  {
    assert netip(address).Some? ==> LiteralShape(address);
  }

  /** What every accepted spec is read as. */
  lemma AcceptedIsValid(netip: Netip, spec: string)
    requires Lawful(netip)
    ensures var r := ParsedSpec(netip, spec);
            r.Ok? ==> ValidPair(netip, r.value) && r.value.protocol != "" && ']' !in r.value.address
  {
    var r := ParsedSpec(netip, spec);
    if r.Ok? {
      AcceptedSteps(netip, spec);
      var body := StripProtocol(TrimSpace(spec)).value.0;
      var split := SplitSpec(body).value;
      SplitSpecForms(body, split.0, split.1, split.2);
      AddressHasNoBracket(netip, body, split.0, split.1, split.2);
    }
  }

  /** Every step of reading an accepted spec succeeded, and the address is the one split off. */
  lemma AcceptedSteps(netip: Netip, spec: string)
    requires ParsedSpec(netip, spec).Ok?
    ensures var p := ParsedSpec(netip, spec).value;
            var stripped := StripProtocol(TrimSpace(spec));
            && ValidPair(netip, p) && p.protocol != ""
            && stripped.Ok? && SplitSpec(stripped.value.0).Ok? && p.address == SplitSpec(stripped.value.0).value.0
  {
    TrimmedSteps(netip, TrimSpace(spec));
  }

  lemma TrimmedSteps(netip: Netip, s: string)
    requires ParsedTrimmed(netip, s).Ok?
    ensures var p := ParsedTrimmed(netip, s).value;
            var stripped := StripProtocol(s);
            && ValidPair(netip, p) && p.protocol != ""
            && stripped.Ok? && SplitSpec(stripped.value.0).Ok? && p.address == SplitSpec(stripped.value.0).value.0
  {
    var stripped := StripProtocol(s).value;
    var split := SplitSpec(stripped.0).value;
    StrippedProtocol(s);
    ValidParts(netip, split.0, split.1, split.2, stripped.1);
  }

  lemma StrippedProtocol(s: string)
    requires StripProtocol(s).Ok?
    ensures StripProtocol(s).value.1 == TCP || StripProtocol(s).value.1 == UDP
  {
  }

  lemma ValidParts(netip: Netip, address: string, local: string, remote: string, protocol: string)
    requires ParsedParts(netip, address, local, remote, protocol).Ok? && (protocol == TCP || protocol == UDP)
    ensures var p := ParsedParts(netip, address, local, remote, protocol).value;
            ValidPair(netip, p) && p.protocol == protocol && p.address == address
  {
  }

  /**
   Writing a pair and reading it back. For every pair at all, the spec it prints as
   is read as that pair with its protocol normalised exactly when the pair is valid
   and its address is unambiguous, which every address without a zone is.
   */
  lemma SpecRoundTrip(netip: Netip, p: PortPair)
    requires Lawful(netip)
    ensures ParsedSpec(netip, SpecText(p)) == Ok(Normalized(p)) <==> ValidPair(netip, p) && UnambiguousAddress(p)
  {
    if ValidPair(netip, p) && UnambiguousAddress(p) {
      PrintedIsRead(netip, p);
    } else if ParsedSpec(netip, SpecText(p)) == Ok(Normalized(p)) {
      AcceptedIsValid(netip, SpecText(p));
      assert ValidPair(netip, p);
      SlashMisread(netip, p);
      assert false;
    }
  }

  lemma BodyShape(netip: Netip, p: PortPair)
    requires Lawful(netip) && ValidPair(netip, p)
    ensures var b := SpecBody(p); b != "" && !IsSpace(b[0]) && !IsSpace(b[|b| - 1])
    ensures '/' in SpecBody(p) <==> '/' in p.address
  {
    var b := SpecBody(p);
    var t := Itoa(p.remotePort);
    assert b[|b| - 1] == t[|t| - 1];
    assert netip(p.address).Some? ==> LiteralShape(p.address);
    assert p.address != "" && ':' !in p.address ==> p.address[0] in p.address;
    ItoaPlain(p.remotePort, '/');
    ItoaPlain(p.localPort, '/');
  }

  lemma BodyIsSplit(netip: Netip, p: PortPair)
    requires Lawful(netip) && ValidPair(netip, p) && ']' !in p.address
    ensures SplitSpec(SpecBody(p)) == Ok((p.address, LocalText(p), Itoa(p.remotePort)))
  {
    ItoaPlain(p.remotePort, ':');
    ItoaPlain(p.localPort, ':');
    ItoaPlain(p.localPort, '[');
    assert netip(p.address).Some? ==> LiteralShape(p.address);
    assert p.address != "" && ':' !in p.address ==> p.address[0] in p.address && p.address[0] != '[';
    assert p.localPort != 0 ==> LocalText(p)[0] in LocalText(p);
    var l, r := LocalText(p), Itoa(p.remotePort);
    if p.address == "" {
      assert SpecBody(p) == l + ":" + r;
    } else if ':' in p.address {
      assert SpecBody(p) == "[" + p.address + "]:" + l + ":" + r;
    } else {
      assert SpecBody(p) == p.address + ":" + l + ":" + r;
    }
    SplitSpecForms(SpecBody(p), p.address, l, r);
  }

  lemma PrintedIsRead(netip: Netip, p: PortPair)
    requires Lawful(netip) && ValidPair(netip, p) && UnambiguousAddress(p)
    ensures ParsedSpec(netip, SpecText(p)) == Ok(Normalized(p))
  {
    BodyShape(netip, p);
    SuffixIsStripped(SpecBody(p), p.protocol);
    BodyIsSplit(netip, p);
    LocalIsRead(p.localPort);
    AtoiItoa(p.remotePort);
    StepsAreRead(netip, SpecText(p), SpecBody(p), LocalText(p), Itoa(p.remotePort), p);
  }

  lemma LocalIsRead(port: GoInt)
    requires 0 <= port <= MAX_PORT
    ensures port != 0 ==> Itoa(port) != "" && ParsePortNumber(Itoa(port)) == Some(port)
  {
    AtoiItoa(port);
  }

  /** A spec is read as its three steps read it. */
  lemma StepsAreRead(netip: Netip, spec: string, body: string, local: string, remote: string, p: PortPair)
    requires ValidPair(netip, p) && spec != "" && TrimSpace(spec) == spec
    requires StripProtocol(spec) == Ok((body, NormalizeProtocol(p.protocol)))
    requires SplitSpec(body) == Ok((p.address, local, remote))
    requires ParsePortNumber(remote) == Some(p.remotePort)
    requires if p.localPort == 0 then local == "" else local != "" && ParsePortNumber(local) == Some(p.localPort)
    ensures ParsedSpec(netip, spec) == Ok(Normalized(p))
  {
    PartsAreRead(netip, local, remote, p);
  }

  lemma PartsAreRead(netip: Netip, local: string, remote: string, p: PortPair)
    requires ValidPair(netip, p) && ParsePortNumber(remote) == Some(p.remotePort)
    requires if p.localPort == 0 then local == "" else local != "" && ParsePortNumber(local) == Some(p.localPort)
    ensures ParsedParts(netip, p.address, local, remote, NormalizeProtocol(p.protocol)) == Ok(Normalized(p))
  {
  }

  lemma SuffixIsStripped(body: string, protocol: string)
    requires SupportedProtocol(protocol)
    requires body != "" && !IsSpace(body[0]) && !IsSpace(body[|body| - 1])
    requires '/' in body ==> protocol == UDP
    ensures var s := body + ProtocolSuffix(protocol);
            s != "" && TrimSpace(s) == s && StripProtocol(s) == Ok((body, NormalizeProtocol(protocol)))
  {
    if protocol == UDP {
      ProtocolIsCut(body, UDP);
      assert body + ProtocolSuffix(protocol) == body + "/" + UDP;
    } else {
      NothingIsCut(body);
      assert body + ProtocolSuffix(protocol) == body;
    }
  }

  lemma NothingIsCut(body: string)
    requires body != "" && !IsSpace(body[0]) && !IsSpace(body[|body| - 1]) && '/' !in body
    ensures TrimSpace(body) == body && StripProtocol(body) == Ok((body, TCP))
  {
    TrimFixed(body);
  }

  lemma ProtocolIsCut(body: string, protocol: string)
    requires protocol == TCP || protocol == UDP
    requires body != "" && !IsSpace(body[0]) && !IsSpace(body[|body| - 1])
    ensures var s := body + "/" + protocol;
            s != "" && TrimSpace(s) == s && StripProtocol(s) == Ok((body, protocol))
  {
    var s := body + "/" + protocol;
    LastAt(body, '/', protocol);
    ProtocolText(protocol);
    TrimFixed(s);
    TrimFixed(body);
  }

  lemma ProtocolText(protocol: string)
    requires protocol == TCP || protocol == UDP
    ensures ToLower(TrimSpace(protocol)) == protocol
    ensures '/' !in protocol && !IsSpace(protocol[2])
  {
    TrimFixed(protocol);
    var lower := ToLower(protocol);
    assert forall k :: 0 <= k < 3 ==> lower[k] == protocol[k];
  }

  /** A colon after the last slash: what follows the slash is no protocol. */
  lemma ColonInSuffix(s: string)
    requires LastIndex(s, '/') >= 0 && ':' in s[LastIndex(s, '/') + 1..]
    ensures StripProtocol(s) == Err(UnsupportedProtocol)
  {
    var t := s[LastIndex(s, '/') + 1..];
    TrimKeeps(t, ':');
    LowerKeeps(TrimSpace(t), ':');
    assert ':' !in TCP && ':' !in UDP;
  }

  /** A slash in an IPv6 zone is taken for the start of a protocol suffix when there is none. */
  lemma SlashMisread(netip: Netip, p: PortPair)
    requires Lawful(netip) && ValidPair(netip, p)
    requires '/' in p.address && NormalizeProtocol(p.protocol) == TCP
    ensures ParsedSpec(netip, SpecText(p)) == Err(UnsupportedProtocol)
  {
    var s := SpecText(p);
    BodyShape(netip, p);
    TrimFixed(s);
    ItoaPlain(p.remotePort, '/');
    ItoaPlain(p.localPort, '/');
    SlashedIsBracketed(netip, p);
    SlashInside(p.address, "]:" + LocalText(p) + ":" + Itoa(p.remotePort));
    ColonInSuffix(s);
  }

  lemma SlashedIsBracketed(netip: Netip, p: PortPair)
    requires Lawful(netip) && ValidPair(netip, p)
    requires '/' in p.address && NormalizeProtocol(p.protocol) == TCP
    ensures SpecText(p) == SpecBody(p) == "[" + p.address + ("]:" + LocalText(p) + ":" + Itoa(p.remotePort))
  {
    assert SpecText(p) == SpecBody(p);
    assert netip(p.address).Some? ==> LiteralShape(p.address);
    assert ':' in p.address;
  }

  lemma SlashInside(address: string, tail: string)
    requires '/' in address && '/' !in tail && ':' in tail
    ensures var s := "[" + address + tail;
            var i := LastIndex(s, '/');
            i >= 0 && ':' in s[i + 1..]
  {
    var i := LastIndex(address, '/');
    var a, b := "[" + address[..i], address[i + 1..] + tail;
    assert "[" + address + tail == a + "/" + b;
    LastAt(a, '/', b);
  }

  /**
   Reading, writing and reading again: the second reading agrees with the first
   unless the spec gave an explicit "/tcp" after a zone with a slash in it.
   */
  lemma ReadWriteRead(netip: Netip, spec: string)
    requires Lawful(netip) && ParsedSpec(netip, spec).Ok?
    ensures var p := ParsedSpec(netip, spec).value;
            ParsedSpec(netip, SpecText(p)) == Ok(p) <==> p.protocol == UDP || '/' !in p.address
  {
    AcceptedIsValid(netip, spec);
    var p := ParsedSpec(netip, spec).value;
    assert Normalized(p) == p;
    SpecRoundTrip(netip, p);
  }

  /** A zoneless address is always unambiguous. */
  lemma ZonelessRoundTrip(netip: Netip, p: PortPair)
    requires Lawful(netip) && ValidPair(netip, p) && '%' !in p.address
    ensures ParsedSpec(netip, SpecText(p)) == Ok(Normalized(p))
  {
    assert netip(p.address).Some? ==> LiteralShape(p.address);
    PrintedIsRead(netip, p);
  }

  /** A parser that accepts one literal only. */
  function OnlyAccepts(a: string): Netip {
    s => if s == a then Some(a) else None
  }

  lemma ZonedIsLawful(a: string)
    requires |a| > 7 && a[4] == ':' && a[7] == '%'
    ensures Lawful(OnlyAccepts(a)) && LiteralShape(a) && ':' in a
  {
    assert a[4] in a && a[7] in a;
  }

  /** A pair with a slash in its zone: what it prints as is refused. */
  lemma SlashInZoneExample() returns (netip: Netip, p: PortPair)
    ensures Lawful(netip) && ValidPair(netip, p) && p == PortPair("fe80::1%a/b", 1, 2, TCP)
    ensures ParsedSpec(netip, SpecText(p)) == Err(UnsupportedProtocol)
  {
    var a := "fe80::1%a/b";
    netip, p := OnlyAccepts(a), PortPair(a, 1, 2, TCP);
    ZonedIsLawful(a);
    assert a[9] == '/' && a[9] in a;
    SlashMisread(netip, p);
  }

  /** The same pair is read from a spec that spells its suffix out, and not from what it then prints as. */
  lemma SlashReadExample() returns (netip: Netip, p: PortPair)
    ensures Lawful(netip) && ParsedSpec(netip, "[fe80::1%a/b]:1:2/tcp") == Ok(p)
    ensures ParsedSpec(netip, SpecText(p)) == Err(UnsupportedProtocol)
  {
    netip, p := SlashInZoneExample();
    BodyShape(netip, p);
    assert ']' !in p.address;
    BodyIsSplit(netip, p);
    ProtocolIsCut(SpecBody(p), TCP);
    LocalIsRead(p.localPort);
    LocalIsRead(p.remotePort);
    StepsAreRead(netip, SpecBody(p) + "/" + TCP, SpecBody(p), LocalText(p), Itoa(p.remotePort), p);
    ExampleText(p);
  }

  lemma ExampleText(p: PortPair)
    requires p == PortPair("fe80::1%a/b", 1, 2, TCP)
    ensures SpecBody(p) + "/" + TCP == "[fe80::1%a/b]:1:2/tcp"
  {
    assert NatText(1) == ['1'] == "1" && NatText(2) == ['2'] == "2";
    assert p.address[4] in p.address;
    assert FormatAddress(p.address) == "[fe80::1%a/b]";
    assert SpecBody(p) == "[fe80::1%a/b]" + ":" + "1" + ":" + "2";
  }

  /** A pair with a closing bracket in its zone is not read back from what it prints as. */
  lemma BracketInZoneExample() returns (netip: Netip, p: PortPair)
    ensures Lawful(netip) && ValidPair(netip, p) && p == PortPair("fe80::1%a]b", 1, 2, TCP)
    ensures ParsedSpec(netip, SpecText(p)) != Ok(p)
  {
    var a := "fe80::1%a]b";
    netip, p := OnlyAccepts(a), PortPair(a, 1, 2, TCP);
    ZonedIsLawful(a);
    assert a[9] == ']' && a[9] in a;
    assert Normalized(p) == p;
    SpecRoundTrip(netip, p);
  }
}
