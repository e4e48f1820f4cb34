/**
 The label codecs the protocol's memory depends on: the pair list and the
 binding list (internal/forward.go).
 */
module Codec {
  import opened Wrappers
  import opened Text
  import opened Order
  import opened Ports

  // ------------------------------------------------------------- the pair list

  /** What a pair list label keeps of a pair. */
  function Recorded(p: PortPair): PortPair {
    PortPair("", p.localPort, p.remotePort, NormalizeProtocol(p.protocol))
  }

  function RecordedAll(ps: seq<PortPair>): seq<PortPair> {
    Map(Recorded, ps)
  }

  function PairToken(p: PortPair): string {
    Itoa(p.localPort) + ":" + Itoa(p.remotePort) + ProtocolSuffix(p.protocol)
  }

  function PairTokens(ps: seq<PortPair>): seq<string> {
    Map(PairToken, ps)
  }

  function PairsText(ps: seq<PortPair>): string {
    Join(PairTokens(ps), ',')
  }

  /** A token names its protocol exactly when that is not tcp. */
  lemma TokenSuffix(p: PortPair)
    requires '/' !in p.protocol
    ensures p.protocol in {"", "tcp"} ==> '/' !in PairToken(p)
    ensures p.protocol !in {"", "tcp"} ==> AroundLastSlash(PairToken(p), PairToken(p.(protocol := "")), p.protocol)
  {
    ItoaPlain(p.localPort, '/');
    ItoaPlain(p.remotePort, '/');
    assert PairToken(p.(protocol := "")) == Itoa(p.localPort) + ":" + Itoa(p.remotePort);
  }

  method EncodePortPairs(pairs: seq<PortPair>) returns (s: string)
    ensures s == PairsText(pairs)
  {
    var parts := [];
    for i := 0 to |pairs|
      invariant parts == PairTokens(pairs[..i])
    {
      PrefixSnoc(pairs, i);
      MapSnoc(PairToken, pairs[..i], pairs[i]);
      var protocol := NormalizeProtocol(pairs[i].protocol);
      var suffix := "";
      if protocol != TCP {
        suffix := "/" + protocol;
      }
      parts := parts + [Itoa(pairs[i].localPort) + ":" + Itoa(pairs[i].remotePort) + suffix];
    }
    assert pairs[..|pairs|] == pairs;
    s := Join(parts, ',');
  }

  /** The pair a token of the list stands for, or nothing when the token is skipped. */
  function DecodedToken(token: string): Option<PortPair> {
    DecodedTrimmed(TrimSpace(token))
  }

  function DecodedTrimmed(t: string): Option<PortPair> {
    if t == "" then None
    else
      var slash := LastIndex(t, '/');
      if slash < 0 then PortsOf(t, TCP)
      else
        var protocol := ToLower(t[slash + 1..]);
        if protocol == TCP || protocol == UDP then PortsOf(t[..slash], protocol) else None
  }

  function PortsOf(t: string, protocol: string): Option<PortPair> {
    var colon := Index(t, ':');
    if colon < 0 then None
    else
      match Atoi(t[..colon])
      case None => None
      case Some(local) =>
        match Atoi(t[colon + 1..])
        case None => None
        case Some(remote) => Some(PortPair("", local, remote, protocol))
  }

  function DecodedPairs(s: string): seq<PortPair> {
    FilterMap(DecodedToken, Split(s, ','))
  }

  /** The loop body of `DecodePortPairs`; a skipped token yields nothing. */
  method DecodeToken(token0: string) returns (p: Option<PortPair>)
    ensures p == DecodedToken(token0)
    ensures p.Some? ==> TokenForm(token0, p.value)
    ensures p.None? ==> forall q :: !TokenForm(token0, q)
  {
    TokenIsDecoded(token0);
    var token := TrimSpace(token0);
    if token == "" {
      return None;
    }
    var protocol := TCP;
    var slash := LastIndex(token, '/');
    if slash >= 0 {
      var suffix := ToLower(token[slash + 1..]);
      if suffix != TCP && suffix != UDP {
        return None;
      }
      protocol := suffix;
      token := token[..slash];
    }
    p := PortsOf(token, protocol);
  }

  /** LOCAL:REMOTE */
  ghost predicate PortsForm(t: string, local: GoInt, remote: GoInt) {
    exists l, r :: ':' !in l && t == l + ":" + r && Atoi(l) == Some(local) && Atoi(r) == Some(remote)
  }

  /** A trimmed token with its ports and protocol: tcp without a slash, else what follows the last one. */
  ghost predicate TokenEnding(t: string, ports: string, protocol: string) {
    || ('/' !in t && ports == t && protocol == TCP)
    || ((protocol == TCP || protocol == UDP)
        && exists after :: AroundLastSlash(t, ports, after) && ToLower(after) == protocol)
  }

  /** The documented token form, LOCAL:REMOTE[/PROTO], and the pair it stands for. */
  ghost predicate TokenForm(token: string, p: PortPair) {
    && p.address == ""
    && exists ports :: TokenEnding(TrimSpace(token), ports, p.protocol) && PortsForm(ports, p.localPort, p.remotePort)
  }

  /** A token is kept exactly when it has that form, and stands for that pair. */
  lemma TokenForms(token: string, p: PortPair)
    ensures DecodedToken(token) == Some(p) <==> TokenForm(token, p)
  {
    TrimmedTokenForms(TrimSpace(token), p);
  }

  lemma TrimmedTokenForms(t: string, p: PortPair)
    ensures DecodedTrimmed(t) == Some(p) <==>
            && p.address == ""
            && exists ports :: TokenEnding(t, ports, p.protocol) && PortsForm(ports, p.localPort, p.remotePort)
  {
    if '/' in t {
      var slash := LastIndex(t, '/');
      AroundSlash(t);
      SlashedTokenForms(t, t[..slash], t[slash + 1..], p);
    } else {
      PlainToken(t, p);
      assert TokenEnding(t, t, TCP);
    }
  }

  lemma PlainToken(t: string, p: PortPair)
    requires '/' !in t
    ensures DecodedTrimmed(t) == Some(p) <==>
              p.address == "" && p.protocol == TCP && PortsForm(t, p.localPort, p.remotePort)
    ensures forall ports, protocol :: TokenEnding(t, ports, protocol) <==> ports == t && protocol == TCP
  {
    PortsForms(t, TCP, p);
    forall ports, after
      ensures AroundLastSlash(t, ports, after) ==> '/' in t
    {
      if AroundLastSlash(t, ports, after) {
        HasSlash(t, ports, after);
      }
    }
  }

  lemma SlashedTokenForms(t: string, before: string, after: string, p: PortPair)
    requires AroundLastSlash(t, before, after)
    ensures DecodedTrimmed(t) == Some(p) <==>
            && p.address == ""
            && exists ports :: TokenEnding(t, ports, p.protocol) && PortsForm(ports, p.localPort, p.remotePort)
  {
    SlashedToken(t, before, after, p);
    SlashedEnding(t, before, after, p.protocol);
  }

  lemma SlashedToken(t: string, before: string, after: string, p: PortPair)
    requires AroundLastSlash(t, before, after)
    ensures DecodedTrimmed(t) == Some(p) <==>
            && (p.protocol == TCP || p.protocol == UDP) && ToLower(after) == p.protocol
            && p.address == "" && PortsForm(before, p.localPort, p.remotePort)
  {
    LastAt(before, '/', after);
    PortsForms(before, ToLower(after), p);
  }

  lemma SlashedEnding(t: string, before: string, after: string, protocol: string)
    requires AroundLastSlash(t, before, after)
    ensures forall ports :: TokenEnding(t, ports, protocol) <==>
                            (protocol == TCP || protocol == UDP) && ports == before && ToLower(after) == protocol
  {
    assert t[|before|] == '/';
    forall b, a | AroundLastSlash(t, b, a)
      ensures b == before && a == after
    {
      LastSlashIsOne(t, before, after, b, a);
    }
  }

  lemma PortsForms(t: string, protocol: string, p: PortPair)
    ensures PortsOf(t, protocol) == Some(p) <==>
            p.address == "" && p.protocol == protocol && PortsForm(t, p.localPort, p.remotePort)
  {
    var colon := Index(t, ':');
    if colon >= 0 {
      assert t == t[..colon] + ":" + t[colon + 1..];
    }
    if l, r :| ':' !in l && t == l + ":" + r && Atoi(l) == Some(p.localPort) && Atoi(r) == Some(p.remotePort) {
      FirstAt(l, ':', r);
    }
  }

  lemma TokenIsDecoded(token: string)
    ensures var r := DecodedToken(token);
            (r.Some? ==> TokenForm(token, r.value)) && (r.None? ==> forall q :: !TokenForm(token, q))
  {
    forall q
      ensures DecodedToken(token) == Some(q) <==> TokenForm(token, q)
    {
      TokenForms(token, q);
    }
  }

  method DecodePortPairs(s: string) returns (out: seq<PortPair>)
    ensures out == DecodedPairs(s)
  {
    out := [];
    if s == "" {
      EmptyPairsDecode();
      return;
    }
    var tokens := Split(s, ',');
    for i := 0 to |tokens|
      invariant out == FilterMap(DecodedToken, tokens[..i])
    {
      PrefixSnoc(tokens, i);
      FilterMapSnoc(DecodedToken, tokens[..i], tokens[i]);
      var p := DecodeToken(tokens[i]);
      if p.None? {
        continue;
      }
      out := out + [p.value];
    }
    assert tokens[..|tokens|] == tokens;
  }

  lemma EmptyPairsDecode()
    ensures DecodedPairs("") == []
  {
    assert Split("", ',') == [] + [""];
    FilterMapSnoc(DecodedToken, [], "");
  }

  /** Two lists joined by a comma decode to the two decodings in turn, malformed tokens or not. */
  lemma DecodeConcat(a: string, b: string)
    ensures DecodedPairs(a + "," + b) == DecodedPairs(a) + DecodedPairs(b)
  {
    SplitConcat(a, b, ',');
    FilterMapConcat(DecodedToken, Split(a, ','), Split(b, ','));
  }

  lemma DecodedProtocols(s: string, p: PortPair)
    requires p in DecodedPairs(s)
    ensures p.address == "" && (p.protocol == TCP || p.protocol == UDP)
  {
    FilterMapMembers(DecodedToken, Split(s, ','), p);
  }

  lemma PortsAreRead(p: PortPair, protocol: string)
    ensures PortsOf(Itoa(p.localPort) + ":" + Itoa(p.remotePort), protocol)
         == Some(PortPair("", p.localPort, p.remotePort, protocol))
  {
    ItoaPlain(p.localPort, ':');
    FirstAt(Itoa(p.localPort), ':', Itoa(p.remotePort));
    AtoiItoa(p.localPort);
    AtoiItoa(p.remotePort);
  }

  lemma TokenEnds(p: PortPair)
    requires SupportedProtocol(p.protocol)
    ensures var t := PairToken(p); t != "" && TrimSpace(t) == t && ',' !in t
    ensures '/' !in Itoa(p.localPort) + ":" + Itoa(p.remotePort)
  {
    var l, r := Itoa(p.localPort), Itoa(p.remotePort);
    var t := PairToken(p);
    ItoaPlain(p.localPort, ',');
    ItoaPlain(p.remotePort, ',');
    ItoaPlain(p.localPort, '/');
    ItoaPlain(p.remotePort, '/');
    assert t[0] == l[0];
    if p.protocol == UDP {
      assert t == l + ":" + r + "/udp";
      assert t[|t| - 1] == 'p';
    } else {
      assert t == l + ":" + r;
      assert t[|t| - 1] == r[|r| - 1];
    }
    TrimFixed(t);
  }

  lemma TokenIsRead(p: PortPair)
    requires SupportedProtocol(p.protocol)
    ensures DecodedToken(PairToken(p)) == Some(Recorded(p))
  {
    var b := Itoa(p.localPort) + ":" + Itoa(p.remotePort);
    TokenEnds(p);
    PortsAreRead(p, NormalizeProtocol(p.protocol));
    if p.protocol == UDP {
      assert PairToken(p) == b + "/" + UDP;
      UdpIsCut(b);
    } else {
      assert PairToken(p) == b;
    }
  }

  lemma UdpIsCut(b: string)
    ensures var t := b + "/" + UDP;
            var slash := LastIndex(t, '/');
            slash == |b| && t[..slash] == b && ToLower(t[slash + 1..]) == UDP
  {
    ProtocolText(UDP);
    TrimFixed(UDP);
    LastAt(b, '/', UDP);
  }

  /**
   The pair list round trip, for all integer ports: the list is read back with
   addresses dropped and protocols normalised exactly when every protocol is tcp,
   udp or left empty.
   */
  lemma PairListRoundTrip(ps: seq<PortPair>)
    ensures DecodedPairs(PairsText(ps)) == RecordedAll(ps) <==> forall p :: p in ps ==> SupportedProtocol(p.protocol)
  {
    if forall p :: p in ps ==> SupportedProtocol(p.protocol) {
      SupportedListIsRead(ps);
    }
    if DecodedPairs(PairsText(ps)) == RecordedAll(ps) {
      forall p | p in ps
        ensures SupportedProtocol(p.protocol)
      {
        var i :| 0 <= i < |ps| && ps[i] == p;
        DecodedProtocols(PairsText(ps), RecordedAll(ps)[i]);
      }
    }
  }

  lemma SupportedListIsRead(ps: seq<PortPair>)
    requires forall p :: p in ps ==> SupportedProtocol(p.protocol)
    ensures DecodedPairs(PairsText(ps)) == RecordedAll(ps)
  {
    if ps == [] {
      EmptyPairsDecode();
    } else {
      forall t | t in PairTokens(ps)
        ensures ',' !in t
      {
        var i :| 0 <= i < |ps| && PairTokens(ps)[i] == t;
        TokenEnds(ps[i]);
      }
      SplitJoin(PairTokens(ps), ',');
      forall i | 0 <= i < |ps|
        ensures DecodedToken(PairTokens(ps)[i]) == Some(RecordedAll(ps)[i])
      {
        TokenIsRead(ps[i]);
      }
      FilterMapAll(DecodedToken, PairTokens(ps), RecordedAll(ps));
    }
  }

  // ------------------------------------------------------------ bind addresses

  const LOOPBACK4 := "127.0.0.1"
  const LOOPBACK6 := "::1"

  /** The concrete addresses one entry of an address list stands for. */
  function OneAddress(a: string): seq<string> {
    var t := TrimSpace(a);
    if t == "" then []
    else if t == LOCALHOST then [LOOPBACK4, LOOPBACK6]
    else [t]
  }

  function ConcreteAddresses(addrs: seq<string>): seq<string> {
    if addrs == [] then [] else ConcreteAddresses(addrs[..|addrs| - 1]) + OneAddress(addrs[|addrs| - 1])
  }

  function Expanded(addrs: seq<string>): seq<string> {
    FirstOccurrences(ConcreteAddresses(if addrs == [] then [LOCALHOST] else addrs))
  }

  function PairAddresses(p: PortPair, defaults: seq<string>): seq<string> {
    if p.address != "" then Expanded([p.address]) else Expanded(defaults)
  }

  method ExpandAddresses(addrs0: seq<string>) returns (out: seq<string>)
    ensures out == Expanded(addrs0)
  {
    var addrs := if addrs0 == [] then [LOCALHOST] else addrs0;
    out := [];
    var seen: set<string> := {};
    for i := 0 to |addrs|
      invariant out == FirstOccurrences(ConcreteAddresses(addrs[..i]))
      invariant forall a :: a in seen <==> a in out
    {
      ghost var done := ConcreteAddresses(addrs[..i]);
      PrefixSnoc(addrs, i);
      ConcreteSnoc(addrs[..i], addrs[i]);
      var a := TrimSpace(addrs[i]);
      if a == "" {
        assert done + [] == done;
        continue;
      }
      if a == LOCALHOST {
        LocalhostStep(done);
        if LOOPBACK4 !in seen {
          seen, out := seen + {LOOPBACK4}, out + [LOOPBACK4];
        }
        if LOOPBACK6 !in seen {
          seen, out := seen + {LOOPBACK6}, out + [LOOPBACK6];
        }
        continue;
      }
      OccurrencesSnoc(done, a);
      if a !in seen {
        seen, out := seen + {a}, out + [a];
      }
    }
    assert addrs[..|addrs|] == addrs;
  }

  lemma ConcreteSnoc(addrs: seq<string>, a: string)
    ensures ConcreteAddresses(addrs + [a]) == ConcreteAddresses(addrs) + OneAddress(a)
  {
    assert (addrs + [a])[..|addrs|] == addrs;
  }

  lemma LocalhostStep(s: seq<string>)
    ensures FirstOccurrences(s + [LOOPBACK4, LOOPBACK6]) == AddOnce(AddOnce(FirstOccurrences(s), LOOPBACK4), LOOPBACK6)
  {
    assert s + [LOOPBACK4, LOOPBACK6] == s + [LOOPBACK4] + [LOOPBACK6];
    OccurrencesSnoc(s, LOOPBACK4);
    OccurrencesSnoc(s + [LOOPBACK4], LOOPBACK6);
  }

  lemma {:induction false} ConcreteMembers(addrs: seq<string>, a: string)
    ensures a in ConcreteAddresses(addrs) <==> exists d :: d in addrs && a in OneAddress(d)
  {
    if addrs != [] {
      var init, e := addrs[..|addrs| - 1], addrs[|addrs| - 1];
      assert addrs == init + [e];
      ConcreteMembers(init, a);
      ConcreteSnoc(init, e);
    }
  }

  /**
   The expansion holds every concrete address of the list once, with `localhost`
   standing for both loopback addresses and for an empty list.
   */
  lemma ExpansionMeaning(addrs: seq<string>, a: string)
    ensures NoRepeats(Expanded(addrs))
    ensures addrs != [] ==> (a in Expanded(addrs) <==> exists d :: d in addrs && a in OneAddress(d))
    ensures Expanded([]) == [LOOPBACK4, LOOPBACK6]
  {
    var source := if addrs == [] then [LOCALHOST] else addrs;
    OccurrencesMeaning(ConcreteAddresses(source));
    ConcreteMembers(source, a);
    LocalhostExpansion();
  }

  lemma LocalhostExpansion()
    ensures Expanded([]) == [LOOPBACK4, LOOPBACK6]
  {
    TrimFixed(LOCALHOST);
    ConcreteSnoc([], LOCALHOST);
    assert [] + [LOCALHOST] == [LOCALHOST];
    assert ConcreteAddresses([LOCALHOST]) == [LOOPBACK4] + [LOOPBACK6];
    OccurrencesSnoc([], LOOPBACK4);
    OccurrencesSnoc([LOOPBACK4], LOOPBACK6);
    assert [] + [LOOPBACK4] == [LOOPBACK4];
    assert LOOPBACK4[0] != LOOPBACK6[0];
  }

  lemma SingleExpansion(a: string)
    requires TrimSpace(a) != "" && TrimSpace(a) != LOCALHOST
    ensures Expanded([a]) == [TrimSpace(a)]
  {
    ConcreteSnoc([], a);
    assert [] + [a] == [a] && [] + [TrimSpace(a)] == [TrimSpace(a)];
    OccurrencesSnoc([], TrimSpace(a));
  }

  /** An address an expansion yields expands to itself: a binding is bound in one place. */
  lemma ExpandedIsConcrete(addrs: seq<string>, a: string)
    requires a in Expanded(addrs)
    ensures a != "" && a != LOCALHOST && TrimSpace(a) == a && Expanded([a]) == [a]
  {
    var source := if addrs == [] then [LOCALHOST] else addrs;
    OccurrencesMeaning(ConcreteAddresses(source));
    ConcreteMembers(source, a);
    var d :| d in source && a in OneAddress(d);
    OneAddressIsTrimmed(d, a);
    SingleExpansion(a);
  }

  lemma OneAddressIsTrimmed(d: string, a: string)
    requires a in OneAddress(d)
    ensures a != "" && a != LOCALHOST && TrimSpace(a) == a
  {
    TrimTwice(d);
    TrimFixed(LOOPBACK4);
    TrimFixed(LOOPBACK6);
    assert LOOPBACK4[0] != LOCALHOST[0] && LOOPBACK6[0] != LOCALHOST[0];
  }

  // ---------------------------------------------------------- the binding list

  /** A pair bound on each of the given addresses. */
  function Pinned(p: PortPair, addrs: seq<string>): (r: seq<PortPair>)
    ensures |r| == |addrs|
    ensures forall i :: 0 <= i < |addrs| ==> r[i] == p.(address := addrs[i])
  {
    if addrs == [] then []
    else Pinned(p, addrs[..|addrs| - 1]) + [p.(address := addrs[|addrs| - 1])]
  }

  lemma PinnedSnoc(p: PortPair, addrs: seq<string>, a: string)
    ensures Pinned(p, addrs + [a]) == Pinned(p, addrs) + [p.(address := a)]
  {
    assert (addrs + [a])[..|addrs|] == addrs;
  }

  /** Every published binding, in order: each pair over its own addresses. */
  function Bindings(pairs: seq<PortPair>, defaults: seq<string>): seq<PortPair> {
    if pairs == [] then []
    else
      var p := pairs[|pairs| - 1];
      Bindings(pairs[..|pairs| - 1], defaults) + Pinned(p, PairAddresses(p, defaults))
  }

  /** The bindings of more pairs follow those of the first ones. */
  lemma {:induction false} BindingsConcat(pairs: seq<PortPair>, more: seq<PortPair>, defaults: seq<string>)
    ensures Bindings(pairs + more, defaults) == Bindings(pairs, defaults) + Bindings(more, defaults)
  {
    if more == [] {
      assert pairs + more == pairs;
    } else {
      var init, p := more[..|more| - 1], more[|more| - 1];
      var bound := Pinned(p, PairAddresses(p, defaults));
      assert more == init + [p];
      Regroup(pairs, init, [p]);
      BindingsConcat(pairs, init, defaults);
      BindingsSnoc(pairs + init, p, defaults);
      BindingsSnoc(init, p, defaults);
      Regroup(Bindings(pairs, defaults), Bindings(init, defaults), bound);
    }
  }

  /** The address is one that an entry of an address list stands for. */
  predicate StandsFor(entry: string, address: string) {
    || (TrimSpace(entry) == address && address != "" && address != "localhost")
    || (TrimSpace(entry) == "localhost" && (address == "127.0.0.1" || address == "::1"))
  }

  /** A pair's own address stands for this one, or else one of the defaults, which are `localhost` unless given. */
  ghost predicate BoundOn(p: PortPair, defaults: seq<string>, a: string) {
    || (p.address != "" && StandsFor(p.address, a))
    || (p.address == "" && defaults == [] && StandsFor("localhost", a))
    || (p.address == "" && exists e :: e in defaults && StandsFor(e, a))
  }

  /** A pair is bound on each of those addresses, once. */
  lemma PairAddressesMeaning(p: PortPair, defaults: seq<string>, a: string)
    ensures a in PairAddresses(p, defaults) <==> BoundOn(p, defaults, a)
    ensures NoRepeats(PairAddresses(p, defaults))
  {
    var entries := if p.address != "" then [p.address] else if defaults != [] then defaults else ["localhost"];
    assert PairAddresses(p, defaults) == FirstOccurrences(ConcreteAddresses(entries));
    OccurrencesMeaning(ConcreteAddresses(entries));
    ConcreteMembers(entries, a);
    forall e
      ensures a in OneAddress(e) <==> StandsFor(e, a)
    {
      OneAddressMeaning(e, a);
    }
  }

  lemma OneAddressMeaning(e: string, a: string)
    ensures a in OneAddress(e) <==> StandsFor(e, a)
  {
    assert LOOPBACK4 == "127.0.0.1" && LOOPBACK6 == "::1" && LOCALHOST == "localhost";
  }

  function SpecTexts(bs: seq<PortPair>): seq<string> {
    Map(SpecText, bs)
  }

  function NormalizedAll(bs: seq<PortPair>): seq<PortPair> {
    Map(Normalized, bs)
  }

  function BindingsText(pairs: seq<PortPair>, defaults: seq<string>): string {
    Join(SpecTexts(Bindings(pairs, defaults)), ',')
  }

  method EncodeBindings(pairs: seq<PortPair>, defaults: seq<string>) returns (s: string)
    ensures s == BindingsText(pairs, defaults)
  {
    var parts := [];
    for i := 0 to |pairs|
      invariant parts == SpecTexts(Bindings(pairs[..i], defaults))
    {
      var addrs := PairAddresses(pairs[i], defaults);
      parts := AppendBindings(parts, pairs[i], addrs);
      PrefixSnoc(pairs, i);
      BindingTextsSnoc(pairs[..i], pairs[i], defaults);
    }
    assert pairs[..|pairs|] == pairs;
    s := Join(parts, ',');
  }

  /** The inner loop of `EncodeBindings`. */
  method AppendBindings(parts0: seq<string>, p: PortPair, addrs: seq<string>) returns (parts: seq<string>)
    ensures parts == parts0 + SpecTexts(Pinned(p, addrs))
  {
    parts := parts0;
    for j := 0 to |addrs|
      invariant parts == parts0 + SpecTexts(Pinned(p, addrs[..j]))
    {
      var b := p.(address := addrs[j]);
      parts := parts + [SpecText(b)];
      PrefixSnoc(addrs, j);
      PinnedTextsSnoc(p, addrs[..j], addrs[j]);
    }
    assert addrs[..|addrs|] == addrs;
  }

  lemma PinnedTextsSnoc(p: PortPair, addrs: seq<string>, a: string)
    ensures SpecTexts(Pinned(p, addrs + [a])) == SpecTexts(Pinned(p, addrs)) + [SpecText(p.(address := a))]
  {
    PinnedSnoc(p, addrs, a);
    MapSnoc(SpecText, Pinned(p, addrs), p.(address := a));
  }

  lemma BindingTextsSnoc(pairs: seq<PortPair>, p: PortPair, defaults: seq<string>)
    ensures SpecTexts(Bindings(pairs + [p], defaults))
         == SpecTexts(Bindings(pairs, defaults)) + SpecTexts(Pinned(p, PairAddresses(p, defaults)))
  {
    BindingsSnoc(pairs, p, defaults);
    MapConcat(SpecText, Bindings(pairs, defaults), Pinned(p, PairAddresses(p, defaults)));
  }

  lemma BindingsSnoc(pairs: seq<PortPair>, p: PortPair, defaults: seq<string>)
    ensures Bindings(pairs + [p], defaults) == Bindings(pairs, defaults) + Pinned(p, PairAddresses(p, defaults))
  {
    assert (pairs + [p])[..|pairs|] == pairs;
  }

  /** The reading of one spec, with refusals dropped. */
  function SpecReader(netip: Netip): (f: string -> Option<PortPair>) {
    t => match ParsedSpec(netip, t) case Ok(p) => Some(p) case Err(_) => None
  }

  function DecodedBindings(netip: Netip, s: string): seq<PortPair> {
    FilterMap(SpecReader(netip), Split(s, ','))
  }

  method DecodeBindings(netip: Netip, s: string) returns (out: seq<PortPair>)
    ensures out == DecodedBindings(netip, s)
  {
    out := [];
    if s == "" {
      EmptyDecodes(netip);
      return;
    }
    var tokens := Split(s, ',');
    for i := 0 to |tokens|
      invariant out == FilterMap(SpecReader(netip), tokens[..i])
    {
      PrefixSnoc(tokens, i);
      FilterMapSnoc(SpecReader(netip), tokens[..i], tokens[i]);
      var p := ParsePortSpec(netip, tokens[i]);
      if p.Err? {
        continue;
      }
      out := out + [p.value];
    }
    assert tokens[..|tokens|] == tokens;
  }

  lemma EmptyDecodes(netip: Netip)
    ensures DecodedBindings(netip, "") == []
  {
    assert Split("", ',') == [] + [""];
    FilterMapSnoc(SpecReader(netip), [], "");
  }

  /** A binding that the label can hold. */
  predicate Recordable(netip: Netip, b: PortPair) {
    ValidPair(netip, b) && UnambiguousAddress(b) && ',' !in b.address
  }

  lemma SpecsAreRead(netip: Netip, bs: seq<PortPair>)
    requires Lawful(netip)
    requires forall b :: b in bs ==> ValidPair(netip, b)
    ensures FilterMap(SpecReader(netip), SpecTexts(bs)) == NormalizedAll(bs) <==>
              forall b :: b in bs ==> UnambiguousAddress(b)
  {
    var read := SpecReader(netip);
    forall i | 0 <= i < |bs|
      ensures read(SpecTexts(bs)[i]) == Some(NormalizedAll(bs)[i]) <==> UnambiguousAddress(bs[i])
    {
      SpecRoundTrip(netip, bs[i]);
    }
    FilterMapAll(read, SpecTexts(bs), NormalizedAll(bs));
    assert (forall b :: b in bs ==> UnambiguousAddress(b)) <==>
        (forall i :: 0 <= i < |bs| ==> UnambiguousAddress(bs[i]));
  }

  lemma CommaFree(netip: Netip, spec: string)
    requires ',' !in spec && ParsedSpec(netip, spec).Ok?
    ensures ',' !in ParsedSpec(netip, spec).value.address
  {
    var s := TrimSpace(spec);
    TrimKeeps(spec, ',');
    AcceptedSteps(netip, spec);
    StrippedIsFree(s);
    var body := StripProtocol(s).value.0;
    var split := SplitSpec(body).value;
    SplitSpecForms(body, split.0, split.1, split.2);
    FormIsFree(body, split.0, split.1, split.2);
  }

  lemma StrippedIsFree(s: string)
    requires ',' !in s && StripProtocol(s).Ok?
    ensures ',' !in StripProtocol(s).value.0
  {
    var slash := LastIndex(s, '/');
    if slash >= 0 {
      assert ',' !in s[..slash];
      TrimKeeps(s[..slash], ',');
    }
  }

  lemma FormIsFree(body: string, address: string, local: string, remote: string)
    requires ',' !in body && SpecForm(body, address, local, remote)
    ensures ',' !in address
  {
    if BracketedForm(body, address, local, remote) {
      assert forall k :: 0 <= k < |address| ==> body[k + 1] == address[k];
    } else if address != "" && body == address + ":" + local + ":" + remote {
      assert forall k :: 0 <= k < |address| ==> body[k] == address[k];
    }
  }

  lemma TextHasNoComma(netip: Netip, b: PortPair)
    requires ValidPair(netip, b) && ',' !in b.address
    ensures ',' !in SpecText(b) && SpecText(b) != ""
  {
    ItoaPlain(b.localPort, ',');
    ItoaPlain(b.remotePort, ',');
  }

  lemma TextsAreSplit(netip: Netip, bs: seq<PortPair>)
    requires forall b :: b in bs ==> ValidPair(netip, b) && ',' !in b.address
    ensures DecodedBindings(netip, Join(SpecTexts(bs), ',')) == FilterMap(SpecReader(netip), SpecTexts(bs))
  {
    if bs == [] {
      EmptyDecodes(netip);
    } else {
      forall t | t in SpecTexts(bs)
        ensures ',' !in t
      {
        var i :| 0 <= i < |bs| && SpecTexts(bs)[i] == t;
        TextHasNoComma(netip, bs[i]);
      }
      SplitJoin(SpecTexts(bs), ',');
    }
  }

  lemma DecodedAreValid(netip: Netip, s: string, p: PortPair)
    requires Lawful(netip) && p in DecodedBindings(netip, s)
    ensures ValidPair(netip, p) && ',' !in p.address && ']' !in p.address
  {
    var tokens := Split(s, ',');
    FilterMapMembers(SpecReader(netip), tokens, p);
    var k :| 0 <= k < |tokens| && SpecReader(netip)(tokens[k]) == Some(p);
    SplitParts(s, ',', k);
    AcceptedIsValid(netip, tokens[k]);
    CommaFree(netip, tokens[k]);
  }

  lemma ReadBackIsValid(netip: Netip, bs: seq<PortPair>, text: string)
    requires Lawful(netip) && DecodedBindings(netip, text) == NormalizedAll(bs)
    ensures forall b :: b in bs ==> ValidPair(netip, b) && ',' !in b.address
  {
    forall b | b in bs
      ensures ValidPair(netip, b) && ',' !in b.address
    {
      var i :| 0 <= i < |bs| && bs[i] == b;
      assert NormalizedAll(bs)[i] == Normalized(b);
      DecodedAreValid(netip, text, Normalized(b));
    }
  }

  /**
   The binding list round trip: the label is read back as the ordered flattening of
   every pair over its own addresses, protocols normalised, exactly when every
   binding is valid and its address is unambiguous and free of commas.
   */
  lemma BindingListRoundTrip(netip: Netip, pairs: seq<PortPair>, defaults: seq<string>)
    requires Lawful(netip)
    ensures DecodedBindings(netip, BindingsText(pairs, defaults)) == NormalizedAll(Bindings(pairs, defaults))
       <==> forall b :: b in Bindings(pairs, defaults) ==> Recordable(netip, b)
  {
    var bs := Bindings(pairs, defaults);
    var text := BindingsText(pairs, defaults);
    if DecodedBindings(netip, text) == NormalizedAll(bs) {
      ReadBackIsValid(netip, bs, text);
    }
    if forall b :: b in bs ==> ValidPair(netip, b) && ',' !in b.address {
      TextsAreSplit(netip, bs);
      SpecsAreRead(netip, bs);
    }
  }

  /** A pair with a comma in its zone: its binding is valid and unambiguous, and yet lost. */
  lemma CommaInZoneExample() returns (netip: Netip, p: PortPair)
    ensures Lawful(netip) && p == PortPair("fe80::1%a,b", 1, 2, TCP)
    ensures Bindings([p], []) == [p] && ValidPair(netip, p) && UnambiguousAddress(p)
    ensures DecodedBindings(netip, BindingsText([p], [])) != NormalizedAll([p])
  {
    var a := "fe80::1%a,b";
    assert a[4] == ':' && a[7] == '%' && a[9] == ',' && a[9] in a;
    ExampleIsUnambiguous(a);
    netip, p := CommaLoses(a);
  }

  lemma CommaLoses(a: string) returns (netip: Netip, p: PortPair)
    requires |a| > 7 && a[4] == ':' && a[7] == '%' && ',' in a && ']' !in a && '/' !in a
    requires a != LOCALHOST && !IsSpace(a[0]) && !IsSpace(a[|a| - 1])
    ensures Lawful(netip) && p == PortPair(a, 1, 2, TCP)
    ensures Bindings([p], []) == [p] && ValidPair(netip, p) && UnambiguousAddress(p)
    ensures DecodedBindings(netip, BindingsText([p], [])) != NormalizedAll([p])
  {
    netip, p := OnlyAccepts(a), PortPair(a, 1, 2, TCP);
    ZonedIsLawful(a);
    CommaIsLost(netip, p, []);
  }

  lemma ExampleIsUnambiguous(a: string)
    requires a == "fe80::1%a,b"
    ensures ']' !in a && '/' !in a
  {
    assert forall k :: 0 <= k < |a| ==> a[k] != ']' && a[k] != '/';
  }

  lemma CommaIsLost(netip: Netip, p: PortPair, defaults: seq<string>)
    requires Lawful(netip) && ',' in p.address
    requires p.address != LOCALHOST && !IsSpace(p.address[0]) && !IsSpace(p.address[|p.address| - 1])
    ensures Bindings([p], defaults) == [p]
    ensures DecodedBindings(netip, BindingsText([p], defaults)) != NormalizedAll([p])
  {
    OneBinding(p, defaults);
    BindingListRoundTrip(netip, [p], defaults);
    assert p in Bindings([p], defaults) && !Recordable(netip, p);
  }

  lemma OneBinding(p: PortPair, defaults: seq<string>)
    requires p.address != "" && p.address != LOCALHOST && !IsSpace(p.address[0]) && !IsSpace(p.address[|p.address| - 1])
    ensures Bindings([p], defaults) == [p]
  {
    TrimFixed(p.address);
    SingleExpansion(p.address);
    assert PairAddresses(p, defaults) == [p.address];
    PinnedSnoc(p, [], p.address);
    assert [] + [p.address] == [p.address];
    BindingsSnoc([], p, defaults);
    assert [] + [p] == [p];
  }
}
