/**
 The helper container's configuration: script, exposed ports, port bindings and
 labels, all computed from the same pairs (internal/forward.go).
 */
module Config {
  import opened Wrappers
  import opened Text
  import opened Order
  import opened Ports
  import opened Codec
  import Range = SourceRange

  const LABEL_PORT_FORWARD := "com.dokku.port-forward"
  const LABEL_TARGET := "com.dokku.port-forward.target"
  const LABEL_SESSION := "com.dokku.port-forward.session"
  const LABEL_NAME := "com.dokku.port-forward.name"
  const LABEL_PORTS := "com.dokku.port-forward.ports"
  const LABEL_ADDRESSES := "com.dokku.port-forward.addresses"
  const LABEL_BINDINGS := "com.dokku.port-forward.bindings"
  const LABEL_TARGET_NAME := "com.dokku.port-forward.target-name"
  const LABEL_TARGET_NETWORK := "com.dokku.port-forward.target-network"
  const LABEL_TARGET_ADDRESS := "com.dokku.port-forward.target-address"
  const LABEL_SOURCE_RANGE := "com.dokku.port-forward.source-range"

  const DEFAULT_UDP_SECONDS := 60
  const RESTART_NO := "no"

  /**
   What a helper is built from. `udpSeconds` is the UDP timeout in whole seconds and
   `halfClose` the TCP half-close timeout as a decimal number of seconds.
   */
  datatype HelperConfig = HelperConfig(
    targetID: string,
    targetName: string,
    targetNetwork: string,
    targetAddress: string,
    pairs: seq<PortPair>,
    addresses: seq<string>,
    name: string,
    session: string,
    extraLabels: map<string, string>,
    detach: bool,
    restartPolicy: string,
    udpSeconds: int,
    halfClose: Option<string>,
    sourceRange: Range.Prefix)

  /** A published binding; no host IP publishes on every interface. */
  datatype PortBinding = PortBinding(hostIP: Option<string>, hostPort: string)

  datatype HelperSpec = HelperSpec(
    script: string,
    labels: map<string, string>,
    exposed: set<ProtoPort>,
    bindings: map<ProtoPort, seq<PortBinding>>,
    networkMode: string,
    autoRemove: bool,
    restartPolicy: string)

  // --------------------------------------------------------------------- script

  /** The container port a pair is forwarded to. */
  function SocatKey(p: PortPair): ProtoPort {
    ProtoPort(p.remotePort, NormalizeProtocol(p.protocol))
  }

  /** One key per socat, sorted. */
  function SocatKeys(pairs: seq<PortPair>): seq<ProtoPort> {
    Sort(ProtoPortLess, FirstOccurrences(Map(SocatKey, pairs)))
  }

  function SocatCommand(k: ProtoPort, udpSeconds: int, halfClose: string, rangeOptions: string,
                        target: string): string {
    if k.protocol == UDP then
      "socat -T " + Itoa(udpSeconds) + " "
      + ("UDP-LISTEN:" + Itoa(k.port) + ",fork,reuseaddr" + rangeOptions) + " "
      + ("UDP:" + target + ":" + Itoa(k.port)) + " & "
    else
      "socat " + halfClose
      + ("TCP-LISTEN:" + Itoa(k.port) + ",fork,reuseaddr" + rangeOptions) + " "
      + ("TCP:" + target + ":" + Itoa(k.port)) + " & "
  }

  function SocatCommands(keys: seq<ProtoPort>, udpSeconds: int, halfClose: string, rangeOptions: string,
                         target: string): string {
    if keys == [] then ""
    else
      SocatCommands(keys[..|keys| - 1], udpSeconds, halfClose, rangeOptions, target)
      + SocatCommand(keys[|keys| - 1], udpSeconds, halfClose, rangeOptions, target)
  }

  function UdpSeconds(h: HelperConfig): int {
    if h.udpSeconds <= 0 then DEFAULT_UDP_SECONDS else h.udpSeconds
  }

  function HalfCloseOption(h: HelperConfig): string {
    if h.halfClose.Some? then "-t " + h.halfClose.value + " " else ""
  }

  function Script(ranges: Range.Netip, h: HelperConfig, keys: seq<ProtoPort>): string {
    "trap 'kill 0' EXIT; "
    + SocatCommands(keys, UdpSeconds(h), HalfCloseOption(h), Range.SocatRangeOptions(ranges, h.sourceRange),
                    h.targetAddress)
    + "wait"
  }

  // ---------------------------------------------------------------------- ports

  /** `network.ParsePort` on the remote port and protocol: a port above 65535 is refused. */
  function PublishedPort(p: PortPair): Option<ProtoPort> {
    if 0 <= p.remotePort <= MAX_PORT then
      Some(ProtoPort(p.remotePort, ToLower(NormalizeProtocol(p.protocol))))
    else None
  }

  function HostBinding(netip: Netip, b: PortPair): PortBinding {
    PortBinding(netip(b.address), Itoa(b.localPort))
  }

  function AddBinding(m: map<ProtoPort, seq<PortBinding>>, k: ProtoPort, b: PortBinding):
    map<ProtoPort, seq<PortBinding>>
  {
    m[k := BindingsOn(m, k) + [b]]
  }

  /** The port map that publishes a list of bindings. */
  function PortMap(netip: Netip, bs: seq<PortPair>): map<ProtoPort, seq<PortBinding>> {
    if bs == [] then map[]
    else
      var b := bs[|bs| - 1];
      var m := PortMap(netip, bs[..|bs| - 1]);
      match PublishedPort(b)
      case None => m
      case Some(k) => AddBinding(m, k, HostBinding(netip, b))
  }

  function Exposed(pairs: seq<PortPair>): set<ProtoPort> {
    set p | p in pairs && PublishedPort(p).Some? :: PublishedPort(p).value
  }

  // --------------------------------------------------------------------- labels

  function BoundAddresses(bs: seq<PortPair>): set<string> {
    set b | b in bs && PublishedPort(b).Some? :: b.address
  }

  /** The plugin's labels as a map; the source range label comes on top when there is one. */
  function LabelMap(target: string, targetName: string, network: string, address: string, session: string, name: string,
                    ports: string, bindings: string, addresses: string): map<string, string> {
    map[
      LABEL_PORT_FORWARD := "true",
      LABEL_TARGET := target,
      LABEL_TARGET_NAME := targetName,
      LABEL_TARGET_NETWORK := network,
      LABEL_TARGET_ADDRESS := address,
      LABEL_SESSION := session,
      LABEL_NAME := name,
      LABEL_PORTS := ports,
      LABEL_BINDINGS := bindings,
      LABEL_ADDRESSES := addresses]
  }

  /** The labels the plugin sets itself. */
  function PluginLabels(ranges: Range.Netip, h: HelperConfig, addressList: string): map<string, string> {
    var labels := LabelMap(h.targetID, h.targetName, h.targetNetwork, h.targetAddress, h.session, h.name,
                           PairsText(h.pairs), BindingsText(h.pairs, h.addresses), addressList);
    var range := Range.RangeLabel(ranges, h.sourceRange);
    if range != "" then labels[LABEL_SOURCE_RANGE := range] else labels
  }

  /** A label's value, empty when it is not set. */
  function Label(labels: map<string, string>, key: string): string {
    if key in labels then labels[key] else ""
  }

  // ------------------------------------------------------------------- building

  /** The keys loop: each (remote port, protocol) once, then sorted. */
  method CollectKeys(pairs: seq<PortPair>) returns (keys: seq<ProtoPort>)
    ensures keys == SocatKeys(pairs)
  {
    var seen: set<ProtoPort> := {};
    keys := [];
    for i := 0 to |pairs|
      invariant keys == FirstOccurrences(Map(SocatKey, pairs[..i]))
      invariant forall k :: k in seen <==> k in keys
    {
      PrefixSnoc(pairs, i);
      MapSnoc(SocatKey, pairs[..i], pairs[i]);
      OccurrencesSnoc(Map(SocatKey, pairs[..i]), SocatKey(pairs[i]));
      var k := ProtoPort(pairs[i].remotePort, NormalizeProtocol(pairs[i].protocol));
      if k in seen {
        continue;
      }
      seen := seen + {k};
      keys := keys + [k];
    }
    assert pairs[..|pairs|] == pairs;
    keys := Sort(ProtoPortLess, keys);
  }

  /** The script loop: one socat per key, then `wait`. */
  method WriteScript(ranges: Range.Netip, h: HelperConfig, keys: seq<ProtoPort>) returns (script: string)
    ensures script == Script(ranges, h, keys)
  {
    var seconds := h.udpSeconds;
    if seconds <= 0 {
      seconds := DEFAULT_UDP_SECONDS;
    }
    var halfClose := HalfCloseOption(h);
    var rangeOptions := Range.SocatRangeOptions(ranges, h.sourceRange);
    var commands := "";
    for i := 0 to |keys|
      invariant commands == SocatCommands(keys[..i], seconds, halfClose, rangeOptions, h.targetAddress)
    {
      PrefixSnoc(keys, i);
      CommandsSnoc(keys[..i], keys[i], seconds, halfClose, rangeOptions, h.targetAddress);
      commands := commands + SocatCommand(keys[i], seconds, halfClose, rangeOptions, h.targetAddress);
    }
    assert keys[..|keys|] == keys;
    script := "trap 'kill 0' EXIT; " + commands + "wait";
  }

  lemma CommandsSnoc(keys: seq<ProtoPort>, k: ProtoPort, udpSeconds: int, halfClose: string, rangeOptions: string,
                     target: string)
    ensures SocatCommands(keys + [k], udpSeconds, halfClose, rangeOptions, target)
         == SocatCommands(keys, udpSeconds, halfClose, rangeOptions, target)
            + SocatCommand(k, udpSeconds, halfClose, rangeOptions, target)
  {
    assert (keys + [k])[..|keys|] == keys;
  }

  /** One pair's round of the publishing loop, over its addresses. */
  method PublishPair(netip: Netip, p: PortPair, port: ProtoPort, addrs: seq<string>, ghost done: seq<PortPair>,
                     bindings0: map<ProtoPort, seq<PortBinding>>, bound0: set<string>)
    returns (bindings: map<ProtoPort, seq<PortBinding>>, bound: set<string>)
    requires PublishedPort(p) == Some(port)
    requires bindings0 == PortMap(netip, done) && bound0 == BoundAddresses(done)
    ensures bindings == PortMap(netip, done + Pinned(p, addrs))
    ensures bound == BoundAddresses(done + Pinned(p, addrs))
  {
    bindings, bound := bindings0, bound0;
    assert done + Pinned(p, addrs[..0]) == done;
    for j := 0 to |addrs|
      invariant bindings == PortMap(netip, done + Pinned(p, addrs[..j]))
      invariant bound == BoundAddresses(done + Pinned(p, addrs[..j]))
    {
      PrefixSnoc(addrs, j);
      PublishSnoc(netip, done, p, addrs[..j], addrs[j]);
      bound := bound + {addrs[j]};
      bindings := AddBinding(bindings, port, PortBinding(netip(addrs[j]), Itoa(p.localPort)));
    }
    assert addrs[..|addrs|] == addrs;
  }

  lemma PublishSnoc(netip: Netip, done: seq<PortPair>, p: PortPair, addrs: seq<string>, a: string)
    requires PublishedPort(p).Some?
    ensures var before, after := done + Pinned(p, addrs), done + Pinned(p, addrs + [a]);
            && PortMap(netip, after) == AddBinding(PortMap(netip, before), PublishedPort(p).value,
                                                   PortBinding(netip(a), Itoa(p.localPort)))
            && BoundAddresses(after) == BoundAddresses(before) + {a}
  {
    var before, b := done + Pinned(p, addrs), p.(address := a);
    PinnedSnoc(p, addrs, a);
    var after := done + Pinned(p, addrs + [a]);
    assert after == before + [b];
    assert after[..|after| - 1] == before && after[|after| - 1] == b;
    BoundSnoc(before, b);
  }

  /** The recorded addresses are those of the bindings on a port up to 65535. */
  lemma BoundMeaning(bs: seq<PortPair>, a: string)
    ensures a in BoundAddresses(bs) <==> exists b :: b in bs && 0 <= b.remotePort <= 65535 && b.address == a
  {
  }

  lemma BoundSnoc(bs: seq<PortPair>, b: PortPair)
    ensures BoundAddresses(bs + [b]) == BoundAddresses(bs) + if PublishedPort(b).Some? then {b.address} else {}
  {
    forall a
      ensures a in BoundAddresses(bs + [b]) <==> a in BoundAddresses(bs) || (PublishedPort(b).Some? && a == b.address)
    {
      if a in BoundAddresses(bs) {
        var x :| x in bs && PublishedPort(x).Some? && x.address == a;
        assert x in bs + [b];
      }
      if PublishedPort(b).Some? {
        assert b in bs + [b];
      }
    }
  }

  /** A pair whose port is refused publishes nothing. */
  lemma {:induction false} RefusedPublishesNothing(netip: Netip, done: seq<PortPair>, p: PortPair, addrs: seq<string>)
    requires PublishedPort(p).None?
    ensures PortMap(netip, done + Pinned(p, addrs)) == PortMap(netip, done)
    ensures BoundAddresses(done + Pinned(p, addrs)) == BoundAddresses(done)
  {
    if addrs == [] {
      assert done + Pinned(p, addrs) == done;
    } else {
      var init, a := addrs[..|addrs| - 1], addrs[|addrs| - 1];
      RefusedPublishesNothing(netip, done, p, init);
      var bs := done + Pinned(p, addrs);
      assert bs == done + Pinned(p, init) + [p.(address := a)];
      assert bs[..|bs| - 1] == done + Pinned(p, init);
      BoundSnoc(done + Pinned(p, init), p.(address := a));
    }
  }

  /** The publishing loop over all pairs. */
  method PublishPorts(netip: Netip, pairs: seq<PortPair>, addresses: seq<string>)
    returns (exposed: set<ProtoPort>, bindings: map<ProtoPort, seq<PortBinding>>, bound: set<string>)
    ensures exposed == Exposed(pairs)
    ensures bindings == PortMap(netip, Bindings(pairs, addresses))
    ensures bound == BoundAddresses(Bindings(pairs, addresses))
  {
    exposed, bindings, bound := {}, map[], {};
    for i := 0 to |pairs|
      invariant exposed == Exposed(pairs[..i])
      invariant bindings == PortMap(netip, Bindings(pairs[..i], addresses))
      invariant bound == BoundAddresses(Bindings(pairs[..i], addresses))
    {
      var p, addrs := pairs[i], PairAddresses(pairs[i], addresses);
      ghost var done := Bindings(pairs[..i], addresses);
      PrefixSnoc(pairs, i);
      BindingsSnoc(pairs[..i], p, addresses);
      ExposedSnoc(pairs[..i], p);
      var port := PublishedPort(p);
      if port.None? {
        RefusedPublishesNothing(netip, done, p, addrs);
        continue;
      }
      exposed := exposed + {port.value};
      bindings, bound := PublishPair(netip, p, port.value, addrs, done, bindings, bound);
    }
    assert pairs[..|pairs|] == pairs;
  }

  lemma ExposedSnoc(pairs: seq<PortPair>, p: PortPair)
    ensures Exposed(pairs + [p]) == Exposed(pairs) + if PublishedPort(p).Some? then {PublishedPort(p).value} else {}
  {
    forall k
      ensures k in Exposed(pairs + [p]) <==> k in Exposed(pairs) || PublishedPort(p) == Some(k)
    {
      if k in Exposed(pairs) {
        var x :| x in pairs && PublishedPort(x) == Some(k);
        assert x in pairs + [p];
      }
      if PublishedPort(p) == Some(k) {
        assert p in pairs + [p];
      }
    }
  }

  /** The labels of a helper: the plugin's own, its addresses in order among them, and the user's on top. */
  ghost predicate LabelsOf(ranges: Range.Netip, labels: map<string, string>, h: HelperConfig) {
    exists list ::
      && Increasing(TextLess, list)
      && (forall a :: a in list <==> a in BoundAddresses(Bindings(h.pairs, h.addresses)))
      && labels == PluginLabels(ranges, h, Join(list, ',')) + h.extraLabels
  }

  /** `buildHelperContainerConfig`. User labels are added last and win over the plugin's own. */
  method BuildHelperConfig(netip: Netip, ranges: Range.Netip, h: HelperConfig) returns (c: HelperSpec)
    ensures c.script == Script(ranges, h, SocatKeys(h.pairs))
    ensures c.exposed == Exposed(h.pairs)
    ensures c.bindings == PortMap(netip, Bindings(h.pairs, h.addresses))
    ensures LabelsOf(ranges, c.labels, h)
    ensures c.networkMode == h.targetNetwork && c.autoRemove == !h.detach
    ensures c.restartPolicy == if h.detach then h.restartPolicy else RESTART_NO
  {
    var keys := CollectKeys(h.pairs);
    var script := WriteScript(ranges, h, keys);
    var exposed, bindings, bound := PublishPorts(netip, h.pairs, h.addresses);
    var list := SortedTexts(bound);
    var labels := PluginLabels(ranges, h, Join(list, ',')) + h.extraLabels;
    var restartPolicy := h.restartPolicy;
    if !h.detach {
      restartPolicy := RESTART_NO;
    }
    c := HelperSpec(script, labels, exposed, bindings, h.targetNetwork, !h.detach, restartPolicy);
  }

  /** The keys of a map of texts, collected in any order and sorted. */
  method SortedTexts(texts: set<string>) returns (out: seq<string>)
    ensures Increasing(TextLess, out)
    ensures forall t :: t in out <==> t in texts
  {
    var rest := texts;
    out := [];
    while rest != {}
      invariant NoRepeats(out)
      invariant forall t :: t in out <==> t in texts && t !in rest
      invariant rest <= texts
      decreases rest
    {
      var t :| t in rest;
      out := out + [t];
      rest := rest - {t};
    }
    TextOrder();
    SortSorts(TextLess, out);
    out := Sort(TextLess, out);
  }

  // ------------------------------------------------------------------ properties

  /** Some pair is forwarded to this container port. */
  ghost predicate Forwards(pairs: seq<PortPair>, k: ProtoPort) {
    exists p :: p in pairs && OnPort(p, k)
  }

  /** The pair's container port, over tcp unless it says otherwise. */
  predicate OnPort(p: PortPair, k: ProtoPort) {
    p.remotePort == k.port && k.protocol == if p.protocol == "" then "tcp" else p.protocol
  }

  /** The keys are exactly the pairs' container ports, each once, in strictly increasing order. */
  lemma SocatKeysMeaning(pairs: seq<PortPair>, k: ProtoPort)
    ensures Increasing(ProtoPortLess, SocatKeys(pairs))
    ensures k in SocatKeys(pairs) <==> Forwards(pairs, k)
  {
    var ks := Map(SocatKey, pairs);
    OccurrencesMeaning(ks);
    ProtoPortOrder();
    SortSorts(ProtoPortLess, FirstOccurrences(ks));
    if k in ks {
      var i :| 0 <= i < |ks| && ks[i] == k;
      assert OnPort(pairs[i], k);
    }
    if p :| p in pairs && OnPort(p, k) {
      var i :| 0 <= i < |pairs| && pairs[i] == p;
      assert ks[i] == k;
    }
  }

  /** Permuting or repeating pairs leaves the script unchanged. */
  lemma ScriptIsCanonical(ranges: Range.Netip, h: HelperConfig, other: seq<PortPair>)
    requires forall k :: Forwards(h.pairs, k) <==> Forwards(other, k)
    ensures Script(ranges, h, SocatKeys(h.pairs)) == Script(ranges, h.(pairs := other), SocatKeys(other))
  {
    forall k
      ensures k in SocatKeys(h.pairs) <==> k in SocatKeys(other)
    {
      SocatKeysMeaning(h.pairs, k);
      SocatKeysMeaning(other, k);
    }
    SocatKeysMeaning(h.pairs, ProtoPort(0, ""));
    SocatKeysMeaning(other, ProtoPort(0, ""));
    ProtoPortOrder();
    IncreasingIsUnique(ProtoPortLess, SocatKeys(h.pairs), SocatKeys(other));
  }

  /** The binding of a pair on one port, or nothing when it is published on another. */
  function PublishedOn(netip: Netip, k: ProtoPort): PortPair -> Option<PortBinding> {
    b => if PublishedPort(b) == Some(k) then Some(HostBinding(netip, b)) else None
  }

  function BindingsOn(m: map<ProtoPort, seq<PortBinding>>, k: ProtoPort): seq<PortBinding> {
    if k in m then m[k] else []
  }

  /** The port map groups the bindings by port and keeps their order. */
  lemma {:induction false} PortMapMeaning(netip: Netip, bs: seq<PortPair>, k: ProtoPort)
    ensures k in PortMap(netip, bs) <==> exists b :: b in bs && PublishedPort(b) == Some(k)
    ensures BindingsOn(PortMap(netip, bs), k) == FilterMap(PublishedOn(netip, k), bs)
  {
    if bs != [] {
      var init, b := bs[..|bs| - 1], bs[|bs| - 1];
      assert bs == init + [b];
      PortMapMeaning(netip, init, k);
      FilterMapSnoc(PublishedOn(netip, k), init, b);
    }
  }

  lemma ValidPublishes(netip: Netip, p: PortPair)
    requires ValidPair(netip, p)
    ensures PublishedPort(p) == Some(SocatKey(p))
    ensures PublishedPort(Normalized(p)) == PublishedPort(p)
  {
    ProtocolText(TCP);
    ProtocolText(UDP);
    TrimFixed(TCP);
    TrimFixed(UDP);
  }

  lemma {:induction false} BindingMembers(pairs: seq<PortPair>, defaults: seq<string>, b: PortPair)
    ensures b in Bindings(pairs, defaults) <==>
            exists p :: p in pairs && b.address in PairAddresses(p, defaults) && b == p.(address := b.address)
  {
    if pairs != [] {
      var init, q := pairs[..|pairs| - 1], pairs[|pairs| - 1];
      assert pairs == init + [q];
      BindingMembers(init, defaults, b);
      PinnedMembers(q, PairAddresses(q, defaults), b);
    }
  }

  /** What is bound: each pair on every address that its own address or the defaults stand for. */
  lemma BindingMeaning(pairs: seq<PortPair>, defaults: seq<string>, b: PortPair)
    ensures b in Bindings(pairs, defaults) <==>
            exists p :: p in pairs && b == p.(address := b.address) && BoundOn(p, defaults, b.address)
  {
    BindingMembers(pairs, defaults, b);
    forall p
      ensures b.address in PairAddresses(p, defaults) <==> BoundOn(p, defaults, b.address)
    {
      PairAddressesMeaning(p, defaults, b.address);
    }
  }

  /** Where a binding is published: on a port up to 65535, its protocol in lower case and tcp by default. */
  lemma PublishedPortMeaning(b: PortPair, k: ProtoPort)
    ensures PublishedPort(b) == Some(k) <==>
            && 0 <= b.remotePort <= 65535 && k.port == b.remotePort
            && k.protocol == ToLower(if b.protocol == "" then "tcp" else b.protocol)
  {
  }

  lemma PinnedMembers(p: PortPair, addrs: seq<string>, b: PortPair)
    ensures b in Pinned(p, addrs) <==> b.address in addrs && b == p.(address := b.address)
  {
    if b.address in addrs && b == p.(address := b.address) {
      var i :| 0 <= i < |addrs| && addrs[i] == b.address;
      assert Pinned(p, addrs)[i] == b;
    }
  }

  /** A valid address of a pair stands for at least one concrete address. */
  lemma ValidExpands(netip: Netip, p: PortPair, defaults: seq<string>)
    requires Lawful(netip) && ValidPair(netip, p) && Expanded(defaults) != []
    ensures PairAddresses(p, defaults) != []
  {
    if p.address != "" {
      assert netip(p.address).Some? ==> LiteralShape(p.address);
      var c := if ':' in p.address then ':' else p.address[0];
      assert c in p.address && !IsSpace(c);
      TrimKeeps(p.address, c);
      OneExpands(p.address);
    }
  }

  lemma OneExpands(a: string)
    requires TrimSpace(a) != ""
    ensures Expanded([a]) != []
  {
    ConcreteSnoc([], a);
    assert [] + [a] == [a];
    OccurrencesMeaning(OneAddress(a));
    assert OneAddress(a)[0] in OneAddress(a);
  }

  /**
   For valid pairs the socat listeners, the exposed ports and the published ports
   are the same ports.
   */
  lemma ConfigIsCoherent(netip: Netip, pairs: seq<PortPair>, defaults: seq<string>, k: ProtoPort)
    requires Lawful(netip) && Expanded(defaults) != []
    requires forall p :: p in pairs ==> ValidPair(netip, p)
    ensures k in SocatKeys(pairs) <==> k in Exposed(pairs)
    ensures k in SocatKeys(pairs) <==> k in PortMap(netip, Bindings(pairs, defaults))
  {
    SocatKeysMeaning(pairs, k);
    PortMapMeaning(netip, Bindings(pairs, defaults), k);
    ExposedMeaning(netip, pairs, k);
    PublishedMeaning(netip, pairs, defaults, k);
  }

  lemma ExposedMeaning(netip: Netip, pairs: seq<PortPair>, k: ProtoPort)
    requires forall p :: p in pairs ==> ValidPair(netip, p)
    ensures k in Exposed(pairs) <==> Forwards(pairs, k)
  {
    forall p | p in pairs
      ensures PublishedPort(p) == Some(SocatKey(p))
    {
      ValidPublishes(netip, p);
    }
    if p :| p in pairs && OnPort(p, k) {
      assert PublishedPort(p) == Some(k);
    }
  }

  lemma PublishedMeaning(netip: Netip, pairs: seq<PortPair>, defaults: seq<string>, k: ProtoPort)
    requires Lawful(netip) && Expanded(defaults) != []
    requires forall p :: p in pairs ==> ValidPair(netip, p)
    ensures (exists b :: b in Bindings(pairs, defaults) && PublishedPort(b) == Some(k)) <==> Forwards(pairs, k)
  {
    if p :| p in pairs && OnPort(p, k) {
      ValidPublishes(netip, p);
      ValidExpands(netip, p, defaults);
      var b := p.(address := PairAddresses(p, defaults)[0]);
      BindingMembers(pairs, defaults, b);
      assert PublishedPort(b) == Some(k);
    }
    if b :| b in Bindings(pairs, defaults) && PublishedPort(b) == Some(k) {
      BindingMembers(pairs, defaults, b);
      var p :| p in pairs && b == p.(address := b.address);
      ValidPublishes(netip, p);
    }
  }

  lemma {:induction false} NormalizedPublish(netip: Netip, k: ProtoPort, bs: seq<PortPair>)
    requires forall b :: b in bs ==> ValidPair(netip, b)
    ensures FilterMap(PublishedOn(netip, k), NormalizedAll(bs)) == FilterMap(PublishedOn(netip, k), bs)
  {
    if bs != [] {
      var init, b := bs[..|bs| - 1], bs[|bs| - 1];
      assert bs == init + [b];
      NormalizedPublish(netip, k, init);
      ValidPublishes(netip, b);
      MapSnoc(Normalized, init, b);
      FilterMapSnoc(PublishedOn(netip, k), init, b);
      FilterMapSnoc(PublishedOn(netip, k), NormalizedAll(init), Normalized(b));
    }
  }

  /**
   The bindings label records what is published: on every port, the published
   bindings are those of the decoded label, in the label's order.
   */
  lemma LabelMatchesPublished(netip: Netip, pairs: seq<PortPair>, defaults: seq<string>, k: ProtoPort)
    requires Lawful(netip)
    requires forall b :: b in Bindings(pairs, defaults) ==> Recordable(netip, b)
    ensures BindingsOn(PortMap(netip, Bindings(pairs, defaults)), k)
         == FilterMap(PublishedOn(netip, k), DecodedBindings(netip, BindingsText(pairs, defaults)))
  {
    var bs := Bindings(pairs, defaults);
    BindingListRoundTrip(netip, pairs, defaults);
    NormalizedPublish(netip, k, bs);
    PortMapMeaning(netip, bs, k);
  }

  /**
   Every binding is published: on its remote port, for its address, on a host port
   that reads back as its local port.
   */
  lemma BindingIsPublished(netip: Netip, bs: seq<PortPair>, b: PortPair)
    requires b in bs && ValidPair(netip, b)
    ensures var m := PortMap(netip, bs);
            var k := ProtoPort(b.remotePort, if b.protocol == "udp" then "udp" else "tcp");
            k in m && exists x :: x in m[k] && x.hostIP == netip(b.address) && Atoi(x.hostPort) == Some(b.localPort)
  {
    var k := ProtoPort(b.remotePort, NormalizeProtocol(b.protocol));
    ValidPublishes(netip, b);
    PortMapMeaning(netip, bs, k);
    FilterMapMembers(PublishedOn(netip, k), bs, HostBinding(netip, b));
    AtoiItoa(b.localPort);
    var x := HostBinding(netip, b);
    assert x in PortMap(netip, bs)[k];
  }

  /** And nothing else is published. */
  lemma PublishedIsBinding(netip: Netip, bs: seq<PortPair>, k: ProtoPort, x: PortBinding) returns (b: PortPair)
    requires k in PortMap(netip, bs) && x in PortMap(netip, bs)[k]
    ensures b in bs && x == PortBinding(netip(b.address), Itoa(b.localPort))
    ensures k == ProtoPort(b.remotePort, ToLower(if b.protocol == "" then "tcp" else b.protocol))
  {
    PortMapMeaning(netip, bs, k);
    FilterMapMembers(PublishedOn(netip, k), bs, x);
    var i :| 0 <= i < |bs| && PublishedOn(netip, k)(bs[i]) == Some(x);
    b := bs[i];
  }

  /** A valid binding has no host IP exactly when its address is `*`. */
  lemma ZeroHostIP(netip: Netip, pairs: seq<PortPair>, defaults: seq<string>, b: PortPair)
    requires Lawful(netip) && b in Bindings(pairs, defaults) && ValidPair(netip, b)
    ensures HostBinding(netip, b).hostIP.None? <==> b.address == ALL_INTERFACES
  {
    BindingIsConcrete(pairs, defaults, b);
    assert netip(ALL_INTERFACES).Some? ==> LiteralShape(ALL_INTERFACES) && '*' in ALL_INTERFACES;
  }

  lemma BindingIsConcrete(pairs: seq<PortPair>, defaults: seq<string>, b: PortPair)
    requires b in Bindings(pairs, defaults)
    ensures b.address != "" && b.address != LOCALHOST
  {
    BindingMembers(pairs, defaults, b);
    var p :| p in pairs && b.address in PairAddresses(p, defaults);
    ExpandedIsConcrete(if p.address != "" then [p.address] else defaults, b.address);
  }
}
