/** What the labels of a new helper say, and when user labels may change it. */
module Labels {
  import opened Wrappers
  import opened Text
  import opened Order
  import opened Ports
  import opened Codec
  import opened Config
  import opened World
  import opened Drift
  import Range = SourceRange

  const PLUGIN_KEYS := {
    LABEL_PORT_FORWARD, LABEL_TARGET, LABEL_SESSION, LABEL_NAME, LABEL_PORTS, LABEL_ADDRESSES, LABEL_BINDINGS,
    LABEL_TARGET_NAME, LABEL_TARGET_NETWORK, LABEL_TARGET_ADDRESS, LABEL_SOURCE_RANGE
  }

  function RangeOf(c: Container): string {
    Label(c.labels, LABEL_SOURCE_RANGE)
  }

  /** User labels that leave the plugin's own alone. */
  predicate KeepsPluginLabels(extra: map<string, string>) {
    extra.Keys !! PLUGIN_KEYS
  }

  lemma LabelLengths()
    ensures |LABEL_PORT_FORWARD| == 22 && |LABEL_NAME| == 27 && |LABEL_PORTS| == 28 && |LABEL_TARGET| == 29
    ensures |LABEL_SESSION| == 30 && |LABEL_BINDINGS| == 31 && |LABEL_ADDRESSES| == 32 && |LABEL_TARGET_NAME| == 34
    ensures |LABEL_SOURCE_RANGE| == 35 && |LABEL_TARGET_NETWORK| == 37 && |LABEL_TARGET_ADDRESS| == 37
    ensures LABEL_TARGET_NETWORK != LABEL_TARGET_ADDRESS
  {
    assert LABEL_TARGET_NETWORK[30] == 'n' && LABEL_TARGET_ADDRESS[30] == 'a';
  }

  /** A map over keys that their lengths tell apart, but for two that simply differ. */
  lemma TenKeys(a: string, b: string, c: string, d: string, e: string, f: string, g: string, h: string, i: string,
                j: string,
                v: seq<string>)
    requires |v| == 10
    requires |a| == 22 && |b| == 29 && |c| == 34 && |d| == 37 && |e| == 37 && d != e
    requires |f| == 30 && |g| == 27 && |h| == 28 && |i| == 31 && |j| == 32
    ensures var m := map[a := v[0], b := v[1], c := v[2], d := v[3], e := v[4],
                         f := v[5], g := v[6], h := v[7], i := v[8], j := v[9]];
            && m.Keys == {a, b, c, d, e, f, g, h, i, j}
            && m[a] == v[0] && m[b] == v[1] && m[c] == v[2] && m[d] == v[3] && m[e] == v[4] && m[h] == v[7]
            && m[i] == v[8]
  {
  }

  lemma LabelMapValues(target: string, targetName: string, network: string, address: string, session: string,
                       name: string,
                       ports: string, bindings: string, addresses: string)
    ensures var m := LabelMap(target, targetName, network, address, session, name, ports, bindings, addresses);
            && Label(m, LABEL_PORT_FORWARD) == "true" && Label(m, LABEL_TARGET) == target
            && Label(m, LABEL_TARGET_NETWORK) == network && Label(m, LABEL_TARGET_ADDRESS) == address
            && Label(m, LABEL_PORTS) == ports && Label(m, LABEL_BINDINGS) == bindings
            && Label(m, LABEL_TARGET_NAME) == targetName && LABEL_SOURCE_RANGE !in m
            && Label(m, LABEL_SESSION) == session && Label(m, LABEL_NAME) == name
            && Label(m, LABEL_ADDRESSES) == addresses
  {
    LabelLengths();
    TenKeys(LABEL_PORT_FORWARD, LABEL_TARGET, LABEL_TARGET_NAME, LABEL_TARGET_NETWORK, LABEL_TARGET_ADDRESS,
            LABEL_SESSION, LABEL_NAME, LABEL_PORTS, LABEL_BINDINGS, LABEL_ADDRESSES,
            ["true", target, targetName, network, address, session, name, ports, bindings, addresses]);
  }

  /** The labels the protocol reads back from the plugin's own. */
  lemma PluginLabelValues(ranges: Range.Netip, h: HelperConfig, list: string)
    ensures var l := PluginLabels(ranges, h, list);
            && Label(l, "com.dokku.port-forward") == "true"
            && Label(l, "com.dokku.port-forward.target") == h.targetID
            && Label(l, "com.dokku.port-forward.target-network") == h.targetNetwork
            && Label(l, "com.dokku.port-forward.target-address") == h.targetAddress
            && Label(l, "com.dokku.port-forward.ports") == PairsText(h.pairs)
            && Label(l, "com.dokku.port-forward.bindings") == BindingsText(h.pairs, h.addresses)
            && Label(l, "com.dokku.port-forward.target-name") == h.targetName
            && Label(l, "com.dokku.port-forward.source-range") == Range.RangeLabel(ranges, h.sourceRange)
            && Label(l, "com.dokku.port-forward.session") == h.session
            && Label(l, "com.dokku.port-forward.name") == h.name
            && Label(l, "com.dokku.port-forward.addresses") == list
  {
    LabelLengths();
    LabelMapValues(h.targetID, h.targetName, h.targetNetwork, h.targetAddress, h.session, h.name,
                   PairsText(h.pairs), BindingsText(h.pairs, h.addresses), list);
  }

  lemma AllPluginKeys()
    ensures "com.dokku.port-forward" in PLUGIN_KEYS && "com.dokku.port-forward.name" in PLUGIN_KEYS
    ensures "com.dokku.port-forward.target" in PLUGIN_KEYS && "com.dokku.port-forward.target-name" in PLUGIN_KEYS
    ensures "com.dokku.port-forward.ports" in PLUGIN_KEYS && "com.dokku.port-forward.bindings" in PLUGIN_KEYS
    ensures "com.dokku.port-forward.source-range" in PLUGIN_KEYS && "com.dokku.port-forward.addresses" in PLUGIN_KEYS
  {
  }

  /** User labels win over the plugin's own, key by key. */
  lemma ExtraLabelWins(plugin: map<string, string>, extra: map<string, string>, key: string)
    ensures Label(plugin + extra, key) == if key in extra then extra[key] else Label(plugin, key)
  {
  }

  /** What a helper's labels say: the user's own as they are, and beside them what it was made from. */
  lemma LabelsMeaning(ranges: Range.Netip, labels: map<string, string>, h: HelperConfig)
    requires LabelsOf(ranges, labels, h)
    ensures forall key :: key in h.extraLabels ==> key in labels && labels[key] == h.extraLabels[key]
    ensures KeepsPluginLabels(h.extraLabels) ==>
              && Label(labels, "com.dokku.port-forward") == "true"
              && Label(labels, "com.dokku.port-forward.name") == h.name
              && Label(labels, "com.dokku.port-forward.target") == h.targetID
              && Label(labels, "com.dokku.port-forward.target-name") == h.targetName
              && Label(labels, "com.dokku.port-forward.ports") == PairsText(h.pairs)
              && Label(labels, "com.dokku.port-forward.bindings") == BindingsText(h.pairs, h.addresses)
              && Label(labels, "com.dokku.port-forward.source-range") == Range.RangeLabel(ranges, h.sourceRange)
    ensures KeepsPluginLabels(h.extraLabels) ==>
              exists list ::
                && Label(labels, "com.dokku.port-forward.addresses") == Join(list, ',')
                && Increasing(TextLess, list)
                && forall a :: a in list <==> a in BoundAddresses(Bindings(h.pairs, h.addresses))
  {
    var list :| Increasing(TextLess, list)
                && (forall a :: a in list <==> a in BoundAddresses(Bindings(h.pairs, h.addresses)))
                && labels == PluginLabels(ranges, h, Join(list, ',')) + h.extraLabels;
    PluginLabelValues(ranges, h, Join(list, ','));
    if KeepsPluginLabels(h.extraLabels) {
      var plugin := PluginLabels(ranges, h, Join(list, ','));
      forall key | key in PLUGIN_KEYS
        ensures Label(labels, key) == Label(plugin, key)
      {
        ExtraLabelWins(plugin, h.extraLabels, key);
      }
      AllPluginKeys();
    }
  }

  /** What a helper made from a configuration remembers. */
  predicate Remembers(c: Container, ranges: Range.Netip, h: HelperConfig) {
    && IsHelper(c) && TargetOf(c) == h.targetID && NetworkOf(c) == h.targetNetwork && AddressOf(c) == h.targetAddress
    && Label(c.labels, LABEL_PORTS) == PairsText(h.pairs)
    && RangeOf(c) == Range.RangeLabel(ranges, h.sourceRange)
  }

  lemma NewHelperRemembers(c: Container, ranges: Range.Netip, h: HelperConfig, list: string)
    requires c.labels == PluginLabels(ranges, h, list) + h.extraLabels
    requires KeepsPluginLabels(h.extraLabels)
    ensures Remembers(c, ranges, h)
  {
    PluginLabelValues(ranges, h, list);
    var plugin := PluginLabels(ranges, h, list);
    assert LABEL_PORT_FORWARD in PLUGIN_KEYS && LABEL_TARGET in PLUGIN_KEYS && LABEL_PORTS in PLUGIN_KEYS;
    assert LABEL_TARGET_NETWORK in PLUGIN_KEYS && LABEL_TARGET_ADDRESS in PLUGIN_KEYS;
    assert LABEL_SOURCE_RANGE in PLUGIN_KEYS;
    ExtraLabelWins(plugin, h.extraLabels, LABEL_PORT_FORWARD);
    ExtraLabelWins(plugin, h.extraLabels, LABEL_TARGET);
    ExtraLabelWins(plugin, h.extraLabels, LABEL_TARGET_NETWORK);
    ExtraLabelWins(plugin, h.extraLabels, LABEL_TARGET_ADDRESS);
    ExtraLabelWins(plugin, h.extraLabels, LABEL_PORTS);
    ExtraLabelWins(plugin, h.extraLabels, LABEL_SOURCE_RANGE);
  }

  /**
   For any extra labels, the helper remembers its configuration exactly when every
   label the protocol reads back keeps its value or is left out of the extra labels.
   */
  lemma RemembersExactly(c: Container, ranges: Range.Netip, h: HelperConfig, list: string)
    requires c.labels == PluginLabels(ranges, h, list) + h.extraLabels
    ensures Remembers(c, ranges, h) <==>
            var e := h.extraLabels;
            && (LABEL_PORT_FORWARD in e ==> e[LABEL_PORT_FORWARD] == "true")
            && (LABEL_TARGET in e ==> e[LABEL_TARGET] == h.targetID)
            && (LABEL_TARGET_NETWORK in e ==> e[LABEL_TARGET_NETWORK] == h.targetNetwork)
            && (LABEL_TARGET_ADDRESS in e ==> e[LABEL_TARGET_ADDRESS] == h.targetAddress)
            && (LABEL_PORTS in e ==> e[LABEL_PORTS] == PairsText(h.pairs))
            && (LABEL_SOURCE_RANGE in e ==> e[LABEL_SOURCE_RANGE] == Range.RangeLabel(ranges, h.sourceRange))
  {
    PluginLabelValues(ranges, h, list);
    var plugin := PluginLabels(ranges, h, list);
    ExtraLabelWins(plugin, h.extraLabels, LABEL_PORT_FORWARD);
    ExtraLabelWins(plugin, h.extraLabels, LABEL_TARGET);
    ExtraLabelWins(plugin, h.extraLabels, LABEL_TARGET_NETWORK);
    ExtraLabelWins(plugin, h.extraLabels, LABEL_TARGET_ADDRESS);
    ExtraLabelWins(plugin, h.extraLabels, LABEL_PORTS);
    ExtraLabelWins(plugin, h.extraLabels, LABEL_SOURCE_RANGE);
  }
}
