# docker-port-forward: a verified model

The plugin forwards host ports to a running container by starting a small helper
container beside it. The Docker daemon is its only database: which helper serves which
target, on which ports, for which clients and over which network is remembered in labels
on the helpers, written by one run and read back by the next. This project models that
protocol, the codecs its memory rests on, and the parsers around it, and proves what a
run does to the daemon and what every sequence of runs keeps.

| module | what it models |
|---|---|
| `Text`, `Order`, `Wrappers` | strings, numbers, sorting and error values as Go's library provides them |
| `Ports` | port specs, read and written (`internal/ports.go`) |
| `Codec` | the pair list and the binding list kept in labels |
| `SourceRange` | client ranges and the labels they are compared by |
| `Probe` | the parser of `/proc/net` socket tables |
| `Socat` | what the helper's script says, read as the shell and socat read it |
| `Config`, `Labels` | the helper's script, exposed ports, port bindings and labels, and what the labels say when read back |
| `World`, `Daemon` | the daemon's state, and the client as a class whose methods change it |
| `Drift` | when a helper no longer reaches its target, and which orphaned helpers are removed |
| `Networks` | the network a helper joins and what it dials there |
| `Retry` | auto-allocated ports, preflight and the bounded retries |
| `Reconcile`, `Forward` | the reconcile loop and `StartForward` |
| `Cleanup` | listing and removing helpers |
| `History` | sequences of runs, cleanups and changes of the world |

## How the model reads

The daemon is `Daemon.Client`: a `world` (an ordered list of containers, and the networks
with their internal flag), a clock in milliseconds that only moves forward, the state of
the run's context, and ghost records: the removals and creations issued, each removal
with the world it was issued in, the results of the start calls, and when an attached run
found its context done. Every call may take time and may find its context done, the
run's own or one with a deadline; unless the client is `reliable` it may also fail for a
reason of its own. The loops and branches of the program are methods on that client, with
the same order of calls. In a history every run has a context of its own.

Address parsing is a parameter (`Ports.Netip`) that yields the canonical text of a
literal. What is assumed of it is stated by `Ports.Lawful`, lexical shape included: a
literal without a colon is dotted decimal, one with a colon is IPv6 and only its zone may
hold other characters. For source ranges (`SourceRange.Netip`) an address is a family, a
number of that family and a zone; `SourceRange.Lawful` says that zoneless addresses print
apart, in digits, dots and colons, and that a prefix is read back from its text. The host's sockets are a function of time, host part,
port and protocol (`Retry.Host`).

Premises of the statements about whole runs, each visible in a contract: container ids
and names are unique; the world changes only through the run itself; a container may
start, exit or go on its own only once a run has started it; a removal that is reported
as already in progress has taken the container out of the running ones; and a call that
is refused, or whose context is done, has had no effect. The clause about a successful run
(in `Forward.Achieved`) further assumes that the target is no running
helper itself, is found under its own name and is not named like an address, that the
user's labels leave the plugin's own keys alone, and that protocols are tcp, udp or empty.
The remaining clauses hold without them, or say which one they need. The statements
about the script (`Socat`) assume that the target's name or address and the half-close
timeout hold no white space (`Socat.PlainWords`, `Forward.PlainRun`).

## Main results

- **One run.** `Forward.StartForward` states from any starting world when there is
  nothing to do (`Forward.NothingToDo`); what the run does to the daemon
  (`Forward.Traced`: which removals it may make and in which world each was justified,
  what it creates, what stays as it was, and what a failed or attached run leaves behind);
  and what it achieves (`Forward.Achieved`: what success means, which helpers are gone,
  and which errors are left, and why, when the daemon works). All of it is about the
  request's own pairs, on failing runs too. `Forward.GoneWasJustified` and
  `Forward.GoneWasDue` spell out what a run may take away and why,
  `Forward.NothingToDoMeaning` when it must reuse a helper, `Forward.FailureMeaning` what
  can still go wrong, and `History.ForwardedMeaning`, `Forward.EveryPairIsPublished` and
  `Forward.EveryPairIsServed` what the helper it returns forwards.
- **Idempotence.** `History.ForwardTwice`: the same request again reuses the same helper
  and leaves the daemon untouched.
- **Whole histories.** `History.RunHistory`: no sequence of runs, cleanups and changes of
  the world makes two running helpers of one target share a forward, whatever fails.
  `History.ForwardAfter` is about the run after any other, an attached one included, from
  the world that one leads to.
- **Termination.** `Reconcile.ReconcileLoop` ends within one more round than the target
  had running helpers; the retries are bounded by timeout/200ms + 2.
- **Memory.** `Codec.PairListRoundTrip`, `Codec.BindingListRoundTrip` and
  `Ports.SpecRoundTrip` are exact conditions for every input, not for valid input only;
  `World.OverlapAgreement` and `SourceRange.RangeLabelsAreCanonical` carry them to the
  comparisons the protocol makes.
- **What is written means what it should.** `Socat.ScriptIsRead` reads the script back
  with a reader of its own; `Drift.StaleCases`, `Networks.PickMeaning`,
  `SourceRange.RangeMeaning`, `Ports.SpecMeaning`, `World.OverlappingIsFirst` and
  `Cleanup.CoveredByName` say in terms of containers, labels and literals what the
  protocol's decisions are.
- **Agreement of what is derived.** `Config.ConfigIsCoherent`,
  `Config.LabelMatchesPublished`, `Networks.PickedIsFresh`, `Probe.ProbeIsExact`; and
  `Probe.ListenersMeaning` for text of any kind.

Where the code does less than its comments or tests suggest, the condition is stated and
proved in both directions:

- A pair whose IPv6 zone holds `]`, or holds `/` while the protocol is tcp, is not read
  back from the text it prints as (`Ports.SpecRoundTrip`; `Ports.SlashInZoneExample`,
  `Ports.SlashReadExample` and `Ports.BracketInZoneExample` give the inputs). A comma in a
  zone breaks the binding list too (`Codec.BindingListRoundTrip`,
  `Codec.CommaInZoneExample`).
- A target named like an address it does not have makes its helper stale at once
  (`Networks.PickedIsFresh`, `Networks.AddressNameExample`).
- The removal after a failed start runs under the run's own context, and the teardown of
  an attached run under a deadline of ten seconds for stopping and removing together. So
  something of a helper stays exactly in two cases: after a failed start when the context
  was done by then, and after an attached run when the ten seconds had passed and
  stopping had not already made the helper go (`Forward.NoLeak`).
- User labels overwrite the plugin's own; what is then remembered is decided key by key
  (`Labels.RemembersExactly`).
- Starting a stopped helper keeps the history invariant exactly when it shares no forward
  with another running helper of its target (`History.RestartExactly`).

## Model

| member | source | states |
|---|---|---|
| Ports.SuffixForms | internal/ports.go:126-156 | a protocol is stripped exactly when there is no slash, or when what follows the last one is tcp or udp in any case and something is left before it |
| Ports.SuffixErrors | internal/ports.go:144-154 | an unknown suffix is refused before an empty rest, each exactly in its case |
| Ports.CutProtocol | internal/ports.go:140-156 | the step-by-step rewriting yields the rest and protocol of that form, and fails only on a spec that has none |
| Ports.CutAddress | internal/ports.go:158-194 | the step-by-step split agrees with the split the grammar lemma characterises |
| Ports.SplitSpecForms | internal/ports.go:117-132 | a body is split into address, local and remote exactly along one of the documented forms, `[IPV6]:`, `ADDRESS:`, `:LOCAL:REMOTE` for all interfaces, `LOCAL:REMOTE` or `REMOTE` alone |
| Ports.ParsePortSpec | internal/ports.go:133-219 | the imperative parser returns the meaning of the spec the round-trip lemmas are about, errors included |
| Ports.SpecMeaning | internal/ports.go:133-219 | a spec stands for a pair exactly when its suffix and its parts follow the documented forms, the address is none, `localhost`, `*` or a literal, the remote port is a numeral from 1 to 65535 and the local port one from 0, or empty for 0 |
| Ports.PortNumberMeaning | internal/ports.go:238-247 | a port is a decimal numeral, with an optional sign and leading zeros, from 0 to 65535, and nothing else |
| Ports.PartsErrors | internal/ports.go:196-216 | a bad address, a zero, unreadable or too large remote port and a bad local port are refused in that order, each exactly in its case |
| Ports.ParsePortSpecs | internal/ports.go:223-236 | succeeds exactly on a non-empty list of readable specs, with every result in place, and reports the first spec that is refused |
| Ports.ValidateAddresses | internal/ports.go:101-115 | accepts a list exactly when every entry is valid and `*` stands alone |
| Ports.AcceptedIsValid | internal/ports.go:133-219 | every accepted spec denotes a valid pair with its protocol written out and no bracket in its address |
| Ports.SpecRoundTrip | internal/ports.go:48-68 | for every pair, valid or not, what it prints as is read back with its protocol normalised if and only if the pair is valid and its address unambiguous |
| Ports.ZonelessRoundTrip | internal/ports.go:48-68 | every valid pair whose address has no IPv6 zone is read back from what it prints as |
| Ports.ReadWriteRead | internal/ports.go:51-219 | reading, writing and reading again agrees with reading once, if and only if the pair is udp or its address has no slash |
| Ports.SlashMisread | internal/ports.go:140-156 | a slash in a tcp pair's zone is taken for a protocol suffix and the printed spec is refused |
| Ports.SlashInZoneExample | internal/ports.go:51-68 | a concrete pair with a slash in its zone, whose printed form is refused |
| Ports.SlashReadExample | internal/ports.go:133-219 | an accepted spec of that pair that reading, writing and reading again does not survive |
| Ports.BracketInZoneExample | internal/ports.go:51-77 | a concrete pair with a bracket in its zone that is not read back |
| Codec.EncodePortPairs | internal/forward.go:950-964 | the loop writes the list the round trip is about |
| Codec.TokenSuffix | internal/forward.go:955-963 | a token names its protocol exactly when that is not tcp |
| Codec.TokenForms | internal/forward.go:974-997 | a token is kept exactly when, trimmed, it reads LOCAL:REMOTE with integers and an optional /tcp or /udp after its last slash, and it stands for that pair |
| Codec.DecodeToken | internal/forward.go:975-997 | the step-by-step reading yields the pair of that form, and nothing exactly when there is none |
| Codec.DecodePortPairs | internal/forward.go:966-1000 | the loop keeps exactly the tokens that denote a pair, in order |
| Codec.DecodeConcat | internal/forward.go:974-998 | two lists joined by a comma decode to the two decodings in turn, malformed tokens or not |
| Codec.PairListRoundTrip | internal/forward.go:950-1000 | for all integer ports, a list is read back with addresses dropped and protocols normalised if and only if every protocol is tcp, udp or empty |
| Codec.ExpandAddresses | internal/forward.go:386-413 | the loop over a `seen` map yields the first occurrences of the concrete addresses |
| Codec.ExpansionMeaning | internal/forward.go:386-413 | every concrete address once, `localhost` standing for both loopback addresses and for an empty list |
| Codec.PairAddressesMeaning | internal/forward.go:377-413 | a pair is bound, once each, on the addresses its own address stands for, or else the defaults, or else both loopback addresses |
| Order.OccurrencesInOrder | internal/forward.go:392-411 | the expanded addresses keep the order of their first occurrences |
| Codec.ExpandedIsConcrete | internal/forward.go:377-413 | an address an expansion yields expands to itself |
| Codec.EncodeBindings | internal/forward.go:1002-1016 | the nested loop writes the ordered flattening of each pair over its own addresses |
| Codec.BindingsConcat | internal/forward.go:1006-1016 | the bindings of more pairs follow those of the first ones |
| Codec.DecodeBindings | internal/forward.go:1018-1033 | the loop keeps exactly the readable specs, in order |
| Codec.BindingListRoundTrip | internal/forward.go:1002-1033 | the list is read back as that flattening, protocols normalised, if and only if every binding is valid and its address unambiguous and free of commas |
| Codec.CommaInZoneExample | internal/forward.go:1002-1033 | a valid, unambiguous pair with a comma in its zone, whose binding is lost |
| SourceRange.MaskedMeaning | internal/source_range.go:9-12 | masking clears the host bits, admits the same clients and is idempotent |
| SourceRange.RangeMeaning | internal/source_range.go:9-35 | a value is accepted exactly when it is empty or the parser of its form accepts it; then it admits every client, the clients of its family with the value of the address, or those that share the leading bits of the CIDR |
| SourceRange.RangeLabelIsRead | internal/forward.go:586-593 | the label of an accepted value is itself accepted, and names the same range |
| SourceRange.ParsedIsMasked | internal/source_range.go:16-35 | an accepted value is empty exactly when it means no range, and is masked otherwise |
| SourceRange.MaskedIsCanonical | internal/source_range.go:9-12 | two masked prefixes that admit the same clients are the same prefix |
| SourceRange.TextIsInjective | internal/forward.go:586-593 | two prefixes print alike only when they are equal |
| SourceRange.RangeLabelsAreCanonical | internal/forward.go:206-225 | two accepted values have equal labels if and only if they admit the same clients, the empty value included, so comparing labels as strings compares admitted sets |
| SourceRange.OptionsAgreeWithLabels | internal/source_range.go:37-51 | two ranges restrict the listeners alike if and only if their labels agree |
| Probe.ParseHexAddr | internal/probe.go:181-210 | filling the buffer word by word succeeds exactly on 8 or 32 hexadecimal digits, with every byte where little-endian words put it |
| Probe.ParseHexWord | internal/probe.go:198-206 | one word is written backwards and nothing else in the buffer changes |
| Probe.DecodesOnce | internal/probe.go:184-210 | a text stands for one address only |
| Probe.HexRoundTrip | internal/probe.go:181-210 | reading inverts printing for every 4-byte and every 16-byte address |
| Probe.MappedLoopback | internal/probe.go:156-159 | an IPv4-mapped address is loopback exactly when the address it maps is |
| Probe.LoopbackMeaning | internal/probe.go:156-159 | loopback is 127/8, the same mapped into IPv6, and ::1, byte by byte |
| Probe.LoopbackText | internal/probe.go:181-210 | `0100007F` is 127.0.0.1 |
| Probe.ReadLine | internal/probe.go:138-164 | a line contributes the listener it reports in its section, or nothing |
| Probe.ExtractListeners | internal/probe.go:112-179 | exactly the listeners of the text, each once, strictly increasing by protocol and port |
| Probe.Collect | internal/probe.go:167-178 | collected in any order, the keys of the map come out sorted |
| Probe.ResultIsUnique | internal/probe.go:167-178 | there is one possible result, whatever order the map yields |
| Probe.ListenersMeaning | internal/probe.go:112-164 | in any text, well-formed or not, a listener is found exactly when some line reports it, with the listening state of its protocol, a hexadecimal address that is not loopback and a non-zero hexadecimal port, and the last marker before that line is one of its protocol |
| Probe.SectionsCompose | internal/probe.go:124-165 | the listeners of a text and of one that begins with a marker, joined by a newline, are the union of those of each |
| Probe.PreambleIsIgnored | internal/probe.go:124-136 | text before the first marker contributes nothing |
| Probe.KernelHeaders | internal/probe.go:138-149 | the column names of the IPv4 and the IPv6 tables, however padded, count as a header |
| Probe.ProbeIsExact | internal/probe.go:39-45 | on any tables, with or without a header, exactly the sockets in the listening state of their protocol, on a non-zero port and a non-loopback address |
| Config.CollectKeys | internal/forward.go:614-629 | the keys loop and its sort yield one sorted key per remote port and protocol |
| Config.SocatKeysMeaning | internal/forward.go:603-629 | the keys are exactly the pairs' container ports, strictly increasing |
| Order.ProtoPortsInOrder | internal/forward.go:624-629 | tcp ports come before udp ports, and lower ports before higher ones |
| Config.WriteScript | internal/forward.go:631-659 | the loop writes the script that the reader of `Socat` takes apart |
| Socat.ScriptIsRead | internal/forward.go:631-659 | read as shell and socat read it, the script runs one listener for each key, in order, on its port and protocol, for clients of the source range, dialling that port and protocol of the target, with `-T` and sixty seconds by default for udp and `-t` for tcp when it is set |
| Socat.ScriptServesPairs | internal/forward.go:603-659 | every pair has such a listener, and every listener a pair |
| Socat.ScriptIsInOrder | internal/forward.go:614-659 | the listeners are in order of protocol and port, so no port is listened on twice |
| Config.ScriptIsCanonical | internal/forward.go:614-659 | permuting or repeating pairs leaves the script unchanged |
| Config.PublishPorts | internal/forward.go:661-683 | the nested loop builds the exposed ports, the port map of the flattened bindings and their addresses |
| Config.PortMapMeaning | internal/forward.go:671-682 | a port is in the map exactly when a binding is published on it, with its bindings in order |
| Config.BindingMeaning | internal/forward.go:664-682 | what is published is each pair on every address that its own address or the defaults stand for |
| Config.PublishedIsBinding | internal/forward.go:664-682 | whatever is published is a binding, on its remote port and for its address and local port |
| Config.BuildHelperConfig | internal/forward.go:609-731 | script, exposed ports, bindings, labels, network mode, auto-removal and restart policy of the helper, user labels on top; what each of them says is the subject of the rows around this one |
| Config.SortedTexts | internal/forward.go:684-688 | the addresses come out sorted, each once, whatever order the map yields |
| Config.ConfigIsCoherent | internal/forward.go:609-683 | for valid pairs the socat keys, the exposed ports and the published ports are the same set |
| Config.LabelMatchesPublished | internal/forward.go:664-699 | on every port the published bindings are those the bindings label decodes to, in its order |
| Config.BindingIsPublished | internal/forward.go:671-682 | every valid binding is published on its remote port, for its address, on a host port that reads back as its local port |
| Config.ZeroHostIP | internal/forward.go:673-681 | a valid binding has no host IP exactly when its address is `*` |
| Labels.PluginLabelValues | internal/forward.go:690-704 | what each label the protocol reads back says |
| Labels.LabelsMeaning | internal/forward.go:684-707 | user labels are kept as they are, and unless they touch the plugin's own those say what the helper was made from, its published addresses in order among it |
| Labels.NewHelperRemembers | internal/forward.go:690-707 | with user labels outside the plugin's keys, a new helper remembers its configuration |
| Labels.RemembersExactly | internal/forward.go:690-707 | for any user labels, it does so if and only if each label read back is left alone or set to the same value |
| World.HelpersMembers | internal/forward.go:906-915 | the listed helpers are those labelled as helpers of the target, or all |
| World.HelpersMeaning | internal/forward.go:906-915 | the containers labelled as helpers and for the target, in the daemon's order |
| World.LookupMeaning | internal/drift.go:51-66 | a reference leads to the container of that id, or else of that name with or without its slash, or nowhere |
| World.OverlapAgreement | internal/forward.go:837-865 | on a label written for tcp and udp pairs, a helper overlaps a request if and only if one of its pairs and one requested agree on local port, remote port and protocol, whatever their addresses |
| World.OverlappingMeaning | internal/forward.go:841-865 | no helper is found exactly when no running helper of the target overlaps; a found one is running, of the target, and overlaps |
| World.FirstOverlapIsFirst | internal/forward.go:852-863 | the first overlapping running helper of the list is the one returned |
| World.OverlappingIsFirst | internal/forward.go:841-865 | the helper a request meets is the first running helper of the target, in the daemon's list, with a pair that agrees with one requested on local port, remote port and protocol, and none is met exactly when there is none |
| World.PrunedKeepsLookup | internal/forward.go:233-249 | removing running helpers leaves references to other containers alone |
| World.GrownKeepsLookup | internal/forward.go:288-296 | so does creating the helper |
| Daemon.Client.Remove | internal/forward.go:917-934 | a forced removal takes the container away, finds it gone or going, or changes nothing, and touches no other |
| Daemon.Client.Create | internal/forward.go:292-296 | a created container is added under an unused id and name, or nothing changes |
| Daemon.RemoveHelpers | internal/forward.go:917-934 | each id is removed in turn; what is gone or going counts, a refused removal changes nothing, and nothing else is touched |
| Drift.CheckHelper | internal/drift.go:29-83 | the calls made agree with staleness, which `Drift.StaleCases` takes apart |
| Drift.StaleCases | internal/drift.go:13-28 | missing labels are not stale; an internal network other than the bridge is; a dialled name is stale exactly when it leads to no container or one off the network; a dialled address exactly when the target is gone, or is running off the network or with another address there |
| Drift.OrphanMeaning | internal/drift.go:93-127 | an orphan is a running helper for another target, which is gone, with a requested local port and protocol |
| Drift.CollisionAgreement | internal/drift.go:93-127 | on written labels, a helper collides with a request if and only if they share a local port and protocol |
| Drift.EvictOrphan | internal/drift.go:113-137 | one round removes nothing but an orphan |
| Drift.RemoveOrphanedHelpers | internal/drift.go:93-139 | only helpers that were orphans when their removal was issued are removed, and nothing else changed by then; whatever is gone has its removal; a reliable daemon removes every orphan of the starting world; without orphans nothing is done |
| Networks.PickTargetNetwork | internal/forward.go:733-782 | unless a call fails, the search in sorted order returns what the choice is specified to be |
| Networks.PickRequestedNetwork | internal/forward.go:784-807 | a requested network is returned, or the reason it cannot be used |
| Networks.PickIsUnique | internal/forward.go:751-774 | the choice does not depend on map order |
| Networks.PickableMeaning | internal/forward.go:733-782 | without a request a network can be picked if and only if the target has an address on a user-defined network that is not internal, or on the bridge |
| Networks.PickMeaning | internal/forward.go:733-782 | without a request the usable network that is least by name is picked, and the bridge when none is usable; the helper dials the target's name, or its address on the bridge and for want of a name |
| Networks.PickErrors | internal/forward.go:744-782 | and each error exactly in its case |
| Networks.RequestMeaning | internal/forward.go:784-807 | a request yields that network exactly when the target has an address there and it is the bridge or known and not internal |
| Networks.RequestErrors | internal/forward.go:784-807 | and each refusal exactly in its case |
| Order.TextLessMeaning | internal/forward.go:751-758 | names are ordered as in a dictionary: the first difference decides, and a prefix comes first |
| Networks.PickedNetwork | internal/forward.go:744-825 | a picked network is attached, addressed, not internal, and the requested one if there is a request |
| Networks.PickedIsFresh | internal/drift.go:29-83 | a helper made for the network just picked is stale if and only if the running target's name is an address other than its own there |
| Networks.AddressNameExample | internal/drift.go:48-81 | a target named like an address it does not have, whose helper is stale at once |
| Retry.ResolveAutoPorts | internal/forward.go:335-375 | each pair keeps its own port or gets one in range, protocols are normalised, and the rest is unchanged |
| Retry.ResolvedMeaning | internal/forward.go:335-375 | what is kept and what is set, field by field |
| Retry.ExplicitPortsResolve | internal/forward.go:335-375 | explicit local ports leave nothing to choose |
| Retry.PreflightHostPorts | internal/forward.go:415-457 | passes if and only if every binding that will be published can be bound, a host without IPv6 aside |
| Retry.PreflightMeaning | internal/forward.go:415-472 | clean means that every binding is of a known protocol and can be bound, on every interface for `*`, or lacks IPv6 on the host |
| Retry.WaitForHostPorts | internal/forward.go:474-489 | success means a clean last check; failure means a canceled context or a dirty check past the deadline; at most timeout/200ms + 2 checks |
| Retry.StartWithPortRetry | internal/forward.go:491-508 | every call but the last was refused for a held port, the result is the last call's, one call without retry, at most timeout/200ms + 2 with it |
| Retry.WaitForRunning | internal/forward.go:867-888 | success means the container runs; failure means a canceled context, the timeout, or an exit with an error |
| Reconcile.FindOverlappingHelper | internal/forward.go:841-865 | the nested loop finds the first running helper that overlaps |
| Reconcile.ReconcileRound | internal/forward.go:207-243 | a round reuses an overlapping helper that is not stale and has the wanted range and network, finds none, or removes one that is stale, differently ranged or on another network than requested |
| Reconcile.SettledMeaning | internal/forward.go:207-238 | a helper is reused exactly when it is the first running one of the target that forwards something requested, is not stale, and has the wanted range and network |
| Reconcile.ReplaceableMeaning | internal/forward.go:216-243 | and replaced only when it forwards something requested and one of these is not so |
| Reconcile.RemovalShrinks | internal/forward.go:239-242 | a removal that counts leaves fewer running helpers of the target |
| Reconcile.ReconcileLoop | internal/forward.go:205-243 | rounds and removals bounded by the running helpers of the target; ends with a helper to reuse or with none that overlaps; each removal is of a helper that was outdated when it was issued, in a world pruned from the starting one |
| Forward.StopAndRemove | internal/forward.go:890-904 | the removal is issued for this id within ten seconds of the stop or changes nothing, whatever the run's own context |
| Forward.StartCreated | internal/forward.go:297-303 | a failed start is followed by a removal, which takes the container away exactly when the run's context is live; on a working daemon it failed for a held port, past the release time when retried |
| Forward.ServeCreated | internal/forward.go:305-332 | a container that does not run, for the timeout or an exit with an error, is removed; an attached one is torn down within ten seconds or stays as it was |
| Forward.RunCreated | internal/forward.go:297-332 | every way to end but a detached success issues a removal of the created container as the last act |
| Forward.Launch | internal/forward.go:292-332 | creation and start of one container, its events, and what is left of it |
| Forward.CheckPorts | internal/forward.go:254-267 | without preflight it passes; otherwise passing means a clean check in the meantime, and failing a binding refused in the meantime, past the release time when a helper was removed |
| Forward.Prepare | internal/forward.go:145-196 | everything before the first removal: arguments, ports, the target and its network |
| Forward.MakeWay | internal/forward.go:198-271 | the helper to reuse, or a world in which none overlaps and, on a reliable daemon, no colliding orphan is left |
| Forward.JustifiedFromStart | internal/forward.go:207-249 | each removal a run may make is of a helper that overlaps and is stale, differently ranged or on another network, or of a colliding orphan, in the starting world itself, unless that helper leads to another running helper |
| Forward.ReasonsToRemove | internal/forward.go:207-249 | a helper may go exactly when it runs and, for the request's own target, forwards something requested and is stale, differently ranged or on another network than requested, or, for another target, holds a requested host port and has lost its target |
| Forward.LaunchHelper | internal/forward.go:273-332 | the created container is the one built for the request and carries its labels |
| Forward.LaunchIsTraced | internal/forward.go:198-332 | the events of a run that launched a helper are justified removals, then its creation and at most its own removal, and nothing is gone but by a justified removal |
| Forward.GoneWasJustified | internal/forward.go:207-249 | every container of the starting world that a run left gone or changed has a removal of its own, and when that was issued it was, for the request's own target, a helper of a requested forward that was stale, differently ranged or on another network than requested, and otherwise a helper on a requested host port whose target was gone |
| Forward.GoneWasDue | internal/forward.go:207-249 | the same of the world the run started from: what is gone was a running helper on a requested forward or host port, and one of those reasons held from the start unless it led to another running helper |
| Forward.LaunchAchieves | internal/forward.go:198-332 | after a detached launch the new helper serves the request; running helpers share no forward and orphans stay gone |
| Forward.NothingLaunched | internal/forward.go:198-271 | a run that reuses a helper or fails before creating one removes only what it may and leaves the rest as it was |
| Forward.StartForward | internal/forward.go:131-333 | whether it succeeds or fails, and for the request's own pairs: success and reuse, nothing to do, removal safety, the frame on everything else, what is created, orphans gone, what a failed or attached run leaves, the start calls made, and each error that remains on a reliable daemon with its reason |
| Forward.NothingToDoMeaning | internal/forward.go:205-238 | when the first running helper of the target that forwards something requested is not stale and has the wanted range and network, a run of explicit ports leaves daemon and events alone, and if it succeeds, as it does on a working daemon, returns that helper |
| Forward.FailureMeaning | internal/forward.go:145-333 | on a working daemon a run of explicit ports fails only because a host port cannot be bound, the name is taken, the start finds a port held, or the helper does not run in time or without an error |
| Forward.AcceptableMeaning | internal/forward.go:145-175 | a request is refused at once exactly when it lacks a target, a pair, or an address that is not blank |
| Forward.LaunchSettles | internal/forward.go:198-316 | after a successful detached launch the new helper is the one the same request would reuse |
| Forward.NewHelperIsFound | internal/forward.go:841-865 | the new helper is the overlapping helper of its target |
| Forward.NewHelperIsCurrent | internal/forward.go:216-237 | the new helper is not stale, and its range and network are the requested ones |
| Forward.LaunchIsStep | internal/forward.go:198-316 | a launch adds one helper that shares no forward with a running helper of its target |
| Forward.TargetIsKept | internal/forward.go:188-296 | removals and the creation leave the target and its networks as they were |
| Forward.EveryPairIsPublished | internal/forward.go:661-683 | what a run creates exposes every valid pair and publishes it on each address it is bound on, on its own local port |
| Forward.OnlyPairsArePublished | internal/forward.go:661-683 | and publishes nothing else |
| Forward.EveryPairIsServed | internal/forward.go:603-659 | its script, as it is read, has a listener for every pair and none but for a pair, dialling the picked address for clients of the request's range with the request's timeouts |
| Forward.MadeMeaning | internal/forward.go:163-296 | auto-removal, restart policy, network and name of what a run creates |
| Forward.MadeLabels | internal/forward.go:278-296 | its labels: the user's as they are, and the plugin's say what it was made from |
| Cleanup.SelectHelpers | portforward/list.go:82-118 | the lookups agree with the selection, which the next rows take apart |
| Cleanup.NamedSelection | portforward/list.go:82-98 | by name, the one container it leads to, exactly when that is a helper; no such container and no helper are the errors otherwise |
| Cleanup.NamedListing | portforward/list.go:82-145 | what is listed by name: that helper alone, or nothing when only stale ones are wanted and it is not |
| Cleanup.FindHelpers | portforward/list.go:79-145 | the selected helpers in list order, described, only stale ones when asked |
| Cleanup.ListedIsCovered | portforward/list.go:82-145 | a container is listed if and only if the selection covers it, and only helpers are |
| Cleanup.CoveredByName | portforward/list.go:82-145 | with a name, a container is covered exactly when the name leads to it, it is a helper, and it is stale if only those are wanted |
| Cleanup.CoveredWithoutName | portforward/list.go:103-118 | without a name, exactly the helpers of the target, or all, as staleness demands |
| Cleanup.ListShowsConfig | portforward/list.go:128-142 | a helper is listed with what it was made from |
| Cleanup.CleanUp | portforward/cleanup.go:35-67 | nothing but covered helpers is touched, a dry run touches nothing, a reliable daemon removes exactly the covered ones; by name, the helper the name leads to and no other |
| History.SharingMeaning | internal/forward.go:837-865 | two helpers share a forward exactly when their recorded pairs have a triple in common |
| History.EnvironmentKeeps | internal/forward.go:837-865 | changes of the world in which no helper starts keep the invariant |
| History.StoppingIsEnvironment | internal/forward.go:837-865 | stopping a container is such a change |
| History.RemovalIsEnvironment | internal/forward.go:837-865 | so is removing one |
| History.TargetStartIsEnvironment | internal/drift.go:27-28 | so is starting a container that is no helper |
| History.ForwardKeeps | internal/forward.go:198-243 | a run keeps the invariant |
| History.HistoryInvariant | internal/forward.go:198-243 | every history of such steps keeps it |
| History.RunHistory | internal/forward.go:131-333 | every sequence of runs, cleanups and changes of the world is such a history |
| History.RestartExactly | internal/forward.go:852-855 | starting a stopped helper keeps the invariant if and only if it shares no forward with another running helper of its target |
| History.RunOnce | internal/forward.go:131-333 | where one run leads from where it began: justified removals, the frame, no shared forward, for the request's own pairs |
| History.ForwardTwice | internal/forward.go:198-238 | the second of two equal runs reuses the helper the first left serving the request, and leaves world and events as the first left them |
| History.RunAgain | internal/forward.go:198-238 | a run of a request a helper already serves changes nothing |
| History.ForwardAfter | internal/forward.go:131-333 | the world after one run is one it leads to; a run after it has a context of its own: on a reliable daemon it makes a helper that serves the request, or ends with one of the errors that remain, for a reason |
| History.ForwardedMeaning | internal/forward.go:131-144 | the returned helper is running, labelled with the target, not stale, of the wanted range and network, and covers every pair when new, one at least when reused |

## Left out

- Several plugin processes at once: nothing in the program locks the daemon, so statements about runs are about sequential histories.
- Reference resolution by id prefix: the daemon also resolves unambiguous prefixes of ids; the model resolves whole ids, then names.
- `State.Running` is identified with the status `running`; a paused or restarting container is a container in another status here.
- Forward.StartForward: an orphan that comes into being while other orphans are removed (a helper whose target was itself an orphaned helper) may survive the pass; the clause is about the orphans of the starting world.
- Retry.ResolveAutoPorts: allocated ports are not claimed to be distinct or still free, since each listener is closed before the next allocation.
- Retry.WaitForHostPorts: the host is a function of time, so two checks at one instant agree.
- Daemon.Client.Start: whether a started container runs, exits or removes itself is the daemon's choice, so success of `WaitForRunning` is not promised.
- Defaults of the running timeout and the pull policy; timeouts are natural numbers of milliseconds, and the half-close timeout arrives as its decimal text.
- Text.ToLower: covers ASCII letters only: lower-casing matters only for comparison with `tcp` and `udp`, to which no other letter folds.
- Config.BuildHelperConfig: `network.ParsePort` is modelled as refusing ports above 65535 and lower-casing the protocol; image and log configuration are passed through unmodelled.
- Image pulling, log streaming, the probe container's own lifecycle, random names and log messages.
- Checks for a missing client or logger.
- The Docker client wrapper, target resolution, restart policy and log option parsing, the command line, compose files and the installer.
