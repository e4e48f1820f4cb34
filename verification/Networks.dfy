/** The network a helper joins and what it dials there (internal/forward.go). */
module Networks {
  import opened Wrappers
  import opened Text
  import opened Order
  import opened Ports
  import opened Config
  import opened World
  import opened Daemon
  import opened Drift

  const HOST := "host"
  const NONE := "none"

  datatype PickError =
    | NoNetworks
    | UnusableNetwork
    | NotAttached
    | NoAddress
    | InternalNetwork
    | OnlyInternalNetworks
    | NoRoutableAddress
    | NetworkMissing
    | DaemonFailed

  /** A network and what the helper dials on it. */
  datatype Pick = Pick(network: string, address: string)

  predicate UserDefined(network: string) {
    network != BRIDGE && network != HOST && network != NONE
  }

  /** `targetAddress`. */
  function TargetAddress(c: Container, network: string): Option<string> {
    if AddressOn(c, network).None? then None
    else if network != BRIDGE && TrimSlash(c.name) != "" then Some(TrimSlash(c.name))
    else AddressOn(c, network)
  }

  /** The user-defined networks the target has an address on. */
  function Candidates(c: Container): set<string> {
    set n | n in c.endpoints && UserDefined(n) && TargetAddress(c, n).Some?
  }

  /** The candidates at which the search ends: all but the internal ones. */
  function Endings(w: World, c: Container): set<string> {
    set n | n in Candidates(c) && !IsInternal(w, n)
  }

  predicate IsLeast(n: string, s: set<string>) {
    n in s && forall m :: m in s && m != n ==> TextLess(n, m)
  }

  /** The search ends at a network, the least it can end at. */
  predicate EndsAt(w: World, c: Container, n: string, r: Result<Pick, PickError>) {
    && IsLeast(n, Endings(w, c))
    && r == if n in w.networks then Ok(Pick(n, TargetAddress(c, n).value)) else Err(NetworkMissing)
  }

  /** What a search for a network without a request may return. */
  ghost predicate SearchResult(w: World, c: Container, r: Result<Pick, PickError>) {
    if c.endpoints == map[] then r == Err(NoNetworks)
    else if Endings(w, c) != {} then
      exists n :: EndsAt(w, c, n, r)
    else if TargetAddress(c, BRIDGE).Some? then r == Ok(Pick(BRIDGE, TargetAddress(c, BRIDGE).value))
    else if Candidates(c) != {} then r == Err(OnlyInternalNetworks)
    else r == Err(NoRoutableAddress)
  }

  /** What a request for a network returns. */
  function RequestResult(w: World, c: Container, requested: string): Result<Pick, PickError> {
    if c.endpoints == map[] then Err(NoNetworks)
    else if requested == HOST || requested == NONE then Err(UnusableNetwork)
    else if !AttachedTo(c, requested) then Err(NotAttached)
    else if TargetAddress(c, requested).None? then Err(NoAddress)
    else if requested != BRIDGE && requested !in w.networks then Err(NetworkMissing)
    else if requested != BRIDGE && w.networks[requested] then Err(InternalNetwork)
    else Ok(Pick(requested, TargetAddress(c, requested).value))
  }

  /** What picking a network may return when every call to the daemon succeeds. */
  ghost predicate PickResult(w: World, c: Container, requested: string, r: Result<Pick, PickError>) {
    if requested == "" then SearchResult(w, c, r) else r == RequestResult(w, c, requested)
  }

  /** A network that can be picked. */
  ghost predicate Pickable(w: World, c: Container, requested: string) {
    exists p :: PickResult(w, c, requested, Ok(p))
  }

  method PickTargetNetwork(d: Client, c: Container, requested: string) returns (r: Result<Pick, PickError>)
    modifies d`clock, d`canceled
    ensures d.clock >= old(d.clock) && (old(d.canceled) ==> d.canceled)
    ensures r != Err(DaemonFailed) ==> PickResult(d.world, c, requested, r)
    ensures d.reliable && !d.canceled ==> r != Err(DaemonFailed)
  {
    if c.endpoints == map[] {
      return Err(NoNetworks);
    }
    if requested != "" {
      r := PickRequestedNetwork(d, c, requested);
      return;
    }
    var names := SortedTexts(set n | n in c.endpoints && UserDefined(n));
    var found, anyInternal := SearchNetworks(d, c, names);
    if found.Some? {
      return found.value;
    }
    var address := TargetAddress(c, BRIDGE);
    if address.Some? {
      return Ok(Pick(BRIDGE, address.value));
    }
    r := Err(if anyInternal then OnlyInternalNetworks else NoRoutableAddress);
  }

  /** The loop of `pickTargetNetwork`: where the search ends, or whether it passed internal networks only. */
  method SearchNetworks(d: Client, c: Container, names: seq<string>)
    returns (found: Option<Result<Pick, PickError>>, anyInternal: bool)
    requires Increasing(TextLess, names) && forall n :: n in names <==> n in c.endpoints && UserDefined(n)
    modifies d`clock, d`canceled
    ensures d.clock >= old(d.clock) && (old(d.canceled) ==> d.canceled)
    ensures found.Some? && found.value != Err(DaemonFailed) ==>
              exists n :: EndsAt(d.world, c, n, found.value)
    ensures found.None? ==> Endings(d.world, c) == {} && (anyInternal <==> Candidates(c) != {})
    ensures d.reliable && !d.canceled ==> found != Some(Err(DaemonFailed))
  {
    anyInternal := false;
    for i := 0 to |names|
      invariant d.clock >= old(d.clock) && (old(d.canceled) ==> d.canceled)
      invariant Passed(d.world, c, names[..i], anyInternal)
    {
      PrefixSnoc(names, i);
      var address := TargetAddress(c, names[i]);
      if address.None? {
        PassedOver(d.world, c, names[..i], names[i], anyInternal);
        continue;
      }
      var internal := d.InspectNetwork(Run, names[i]);
      LeastEnding(d.world, c, names, i, anyInternal);
      if internal.Err? {
        return Some(Err(if internal.error == NotFound then NetworkMissing else DaemonFailed)), anyInternal;
      }
      if internal.value {
        anyInternal := true;
        continue;
      }
      return Some(Ok(Pick(names[i], address.value))), anyInternal;
    }
    assert names[..|names|] == names;
    AllPassed(d.world, c, names, anyInternal);
    found := None;
  }

  /** The search passed these networks: none ends it, and some was a candidate if so noted. */
  ghost predicate Passed(w: World, c: Container, names: seq<string>, anyInternal: bool) {
    && (forall n :: n in names ==> n !in Endings(w, c))
    && (anyInternal <==> exists n :: n in names && n in Candidates(c))
  }

  lemma PassedOver(w: World, c: Container, names: seq<string>, name: string, anyInternal: bool)
    requires Passed(w, c, names, anyInternal) && TargetAddress(c, name).None?
    ensures Passed(w, c, names + [name], anyInternal)
  {
    assert name !in Candidates(c);
    assert forall n :: n in names + [name] <==> n in names || n == name;
  }

  lemma AllPassed(w: World, c: Container, names: seq<string>, anyInternal: bool)
    requires Passed(w, c, names, anyInternal) && forall n :: n in names <==> n in c.endpoints && UserDefined(n)
    ensures Endings(w, c) == {} && (anyInternal <==> Candidates(c) != {})
  {
    assert forall n :: n in Candidates(c) ==> n in names;
  }

  /** In increasing order, the first network at which the search can end is the least; an internal one is passed. */
  lemma LeastEnding(w: World, c: Container, names: seq<string>, i: nat, anyInternal: bool)
    requires i < |names| && Increasing(TextLess, names)
    requires forall n :: n in names <==> n in c.endpoints && UserDefined(n)
    requires Passed(w, c, names[..i], anyInternal) && TargetAddress(c, names[i]).Some?
    ensures if IsInternal(w, names[i]) then Passed(w, c, names[..i] + [names[i]], true)
            else EndsAt(w, c, names[i],
                        if names[i] in w.networks then Ok(Pick(names[i], TargetAddress(c, names[i]).value))
                        else Err(NetworkMissing))
  {
    var name, before := names[i], names[..i];
    assert name in names;
    assert name in Candidates(c);
    if IsInternal(w, name) {
      assert name in before + [name];
      assert forall n :: n in before + [name] <==> n in before || n == name;
    } else {
      forall m | m in Endings(w, c) && m != name
        ensures TextLess(name, m)
      {
        var k :| 0 <= k < |names| && names[k] == m;
        assert names[..i] + names[i..] == names;
      }
    }
  }

  method PickRequestedNetwork(d: Client, c: Container, requested: string) returns (r: Result<Pick, PickError>)
    requires c.endpoints != map[]
    modifies d`clock, d`canceled
    ensures d.clock >= old(d.clock) && (old(d.canceled) ==> d.canceled)
    ensures r != Err(DaemonFailed) ==> r == RequestResult(d.world, c, requested)
    ensures d.reliable && !d.canceled ==> r != Err(DaemonFailed)
  {
    if requested == HOST || requested == NONE {
      return Err(UnusableNetwork);
    }
    if !AttachedTo(c, requested) {
      return Err(NotAttached);
    }
    var address := TargetAddress(c, requested);
    if address.None? {
      return Err(NoAddress);
    }
    if requested != BRIDGE {
      var internal := d.InspectNetwork(Run, requested);
      if internal.Err? {
        return Err(if internal.error == NotFound then NetworkMissing else DaemonFailed);
      }
      if internal.value {
        return Err(InternalNetwork);
      }
    }
    r := Ok(Pick(requested, address.value));
  }

  // ------------------------------------------------------------------ properties

  /** The result does not depend on the order a map yields its keys in. */
  lemma PickIsUnique(w: World, c: Container, requested: string, r: Result<Pick, PickError>, q: Result<Pick, PickError>)
    requires PickResult(w, c, requested, r) && PickResult(w, c, requested, q)
    ensures r == q
  {
    if requested == "" && c.endpoints != map[] && Endings(w, c) != {} {
      var n :| EndsAt(w, c, n, r);
      var m :| EndsAt(w, c, m, q);
      LeastIsOne(n, m, Endings(w, c));
    }
  }

  lemma LeastIsOne(n: string, m: string, s: set<string>)
    requires IsLeast(n, s) && IsLeast(m, s)
    ensures n == m
  {
    if n != m {
      TextLessTransitive(n, m, n);
      TextLessTrichotomy(n, n);
    }
  }

  lemma {:induction false} LeastExists(s: set<string>) returns (n: string)
    requires s != {}
    ensures IsLeast(n, s)
    decreases |s|
  {
    var m :| m in s;
    if s == {m} {
      n := m;
    } else {
      var k := LeastExists(s - {m});
      n := if TextLess(m, k) then m else k;
      TextLessTrichotomy(m, k);
      forall x | x in s && x != n
        ensures TextLess(n, x)
      {
        if n == m && x != k {
          TextLessTransitive(m, k, x);
        }
      }
    }
  }

  /**
   Without a request, and given that the networks can be inspected, a network can be
   picked exactly when the target has an address on a user-defined network that is not
   internal, or on the default bridge.
   */
  lemma PickableMeaning(w: World, c: Container)
    requires forall n :: n in c.endpoints ==> n in w.networks
    ensures Pickable(w, c, "") <==>
            || (exists n :: n in c.endpoints && UserDefined(n) && AddressOn(c, n).Some? && !w.networks[n])
            || AddressOn(c, BRIDGE).Some?
  {
    if exists n :: n in c.endpoints && UserDefined(n) && AddressOn(c, n).Some? && !w.networks[n] {
      var n :| n in c.endpoints && UserDefined(n) && AddressOn(c, n).Some? && !w.networks[n];
      assert n in Endings(w, c);
      var m := LeastExists(Endings(w, c));
      assert EndsAt(w, c, m, Ok(Pick(m, TargetAddress(c, m).value)));
      assert PickResult(w, c, "", Ok(Pick(m, TargetAddress(c, m).value)));
    } else if AddressOn(c, BRIDGE).Some? {
      assert Endings(w, c) == {};
      assert PickResult(w, c, "", Ok(Pick(BRIDGE, TargetAddress(c, BRIDGE).value)));
    }
  }

  /** The container has an address on the network. */
  predicate Addressed(c: Container, network: string) {
    network in c.endpoints && c.endpoints[network].Endpoint? && c.endpoints[network].ip.Some?
  }

  /** A network of the container's that is not one of Docker's own, and not known to be internal. */
  predicate Usable(w: World, c: Container, network: string) {
    && network !in {"bridge", "host", "none"} && Addressed(c, network)
    && !(network in w.networks && w.networks[network])
  }

  /** What to dial on a network: the container's name but on the bridge, and its address where it has no name. */
  predicate DialledAs(c: Container, network: string, address: string) {
    || (network != "bridge" && address != "" && NamedAs(c, address))
    || ((network == "bridge" || NamedAs(c, "")) && Addressed(c, network)
        && c.endpoints[network].ip == Some(address))
  }

  lemma DialledAddress(c: Container, network: string, address: string)
    requires Addressed(c, network)
    ensures TargetAddress(c, network) == Some(address) <==> DialledAs(c, network, address)
  {
    TrimSlashMeaning(c, address);
    TrimSlashMeaning(c, "");
  }

  /**
   What is picked without a request: the usable network that comes first in the order of
   their names, and the bridge when none is usable.
   */
  lemma PickMeaning(w: World, c: Container, p: Pick)
    ensures PickResult(w, c, "", Ok(p)) <==>
            && DialledAs(c, p.network, p.address)
            && (|| (Usable(w, c, p.network) && p.network in w.networks
                    && forall m :: Usable(w, c, m) && m != p.network ==> TextLess(p.network, m))
                || (p.network == "bridge" && Addressed(c, "bridge") && forall m :: !Usable(w, c, m)))
  {
    EndingsAreUsable(w, c);
    if Addressed(c, p.network) {
      DialledAddress(c, p.network, p.address);
    }
    if Usable(w, c, p.network) && p.network in w.networks && DialledAs(c, p.network, p.address)
       && forall m :: Usable(w, c, m) && m != p.network ==> TextLess(p.network, m) {
      assert EndsAt(w, c, p.network, Ok(p));
    }
    if n :| EndsAt(w, c, n, Ok(p)) {
      assert n == p.network && Usable(w, c, n);
    }
  }

  lemma EndingsAreUsable(w: World, c: Container)
    ensures forall n :: n in Endings(w, c) <==> Usable(w, c, n)
  {
  }

  /** Why nothing is picked without a request, each reason exactly in its case. */
  lemma PickErrors(w: World, c: Container)
    ensures PickResult(w, c, "", Err(NoNetworks)) <==> c.endpoints == map[]
    ensures PickResult(w, c, "", Err(NetworkMissing)) <==>
            exists n :: Usable(w, c, n) && n !in w.networks
                        && forall m :: Usable(w, c, m) && m != n ==> TextLess(n, m)
    ensures PickResult(w, c, "", Err(OnlyInternalNetworks)) <==>
            && (forall n :: !Usable(w, c, n)) && !Addressed(c, "bridge")
            && exists n :: n !in {"bridge", "host", "none"} && Addressed(c, n)
    ensures PickResult(w, c, "", Err(NoRoutableAddress)) <==>
            c.endpoints != map[] && forall n :: Addressed(c, n) ==> n == "host" || n == "none"
  {
    EndingsAreUsable(w, c);
    forall n
      ensures TargetAddress(c, n).Some? <==> Addressed(c, n)
      ensures n in Candidates(c) <==> n !in {"bridge", "host", "none"} && Addressed(c, n)
    {
    }
    if n :| Usable(w, c, n) && n !in w.networks && forall m :: Usable(w, c, m) && m != n ==> TextLess(n, m) {
      assert EndsAt(w, c, n, Err(NetworkMissing));
    }
    if Endings(w, c) != {} {
      var n :| n in Endings(w, c);
      assert Usable(w, c, n);
    }
  }

  /** What a request for a network yields: that network, when the target can be reached there. */
  lemma RequestMeaning(w: World, c: Container, requested: string, p: Pick)
    requires requested != ""
    ensures PickResult(w, c, requested, Ok(p)) <==>
            && p.network == requested && requested !in {"host", "none"} && Addressed(c, requested)
            && (requested == "bridge" || (requested in w.networks && !w.networks[requested]))
            && DialledAs(c, requested, p.address)
  {
    if Addressed(c, requested) {
      DialledAddress(c, requested, p.address);
    }
  }

  /** Why a requested network is refused, the first reason that applies. */
  lemma RequestErrors(w: World, c: Container, requested: string)
    requires requested != "" && c.endpoints != map[]
    ensures RequestResult(w, c, requested) == Err(UnusableNetwork) <==> requested == "host" || requested == "none"
    ensures requested !in {"host", "none"} ==>
              && (RequestResult(w, c, requested) == Err(NotAttached) <==>
                  requested !in c.endpoints || c.endpoints[requested] == NilEndpoint)
              && (RequestResult(w, c, requested) == Err(NoAddress) <==>
                  requested in c.endpoints && c.endpoints[requested] == Endpoint(None))
              && (RequestResult(w, c, requested) == Err(NetworkMissing) <==>
                  Addressed(c, requested) && requested != "bridge" && requested !in w.networks)
              && (RequestResult(w, c, requested) == Err(InternalNetwork) <==>
                  Addressed(c, requested) && requested != "bridge"
                  && requested in w.networks && w.networks[requested])
  {
  }

  /** Every endpoint address is a canonical literal. */
  ghost predicate CanonicalAddresses(netip: Netip, c: Container) {
    forall n :: n in c.endpoints && AddressOn(c, n).Some? ==> netip(AddressOn(c, n).value) == AddressOn(c, n)
  }

  /** The helper records a target, a network and what it dials there. */
  predicate Records(helper: Container, target: string, p: Pick) {
    TargetOf(helper) == target && NetworkOf(helper) == p.network && AddressOf(helper) == p.address
  }

  /** A container name that reads as an address other than the one the target has on the network. */
  predicate MisreadName(netip: Netip, c: Container, network: string) {
    && network != "" && network != BRIDGE && TrimSlash(c.name) != ""
    && c.status == Running
    && netip(TrimSlash(c.name)).Some? && netip(TrimSlash(c.name)) != AddressOn(c, network)
  }

  /** Only a network the target is attached to, with an address and not internal, is picked. */
  lemma PickedNetwork(w: World, c: Container, requested: string, p: Pick)
    requires PickResult(w, c, requested, Ok(p))
    ensures AddressOn(c, p.network).Some? && p.address == TargetAddress(c, p.network).value
    ensures p.network == BRIDGE || (p.network in w.networks && !w.networks[p.network])
    ensures requested != "" ==> p.network == requested
  {
  }

  /**
   A helper made for the network just picked is not stale, requested or not, by name
   or by address: it is reported stale exactly when the running target's name is itself
   an address, and not the target's own on that network.
   */
  lemma PickedIsFresh(netip: Netip, w: World, target: string, c: Container, requested: string, p: Pick,
                      helper: Container)
    requires Lawful(netip) && CanonicalAddresses(netip, c)
    requires PickResult(w, c, requested, Ok(p)) && Records(helper, target, p)
    requires Lookup(w, target) == Some(c)
    requires TrimSlash(c.name) != "" ==> Lookup(w, TrimSlash(c.name)) == Some(c)
    ensures Stale(netip, w, helper) <==> MisreadName(netip, c, p.network)
  {
    PickedNetwork(w, c, requested, p);
    var ip := AddressOn(c, p.network);
    assert p.network in c.endpoints;
    assert LiteralShape(ip.value);
  }

  /**
   A target named like an address it does not have: for any two addresses there is a
   world in which the network is picked and the helper it gives is stale at once.
   */
  lemma AddressNameExample(netip: Netip, a: string, b: string) returns (w: World, c: Container, p: Pick)
    requires Lawful(netip) && netip(a) == Some(a) && netip(b) == Some(b) && a != b
    ensures Lookup(w, "t") == Some(c) && PickResult(w, c, "web", Ok(p))
    ensures forall helper :: Records(helper, "t", p) ==> Stale(netip, w, helper)
  {
    c := Container("t", "/" + a, Running, 0, map[], map["web" := Endpoint(Some(b))], "", {}, map[], false, "");
    w := World([c], map["web" := false]);
    p := Pick("web", a);
    assert LiteralShape(a);
    assert TrimSlash(c.name) == a;
    assert FindId(w.containers, "t") == Some(c);
    assert AddressOn(c, "web") == Some(b);
  }
}
