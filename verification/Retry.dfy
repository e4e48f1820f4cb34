/** Port resolution, preflight and the bounded retries (internal/forward.go). */
module Retry {
  import opened Wrappers
  import opened Text
  import opened Ports
  import opened Codec
  import opened Config
  import opened World
  import opened Daemon

  /** Milliseconds. */
  const POLL := 200
  const PORT_RELEASE_TIMEOUT := 10000

  /** What binding a socket comes to. */
  datatype BindOutcome = Bound | IPv6Unavailable | Refused

  /** The host, as a function of time, host part, port and protocol. */
  type Host = (nat, string, int, string) -> BindOutcome

  // ------------------------------------------------------------- auto-allocated ports

  /** `q` is `p` with its protocol normalised and a zero local port replaced. */
  predicate ResolvesTo(p: PortPair, q: PortPair) {
    && q == Normalized(p).(localPort := q.localPort)
    && (if p.localPort != 0 then q.localPort == p.localPort
        else 1 <= q.localPort <= MAX_PORT && SupportedProtocol(p.protocol))
  }

  predicate Resolves(pairs: seq<PortPair>, out: seq<PortPair>) {
    |out| == |pairs| && forall i :: 0 <= i < |pairs| ==> ResolvesTo(pairs[i], out[i])
  }

  /** What resolving leaves and what it sets. */
  lemma ResolvedMeaning(pairs: seq<PortPair>, out: seq<PortPair>)
    ensures Resolves(pairs, out) <==>
            && |out| == |pairs|
            && forall i :: 0 <= i < |out| ==>
                 && out[i].address == pairs[i].address && out[i].remotePort == pairs[i].remotePort
                 && out[i].protocol == (if pairs[i].protocol == "" then "tcp" else pairs[i].protocol)
                 && (if pairs[i].localPort != 0 then out[i].localPort == pairs[i].localPort
                     else 1 <= out[i].localPort <= 65535 && out[i].protocol in {"tcp", "udp"})
  {
  }

  /** The operating system's choice of a free port, or none. */
  method AllocatePort() returns (port: Option<GoInt>)
    ensures port.Some? ==> 1 <= port.value <= MAX_PORT
  {
    var n: int := *;
    port := if 1 <= n <= MAX_PORT then Some(n) else None;
  }

  /** One round of `resolveAutoPorts`. */
  method ResolvePort(p: PortPair) returns (q: Option<PortPair>)
    ensures q.Some? ==> ResolvesTo(p, q.value)
    ensures p.localPort != 0 ==> q.Some?
  {
    var protocol := NormalizeProtocol(p.protocol);
    if p.localPort != 0 {
      return Some(p.(protocol := protocol));
    }
    if protocol != TCP && protocol != UDP {
      return None;
    }
    var port := AllocatePort();
    q := if port.None? then None else Some(p.(localPort := port.value, protocol := protocol));
  }

  /** `resolveAutoPorts`. */
  method ResolveAutoPorts(pairs: seq<PortPair>) returns (r: Option<seq<PortPair>>)
    ensures r.Some? ==> Resolves(pairs, r.value)
    ensures (forall p :: p in pairs ==> p.localPort != 0) ==> r.Some?
  {
    var out: seq<PortPair> := [];
    for i := 0 to |pairs|
      invariant |out| == i && forall k :: 0 <= k < i ==> ResolvesTo(pairs[k], out[k])
    {
      var q := ResolvePort(pairs[i]);
      if q.None? {
        return None;
      }
      out := out + [q.value];
    }
    r := Some(out);
  }

  /** Explicit local ports leave nothing to choose. */
  lemma ExplicitPortsResolve(pairs: seq<PortPair>, out: seq<PortPair>)
    requires Resolves(pairs, out) && forall p :: p in pairs ==> p.localPort != 0
    ensures out == NormalizedAll(pairs)
  {
    forall i | 0 <= i < |pairs|
      ensures out[i] == NormalizedAll(pairs)[i]
    {
      assert ResolvesTo(pairs[i], out[i]);
    }
  }

  // -------------------------------------------------------------------- preflight

  /** `listenHost`. */
  function ListenHost(address: string): string {
    if address == ALL_INTERFACES then "" else address
  }

  predicate BindsOn(host: Host, now: nat, b: PortPair) {
    && SupportedProtocol(b.protocol)
    && host(now, ListenHost(b.address), b.localPort, NormalizeProtocol(b.protocol)) != Refused
  }

  /** Every binding that will be published can be bound, a host without IPv6 aside. */
  predicate PreflightClean(host: Host, now: nat, bs: seq<PortPair>) {
    forall b :: b in bs ==> BindsOn(host, now, b)
  }

  /** What a clean preflight means: each binding could be bound, on every interface when its address is `*`. */
  lemma PreflightMeaning(host: Host, now: nat, bs: seq<PortPair>)
    ensures PreflightClean(host, now, bs) <==>
            forall b :: b in bs ==>
              && b.protocol in {"", "tcp", "udp"}
              && host(now, if b.address == "*" then "" else b.address, b.localPort,
                      if b.protocol == "udp" then "udp" else "tcp") in {Bound, IPv6Unavailable}
  {
  }

  method PreflightPair(host: Host, now: nat, p: PortPair, addrs: seq<string>) returns (ok: bool)
    ensures ok <==> PreflightClean(host, now, Pinned(p, addrs))
  {
    for j := 0 to |addrs|
      invariant forall k :: 0 <= k < j ==> BindsOn(host, now, p.(address := addrs[k]))
    {
      var b := Pinned(p, addrs)[j];
      assert b in Pinned(p, addrs) && b == p.(address := addrs[j]);
      if !SupportedProtocol(p.protocol) {
        return false;
      }
      var outcome := host(now, ListenHost(addrs[j]), p.localPort, NormalizeProtocol(p.protocol));
      if outcome == Refused {
        return false;
      }
    }
    ok := true;
  }

  /** `preflightHostPorts` checks exactly the bindings that will be published. */
  method PreflightHostPorts(host: Host, now: nat, defaults: seq<string>, pairs: seq<PortPair>) returns (ok: bool)
    ensures ok <==> PreflightClean(host, now, Bindings(pairs, defaults))
  {
    for i := 0 to |pairs|
      invariant PreflightClean(host, now, Bindings(pairs[..i], defaults))
    {
      PrefixSnoc(pairs, i);
      BindingsSnoc(pairs[..i], pairs[i], defaults);
      CleanConcat(host, now, Bindings(pairs[..i], defaults), Pinned(pairs[i], PairAddresses(pairs[i], defaults)));
      var clean := PreflightPair(host, now, pairs[i], PairAddresses(pairs[i], defaults));
      if !clean {
        SomePairRefused(host, now, pairs, i, defaults);
        return false;
      }
    }
    assert pairs[..|pairs|] == pairs;
    ok := true;
  }

  lemma {:induction false} SomePairRefused(host: Host, now: nat, pairs: seq<PortPair>, i: nat, defaults: seq<string>)
    requires i < |pairs| && !PreflightClean(host, now, Pinned(pairs[i], PairAddresses(pairs[i], defaults)))
    ensures !PreflightClean(host, now, Bindings(pairs, defaults))
  {
    var n := |pairs| - 1;
    PrefixSnoc(pairs, n);
    BindingsSnoc(pairs[..n], pairs[n], defaults);
    CleanConcat(host, now, Bindings(pairs[..n], defaults), Pinned(pairs[n], PairAddresses(pairs[n], defaults)));
    if i < n {
      assert pairs[..n][i] == pairs[i];
      SomePairRefused(host, now, pairs[..n], i, defaults);
    }
  }

  lemma CleanConcat(host: Host, now: nat, a: seq<PortPair>, b: seq<PortPair>)
    ensures PreflightClean(host, now, a + b) <==> PreflightClean(host, now, a) && PreflightClean(host, now, b)
  {
    assert forall x :: x in a + b <==> x in a || x in b;
  }

  // ---------------------------------------------------------------------- retries

  /** `waitForHostPorts`: retries the preflight until it succeeds or the timeout has passed. */
  method WaitForHostPorts(d: Client, host: Host, defaults: seq<string>, pairs: seq<PortPair>, timeout: nat)
    returns (ok: bool, ghost attempts: nat)
    modifies d`clock, d`canceled
    ensures d.clock >= old(d.clock) && (old(d.canceled) ==> d.canceled)
    ensures 1 <= attempts <= timeout / 200 + 2
    ensures ok ==> PreflightClean(host, d.clock, Bindings(pairs, defaults))
    ensures !ok ==>
              || d.canceled
              || (d.clock > old(d.clock) + timeout && !PreflightClean(host, d.clock, Bindings(pairs, defaults)))
  {
    var deadline := d.clock + timeout;
    attempts := 0;
    while true
      invariant d.clock >= old(d.clock) + POLL * attempts
      invariant old(d.canceled) ==> d.canceled
      invariant attempts <= timeout / POLL + 1
      decreases timeout / POLL + 1 - attempts
    {
      attempts := attempts + 1;
      ok := PreflightHostPorts(host, d.clock, defaults, pairs);
      if ok || d.clock > deadline {
        return;
      }
      var interrupted := d.Sleep(POLL);
      if interrupted {
        return;
      }
    }
  }

  /** `startWithPortRetry`: retries a start refused for a held port, when asked to. */
  method StartWithPortRetry(d: Client, id: string, retry: bool, timeout: nat)
    returns (err: Option<DaemonError>, ghost attempts: nat)
    modifies d`world, d`clock, d`canceled, d`starts
    ensures d.clock >= old(d.clock) && (old(d.canceled) ==> d.canceled)
    ensures OnlyTouches(old(d.world), d.world, id)
    ensures err.Some? ==> d.world == old(d.world)
    // the start calls made: all but the last were refused for a held port
    ensures |d.starts| == |old(d.starts)| + attempts && d.starts[..|old(d.starts)|] == old(d.starts)
    ensures forall k :: |old(d.starts)| <= k < |d.starts| - 1 ==> d.starts[k] == Some(PortConflict)
    ensures 1 <= attempts <= timeout / 200 + 2
    ensures !retry ==> attempts == 1
    // the result is the last call's, unless the wait after it was interrupted
    ensures || err == d.starts[|d.starts| - 1]
            || (err.Some? && retry && d.canceled && d.starts[|d.starts| - 1] == Some(PortConflict))
    ensures d.reliable && !d.canceled && err.Some? ==>
              err == Some(PortConflict) && (retry ==> d.clock > old(d.clock) + timeout)
  {
    var deadline := d.clock + timeout;
    attempts := 0;
    while true
      invariant d.clock >= old(d.clock) + POLL * attempts
      invariant old(d.canceled) ==> d.canceled
      invariant attempts <= timeout / POLL + 1
      invariant attempts > 0 ==> retry
      invariant d.world == old(d.world)
      invariant |d.starts| == |old(d.starts)| + attempts && d.starts[..|old(d.starts)|] == old(d.starts)
      invariant forall k :: |old(d.starts)| <= k < |d.starts| ==> d.starts[k] == Some(PortConflict)
      decreases timeout / POLL + 1 - attempts
    {
      attempts := attempts + 1;
      err := d.Start(Run, id);
      if err.None? || !retry || err.value != PortConflict || d.clock > deadline {
        return;
      }
      var interrupted := d.Sleep(POLL);
      if interrupted {
        return Some(Failed), attempts;
      }
    }
  }

  /** A container that exited with an error. */
  predicate HasFailed(w: World, id: string) {
    var c := Lookup(w, id);
    c.Some? && c.value.status == Exited && c.value.exitCode != 0
  }

  /** `waitForRunning`: polls until the container runs, has failed, or the timeout has passed. */
  method WaitForRunning(d: Client, id: string, timeout: nat) returns (ok: bool, ghost attempts: nat)
    modifies d`world, d`clock, d`canceled
    ensures d.clock >= old(d.clock) && (old(d.canceled) ==> d.canceled)
    ensures OnlyTouches(old(d.world), d.world, id)
    ensures 1 <= attempts <= timeout / 200 + 2
    ensures ok ==> Lookup(d.world, id).Some? && Lookup(d.world, id).value.status == Running
    ensures !ok ==> d.canceled || d.clock > old(d.clock) + timeout || HasFailed(d.world, id)
  {
    var deadline := d.clock + timeout;
    attempts := 0;
    OnlyTouchesSelf(d.world, id);
    while true
      invariant d.clock >= old(d.clock) + POLL * attempts
      invariant old(d.canceled) ==> d.canceled
      invariant attempts <= timeout / POLL + 1
      invariant OnlyTouches(old(d.world), d.world, id)
      decreases timeout / POLL + 1 - attempts
    {
      attempts := attempts + 1;
      var info := d.Inspect(Run, id);
      if info.Ok? && info.value.status == Running {
        return true, attempts;
      }
      if info.Ok? && info.value.exitCode != 0 && info.value.status == Exited {
        return false, attempts;
      }
      if d.clock > deadline {
        return false, attempts;
      }
      var interrupted := d.Sleep(POLL);
      if interrupted {
        return false, attempts;
      }
      ghost var before := d.world;
      d.Settle(id);
      OnlyTouchesTwice(old(d.world), before, d.world, id);
    }
  }
}
