/** When a helper no longer reaches its target (internal/drift.go). */
module Drift {
  import opened Wrappers
  import opened Text
  import opened Order
  import opened Ports
  import opened Codec
  import opened Config
  import opened World
  import opened Daemon

  const BRIDGE := "bridge"

  function NetworkOf(c: Container): string {
    Label(c.labels, LABEL_TARGET_NETWORK)
  }

  function AddressOf(c: Container): string {
    Label(c.labels, LABEL_TARGET_ADDRESS)
  }

  /** `attachedTo`: the endpoint exists and is not nil. */
  predicate AttachedTo(c: Container, network: string) {
    network in c.endpoints && c.endpoints[network].Endpoint?
  }

  /** The address a container has on a network. */
  function AddressOn(c: Container, network: string): Option<string> {
    if AttachedTo(c, network) then c.endpoints[network].ip else None
  }

  predicate IsInternal(w: World, network: string) {
    network in w.networks && w.networks[network]
  }

  /** A helper that dials a name: the name must lead to a container on its network. */
  predicate NameIsLost(w: World, name: string, network: string) {
    var t := Lookup(w, name);
    t.None? || !AttachedTo(t.value, network)
  }

  /** A helper that dials an address: a running target must still have it on the network. */
  predicate AddressIsLost(w: World, target: string, ip: string, network: string) {
    var t := Lookup(w, target);
    t.None? || (t.value.status == Running
                && (!AttachedTo(t.value, network)
                    || (AddressOn(t.value, network).Some? && AddressOn(t.value, network).value != ip)))
  }

  /** What `CheckHelper` reports. */
  predicate Stale(netip: Netip, w: World, helper: Container) {
    && AddressOf(helper) != "" && NetworkOf(helper) != ""
    && ((NetworkOf(helper) != BRIDGE && IsInternal(w, NetworkOf(helper)))
        || match netip(AddressOf(helper))
           case None => NameIsLost(w, AddressOf(helper), NetworkOf(helper))
           case Some(ip) => AddressIsLost(w, TargetOf(helper), ip, NetworkOf(helper)))
  }

  /**
   The documented cases. A helper without a recorded network or address is never stale,
   and one on an internal network always is, unless that is the bridge. On any other
   network, one that dials a name is stale exactly when the name leads to no container,
   or to one off the network; and one that dials an address exactly when its target is
   gone, or is running off the network, or is running with another address there.
   */
  lemma StaleCases(netip: Netip, w: World, helper: Container)
    ensures var network := Label(helper.labels, "com.dokku.port-forward.target-network");
            var address := Label(helper.labels, "com.dokku.port-forward.target-address");
            var target := Label(helper.labels, "com.dokku.port-forward.target");
            var internal := network != "bridge" && network in w.networks && w.networks[network];
            Stale(netip, w, helper) <==>
              && network != "" && address != ""
              && (|| internal
                  || (netip(address).None? && !Reaches(w, address, network))
                  || (netip(address).Some? && !Answers(w, target, network, netip(address).value)))
  {
  }

  /** The reference leads to a container with an endpoint on the network. */
  ghost predicate Reaches(w: World, ref: string, network: string) {
    exists t :: Lookup(w, ref) == Some(t) && network in t.endpoints && t.endpoints[network] != NilEndpoint
  }

  /** The target exists and, if it runs, is on the network, with this address there or with none. */
  ghost predicate Answers(w: World, target: string, network: string, ip: string) {
    exists t :: Lookup(w, target) == Some(t)
                && (t.status == Running ==>
                      network in t.endpoints && t.endpoints[network] in {Endpoint(Some(ip)), Endpoint(None)})
  }

  method CheckHelper(d: Client, netip: Netip, helper: Container) returns (r: Result<bool, DaemonError>)
    modifies d`clock, d`canceled
    ensures d.clock >= old(d.clock) && (old(d.canceled) ==> d.canceled)
    ensures r.Ok? ==> r.value == Stale(netip, d.world, helper)
    ensures d.reliable && !d.canceled && TargetOf(helper) != "" ==> r.Ok?
  {
    var address, network := AddressOf(helper), NetworkOf(helper);
    if address == "" || network == "" {
      return Ok(false);
    }
    if network != BRIDGE {
      var internal := d.InspectNetwork(Run, network);
      if internal.Err? && internal.error != NotFound {
        return Err(internal.error);
      }
      if internal.Ok? && internal.value {
        return Ok(true);
      }
    }
    var ip := netip(address);
    if ip.None? {
      var info := d.Inspect(Run, address);
      if info.Err? {
        if info.error == NotFound {
          return Ok(true);
        }
        return Err(info.error);
      }
      return Ok(!AttachedTo(info.value, network));
    }
    var info := d.Inspect(Run, TargetOf(helper));
    if info.Err? {
      if info.error == NotFound {
        return Ok(true);
      }
      return Err(info.error);
    }
    if info.value.status != Running {
      return Ok(false);
    }
    if !AttachedTo(info.value, network) {
      return Ok(true);
    }
    var current := AddressOn(info.value, network);
    r := Ok(current.Some? && current.value != ip.value);
  }

  // -------------------------------------------------------------- removing helpers

  /** Removes one helper, and says whether it counts as removed. */
  method RemoveOne(d: Client, id: string) returns (ok: bool)
    modifies d`world, d`clock, d`canceled, d`log
    ensures d.clock >= old(d.clock) && (old(d.canceled) ==> d.canceled)
    ensures |d.log| == |old(d.log)| + 1 && d.log[..|old(d.log)|] == old(d.log)
    ensures d.log[|old(d.log)|] == Removal(id, old(d.world))
    ensures OnlyTouches(old(d.world), d.world, id)
    ensures ok ==> forall c :: c in d.world.containers && c.id == id ==> c.status == Removing
    ensures !ok ==> d.world == old(d.world)
    ensures d.reliable && !d.canceled ==> ok && forall c :: c in d.world.containers ==> c.id != id
  {
    var removed := RemoveHelpers(d, Run, [id]);
    ok := removed == 1;
  }

  /** Removing a running helper prunes the world. */
  lemma RemovalPrunes(w: World, w': World, c: Container)
    requires Unique(w) && c in w.containers && LiveHelper(c) && OnlyTouches(w, w', c.id)
    requires w' == w || forall x :: x in w'.containers && x.id == c.id ==> x.status == Removing
    ensures Pruned(w, w')
  {
    forall x | x in w.containers && !LiveHelper(x)
      ensures x in w'.containers
    {
      assert Clash(x, c) ==> x == c;
    }
  }

  // ---------------------------------------------------------------------- orphans

  /** The host port a pair holds. */
  function HostPort(p: PortPair): ProtoPort {
    ProtoPort(p.localPort, NormalizeProtocol(p.protocol))
  }

  function HostPorts(pairs: seq<PortPair>): set<ProtoPort> {
    set p | p in pairs :: HostPort(p)
  }

  /** The helper holds a requested host port. */
  predicate Collides(c: Container, pairs: seq<PortPair>) {
    exists p :: p in HelperPairs(c) && HostPort(p) in HostPorts(pairs)
  }

  /**
   Collision agreement. On a label written for tcp and udp pairs, a helper collides
   with a request exactly when one of its pairs and one of the request's have the same
   local port and protocol, whatever they forward to.
   */
  lemma CollisionAgreement(c: Container, ps: seq<PortPair>, pairs: seq<PortPair>)
    requires Label(c.labels, LABEL_PORTS) == PairsText(ps)
    requires forall p :: p in ps ==> SupportedProtocol(p.protocol)
    ensures Collides(c, pairs) <==>
            exists p, q :: p in ps && q in pairs && SameHostPort(p, q)
  {
    SupportedListIsRead(ps);
    HostPortsMeaning(ps, pairs);
  }

  /** Two pairs hold the same port of the host, whatever they forward it to. */
  predicate SameHostPort(p: PortPair, q: PortPair) {
    p.localPort == q.localPort && SameProtocol(p.protocol, q.protocol)
  }

  lemma HostPortsMeaning(ps: seq<PortPair>, pairs: seq<PortPair>)
    ensures (exists r :: r in RecordedAll(ps) && HostPort(r) in HostPorts(pairs)) <==>
            exists p, q :: p in ps && q in pairs && SameHostPort(p, q)
  {
    if r :| r in RecordedAll(ps) && HostPort(r) in HostPorts(pairs) {
      RecordedMembers(ps, r);
      var p :| p in ps && Recorded(p) == r;
      var q :| q in pairs && HostPort(q) == HostPort(r);
      assert SameHostPort(p, q);
    }
    if p, q :| p in ps && q in pairs && SameHostPort(p, q) {
      RecordedMembers(ps, Recorded(p));
      assert HostPort(Recorded(p)) == HostPort(q);
    }
  }

  lemma CollisionMeaning(c: Container, pairs: seq<PortPair>)
    ensures Collides(c, pairs) <==> exists p, q :: p in HelperPairs(c) && q in pairs && SameHostPort(p, q)
  {
    if p :| p in HelperPairs(c) && HostPort(p) in HostPorts(pairs) {
      var q :| q in pairs && HostPort(q) == HostPort(p);
      assert SameHostPort(p, q);
    }
    if p, q :| p in HelperPairs(c) && q in pairs && SameHostPort(p, q) {
      assert HostPort(p) == HostPort(q);
    }
  }

  /** A running helper that holds a requested host port for another target, which no longer exists. */
  predicate Orphan(w: World, c: Container, target: string, pairs: seq<PortPair>) {
    && LiveHelper(c) && TargetOf(c) != target && TargetOf(c) != "" && Collides(c, pairs)
    && Lookup(w, TargetOf(c)).None?
  }

  /** What makes an orphan: it runs for another target, which is gone, and holds a requested host port. */
  lemma OrphanMeaning(w: World, c: Container, target: string, pairs: seq<PortPair>)
    ensures Orphan(w, c, target, pairs) <==>
            && c.status == Running && Labelled(c, "com.dokku.port-forward", "true")
            && (exists t :: t != "" && t != target && Labelled(c, "com.dokku.port-forward.target", t)
                            && Lookup(w, t).None?)
            && (exists p, q :: p in HelperPairs(c) && q in pairs && SameHostPort(p, q))
  {
    CollisionMeaning(c, pairs);
    if Orphan(w, c, target, pairs) {
      assert Labelled(c, "com.dokku.port-forward.target", TargetOf(c));
    }
  }

  method CollidesWith(c: Container, want: set<ProtoPort>, ghost pairs: seq<PortPair>) returns (collides: bool)
    requires want == HostPorts(pairs)
    ensures collides == Collides(c, pairs)
  {
    var ps := HelperPairs(c);
    for i := 0 to |ps|
      invariant forall k :: 0 <= k < i ==> HostPort(ps[k]) !in want
    {
      if HostPort(ps[i]) in want {
        return true;
      }
    }
    collides := false;
  }

  /**
   The removals of an event list are of orphans: listed in the world, and orphaned when
   the removal was issued, with nothing but running helpers removed in between.
   */
  ghost predicate OrphanRemovals(events: seq<Event>, w: World, target: string, pairs: seq<PortPair>) {
    forall e :: e in events ==>
                  e.Removal? && Pruned(w, e.before)
                  && exists c :: c in w.containers && c.id == e.id && Orphan(e.before, c, target, pairs)
  }

  /** The loop body of `removeOrphanedHelpers`: nothing when the removal failed, else whether one was made. */
  method EvictOrphan(d: Client, c: Container, target: string, want: set<ProtoPort>, ghost pairs: seq<PortPair>,
                     ghost w0: World)
    returns (evicted: Option<bool>)
    requires Unique(w0) && Pruned(w0, d.world) && c in w0.containers && IsHelper(c)
    requires want == HostPorts(pairs)
    modifies d`world, d`clock, d`canceled, d`log
    ensures d.clock >= old(d.clock) && (old(d.canceled) ==> d.canceled)
    ensures Pruned(w0, d.world)
    ensures forall x :: x in d.world.containers && LiveHelper(x) ==> x in old(d.world).containers
    ensures evicted == Some(false) ==> d.world == old(d.world) && d.log == old(d.log)
    ensures evicted != Some(false) ==>
              d.log == old(d.log) + [Removal(c.id, old(d.world))] && Orphan(old(d.world), c, target, pairs)
    ensures Explained(old(d.world), d.world, d.log[|old(d.log)|..])
    ensures d.reliable && !d.canceled ==> evicted.Some? && (Orphan(w0, c, target, pairs) ==> c !in d.world.containers)
  {
    if c.status != Running || TargetOf(c) == target {
      return Some(false);
    }
    var collides := CollidesWith(c, want, pairs);
    if !collides {
      return Some(false);
    }
    OrphanStays(w0, d.world, c, target, pairs);
    var info := d.Inspect(Run, TargetOf(c));
    if info != Err(NotFound) {
      return Some(false);
    }
    ghost var w1, log1 := d.world, d.log;
    var ok := RemoveOne(d, c.id);
    OrphanRemoved(w0, w1, d.world, c);
    assert d.log == log1 + [Removal(c.id, w1)];
    RemovalExplains(w1, d.world, log1, c.id);
    evicted := if ok then Some(true) else None;
  }

  /** `removeOrphanedHelpers`. */
  method RemoveOrphanedHelpers(d: Client, target: string, pairs: seq<PortPair>) returns (r: Result<nat, DaemonError>)
    requires Unique(d.world)
    modifies d`world, d`clock, d`canceled, d`log
    ensures d.clock >= old(d.clock) && (old(d.canceled) ==> d.canceled)
    ensures old(d.log) <= d.log && OrphanRemovals(d.log[|old(d.log)|..], old(d.world), target, pairs)
    ensures Pruned(old(d.world), d.world) && Explained(old(d.world), d.world, d.log[|old(d.log)|..])
    ensures r.Ok? ==> (r.value == 0 <==> d.log == old(d.log))
    ensures d.reliable && !d.canceled ==> r.Ok?
    ensures d.reliable && !d.canceled ==>
              OrphansGone(old(d.world.containers), old(d.world), d.world, target, pairs)
    ensures NoOrphans(old(d.world), target, pairs) ==> d.world == old(d.world) && d.log == old(d.log)
  {
    ghost var w0, log0 := d.world, d.log;
    PrunedSelf(d.world);
    var want := HostPorts(pairs);
    var list := d.ListHelpers(Run, "");
    if list.Err? {
      return Err(list.error);
    }
    HelpersMembers(w0.containers, "");
    var removed := 0;
    for i := 0 to |list.value|
      invariant d.clock >= old(d.clock) && (old(d.canceled) ==> d.canceled)
      invariant log0 <= d.log && OrphanRemovals(d.log[|log0|..], w0, target, pairs)
      invariant Pruned(w0, d.world) && Explained(w0, d.world, d.log[|log0|..])
      invariant d.reliable && !d.canceled ==> OrphansGone(list.value[..i], w0, d.world, target, pairs)
      invariant removed == 0 ==> d.world == w0 && d.log == log0
      invariant removed > 0 ==> d.log != log0 && !NoOrphans(w0, target, pairs)
    {
      ghost var w1, log1 := d.world, d.log;
      var c := list.value[i];
      assert c in w0.containers && IsHelper(c);
      var evicted := EvictOrphan(d, c, target, want, pairs, w0);
      OneMoreRemoval(log0, log1, d.log, w0, w1, c, target, pairs);
      ExplainedTwice(w0, w1, d.world, log0, log1, d.log);
      PrefixSnoc(list.value, i);
      if d.reliable && !d.canceled {
        OrphansStayGone(list.value[..i], c, w0, w1, d.world, target, pairs);
      }
      if evicted.None? {
        return Err(Failed);
      }
      if evicted.value {
        removed := removed + 1;
      }
    }
    assert list.value[..|list.value|] == list.value;
    AllOrphansGone(list.value, w0, d.world, target, pairs);
    r := Ok(removed);
  }

  lemma AllOrphansGone(list: seq<Container>, w0: World, w: World, target: string, pairs: seq<PortPair>)
    requires forall c :: c in w0.containers && IsHelper(c) ==> c in list
    ensures OrphansGone(list, w0, w, target, pairs) ==> OrphansGone(w0.containers, w0, w, target, pairs)
  {
  }

  ghost predicate NoOrphans(w: World, target: string, pairs: seq<PortPair>) {
    forall c :: c in w.containers ==> !Orphan(w, c, target, pairs)
  }

  lemma OneMoreRemoval(log0: seq<Event>, log1: seq<Event>, log2: seq<Event>, w0: World, w1: World, c: Container,
                       target: string, pairs: seq<PortPair>)
    requires log0 <= log1 && OrphanRemovals(log1[|log0|..], w0, target, pairs) && Pruned(w0, w1)
    requires log2 == log1 || (log2 == log1 + [Removal(c.id, w1)] && c in w0.containers && Orphan(w1, c, target, pairs))
    ensures log0 <= log2 && OrphanRemovals(log2[|log0|..], w0, target, pairs)
  {
    if log2 != log1 {
      assert log2[|log0|..] == log1[|log0|..] + [Removal(c.id, w1)];
    }
  }

  /** The orphans of a list have been removed. */
  ghost predicate OrphansGone(list: seq<Container>, w0: World, w: World, target: string, pairs: seq<PortPair>) {
    forall c :: c in list && Orphan(w0, c, target, pairs) ==> c !in w.containers
  }

  /** A running helper that is gone stays gone. */
  lemma OrphansStayGone(list: seq<Container>, last: Container, w0: World, w1: World, w2: World,
                        target: string, pairs: seq<PortPair>)
    requires OrphansGone(list, w0, w1, target, pairs)
    requires Orphan(w0, last, target, pairs) ==> last !in w2.containers
    requires forall x :: x in w2.containers && LiveHelper(x) ==> x in w1.containers
    ensures OrphansGone(list + [last], w0, w2, target, pairs)
  {
  }

  /** What no longer exists does not come back by pruning. */
  lemma OrphanStays(w0: World, w: World, c: Container, target: string, pairs: seq<PortPair>)
    requires Pruned(w0, w)
    ensures Orphan(w0, c, target, pairs) ==> Orphan(w, c, target, pairs)
  {
    assert forall x :: x in w.containers && x !in w0.containers ==> StillIn(x, w0);
  }

  lemma OrphanRemoved(w0: World, w1: World, w2: World, c: Container)
    requires Pruned(w0, w1) && Unique(w0) && c in w0.containers && LiveHelper(c) && OnlyTouches(w1, w2, c.id)
    requires w2 == w1 || forall x :: x in w2.containers && x.id == c.id ==> x.status == Removing
    ensures Pruned(w0, w2)
  {
  }
}
