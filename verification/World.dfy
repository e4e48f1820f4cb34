/**
 The daemon's state as the program sees it: an ordered list of containers and the
 networks with their internal flag. Labels on helper containers are the program's
 only memory.
 */
module World {
  import opened Wrappers
  import opened Text
  import opened Order
  import opened Ports
  import opened Codec
  import opened Config

  /** A container's endpoint on a network; it may be nil, and its address unset. */
  datatype Endpoint = NilEndpoint | Endpoint(ip: Option<string>)

  datatype Status = Created | Running | Exited | Removing | OtherStatus

  datatype Container = Container(
    id: string,
    name: string,
    status: Status,
    exitCode: int,
    labels: map<string, string>,
    endpoints: map<string, Endpoint>,
    script: string,
    exposed: set<ProtoPort>,
    published: map<ProtoPort, seq<PortBinding>>,
    autoRemove: bool,
    restartPolicy: string)

  /** `networks` maps each network's name to its internal flag. */
  datatype World = World(containers: seq<Container>, networks: map<string, bool>)

  // --------------------------------------------------------------------- lookup

  function FindId(cs: seq<Container>, ref: string): (r: Option<Container>)
    ensures r.Some? ==> r.value in cs && r.value.id == ref
    ensures r.None? ==> forall c :: c in cs ==> c.id != ref
  {
    if cs == [] then None else if cs[0].id == ref then Some(cs[0]) else FindId(cs[1..], ref)
  }

  function FindName(cs: seq<Container>, ref: string): (r: Option<Container>)
    ensures r.Some? ==> r.value in cs && TrimSlash(r.value.name) == ref
    ensures r.None? ==> forall c :: c in cs ==> TrimSlash(c.name) != ref
  {
    if cs == [] then None else if TrimSlash(cs[0].name) == ref then Some(cs[0]) else FindName(cs[1..], ref)
  }

  /** How the daemon resolves a reference: an id first, then a name. */
  function Lookup(w: World, ref: string): Option<Container> {
    if ref == "" then None
    else
      var byId := FindId(w.containers, ref);
      if byId.Some? then byId else FindName(w.containers, ref)
  }

  /** The name a container is referred to by, with or without the slash the daemon puts before it. */
  predicate NamedAs(c: Container, name: string) {
    c.name == "/" + name || (c.name == name && (name == "" || name[0] != '/'))
  }

  lemma TrimSlashMeaning(c: Container, name: string)
    ensures TrimSlash(c.name) == name <==> NamedAs(c, name)
  {
    assert c.name != "" && c.name[0] == '/' ==> c.name == "/" + c.name[1..];
  }

  /** A reference leads to the container of this id, or else to the one of this name, or nowhere. */
  lemma LookupMeaning(w: World, ref: string, c: Container)
    requires Unique(w)
    ensures Lookup(w, ref) == Some(c) <==>
            && ref != "" && c in w.containers
            && (c.id == ref || (NamedAs(c, ref) && forall d :: d in w.containers ==> d.id != ref))
    ensures Lookup(w, ref).None? <==>
            ref == "" || forall d :: d in w.containers ==> d.id != ref && !NamedAs(d, ref)
  {
    forall d: Container
      ensures TrimSlash(d.name) == ref <==> NamedAs(d, ref)
    {
      TrimSlashMeaning(d, ref);
    }
    if ref != "" && c in w.containers {
      var byId, byName := FindId(w.containers, ref), FindName(w.containers, ref);
      assert c.id == ref ==> Clash(byId.value, c);
      assert NamedAs(c, ref) ==> Clash(byName.value, c);
    }
  }

  /** Two records that may not both be in the list. */
  predicate Clash(c: Container, d: Container) {
    c.id == d.id || (TrimSlash(c.name) == TrimSlash(d.name) && TrimSlash(c.name) != "")
  }

  /** No two containers share an id or a name. */
  predicate Unique(w: World) {
    forall c, d :: c in w.containers && d in w.containers && Clash(c, d) ==> c == d
  }

  // -------------------------------------------------------------------- helpers

  predicate IsHelper(c: Container) {
    Label(c.labels, LABEL_PORT_FORWARD) == "true"
  }

  function TargetOf(c: Container): string {
    Label(c.labels, LABEL_TARGET)
  }

  /** A running helper container. */
  predicate LiveHelper(c: Container) {
    IsHelper(c) && c.status == Running
  }

  /** A running helper of a target. */
  predicate Live(c: Container, target: string) {
    LiveHelper(c) && TargetOf(c) == target
  }

  /** The pairs a helper's label records. */
  function HelperPairs(c: Container): seq<PortPair> {
    DecodedPairs(Label(c.labels, LABEL_PORTS))
  }

  function Want(pairs: seq<PortPair>): set<PortPair> {
    set p | p in pairs :: Recorded(p)
  }

  /** The helper forwards some requested (local, remote, protocol). */
  predicate Overlaps(c: Container, pairs: seq<PortPair>) {
    exists p :: p in HelperPairs(c) && Recorded(p) in Want(pairs)
  }

  /** What `ListHelpers` returns: helpers in list order, of one target unless it is empty. */
  function HelpersIn(cs: seq<Container>, target: string): seq<Container> {
    if cs == [] then []
    else
      (if IsHelper(cs[0]) && (target == "" || TargetOf(cs[0]) == target) then [cs[0]] else [])
      + HelpersIn(cs[1..], target)
  }

  lemma {:induction false} HelpersMembers(cs: seq<Container>, target: string)
    ensures forall c :: c in HelpersIn(cs, target) <==>
                        c in cs && IsHelper(c) && (target == "" || TargetOf(c) == target)
  {
    if cs != [] {
      assert cs == [cs[0]] + cs[1..];
      HelpersMembers(cs[1..], target);
    }
  }

  /** The container carries a label of this value. */
  predicate Labelled(c: Container, key: string, value: string) {
    key in c.labels && c.labels[key] == value
  }

  /**
   What is listed: the containers labelled as helpers, those of the target unless it is
   empty, in the daemon's order.
   */
  lemma {:induction false} HelpersMeaning(cs: seq<Container>, ds: seq<Container>, target: string, c: Container)
    ensures c in HelpersIn(cs, target) <==>
            && c in cs && Labelled(c, "com.dokku.port-forward", "true")
            && (target == "" || Labelled(c, "com.dokku.port-forward.target", target))
    ensures HelpersIn(cs + ds, target) == HelpersIn(cs, target) + HelpersIn(ds, target)
    ensures |HelpersIn([c], target)| <= 1
  {
    HelpersMembers(cs, target);
    assert [c][1..] == [];
    if cs == [] {
      assert cs + ds == ds;
    } else {
      assert (cs + ds)[1..] == cs[1..] + ds;
      HelpersMeaning(cs[1..], ds, target, c);
    }
  }

  /** The first running helper of a list that overlaps the request. */
  function FirstOverlap(list: seq<Container>, pairs: seq<PortPair>): (r: Option<Container>)
    ensures r.Some? ==> r.value in list && r.value.status == Running && Overlaps(r.value, pairs)
    ensures r.None? ==> forall c :: c in list ==> !(c.status == Running && Overlaps(c, pairs))
  {
    if list == [] then None
    else if list[0].status == Running && Overlaps(list[0], pairs) then Some(list[0])
    else FirstOverlap(list[1..], pairs)
  }

  /** The helper a request would reuse or replace. */
  function OverlappingHelper(w: World, target: string, pairs: seq<PortPair>): Option<Container> {
    FirstOverlap(HelpersIn(w.containers, target), pairs)
  }

  /** No running helper of the target overlaps the request. */
  ghost predicate NoOverlap(w: World, target: string, pairs: seq<PortPair>) {
    forall c :: c in w.containers && Live(c, target) ==> !Overlaps(c, pairs)
  }

  lemma OverlappingMeaning(w: World, target: string, pairs: seq<PortPair>)
    requires target != ""
    ensures var r := OverlappingHelper(w, target, pairs);
            && (r.None? <==> NoOverlap(w, target, pairs))
            && (r.Some? ==> r.value in w.containers && Live(r.value, target) && Overlaps(r.value, pairs))
  {
    HelpersMembers(w.containers, target);
  }

  /** The first element of a list that overlaps, with nothing before it that does. */
  lemma {:induction false} FirstOverlapIsFirst(list: seq<Container>, pairs: seq<PortPair>, i: nat)
    requires i < |list| && list[i].status == Running && Overlaps(list[i], pairs)
    requires forall j :: 0 <= j < i ==> !(list[j].status == Running && Overlaps(list[j], pairs))
    ensures FirstOverlap(list, pairs) == Some(list[i])
  {
    if i > 0 {
      FirstOverlapIsFirst(list[1..], pairs, i - 1);
    }
  }

  /** Equal protocols, tcp being meant where none is given. */
  predicate SameProtocol(a: string, b: string) {
    a == b || ((a == "" || a == "tcp") && (b == "" || b == "tcp"))
  }

  /** Two pairs forward the same host port to the same container port. */
  predicate SameForward(p: PortPair, q: PortPair) {
    p.localPort == q.localPort && p.remotePort == q.remotePort && SameProtocol(p.protocol, q.protocol)
  }

  /** A running helper of the target that forwards some requested (local, remote, protocol). */
  ghost predicate ForwardsFor(c: Container, target: string, pairs: seq<PortPair>) {
    && c.status == Running
    && Labelled(c, "com.dokku.port-forward", "true")
    && Labelled(c, "com.dokku.port-forward.target", target)
    && exists p, q :: p in HelperPairs(c) && q in pairs && SameForward(p, q)
  }

  lemma OverlapMeaning(c: Container, target: string, pairs: seq<PortPair>)
    requires target != ""
    ensures Live(c, target) && Overlaps(c, pairs) <==> ForwardsFor(c, target, pairs)
  {
    SharedTriple(c, pairs);
  }

  /** A helper overlaps a request exactly when one of its pairs forwards the same as one requested. */
  lemma SharedTriple(c: Container, pairs: seq<PortPair>)
    ensures Overlaps(c, pairs) <==> exists p, q :: p in HelperPairs(c) && q in pairs && SameForward(p, q)
  {
    if p :| p in HelperPairs(c) && Recorded(p) in Want(pairs) {
      var q :| q in pairs && Recorded(q) == Recorded(p);
      assert SameForward(p, q);
    }
    if p, q :| p in HelperPairs(c) && q in pairs && SameForward(p, q) {
      assert Recorded(p) == Recorded(q);
    }
  }

  /** The first container of a list that forwards for the request, and its place in the list. */
  ghost predicate FirstForwarder(cs: seq<Container>, target: string, pairs: seq<PortPair>, i: nat) {
    i < |cs| && ForwardsFor(cs[i], target, pairs) && forall j :: 0 <= j < i ==> !ForwardsFor(cs[j], target, pairs)
  }

  /** The helper a request meets is the first running helper of its target that forwards a requested triple. */
  lemma {:induction false} FirstForwarderIsFound(cs: seq<Container>, target: string, pairs: seq<PortPair>, i: nat)
    requires target != "" && FirstForwarder(cs, target, pairs, i)
    ensures FirstOverlap(HelpersIn(cs, target), pairs) == Some(cs[i])
  {
    FirstOfMore(cs[0], cs[1..], target, pairs);
    assert [cs[0]] + cs[1..] == cs;
    if i > 0 {
      LaterForwarder(cs, target, pairs, i);
      FirstForwarderIsFound(cs[1..], target, pairs, i - 1);
    }
  }

  lemma LaterForwarder(cs: seq<Container>, target: string, pairs: seq<PortPair>, i: nat)
    requires i > 0 && FirstForwarder(cs, target, pairs, i)
    ensures FirstForwarder(cs[1..], target, pairs, i - 1)
  {
    assert forall j :: 0 <= j < i - 1 ==> cs[1..][j] == cs[j + 1];
  }

  lemma FirstOfMore(c: Container, cs: seq<Container>, target: string, pairs: seq<PortPair>)
    requires target != ""
    ensures FirstOverlap(HelpersIn([c] + cs, target), pairs)
         == if ForwardsFor(c, target, pairs) then Some(c) else FirstOverlap(HelpersIn(cs, target), pairs)
  {
    OverlapMeaning(c, target, pairs);
    assert ([c] + cs)[1..] == cs;
    var rest := HelpersIn(cs, target);
    assert ([c] + rest)[1..] == rest && [] + rest == rest;
    assert HelpersIn([c] + cs, target)
        == (if IsHelper(c) && (target == "" || TargetOf(c) == target) then [c] else []) + rest;
  }

  lemma NoneForwards(cs: seq<Container>, target: string, pairs: seq<PortPair>)
    requires target != "" && forall c :: c in cs ==> !ForwardsFor(c, target, pairs)
    ensures FirstOverlap(HelpersIn(cs, target), pairs) == None
  {
    HelpersMembers(cs, target);
    forall c | c in cs
      ensures !(Live(c, target) && Overlaps(c, pairs))
    {
      OverlapMeaning(c, target, pairs);
    }
  }

  lemma {:induction false} FirstForwarderExists(cs: seq<Container>, target: string, pairs: seq<PortPair>, k: nat)
    returns (i: nat)
    requires k < |cs| && ForwardsFor(cs[k], target, pairs)
    ensures FirstForwarder(cs, target, pairs, i)
    decreases k
  {
    if j: nat :| j < k && ForwardsFor(cs[j], target, pairs) {
      i := FirstForwarderExists(cs, target, pairs, j);
    } else {
      i := k;
    }
  }

  /** Which helper a request meets, if any. */
  lemma OverlappingIsFirst(w: World, target: string, pairs: seq<PortPair>, c: Container)
    requires target != ""
    ensures OverlappingHelper(w, target, pairs) == Some(c) <==>
            exists i: nat :: FirstForwarder(w.containers, target, pairs, i) && w.containers[i] == c
    ensures OverlappingHelper(w, target, pairs).None? <==>
            forall x :: x in w.containers ==> !ForwardsFor(x, target, pairs)
  {
    if exists x :: x in w.containers && ForwardsFor(x, target, pairs) {
      var k: nat :| k < |w.containers| && ForwardsFor(w.containers[k], target, pairs);
      var i := FirstForwarderExists(w.containers, target, pairs, k);
      FirstForwarderIsFound(w.containers, target, pairs, i);
    } else {
      NoneForwards(w.containers, target, pairs);
    }
    if i: nat :| FirstForwarder(w.containers, target, pairs, i) && w.containers[i] == c {
      FirstForwarderIsFound(w.containers, target, pairs, i);
    }
  }

  lemma {:induction false} RecordedMembers(ps: seq<PortPair>, r: PortPair)
    ensures r in RecordedAll(ps) <==> exists p :: p in ps && Recorded(p) == r
  {
    if r in RecordedAll(ps) {
      var i :| 0 <= i < |ps| && RecordedAll(ps)[i] == r;
      assert ps[i] in ps;
    }
    if p :| p in ps && Recorded(p) == r {
      var i :| 0 <= i < |ps| && ps[i] == p;
      assert RecordedAll(ps)[i] == r;
    }
  }

  /**
   Overlap agreement. On a label written for tcp and udp pairs, a helper overlaps a
   request exactly when one of its pairs and one of the request's forward the same
   (local, remote, protocol). Addresses play no part.
   */
  lemma OverlapAgreement(c: Container, ps: seq<PortPair>, pairs: seq<PortPair>)
    requires Label(c.labels, LABEL_PORTS) == PairsText(ps)
    requires forall p :: p in ps ==> SupportedProtocol(p.protocol)
    ensures Overlaps(c, pairs) <==> exists p, q :: p in ps && q in pairs && SameForward(p, q)
  {
    SupportedListIsRead(ps);
    WantMeaning(ps, pairs);
  }

  lemma WantMeaning(ps: seq<PortPair>, pairs: seq<PortPair>)
    ensures (exists r :: r in RecordedAll(ps) && Recorded(r) in Want(pairs))
       <==> (exists p, q :: p in ps && q in pairs && SameForward(p, q))
  {
    if r :| r in RecordedAll(ps) && Recorded(r) in Want(pairs) {
      RecordedMembers(ps, r);
      var p :| p in ps && Recorded(p) == r;
      var q :| q in pairs && Recorded(q) == Recorded(r);
      assert SameForward(p, q);
    }
    if p, q :| p in ps && q in pairs && SameForward(p, q) {
      RecordedMembers(ps, Recorded(p));
      assert Recorded(Recorded(p)) == Recorded(q);
    }
  }

  // ------------------------------------------------------------ changes to a world

  function Without(cs: seq<Container>, id: string): (r: seq<Container>)
    ensures forall c :: c in r <==> c in cs && c.id != id
  {
    if cs == [] then [] else (if cs[0].id == id then [] else [cs[0]]) + Without(cs[1..], id)
  }

  function WithStatus(cs: seq<Container>, id: string, status: Status, exitCode: int): (r: seq<Container>)
    ensures |r| == |cs|
    ensures forall i :: 0 <= i < |cs| ==>
                          r[i] == if cs[i].id == id then cs[i].(status := status, exitCode := exitCode) else cs[i]
  {
    if cs == [] then []
    else
      [if cs[0].id == id then cs[0].(status := status, exitCode := exitCode) else cs[0]]
      + WithStatus(cs[1..], id, status, exitCode)
  }

  /** The same container, in whatever status. */
  predicate SameContainer(c: Container, d: Container) {
    c == d.(status := c.status, exitCode := c.exitCode)
  }

  /** Only the status or presence of one container may have changed. */
  ghost predicate OnlyTouches(w: World, w': World, id: string) {
    && w'.networks == w.networks
    && (forall c :: c in w'.containers ==> c in w.containers || (c.id == id && StillIn(c, w)))
    && (forall c :: c in w.containers && c.id != id ==> c in w'.containers)
    && (Unique(w) ==> Unique(w'))
  }

  ghost predicate StillIn(c: Container, w: World) {
    exists d :: d in w.containers && SameContainer(c, d)
  }

  lemma OnlyTouchesSelf(w: World, id: string)
    ensures OnlyTouches(w, w, id)
  {
  }

  lemma OnlyTouchesTwice(w0: World, w1: World, w2: World, id: string)
    requires OnlyTouches(w0, w1, id) && OnlyTouches(w1, w2, id)
    ensures OnlyTouches(w0, w2, id)
  {
    forall c | c in w2.containers && c !in w0.containers
      ensures c.id == id && StillIn(c, w0)
    {
      if c !in w1.containers {
        var d :| d in w1.containers && SameContainer(c, d);
        if d !in w0.containers {
          var e :| e in w0.containers && SameContainer(d, e);
          assert SameContainer(c, e);
        }
      }
    }
  }

  lemma WithoutTouches(w: World, id: string)
    ensures OnlyTouches(w, w.(containers := Without(w.containers, id)), id)
  {
  }

  lemma WithStatusTouches(w: World, id: string, status: Status, exitCode: int)
    ensures OnlyTouches(w, w.(containers := WithStatus(w.containers, id, status, exitCode)), id)
  {
    var cs, r := w.containers, WithStatus(w.containers, id, status, exitCode);
    forall c | c in r
      ensures c in cs || (c.id == id && StillIn(c, w))
    {
      var d := Origin(cs, id, status, exitCode, c);
      assert SameContainer(c, d);
    }
    forall c | c in cs && c.id != id
      ensures c in r
    {
      var i :| 0 <= i < |cs| && cs[i] == c;
      assert r[i] == c;
    }
    if Unique(w) {
      forall c, d | c in r && d in r && Clash(c, d)
        ensures c == d
      {
        var c0 := Origin(cs, id, status, exitCode, c);
        var d0 := Origin(cs, id, status, exitCode, d);
        assert Clash(c0, d0);
      }
    }
  }

  lemma Origin(cs: seq<Container>, id: string, status: Status, exitCode: int, c: Container) returns (d: Container)
    requires c in WithStatus(cs, id, status, exitCode)
    ensures d in cs && c == if d.id == id then d.(status := status, exitCode := exitCode) else d
  {
    var i :| 0 <= i < |cs| && WithStatus(cs, id, status, exitCode)[i] == c;
    d := cs[i];
  }

  // ------------------------------------------------------------- adding a container

  /** An id the daemon may give to a new container. */
  ghost predicate FreshId(w: World, id: string) {
    id != "" && forall c :: c in w.containers ==> c.id != id && TrimSlash(c.name) != id
  }

  ghost predicate NameFree(w: World, name: string) {
    forall c :: c in w.containers ==> TrimSlash(c.name) != name
  }

  ghost predicate Added(w: World, w': World, c: Container) {
    && w'.networks == w.networks
    && FreshId(w, c.id) && NameFree(w, TrimSlash(c.name))
    && (forall d :: d in w'.containers <==> d in w.containers || d == c)
  }

  lemma AddedIsUnique(w: World, w': World, c: Container)
    requires Added(w, w', c) && Unique(w)
    ensures Unique(w')
  {
  }

  function Longest(cs: seq<Container>): (n: nat)
    ensures forall c :: c in cs ==> |c.id| <= n && |c.name| <= n
  {
    if cs == [] then 0
    else
      var n := Longest(cs[1..]);
      var m := if |cs[0].id| > |cs[0].name| then |cs[0].id| else |cs[0].name|;
      if m > n then m else n
  }

  /** Some id not in use. */
  function UnusedId(w: World, extra: nat): (id: string)
    ensures FreshId(w, id)
  {
    seq(Longest(w.containers) + 1 + extra, _ => 'f')
  }

  // ------------------------------------------------------------------ resolution

  /** A world in which some running helpers were removed or are being removed. */
  ghost predicate Pruned(w: World, w': World) {
    && w'.networks == w.networks
    && Unique(w')
    && (forall c :: c in w'.containers ==> c in w.containers || (c.status == Removing && StillIn(c, w)))
    && (forall c :: c in w.containers && !LiveHelper(c) ==> c in w'.containers)
  }

  lemma PrunedSelf(w: World)
    requires Unique(w)
    ensures Pruned(w, w)
  {
  }

  lemma PrunedTwice(w0: World, w1: World, w2: World)
    requires Pruned(w0, w1) && Pruned(w1, w2)
    ensures Pruned(w0, w2)
  {
    forall c | c in w2.containers && c !in w0.containers
      ensures c.status == Removing && StillIn(c, w0)
    {
      if c !in w1.containers {
        var d :| d in w1.containers && SameContainer(c, d);
        if d !in w0.containers {
          var e :| e in w0.containers && SameContainer(d, e);
          assert SameContainer(c, e);
        }
      }
    }
  }

  /** A world that grew by one container, in whatever status it is by now, or gone again. */
  ghost predicate Grown(w: World, w': World, c: Container) {
    && w'.networks == w.networks
    && FreshId(w, c.id) && NameFree(w, TrimSlash(c.name))
    && (Unique(w) ==> Unique(w'))
    && (forall d :: d in w'.containers ==> d in w.containers || SameContainer(d, c))
    && (forall d :: d in w.containers ==> d in w'.containers)
  }

  lemma AddedThenTouched(w: World, w1: World, w2: World, c: Container)
    requires Added(w, w1, c) && OnlyTouches(w1, w2, c.id)
    ensures Grown(w, w2, c)
  {
    if Unique(w) {
      AddedIsUnique(w, w1, c);
    }
    forall d | d in w2.containers && d !in w.containers
      ensures SameContainer(d, c)
    {
      if d != c {
        assert d !in w1.containers;
        var e :| e in w1.containers && SameContainer(d, e);
        assert e.id == c.id;
        assert e == c;
      }
    }
  }

  /** Removing helpers leaves references to other containers alone. */
  lemma PrunedKeepsLookup(w: World, w': World, ref: string, c: Container)
    requires Pruned(w, w') && Lookup(w, ref) == Some(c) && !LiveHelper(c)
    ensures Lookup(w', ref) == Some(c)
  {
    assert c in w'.containers;
    if c.id == ref {
      var byId := FindId(w'.containers, ref);
      assert byId.Some? && Clash(byId.value, c);
    } else {
      PrunedHasNoId(w, w', ref);
      var byName := FindName(w'.containers, ref);
      assert byName.Some? && Clash(byName.value, c);
    }
  }

  lemma PrunedHasNoId(w: World, w': World, id: string)
    requires Pruned(w, w') && forall d :: d in w.containers ==> d.id != id
    ensures FindId(w'.containers, id).None?
  {
    forall d | d in w'.containers
      ensures d.id != id
    {
      if d !in w.containers {
        var e :| e in w.containers && SameContainer(d, e);
      }
    }
  }

  /** A reference to nothing, or to what is no running helper, resolves in a pruned world as before. */
  lemma PrunedSameLookup(w: World, w': World, ref: string)
    requires Pruned(w, w') && (Lookup(w, ref).Some? ==> !LiveHelper(Lookup(w, ref).value))
    ensures Lookup(w', ref) == Lookup(w, ref)
  {
    if Lookup(w, ref).Some? {
      PrunedKeepsLookup(w, w', ref, Lookup(w, ref).value);
    } else if ref != "" {
      PrunedHasNoId(w, w', ref);
      forall d | d in w'.containers
        ensures TrimSlash(d.name) != ref
      {
        if d !in w.containers {
          var e :| e in w.containers && SameContainer(d, e);
        }
      }
    }
  }

  /** So does adding a container. */
  lemma GrownKeepsLookup(w: World, w': World, ref: string, c: Container, added: Container)
    requires Grown(w, w', added) && Unique(w) && Lookup(w, ref) == Some(c)
    ensures Lookup(w', ref) == Some(c)
  {
    assert c in w'.containers;
    var byId := FindId(w'.containers, ref);
    if c.id == ref {
      assert byId.Some? && Clash(byId.value, c);
    } else {
      assert forall d :: d in w.containers ==> d.id != ref;
      assert added.id != ref;
      assert byId.None?;
      var byName := FindName(w'.containers, ref);
      assert byName.Some? && Clash(byName.value, c);
    }
  }
}
