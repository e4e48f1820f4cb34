/** `StartForward`: one run of the reconcile protocol (internal/forward.go). */
module Forward {
  import opened Wrappers
  import opened Text
  import opened Order
  import opened Ports
  import opened Codec
  import opened Config
  import opened World
  import opened Daemon
  import opened Drift
  import opened Labels
  import opened Networks
  import opened Reconcile
  import opened Retry
  import Socat
  import Range = SourceRange

  /** What surrounds the program: address parsing, range parsing, and the host's sockets. */
  datatype Platform = Platform(netip: Netip, ranges: Range.Netip, host: Host)

  datatype ForwardInput = ForwardInput(
    targetID: string,
    pairs: seq<PortPair>,
    addresses: seq<string>,
    detach: bool,
    name: string,
    extraLabels: map<string, string>,
    skipPreflight: bool,
    sourceRange: Range.Prefix,
    network: string,
    runningTimeout: nat,
    udpSeconds: int,
    halfClose: Option<string>,
    restartPolicy: string)

  datatype ForwardResult = ForwardResult(helperID: string, helperName: string, pairs: seq<PortPair>, existing: bool)

  datatype ForwardError =
    | NoTarget
    | NoPairs
    | NoListenAddresses
    | NoLocalPort
    | TargetNotInspected
    | NetworkNotPicked(reason: PickError)
    | NotReconciled(error: ReconcileError)
    | OrphansNotRemoved
    | PortsNotAvailable
    | ImageNotAvailable
    | CreateFailed
    | StartFailed
    | NotRunning

  // ---------------------------------------------------------- launching the helper

  /** A container that some daemon calls started from is still there, in whatever status. */
  ghost predicate Present(w: World, c: Container) {
    exists x :: x in w.containers && x.id == c.id
  }

  /** It is there and running. */
  ghost predicate Runs(w: World, c: Container) {
    exists x :: x in w.containers && x.status == Running && SameContainer(x, c)
  }

  /** Milliseconds a teardown may take. */
  const STOP_TIMEOUT := 10000

  /**
   `stopAndRemove`, outside the run's own context but under a deadline of its own: a
   removal that comes after the deadline changes nothing.
   */
  method StopAndRemove(d: Client, id: string)
    modifies d`world, d`clock, d`canceled, d`log
    ensures d.clock >= old(d.clock) && (old(d.canceled) ==> d.canceled)
    ensures OnlyTouches(old(d.world), d.world, id)
    ensures |d.log| == |old(d.log)| + 1 && d.log[..|old(d.log)|] == old(d.log)
    ensures d.log[|old(d.log)|].Removal? && d.log[|old(d.log)|].id == id
    ensures OnlyTouches(old(d.world), d.log[|old(d.log)|].before, id)
    ensures d.clock >= old(d.clock) + STOP_TIMEOUT ==> d.world == d.log[|old(d.log)|].before
    ensures d.reliable && d.clock < old(d.clock) + STOP_TIMEOUT ==> forall c :: c in d.world.containers ==> c.id != id
  {
    ghost var w0 := d.world;
    var ctx := Until(d.clock + STOP_TIMEOUT);
    var stopped := d.Stop(ctx, id);
    ghost var w1 := d.world;
    var removed := d.Remove(ctx, id);
    OnlyTouchesTwice(w0, w1, d.world, id);
  }

  /** The events of a launch: the creation, and at most one removal of what was created. */
  ghost predicate LaunchEvents(before: seq<Event>, after: seq<Event>, id: string, removed: bool) {
    && |after| == |before| + (if removed then 2 else 1)
    && after[..|before|] == before
    && after[|before|] == Creation(id)
    && (removed ==> after[|before| + 1].Removal? && after[|before| + 1].id == id)
  }

  /**
   What a run's start calls come to: none without a container, one unless retried, a bounded number,
   and the last one decides.
   */
  predicate StartCalls(before: seq<Option<DaemonError>>, after: seq<Option<DaemonError>>, created: bool,
                       started: bool, retry: bool) {
    && before <= after
    && (if created then |after| > |before| else after == before)
    && (created && !retry ==> |after| == |before| + 1)
    && |after| <= |before| + 52
    && (created && started ==> after[|after| - 1] == None)
  }

  /**
   The removal that ends a run came when its context was done: the run's own context
   after a failed start, the teardown's after an attached run.
   */
  ghost predicate TooLate(d: Client, failure: Option<ForwardError>)
    reads d
  {
    || (failure == Some(StartFailed) && d.canceled)
    || (failure.None? && d.clock >= d.doneAt + STOP_TIMEOUT)
  }

  /**
   Why a created container does not run, when the daemon works and the run's context is
   live: a port is held, past the time for its release when the start was retried; or the
   time allowed for running has passed; or it had exited with an error when it was removed.
   */
  ghost predicate FailedFor(d: Client, start: nat, timeout: nat, retry: bool, failure: Option<ForwardError>, id: string)
    reads d
  {
    && (failure == Some(StartFailed) ==>
          && |d.starts| > 0 && d.starts[|d.starts| - 1] == Some(PortConflict)
          && (retry ==> d.clock > start + PORT_RELEASE_TIMEOUT))
    && (failure == Some(NotRunning) ==>
          || d.clock > start + timeout
          || (|d.log| > 0 && d.log[|d.log| - 1].Removal? && HasFailed(d.log[|d.log| - 1].before, id)))
  }

  /** One more event: a removal of this container. */
  ghost predicate AddsRemoval(before: seq<Event>, after: seq<Event>, id: string) {
    |after| == |before| + 1 && after[..|before|] == before && after[|before|].Removal? && after[|before|].id == id
  }

  /** Start; a failed start is torn down under the run's own context. */
  method StartCreated(d: Client, id: string, retry: bool) returns (started: bool)
    modifies d`world, d`clock, d`canceled, d`log, d`starts
    ensures d.clock >= old(d.clock) && (old(d.canceled) ==> d.canceled)
    ensures OnlyTouches(old(d.world), d.world, id)
    ensures StartCalls(old(d.starts), d.starts, true, started, retry)
    ensures if started then d.log == old(d.log) else AddsRemoval(old(d.log), d.log, id)
    ensures !started && d.canceled ==> d.world == old(d.world)
    ensures !started && d.reliable && !d.canceled ==> forall c :: c in d.world.containers ==> c.id != id
    ensures !started && d.reliable && !d.canceled ==> FailedFor(d, old(d.clock), 0, retry, Some(StartFailed), id)
  {
    var err;
    ghost var attempts;
    err, attempts := StartWithPortRetry(d, id, retry, PORT_RELEASE_TIMEOUT);
    if err.Some? {
      var removed := d.Remove(Run, id);
    }
    started := err.None?;
  }

  /** Wait for running and, in an attached run, for the end; a helper that does not run is torn down. */
  method ServeCreated(d: Client, id: string, detach: bool, timeout: nat) returns (running: bool)
    modifies d`world, d`clock, d`canceled, d`log, d`doneAt
    ensures d.clock >= old(d.clock) && (old(d.canceled) ==> d.canceled)
    ensures OnlyTouches(old(d.world), d.world, id)
    ensures if running && detach then d.log == old(d.log) else AddsRemoval(old(d.log), d.log, id)
    ensures running && detach ==> Lookup(d.world, id).Some? && Lookup(d.world, id).value.status == Running
    ensures running && !detach && d.clock >= d.doneAt + STOP_TIMEOUT ==> d.world == d.log[|old(d.log)|].before
    ensures d.reliable && !(running && (detach || d.clock >= d.doneAt + STOP_TIMEOUT)) ==>
              forall c :: c in d.world.containers ==> c.id != id
    ensures !running && !d.canceled ==> FailedFor(d, old(d.clock), timeout, false, Some(NotRunning), id)
  {
    ghost var w0 := d.world;
    ghost var attempts;
    running, attempts := WaitForRunning(d, id, timeout);
    ghost var w1 := d.world;
    if !running {
      var removed := d.Remove(Background, id);
      OnlyTouchesTwice(w0, w1, d.world, id);
    } else if !detach {
      d.AwaitCancel();
      StopAndRemove(d, id);
      OnlyTouchesTwice(w0, w1, d.world, id);
    }
  }

  /** From the start to the end of a run: what it created keeps running, or its removal is the last act. */
  method RunCreated(d: Client, id: string, retry: bool, detach: bool, timeout: nat)
    returns (failure: Option<ForwardError>)
    modifies d
    ensures d.clock >= old(d.clock) && (old(d.canceled) ==> d.canceled)
    ensures OnlyTouches(old(d.world), d.world, id)
    ensures failure.Some? ==> failure.value == StartFailed || failure.value == NotRunning
    ensures StartCalls(old(d.starts), d.starts, true, failure != Some(StartFailed), retry)
    ensures if failure.None? && detach then d.log == old(d.log) else AddsRemoval(old(d.log), d.log, id)
    ensures failure.None? && detach ==> Lookup(d.world, id).Some? && Lookup(d.world, id).value.status == Running
    ensures d.reliable && !(failure.None? && detach) && !TooLate(d, failure) ==>
              forall c :: c in d.world.containers ==> c.id != id
    ensures failure == Some(StartFailed) && d.canceled ==> d.world == old(d.world)
    ensures failure.None? && !detach && TooLate(d, failure) ==> d.world == d.log[|old(d.log)|].before
    ensures d.reliable && !d.canceled ==> FailedFor(d, old(d.clock), timeout, retry, failure, id)
  {
    ghost var w0 := d.world;
    var started := StartCreated(d, id, retry);
    if !started {
      return Some(StartFailed);
    }
    ghost var w1 := d.world;
    var running := ServeCreated(d, id, detach, timeout);
    OnlyTouchesTwice(w0, w1, d.world, id);
    failure := if running then None else Some(NotRunning);
  }

  function Failure<T>(r: Result<T, ForwardError>): Option<ForwardError> {
    if r.Ok? then None else Some(r.error)
  }

  /** The last thing done was to ask for the removal of this container. */
  ghost predicate EndsWithRemoval(log0: seq<Event>, log: seq<Event>, id: string) {
    |log| > |log0| && log[|log| - 1].Removal? && log[|log| - 1].id == id
  }

  /**
   Unless a detached run succeeded, its last act is to remove what it created. On a
   reliable daemon something of it stays exactly when that came too late: after a failed
   start when the run's context was done by then, and after an attached run when the
   teardown had used up its time and stopping had not already made the helper go.
   */
  ghost predicate NoLeak(d: Client, log0: seq<Event>, detach: bool, failure: Option<ForwardError>,
                         created: Option<Container>)
    reads d
  {
    && (failure == Some(StartFailed) ==> created.Some?)
    && (created.Some? && !(failure.None? && detach) ==>
          && EndsWithRemoval(log0, d.log, created.value.id)
          && (d.reliable ==>
                (Present(d.world, created.value) <==>
                 || (failure == Some(StartFailed) && d.canceled)
                 || (failure.None? && d.clock >= d.doneAt + STOP_TIMEOUT
                     && Present(d.log[|d.log| - 1].before, created.value)))))
  }

  /** Create the helper and run it. */
  method Launch(d: Client, name: string, spec: HelperSpec, retry: bool, detach: bool, timeout: nat)
    returns (r: Result<string, ForwardError>, ghost created: Option<Container>)
    modifies d
    ensures d.clock >= old(d.clock) && (old(d.canceled) ==> d.canceled)
    ensures created.None? ==> r == Err(CreateFailed) && d.world == old(d.world) && d.log == old(d.log)
    ensures created.Some? ==>
              && Grown(old(d.world), d.world, created.value)
              && created.value == NewContainer(created.value.id, name, spec)
              && LaunchEvents(old(d.log), d.log, created.value.id, !(r.Ok? && detach))
    ensures r.Ok? ==> created.Some? && r.value == created.value.id
    ensures r.Ok? && detach ==> Runs(d.world, created.value)
    ensures r.Err? ==> r.error == CreateFailed || r.error == StartFailed || r.error == NotRunning
    ensures r == Err(CreateFailed) <==> created.None?
    ensures created.Some? ==> !old(d.canceled)
    ensures StartCalls(old(d.starts), d.starts, created.Some?, r != Err(StartFailed), retry)
    ensures d.reliable && !d.canceled && r == Err(CreateFailed) ==> !NameFree(d.world, name)
    ensures NoLeak(d, old(d.log), detach, Failure(r), created)
    ensures d.reliable && !d.canceled && created.Some? ==>
              FailedFor(d, old(d.clock), timeout, retry, Failure(r), created.value.id)
  {
    ghost var w0, log0 := d.world, d.log;
    var id := d.Create(Run, name, spec);
    if id.Err? {
      return Err(CreateFailed), None;
    }
    ghost var c := NewContainer(id.value, name, spec);
    ghost var w1, log1 := d.world, d.log;
    assert c in w1.containers;
    var failure := RunCreated(d, id.value, retry, detach, timeout);
    AddedThenTouched(w0, w1, d.world, c);
    LaunchIsLogged(d, w1, log0, log1, c, detach, failure);
    if failure.None? && detach {
      RunningIsCreated(w0, d.world, c);
    }
    r, created := if failure.Some? then Err(failure.value) else Ok(id.value), Some(c);
  }

  lemma LaunchIsLogged(d: Client, w1: World, log0: seq<Event>, log1: seq<Event>, c: Container, detach: bool,
                       failure: Option<ForwardError>)
    requires log1 == log0 + [Creation(c.id)] && c in w1.containers
    requires if failure.None? && detach then d.log == log1 else AddsRemoval(log1, d.log, c.id)
    requires failure == Some(StartFailed) && d.canceled ==> d.world == w1
    requires failure.None? && !detach && TooLate(d, failure) ==> d.world == d.log[|log1|].before
    requires d.reliable && !(failure.None? && detach) && !TooLate(d, failure) ==>
              forall x :: x in d.world.containers ==> x.id != c.id
    ensures LaunchEvents(log0, d.log, c.id, !(failure.None? && detach))
    ensures NoLeak(d, log0, detach, failure, Some(c))
  {
    assert d.log[..|log1|] == log1;
    assert log1[|log0|] == Creation(c.id);
  }

  /** What the daemon resolves the new id to is the new container. */
  lemma RunningIsCreated(w0: World, w: World, c: Container)
    requires Grown(w0, w, c) && Lookup(w, c.id).Some? && Lookup(w, c.id).value.status == Running
    ensures Runs(w, c)
  {
    var x := Lookup(w, c.id).value;
    assert x in w.containers;
    assert x in w0.containers ==> x.id != c.id && TrimSlash(x.name) != c.id;
  }

  // ------------------------------------------------------------------- preparing

  function WantedOf(plat: Platform, input: ForwardInput, pairs: seq<PortPair>): Wanted {
    Wanted(input.targetID, pairs, Range.RangeLabel(plat.ranges, input.sourceRange), input.network)
  }

  /** Input that `StartForward` does not refuse at once. */
  predicate Acceptable(input: ForwardInput) {
    input.targetID != "" && input.pairs != [] && Expanded(input.addresses) != []
  }

  /** What is asked of a request: a target, a pair, and addresses that are not all blank, if any are given. */
  lemma AcceptableMeaning(input: ForwardInput)
    ensures Acceptable(input) <==>
            && input.targetID != "" && input.pairs != []
            && (input.addresses == [] || exists a :: a in input.addresses && TrimSpace(a) != "")
  {
    var list := Expanded(input.addresses);
    if a :| a in input.addresses && TrimSpace(a) != "" {
      ExpansionMeaning(input.addresses, OneAddress(a)[0]);
    }
    if input.addresses != [] && list != [] {
      ExpansionMeaning(input.addresses, list[0]);
      assert list[0] in list;
    }
    ExpansionMeaning([], "");
  }

  predicate ExplicitPorts(input: ForwardInput) {
    forall p :: p in input.pairs ==> p.localPort != 0
  }

  /** The target can be inspected and a network be picked for it. */
  ghost predicate TargetReady(w: World, target: string, network: string) {
    Lookup(w, target).Some? && Pickable(w, Lookup(w, target).value, network)
  }

  datatype Prepared = Prepared(pairs: seq<PortPair>, target: Container, pick: Pick)

  /** Everything before the first removal: argument checks, ports, the target and its network. */
  method Prepare(d: Client, input: ForwardInput) returns (r: Result<Prepared, ForwardError>)
    modifies d`clock, d`canceled
    ensures d.clock >= old(d.clock) && (old(d.canceled) ==> d.canceled)
    ensures r.Ok? ==>
              && Acceptable(input) && Resolves(input.pairs, r.value.pairs)
              && Lookup(d.world, input.targetID) == Some(r.value.target)
              && PickResult(d.world, r.value.target, input.network, Ok(r.value.pick))
    ensures d.reliable && !d.canceled && Acceptable(input) && ExplicitPorts(input) ==>
              TargetReady(d.world, input.targetID, input.network) ==> r.Ok?
    ensures r.Err? ==> r.error != StartFailed && r.error != CreateFailed && r.error != NotRunning
  {
    if input.targetID == "" {
      return Err(NoTarget);
    }
    if input.pairs == [] {
      return Err(NoPairs);
    }
    var addresses := ExpandAddresses(input.addresses);
    if addresses == [] {
      return Err(NoListenAddresses);
    }
    var pairs := ResolveAutoPorts(input.pairs);
    if pairs.None? {
      return Err(NoLocalPort);
    }
    var target := d.Inspect(Run, input.targetID);
    if target.Err? {
      return Err(TargetNotInspected);
    }
    var pick := PickTargetNetwork(d, target.value, input.network);
    if pick.Err? {
      PickAgrees(d.world, target.value, input.network, pick);
      return Err(NetworkNotPicked(pick.error));
    }
    r := Ok(Prepared(pairs.value, target.value, pick.value));
  }

  lemma PickAgrees(w: World, c: Container, network: string, r: Result<Pick, PickError>)
    requires r.Err? && (r != Err(DaemonFailed) ==> PickResult(w, c, network, r))
    ensures Pickable(w, c, network) ==> r == Err(DaemonFailed)
  {
    if p :| PickResult(w, c, network, Ok(p)) {
      if PickResult(w, c, network, r) {
        PickIsUnique(w, c, network, r, Ok(p));
      }
    }
  }

  // ------------------------------------------------------------------- making way

  /** A removal that `StartForward` may make, of a running helper of the world it started from. */
  ghost predicate Justified(e: Event, netip: Netip, w: World, want: Wanted) {
    e.Removal? && Pruned(w, e.before)
    && exists c :: c in w.containers && c.id == e.id
                              && (Replaceable(netip, e.before, c, want) || Orphan(e.before, c, want.target, want.pairs))
  }

  /** Neither what the helper serves nor what it dials is a running helper. */
  ghost predicate LeadsToNoHelper(w: World, c: Container) {
    && (Lookup(w, TargetOf(c)).Some? ==> !LiveHelper(Lookup(w, TargetOf(c)).value))
    && (Lookup(w, AddressOf(c)).Some? ==> !LiveHelper(Lookup(w, AddressOf(c)).value))
  }

  /**
   Why a run may take a helper away, spelled out. A helper of the request's own target
   forwards something requested, and cannot reach the target or differs in range or
   network; one of another target holds a requested host port, and its target is gone.
   */
  lemma ReasonsToRemove(netip: Netip, w: World, c: Container, want: Wanted)
    ensures Replaceable(netip, w, c, want) || Orphan(w, c, want.target, want.pairs) <==>
            && c.status == Running && Labelled(c, "com.dokku.port-forward", "true")
            && (if TargetOf(c) == want.target then
                  && (exists p, q :: p in HelperPairs(c) && q in want.pairs && SameForward(p, q))
                  && (|| Stale(netip, w, c)
                      || RangeOf(c) != want.range
                      || (want.network != "" && NetworkOf(c) != want.network))
                else
                  && (exists p, q :: p in HelperPairs(c) && q in want.pairs && SameHostPort(p, q))
                  && TargetOf(c) != "" && Lookup(w, TargetOf(c)).None?)
  {
    SharedTriple(c, want.pairs);
    CollisionMeaning(c, want.pairs);
  }

  /**
   A justified removal is one of a helper that was outdated, or an orphan, in the world
   the run started from already, unless that helper leads to another running helper.
   */
  lemma JustifiedFromStart(e: Event, netip: Netip, w: World, want: Wanted)
    requires Justified(e, netip, w, want)
    ensures exists c :: c in w.containers && c.id == e.id
                        && (LeadsToNoHelper(w, c) ==>
                              Replaceable(netip, w, c, want) || Orphan(w, c, want.target, want.pairs))
  {
    var c :| c in w.containers && c.id == e.id
             && (Replaceable(netip, e.before, c, want) || Orphan(e.before, c, want.target, want.pairs));
    if LeadsToNoHelper(w, c) {
      PrunedSameLookup(w, e.before, TargetOf(c));
      PrunedSameLookup(w, e.before, AddressOf(c));
    }
  }

  ghost predicate AllJustified(events: seq<Event>, netip: Netip, w: World, want: Wanted) {
    forall e :: e in events ==> Justified(e, netip, w, want)
  }

  lemma RemovalsAreJustified(log0: seq<Event>, log1: seq<Event>, log2: seq<Event>, netip: Netip, w0: World, w1: World,
                             want: Wanted)
    requires log0 <= log1 <= log2 && Pruned(w0, w1)
    requires Replacements(log1[|log0|..], netip, w0, want)
    requires OrphanRemovals(log2[|log1|..], w1, want.target, want.pairs)
    ensures AllJustified(log2[|log0|..], netip, w0, want)
  {
    assert log2[|log0|..] == log1[|log0|..] + log2[|log1|..];
    forall e | e in log2[|log1|..]
      ensures Justified(e, netip, w0, want)
    {
      var c :| c in w1.containers && c.id == e.id && Orphan(e.before, c, want.target, want.pairs);
      PrunedTwice(w0, w1, e.before);
      assert c in w0.containers;
    }
  }

  lemma ReplacementsAreJustified(events: seq<Event>, netip: Netip, w0: World, want: Wanted)
    requires Replacements(events, netip, w0, want)
    ensures AllJustified(events, netip, w0, want)
  {
  }

  /** Pulling the image may fail; a reliable daemon has it. */
  method EnsureHelperImage(d: Client) returns (ok: bool)
    modifies d`clock, d`canceled
    ensures d.clock >= old(d.clock) && (old(d.canceled) ==> d.canceled)
    ensures d.reliable && !d.canceled ==> ok
  {
    var failed := d.Fails(Run);
    ok := !failed;
  }

  /** At some time in between, every binding these pairs publish could be bound on the host. */
  ghost predicate Preflighted(host: Host, from: nat, to: nat, pairs: seq<PortPair>, addresses: seq<string>) {
    exists now :: from <= now <= to && PreflightClean(host, now, Bindings(pairs, addresses))
  }

  /**
   At some time in between, some binding these pairs publish could not be bound; when a
   helper was removed first, that was after the time allowed for its ports' release.
   */
  ghost predicate HoldsPorts(host: Host, from: nat, to: nat, removed: bool, pairs: seq<PortPair>,
                             addresses: seq<string>) {
    exists now :: from <= now <= to && (removed ==> now > from + PORT_RELEASE_TIMEOUT)
                  && !PreflightClean(host, now, Bindings(pairs, addresses))
  }

  /** Preflight; after a removal the ports are waited for. */
  method CheckPorts(d: Client, host: Host, input: ForwardInput, pairs: seq<PortPair>, removed: nat) returns (ok: bool)
    modifies d`clock, d`canceled
    ensures d.clock >= old(d.clock) && (old(d.canceled) ==> d.canceled)
    ensures input.skipPreflight ==> ok
    ensures ok && !input.skipPreflight ==> Preflighted(host, old(d.clock), d.clock, pairs, input.addresses)
    ensures !ok ==> d.canceled || HoldsPorts(host, old(d.clock), d.clock, removed > 0, pairs, input.addresses)
  {
    if input.skipPreflight {
      return true;
    }
    ok := PreflightHostPorts(host, d.clock, input.addresses, pairs);
    if !ok && removed > 0 {
      ghost var attempts;
      ok, attempts := WaitForHostPorts(d, host, input.addresses, pairs, PORT_RELEASE_TIMEOUT);
    }
  }

  /** From the reconcile loop to the image: the helper to reuse, or a world without an overlapping one. */
  method MakeWay(d: Client, plat: Platform, input: ForwardInput, want: Wanted)
    returns (r: Result<Option<Container>, ForwardError>, removed: nat)
    requires Unique(d.world) && want.target != ""
    modifies d`world, d`clock, d`canceled, d`log
    ensures d.clock >= old(d.clock) && (old(d.canceled) ==> d.canceled)
    ensures old(d.log) <= d.log && AllJustified(d.log[|old(d.log)|..], plat.netip, old(d.world), want)
    ensures Pruned(old(d.world), d.world) && Explained(old(d.world), d.world, d.log[|old(d.log)|..])
    ensures r.Ok? || r == Err(PortsNotAvailable) ==> (removed > 0 <==> d.log != old(d.log))
    ensures r.Ok? && r.value.Some? ==> Settled(plat.netip, d.world, want) == r.value
    ensures r == Ok(None) ==> NoOverlap(d.world, want.target, want.pairs)
    ensures r == Ok(None) && !input.skipPreflight ==>
              Preflighted(plat.host, old(d.clock), d.clock, want.pairs, input.addresses)
    ensures Settled(plat.netip, old(d.world), want).Some? ==>
              && d.world == old(d.world) && d.log == old(d.log)
              && (r.Ok? ==> r.value == Settled(plat.netip, old(d.world), want))
              && (d.reliable && !d.canceled ==> r.Ok?)
    ensures r.Err? ==>
              || r.error.NotReconciled? || r.error.OrphansNotRemoved?
              || r.error.PortsNotAvailable? || r.error.ImageNotAvailable?
    ensures r == Ok(None) && d.reliable && !d.canceled ==>
              OrphansGone(old(d.world.containers), old(d.world), d.world, want.target, want.pairs)
    ensures r.Err? && d.reliable && !d.canceled ==>
              && r == Err(PortsNotAvailable) && !input.skipPreflight
              && HoldsPorts(plat.host, old(d.clock), d.clock, d.log != old(d.log), want.pairs, input.addresses)
  {
    ghost var w0, log0 := d.world, d.log;
    var existing;
    ghost var rounds;
    existing, removed, rounds := ReconcileLoop(d, plat.netip, want);
    ghost var w1, log1 := d.world, d.log;
    ReplacementsAreJustified(log1[|log0|..], plat.netip, w0, want);
    if existing.Err? {
      return Err(NotReconciled(existing.error)), removed;
    }
    if existing.value.Some? {
      return Ok(existing.value), removed;
    }
    var failure;
    failure, removed := ClearTheWay(d, plat, input, want, removed);
    PrunedTwice(w0, w1, d.world);
    ExplainedTwice(w0, w1, d.world, log0, log1, d.log);
    RemovalsAreJustified(log0, log1, d.log, plat.netip, w0, w1, want);
    PrunedKeepsNoOverlap(w1, d.world, want.target, want.pairs);
    OrphansGoneEarlier(w0, w1, d.world, want.target, want.pairs);
    r := if failure.Some? then Err(failure.value) else Ok(None);
  }

  /** The orphans, the host ports and the image, once no helper is to be reused. */
  method ClearTheWay(d: Client, plat: Platform, input: ForwardInput, want: Wanted, removed0: nat)
    returns (failure: Option<ForwardError>, removed: nat)
    requires Unique(d.world)
    modifies d`world, d`clock, d`canceled, d`log
    ensures d.clock >= old(d.clock) && (old(d.canceled) ==> d.canceled)
    ensures old(d.log) <= d.log && OrphanRemovals(d.log[|old(d.log)|..], old(d.world), want.target, want.pairs)
    ensures Pruned(old(d.world), d.world) && Explained(old(d.world), d.world, d.log[|old(d.log)|..])
    ensures failure.None? || failure == Some(PortsNotAvailable) ==>
              removed >= removed0 && (removed > removed0 <==> d.log != old(d.log))
    ensures failure.None? && !input.skipPreflight ==>
              Preflighted(plat.host, old(d.clock), d.clock, want.pairs, input.addresses)
    ensures d.reliable && !d.canceled ==>
              OrphansGone(old(d.world.containers), old(d.world), d.world, want.target, want.pairs)
    ensures failure.Some? ==> failure.value in {OrphansNotRemoved, PortsNotAvailable, ImageNotAvailable}
    ensures failure.Some? && d.reliable && !d.canceled ==>
              && failure.value == PortsNotAvailable && !input.skipPreflight
              && HoldsPorts(plat.host, old(d.clock), d.clock, removed > 0, want.pairs, input.addresses)
  {
    removed := removed0;
    var orphans := RemoveOrphanedHelpers(d, want.target, want.pairs);
    if orphans.Err? {
      return Some(OrphansNotRemoved), removed;
    }
    removed := removed + orphans.value;
    var free := CheckPorts(d, plat.host, input, want.pairs, removed);
    if !free {
      return Some(PortsNotAvailable), removed;
    }
    var image := EnsureHelperImage(d);
    failure := if image then None else Some(ImageNotAvailable);
  }

  /** Orphans gone from a pruned world are gone from the world it was pruned from. */
  lemma OrphansGoneEarlier(w0: World, w1: World, w2: World, target: string, pairs: seq<PortPair>)
    requires Pruned(w0, w1) && Pruned(w1, w2)
    ensures OrphansGone(w1.containers, w1, w2, target, pairs) ==> OrphansGone(w0.containers, w0, w2, target, pairs)
  {
    forall c | c in w0.containers && Orphan(w0, c, target, pairs)
      ensures OrphansGone(w1.containers, w1, w2, target, pairs) ==> c !in w2.containers
    {
      OrphanStays(w0, w1, c, target, pairs);
    }
  }

  lemma PrunedKeepsNoOverlap(w: World, w': World, target: string, pairs: seq<PortPair>)
    requires Pruned(w, w') && NoOverlap(w, target, pairs)
    ensures NoOverlap(w', target, pairs)
  {
  }

  // --------------------------------------------------------------------- premises

  /** A target a helper can follow: no helper itself, found under its name, and not named like an address. */
  ghost predicate OrdinaryTarget(netip: Netip, w: World, t: Container) {
    && !LiveHelper(t) && CanonicalAddresses(netip, t)
    && (TrimSlash(t.name) != "" ==> Lookup(w, TrimSlash(t.name)) == Some(t) && netip(TrimSlash(t.name)).None?)
  }

  ghost predicate TargetIsOrdinary(netip: Netip, w: World, target: string) {
    Lookup(w, target).Some? ==> OrdinaryTarget(netip, w, Lookup(w, target).value)
  }

  /** Labels that will be read back as they were meant. */
  predicate PlainInput(input: ForwardInput) {
    KeepsPluginLabels(input.extraLabels) && forall p :: p in input.pairs ==> SupportedProtocol(p.protocol)
  }

  /** The same of the resolved pairs. */
  ghost predicate Recallable(input: ForwardInput, pairs: seq<PortPair>) {
    KeepsPluginLabels(input.extraLabels) && forall q :: q in pairs ==> SupportedProtocol(q.protocol)
  }

  lemma ResolvedAreRecallable(input: ForwardInput, out: seq<PortPair>)
    requires Resolves(input.pairs, out) && PlainInput(input)
    ensures Recallable(input, out)
  {
    var pairs := input.pairs;
    forall q | q in out
      ensures SupportedProtocol(q.protocol)
    {
      var i :| 0 <= i < |out| && out[i] == q;
      assert ResolvesTo(pairs[i], out[i]) && pairs[i] in pairs;
    }
  }

  // -------------------------------------------------------------------- the new world

  /** A container that carries the labels of the helper a run makes. */
  ghost predicate Carries(plat: Platform, c: Container, want: Wanted, pick: Pick) {
    && IsHelper(c) && Records(c, want.target, pick)
    && HelperPairs(c) == RecordedAll(want.pairs)
    && RangeOf(c) == want.range
  }

  lemma RememberedIsCarried(plat: Platform, c: Container, h: HelperConfig, want: Wanted, pick: Pick)
    requires Remembers(c, plat.ranges, h)
    requires h.targetID == want.target && h.targetNetwork == pick.network && h.targetAddress == pick.address
    requires h.pairs == want.pairs && Range.RangeLabel(plat.ranges, h.sourceRange) == want.range
    requires forall p :: p in h.pairs ==> SupportedProtocol(p.protocol)
    ensures Carries(plat, c, want, pick)
  {
    SupportedListIsRead(h.pairs);
  }

  lemma CarriedOverlaps(plat: Platform, c: Container, want: Wanted, pick: Pick)
    requires Carries(plat, c, want, pick) && want.pairs != []
    ensures Overlaps(c, want.pairs)
  {
    var p := RecordedAll(want.pairs)[0];
    assert p == Recorded(want.pairs[0]) && want.pairs[0] in want.pairs;
    assert Recorded(p) == p && p in HelperPairs(c);
  }

  /** The new helper is the one overlapping running helper of its target. */
  lemma NewHelperIsFound(plat: Platform, w: World, w': World, c: Container, want: Wanted, pick: Pick)
    requires Unique(w) && Grown(w, w', c) && Runs(w', c)
    requires NoOverlap(w, want.target, want.pairs) && Carries(plat, c, want, pick)
    requires want.pairs != [] && want.target != ""
    ensures var r := OverlappingHelper(w', want.target, want.pairs);
            r.Some? && r.value.id == c.id && r.value.labels == c.labels
  {
    var x :| x in w'.containers && x.status == Running && SameContainer(x, c);
    assert Carries(plat, x, want, pick);
    CarriedOverlaps(plat, x, want, pick);
    OverlappingMeaning(w', want.target, want.pairs);
    var r := OverlappingHelper(w', want.target, want.pairs);
    assert r.Some?;
  }

  /** Resolution and network choice are as they were, after removals and the creation. */
  lemma TargetIsKept(netip: Netip, w0: World, w1: World, w2: World, target: string, t: Container, c: Container)
    requires Pruned(w0, w1) && Grown(w1, w2, c) && Unique(w1)
    requires Lookup(w0, target) == Some(t) && OrdinaryTarget(netip, w0, t)
    ensures w2.networks == w0.networks && Lookup(w2, target) == Some(t) && OrdinaryTarget(netip, w2, t)
  {
    PrunedKeepsLookup(w0, w1, target, t);
    GrownKeepsLookup(w1, w2, target, t, c);
    if TrimSlash(t.name) != "" {
      PrunedKeepsLookup(w0, w1, TrimSlash(t.name), t);
      GrownKeepsLookup(w1, w2, TrimSlash(t.name), t, c);
    }
  }

  /** Network choice reads nothing of a world but its networks. */
  lemma PickReadsNetworks(w: World, w': World, t: Container, network: string, p: Pick)
    requires w.networks == w'.networks && PickResult(w, t, network, Ok(p))
    ensures PickResult(w', t, network, Ok(p))
  {
    assert Endings(w, t) == Endings(w', t);
    if n :| EndsAt(w, t, n, Ok(p)) {
      assert EndsAt(w', t, n, Ok(p));
    }
  }

  /** The new helper is up to date in the world it was made in. */
  lemma NewHelperIsCurrent(plat: Platform, w: World, t: Container, helper: Container, want: Wanted, pick: Pick)
    requires Lawful(plat.netip) && Lookup(w, want.target) == Some(t) && OrdinaryTarget(plat.netip, w, t)
    requires PickResult(w, t, want.network, Ok(pick)) && Carries(plat, helper, want, pick)
    ensures !Outdated(plat.netip, w, helper, want)
  {
    PickedIsFresh(plat.netip, w, want.target, t, want.network, pick, helper);
    PickedNetwork(w, t, want.network, pick);
  }

  /** The world after a successful detached run that made a helper. */
  lemma LaunchSettles(plat: Platform, w0: World, w1: World, w2: World, t: Container, c: Container, want: Wanted,
                      pick: Pick)
    requires Lawful(plat.netip)
    requires Pruned(w0, w1) && Grown(w1, w2, c) && Runs(w2, c)
    requires Lookup(w0, want.target) == Some(t) && OrdinaryTarget(plat.netip, w0, t)
    requires PickResult(w0, t, want.network, Ok(pick))
    requires NoOverlap(w1, want.target, want.pairs) && Carries(plat, c, want, pick)
    requires want.pairs != [] && want.target != ""
    ensures Serves(plat.netip, w2, want, c.id)
    ensures HelperPairs(Settled(plat.netip, w2, want).value) == RecordedAll(want.pairs)
  {
    NewHelperIsFound(plat, w1, w2, c, want, pick);
    TargetIsKept(plat.netip, w0, w1, w2, want.target, t, c);
    PickReadsNetworks(w0, w2, t, want.network, pick);
    var helper := OverlappingHelper(w2, want.target, want.pairs).value;
    assert Carries(plat, helper, want, pick);
    NewHelperIsCurrent(plat, w2, t, helper, want, pick);
  }

  // ---------------------------------------------------------------------- one run

  /** Some (local, remote, protocol) that both helpers forward. */
  predicate SharesForward(c: Container, x: Container) {
    Overlaps(c, HelperPairs(x))
  }

  /**
   What a run may do to the running helpers: stop or remove some, and add one that
   shares no forward with another running helper of its target.
   */
  ghost predicate ForwardStep(w: World, w': World, created: Option<Container>) {
    && Unique(w')
    && (forall x :: x in w'.containers && LiveHelper(x) ==>
                      x in w.containers || (created.Some? && SameContainer(x, created.value)))
    && (created.Some? ==>
          forall x :: x in w'.containers && Live(x, TargetOf(created.value)) && x.id != created.value.id ==>
                        !SharesForward(x, created.value))
  }

  /** From here on the events are the creation of a container and at most its own removal. */
  ghost predicate LaunchAt(events: seq<Event>, k: nat, id: string) {
    && k < |events| <= k + 2
    && events[k] == Creation(id)
    && (|events| == k + 2 ==> events[k + 1].Removal? && events[k + 1].id == id)
  }

  /** The events of a run: justified removals, and after them, if anything was created, its creation and own removal. */
  ghost predicate RunEvents(events: seq<Event>, netip: Netip, w: World, want: Wanted, created: Option<Container>) {
    match created
    case None => AllJustified(events, netip, w, want)
    case Some(c) => exists k: nat :: LaunchAt(events, k, c.id) && AllJustified(events[..k], netip, w, want)
  }

  lemma {:induction false} RecordedWant(pairs: seq<PortPair>)
    ensures Want(RecordedAll(pairs)) == Want(pairs)
  {
    forall r
      ensures r in Want(RecordedAll(pairs)) <==> r in Want(pairs)
    {
      if r in Want(RecordedAll(pairs)) {
        var q :| q in RecordedAll(pairs) && Recorded(q) == r;
        RecordedMembers(pairs, q);
      }
      if r in Want(pairs) {
        var p :| p in pairs && Recorded(p) == r;
        RecordedMembers(pairs, Recorded(p));
        assert Recorded(Recorded(p)) == r;
      }
    }
  }

  lemma LaunchIsStep(plat: Platform, w0: World, w1: World, w2: World, c: Container, want: Wanted, pick: Pick)
    requires Pruned(w0, w1) && Grown(w1, w2, c)
    requires NoOverlap(w1, want.target, want.pairs) && Carries(plat, c, want, pick)
    ensures ForwardStep(w0, w2, Some(c))
  {
    RecordedWant(want.pairs);
    forall x | x in w2.containers && Live(x, TargetOf(c)) && x.id != c.id
      ensures !SharesForward(x, c)
    {
      assert x in w1.containers;
    }
  }

  lemma PrunedIsStep(w0: World, w1: World)
    requires Pruned(w0, w1)
    ensures ForwardStep(w0, w1, None)
  {
  }

  lemma LaunchEventsAreRunEvents(log0: seq<Event>, log1: seq<Event>, log2: seq<Event>, netip: Netip, w: World,
                                 want: Wanted, c: Container, removed: bool)
    requires log0 <= log1 && AllJustified(log1[|log0|..], netip, w, want) && LaunchEvents(log1, log2, c.id, removed)
    ensures log0 <= log2 && RunEvents(log2[|log0|..], netip, w, want, Some(c))
    ensures removed ==> EndsWithRemoval(log0, log2, c.id)
  {
    var events, k := log2[|log0|..], |log1| - |log0|;
    assert log2[..|log1|] == log1;
    assert events[..k] == log1[|log0|..];
    assert LaunchAt(events, k, c.id);
  }

  /** `autoName`, with the random part chosen elsewhere. */
  function AutoName(targetName: string, suffix: string): string {
    var base := if TrimSlash(targetName) == "" then "target" else TrimSlash(targetName);
    "port-forward-" + (if |base| > 16 then base[..16] else base) + "-" + suffix
  }

  const UNLESS_STOPPED := "unless-stopped"

  function ConfigOf(input: ForwardInput, p: Prepared, name: string, session: string): HelperConfig {
    HelperConfig(input.targetID, TrimSlash(p.target.name), p.pick.network, p.pick.address, p.pairs, input.addresses,
                 name, session, input.extraLabels, input.detach,
                 if input.restartPolicy == "" then UNLESS_STOPPED else input.restartPolicy,
                 input.udpSeconds, input.halfClose, input.sourceRange)
  }

  /** The name asked for, or one made up from the target's. */
  ghost predicate GivenName(input: ForwardInput, t: Container, name: string) {
    if input.name != "" then name == input.name else exists suffix :: name == AutoName(t.name, suffix)
  }

  lemma NameIsGiven(input: ForwardInput, t: Container, suffix: string)
    ensures GivenName(input, t, if input.name == "" then AutoName(t.name, suffix) else input.name)
  {
    var name := AutoName(t.name, suffix);
    assert name == AutoName(t.name, suffix);
  }

  /** The container's labels are those of the configuration, for some session. */
  ghost predicate LabelledFor(plat: Platform, c: Container, input: ForwardInput, p: Prepared)
    requires c.name != ""
  {
    exists session :: LabelsOf(plat.ranges, c.labels, ConfigOf(input, p, c.name[1..], session))
  }

  /** The container a prepared run makes. */
  ghost predicate Builds(plat: Platform, c: Container, input: ForwardInput, p: Prepared) {
    var h := ConfigOf(input, p, "", "");
    && c.name != "" && c.name[0] == '/' && GivenName(input, p.target, c.name[1..])
    && c.status == Created && c.endpoints == map[p.pick.network := Endpoint(None)]
    && c.script == Script(plat.ranges, h, SocatKeys(p.pairs))
    && c.exposed == Exposed(p.pairs)
    && c.published == PortMap(plat.netip, Bindings(p.pairs, input.addresses))
    && c.autoRemove == !input.detach
    && LabelledFor(plat, c, input, p)
    && c.restartPolicy == if input.detach then h.restartPolicy else RESTART_NO
  }

  /** The container is made for the target and the network picked in this world. */
  ghost predicate MadeFor(plat: Platform, w: World, c: Container, input: ForwardInput, pairs: seq<PortPair>) {
    exists t, pick ::
      && Lookup(w, input.targetID) == Some(t)
      && PickResult(w, t, input.network, Ok(pick))
      && Builds(plat, c, input, Prepared(pairs, t, pick))
  }

  /**
   A container made for valid pairs listens for each of them and publishes each on
   every one of its addresses, on its own local port.
   */
  lemma EveryPairIsPublished(plat: Platform, w: World, c: Container, input: ForwardInput, pairs: seq<PortPair>,
                             p: PortPair, a: string)
    requires Lawful(plat.netip) && MadeFor(plat, w, c, input, pairs)
    requires p in pairs && ValidPair(plat.netip, p.(address := a)) && BoundOn(p, input.addresses, a)
    ensures var k := ProtoPort(p.remotePort, if p.protocol == "udp" then "udp" else "tcp");
            && k in SocatKeys(pairs) && k in c.exposed && k in c.published
            && exists x :: x in c.published[k] && x.hostIP == plat.netip(a) && Atoi(x.hostPort) == Some(p.localPort)
  {
    var k := ProtoPort(p.remotePort, NormalizeProtocol(p.protocol));
    var b := p.(address := a);
    PairAddressesMeaning(p, input.addresses, a);
    SocatKeysMeaning(pairs, k);
    BindingMembers(pairs, input.addresses, b);
    ValidPublishes(plat.netip, b);
    assert PublishedPort(p) == PublishedPort(b) == Some(k);
    BindingIsPublished(plat.netip, Bindings(pairs, input.addresses), b);
  }

  /** And it publishes nothing else: each binding is one of a pair, on an address the pair is bound on. */
  lemma OnlyPairsArePublished(plat: Platform, w: World, c: Container, input: ForwardInput, pairs: seq<PortPair>,
                              k: ProtoPort, x: PortBinding)
    requires MadeFor(plat, w, c, input, pairs) && k in c.published && x in c.published[k]
    ensures exists p, a ::
              && p in pairs && BoundOn(p, input.addresses, a)
              && k == ProtoPort(p.remotePort, ToLower(if p.protocol == "" then "tcp" else p.protocol))
              && x.hostIP == plat.netip(a) && Atoi(x.hostPort) == Some(p.localPort)
  {
    var b := PublishedIsBinding(plat.netip, Bindings(pairs, input.addresses), k, x);
    BindingMeaning(pairs, input.addresses, b);
    var p :| p in pairs && b == p.(address := b.address) && BoundOn(p, input.addresses, b.address);
    AtoiItoa(b.localPort);
    assert x.hostIP == plat.netip(b.address) && Atoi(x.hostPort) == Some(p.localPort);
  }

  /** How the container of a run is kept: by hand when detached, and gone with its run when not. */
  lemma MadeMeaning(plat: Platform, w: World, c: Container, input: ForwardInput, pairs: seq<PortPair>)
    requires MadeFor(plat, w, c, input, pairs)
    ensures c.autoRemove <==> !input.detach
    ensures c.restartPolicy == (if !input.detach then "no"
                                else if input.restartPolicy == "" then "unless-stopped"
                                else input.restartPolicy)
    ensures exists t, pick ::
              && Lookup(w, input.targetID) == Some(t) && PickResult(w, t, input.network, Ok(pick))
              && c.endpoints == map[pick.network := Endpoint(None)]
    ensures input.name != "" ==> c.name == "/" + input.name
    ensures input.name == "" ==> "/port-forward-" <= c.name
  {
    var t, pick :| Lookup(w, input.targetID) == Some(t) && PickResult(w, t, input.network, Ok(pick))
                   && Builds(plat, c, input, Prepared(pairs, t, pick));
    assert c.name == "/" + c.name[1..];
    if input.name == "" {
      var suffix :| c.name[1..] == AutoName(t.name, suffix);
      AutoNamePrefix(t.name, suffix);
    }
  }

  /** What the labels of the container of a run say: what it was made from, and the user's own on top. */
  lemma MadeLabels(plat: Platform, w: World, c: Container, input: ForwardInput, pairs: seq<PortPair>, t: Container)
    requires MadeFor(plat, w, c, input, pairs) && Lookup(w, input.targetID) == Some(t)
    ensures forall key :: key in input.extraLabels ==> Labelled(c, key, input.extraLabels[key])
    ensures KeepsPluginLabels(input.extraLabels) ==>
              && Label(c.labels, "com.dokku.port-forward") == "true"
              && Label(c.labels, "com.dokku.port-forward.name") == c.name[1..]
              && Label(c.labels, "com.dokku.port-forward.target") == input.targetID
              && Label(c.labels, "com.dokku.port-forward.target-name") == TrimSlash(t.name)
              && Label(c.labels, "com.dokku.port-forward.ports") == PairsText(pairs)
              && Label(c.labels, "com.dokku.port-forward.bindings") == BindingsText(pairs, input.addresses)
              && Label(c.labels, "com.dokku.port-forward.source-range")
                 == Range.RangeLabel(plat.ranges, input.sourceRange)
  {
    var pick :| PickResult(w, t, input.network, Ok(pick)) && Builds(plat, c, input, Prepared(pairs, t, pick));
    var session :|
      LabelsOf(plat.ranges, c.labels, ConfigOf(input, Prepared(pairs, t, pick), c.name[1..], session));
    LabelsMeaning(plat.ranges, c.labels, ConfigOf(input, Prepared(pairs, t, pick), c.name[1..], session));
  }

  lemma AutoNamePrefix(targetName: string, suffix: string)
    ensures "/port-forward-" <= "/" + AutoName(targetName, suffix)
  {
    assert "/" + "port-forward-" == "/port-forward-";
  }

  /** Target names, addresses and timeouts without white space, and a range as it is parsed. */
  predicate PlainRun(input: ForwardInput, t: Container) {
    && (input.halfClose.Some? ==> IsWord(input.halfClose.value))
    && (input.sourceRange.NoPrefix? || Range.ValidPrefix(input.sourceRange))
    && (TrimSlash(t.name) != "" ==> IsWord(TrimSlash(t.name)))
    && forall n :: n in t.endpoints && AddressOn(t, n).Some? ==> IsWord(AddressOn(t, n).value)
  }

  function RunService(input: ForwardInput, pick: Pick): Socat.Service {
    Socat.Service(pick.address, input.sourceRange, input.udpSeconds, input.halfClose)
  }

  /**
   The container a run makes listens for each of its pairs and for nothing else: on the
   pair's container port and protocol, for clients of the request's range, dialling that
   port of the address picked, with the request's timeouts.
   */
  lemma EveryPairIsServed(plat: Platform, w: World, c: Container, input: ForwardInput, pairs: seq<PortPair>,
                          t: Container)
    requires Range.Lawful(plat.ranges) && MadeFor(plat, w, c, input, pairs)
    requires Lookup(w, input.targetID) == Some(t) && PlainRun(input, t)
    ensures exists pick ::
              && PickResult(w, t, input.network, Ok(pick))
              && Socat.ScriptServes(plat.ranges, c.script, RunService(input, pick), pairs)
  {
    var pick :| PickResult(w, t, input.network, Ok(pick)) && Builds(plat, c, input, Prepared(pairs, t, pick));
    var h := ConfigOf(input, Prepared(pairs, t, pick), "", "");
    PickedNetwork(w, t, input.network, pick);
    Socat.ScriptServesPairs(plat.ranges, h);
  }

  /** A result names the container created, or says that there is none. */
  predicate Names(r: Result<ForwardResult, ForwardError>, pairs: seq<PortPair>, created: Option<Container>) {
    r.Ok? ==>
      && r.value.pairs == pairs && (r.value.existing <==> created.None?)
      && (created.Some? ==> r.value.helperID == created.value.id && created.value.name == "/" + r.value.helperName)
  }

  lemma BuiltAsConfigured(plat: Platform, c: Container, input: ForwardInput, p: Prepared, name: string, session: string,
                          spec: HelperSpec)
    requires c == NewContainer(c.id, name, spec) && GivenName(input, p.target, name)
    requires var h := ConfigOf(input, p, name, session);
             && spec.script == Script(plat.ranges, h, SocatKeys(h.pairs))
             && spec.exposed == Exposed(h.pairs)
             && spec.bindings == PortMap(plat.netip, Bindings(h.pairs, h.addresses))
             && LabelsOf(plat.ranges, spec.labels, h)
             && spec.networkMode == h.targetNetwork && spec.autoRemove == !h.detach
             && spec.restartPolicy == if h.detach then h.restartPolicy else RESTART_NO
    ensures Builds(plat, c, input, p)
  {
    assert c.name[1..] == name;
    assert LabelsOf(plat.ranges, c.labels, ConfigOf(input, p, c.name[1..], session));
  }

  lemma BuiltIsCarried(plat: Platform, c: Container, input: ForwardInput, p: Prepared, h: HelperConfig,
                       labels: map<string, string>)
    requires h == ConfigOf(input, p, h.name, h.session) && c.labels == labels
    requires LabelsOf(plat.ranges, labels, h)
    ensures Recallable(input, p.pairs) ==> Carries(plat, c, WantedOf(plat, input, p.pairs), p.pick)
  {
    if Recallable(input, p.pairs) {
      var list: seq<string> :| labels == PluginLabels(plat.ranges, h, Join(list, ',')) + h.extraLabels;
      NewHelperRemembers(c, plat.ranges, h, Join(list, ','));
      RememberedIsCarried(plat, c, h, WantedOf(plat, input, p.pairs), p.pick);
    }
  }

  /** A launch into a world: the container it made, its events, its result and what is left of it. */
  ghost predicate Launched(d: Client, input: ForwardInput, p: Prepared, w: World, log0: seq<Event>,
                           r: Result<ForwardResult, ForwardError>, c: Container)
    reads d
  {
    && Grown(w, d.world, c)
    && LaunchEvents(log0, d.log, c.id, !(r.Ok? && input.detach))
    && Names(r, p.pairs, Some(c))
    && (r.Ok? && input.detach ==> Runs(d.world, c))
    && (r.Err? ==> r.error == StartFailed || r.error == NotRunning)
    && NoLeak(d, log0, input.detach, Failure(r), Some(c))
  }

  /** The helper is built from the prepared run and launched. */
  method LaunchHelper(d: Client, plat: Platform, input: ForwardInput, p: Prepared, retry: bool)
    returns (r: Result<ForwardResult, ForwardError>, ghost created: Option<Container>)
    modifies d
    ensures d.clock >= old(d.clock) && (old(d.canceled) ==> d.canceled)
    ensures created.None? ==> r == Err(CreateFailed) && d.world == old(d.world) && d.log == old(d.log)
    ensures created.Some? ==> Launched(d, input, p, old(d.world), old(d.log), r, created.value) && !old(d.canceled)
    ensures created.Some? ==> Builds(plat, created.value, input, p)
    ensures created.Some? && Recallable(input, p.pairs) ==>
              Carries(plat, created.value, WantedOf(plat, input, p.pairs), p.pick)
    ensures StartCalls(old(d.starts), d.starts, created.Some?, r != Err(StartFailed), retry)
    ensures d.reliable && !d.canceled && r == Err(CreateFailed) ==> NameTaken(input, p.target, d.world)
    ensures d.reliable && !d.canceled && created.Some? ==>
              FailedFor(d, old(d.clock), input.runningTimeout, retry, Failure(r), created.value.id)
  {
    var session: string := *;
    var suffix: string := *;
    var name := if input.name == "" then AutoName(p.target.name, suffix) else input.name;
    NameIsGiven(input, p.target, suffix);
    var h := ConfigOf(input, p, name, session);
    var spec := BuildHelperConfig(plat.netip, plat.ranges, h);
    var id;
    ghost var w0, log0 := d.world, d.log;
    id, created := Launch(d, name, spec, retry, input.detach, input.runningTimeout);
    r := if id.Err? then Err(id.error) else Ok(ForwardResult(id.value, name, p.pairs, false));
    if created.Some? {
      BuiltAsConfigured(plat, created.value, input, p, name, session, spec);
      BuiltIsCarried(plat, created.value, input, p, h, spec.labels);
      LaunchIsComplete(d, input, p, w0, log0, id, name, r, created.value);
    }
  }

  lemma LaunchIsComplete(d: Client, input: ForwardInput, p: Prepared, w: World, log0: seq<Event>,
                         id: Result<string, ForwardError>, name: string, r: Result<ForwardResult, ForwardError>,
                         c: Container)
    requires Grown(w, d.world, c) && c.name == "/" + name
    requires LaunchEvents(log0, d.log, c.id, !(id.Ok? && input.detach))
    requires id.Ok? && input.detach ==> Runs(d.world, c)
    requires id.Err? ==> id.error == StartFailed || id.error == NotRunning
    requires id.Ok? ==> id.value == c.id
    requires NoLeak(d, log0, input.detach, Failure(id), Some(c))
    requires r == if id.Err? then Err(id.error) else Ok(ForwardResult(id.value, name, p.pairs, false))
    ensures Launched(d, input, p, w, log0, r, c)
  {
  }

  /** A helper of this id is what the request finds, running, up to date and as wanted. */
  ghost predicate Serves(netip: Netip, w: World, want: Wanted, id: string) {
    Settled(netip, w, want).Some? && Settled(netip, w, want).value.id == id && TargetReady(w, want.target, want.network)
  }

  /** The result of a run with nothing to do: the settled helper, reused. */
  predicate Reuses(r: Result<ForwardResult, ForwardError>, c: Container) {
    r.Ok? ==> r.value.existing && r.value.helperID == c.id && r.value.helperName == TrimSlash(c.name)
  }

  /** A detached run succeeded: its helper serves the request and, if new, forwards all of it. */
  ghost predicate Forwarded(netip: Netip, w: World, want: Wanted, r: ForwardResult) {
    && Serves(netip, w, want, r.helperID)
    && (!r.existing ==> HelperPairs(Settled(netip, w, want).value) == RecordedAll(want.pairs))
  }

  /** A name the run may give its helper is held by another container. */
  ghost predicate NameTaken(input: ForwardInput, t: Container, w: World) {
    exists name :: GivenName(input, t, name) && !NameFree(w, name)
  }

  /**
   The errors a run may end with when nothing but the ports, the name and the helper
   itself can fail, each with its reason.
   */
  ghost predicate Excused(plat: Platform, w: World, d: Client, start: nat, log0: seq<Event>, input: ForwardInput,
                          pairs: seq<PortPair>, error: ForwardError, created: Option<Container>)
    reads d
  {
    || (error == PortsNotAvailable && !input.skipPreflight
        && HoldsPorts(plat.host, start, d.clock, d.log != log0, pairs, input.addresses))
    || (error == CreateFailed && Lookup(w, input.targetID).Some?
        && NameTaken(input, Lookup(w, input.targetID).value, d.world))
    || ((error == StartFailed || error == NotRunning) && created.Some?
        && FailedFor(d, start, input.runningTimeout, Retries(input, log0, d.log), Some(error), created.value.id))
  }

  /** The helper a run reused: running, overlapping, and up to date as wanted. */
  ghost predicate Reused(netip: Netip, w: World, want: Wanted, r: ForwardResult) {
    var c := Settled(netip, w, want);
    c.Some? && c.value.id == r.helperID && TrimSlash(c.value.name) == r.helperName
  }

  /** Every container that is gone or changed was so by a justified removal. */
  ghost predicate Accounted(w: World, w': World, events: seq<Event>, netip: Netip, want: Wanted) {
    forall c :: c in w.containers && c !in w'.containers ==>
                  exists e :: e in events && e.id == c.id && Justified(e, netip, w, want)
  }

  /**
   What a run leaves as it was: the networks, and every container that is no running
   helper. Containers appear only by the run's own creation, or are running helpers that
   are being removed; and whatever is gone or changed was so by a justified removal.
   */
  ghost predicate Framed(w: World, w': World, events: seq<Event>, netip: Netip, want: Wanted,
                         created: Option<Container>) {
    && w'.networks == w.networks
    && Unique(w')
    && (forall c :: c in w.containers && !LiveHelper(c) ==> c in w'.containers)
    && Accounted(w, w', events, netip, want)
    && (forall c :: c in w'.containers ==>
                      || c in w.containers
                      || (c.status == Removing && StillIn(c, w))
                      || (created.Some? && SameContainer(c, created.value)))
  }

  /** What became of a container that a run left gone or changed: a justified removal of its own. */
  lemma GoneWasJustified(w: World, w': World, events: seq<Event>, netip: Netip, want: Wanted, x: Container)
    returns (e: Event)
    requires Unique(w) && Accounted(w, w', events, netip, want)
    requires x in w.containers && x !in w'.containers
    ensures e in events && e.Removal? && e.id == x.id && Pruned(w, e.before)
    ensures Replaceable(netip, e.before, x, want) || Orphan(e.before, x, want.target, want.pairs)
    // one of the request's own target forwarded something requested, and one of three things was wrong with it
    ensures TargetOf(x) == want.target ==>
              && (exists p, q :: p in HelperPairs(x) && q in want.pairs && SameForward(p, q))
              && (|| Stale(netip, e.before, x)
                  || RangeOf(x) != want.range
                  || (want.network != "" && NetworkOf(x) != want.network))
    // one of another target held a requested host port, and its target was gone
    ensures TargetOf(x) != want.target ==>
              && (exists p, q :: p in HelperPairs(x) && q in want.pairs && SameHostPort(p, q))
              && TargetOf(x) != "" && Lookup(e.before, TargetOf(x)).None?
  {
    e :| e in events && e.id == x.id && Justified(e, netip, w, want);
    var c :| c in w.containers && c.id == e.id
             && (Replaceable(netip, e.before, c, want) || Orphan(e.before, c, want.target, want.pairs));
    assert Clash(c, x);
    ReasonsToRemove(netip, e.before, x, want);
  }

  /**
   Whatever a run creates and however it ends, a container it left gone or changed was a
   running helper that held something requested: a forward of the same target, or a host
   port of another. And in the world the run started from it was outdated or an orphan
   already, unless it led to another running helper.
   */
  lemma GoneWasDue(w: World, w': World, events: seq<Event>, netip: Netip, want: Wanted, created: Option<Container>,
                   x: Container)
    requires Unique(w) && Framed(w, w', events, netip, want, created)
    requires x in w.containers && x !in w'.containers
    ensures x.status == Running && Labelled(x, "com.dokku.port-forward", "true")
    ensures exists p, q :: p in HelperPairs(x) && q in want.pairs
                           && if TargetOf(x) == want.target then SameForward(p, q) else SameHostPort(p, q)
    ensures LeadsToNoHelper(w, x) && TargetOf(x) == want.target ==>
              || Stale(netip, w, x)
              || RangeOf(x) != want.range
              || (want.network != "" && NetworkOf(x) != want.network)
    ensures LeadsToNoHelper(w, x) && TargetOf(x) != want.target ==> TargetOf(x) != "" && Lookup(w, TargetOf(x)).None?
  {
    var e := GoneWasJustified(w, w', events, netip, want, x);
    ReasonsToRemove(netip, e.before, x, want);
    if LeadsToNoHelper(w, x) {
      PrunedSameLookup(w, e.before, TargetOf(x));
      PrunedSameLookup(w, e.before, AddressOf(x));
    }
  }

  lemma ExplainedIsAccounted(w: World, w': World, events: seq<Event>, netip: Netip, want: Wanted)
    requires Explained(w, w', events) && AllJustified(events, netip, w, want)
    ensures Accounted(w, w', events, netip, want)
  {
    forall c | c in w.containers && c !in w'.containers
      ensures exists e :: e in events && e.id == c.id && Justified(e, netip, w, want)
    {
      var e: Event :| e in events && e.Removal? && e.id == c.id;
      assert Justified(e, netip, w, want);
    }
  }

  lemma PrunedIsFramed(w: World, w': World, events: seq<Event>, netip: Netip, want: Wanted)
    requires Pruned(w, w') && Explained(w, w', events) && AllJustified(events, netip, w, want)
    ensures Framed(w, w', events, netip, want, None)
  {
    ExplainedIsAccounted(w, w', events, netip, want);
  }

  /** A launch leaves the accounts of what was removed before it as they are. */
  lemma LaunchIsFramed(w0: World, w1: World, w2: World, before: seq<Event>, events: seq<Event>, netip: Netip,
                       want: Wanted,
                       c: Container)
    requires Pruned(w0, w1) && Grown(w1, w2, c) && before <= events
    requires Explained(w0, w1, before) && AllJustified(before, netip, w0, want)
    ensures Framed(w0, w2, events, netip, want, Some(c))
  {
    ExplainedIsAccounted(w0, w1, before, netip, want);
    forall x | x in w0.containers && x !in w2.containers
      ensures exists e :: e in events && e.id == x.id && Justified(e, netip, w0, want)
    {
      var e: Event :| e in before && e.id == x.id && Justified(e, netip, w0, want);
      assert e in events;
    }
  }

  /** Orphans that are gone stay gone when the run's own helper appears. */
  lemma OrphansStayAway(plat: Platform, w0: World, w1: World, w2: World, c: Container, want: Wanted, pick: Pick)
    requires OrphansGone(w0.containers, w0, w1, want.target, want.pairs)
    requires Grown(w1, w2, c) && Carries(plat, c, want, pick)
    ensures OrphansGone(w0.containers, w0, w2, want.target, want.pairs)
  {
  }

  /** What a run created, if anything: a container made for the request, after a preflight unless that is skipped. */
  ghost predicate Made(plat: Platform, w: World, d: Client, start: nat, log0: seq<Event>, input: ForwardInput,
                       pairs: seq<PortPair>, created: Option<Container>)
    reads d
  {
    created.Some? ==>
      && log0 <= d.log && Creation(created.value.id) in d.log[|log0|..]
      && MadeFor(plat, w, created.value, input, pairs)
      && (!input.skipPreflight ==> Preflighted(plat.host, start, d.clock, pairs, input.addresses))
  }

  /** A start is retried only when preflight is skipped and the run began with a removal. */
  predicate Retries(input: ForwardInput, log0: seq<Event>, log: seq<Event>) {
    input.skipPreflight && |log| > |log0| && log[|log0|].Removal?
  }

  /** What a run does to the daemon, from the world, events, start calls and time it began with. */
  ghost predicate Traced(plat: Platform, input: ForwardInput, w: World, log0: seq<Event>,
                         starts0: seq<Option<DaemonError>>,
                         start: nat, d: Client, r: Result<ForwardResult, ForwardError>, pairs: seq<PortPair>,
                         created: Option<Container>)
    reads d
  {
    && Names(r, pairs, created)
       // removal safety, and what stays as it was
    && log0 <= d.log
    && RunEvents(d.log[|log0|..], plat.netip, w, WantedOf(plat, input, pairs), created)
    && Framed(w, d.world, d.log[|log0|..], plat.netip, WantedOf(plat, input, pairs), created)
       // what is created, and that it runs after a detached success
    && (r.Ok? && input.detach && created.Some? ==> Runs(d.world, created.value))
    && Made(plat, w, d, start, log0, input, pairs, created)
       // no leaked helper
    && NoLeak(d, log0, input.detach, Failure(r), created)
    && StartCalls(starts0, d.starts, created.Some?, r != Err(StartFailed), Retries(input, log0, d.log))
  }

  /** What a run achieves, from the world, events and time it began with. */
  ghost predicate Achieved(plat: Platform, input: ForwardInput, w: World, log0: seq<Event>, start: nat, d: Client,
                           r: Result<ForwardResult, ForwardError>, pairs: seq<PortPair>, created: Option<Container>)
    reads d
  {
       // success: the helper serves the request
    && (r.Ok? && input.detach && PlainInput(input) && TargetIsOrdinary(plat.netip, w, input.targetID) ==>
          Forwarded(plat.netip, d.world, WantedOf(plat, input, pairs), r.value))
       // whatever the input, a reused helper is as wanted
    && (r.Ok? && r.value.existing ==> Reused(plat.netip, d.world, WantedOf(plat, input, pairs), r.value))
       // running helpers share no forward, and colliding orphans are gone
    && (PlainInput(input) ==> ForwardStep(w, d.world, created))
    && (d.reliable && created.Some? && PlainInput(input) ==>
        OrphansGone(w.containers, w, d.world, input.targetID, pairs))
       // failure: what remains when the daemon works and the request can be met
    && (r.Err? && d.reliable && !d.canceled && Acceptable(input) && ExplicitPorts(input)
        && TargetReady(w, input.targetID, input.network) ==>
          Excused(plat, w, d, start, log0, input, pairs, r.error, created))
  }

  /**
   What can still go wrong when the daemon works, the run's context is live, the request
   is acceptable with explicit ports, and the target is there with a network to pick: a
   host port cannot be bound; the helper's name is taken; or the helper does not start,
   for a held port, or does not come to run in time or without an error.
   */
  lemma FailureMeaning(plat: Platform, input: ForwardInput, w: World, log0: seq<Event>, start: nat, d: Client,
                       r: Result<ForwardResult, ForwardError>, pairs: seq<PortPair>, created: Option<Container>)
    requires Achieved(plat, input, w, log0, start, d, r, pairs, created)
    requires r.Err? && d.reliable && !d.canceled && Acceptable(input) && ExplicitPorts(input)
    requires TargetReady(w, input.targetID, input.network)
    ensures r.error in {PortsNotAvailable, CreateFailed, StartFailed, NotRunning}
    ensures r.error == PortsNotAvailable ==>
              && !input.skipPreflight
              && exists now, b :: start <= now <= d.clock && CannotBind(plat.host, now, pairs, input.addresses, b)
                                  && (d.log != log0 ==> now > start + 10000)
    ensures r.error == CreateFailed ==>
              exists x, name :: x in d.world.containers && NamedAs(x, name)
                                && if input.name != "" then name == input.name else "port-forward-" <= name
    ensures r.error == StartFailed ==>
              && |d.starts| > 0 && d.starts[|d.starts| - 1] == Some(PortConflict)
              && (input.skipPreflight && |d.log| > |log0| && d.log[|log0|].Removal? ==> d.clock > start + 10000)
    ensures r.error == NotRunning && d.clock <= start + input.runningTimeout ==>
              created.Some? && ExitedWithError(d.log, created.value.id)
  {
    if r.error == PortsNotAvailable {
      HeldPort(plat.host, start, d.clock, d.log != log0, pairs, input.addresses);
    } else if r.error == CreateFailed {
      TakenName(input, Lookup(w, input.targetID).value, d.world);
    } else if r.error == NotRunning && d.clock <= start + input.runningTimeout {
      var e := d.log[|d.log| - 1];
      assert e in d.log;
      FailedMeaning(e, created.value.id);
    }
  }

  /** When some removal was issued, the container was there, exited with an error. */
  ghost predicate ExitedWithError(log: seq<Event>, id: string) {
    exists e, x :: e in log && e.Removal? && Lookup(e.before, id) == Some(x) && x.status == Exited && x.exitCode != 0
  }

  lemma FailedMeaning(e: Event, id: string)
    requires e.Removal? && HasFailed(e.before, id)
    ensures exists x :: Lookup(e.before, id) == Some(x) && x.status == Exited && x.exitCode != 0
  {
    var x := Lookup(e.before, id).value;
    assert Lookup(e.before, id) == Some(x);
  }

  lemma HeldPort(host: Host, from: nat, to: nat, removed: bool, pairs: seq<PortPair>, addresses: seq<string>)
    requires HoldsPorts(host, from, to, removed, pairs, addresses)
    ensures exists now, b :: from <= now <= to && CannotBind(host, now, pairs, addresses, b)
                             && (removed ==> now > from + 10000)
  {
    var now :| from <= now <= to && (removed ==> now > from + PORT_RELEASE_TIMEOUT)
               && !PreflightClean(host, now, Bindings(pairs, addresses));
    PreflightMeaning(host, now, Bindings(pairs, addresses));
    var b :| b in Bindings(pairs, addresses) && !BindsOn(host, now, b);
    assert CannotBind(host, now, pairs, addresses, b);
  }

  lemma TakenName(input: ForwardInput, t: Container, w: World)
    requires NameTaken(input, t, w)
    ensures exists x, name :: x in w.containers && NamedAs(x, name)
                              && if input.name != "" then name == input.name else "port-forward-" <= name
  {
    var name :| GivenName(input, t, name) && !NameFree(w, name);
    var x :| x in w.containers && TrimSlash(x.name) == name;
    TrimSlashMeaning(x, name);
    assert NamedAs(x, name);
  }

  /** A binding of these pairs that cannot be bound on the host: refused, or of no known protocol. */
  ghost predicate CannotBind(host: Host, now: nat, pairs: seq<PortPair>, addresses: seq<string>, b: PortPair) {
    && b in Bindings(pairs, addresses)
    && (|| b.protocol !in {"", "tcp", "udp"}
        || host(now, if b.address == "*" then "" else b.address, b.localPort,
                if b.protocol == "udp" then "udp" else "tcp") == Refused)
  }

  /** A run that created nothing. */
  lemma NothingCreated(plat: Platform, input: ForwardInput, w: World, log0: seq<Event>, start: nat, d: Client,
                       r: Result<ForwardResult, ForwardError>, pairs: seq<PortPair>)
    requires log0 <= d.log && AllJustified(d.log[|log0|..], plat.netip, w, WantedOf(plat, input, pairs))
    requires Pruned(w, d.world) && Explained(w, d.world, d.log[|log0|..])
    requires Names(r, pairs, None) && r != Err(StartFailed)
    requires r.Ok? && input.detach && PlainInput(input) && TargetIsOrdinary(plat.netip, w, input.targetID) ==>
               Forwarded(plat.netip, d.world, WantedOf(plat, input, pairs), r.value)
    requires r.Ok? ==> Reused(plat.netip, d.world, WantedOf(plat, input, pairs), r.value)
    requires r.Err? && d.reliable && !d.canceled && Acceptable(input) && ExplicitPorts(input)
             && TargetReady(w, input.targetID, input.network) ==>
               Excused(plat, w, d, start, log0, input, pairs, r.error, None)
    ensures Traced(plat, input, w, log0, d.starts, start, d, r, pairs, None)
    ensures Achieved(plat, input, w, log0, start, d, r, pairs, None)
  {
    PrunedIsStep(w, d.world);
    PrunedIsFramed(w, d.world, d.log[|log0|..], plat.netip, WantedOf(plat, input, pairs));
  }

  /** What a launched helper adds to the events and the world of a run. */
  lemma LaunchIsTraced(plat: Platform, input: ForwardInput, p: Prepared, w0: World, log0: seq<Event>,
                       starts0: seq<Option<DaemonError>>, start: nat, w1: World, log1: seq<Event>, retry: bool,
                       d: Client, r: Result<ForwardResult, ForwardError>, c: Container)
    requires Lookup(w0, input.targetID) == Some(p.target) && PickResult(w0, p.target, input.network, Ok(p.pick))
    requires log0 <= log1 && AllJustified(log1[|log0|..], plat.netip, w0, WantedOf(plat, input, p.pairs))
    requires Pruned(w0, w1) && Explained(w0, w1, log1[|log0|..])
    requires !input.skipPreflight ==> Preflighted(plat.host, start, d.clock, p.pairs, input.addresses)
    requires retry <==> Retries(input, log0, d.log)
    requires Launched(d, input, p, w1, log1, r, c) && Builds(plat, c, input, p)
    requires StartCalls(starts0, d.starts, true, r != Err(StartFailed), retry)
    ensures Traced(plat, input, w0, log0, starts0, start, d, r, p.pairs, Some(c))
  {
    var want, removed := WantedOf(plat, input, p.pairs), !(r.Ok? && input.detach);
    FinishedEvents(plat, want, w0, w1, d.world, log0, log1, d.log, c, removed);
    MakesFor(plat, w0, c, input, p);
    LeakFromStart(d, log0, log1, input.detach, Failure(r), Some(c));
  }

  /** What a run achieves that launched a helper into a world that was made way in. */
  lemma LaunchAchieves(plat: Platform, input: ForwardInput, p: Prepared, w0: World, log0: seq<Event>, start: nat,
                       w1: World,
                       log1: seq<Event>, d: Client, r: Result<ForwardResult, ForwardError>, c: Container)
    requires Lawful(plat.netip) && Acceptable(input) && Resolves(input.pairs, p.pairs)
    requires Lookup(w0, input.targetID) == Some(p.target) && PickResult(w0, p.target, input.network, Ok(p.pick))
    requires Pruned(w0, w1) && NoOverlap(w1, input.targetID, p.pairs)
    requires d.reliable ==> OrphansGone(w0.containers, w0, w1, input.targetID, p.pairs)
    requires Launched(d, input, p, w1, log1, r, c)
    requires Recallable(input, p.pairs) ==> Carries(plat, c, WantedOf(plat, input, p.pairs), p.pick)
    requires d.reliable && !d.canceled ==>
               FailedFor(d, start, input.runningTimeout, Retries(input, log0, d.log), Failure(r), c.id)
    ensures Achieved(plat, input, w0, log0, start, d, r, p.pairs, Some(c))
  {
    var want := WantedOf(plat, input, p.pairs);
    if PlainInput(input) {
      ResolvedAreRecallable(input, p.pairs);
      LaunchedKeeps(plat, w0, w1, d.world, c, want, p.pick);
      if r.Ok? && input.detach && TargetIsOrdinary(plat.netip, w0, input.targetID) {
        LaunchSettles(plat, w0, w1, d.world, p.target, c, want, p.pick);
      }
    }
  }

  /** The end of a run that found no helper to reuse, from the world that was made way in. */
  method Finish(d: Client, plat: Platform, input: ForwardInput, p: Prepared, retry: bool,
                ghost w0: World, ghost log0: seq<Event>, ghost start: nat)
    returns (r: Result<ForwardResult, ForwardError>, ghost created: Option<Container>)
    requires Lawful(plat.netip) && Acceptable(input) && Resolves(input.pairs, p.pairs)
    requires Lookup(w0, input.targetID) == Some(p.target) && PickResult(w0, p.target, input.network, Ok(p.pick))
    requires Pruned(w0, d.world) && NoOverlap(d.world, input.targetID, p.pairs) && start <= d.clock
    requires log0 <= d.log && AllJustified(d.log[|log0|..], plat.netip, w0, WantedOf(plat, input, p.pairs))
    requires Explained(w0, d.world, d.log[|log0|..])
    requires d.reliable && !d.canceled ==> OrphansGone(w0.containers, w0, d.world, input.targetID, p.pairs)
    requires !input.skipPreflight ==> Preflighted(plat.host, start, d.clock, p.pairs, input.addresses)
    requires retry <==> input.skipPreflight && d.log != log0
    modifies d
    ensures d.clock >= old(d.clock) && (old(d.canceled) ==> d.canceled)
    ensures r.Err? ==> r.error == CreateFailed || r.error == StartFailed || r.error == NotRunning
    ensures Traced(plat, input, w0, log0, old(d.starts), start, d, r, p.pairs, created)
    ensures Achieved(plat, input, w0, log0, start, d, r, p.pairs, created)
  {
    ghost var w1, log1, starts1 := d.world, d.log, d.starts;
    r, created := LaunchHelper(d, plat, input, p, retry);
    LaunchEnds(plat, input, p, w0, log0, starts1, start, w1, log1, retry, d, r, created);
  }

  /** Whether a container was created or not, a launch ends a run as it should. */
  lemma LaunchEnds(plat: Platform, input: ForwardInput, p: Prepared, w0: World, log0: seq<Event>,
                   starts0: seq<Option<DaemonError>>, start: nat, w1: World, log1: seq<Event>, retry: bool, d: Client,
                   r: Result<ForwardResult, ForwardError>, created: Option<Container>)
    requires Lawful(plat.netip) && Acceptable(input) && Resolves(input.pairs, p.pairs)
    requires Lookup(w0, input.targetID) == Some(p.target) && PickResult(w0, p.target, input.network, Ok(p.pick))
    requires Pruned(w0, w1) && NoOverlap(w1, input.targetID, p.pairs)
    requires log0 <= log1 && AllJustified(log1[|log0|..], plat.netip, w0, WantedOf(plat, input, p.pairs))
    requires Explained(w0, w1, log1[|log0|..])
    requires d.reliable && created.Some? ==> OrphansGone(w0.containers, w0, w1, input.targetID, p.pairs)
    requires !input.skipPreflight ==> Preflighted(plat.host, start, d.clock, p.pairs, input.addresses)
    requires retry <==> input.skipPreflight && log1 != log0
    requires created.None? ==> r == Err(CreateFailed) && d.world == w1 && d.log == log1
    requires d.reliable && !d.canceled && created.None? ==> NameTaken(input, p.target, d.world)
    requires created.Some? ==>
              Launched(d, input, p, w1, log1, r, created.value) && Builds(plat, created.value, input, p)
    requires created.Some? && Recallable(input, p.pairs) ==>
               Carries(plat, created.value, WantedOf(plat, input, p.pairs), p.pick)
    requires StartCalls(starts0, d.starts, created.Some?, r != Err(StartFailed), retry)
    requires d.reliable && !d.canceled && created.Some? ==>
               FailedFor(d, start, input.runningTimeout, retry, Failure(r), created.value.id)
    ensures Traced(plat, input, w0, log0, starts0, start, d, r, p.pairs, created)
    ensures Achieved(plat, input, w0, log0, start, d, r, p.pairs, created)
  {
    if created.Some? {
      RetriesMeaning(plat, input, w0, WantedOf(plat, input, p.pairs), log0, log1, d.log, created.value.id);
      LaunchIsTraced(plat, input, p, w0, log0, starts0, start, w1, log1, retry, d, r, created.value);
      LaunchAchieves(plat, input, p, w0, log0, start, w1, log1, d, r, created.value);
    } else {
      NothingCreated(plat, input, w0, log0, start, d, r, p.pairs);
    }
  }

  /** What the events of a launch add to those before it. */
  lemma FinishedEvents(plat: Platform, want: Wanted, w0: World, w1: World, w2: World,
                       log0: seq<Event>, log1: seq<Event>, log2: seq<Event>, c: Container, removed: bool)
    requires Pruned(w0, w1) && Grown(w1, w2, c)
    requires log0 <= log1 && AllJustified(log1[|log0|..], plat.netip, w0, want) && Explained(w0, w1, log1[|log0|..])
    requires LaunchEvents(log1, log2, c.id, removed)
    ensures log0 <= log2 && RunEvents(log2[|log0|..], plat.netip, w0, want, Some(c))
    ensures Creation(c.id) in log2[|log0|..]
    ensures removed ==> EndsWithRemoval(log0, log2, c.id)
    ensures Framed(w0, w2, log2[|log0|..], plat.netip, want, Some(c))
  {
    LaunchEventsAreRunEvents(log0, log1, log2, plat.netip, w0, want, c, removed);
    CreationIsLogged(log0, log1, log2, c.id, removed);
    assert log1 <= log2;
    LaunchIsFramed(w0, w1, w2, log1[|log0|..], log2[|log0|..], plat.netip, want, c);
  }

  /** A run began with a removal exactly when something was removed before its launch. */
  lemma RetriesMeaning(plat: Platform, input: ForwardInput, w: World, want: Wanted, log0: seq<Event>, log1: seq<Event>,
                       log2: seq<Event>, id: string)
    requires log0 <= log1 && AllJustified(log1[|log0|..], plat.netip, w, want)
    requires LaunchEvents(log1, log2, id, true) || LaunchEvents(log1, log2, id, false)
    ensures Retries(input, log0, log2) <==> input.skipPreflight && log1 != log0
  {
    assert log2[..|log1|] == log1;
    if |log1| > |log0| {
      assert log1[|log0|] in log1[|log0|..] && log2[|log0|] == log1[|log0|];
    } else {
      assert log1 == log0;
    }
  }

  /** What was lately launched counts from the beginning of the run too. */
  lemma LeakFromStart(d: Client, log0: seq<Event>, log1: seq<Event>, detach: bool, failure: Option<ForwardError>,
                      created: Option<Container>)
    requires log0 <= log1 && NoLeak(d, log1, detach, failure, created)
    ensures NoLeak(d, log0, detach, failure, created)
  {
  }

  /** What a launch adds to a world that was made way in. */
  lemma LaunchedKeeps(plat: Platform, w0: World, w1: World, w2: World, c: Container, want: Wanted, pick: Pick)
    requires Pruned(w0, w1) && Grown(w1, w2, c)
    requires NoOverlap(w1, want.target, want.pairs) && Carries(plat, c, want, pick)
    ensures ForwardStep(w0, w2, Some(c))
    ensures OrphansGone(w0.containers, w0, w1, want.target, want.pairs) ==>
              OrphansGone(w0.containers, w0, w2, want.target, want.pairs)
  {
    LaunchIsStep(plat, w0, w1, w2, c, want, pick);
    if OrphansGone(w0.containers, w0, w1, want.target, want.pairs) {
      OrphansStayAway(plat, w0, w1, w2, c, want, pick);
    }
  }

  lemma CreationIsLogged(log0: seq<Event>, log1: seq<Event>, log2: seq<Event>, id: string, removed: bool)
    requires log0 <= log1 && LaunchEvents(log1, log2, id, removed)
    ensures log0 <= log2 && Creation(id) in log2[|log0|..]
  {
    assert log2[..|log1|] == log1;
    assert log2[|log0|..][|log1| - |log0|] == log2[|log1|];
  }

  lemma MakesFor(plat: Platform, w: World, c: Container, input: ForwardInput, p: Prepared)
    requires Lookup(w, input.targetID) == Some(p.target) && PickResult(w, p.target, input.network, Ok(p.pick))
    requires Builds(plat, c, input, p)
    ensures MadeFor(plat, w, c, input, p.pairs)
  {
    assert Builds(plat, c, input, Prepared(p.pairs, p.target, p.pick));
  }

  /** A run of explicit ports whose helper is settled does nothing but find it. */
  ghost predicate NothingToDo(plat: Platform, input: ForwardInput, w: World, log0: seq<Event>, d: Client, want: Wanted,
                              r: Result<ForwardResult, ForwardError>)
    reads d
  {
    Settled(plat.netip, w, want).Some? ==>
      && d.world == w && d.log == log0
      && Reuses(r, Settled(plat.netip, w, want).value)
      && (d.reliable && !d.canceled && Acceptable(input) && TargetReady(w, input.targetID, input.network) ==> r.Ok?)
  }

  /**
   When there is nothing to do, spelled out. The first running helper of the target that
   forwards something requested can reach it and has the wanted range and network: then
   a run of explicit ports changes nothing, and if it succeeds it returns that helper.
   */
  lemma NothingToDoMeaning(plat: Platform, input: ForwardInput, w: World, log0: seq<Event>, d: Client,
                           r: Result<ForwardResult, ForwardError>, i: nat)
    requires NothingToDo(plat, input, w, log0, d, WantedOf(plat, input, NormalizedAll(input.pairs)), r)
    requires input.targetID != "" && FirstForwarder(w.containers, input.targetID, input.pairs, i)
    requires var c := w.containers[i];
             && !Stale(plat.netip, w, c)
             && RangeOf(c) == Range.RangeLabel(plat.ranges, input.sourceRange)
             && (input.network == "" || NetworkOf(c) == input.network)
    ensures d.world == w && d.log == log0
    ensures r.Ok? ==> r.value.existing && r.value.helperID == w.containers[i].id
                      && NamedAs(w.containers[i], r.value.helperName)
    ensures d.reliable && !d.canceled && Acceptable(input) && TargetReady(w, input.targetID, input.network) ==> r.Ok?
  {
    var want := WantedOf(plat, input, NormalizedAll(input.pairs));
    FirstForwarderNormalized(w.containers, input.targetID, input.pairs, i);
    SettledMeaning(plat.netip, w, want, w.containers[i]);
    if r.Ok? {
      TrimSlashMeaning(w.containers[i], r.value.helperName);
    }
  }

  /** Writing the default protocol out changes nothing about what is forwarded. */
  lemma FirstForwarderNormalized(cs: seq<Container>, target: string, pairs: seq<PortPair>, i: nat)
    requires FirstForwarder(cs, target, pairs, i)
    ensures FirstForwarder(cs, target, NormalizedAll(pairs), i)
  {
    forall j | 0 <= j <= i
      ensures ForwardsFor(cs[j], target, NormalizedAll(pairs)) <==> ForwardsFor(cs[j], target, pairs)
    {
      ForwardsForNormalized(cs[j], target, pairs);
    }
  }

  lemma ForwardsForNormalized(c: Container, target: string, pairs: seq<PortPair>)
    ensures ForwardsFor(c, target, NormalizedAll(pairs)) <==> ForwardsFor(c, target, pairs)
  {
    if p, q :| p in HelperPairs(c) && q in NormalizedAll(pairs) && SameForward(p, q) {
      var k :| 0 <= k < |pairs| && NormalizedAll(pairs)[k] == q;
      assert pairs[k] in pairs && SameForward(p, pairs[k]);
    }
    if p, q :| p in HelperPairs(c) && q in pairs && SameForward(p, q) {
      var k :| 0 <= k < |pairs| && pairs[k] == q;
      assert NormalizedAll(pairs)[k] in NormalizedAll(pairs) && SameForward(p, NormalizedAll(pairs)[k]);
    }
  }

  /** The part of a run that may change the world. */
  method Proceed(d: Client, plat: Platform, input: ForwardInput, p: Prepared, ghost start: nat)
    returns (r: Result<ForwardResult, ForwardError>, ghost created: Option<Container>)
    requires Lawful(plat.netip) && Unique(d.world) && Acceptable(input) && Resolves(input.pairs, p.pairs)
             && start <= d.clock
    requires Lookup(d.world, input.targetID) == Some(p.target)
             && PickResult(d.world, p.target, input.network, Ok(p.pick))
    modifies d
    ensures d.clock >= old(d.clock) && (old(d.canceled) ==> d.canceled)
    ensures r.Err? ==> !r.error.TargetNotInspected? && !r.error.NetworkNotPicked?
    ensures NothingToDo(plat, input, old(d.world), old(d.log), d, WantedOf(plat, input, p.pairs), r)
    ensures Traced(plat, input, old(d.world), old(d.log), old(d.starts), start, d, r, p.pairs, created)
    ensures Achieved(plat, input, old(d.world), old(d.log), start, d, r, p.pairs, created)
  {
    ghost var w0, log0 := d.world, d.log;
    created := None;
    var existing, removed := MakeWay(d, plat, input, WantedOf(plat, input, p.pairs));
    if existing == Ok(None) {
      r, created := Finish(d, plat, input, p, input.skipPreflight && removed > 0, w0, log0, start);
    } else {
      r := if existing.Err? then Err(existing.error) else Ok(ExistingResult(existing.value.value, p.pairs));
      NothingLaunched(plat, input, p, w0, log0, start, d, existing, r);
    }
  }

  function ExistingResult(c: Container, pairs: seq<PortPair>): ForwardResult {
    ForwardResult(c.id, TrimSlash(c.name), pairs, true)
  }

  /** A run that reuses a helper, or that fails before it can create one. */
  lemma NothingLaunched(plat: Platform, input: ForwardInput, p: Prepared, w: World, log0: seq<Event>, start: nat,
                        d: Client,
                        existing: Result<Option<Container>, ForwardError>, r: Result<ForwardResult, ForwardError>)
    requires Acceptable(input) && Resolves(input.pairs, p.pairs) && start <= d.clock
    requires Lookup(w, input.targetID) == Some(p.target) && PickResult(w, p.target, input.network, Ok(p.pick))
    requires log0 <= d.log && AllJustified(d.log[|log0|..], plat.netip, w, WantedOf(plat, input, p.pairs))
    requires Pruned(w, d.world) && Explained(w, d.world, d.log[|log0|..])
    requires existing.Err?
             || (existing.value.Some?
                 && Settled(plat.netip, d.world, WantedOf(plat, input, p.pairs)) == existing.value)
    requires r == if existing.Err? then Err(existing.error) else Ok(ExistingResult(existing.value.value, p.pairs))
    requires Settled(plat.netip, w, WantedOf(plat, input, p.pairs)).Some? ==>
               && d.world == w && d.log == log0
               && (existing.Ok? ==> existing.value == Settled(plat.netip, w, WantedOf(plat, input, p.pairs)))
               && (d.reliable && !d.canceled ==> existing.Ok?)
    requires r != Err(StartFailed)
    requires r.Err? && d.reliable && !d.canceled ==> Excused(plat, w, d, start, log0, input, p.pairs, r.error, None)
    ensures NothingToDo(plat, input, w, log0, d, WantedOf(plat, input, p.pairs), r)
    ensures Traced(plat, input, w, log0, d.starts, start, d, r, p.pairs, None)
    ensures Achieved(plat, input, w, log0, start, d, r, p.pairs, None)
  {
    ExistingServes(plat, w, d.world, input, p, WantedOf(plat, input, p.pairs));
    NothingCreated(plat, input, w, log0, start, d, r, p.pairs);
  }

  /**
   `StartForward`. The ghost results are the pairs the run resolved and the container
   it created, if any.
   */
  method StartForward(d: Client, plat: Platform, input: ForwardInput)
    returns (r: Result<ForwardResult, ForwardError>, ghost pairs: seq<PortPair>, ghost created: Option<Container>)
    requires Lawful(plat.netip) && Unique(d.world)
    modifies d
    ensures d.clock >= old(d.clock) && (old(d.canceled) ==> d.canceled)
    ensures r.Ok? ==> Acceptable(input)
    ensures Resolves(input.pairs, pairs) || (r.Err? && pairs == [] && d.world == old(d.world) && d.log == old(d.log))
    ensures r.Err? && (r.error.TargetNotInspected? || r.error.NetworkNotPicked?) ==>
              d.world == old(d.world) && d.log == old(d.log)
    ensures ExplicitPorts(input) ==>
              NothingToDo(plat, input, old(d.world), old(d.log), d,
                          WantedOf(plat, input, NormalizedAll(input.pairs)), r)
    ensures Traced(plat, input, old(d.world), old(d.log), old(d.starts), old(d.clock), d, r, pairs, created)
    ensures Achieved(plat, input, old(d.world), old(d.log), old(d.clock), d, r, pairs, created)
  {
    ghost var w0, log0, start := d.world, d.log, d.clock;
    pairs, created := [], None;
    var prepared := Prepare(d, input);
    if prepared.Err? {
      r := Err(prepared.error);
      PrunedSelf(w0);
      NothingCreated(plat, input, w0, log0, start, d, r, pairs);
    } else {
      pairs := prepared.value.pairs;
      if ExplicitPorts(input) {
        ExplicitPortsResolve(input.pairs, pairs);
      }
      r, created := Proceed(d, plat, input, prepared.value, start);
    }
  }

  /** A reused helper: the target and its networks are as they were. */
  lemma ExistingServes(plat: Platform, w0: World, w1: World, input: ForwardInput, p: Prepared, want: Wanted)
    requires Pruned(w0, w1) && want.target == input.targetID && want.network == input.network
    requires Lookup(w0, want.target) == Some(p.target) && PickResult(w0, p.target, want.network, Ok(p.pick))
    ensures !LiveHelper(p.target) ==> TargetReady(w1, want.target, want.network)
  {
    if !LiveHelper(p.target) {
      PrunedKeepsLookup(w0, w1, want.target, p.target);
      PickReadsNetworks(w0, w1, p.target, want.network, p.pick);
    }
  }
}
