/** Properties of sequences of runs, and of the world changing in between. */
module History {
  import opened Wrappers
  import opened Text
  import opened Ports
  import opened Codec
  import opened Config
  import opened World
  import opened Daemon
  import opened Drift
  import opened Labels
  import opened Reconcile
  import opened Retry
  import opened Forward
  import Cleanup

  /** Two distinct running helpers of one target never forward the same (local, remote, protocol). */
  predicate NoSharedForwards(w: World) {
    forall c, x :: c in w.containers && x in w.containers && LiveHelper(c) && Live(x, TargetOf(c)) && c.id != x.id ==>
                     !SharesForward(c, x)
  }

  /** Sharing a forward, said evenly. */
  lemma SharingMeaning(c: Container, x: Container)
    ensures SharesForward(c, x) <==>
            exists p, q :: p in HelperPairs(c) && q in HelperPairs(x) && SameForward(p, q)
  {
    SharedTriple(c, HelperPairs(x));
  }

  lemma SharingIsSymmetric(c: Container, x: Container)
    ensures SharesForward(c, x) <==> SharesForward(x, c)
  {
    SharingMeaning(c, x);
    SharingMeaning(x, c);
    assert forall p, q :: SameForward(p, q) ==> SameForward(q, p);
  }

  // ------------------------------------------------------------ the world's own steps

  /** A running helper was already running, with the same id and labels. */
  predicate WasRunning(c: Container, w: World) {
    exists x :: x in w.containers && x.id == c.id && x.labels == c.labels && LiveHelper(x)
  }

  /**
   What may happen between runs: containers and networks change in any way, targets
   restart, move, change address or go, helpers stop or go; but no helper starts.
   */
  predicate EnvironmentStep(w: World, w': World) {
    Unique(w') && forall c :: c in w'.containers && LiveHelper(c) ==> WasRunning(c, w)
  }

  lemma EnvironmentKeeps(w: World, w': World)
    requires NoSharedForwards(w) && EnvironmentStep(w, w')
    ensures NoSharedForwards(w')
  {
    forall c, x | c in w'.containers && x in w'.containers && LiveHelper(c) && Live(x, TargetOf(c)) && c.id != x.id
      ensures !SharesForward(c, x)
    {
      var c0 :| c0 in w.containers && c0.id == c.id && c0.labels == c.labels && LiveHelper(c0);
      var x0 :| x0 in w.containers && x0.id == x.id && x0.labels == x.labels && LiveHelper(x0);
      assert Live(x0, TargetOf(c0));
      assert SharesForward(c, x) == SharesForward(c0, x0);
    }
  }

  /** Stopping a container, whatever it is, is such a step. */
  lemma StoppingIsEnvironment(w: World, id: string, exitCode: int)
    requires Unique(w)
    ensures EnvironmentStep(w, w.(containers := WithStatus(w.containers, id, Exited, exitCode)))
  {
    WithStatusTouches(w, id, Exited, exitCode);
    NoneStarts(w.containers, id, Exited, exitCode);
  }

  /** So is removing one. */
  lemma RemovalIsEnvironment(w: World, id: string)
    requires Unique(w)
    ensures EnvironmentStep(w, w.(containers := Without(w.containers, id)))
  {
    WithoutTouches(w, id);
  }

  /** So is starting a container that is no helper, such as a target. */
  lemma TargetStartIsEnvironment(w: World, t: Container)
    requires Unique(w) && t in w.containers && !IsHelper(t)
    ensures EnvironmentStep(w, w.(containers := WithStatus(w.containers, t.id, Running, 0)))
  {
    var w' := w.(containers := WithStatus(w.containers, t.id, Running, 0));
    WithStatusTouches(w, t.id, Running, 0);
    forall c | c in w'.containers && LiveHelper(c)
      ensures WasRunning(c, w)
    {
      var d := Origin(w.containers, t.id, Running, 0, c);
      assert d.id == t.id ==> Clash(d, t);
    }
  }

  // --------------------------------------------------------------------- histories

  lemma ForwardKeeps(w: World, w': World, created: Option<Container>)
    requires NoSharedForwards(w) && ForwardStep(w, w', created)
    ensures NoSharedForwards(w')
  {
    forall c, x | c in w'.containers && x in w'.containers && LiveHelper(c) && Live(x, TargetOf(c)) && c.id != x.id
      ensures !SharesForward(c, x)
    {
      SharingIsSymmetric(c, x);
      if x !in w.containers {
        assert SameContainer(x, created.value);
        assert SharesForward(c, x) == SharesForward(c, created.value);
      } else if c !in w.containers {
        assert SameContainer(c, created.value);
        assert SharesForward(x, c) == SharesForward(x, created.value);
      }
    }
  }

  /** One step of a history. */
  ghost predicate HistoryStep(w: World, w': World) {
    EnvironmentStep(w, w') || exists created :: ForwardStep(w, w', created)
  }

  lemma StepKeeps(w: World, w': World)
    requires NoSharedForwards(w) && HistoryStep(w, w')
    ensures NoSharedForwards(w')
  {
    if EnvironmentStep(w, w') {
      EnvironmentKeeps(w, w');
    } else {
      var created :| ForwardStep(w, w', created);
      ForwardKeeps(w, w', created);
    }
  }

  /** Each state is a step from the one before. */
  ghost predicate Chain<S>(step: (S, S) -> bool, ss: seq<S>) {
    ss != [] && (|ss| > 1 ==> Chain(step, ss[..|ss| - 1]) && step(ss[|ss| - 2], ss[|ss| - 1]))
  }

  lemma {:induction false} ChainInvariant<S(!new)>(invariant0: S -> bool, step: (S, S) -> bool, ss: seq<S>)
    requires Chain(step, ss) && invariant0(ss[0])
    requires forall a, b :: invariant0(a) && step(a, b) ==> invariant0(b)
    ensures forall s :: s in ss ==> invariant0(s)
  {
    if |ss| > 1 {
      var init, last := ss[..|ss| - 1], ss[|ss| - 1];
      ChainInvariant(invariant0, step, init);
      assert ss == init + [last];
      assert ss[|ss| - 2] in init;
    }
  }

  lemma ChainGrows<S>(step: (S, S) -> bool, ss: seq<S>, s: S)
    requires Chain(step, ss) && step(ss[|ss| - 1], s)
    ensures Chain(step, ss + [s])
  {
    assert (ss + [s])[..|ss|] == ss;
  }

  /** A sequence of worlds, each a step from the one before. */
  ghost predicate IsHistory(ws: seq<World>) {
    Chain(HistoryStep, ws)
  }

  /** No history makes two running helpers of one target share a forward. */
  lemma HistoryInvariant(ws: seq<World>)
    requires IsHistory(ws) && NoSharedForwards(ws[0])
    ensures forall w :: w in ws ==> NoSharedForwards(w)
  {
    forall w, w' | NoSharedForwards(w) && HistoryStep(w, w')
      ensures NoSharedForwards(w')
    {
      StepKeeps(w, w');
    }
    ChainInvariant(NoSharedForwards, HistoryStep, ws);
  }

  datatype Action =
    | RunForward(input: ForwardInput)
    | RunCleanup(selection: Cleanup.Selection, dryRun: bool)
    | Environment(next: World)

  /**
   Every sequential history of runs, cleanups and steps of the world, from a world in
   which no forward is shared: none is shared at any point, whatever fails on the way.
   */
  method RunHistory(d: Client, plat: Platform, actions: seq<Action>) returns (ghost trace: seq<World>)
    requires Lawful(plat.netip) && Unique(d.world) && NoSharedForwards(d.world)
    requires forall a :: a in actions && a.RunForward? ==> PlainInput(a.input)
    modifies d
    ensures |trace| == |actions| + 1 && trace[0] == old(d.world) && trace[|actions|] == d.world
    ensures IsHistory(trace)
    ensures forall w :: w in trace ==> NoSharedForwards(w)
  {
    trace := [d.world];
    for i := 0 to |actions|
      invariant Unique(d.world)
      invariant |trace| == i + 1 && trace[0] == old(d.world) && trace[i] == d.world
      invariant IsHistory(trace)
    {
      assert actions[i] in actions;
      Act(d, plat, actions[i]);
      ChainGrows(HistoryStep, trace, d.world);
      trace := trace + [d.world];
    }
    HistoryInvariant(trace);
  }

  /** One action, a run of the program under a context of its own. */
  method Act(d: Client, plat: Platform, action: Action)
    requires Lawful(plat.netip) && Unique(d.world)
    requires action.RunForward? ==> PlainInput(action.input)
    modifies d
    ensures Unique(d.world) && HistoryStep(old(d.world), d.world)
  {
    d.Renew();
    match action {
      case RunForward(input) =>
        var r;
        ghost var pairs: seq<PortPair>, created: Option<Container>;
        r, pairs, created := StartForward(d, plat, input);
      case RunCleanup(selection, dryRun) =>
        var r := Cleanup.CleanUp(d, plat.netip, selection, dryRun);
        StayingIsEnvironment(old(d.world), d.world);
      case Environment(next) =>
        if EnvironmentStep(d.world, next) {
          d.world := next;
        }
        StayingIsEnvironment(d.world, d.world);
    }
  }

  lemma StayingIsEnvironment(w: World, w': World)
    requires Unique(w') && forall c :: c in w'.containers && LiveHelper(c) ==> c in w.containers
    ensures EnvironmentStep(w, w')
  {
  }

  // ------------------------------------------------------------------ a stopped helper

  /**
   The step left out: starting a stopped helper keeps the invariant exactly when it
   shares no forward with another running helper of its target.
   */
  lemma RestartExactly(w: World, c: Container)
    requires Unique(w) && NoSharedForwards(w) && c in w.containers && IsHelper(c) && c.status != Running
    ensures var w' := w.(containers := WithStatus(w.containers, c.id, Running, c.exitCode));
            NoSharedForwards(w') <==> NoneShares(w, c)
  {
    var w' := w.(containers := WithStatus(w.containers, c.id, Running, c.exitCode));
    RestartedMembers(w, c);
    if NoneShares(w, c) {
      RestartKeeps(w, w', c);
    }
    if NoSharedForwards(w') {
      RestartReveals(w, w', c);
    }
  }

  /** No other running helper of its target shares a forward with this one. */
  predicate NoneShares(w: World, c: Container) {
    forall x :: x in w.containers && Live(x, TargetOf(c)) && x.id != c.id ==> !SharesForward(c, x)
  }

  /** The world with one helper running. */
  ghost predicate Restarted(w: World, w': World, c: Container) {
    forall x :: x in w'.containers <==> (x in w.containers && x.id != c.id) || x == c.(status := Running)
  }

  lemma RestartKeeps(w: World, w': World, c: Container)
    requires Restarted(w, w', c) && NoSharedForwards(w) && NoneShares(w, c)
    ensures NoSharedForwards(w')
  {
    var c' := c.(status := Running);
    forall a, b | a in w'.containers && b in w'.containers && LiveHelper(a) && Live(b, TargetOf(a)) && a.id != b.id
      ensures !SharesForward(a, b)
    {
      SharingIsSymmetric(a, b);
      if b == c' {
        assert !SharesForward(c, a);
        assert SharesForward(c', a) == SharesForward(c, a);
      }
    }
  }

  lemma RestartReveals(w: World, w': World, c: Container)
    requires Restarted(w, w', c) && NoSharedForwards(w') && IsHelper(c)
    ensures NoneShares(w, c)
  {
    var c' := c.(status := Running);
    forall x | x in w.containers && Live(x, TargetOf(c)) && x.id != c.id
      ensures !SharesForward(c, x)
    {
      assert c' in w'.containers && x in w'.containers;
      assert SharesForward(c', x) == SharesForward(c, x);
    }
  }

  lemma RestartedMembers(w: World, c: Container)
    requires Unique(w) && c in w.containers
    ensures Restarted(w, w.(containers := WithStatus(w.containers, c.id, Running, c.exitCode)), c)
  {
    var cs, cs' := w.containers, WithStatus(w.containers, c.id, Running, c.exitCode);
    forall x
      ensures x in cs' <==> (x in cs && x.id != c.id) || x == c.(status := Running)
    {
      if x in cs' {
        var o := Origin(cs, c.id, Running, c.exitCode, x);
        assert o.id == c.id ==> Clash(o, c);
      }
      if x in cs && x.id != c.id {
        var i :| 0 <= i < |cs| && cs[i] == x;
        assert cs'[i] == x;
      }
      if x == c.(status := Running) {
        var i :| 0 <= i < |cs| && cs[i] == c;
        assert cs'[i] == x;
      }
    }
  }

  // ------------------------------------------------------------------- running twice

  /** Where a run left off: the daemon, and the pairs and the container of the run. */
  datatype Moment = Moment(world: World, log: seq<Event>, starts: seq<Option<DaemonError>>, clock: nat,
                           pairs: seq<PortPair>, created: Option<Container>)

  /** A run of this request leads from one world, with its events and time, to such a moment. */
  ghost predicate LedTo(plat: Platform, input: ForwardInput, w: World, log0: seq<Event>, start: nat, m: Moment) {
    && Unique(m.world) && start <= m.clock && log0 <= m.log
    && RunEvents(m.log[|log0|..], plat.netip, w, WantedOf(plat, input, m.pairs), m.created)
    && Framed(w, m.world, m.log[|log0|..], plat.netip, WantedOf(plat, input, m.pairs), m.created)
    && (PlainInput(input) ==> ForwardStep(w, m.world, m.created))
    && (Resolves(input.pairs, m.pairs) || (m.world == w && m.log == log0))
  }

  /** One run, and where it left off. */
  method RunOnce(d: Client, plat: Platform, input: ForwardInput)
    returns (r: Result<ForwardResult, ForwardError>, ghost mid: Moment)
    requires Lawful(plat.netip) && Unique(d.world)
    modifies d
    ensures LedTo(plat, input, old(d.world), old(d.log), old(d.clock), mid)
    ensures mid == Moment(d.world, d.log, d.starts, d.clock, mid.pairs, mid.created)
    ensures r.Ok? ==> Acceptable(input) && Resolves(input.pairs, mid.pairs)
    ensures r.Ok? && input.detach && PlainInput(input) && TargetIsOrdinary(plat.netip, old(d.world), input.targetID) ==>
              Serves(plat.netip, d.world, WantedOf(plat, input, mid.pairs), r.value.helperID)
  {
    ghost var pairs: seq<PortPair>, created: Option<Container>;
    r, pairs, created := StartForward(d, plat, input);
    mid := Moment(d.world, d.log, d.starts, d.clock, pairs, created);
  }

  /**
   Running the same request again, under a context of its own: after a successful
   detached run with explicit local ports, the second run reuses the same helper and
   leaves the daemon untouched; a reliable daemon makes it succeed. The ghost result is
   where the first run left off.
   */
  method ForwardTwice(d: Client, plat: Platform, input: ForwardInput)
    returns (first: Result<ForwardResult, ForwardError>, second: Result<ForwardResult, ForwardError>, ghost mid: Moment)
    requires Lawful(plat.netip) && Unique(d.world)
    requires input.detach && ExplicitPorts(input) && PlainInput(input)
    requires TargetIsOrdinary(plat.netip, d.world, input.targetID)
    modifies d
    ensures LedTo(plat, input, old(d.world), old(d.log), old(d.clock), mid)
    ensures d.world == mid.world && d.log == mid.log
    ensures first.Err? ==> second == first
    ensures first.Ok? ==>
              && Serves(plat.netip, mid.world, WantedOf(plat, input, NormalizedAll(input.pairs)), first.value.helperID)
              && (second.Ok? ==> second.value.existing && second.value.helperID == first.value.helperID)
              && (d.reliable && !d.canceled ==> second.Ok?)
  {
    first, mid := RunOnce(d, plat, input);
    if first.Err? {
      second := first;
    } else {
      ExplicitPortsResolve(input.pairs, mid.pairs);
      d.Renew();
      second := RunAgain(d, plat, input, WantedOf(plat, input, mid.pairs), first.value.helperID);
    }
  }

  /** A run of a request that a helper already serves. */
  method RunAgain(d: Client, plat: Platform, input: ForwardInput, ghost want: Wanted, ghost id: string)
    returns (r: Result<ForwardResult, ForwardError>)
    requires Lawful(plat.netip) && Unique(d.world) && Acceptable(input) && ExplicitPorts(input)
    requires want == WantedOf(plat, input, NormalizedAll(input.pairs)) && Serves(plat.netip, d.world, want, id)
    modifies d
    ensures d.world == old(d.world) && d.log == old(d.log)
    ensures r.Ok? ==> r.value.existing && r.value.helperID == id
    ensures d.reliable && !d.canceled ==> r.Ok?
  {
    ghost var pairs: seq<PortPair>, created: Option<Container>;
    r, pairs, created := StartForward(d, plat, input);
  }

  /**
   A run after another, such as an attached one that ended with its context done: it has
   a context of its own, so on a reliable daemon and when nothing of the target's
   overlaps its request, it makes a helper unless the ports, the name or the helper
   itself stand in the way. The ghost results are where the first run left off, and the
   pairs and the container of the second.
   */
  method ForwardAfter(d: Client, plat: Platform, first: ForwardInput, input: ForwardInput)
    returns (r: Result<ForwardResult, ForwardError>, ghost mid: Moment, ghost pairs: seq<PortPair>,
             ghost created: Option<Container>)
    requires Lawful(plat.netip) && Unique(d.world)
    requires input.detach && ExplicitPorts(input) && PlainInput(input) && Acceptable(input)
    modifies d
    ensures LedTo(plat, first, old(d.world), old(d.log), old(d.clock), mid)
    ensures mid.clock <= d.clock
    ensures if Resolves(input.pairs, pairs) then pairs == NormalizedAll(input.pairs)
            else r.Err? && pairs == [] && d.world == mid.world && d.log == mid.log
    ensures Traced(plat, input, mid.world, mid.log, mid.starts, mid.clock, d, r, pairs, created)
    ensures Achieved(plat, input, mid.world, mid.log, mid.clock, d, r, pairs, created)
    ensures d.reliable && !d.canceled && TargetIsOrdinary(plat.netip, mid.world, input.targetID)
            && TargetReady(mid.world, input.targetID, input.network)
            && NoOverlap(mid.world, input.targetID, NormalizedAll(input.pairs)) ==>
              if r.Ok? then
                created.Some? && r.value.helperID == created.value.id
                && Forwarded(plat.netip, d.world, WantedOf(plat, input, NormalizedAll(input.pairs)), r.value)
              else Excused(plat, mid.world, d, mid.clock, mid.log, input, pairs, r.error, created)
  {
    var before;
    before, mid := RunOnce(d, plat, first);
    d.Renew();
    r, pairs, created := StartForward(d, plat, input);
    if Resolves(input.pairs, pairs) {
      ExplicitPortsResolve(input.pairs, pairs);
    }
    MakesOrExcuses(d, plat, mid, input, r, pairs, created);
  }

  lemma MakesOrExcuses(d: Client, plat: Platform, mid: Moment, input: ForwardInput,
                       r: Result<ForwardResult, ForwardError>, pairs: seq<PortPair>, created: Option<Container>)
    requires input.detach && ExplicitPorts(input) && PlainInput(input) && Acceptable(input)
    requires r.Ok? ==> pairs == NormalizedAll(input.pairs)
    requires Names(r, pairs, created) && Achieved(plat, input, mid.world, mid.log, mid.clock, d, r, pairs, created)
    ensures d.reliable && !d.canceled && TargetIsOrdinary(plat.netip, mid.world, input.targetID)
            && TargetReady(mid.world, input.targetID, input.network)
            && NoOverlap(mid.world, input.targetID, NormalizedAll(input.pairs)) ==>
              if r.Ok? then
                created.Some? && r.value.helperID == created.value.id
                && Forwarded(plat.netip, d.world, WantedOf(plat, input, NormalizedAll(input.pairs)), r.value)
              else Excused(plat, mid.world, d, mid.clock, mid.log, input, pairs, r.error, created)
  {
    if r.Ok? && created.None? && TargetIsOrdinary(plat.netip, mid.world, input.targetID) {
      NothingToReuse(plat.netip, mid.world, d.world, WantedOf(plat, input, pairs), r.value.helperID);
    }
  }

  /** A run that created nothing has nothing to reuse but what overlapped before. */
  lemma NothingToReuse(netip: Netip, w: World, w': World, want: Wanted, id: string)
    requires want.target != "" && ForwardStep(w, w', None) && Serves(netip, w', want, id)
    ensures !NoOverlap(w, want.target, want.pairs)
  {
    OverlappingMeaning(w', want.target, want.pairs);
    var c := Settled(netip, w', want).value;
    assert c in w.containers && Live(c, want.target) && Overlaps(c, want.pairs);
  }

  // ------------------------------------------------------------------ what success means

  /** The helper of a successful detached run, spelled out. */
  lemma ForwardedMeaning(netip: Netip, w: World, want: Wanted, r: ForwardResult)
    requires want.target != "" && Forwarded(netip, w, want, r)
    ensures exists c :: c in w.containers && c.id == r.helperID
                        && Live(c, want.target) && !Stale(netip, w, c) && RangeOf(c) == want.range
                        && (want.network != "" ==> NetworkOf(c) == want.network)
                        && (if r.existing then Overlaps(c, want.pairs) else HelperPairs(c) == RecordedAll(want.pairs))
  {
    OverlappingMeaning(w, want.target, want.pairs);
    var c := Settled(netip, w, want).value;
    assert c in w.containers && Live(c, want.target);
  }
}
