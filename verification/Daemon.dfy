/**
 The Docker client: every call may take time, may find the run's context canceled
 and, unless the daemon is reliable, may fail for a reason of its own. The world
 changes only through the calls made here.
 */
module Daemon {
  import opened Wrappers
  import opened Text
  import opened World
  import Config

  /** The run's own context, one that is never done, or one that is done at a deadline. */
  datatype Context = Run | Background | Until(deadline: nat)

  datatype DaemonError = NotFound | InProgress | PortConflict | Failed

  /** What a run did, for the record: removals with the world they were issued in, and creations. */
  datatype Event = Removal(id: string, before: World) | Creation(id: string)

  /** A removal error the program counts as success. */
  predicate CountsAsRemoved(r: Option<DaemonError>) {
    r.None? || r.value == NotFound || r.value == InProgress
  }

  class Client {
    var world: World
    /** Milliseconds. */
    var clock: nat
    /** The run's context is done. */
    var canceled: bool
    ghost var log: seq<Event>
    /** What the start calls returned. */
    ghost var starts: seq<Option<DaemonError>>
    /** When an attached run last found its context done. */
    ghost var doneAt: nat
    /** No call fails but for a canceled context or a missing object. */
    const reliable: bool

    constructor (w: World, reliable: bool)
      ensures world == w && !canceled && log == [] && starts == [] && this.reliable == reliable
    {
      world, clock, canceled, log, starts, doneAt := w, 0, false, [], [], 0;
      this.reliable := reliable;
    }

    predicate Alive(ctx: Context)
      reads this
    {
      match ctx
      case Run => !canceled
      case Background => true
      case Until(deadline) => clock < deadline
    }

    /** A new run comes with a context of its own. */
    method Renew()
      modifies `canceled
      ensures !canceled
    {
      canceled := false;
    }

    /** Time passes, and the context may get canceled meanwhile. */
    method Tick()
      modifies `clock, `canceled
      ensures clock >= old(clock) && (old(canceled) ==> canceled)
    {
      var elapsed: int := *;
      var cancel: bool := *;
      if elapsed > 0 {
        clock := clock + elapsed;
      }
      canceled := canceled || cancel;
    }

    /** Whether a call fails outright. */
    method Fails(ctx: Context) returns (failed: bool)
      modifies `clock, `canceled
      ensures clock >= old(clock) && (old(canceled) ==> canceled)
      ensures !Alive(ctx) ==> failed
      ensures reliable && failed ==> !Alive(ctx)
    {
      Tick();
      var fault: bool := *;
      failed := !Alive(ctx) || (!reliable && fault);
    }

    /** `ContainerInspect`. An empty reference is refused by the client itself. */
    method Inspect(ctx: Context, ref: string) returns (r: Result<Container, DaemonError>)
      modifies `clock, `canceled
      ensures clock >= old(clock) && (old(canceled) ==> canceled)
      ensures r.Ok? ==> Lookup(world, ref) == Some(r.value)
      ensures r == Err(NotFound) ==> ref != "" && Lookup(world, ref).None?
      ensures r.Err? ==> r.error == NotFound || r.error == Failed
      ensures reliable && Alive(ctx) && ref != "" ==> r != Err(Failed)
    {
      var failed := Fails(ctx);
      if failed || ref == "" {
        return Err(Failed);
      }
      var c := Lookup(world, ref);
      r := if c.Some? then Ok(c.value) else Err(NotFound);
    }

    /** `NetworkInspect`: whether the network is internal. */
    method InspectNetwork(ctx: Context, name: string) returns (r: Result<bool, DaemonError>)
      modifies `clock, `canceled
      ensures clock >= old(clock) && (old(canceled) ==> canceled)
      ensures r.Ok? ==> name in world.networks && world.networks[name] == r.value
      ensures r == Err(NotFound) ==> name !in world.networks
      ensures r.Err? ==> r.error == NotFound || r.error == Failed
      ensures reliable && Alive(ctx) ==> r != Err(Failed)
    {
      var failed := Fails(ctx);
      if failed {
        return Err(Failed);
      }
      r := if name in world.networks then Ok(world.networks[name]) else Err(NotFound);
    }

    /** `ListHelpers`. */
    method ListHelpers(ctx: Context, target: string) returns (r: Result<seq<Container>, DaemonError>)
      modifies `clock, `canceled
      ensures clock >= old(clock) && (old(canceled) ==> canceled)
      ensures r.Ok? ==> r.value == HelpersIn(world.containers, target)
      ensures reliable && Alive(ctx) ==> r.Ok?
    {
      var failed := Fails(ctx);
      r := if failed then Err(Failed) else Ok(HelpersIn(world.containers, target));
    }

    /** A forced `ContainerRemove`. */
    method Remove(ctx: Context, id: string) returns (r: Option<DaemonError>)
      modifies `world, `clock, `canceled, `log
      ensures clock >= old(clock) && (old(canceled) ==> canceled)
      ensures log == old(log) + [Removal(id, old(world))]
      ensures OnlyTouches(old(world), world, id)
      ensures CountsAsRemoved(r) ==> forall c :: c in world.containers && c.id == id ==> c.status == Removing
      ensures r.None? || r == Some(NotFound) ==> forall c :: c in world.containers ==> c.id != id
      ensures r.None? ==> world.containers == Without(old(world.containers), id)
      ensures forall c :: c in world.containers && c.status == Running ==> c in old(world.containers)
      ensures !CountsAsRemoved(r) ==> world == old(world)
      ensures r == Some(NotFound) ==> world == old(world)
      ensures reliable && Alive(ctx) ==> r.None? || r == Some(NotFound)
      ensures !Alive(ctx) ==> r == Some(Failed) && world == old(world)
    {
      log := log + [Removal(id, world)];
      OnlyTouchesSelf(world, id);
      var failed := Fails(ctx);
      if failed {
        return Some(Failed);
      }
      if FindId(world.containers, id).None? {
        return Some(NotFound);
      }
      var busy: bool := *;
      if !reliable && busy {
        WithStatusTouches(world, id, Removing, 0);
        StatusIs(world.containers, id, Removing, 0);
        NoneStarts(world.containers, id, Removing, 0);
        world := world.(containers := WithStatus(world.containers, id, Removing, 0));
        return Some(InProgress);
      }
      WithoutTouches(world, id);
      world := world.(containers := Without(world.containers, id));
      r := None;
    }

    /** `ContainerCreate`. The list position of the new container is the daemon's choice. */
    method Create(ctx: Context, name: string, spec: Config.HelperSpec) returns (r: Result<string, DaemonError>)
      modifies `world, `clock, `canceled, `log
      ensures clock >= old(clock) && (old(canceled) ==> canceled)
      ensures r.Ok? ==> Added(old(world), world, NewContainer(r.value, name, spec))
      ensures r.Ok? ==> log == old(log) + [Creation(r.value)]
      ensures r.Err? ==> world == old(world) && log == old(log)
      ensures r.Ok? && ctx == Run ==> !old(canceled)
      ensures reliable && Alive(ctx) && NameFree(world, name) ==> r.Ok?
    {
      var failed := Fails(ctx);
      if failed || FindName(world.containers, name).Some? {
        return Err(Failed);
      }
      var extra: int := *;
      var id := UnusedId(world, if extra > 0 then extra else 0);
      var c := NewContainer(id, name, spec);
      var at: nat :| at <= |world.containers|;
      var cs := world.containers;
      assert cs == cs[..at] + cs[at..];
      world := world.(containers := cs[..at] + [c] + cs[at..]);
      log := log + [Creation(id)];
      r := Ok(id);
    }

    /** `ContainerStart`. A started container may exit at once. */
    method Start(ctx: Context, id: string) returns (r: Option<DaemonError>)
      modifies `world, `clock, `canceled, `starts
      ensures clock >= old(clock) && (old(canceled) ==> canceled)
      ensures starts == old(starts) + [r]
      ensures OnlyTouches(old(world), world, id)
      ensures r.Some? ==> world == old(world)
      ensures reliable && Alive(ctx) ==> r.None? || r == Some(PortConflict)
    {
      OnlyTouchesSelf(world, id);
      var failed := Fails(ctx);
      var held: bool := *;
      if failed {
        r := Some(Failed);
      } else if held {
        r := Some(PortConflict);
      } else {
        Settle(id);
        r := None;
      }
      starts := starts + [r];
    }

    /** The container runs, exits or is removed on its own. */
    method Settle(id: string)
      modifies `world
      ensures OnlyTouches(old(world), world, id)
    {
      OnlyTouchesSelf(world, id);
      var gone: bool := *;
      if gone {
        WithoutTouches(world, id);
        world := world.(containers := Without(world.containers, id));
      } else {
        var status: Status := *;
        var exitCode: int := *;
        WithStatusTouches(world, id, status, exitCode);
        world := world.(containers := WithStatus(world.containers, id, status, exitCode));
      }
    }

    /** `ContainerStop`; a container that removes itself may be gone afterwards. */
    method Stop(ctx: Context, id: string) returns (r: Option<DaemonError>)
      modifies `world, `clock, `canceled
      ensures clock >= old(clock) && (old(canceled) ==> canceled)
      ensures OnlyTouches(old(world), world, id)
      ensures !Alive(ctx) ==> r == Some(Failed) && world == old(world)
    {
      OnlyTouchesSelf(world, id);
      var failed := Fails(ctx);
      if failed {
        return Some(Failed);
      }
      if FindId(world.containers, id).None? {
        return Some(NotFound);
      }
      Settle(id);
      r := None;
    }

    /** Waits for a delay or for the context, whichever is chosen first. */
    method Sleep(delay: nat) returns (interrupted: bool)
      modifies `clock, `canceled
      ensures old(canceled) ==> canceled
      ensures interrupted ==> canceled
      ensures clock >= if interrupted then old(clock) else old(clock) + delay
    {
      Tick();
      var chosen: bool := *;
      interrupted := canceled && chosen;
      if !interrupted {
        clock := clock + delay;
      }
    }

    /** Blocks until the context is done. */
    method AwaitCancel()
      modifies `clock, `canceled, `doneAt
      ensures clock >= old(clock) && canceled && doneAt == clock
    {
      Tick();
      canceled := true;
      doneAt := clock;
    }
  }

  /** Every container that is gone or changed has a removal among the events. */
  ghost predicate Explained(w: World, w': World, events: seq<Event>) {
    forall c :: c in w.containers && c !in w'.containers ==> RemovalOf(events, c.id)
  }

  ghost predicate RemovalOf(events: seq<Event>, id: string) {
    exists e :: e in events && e.Removal? && e.id == id
  }

  lemma ExplainedTwice(w0: World, w1: World, w2: World, log0: seq<Event>, log1: seq<Event>, log2: seq<Event>)
    requires log0 <= log1 <= log2
    requires Explained(w0, w1, log1[|log0|..]) && Explained(w1, w2, log2[|log1|..])
    ensures Explained(w0, w2, log2[|log0|..])
  {
    var before, after := log1[|log0|..], log2[|log1|..];
    assert log2[|log0|..] == before + after;
    forall c | c in w0.containers && c !in w2.containers
      ensures RemovalOf(before + after, c.id)
    {
      var events := if c in w1.containers then after else before;
      var e: Event :| e in events && e.Removal? && e.id == c.id;
      assert e in before + after;
    }
  }

  lemma RemovalExplains(w: World, w': World, log: seq<Event>, id: string)
    requires OnlyTouches(w, w', id)
    ensures Explained(w, w', (log + [Removal(id, w)])[|log|..])
  {
    var e := Removal(id, w);
    assert (log + [e])[|log|..] == [e];
    assert e in [e];
  }

  function NewContainer(id: string, name: string, spec: Config.HelperSpec): (c: Container) {
    Container(id, "/" + name, Created, 0, spec.labels, map[spec.networkMode := Endpoint(None)],
              spec.script, spec.exposed, spec.bindings, spec.autoRemove, spec.restartPolicy)
  }

  lemma NoneStarts(cs: seq<Container>, id: string, status: Status, exitCode: int)
    requires status != Running
    ensures forall c :: c in WithStatus(cs, id, status, exitCode) && c.status == Running ==> c in cs
  {
    forall c | c in WithStatus(cs, id, status, exitCode) && c.status == Running
      ensures c in cs
    {
      var d := Origin(cs, id, status, exitCode, c);
    }
  }

  lemma StatusIs(cs: seq<Container>, id: string, status: Status, exitCode: int)
    ensures forall c :: c in WithStatus(cs, id, status, exitCode) && c.id == id ==> c.status == status
  {
    forall c | c in WithStatus(cs, id, status, exitCode) && c.id == id
      ensures c.status == status
    {
      var d := Origin(cs, id, status, exitCode, c);
    }
  }

  /** `RemoveHelpers`: removes each in turn and counts what is gone or going. */
  method RemoveHelpers(d: Client, ctx: Context, ids: seq<string>) returns (removed: nat)
    modifies d`world, d`clock, d`canceled, d`log
    ensures d.clock >= old(d.clock) && (old(d.canceled) ==> d.canceled)
    ensures removed <= |ids|
    ensures LogsRemovals(old(d.log), d.log, ids)
    ensures ids != [] ==> d.log[|old(d.log)|] == Removal(ids[0], old(d.world))
    ensures OnlyClears(old(d.world), d.world, ids)
    ensures removed == |ids| ==> forall c :: c in d.world.containers && c.id in ids ==> c.status == Removing
    ensures removed == 0 ==> d.world == old(d.world)
    ensures d.reliable && d.Alive(ctx) ==> removed == |ids| && forall c :: c in d.world.containers ==> c.id !in ids
  {
    removed := 0;
    for i := 0 to |ids|
      invariant d.clock >= old(d.clock) && (old(d.canceled) ==> d.canceled)
      invariant removed <= i
      invariant LogsRemovals(old(d.log), d.log, ids[..i])
      invariant if i > 0 then d.log[|old(d.log)|] == Removal(ids[0], old(d.world)) else d.world == old(d.world)
      invariant OnlyClears(old(d.world), d.world, ids)
      invariant removed == i ==> forall c :: c in d.world.containers && c.id in ids[..i] ==> c.status == Removing
      invariant removed == 0 ==> d.world == old(d.world)
      invariant d.reliable && d.Alive(ctx) ==> removed == i && forall c :: c in d.world.containers ==> c.id !in ids[..i]
    {
      ghost var before, logged := d.world, d.log;
      PrefixSnoc(ids, i);
      var counted := RemoveCounted(d, ctx, ids[i]);
      StillThere(old(d.world), before, d.world, ids[i], ids);
      LogsOneMore(old(d.log), logged, ids[..i], Removal(ids[i], before));
      if counted {
        removed := removed + 1;
      }
    }
    assert ids[..|ids|] == ids;
  }

  /** The removals of these ids, in order, and nothing else. */
  ghost predicate LogsRemovals(log0: seq<Event>, log: seq<Event>, ids: seq<string>) {
    && |log| == |log0| + |ids| && log[..|log0|] == log0
    && forall j :: |log0| <= j < |log| ==> log[j].Removal? && log[j].id == ids[j - |log0|]
  }

  lemma LogsOneMore(log0: seq<Event>, log: seq<Event>, ids: seq<string>, e: Event)
    requires LogsRemovals(log0, log, ids) && e.Removal?
    ensures LogsRemovals(log0, log + [e], ids + [e.id])
    ensures ids != [] ==> (log + [e])[|log0|] == log[|log0|]
  {
    assert (log + [e])[..|log0|] == log[..|log0|];
  }

  /** Only the presence or status of these containers changed, and none of them started. */
  ghost predicate OnlyClears(w: World, w': World, ids: seq<string>) {
    && w'.networks == w.networks
    && (forall c :: c in w'.containers ==> c in w.containers || (c.id in ids && StillIn(c, w)))
    && (forall c :: c in w.containers && c.id !in ids ==> c in w'.containers)
    && (forall c :: c in w'.containers && c.status == Running ==> c in w.containers)
    && (Unique(w) ==> Unique(w'))
  }

  /** One turn of the loop: whether the removal counts. */
  method RemoveCounted(d: Client, ctx: Context, id: string) returns (counted: bool)
    modifies d`world, d`clock, d`canceled, d`log
    ensures d.clock >= old(d.clock) && (old(d.canceled) ==> d.canceled)
    ensures d.log == old(d.log) + [Removal(id, old(d.world))]
    ensures OnlyTouches(old(d.world), d.world, id)
    ensures counted ==> forall c :: c in d.world.containers && c.id == id ==> c.status == Removing
    ensures forall c :: c in d.world.containers && c.status == Running ==> c in old(d.world).containers
    ensures !counted ==> d.world == old(d.world)
    ensures d.reliable && d.Alive(ctx) ==> counted && forall c :: c in d.world.containers ==> c.id != id
  {
    var err := d.Remove(ctx, id);
    if err.Some? {
      if err.value == NotFound || err.value == InProgress {
        return true;
      }
      return false;
    }
    counted := true;
  }

  lemma StillThere(w0: World, w1: World, w2: World, id: string, ids: seq<string>)
    requires id in ids && OnlyTouches(w1, w2, id) && OnlyClears(w0, w1, ids)
    requires forall c :: c in w2.containers && c.status == Running ==> c in w1.containers
    ensures OnlyClears(w0, w2, ids)
  {
    forall c | c in w2.containers && c !in w0.containers && c !in w1.containers
      ensures StillIn(c, w0)
    {
      var d :| d in w1.containers && SameContainer(c, d);
      if d !in w0.containers {
        var e :| e in w0.containers && SameContainer(d, e);
        assert SameContainer(c, e);
      } else {
        assert SameContainer(c, d);
      }
    }
  }
}
