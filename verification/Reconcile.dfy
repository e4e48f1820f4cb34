/** The reconcile loop: which helper a request reuses, and which it replaces (internal/forward.go). */
module Reconcile {
  import opened Wrappers
  import opened Text
  import opened Ports
  import opened Codec
  import opened Config
  import opened World
  import opened Daemon
  import opened Drift
  import opened Labels

  /** What a request compares a helper with. */
  datatype Wanted = Wanted(target: string, pairs: seq<PortPair>, range: string, network: string)

  /** An overlapping helper that the request does not reuse. */
  predicate Outdated(netip: Netip, w: World, c: Container, want: Wanted) {
    Stale(netip, w, c) || RangeOf(c) != want.range || (want.network != "" && NetworkOf(c) != want.network)
  }

  /** The helper a request would reuse without changing anything. */
  function Settled(netip: Netip, w: World, want: Wanted): Option<Container> {
    var c := OverlappingHelper(w, want.target, want.pairs);
    if c.Some? && !Outdated(netip, w, c.value, want) then c else None
  }

  /** A helper that may be replaced. */
  predicate Replaceable(netip: Netip, w: World, c: Container, want: Wanted) {
    Live(c, want.target) && Overlaps(c, want.pairs) && Outdated(netip, w, c, want)
  }

  /** Why a helper may be replaced, spelled out. */
  lemma ReplaceableMeaning(netip: Netip, w: World, c: Container, want: Wanted)
    requires want.target != ""
    ensures Replaceable(netip, w, c, want) <==>
            && ForwardsFor(c, want.target, want.pairs)
            && (|| Stale(netip, w, c)
                || RangeOf(c) != want.range
                || (want.network != "" && NetworkOf(c) != want.network))
  {
    OverlapMeaning(c, want.target, want.pairs);
  }

  /**
   When a request reuses a helper: the first running helper of its target that forwards
   something requested must be able to reach the target, and have the wanted range and
   network. Another helper is not looked for.
   */
  lemma SettledMeaning(netip: Netip, w: World, want: Wanted, c: Container)
    requires want.target != ""
    ensures Settled(netip, w, want) == Some(c) <==>
            && (exists i: nat :: FirstForwarder(w.containers, want.target, want.pairs, i) && w.containers[i] == c)
            && !Stale(netip, w, c) && RangeOf(c) == want.range
            && (want.network == "" || NetworkOf(c) == want.network)
  {
    OverlappingIsFirst(w, want.target, want.pairs, c);
  }

  /**
   The removals of an event list are of running helpers of the target that overlap, and
   that were outdated when the removal was issued, with nothing but running helpers
   removed in between.
   */
  ghost predicate Replacements(events: seq<Event>, netip: Netip, w: World, want: Wanted) {
    forall e :: e in events ==>
                  e.Removal? && Pruned(w, e.before)
                  && exists c :: c in w.containers && c.id == e.id && Replaceable(netip, e.before, c, want)
  }

  /** The running helpers of a target. */
  ghost function LiveIds(w: World, target: string): set<string> {
    set c | c in w.containers && Live(c, target) :: c.id
  }

  // -------------------------------------------------------------- finding a helper

  method OverlapsWith(c: Container, want: set<PortPair>, ghost pairs: seq<PortPair>) returns (overlaps: bool)
    requires want == Want(pairs)
    ensures overlaps == Overlaps(c, pairs)
  {
    var ps := HelperPairs(c);
    for i := 0 to |ps|
      invariant forall k :: 0 <= k < i ==> Recorded(ps[k]) !in want
    {
      if Recorded(ps[i]) in want {
        return true;
      }
    }
    overlaps := false;
  }

  /** `findOverlappingHelper`. */
  method FindOverlappingHelper(d: Client, target: string, pairs: seq<PortPair>)
    returns (r: Result<Option<Container>, DaemonError>)
    modifies d`clock, d`canceled
    ensures d.clock >= old(d.clock) && (old(d.canceled) ==> d.canceled)
    ensures r.Ok? ==> r.value == OverlappingHelper(d.world, target, pairs)
    ensures d.reliable && !d.canceled ==> r.Ok?
  {
    var list := d.ListHelpers(Run, target);
    if list.Err? {
      return Err(list.error);
    }
    var found := ScanHelpers(list.value, Want(pairs), pairs);
    r := Ok(found);
  }

  method ScanHelpers(cs: seq<Container>, want: set<PortPair>, ghost pairs: seq<PortPair>)
    returns (found: Option<Container>)
    requires want == Want(pairs)
    ensures found == FirstOverlap(cs, pairs)
  {
    for i := 0 to |cs|
      invariant FirstOverlap(cs, pairs) == FirstOverlap(cs[i..], pairs)
    {
      assert cs[i..][1..] == cs[i + 1..];
      if cs[i].status != Running {
        continue;
      }
      var overlaps := OverlapsWith(cs[i], want, pairs);
      if overlaps {
        return Some(cs[i]);
      }
    }
    found := None;
  }

  // ---------------------------------------------------------------------- the loop

  lemma SubsetSize(a: set<string>, b: set<string>)
    requires a <= b
    ensures |a| <= |b|
  {
    assert b == a + (b - a);
  }

  /** A removal that counts takes the helper out of the running ones and adds none. */
  lemma RemovalShrinks(w: World, w': World, c: Container, target: string)
    requires Unique(w) && c in w.containers && Live(c, target) && OnlyTouches(w, w', c.id)
    requires forall x :: x in w'.containers && x.id == c.id ==> x.status == Removing
    ensures LiveIds(w', target) <= LiveIds(w, target) - {c.id} && |LiveIds(w', target)| < |LiveIds(w, target)|
    ensures c.id in LiveIds(w, target)
  {
    forall id | id in LiveIds(w', target)
      ensures id in LiveIds(w, target) - {c.id}
    {
      var x :| x in w'.containers && Live(x, target) && x.id == id;
      assert x in w.containers;
    }
    SubsetSize(LiveIds(w', target), LiveIds(w, target) - {c.id});
  }

  /** What one round of the loop comes to. */
  datatype Round = Reuse(c: Container) | Free | Replaced | Stuck(error: ReconcileError)

  datatype ReconcileError = ListFailed | CheckFailed | ReplaceFailed

  /** Replaces a helper that the request does not reuse. */
  method ReplaceHelper(d: Client, c: Container, target: string) returns (ok: bool)
    requires Unique(d.world) && c in d.world.containers && Live(c, target)
    modifies d`world, d`clock, d`canceled, d`log
    ensures d.clock >= old(d.clock) && (old(d.canceled) ==> d.canceled)
    ensures Pruned(old(d.world), d.world)
    ensures d.log == old(d.log) + [Removal(c.id, old(d.world))]
    ensures Explained(old(d.world), d.world, d.log[|old(d.log)|..])
    ensures !ok ==> d.world == old(d.world)
    ensures ok ==> |LiveIds(d.world, target)| < |LiveIds(old(d.world), target)|
    ensures d.reliable && !d.canceled ==> ok
  {
    ghost var w1, log1 := d.world, d.log;
    ok := RemoveOne(d, c.id);
    assert d.log == log1 + [Removal(c.id, w1)];
    RemovalExplains(w1, d.world, log1, c.id);
    RemovalPrunes(w1, d.world, c);
    if ok {
      RemovalShrinks(w1, d.world, c, target);
    }
  }

  /** One round of the loop of `StartForward`. */
  method ReconcileRound(d: Client, netip: Netip, want: Wanted) returns (round: Round, ghost c: Container)
    requires Unique(d.world) && want.target != ""
    modifies d`world, d`clock, d`canceled, d`log
    ensures d.clock >= old(d.clock) && (old(d.canceled) ==> d.canceled)
    ensures Pruned(old(d.world), d.world)
    ensures d.log == old(d.log)
         || (d.log == old(d.log) + [Removal(c.id, old(d.world))]
             && c in old(d.world).containers && Replaceable(netip, old(d.world), c, want))
    ensures !round.Replaced? ==> d.world == old(d.world)
    // a helper goes for one of three reasons, and is reused for want of all of them
    ensures d.log != old(d.log) ==>
              && ForwardsFor(c, want.target, want.pairs)
              && (|| Stale(netip, old(d.world), c)
                  || RangeOf(c) != want.range
                  || (want.network != "" && NetworkOf(c) != want.network))
    ensures round.Reuse? ==>
              && ForwardsFor(round.c, want.target, want.pairs)
              && !Stale(netip, d.world, round.c) && RangeOf(round.c) == want.range
              && (want.network == "" || NetworkOf(round.c) == want.network)
    ensures round.Reuse? || round.Free? ==> d.log == old(d.log)
    ensures round.Replaced? ==> d.log != old(d.log)
    ensures Explained(old(d.world), d.world, d.log[|old(d.log)|..])
    ensures round.Reuse? ==> Settled(netip, d.world, want) == Some(round.c)
    ensures round.Free? ==> NoOverlap(d.world, want.target, want.pairs)
    ensures round.Replaced? ==> |LiveIds(d.world, want.target)| < |LiveIds(old(d.world), want.target)|
    ensures d.reliable && !d.canceled ==> !round.Stuck?
    ensures Settled(netip, old(d.world), want).Some? ==> d.log == old(d.log) && (round.Reuse? || round.Stuck?)
  {
    c := NoContainer();
    PrunedSelf(d.world);
    var existing := FindOverlappingHelper(d, want.target, want.pairs);
    if existing.Err? {
      return Stuck(ListFailed), c;
    }
    OverlappingMeaning(d.world, want.target, want.pairs);
    if existing.value.None? {
      return Free, c;
    }
    var found := existing.value.value;
    c := found;
    OverlapMeaning(found, want.target, want.pairs);
    var stale := CheckHelper(d, netip, found);
    if stale.Err? {
      return Stuck(CheckFailed), c;
    }
    if !stale.value && RangeOf(found) == want.range && (want.network == "" || NetworkOf(found) == want.network) {
      return Reuse(found), c;
    }
    var ok := ReplaceHelper(d, found, want.target);
    round := if ok then Replaced else Stuck(ReplaceFailed);
  }

  ghost function NoContainer(): Container {
    Container("", "", Created, 0, map[], map[], "", {}, map[], false, "")
  }

  lemma OneMoreReplacement(netip: Netip, log0: seq<Event>, log1: seq<Event>, log2: seq<Event>, w0: World, w1: World,
                           c: Container, want: Wanted)
    requires log0 <= log1 && Replacements(log1[|log0|..], netip, w0, want) && Pruned(w0, w1)
    requires log2 == log1
          || (log2 == log1 + [Removal(c.id, w1)] && c in w1.containers && Replaceable(netip, w1, c, want))
    ensures log0 <= log2 && Replacements(log2[|log0|..], netip, w0, want)
  {
    if log2 != log1 {
      assert log2[|log0|..] == log1[|log0|..] + [Removal(c.id, w1)];
    }
  }

  /**
   The loop of `StartForward`. It ends within one more round than there were running
   helpers of the target; it ends with a helper to reuse, or with none that overlaps.
   */
  method ReconcileLoop(d: Client, netip: Netip, want: Wanted)
    returns (r: Result<Option<Container>, ReconcileError>, removed: nat, ghost rounds: nat)
    requires Unique(d.world) && want.target != ""
    modifies d`world, d`clock, d`canceled, d`log
    ensures d.clock >= old(d.clock) && (old(d.canceled) ==> d.canceled)
    ensures old(d.log) <= d.log && Replacements(d.log[|old(d.log)|..], netip, old(d.world), want)
    ensures Pruned(old(d.world), d.world) && Explained(old(d.world), d.world, d.log[|old(d.log)|..])
    ensures r.Ok? ==> (removed == 0 <==> d.log == old(d.log))
    ensures r.Ok? && r.value.Some? ==> Settled(netip, d.world, want) == r.value
    ensures r == Ok(None) ==> NoOverlap(d.world, want.target, want.pairs)
    ensures removed + |LiveIds(d.world, want.target)| <= |LiveIds(old(d.world), want.target)|
    ensures rounds <= |LiveIds(old(d.world), want.target)| + 1
    ensures d.reliable && !d.canceled ==> r.Ok?
    ensures Settled(netip, old(d.world), want).Some? ==>
              && d.world == old(d.world) && d.log == old(d.log)
              && (r.Ok? ==> r.value == Settled(netip, old(d.world), want))
  {
    ghost var w0, log0 := d.world, d.log;
    PrunedSelf(d.world);
    removed, rounds := 0, 0;
    while true
      invariant d.clock >= old(d.clock) && (old(d.canceled) ==> d.canceled)
      invariant log0 <= d.log && Replacements(d.log[|log0|..], netip, w0, want)
      invariant Pruned(w0, d.world) && Explained(w0, d.world, d.log[|log0|..])
      invariant removed == 0 <==> d.log == log0
      invariant removed + |LiveIds(d.world, want.target)| <= |LiveIds(w0, want.target)|
      invariant rounds == removed
      invariant Settled(netip, w0, want).Some? ==> d.world == w0 && d.log == log0
      decreases |LiveIds(d.world, want.target)|
    {
      rounds := rounds + 1;
      ghost var w1, log1 := d.world, d.log;
      ghost var c: Container;
      var round;
      round, c := ReconcileRound(d, netip, want);
      OneMoreReplacement(netip, log0, log1, d.log, w0, w1, c, want);
      PrunedTwice(w0, w1, d.world);
      ExplainedTwice(w0, w1, d.world, log0, log1, d.log);
      match round {
        case Reuse(helper) => return Ok(Some(helper)), removed, rounds;
        case Free => return Ok(None), removed, rounds;
        case Stuck(error) => return Err(error), removed, rounds;
        case Replaced => removed := removed + 1;
      }
    }
  }
}
