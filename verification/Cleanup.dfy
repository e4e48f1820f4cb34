/** Finding helpers and removing them on request (portforward/list.go, portforward/cleanup.go). */
module Cleanup {
  import opened Wrappers
  import opened Text
  import opened Ports
  import opened Codec
  import opened Config
  import opened World
  import opened Daemon
  import opened Drift
  import opened Labels
  import Range = SourceRange

  /** A helper as it is listed. */
  datatype Helper = Helper(
    id: string,
    name: string,
    target: string,
    ports: string,
    bindings: string,
    targetName: string,
    targetNetwork: string,
    targetAddress: string,
    sourceRange: string,
    stale: bool)

  datatype Selection = Selection(name: string, target: string, staleOnly: bool)

  datatype FindError = NameNotFound | NotHelper | TargetNotFound | DaemonFailed

  datatype CleanupResult = CleanupResult(helpers: seq<Helper>, removed: nat)

  function HelperOf(netip: Netip, w: World, c: Container): Helper {
    Helper(c.id, TrimSlash(c.name), TargetOf(c), Label(c.labels, LABEL_PORTS), Label(c.labels, LABEL_BINDINGS),
           Label(c.labels, LABEL_TARGET_NAME), NetworkOf(c), AddressOf(c), RangeOf(c), Stale(netip, w, c))
  }

  /** How a container is listed, or nothing when only stale helpers are wanted and it is not. */
  function Describe(netip: Netip, w: World, staleOnly: bool): Container -> Option<Helper> {
    c => if staleOnly && !Stale(netip, w, c) then None else Some(HelperOf(netip, w, c))
  }

  /** The containers a selection looks at, before the staleness filter. */
  function Selected(w: World, s: Selection): Result<seq<Container>, FindError> {
    if s.name != "" then
      var c := Lookup(w, s.name);
      if c.None? then Err(NameNotFound)
      else if !IsHelper(c.value) then Err(NotHelper)
      else Ok([c.value])
    else if s.target != "" then
      var t := Lookup(w, s.target);
      if t.None? then Err(TargetNotFound) else Ok(HelpersIn(w.containers, t.value.id))
    else Ok(HelpersIn(w.containers, ""))
  }

  /** The lookups of `findHelpers`. */
  method SelectHelpers(d: Client, s: Selection) returns (r: Result<seq<Container>, FindError>)
    modifies d`clock, d`canceled
    ensures d.clock >= old(d.clock) && (old(d.canceled) ==> d.canceled)
    ensures r != Err(DaemonFailed) ==> r == Selected(d.world, s)
    ensures d.reliable && !d.canceled ==> r != Err(DaemonFailed)
  {
    if s.name != "" {
      var info := d.Inspect(Run, s.name);
      if info.Err? {
        return Err(if info.error == NotFound then NameNotFound else DaemonFailed);
      }
      if !IsHelper(info.value) {
        return Err(NotHelper);
      }
      return Ok([info.value]);
    }
    var target := "";
    if s.target != "" {
      var info := d.Inspect(Run, s.target);
      if info.Err? {
        return Err(if info.error == NotFound then TargetNotFound else DaemonFailed);
      }
      target := info.value.id;
    }
    var list := d.ListHelpers(Run, target);
    r := if list.Ok? then Ok(list.value) else Err(DaemonFailed);
  }

  /** With a name: the container it leads to, when that is a helper, and else which error. */
  lemma NamedSelection(w: World, s: Selection)
    requires s.name != ""
    ensures Selected(w, s).Ok? <==>
            exists c :: Lookup(w, s.name) == Some(c) && Labelled(c, "com.dokku.port-forward", "true")
    ensures forall c :: Selected(w, s) == Ok([c]) <==>
              Lookup(w, s.name) == Some(c) && Labelled(c, "com.dokku.port-forward", "true")
    ensures Selected(w, s).Ok? ==> |Selected(w, s).value| == 1
    ensures Selected(w, s) == Err(NameNotFound) <==> Lookup(w, s.name).None?
    ensures Selected(w, s) == Err(NotHelper) <==>
            exists c :: Lookup(w, s.name) == Some(c) && !Labelled(c, "com.dokku.port-forward", "true")
  {
    var found := Lookup(w, s.name);
    assert found.Some? ==> Lookup(w, s.name) == Some(found.value);
    forall c
      ensures Selected(w, s) == Ok([c]) <==>
              Lookup(w, s.name) == Some(c) && Labelled(c, "com.dokku.port-forward", "true")
    {
      assert Selected(w, s) == Ok([c]) ==> [c][0] == [found.value][0];
    }
  }

  /** Every selected helper records its target; one that does not may fail its staleness check. */
  predicate AllRecorded(w: World, s: Selection) {
    Selected(w, s).Ok? ==> forall c :: c in Selected(w, s).value ==> TargetOf(c) != ""
  }

  /** The loop body of `findHelpers`: nothing for a helper that is not stale when only stale ones are wanted. */
  method DescribeHelper(d: Client, netip: Netip, staleOnly: bool, c: Container)
    returns (r: Result<Option<Helper>, DaemonError>)
    modifies d`clock, d`canceled
    ensures d.clock >= old(d.clock) && (old(d.canceled) ==> d.canceled)
    ensures r.Ok? ==> r.value == Describe(netip, d.world, staleOnly)(c)
    ensures d.reliable && !d.canceled && TargetOf(c) != "" ==> r.Ok?
  {
    var stale := CheckHelper(d, netip, c);
    if stale.Err? {
      return Err(stale.error);
    }
    r := if staleOnly && !stale.value then Ok(None) else Ok(Some(HelperOf(netip, d.world, c)));
  }

  /** `findHelpers`: the selected helpers in list order, described, stale ones only when asked to. */
  method FindHelpers(d: Client, netip: Netip, s: Selection) returns (r: Result<seq<Helper>, FindError>)
    modifies d`clock, d`canceled
    ensures d.clock >= old(d.clock) && (old(d.canceled) ==> d.canceled)
    ensures r.Ok? ==> Selected(d.world, s).Ok?
                      && r.value == FilterMap(Describe(netip, d.world, s.staleOnly), Selected(d.world, s).value)
    ensures r.Err? && r.error != DaemonFailed ==> Selected(d.world, s) == Err(r.error)
    ensures d.reliable && !d.canceled && AllRecorded(d.world, s) ==> r != Err(DaemonFailed)
  {
    var list := SelectHelpers(d, s);
    if list.Err? {
      return Err(list.error);
    }
    var helpers: seq<Helper> := [];
    var describe := Describe(netip, d.world, s.staleOnly);
    for i := 0 to |list.value|
      invariant d.clock >= old(d.clock) && (old(d.canceled) ==> d.canceled)
      invariant helpers == FilterMap(describe, list.value[..i])
    {
      var c := list.value[i];
      PrefixSnoc(list.value, i);
      FilterMapSnoc(describe, list.value[..i], c);
      var h := DescribeHelper(d, netip, s.staleOnly, c);
      if h.Err? {
        return Err(DaemonFailed);
      }
      if h.value.None? {
        continue;
      }
      helpers := helpers + [h.value.value];
    }
    assert list.value[..|list.value|] == list.value;
    r := Ok(helpers);
  }

  /** What a listing by name shows: that helper alone, or nothing when only stale ones are wanted and it is not. */
  lemma NamedListing(netip: Netip, w: World, s: Selection)
    requires s.name != "" && Selected(w, s).Ok?
    ensures exists c :: Lookup(w, s.name) == Some(c) && Labelled(c, "com.dokku.port-forward", "true")
                        && FilterMap(Describe(netip, w, s.staleOnly), Selected(w, s).value)
                           == if s.staleOnly && !Stale(netip, w, c) then [] else [HelperOf(netip, w, c)]
  {
    NamedSelection(w, s);
    var c :| Lookup(w, s.name) == Some(c) && Labelled(c, "com.dokku.port-forward", "true");
    assert Selected(w, s) == Ok([c]);
    FilterMapSnoc(Describe(netip, w, s.staleOnly), [], c);
    assert [] + [c] == [c];
  }

  /** The ids of listed helpers. */
  function Ids(helpers: seq<Helper>): seq<string> {
    Map((h: Helper) => h.id, helpers)
  }

  /** A container a selection covers. */
  predicate Covered(netip: Netip, w: World, s: Selection, c: Container) {
    && Selected(w, s).Ok? && c in Selected(w, s).value
    && (s.staleOnly ==> Stale(netip, w, c))
  }

  /** Exactly the covered containers are listed, and all of them are helpers. */
  lemma ListedIsCovered(netip: Netip, w: World, s: Selection, c: Container)
    requires Unique(w) && Selected(w, s).Ok? && c in w.containers
    ensures var ids := Ids(FilterMap(Describe(netip, w, s.staleOnly), Selected(w, s).value));
            c.id in ids <==> Covered(netip, w, s, c)
    ensures Covered(netip, w, s, c) ==> IsHelper(c)
  {
    var list := Selected(w, s).value;
    var describe := Describe(netip, w, s.staleOnly);
    var helpers := FilterMap(describe, list);
    SelectedAreHelpers(w, s);
    if c.id in Ids(helpers) {
      var k :| 0 <= k < |helpers| && Ids(helpers)[k] == c.id;
      FilterMapMembers(describe, list, helpers[k]);
      var i :| 0 <= i < |list| && describe(list[i]) == Some(helpers[k]);
      assert list[i] in list && Clash(list[i], c);
    }
    if Covered(netip, w, s, c) {
      var i :| 0 <= i < |list| && list[i] == c;
      var h := HelperOf(netip, w, c);
      FilterMapMembers(describe, list, h);
      var k :| 0 <= k < |helpers| && helpers[k] == h;
      assert Ids(helpers)[k] == c.id;
    }
  }

  lemma SelectedAreHelpers(w: World, s: Selection)
    ensures Selected(w, s).Ok? ==> forall c :: c in Selected(w, s).value ==> c in w.containers && IsHelper(c)
  {
    if Selected(w, s).Ok? {
      HelpersMembers(w.containers, "");
      if s.target != "" && Lookup(w, s.target).Some? {
        HelpersMembers(w.containers, Lookup(w, s.target).value.id);
      }
    }
  }

  /** With a name, a selection covers the helper the name leads to, as staleness demands. */
  lemma CoveredByName(netip: Netip, w: World, s: Selection, c: Container)
    requires s.name != ""
    ensures Covered(netip, w, s, c) <==>
            && Lookup(w, s.name) == Some(c) && Labelled(c, "com.dokku.port-forward", "true")
            && (s.staleOnly ==> Stale(netip, w, c))
  {
    NamedSelection(w, s);
    if Selected(w, s).Ok? {
      var x :| Lookup(w, s.name) == Some(x) && Labelled(x, "com.dokku.port-forward", "true");
      assert Selected(w, s) == Ok([x]);
      assert c in [x] <==> c == x;
    }
  }

  /** Without a name, a selection covers the helpers of its target, or all, as staleness demands. */
  lemma CoveredWithoutName(netip: Netip, w: World, s: Selection, c: Container)
    requires s.name == "" && forall t :: t in w.containers ==> t.id != ""
    ensures Covered(netip, w, s, c) <==>
            && c in w.containers && Labelled(c, "com.dokku.port-forward", "true")
            && (s.target != "" ==>
                  exists t :: Lookup(w, s.target) == Some(t) && Labelled(c, "com.dokku.port-forward.target", t.id))
            && (s.staleOnly ==> Stale(netip, w, c))
    ensures Selected(w, s).Err? <==> s.target != "" && Lookup(w, s.target).None?
    ensures Selected(w, s).Err? ==> Selected(w, s).error == TargetNotFound
  {
    var target := if s.target != "" && Lookup(w, s.target).Some? then Lookup(w, s.target).value.id else "";
    HelpersMeaning(w.containers, [], target, c);
  }

  lemma AllCoveredByName(netip: Netip, w: World, s: Selection)
    ensures s.name != "" ==>
              forall c :: Covered(netip, w, s, c) <==>
                          && Lookup(w, s.name) == Some(c) && Labelled(c, "com.dokku.port-forward", "true")
                          && (s.staleOnly ==> Stale(netip, w, c))
  {
    forall c | s.name != ""
      ensures Covered(netip, w, s, c) <==>
              && Lookup(w, s.name) == Some(c) && Labelled(c, "com.dokku.port-forward", "true")
              && (s.staleOnly ==> Stale(netip, w, c))
    {
      CoveredByName(netip, w, s, c);
    }
  }

  /** `Cleanup`: nothing but covered helpers is touched; a reliable daemon removes exactly those. */
  method CleanUp(d: Client, netip: Netip, s: Selection, dryRun: bool) returns (r: Result<CleanupResult, FindError>)
    requires Unique(d.world)
    modifies d`world, d`clock, d`canceled, d`log
    ensures d.clock >= old(d.clock) && (old(d.canceled) ==> d.canceled)
    ensures r.Ok? ==> Selected(old(d.world), s).Ok?
                      && r.value.helpers == FilterMap(Describe(netip, old(d.world), s.staleOnly),
                                                      Selected(old(d.world), s).value)
                      && r.value.removed <= |r.value.helpers|
    ensures r.Err? && r.error != DaemonFailed ==> Selected(old(d.world), s) == Err(r.error)
    ensures d.reliable && !d.canceled && AllRecorded(old(d.world), s) ==> r != Err(DaemonFailed)
    ensures r.Err? || dryRun ==> d.world == old(d.world) && d.log == old(d.log)
    ensures dryRun && r.Ok? ==> r.value.removed == 0
    ensures Unique(d.world) && d.world.networks == old(d.world).networks
    ensures forall c :: c in d.world.containers ==>
                          c in old(d.world).containers
                          || (StillIn(c, old(d.world)) && CoveredId(netip, old(d.world), s, c.id))
    ensures forall c :: c in old(d.world).containers && !Covered(netip, old(d.world), s, c) ==> c in d.world.containers
    ensures d.reliable && !d.canceled && r.Ok? && !dryRun ==>
              && r.value.removed == |r.value.helpers|
              && forall c :: c in d.world.containers <==>
                  c in old(d.world).containers && !Covered(netip, old(d.world), s, c)
    ensures forall c :: c in d.world.containers && LiveHelper(c) ==> c in old(d.world).containers
    // by name: what is gone is the helper the name led to, stale if only such are wanted, and that one is gone
    ensures s.name != "" ==>
              forall c :: c in old(d.world).containers && c !in d.world.containers ==>
                && Lookup(old(d.world), s.name) == Some(c) && Labelled(c, "com.dokku.port-forward", "true")
                && (s.staleOnly ==> Stale(netip, old(d.world), c))
    ensures s.name != "" && d.reliable && !d.canceled && r.Ok? && !dryRun ==>
              forall c :: c in d.world.containers && Lookup(old(d.world), s.name) == Some(c)
                          && Labelled(c, "com.dokku.port-forward", "true") ==>
                            s.staleOnly && !Stale(netip, old(d.world), c)
  {
    AllCoveredByName(netip, d.world, s);
    var helpers := FindHelpers(d, netip, s);
    if helpers.Err? {
      return Err(helpers.error);
    }
    if |helpers.value| == 0 || dryRun {
      NothingCovered(netip, d.world, s, helpers.value);
      return Ok(CleanupResult(helpers.value, 0));
    }
    ghost var w := d.world;
    var removed := RemoveHelpers(d, Run, Ids(helpers.value));
    IdsAreCovered(netip, w, s);
    r := Ok(CleanupResult(helpers.value, removed));
  }

  ghost predicate CoveredId(netip: Netip, w: World, s: Selection, id: string) {
    exists x :: Covered(netip, w, s, x) && x.id == id
  }

  lemma IdsAreCovered(netip: Netip, w: World, s: Selection)
    requires Unique(w) && Selected(w, s).Ok?
    ensures var ids := Ids(FilterMap(Describe(netip, w, s.staleOnly), Selected(w, s).value));
            && (forall c :: c in w.containers ==> (c.id in ids <==> Covered(netip, w, s, c)))
            && (forall id :: id in ids ==> CoveredId(netip, w, s, id))
  {
    var list := Selected(w, s).value;
    var describe := Describe(netip, w, s.staleOnly);
    var helpers := FilterMap(describe, list);
    forall c | c in w.containers
      ensures c.id in Ids(helpers) <==> Covered(netip, w, s, c)
    {
      ListedIsCovered(netip, w, s, c);
    }
    forall id | id in Ids(helpers)
      ensures CoveredId(netip, w, s, id)
    {
      var k :| 0 <= k < |helpers| && Ids(helpers)[k] == id;
      FilterMapMembers(describe, list, helpers[k]);
      var i :| 0 <= i < |list| && describe(list[i]) == Some(helpers[k]);
      SelectedAreHelpers(w, s);
      ListedIsCovered(netip, w, s, list[i]);
      assert list[i].id == id;
    }
  }

  lemma NothingCovered(netip: Netip, w: World, s: Selection, helpers: seq<Helper>)
    requires Unique(w) && Selected(w, s).Ok?
    requires helpers == FilterMap(Describe(netip, w, s.staleOnly), Selected(w, s).value)
    ensures helpers == [] ==> forall c :: c in w.containers ==> !Covered(netip, w, s, c)
  {
    IdsAreCovered(netip, w, s);
    assert helpers == [] ==> Ids(helpers) == [];
  }

  // ------------------------------------------------------------------ what is listed

  /** A helper is listed with what it was made from, when user labels leave the plugin's own alone. */
  lemma ListShowsConfig(netip: Netip, w: World, c: Container, ranges: Range.Netip, h: HelperConfig, addressList: string)
    requires c.labels == PluginLabels(ranges, h, addressList) + h.extraLabels && KeepsPluginLabels(h.extraLabels)
    ensures HelperOf(netip, w, c)
         == Helper(c.id, TrimSlash(c.name), h.targetID, PairsText(h.pairs), BindingsText(h.pairs, h.addresses),
                   h.targetName, h.targetNetwork, h.targetAddress, Range.RangeLabel(ranges, h.sourceRange),
                   Stale(netip, w, c))
  {
    NewHelperRemembers(c, ranges, h, addressList);
    PluginLabelValues(ranges, h, addressList);
    var plugin := PluginLabels(ranges, h, addressList);
    assert LABEL_BINDINGS in PLUGIN_KEYS && LABEL_TARGET_NAME in PLUGIN_KEYS;
    ExtraLabelWins(plugin, h.extraLabels, LABEL_BINDINGS);
    ExtraLabelWins(plugin, h.extraLabels, LABEL_TARGET_NAME);
  }
}
