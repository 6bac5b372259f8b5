/** Installing the dependencies of a package, one after the other. */
module DependencyInstallation {
  import opened PyText
  import opened Sorting
  import opened CapabilityManifest
  import opened DependencyOrder
  import opened CapabilityControl
  import opened CapabilityControlProperties

  datatype Installation = Installed | NotOrdered(ordering: Ordering) | Refused(item: Manifest)

  /** The supplied dependencies can be ordered. */
  ghost predicate Orderable(root: Manifest, supply: Supply) {
    NothingMissing(root, supply) && forall id :: Reachable(root, supply, id) ==> !Circles(supply, id)
  }

  /** The reachable dependencies are valid as a whole, under ids without blanks around them. */
  ghost predicate ValidAsAWhole(satisfies: Satisfies, root: Manifest, supply: Supply) {
    && (forall selected :: Selection(root, supply, selected) ==> ValidSet(satisfies, selected))
    && forall id :: id in supply ==> Strip(id) == id
  }

  /** The dependencies are installed in the order computed for them. Into an empty catalog,
      a set that is valid as a whole goes in without a refusal, and the enabled manifests
      are then exactly the reachable dependencies. */
  method InstallDependencies(manager: PackageManager, root: Manifest, supplied: seq<Manifest>, now: int)
    returns (outcome: Installation)
    modifies manager.store
    ensures
      var supply := Available(root, supplied);
      && (outcome.NotOrdered? <==> !Orderable(root, supply))
      && (outcome.NotOrdered? ==> manager.store.snapshot == old(manager.store.snapshot))
      && (old(manager.store.snapshot) == EMPTY && Orderable(root, supply) && ValidAsAWhole(manager.satisfies, root, supply) ==>
            && outcome.Installed?
            && forall m :: m in Active(manager.store.snapshot.packages)
                 <==> m.id in supply && supply[m.id] == m && Reachable(root, supply, m.id))
  {
    hide ValidSet, Reachable, Circles, RequiredFirst, Active, Strip, Arrange, Ids, DistinctBy, Result, After;
    ghost var supply := Available(root, supplied);
    var ordering := OrderDependencies(root, supplied);
    if !ordering.Ordered? {
      return NotOrdered(ordering);
    }
    var items := ordering.items;
    ghost var base := manager.store.snapshot;
    for i := 0 to |items|
      invariant manager.store.snapshot == InstallAll(manager.satisfies, base, items[..i], now)
    {
      assert items[..i + 1][..i] == items[..i];
      var saved := manager.Install(items[i], true, now);
      if saved.Failed? {
        if base == EMPTY && ValidAsAWhole(manager.satisfies, root, supply) {
          OrderedInstalls(manager.satisfies, root, supply, items, i, now);
        }
        return Refused(items[i]);
      }
    }
    assert items[..|items|] == items;
    if base == EMPTY && ValidAsAWhole(manager.satisfies, root, supply) {
      OrderedInstalls(manager.satisfies, root, supply, items, |items|, now);
    }
    outcome := Installed;
  }

  lemma OrderedInstalls(satisfies: Satisfies, root: Manifest, supply: Supply, items: seq<Manifest>, n: nat, now: int)
    requires Selection(root, supply, items) && RequiredFirst(items, {}) && n <= |items|
    requires ValidAsAWhole(satisfies, root, supply)
    ensures n < |items| ==>
      Result(satisfies, Operation.Install(items[n], true), InstallAll(satisfies, EMPTY, items[..n], now), now).Returned?
    ensures n == |items| ==>
      forall m :: m in Active(InstallAll(satisfies, EMPTY, items, now).packages)
        <==> m.id in supply && supply[m.id] == m && Reachable(root, supply, m.id)
  {
    hide ValidSet, Reachable, RequiredFirst, Active, Strip, DistinctBy, Result, InstallAll;
    DependenciesInstallInOrder(satisfies, items, n, now);
    if n == |items| {
      assert items[..n] == items;
      forall m: Manifest
        ensures m in items <==> m.id in supply && supply[m.id] == m && Reachable(root, supply, m.id)
      {
        Selected(root, supply, items, m);
      }
    }
  }

  lemma Selected(root: Manifest, supply: Supply, items: seq<Manifest>, m: Manifest)
    requires Selection(root, supply, items)
    ensures m in items <==> m.id in supply && supply[m.id] == m && Reachable(root, supply, m.id)
  {
    hide Reachable;
    if m in items {
      InIds(items, m);
    }
    if m.id in Ids(items) {
      var o := FromIds(items, m.id);
    }
  }
}
