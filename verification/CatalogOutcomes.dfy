/** When each change of the catalog is accepted, what it is refused for, and exactly what it
    saves, told from the records and the manifests. */
module CatalogOutcomes {
  import opened Sorting
  import opened PyText
  import opened CapabilityManifest
  import opened CapabilityControl
  import opened CapabilityControlProperties

  // ---------------------------------------------------------------- what is saved

  /** The next revision of the catalog, with these records and one generation more, of the
      manifests enabled. */
  ghost predicate SavedAs(base: Snapshot, packages: seq<Record>, next: Snapshot) {
    && next.revision == base.revision + 1 && next.packages == packages
    && next.activeId == GenerationFor(base.revision + 1, Active(packages))
    && next.generations == base.generations + [Generation(next.activeId, Active(packages))]
  }

  lemma NextIsSaved(satisfies: Satisfies, base: Snapshot, packages: seq<Record>)
    requires Inv(satisfies, base)
    ensures SavedAs(base, SortBy(RecordId, packages), NextSnapshot(base, packages))
  {
    hide WellKept, SortBy, SortedBy, ValidSet, Active, Chained;
    ChainGrows(base.generations, Active(SortBy(RecordId, packages)));
  }

  lemma {:induction false} ActiveInserted(sorted: seq<Record>, r: Record)
    ensures multiset(Active(InsertBy(RecordId, sorted, r)))
         == multiset(Active(sorted)) + if r.enabled then multiset{r.manifest} else multiset{}
  {
    hide TextLe, Active;
    if sorted == [] || TextLe(RecordId(sorted[|sorted| - 1]), RecordId(r)) {
      ActiveWith(sorted, r);
    } else {
      var front, last := sorted[..|sorted| - 1], sorted[|sorted| - 1];
      ActiveInserted(front, r);
      ActiveWith(InsertBy(RecordId, front, r), last);
      ActiveWith(front, last);
      assert sorted == front + [last];
    }
  }

  lemma {:induction false} ActiveSorted(packages: seq<Record>)
    ensures multiset(Active(SortBy(RecordId, packages))) == multiset(Active(packages))
  {
    hide TextLe, InsertBy;
    if packages != [] {
      var front := packages[..|packages| - 1];
      ActiveSorted(front);
      ActiveInserted(SortBy(RecordId, front), packages[|packages| - 1]);
    }
  }

  lemma ValidEitherWay(satisfies: Satisfies, a: seq<Manifest>, b: seq<Manifest>)
    requires multiset(a) == multiset(b)
    ensures ValidSet(satisfies, a) <==> ValidSet(satisfies, b)
  {
    hide ValidSet;
    if ValidSet(satisfies, a) {
      ValidSetIsOrderless(satisfies, a, b);
    }
    if ValidSet(satisfies, b) {
      ValidSetIsOrderless(satisfies, b, a);
    }
  }

  /** The change of one record in its place, saved if the set then enabled is valid. */
  ghost predicate Changed(satisfies: Satisfies, base: Snapshot, k: nat, r: Record, result: Outcome)
    requires k < |base.packages|
  {
    var packages := base.packages[k := r];
    if ValidSet(satisfies, Active(packages)) then result.Returned? && SavedAs(base, packages, result.snapshot)
    else result == Failed(InvalidSet)
  }

  lemma ReplacedIsChanged(satisfies: Satisfies, op: Operation, base: Snapshot, now: int, k: nat, r: Record)
    requires Inv(satisfies, base) && k < |base.packages| && r.manifest.id == base.packages[k].manifest.id
    requires PlanOf(satisfies, op, base, now) == Packages(Replace(base.packages, r))
    ensures Changed(satisfies, base, k, r, Result(satisfies, op, base, now))
  {
    PlaceOfRecord(satisfies, base, k, r);
    NextIsSaved(satisfies, base, Replace(base.packages, r));
    hide Inv, PlanOf, Replace, SortBy, ValidSet, Active, NextSnapshot, SavedAs;
  }

  lemma ListedAt(satisfies: Satisfies, base: Snapshot, k: nat, id: string)
    requires Inv(satisfies, base) && k < |base.packages| && base.packages[k].manifest.id == Strip(id)
    ensures Find(base.packages, id) == k
  {
    FindAt(base.packages, k, id);
  }

  // ---------------------------------------------------------------- installation

  /** A package is installed exactly if none is listed under its id without blanks and the
      set then enabled is valid; what is saved are the records there were and the new one, by
      id, the new one without history and with this moment as its times. */
  lemma InstallIsDecidedExactly(satisfies: Satisfies, base: Snapshot, manifest: Manifest, enabled: bool, now: int)
    requires Inv(satisfies, base)
    ensures
      var result := Result(satisfies, Operation.Install(manifest, enabled), base, now);
      if exists p :: p in base.packages && p.manifest.id == Strip(manifest.id) then result == Failed(AlreadyInstalled)
      else if !ValidSet(satisfies, Active(base.packages) + if enabled then [manifest] else []) then result == Failed(InvalidSet)
      else
        && result.Returned? && SavedAs(base, result.snapshot.packages, result.snapshot)
        && SortedBy(RecordId, result.snapshot.packages)
        && multiset(result.snapshot.packages) == multiset(base.packages) + multiset{Record(manifest, enabled, [], now, now)}
  {
    var packages := base.packages + [Record(manifest, enabled, [], now, now)];
    InstallPlan(satisfies, base, manifest, enabled, now);
    ActiveWith(base.packages, Record(manifest, enabled, [], now, now));
    hide Inv, Strip, ValidSet, Active, SortedBy, SavedAs, PlanOf;
    if !(exists p :: p in base.packages && p.manifest.id == Strip(manifest.id)) {
      PackagesAreSaved(satisfies, Operation.Install(manifest, enabled), base, now, packages);
    }
  }

  lemma ActiveWith(packages: seq<Record>, r: Record)
    ensures Active(packages + [r]) == Active(packages) + if r.enabled then [r.manifest] else []
  {
    assert (packages + [r])[..|packages|] == packages;
  }

  lemma InstallPlan(satisfies: Satisfies, base: Snapshot, manifest: Manifest, enabled: bool, now: int)
    ensures PlanOf(satisfies, Operation.Install(manifest, enabled), base, now)
         == if exists p :: p in base.packages && p.manifest.id == Strip(manifest.id) then Rejected(AlreadyInstalled)
            else Packages(base.packages + [Record(manifest, enabled, [], now, now)])
  {
    FindsNothing(base.packages, manifest.id);
    hide Strip, Find;
  }

  /** What a plan with records comes to. */
  lemma PackagesAreSaved(satisfies: Satisfies, op: Operation, base: Snapshot, now: int, packages: seq<Record>)
    requires Inv(satisfies, base) && PlanOf(satisfies, op, base, now) == Packages(packages)
    ensures
      var result := Result(satisfies, op, base, now);
      if ValidSet(satisfies, Active(packages)) then
        && result.Returned? && SavedAs(base, result.snapshot.packages, result.snapshot)
        && result.snapshot.packages == SortBy(RecordId, packages)
        && SortedBy(RecordId, result.snapshot.packages) && multiset(result.snapshot.packages) == multiset(packages)
      else result == Failed(InvalidSet)
  {
    NextIsSaved(satisfies, base, packages);
    SortKeeps(RecordId, packages);
    ActiveSorted(packages);
    ValidEitherWay(satisfies, Active(SortBy(RecordId, packages)), Active(packages));
    hide Inv, ValidSet, Active, SortBy, SortedBy, PlanOf;
  }

  // ---------------------------------------------------------------- changes of one record

  /** Nothing but a reconciliation and an installation is done about an id that, without
      blanks, is not listed. */
  lemma UnlistedIsRefused(satisfies: Satisfies, base: Snapshot, id: string, on: bool, version: string, manifest: Manifest, now: int)
    requires forall p :: p in base.packages ==> p.manifest.id != Strip(id)
    requires manifest.id == id
    ensures Result(satisfies, SetEnabled(id, on), base, now) == Failed(NotInstalled)
    ensures Result(satisfies, Operation.Upgrade(manifest), base, now) == Failed(NotInstalled)
    ensures Result(satisfies, Operation.Rollback(id, version), base, now) == Failed(NotInstalled)
    ensures Result(satisfies, Operation.Uninstall(id), base, now) == Failed(NotInstalled)
  {
    FindsNothing(base.packages, id);
    hide Strip, Find;
  }

  /** Enabling what is enabled, or disabling what is not, changes nothing; otherwise the flag
      and the time of the change are saved. */
  lemma FlagIsSetExactly(satisfies: Satisfies, base: Snapshot, k: nat, id: string, on: bool, now: int)
    requires Inv(satisfies, base) && k < |base.packages| && base.packages[k].manifest.id == Strip(id)
    ensures
      var r, result := base.packages[k], Result(satisfies, SetEnabled(id, on), base, now);
      if r.enabled == on then result == Returned(base)
      else Changed(satisfies, base, k, Record(r.manifest, on, r.history, r.installedAt, now), result)
  {
    ListedAt(satisfies, base, k, id);
    var r := base.packages[k];
    hide Inv, Strip, Find, Changed, Replace;
    if r.enabled != on {
      ReplacedIsChanged(satisfies, SetEnabled(id, on), base, now, k, Record(r.manifest, on, r.history, r.installedAt, now));
    }
  }

  /** An upgrade needs another version, and a newer one; the old manifest joins the history,
      as its last. */
  lemma UpgradeIsDecidedExactly(satisfies: Satisfies, base: Snapshot, k: nat, manifest: Manifest, now: int)
    requires Inv(satisfies, base) && k < |base.packages| && Strip(manifest.id) == manifest.id
    requires base.packages[k].manifest.id == manifest.id
    ensures
      var r, result := base.packages[k], Result(satisfies, Operation.Upgrade(manifest), base, now);
      if manifest.version == r.manifest.version then result == Failed(SameVersion)
      else if !satisfies(manifest.version, ">" + r.manifest.version) then result == Failed(NotNewer)
      else
        Changed(satisfies, base, k, Record(manifest, r.enabled, r.history + [r.manifest], r.installedAt, now), result)
  {
    ListedAt(satisfies, base, k, manifest.id);
    var r := base.packages[k];
    hide Inv, Strip, Find, Changed, Replace;
    if manifest.version != r.manifest.version && satisfies(manifest.version, ">" + r.manifest.version) {
      ReplacedIsChanged(satisfies, Operation.Upgrade(manifest), base, now, k,
                        Record(manifest, r.enabled, r.history + [r.manifest], r.installedAt, now));
    }
  }

  /** The entry of the history that a rollback goes to: the last, or the first of the version
      asked for. */
  ghost predicate GoesBackTo(history: seq<Manifest>, version: string, at: nat) {
    && at < |history|
    && if version == "" then at == |history| - 1
       else history[at].version == version && forall i :: 0 <= i < at ==> history[i].version != version
  }

  lemma TargetIs(history: seq<Manifest>, version: string, at: nat)
    ensures GoesBackTo(history, version, at) ==> RollbackTarget(history, version) == at
    ensures RollbackTarget(history, version) < |history| ==> GoesBackTo(history, version, RollbackTarget(history, version))
  {
  }

  /** A rollback takes the last entry of the history, or the first of the version asked for.
      The entry leaves the history, which the manifest given up joins as its last. */
  lemma RollbackIsDecidedExactly(satisfies: Satisfies, base: Snapshot, k: nat, id: string, version: string, at: nat, now: int)
    requires Inv(satisfies, base) && k < |base.packages| && base.packages[k].manifest.id == Strip(id)
    requires GoesBackTo(base.packages[k].history, version, at)
    ensures
      var r, h := base.packages[k], base.packages[k].history;
      Changed(satisfies, base, k, Record(h[at], r.enabled, h[..at] + h[at + 1..] + [r.manifest], r.installedAt, now),
              Result(satisfies, Operation.Rollback(id, version), base, now))
  {
    PlannedRollback(satisfies, base, k, id, version, now);
    var r, h := base.packages[k], base.packages[k].history;
    TargetIs(h, version, at);
    EntryIsOwn(satisfies, base, k);
    assert h[at] in h;
    hide Inv, Strip, Changed, Replace, RollbackTarget, PlanOf;
    ReplacedIsChanged(satisfies, Operation.Rollback(id, version), base, now, k,
                      Record(h[at], r.enabled, h[..at] + h[at + 1..] + [r.manifest], r.installedAt, now));
  }

  /** Without such an entry a rollback is refused. */
  lemma NothingToGoBackTo(satisfies: Satisfies, base: Snapshot, k: nat, id: string, version: string, now: int)
    requires Inv(satisfies, base) && k < |base.packages| && base.packages[k].manifest.id == Strip(id)
    requires forall at :: !GoesBackTo(base.packages[k].history, version, at)
    ensures Result(satisfies, Operation.Rollback(id, version), base, now)
         == Failed(if version != "" then VersionUnavailable else NothingToRollBack)
  {
    PlannedRollback(satisfies, base, k, id, version, now);
    TargetIs(base.packages[k].history, version, 0);
    hide Inv, Strip, Replace, RollbackTarget, PlanOf, GoesBackTo;
  }

  lemma EntryIsOwn(satisfies: Satisfies, base: Snapshot, k: nat)
    requires Inv(satisfies, base) && k < |base.packages|
    ensures forall m :: m in base.packages[k].history ==> m.id == base.packages[k].manifest.id
  {
    assert base.packages[k] in base.packages;
    hide ValidSet, Active, SortedBy, Chained;
  }

  lemma PlannedRollback(satisfies: Satisfies, base: Snapshot, k: nat, id: string, version: string, now: int)
    requires Inv(satisfies, base) && k < |base.packages| && base.packages[k].manifest.id == Strip(id)
    ensures
      var r := base.packages[k];
      var at := RollbackTarget(r.history, version);
      PlanOf(satisfies, Operation.Rollback(id, version), base, now)
        == if at == |r.history| then Rejected(if version != "" then VersionUnavailable else NothingToRollBack)
           else Packages(Replace(base.packages, Record(r.history[at], r.enabled,
                           r.history[..at] + r.history[at + 1..] + [r.manifest], r.installedAt, now)))
  {
    ListedAt(satisfies, base, k, id);
    hide Inv, Strip, Find, Replace, RollbackTarget;
  }

  // ---------------------------------------------------------------- uninstallation

  lemma {:induction false} RemovedRest(packages: seq<Record>, k: nat)
    requires DistinctBy(RecordId, packages) && k < |packages|
    ensures Remove(packages, packages[k].manifest.id) == packages[..k] + packages[k + 1..]
  {
    var n := |packages| - 1;
    var front := packages[..n];
    var id := packages[k].manifest.id;
    if k < n {
      RemovedRest(front, k);
      assert RecordId(packages[k]) != RecordId(packages[n]);
      assert packages[..k] + packages[k + 1..] == (front[..k] + front[k + 1..]) + [packages[n]];
    } else {
      forall i | 0 <= i < n
        ensures front[i].manifest.id != id
      {
        assert RecordId(packages[i]) != RecordId(packages[n]);
      }
      RemovedNone(front, id);
      assert packages[..k] + packages[k + 1..] == front;
    }
  }

  lemma {:induction false} RemovedNone(packages: seq<Record>, id: string)
    requires forall i :: 0 <= i < |packages| ==> packages[i].manifest.id != id
    ensures Remove(packages, id) == packages
  {
    if packages != [] {
      RemovedNone(packages[..|packages| - 1], id);
    }
  }

  /** Uninstalling needs a package listed under the id without blanks, and leaves out the one
      listed under the id exactly as it is given, if there is one, and no other. The rest
      must be valid. */
  lemma UninstallIsDecidedExactly(satisfies: Satisfies, base: Snapshot, k: nat, j: nat, id: string, now: int)
    requires Inv(satisfies, base) && k < |base.packages| && base.packages[k].manifest.id == Strip(id)
    requires j <= |base.packages| && (j < |base.packages| ==> base.packages[j].manifest.id == id)
    requires j == |base.packages| ==> forall i :: 0 <= i < |base.packages| ==> base.packages[i].manifest.id != id
    ensures
      var packages := if j < |base.packages| then base.packages[..j] + base.packages[j + 1..] else base.packages;
      var result := Result(satisfies, Operation.Uninstall(id), base, now);
      if ValidSet(satisfies, Active(packages)) then result.Returned? && SavedAs(base, packages, result.snapshot)
      else result == Failed(InvalidSet)
  {
    UninstallPlan(satisfies, base, k, id, now);
    var packages := if j < |base.packages| then base.packages[..j] + base.packages[j + 1..] else base.packages;
    RestIsSorted(satisfies, base, j, id);
    hide Inv, Strip, ValidSet, Active, SortBy, SortedBy, SavedAs, Remove, PlanOf, Result;
    PackagesAreSaved(satisfies, Operation.Uninstall(id), base, now, packages);
  }

  lemma UninstallPlan(satisfies: Satisfies, base: Snapshot, k: nat, id: string, now: int)
    requires Inv(satisfies, base) && k < |base.packages| && base.packages[k].manifest.id == Strip(id)
    ensures PlanOf(satisfies, Operation.Uninstall(id), base, now) == Packages(Remove(base.packages, id))
  {
    ListedAt(satisfies, base, k, id);
    hide Inv, Strip, Find, Remove;
  }

  lemma RestIsSorted(satisfies: Satisfies, base: Snapshot, j: nat, id: string)
    requires Inv(satisfies, base)
    requires j <= |base.packages| && (j < |base.packages| ==> base.packages[j].manifest.id == id)
    requires j == |base.packages| ==> forall i :: 0 <= i < |base.packages| ==> base.packages[i].manifest.id != id
    ensures
      var packages := if j < |base.packages| then base.packages[..j] + base.packages[j + 1..] else base.packages;
      Remove(base.packages, id) == packages && SortBy(RecordId, packages) == packages
  {
    hide ValidSet, Active, Chained, OwnHistory;
    var packages := if j < |base.packages| then base.packages[..j] + base.packages[j + 1..] else base.packages;
    if j < |base.packages| {
      RemovedRest(base.packages, j);
    } else {
      RemovedNone(base.packages, id);
    }
    assert SortedBy(RecordId, packages);
    SortOfSorted(RecordId, packages);
  }
}
