/** The package catalog and the manager that changes it under optimistic concurrency. */
module CapabilityControl {
  import opened Sorting
  import opened CapabilityManifest
  import opened PyText

  datatype Record = Record(manifest: Manifest, enabled: bool, history: seq<Manifest>, installedAt: int, updatedAt: int)

  /** A generation's id is a digest of its catalog version and its packages. */
  datatype GenerationId = NoGeneration | GenerationFor(catalogVersion: nat, packages: seq<Manifest>)

  datatype Generation = Generation(id: GenerationId, packages: seq<Manifest>)

  datatype Snapshot = Snapshot(
    revision: nat, packages: seq<Record>, generations: seq<Generation>, activeId: GenerationId)

  const EMPTY := Snapshot(0, [], [], NoGeneration)

  datatype Error =
    | AlreadyInstalled | NotInstalled | SameVersion | NotNewer | VersionUnavailable | NothingToRollBack
    | InvalidSet | DuplicateIds | ContentChanged | CannotSelect | Conflict

  /** What a manager makes of a snapshot: nothing to do, new packages to save, or an error. */
  datatype Plan = Keep | Packages(packages: seq<Record>) | Rejected(error: Error)

  datatype Outcome = Returned(snapshot: Snapshot) | Failed(error: Error)

  datatype Operation =
    | Install(manifest: Manifest, enabled: bool)
    | SetEnabled(id: string, on: bool)
    | Upgrade(manifest: Manifest)
    | Rollback(id: string, version: string)
    | Uninstall(id: string)
    | Reconcile(manifests: seq<Manifest>, disableMissing: bool)

  function RecordId(r: Record): string {
    r.manifest.id
  }

  function Active(packages: seq<Record>): seq<Manifest> {
    if packages == [] then []
    else
      var last := packages[|packages| - 1];
      Active(packages[..|packages| - 1]) + (if last.enabled then [last.manifest] else [])
  }

  /** The position of the first record with the stripped id, or the length. */
  function Find(packages: seq<Record>, id: string): (at: nat)
    ensures at <= |packages|
    ensures at < |packages| ==> packages[at].manifest.id == Strip(id)
    ensures forall k :: 0 <= k < at ==> packages[k].manifest.id != Strip(id)
    decreases |packages|
  {
    if packages == [] then 0
    else if packages[0].manifest.id == Strip(id) then 0
    else 1 + Find(packages[1..], id)
  }

  /** Every record with the replacement's id gives way to it. */
  function Replace(packages: seq<Record>, replacement: Record): seq<Record> {
    seq(|packages|, i requires 0 <= i < |packages| =>
      if packages[i].manifest.id == replacement.manifest.id then replacement else packages[i])
  }

  function Remove(packages: seq<Record>, id: string): seq<Record> {
    if packages == [] then []
    else
      var last := packages[|packages| - 1];
      Remove(packages[..|packages| - 1], id) + (if last.manifest.id == id then [] else [last])
  }

  // ---------------------------------------------------------------- changes of one record

  function Upgraded(r: Record, manifest: Manifest, now: int): Record {
    r.(manifest := manifest, history := r.history + [r.manifest], updatedAt := now)
  }

  /** Back to an entry of the history, which the current manifest joins. */
  function RolledBack(r: Record, at: nat, now: int): Record
    requires at < |r.history|
  {
    r.(manifest := r.history[at], history := r.history[..at] + r.history[at + 1..] + [r.manifest], updatedAt := now)
  }

  /** The first entry of the history that has the version, or the length. */
  function FindVersion(history: seq<Manifest>, version: string): (at: nat)
    ensures at <= |history|
    ensures at < |history| ==> history[at].version == version
    ensures forall k :: 0 <= k < at ==> history[k].version != version
  {
    if history == [] then 0 else if history[0].version == version then 0 else 1 + FindVersion(history[1..], version)
  }

  function FindManifest(history: seq<Manifest>, manifest: Manifest): (at: nat)
    ensures at <= |history|
    ensures at < |history| ==> history[at] == manifest
    ensures at == |history| ==> manifest !in history
  {
    if history == [] then 0 else if history[0] == manifest then 0 else 1 + FindManifest(history[1..], manifest)
  }

  /** Where a rollback goes: the last entry, or the first with the version asked for. */
  function RollbackTarget(history: seq<Manifest>, version: string): (at: nat)
    ensures at <= |history|
  {
    if version != "" then FindVersion(history, version) else if history == [] then 0 else |history| - 1
  }

  datatype Reconciled = Kept(r: Record) | Unacceptable(error: Error)

  function Newer(satisfies: Satisfies, version: string, than: string): bool {
    satisfies(version, ">" + than)
  }

  function ReconcileRecord(satisfies: Satisfies, r: Record, manifest: Manifest, now: int): Reconciled {
    if r.manifest == manifest then Kept(if r.enabled then r else r.(enabled := true, updatedAt := now))
    else if r.manifest.version == manifest.version then Unacceptable(ContentChanged)
    else if Newer(satisfies, manifest.version, r.manifest.version) then Kept(Upgraded(r, manifest, now).(enabled := true))
    else
      var at := FindManifest(r.history, manifest);
      if at == |r.history| then Unacceptable(CannotSelect) else Kept(RolledBack(r, at, now).(enabled := true))
  }

  // ---------------------------------------------------------------- reconciliation

  function Missed(r: Record, disableMissing: bool, now: int): Record {
    r.(enabled := r.enabled && !disableMissing, updatedAt := if disableMissing && r.enabled then now else r.updatedAt)
  }

  function FindId(ms: seq<Manifest>, id: string): (at: nat)
    ensures at <= |ms|
    ensures at < |ms| ==> ms[at].id == id
    ensures forall k :: 0 <= k < at ==> ms[k].id != id
  {
    if ms == [] then 0 else if ms[0].id == id then 0 else 1 + FindId(ms[1..], id)
  }

  datatype Progress = Going(records: seq<Record>, remaining: seq<Manifest>) | Stopped(error: Error)

  function ReconcileOne(
      satisfies: Satisfies, sofar: Progress, r: Record, disableMissing: bool, now: int): Progress
  {
    if sofar.Stopped? then sofar
    else
      var at := FindId(sofar.remaining, r.manifest.id);
      if at == |sofar.remaining| then Going(sofar.records + [Missed(r, disableMissing, now)], sofar.remaining)
      else
        match ReconcileRecord(satisfies, r, sofar.remaining[at], now)
        case Unacceptable(error) => Stopped(error)
        case Kept(record) => Going(sofar.records + [record], sofar.remaining[..at] + sofar.remaining[at + 1..])
  }

  function ReconcileAll(
      satisfies: Satisfies, packages: seq<Record>, desired: seq<Manifest>, disableMissing: bool, now: int): Progress
    decreases |packages|
  {
    if packages == [] then Going([], desired)
    else
      ReconcileOne(
        satisfies, ReconcileAll(satisfies, packages[..|packages| - 1], desired, disableMissing, now),
        packages[|packages| - 1], disableMissing, now)
  }

  function FreshRecords(ms: seq<Manifest>, now: int): seq<Record> {
    seq(|ms|, i requires 0 <= i < |ms| => Record(ms[i], true, [], now, now))
  }

  // ---------------------------------------------------------------- plans

  ghost function PlanOf(satisfies: Satisfies, op: Operation, base: Snapshot, now: int): Plan {
    var packages := base.packages;
    match op
    case Install(manifest, enabled) =>
      if Find(packages, manifest.id) < |packages| then Rejected(AlreadyInstalled)
      else Packages(packages + [Record(manifest, enabled, [], now, now)])
    case SetEnabled(id, on) =>
      var at := Find(packages, id);
      if at == |packages| then Rejected(NotInstalled)
      else if packages[at].enabled == on then Keep
      else Packages(Replace(packages, packages[at].(enabled := on, updatedAt := now)))
    case Upgrade(manifest) =>
      var at := Find(packages, manifest.id);
      if at == |packages| then Rejected(NotInstalled)
      else if manifest.version == packages[at].manifest.version then Rejected(SameVersion)
      else if !Newer(satisfies, manifest.version, packages[at].manifest.version) then Rejected(NotNewer)
      else Packages(Replace(packages, Upgraded(packages[at], manifest, now)))
    case Rollback(id, version) =>
      var at := Find(packages, id);
      if at == |packages| then Rejected(NotInstalled)
      else
        var target := RollbackTarget(packages[at].history, version);
        if target == |packages[at].history| then
          Rejected(if version != "" then VersionUnavailable else NothingToRollBack)
        else Packages(Replace(packages, RolledBack(packages[at], target, now)))
    case Uninstall(id) =>
      if Find(packages, id) == |packages| then Rejected(NotInstalled) else Packages(Remove(packages, id))
    case Reconcile(manifests, disableMissing) =>
      if !DistinctBy(IdOf, manifests) then Rejected(DuplicateIds)
      else if !ValidSet(satisfies, manifests) then Rejected(InvalidSet)
      else
        match ReconcileAll(satisfies, packages, manifests, disableMissing, now)
        case Stopped(error) => Rejected(error)
        case Going(records, remaining) =>
          var normalized := SortBy(RecordId, records + FreshRecords(remaining, now));
          if normalized == packages then Keep else Packages(normalized)
  }

  /** The catalog with new packages: the next revision, with one more generation. */
  function NextSnapshot(base: Snapshot, packages: seq<Record>): Snapshot {
    var normalized := SortBy(RecordId, packages);
    var id := GenerationFor(base.revision + 1, Active(normalized));
    var known := exists g :: g in base.generations && g.id == id;
    Snapshot(
      base.revision + 1, normalized,
      if known then base.generations else base.generations + [Generation(id, Active(normalized))], id)
  }

  /** What the operation makes of the catalog when nobody else changes it meanwhile. */
  ghost function Result(satisfies: Satisfies, op: Operation, base: Snapshot, now: int): Outcome {
    match PlanOf(satisfies, op, base, now)
    case Keep => Returned(base)
    case Rejected(error) => Failed(error)
    case Packages(packages) =>
      if ValidSet(satisfies, Active(SortBy(RecordId, packages))) then Returned(NextSnapshot(base, packages))
      else Failed(InvalidSet)
  }

  ghost function After(satisfies: Satisfies, op: Operation, base: Snapshot, now: int): Snapshot {
    var result := Result(satisfies, op, base, now);
    if result.Returned? then result.snapshot else base
  }

  // ---------------------------------------------------------------- store and manager

  class PackageStore {
    var snapshot: Snapshot

    constructor ()
      ensures snapshot == EMPTY
    {
      snapshot := EMPTY;
    }

    method Save(candidate: Snapshot, expectedRevision: nat) returns (r: Outcome)
      modifies this
      ensures
        if old(snapshot.revision) != expectedRevision then r == Failed(Conflict) && snapshot == old(snapshot)
        else snapshot == candidate.(revision := expectedRevision + 1) && r == Returned(snapshot)
    {
      if snapshot.revision != expectedRevision {
        return Failed(Conflict);
      }
      snapshot := candidate.(revision := expectedRevision + 1);
      r := Returned(snapshot);
    }
  }

  class PackageManager {
    const store: PackageStore
    const satisfies: Satisfies

    constructor (store: PackageStore, satisfies: Satisfies)
      ensures this.store == store && this.satisfies == satisfies
    {
      this.store, this.satisfies := store, satisfies;
    }

    /** Validates the enabled packages and saves them as the next revision of the base. */
    method SavePackages(base: Snapshot, packages: seq<Record>) returns (r: Outcome)
      modifies store
      ensures
        if !ValidSet(satisfies, Active(SortBy(RecordId, packages))) then
          r == Failed(InvalidSet) && store.snapshot == old(store.snapshot)
        else if old(store.snapshot.revision) != base.revision then
          r == Failed(Conflict) && store.snapshot == old(store.snapshot)
        else store.snapshot == NextSnapshot(base, packages) && r == Returned(store.snapshot)
    {
      hide ValidSet, SortBy, Active;
      var normalized := SortBy(RecordId, packages);
      var issues := ValidateManifestSet(satisfies, Active(normalized));
      if issues != [] {
        return Failed(InvalidSet);
      }
      var id := GenerationFor(base.revision + 1, Active(normalized));
      var generations := base.generations;
      if !(exists g :: g in generations && g.id == id) {
        generations := generations + [Generation(id, Active(normalized))];
      }
      r := store.Save(base.(packages := normalized, generations := generations, activeId := id), base.revision);
    }

    method Install(manifest: Manifest, enabled: bool, now: int) returns (r: Outcome)
      modifies store
      ensures r == Result(satisfies, Operation.Install(manifest, enabled), old(store.snapshot), now)
      ensures store.snapshot == After(satisfies, Operation.Install(manifest, enabled), old(store.snapshot), now)
    {
      hide ValidSet, SortBy, Active, NextSnapshot, Strip;
      var base := store.snapshot;
      if Find(base.packages, manifest.id) < |base.packages| {
        return Failed(AlreadyInstalled);
      }
      r := SavePackages(base, base.packages + [Record(manifest, enabled, [], now, now)]);
    }

    method ReplaceEnabled(id: string, on: bool, now: int) returns (r: Outcome)
      modifies store
      ensures r == Result(satisfies, SetEnabled(id, on), old(store.snapshot), now)
      ensures store.snapshot == After(satisfies, SetEnabled(id, on), old(store.snapshot), now)
    {
      hide ValidSet, SortBy, Active, NextSnapshot, Strip, Replace;
      var base := store.snapshot;
      var at := Find(base.packages, id);
      if at == |base.packages| {
        return Failed(NotInstalled);
      }
      if base.packages[at].enabled == on {
        return Returned(base);
      }
      r := SavePackages(base, Replace(base.packages, base.packages[at].(enabled := on, updatedAt := now)));
    }

    method Upgrade(manifest: Manifest, now: int) returns (r: Outcome)
      modifies store
      ensures r == Result(satisfies, Operation.Upgrade(manifest), old(store.snapshot), now)
      ensures store.snapshot == After(satisfies, Operation.Upgrade(manifest), old(store.snapshot), now)
    {
      hide ValidSet, SortBy, Active, NextSnapshot, Strip, Replace;
      var base := store.snapshot;
      var at := Find(base.packages, manifest.id);
      if at == |base.packages| {
        return Failed(NotInstalled);
      }
      var current := base.packages[at];
      if manifest.version == current.manifest.version {
        return Failed(SameVersion);
      }
      if !Newer(satisfies, manifest.version, current.manifest.version) {
        return Failed(NotNewer);
      }
      r := SavePackages(base, Replace(base.packages, Upgraded(current, manifest, now)));
    }

    method Rollback(id: string, version: string, now: int) returns (r: Outcome)
      modifies store
      ensures r == Result(satisfies, Operation.Rollback(id, version), old(store.snapshot), now)
      ensures store.snapshot == After(satisfies, Operation.Rollback(id, version), old(store.snapshot), now)
    {
      hide ValidSet, SortBy, Active, NextSnapshot, Strip, Replace;
      var base := store.snapshot;
      var at := Find(base.packages, id);
      if at == |base.packages| {
        return Failed(NotInstalled);
      }
      var current := base.packages[at];
      var target := RollbackTarget(current.history, version);
      if target == |current.history| {
        return Failed(if version != "" then VersionUnavailable else NothingToRollBack);
      }
      r := SavePackages(base, Replace(base.packages, RolledBack(current, target, now)));
    }

    method Uninstall(id: string, now: int) returns (r: Outcome)
      modifies store
      ensures r == Result(satisfies, Operation.Uninstall(id), old(store.snapshot), now)
      ensures store.snapshot == After(satisfies, Operation.Uninstall(id), old(store.snapshot), now)
    {
      hide ValidSet, SortBy, Active, NextSnapshot, Strip, Remove;
      var base := store.snapshot;
      if Find(base.packages, id) == |base.packages| {
        return Failed(NotInstalled);
      }
      r := SavePackages(base, Remove(base.packages, id));
    }

    /** Takes each installed record to its manifest in the desired set, if it has one. */
    method ReconcileRecords(packages: seq<Record>, desired: seq<Manifest>, disableMissing: bool, now: int)
      returns (p: Progress)
      ensures p == ReconcileAll(satisfies, packages, desired, disableMissing, now)
    {
      hide ReconcileRecord, Missed;
      var records: seq<Record> := [];
      var remaining := desired;
      for i := 0 to |packages|
        invariant Going(records, remaining) == ReconcileAll(satisfies, packages[..i], desired, disableMissing, now)
      {
        var current := packages[i];
        assert packages[..i + 1][..i] == packages[..i];
        var at := FindId(remaining, current.manifest.id);
        if at == |remaining| {
          records := records + [Missed(current, disableMissing, now)];
          continue;
        }
        var reconciled := ReconcileRecord(satisfies, current, remaining[at], now);
        if reconciled.Unacceptable? {
          StoppedStays(satisfies, packages, i + 1, desired, disableMissing, now);
          return Stopped(reconciled.error);
        }
        records := records + [reconciled.r];
        remaining := remaining[..at] + remaining[at + 1..];
      }
      assert packages[..|packages|] == packages;
      p := Going(records, remaining);
    }

    method Reconcile(manifests: seq<Manifest>, disableMissing: bool, now: int) returns (r: Outcome)
      modifies store
      ensures r == Result(satisfies, Operation.Reconcile(manifests, disableMissing), old(store.snapshot), now)
      ensures store.snapshot == After(satisfies, Operation.Reconcile(manifests, disableMissing), old(store.snapshot), now)
    {
      hide ValidSet, SortBy, Active, NextSnapshot, ReconcileAll, DistinctBy, FreshRecords;
      var distinct := NoTwins(manifests);
      if !distinct {
        return Failed(DuplicateIds);
      }
      var issues := ValidateManifestSet(satisfies, manifests);
      if issues != [] {
        return Failed(InvalidSet);
      }
      var base := store.snapshot;
      var progress := ReconcileRecords(base.packages, manifests, disableMissing, now);
      if progress.Stopped? {
        return Failed(progress.error);
      }
      var normalized := SortBy(RecordId, progress.records + FreshRecords(progress.remaining, now));
      if normalized == base.packages {
        return Returned(base);
      }
      r := SavePackages(base, normalized);
    }
  }

  method NoTwins(ms: seq<Manifest>) returns (distinct: bool)
    ensures distinct <==> DistinctBy(IdOf, ms)
  {
    var ids: set<string> := {};
    for i := 0 to |ms|
      invariant forall id :: id in ids <==> exists k :: 0 <= k < i && ms[k].id == id
      invariant forall j, k :: 0 <= j < k < i ==> ms[j].id != ms[k].id
    {
      if ms[i].id in ids {
        var k :| 0 <= k < i && ms[k].id == ms[i].id;
        assert IdOf(ms[k]) == IdOf(ms[i]);
        return false;
      }
      ids := ids + {ms[i].id};
    }
    distinct := true;
  }

  lemma {:induction false} StoppedStays(
      satisfies: Satisfies, packages: seq<Record>, n: nat, desired: seq<Manifest>, disableMissing: bool, now: int)
    requires n <= |packages| && ReconcileAll(satisfies, packages[..n], desired, disableMissing, now).Stopped?
    ensures ReconcileAll(satisfies, packages, desired, disableMissing, now)
         == ReconcileAll(satisfies, packages[..n], desired, disableMissing, now)
  {
    if n < |packages| {
      var front := packages[..|packages| - 1];
      assert front[..n] == packages[..n];
      StoppedStays(satisfies, front, n, desired, disableMissing, now);
    } else {
      assert packages[..n] == packages;
    }
  }
}
