/** What every catalog reached through package managers satisfies, and what their
    operations undo, keep and repeat. */
module CapabilityControlProperties {
  import opened Sorting
  import opened PyText
  import opened CapabilityManifest
  import opened CapabilityControl
  import opened DependencyOrder

  // ---------------------------------------------------------------- the catalog invariant

  ghost predicate OwnHistory(r: Record) {
    forall m :: m in r.history ==> m.id == r.manifest.id
  }

  /** Distinct ids, and every record with a history of its own package. */
  ghost predicate WellKept(packages: seq<Record>) {
    DistinctBy(RecordId, packages) && forall r :: r in packages ==> OwnHistory(r)
  }

  /** Generation k is the one of revision k + 1. */
  ghost predicate Chained(generations: seq<Generation>) {
    forall k :: 0 <= k < |generations| ==> generations[k].id == GenerationFor(k + 1, generations[k].packages)
  }

  ghost predicate Inv(satisfies: Satisfies, s: Snapshot) {
    && WellKept(s.packages) && SortedBy(RecordId, s.packages)
    && ValidSet(satisfies, Active(s.packages))
    && Chained(s.generations) && |s.generations| == s.revision
    && (s.revision == 0 ==> s == EMPTY)
    && (s.revision > 0 ==>
          s.generations[s.revision - 1] == Generation(s.activeId, Active(s.packages)))
  }

  lemma EmptyIsInv(satisfies: Satisfies)
    ensures Inv(satisfies, EMPTY)
  {
  }

  lemma RecordsOrderless(a: seq<Record>, b: seq<Record>)
    requires multiset(a) == multiset(b) && WellKept(a)
    ensures WellKept(b)
  {
    SameElements(a, b);
    DistinctIsOrderless(RecordId, a, b);
    hide OwnHistory, DistinctBy;
  }

  lemma ChainGrows(generations: seq<Generation>, packages: seq<Manifest>)
    requires Chained(generations)
    ensures forall g :: g in generations ==> g.id != GenerationFor(|generations| + 1, packages)
    ensures Chained(generations + [Generation(GenerationFor(|generations| + 1, packages), packages)])
  {
    forall g | g in generations
      ensures g.id != GenerationFor(|generations| + 1, packages)
    {
      var k :| 0 <= k < |generations| && generations[k] == g;
      assert g.id.catalogVersion == k + 1;
    }
  }

  /** A saved catalog keeps the invariant, and adds exactly one generation at the end. */
  lemma NextIsInv(satisfies: Satisfies, base: Snapshot, packages: seq<Record>)
    requires Inv(satisfies, base) && WellKept(packages)
    requires ValidSet(satisfies, Active(SortBy(RecordId, packages)))
    ensures
      var next := NextSnapshot(base, packages);
      && Inv(satisfies, next) && next.revision == base.revision + 1
      && next.generations == base.generations + [Generation(next.activeId, Active(next.packages))]
  {
    hide SortBy, SortedBy, WellKept, ValidSet, Active, Chained;
    SortKeeps(RecordId, packages);
    RecordsOrderless(packages, SortBy(RecordId, packages));
    ChainGrows(base.generations, Active(SortBy(RecordId, packages)));
  }

  // ---------------------------------------------------------------- what plans do to records

  lemma Found(packages: seq<Record>, id: string)
    requires WellKept(packages) && Find(packages, id) < |packages|
    ensures packages[Find(packages, id)] in packages
    ensures OwnHistory(packages[Find(packages, id)])
  {
    hide Strip;
  }

  lemma ReplaceKeeps(packages: seq<Record>, replacement: Record)
    requires WellKept(packages) && OwnHistory(replacement)
    ensures WellKept(Replace(packages, replacement))
  {
    var replaced := Replace(packages, replacement);
    hide OwnHistory;
    assert forall i :: 0 <= i < |packages| ==> RecordId(replaced[i]) == RecordId(packages[i]);
    forall i, j | 0 <= i < j < |replaced|
      ensures RecordId(replaced[i]) != RecordId(replaced[j])
    {
      assert RecordId(packages[i]) != RecordId(packages[j]);
    }
    forall r | r in replaced
      ensures OwnHistory(r)
    {
      var i :| 0 <= i < |replaced| && replaced[i] == r;
      assert packages[i] in packages;
    }
  }

  lemma {:induction false} RemoveKeeps(packages: seq<Record>, id: string)
    ensures forall r :: r in Remove(packages, id) <==> r in packages && r.manifest.id != id
    ensures DistinctBy(RecordId, packages) ==> DistinctBy(RecordId, Remove(packages, id))
  {
    if packages != [] {
      var front, last := packages[..|packages| - 1], packages[|packages| - 1];
      RemoveKeeps(front, id);
      assert packages == front + [last];
      SnocDistinct(front, last);
      SnocDistinct(Remove(front, id), last);
      assert Remove(front, id) + [] == Remove(front, id);
      hide DistinctBy;
    }
  }

  lemma SnocDistinct(packages: seq<Record>, r: Record)
    ensures DistinctBy(RecordId, packages + [r]) <==>
      DistinctBy(RecordId, packages) && forall o :: o in packages ==> o.manifest.id != r.manifest.id
  {
    var all := packages + [r];
    if DistinctBy(RecordId, all) {
      forall o | o in packages
        ensures o.manifest.id != r.manifest.id
      {
        var i :| 0 <= i < |packages| && packages[i] == o;
        assert RecordId(all[i]) != RecordId(all[|packages|]);
      }
      forall i, j | 0 <= i < j < |packages|
        ensures RecordId(packages[i]) != RecordId(packages[j])
      {
        assert RecordId(all[i]) != RecordId(all[j]);
      }
    }
  }

  lemma RolledBackIsOwn(r: Record, at: nat, now: int)
    requires OwnHistory(r) && at < |r.history|
    ensures OwnHistory(RolledBack(r, at, now)) && RolledBack(r, at, now).manifest.id == r.manifest.id
    ensures multiset(RolledBack(r, at, now).history) + multiset{RolledBack(r, at, now).manifest}
         == multiset(r.history) + multiset{r.manifest}
  {
    assert r.history[at] in r.history;
    assert r.history == r.history[..at] + [r.history[at]] + r.history[at + 1..];
  }

  lemma UpgradedIsOwn(r: Record, manifest: Manifest, now: int)
    requires OwnHistory(r) && manifest.id == r.manifest.id
    ensures OwnHistory(Upgraded(r, manifest, now))
  {
  }

  // ---------------------------------------------------------------- reconciliation keeps records

  lemma ReconcileRecordKeeps(satisfies: Satisfies, r: Record, manifest: Manifest, now: int)
    requires OwnHistory(r) && manifest.id == r.manifest.id && ReconcileRecord(satisfies, r, manifest, now).Kept?
    ensures
      var kept := ReconcileRecord(satisfies, r, manifest, now).r;
      OwnHistory(kept) && kept.manifest == manifest && kept.enabled
  {
    hide OwnHistory;
    if r.manifest != manifest && !Newer(satisfies, manifest.version, r.manifest.version) {
      RolledBackIsOwn(r, FindManifest(r.history, manifest), now);
    } else if r.manifest != manifest {
      UpgradedIsOwn(r, manifest, now);
    }
    SameHistory(r, r.(enabled := true, updatedAt := now));
    SameHistory(Upgraded(r, manifest, now), Upgraded(r, manifest, now).(enabled := true));
    if FindManifest(r.history, manifest) < |r.history| {
      var back := RolledBack(r, FindManifest(r.history, manifest), now);
      SameHistory(back, back.(enabled := true));
    }
  }

  lemma SameHistory(a: Record, b: Record)
    requires a.history == b.history && a.manifest == b.manifest
    ensures OwnHistory(a) <==> OwnHistory(b)
  {
  }

  ghost predicate Named(ms: seq<Manifest>, id: string) {
    exists m :: m in ms && m.id == id
  }

  /** The record is as reconciliation with these manifests leaves it. */
  ghost predicate Agrees(r: Record, desired: seq<Manifest>, disableMissing: bool) {
    if Named(desired, r.manifest.id) then r.manifest in desired && r.enabled else disableMissing ==> !r.enabled
  }

  ghost predicate Unrecorded(packages: seq<Record>, id: string) {
    forall r :: r in packages ==> r.manifest.id != id
  }

  /** The manifests that no record has taken. */
  ghost predicate LeftOver(packages: seq<Record>, desired: seq<Manifest>, remaining: seq<Manifest>) {
    && DistinctBy(IdOf, remaining)
    && forall m :: m in remaining <==> m in desired && Unrecorded(packages, m.id)
  }

  /** Where a reconciliation stands: the records handled, in place and under their
      ids, and the manifests no record has taken yet. */
  ghost predicate Halfway(packages: seq<Record>, desired: seq<Manifest>, disableMissing: bool, p: Progress) {
    && p.Going? && |p.records| == |packages|
    && (forall i :: 0 <= i < |packages| ==> RecordId(p.records[i]) == RecordId(packages[i]))
    && (forall r :: r in p.records ==> OwnHistory(r) && Agrees(r, desired, disableMissing))
    && LeftOver(packages, desired, p.remaining)
  }

  lemma RemoveAt(ms: seq<Manifest>, at: nat)
    requires DistinctBy(IdOf, ms) && at < |ms|
    ensures DistinctBy(IdOf, ms[..at] + ms[at + 1..])
    ensures forall m :: m in ms[..at] + ms[at + 1..] <==> m in ms && m.id != ms[at].id
  {
    var rest := ms[..at] + ms[at + 1..];
    var whole := rest + [ms[at]];
    assert ms == ms[..at] + [ms[at]] + ms[at + 1..];
    assert multiset(whole) == multiset(ms);
    SameElements(whole, ms);
    DistinctIsOrderless(IdOf, ms, whole);
    DistinctGrows(rest, ms[at]);
    hide DistinctBy;
    assert forall m :: m in whole <==> m in rest || m == ms[at];
  }

  lemma LeftOverTaken(front: seq<Record>, last: Record, desired: seq<Manifest>, remaining: seq<Manifest>, at: nat)
    requires LeftOver(front, desired, remaining) && at < |remaining| && remaining[at].id == last.manifest.id
    ensures LeftOver(front + [last], desired, remaining[..at] + remaining[at + 1..])
  {
    RemoveAt(remaining, at);
    SnocNames(front, last);
    hide DistinctBy, Unrecorded;
  }

  lemma LeftOverPassed(front: seq<Record>, last: Record, desired: seq<Manifest>, remaining: seq<Manifest>)
    requires LeftOver(front, desired, remaining) && !Named(remaining, last.manifest.id)
    ensures LeftOver(front + [last], desired, remaining)
  {
    SnocNames(front, last);
    hide DistinctBy, Unrecorded;
  }

  lemma SnocNames(front: seq<Record>, last: Record)
    ensures forall id :: Unrecorded(front + [last], id) <==> Unrecorded(front, id) && last.manifest.id != id
  {
    assert forall r :: r in front + [last] <==> r in front || r == last;
  }

  lemma LeftOverShrinks(front: seq<Record>, last: Record, desired: seq<Manifest>, remaining: seq<Manifest>)
    requires LeftOver(front, desired, remaining)
    ensures
      var at := FindId(remaining, last.manifest.id);
      LeftOver(front + [last], desired, if at == |remaining| then remaining else remaining[..at] + remaining[at + 1..])
  {
    var at := FindId(remaining, last.manifest.id);
    if at < |remaining| {
      LeftOverTaken(front, last, desired, remaining, at);
    } else {
      assert !Named(remaining, last.manifest.id);
      LeftOverPassed(front, last, desired, remaining);
    }
    hide LeftOver;
  }

  lemma HalfwayGrows(
      packages: seq<Record>, desired: seq<Manifest>, disableMissing: bool, p: Progress,
      r: Record, handled: Record, remaining: seq<Manifest>)
    requires Halfway(packages, desired, disableMissing, p)
    requires RecordId(handled) == RecordId(r) && OwnHistory(handled) && Agrees(handled, desired, disableMissing)
    requires LeftOver(packages + [r], desired, remaining)
    ensures Halfway(packages + [r], desired, disableMissing, Going(p.records + [handled], remaining))
  {
    hide Agrees, LeftOver, OwnHistory;
  }

  lemma NotNamedIsMissed(packages: seq<Record>, desired: seq<Manifest>, disableMissing: bool, p: Progress, r: Record, now: int)
    requires Halfway(packages, desired, disableMissing, p) && OwnHistory(r)
    requires Unrecorded(packages, r.manifest.id)
    requires FindId(p.remaining, r.manifest.id) == |p.remaining|
    ensures Halfway(packages + [r], desired, disableMissing,
                    Going(p.records + [Missed(r, disableMissing, now)], p.remaining))
  {
    var missed := Missed(r, disableMissing, now);
    SameHistory(r, missed);
    hide OwnHistory, DistinctBy;
    assert !Named(desired, r.manifest.id);
    assert Agrees(missed, desired, disableMissing);
    LeftOverShrinks(packages, r, desired, p.remaining);
    HalfwayGrows(packages, desired, disableMissing, p, r, missed, p.remaining);
    hide Halfway, LeftOver, Agrees;
  }

  lemma NamedIsTaken(
      satisfies: Satisfies, packages: seq<Record>, desired: seq<Manifest>, disableMissing: bool, p: Progress,
      r: Record, now: int)
    requires Halfway(packages, desired, disableMissing, p) && OwnHistory(r)
    requires FindId(p.remaining, r.manifest.id) < |p.remaining|
    requires ReconcileRecord(satisfies, r, p.remaining[FindId(p.remaining, r.manifest.id)], now).Kept?
    ensures
      var at := FindId(p.remaining, r.manifest.id);
      Halfway(packages + [r], desired, disableMissing,
              Going(p.records + [ReconcileRecord(satisfies, r, p.remaining[at], now).r],
                    p.remaining[..at] + p.remaining[at + 1..]))
  {
    hide ReconcileRecord, OwnHistory, DistinctBy;
    var at := FindId(p.remaining, r.manifest.id);
    var m := p.remaining[at];
    assert m in p.remaining;
    ReconcileRecordKeeps(satisfies, r, m, now);
    var kept := ReconcileRecord(satisfies, r, m, now).r;
    assert Named(desired, r.manifest.id) && Agrees(kept, desired, disableMissing);
    LeftOverShrinks(packages, r, desired, p.remaining);
    hide Halfway, LeftOver, Agrees;
    HalfwayGrows(packages, desired, disableMissing, p, r, kept, p.remaining[..at] + p.remaining[at + 1..]);
  }

  lemma FrontIsWellKept(packages: seq<Record>)
    requires WellKept(packages) && packages != []
    ensures
      var front, last := packages[..|packages| - 1], packages[|packages| - 1];
      packages == front + [last] && WellKept(front) && OwnHistory(last) && Unrecorded(front, last.manifest.id)
  {
    var front, last := packages[..|packages| - 1], packages[|packages| - 1];
    assert packages == front + [last];
    SnocDistinct(front, last);
    assert last in packages;
    hide DistinctBy, OwnHistory;
  }

  lemma ReconcileStep(
      satisfies: Satisfies, front: seq<Record>, last: Record, desired: seq<Manifest>, disableMissing: bool,
      p: Progress, now: int)
    requires Halfway(front, desired, disableMissing, p) && OwnHistory(last) && Unrecorded(front, last.manifest.id)
    requires ReconcileOne(satisfies, p, last, disableMissing, now).Going?
    ensures Halfway(front + [last], desired, disableMissing, ReconcileOne(satisfies, p, last, disableMissing, now))
  {
    assert p.Going?;
    hide Halfway, ReconcileRecord, Missed, OwnHistory, Unrecorded;
    if FindId(p.remaining, last.manifest.id) == |p.remaining| {
      NotNamedIsMissed(front, desired, disableMissing, p, last, now);
    } else {
      NamedIsTaken(satisfies, front, desired, disableMissing, p, last, now);
    }
  }

  lemma {:induction false} ReconcileKeeps(
      satisfies: Satisfies, packages: seq<Record>, desired: seq<Manifest>, disableMissing: bool, now: int)
    requires WellKept(packages) && DistinctBy(IdOf, desired)
    requires ReconcileAll(satisfies, packages, desired, disableMissing, now).Going?
    ensures Halfway(packages, desired, disableMissing, ReconcileAll(satisfies, packages, desired, disableMissing, now))
  {
    if packages != [] {
      hide WellKept, Halfway, ReconcileOne, DistinctBy, OwnHistory, Unrecorded;
      var front, last := packages[..|packages| - 1], packages[|packages| - 1];
      FrontIsWellKept(packages);
      var p := ReconcileAll(satisfies, front, desired, disableMissing, now);
      assert ReconcileAll(satisfies, packages, desired, disableMissing, now) == ReconcileOne(satisfies, p, last, disableMissing, now);
      hide ReconcileAll;
      StoppedBefore(satisfies, p, last, disableMissing, now);
      ReconcileKeeps(satisfies, front, desired, disableMissing, now);
      ReconcileStep(satisfies, front, last, desired, disableMissing, p, now);
    } else {
      hide OwnHistory, Agrees;
    }
  }

  lemma StoppedBefore(satisfies: Satisfies, p: Progress, r: Record, disableMissing: bool, now: int)
    ensures p.Stopped? ==> ReconcileOne(satisfies, p, r, disableMissing, now) == p
  {
    hide ReconcileRecord;
  }

  // ---------------------------------------------------------------- every operation keeps the invariant

  /** Manifests are installed and upgraded under ids without blanks around them. */
  predicate Proper(op: Operation) {
    match op
    case Install(manifest, _) => Strip(manifest.id) == manifest.id
    case Upgrade(manifest) => Strip(manifest.id) == manifest.id
    case _ => true
  }

  lemma FreshKeeps(packages: seq<Record>, ms: seq<Manifest>, now: int)
    requires WellKept(packages) && DistinctBy(IdOf, ms)
    requires forall r, m :: r in packages && m in ms ==> r.manifest.id != m.id
    ensures WellKept(packages + FreshRecords(ms, now))
  {
    var added := FreshRecords(ms, now);
    var all := packages + added;
    forall i, j | 0 <= i < j < |all|
      ensures RecordId(all[i]) != RecordId(all[j])
    {
      if j < |packages| {
        assert RecordId(packages[i]) != RecordId(packages[j]);
      } else if i < |packages| {
        assert packages[i] in packages && ms[j - |packages|] in ms;
      } else {
        assert IdOf(ms[i - |packages|]) != IdOf(ms[j - |packages|]);
      }
    }
    hide DistinctBy;
    forall r | r in all
      ensures OwnHistory(r)
    {
      assert r in packages || r in added;
    }
  }

  lemma HalfwayIsWellKept(packages: seq<Record>, desired: seq<Manifest>, disableMissing: bool, p: Progress, now: int)
    requires WellKept(packages) && Halfway(packages, desired, disableMissing, p)
    ensures WellKept(p.records + FreshRecords(p.remaining, now))
  {
    hide OwnHistory, Agrees;
    forall i, j | 0 <= i < j < |p.records|
      ensures RecordId(p.records[i]) != RecordId(p.records[j])
    {
      assert RecordId(packages[i]) != RecordId(packages[j]);
    }
    forall r, m | r in p.records && m in p.remaining
      ensures r.manifest.id != m.id
    {
      var i :| 0 <= i < |p.records| && p.records[i] == r;
      assert packages[i] in packages && RecordId(r) == RecordId(packages[i]);
    }
    FreshKeeps(p.records, p.remaining, now);
  }

  lemma PlanKeeps(satisfies: Satisfies, op: Operation, base: Snapshot, now: int)
    requires WellKept(base.packages) && Proper(op)
    requires PlanOf(satisfies, op, base, now).Packages?
    ensures WellKept(PlanOf(satisfies, op, base, now).packages)
  {
    var packages := base.packages;
    hide Strip, Newer, ValidSet, ReconcileAll, OwnHistory, DistinctBy;
    match op
    case Install(manifest, enabled) =>
      AddIsWellKept(packages, Record(manifest, enabled, [], now, now));
    case SetEnabled(id, on) =>
      var r := packages[Find(packages, id)];
      Found(packages, id);
      SameHistory(r, r.(enabled := on, updatedAt := now));
      hide Replace;
      ReplaceKeeps(packages, r.(enabled := on, updatedAt := now));
    case Upgrade(manifest) =>
      var r := packages[Find(packages, manifest.id)];
      Found(packages, manifest.id);
      UpgradedIsOwn(r, manifest, now);
      hide Replace, Upgraded;
      ReplaceKeeps(packages, Upgraded(r, manifest, now));
    case Rollback(id, version) =>
      var r := packages[Find(packages, id)];
      Found(packages, id);
      RolledBackIsOwn(r, RollbackTarget(r.history, version), now);
      hide Replace, RolledBack;
      ReplaceKeeps(packages, RolledBack(r, RollbackTarget(r.history, version), now));
    case Uninstall(id) =>
      RemoveKeeps(packages, id);
      hide Remove;
    case Reconcile(manifests, disableMissing) =>
      ReconcileKeeps(satisfies, packages, manifests, disableMissing, now);
      var p := ReconcileAll(satisfies, packages, manifests, disableMissing, now);
      hide WellKept;
      HalfwayIsWellKept(packages, manifests, disableMissing, p, now);
      var all := p.records + FreshRecords(p.remaining, now);
      SortKeeps(RecordId, all);
      hide SortBy, Halfway;
      RecordsOrderless(all, SortBy(RecordId, all));
  }

  lemma AddIsWellKept(packages: seq<Record>, r: Record)
    requires WellKept(packages) && r.history == []
    requires Strip(r.manifest.id) == r.manifest.id && Find(packages, r.manifest.id) == |packages|
    ensures WellKept(packages + [r])
  {
    hide Strip;
    SnocDistinct(packages, r);
    hide DistinctBy;
  }

  /** Whatever an operation does, the catalog keeps distinct sorted ids, a valid enabled
      set and one generation for each revision; and it changes by at most one revision,
      whose generation goes after all earlier ones and is active. */
  lemma ResultKeepsInv(satisfies: Satisfies, op: Operation, base: Snapshot, now: int)
    requires Inv(satisfies, base) && Proper(op)
    ensures
      var next := After(satisfies, op, base, now);
      && Inv(satisfies, next)
      && (next == base
          || (&& next.revision == base.revision + 1
              && next.generations == base.generations + [Generation(next.activeId, Active(next.packages))]))
  {
    hide PlanOf, NextSnapshot, ValidSet, Active;
    var plan := PlanOf(satisfies, op, base, now);
    if plan.Packages? {
      PlanKeeps(satisfies, op, base, now);
      hide WellKept;
      if ValidSet(satisfies, Active(SortBy(RecordId, plan.packages))) {
        NextIsInv(satisfies, base, plan.packages);
      }
    }
  }

  // ---------------------------------------------------------------- undoing and repeating

  ghost predicate SameButTimes(a: seq<Record>, b: seq<Record>) {
    |a| == |b| && forall k :: 0 <= k < |a| ==> a[k].(updatedAt := 0) == b[k].(updatedAt := 0)
  }

  lemma {:induction false} SameActive(a: seq<Record>, b: seq<Record>)
    requires SameButTimes(a, b)
    ensures Active(a) == Active(b)
  {
    if a != [] {
      var i := |a| - 1;
      assert a[i].(updatedAt := 0) == b[i].(updatedAt := 0);
      assert a[..i] == a[..|a| - 1] && b[..i] == b[..|b| - 1];
      SameActive(a[..i], b[..i]);
    }
  }

  lemma FindAt(packages: seq<Record>, k: nat, id: string)
    requires DistinctBy(RecordId, packages) && k < |packages| && packages[k].manifest.id == Strip(id)
    ensures Find(packages, id) == k
  {
    hide Strip;
    var at := Find(packages, id);
    assert at <= k;
  }

  lemma ReplaceInPlace(packages: seq<Record>, k: nat, r: Record)
    requires SortedBy(RecordId, packages) && DistinctBy(RecordId, packages)
    requires k < |packages| && r.manifest.id == packages[k].manifest.id
    ensures Replace(packages, r) == packages[k := r]
    ensures SortBy(RecordId, Replace(packages, r)) == packages[k := r]
    ensures DistinctBy(RecordId, packages[k := r]) && SortedBy(RecordId, packages[k := r])
  {
    forall i | 0 <= i < |packages|
      ensures Replace(packages, r)[i] == packages[k := r][i]
    {
      if i != k {
        assert RecordId(packages[if i < k then i else k]) != RecordId(packages[if i < k then k else i]);
      }
    }
    var replaced := packages[k := r];
    assert forall i :: 0 <= i < |packages| ==> RecordId(replaced[i]) == RecordId(packages[i]);
    forall i, j | 0 <= i < j < |packages|
      ensures TextLe(RecordId(replaced[i]), RecordId(replaced[j])) && RecordId(replaced[i]) != RecordId(replaced[j])
    {
      assert RecordId(packages[i]) != RecordId(packages[j]);
    }
    SortOfSorted(RecordId, replaced);
  }

  lemma RollBackTwice(r: Record, now: int, later: int)
    requires r.history != []
    ensures
      var back := RolledBack(r, |r.history| - 1, now);
      && back.history != []
      && RolledBack(back, |back.history| - 1, later).(updatedAt := 0) == r.(updatedAt := 0)
  {
    var n := |r.history| - 1;
    var back := RolledBack(r, n, now);
    assert r.history[n + 1..] == [];
    assert back.history == r.history[..n] + [r.manifest];
    assert back.history[..n] == r.history[..n] && back.history[n + 1..] == [];
    assert r.history == r.history[..n] + [r.history[n]];
  }

  /** The record a default rollback leaves in place of the one it finds. */
  function Back(r: Record, now: int): Record
    requires r.history != []
  {
    RolledBack(r, |r.history| - 1, now)
  }

  lemma RollbackPlan(satisfies: Satisfies, base: Snapshot, id: string, now: int)
    requires Find(base.packages, id) < |base.packages|
    ensures
      var r := base.packages[Find(base.packages, id)];
      PlanOf(satisfies, Rollback(id, ""), base, now)
        == if r.history == [] then Rejected(NothingToRollBack) else Packages(Replace(base.packages, Back(r, now)))
  {
    hide Strip, Replace, RolledBack, ValidSet;
  }

  /** What a default rollback does to the catalog, when the result is valid. */
  lemma RollbackOnce(satisfies: Satisfies, base: Snapshot, id: string, now: int, k: nat)
    requires SortedBy(RecordId, base.packages) && DistinctBy(RecordId, base.packages)
    requires k < |base.packages| && base.packages[k].manifest.id == Strip(id) && base.packages[k].history != []
    requires OwnHistory(base.packages[k])
    ensures
      var packages := base.packages[k := Back(base.packages[k], now)];
      && SortedBy(RecordId, packages) && DistinctBy(RecordId, packages)
      && (Result(satisfies, Rollback(id, ""), base, now).Returned? <==> ValidSet(satisfies, Active(packages)))
      && (ValidSet(satisfies, Active(packages)) ==> After(satisfies, Rollback(id, ""), base, now).packages == packages)
  {
    hide Strip, ValidSet, Active;
    var r := base.packages[k];
    FindAt(base.packages, k, id);
    RollbackPlan(satisfies, base, id, now);
    RolledBackIsOwn(r, |r.history| - 1, now);
    ReplaceInPlace(base.packages, k, Back(r, now));
    hide RolledBack, SortBy, OwnHistory, SortedBy, DistinctBy, Replace, PlanOf, Back, Find;
  }

  lemma BackIsOwn(r: Record, now: int)
    requires OwnHistory(r) && r.history != []
    ensures OwnHistory(Back(r, now)) && Back(r, now).history != [] && Back(r, now).manifest.id == r.manifest.id
  {
    hide OwnHistory;
    RolledBackIsOwn(r, |r.history| - 1, now);
  }

  /** Rolling back twice to the latest version restores every record, times apart. */
  lemma RollbackTwiceRestores(satisfies: Satisfies, base: Snapshot, id: string, now: int, later: int)
    requires Inv(satisfies, base) && Result(satisfies, Rollback(id, ""), base, now).Returned?
    ensures
      var once := After(satisfies, Rollback(id, ""), base, now);
      && Result(satisfies, Rollback(id, ""), once, later).Returned?
      && SameButTimes(base.packages, After(satisfies, Rollback(id, ""), once, later).packages)
  {
    hide ValidSet, Active, Strip, Chained, SortedBy, DistinctBy, Replace, SortBy, OwnHistory, NextSnapshot, RolledBack;
    var packages := base.packages;
    var k := Find(packages, id);
    assert k < |packages|;
    RollbackPlan(satisfies, base, id, now);
    var r := packages[k];
    assert r in packages;
    RollbackOnce(satisfies, base, id, now, k);
    BackIsOwn(r, now);
    var once := After(satisfies, Rollback(id, ""), base, now);
    hide PlanOf, Inv, WellKept;
    assert once.packages[k] == Back(r, now);
    RollbackOnce(satisfies, once, id, later, k);
    RollBackTwice(r, now, later);
    BackAgain(packages, k, now, later);
    SameActive(packages, packages[k := Back(Back(r, now), later)]);
    ValidActive(satisfies, base);
    assert once.packages[k := Back(Back(r, now), later)] == packages[k := Back(Back(r, now), later)];
  }

  lemma BackAgain(packages: seq<Record>, k: nat, now: int, later: int)
    requires k < |packages| && packages[k].history != [] && Back(packages[k], now).history != []
    ensures SameButTimes(packages, packages[k := Back(Back(packages[k], now), later)])
  {
    RollBackTwice(packages[k], now, later);
    hide RolledBack;
  }

  lemma ValidActive(satisfies: Satisfies, s: Snapshot)
    requires Inv(satisfies, s)
    ensures ValidSet(satisfies, Active(s.packages))
  {
  }

  /** All manifests a record holds, current and past. */
  function Holdings(r: Record): multiset<Manifest> {
    multiset(r.history) + multiset{r.manifest}
  }

  /** A rollback to any entry moves manifests about and loses none; an upgrade adds
      exactly the new one. */
  lemma RecordChangesHoldings(r: Record, at: nat, manifest: Manifest, now: int)
    requires OwnHistory(r)
    ensures at < |r.history| ==> Holdings(RolledBack(r, at, now)) == Holdings(r) && RolledBack(r, at, now).manifest == r.history[at]
    ensures Holdings(Upgraded(r, manifest, now)) == Holdings(r) + multiset{manifest}
  {
    hide OwnHistory;
    if at < |r.history| {
      RolledBackIsOwn(r, at, now);
    }
  }

  /** What reconciliation adds to a record's manifests: the new one if it is an upgrade,
      otherwise nothing. */
  lemma ReconcileKeepsHoldings(satisfies: Satisfies, r: Record, manifest: Manifest, now: int)
    requires OwnHistory(r) && ReconcileRecord(satisfies, r, manifest, now).Kept?
    ensures
      var kept := ReconcileRecord(satisfies, r, manifest, now).r;
      var upgrades := r.manifest != manifest && Newer(satisfies, manifest.version, r.manifest.version);
      Holdings(kept) == if upgrades then Holdings(r) + multiset{manifest} else Holdings(r)
  {
    hide OwnHistory, Newer;
    var at := FindManifest(r.history, manifest);
    RecordChangesHoldings(r, at, manifest, now);
    hide RolledBack;
    if at < |r.history| {
      var back := RolledBack(r, at, now);
      assert Holdings(back.(enabled := true)) == Holdings(back);
    }
  }

  lemma SavedPackages(satisfies: Satisfies, base: Snapshot, op: Operation, now: int, packages: seq<Record>)
    requires PlanOf(satisfies, op, base, now) == Packages(packages) && Result(satisfies, op, base, now).Returned?
    ensures After(satisfies, op, base, now).packages == SortBy(RecordId, packages)
  {
    hide ValidSet, Active, PlanOf, SortBy;
  }

  lemma PlaceOfRecord(satisfies: Satisfies, base: Snapshot, k: nat, r: Record)
    requires Inv(satisfies, base) && k < |base.packages| && r.manifest.id == base.packages[k].manifest.id
    ensures SortBy(RecordId, Replace(base.packages, r)) == base.packages[k := r]
  {
    hide ValidSet, Active, Chained;
    ReplaceInPlace(base.packages, k, r);
  }

  /** Enabling and disabling change that one flag of that one record. */
  lemma SetEnabledChangesOneFlag(satisfies: Satisfies, base: Snapshot, id: string, on: bool, now: int)
    requires Inv(satisfies, base) && Result(satisfies, SetEnabled(id, on), base, now).Returned?
    ensures
      var after, k := After(satisfies, SetEnabled(id, on), base, now), Find(base.packages, id);
      && k < |base.packages| && |after.packages| == |base.packages|
      && after.packages == base.packages[k := base.packages[k].(enabled := on, updatedAt := after.packages[k].updatedAt)]
  {
    hide Strip, ValidSet, Active, Chained, Replace, SortBy, WellKept, SortedBy;
    var k := Find(base.packages, id);
    if base.packages[k].enabled != on {
      var r := base.packages[k].(enabled := on, updatedAt := now);
      SavedPackages(satisfies, base, SetEnabled(id, on), now, Replace(base.packages, r));
      PlaceOfRecord(satisfies, base, k, r);
    }
  }

  /** An upgrade puts the new manifest in place of the old, which joins the history. */
  lemma UpgradeChangesOneRecord(satisfies: Satisfies, base: Snapshot, manifest: Manifest, now: int)
    requires Inv(satisfies, base) && Proper(Operation.Upgrade(manifest))
    requires Result(satisfies, Operation.Upgrade(manifest), base, now).Returned?
    ensures
      var after, k := After(satisfies, Operation.Upgrade(manifest), base, now), Find(base.packages, manifest.id);
      && k < |base.packages| && Newer(satisfies, manifest.version, base.packages[k].manifest.version)
      && after.packages == base.packages[k := Upgraded(base.packages[k], manifest, now)]
      && Holdings(after.packages[k]) == Holdings(base.packages[k]) + multiset{manifest}
  {
    hide Strip, ValidSet, Active, Chained, Replace, SortBy, SortedBy, Newer;
    var k := Find(base.packages, manifest.id);
    assert base.packages[k] in base.packages;
    RecordChangesHoldings(base.packages[k], |base.packages[k].history|, manifest, now);
    hide Upgraded, WellKept, OwnHistory, RolledBack;
    UpgradedId(base.packages[k], manifest, now);
    var r := Upgraded(base.packages[k], manifest, now);
    SavedPackages(satisfies, base, Operation.Upgrade(manifest), now, Replace(base.packages, r));
    PlaceOfRecord(satisfies, base, k, r);
  }

  lemma UpgradedId(r: Record, manifest: Manifest, now: int)
    ensures Upgraded(r, manifest, now).manifest == manifest
  {
  }

  /** A rollback brings back a manifest of the history, of the version asked for if one
      was, and keeps all manifests of the record. */
  lemma RollbackChangesOneRecord(satisfies: Satisfies, base: Snapshot, id: string, version: string, now: int)
    requires Inv(satisfies, base) && Result(satisfies, Rollback(id, version), base, now).Returned?
    ensures
      var after, k := After(satisfies, Rollback(id, version), base, now), Find(base.packages, id);
      && k < |base.packages| && |after.packages| == |base.packages|
      && after.packages == base.packages[k := after.packages[k]]
      && after.packages[k].manifest in base.packages[k].history
      && (version != "" ==> after.packages[k].manifest.version == version)
      && after.packages[k].enabled == base.packages[k].enabled
      && Holdings(after.packages[k]) == Holdings(base.packages[k])
  {
    hide Strip, ValidSet, Active, Chained, Replace, SortBy, SortedBy;
    var k := Find(base.packages, id);
    var r := base.packages[k];
    assert r in base.packages;
    var target := RollbackTarget(r.history, version);
    assert r.history[target] in r.history;
    RecordChangesHoldings(r, target, r.manifest, now);
    RolledBackIsOwn(r, target, now);
    var back := RolledBack(r, target, now);
    assert back.enabled == r.enabled;
    hide RolledBack, WellKept, OwnHistory;
    SavedPackages(satisfies, base, Rollback(id, version), now, Replace(base.packages, back));
    PlaceOfRecord(satisfies, base, k, back);
  }

  // ---------------------------------------------------------------- reconciliation

  /** The catalog's records after a reconciliation with these manifests. */
  ghost predicate Reconciled(packages: seq<Record>, desired: seq<Manifest>, disableMissing: bool) {
    && WellKept(packages) && SortedBy(RecordId, packages)
    && (forall r :: r in packages ==> Agrees(r, desired, disableMissing))
    && (forall m :: m in desired ==> !Unrecorded(packages, m.id))
  }

  lemma AllAgree(packages: seq<Record>, desired: seq<Manifest>, disableMissing: bool, p: Progress, now: int)
    requires Halfway(packages, desired, disableMissing, p)
    ensures forall r :: r in p.records + FreshRecords(p.remaining, now) ==> Agrees(r, desired, disableMissing)
  {
    var added := FreshRecords(p.remaining, now);
    hide OwnHistory, DistinctBy;
    forall r | r in p.records + added
      ensures Agrees(r, desired, disableMissing)
    {
      if r !in p.records {
        var i :| 0 <= i < |added| && added[i] == r;
        assert r.manifest in p.remaining;
        assert Named(desired, r.manifest.id);
      }
    }
  }

  lemma AllRecorded(packages: seq<Record>, desired: seq<Manifest>, disableMissing: bool, p: Progress, now: int)
    requires Halfway(packages, desired, disableMissing, p)
    ensures forall m :: m in desired ==> !Unrecorded(p.records + FreshRecords(p.remaining, now), m.id)
  {
    var added := FreshRecords(p.remaining, now);
    var all := p.records + added;
    hide OwnHistory, DistinctBy, Agrees;
    forall m | m in desired
      ensures !Unrecorded(all, m.id)
    {
      if m in p.remaining {
        var i :| 0 <= i < |p.remaining| && p.remaining[i] == m;
        assert added[i] in all;
      } else {
        assert !Unrecorded(packages, m.id);
        var o :| o in packages && o.manifest.id == m.id;
        var i :| 0 <= i < |packages| && packages[i] == o;
        assert RecordId(p.records[i]) == RecordId(packages[i]);
        assert p.records[i] in all;
      }
    }
  }

  lemma HalfwayAgrees(packages: seq<Record>, desired: seq<Manifest>, disableMissing: bool, p: Progress, now: int)
    requires Halfway(packages, desired, disableMissing, p) && WellKept(packages)
    ensures Reconciled(SortBy(RecordId, p.records + FreshRecords(p.remaining, now)), desired, disableMissing)
  {
    HalfwayIsWellKept(packages, desired, disableMissing, p, now);
    AllAgree(packages, desired, disableMissing, p, now);
    AllRecorded(packages, desired, disableMissing, p, now);
    var all := p.records + FreshRecords(p.remaining, now);
    hide Halfway, WellKept, SortedBy, SortBy, Agrees, FreshRecords;
    SortKeeps(RecordId, all);
    RecordsOrderless(all, SortBy(RecordId, all));
    SameElements(all, SortBy(RecordId, all));
  }

  lemma StaysAsItIs(satisfies: Satisfies, r: Record, desired: seq<Manifest>, remaining: seq<Manifest>, disableMissing: bool, now: int)
    requires Agrees(r, desired, disableMissing) && DistinctBy(IdOf, desired)
    requires forall m :: m in remaining && m.id == r.manifest.id ==> m in desired
    requires Named(desired, r.manifest.id) ==> Named(remaining, r.manifest.id)
    ensures
      var at := FindId(remaining, r.manifest.id);
      if at == |remaining| then Missed(r, disableMissing, now) == r
      else ReconcileRecord(satisfies, r, remaining[at], now) == Kept(r)
  {
    var at := FindId(remaining, r.manifest.id);
    if at < |remaining| {
      assert remaining[at] in remaining;
      assert Named(desired, r.manifest.id);
      SameIdSameManifest(desired, r.manifest, remaining[at]);
    } else {
      assert !Named(remaining, r.manifest.id);
    }
  }

  lemma StillNamed(front: seq<Record>, last: Record, desired: seq<Manifest>, remaining: seq<Manifest>)
    requires LeftOver(front, desired, remaining) && Unrecorded(front, last.manifest.id)
    ensures Named(desired, last.manifest.id) ==> Named(remaining, last.manifest.id)
  {
    hide Unrecorded;
    if Named(desired, last.manifest.id) {
      var m :| m in desired && m.id == last.manifest.id;
      assert m in remaining;
    }
  }

  lemma {:induction false} SecondPassChangesNothing(
      satisfies: Satisfies, packages: seq<Record>, desired: seq<Manifest>, disableMissing: bool, now: int)
    requires WellKept(packages) && DistinctBy(IdOf, desired)
    requires forall r :: r in packages ==> Agrees(r, desired, disableMissing)
    ensures
      var p := ReconcileAll(satisfies, packages, desired, disableMissing, now);
      p.Going? && p.records == packages && LeftOver(packages, desired, p.remaining)
  {
    hide Agrees, ReconcileRecord, Missed, OwnHistory;
    if packages != [] {
      var front, last := packages[..|packages| - 1], packages[|packages| - 1];
      assert packages == front + [last];
      SnocDistinct(front, last);
      assert last in packages;
      hide DistinctBy;
      SecondPassChangesNothing(satisfies, front, desired, disableMissing, now);
      var p := ReconcileAll(satisfies, front, desired, disableMissing, now);
      assert ReconcileAll(satisfies, packages, desired, disableMissing, now) == ReconcileOne(satisfies, p, last, disableMissing, now);
      hide ReconcileAll;
      StillNamed(front, last, desired, p.remaining);
      StaysAsItIs(satisfies, last, desired, p.remaining, disableMissing, now);
      LeftOverShrinks(front, last, desired, p.remaining);
      hide LeftOver;
    }
  }

  lemma NothingLeft(packages: seq<Record>, desired: seq<Manifest>, remaining: seq<Manifest>)
    requires LeftOver(packages, desired, remaining)
    requires forall m :: m in desired ==> !Unrecorded(packages, m.id)
    ensures remaining == []
  {
    hide LeftOver, Unrecorded;
    if remaining != [] {
      LeftOverMember(packages, desired, remaining, 0);
    }
  }

  lemma LeftOverMember(packages: seq<Record>, desired: seq<Manifest>, remaining: seq<Manifest>, i: nat)
    requires LeftOver(packages, desired, remaining) && i < |remaining|
    ensures remaining[i] in desired && Unrecorded(packages, remaining[i].id)
  {
    assert remaining[i] in remaining;
  }

  lemma ReconcilePlanKeeps(satisfies: Satisfies, s: Snapshot, desired: seq<Manifest>, disableMissing: bool, now: int)
    requires Reconciled(s.packages, desired, disableMissing) && ValidSet(satisfies, desired)
    ensures PlanOf(satisfies, Operation.Reconcile(desired, disableMissing), s, now) == Keep
  {
    SecondPassChangesNothing(satisfies, s.packages, desired, disableMissing, now);
    var p := ReconcileAll(satisfies, s.packages, desired, disableMissing, now);
    hide ReconcileAll, WellKept, DistinctBy, Agrees;
    NothingLeft(s.packages, desired, p.remaining);
    SortOfSorted(RecordId, s.packages);
    assert s.packages + FreshRecords(p.remaining, now) == s.packages;
  }

  /** Reconciling again with the same manifests, at any later time, changes nothing. */
  lemma ReconcileIsIdempotent(
      satisfies: Satisfies, base: Snapshot, desired: seq<Manifest>, disableMissing: bool, now: int, later: int)
    requires Inv(satisfies, base)
    requires Result(satisfies, Operation.Reconcile(desired, disableMissing), base, now).Returned?
    ensures
      var once := After(satisfies, Operation.Reconcile(desired, disableMissing), base, now);
      Result(satisfies, Operation.Reconcile(desired, disableMissing), once, later) == Returned(once)
  {
    ReconcileNeedsValid(satisfies, base, desired, disableMissing, now);
    ReconcileReconciles(satisfies, base, desired, disableMissing, now);
    var once := After(satisfies, Operation.Reconcile(desired, disableMissing), base, now);
    hide PlanOf, ValidSet, Reconciled, After;
    ReconcilePlanKeeps(satisfies, once, desired, disableMissing, later);
  }

  lemma ReconcileNeedsValid(satisfies: Satisfies, base: Snapshot, desired: seq<Manifest>, disableMissing: bool, now: int)
    requires Result(satisfies, Operation.Reconcile(desired, disableMissing), base, now).Returned?
    ensures ValidSet(satisfies, desired) && ReconcileAll(satisfies, base.packages, desired, disableMissing, now).Going?
  {
    hide ValidSet, ReconcileAll, SortBy, Active, NextSnapshot;
  }

  lemma ReconcileReconciles(satisfies: Satisfies, base: Snapshot, desired: seq<Manifest>, disableMissing: bool, now: int)
    requires Inv(satisfies, base)
    requires Result(satisfies, Operation.Reconcile(desired, disableMissing), base, now).Returned?
    ensures Reconciled(
      After(satisfies, Operation.Reconcile(desired, disableMissing), base, now).packages, desired, disableMissing)
  {
    ReconcileNeedsValid(satisfies, base, desired, disableMissing, now);
    hide ValidSet, Active, Chained, ReconcileAll, DistinctBy;
    var p := ReconcileAll(satisfies, base.packages, desired, disableMissing, now);
    ReconcileKeeps(satisfies, base.packages, desired, disableMissing, now);
    hide Halfway, WellKept, SortBy, SortedBy;
    HalfwayAgrees(base.packages, desired, disableMissing, p, now);
    SortedAgain(SortBy(RecordId, p.records + FreshRecords(p.remaining, now)), desired, disableMissing);
    hide Reconciled;
    ReconcilePackages(satisfies, base, desired, disableMissing, now);
  }

  lemma ReconcilePackages(satisfies: Satisfies, base: Snapshot, desired: seq<Manifest>, disableMissing: bool, now: int)
    requires Result(satisfies, Operation.Reconcile(desired, disableMissing), base, now).Returned?
    requires ReconcileAll(satisfies, base.packages, desired, disableMissing, now).Going?
    ensures
      var p := ReconcileAll(satisfies, base.packages, desired, disableMissing, now);
      var normalized := SortBy(RecordId, p.records + FreshRecords(p.remaining, now));
      var after := After(satisfies, Operation.Reconcile(desired, disableMissing), base, now);
      after.packages == normalized || after.packages == SortBy(RecordId, normalized)
  {
    hide ValidSet, ReconcileAll, SortBy, Active, DistinctBy;
  }

  lemma SortedAgain(packages: seq<Record>, desired: seq<Manifest>, disableMissing: bool)
    requires Reconciled(packages, desired, disableMissing)
    ensures SortBy(RecordId, packages) == packages
  {
    SortOfSorted(RecordId, packages);
  }

  lemma {:induction false} ActiveMembers(packages: seq<Record>, m: Manifest)
    ensures m in Active(packages) <==> exists r :: r in packages && r.enabled && r.manifest == m
  {
    if packages != [] {
      var front, last := packages[..|packages| - 1], packages[|packages| - 1];
      ActiveMembers(front, m);
      assert packages == front + [last];
      assert last in packages;
    }
  }

  lemma AboveActive(packages: seq<Record>, active: seq<Manifest>, last: Record)
    requires DistinctBy(RecordId, packages + [last]) && SortedBy(RecordId, packages + [last])
    requires forall m :: m in active ==> exists r :: r in packages && r.manifest.id == m.id
    requires DistinctBy(IdOf, active) && SortedBy(IdOf, active)
    ensures DistinctBy(IdOf, active + [last.manifest]) && SortedBy(IdOf, active + [last.manifest])
  {
    var all := packages + [last];
    forall i | 0 <= i < |active|
      ensures TextLe(IdOf(active[i]), IdOf(last.manifest)) && IdOf(active[i]) != IdOf(last.manifest)
    {
      assert active[i] in active;
      var r :| r in packages && r.manifest.id == active[i].id;
      var k :| 0 <= k < |packages| && packages[k] == r;
      assert RecordId(all[k]) != RecordId(all[|packages|]);
    }
  }

  lemma {:induction false} ActiveKeepsOrder(packages: seq<Record>)
    requires DistinctBy(RecordId, packages) && SortedBy(RecordId, packages)
    ensures DistinctBy(IdOf, Active(packages)) && SortedBy(IdOf, Active(packages))
    ensures forall m :: m in Active(packages) ==> exists r :: r in packages && r.manifest.id == m.id
  {
    if packages != [] {
      var front, last := packages[..|packages| - 1], packages[|packages| - 1];
      assert packages == front + [last];
      FrontKeeps(RecordId, packages);
      ActiveKeepsOrder(front);
      AboveActive(front, Active(front), last);
      ActiveSnoc(packages);
      hide Active, DistinctBy, SortedBy;
      assert Active(front) + [] == Active(front);
      assert last in packages;
      forall m | m in Active(packages)
        ensures exists r :: r in packages && r.manifest.id == m.id
      {
        if m in Active(front) {
          var r :| r in front && r.manifest.id == m.id;
          assert r in packages;
        }
      }
    }
  }

  lemma ActiveSnoc(packages: seq<Record>)
    requires packages != []
    ensures
      var last := packages[|packages| - 1];
      Active(packages) == Active(packages[..|packages| - 1]) + (if last.enabled then [last.manifest] else [])
  {
  }

  lemma ActiveIsDesired(packages: seq<Record>, desired: seq<Manifest>, m: Manifest)
    requires Reconciled(packages, desired, true) && DistinctBy(IdOf, desired)
    ensures m in Active(packages) <==> m in desired
  {
    ActiveMembers(packages, m);
    hide Active, SortedBy, WellKept, DistinctBy;
    if m in desired {
      assert !Unrecorded(packages, m.id);
      var r :| r in packages && r.manifest.id == m.id;
      assert Named(desired, r.manifest.id);
      assert Agrees(r, desired, true);
      SameIdSameManifest(desired, r.manifest, m);
    }
    if exists r :: r in packages && r.enabled && r.manifest == m {
      var r :| r in packages && r.enabled && r.manifest == m;
      assert Agrees(r, desired, true);
    }
  }

  lemma ReconciledActive(packages: seq<Record>, desired: seq<Manifest>)
    requires Reconciled(packages, desired, true) && DistinctBy(IdOf, desired)
    ensures Active(packages) == SortBy(IdOf, desired)
  {
    ActiveKeepsOrder(packages);
    hide SortBy, SortedBy, WellKept, Active, Reconciled, DistinctBy;
    SortKeeps(IdOf, desired);
    DistinctIsOrderless(IdOf, desired, SortBy(IdOf, desired));
    SameElements(desired, SortBy(IdOf, desired));
    forall m
      ensures m in Active(packages) <==> m in desired
    {
      ActiveIsDesired(packages, desired, m);
    }
    SortedIsUnique(IdOf, Active(packages), SortBy(IdOf, desired));
  }

  /** After a reconciliation that disables the rest, the enabled manifests are exactly
      the desired ones. */
  lemma ReconcileActivatesDesired(satisfies: Satisfies, base: Snapshot, desired: seq<Manifest>, now: int)
    requires Inv(satisfies, base)
    requires Result(satisfies, Operation.Reconcile(desired, true), base, now).Returned?
    ensures Active(After(satisfies, Operation.Reconcile(desired, true), base, now).packages) == SortBy(IdOf, desired)
  {
    ReconcileNeedsValid(satisfies, base, desired, true, now);
    ReconcileReconciles(satisfies, base, desired, true, now);
    hide Inv, Result, After;
    ReconciledActive(After(satisfies, Operation.Reconcile(desired, true), base, now).packages, desired);
  }

  // ---------------------------------------------------------------- ids with blanks

  lemma FindsNothing(packages: seq<Record>, id: string)
    ensures Find(packages, id) == |packages| <==> Unrecorded(packages, Strip(id))
  {
    hide Strip;
    var at := Find(packages, id);
    if at < |packages| {
      assert packages[at] in packages;
    }
  }

  lemma UninstallPackages(satisfies: Satisfies, base: Snapshot, id: string, now: int)
    requires Result(satisfies, Operation.Uninstall(id), base, now).Returned?
    ensures
      var after := After(satisfies, Operation.Uninstall(id), base, now);
      && Find(base.packages, id) < |base.packages|
      && after.revision == base.revision + 1 && after.packages == SortBy(RecordId, Remove(base.packages, id))
  {
    hide Strip, ValidSet, Active, Remove, SortBy, Find;
    assert Find(base.packages, id) != |base.packages|;
  }

  /** An uninstall that is accepted removes the package it looked up only when its id
      was given without blanks around it. */
  lemma UninstallRemoves(satisfies: Satisfies, base: Snapshot, id: string, now: int)
    requires Result(satisfies, Operation.Uninstall(id), base, now).Returned?
    ensures
      var after := After(satisfies, Operation.Uninstall(id), base, now);
      && after.revision == base.revision + 1
      && (Find(after.packages, id) == |after.packages| <==> Strip(id) == id)
  {
    UninstallPackages(satisfies, base, id, now);
    var after := After(satisfies, Operation.Uninstall(id), base, now);
    RemoveKeeps(base.packages, id);
    SortKeeps(RecordId, Remove(base.packages, id));
    SameElements(Remove(base.packages, id), after.packages);
    FindsNothing(base.packages, id);
    FindsNothing(after.packages, id);
    hide Strip, Remove, SortBy, SortedBy, DistinctBy, Find, After, Result;
  }

  lemma InstallAccepted(satisfies: Satisfies, base: Snapshot, manifest: Manifest, enabled: bool, now: int)
    requires Find(base.packages, manifest.id) == |base.packages|
    requires ValidSet(satisfies, Active(SortBy(RecordId, base.packages + [Record(manifest, enabled, [], now, now)])))
    ensures Result(satisfies, Operation.Install(manifest, enabled), base, now).Returned?
    ensures After(satisfies, Operation.Install(manifest, enabled), base, now).packages
         == SortBy(RecordId, base.packages + [Record(manifest, enabled, [], now, now)])
  {
    hide ValidSet, SortBy, Active, Find;
  }

  lemma {:induction false} NoneActive(packages: seq<Record>)
    requires forall r :: r in packages ==> !r.enabled
    ensures Active(packages) == []
  {
    if packages != [] {
      assert packages[|packages| - 1] in packages;
      NoneActive(packages[..|packages| - 1]);
    }
  }

  lemma AlikeIsSorted(packages: seq<Record>, r: Record)
    requires forall o :: o in packages ==> o == r
    ensures SortBy(RecordId, packages) == packages
  {
    TextLeIsTotal(r.manifest.id, r.manifest.id);
    forall i, j | 0 <= i < j < |packages|
      ensures TextLe(RecordId(packages[i]), RecordId(packages[j]))
    {
      assert packages[i] in packages && packages[j] in packages;
    }
    SortOfSorted(RecordId, packages);
  }

  lemma DisabledPair(r: Record)
    requires !r.enabled
    ensures SortBy(RecordId, [r]) == [r] && SortBy(RecordId, [r, r]) == [r, r]
    ensures Active([r]) == [] && Active([r, r]) == []
  {
    hide Active, SortBy;
    NoneActive([r]);
    NoneActive([r, r]);
    AlikeIsSorted([r], r);
    AlikeIsSorted([r, r], r);
  }

  /** A package whose id has blanks around it can be installed twice. */
  lemma PaddedIdInstallsTwice(satisfies: Satisfies, manifest: Manifest, now: int)
    requires Strip(manifest.id) != manifest.id
    ensures
      var once := After(satisfies, Operation.Install(manifest, false), EMPTY, now);
      var r := Record(manifest, false, [], now, now);
      && once.packages == [r]
      && After(satisfies, Operation.Install(manifest, false), once, now).packages == [r, r]
  {
    var r := Record(manifest, false, [], now, now);
    DisabledPair(r);
    FindsNothing([], manifest.id);
    FindsNothing([r], manifest.id);
    assert ValidSet(satisfies, []);
    hide Strip, SortBy, Active, Find, ValidSet, After, Result;
    assert [] + [r] == [r] && [r] + [r] == [r, r];
    InstallAccepted(satisfies, EMPTY, manifest, false, now);
    var once := After(satisfies, Operation.Install(manifest, false), EMPTY, now);
    assert once.packages == [r];
    InstallAccepted(satisfies, once, manifest, false, now);
  }

  lemma DistinctWhenSorted(packages: seq<Record>)
    ensures DistinctBy(RecordId, SortBy(RecordId, packages)) <==> DistinctBy(RecordId, packages)
  {
    SortKeeps(RecordId, packages);
    hide SortBy, DistinctBy, SortedBy;
    if DistinctBy(RecordId, packages) {
      DistinctIsOrderless(RecordId, packages, SortBy(RecordId, packages));
    }
    if DistinctBy(RecordId, SortBy(RecordId, packages)) {
      DistinctIsOrderless(RecordId, SortBy(RecordId, packages), packages);
    }
  }

  lemma InstallPackages(satisfies: Satisfies, base: Snapshot, manifest: Manifest, enabled: bool, now: int)
    requires Result(satisfies, Operation.Install(manifest, enabled), base, now).Returned?
    ensures After(satisfies, Operation.Install(manifest, enabled), base, now).packages
         == SortBy(RecordId, base.packages + [Record(manifest, enabled, [], now, now)])
  {
    hide Strip, ValidSet, Active, SortBy, Find;
  }

  /** An accepted installation keeps ids distinct exactly when the catalog did not list
      the id, blanks and all, before. */
  lemma InstallKeepsIdsDistinct(satisfies: Satisfies, base: Snapshot, manifest: Manifest, enabled: bool, now: int)
    requires Inv(satisfies, base) && Result(satisfies, Operation.Install(manifest, enabled), base, now).Returned?
    ensures DistinctBy(RecordId, After(satisfies, Operation.Install(manifest, enabled), base, now).packages)
      <==> Unrecorded(base.packages, manifest.id)
  {
    var r := Record(manifest, enabled, [], now, now);
    InstallPackages(satisfies, base, manifest, enabled, now);
    hide ValidSet, Active, SortBy, DistinctBy, SortedBy, Strip, Result, After, Chained;
    SnocDistinct(base.packages, r);
    DistinctWhenSorted(base.packages + [r]);
  }

  // ---------------------------------------------------------------- managers that race

  /** A manager loads the catalog, and at some later time attempts an operation on
      what it loaded; other managers may save in between. */
  datatype Event = Load(manager: nat) | Attempt(manager: nat, op: Operation, now: int)

  datatype System = System(store: Snapshot, bases: map<nat, Snapshot>)

  ghost predicate Saves(satisfies: Satisfies, sys: System, e: Event) {
    && e.Attempt? && e.manager in sys.bases
    && var base := sys.bases[e.manager];
       var plan := PlanOf(satisfies, e.op, base, e.now);
       && plan.Packages? && ValidSet(satisfies, Active(SortBy(RecordId, plan.packages)))
       && sys.store.revision == base.revision
  }

  ghost function Step(satisfies: Satisfies, sys: System, e: Event): System {
    if e.Load? then sys.(bases := sys.bases[e.manager := sys.store])
    else if Saves(satisfies, sys, e) then
      sys.(store := NextSnapshot(sys.bases[e.manager], PlanOf(satisfies, e.op, sys.bases[e.manager], e.now).packages))
    else sys
  }

  ghost function RunAll(satisfies: Satisfies, sys: System, events: seq<Event>): System
    decreases |events|
  {
    if events == [] then sys
    else Step(satisfies, RunAll(satisfies, sys, events[..|events| - 1]), events[|events| - 1])
  }

  /** A loaded base is the store itself, or older. */
  ghost predicate Consistent(sys: System) {
    forall m :: m in sys.bases ==>
      sys.bases[m].revision <= sys.store.revision && (sys.bases[m].revision == sys.store.revision ==> sys.bases[m] == sys.store)
  }

  lemma StepIsConsistent(satisfies: Satisfies, sys: System, e: Event)
    requires Consistent(sys)
    ensures
      var next := Step(satisfies, sys, e);
      && Consistent(next) && sys.store.revision <= next.store.revision
      && (Saves(satisfies, sys, e) ==>
            && sys.bases[e.manager] == sys.store && next.store == After(satisfies, e.op, sys.store, e.now)
            && next.store.revision == sys.store.revision + 1)
      && (!Saves(satisfies, sys, e) ==> next.store == sys.store)
  {
    hide PlanOf, ValidSet, Active, SortBy;
  }

  lemma {:induction false} RunIsConsistent(satisfies: Satisfies, sys: System, events: seq<Event>)
    requires Consistent(sys)
    ensures Consistent(RunAll(satisfies, sys, events))
    ensures sys.store.revision <= RunAll(satisfies, sys, events).store.revision
  {
    hide Step, Consistent;
    if events != [] {
      RunIsConsistent(satisfies, sys, events[..|events| - 1]);
      StepIsConsistent(satisfies, RunAll(satisfies, sys, events[..|events| - 1]), events[|events| - 1]);
    }
  }

  /** No update is lost: the store is what the saved operations make one after the other. */
  ghost function InTurn(satisfies: Satisfies, start: Snapshot, saved: seq<Event>): Snapshot
    requires forall i :: 0 <= i < |saved| ==> saved[i].Attempt?
    decreases |saved|
  {
    if saved == [] then start
    else
      var last := saved[|saved| - 1];
      After(satisfies, last.op, InTurn(satisfies, start, saved[..|saved| - 1]), last.now)
  }

  ghost function SavedOf(satisfies: Satisfies, sys: System, events: seq<Event>): (saved: seq<Event>)
    ensures forall i :: 0 <= i < |saved| ==> saved[i].Attempt?
    decreases |events|
  {
    if events == [] then []
    else
      var front, last := events[..|events| - 1], events[|events| - 1];
      SavedOf(satisfies, sys, front) + (if Saves(satisfies, RunAll(satisfies, sys, front), last) then [last] else [])
  }

  lemma {:induction false} NoUpdateIsLost(satisfies: Satisfies, sys: System, events: seq<Event>)
    requires Consistent(sys)
    ensures RunAll(satisfies, sys, events).store == InTurn(satisfies, sys.store, SavedOf(satisfies, sys, events))
    ensures RunAll(satisfies, sys, events).store.revision == sys.store.revision + |SavedOf(satisfies, sys, events)|
  {
    hide Step, Consistent, Saves, After;
    if events != [] {
      var front, last := events[..|events| - 1], events[|events| - 1];
      NoUpdateIsLost(satisfies, sys, front);
      RunIsConsistent(satisfies, sys, front);
      var middle := RunAll(satisfies, sys, front);
      StepIsConsistent(satisfies, middle, last);
      var before, after := SavedOf(satisfies, sys, front), SavedOf(satisfies, sys, events);
      if Saves(satisfies, middle, last) {
        assert after == before + [last] && after[..|after| - 1] == before;
      } else {
        assert after == before;
      }
    }
  }

  /** Of two managers that loaded the same catalog, at most one saves: once the first has
      saved, an attempt of the second fails unless it loads again, whatever happens between. */
  lemma OneOfTwoSaves(satisfies: Satisfies, sys: System, first: Event, between: seq<Event>, second: Event)
    requires Consistent(sys) && first.Attempt? && second.Attempt?
    requires first.manager in sys.bases && second.manager in sys.bases
    requires sys.bases[first.manager] == sys.bases[second.manager]
    requires Saves(satisfies, sys, first)
    requires forall i :: 0 <= i < |between| ==> between[i] != Load(second.manager)
    ensures !Saves(satisfies, RunAll(satisfies, Step(satisfies, sys, first), between), second)
  {
    hide PlanOf, ValidSet, Active, SortBy, NextSnapshot;
    StepIsConsistent(satisfies, sys, first);
    RunIsConsistent(satisfies, Step(satisfies, sys, first), between);
    BaseStays(satisfies, Step(satisfies, sys, first), between, second.manager);
  }

  lemma {:induction false} BaseStays(satisfies: Satisfies, sys: System, events: seq<Event>, manager: nat)
    requires manager in sys.bases
    requires forall i :: 0 <= i < |events| ==> events[i] != Load(manager)
    ensures manager in RunAll(satisfies, sys, events).bases
    ensures RunAll(satisfies, sys, events).bases[manager] == sys.bases[manager]
  {
    hide Saves, NextSnapshot, PlanOf;
    if events != [] {
      BaseStays(satisfies, sys, events[..|events| - 1], manager);
    }
  }

  /** Every catalog that any number of managers, racing as they may, can bring about
      satisfies the invariant. */
  lemma {:induction false} EveryCatalogIsSound(satisfies: Satisfies, events: seq<Event>)
    requires forall i :: 0 <= i < |events| && events[i].Attempt? ==> Proper(events[i].op)
    ensures Inv(satisfies, RunAll(satisfies, System(EMPTY, map[]), events).store)
  {
    hide Inv, Step, Saves, Proper;
    if events == [] {
      EmptyIsInv(satisfies);
    } else {
      var front, last := events[..|events| - 1], events[|events| - 1];
      EveryCatalogIsSound(satisfies, front);
      var sys := System(EMPTY, map[]);
      RunIsConsistent(satisfies, sys, front) by { assert Consistent(sys); }
      var middle := RunAll(satisfies, sys, front);
      StepIsConsistent(satisfies, middle, last);
      if Saves(satisfies, middle, last) {
        SavesAttempts(satisfies, middle, last);
        ResultKeepsInv(satisfies, last.op, middle.store, last.now);
      }
    }
  }

  lemma SavesAttempts(satisfies: Satisfies, sys: System, e: Event)
    requires Saves(satisfies, sys, e)
    ensures e.Attempt?
  {
  }

  // ---------------------------------------------------------------- installing dependencies

  /** The catalog after installing manifests one after the other, enabled. */
  ghost function InstallAll(satisfies: Satisfies, base: Snapshot, items: seq<Manifest>, now: int): Snapshot
    decreases |items|
  {
    if items == [] then base
    else
      var last := items[|items| - 1];
      After(satisfies, Operation.Install(last, true), InstallAll(satisfies, base, items[..|items| - 1], now), now)
  }

  lemma PrefixIsClosed(items: seq<Manifest>, n: nat)
    requires DistinctBy(IdOf, items) && RequiredFirst(items, {}) && n <= |items|
    ensures ClosedPart(items[..n], items)
  {
    var part := items[..n];
    forall i, j | 0 <= i < j < |part|
      ensures IdOf(part[i]) != IdOf(part[j])
    {
      assert IdOf(items[i]) != IdOf(items[j]);
    }
    hide DistinctBy;
    forall m, d | m in part && d in m.dependencies
      ensures exists o :: o in part && o.id == d.id
    {
      var k :| 0 <= k < n && items[k] == m;
      assert CanInstall(items[k], {} + Ids(items[..k]));
      var o := FromIds(items[..k], d.id);
      assert o in part;
    }
  }

  lemma FreshAreWellKept(items: seq<Manifest>, now: int)
    requires DistinctBy(IdOf, items)
    ensures WellKept(FreshRecords(items, now))
    ensures forall r :: r in FreshRecords(items, now) ==> r.enabled && r.manifest in items
    ensures forall m :: m in items ==> Record(m, true, [], now, now) in FreshRecords(items, now)
  {
    var added := FreshRecords(items, now);
    assert [] + added == added;
    FreshKeeps([], items, now);
    forall m | m in items
      ensures Record(m, true, [], now, now) in added
    {
      var i :| 0 <= i < |items| && items[i] == m;
      assert added[i] == Record(m, true, [], now, now);
    }
    hide WellKept;
    forall r | r in added
      ensures r.enabled && r.manifest in items
    {
      var i :| 0 <= i < |added| && added[i] == r;
    }
  }

  /** The enabled manifests of freshly installed items are those items. */
  lemma FreshActive(items: seq<Manifest>, now: int)
    requires DistinctBy(IdOf, items)
    ensures
      var packages := SortBy(RecordId, FreshRecords(items, now));
      && WellKept(packages) && SortedBy(RecordId, packages) && DistinctBy(IdOf, Active(packages))
      && (forall m :: m in Active(packages) <==> m in items)
      && (forall r :: r in packages ==> r.manifest in items)
  {
    var added := FreshRecords(items, now);
    var packages := SortBy(RecordId, added);
    FreshAreWellKept(items, now);
    hide FreshRecords, OwnHistory, SortBy;
    SortKeeps(RecordId, added);
    RecordsOrderless(added, packages);
    SameElements(added, packages);
    ActiveKeepsOrder(packages);
    hide Active, DistinctBy, SortedBy, WellKept;
    forall m
      ensures m in Active(packages) <==> m in items
    {
      ActiveMembers(packages, m);
    }
  }

  lemma FreshActiveIsValid(satisfies: Satisfies, items: seq<Manifest>, n: nat, now: int)
    requires ValidSet(satisfies, items) && RequiredFirst(items, {}) && n <= |items|
    ensures ValidSet(satisfies, Active(SortBy(RecordId, FreshRecords(items[..n], now))))
  {
    var part := Active(SortBy(RecordId, FreshRecords(items[..n], now)));
    PrefixIsClosed(items, n);
    FreshActive(items[..n], now);
    hide ValidSet, RequiredFirst, Active, SortBy, FreshRecords, DistinctBy;
    ClosedPartIsValid(satisfies, part, items);
  }

  lemma FreshSnoc(items: seq<Manifest>, n: nat, now: int)
    requires DistinctBy(IdOf, items) && n < |items|
    ensures
      var packages := SortBy(RecordId, FreshRecords(items[..n], now));
      SortBy(RecordId, packages + [Record(items[n], true, [], now, now)]) == SortBy(RecordId, FreshRecords(items[..n + 1], now))
  {
    var before, after := FreshRecords(items[..n], now), FreshRecords(items[..n + 1], now);
    var r := Record(items[n], true, [], now, now);
    assert after == before + [r];
    PrefixDistinct(items, n + 1);
    FreshAreWellKept(items[..n + 1], now);
    hide DistinctBy, FreshRecords, SortBy;
    SortKeeps(RecordId, before);
    assert multiset(after) == multiset(SortBy(RecordId, before) + [r]);
    SortIsOrderless(RecordId, after, SortBy(RecordId, before) + [r]);
  }

  lemma PrefixDistinct(items: seq<Manifest>, n: nat)
    requires DistinctBy(IdOf, items) && n <= |items|
    ensures DistinctBy(IdOf, items[..n])
  {
    forall i, j | 0 <= i < j < n
      ensures IdOf(items[..n][i]) != IdOf(items[..n][j])
    {
      assert IdOf(items[i]) != IdOf(items[j]);
    }
  }

  lemma NewToCatalog(items: seq<Manifest>, n: nat, now: int)
    requires DistinctBy(IdOf, items) && n < |items| && Strip(items[n].id) == items[n].id
    ensures
      var packages := SortBy(RecordId, FreshRecords(items[..n], now));
      Find(packages, items[n].id) == |packages|
  {
    hide Strip;
    PrefixDistinct(items, n);
    FreshActive(items[..n], now);
    var packages := SortBy(RecordId, FreshRecords(items[..n], now));
    hide SortBy, FreshRecords, Active;
    FindsNothing(packages, items[n].id);
    forall r | r in packages
      ensures r.manifest.id != items[n].id
    {
      assert r.manifest in items[..n];
      var k :| 0 <= k < n && items[k] == r.manifest;
      assert IdOf(items[k]) != IdOf(items[n]);
    }
  }

  lemma PrefixFacts(satisfies: Satisfies, items: seq<Manifest>, n: nat, now: int)
    requires ValidSet(satisfies, items) && RequiredFirst(items, {}) && n < |items|
    requires Strip(items[n].id) == items[n].id
    ensures
      var packages := SortBy(RecordId, FreshRecords(items[..n], now));
      var after := SortBy(RecordId, packages + [Record(items[n], true, [], now, now)]);
      && Find(packages, items[n].id) == |packages|
      && after == SortBy(RecordId, FreshRecords(items[..n + 1], now))
      && ValidSet(satisfies, Active(after))
  {
    hide Strip, RequiredFirst, SortBy, FreshRecords, Active, Find, DistinctBy, ValidSet;
    ValidIsDistinct(satisfies, items);
    NewToCatalog(items, n, now);
    FreshSnoc(items, n, now);
    FreshActiveIsValid(satisfies, items, n + 1, now);
  }

  /** A set of manifests that is valid as a whole can be installed into an empty catalog
      in dependency order: every single installation is accepted. */
  lemma {:induction false} DependenciesInstallInOrder(satisfies: Satisfies, items: seq<Manifest>, n: nat, now: int)
    requires ValidSet(satisfies, items) && RequiredFirst(items, {}) && n <= |items|
    requires forall m :: m in items ==> Strip(m.id) == m.id
    ensures InstallAll(satisfies, EMPTY, items[..n], now).packages == SortBy(RecordId, FreshRecords(items[..n], now))
    ensures n < |items| ==>
      Result(satisfies, Operation.Install(items[n], true), InstallAll(satisfies, EMPTY, items[..n], now), now).Returned?
    ensures forall m :: m in Active(InstallAll(satisfies, EMPTY, items[..n], now).packages) <==> m in items[..n]
  {
    hide Strip, ValidSet, RequiredFirst, SortBy, FreshRecords, Active, Result, After, Find;
    ValidIsDistinct(satisfies, items);
    hide DistinctBy;
    PrefixDistinct(items, n);
    FreshActive(items[..n], now);
    if n == 0 {
      NothingInstalled(items[..n], now);
    } else {
      assert items[..n][..n - 1] == items[..n - 1];
      DependenciesInstallInOrder(satisfies, items, n - 1, now);
      PrefixFacts(satisfies, items, n - 1, now);
      InstallAccepted(satisfies, InstallAll(satisfies, EMPTY, items[..n - 1], now), items[n - 1], true, now);
    }
    if n < |items| {
      PrefixFacts(satisfies, items, n, now);
      InstallAccepted(satisfies, InstallAll(satisfies, EMPTY, items[..n], now), items[n], true, now);
    }
  }

  lemma NothingInstalled(items: seq<Manifest>, now: int)
    requires items == []
    ensures SortBy(RecordId, FreshRecords(items, now)) == []
  {
  }

  lemma ValidIsDistinct(satisfies: Satisfies, items: seq<Manifest>)
    requires ValidSet(satisfies, items)
    ensures DistinctBy(IdOf, items)
  {
  }
}
