/** Which reconciliations are accepted, told from the catalog and the manifests asked for. */
module ReconciliationProperties {
  import opened PyText
  import opened Sorting
  import opened CapabilityManifest
  import opened CapabilityControl
  import opened CapabilityControlProperties

  /** A record may take a manifest that is its own, newer, or one of its history; never
      another one under its own version. */
  predicate MayTake(satisfies: Satisfies, r: Record, m: Manifest) {
    || m == r.manifest
    || (m.version != r.manifest.version && (Newer(satisfies, m.version, r.manifest.version) || m in r.history))
  }

  lemma TakenExactly(satisfies: Satisfies, r: Record, m: Manifest, now: int)
    ensures ReconcileRecord(satisfies, r, m, now).Kept? <==> MayTake(satisfies, r, m)
  {
  }

  ghost predicate AllMayTake(satisfies: Satisfies, packages: seq<Record>, desired: seq<Manifest>) {
    forall r, m :: r in packages && m in desired && r.manifest.id == m.id ==> MayTake(satisfies, r, m)
  }

  lemma AllSnoc(satisfies: Satisfies, front: seq<Record>, last: Record, desired: seq<Manifest>)
    ensures AllMayTake(satisfies, front + [last], desired)
       <==> && AllMayTake(satisfies, front, desired)
            && forall m :: m in desired && m.id == last.manifest.id ==> MayTake(satisfies, last, m)
  {
    hide MayTake;
    assert forall r :: r in front + [last] <==> r in front || r == last;
  }

  /** The manifest left for a record is the one that was asked for under its id. */
  lemma LeftForRecord(front: seq<Record>, last: Record, desired: seq<Manifest>, remaining: seq<Manifest>)
    requires LeftOver(front, desired, remaining) && Unrecorded(front, last.manifest.id) && DistinctBy(IdOf, desired)
    ensures
      var at := FindId(remaining, last.manifest.id);
      && (at == |remaining| <==> !Named(desired, last.manifest.id))
      && (at < |remaining| ==>
            remaining[at] in desired && forall m :: m in desired && m.id == last.manifest.id ==> m == remaining[at])
  {
    var at := FindId(remaining, last.manifest.id);
    hide Unrecorded;
    if at < |remaining| {
      assert remaining[at] in remaining;
      forall m | m in desired && m.id == last.manifest.id
        ensures m == remaining[at]
      {
        SameIdSameManifest(desired, m, remaining[at]);
      }
      assert Named(desired, remaining[at].id);
    }
  }

  /** The loop over the records gets through exactly when each may take what is asked of it. */
  lemma {:induction false} GoesThroughExactly(
      satisfies: Satisfies, packages: seq<Record>, desired: seq<Manifest>, disableMissing: bool, now: int)
    requires WellKept(packages) && DistinctBy(IdOf, desired)
    ensures ReconcileAll(satisfies, packages, desired, disableMissing, now).Going? <==> AllMayTake(satisfies, packages, desired)
  {
    if packages != [] {
      hide WellKept, OwnHistory, DistinctBy, MayTake, ReconcileRecord, Missed;
      var front, last := packages[..|packages| - 1], packages[|packages| - 1];
      FrontIsWellKept(packages);
      AllSnoc(satisfies, front, last, desired);
      GoesThroughExactly(satisfies, front, desired, disableMissing, now);
      var p := ReconcileAll(satisfies, front, desired, disableMissing, now);
      assert ReconcileAll(satisfies, packages, desired, disableMissing, now) == ReconcileOne(satisfies, p, last, disableMissing, now);
      hide ReconcileAll, AllMayTake;
      if p.Going? {
        ReconcileKeeps(satisfies, front, desired, disableMissing, now);
        assert LeftOver(front, desired, p.remaining);
        hide Halfway;
        LeftForRecord(front, last, desired, p.remaining);
        var at := FindId(p.remaining, last.manifest.id);
        if at < |p.remaining| {
          TakenExactly(satisfies, last, p.remaining[at], now);
        }
        hide LeftOver, Unrecorded;
      }
    }
  }

  // ---------------------------------------------------------------- what is enabled afterwards

  /** The enabled manifests of packages that are not asked for. */
  ghost function Untouched(packages: seq<Record>, desired: seq<Manifest>): seq<Manifest> {
    if packages == [] then []
    else
      var last := packages[|packages| - 1];
      Untouched(packages[..|packages| - 1], desired)
        + (if last.enabled && !Named(desired, last.manifest.id) then [last.manifest] else [])
  }

  /** What a reconciliation enables: the manifests asked for, and what it leaves enabled. */
  ghost function EnabledAfter(packages: seq<Record>, desired: seq<Manifest>, disableMissing: bool): seq<Manifest> {
    desired + (if disableMissing then [] else Untouched(packages, desired))
  }

  lemma {:induction false} UntouchedMembers(packages: seq<Record>, desired: seq<Manifest>, m: Manifest)
    ensures m in Untouched(packages, desired)
       <==> !Named(desired, m.id) && exists r :: r in packages && r.enabled && r.manifest == m
  {
    hide Named;
    if packages != [] {
      var front, last := packages[..|packages| - 1], packages[|packages| - 1];
      UntouchedMembers(front, desired, m);
      assert packages == front + [last];
      assert last in packages;
    }
  }

  lemma {:induction false} UntouchedIsDistinct(packages: seq<Record>, desired: seq<Manifest>)
    requires DistinctBy(RecordId, packages)
    ensures DistinctBy(IdOf, Untouched(packages, desired))
  {
    hide Named;
    if packages != [] {
      var front, last := packages[..|packages| - 1], packages[|packages| - 1];
      assert packages == front + [last];
      FrontDistinct(front, last);
      UntouchedIsDistinct(front, desired);
      var rest := Untouched(front, desired);
      forall m | m in rest
        ensures m.id != last.manifest.id
      {
        UntouchedMembers(front, desired, m);
        var r :| r in front && r.enabled && r.manifest == m;
        assert Unrecorded(front, last.manifest.id);
      }
      hide DistinctBy, Unrecorded;
      DistinctGrows(rest, last.manifest);
      assert rest + [] == rest;
    }
  }

  lemma FrontDistinct(front: seq<Record>, last: Record)
    requires DistinctBy(RecordId, front + [last])
    ensures DistinctBy(RecordId, front) && Unrecorded(front, last.manifest.id)
  {
    var all := front + [last];
    assert forall i :: 0 <= i < |front| ==> all[i] == front[i];
    forall r | r in front
      ensures r.manifest.id != last.manifest.id
    {
      var i :| 0 <= i < |front| && front[i] == r;
      assert RecordId(all[i]) != RecordId(all[|front|]);
    }
  }

  lemma EnabledIsDistinct(packages: seq<Record>, desired: seq<Manifest>, disableMissing: bool)
    requires DistinctBy(RecordId, packages) && DistinctBy(IdOf, desired)
    ensures DistinctBy(IdOf, EnabledAfter(packages, desired, disableMissing))
  {
    var others: seq<Manifest> := if disableMissing then [] else Untouched(packages, desired);
    UntouchedIsDistinct(packages, desired);
    forall m | m in others
      ensures !Named(desired, m.id)
    {
      UntouchedMembers(packages, desired, m);
    }
    var all := desired + others;
    forall i, j | 0 <= i < j < |all|
      ensures IdOf(all[i]) != IdOf(all[j])
    {
      if j < |desired| {
        assert IdOf(desired[i]) != IdOf(desired[j]);
      } else if i < |desired| {
        assert others[j - |desired|] in others && desired[i] in desired;
      } else {
        assert IdOf(others[i - |desired|]) != IdOf(others[j - |desired|]);
      }
    }
  }

  /** Records that are not asked for stay as they are, when the rest is not disabled. */
  lemma {:induction false} UnnamedStay(satisfies: Satisfies, packages: seq<Record>, desired: seq<Manifest>, now: int, i: nat)
    requires WellKept(packages) && DistinctBy(IdOf, desired)
    requires ReconcileAll(satisfies, packages, desired, false, now).Going?
    requires i < |packages| && !Named(desired, packages[i].manifest.id)
    ensures
      var records := ReconcileAll(satisfies, packages, desired, false, now).records;
      |records| == |packages| && records[i].manifest == packages[i].manifest && records[i].enabled == packages[i].enabled
  {
    hide WellKept, OwnHistory, DistinctBy, ReconcileRecord, Named;
    var front, last := packages[..|packages| - 1], packages[|packages| - 1];
    FrontIsWellKept(packages);
    var p := ReconcileAll(satisfies, front, desired, false, now);
    assert ReconcileAll(satisfies, packages, desired, false, now) == ReconcileOne(satisfies, p, last, false, now);
    StoppedBefore(satisfies, p, last, false, now);
    ReconcileKeeps(satisfies, front, desired, false, now);
    assert |p.records| == |front| && LeftOver(front, desired, p.remaining);
    hide Halfway;
    if i < |front| {
      UnnamedStay(satisfies, front, desired, now, i);
      hide LeftOver;
    } else {
      LeftForRecord(front, last, desired, p.remaining);
      hide LeftOver;
    }
    hide ReconcileAll;
  }

  lemma EnabledMember(
      satisfies: Satisfies, packages: seq<Record>, desired: seq<Manifest>, disableMissing: bool, now: int,
      normalized: seq<Record>, m: Manifest)
    requires WellKept(packages) && DistinctBy(IdOf, desired)
    requires ReconcileAll(satisfies, packages, desired, disableMissing, now).Going?
    requires
      var p := ReconcileAll(satisfies, packages, desired, disableMissing, now);
      && Halfway(packages, desired, disableMissing, p)
      && normalized == SortBy(RecordId, p.records + FreshRecords(p.remaining, now))
    requires CapabilityControlProperties.Reconciled(normalized, desired, disableMissing)
    ensures m in Active(normalized) <==> m in EnabledAfter(packages, desired, disableMissing)
  {
    var p := ReconcileAll(satisfies, packages, desired, disableMissing, now);
    ActiveMembers(normalized, m);
    UntouchedMembers(packages, desired, m);
    hide ReconcileAll, Active, Untouched, WellKept, SortedBy, DistinctBy, SortBy, OwnHistory, LeftOver;
    if m in Active(normalized) {
      var r :| r in normalized && r.enabled && r.manifest == m;
      assert Agrees(r, desired, disableMissing);
      if !Named(desired, m.id) {
        hide Named;
        UnnamedComesFrom(satisfies, packages, desired, now, normalized, r);
      } else {
        SameManifestAsDesired(r, desired, disableMissing);
      }
    }
    if m in desired {
      DesiredIsEnabled(normalized, desired, disableMissing, m);
    } else if m in EnabledAfter(packages, desired, disableMissing) {
      var r :| r in packages && r.enabled && r.manifest == m;
      hide Named, CapabilityControlProperties.Reconciled;
      UnnamedGoesTo(satisfies, packages, desired, now, normalized, r);
    }
  }

  lemma SameManifestAsDesired(r: Record, desired: seq<Manifest>, disableMissing: bool)
    requires Agrees(r, desired, disableMissing) && Named(desired, r.manifest.id)
    ensures r.manifest in desired
  {
  }

  lemma DesiredIsEnabled(normalized: seq<Record>, desired: seq<Manifest>, disableMissing: bool, m: Manifest)
    requires CapabilityControlProperties.Reconciled(normalized, desired, disableMissing) && DistinctBy(IdOf, desired) && m in desired
    ensures exists r :: r in normalized && r.enabled && r.manifest == m
  {
    hide WellKept, SortedBy, DistinctBy;
    assert !Unrecorded(normalized, m.id);
    var r :| r in normalized && r.manifest.id == m.id;
    assert Named(desired, r.manifest.id) && Agrees(r, desired, disableMissing);
    SameIdSameManifest(desired, r.manifest, m);
  }

  lemma FreshAreNamed(desired: seq<Manifest>, remaining: seq<Manifest>, now: int)
    requires forall m :: m in remaining ==> m in desired
    ensures forall r :: r in FreshRecords(remaining, now) ==> Named(desired, r.manifest.id)
  {
    var added := FreshRecords(remaining, now);
    forall r | r in added
      ensures Named(desired, r.manifest.id)
    {
      var i :| 0 <= i < |added| && added[i] == r;
      assert remaining[i] in remaining;
    }
  }

  lemma UnnamedComesFrom(
      satisfies: Satisfies, packages: seq<Record>, desired: seq<Manifest>, now: int, normalized: seq<Record>, r: Record)
    requires WellKept(packages) && DistinctBy(IdOf, desired)
    requires ReconcileAll(satisfies, packages, desired, false, now).Going?
    requires
      var p := ReconcileAll(satisfies, packages, desired, false, now);
      && Halfway(packages, desired, false, p)
      && normalized == SortBy(RecordId, p.records + FreshRecords(p.remaining, now))
    requires r in normalized && !Named(desired, r.manifest.id)
    ensures exists o :: o in packages && o.enabled == r.enabled && o.manifest == r.manifest
  {
    var p := ReconcileAll(satisfies, packages, desired, false, now);
    var all := p.records + FreshRecords(p.remaining, now);
    hide ReconcileAll, SortBy, SortedBy, WellKept, DistinctBy, Agrees, OwnHistory;
    SortKeeps(RecordId, all);
    SameElements(all, normalized);
    FreshAreNamed(desired, p.remaining, now);
    var i :| 0 <= i < |p.records| && p.records[i] == r;
    assert RecordId(p.records[i]) == RecordId(packages[i]);
    UnnamedStay(satisfies, packages, desired, now, i);
    assert packages[i] in packages;
  }

  lemma UnnamedGoesTo(
      satisfies: Satisfies, packages: seq<Record>, desired: seq<Manifest>, now: int, normalized: seq<Record>, r: Record)
    requires WellKept(packages) && DistinctBy(IdOf, desired)
    requires ReconcileAll(satisfies, packages, desired, false, now).Going?
    requires
      var p := ReconcileAll(satisfies, packages, desired, false, now);
      && Halfway(packages, desired, false, p)
      && normalized == SortBy(RecordId, p.records + FreshRecords(p.remaining, now))
    requires r in packages && !Named(desired, r.manifest.id)
    ensures exists o :: o in normalized && o.enabled == r.enabled && o.manifest == r.manifest
  {
    var p := ReconcileAll(satisfies, packages, desired, false, now);
    var all := p.records + FreshRecords(p.remaining, now);
    hide ReconcileAll, SortBy, SortedBy, WellKept, DistinctBy, Agrees, OwnHistory, Halfway, Named;
    SortKeeps(RecordId, all);
    SameElements(all, normalized);
    var i :| 0 <= i < |packages| && packages[i] == r;
    UnnamedStay(satisfies, packages, desired, now, i);
    assert all[i] in all;
  }

  /** The enabled set after a reconciliation, before it is checked, is the one expected. */
  lemma EnabledAsExpected(
      satisfies: Satisfies, packages: seq<Record>, desired: seq<Manifest>, disableMissing: bool, now: int)
    requires WellKept(packages) && DistinctBy(IdOf, desired)
    requires ReconcileAll(satisfies, packages, desired, disableMissing, now).Going?
    ensures
      var p := ReconcileAll(satisfies, packages, desired, disableMissing, now);
      var normalized := SortBy(RecordId, p.records + FreshRecords(p.remaining, now));
      && SortBy(RecordId, normalized) == normalized
      && (ValidSet(satisfies, Active(normalized)) <==> ValidSet(satisfies, EnabledAfter(packages, desired, disableMissing)))
  {
    var p := ReconcileAll(satisfies, packages, desired, disableMissing, now);
    var normalized := SortBy(RecordId, p.records + FreshRecords(p.remaining, now));
    var enabled := EnabledAfter(packages, desired, disableMissing);
    ReconcileKeeps(satisfies, packages, desired, disableMissing, now);
    hide ReconcileAll, Halfway, Active, SortBy, SortedBy, EnabledAfter, ValidSet;
    HalfwayAgrees(packages, desired, disableMissing, p, now);
    SortedAgain(normalized, desired, disableMissing);
    EnabledIsDistinct(packages, desired, disableMissing);
    forall m
      ensures m in Active(normalized) <==> m in enabled
    {
      EnabledMember(satisfies, packages, desired, disableMissing, now, normalized, m);
    }
    ActiveKeepsOrder(normalized);
    hide CapabilityControlProperties.Reconciled, WellKept, DistinctBy;
    SameSet(satisfies, Active(normalized), enabled);
  }

  lemma SameSet(satisfies: Satisfies, sorted: seq<Manifest>, ms: seq<Manifest>)
    requires DistinctBy(IdOf, sorted) && SortedBy(IdOf, sorted) && DistinctBy(IdOf, ms)
    requires forall m :: m in sorted <==> m in ms
    ensures ValidSet(satisfies, sorted) <==> ValidSet(satisfies, ms)
  {
    hide SortBy, SortedBy, ValidSet, DistinctBy;
    SortKeeps(IdOf, ms);
    DistinctIsOrderless(IdOf, ms, SortBy(IdOf, ms));
    SameElements(ms, SortBy(IdOf, ms));
    SortedIsUnique(IdOf, sorted, SortBy(IdOf, ms));
    if ValidSet(satisfies, sorted) {
      ValidSetIsOrderless(satisfies, sorted, ms);
    }
    if ValidSet(satisfies, ms) {
      ValidSetIsOrderless(satisfies, ms, sorted);
    }
  }

  lemma ReconcileOutcome(satisfies: Satisfies, base: Snapshot, desired: seq<Manifest>, disableMissing: bool, now: int)
    ensures
      var p := ReconcileAll(satisfies, base.packages, desired, disableMissing, now);
      Result(satisfies, Operation.Reconcile(desired, disableMissing), base, now).Returned? <==>
        && ValidSet(satisfies, desired) && p.Going?
        && var normalized := SortBy(RecordId, p.records + FreshRecords(p.remaining, now));
           normalized == base.packages || ValidSet(satisfies, Active(SortBy(RecordId, normalized)))
  {
    assert ValidSet(satisfies, desired) ==> DistinctBy(IdOf, desired);
    hide ValidSet, ReconcileAll, Active, SortBy, DistinctBy, NextSnapshot, FreshRecords;
  }

  /** A reconciliation is accepted exactly when the manifests asked for are valid by
      themselves, every record may take the one under its id, and the set that is then
      enabled is valid. */
  lemma ReconcileAcceptedExactly(
      satisfies: Satisfies, base: Snapshot, desired: seq<Manifest>, disableMissing: bool, now: int)
    requires Inv(satisfies, base)
    ensures Result(satisfies, Operation.Reconcile(desired, disableMissing), base, now).Returned?
       <==> && ValidSet(satisfies, desired)
            && AllMayTake(satisfies, base.packages, desired)
            && ValidSet(satisfies, EnabledAfter(base.packages, desired, disableMissing))
  {
    assert ValidSet(satisfies, desired) ==> DistinctBy(IdOf, desired);
    hide AllMayTake, ReconcileAll, EnabledAfter, ValidSet, DistinctBy, WellKept, SortedBy, Active, SortBy, Chained, Result;
    ReconcileOutcome(satisfies, base, desired, disableMissing, now);
    if ValidSet(satisfies, desired) {
      GoesThroughExactly(satisfies, base.packages, desired, disableMissing, now);
      if ReconcileAll(satisfies, base.packages, desired, disableMissing, now).Going? {
        EnabledAsExpected(satisfies, base.packages, desired, disableMissing, now);
      }
    }
  }

  /** With the rest disabled, the records alone decide. */
  lemma ReconcileNeedsOnlyRecords(satisfies: Satisfies, base: Snapshot, desired: seq<Manifest>, now: int)
    requires Inv(satisfies, base) && ValidSet(satisfies, desired)
    ensures Result(satisfies, Operation.Reconcile(desired, true), base, now).Returned?
       <==> AllMayTake(satisfies, base.packages, desired)
  {
    hide Inv, ValidSet, Result, AllMayTake;
    assert EnabledAfter(base.packages, desired, true) == desired;
    ReconcileAcceptedExactly(satisfies, base, desired, true, now);
  }

  // ---------------------------------------------------------------- what each record becomes

  /** The record that has taken a manifest: unchanged but enabled, if it is its own; with its
      own manifest joining the history, as the last, if it is newer; and otherwise the same
      once the first equal entry has left the history. */
  ghost predicate Takes(satisfies: Satisfies, r: Record, m: Manifest, taken: Record, now: int) {
    if m == r.manifest then taken == if r.enabled then r else Record(m, true, r.history, r.installedAt, now)
    else if satisfies(m.version, ">" + r.manifest.version) then
      taken == Record(m, true, r.history + [r.manifest], r.installedAt, now)
    else
      exists at :: 0 <= at < |r.history| && r.history[at] == m && m !in r.history[..at]
        && taken == Record(m, true, r.history[..at] + r.history[at + 1..] + [r.manifest], r.installedAt, now)
  }

  lemma TakesExactly(satisfies: Satisfies, r: Record, m: Manifest, now: int)
    requires ReconcileRecord(satisfies, r, m, now).Kept?
    ensures Takes(satisfies, r, m, ReconcileRecord(satisfies, r, m, now).r, now)
  {
    FirstEqual(r.history, m);
  }

  lemma {:induction false} FirstEqual(history: seq<Manifest>, m: Manifest)
    ensures m !in history[..FindManifest(history, m)]
  {
    if history != [] && history[0] != m {
      FirstEqual(history[1..], m);
      assert history[..FindManifest(history, m)] == [history[0]] + history[1..][..FindManifest(history[1..], m)];
    }
  }

  /** What becomes of the record: it takes the manifest asked for under its id; when there is
      none, it stays, or is disabled if the rest is to be. */
  ghost predicate Becomes(
      satisfies: Satisfies, r: Record, desired: seq<Manifest>, disableMissing: bool, now: int, after: Record)
  {
    if Named(desired, r.manifest.id) then
      exists m :: m in desired && m.id == r.manifest.id && Takes(satisfies, r, m, after, now)
    else after == if disableMissing && r.enabled then r.(enabled := false, updatedAt := now) else r
  }

  lemma {:induction false} EachRecordBecomes(
      satisfies: Satisfies, packages: seq<Record>, desired: seq<Manifest>, disableMissing: bool, now: int, i: nat)
    requires WellKept(packages) && DistinctBy(IdOf, desired) && i < |packages|
    requires ReconcileAll(satisfies, packages, desired, disableMissing, now).Going?
    ensures
      var records := ReconcileAll(satisfies, packages, desired, disableMissing, now).records;
      |records| == |packages| && Becomes(satisfies, packages[i], desired, disableMissing, now, records[i])
  {
    hide WellKept, OwnHistory, DistinctBy, ReconcileRecord, Named, Becomes;
    var front, last := packages[..|packages| - 1], packages[|packages| - 1];
    FrontIsWellKept(packages);
    var p := ReconcileAll(satisfies, front, desired, disableMissing, now);
    assert ReconcileAll(satisfies, packages, desired, disableMissing, now) == ReconcileOne(satisfies, p, last, disableMissing, now);
    StoppedBefore(satisfies, p, last, disableMissing, now);
    ReconcileKeeps(satisfies, front, desired, disableMissing, now);
    assert |p.records| == |front| && LeftOver(front, desired, p.remaining);
    hide Halfway;
    if i < |front| {
      EachRecordBecomes(satisfies, front, desired, disableMissing, now, i);
    } else {
      LeftForRecord(front, last, desired, p.remaining);
      LastBecomes(satisfies, p, last, desired, disableMissing, now);
    }
    hide LeftOver, ReconcileAll;
  }

  lemma LastBecomes(satisfies: Satisfies, p: Progress, last: Record, desired: seq<Manifest>, disableMissing: bool, now: int)
    requires p.Going? && ReconcileOne(satisfies, p, last, disableMissing, now).Going?
    requires
      var at := FindId(p.remaining, last.manifest.id);
      && (at == |p.remaining| <==> !Named(desired, last.manifest.id))
      && (at < |p.remaining| ==> p.remaining[at] in desired)
    ensures
      var records := ReconcileOne(satisfies, p, last, disableMissing, now).records;
      |records| == |p.records| + 1 && Becomes(satisfies, last, desired, disableMissing, now, records[|p.records|])
  {
    hide Named, ReconcileRecord, Takes;
    var at := FindId(p.remaining, last.manifest.id);
    if at < |p.remaining| {
      TakesExactly(satisfies, last, p.remaining[at], now);
    }
  }

  /** The whole catalog after an accepted reconciliation: each record there was, as it becomes,
      and a new record for each manifest asked for that had none; nothing else, and by id. */
  lemma ReconciledCatalogExactly(
      satisfies: Satisfies, base: Snapshot, desired: seq<Manifest>, disableMissing: bool, now: int)
      returns (records: seq<Record>, added: seq<Manifest>)
    requires Inv(satisfies, base)
    requires Result(satisfies, Operation.Reconcile(desired, disableMissing), base, now).Returned?
    ensures |records| == |base.packages|
    ensures forall i :: 0 <= i < |records| ==> Becomes(satisfies, base.packages[i], desired, disableMissing, now, records[i])
    ensures DistinctBy(IdOf, added)
    ensures forall m :: m in added <==> m in desired && forall r :: r in base.packages ==> r.manifest.id != m.id
    ensures
      var after := After(satisfies, Operation.Reconcile(desired, disableMissing), base, now);
      && SortedBy(RecordId, after.packages)
      && multiset(after.packages)
           == multiset(records) + multiset(seq(|added|, i requires 0 <= i < |added| => Record(added[i], true, [], now, now)))
  {
    ReconcileNeedsValid(satisfies, base, desired, disableMissing, now);
    ReconcilePackages(satisfies, base, desired, disableMissing, now);
    hide ReconcileAll, ValidSet, WellKept, SortedBy, Active, SortBy, Chained, Result, After, DistinctBy, Becomes;
    var p := ReconcileAll(satisfies, base.packages, desired, disableMissing, now);
    records, added := p.records, p.remaining;
    ReconcileKeeps(satisfies, base.packages, desired, disableMissing, now);
    forall i | 0 <= i < |base.packages|
      ensures |records| == |base.packages| && Becomes(satisfies, base.packages[i], desired, disableMissing, now, records[i])
    {
      EachRecordBecomes(satisfies, base.packages, desired, disableMissing, now, i);
    }
    var normalized := SortBy(RecordId, records + FreshRecords(added, now));
    SortKeeps(RecordId, records + FreshRecords(added, now));
    SortOfSorted(RecordId, normalized);
  }

  // ---------------------------------------------------------------- why a reconciliation is refused

  lemma StopsAtFirst(
      satisfies: Satisfies, packages: seq<Record>, desired: seq<Manifest>, disableMissing: bool, now: int, k: nat, m: Manifest)
    requires WellKept(packages) && DistinctBy(IdOf, desired) && k < |packages| && AllMayTake(satisfies, packages[..k], desired)
    requires m in desired && m.id == packages[k].manifest.id && !MayTake(satisfies, packages[k], m)
    ensures ReconcileAll(satisfies, packages, desired, disableMissing, now)
         == Stopped(if m.version == packages[k].manifest.version then ContentChanged else CannotSelect)
  {
    hide ReconcileAll, WellKept, DistinctBy, AllMayTake, OwnHistory, MayTake;
    PrefixIsWellKept(packages, k + 1);
    StopsAtLast(satisfies, packages[..k + 1], packages[..k], packages[k], desired, disableMissing, now, m);
    StoppedStays(satisfies, packages, k + 1, desired, disableMissing, now);
  }

  lemma StopsAtLast(
      satisfies: Satisfies, packages: seq<Record>, front: seq<Record>, r: Record, desired: seq<Manifest>, disableMissing: bool,
      now: int, m: Manifest)
    requires packages == front + [r] && WellKept(packages) && DistinctBy(IdOf, desired) && AllMayTake(satisfies, front, desired)
    requires m in desired && m.id == r.manifest.id && !MayTake(satisfies, r, m)
    ensures ReconcileAll(satisfies, packages, desired, disableMissing, now)
         == Stopped(if m.version == r.manifest.version then ContentChanged else CannotSelect)
  {
    hide WellKept, DistinctBy, AllMayTake, OwnHistory, Halfway, LeftOver, ReconcileRecord;
    assert packages[..|packages| - 1] == front;
    FrontIsWellKept(packages);
    GoesThroughExactly(satisfies, front, desired, disableMissing, now);
    var p := ReconcileAll(satisfies, front, desired, disableMissing, now);
    assert ReconcileAll(satisfies, packages, desired, disableMissing, now) == ReconcileOne(satisfies, p, r, disableMissing, now);
    hide ReconcileAll;
    LeftByFront(satisfies, front, desired, disableMissing, now);
    LeftForRecord(front, r, desired, p.remaining);
    assert Named(desired, m.id);
    RefusedFor(satisfies, r, m, now);
  }

  lemma LeftByFront(satisfies: Satisfies, front: seq<Record>, desired: seq<Manifest>, disableMissing: bool, now: int)
    requires WellKept(front) && DistinctBy(IdOf, desired)
    requires ReconcileAll(satisfies, front, desired, disableMissing, now).Going?
    ensures LeftOver(front, desired, ReconcileAll(satisfies, front, desired, disableMissing, now).remaining)
  {
    hide WellKept, DistinctBy, LeftOver, ReconcileAll;
    ReconcileKeeps(satisfies, front, desired, disableMissing, now);
  }

  lemma RefusedFor(satisfies: Satisfies, r: Record, m: Manifest, now: int)
    requires !MayTake(satisfies, r, m)
    ensures ReconcileRecord(satisfies, r, m, now)
         == Unacceptable(if m.version == r.manifest.version then ContentChanged else CannotSelect)
  {
  }

  lemma PrefixIsWellKept(packages: seq<Record>, n: nat)
    requires WellKept(packages) && n <= |packages|
    ensures WellKept(packages[..n])
  {
    var front := packages[..n];
    assert forall i :: 0 <= i < n ==> front[i] == packages[i];
    hide OwnHistory;
  }

  /** A reconciliation is refused for ids given twice, for a set that is not valid, for the
      first record that may not take its manifest, which has changed under the same version or
      is neither newer nor of the history, or for a set then enabled that is not valid. */
  lemma ReconcileRefusedFor(
      satisfies: Satisfies, base: Snapshot, desired: seq<Manifest>, disableMissing: bool, now: int, k: nat, m: Manifest)
    requires Inv(satisfies, base) && k <= |base.packages| && AllMayTake(satisfies, base.packages[..k], desired)
    requires k < |base.packages| ==> m in desired && m.id == base.packages[k].manifest.id && !MayTake(satisfies, base.packages[k], m)
    ensures
      var result := Result(satisfies, Operation.Reconcile(desired, disableMissing), base, now);
      if !DistinctBy(IdOf, desired) then result == Failed(DuplicateIds)
      else if !ValidSet(satisfies, desired) then result == Failed(InvalidSet)
      else if k < |base.packages| then
        result == Failed(if m.version == base.packages[k].manifest.version then ContentChanged else CannotSelect)
      else result.Returned? || result == Failed(InvalidSet)
  {
    hide MayTake, ValidSet, ReconcileAll, Active, SortBy, SortedBy, WellKept, Chained, NextSnapshot, FreshRecords;
    if DistinctBy(IdOf, desired) {
      hide DistinctBy;
      if k < |base.packages| {
        StopsAtFirst(satisfies, base.packages, desired, disableMissing, now, k, m);
      } else {
        assert base.packages[..k] == base.packages;
        GoesThroughExactly(satisfies, base.packages, desired, disableMissing, now);
      }
      hide AllMayTake;
    }
  }
}
