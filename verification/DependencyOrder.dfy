/** The order in which a package's dependencies are installed. */
module DependencyOrder {
  import opened Sorting
  import opened CapabilityManifest

  type Supply = map<string, Manifest>

  datatype Ordering = Ordered(items: seq<Manifest>) | Missing(ids: set<string>) | Cyclic(ids: set<string>)

  function Ids(ms: seq<Manifest>): set<string> {
    set m | m in ms :: IdOf(m)
  }

  /** The supplied manifests by id, the last one for each, without the root's own. */
  function Available(root: Manifest, supplied: seq<Manifest>): (supply: Supply)
    ensures forall id :: id in supply ==> supply[id].id == id && supply[id] in supplied && id != root.id
    ensures forall m :: m in supplied && m.id != root.id ==> m.id in supply
  {
    if supplied == [] then map[]
    else
      var last := supplied[|supplied| - 1];
      var earlier := Available(root, supplied[..|supplied| - 1]);
      if last.id == root.id then earlier else earlier[last.id := last]
  }

  /** What is supplied under an id is the manifest that comes last, unless the id is the root's. */
  lemma {:induction false} LastIsSupplied(root: Manifest, supplied: seq<Manifest>, i: nat)
    requires i < |supplied| && supplied[i].id != root.id
    requires forall j :: i < j < |supplied| ==> supplied[j].id != supplied[i].id
    ensures supplied[i].id in Available(root, supplied) && Available(root, supplied)[supplied[i].id] == supplied[i]
    decreases |supplied|
  {
    var n := |supplied| - 1;
    if i < n {
      LastIsSupplied(root, supplied[..n], i);
    }
  }

  // ---------------------------------------------------------------- reachability

  /** Each package of the walk requires the next. */
  ghost predicate Walk(supply: Supply, p: seq<string>) {
    forall i :: 0 <= i < |p| - 1 ==> p[i] in supply && RequiresId(supply[p[i]], p[i + 1])
  }

  ghost predicate PathTo(root: Manifest, supply: Supply, p: seq<string>, id: string) {
    p != [] && RequiresId(root, p[0]) && p[|p| - 1] == id && Walk(supply, p)
  }

  ghost predicate Reachable(root: Manifest, supply: Supply, id: string) {
    exists p :: PathTo(root, supply, p, id)
  }

  /** Some walk from the package comes to a package twice. */
  ghost predicate Circles(supply: Supply, id: string) {
    exists p, i, j :: CircleOn(supply, p, id, i, j)
  }

  ghost predicate CircleOn(supply: Supply, p: seq<string>, id: string, i: int, j: int) {
    Walk(supply, p) && p != [] && p[0] == id && 0 <= i < j < |p| && p[i] == p[j]
  }

  lemma DirectIsReachable(root: Manifest, supply: Supply, id: string)
    requires RequiresId(root, id)
    ensures Reachable(root, supply, id)
  {
    assert PathTo(root, supply, [id], id);
  }

  lemma NextIsReachable(root: Manifest, supply: Supply, id: string, next: string)
    requires Reachable(root, supply, id) && id in supply && RequiresId(supply[id], next)
    ensures Reachable(root, supply, next)
  {
    var p :| PathTo(root, supply, p, id);
    var q := p + [next];
    forall i | 0 <= i < |q| - 1
      ensures q[i] in supply && RequiresId(supply[q[i]], q[i + 1])
    {
      if i < |p| - 1 {
        assert q[i] == p[i] && q[i + 1] == p[i + 1];
      }
    }
    assert PathTo(root, supply, q, next);
  }

  /** A set that holds what the root requires, and what its own packages require, holds all that is reachable. */
  lemma {:induction false} ClosedHoldsPath(root: Manifest, supply: Supply, found: set<string>, p: seq<string>, id: string)
    requires forall x :: RequiresId(root, x) ==> x in found
    requires forall x, y :: x in found && x in supply && RequiresId(supply[x], y) ==> y in found
    requires PathTo(root, supply, p, id)
    ensures id in found
  {
    if |p| > 1 {
      var front := p[..|p| - 1];
      assert forall i :: 0 <= i < |front| ==> front[i] == p[i];
      ClosedHoldsPath(root, supply, found, front, front[|front| - 1]);
    }
  }

  function RequiredIds(m: Manifest): seq<string> {
    seq(|m.dependencies|, i requires 0 <= i < |m.dependencies| => m.dependencies[i].id)
  }

  lemma RequiredIdsAreRequired(m: Manifest, id: string)
    ensures id in RequiredIds(m) <==> RequiresId(m, id)
  {
    if RequiresId(m, id) {
      var d :| d in m.dependencies && d.id == id;
      var i :| 0 <= i < |m.dependencies| && m.dependencies[i] == d;
      assert RequiredIds(m)[i] == id;
    }
  }

  /** What the worklist has found so far is reachable, and nothing reachable is left
      out once the frontier is empty. */
  ghost predicate Found(
      root: Manifest, supply: Supply, selected: seq<Manifest>, missing: set<string>, frontier: seq<string>)
  {
    && DistinctBy(IdOf, selected)
    && (forall m :: m in selected ==> m.id in supply && supply[m.id] == m && Reachable(root, supply, m.id))
    && (forall id :: id in missing ==> id !in supply && Reachable(root, supply, id))
    && (forall id :: id in frontier ==> Reachable(root, supply, id))
    && (forall id :: RequiresId(root, id) ==> id in Ids(selected) + missing || id in frontier)
    && (forall m, id :: m in selected && RequiresId(m, id) ==> id in Ids(selected) + missing || id in frontier)
  }

  lemma IdsGrow(ms: seq<Manifest>, m: Manifest)
    ensures Ids(ms + [m]) == Ids(ms) + {m.id}
  {
    assert forall o :: o in ms + [m] <==> o in ms || o == m;
    assert IdOf(m) == m.id;
    forall id | id in Ids(ms) + {m.id}
      ensures id in Ids(ms + [m])
    {
      if id == m.id {
        assert m in ms + [m];
      } else {
        var o :| o in ms && IdOf(o) == id;
        assert o in ms + [m];
      }
    }
  }

  lemma StartFound(root: Manifest, supply: Supply)
    ensures Found(root, supply, [], {}, RequiredIds(root))
  {
    hide Reachable, RequiresId, RequiredIds;
    forall id
      ensures id in RequiredIds(root) <==> RequiresId(root, id)
    {
      RequiredIdsAreRequired(root, id);
    }
    forall id | id in RequiredIds(root)
      ensures Reachable(root, supply, id)
    {
      DirectIsReachable(root, supply, id);
    }
  }

  lemma PopFound(
      root: Manifest, supply: Supply, selected: seq<Manifest>, missing: set<string>, frontier: seq<string>, id: string)
    requires Found(root, supply, selected, missing, frontier + [id])
    ensures Reachable(root, supply, id)
    ensures id in Ids(selected) ==> Found(root, supply, selected, missing, frontier)
    ensures id !in supply ==> Found(root, supply, selected, missing + {id}, frontier)
  {
    hide Reachable, RequiresId, IdOf, Ids, DistinctBy;
    assert id in frontier + [id];
    forall x
      ensures x in frontier + [id] <==> x in frontier || x == id
    {
    }
  }

  lemma SelectFound(
      root: Manifest, supply: Supply, selected: seq<Manifest>, missing: set<string>, frontier: seq<string>, m: Manifest)
    requires Found(root, supply, selected, missing, frontier + [m.id])
    requires m.id in supply && supply[m.id] == m && m.id !in Ids(selected)
    ensures Found(root, supply, selected + [m], missing, frontier + RequiredIds(m))
  {
    hide Reachable, RequiresId, RequiredIds, Ids;
    assert m.id in frontier + [m.id];
    IdsGrow(selected, m);
    forall id
      ensures id in RequiredIds(m) <==> RequiresId(m, id)
    {
      RequiredIdsAreRequired(m, id);
    }
    forall id | id in RequiredIds(m)
      ensures Reachable(root, supply, id)
    {
      NextIsReachable(root, supply, m.id, id);
    }
    assert DistinctBy(IdOf, selected + [m]) by {
      forall o | o in selected
        ensures o.id != m.id
      {
        InIds(selected, o);
      }
      DistinctGrows(selected, m);
    }
    hide DistinctBy;
    forall x
      ensures x in frontier + [m.id] <==> x in frontier || x == m.id
      ensures x in frontier + RequiredIds(m) <==> x in frontier || x in RequiredIds(m)
    {
    }
  }

  lemma InIds(ms: seq<Manifest>, m: Manifest)
    requires m in ms
    ensures m.id in Ids(ms)
  {
    assert IdOf(m) == m.id;
  }

  lemma FromIds(ms: seq<Manifest>, id: string) returns (m: Manifest)
    requires id in Ids(ms)
    ensures m in ms && m.id == id
  {
    m :| m in ms && IdOf(m) == id;
  }

  lemma AllFound(root: Manifest, supply: Supply, selected: seq<Manifest>, missing: set<string>)
    requires Found(root, supply, selected, missing, [])
    ensures forall id :: id in Ids(selected) <==> id in supply && Reachable(root, supply, id)
    ensures forall id :: id in missing <==> id !in supply && Reachable(root, supply, id)
  {
    hide RequiresId, Walk, DistinctBy, Ids;
    var found := Ids(selected) + missing;
    forall x, y | x in found && x in supply && RequiresId(supply[x], y)
      ensures y in found
    {
      var m := FromIds(selected, x);
    }
    forall id | Reachable(root, supply, id)
      ensures id in found
    {
      var p :| PathTo(root, supply, p, id);
      ClosedHoldsPath(root, supply, found, p, id);
    }
    hide Reachable;
    forall id | id in Ids(selected)
      ensures id in supply && Reachable(root, supply, id)
    {
      var m := FromIds(selected, id);
    }
  }

  lemma SelectedAreSupplied(root: Manifest, supply: Supply, selected: seq<Manifest>, missing: set<string>, frontier: seq<string>)
    requires Found(root, supply, selected, missing, frontier)
    ensures Ids(selected) <= supply.Keys
  {
    hide Reachable, RequiresId, DistinctBy;
  }

  method CollectDependencies(root: Manifest, supply: Supply) returns (selected: seq<Manifest>, missing: set<string>)
    requires forall id :: id in supply ==> supply[id].id == id
    ensures DistinctBy(IdOf, selected)
    ensures forall m :: m in selected ==> m.id in supply && supply[m.id] == m
    ensures forall id :: id in Ids(selected) <==> id in supply && Reachable(root, supply, id)
    ensures forall id :: id in missing <==> id !in supply && Reachable(root, supply, id)
  {
    selected, missing := [], {};
    var frontier := RequiredIds(root);
    StartFound(root, supply);
    while frontier != []
      invariant Found(root, supply, selected, missing, frontier)
      decreases supply.Keys - Ids(selected), |frontier|
    {
      hide Found, RequiredIds, Ids;
      var id := frontier[|frontier| - 1];
      var rest := frontier[..|frontier| - 1];
      assert frontier == rest + [id];
      PopFound(root, supply, selected, missing, rest, id);
      frontier := rest;
      if id in Ids(selected) {
        continue;
      }
      if id !in supply {
        missing := missing + {id};
        continue;
      }
      var dependency := supply[id];
      SelectFound(root, supply, selected, missing, rest, dependency);
      IdsGrow(selected, dependency);
      SelectedAreSupplied(root, supply, selected + [dependency], missing, rest + RequiredIds(dependency));
      selected := selected + [dependency];
      frontier := frontier + RequiredIds(dependency);
    }
    AllFound(root, supply, selected, missing);
  }

  // ---------------------------------------------------------------- rounds

  predicate CanInstall(m: Manifest, installed: set<string>) {
    forall d :: d in m.dependencies ==> d.id in installed
  }

  function ReadyOf(pending: seq<Manifest>, installed: set<string>): seq<Manifest> {
    if pending == [] then []
    else
      var last := pending[|pending| - 1];
      ReadyOf(pending[..|pending| - 1], installed) + (if CanInstall(last, installed) then [last] else [])
  }

  function WaitingOf(pending: seq<Manifest>, installed: set<string>): seq<Manifest> {
    if pending == [] then []
    else
      var last := pending[|pending| - 1];
      WaitingOf(pending[..|pending| - 1], installed) + (if CanInstall(last, installed) then [] else [last])
  }

  lemma SnocCounts(ready: seq<Manifest>, waiting: seq<Manifest>, front: seq<Manifest>, last: Manifest)
    requires multiset(ready) + multiset(waiting) == multiset(front)
    ensures multiset(ready + [last]) + multiset(waiting) == multiset(front + [last])
    ensures multiset(ready) + multiset(waiting + [last]) == multiset(front + [last])
  {
  }

  lemma {:induction false} SplitCounts(pending: seq<Manifest>, installed: set<string>)
    ensures multiset(ReadyOf(pending, installed)) + multiset(WaitingOf(pending, installed)) == multiset(pending)
    ensures |ReadyOf(pending, installed)| + |WaitingOf(pending, installed)| == |pending|
  {
    hide CanInstall;
    if pending != [] {
      var front, last := pending[..|pending| - 1], pending[|pending| - 1];
      SplitCounts(front, installed);
      SnocCounts(ReadyOf(front, installed), WaitingOf(front, installed), front, last);
      assert pending == front + [last];
      assert ReadyOf(front, installed) + [] == ReadyOf(front, installed);
      assert WaitingOf(front, installed) + [] == WaitingOf(front, installed);
    }
  }

  lemma {:induction false} SplitMembers(pending: seq<Manifest>, installed: set<string>, m: Manifest)
    ensures m in ReadyOf(pending, installed) <==> m in pending && CanInstall(m, installed)
    ensures m in WaitingOf(pending, installed) <==> m in pending && !CanInstall(m, installed)
  {
    hide CanInstall;
    if pending != [] {
      var front, last := pending[..|pending| - 1], pending[|pending| - 1];
      SplitMembers(front, installed, m);
      assert m in pending <==> m in front || m == last;
    }
  }

  lemma SplitKeeps(pending: seq<Manifest>, installed: set<string>)
    ensures multiset(ReadyOf(pending, installed)) + multiset(WaitingOf(pending, installed)) == multiset(pending)
    ensures |ReadyOf(pending, installed)| + |WaitingOf(pending, installed)| == |pending|
    ensures forall m :: m in ReadyOf(pending, installed) <==> m in pending && CanInstall(m, installed)
    ensures forall m :: m in WaitingOf(pending, installed) <==> m in pending && !CanInstall(m, installed)
  {
    SplitCounts(pending, installed);
    hide CanInstall, ReadyOf, WaitingOf;
    forall m
      ensures m in ReadyOf(pending, installed) <==> m in pending && CanInstall(m, installed)
      ensures m in WaitingOf(pending, installed) <==> m in pending && !CanInstall(m, installed)
    {
      SplitMembers(pending, installed, m);
    }
  }

  datatype Arrangement = Arrangement(ordered: seq<Manifest>, stuck: seq<Manifest>)

  /** Rounds of all manifests whose dependencies are installed, each round by id. */
  function Arrange(pending: seq<Manifest>, installed: set<string>): Arrangement
    decreases |pending|
  {
    var ready := ReadyOf(pending, installed);
    if ready == [] then Arrangement([], pending)
    else
      SplitKeeps(pending, installed);
      var rest := Arrange(WaitingOf(pending, installed), installed + Ids(ready));
      Arrangement(SortBy(IdOf, ready) + rest.ordered, rest.stuck)
  }

  method ArrangeRounds(selected: seq<Manifest>) returns (ordered: seq<Manifest>, stuck: seq<Manifest>)
    ensures Arrangement(ordered, stuck) == Arrange(selected, {})
  {
    hide ReadyOf, WaitingOf, SortBy, Ids;
    var installed: set<string> := {};
    ordered, stuck := [], selected;
    while stuck != []
      invariant
        var rest := Arrange(stuck, installed);
        Arrangement(ordered + rest.ordered, rest.stuck) == Arrange(selected, {})
      decreases |stuck|
    {
      var ready := ReadyOf(stuck, installed);
      SplitKeeps(stuck, installed);
      if ready == [] {
        return;
      }
      ghost var rest := Arrange(WaitingOf(stuck, installed), installed + Ids(ready)).ordered;
      assert ordered + (SortBy(IdOf, ready) + rest) == (ordered + SortBy(IdOf, ready)) + rest;
      ordered := ordered + SortBy(IdOf, ready);
      stuck := WaitingOf(stuck, installed);
      installed := installed + Ids(ready);
    }
    assert ReadyOf([], installed) == [] by { NothingReady(installed); }
  }

  lemma NothingReady(installed: set<string>)
    ensures ReadyOf([], installed) == []
  {
  }

  lemma SortedIds(ms: seq<Manifest>)
    ensures Ids(SortBy(IdOf, ms)) == Ids(ms)
    ensures multiset(SortBy(IdOf, ms)) == multiset(ms)
    ensures SortBy(IdOf, ms) == [] ==> ms == []
  {
    SortKeeps(IdOf, ms);
    SameElements(SortBy(IdOf, ms), ms);
  }

  lemma IdsConcat(a: seq<Manifest>, b: seq<Manifest>)
    ensures Ids(a + b) == Ids(a) + Ids(b)
  {
    hide IdOf;
  }

  /** Every manifest comes after all it requires. */
  ghost predicate RequiredFirst(ordered: seq<Manifest>, installed: set<string>) {
    forall k :: 0 <= k < |ordered| ==> CanInstall(ordered[k], installed + Ids(ordered[..k]))
  }

  lemma RoundFirst(round: seq<Manifest>, rest: seq<Manifest>, installed: set<string>)
    requires forall m :: m in round ==> CanInstall(m, installed)
    requires RequiredFirst(rest, installed + Ids(round))
    ensures RequiredFirst(round + rest, installed)
  {
    hide Ids;
    forall k | 0 <= k < |round + rest|
      ensures CanInstall((round + rest)[k], installed + Ids((round + rest)[..k]))
    {
      if k < |round| {
        assert (round + rest)[k] in round;
      } else {
        var j := k - |round|;
        assert (round + rest)[..k] == round + rest[..j];
        IdsConcat(round, rest[..j]);
        assert CanInstall(rest[j], installed + Ids(round) + Ids(rest[..j]));
      }
    }
  }

  /** Nothing is lost; what is installed comes after what it requires; and of what is
      stuck, everything requires something that is never installed. */
  ghost predicate Sound(pending: seq<Manifest>, installed: set<string>, a: Arrangement) {
    && multiset(a.ordered) + multiset(a.stuck) == multiset(pending)
    && RequiredFirst(a.ordered, installed)
    && forall m :: m in a.stuck ==> !CanInstall(m, installed + Ids(a.ordered))
  }

  lemma NoRoundIsSound(pending: seq<Manifest>, installed: set<string>)
    requires ReadyOf(pending, installed) == []
    ensures Sound(pending, installed, Arrangement([], pending))
  {
    SplitKeeps(pending, installed);
    hide CanInstall, ReadyOf, WaitingOf;
    assert installed + Ids([]) == installed;
    forall m | m in pending
      ensures !CanInstall(m, installed)
    {
      assert m !in ReadyOf(pending, installed);
    }
  }

  lemma RoundIsSound(pending: seq<Manifest>, installed: set<string>, rest: Arrangement)
    requires Sound(WaitingOf(pending, installed), installed + Ids(ReadyOf(pending, installed)), rest)
    ensures Sound(pending, installed, Arrangement(SortBy(IdOf, ReadyOf(pending, installed)) + rest.ordered, rest.stuck))
  {
    hide CanInstall, RequiredFirst, SortBy, Ids, ReadyOf, WaitingOf, IdOf;
    SplitKeeps(pending, installed);
    var ready := ReadyOf(pending, installed);
    var round := SortBy(IdOf, ready);
    SortedIds(ready);
    SameElements(round, ready);
    RoundFirst(round, rest.ordered, installed);
    IdsConcat(round, rest.ordered);
    CountRounds(ready, WaitingOf(pending, installed), pending, round, rest.ordered, rest.stuck);
    assert installed + Ids(ready) + Ids(rest.ordered) == installed + Ids(round + rest.ordered);
  }

  lemma CountRounds(
      ready: seq<Manifest>, waiting: seq<Manifest>, pending: seq<Manifest>,
      round: seq<Manifest>, ordered: seq<Manifest>, stuck: seq<Manifest>)
    requires multiset(ready) + multiset(waiting) == multiset(pending)
    requires multiset(round) == multiset(ready) && multiset(ordered) + multiset(stuck) == multiset(waiting)
    ensures multiset(round + ordered) + multiset(stuck) == multiset(pending)
  {
    assert multiset(round + ordered) == multiset(round) + multiset(ordered);
  }

  lemma {:induction false} ArrangeIsSound(pending: seq<Manifest>, installed: set<string>)
    ensures Sound(pending, installed, Arrange(pending, installed))
    decreases |pending|
  {
    hide Sound, SortBy;
    if ReadyOf(pending, installed) == [] {
      NoRoundIsSound(pending, installed);
    } else {
      SplitCounts(pending, installed);
      ArrangeIsSound(WaitingOf(pending, installed), installed + Ids(ReadyOf(pending, installed)));
      RoundIsSound(pending, installed, Arrange(WaitingOf(pending, installed), installed + Ids(ReadyOf(pending, installed))));
    }
  }

  lemma ReadyCount(a: seq<Manifest>, installed: set<string>, m: Manifest)
    ensures multiset(ReadyOf(a, installed))[m] == if CanInstall(m, installed) then multiset(a)[m] else 0
    ensures multiset(WaitingOf(a, installed))[m] == if CanInstall(m, installed) then 0 else multiset(a)[m]
  {
    SplitKeeps(a, installed);
    hide CanInstall, ReadyOf, WaitingOf;
    assert m in multiset(ReadyOf(a, installed)) <==> m in ReadyOf(a, installed);
    assert m in multiset(WaitingOf(a, installed)) <==> m in WaitingOf(a, installed);
  }

  lemma SplitOrderless(a: seq<Manifest>, b: seq<Manifest>, installed: set<string>)
    requires multiset(a) == multiset(b)
    ensures multiset(ReadyOf(a, installed)) == multiset(ReadyOf(b, installed))
    ensures multiset(WaitingOf(a, installed)) == multiset(WaitingOf(b, installed))
  {
    hide CanInstall, ReadyOf, WaitingOf;
    forall m: Manifest
      ensures multiset(ReadyOf(a, installed))[m] == multiset(ReadyOf(b, installed))[m]
      ensures multiset(WaitingOf(a, installed))[m] == multiset(WaitingOf(b, installed))[m]
    {
      ReadyCount(a, installed, m);
      ReadyCount(b, installed, m);
    }
  }

  /** The order does not depend on the order in which manifests were found. */
  lemma {:induction false} ArrangeIsOrderless(a: seq<Manifest>, b: seq<Manifest>, installed: set<string>)
    requires multiset(a) == multiset(b) && DistinctBy(IdOf, a)
    ensures Arrange(a, installed).ordered == Arrange(b, installed).ordered
    ensures multiset(Arrange(a, installed).stuck) == multiset(Arrange(b, installed).stuck)
    decreases |a|
  {
    SplitKeeps(a, installed);
    SplitKeeps(b, installed);
    SplitOrderless(a, b, installed);
    var readyA, readyB := ReadyOf(a, installed), ReadyOf(b, installed);
    SameElements(readyA, readyB);
    PartsDistinct(a, readyA, WaitingOf(a, installed));
    hide DistinctBy, CanInstall, ReadyOf, WaitingOf, IdOf, SortBy;
    if readyA != [] {
      SortIsOrderless(IdOf, readyA, readyB);
      assert Ids(readyA) == Ids(readyB);
      ArrangeIsOrderless(WaitingOf(a, installed), WaitingOf(b, installed), installed + Ids(readyA));
    }
  }

  lemma PartsDistinct(whole: seq<Manifest>, part: seq<Manifest>, other: seq<Manifest>)
    requires DistinctBy(IdOf, whole) && multiset(part) + multiset(other) == multiset(whole)
    ensures DistinctBy(IdOf, part) && DistinctBy(IdOf, other)
  {
    assert multiset(part + other) == multiset(whole);
    DistinctIsOrderless(IdOf, whole, part + other);
    var all := part + other;
    assert forall i :: 0 <= i < |part| ==> all[i] == part[i];
    assert forall i :: 0 <= i < |other| ==> all[|part| + i] == other[i];
  }

  // ---------------------------------------------------------------- circles

  lemma {:induction false} Pigeonhole(p: seq<string>, s: set<string>) returns (i: nat, j: nat)
    requires |p| > |s| && forall x :: x in p ==> x in s
    ensures i < j < |p| && p[i] == p[j]
  {
    var front, last := p[..|p| - 1], p[|p| - 1];
    if last in front {
      i :| 0 <= i < |front| && front[i] == last;
      j := |p| - 1;
    } else {
      assert last in p;
      i, j := Pigeonhole(front, s - {last});
    }
  }

  lemma {:induction false} FewIds(ms: seq<Manifest>)
    ensures |Ids(ms)| <= |ms|
  {
    if ms == [] {
      assert Ids(ms) == {};
    } else {
      FewIds(ms[..|ms| - 1]);
      assert ms == ms[..|ms| - 1] + [ms[|ms| - 1]];
      IdsGrow(ms[..|ms| - 1], ms[|ms| - 1]);
    }
  }

  /** Each of these requires another of them. */
  ghost predicate Endless(supply: Supply, stuck: seq<Manifest>) {
    forall m :: m in stuck ==> m.id in supply && supply[m.id] == m && exists id :: id in Ids(stuck) && RequiresId(m, id)
  }

  lemma {:induction false} EndlessWalk(supply: Supply, stuck: seq<Manifest>, id: string, n: nat) returns (p: seq<string>)
    requires Endless(supply, stuck) && id in Ids(stuck)
    ensures |p| == n + 1 && p[0] == id && Walk(supply, p) && forall x :: x in p ==> x in Ids(stuck)
  {
    hide RequiresId, Ids;
    if n == 0 {
      p := [id];
    } else {
      var front := EndlessWalk(supply, stuck, id, n - 1);
      var last := front[|front| - 1];
      assert last in front;
      var m := FromIds(stuck, last);
      var next :| next in Ids(stuck) && RequiresId(m, next);
      p := front + [next];
    }
  }

  lemma StuckCircles(supply: Supply, stuck: seq<Manifest>, id: string)
    requires Endless(supply, stuck) && id in Ids(stuck)
    ensures Circles(supply, id)
  {
    var p := EndlessWalk(supply, stuck, id, |stuck|);
    FewIds(stuck);
    var i, j := Pigeonhole(p, Ids(stuck));
    hide Walk, Ids;
    assert CircleOn(supply, p, id, i, j);
  }

  /** A walk through installed packages goes back in the order with every step. */
  lemma {:induction false} WalkGoesBack(
      supply: Supply, ordered: seq<Manifest>, p: seq<string>, i: nat, j: nat, a: nat) returns (b: int)
    requires RequiredFirst(ordered, {}) && Walk(supply, p)
    requires forall m :: m in ordered ==> m.id in supply && supply[m.id] == m
    requires i <= j < |p| && a < |ordered| && ordered[a].id == p[i]
    ensures 0 <= b <= a - (j - i) && ordered[b].id == p[j]
    decreases j - i
  {
    hide RequiredFirst, Ids, CanInstall;
    if i == j {
      b := a;
    } else {
      assert ordered[a] in ordered;
      var next := PrerequisiteBefore(ordered, a, p[i + 1]);
      b := WalkGoesBack(supply, ordered, p, i + 1, j, next);
    }
  }

  lemma PrerequisiteBefore(ordered: seq<Manifest>, a: nat, id: string) returns (b: nat)
    requires RequiredFirst(ordered, {}) && a < |ordered| && RequiresId(ordered[a], id)
    ensures b < a && ordered[b].id == id
  {
    assert CanInstall(ordered[a], {} + Ids(ordered[..a]));
    var d :| d in ordered[a].dependencies && d.id == id;
    var m := FromIds(ordered[..a], id);
    b :| 0 <= b < a && ordered[..a][b] == m;
  }

  lemma InstalledDoNotCircle(supply: Supply, ordered: seq<Manifest>, id: string)
    requires RequiredFirst(ordered, {}) && DistinctBy(IdOf, ordered)
    requires forall m :: m in ordered ==> m.id in supply && supply[m.id] == m
    requires id in Ids(ordered)
    ensures !Circles(supply, id)
  {
    if Circles(supply, id) {
      var p, i, j :| CircleOn(supply, p, id, i, j);
      var m := FromIds(ordered, id);
      var a :| 0 <= a < |ordered| && ordered[a] == m;
      hide RequiredFirst, Walk, Ids;
      var first := WalkGoesBack(supply, ordered, p, 0, i, a);
      var second := WalkGoesBack(supply, ordered, p, i, j, first);
    }
  }

  // ---------------------------------------------------------------- the whole algorithm

  /** The reachable packages, each once. */
  ghost predicate Selection(root: Manifest, supply: Supply, selected: seq<Manifest>) {
    && DistinctBy(IdOf, selected)
    && (forall m :: m in selected ==> m.id in supply && supply[m.id] == m)
    && (forall id :: id in Ids(selected) <==> id in supply && Reachable(root, supply, id))
  }

  ghost predicate NothingMissing(root: Manifest, supply: Supply) {
    forall id :: Reachable(root, supply, id) ==> id in supply
  }

  lemma ArrangementParts(selected: seq<Manifest>, a: Arrangement)
    requires DistinctBy(IdOf, selected) && multiset(a.ordered) + multiset(a.stuck) == multiset(selected)
    ensures DistinctBy(IdOf, a.ordered)
    ensures Ids(selected) == Ids(a.ordered) + Ids(a.stuck)
    ensures forall m :: m in a.ordered ==> m in selected
    ensures forall m :: m in a.stuck ==> m in selected
  {
    PartsDistinct(selected, a.ordered, a.stuck);
    hide DistinctBy, IdOf;
    assert multiset(a.ordered + a.stuck) == multiset(selected);
    SameElements(a.ordered + a.stuck, selected);
    IdsConcat(a.ordered, a.stuck);
    assert Ids(a.ordered + a.stuck) == Ids(selected);
    hide Ids;
    assert forall m :: m in a.ordered ==> m in a.ordered + a.stuck;
    assert forall m :: m in a.stuck ==> m in a.ordered + a.stuck;
  }

  lemma StuckOrGrounded(supply: Supply, a: Arrangement, id: string)
    requires Endless(supply, a.stuck)
    requires RequiredFirst(a.ordered, {}) && DistinctBy(IdOf, a.ordered)
    requires forall m :: m in a.ordered ==> m.id in supply && supply[m.id] == m
    requires id in Ids(a.ordered) + Ids(a.stuck)
    ensures id in Ids(a.stuck) <==> Circles(supply, id)
  {
    hide Endless, Circles, RequiredFirst, Ids;
    if id in Ids(a.stuck) {
      StuckCircles(supply, a.stuck, id);
    } else {
      InstalledDoNotCircle(supply, a.ordered, id);
    }
  }

  /** The facts about an arrangement of the reachable packages that decide who is stuck. */
  ghost predicate Split(supply: Supply, selected: seq<Manifest>, a: Arrangement) {
    && Endless(supply, a.stuck) && RequiredFirst(a.ordered, {}) && DistinctBy(IdOf, a.ordered)
    && (forall m :: m in a.ordered ==> m.id in supply && supply[m.id] == m)
    && Ids(selected) == Ids(a.ordered) + Ids(a.stuck)
  }

  lemma ArrangementSplits(root: Manifest, supply: Supply, selected: seq<Manifest>)
    requires Selection(root, supply, selected) && NothingMissing(root, supply)
    ensures Split(supply, selected, Arrange(selected, {}))
  {
    ArrangeIsSound(selected, {});
    var a := Arrange(selected, {});
    hide Arrange, Ids, RequiredFirst, CanInstall, DistinctBy, Reachable, Endless;
    ArrangementParts(selected, a);
    StuckIsEndless(root, supply, selected, a);
  }

  lemma ArrangementOf(root: Manifest, supply: Supply, selected: seq<Manifest>, a: Arrangement)
    requires Selection(root, supply, selected) && NothingMissing(root, supply) && a == Arrange(selected, {})
    ensures forall id :: id in Ids(a.stuck) <==> Reachable(root, supply, id) && Circles(supply, id)
    ensures RequiredFirst(a.ordered, {})
    ensures a.stuck == [] ==> Selection(root, supply, a.ordered)
  {
    ArrangementSplits(root, supply, selected);
    hide Arrange, RequiredFirst, Reachable, Ids, Circles, Selection, NothingMissing, Split;
    StuckExactly(root, supply, selected, a);
    OrderedIsSelection(root, supply, selected, a);
  }

  lemma StuckExactly(root: Manifest, supply: Supply, selected: seq<Manifest>, a: Arrangement)
    requires Selection(root, supply, selected) && NothingMissing(root, supply) && Split(supply, selected, a)
    ensures forall id :: id in Ids(a.stuck) <==> Reachable(root, supply, id) && Circles(supply, id)
  {
    hide DistinctBy, RequiredFirst, Reachable, Ids, Endless, Circles, NothingMissing;
    forall id | id in Ids(selected)
      ensures id in Ids(a.stuck) <==> Circles(supply, id)
    {
      StuckOrGrounded(supply, a, id);
    }
    StuckByCircle(root, supply, selected, a);
  }

  lemma OrderedIsSelection(root: Manifest, supply: Supply, selected: seq<Manifest>, a: Arrangement)
    requires Selection(root, supply, selected) && Split(supply, selected, a)
    ensures RequiredFirst(a.ordered, {})
    ensures a.stuck == [] ==> Selection(root, supply, a.ordered)
  {
    NoIds();
    hide DistinctBy, RequiredFirst, Reachable, Ids, Endless;
  }

  lemma StuckByCircle(root: Manifest, supply: Supply, selected: seq<Manifest>, a: Arrangement)
    requires forall id :: id in Ids(selected) <==> id in supply && Reachable(root, supply, id)
    requires NothingMissing(root, supply)
    requires Ids(selected) == Ids(a.ordered) + Ids(a.stuck)
    requires forall id :: id in Ids(selected) ==> (id in Ids(a.stuck) <==> Circles(supply, id))
    ensures forall id :: id in Ids(a.stuck) <==> Reachable(root, supply, id) && Circles(supply, id)
  {
    hide Reachable, Ids, Circles;
  }

  lemma NoIds()
    ensures Ids([]) == {}
  {
  }

  lemma StuckIsEndless(root: Manifest, supply: Supply, selected: seq<Manifest>, a: Arrangement)
    requires Selection(root, supply, selected) && NothingMissing(root, supply)
    requires Sound(selected, {}, a) && Ids(selected) == Ids(a.ordered) + Ids(a.stuck)
    requires forall m :: m in a.stuck ==> m in selected
    ensures Endless(supply, a.stuck)
  {
    hide Reachable, Ids, RequiredFirst, DistinctBy;
    forall m | m in a.stuck
      ensures exists id :: id in Ids(a.stuck) && RequiresId(m, id)
    {
      InIds(selected, m);
      var d :| d in m.dependencies && d.id !in {} + Ids(a.ordered);
      assert RequiresId(m, d.id);
      NextIsReachable(root, supply, m.id, d.id);
      assert d.id in Ids(selected);
    }
  }

  /** Every reachable package once, each after all it requires, if all are supplied and
      none leads to a circle; otherwise exactly the packages that are missing, or
      exactly those that lead to a circle. */
  method OrderDependencies(root: Manifest, supplied: seq<Manifest>) returns (r: Ordering)
    ensures
      var supply := Available(root, supplied);
      match r
      case Missing(ids) => ids != {} && forall id :: id in ids <==> id !in supply && Reachable(root, supply, id)
      case Cyclic(ids) =>
        && ids != {} && NothingMissing(root, supply)
        && forall id :: id in ids <==> Reachable(root, supply, id) && Circles(supply, id)
      case Ordered(items) =>
        && NothingMissing(root, supply)
        && (forall id :: Reachable(root, supply, id) ==> !Circles(supply, id))
        && Selection(root, supply, items) && RequiredFirst(items, {})
        && forall selected :: Selection(root, supply, selected) ==> items == Arrange(selected, {}).ordered
  {
    hide Reachable, Circles, Ids, RequiredFirst, Arrange, RequiresId, DistinctBy;
    var supply := Available(root, supplied);
    var selected, missing := CollectDependencies(root, supply);
    if missing != {} {
      return Missing(missing);
    }
    assert NothingMissing(root, supply);
    var ordered, stuck := ArrangeRounds(selected);
    ArrangementOf(root, supply, selected, Arrangement(ordered, stuck));
    NoIds();
    if stuck != [] {
      InIds(stuck, stuck[0]);
      return Cyclic(Ids(stuck));
    }
    forall other | Selection(root, supply, other)
      ensures ordered == Arrange(other, {}).ordered
    {
      SameSelection(root, supply, selected, other);
      ArrangeIsOrderless(selected, other, {});
    }
    r := Ordered(ordered);
  }

  lemma SelectionCount(root: Manifest, supply: Supply, selected: seq<Manifest>, m: Manifest)
    requires Selection(root, supply, selected)
    ensures multiset(selected)[m] == if m.id in supply && supply[m.id] == m && Reachable(root, supply, m.id) then 1 else 0
  {
    hide Reachable, Ids;
    if m in selected {
      InIds(selected, m);
      var p :| 0 <= p < |selected| && selected[p] == m;
      OnceInSeq(IdOf, selected, p);
    } else if m.id in Ids(selected) {
      var o := FromIds(selected, m.id);
    }
  }

  lemma SameSelection(root: Manifest, supply: Supply, a: seq<Manifest>, b: seq<Manifest>)
    requires Selection(root, supply, a) && Selection(root, supply, b)
    ensures multiset(a) == multiset(b)
  {
    hide Selection;
    forall m: Manifest
      ensures multiset(a)[m] == multiset(b)[m]
    {
      SelectionCount(root, supply, a, m);
      SelectionCount(root, supply, b, m);
    }
  }
}
