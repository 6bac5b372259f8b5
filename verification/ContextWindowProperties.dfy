/** What bounding a context keeps, drops and guarantees. */
module ContextWindowProperties {
  import opened Json
  import opened PyText
  import opened TokenEstimation
  import opened Sorting
  import opened TextCutting
  import opened ContextWindow

  // ---------------------------------------------------------------- keys

  function Names(fields: seq<Field>): set<string> {
    set f | f in fields :: f.key
  }

  function Elems(keys: seq<string>): set<string> {
    set k | k in keys
  }

  function KeysOf(segments: seq<Segment>): set<string> {
    set s | s in segments :: s.key
  }

  ghost predicate NoTwice(keys: seq<string>) {
    forall i, j :: 0 <= i < j < |keys| ==> keys[i] != keys[j]
  }

  function SegmentKey(s: Segment): string {
    s.key
  }

  ghost predicate DistinctKeys(segments: seq<Segment>) {
    DistinctBy(SegmentKey, segments)
  }

  lemma NamesAre(fields: seq<Field>, key: string)
    ensures key in Names(fields) <==> HasField(fields, key)
  {
    if HasField(fields, key) {
      var i :| 0 <= i < |fields| && fields[i].key == key;
      assert fields[i] in fields;
    }
    if key in Names(fields) {
      var f :| f in fields && f.key == key;
      var i :| 0 <= i < |fields| && fields[i] == f;
    }
  }

  lemma NamesSnoc(fields: seq<Field>, f: Field)
    ensures Names(fields + [f]) == Names(fields) + {f.key}
  {
    assert forall g :: g in fields + [f] <==> g in fields || g == f;
    assert f in fields + [f];
    forall key | key in Names(fields)
      ensures key in Names(fields + [f])
    {
      var g :| g in fields && g.key == key;
      assert g in fields + [f];
    }
  }

  lemma KeysSnoc(segments: seq<Segment>, s: Segment)
    ensures KeysOf(segments + [s]) == KeysOf(segments) + {s.key}
  {
    assert forall g :: g in segments + [s] <==> g in segments || g == s;
    assert s in segments + [s];
    forall key | key in KeysOf(segments)
      ensures key in KeysOf(segments + [s])
    {
      var g :| g in segments && g.key == key;
      assert g in segments + [s];
    }
  }

  lemma ElemsSnoc(keys: seq<string>, key: string)
    ensures Elems(keys + [key]) == Elems(keys) + {key}
    ensures NoTwice(keys) && key !in Elems(keys) ==> NoTwice(keys + [key])
  {
    assert forall k :: k in keys + [key] <==> k in keys || k == key;
  }

  lemma {:induction false} WithoutNames(fields: seq<Field>, key: string)
    ensures Names(Without(fields, key)) == Names(fields) - {key}
  {
    if fields != [] {
      var front, last := fields[..|fields| - 1], fields[|fields| - 1];
      WithoutNames(front, key);
      assert fields == front + [last];
      NamesSnoc(front, last);
      NamesSnoc(Without(front, key), last);
      hide Names;
      assert Without(front, key) + [] == Without(front, key);
    }
  }

  lemma {:induction false} MinusElems(keys: seq<string>, key: string)
    requires NoTwice(keys)
    ensures Elems(Minus(keys, key)) == Elems(keys) - {key}
    ensures NoTwice(Minus(keys, key))
  {
    if keys != [] {
      var rest := keys[1..];
      assert keys == [keys[0]] + rest;
      assert forall i :: 0 <= i < |rest| ==> rest[i] == keys[i + 1];
      assert keys[0] !in rest;
      if keys[0] != key {
        MinusElems(rest, key);
        var less := Minus(rest, key);
        assert keys[0] !in Elems(rest);
        assert keys[0] !in Elems(less);
        assert Elems([keys[0]] + less) == {keys[0]} + Elems(less);
      }
      assert Elems(keys) == {keys[0]} + Elems(rest);
    }
  }

  // ---------------------------------------------------------------- order

  /** Sections are considered mandatory first, then by tier and falling priority. */
  lemma OrderSorts(segments: seq<Segment>)
    ensures SortedLe(NoLater, Order(segments)) && multiset(Order(segments)) == multiset(segments)
  {
    SortLeKeeps(NoLater, segments);
    SortLeSorts(NoLater, segments);
  }

  // ---------------------------------------------------------------- partition

  /** Every section placed so far is either kept or dropped, and what is noted as
      truncated, summarised or retained is kept. */
  ghost predicate Partitioned(a: Allocation, keys: set<string>) {
    && Names(a.bounded) + Elems(a.dropped) == keys && Names(a.bounded) !! Elems(a.dropped)
    && Elems(a.truncated) <= Names(a.bounded) && NoTwice(a.truncated)
    && Elems(a.summarized) <= Names(a.bounded) && NoTwice(a.summarized)
    && Elems(a.retainedRequired) <= Names(a.bounded) && NoTwice(a.retainedRequired)
  }

  lemma AllowanceWithin(est: Estimator, minimum: int, s: Segment, remaining: nat, left: nat, mandatoryLeft: nat)
    requires left >= 1
    ensures Allowance(est, minimum, s, remaining, left, mandatoryLeft) <= remaining
    ensures Allowance(est, minimum, s, remaining, left, mandatoryLeft) <= est(s.value)
  {
  }

  lemma KeepPartitions(a: Allocation, keys: set<string>, key: string, value: Value, t: bool, s: bool, r: bool, next: Allocation)
    requires Partitioned(a, keys) && key !in keys
    requires next.bounded == a.bounded + [Field(key, value)] && next.dropped == a.dropped
    requires next.truncated == a.truncated + (if t then [key] else [])
    requires next.summarized == a.summarized + (if s then [key] else [])
    requires next.retainedRequired == a.retainedRequired + (if r then [key] else [])
    ensures Partitioned(next, keys + {key})
  {
    NamesSnoc(a.bounded, Field(key, value));
    ElemsSnoc(a.truncated, key);
    ElemsSnoc(a.summarized, key);
    ElemsSnoc(a.retainedRequired, key);
    hide Names, Elems, NoTwice;
    assert a.truncated + [] == a.truncated && a.summarized + [] == a.summarized;
    assert a.retainedRequired + [] == a.retainedRequired;
  }

  lemma DropPartitions(a: Allocation, keys: set<string>, key: string)
    requires Partitioned(a, keys) && key !in keys
    ensures Partitioned(a.(dropped := a.dropped + [key]), keys + {key})
  {
    ElemsSnoc(a.dropped, key);
    hide Names, Elems, NoTwice;
  }

  lemma PlacePartitions(
      est: Estimator, minimum: int, a: Allocation, s: Segment, left: nat, mandatoryLeft: nat, keys: set<string>)
    requires left >= 1 && Partitioned(a, keys) && s.key !in keys
    ensures Partitioned(Place(est, minimum, a, s, left, mandatoryLeft), keys + {s.key})
  {
    hide Partitioned, CompactValue, Allowance;
    var allowance := Allowance(est, minimum, s, a.remaining, left, mandatoryLeft);
    AllowanceWithin(est, minimum, s, a.remaining, left, mandatoryLeft);
    var next := Place(est, minimum, a, s, left, mandatoryLeft);
    DropPartitions(a, keys, s.key);
    if NoRoom(minimum, s, allowance) {
      if Kept(s) {
        assert a.summarized + [] == a.summarized;
        KeepPartitions(a, keys, s.key, if HasSummary(s) then s.summary else s.value, true, false, true, next);
      }
    } else {
      var form := Form(est, s, allowance);
      if Empty(form) || est(form) > a.remaining {
        assert !UsesSummary(est, s, allowance);
        assert a.summarized + [] == a.summarized;
      } else {
        KeepPartitions(a, keys, s.key, form, est(form) < est(s.value), UsesSummary(est, s, allowance), s.required, next);
      }
    }
  }

  lemma NewKey(ordered: seq<Segment>, n: nat)
    requires DistinctKeys(ordered) && n < |ordered|
    ensures ordered[n].key !in KeysOf(ordered[..n])
  {
    forall s | s in ordered[..n]
      ensures s.key != ordered[n].key
    {
      var i :| 0 <= i < n && ordered[i] == s;
      assert SegmentKey(ordered[i]) != SegmentKey(ordered[n]);
    }
  }

  lemma {:induction false} PlacedPartitions(est: Estimator, minimum: int, ordered: seq<Segment>, budget: int, n: nat)
    requires DistinctKeys(ordered) && n <= |ordered|
    ensures Partitioned(Placed(est, minimum, ordered, budget, n), KeysOf(ordered[..n]))
  {
    hide Place;
    if n > 0 {
      PlacedPartitions(est, minimum, ordered, budget, n - 1);
      var s := ordered[n - 1];
      assert ordered[..n] == ordered[..n - 1] + [s];
      KeysSnoc(ordered[..n - 1], s);
      NewKey(ordered, n - 1);
      hide Partitioned, DistinctKeys, KeysOf;
      PlacePartitions(est, minimum, Placed(est, minimum, ordered, budget, n - 1), s, |ordered| - (n - 1),
                      CountMandatory(ordered[n - 1..]), KeysOf(ordered[..n - 1]));
    }
  }

  lemma DropKeepsPartition(a: Allocation, keys: set<string>, key: string)
    requires Partitioned(a, keys) && HasField(a.bounded, key)
    ensures Partitioned(Drop(a, key), keys)
  {
    NamesAre(a.bounded, key);
    WithoutNames(a.bounded, key);
    ElemsSnoc(a.dropped, key);
    MinusElems(a.truncated, key);
    MinusElems(a.summarized, key);
    MinusElems(a.retainedRequired, key);
    assert key !in a.dropped by { assert key in a.dropped ==> key in Elems(a.dropped); }
    hide Names, Elems, NoTwice, Without, Minus;
  }

  /** What is left is within budget, or nothing optional is left to drop. */
  ghost predicate Settled(est: Estimator, ordered: seq<Segment>, a: Allocation, budget: int) {
    OverBudget(est, a, budget) ==> forall s :: s in ordered && HasField(a.bounded, s.key) ==> Mandatory(s)
  }

  lemma {:induction false} TrimPartitions(est: Estimator, ordered: seq<Segment>, a: Allocation, budget: int, keys: set<string>)
    requires Partitioned(a, keys)
    ensures Partitioned(Trim(est, ordered, a, budget), keys)
    ensures Settled(est, ordered, Trim(est, ordered, a, budget), budget)
    decreases |a.bounded|
  {
    hide Partitioned, Mandatory, HasField, Drop;
    if OverBudget(est, a, budget) {
      var at := LastRemovable(ordered, a.bounded, |ordered|);
      if at > 0 {
        var key := ordered[at - 1].key;
        WithoutIsShorter(a.bounded, key);
        DropKeepsPartition(a, keys, key);
        assert Drop(a, key).bounded == Without(a.bounded, key) by { DropBounded(a, key); }
        TrimPartitions(est, ordered, Drop(a, key), budget, keys);
      }
    }
  }

  lemma DropBounded(a: Allocation, key: string)
    ensures Drop(a, key).bounded == Without(a.bounded, key)
  {
  }

  /** Every section is kept or dropped, and never both; truncated and summarised
      sections are among the kept; and the kept ones are within budget unless only
      mandatory sections are left. */
  lemma ContextIsPartitioned(est: Estimator, minimum: int, segments: seq<Segment>, budget: int)
    requires DistinctKeys(segments)
    ensures
      var a := BoundedContext(est, minimum, segments, budget);
      && Names(a.bounded) + Elems(a.dropped) == KeysOf(segments) && Names(a.bounded) !! Elems(a.dropped)
      && Elems(a.truncated) <= Names(a.bounded) && Elems(a.summarized) <= Names(a.bounded)
      && (a.bounded != [] && est(Obj(a.bounded)) > budget ==>
            forall s :: s in segments && s.key in Names(a.bounded) ==> Mandatory(s))
  {
    var ordered := Order(segments);
    OrderSorts(segments);
    OrderKeepsKeys(segments);
    hide Mandatory, Order, NoTwice;
    if FitsWhole(est, segments, budget) {
      EntryNames(segments);
    } else {
      PlacedPartitions(est, minimum, ordered, budget, |ordered|);
      assert ordered[..|ordered|] == ordered;
      hide Placed;
      var placed := Placed(est, minimum, ordered, budget, |ordered|);
      TrimPartitions(est, ordered, placed, budget, KeysOf(ordered));
      hide Trim, Names, Elems, KeysOf;
      var a := Trim(est, ordered, placed, budget);
      forall s | s in segments && s.key in Names(a.bounded) && OverBudget(est, a, budget)
        ensures Mandatory(s)
      {
        NamesAre(a.bounded, s.key);
        assert s in multiset(segments) && s in ordered;
      }
    }
  }

  lemma EntryNames(segments: seq<Segment>)
    ensures Names(Entries(segments)) == KeysOf(segments)
  {
    var entries := Entries(segments);
    forall key | key in KeysOf(segments)
      ensures key in Names(entries)
    {
      var s :| s in segments && s.key == key;
      var i :| 0 <= i < |segments| && segments[i] == s;
      assert entries[i] in entries;
    }
  }

  lemma OrderKeepsKeys(segments: seq<Segment>)
    ensures KeysOf(Order(segments)) == KeysOf(segments)
    ensures DistinctKeys(segments) ==> DistinctKeys(Order(segments))
  {
    OrderSorts(segments);
    SameElements(segments, Order(segments));
    if DistinctKeys(segments) {
      DistinctIsOrderless(SegmentKey, segments, Order(segments));
    }
  }

  // ---------------------------------------------------------------- trimming goes from the end

  lemma RemovedNames(fields: seq<Field>, key: string, other: string)
    ensures HasField(Without(fields, key), other) <==> HasField(fields, other) && other != key
  {
    WithoutNames(fields, key);
    NamesAre(fields, other);
    NamesAre(Without(fields, key), other);
    hide Names, Without, HasField;
  }

  /** An optional section outlives trimming only if all optional sections before it, in
      the order of importance, do. */
  lemma {:induction false} TrimDropsLeastImportantFirst(
      est: Estimator, ordered: seq<Segment>, a: Allocation, budget: int, i: nat, j: nat)
    requires DistinctKeys(ordered) && i < j < |ordered| && !Mandatory(ordered[i]) && !Mandatory(ordered[j])
    requires HasField(a.bounded, ordered[i].key)
    requires HasField(Trim(est, ordered, a, budget).bounded, ordered[j].key)
    ensures HasField(Trim(est, ordered, a, budget).bounded, ordered[i].key)
    decreases |a.bounded|
  {
    hide Mandatory, HasField, Drop;
    if OverBudget(est, a, budget) {
      var at := LastRemovable(ordered, a.bounded, |ordered|);
      if at > 0 {
        var key := ordered[at - 1].key;
        WithoutIsShorter(a.bounded, key);
        DropBounded(a, key);
        TrimOnlyRemoves(est, ordered, Drop(a, key), budget, ordered[j].key);
        RemovedNames(a.bounded, key, ordered[j].key);
        assert at - 1 >= j;
        assert SegmentKey(ordered[i]) != SegmentKey(ordered[at - 1]);
        RemovedNames(a.bounded, key, ordered[i].key);
        TrimDropsLeastImportantFirst(est, ordered, Drop(a, key), budget, i, j);
      }
    }
  }

  lemma {:induction false} TrimOnlyRemoves(est: Estimator, ordered: seq<Segment>, a: Allocation, budget: int, key: string)
    requires HasField(Trim(est, ordered, a, budget).bounded, key)
    ensures HasField(a.bounded, key)
    decreases |a.bounded|
  {
    hide HasField, Drop;
    if OverBudget(est, a, budget) {
      var at := LastRemovable(ordered, a.bounded, |ordered|);
      if at > 0 {
        WithoutIsShorter(a.bounded, ordered[at - 1].key);
        DropBounded(a, ordered[at - 1].key);
        TrimOnlyRemoves(est, ordered, Drop(a, ordered[at - 1].key), budget, key);
        RemovedNames(a.bounded, ordered[at - 1].key, key);
      }
    }
  }

  // ---------------------------------------------------------------- mandatory sections

  /** Trimming never takes a mandatory section. */
  lemma {:induction false} TrimKeepsMandatory(est: Estimator, ordered: seq<Segment>, a: Allocation, budget: int, s: Segment)
    requires DistinctKeys(ordered) && s in ordered && Mandatory(s) && HasField(a.bounded, s.key)
    ensures HasField(Trim(est, ordered, a, budget).bounded, s.key)
    decreases |a.bounded|
  {
    hide Mandatory, HasField, Drop;
    if OverBudget(est, a, budget) {
      var at := LastRemovable(ordered, a.bounded, |ordered|);
      if at > 0 {
        var k :| 0 <= k < |ordered| && ordered[k] == s;
        assert k != at - 1;
        assert SegmentKey(ordered[k]) != SegmentKey(ordered[at - 1]);
        WithoutIsShorter(a.bounded, ordered[at - 1].key);
        DropBounded(a, ordered[at - 1].key);
        RemovedNames(a.bounded, ordered[at - 1].key, s.key);
        TrimKeepsMandatory(est, ordered, Drop(a, ordered[at - 1].key), budget, s);
      }
    }
  }

  /** A pinned or protected section is turned down in its turn when it has an allowance,
      but in that allowance neither its summary nor a cut of its value is left to keep. */
  predicate TurnsDown(est: Estimator, minimum: int, a: Allocation, s: Segment, left: nat, mandatoryLeft: nat)
    requires left >= 1
  {
    var allowance := Allowance(est, minimum, s, a.remaining, left, mandatoryLeft);
    var cut := CompactValue(est, s.value, allowance);
    allowance > 0 && !UsesSummary(est, s, allowance) && (Empty(cut) || est(cut) > a.remaining)
  }

  lemma KeptInTurn(est: Estimator, minimum: int, a: Allocation, s: Segment, left: nat, mandatoryLeft: nat)
    requires left >= 1 && Kept(s) && !HasField(a.bounded, s.key)
    ensures HasField(Place(est, minimum, a, s, left, mandatoryLeft).bounded, s.key)
       <==> !TurnsDown(est, minimum, a, s, left, mandatoryLeft)
  {
    AllowanceWithin(est, minimum, s, a.remaining, left, mandatoryLeft);
    hide Allowance, CompactValue, HasField;
    forall v: Value
      ensures HasField(a.bounded + [Field(s.key, v)], s.key)
    {
      LastIsThere(a.bounded, Field(s.key, v));
    }
  }

  lemma LastIsThere(fields: seq<Field>, f: Field)
    ensures HasField(fields + [f], f.key)
    ensures forall key :: HasField(fields, key) ==> HasField(fields + [f], key)
    ensures forall key :: HasField(fields + [f], key) ==> HasField(fields, key) || key == f.key
  {
    assert (fields + [f])[|fields|].key == f.key;
    forall key | HasField(fields, key)
      ensures HasField(fields + [f], key)
    {
      var i :| 0 <= i < |fields| && fields[i].key == key;
      assert (fields + [f])[i].key == key;
    }
  }

  /** Placing another section neither adds nor takes this one. */
  lemma OthersLeaveItAlone(
      est: Estimator, minimum: int, a: Allocation, s: Segment, left: nat, mandatoryLeft: nat, key: string)
    requires left >= 1 && s.key != key
    ensures HasField(Place(est, minimum, a, s, left, mandatoryLeft).bounded, key) <==> HasField(a.bounded, key)
  {
    hide Allowance, CompactValue, HasField;
    forall v: Value
      ensures HasField(a.bounded + [Field(s.key, v)], key) <==> HasField(a.bounded, key)
    {
      LastIsThere(a.bounded, Field(s.key, v));
    }
  }

  lemma {:induction false} PlacedKeeps(est: Estimator, minimum: int, ordered: seq<Segment>, budget: int, n: nat, k: nat)
    requires DistinctKeys(ordered) && n <= |ordered| && k < |ordered|
    ensures n <= k ==> !HasField(Placed(est, minimum, ordered, budget, n).bounded, ordered[k].key)
    ensures n > k ==>
      var kept := HasField(Placed(est, minimum, ordered, budget, n).bounded, ordered[k].key);
      kept <==> HasField(Placed(est, minimum, ordered, budget, k + 1).bounded, ordered[k].key)
  {
    hide Place;
    if n > 0 && n != k + 1 {
      PlacedKeeps(est, minimum, ordered, budget, n - 1, k);
      assert SegmentKey(ordered[n - 1]) != SegmentKey(ordered[k]);
      hide HasField, DistinctKeys;
      OthersLeaveItAlone(est, minimum, Placed(est, minimum, ordered, budget, n - 1), ordered[n - 1], |ordered| - (n - 1),
                         CountMandatory(ordered[n - 1..]), ordered[k].key);
    }
  }

  /** Which pinned and protected sections a bounded context drops: exactly those that are
      turned down when their turn comes, in a context that does not fit whole. */
  lemma PinnedSectionIsDroppedExactly(est: Estimator, minimum: int, segments: seq<Segment>, budget: int, k: nat)
    requires DistinctKeys(segments) && k < |Order(segments)| && Kept(Order(segments)[k])
    ensures
      var ordered := Order(segments);
      ordered[k].key in BoundedContext(est, minimum, segments, budget).dropped <==>
        && !FitsWhole(est, segments, budget)
        && TurnsDown(est, minimum, Placed(est, minimum, ordered, budget, k), ordered[k], |ordered| - k,
                     CountMandatory(ordered[k..]))
  {
    hide Order, Place, Trim, TurnsDown, Kept, FitsWhole, Entries, CountMandatory, OverBudget, SortedLe;
    var ordered := Order(segments);
    var s := ordered[k];
    if !FitsWhole(est, segments, budget) {
      ContextIsPartitioned(est, minimum, segments, budget);
      OrderKeepsKeys(segments);
      OrderSorts(segments);
      assert s in ordered && s.key in KeysOf(ordered);
      var placed := Placed(est, minimum, ordered, budget, |ordered|);
      var final := Trim(est, ordered, placed, budget);
      NamesAre(final.bounded, s.key);
      PlacedKeeps(est, minimum, ordered, budget, |ordered|, k);
      PlacedKeeps(est, minimum, ordered, budget, k, k);
      assert Placed(est, minimum, ordered, budget, k + 1)
          == Place(est, minimum, Placed(est, minimum, ordered, budget, k), s, |ordered| - k, CountMandatory(ordered[k..]));
      hide Placed, HasField, Names, KeysOf, DistinctKeys;
      KeptInTurn(est, minimum, Placed(est, minimum, ordered, budget, k), s, |ordered| - k, CountMandatory(ordered[k..]));
      PinnedOutlivesTrimming(est, ordered, placed, budget, s);
    }
  }

  lemma PinnedOutlivesTrimming(est: Estimator, ordered: seq<Segment>, a: Allocation, budget: int, s: Segment)
    requires DistinctKeys(ordered) && s in ordered && Kept(s)
    ensures HasField(Trim(est, ordered, a, budget).bounded, s.key) <==> HasField(a.bounded, s.key)
  {
    if HasField(a.bounded, s.key) {
      TrimKeepsMandatory(est, ordered, a, budget, s);
    }
    if HasField(Trim(est, ordered, a, budget).bounded, s.key) {
      TrimOnlyRemoves(est, ordered, a, budget, s.key);
    }
  }

  // ---------------------------------------------------------------- two tokens for each mandatory text

  lemma {:induction false} CountInserted(sorted: seq<Segment>, x: Segment)
    ensures CountMandatory(InsertLe(NoLater, sorted, x)) == CountMandatory(sorted) + (if Mandatory(x) then 1 else 0)
  {
    hide Mandatory, NoLater;
    if sorted != [] {
      var front, last := sorted[..|sorted| - 1], sorted[|sorted| - 1];
      assert sorted == front + [last];
      CountSnoc(front, last);
      CountSnoc(sorted, x);
      CountInserted(front, x);
      CountSnoc(InsertLe(NoLater, front, x), last);
    } else {
      CountSnoc([], x);
      assert [] + [x] == [x];
    }
  }

  lemma {:induction false} CountSnoc(segments: seq<Segment>, x: Segment)
    ensures CountMandatory(segments + [x]) == CountMandatory(segments) + (if Mandatory(x) then 1 else 0)
  {
    hide Mandatory;
    if segments == [] {
      assert [] + [x] == [x] && [x][1..] == [];
    } else {
      CountSnoc(segments[1..], x);
      assert (segments + [x])[1..] == segments[1..] + [x];
    }
  }

  lemma {:induction false} CountOrdered(segments: seq<Segment>)
    ensures CountMandatory(Order(segments)) == CountMandatory(segments)
  {
    hide Mandatory, NoLater, InsertLe;
    if segments != [] {
      var front, last := segments[..|segments| - 1], segments[|segments| - 1];
      assert segments == front + [last];
      CountOrdered(front);
      CountSnoc(front, last);
      CountInserted(Order(front), last);
    }
  }

  lemma OneCharacterFits(value: string)
    requires value != ""
    ensures PrefixFits(Estimate, value, 1, 2)
  {
    var kept := StripRight(value[..1]);
    WeightConcat(kept, "...");
    AsciiTextWeight("...");
    PrefixWeight(kept, value[..1]);
    assert Weight(value[..1]) <= 4;
    EstimateTextMeasuresWeight(kept + "...");
    hide Weight, StripRight, EstimateText;
  }

  /** Two tokens hold one character with an ellipsis, so something is left of every text. */
  lemma SomethingIsLeft(value: string, allowance: int)
    requires value != "" && (allowance >= 2 || (allowance == 1 && EstimateText(value) == 1))
    ensures
      var cut := CompactValue(Estimate, Str(value), allowance);
      !Empty(cut) && Estimate(cut) <= allowance
  {
    TruncatedFits(value, allowance);
    if EstimateText(value) > allowance {
      TruncatedIsLongest(value, allowance);
      OneCharacterFits(value);
      assert Truncated(Estimate, value, allowance) != "" by {
        assert PrefixFits(Estimate, value, 1, allowance);
        hide Truncated, PrefixFits;
      }
    }
    hide Truncated, PrefixFits, EstimateText;
  }

  lemma MoreTimes(a: int, b: int, n: nat)
    requires a >= b
    ensures a * n >= b * n
  {
  }

  lemma OneLess(share: int, count: int)
    ensures share * count - share == share * (count - 1)
  {
  }

  lemma ShareTimesCount(remaining: nat, count: nat)
    requires count >= 1
    ensures remaining / count * count <= remaining < (remaining / count + 1) * count
  {
  }

  lemma ShareLeavesEnough(remaining: nat, count: nat)
    requires count >= 1 && remaining >= 2 * count
    ensures remaining / count >= 2 && remaining - remaining / count >= 2 * (count - 1)
  {
    ShareTimesCount(remaining, count);
    var share := remaining / count;
    if share >= 2 {
      MoreTimes(share, 2, count - 1);
      OneLess(share, count);
    } else {
      MoreTimes(2, share + 1, count);
    }
  }

  /** A mandatory text that may cost two tokens. */
  predicate RoomyText(s: Segment) {
    s.value.Str? && s.value.s != "" && s.maxTokens != 1
  }

  lemma RoomyIsPlaced(minimum: int, a: Allocation, s: Segment, left: nat, count: nat)
    requires left >= 1 && count >= 1 && a.remaining >= 2 * count
    requires Mandatory(s) && RoomyText(s)
    ensures
      var next := Place(Estimate, minimum, a, s, left, count);
      HasField(next.bounded, s.key) && next.remaining >= 2 * (count - 1)
  {
    ShareLeavesEnough(a.remaining, count);
    var allowance := Allowance(Estimate, minimum, s, a.remaining, left, count);
    assert Estimate(s.value) >= 1;
    assert allowance >= 2 || (allowance == 1 && Estimate(s.value) == 1);
    assert allowance <= a.remaining && (count > 1 ==> allowance <= a.remaining / count);
    SomethingIsLeft(s.value.s, allowance);
    hide CompactValue, Allowance, HasField, Estimate;
    var form := Form(Estimate, s, allowance);
    assert !Empty(form) && Estimate(form) <= allowance;
    LastIsThere(a.bounded, Field(s.key, form));
  }

  lemma {:induction false} RoomyArePlaced(minimum: int, ordered: seq<Segment>, budget: int, n: nat)
    requires DistinctKeys(ordered) && n <= |ordered| && budget >= 2 * CountMandatory(ordered)
    requires forall i :: 0 <= i < n ==> Mandatory(ordered[i]) && RoomyText(ordered[i])
    ensures
      var a := Placed(Estimate, minimum, ordered, budget, n);
      && a.remaining >= 2 * CountMandatory(ordered[n..])
      && (n > 0 ==> HasField(a.bounded, ordered[n - 1].key))
  {
    hide Place, Estimate, HasField, DistinctKeys, RoomyText, Mandatory;
    if n == 0 {
      assert ordered[0..] == ordered;
    } else {
      RoomyArePlaced(minimum, ordered, budget, n - 1);
      assert ordered[n - 1..][1..] == ordered[n..];
      var a := Placed(Estimate, minimum, ordered, budget, n - 1);
      RoomyIsPlaced(minimum, a, ordered[n - 1], |ordered| - (n - 1), CountMandatory(ordered[n - 1..]));
    }
  }

  lemma MandatoryComeFirst(segments: seq<Segment>, i: nat, k: nat)
    requires i <= k < |Order(segments)| && Mandatory(Order(segments)[k])
    ensures Mandatory(Order(segments)[i])
  {
    OrderSorts(segments);
    hide Order;
  }

  /** With two tokens for each required, pinned or protected section, if all of these are
      texts that may cost two, a bounded context drops none of them. */
  lemma MandatoryTextsSurvive(minimum: int, segments: seq<Segment>, budget: int, s: Segment)
    requires DistinctKeys(segments) && s in segments && Mandatory(s)
    requires forall o :: o in segments && Mandatory(o) ==> RoomyText(o)
    requires budget >= 2 * CountMandatory(segments)
    ensures s.key !in BoundedContext(Estimate, minimum, segments, budget).dropped
  {
    if !FitsWhole(Estimate, segments, budget) {
      var ordered := Order(segments);
      ContextIsPartitioned(Estimate, minimum, segments, budget);
      OrderKeepsKeys(segments);
      OrderSorts(segments);
      CountOrdered(segments);
      SameElements(segments, ordered);
      var k :| 0 <= k < |ordered| && ordered[k] == s;
      forall i | 0 <= i <= k
        ensures Mandatory(ordered[i]) && RoomyText(ordered[i])
      {
        MandatoryComeFirst(segments, i, k);
        assert ordered[i] in ordered;
      }
      hide Order, Place, Trim, Mandatory, RoomyText, Estimate, FitsWhole, Entries, CountMandatory;
      RoomyArePlaced(minimum, ordered, budget, k + 1);
      PlacedKeeps(Estimate, minimum, ordered, budget, |ordered|, k);
      hide Placed, HasField, Names, KeysOf, DistinctKeys;
      var placed := Placed(Estimate, minimum, ordered, budget, |ordered|);
      TrimKeepsMandatory(Estimate, ordered, placed, budget, s);
      NamesAre(Trim(Estimate, ordered, placed, budget).bounded, s.key);
    }
  }

  /** A budget of nothing keeps a lone pinned text whole; a budget of one token drops it. */
  lemma PinnedTextIsDroppedAtOne(est: Estimator, minimum: int, s: Segment)
    requires s.retention.Pinned? && s.value.Str? && est(s.value) > 1 && Empty(s.summary) && s.maxTokens <= 0
    requires est(Obj([Field(s.key, s.value)])) > 1
    ensures BoundedContext(est, minimum, [s], 0).bounded == [Field(s.key, s.value)]
    ensures BoundedContext(est, minimum, [s], 1).bounded == [] && BoundedContext(est, minimum, [s], 1).dropped == [s.key]
  {
    assert [s][..0] == [];
    assert SortLe(NoLater, []) == [];
    assert Order([s]) == [] + [s];
    assert Entries([s]) == [Field(s.key, s.value)];
    assert [s][0..] == [s] && [s][1..] == [];
    assert CountMandatory([s]) == 1 by { assert CountMandatory([]) == 0; }
    hide Order, CountMandatory, Entries;
    LonePinned(est, minimum, s, 0);
    LonePinned(est, minimum, s, 1);
    var none := LastRemovable([s], [Field(s.key, s.value)], 1);
    assert none == 0;
  }

  lemma LonePinned(est: Estimator, minimum: int, s: Segment, budget: nat)
    requires s.retention.Pinned? && s.value.Str? && est(s.value) > 1 && Empty(s.summary) && s.maxTokens <= 0 && budget <= 1
    ensures
      var a := Placed(est, minimum, [s], budget, 1);
      if budget == 0 then a.bounded == [Field(s.key, s.value)] else a.bounded == [] && a.dropped == [s.key]
  {
    assert [s][0..] == [s] && [s][1..] == [];
    assert CountMandatory([s]) == 1 by { assert CountMandatory([]) == 0; }
    assert Placed(est, minimum, [s], budget, 0) == Allocation([], [], [], [], [], [], budget);
    hide CountMandatory;
    var allowance := Allowance(est, minimum, s, budget, 1, 1);
    assert allowance == budget;
    if budget == 1 {
      assert Truncated(est, s.value.s, 1) == "";
      assert CompactValue(est, s.value, 1) == Str("");
    }
    hide CompactValue, Truncated, Allowance;
    assert [] + [Field(s.key, s.value)] == [Field(s.key, s.value)];
  }
}
