/** How the sections of a turn's context share one token budget. */
module ContextWindow {
  import opened Json
  import opened TokenEstimation
  import opened TextCutting
  import opened Sorting

  datatype Retention = Pinned | Protected | Ordinary

  /** `summary` is the summary in force for the section, cached or its own; none is `Null`. */
  datatype Segment = Segment(
    key: string, value: Value, required: bool, retention: Retention, tier: nat, priority: int,
    maxTokens: int, summary: Value)

  predicate Kept(s: Segment) {
    !s.retention.Ordinary?
  }

  predicate Mandatory(s: Segment) {
    s.required || Kept(s)
  }

  // ---------------------------------------------------------------- values cut to a budget

  /** What is left of a list: items are cut in turn, up to the first that does not fit. */
  function CompactItems(est: Estimator, items: seq<Value>, budget: int): (kept: seq<Value>)
    decreases items, 0
  {
    if items == [] then []
    else
      var compacted := CompactValue(est, items[0], budget);
      if Empty(compacted) || est(compacted) > budget then []
      else [compacted] + CompactItems(est, items[1..], budget - est(compacted))
  }

  /** What is left of a dictionary: entries that do not fit are passed over, until a key
      alone uses up the rest. */
  function CompactFields(est: Estimator, fields: seq<Field>, budget: int): (kept: seq<Field>)
    decreases fields, 0
  {
    if fields == [] then []
    else
      var keyCost := est(Str(fields[0].key));
      if keyCost >= budget then []
      else
        var compacted := CompactValue(est, fields[0].value, budget - keyCost);
        var cost := keyCost + est(compacted);
        if Empty(compacted) || cost > budget then CompactFields(est, fields[1..], budget)
        else [Field(fields[0].key, compacted)] + CompactFields(est, fields[1..], budget - cost)
  }

  function CompactValue(est: Estimator, value: Value, budget: int): Value
    decreases value, 1
  {
    if budget <= 0 then Null
    else if est(value) <= budget then value
    else
      match value
      case Str(s) => Str(Truncated(est, s, budget))
      case Arr(items) => Arr(CompactItems(est, items, budget))
      case Obj(fields) => Obj(CompactFields(est, fields, budget))
      case _ => Null
  }

  method Compact(est: Estimator, value: Value, budget: int) returns (compacted: Value)
    ensures compacted == CompactValue(est, value, budget)
    decreases value, 1
  {
    hide CompactItems, CompactFields;
    if budget <= 0 {
      return Null;
    }
    if est(value) <= budget {
      return value;
    }
    match value {
      case Str(s) =>
        var text := TruncateText(est, s, budget);
        compacted := Str(text);
      case Arr(items) =>
        var kept := CompactList(est, items, budget);
        compacted := Arr(kept);
      case Obj(fields) =>
        var kept := CompactEntries(est, fields, budget);
        compacted := Obj(kept);
      case _ =>
        compacted := Null;
    }
  }

  lemma ItemsFrom(est: Estimator, items: seq<Value>, i: nat, budget: int)
    requires i < |items|
    ensures
      var item := CompactValue(est, items[i], budget);
      CompactItems(est, items[i..], budget)
        == if Empty(item) || est(item) > budget then [] else [item] + CompactItems(est, items[i + 1..], budget - est(item))
  {
    hide CompactValue, Empty;
    assert items[i..][1..] == items[i + 1..];
  }

  lemma FieldsFrom(est: Estimator, fields: seq<Field>, i: nat, budget: int)
    requires i < |fields|
    ensures
      var keyCost := est(Str(fields[i].key));
      var item := CompactValue(est, fields[i].value, budget - keyCost);
      var cost := keyCost + est(item);
      var rest := fields[i + 1..];
      CompactFields(est, fields[i..], budget)
        == if keyCost >= budget then []
           else if Empty(item) || cost > budget then CompactFields(est, rest, budget)
           else [Field(fields[i].key, item)] + CompactFields(est, rest, budget - cost)
  {
    hide CompactValue, Empty;
    assert fields[i..][1..] == fields[i + 1..];
  }

  method CompactList(est: Estimator, items: seq<Value>, budget: int) returns (kept: seq<Value>)
    ensures kept == CompactItems(est, items, budget)
    decreases items, 0
  {
    kept := [];
    var remaining := budget;
    assert items[0..] == items;
    hide CompactValue, CompactItems, Empty;
    for i := 0 to |items|
      invariant kept + CompactItems(est, items[i..], remaining) == CompactItems(est, items, budget)
    {
      ItemsFrom(est, items, i, remaining);
      var item := Compact(est, items[i], remaining);
      if Empty(item) || est(item) > remaining {
        return;
      }
      ghost var rest := CompactItems(est, items[i + 1..], remaining - est(item));
      assert kept + ([item] + rest) == (kept + [item]) + rest;
      kept := kept + [item];
      remaining := remaining - est(item);
    }
    NoItems(est, items[|items|..], remaining);
  }

  lemma NoItems(est: Estimator, items: seq<Value>, budget: int)
    requires items == []
    ensures CompactItems(est, items, budget) == []
  {
  }

  lemma NoFields(est: Estimator, fields: seq<Field>, budget: int)
    requires fields == []
    ensures CompactFields(est, fields, budget) == []
  {
  }

  lemma OneMoreEntry(kept: seq<Field>, entry: Field, rest: seq<Field>)
    ensures kept + ([entry] + rest) == (kept + [entry]) + rest
  {
  }

  lemma EntryPassed(est: Estimator, fields: seq<Field>, i: nat, budget: int, item: Value)
    requires i < |fields| && est(Str(fields[i].key)) < budget
    requires item == CompactValue(est, fields[i].value, budget - est(Str(fields[i].key)))
    requires Empty(item) || est(Str(fields[i].key)) + est(item) > budget
    ensures CompactFields(est, fields[i..], budget) == CompactFields(est, fields[i + 1..], budget)
  {
    hide CompactValue, CompactFields, Empty;
    FieldsFrom(est, fields, i, budget);
  }

  lemma EntryKept(est: Estimator, fields: seq<Field>, i: nat, budget: int, item: Value, kept: seq<Field>)
    requires i < |fields| && est(Str(fields[i].key)) < budget
    requires item == CompactValue(est, fields[i].value, budget - est(Str(fields[i].key)))
    requires !Empty(item) && est(Str(fields[i].key)) + est(item) <= budget
    ensures
      var entry, cost := Field(fields[i].key, item), est(Str(fields[i].key)) + est(item);
      kept + CompactFields(est, fields[i..], budget) == (kept + [entry]) + CompactFields(est, fields[i + 1..], budget - cost)
  {
    hide CompactValue, CompactFields, Empty;
    FieldsFrom(est, fields, i, budget);
    OneMoreEntry(kept, Field(fields[i].key, item),
                 CompactFields(est, fields[i + 1..], budget - (est(Str(fields[i].key)) + est(item))));
  }

  method CompactEntries(est: Estimator, fields: seq<Field>, budget: int) returns (kept: seq<Field>)
    ensures kept == CompactFields(est, fields, budget)
    decreases fields, 0
  {
    hide CompactValue, CompactFields, Empty;
    kept := [];
    var remaining := budget;
    assert fields[0..] == fields;
    for i := 0 to |fields|
      invariant kept + CompactFields(est, fields[i..], remaining) == CompactFields(est, fields, budget)
    {
      var keyCost := est(Str(fields[i].key));
      if keyCost >= remaining {
        FieldsFrom(est, fields, i, remaining);
        return;
      }
      var item := Compact(est, fields[i].value, remaining - keyCost);
      var cost := keyCost + est(item);
      if !Empty(item) && cost <= remaining {
        EntryKept(est, fields, i, remaining, item, kept);
        kept := kept + [Field(fields[i].key, item)];
        remaining := remaining - cost;
      } else {
        EntryPassed(est, fields, i, remaining, item);
      }
    }
    NoFields(est, fields[|fields|..], remaining);
  }

  // ---------------------------------------------------------------- order

  /** Mandatory sections first, then by tier, then by priority, the highest first. */
  predicate NoLater(a: Segment, b: Segment) {
    if Mandatory(a) != Mandatory(b) then Mandatory(a)
    else if a.tier != b.tier then a.tier < b.tier
    else a.priority >= b.priority
  }

  function Order(segments: seq<Segment>): seq<Segment> {
    SortLe(NoLater, segments)
  }

  // ---------------------------------------------------------------- allocation

  datatype Allocation = Allocation(
    bounded: seq<Field>, dropped: seq<string>, truncated: seq<string>, summarized: seq<string>,
    retainedRequired: seq<string>, retainedProtected: seq<string>, remaining: nat)

  function Smaller(a: int, b: int): int {
    if a < b then a else b
  }

  function Larger(a: int, b: int): int {
    if a > b then a else b
  }

  function CountMandatory(segments: seq<Segment>): nat {
    if segments == [] then 0
    else CountMandatory(segments[1..]) + (if Mandatory(segments[0]) then 1 else 0)
  }

  /** What a section may cost, with so many sections and mandatory ones left to place. */
  function Allowance(est: Estimator, minimum: int, s: Segment, remaining: nat, left: nat, mandatoryLeft: nat): int
    requires left >= 1
  {
    var valueTokens := est(s.value);
    var fairShare := if left <= 1 then remaining else Larger(minimum, remaining / left);
    var share := if mandatoryLeft > 1 then remaining / mandatoryLeft else remaining;
    var cap := if Mandatory(s) then Larger(1, share) else fairShare;
    Smaller(Smaller(remaining, valueTokens), Smaller(if s.maxTokens > 0 then s.maxTokens else valueTokens, cap))
  }

  predicate HasSummary(s: Segment) {
    !Empty(s.summary)
  }

  predicate UsesSummary(est: Estimator, s: Segment, allowance: int) {
    HasSummary(s) && est(s.value) > allowance && est(s.summary) <= allowance
  }

  /** The form in which a section with an allowance is offered. */
  function Form(est: Estimator, s: Segment, allowance: int): Value {
    if UsesSummary(est, s, allowance) then s.summary else CompactValue(est, s.value, allowance)
  }

  predicate NoRoom(minimum: int, s: Segment, allowance: int) {
    allowance <= 0 || (!Mandatory(s) && allowance < minimum)
  }

  function Place(est: Estimator, minimum: int, a: Allocation, s: Segment, left: nat, mandatoryLeft: nat): Allocation
    requires left >= 1
  {
    var allowance := Allowance(est, minimum, s, a.remaining, left, mandatoryLeft);
    if NoRoom(minimum, s, allowance) then
      if Kept(s) then
        a.(bounded := a.bounded + [Field(s.key, if HasSummary(s) then s.summary else s.value)],
           retainedRequired := a.retainedRequired + [s.key],
           retainedProtected := a.retainedProtected + [s.key],
           truncated := a.truncated + [s.key])
      else a.(dropped := a.dropped + [s.key])
    else
      var form := Form(est, s, allowance);
      var noted := a.(summarized := a.summarized + (if UsesSummary(est, s, allowance) then [s.key] else []));
      if Empty(form) || est(form) > a.remaining then noted.(dropped := a.dropped + [s.key])
      else
        noted.(
          bounded := a.bounded + [Field(s.key, form)],
          remaining := a.remaining - est(form),
          retainedRequired := a.retainedRequired + (if s.required then [s.key] else []),
          retainedProtected := a.retainedProtected + (if Kept(s) then [s.key] else []),
          truncated := a.truncated + (if est(form) < est(s.value) then [s.key] else []))
  }

  /** The allocation after the first `n` sections. */
  function Placed(est: Estimator, minimum: int, ordered: seq<Segment>, budget: int, n: nat): Allocation
    requires n <= |ordered|
  {
    if n == 0 then Allocation([], [], [], [], [], [], Larger(0, budget))
    else
      Place(est, minimum, Placed(est, minimum, ordered, budget, n - 1), ordered[n - 1],
            |ordered| - (n - 1), CountMandatory(ordered[n - 1..]))
  }

  // ---------------------------------------------------------------- trimming

  predicate HasField(fields: seq<Field>, key: string) {
    exists i :: 0 <= i < |fields| && fields[i].key == key
  }

  function Without(fields: seq<Field>, key: string): seq<Field> {
    if fields == [] then []
    else
      var last := fields[|fields| - 1];
      Without(fields[..|fields| - 1], key) + (if last.key == key then [] else [last])
  }

  /** Drops the first occurrence, as a list's `remove` does. */
  function Minus(keys: seq<string>, key: string): seq<string> {
    if keys == [] then [] else if keys[0] == key then keys[1..] else [keys[0]] + Minus(keys[1..], key)
  }

  /** The position after the last optional section that is still there; 0 if none is. */
  function LastRemovable(ordered: seq<Segment>, fields: seq<Field>, below: nat): (at: nat)
    requires below <= |ordered|
    ensures at <= below
    ensures at > 0 ==> HasField(fields, ordered[at - 1].key) && !Mandatory(ordered[at - 1])
    ensures forall i :: at <= i < below ==> !HasField(fields, ordered[i].key) || Mandatory(ordered[i])
  {
    if below == 0 then 0
    else if HasField(fields, ordered[below - 1].key) && !Mandatory(ordered[below - 1]) then below
    else LastRemovable(ordered, fields, below - 1)
  }

  function Drop(a: Allocation, key: string): Allocation {
    a.(bounded := Without(a.bounded, key),
       dropped := if key in a.dropped then a.dropped else a.dropped + [key],
       truncated := Minus(a.truncated, key),
       summarized := Minus(a.summarized, key),
       retainedRequired := Minus(a.retainedRequired, key))
  }

  predicate OverBudget(est: Estimator, a: Allocation, budget: int) {
    a.bounded != [] && est(Obj(a.bounded)) > budget
  }

  lemma {:induction false} WithoutIsShorter(fields: seq<Field>, key: string)
    ensures |Without(fields, key)| <= |fields|
    ensures HasField(fields, key) ==> |Without(fields, key)| < |fields|
  {
    if fields != [] {
      var front := fields[..|fields| - 1];
      WithoutIsShorter(front, key);
      assert HasField(fields, key) ==> HasField(front, key) || fields[|fields| - 1].key == key by {
        if HasField(fields, key) {
          var i :| 0 <= i < |fields| && fields[i].key == key;
          assert i < |front| ==> front[i].key == key;
        }
      }
    }
  }

  function Trim(est: Estimator, ordered: seq<Segment>, a: Allocation, budget: int): Allocation
    decreases |a.bounded|
  {
    if !OverBudget(est, a, budget) then a
    else
      var at := LastRemovable(ordered, a.bounded, |ordered|);
      if at == 0 then a
      else
        var key := ordered[at - 1].key;
        WithoutIsShorter(a.bounded, key);
        Trim(est, ordered, Drop(a, key), budget)
  }

  // ---------------------------------------------------------------- the whole context

  function Entries(segments: seq<Segment>): seq<Field> {
    seq(|segments|, i requires 0 <= i < |segments| => Field(segments[i].key, segments[i].value))
  }

  /** The context is left alone when it fits as it is. */
  predicate FitsWhole(est: Estimator, segments: seq<Segment>, budget: int) {
    segments == [] || est(Obj(Entries(segments))) <= budget
  }

  function RequiredKeys(segments: seq<Segment>): seq<string> {
    if segments == [] then [] else (if segments[0].required then [segments[0].key] else []) + RequiredKeys(segments[1..])
  }

  function KeptKeys(segments: seq<Segment>): seq<string> {
    if segments == [] then [] else (if Kept(segments[0]) then [segments[0].key] else []) + KeptKeys(segments[1..])
  }

  function WholeContext(segments: seq<Segment>, budget: int): Allocation {
    Allocation(Entries(segments), [], [], [], RequiredKeys(segments), KeptKeys(segments), Larger(0, budget))
  }

  function BoundedContext(est: Estimator, minimum: int, segments: seq<Segment>, budget: int): Allocation {
    var ordered := Order(segments);
    if FitsWhole(est, segments, budget) then WholeContext(segments, budget)
    else Trim(est, ordered, Placed(est, minimum, ordered, budget, |ordered|), budget)
  }

  method BoundContext(est: Estimator, minimum: int, segments: seq<Segment>, budget: int) returns (a: Allocation)
    ensures a == BoundedContext(est, minimum, segments, budget)
  {
    hide Place, Order, FitsWhole, WholeContext, PlacedOnce, HasField, Mandatory;
    if FitsWhole(est, segments, budget) {
      return WholeContext(segments, budget);
    }
    var ordered := Order(segments);
    a := Allocation([], [], [], [], [], [], Larger(0, budget));
    for n := 0 to |ordered|
      invariant a == Placed(est, minimum, ordered, budget, n)
    {
      a := PlaceSection(est, minimum, a, ordered[n], |ordered| - n, CountMandatory(ordered[n..]));
    }
    hide Placed;
    ghost var placed := a;
    while OverBudget(est, a, budget)
      invariant Trim(est, ordered, a, budget) == Trim(est, ordered, placed, budget)
      decreases |a.bounded|
    {
      var at := LastRemovable(ordered, a.bounded, |ordered|);
      if at == 0 {
        return;
      }
      WithoutIsShorter(a.bounded, ordered[at - 1].key);
      a := Drop(a, ordered[at - 1].key);
    }
  }

  /** The section is either dropped, or added last and paid for; only the fallback of a
      pinned or protected section, for which there is no room, is added without payment. */
  ghost predicate PlacedOnce(est: Estimator, a: Allocation, s: Segment, next: Allocation) {
    || (next.bounded == a.bounded && next.remaining == a.remaining && next.dropped == a.dropped + [s.key])
    || exists v: Value ::
         && next.bounded == a.bounded + [Field(s.key, v)] && next.dropped == a.dropped
         && (next.remaining == a.remaining - est(v) || (Kept(s) && next.remaining == a.remaining))
  }

  method PlaceSection(est: Estimator, minimum: int, a: Allocation, s: Segment, left: nat, mandatoryLeft: nat)
    returns (next: Allocation)
    requires left >= 1
    ensures next == Place(est, minimum, a, s, left, mandatoryLeft)
    ensures PlacedOnce(est, a, s, next)
    ensures s.required && next.dropped == a.dropped ==> s.key in next.retainedRequired
  {
    hide CompactValue;
    var allowance := Allowance(est, minimum, s, a.remaining, left, mandatoryLeft);
    next := a;
    if NoRoom(minimum, s, allowance) {
      if Kept(s) {
        next := next.(bounded := next.bounded + [Field(s.key, if HasSummary(s) then s.summary else s.value)]);
        next := next.(retainedRequired := next.retainedRequired + [s.key]);
        next := next.(retainedProtected := next.retainedProtected + [s.key]);
        next := next.(truncated := next.truncated + [s.key]);
        return;
      }
      next := next.(dropped := next.dropped + [s.key]);
      return;
    }
    var form;
    if UsesSummary(est, s, allowance) {
      form := s.summary;
      next := next.(summarized := next.summarized + [s.key]);
    } else {
      form := Compact(est, s.value, allowance);
      assert a.summarized + [] == a.summarized;
    }
    if Empty(form) || est(form) > next.remaining {
      next := next.(dropped := next.dropped + [s.key]);
      return;
    }
    next := next.(bounded := next.bounded + [Field(s.key, form)]);
    next := next.(remaining := next.remaining - est(form));
    next := next.(retainedRequired := next.retainedRequired + (if s.required then [s.key] else []));
    next := next.(retainedProtected := next.retainedProtected + (if Kept(s) then [s.key] else []));
    next := next.(truncated := next.truncated + (if est(form) < est(s.value) then [s.key] else []));
  }
}
