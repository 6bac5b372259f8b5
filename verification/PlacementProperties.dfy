/** In what form each section of a context is placed, and which optional sections are
    turned down or trimmed, told from the numbers the caller has. */
module PlacementProperties {
  import opened Json
  import opened PyText
  import opened TokenEstimation
  import opened Sorting
  import opened TextCutting
  import opened ContextWindow
  import opened ContextWindowProperties

  // ---------------------------------------------------------------- the order of sections

  /** The sections of one rank, in their order. */
  ghost function OfRank(segments: seq<Segment>, mandatory: bool, tier: nat, priority: int): seq<Segment> {
    if segments == [] then []
    else
      var last := segments[|segments| - 1];
      OfRank(segments[..|segments| - 1], mandatory, tier, priority)
      + if (last.required || !last.retention.Ordinary?) == mandatory && last.tier == tier && last.priority == priority
        then [last] else []
  }

  /** Required, pinned and protected sections come first, and then lower tiers, and then
      higher priorities; sections that agree in all this keep the order given. */
  lemma SectionsAreRanked(segments: seq<Segment>, s: Segment)
    ensures
      var ordered := Order(segments);
      && multiset(ordered) == multiset(segments)
      && (forall i, j :: 0 <= i < j < |ordered| ==>
            var a, b := ordered[i], ordered[j];
            var first, second := a.required || !a.retention.Ordinary?, b.required || !b.retention.Ordinary?;
            (second ==> first) && (first == second ==> a.tier <= b.tier && (a.tier == b.tier ==> a.priority >= b.priority)))
      && var mandatory := s.required || !s.retention.Ordinary?;
         OfRank(ordered, mandatory, s.tier, s.priority) == OfRank(segments, mandatory, s.tier, s.priority)
  {
    OrderSorts(segments);
    SortLeIsStable(NoLater, segments, s);
    RankIsEqual(segments, s);
    RankIsEqual(Order(segments), s);
    var ordered := Order(segments);
    assert ordered == SortLe(NoLater, segments);
    hide Order, OfRank, SortLe, Equals;
    forall i, j | 0 <= i < j < |ordered|
      ensures NoLater(ordered[i], ordered[j])
    {
    }
  }

  lemma {:induction false} RankIsEqual(segments: seq<Segment>, s: Segment)
    ensures Equals(NoLater, segments, s)
         == OfRank(segments, s.required || !s.retention.Ordinary?, s.tier, s.priority)
  {
    if segments != [] {
      RankIsEqual(segments[..|segments| - 1], s);
    }
  }

  /** How many sections are mandatory, which is what an equal part is an equal part of. */
  lemma MandatoryAreCounted(segments: seq<Segment>, s: Segment)
    ensures CountMandatory([]) == 0
    ensures CountMandatory(segments + [s]) == CountMandatory(segments) + if s.required || !s.retention.Ordinary? then 1 else 0
  {
    CountSnoc(segments, s);
  }

  // ---------------------------------------------------------------- one section in its turn

  /** The least of four numbers. */
  ghost predicate LeastOf(x: int, a: int, b: int, c: int, d: int) {
    x <= a && x <= b && x <= c && x <= d && (x == a || x == b || x == c || x == d)
  }

  /** What a section may cost at most by itself: its own limit, if it has one. */
  function OwnLimit(est: Estimator, s: Segment): int {
    if s.maxTokens > 0 then s.maxTokens else est(s.value)
  }

  /** The part of the room left that a section may take: with mandatory sections to come an
      equal part among these, for others an equal part among all sections to come, but the
      minimum at least, and the whole room for the last one. */
  function FairPart(minimum: int, s: Segment, remaining: nat, left: nat, mandatoryLeft: nat): int
    requires left >= 1
  {
    if s.required || !s.retention.Ordinary? then
      var part := if mandatoryLeft >= 2 then remaining / mandatoryLeft else remaining;
      if part >= 1 then part else 1
    else if left == 1 then remaining
    else if remaining / left >= minimum then remaining / left
    else minimum
  }

  lemma AllowanceIsLeast(est: Estimator, minimum: int, s: Segment, remaining: nat, left: nat, mandatoryLeft: nat)
    requires left >= 1
    ensures LeastOf(Allowance(est, minimum, s, remaining, left, mandatoryLeft),
                    remaining, est(s.value), OwnLimit(est, s), FairPart(minimum, s, remaining, left, mandatoryLeft))
  {
  }

  /** The form a section takes when it may cost `x`: its summary, if only that fits, and
      otherwise what is left of its value, which is all of it if it costs no more. */
  function FormFor(est: Estimator, s: Segment, x: int): Value {
    if est(s.value) <= x then (if x >= 1 then s.value else Null)
    else if !Empty(s.summary) && est(s.summary) <= x then s.summary
    else CompactValue(est, s.value, x)
  }

  lemma FormIs(est: Estimator, s: Segment, x: int)
    ensures Form(est, s, x) == FormFor(est, s, x)
  {
    hide Empty, CompactItems, CompactFields, Truncated;
  }

  /** The section is added last, in this form and at this price, and noted wherever it belongs. */
  ghost predicate Added(est: Estimator, a: Allocation, s: Segment, form: Value, summarized: bool, next: Allocation) {
    && next.bounded == a.bounded + [Field(s.key, form)] && next.dropped == a.dropped
    && next.remaining == a.remaining - est(form)
    && next.truncated == a.truncated + (if est(form) < est(s.value) then [s.key] else [])
    && next.summarized == a.summarized + (if summarized then [s.key] else [])
    && next.retainedRequired == a.retainedRequired + (if s.required then [s.key] else [])
    && next.retainedProtected == a.retainedProtected + (if s.retention.Ordinary? then [] else [s.key])
  }

  /** The section is added whole or as its summary, whatever it costs, and without payment. */
  ghost predicate AddedUnpaid(a: Allocation, s: Segment, next: Allocation) {
    next == a.(bounded := a.bounded + [Field(s.key, if Empty(s.summary) then s.value else s.summary)],
               truncated := a.truncated + [s.key],
               retainedRequired := a.retainedRequired + [s.key],
               retainedProtected := a.retainedProtected + [s.key])
  }

  ghost predicate DroppedOnly(a: Allocation, s: Segment, next: Allocation) {
    next == a.(dropped := a.dropped + [s.key])
  }

  /** What happens to a section in its turn, with `x` the least of the room left, its
      cost, its own limit and its fair part. An optional section is placed if and only if
      that is at least one token and the minimum, and something is left of it that fits
      the room; a mandatory one needs no minimum; and a pinned or protected one is added
      without payment when there is no token for it. */
  lemma SectionIsPlacedExactly(
      est: Estimator, minimum: int, a: Allocation, s: Segment, left: nat, mandatoryLeft: nat, x: int)
    requires left >= 1
    requires LeastOf(x, a.remaining, est(s.value), OwnLimit(est, s), FairPart(minimum, s, a.remaining, left, mandatoryLeft))
    ensures
      var next := Place(est, minimum, a, s, left, mandatoryLeft);
      var form := FormFor(est, s, x);
      var optional := !s.required && s.retention.Ordinary?;
      var summarized := est(s.value) > x && !Empty(s.summary) && est(s.summary) <= x;
      if x <= 0 || (optional && x < minimum) then
        if s.retention.Ordinary? then DroppedOnly(a, s, next) else AddedUnpaid(a, s, next)
      else if Empty(form) || est(form) > a.remaining then DroppedOnly(a, s, next)
      else Added(est, a, s, form, summarized, next)
  {
    AllowanceIsLeast(est, minimum, s, a.remaining, left, mandatoryLeft);
    FormIs(est, s, x);
    assert x == Allowance(est, minimum, s, a.remaining, left, mandatoryLeft);
    hide Allowance, CompactValue, FairPart, OwnLimit, Form, FormFor, LeastOf;
    assert Form(est, s, x) == FormFor(est, s, x);
    SummaryIsUsed(est, s, x);
    assert a.summarized + [] == a.summarized;
  }

  lemma SummaryIsUsed(est: Estimator, s: Segment, x: int)
    ensures UsesSummary(est, s, x) <==> est(s.value) > x && !Empty(s.summary) && est(s.summary) <= x
    ensures UsesSummary(est, s, x) ==> Form(est, s, x) == s.summary && !Empty(Form(est, s, x)) && est(Form(est, s, x)) <= x
  {
  }

  // ---------------------------------------------------------------- optional sections of a whole context

  /** Where a section stands once all are placed: exactly where its turn left it. */
  lemma PlacedInTurn(est: Estimator, minimum: int, ordered: seq<Segment>, budget: int, k: nat)
    requires DistinctKeys(ordered) && k < |ordered|
    ensures
      var before := Placed(est, minimum, ordered, budget, k);
      var after := Place(est, minimum, before, ordered[k], |ordered| - k, CountMandatory(ordered[k..]));
      var stands := HasField(Placed(est, minimum, ordered, budget, |ordered|).bounded, ordered[k].key);
      && after == Placed(est, minimum, ordered, budget, k + 1)
      && !HasField(before.bounded, ordered[k].key)
      && (stands <==> HasField(after.bounded, ordered[k].key))
  {
    PlacedKeeps(est, minimum, ordered, budget, |ordered|, k);
    PlacedKeeps(est, minimum, ordered, budget, k, k);
    hide Place, HasField, DistinctKeys;
  }

  /** Which optional sections are placed: with `x` what the section may cost in its turn,
      those for which that is at least one token and the minimum and of which something
      that fits the room is left. (Trimming may take them again.) */
  lemma OptionalSectionIsPlacedExactly(est: Estimator, minimum: int, ordered: seq<Segment>, budget: int, k: nat, x: int)
    requires DistinctKeys(ordered) && k < |ordered| && !ordered[k].required && ordered[k].retention.Ordinary?
    requires
      var room := Placed(est, minimum, ordered, budget, k).remaining;
      LeastOf(x, room, est(ordered[k].value), OwnLimit(est, ordered[k]),
              FairPart(minimum, ordered[k], room, |ordered| - k, CountMandatory(ordered[k..])))
    ensures
      var form, room := FormFor(est, ordered[k], x), Placed(est, minimum, ordered, budget, k).remaining;
      var stands := HasField(Placed(est, minimum, ordered, budget, |ordered|).bounded, ordered[k].key);
      stands <==> x >= 1 && x >= minimum && !Empty(form) && est(form) <= room
  {
    var before := Placed(est, minimum, ordered, budget, k);
    PlacedInTurn(est, minimum, ordered, budget, k);
    hide DistinctKeys, Placed;
    OptionalInTurn(est, minimum, before, ordered[k], |ordered| - k, CountMandatory(ordered[k..]), x);
    hide Place, HasField, LeastOf, FairPart, OwnLimit, FormFor;
  }

  lemma OptionalInTurn(
      est: Estimator, minimum: int, a: Allocation, s: Segment, left: nat, mandatoryLeft: nat, x: int)
    requires left >= 1 && !s.required && s.retention.Ordinary? && !HasField(a.bounded, s.key)
    requires LeastOf(x, a.remaining, est(s.value), OwnLimit(est, s), FairPart(minimum, s, a.remaining, left, mandatoryLeft))
    ensures
      var form := FormFor(est, s, x);
      var stands := HasField(Place(est, minimum, a, s, left, mandatoryLeft).bounded, s.key);
      stands <==> x >= 1 && x >= minimum && !Empty(form) && est(form) <= a.remaining
  {
    SectionIsPlacedExactly(est, minimum, a, s, left, mandatoryLeft, x);
    hide Place, HasField, LeastOf, FairPart, OwnLimit, FormFor, Empty;
    LastIsThere(a.bounded, Field(s.key, FormFor(est, s, x)));
  }

  /** An optional section that costs less than the minimum, or is limited to less, is never
      placed: in a context that does not fit whole it is dropped, whatever the budget. */
  lemma CheapSectionIsDropped(est: Estimator, minimum: int, segments: seq<Segment>, budget: int, s: Segment)
    requires DistinctKeys(segments) && s in segments && !s.required && s.retention.Ordinary?
    requires est(s.value) < minimum || 0 < s.maxTokens < minimum
    requires !FitsWhole(est, segments, budget)
    ensures s.key in BoundedContext(est, minimum, segments, budget).dropped
  {
    var ordered := Order(segments);
    OrderKeepsKeys(segments);
    OrderSorts(segments);
    SameElements(segments, ordered);
    hide Order, FitsWhole, Placed, HasField, DistinctKeys;
    var k :| 0 <= k < |ordered| && ordered[k] == s;
    CheapIsNotPlaced(est, minimum, ordered, budget, k);
    NotPlacedIsDropped(est, minimum, segments, budget, s);
  }

  /** A section that was not placed is among those dropped. */
  lemma NotPlacedIsDropped(est: Estimator, minimum: int, segments: seq<Segment>, budget: int, s: Segment)
    requires DistinctKeys(segments) && s in segments && !FitsWhole(est, segments, budget)
    requires !HasField(Placed(est, minimum, Order(segments), budget, |Order(segments)|).bounded, s.key)
    ensures s.key in BoundedContext(est, minimum, segments, budget).dropped
  {
    ContextIsPartitioned(est, minimum, segments, budget);
    hide Order, FitsWhole, Entries, Place, Placed, Trim, HasField, Names, DistinctKeys, NoTwice;
    var ordered := Order(segments);
    TrimBringsNothingBack(est, ordered, Placed(est, minimum, ordered, budget, |ordered|), budget, s.key);
    assert s.key in KeysOf(segments);
  }

  lemma CheapIsNotPlaced(est: Estimator, minimum: int, ordered: seq<Segment>, budget: int, k: nat)
    requires DistinctKeys(ordered) && k < |ordered| && !ordered[k].required && ordered[k].retention.Ordinary?
    requires est(ordered[k].value) < minimum || 0 < ordered[k].maxTokens < minimum
    ensures !HasField(Placed(est, minimum, ordered, budget, |ordered|).bounded, ordered[k].key)
  {
    var s, room := ordered[k], Placed(est, minimum, ordered, budget, k).remaining;
    var mandatoryLeft := CountMandatory(ordered[k..]);
    hide Placed, HasField, DistinctKeys, FairPart, CountMandatory;
    var x := LeastExists(room, est(s.value), OwnLimit(est, s), FairPart(minimum, s, room, |ordered| - k, mandatoryLeft));
    OptionalSectionIsPlacedExactly(est, minimum, ordered, budget, k, x);
    assert x < minimum;
  }

  lemma TrimBringsNothingBack(est: Estimator, ordered: seq<Segment>, a: Allocation, budget: int, key: string)
    requires !HasField(a.bounded, key)
    ensures key !in Names(Trim(est, ordered, a, budget).bounded)
  {
    NamesAre(Trim(est, ordered, a, budget).bounded, key);
    hide HasField, Names;
    if HasField(Trim(est, ordered, a, budget).bounded, key) {
      TrimOnlyRemoves(est, ordered, a, budget, key);
    }
  }

  // ---------------------------------------------------------------- room enough for every text

  function LargerOf(a: int, b: int): int {
    if a >= b then a else b
  }

  /** What is set aside for a section: for a mandatory one all it costs, for another the
      minimum, and two tokens at least. */
  function Need(minimum: int, s: Segment): nat {
    LargerOf(2, if Mandatory(s) then Estimate(s.value) else minimum)
  }

  function Needs(minimum: int, segments: seq<Segment>): nat {
    if segments == [] then 0 else Need(minimum, segments[0]) + Needs(minimum, segments[1..])
  }

  /** A text that may cost what is set aside for it and, if it is optional, costs the minimum. */
  predicate Placeable(minimum: int, s: Segment) {
    && s.value.Str? && s.value.s != ""
    && (s.maxTokens <= 0 || s.maxTokens >= LargerOf(2, minimum))
    && (Mandatory(s) || Estimate(s.value) >= minimum)
  }

  lemma PartOfPlenty(remaining: nat, count: nat, unit: nat)
    requires count >= 1 && remaining >= unit * count
    ensures remaining / count >= unit && remaining - remaining / count >= unit * (count - 1)
  {
    ShareTimesCount(remaining, count);
    var part := remaining / count;
    if part >= unit {
      MoreTimes(part, unit, count - 1);
      OneLess(part, count);
    } else {
      MoreTimes(unit, part + 1, count);
    }
  }

  /** A text is added at no more than it may cost. */
  lemma TextIsAdded(minimum: int, a: Allocation, s: Segment, left: nat, mandatoryLeft: nat, x: int)
    requires left >= 1 && s.value.Str? && s.value.s != ""
    requires LeastOf(x, a.remaining, Estimate(s.value), OwnLimit(Estimate, s), FairPart(minimum, s, a.remaining, left, mandatoryLeft))
    requires x >= 2 || (x == 1 && Estimate(s.value) == 1)
    requires Mandatory(s) || x >= minimum
    ensures
      var next := Place(Estimate, minimum, a, s, left, mandatoryLeft);
      && HasField(next.bounded, s.key) && next.dropped == a.dropped && next.remaining >= a.remaining - x
  {
    SectionIsPlacedExactly(Estimate, minimum, a, s, left, mandatoryLeft, x);
    SomethingIsLeft(s.value.s, x);
    hide Place, LeastOf, FairPart, OwnLimit, CompactValue, Estimate, HasField;
    var form := FormFor(Estimate, s, x);
    assert !Empty(form) && Estimate(form) <= x <= a.remaining by {
      LeastIsWithin(x, a.remaining, Estimate(s.value), OwnLimit(Estimate, s), FairPart(minimum, s, a.remaining, left, mandatoryLeft));
      FormOfText(s, x);
    }
    LastIsThere(a.bounded, Field(s.key, form));
  }

  lemma LeastIsWithin(x: int, a: int, b: int, c: int, d: int)
    requires LeastOf(x, a, b, c, d)
    ensures x <= a
  {
  }

  lemma FormOfText(s: Segment, x: int)
    requires s.value.Str? && s.value.s != "" && x >= 1
    requires
      var cut := CompactValue(Estimate, s.value, x);
      !Empty(cut) && Estimate(cut) <= x
    ensures !Empty(FormFor(Estimate, s, x)) && Estimate(FormFor(Estimate, s, x)) <= x
  {
    hide CompactValue, Estimate;
  }

  lemma LeastExists(a: int, b: int, c: int, d: int) returns (x: int)
    ensures LeastOf(x, a, b, c, d)
  {
    x := a;
    if b < x {
      x := b;
    }
    if c < x {
      x := c;
    }
    if d < x {
      x := d;
    }
  }

  lemma {:induction false} NeedsOfMandatory(minimum: int, segments: seq<Segment>)
    ensures Needs(minimum, segments) >= 2 * CountMandatory(segments)
  {
    hide Mandatory, Estimate;
    if segments != [] {
      NeedsOfMandatory(minimum, segments[1..]);
    }
  }

  lemma {:induction false} NeedsOfOptional(minimum: int, segments: seq<Segment>)
    requires forall s :: s in segments ==> !Mandatory(s)
    ensures Needs(minimum, segments) == LargerOf(2, minimum) * |segments|
  {
    hide Mandatory, Estimate;
    if segments != [] {
      NeedsOfOptional(minimum, segments[1..]);
      assert segments[0] in segments;
      OneLess(LargerOf(2, minimum), |segments|);
    }
  }

  /** A mandatory text gets two tokens or all it costs, and leaves what is set aside for others. */
  lemma MandatoryGetsEnough(minimum: int, a: Allocation, s: Segment, left: nat, mandatoryLeft: nat, others: nat)
    requires left >= 1 && mandatoryLeft >= 1 && Mandatory(s) && Placeable(minimum, s)
    requires a.remaining >= Need(minimum, s) + others && a.remaining >= 2 * mandatoryLeft
    ensures
      var next := Place(Estimate, minimum, a, s, left, mandatoryLeft);
      HasField(next.bounded, s.key) && next.dropped == a.dropped && next.remaining >= others
  {
    ShareLeavesEnough(a.remaining, mandatoryLeft);
    var x := LeastExists(a.remaining, Estimate(s.value), OwnLimit(Estimate, s), FairPart(minimum, s, a.remaining, left, mandatoryLeft));
    assert Estimate(s.value) >= 1;
    hide Place, HasField, Estimate;
    TextIsAdded(minimum, a, s, left, mandatoryLeft, x);
  }

  /** When only optional texts are left and an equal part is enough for one of them, the
      next gets that part at most and leaves the rest. */
  lemma OptionalGetsEnough(minimum: int, a: Allocation, s: Segment, left: nat, mandatoryLeft: nat, part: nat)
    requires left >= 1 && !Mandatory(s) && Placeable(minimum, s)
    requires part == a.remaining / left && part >= 2 && part >= minimum && part <= a.remaining
    ensures
      var next := Place(Estimate, minimum, a, s, left, mandatoryLeft);
      HasField(next.bounded, s.key) && next.dropped == a.dropped && next.remaining >= a.remaining - part
  {
    assert FairPart(minimum, s, a.remaining, left, mandatoryLeft) == part by {
      assert left == 1 ==> part == a.remaining;
      hide Estimate, HasField, Place;
    }
    assert Estimate(s.value) >= 1;
    hide Place, HasField, Estimate, FairPart;
    var x := LeastExists(a.remaining, Estimate(s.value), OwnLimit(Estimate, s), FairPart(minimum, s, a.remaining, left, mandatoryLeft));
    TextIsAdded(minimum, a, s, left, mandatoryLeft, x);
  }

  lemma {:induction false} EnoughIsLeft(minimum: int, ordered: seq<Segment>, budget: int, n: nat)
    requires DistinctKeys(ordered) && n <= |ordered| && budget >= Needs(minimum, ordered)
    requires forall s :: s in ordered ==> Placeable(minimum, s)
    requires forall i, j :: 0 <= i < j < |ordered| && Mandatory(ordered[j]) ==> Mandatory(ordered[i])
    ensures
      var a := Placed(Estimate, minimum, ordered, budget, n);
      && a.remaining >= Needs(minimum, ordered[n..]) && a.dropped == []
      && forall i :: 0 <= i < n ==> HasField(a.bounded, ordered[i].key)
  {
    hide Place, Estimate, HasField, DistinctKeys, Placeable, Mandatory, Need;
    if n == 0 {
      assert ordered[0..] == ordered;
    } else {
      EnoughIsLeft(minimum, ordered, budget, n - 1);
      var a, s, rest := Placed(Estimate, minimum, ordered, budget, n - 1), ordered[n - 1], ordered[n - 1..];
      assert rest[1..] == ordered[n..] && s in ordered;
      forall i | 0 <= i < n - 1
        ensures HasField(Placed(Estimate, minimum, ordered, budget, n).bounded, ordered[i].key)
      {
        PlacedKeeps(Estimate, minimum, ordered, budget, n, i);
        PlacedKeeps(Estimate, minimum, ordered, budget, n - 1, i);
      }
      NeedsOfMandatory(minimum, rest);
      if Mandatory(s) {
        MandatoryGetsEnough(minimum, a, s, |ordered| - (n - 1), CountMandatory(rest), Needs(minimum, ordered[n..]));
      } else {
        assert forall o :: o in rest ==> !Mandatory(o);
        NeedsOfOptional(minimum, rest);
        NeedsOfOptional(minimum, ordered[n..]);
        PartOfPlenty(a.remaining, |rest|, LargerOf(2, minimum));
        OptionalGetsEnough(minimum, a, s, |rest|, CountMandatory(rest), a.remaining / |rest|);
      }
    }
  }

  lemma {:induction false} NeedsOrderless(minimum: int, sorted: seq<Segment>, x: Segment)
    ensures Needs(minimum, InsertLe(NoLater, sorted, x)) == Needs(minimum, sorted) + Need(minimum, x)
  {
    hide Need, NoLater;
    if sorted != [] {
      var front, last := sorted[..|sorted| - 1], sorted[|sorted| - 1];
      assert sorted == front + [last];
      NeedsSnoc(minimum, front, last);
      NeedsSnoc(minimum, sorted, x);
      NeedsOrderless(minimum, front, x);
      NeedsSnoc(minimum, InsertLe(NoLater, front, x), last);
    } else {
      NeedsSnoc(minimum, [], x);
    }
  }

  lemma {:induction false} NeedsSnoc(minimum: int, segments: seq<Segment>, x: Segment)
    ensures Needs(minimum, segments + [x]) == Needs(minimum, segments) + Need(minimum, x)
  {
    hide Need;
    if segments == [] {
      assert [] + [x] == [x] && [x][1..] == [];
    } else {
      NeedsSnoc(minimum, segments[1..], x);
      assert (segments + [x])[1..] == segments[1..] + [x];
    }
  }

  lemma {:induction false} NeedsOrdered(minimum: int, segments: seq<Segment>)
    ensures Needs(minimum, Order(segments)) == Needs(minimum, segments)
  {
    hide Need, NoLater, InsertLe;
    if segments != [] {
      var front, last := segments[..|segments| - 1], segments[|segments| - 1];
      assert segments == front + [last];
      NeedsOrdered(minimum, front);
      NeedsSnoc(minimum, front, last);
      NeedsOrderless(minimum, Order(front), last);
    }
  }

  lemma AllArePlaced(minimum: int, segments: seq<Segment>, budget: int)
    requires DistinctKeys(segments) && budget >= Needs(minimum, segments)
    requires forall s :: s in segments ==> Placeable(minimum, s)
    ensures
      var placed := Placed(Estimate, minimum, Order(segments), budget, |Order(segments)|);
      placed.dropped == [] && forall s :: s in segments ==> HasField(placed.bounded, s.key)
  {
    var ordered := Order(segments);
    OrderKeepsKeys(segments);
    OrderSorts(segments);
    SameElements(segments, ordered);
    NeedsOrdered(minimum, segments);
    hide Order, Placed, HasField, DistinctKeys, Placeable, Mandatory, Estimate, NoLater, Needs, KeysOf;
    forall i, j | 0 <= i < j < |ordered| && Mandatory(ordered[j])
      ensures Mandatory(ordered[i])
    {
      MandatoryComeFirst(segments, i, j);
    }
    EnoughIsLeft(minimum, ordered, budget, |ordered|);
  }

  /** With a budget for all that mandatory sections cost and the minimum, two tokens at
      least, for each other section, no text is turned down when sections are placed; so
      sections are dropped only by trimming, if keys and punctuation are too much. */
  lemma EveryTextIsPlaced(minimum: int, segments: seq<Segment>, budget: int)
    requires DistinctKeys(segments) && budget >= Needs(minimum, segments)
    requires forall s :: s in segments ==> Placeable(minimum, s)
    ensures
      var placed := Placed(Estimate, minimum, Order(segments), budget, |Order(segments)|);
      && placed.dropped == []
      && (forall s :: s in segments ==> HasField(placed.bounded, s.key))
      && (placed.bounded == [] || Estimate(Obj(placed.bounded)) <= budget ==>
            BoundedContext(Estimate, minimum, segments, budget).dropped == [])
  {
    AllArePlaced(minimum, segments, budget);
    hide Order, Placed, HasField, DistinctKeys, Placeable, Estimate, Entries, Needs;
  }

  // ---------------------------------------------------------------- no section is trimmed without need

  /** The key of an optional section after the `i`th. */
  ghost predicate LaterOptional(ordered: seq<Segment>, i: nat, key: string) {
    exists j :: i < j < |ordered| && ordered[j].key == key && !Mandatory(ordered[j])
  }

  /** The entries without those of optional sections after the `i`th. */
  ghost function UpTo(ordered: seq<Segment>, i: nat, fields: seq<Field>): seq<Field> {
    if fields == [] then []
    else
      var last := fields[|fields| - 1];
      UpTo(ordered, i, fields[..|fields| - 1]) + (if LaterOptional(ordered, i, last.key) then [] else [last])
  }

  lemma {:induction false} UpToWithout(ordered: seq<Segment>, i: nat, fields: seq<Field>, key: string)
    requires LaterOptional(ordered, i, key)
    ensures UpTo(ordered, i, Without(fields, key)) == UpTo(ordered, i, fields)
  {
    hide LaterOptional;
    if fields != [] {
      var front, last := fields[..|fields| - 1], fields[|fields| - 1];
      UpToWithout(ordered, i, front, key);
      if last.key != key {
        assert (Without(front, key) + [last])[..|Without(front, key)|] == Without(front, key);
      } else {
        assert Without(front, key) + [] == Without(front, key);
        assert UpTo(ordered, i, front) + [] == UpTo(ordered, i, front);
      }
    }
  }

  lemma {:induction false} UpToAll(ordered: seq<Segment>, i: nat, fields: seq<Field>)
    requires forall key :: HasField(fields, key) ==> !LaterOptional(ordered, i, key)
    ensures UpTo(ordered, i, fields) == fields
  {
    hide LaterOptional;
    if fields != [] {
      var front, last := fields[..|fields| - 1], fields[|fields| - 1];
      assert fields == front + [last];
      LastIsThere(front, last);
      hide HasField;
      UpToAll(ordered, i, front);
    }
  }

  /** A section is trimmed only out of need: with it and all before it, and no optional
      section after it, the context was still over the budget. */
  lemma {:induction false} TrimmedOnlyOutOfNeed(est: Estimator, ordered: seq<Segment>, a: Allocation, budget: int, i: nat)
    requires DistinctKeys(ordered) && i < |ordered|
    requires HasField(a.bounded, ordered[i].key) && !HasField(Trim(est, ordered, a, budget).bounded, ordered[i].key)
    ensures est(Obj(UpTo(ordered, i, a.bounded))) > budget
    decreases |a.bounded|
  {
    hide Mandatory, HasField, Drop, LaterOptional, DistinctKeys;
    assert OverBudget(est, a, budget);
    var at := LastRemovable(ordered, a.bounded, |ordered|);
    if at > 0 {
      var key := ordered[at - 1].key;
      WithoutIsShorter(a.bounded, key);
      DropBounded(a, key);
      RemovedNames(a.bounded, key, ordered[i].key);
      if key == ordered[i].key {
        DistinctAt(ordered, i, at - 1);
        NoneLater(ordered, a.bounded, at - 1);
        UpToAll(ordered, i, a.bounded);
      } else {
        TrimmedOnlyOutOfNeed(est, ordered, Drop(a, key), budget, i);
        LaterIsTrimmedFirst(est, ordered, a, budget, i, at);
        UpToWithout(ordered, i, a.bounded, key);
      }
    }
  }

  lemma DistinctAt(ordered: seq<Segment>, i: nat, j: nat)
    requires DistinctKeys(ordered) && i < |ordered| && j < |ordered| && ordered[i].key == ordered[j].key
    ensures i == j
  {
    assert SegmentKey(ordered[i]) == SegmentKey(ordered[j]);
  }

  lemma NoneLater(ordered: seq<Segment>, fields: seq<Field>, i: nat)
    requires i + 1 == LastRemovable(ordered, fields, |ordered|)
    ensures forall key :: HasField(fields, key) ==> !LaterOptional(ordered, i, key)
  {
    hide HasField, Mandatory;
  }

  /** The section trimmed now is optional and comes after one that is trimmed later. */
  lemma LaterIsTrimmedFirst(est: Estimator, ordered: seq<Segment>, a: Allocation, budget: int, i: nat, at: nat)
    requires DistinctKeys(ordered) && i < |ordered| && OverBudget(est, a, budget)
    requires at == LastRemovable(ordered, a.bounded, |ordered|) && at > 0 && ordered[at - 1].key != ordered[i].key
    requires HasField(a.bounded, ordered[i].key) && !HasField(Trim(est, ordered, a, budget).bounded, ordered[i].key)
    ensures LaterOptional(ordered, i, ordered[at - 1].key)
  {
    hide HasField, Mandatory, Trim;
    if Mandatory(ordered[i]) {
      TrimKeepsMandatory(est, ordered, a, budget, ordered[i]);
    }
    assert i < at - 1;
  }

  // ---------------------------------------------------------------- what is noted of the sections left

  /** What was noted of the sections that are left stays noted, and nothing else. */
  lemma {:induction false} TrimKeepsNotes(est: Estimator, ordered: seq<Segment>, a: Allocation, budget: int, keys: set<string>)
    requires Partitioned(a, keys)
    ensures
      var final := Trim(est, ordered, a, budget);
      && Elems(final.truncated) == Elems(a.truncated) * Names(final.bounded)
      && Elems(final.summarized) == Elems(a.summarized) * Names(final.bounded)
      && Elems(final.retainedRequired) == Elems(a.retainedRequired) * Names(final.bounded)
    decreases |a.bounded|
  {
    hide Partitioned, Mandatory, HasField, Drop, Names, Elems;
    assert Noted(a) by { PartitionedIsNoted(a, keys); }
    if OverBudget(est, a, budget) {
      var at := LastRemovable(ordered, a.bounded, |ordered|);
      if at > 0 {
        var key := ordered[at - 1].key;
        WithoutIsShorter(a.bounded, key);
        DropKeepsPartition(a, keys, key);
        DropBounded(a, key);
        DropNotes(a, keys, key);
        TrimKeepsNotes(est, ordered, Drop(a, key), budget, keys);
        NamesOnlyShrink(est, ordered, Drop(a, key), budget);
      }
    }
  }

  ghost predicate Noted(a: Allocation) {
    Elems(a.truncated) <= Names(a.bounded) && Elems(a.summarized) <= Names(a.bounded) && Elems(a.retainedRequired) <= Names(a.bounded)
  }

  lemma PartitionedIsNoted(a: Allocation, keys: set<string>)
    requires Partitioned(a, keys)
    ensures Noted(a)
  {
    hide Names, Elems, NoTwice;
  }

  lemma DropNotes(a: Allocation, keys: set<string>, key: string)
    requires Partitioned(a, keys)
    ensures
      var next := Drop(a, key);
      && Names(next.bounded) == Names(a.bounded) - {key}
      && Elems(next.truncated) == Elems(a.truncated) - {key}
      && Elems(next.summarized) == Elems(a.summarized) - {key}
      && Elems(next.retainedRequired) == Elems(a.retainedRequired) - {key}
  {
    WithoutNames(a.bounded, key);
    MinusElems(a.truncated, key);
    MinusElems(a.summarized, key);
    MinusElems(a.retainedRequired, key);
    hide Names, Elems, NoTwice, Without, Minus;
  }

  lemma NamesOnlyShrink(est: Estimator, ordered: seq<Segment>, a: Allocation, budget: int)
    ensures Names(Trim(est, ordered, a, budget).bounded) <= Names(a.bounded)
  {
    hide Trim, Names;
    forall key | key in Names(Trim(est, ordered, a, budget).bounded)
      ensures key in Names(a.bounded)
    {
      NamesAre(Trim(est, ordered, a, budget).bounded, key);
      NamesAre(a.bounded, key);
      TrimOnlyRemoves(est, ordered, a, budget, key);
    }
  }

  // ---------------------------------------------------------------- a context that fits

  lemma {:induction false} ListedKeys(segments: seq<Segment>, key: string)
    ensures key in RequiredKeys(segments) <==> exists s :: s in segments && s.required && s.key == key
    ensures key in KeptKeys(segments) <==> exists s :: s in segments && !s.retention.Ordinary? && s.key == key
  {
    if segments != [] {
      ListedKeys(segments[1..], key);
      assert forall s :: s in segments <==> s == segments[0] || s in segments[1..];
    }
  }

  /** Sections that fit the budget together are all left as they are, in the order given. */
  lemma FittingContextIsWhole(est: Estimator, minimum: int, segments: seq<Segment>, fields: seq<Field>, budget: int)
    requires |fields| == |segments|
    requires forall i :: 0 <= i < |segments| ==> fields[i] == Field(segments[i].key, segments[i].value)
    requires segments == [] || est(Obj(fields)) <= budget
    ensures
      var a := BoundedContext(est, minimum, segments, budget);
      && a.bounded == fields && a.dropped == [] && a.truncated == [] && a.summarized == []
      && (forall key :: key in a.retainedRequired <==> exists s :: s in segments && s.required && s.key == key)
      && (forall key :: key in a.retainedProtected <==> exists s :: s in segments && !s.retention.Ordinary? && s.key == key)
  {
    assert fields == Entries(segments);
    hide Order, Trim, Placed;
    forall key {
      ListedKeys(segments, key);
    }
  }
}
