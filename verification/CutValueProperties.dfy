/** What is left of a list or a dictionary that is cut to a budget, and by how much it
    may still exceed it: items are counted one by one, without brackets and commas, and
    texts and keys without quotes and escapes. */
module CutValueProperties {
  import opened Json
  import opened PyText
  import opened TokenEstimation
  import opened EscapedText
  import opened TextCutting
  import opened ContextWindow
  import ContextWindowProperties

  // ---------------------------------------------------------------- counted one by one

  /** The items kept of a list cost no more than the budget when counted one by one, and
      each is what is left of the item it stands for. */
  lemma {:induction false} ListItemsFit(est: Estimator, items: seq<Value>, budget: int)
    ensures Total(est, CompactItems(est, items, budget)) <= Larger(0, budget)
    ensures |CompactItems(est, items, budget)| <= |items|
    ensures forall i :: 0 <= i < |CompactItems(est, items, budget)| ==> !Empty(CompactItems(est, items, budget)[i])
  {
    hide CompactValue;
    if items != [] {
      var first := CompactValue(est, items[0], budget);
      if !Empty(first) && est(first) <= budget {
        ListItemsFit(est, items[1..], budget - est(first));
        var rest := CompactItems(est, items[1..], budget - est(first));
        assert ([first] + rest)[1..] == rest;
      }
    }
  }

  /** Each item kept is what is left of it in the room that the ones before it leave; and
      the list ends before the first item of which nothing is left, or nothing that fits. */
  lemma {:induction false} ItemsAreCutInTurn(est: Estimator, items: seq<Value>, budget: int, i: nat)
    requires i < |items| && i <= |CompactItems(est, items, budget)|
    ensures
      var kept := CompactItems(est, items, budget);
      var room := budget - Total(est, kept[..i]);
      var item := CompactValue(est, items[i], room);
      && |kept| <= |items|
      && if i < |kept| then kept[i] == item && !Empty(item) && est(item) <= room
         else Empty(item) || est(item) > room
    decreases i
  {
    hide CompactValue, Empty;
    var kept := CompactItems(est, items, budget);
    ListItemsFit(est, items, budget);
    assert kept[..0] == [];
    if i > 0 {
      var rest := CompactItems(est, items[1..], budget - est(kept[0]));
      assert kept == [kept[0]] + rest;
      ItemsAreCutInTurn(est, items[1..], budget - est(kept[0]), i - 1);
      hide CompactItems;
      assert kept[..i][1..] == rest[..i - 1];
      assert Total(est, kept[..i]) == est(kept[0]) + Total(est, rest[..i - 1]);
      assert i < |kept| ==> kept[i] == rest[i - 1];
    }
  }

  /** What a text, the first item that does not fit, is cut to: the longest of its prefixes
      that fits the room left, when that is two tokens or more. */
  lemma NextTextIsCut(items: seq<Value>, budget: int, n: nat, left: int, next: string)
    requires n == FittingPrefix(items, budget) && left == budget - Total(Estimate, items[..n])
    requires n < |items| && items[n] == Str(next) && next != "" && left >= 2
    ensures
      var cut := CompactItems(Estimate, items, budget);
      |cut| > n && cut[..n] == items[..n] && cut[n] == Str(Truncated(Estimate, next, left))
  {
    hide *;
    PrefixStaysWhole(items, budget);
    ContextWindowProperties.SomethingIsLeft(next, left);
    assert items[n..][0] == items[n];
    TextComesFirst(items[n..], left, next);
    JoinedAt(items[..n], CompactItems(Estimate, items[n..], left));
  }

  lemma JoinedAt(front: seq<Value>, rest: seq<Value>)
    requires rest != []
    ensures |front + rest| > |front| && (front + rest)[..|front|] == front && (front + rest)[|front|] == rest[0]
  {
  }

  lemma TextComesFirst(items: seq<Value>, left: int, next: string)
    requires items != [] && items[0] == Str(next) && left >= 2
    requires
      var cut := CompactValue(Estimate, Str(next), left);
      !Empty(cut) && Estimate(cut) <= left
    ensures
      var cut := CompactItems(Estimate, items, left);
      cut != [] && cut[0] == Str(Truncated(Estimate, next, left))
  {
    CutTextIs(next, left);
    hide Estimate, Truncated, CompactValue, Empty;
  }

  lemma CutTextIs(s: string, budget: int)
    requires budget >= 1
    ensures CompactValue(Estimate, Str(s), budget) == Str(Truncated(Estimate, s, budget))
  {
    hide Estimate;
  }

  // ---------------------------------------------------------------- when a cut value fits

  /** What rounding gave away when the items were counted one by one; a text, counted
      without its quotes and escapes, can give less than nothing. */
  function Slack(items: seq<Value>): int {
    if items == [] then 0 else 4 * Estimate(items[0]) - WeightOf(items[0]) + Slack(items[1..])
  }

  lemma {:induction false} SlackIsWhatIsLeft(items: seq<Value>)
    ensures SpacedWeight(items) == 4 * Total(Estimate, items) - Slack(items) + |items|
  {
    hide Estimate, WeightOf;
    if items != [] {
      SlackIsWhatIsLeft(items[1..]);
    }
  }

  /** How many items at the front of a list fit one after the other, each whole. */
  function FittingPrefix(items: seq<Value>, budget: int): (n: nat)
    ensures n <= |items|
  {
    if items == [] || Empty(items[0]) || Estimate(items[0]) > budget then 0
    else 1 + FittingPrefix(items[1..], budget - Estimate(items[0]))
  }

  /** What the items that fit cost, and that the next one does not. */
  lemma {:induction false} PrefixFits(items: seq<Value>, budget: int)
    ensures
      var n := FittingPrefix(items, budget);
      && (n > 0 ==> Total(Estimate, items[..n]) <= budget)
      && (forall k :: 0 <= k < n ==> !Empty(items[k]))
      && (n < |items| ==> Empty(items[n]) || Total(Estimate, items[..n]) + Estimate(items[n]) > budget)
  {
    hide Estimate, Empty;
    var n := FittingPrefix(items, budget);
    if n > 0 {
      var left := budget - Estimate(items[0]);
      PrefixFits(items[1..], left);
      assert items[..n][1..] == items[1..][..n - 1];
      assert forall k :: 0 < k < n ==> items[k] == items[1..][k - 1];
    }
  }

  /** The items that fit one after the other are kept whole; only what comes after them is cut. */
  lemma {:induction false} PrefixStaysWhole(items: seq<Value>, budget: int)
    ensures
      var n := FittingPrefix(items, budget);
      CompactItems(Estimate, items, budget)
        == items[..n] + CompactItems(Estimate, items[n..], budget - Total(Estimate, items[..n]))
  {
    hide CompactItems, Estimate, Empty;
    var n := FittingPrefix(items, budget);
    if n == 0 {
      assert items[..0] == [] && items[0..] == items;
    } else {
      var left := budget - Estimate(items[0]);
      KeepsFirst(items, budget);
      PrefixStaysWhole(items[1..], left);
      assert items[..n] == [items[0]] + items[1..][..n - 1] && items[1..][n - 1..] == items[n..];
      assert items[..n][1..] == items[1..][..n - 1];
      hide FittingPrefix;
      JoinItems([items[0]], items[1..][..n - 1], CompactItems(Estimate, items[n..], left - Total(Estimate, items[1..][..n - 1])));
    }
  }

  lemma KeepsFirst(items: seq<Value>, budget: int)
    requires items != [] && !Empty(items[0]) && Estimate(items[0]) <= budget
    ensures CompactItems(Estimate, items, budget)
         == [items[0]] + CompactItems(Estimate, items[1..], budget - Estimate(items[0]))
  {
    EstimateIsPositive(items[0]);
    assert CompactValue(Estimate, items[0], budget) == items[0];
  }

  lemma JoinItems(a: seq<Value>, b: seq<Value>, c: seq<Value>)
    ensures a + (b + c) == (a + b) + c
  {
  }

  lemma EstimateIsPositive(v: Value)
    ensures Estimate(v) >= 1
  {
  }

  /** An item over the room left of which nothing can be kept: a number, a boolean, an
      empty value, a text that is given one token, or anything when there is no room. */
  predicate Uncuttable(v: Value, left: int) {
    left <= 0 || Empty(v) || v.Num? || v.Bool? || (v.Str? && left == 1)
  }

  lemma NothingOfUncuttable(items: seq<Value>, left: int)
    requires items == [] || (Uncuttable(items[0], left) && (Empty(items[0]) || Estimate(items[0]) > left))
    ensures CompactItems(Estimate, items, left) == []
  {
    hide Estimate;
    if items != [] && items[0].Str? && left == 1 && !Empty(items[0]) {
      assert Truncated(Estimate, items[0].s, 1) == "";
    }
    hide Truncated;
  }

  /** The list stops at its first item that does not fit. */
  predicate StopsAtPrefix(items: seq<Value>, budget: int) {
    var n := FittingPrefix(items, budget);
    n == |items| || Uncuttable(items[n], budget - Total(Estimate, items[..n]))
  }

  /** Of a list that stops at its first item that does not fit, as every list of numbers
      and booleans does, exactly the items before it come back; so it can be told
      beforehand when what comes back is within budget: when the whole list is, when
      nothing comes back, or when rounding and the room left pay for brackets and commas. */
  lemma CutListFitsExactly(items: seq<Value>, budget: nat)
    requires budget >= 1 && StopsAtPrefix(items, budget)
    ensures
      var n := FittingPrefix(items, budget);
      var cut := CompactValue(Estimate, Arr(items), budget);
      && (Estimate(Arr(items)) > budget ==> cut == Arr(items[..n]))
      && (Estimate(cut) <= budget <==>
            || Estimate(Arr(items)) <= budget
            || n == 0
            || n + 1 <= Slack(items[..n]) + 4 * (budget - Total(Estimate, items[..n])))
  {
    var n := FittingPrefix(items, budget);
    var left := budget - Total(Estimate, items[..n]);
    PrefixFits(items, budget);
    PrefixStaysWhole(items, budget);
    hide Estimate, Empty, Uncuttable, WeightOf, Slack, FittingPrefix, Total, SpacedWeight, CompactItems;
    StopsThere(items, budget);
    assert items[..n] + [] == items[..n];
    WholeListFits(items[..n], budget);
  }

  lemma StopsThere(items: seq<Value>, budget: int)
    requires StopsAtPrefix(items, budget)
    ensures
      var n := FittingPrefix(items, budget);
      CompactItems(Estimate, items[n..], budget - Total(Estimate, items[..n])) == []
  {
    var n := FittingPrefix(items, budget);
    PrefixFits(items, budget);
    hide Estimate, Empty, Uncuttable, FittingPrefix, Total, CompactItems;
    NothingOfUncuttable(items[n..], budget - Total(Estimate, items[..n]));
  }

  lemma WholeListFits(items: seq<Value>, budget: nat)
    requires budget >= 1
    ensures Estimate(Arr(items)) <= budget <==> items == [] || |items| + 1 <= Slack(items) + 4 * (budget - Total(Estimate, items))
  {
    EstimateMeasuresWeight(Arr(items), budget);
    ListWeight(items);
    SlackIsWhatIsLeft(items);
    hide WeightOf, Estimate, SpacedWeight, Slack, Total;
  }

  lemma {:induction false} FittingIsAll(items: seq<Value>, budget: int)
    requires forall i :: 0 <= i < |items| ==> !Empty(items[i])
    requires Total(Estimate, items) <= budget
    ensures FittingPrefix(items, budget) == |items|
  {
    hide Estimate, Empty;
    if items != [] {
      var rest := items[1..];
      assert forall i :: 0 <= i < |rest| ==> rest[i] == items[i + 1];
      FittingIsAll(rest, budget - Estimate(items[0]));
    }
  }

  /** Items that fit one by one, whatever they are, all come back whole. */
  lemma FittingListFitsExactly(items: seq<Value>, budget: nat)
    requires items != [] && forall i :: 0 <= i < |items| ==> !Empty(items[i])
    requires Total(Estimate, items) <= budget
    ensures CompactValue(Estimate, Arr(items), budget) == Arr(items)
    ensures Estimate(Arr(items)) <= budget <==> |items| + 1 <= Slack(items) + 4 * (budget - Total(Estimate, items))
  {
    EstimateIsPositive(items[0]);
    FittingIsAll(items, budget);
    assert items[..|items|] == items;
    hide Estimate, Empty, WeightOf, Slack, FittingPrefix, SpacedWeight, CompactItems;
    CutListFitsExactly(items, budget);
    WholeListFits(items, budget);
  }

  /** Two numbers of one token each, in a budget of two: the list comes back whole, and
      costs three. */
  lemma CutListStaysOverBudget()
    ensures
      var items := [Num("1111"), Num("2222")];
      && CompactValue(Estimate, Arr(items), 2) == Arr(items)
      && Estimate(Arr(items)) == 3
  {
    var a, b := Num("1111"), Num("2222");
    NumberCosts("1111");
    NumberCosts("2222");
    TwoWeights(a, b);
    hide Estimate, WeightOf, Truthy;
    FittingPairStays(a, b);
  }

  lemma NumberCosts(literal: string)
    requires |literal| == 4 && forall i :: 0 <= i < 4 ==> '0' <= literal[i] <= '9'
    ensures WeightOf(Num(literal)) == 4 && Estimate(Num(literal)) == 1
  {
    AsciiTextWeight(literal);
  }

  lemma TwoWeights(a: Value, b: Value)
    requires WeightOf(a) == 4 && WeightOf(b) == 4
    ensures Estimate(Arr([a, b])) == 3
  {
    hide WeightOf, Estimate;
    assert [a, b][1..] == [b] && [b][1..] == [];
    assert SpacedWeight([b]) == 5;
    ListWeight([a, b]);
    EstimateMeasuresWeight(Arr([a, b]), 3);
    EstimateMeasuresWeight(Arr([a, b]), 2);
  }

  lemma FittingPairStays(a: Value, b: Value)
    requires a.Num? && b.Num? && Estimate(a) == 1 && Estimate(b) == 1 && Estimate(Arr([a, b])) == 3
    ensures CompactValue(Estimate, Arr([a, b]), 2) == Arr([a, b])
  {
    hide Estimate;
    assert [a, b][1..] == [b] && [b][1..] == [];
    assert CompactValue(Estimate, a, 2) == a && CompactValue(Estimate, b, 1) == b;
    assert CompactItems(Estimate, [b], 1) == [b] + CompactItems(Estimate, [], 0) == [b];
    assert CompactItems(Estimate, [a, b], 2) == [a] + CompactItems(Estimate, [b], 1);
  }

  // ---------------------------------------------------------------- the same for dictionaries

  function EntryCost(f: Field): nat {
    Estimate(Str(f.key)) + Estimate(f.value)
  }

  function EntriesCost(fields: seq<Field>): nat {
    if fields == [] then 0 else EntryCost(fields[0]) + EntriesCost(fields[1..])
  }

  /** A key, too, is counted without quotes and escapes. */
  function EntriesSlack(fields: seq<Field>): int {
    if fields == [] then 0
    else 4 * EntryCost(fields[0]) - Weight(Quote(fields[0].key)) - WeightOf(fields[0].value) + EntriesSlack(fields[1..])
  }

  /** The entries kept of a dictionary, keys and values counted one by one, are within budget. */
  lemma {:induction false} EntriesFit(fields: seq<Field>, budget: int)
    ensures EntriesCost(CompactFields(Estimate, fields, budget)) <= Larger(0, budget)
  {
    hide CompactValue, Estimate;
    if fields != [] && Estimate(Str(fields[0].key)) < budget {
      var keyCost := Estimate(Str(fields[0].key));
      var compacted := CompactValue(Estimate, fields[0].value, budget - keyCost);
      var cost := keyCost + Estimate(compacted);
      if Empty(compacted) || cost > budget {
        EntriesFit(fields[1..], budget);
      } else {
        EntriesFit(fields[1..], budget - cost);
        var rest := CompactFields(Estimate, fields[1..], budget - cost);
        assert ([Field(fields[0].key, compacted)] + rest)[1..] == rest;
      }
    }
  }

  lemma {:induction false} EntriesSlackIsWhatIsLeft(fields: seq<Field>)
    ensures FieldsWeight(fields) == 4 * EntriesCost(fields) - EntriesSlack(fields) + 2 * |fields|
  {
    if fields != [] {
      EntriesSlackIsWhatIsLeft(fields[1..]);
      FieldWeight(fields[0]);
      QuoteWeight(fields[0].key);
      hide Estimate, WeightOf, DumpField, Weight, Escape;
    }
  }

  /** How many entries at the front of a dictionary fit one after the other, each whole. */
  function FittingEntries(fields: seq<Field>, budget: int): (n: nat)
    ensures n <= |fields|
  {
    if fields == [] || Empty(fields[0].value) || EntryCost(fields[0]) > budget then 0
    else 1 + FittingEntries(fields[1..], budget - EntryCost(fields[0]))
  }

  lemma KeepsFirstEntry(fields: seq<Field>, budget: int)
    requires fields != [] && !Empty(fields[0].value) && EntryCost(fields[0]) <= budget
    ensures CompactFields(Estimate, fields, budget)
         == [fields[0]] + CompactFields(Estimate, fields[1..], budget - EntryCost(fields[0]))
  {
    EstimateIsPositive(fields[0].value);
    assert CompactValue(Estimate, fields[0].value, budget - Estimate(Str(fields[0].key))) == fields[0].value;
  }

  /** The entries that fit one after the other are kept whole; only what comes after them
      is cut or passed over. */
  lemma {:induction false} EntriesStayWhole(fields: seq<Field>, budget: int)
    ensures
      var n := FittingEntries(fields, budget);
      && CompactFields(Estimate, fields, budget)
           == fields[..n] + CompactFields(Estimate, fields[n..], budget - EntriesCost(fields[..n]))
      && (n > 0 ==> EntriesCost(fields[..n]) <= budget)
  {
    hide CompactFields, EntryCost, Empty;
    var n := FittingEntries(fields, budget);
    if n == 0 {
      assert fields[..0] == [] && fields[0..] == fields;
    } else {
      var left := budget - EntryCost(fields[0]);
      KeepsFirstEntry(fields, budget);
      EntriesStayWhole(fields[1..], left);
      assert fields[..n] == [fields[0]] + fields[1..][..n - 1] && fields[1..][n - 1..] == fields[n..];
      assert fields[..n][1..] == fields[1..][..n - 1];
      hide FittingEntries;
      JoinEntries([fields[0]], fields[1..][..n - 1],
                  CompactFields(Estimate, fields[n..], left - EntriesCost(fields[1..][..n - 1])));
    }
  }

  lemma JoinEntries(a: seq<Field>, b: seq<Field>, c: seq<Field>)
    ensures a + (b + c) == (a + b) + c
  {
  }

  /** The key of the first entry that does not fit uses up the rest by itself. */
  predicate KeyStops(fields: seq<Field>, budget: int) {
    var n := FittingEntries(fields, budget);
    n == |fields| || Estimate(Str(fields[n].key)) >= budget - EntriesCost(fields[..n])
  }

  /** Of a dictionary whose entries all fit one after the other, or are stopped by a key,
      exactly the entries before the stop come back; so it can be told beforehand when
      what comes back is within budget: when the whole dictionary is, when nothing comes
      back, or when rounding and the room left pay for braces, colons, commas and quotes. */
  lemma CutDictionaryFitsExactly(fields: seq<Field>, budget: nat)
    requires budget >= 1 && KeyStops(fields, budget)
    ensures
      var n := FittingEntries(fields, budget);
      var cut := CompactValue(Estimate, Obj(fields), budget);
      && (Estimate(Obj(fields)) > budget ==> cut == Obj(fields[..n]))
      && (Estimate(cut) <= budget <==>
            || Estimate(Obj(fields)) <= budget
            || n == 0
            || 2 * n + 1 <= EntriesSlack(fields[..n]) + 4 * (budget - EntriesCost(fields[..n])))
  {
    var n := FittingEntries(fields, budget);
    EntriesStayWhole(fields, budget);
    hide Estimate, WeightOf, EntriesSlack, EntriesCost, FittingEntries, FieldsWeight;
    assert CompactFields(Estimate, fields[n..], budget - EntriesCost(fields[..n])) == [];
    hide CompactFields;
    assert fields[..n] + [] == fields[..n];
    WholeDictionaryFits(fields[..n], budget);
  }

  lemma WholeDictionaryFits(fields: seq<Field>, budget: nat)
    requires budget >= 1
    ensures Estimate(Obj(fields)) <= budget
       <==> fields == [] || 2 * |fields| + 1 <= EntriesSlack(fields) + 4 * (budget - EntriesCost(fields))
  {
    EstimateMeasuresWeight(Obj(fields), budget);
    ObjectWeight(fields);
    EntriesSlackIsWhatIsLeft(fields);
    hide WeightOf, Estimate, FieldsWeight, EntriesSlack, EntriesCost;
  }

  lemma {:induction false} FittingAreAll(fields: seq<Field>, budget: int)
    requires forall i :: 0 <= i < |fields| ==> !Empty(fields[i].value)
    requires EntriesCost(fields) <= budget
    ensures FittingEntries(fields, budget) == |fields|
  {
    hide EntryCost, Empty;
    if fields != [] {
      var rest := fields[1..];
      assert forall i :: 0 <= i < |rest| ==> rest[i] == fields[i + 1];
      FittingAreAll(rest, budget - EntryCost(fields[0]));
    }
  }

  /** Entries that fit one by one, whatever they are, all come back whole. */
  lemma FittingDictionaryFitsExactly(fields: seq<Field>, budget: nat)
    requires fields != [] && forall i :: 0 <= i < |fields| ==> !Empty(fields[i].value)
    requires EntriesCost(fields) <= budget
    ensures CompactValue(Estimate, Obj(fields), budget) == Obj(fields)
    ensures Estimate(Obj(fields)) <= budget <==> 2 * |fields| + 1 <= EntriesSlack(fields) + 4 * (budget - EntriesCost(fields))
  {
    EstimateIsPositive(fields[0].value);
    FittingAreAll(fields, budget);
    assert fields[..|fields|] == fields;
    assert EntriesCost(fields) >= 1;
    hide Estimate, Empty, WeightOf, EntriesSlack, FittingEntries, FieldsWeight, CompactFields, EntriesCost;
    CutDictionaryFitsExactly(fields, budget);
    WholeDictionaryFits(fields, budget);
  }

  /** One entry of two tokens, in a budget of two: it comes back whole, and costs four. */
  lemma CutDictionaryStaysOverBudget()
    ensures
      var fields := [Field("name", Num("1111"))];
      && CompactValue(Estimate, Obj(fields), 2) == Obj(fields)
      && Estimate(Obj(fields)) == 4
  {
    var f := Field("name", Num("1111"));
    NumberCosts("1111");
    KeyCosts();
    hide Estimate, WeightOf;
    LoneEntryStays(f);
  }

  lemma KeyCosts()
    ensures Weight(Escape("name")) == 4 && Estimate(Str("name")) == 1
  {
    assert Escape("name") == "n" + Escape("ame") && Escape("ame") == "a" + Escape("me") && Escape("me") == "m" + Escape("e");
    AsciiTextWeight("name");
  }

  lemma LoneEntryStays(f: Field)
    requires f.value.Num? && Weight(Escape(f.key)) == 4 && WeightOf(f.value) == 4
    requires Estimate(Str(f.key)) == 1 && Estimate(f.value) == 1
    ensures Estimate(Obj([f])) == 4 && CompactValue(Estimate, Obj([f]), 2) == Obj([f])
  {
    FieldWeight(f);
    ObjectWeight([f]);
    assert [f][1..] == [];
    EstimateMeasuresWeight(Obj([f]), 4);
    EstimateMeasuresWeight(Obj([f]), 3);
    hide Estimate, WeightOf, DumpField;
    assert CompactValue(Estimate, f.value, 1) == f.value;
    assert CompactFields(Estimate, [f], 2) == [Field(f.key, f.value)] + CompactFields(Estimate, [], 0) == [f];
  }

  /** No key among the first `k` entries and the next alone uses up what is left for it. */
  ghost predicate NoKeyStops(fields: seq<Field>, budget: int, k: nat)
    requires k < |fields|
  {
    forall j :: 0 <= j <= k ==>
      Estimate(Str(fields[j].key)) < budget - EntriesCost(CompactFields(Estimate, fields[..j], budget))
  }

  /** What each entry adds to those kept before it: its key with what is left of its value,
      if that is anything and fits the room; entries that do not fit are passed over, and
      nothing is added from a key on that alone uses up the room. */
  lemma {:induction false} EntriesAreCutInTurn(fields: seq<Field>, budget: int, k: nat)
    requires k < |fields|
    ensures
      var before := CompactFields(Estimate, fields[..k], budget);
      var room := budget - EntriesCost(before);
      var item := CompactValue(Estimate, fields[k].value, room - Estimate(Str(fields[k].key)));
      CompactFields(Estimate, fields[..k + 1], budget)
        == before
           + if NoKeyStops(fields, budget, k) && !Empty(item) && Estimate(Str(fields[k].key)) + Estimate(item) <= room
             then [Field(fields[k].key, item)] else []
    decreases k
  {
    hide CompactValue, CompactFields, Estimate, EntriesCost, NoKeyStops, Empty;
    if Estimate(Str(fields[0].key)) >= budget {
      KeyStopsAll(fields, budget, k);
    } else if k == 0 {
      LoneEntry(fields, budget);
    } else {
      var keyCost := Estimate(Str(fields[0].key));
      var item := CompactValue(Estimate, fields[0].value, budget - keyCost);
      var spent := if Empty(item) || keyCost + Estimate(item) > budget then 0 else keyCost + Estimate(item);
      EntriesAreCutInTurn(fields[1..], budget - spent, k - 1);
      forall j | 1 <= j <= k
        ensures EntriesCost(CompactFields(Estimate, fields[..j], budget))
             == spent + EntriesCost(CompactFields(Estimate, fields[1..][..j - 1], budget - spent))
      {
        FirstEntry(fields, budget, j);
      }
      KeysStopAlike(fields, budget, k, spent);
      FirstEntry(fields, budget, k);
      FirstEntry(fields, budget, k + 1);
    }
  }

  lemma LoneEntry(fields: seq<Field>, budget: int)
    requires fields != [] && Estimate(Str(fields[0].key)) < budget
    ensures
      var item := CompactValue(Estimate, fields[0].value, budget - Estimate(Str(fields[0].key)));
      && CompactFields(Estimate, fields[..0], budget) == [] && EntriesCost(CompactFields(Estimate, fields[..0], budget)) == 0
      && NoKeyStops(fields, budget, 0)
      && CompactFields(Estimate, fields[..1], budget)
           == if !Empty(item) && Estimate(Str(fields[0].key)) + Estimate(item) <= budget then [Field(fields[0].key, item)] else []
  {
    hide CompactValue, Estimate, Empty;
    assert fields[..0] == [];
    assert fields[..1] == [fields[0]] && [fields[0]][1..] == [];
  }

  lemma KeyStopsAll(fields: seq<Field>, budget: int, k: nat)
    requires k < |fields| && Estimate(Str(fields[0].key)) >= budget
    ensures CompactFields(Estimate, fields[..k], budget) == [] && CompactFields(Estimate, fields[..k + 1], budget) == []
    ensures !NoKeyStops(fields, budget, k)
  {
    hide CompactValue, Estimate, Empty;
    assert fields[..0] == [] && EntriesCost(CompactFields(Estimate, fields[..0], budget)) == 0;
  }

  lemma FirstEntry(fields: seq<Field>, budget: int, n: nat)
    requires 1 <= n <= |fields| && Estimate(Str(fields[0].key)) < budget
    ensures
      var item := CompactValue(Estimate, fields[0].value, budget - Estimate(Str(fields[0].key)));
      var cost := Estimate(Str(fields[0].key)) + Estimate(item);
      var kept := CompactFields(Estimate, fields[..n], budget);
      if Empty(item) || cost > budget then kept == CompactFields(Estimate, fields[1..][..n - 1], budget)
      else
        var rest := CompactFields(Estimate, fields[1..][..n - 1], budget - cost);
        kept == [Field(fields[0].key, item)] + rest && EntriesCost(kept) == cost + EntriesCost(rest)
  {
    hide CompactValue, Estimate, Empty;
    assert fields[..n][0] == fields[0] && fields[..n][1..] == fields[1..][..n - 1];
    var kept := CompactFields(Estimate, fields[..n], budget);
    if kept != [] {
      assert forall f: Field, rest: seq<Field> :: ([f] + rest)[1..] == rest;
    }
  }

  lemma KeysStopAlike(fields: seq<Field>, budget: int, k: nat, spent: nat)
    requires 0 < k < |fields| && Estimate(Str(fields[0].key)) < budget
    requires forall j :: 1 <= j <= k ==>
      EntriesCost(CompactFields(Estimate, fields[..j], budget))
        == spent + EntriesCost(CompactFields(Estimate, fields[1..][..j - 1], budget - spent))
    ensures NoKeyStops(fields, budget, k) <==> NoKeyStops(fields[1..], budget - spent, k - 1)
  {
    var rest := fields[1..];
    assert fields[..0] == [] && EntriesCost(CompactFields(Estimate, fields[..0], budget)) == 0;
    hide CompactFields, Estimate, EntriesCost;
    if NoKeyStops(fields, budget, k) {
      forall j | 0 <= j <= k - 1
        ensures Estimate(Str(rest[j].key)) < budget - spent - EntriesCost(CompactFields(Estimate, rest[..j], budget - spent))
      {
        assert rest[j] == fields[j + 1] && j + 1 - 1 == j;
      }
    }
    if NoKeyStops(rest, budget - spent, k - 1) {
      forall j | 0 < j <= k
        ensures Estimate(Str(fields[j].key)) < budget - EntriesCost(CompactFields(Estimate, fields[..j], budget))
      {
        assert rest[j - 1] == fields[j];
      }
    }
  }

  // ---------------------------------------------------------------- by how much a cut value may exceed its budget

  /** What escapes add to a text inside JSON. */
  function Escapes(s: string): nat {
    EscapedAtLeast(s);
    EscapedWeight(s) - Weight(s)
  }

  lemma EscapesConcat(a: string, b: string)
    ensures Escapes(a + b) == Escapes(a) + Escapes(b)
  {
    EscapedConcat(a, b);
    WeightConcat(a, b);
    EscapedAtLeast(a);
    EscapedAtLeast(b);
    hide EscapedWeight, Weight;
  }

  lemma NoEscapes()
    ensures Escapes("...") == 0 && Escapes("") == 0
  {
    PlainEscape("...");
    AsciiTextWeight("...");
    PlainEscape("");
    AsciiTextWeight("");
  }

  /** A cut text has no more escapes than the text. */
  lemma CutHasFewerEscapes(s: string, budget: int)
    ensures Escapes(Truncated(Estimate, s, budget)) <= Escapes(s)
  {
    hide Truncated, Escapes, Estimate;
    var cut := Truncated(Estimate, s, budget);
    NoEscapes();
    if cut != s && cut != "" {
      var kept := KeptOf(s, budget);
      EscapesConcat(kept, "...");
      assert s == kept + s[|kept|..];
      EscapesConcat(kept, s[|kept|..]);
    }
  }

  lemma KeptOf(s: string, budget: int) returns (kept: string)
    requires Truncated(Estimate, s, budget) != s && Truncated(Estimate, s, budget) != ""
    ensures kept <= s && Truncated(Estimate, s, budget) == kept + "..."
  {
    hide Estimate;
    var at := TruncateSearch(Estimate, s, budget, 0, |s|);
    kept := StripRight(s[..at]);
    hide StripRight, TruncateSearch;
    assert kept <= s[..at] <= s;
  }

  /** Quotes and escapes of a value that is a text; nothing for any other. */
  function Quotes(v: Value): nat {
    if v.Str? then 2 + Escapes(v.s) else 0
  }

  lemma DumpedWithin(v: Value)
    ensures WeightOf(v) <= 4 * Estimate(v) + Quotes(v)
  {
    if v.Str? {
      QuoteWeight(v.s);
      EstimateTextMeasuresWeight(v.s);
      EscapedAtLeast(v.s);
      hide Weight, EstimateText, Escape;
    } else {
      EstimateMeasuresWeight(v, 1);
      hide WeightOf, Estimate;
    }
  }

  lemma CutQuotesWithin(v: Value, budget: int)
    ensures Quotes(CompactValue(Estimate, v, budget)) <= Quotes(v)
  {
    if v.Str? {
      CutHasFewerEscapes(v.s, budget);
    }
    hide Truncated, CompactItems, CompactFields, Escapes, Estimate;
  }

  function ListQuotes(items: seq<Value>): nat {
    if items == [] then 0 else Quotes(items[0]) + ListQuotes(items[1..])
  }

  lemma {:induction false} CutListWeight(items: seq<Value>, budget: int)
    ensures
      var kept := CompactItems(Estimate, items, budget);
      SpacedWeight(kept) <= 5 * Total(Estimate, kept) + ListQuotes(items)
  {
    hide CompactValue, Estimate, Quotes, WeightOf, Empty;
    if items != [] {
      var first := CompactValue(Estimate, items[0], budget);
      if !Empty(first) && Estimate(first) <= budget {
        var rest := CompactItems(Estimate, items[1..], budget - Estimate(first));
        CutListWeight(items[1..], budget - Estimate(first));
        assert ([first] + rest)[1..] == rest;
        DumpedWithin(first);
        CutQuotesWithin(items[0], budget);
        EstimateIsPositive(first);
      }
    }
  }

  /** A cut list never exceeds its budget by more than a quarter of it, one token, and a
      quarter token for each quote and escape of its texts. */
  lemma CutListOverrun(items: seq<Value>, budget: nat)
    requires budget >= 1
    ensures 4 * Estimate(CompactValue(Estimate, Arr(items), budget)) <= 5 * budget + 4 + ListQuotes(items)
  {
    var kept := CompactItems(Estimate, items, budget);
    ListItemsFit(Estimate, items, budget);
    CutListWeight(items, budget);
    ListWeight(kept);
    hide WeightOf, SpacedWeight, CompactItems, ListQuotes, Estimate, Total;
    EstimateRounds(Arr(kept));
  }

  lemma EstimateRounds(v: Value)
    requires !v.Str?
    ensures 4 * Estimate(v) <= WeightOf(v) + 3 || Estimate(v) == 1
  {
    var n := (WeightOf(v) + 3) / 4;
    EstimateMeasuresWeight(v, if n >= 1 then n else 1);
    EstimateIsPositive(v);
    hide Estimate, WeightOf;
  }

  function DictionaryQuotes(fields: seq<Field>): nat {
    if fields == [] then 0 else Escapes(fields[0].key) + Quotes(fields[0].value) + DictionaryQuotes(fields[1..])
  }

  lemma EntryWithin(f: Field)
    ensures Weight(DumpField(f)) <= 4 * EntryCost(f) + 3 + Escapes(f.key) + Quotes(f.value)
    ensures EntryCost(f) >= 2
  {
    FieldWeight(f);
    DumpedWithin(f.value);
    EstimateTextMeasuresWeight(f.key);
    EscapedAtLeast(f.key);
    EstimateIsPositive(f.value);
    EstimateIsPositive(Str(f.key));
    hide Weight, WeightOf, EstimateText, Escape, DumpField;
  }

  lemma {:induction false} CutDictionaryWeight(fields: seq<Field>, budget: int)
    ensures
      var kept := CompactFields(Estimate, fields, budget);
      FieldsWeight(kept) <= 6 * EntriesCost(kept) + DictionaryQuotes(fields)
  {
    hide CompactValue, Estimate, Quotes, Weight, DumpField, Empty, Escapes;
    if fields != [] && Estimate(Str(fields[0].key)) < budget {
      var keyCost := Estimate(Str(fields[0].key));
      var compacted := CompactValue(Estimate, fields[0].value, budget - keyCost);
      var cost := keyCost + Estimate(compacted);
      if Empty(compacted) || cost > budget {
        CutDictionaryWeight(fields[1..], budget);
      } else {
        var first, rest := Field(fields[0].key, compacted), CompactFields(Estimate, fields[1..], budget - cost);
        CutDictionaryWeight(fields[1..], budget - cost);
        assert ([first] + rest)[1..] == rest;
        EntryWithin(first);
        CutQuotesWithin(fields[0].value, budget - keyCost);
      }
    }
  }

  /** A cut dictionary never exceeds its budget by more than half of it, one token, and a
      quarter token for each escape of its keys and each quote and escape of its texts. */
  lemma CutDictionaryOverrun(fields: seq<Field>, budget: nat)
    requires budget >= 1
    ensures 4 * Estimate(CompactValue(Estimate, Obj(fields), budget)) <= 6 * budget + 4 + DictionaryQuotes(fields)
  {
    var kept := CompactFields(Estimate, fields, budget);
    EntriesFit(fields, budget);
    CutDictionaryWeight(fields, budget);
    ObjectWeight(kept);
    hide WeightOf, FieldsWeight, CompactFields, DictionaryQuotes, Estimate, EntriesCost;
    EstimateRounds(Obj(kept));
  }

  // ---------------------------------------------------------------- what is left of a dictionary

  /** What is left of a dictionary has keys of the dictionary, in its order. */
  ghost predicate KeysInOrder(kept: seq<Field>, fields: seq<Field>) {
    if kept == [] then true
    else if fields == [] then false
    else if kept[0].key == fields[0].key && KeysInOrder(kept[1..], fields[1..]) then true
    else KeysInOrder(kept, fields[1..])
  }

  lemma {:induction false} CutDictionaryKeepsOrder(est: Estimator, fields: seq<Field>, budget: int)
    ensures KeysInOrder(CompactFields(est, fields, budget), fields)
  {
    hide CompactValue;
    if fields != [] && est(Str(fields[0].key)) < budget {
      var keyCost := est(Str(fields[0].key));
      var compacted := CompactValue(est, fields[0].value, budget - keyCost);
      var cost := keyCost + est(compacted);
      if Empty(compacted) || cost > budget {
        CutDictionaryKeepsOrder(est, fields[1..], budget);
      } else {
        CutDictionaryKeepsOrder(est, fields[1..], budget - cost);
        var rest := CompactFields(est, fields[1..], budget - cost);
        assert ([Field(fields[0].key, compacted)] + rest)[1..] == rest;
      }
    }
  }
}
