/** The working-context compactor: it keeps protected groups, then the newest
    groups that still fit, and may shorten the first group that does not. */
module ContextCompaction {
  import opened Json
  import opened TextCutting
  import opened TokenEstimation
  import opened Messages

  // ---------------------------------------------------------------- oversized groups

  const NOTICE := "[context compacted]"

  function WithContent(m: Message, text: string): Message {
    Set(m, "content", Str(text))
  }

  function MarkCompacted(m: Message): Message {
    Set(m, "context_compacted", Bool(true))
  }

  function EmptyContent(m: Message): Message {
    if Get(m, "content").Str? then WithContent(m, "") else m
  }

  function EmptyContents(group: seq<Message>): seq<Message> {
    seq(|group|, i requires 0 <= i < |group| => EmptyContent(group[i]))
  }

  function CutContent(est: Estimator, m: Message, perMessage: int): Message {
    var content := Get(m, "content");
    if !content.Str? || est(content) <= perMessage then m
    else MarkCompacted(WithContent(m, HeadTailCut(est, content.s, perMessage)))
  }

  function CutContents(est: Estimator, group: seq<Message>, perMessage: int): seq<Message> {
    seq(|group|, i requires 0 <= i < |group| => CutContent(est, group[i], perMessage))
  }

  function NoteContent(m: Message): Message {
    var content := Get(m, "content");
    if content.Str? && content.s != "" then MarkCompacted(WithContent(m, NOTICE)) else m
  }

  function NoteContents(group: seq<Message>): seq<Message> {
    seq(|group|, i requires 0 <= i < |group| => NoteContent(group[i]))
  }

  function Share(budget: int, count: nat): int
    requires count > 0
  {
    var share := budget / count;
    if share > 1 then share else 1
  }

  /** The group with every message kept but contents shortened, or nothing. */
  function CompactGroup(est: Estimator, group: seq<Message>, budget: int): seq<Message> {
    if group == [] || budget <= 0 || est(Arr(EmptyContents(group))) > budget then []
    else
      var cut := CutContents(est, group, Share(budget, |group|));
      var result := if est(Arr(cut)) > budget then NoteContents(cut) else cut;
      if est(Arr(result)) <= budget then result else []
  }

  method BlankContents(group: seq<Message>) returns (structural: seq<Message>)
    ensures structural == EmptyContents(group)
  {
    hide Get, WithContent;
    structural := group;
    for i := 0 to |group|
      invariant |structural| == |group|
      invariant forall j :: 0 <= j < |group| ==> structural[j] == if j < i then EmptyContent(group[j]) else group[j]
    {
      if Get(structural[i], "content").Str? {
        structural := structural[i := WithContent(structural[i], "")];
      }
    }
  }

  method ShortenContents(est: Estimator, group: seq<Message>, perMessage: int) returns (result: seq<Message>)
    ensures result == CutContents(est, group, perMessage)
  {
    hide HeadTailCut, Get, MarkCompacted, WithContent;
    result := group;
    for i := 0 to |group|
      invariant |result| == |group|
      invariant forall j :: 0 <= j < |group| ==>
        result[j] == if j < i then CutContent(est, group[j], perMessage) else group[j]
    {
      var content := Get(result[i], "content");
      if content.Str? && est(content) > perMessage {
        var cut := HeadTail(est, content.s, perMessage);
        result := result[i := MarkCompacted(WithContent(result[i], cut))];
      }
    }
  }

  method NoticeContents(group: seq<Message>) returns (result: seq<Message>)
    ensures result == NoteContents(group)
  {
    hide Get, MarkCompacted, WithContent;
    result := group;
    for i := 0 to |group|
      invariant |result| == |group|
      invariant forall j :: 0 <= j < |group| ==> result[j] == if j < i then NoteContent(group[j]) else group[j]
    {
      var content := Get(result[i], "content");
      if content.Str? && content.s != "" {
        result := result[i := MarkCompacted(WithContent(result[i], NOTICE))];
      }
    }
  }

  method CompactOversizedGroup(est: Estimator, group: seq<Message>, budget: int) returns (result: seq<Message>)
    ensures result == CompactGroup(est, group, budget)
  {
    if group == [] || budget <= 0 {
      return [];
    }
    var structural := BlankContents(group);
    if est(Arr(structural)) > budget {
      return [];
    }
    result := ShortenContents(est, group, Share(budget, |group|));
    if est(Arr(result)) > budget {
      result := NoticeContents(result);
    }
    if est(Arr(result)) > budget {
      result := [];
    }
  }

  // ---------------------------------------------------------------- selection

  /** What becomes of a group. */
  datatype Slot = Kept | Replaced(group: seq<Message>) | Dropped

  predicate Marked(m: Message) {
    Truthy(Get(m, "_context_protected"))
  }

  predicate Protected(group: seq<Message>, protect: bool) {
    protect && exists i :: 0 <= i < |group| && Marked(group[i])
  }

  function ProtectedCost(est: Estimator, groups: seq<seq<Message>>, protect: bool): nat {
    if groups == [] then 0
    else
      var older, group := groups[..|groups| - 1], groups[|groups| - 1];
      ProtectedCost(est, older, protect) + if Protected(group, protect) then est(Arr(group)) else 0
  }

  function OnlyProtected(groups: seq<seq<Message>>, protect: bool): seq<Slot> {
    seq(|groups|, i requires 0 <= i < |groups| => if Protected(groups[i], protect) then Kept else Dropped)
  }

  /** The fate of each group, decided from the newest backwards. `used` counts the
      protected groups and the newer groups already kept. */
  function Select(est: Estimator, groups: seq<seq<Message>>, used: int, budget: int, protect: bool): (slots: seq<Slot>)
    ensures |slots| == |groups|
  {
    if groups == [] then []
    else
      var older, group := groups[..|groups| - 1], groups[|groups| - 1];
      var cost := est(Arr(group));
      if Protected(group, protect) then Select(est, older, used, budget, protect) + [Kept]
      else if used + cost <= budget then Select(est, older, used + cost, budget, protect) + [Kept]
      else
        var compacted := CompactGroup(est, group, NonNegative(budget - used));
        OnlyProtected(older, protect) + [if compacted != [] then Replaced(compacted) else Dropped]
  }

  function SlotMessages(group: seq<Message>, slot: Slot): seq<Message> {
    match slot
    case Kept => group
    case Replaced(shorter) => shorter
    case Dropped => []
  }

  function Retained(groups: seq<seq<Message>>, slots: seq<Slot>): seq<Message>
    requires |groups| == |slots|
  {
    if groups == [] then []
    else
      var n := |groups| - 1;
      Retained(groups[..n], slots[..n]) + SlotMessages(groups[n], slots[n])
  }

  function Omitted(groups: seq<seq<Message>>, slots: seq<Slot>): seq<Message>
    requires |groups| == |slots|
  {
    if groups == [] then []
    else
      var n := |groups| - 1;
      Omitted(groups[..n], slots[..n]) + if slots[n].Dropped? then groups[n] else []
  }

  // ---------------------------------------------------------------- compact

  datatype Compaction =
    | Compacted(retained: seq<Message>, omitted: seq<Message>, triggered: bool)
    | ProtectedOverBudget

  function NonNegative(n: int): nat {
    if n > 0 then n else 0
  }

  function SlotsOf(est: Estimator, valid: seq<Message>, budget: int, protect: bool): (slots: seq<Slot>)
    ensures |slots| == |GroupsOf(valid)|
  {
    Select(est, GroupsOf(valid), ProtectedCost(est, GroupsOf(valid), protect), budget, protect)
  }

  function Compact(est: Estimator, messages: seq<Message>, budget: int, protect: bool): Compaction {
    var valid := OnlyValid(messages);
    if CostOrZero(est, valid) <= NonNegative(budget) then Compacted(valid, [], false)
    else
      var groups := GroupsOf(valid);
      if ProtectedCost(est, groups, protect) > budget then ProtectedOverBudget
      else
        var slots := SlotsOf(est, valid, budget, protect);
        Compacted(Retained(groups, slots), Omitted(groups, slots), true)
  }

  /** How the loop's own variables stand for a list of decisions. */
  ghost predicate Decides(groups: seq<seq<Message>>, selected: set<int>, original: seq<seq<Message>>, slots: seq<Slot>, from: int) {
    && |groups| == |original| == |slots|
    && forall i :: 0 <= from <= i < |groups| ==>
      && (i in selected <==> !slots[i].Dropped?)
      && groups[i] == (if slots[i].Replaced? then slots[i].group else original[i])
  }

  /** One backward step of the selection, seen from the whole list of groups. */
  lemma SelectStep(est: Estimator, groups: seq<seq<Message>>, slots: seq<Slot>, i: nat, used: int, budget: int, protect: bool)
    requires i < |groups| == |slots|
    requires slots[..i + 1] == Select(est, groups[..i + 1], used, budget, protect)
    ensures Protected(groups[i], protect) ==>
      slots[i] == Kept && slots[..i] == Select(est, groups[..i], used, budget, protect)
    ensures !Protected(groups[i], protect) && used + est(Arr(groups[i])) <= budget ==>
      slots[i] == Kept && slots[..i] == Select(est, groups[..i], used + est(Arr(groups[i])), budget, protect)
    ensures !Protected(groups[i], protect) && used + est(Arr(groups[i])) > budget ==>
      && var compacted := CompactGroup(est, groups[i], NonNegative(budget - used));
      && slots[i] == (if compacted != [] then Replaced(compacted) else Dropped)
      && forall j :: 0 <= j < i ==> slots[j] == if Protected(groups[j], protect) then Kept else Dropped
  {
    hide CompactGroup, Protected;
    var front := groups[..i + 1];
    assert front[..|front| - 1] == groups[..i] && front[|front| - 1] == groups[i];
    assert slots[..i] == slots[..i + 1][..i] && slots[i] == slots[..i + 1][i];
    assert forall j :: 0 <= j < i ==> slots[j] == slots[..i][j];
  }

  method ChooseGroups(est: Estimator, original: seq<seq<Message>>, shielded: set<int>, total: int, budget: int, protect: bool)
    returns (groups: seq<seq<Message>>, selected: set<int>)
    requires forall i :: i in shielded <==> 0 <= i < |original| && Protected(original[i], protect)
    ensures Decides(groups, selected, original, Select(est, original, total, budget, protect), 0)
  {
    hide CompactGroup, Protected, Select;
    groups, selected := original, shielded;
    var used := total;
    ghost var slots := Select(est, original, total, budget, protect);
    assert original[..|original|] == original && slots[..|original|] == slots;
    var index := |groups| - 1;
    while index >= 0
      invariant -1 <= index < |original|
      invariant slots[..index + 1] == Select(est, original[..index + 1], used, budget, protect)
      invariant forall i :: 0 <= i <= index ==> (i in selected <==> i in shielded)
      invariant groups == original
      invariant Decides(groups, selected, original, slots, index + 1)
    {
      SelectStep(est, original, slots, index, used, budget, protect);
      var group := groups[index];
      if index !in selected {
        var cost := est(Arr(group));
        if used + cost > budget {
          var compacted := CompactOversizedGroup(est, group, NonNegative(budget - used));
          if compacted != [] {
            groups := groups[index := compacted];
            selected := selected + {index};
          }
          return;
        }
        selected := selected + {index};
        used := used + cost;
      }
      index := index - 1;
    }
  }

  method CompactMessages(est: Estimator, messages: seq<Message>, budget: int, protect: bool) returns (result: Compaction)
    ensures result == Compact(est, messages, budget, protect)
  {
    hide CompactGroup, Protected, OnlyValid, GroupsOf, Select;
    var valid := OnlyValid(messages);
    if CostOrZero(est, valid) <= NonNegative(budget) {
      return Compacted(valid, [], false);
    }
    var original := AtomicMessageGroups(valid);
    var shielded: set<int> := set i | 0 <= i < |original| && Protected(original[i], protect);
    var used := 0;
    for i := 0 to |original|
      invariant used == ProtectedCost(est, original[..i], protect)
    {
      assert original[..i + 1][..i] == original[..i];
      if i in shielded {
        used := used + est(Arr(original[i]));
      }
    }
    assert original[..|original|] == original;
    if used > budget {
      return ProtectedOverBudget;
    }
    var groups, selected := ChooseGroups(est, original, shielded, used, budget, protect);
    ghost var slots := SlotsOf(est, valid, budget, protect);
    var retained, omitted := Gather(groups, selected, original, SlotsOf(est, valid, budget, protect));
    result := Compacted(retained, omitted, true);
  }

  method Gather(groups: seq<seq<Message>>, selected: set<int>, ghost original: seq<seq<Message>>, ghost slots: seq<Slot>)
    returns (retained: seq<Message>, omitted: seq<Message>)
    requires Decides(groups, selected, original, slots, 0)
    ensures retained == Retained(original, slots) && omitted == Omitted(original, slots)
  {
    retained, omitted := [], [];
    for i := 0 to |groups|
      invariant retained == Retained(original[..i], slots[..i])
      invariant omitted == Omitted(original[..i], slots[..i])
    {
      assert original[..i + 1][..i] == original[..i] && slots[..i + 1][..i] == slots[..i];
      if i in selected {
        retained := retained + groups[i];
      } else {
        omitted := omitted + groups[i];
      }
    }
    assert original[..|original|] == original && slots[..|slots|] == slots;
  }
}
