/** What compaction promises, for every message list and every budget. */
module CompactionProperties {
  import opened Json
  import opened TokenEstimation
  import opened TextCutting
  import opened Messages
  import opened ContextCompaction

  // ---------------------------------------------------------------- budget

  function SlotCost(est: Estimator, group: seq<Message>, slot: Slot): nat {
    match slot
    case Kept => est(Arr(group))
    case Replaced(shorter) => est(Arr(shorter))
    case Dropped => 0
  }

  /** The sum the selection loop keeps in `used`: one estimate per surviving group. */
  function KeptCost(est: Estimator, groups: seq<seq<Message>>, slots: seq<Slot>): nat
    requires |groups| == |slots|
  {
    if groups == [] then 0
    else
      var n := |groups| - 1;
      KeptCost(est, groups[..n], slots[..n]) + SlotCost(est, groups[n], slots[n])
  }

  lemma {:induction false} OnlyProtectedCost(est: Estimator, groups: seq<seq<Message>>, protect: bool)
    ensures KeptCost(est, groups, OnlyProtected(groups, protect)) == ProtectedCost(est, groups, protect)
    decreases |groups|
  {
    hide Protected;
    if groups != [] {
      var n := |groups| - 1;
      OnlyProtectedCost(est, groups[..n], protect);
      assert OnlyProtected(groups, protect)[..n] == OnlyProtected(groups[..n], protect);
    }
  }

  lemma CompactGroupFits(est: Estimator, group: seq<Message>, budget: int)
    requires CompactGroup(est, group, budget) != []
    ensures est(Arr(CompactGroup(est, group, budget))) <= budget
  {
    hide EmptyContents, CutContents, NoteContents;
  }

  lemma {:induction false} SelectCost(est: Estimator, groups: seq<seq<Message>>, used: int, budget: int, protect: bool)
    requires used <= budget
    ensures KeptCost(est, groups, Select(est, groups, used, budget, protect)) + used
         <= budget + ProtectedCost(est, groups, protect)
    decreases |groups|
  {
    hide Protected, CompactGroup;
    if groups != [] {
      var n := |groups| - 1;
      var older, group := groups[..n], groups[n];
      var cost := est(Arr(group));
      var slots := Select(est, groups, used, budget, protect);
      if Protected(group, protect) {
        SelectCost(est, older, used, budget, protect);
        assert slots[..n] == Select(est, older, used, budget, protect);
      } else if used + cost <= budget {
        SelectCost(est, older, used + cost, budget, protect);
        assert slots[..n] == Select(est, older, used + cost, budget, protect);
      } else {
        OnlyProtectedCost(est, older, protect);
        assert slots[..n] == OnlyProtected(older, protect);
        if slots[n].Replaced? {
          CompactGroupFits(est, group, NonNegative(budget - used));
        }
      }
    }
  }

  lemma {:induction false} RetainedCost(est: Estimator, groups: seq<seq<Message>>, slots: seq<Slot>)
    requires |groups| == |slots| && Subadditive(est)
    ensures CostOrZero(est, Retained(groups, slots)) <= KeptCost(est, groups, slots)
    decreases |groups|
  {
    if groups != [] {
      var n := |groups| - 1;
      RetainedCost(est, groups[..n], slots[..n]);
      var front, last := Retained(groups[..n], slots[..n]), SlotMessages(groups[n], slots[n]);
      assert CostOrZero(est, front + last) <= CostOrZero(est, front) + CostOrZero(est, last);
    }
  }

  /** Although the loop only adds up per-group estimates, what it returns fits the
      budget as one list, for every subadditive estimator and every budget. */
  lemma CompactFits(est: Estimator, messages: seq<Message>, budget: int, protect: bool)
    requires Subadditive(est)
    requires Compact(est, messages, budget, protect).Compacted?
    ensures CostOrZero(est, Compact(est, messages, budget, protect).retained) <= NonNegative(budget)
  {
    hide OnlyValid, GroupsOf, Select, Retained, Omitted, ProtectedCost;
    var valid := OnlyValid(messages);
    if CostOrZero(est, valid) > NonNegative(budget) {
      var groups := GroupsOf(valid);
      SelectCost(est, groups, ProtectedCost(est, groups, protect), budget, protect);
      RetainedCost(est, groups, SlotsOf(est, valid, budget, protect));
    }
  }

  /** The estimator shipped with the runtime is one of those estimators. */
  lemma DefaultCompactFits(messages: seq<Message>, budget: int, protect: bool)
    requires Compact(Estimate, messages, budget, protect).Compacted?
    ensures CostOrZero(Estimate, Compact(Estimate, messages, budget, protect).retained) <= NonNegative(budget)
  {
    EstimateIsSubadditive();
    CompactFits(Estimate, messages, budget, protect);
  }

  // ---------------------------------------------------------------- which groups survive

  /** Protected groups are kept; of the others, all newer than `cut` are kept, all
      older than `cut` are dropped, and only the group at `cut` may be shortened. */
  ghost predicate SuffixSurvives(groups: seq<seq<Message>>, slots: seq<Slot>, protect: bool, cut: int) {
    && |groups| == |slots| && -1 <= cut < |groups|
    && forall i :: 0 <= i < |groups| ==>
      if Protected(groups[i], protect) || i > cut then slots[i] == Kept
      else i < cut ==> slots[i] == Dropped
  }

  lemma {:induction false} SelectShape(est: Estimator, groups: seq<seq<Message>>, used: int, budget: int, protect: bool)
    returns (cut: int)
    ensures SuffixSurvives(groups, Select(est, groups, used, budget, protect), protect, cut)
    decreases |groups|
  {
    hide Protected, CompactGroup;
    cut := -1;
    if groups != [] {
      var n := |groups| - 1;
      var older, group := groups[..n], groups[n];
      var cost := est(Arr(group));
      if Protected(group, protect) {
        cut := SelectShape(est, older, used, budget, protect);
      } else if used + cost <= budget {
        cut := SelectShape(est, older, used + cost, budget, protect);
      } else {
        cut := n;
      }
    }
  }

  /** The survivors among the unprotected groups are the newest ones. */
  lemma SurvivorsAreTheNewest(est: Estimator, valid: seq<Message>, budget: int, protect: bool)
    ensures exists cut :: SuffixSurvives(GroupsOf(valid), SlotsOf(est, valid, budget, protect), protect, cut)
  {
    var groups := GroupsOf(valid);
    var cut := SelectShape(est, groups, ProtectedCost(est, groups, protect), budget, protect);
    assert SuffixSurvives(groups, SlotsOf(est, valid, budget, protect), protect, cut);
  }

  // ---------------------------------------------------------------- what a shortened group keeps

  /** Everything but the text of the message is as it was. */
  ghost predicate SameEnvelope(a: Message, b: Message) {
    && (forall key :: key != "content" && key != "context_compacted" ==> Get(a, key) == Get(b, key))
    && (Get(a, "content") != Get(b, "content") ==> Get(a, "content").Str? && Get(b, "content").Str?)
  }

  lemma WithContentEnvelope(m: Message, text: string)
    requires Get(m, "content").Str?
    ensures SameEnvelope(m, MarkCompacted(WithContent(m, text)))
    ensures Get(MarkCompacted(WithContent(m, text)), "content") == Str(text)
  {
    var set1 := WithContent(m, text);
    forall key
      ensures Get(MarkCompacted(set1), key) ==
              if key == "context_compacted" then Bool(true) else if key == "content" then Str(text) else Get(m, key)
    {
      LookupPut(Fields(m), "content", Str(text), key);
      LookupPut(Fields(set1), "context_compacted", Bool(true), key);
    }
  }

  /** What both ways of shortening a message do to it. */
  ghost predicate Shortened(a: Message, b: Message) {
    && SameEnvelope(a, b)
    && (Get(a, "content") == Get(b, "content") || (Get(b, "content").Str? && Get(b, "content").s != ""))
  }

  lemma CutIsShortened(est: Estimator, m: Message, perMessage: int)
    ensures Shortened(m, CutContent(est, m, perMessage))
  {
    hide HeadTailCut, Get, MarkCompacted, WithContent;
    var content := Get(m, "content");
    if content.Str? && est(content) > perMessage {
      HeadTailNotEmpty(est, content.s, perMessage);
      WithContentEnvelope(m, HeadTailCut(est, content.s, perMessage));
    }
  }

  lemma NoteIsShortened(m: Message)
    ensures Shortened(m, NoteContent(m))
  {
    hide Get, MarkCompacted, WithContent;
    var content := Get(m, "content");
    if content.Str? && content.s != "" {
      WithContentEnvelope(m, NOTICE);
    }
  }

  /** A shortened group keeps every message, in order, with its role, its tool
      calls and its call ids; only string contents change, and never to nothing. */
  lemma CompactGroupKeepsEnvelopes(est: Estimator, group: seq<Message>, budget: int)
    requires CompactGroup(est, group, budget) != []
    ensures |CompactGroup(est, group, budget)| == |group|
    ensures forall i :: 0 <= i < |group| ==> Shortened(group[i], CompactGroup(est, group, budget)[i])
  {
    hide CutContent, NoteContent, EmptyContents, Get;
    var cut := CutContents(est, group, Share(budget, |group|));
    forall i | 0 <= i < |group|
      ensures Shortened(group[i], cut[i]) && Shortened(group[i], NoteContents(cut)[i])
    {
      CutIsShortened(est, group[i], Share(budget, |group|));
      NoteIsShortened(cut[i]);
      assert SameEnvelope(group[i], NoteContents(cut)[i]);
    }
  }

  lemma ShortenedKeepsIdentity(a: Message, b: Message)
    requires Shortened(a, b)
    ensures Role(a) == Role(b) && OpenedCalls(a) == OpenedCalls(b) && AnsweredCall(a) == AnsweredCall(b)
    ensures Valid(a) && b.Obj? ==> Valid(b)
  {
    hide TextOf, Truthy, Lookup;
    assert Get(a, "role") == Get(b, "role") && Get(a, "tool_calls") == Get(b, "tool_calls");
    assert Get(a, "tool_call_id") == Get(b, "tool_call_id");
  }

  // ---------------------------------------------------------------- repetition

  lemma CompactGroupStaysValid(est: Estimator, group: seq<Message>, budget: int)
    requires forall m :: m in group ==> Valid(m)
    ensures forall m :: m in CompactGroup(est, group, budget) ==> Valid(m)
  {
    hide Valid, Get, Shortened, HeadTailCut;
    var result := CompactGroup(est, group, budget);
    if result != [] {
      CompactGroupKeepsEnvelopes(est, group, budget);
      forall i | 0 <= i < |result|
        ensures Valid(result[i])
      {
        assert group[i] in group;
        CompactGroupIsObjects(est, group, budget, i);
        ShortenedKeepsIdentity(group[i], result[i]);
      }
    }
  }

  lemma CompactGroupIsObjects(est: Estimator, group: seq<Message>, budget: int, i: nat)
    requires i < |CompactGroup(est, group, budget)| && i < |group| && Valid(group[i])
    ensures CompactGroup(est, group, budget)[i].Obj?
  {
    hide Get, HeadTailCut, Role;
  }

  lemma {:induction false} RetainedStaysValid(est: Estimator, groups: seq<seq<Message>>, slots: seq<Slot>, budget: nat -> int)
    requires |groups| == |slots|
    requires forall m :: m in Flatten(groups) ==> Valid(m)
    requires forall i :: 0 <= i < |slots| && slots[i].Replaced? ==> slots[i].group == CompactGroup(est, groups[i], budget(i))
    ensures forall m :: m in Retained(groups, slots) ==> Valid(m)
    decreases |groups|
  {
    hide Valid, CompactGroup;
    if groups != [] {
      var n := |groups| - 1;
      RetainedStaysValid(est, groups[..n], slots[..n], budget);
      if slots[n].Replaced? {
        CompactGroupStaysValid(est, groups[n], budget(n));
      }
    }
  }

  lemma {:induction false} SelectReplaces(est: Estimator, groups: seq<seq<Message>>, used: int, budget: int, protect: bool)
    returns (remaining: int)
    ensures
      var slots := Select(est, groups, used, budget, protect);
      forall i :: 0 <= i < |slots| && slots[i].Replaced? ==> slots[i].group == CompactGroup(est, groups[i], remaining)
    decreases |groups|
  {
    hide Protected, CompactGroup;
    remaining := 0;
    if groups != [] {
      var n := |groups| - 1;
      var older, group := groups[..n], groups[n];
      var cost := est(Arr(group));
      if Protected(group, protect) {
        remaining := SelectReplaces(est, older, used, budget, protect);
      } else if used + cost <= budget {
        remaining := SelectReplaces(est, older, used + cost, budget, protect);
      } else {
        remaining := NonNegative(budget - used);
      }
    }
  }

  /** Valid messages that fit the budget as they are. */
  ghost predicate Settled(est: Estimator, messages: seq<Message>, budget: int) {
    OnlyValid(messages) == messages && CostOrZero(est, messages) <= NonNegative(budget)
  }

  lemma SettledStays(est: Estimator, messages: seq<Message>, budget: int, protect: bool)
    requires Settled(est, messages, budget)
    ensures Compact(est, messages, budget, protect) == Compacted(messages, [], false)
  {
    hide Valid, GroupsOf, Select, Retained, Omitted, ProtectedCost, CompactGroup;
  }

  /** What compaction retains is settled: compacting it again changes and drops nothing. */
  lemma CompactSettles(est: Estimator, messages: seq<Message>, budget: int, protect: bool)
    requires Subadditive(est)
    requires Compact(est, messages, budget, protect).Compacted?
    ensures Settled(est, Compact(est, messages, budget, protect).retained, budget)
  {
    hide Valid, GroupsOf, Select, Retained, Omitted, ProtectedCost, CompactGroup;
    CompactFits(est, messages, budget, protect);
    var valid := OnlyValid(messages);
    if CostOrZero(est, valid) > NonNegative(budget) {
      var groups := GroupsOf(valid);
      GroupsPartition(valid);
      var remaining := SelectReplaces(est, groups, ProtectedCost(est, groups, protect), budget, protect);
      RetainedStaysValid(est, groups, SlotsOf(est, valid, budget, protect), _ => remaining);
    }
    OnlyValidKeepsAll(Compact(est, messages, budget, protect).retained);
  }

  // ---------------------------------------------------------------- the protected tail

  ghost predicate EndsWith(all: seq<Message>, tail: seq<Message>) {
    |tail| <= |all| && all[|all| - |tail|..] == tail
  }

  lemma EndsWithSnoc(all: seq<Message>, tail: seq<Message>, m: Message)
    requires EndsWith(all, tail)
    ensures EndsWith(all + [m], tail + [m])
  {
  }

  lemma EndsWithAppend(front: seq<Message>, all: seq<Message>, tail: seq<Message>)
    requires EndsWith(all, tail)
    ensures EndsWith(front + all, tail)
  {
    assert (front + all)[|front + all| - |tail|..] == all[|all| - |tail|..];
  }

  /** Every group holds a marked message, and together they end with the marked tail. */
  ghost predicate TailGroups(groups: seq<seq<Message>>, tail: seq<Message>) {
    && (forall i :: 0 <= i < |groups| ==> Protected(groups[i], true))
    && EndsWith(Flatten(groups), tail)
  }

  lemma MarkedGroup(group: seq<Message>, m: Message)
    requires Marked(m)
    ensures Protected(group + [m], true)
  {
    hide Marked;
    assert (group + [m])[|group|] == m;
  }

  /** A marked message that joins the last tail group, or starts a new one. */
  lemma MarkedTailExtends(groups: seq<seq<Message>>, last: seq<Message>, tail: seq<Message>, m: Message)
    requires TailGroups(groups + [last], tail) || (last == [] && TailGroups(groups, tail))
    requires Marked(m)
    ensures TailGroups(groups + [last + [m]], tail + [m])
  {
    hide Marked, Protected, Flatten;
    MarkedGroup(last, m);
    var after := groups + [last + [m]];
    forall i | 0 <= i < |after|
      ensures Protected(after[i], true)
    {
      assert i < |groups| ==> after[i] == (groups + [last])[i];
    }
    FlattenSnoc(groups, last);
    FlattenSnoc(groups, last + [m]);
    EndsWithSnoc(Flatten(groups) + last, tail, m);
    assert Flatten(groups) + (last + [m]) == (Flatten(groups) + last) + [m];
  }

  lemma MarkedAlone(group: seq<Message>, m: Message)
    requires Marked(m)
    ensures TailGroups([] + [group + [m]], [] + [m])
  {
    hide Marked, Protected;
    MarkedGroup(group, m);
    FlattenSnoc([], group + [m]);
    assert Flatten([]) == [];
  }

  lemma {:induction false} MarkedTailGroups(front: seq<Message>, tail: seq<Message>)
    returns (older: seq<seq<Message>>, newer: seq<seq<Message>>)
    requires forall m :: m in tail ==> Marked(m)
    ensures GroupsOf(front + tail) == older + newer && TailGroups(newer, tail)
    ensures newer == [] ==> tail == []
    decreases |tail|
  {
    hide Place, Marked;
    if tail == [] {
      older, newer := GroupsOf(front + tail), [];
    } else {
      var n := |tail| - 1;
      older, newer := MarkedTailGroups(front, tail[..n]);
      assert (front + tail)[..|front + tail| - 1] == front + tail[..n];
      older, newer := MarkedTailStep(GroupingOf(front + tail[..n]), older, newer, tail[..n], tail[n]);
      assert tail[..n] + [tail[n]] == tail;
    }
  }

  lemma MarkedTailStep(before: Grouping, older: seq<seq<Message>>, newer: seq<seq<Message>>, tail: seq<Message>, m: Message)
    returns (older': seq<seq<Message>>, newer': seq<seq<Message>>)
    requires before.groups == older + newer && TailGroups(newer, tail) && Marked(m)
    requires newer == [] ==> tail == []
    ensures Place(before, m).groups == older' + newer' && TailGroups(newer', tail + [m])
  {
    assert Flatten([]) == [];
    hide Role, OpenedCalls, AnsweredCall, Marked, TailGroups, Flatten;
    if Role(m) != "tool" || before.groups == [] || before.open == {} {
      older', newer' := older, newer + [[] + [m]];
      MarkedTailExtends(newer, [], tail, m);
      assert [] + [m] == [m];
      assert older' + newer' == before.groups + [[m]];
    } else if newer == [] {
      var n := |older| - 1;
      older', newer' := older[..n], [] + [older[n] + [m]];
      MarkedAlone(older[n], m);
      assert before.groups == older;
      assert older' + newer' == older[n := older[n] + [m]];
    } else {
      var n := |newer| - 1;
      older', newer' := older, newer[..n] + [newer[n] + [m]];
      assert newer == newer[..n] + [newer[n]];
      MarkedTailExtends(newer[..n], newer[n], tail, m);
      var last := |before.groups| - 1;
      assert older' + newer' == before.groups[last := before.groups[last] + [m]];
    }
  }

  lemma {:induction false} RetainedConcat(
      a: seq<seq<Message>>, aSlots: seq<Slot>, b: seq<seq<Message>>, bSlots: seq<Slot>)
    requires |a| == |aSlots| && |b| == |bSlots|
    ensures Retained(a + b, aSlots + bSlots) == Retained(a, aSlots) + Retained(b, bSlots)
    decreases |b|
  {
    hide SlotMessages;
    if b == [] {
      assert a + b == a && aSlots + bSlots == aSlots;
    } else {
      var n := |b| - 1;
      RetainedConcat(a, aSlots, b[..n], bSlots[..n]);
      assert (a + b)[..|a + b| - 1] == a + b[..n];
      assert (aSlots + bSlots)[..|a + b| - 1] == aSlots + bSlots[..n];
    }
  }

  lemma {:induction false} RetainedWhenAllKept(groups: seq<seq<Message>>, slots: seq<Slot>)
    requires |groups| == |slots|
    requires forall i :: 0 <= i < |groups| ==> slots[i] == Kept
    ensures Retained(groups, slots) == Flatten(groups)
    decreases |groups|
  {
    if groups != [] {
      RetainedWhenAllKept(groups[..|groups| - 1], slots[..|groups| - 1]);
    }
  }

  lemma TailSlotsKept(older: seq<seq<Message>>, newer: seq<seq<Message>>, slots: seq<Slot>)
    requires |older| + |newer| == |slots|
    requires forall i :: |older| <= i < |slots| ==> slots[i] == Kept
    ensures Retained(older + newer, slots) == Retained(older, slots[..|older|]) + Flatten(newer)
  {
    hide Retained, Flatten;
    var n := |older|;
    assert slots[..n] + slots[n..] == slots;
    RetainedConcat(older, slots[..n], newer, slots[n..]);
    RetainedWhenAllKept(newer, slots[n..]);
  }

  /** A tail of marked messages survives compaction whole, word for word and at the end. */
  lemma MarkedTailSurvives(est: Estimator, front: seq<Message>, tail: seq<Message>, budget: int)
    requires forall m :: m in tail ==> Marked(m)
    requires Compact(est, front + tail, budget, true).Compacted?
    ensures EndsWith(Compact(est, front + tail, budget, true).retained, OnlyValid(tail))
  {
    hide Marked, Valid, GroupsOf, Select, Retained, Omitted, ProtectedCost, Protected;
    OnlyValidConcat(front, tail);
    var valid := OnlyValid(front + tail);
    var marked := OnlyValid(tail);
    OnlyValidIsPart(tail);
    if CostOrZero(est, valid) > NonNegative(budget) {
      var groups, slots := GroupsOf(valid), SlotsOf(est, valid, budget, true);
      var older, newer := MarkedTailGroups(OnlyValid(front), marked);
      var cut := SelectShape(est, groups, ProtectedCost(est, groups, true), budget, true);
      forall i | |older| <= i < |slots|
        ensures slots[i] == Kept
      {
        assert groups[i] == newer[i - |older|];
      }
      TailSlotsKept(older, newer, slots);
      EndsWithAppend(Retained(older, slots[..|older|]), Flatten(newer), marked);
    }
  }

  lemma {:induction false} OnlyValidIsPart(messages: seq<Message>)
    ensures forall m :: m in OnlyValid(messages) ==> m in messages
  {
    hide Valid;
    if messages != [] {
      OnlyValidIsPart(messages[1..]);
    }
  }

  // ---------------------------------------------------------------- calls and answers stay together

  lemma {:induction false} FlattenAt(groups: seq<seq<Message>>, g: nat, p: nat)
    requires g < |groups| && p < |groups[g]|
    ensures |Flatten(groups[..g])| + p < |Flatten(groups)| && Flatten(groups)[|Flatten(groups[..g])| + p] == groups[g][p]
  {
    var n := |groups| - 1;
    if g < n {
      assert groups[..n][..g] == groups[..g];
      FlattenAt(groups[..n], g, p);
    }
  }

  lemma {:induction false} OmittedConcat(
      a: seq<seq<Message>>, aSlots: seq<Slot>, b: seq<seq<Message>>, bSlots: seq<Slot>)
    requires |a| == |aSlots| && |b| == |bSlots|
    ensures Omitted(a + b, aSlots + bSlots) == Omitted(a, aSlots) + Omitted(b, bSlots)
    decreases |b|
  {
    if b == [] {
      assert a + b == a && aSlots + bSlots == aSlots;
    } else {
      var n := |b| - 1;
      OmittedConcat(a, aSlots, b[..n], bSlots[..n]);
      var all, allSlots := a + b, aSlots + bSlots;
      assert all[..|all| - 1] == a + b[..n] && all[|all| - 1] == b[n];
      assert allSlots[..|all| - 1] == aSlots + bSlots[..n] && allSlots[|all| - 1] == bSlots[n];
      var last: seq<Message> := if bSlots[n].Dropped? then b[n] else [];
      assert Omitted(all, allSlots) == Omitted(all[..|all| - 1], allSlots[..|all| - 1]) + last;
      assert Omitted(b, bSlots) == Omitted(b[..n], bSlots[..n]) + last;
      hide Omitted;
    }
  }

  lemma SingleGroup(group: seq<Message>, slot: Slot)
    ensures Retained([group], [slot]) == SlotMessages(group, slot)
    ensures Omitted([group], [slot]) == if slot.Dropped? then group else []
  {
    assert [group][..0] == [] && [slot][..0] == [];
    assert Retained([], []) == [] && Omitted([], []) == [];
  }

  /** What becomes of one group stands in one piece, among what is retained or among what is omitted. */
  lemma GroupStaysInOnePiece(groups: seq<seq<Message>>, slots: seq<Slot>, g: nat)
    returns (before: seq<Message>, after: seq<Message>)
    requires |groups| == |slots| && g < |groups|
    ensures if slots[g].Dropped? then Omitted(groups, slots) == before + groups[g] + after
            else Retained(groups, slots) == before + SlotMessages(groups[g], slots[g]) + after
  {
    hide SlotMessages, Retained, Omitted;
    var a, b := groups[..g], groups[g + 1..];
    var aSlots, bSlots := slots[..g], slots[g + 1..];
    assert groups == (a + [groups[g]]) + b && slots == (aSlots + [slots[g]]) + bSlots;
    SingleGroup(groups[g], slots[g]);
    if slots[g].Dropped? {
      OmittedConcat(a + [groups[g]], aSlots + [slots[g]], b, bSlots);
      OmittedConcat(a, aSlots, [groups[g]], [slots[g]]);
      before, after := Omitted(a, aSlots), Omitted(b, bSlots);
    } else {
      RetainedConcat(a + [groups[g]], aSlots + [slots[g]], b, bSlots);
      RetainedConcat(a, aSlots, [groups[g]], [slots[g]]);
      before, after := Retained(a, aSlots), Retained(b, bSlots);
    }
  }

  ghost predicate SameMessage(a: Message, b: Message) {
    Role(a) == Role(b) && OpenedCalls(a) == OpenedCalls(b) && AnsweredCall(a) == AnsweredCall(b)
  }

  lemma {:induction false} SlotGroups(est: Estimator, groups: seq<seq<Message>>, used: int, budget: int, protect: bool, g: nat)
    requires g < |groups| && Select(est, groups, used, budget, protect)[g] != Dropped
    ensures
      var kept := SlotMessages(groups[g], Select(est, groups, used, budget, protect)[g]);
      |kept| == |groups[g]| && forall p :: 0 <= p < |kept| ==> SameMessage(groups[g][p], kept[p])
    decreases |groups|
  {
    hide CompactGroup, Protected, SameMessage, Shortened;
    var n := |groups| - 1;
    var older, group := groups[..n], groups[n];
    var cost := est(Arr(group));
    forall m: Message
      ensures SameMessage(m, m)
    {
      EveryMessageIsTheSame(m);
    }
    if Protected(group, protect) {
      if g < n {
        SlotGroups(est, older, used, budget, protect, g);
      }
    } else if used + cost <= budget {
      if g < n {
        SlotGroups(est, older, used + cost, budget, protect, g);
      }
    } else if g == n {
      var compacted := CompactGroup(est, group, NonNegative(budget - used));
      CompactGroupKeepsEnvelopes(est, group, NonNegative(budget - used));
      forall p | 0 <= p < |group|
        ensures SameMessage(group[p], compacted[p])
      {
        ShortenedIsTheSame(group[p], compacted[p]);
      }
    }
  }

  lemma EveryMessageIsTheSame(m: Message)
    ensures SameMessage(m, m)
  {
  }

  lemma ShortenedIsTheSame(a: Message, b: Message)
    requires Shortened(a, b)
    ensures SameMessage(a, b)
  {
    hide Shortened;
    ShortenedKeepsIdentity(a, b);
  }

  /** Message `i` opens the call that message `k` is the first to answer, after only tool messages. */
  ghost predicate Exchange(valid: seq<Message>, i: nat, k: nat, call: string) {
    && i < k < |valid|
    && Role(valid[i]) != "tool" && call in OpenedCalls(valid[i])
    && (forall j :: i < j <= k ==> Role(valid[j]) == "tool")
    && (forall j :: i < j < k ==> AnsweredCall(valid[j]) != call)
    && AnsweredCall(valid[k]) == call
  }

  function Start(groups: seq<seq<Message>>, g: nat): nat
    requires g <= |groups|
  {
    |Flatten(groups[..g])|
  }

  lemma CoveredMessage(groups: seq<seq<Message>>, g: nat, i: nat)
    requires Covers(groups, g, i)
    ensures g < |groups| && Start(groups, g) <= i < |Flatten(groups)| && i - Start(groups, g) < |groups[g]|
    ensures groups[g][i - Start(groups, g)] == Flatten(groups)[i]
  {
    FlattenAt(groups, g, i - Start(groups, g));
  }

  lemma ExchangeGroup(valid: seq<Message>, i: nat, k: nat, call: string) returns (g: nat, p: nat, q: nat)
    requires Exchange(valid, i, k, call)
    ensures g < |GroupsOf(valid)| && p < q < |GroupsOf(valid)[g]|
    ensures GroupsOf(valid)[g][p] == valid[i] && GroupsOf(valid)[g][q] == valid[k]
  {
    hide GroupsOf, GroupIndex, Role, OpenedCalls, AnsweredCall, Flatten, Covers;
    AnswerJoinsItsCall(valid, i, k, call);
    GroupsPartition(valid);
    var groups := GroupsOf(valid);
    var at := GroupIndex(valid, i);
    IsIndex(groups, at, i);
    g := at;
    CoveredMessage(groups, g, i);
    CoveredMessage(groups, g, k);
    p, q := i - Start(groups, g), k - Start(groups, g);
  }

  lemma IsIndex(groups: seq<seq<Message>>, g: int, i: nat)
    requires Covers(groups, g, i)
    ensures 0 <= g < |groups|
  {
  }

  lemma ExchangeInSlots(est: Estimator, groups: seq<seq<Message>>, used: int, budget: int, protect: bool, g: nat, p: nat, q: nat)
    returns (before: seq<Message>, stretch: seq<Message>, after: seq<Message>)
    requires g < |groups| && p < q < |groups[g]|
    ensures
      var slots := Select(est, groups, used, budget, protect);
      && q < |stretch| && SameMessage(groups[g][p], stretch[p]) && SameMessage(groups[g][q], stretch[q])
      && (Retained(groups, slots) == before + stretch + after || Omitted(groups, slots) == before + stretch + after)
  {
    hide SameMessage, Select, SlotMessages, Retained, Omitted;
    var slots := Select(est, groups, used, budget, protect);
    before, after := GroupStaysInOnePiece(groups, slots, g);
    if slots[g].Dropped? {
      stretch := groups[g];
      EveryMessageIsTheSame(groups[g][p]);
      EveryMessageIsTheSame(groups[g][q]);
    } else {
      stretch := SlotMessages(groups[g], slots[g]);
      SlotGroups(est, groups, used, budget, protect, g);
    }
  }

  /** A call and its answer share their fate: either both are left out, or both are
      retained, in order, in one stretch of what is retained, with the same role, the same
      calls and the same call id. */
  lemma AnswerStaysWithItsCall(
      est: Estimator, messages: seq<Message>, budget: int, protect: bool, i: nat, k: nat, call: string)
    returns (before: seq<Message>, stretch: seq<Message>, after: seq<Message>, p: nat, q: nat)
    requires Compact(est, messages, budget, protect).Compacted? && Exchange(OnlyValid(messages), i, k, call)
    ensures p < q < |stretch|
    ensures SameMessage(OnlyValid(messages)[i], stretch[p]) && SameMessage(OnlyValid(messages)[k], stretch[q])
    ensures
      var result := Compact(est, messages, budget, protect);
      result.retained == before + stretch + after || result.omitted == before + stretch + after
  {
    hide Role, OpenedCalls, AnsweredCall, OnlyValid, SameMessage, Select, Retained, Omitted, GroupsOf;
    var valid := OnlyValid(messages);
    if Compact(est, messages, budget, protect).triggered {
      var groups := GroupsOf(valid);
      var g;
      g, p, q := ExchangeGroup(valid, i, k, call);
      hide Exchange;
      before, stretch, after := ExchangeInSlots(est, groups, ProtectedCost(est, groups, protect), budget, protect, g, p, q);
    } else {
      before, stretch, after, p, q := [], valid, [], i, k;
      assert [] + valid + [] == valid;
      EveryMessageIsTheSame(valid[i]);
      EveryMessageIsTheSame(valid[k]);
    }
  }
}
