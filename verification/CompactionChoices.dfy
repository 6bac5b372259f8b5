/** What compaction makes of each group and each message, told from the estimates of the
    input alone. */
module CompactionChoices {
  import opened Json
  import opened TokenEstimation
  import opened TextCutting
  import opened Messages
  import opened ContextCompaction
  import opened CompactionProperties

  // ---------------------------------------------------------------- single messages

  /** The message with another text, marked as compacted; all its other entries stay. */
  ghost predicate Retold(m: Message, r: Message, text: string) {
    && Get(r, "content") == Str(text) && Get(r, "context_compacted") == Bool(true)
    && forall key :: key != "content" && key != "context_compacted" ==> Get(r, key) == Get(m, key)
  }

  lemma RetoldBy(m: Message, text: string)
    ensures Retold(m, MarkCompacted(WithContent(m, text)), text)
  {
    var once := WithContent(m, text);
    forall key
      ensures Get(MarkCompacted(once), key)
           == if key == "context_compacted" then Bool(true) else if key == "content" then Str(text) else Get(m, key)
    {
      LookupPut(Fields(m), "content", Str(text), key);
      LookupPut(Fields(once), "context_compacted", Bool(true), key);
    }
  }

  /** A text that costs at most its share stays word for word; any other becomes the
      head-and-tail cut for that share. Contents that are no text stay. */
  lemma CutForShare(est: Estimator, m: Message, share: int)
    ensures
      var content := Get(m, "content");
      if content.Str? && est(content) > share then Retold(m, CutContent(est, m, share), HeadTailCut(est, content.s, share))
      else CutContent(est, m, share) == m
  {
    var content := Get(m, "content");
    hide HeadTailCut, Get, WithContent, MarkCompacted;
    if content.Str? && est(content) > share {
      RetoldBy(m, HeadTailCut(est, content.s, share));
    }
  }

  /** The notice takes the place of every text that is not empty, and of nothing else. */
  lemma NoticeForText(m: Message)
    ensures
      var content := Get(m, "content");
      if content.Str? && content.s != "" then Retold(m, NoteContent(m), "[context compacted]") else NoteContent(m) == m
  {
    var content := Get(m, "content");
    hide Get, WithContent, MarkCompacted;
    if content.Str? && content.s != "" {
      RetoldBy(m, NOTICE);
    }
  }

  lemma EmptiedText(m: Message)
    ensures
      if Get(m, "content").Str? then
        Get(EmptyContent(m), "content") == Str("") && forall key :: key != "content" ==> Get(EmptyContent(m), key) == Get(m, key)
      else EmptyContent(m) == m
  {
    if Get(m, "content").Str? {
      forall key
        ensures Get(EmptyContent(m), key) == if key == "content" then Str("") else Get(m, key)
      {
        LookupPut(Fields(m), "content", Str(""), key);
      }
    }
  }

  // ---------------------------------------------------------------- a group

  /** What each message of a group may cost: an equal share of the budget, and one token at least. */
  function EqualShare(budget: int, count: nat): int
    requires count > 0
  {
    if budget >= 2 * count then budget / count else 1
  }

  lemma ShareIsEqual(budget: int, count: nat)
    requires count > 0 && budget > 0
    ensures Share(budget, count) == EqualShare(budget, count)
    ensures budget >= count ==> EqualShare(budget, count) * count <= budget < (EqualShare(budget, count) + 1) * count
  {
  }

  /** How an oversized group is shortened: every text over its equal share is cut to that
      share, if the list so formed fits; otherwise every text becomes the notice, if that
      fits. Nothing comes back exactly when the group is empty, there is no budget, the
      messages do not fit even emptied, or the notices do not fit either. */
  lemma GroupIsShortenedExactly(est: Estimator, group: seq<Message>, budget: int)
    ensures
      var result := CompactGroup(est, group, budget);
      if group == [] || budget <= 0 || est(Arr(EmptyContents(group))) > budget then result == []
      else
        var cut := CutContents(est, group, EqualShare(budget, |group|));
        if est(Arr(cut)) <= budget then result == cut
        else result == if est(Arr(NoteContents(cut))) <= budget then NoteContents(cut) else []
  {
    if group != [] && budget > 0 {
      ShareIsEqual(budget, |group|);
    }
    hide EmptyContents, CutContents, NoteContents, Share, EqualShare;
  }

  /** The same message by message, when the cuts fit. */
  lemma CutsAreKept(est: Estimator, group: seq<Message>, budget: int, i: nat)
    requires i < |group| && budget > 0 && est(Arr(EmptyContents(group))) <= budget
    requires est(Arr(CutContents(est, group, EqualShare(budget, |group|)))) <= budget
    ensures
      var result, share := CompactGroup(est, group, budget), EqualShare(budget, |group|);
      var content := Get(group[i], "content");
      && |result| == |group|
      && if content.Str? && est(content) > share then Retold(group[i], result[i], HeadTailCut(est, content.s, share))
         else result[i] == group[i]
  {
    GroupIsShortenedExactly(est, group, budget);
    CutForShare(est, group[i], EqualShare(budget, |group|));
    hide CompactGroup, EmptyContents, HeadTailCut, Get, EqualShare, CutContent;
  }

  /** A text over its share keeps the longest head and tail that fit it: when two or more
      characters fit on each side of the marker, no longer cut would. */
  lemma LongestCutIsKept(group: seq<Message>, budget: int, i: nat, text: string, size: nat)
    requires i < |group| && budget > 0 && Estimate(Arr(EmptyContents(group))) <= budget
    requires Estimate(Arr(CutContents(Estimate, group, EqualShare(budget, |group|)))) <= budget
    requires Get(group[i], "content") == Str(text) && size >= 2
    requires Estimate(Str(text)) > EqualShare(budget, |group|) > 7
    requires LongestFit(Estimate, text, MARKER, EqualShare(budget, |group|), size)
    ensures
      var result := CompactGroup(Estimate, group, budget);
      |result| == |group| && Retold(group[i], result[i], Candidate(text, MARKER, size))
  {
    CutsAreKept(Estimate, group, budget, i);
    HeadTailIsLongest(text, EqualShare(budget, |group|), size);
    hide CompactGroup, EmptyContents, CutContents, HeadTailCut, Get, EqualShare, Candidate, LongestFit, Retold, Estimate;
  }

  /** And when they do not: every text that was not empty is the notice. */
  lemma NoticesAreKept(est: Estimator, group: seq<Message>, budget: int, i: nat)
    requires i < |group| && CompactGroup(est, group, budget) != []
    requires est(Arr(CutContents(est, group, EqualShare(budget, |group|)))) > budget
    ensures
      var result := CompactGroup(est, group, budget);
      var content := Get(group[i], "content");
      && |result| == |group|
      && if content.Str? && content.s != "" then
           Get(result[i], "content") == Str("[context compacted]") && Get(result[i], "context_compacted") == Bool(true)
         else result[i] == group[i] || (content == Str("") && est(Str("")) > 1)
  {
    var share := EqualShare(budget, |group|);
    GroupIsShortenedExactly(est, group, budget);
    CutForShare(est, group[i], share);
    var cut := CutContent(est, group[i], share);
    NoticeForText(cut);
    if Get(group[i], "content").Str? {
      HeadTailNotEmpty(est, Get(group[i], "content").s, share);
    }
    hide CompactGroup, EmptyContents, HeadTailCut, Get, CutContent, NoteContent;
  }

  // ---------------------------------------------------------------- which groups are kept

  /** What the unprotected groups from `i` on cost, one estimate each. */
  function NewerCost(est: Estimator, groups: seq<seq<Message>>, i: nat, protect: bool): nat
    requires i <= |groups|
    decreases |groups| - i
  {
    if i == |groups| then 0
    else NewerCost(est, groups, i + 1, protect) + if Protected(groups[i], protect) then 0 else est(Arr(groups[i]))
  }

  lemma {:induction false} NewerCostGrows(est: Estimator, groups: seq<seq<Message>>, i: nat, j: nat, protect: bool)
    requires i <= j <= |groups|
    ensures NewerCost(est, groups, j, protect) <= NewerCost(est, groups, i, protect)
    decreases j - i
  {
    if i < j {
      NewerCostGrows(est, groups, i + 1, j, protect);
    }
  }

  lemma {:induction false} NewerCostOfFront(est: Estimator, groups: seq<seq<Message>>, i: nat, protect: bool)
    requires groups != [] && i < |groups|
    ensures
      var n := |groups| - 1;
      NewerCost(est, groups, i, protect)
        == NewerCost(est, groups[..n], i, protect) + if Protected(groups[n], protect) then 0 else est(Arr(groups[n]))
    decreases |groups| - i
  {
    hide Protected;
    var n := |groups| - 1;
    if i < n {
      NewerCostOfFront(est, groups, i + 1, protect);
    } else {
      assert NewerCost(est, groups, |groups|, protect) == 0 && NewerCost(est, groups[..n], n, protect) == 0;
    }
  }

  /** What all groups cost, one estimate each. */
  function GroupsCost(est: Estimator, groups: seq<seq<Message>>): nat {
    if groups == [] then 0 else GroupsCost(est, groups[..|groups| - 1]) + est(Arr(groups[|groups| - 1]))
  }

  /** Every group counts once, as protected or not. */
  lemma {:induction false} CostsAddUp(est: Estimator, groups: seq<seq<Message>>, protect: bool)
    ensures ProtectedCost(est, groups, protect) + NewerCost(est, groups, 0, protect) == GroupsCost(est, groups)
  {
    hide Protected;
    if groups != [] {
      CostsAddUp(est, groups[..|groups| - 1], protect);
      NewerCostOfFront(est, groups, 0, protect);
    }
  }

  /** The fate of an unprotected group: it is kept whole if and only if it and all newer
      unprotected groups fit, added to what is used already; the newest that does not fit
      is shortened to what they leave, if it can be; all older ones are dropped. */
  ghost predicate Fate(est: Estimator, groups: seq<seq<Message>>, slots: seq<Slot>, used: int, budget: int, protect: bool, i: nat)
    requires i < |groups| == |slots|
  {
    if Protected(groups[i], protect) then slots[i] == Kept
    else if used + NewerCost(est, groups, i, protect) <= budget then slots[i] == Kept
    else if used + NewerCost(est, groups, i + 1, protect) <= budget then
      var left := budget - (used + NewerCost(est, groups, i + 1, protect));
      var compacted := CompactGroup(est, groups[i], left);
      slots[i] == if compacted != [] then Replaced(compacted) else Dropped
    else slots[i] == Dropped
  }

  lemma {:induction false} FateOfEach(
      est: Estimator, groups: seq<seq<Message>>, used: int, budget: int, protect: bool, i: nat)
    requires i < |groups| && used <= budget
    ensures Fate(est, groups, Select(est, groups, used, budget, protect), used, budget, protect, i)
    decreases |groups|
  {
    hide Fate;
    var n := |groups| - 1;
    if i == n {
      NewestFate(est, groups, used, budget, protect);
    } else {
      var cost := if Protected(groups[n], protect) then 0 else est(Arr(groups[n]));
      if used + cost <= budget {
        FateOfEach(est, groups[..n], used + cost, budget, protect, i);
      }
      hide Protected;
      OlderFate(est, groups, used, budget, protect, i);
    }
  }

  lemma NewestFate(est: Estimator, groups: seq<seq<Message>>, used: int, budget: int, protect: bool)
    requires groups != [] && used <= budget
    ensures Fate(est, groups, Select(est, groups, used, budget, protect), used, budget, protect, |groups| - 1)
  {
    hide Protected, CompactGroup, OnlyProtected;
    assert NewerCost(est, groups, |groups|, protect) == 0;
  }

  /** If the newest group fits, older ones fare as they do without it, its cost being used;
      if it does not, none of them is kept unless it is protected. */
  lemma OlderFate(est: Estimator, groups: seq<seq<Message>>, used: int, budget: int, protect: bool, i: nat)
    requires i < |groups| - 1 && used <= budget
    requires
      var n := |groups| - 1;
      var cost := if Protected(groups[n], protect) then 0 else est(Arr(groups[n]));
      used + cost <= budget ==>
        Fate(est, groups[..n], Select(est, groups[..n], used + cost, budget, protect), used + cost, budget, protect, i)
    ensures Fate(est, groups, Select(est, groups, used, budget, protect), used, budget, protect, i)
  {
    hide Protected, CompactGroup;
    var n := |groups| - 1;
    var cost := if Protected(groups[n], protect) then 0 else est(Arr(groups[n]));
    NewerCostOfFront(est, groups, i, protect);
    NewerCostOfFront(est, groups, i + 1, protect);
    NewerCostGrows(est, groups, i + 1, n, protect);
    assert NewerCost(est, groups, n, protect) == cost by {
      assert NewerCost(est, groups, |groups|, protect) == 0;
    }
    hide NewerCost;
    OlderSlot(est, groups, used, budget, protect, i);
    hide Select;
  }

  lemma OlderSlot(est: Estimator, groups: seq<seq<Message>>, used: int, budget: int, protect: bool, i: nat)
    requires i < |groups| - 1
    ensures
      var n := |groups| - 1;
      var cost := if Protected(groups[n], protect) then 0 else est(Arr(groups[n]));
      Select(est, groups, used, budget, protect)[i]
        == if Protected(groups[n], protect) || used + cost <= budget
           then Select(est, groups[..n], used + cost, budget, protect)[i]
           else if Protected(groups[i], protect) then Kept else Dropped
  {
    hide Protected, CompactGroup;
    assert groups[..|groups| - 1][i] == groups[i];
  }

  /** What becomes of each group of a conversation that does not fit. */
  lemma GroupsFare(est: Estimator, valid: seq<Message>, budget: int, protect: bool, i: nat)
    requires i < |GroupsOf(valid)| && ProtectedCost(est, GroupsOf(valid), protect) <= budget
    ensures Fate(est, GroupsOf(valid), SlotsOf(est, valid, budget, protect), ProtectedCost(est, GroupsOf(valid), protect),
                 budget, protect, i)
  {
    hide GroupsOf, Fate, Select, ProtectedCost;
    FateOfEach(est, GroupsOf(valid), ProtectedCost(est, GroupsOf(valid), protect), budget, protect, i);
  }
}
