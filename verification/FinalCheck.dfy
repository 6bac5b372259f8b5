/** When the last size check of a request fails: exactly when a checkpoint is needed
    with fewer than 96 tokens left for the conversation, and long runs of blanks in the
    ids it names let a cut of its text fit the 96 tokens it is given all the same. */
module FinalCheck {
  import opened Json
  import opened PyText
  import opened TokenEstimation
  import opened EscapedText
  import opened TextCutting
  import opened Messages
  import opened ContextCompaction
  import opened Checkpoints
  import opened CompactionProperties
  import opened CheckpointProperties
  import opened ModelInputContext
  import opened ModelInputProperties

  // ---------------------------------------------------------------- the message of a checkpoint

  lemma ObjectOfThreeWeight(a: Field, b: Field, c: Field)
    ensures WeightOf(Obj([a, b, c])) == 4 + Weight(DumpField(a)) + Weight(DumpField(b)) + Weight(DumpField(c))
  {
    ObjectWeight([a, b, c]);
    hide Weight, DumpField;
    assert [a, b, c][1..] == [b, c] && [b, c][1..] == [c] && [c][1..] == [];
    assert FieldsWeight([c]) == Weight(DumpField(c)) + 1;
    assert FieldsWeight([b, c]) == Weight(DumpField(b)) + 1 + FieldsWeight([c]);
  }

  lemma TextFieldWeight(key: string, text: string)
    requires Plain(key)
    ensures Weight(DumpField(Field(key, Str(text)))) == 5 + |key| + EscapedWeight(text)
  {
    FieldWeight(Field(key, Str(text)));
    QuoteWeight(text);
    PlainEscape(key);
    hide Weight, Escape;
  }

  lemma CheckpointWeight(prefix: string, text: string)
    ensures WeightOf(CheckpointWith(prefix, text)) == 51 + EscapedWeight(prefix) + EscapedWeight(text)
  {
    hide WeightOf, Weight, EscapedWeight, DumpField;
    var a, b, c := Field("role", Str("system")), Field("content", Str(prefix + text)), Field("_context_tier", Str("L2"));
    ObjectOfThreeWeight(a, b, c);
    EnvelopeWeighs();
    assert Plain("content");
    TextFieldWeight("content", prefix + text);
    EscapedConcat(prefix, text);
  }

  lemma EnvelopeWeighs()
    ensures Weight(DumpField(Field("role", Str("system")))) == 15
    ensures Weight(DumpField(Field("_context_tier", Str("L2")))) == 20
  {
    hide Weight, EscapedWeight, DumpField;
    assert Plain("role") && Plain("system") && Plain("_context_tier") && Plain("L2");
    hide Plain;
    TextFieldWeight("role", "system");
    TextFieldWeight("_context_tier", "L2");
    PlainEscape("system");
    PlainEscape("L2");
  }

  lemma PrefixWeighs()
    ensures EscapedWeight(CHECKPOINT_PREFIX) == 67 && EstimateText(CHECKPOINT_PREFIX) == 17
  {
    var a, b, c := "L2 working checkpoint ", "(derived; raw events ", "remain authoritative):\n";
    assert Plain(a) && Plain(b) && Plain(c[..22]) && c == c[..22] + "\n" && |a| == 22 && |b| == 21;
    hide Plain;
    PartsWeigh(a, b, c[..22]);
  }

  lemma PartsWeigh(a: string, b: string, c: string)
    requires Plain(a) && Plain(b) && Plain(c) && |a| == 22 && |b| == 21 && |c| == 22
    ensures
      var whole := a + b + (c + "\n");
      EscapedWeight(whole) == 67 && EstimateText(whole) == 17
  {
    var whole := a + b + (c + "\n");
    PlainEscape(a);
    PlainEscape(b);
    PlainEscape(c);
    LineBreak();
    EscapedConcat(a + b, c + "\n");
    EscapedConcat(a, b);
    EscapedConcat(c, "\n");
    assert forall i :: 0 <= i < |whole| ==> IsAscii(whole[i]);
    AsciiTextWeight(whole);
    hide EscapedWeight, Escape, Weight;
  }

  /** The message of a checkpoint fits the least reserve exactly when its text, written
      inside the message, weighs no more than the room its envelope leaves. */
  lemma MessageRoom(text: string)
    ensures Estimate(Arr([CheckpointWith(CHECKPOINT_PREFIX, text)])) <= 96 <==> EscapedWeight(text) <= CHECKPOINT_ROOM
  {
    var m := CheckpointWith(CHECKPOINT_PREFIX, text);
    CheckpointWeight(CHECKPOINT_PREFIX, text);
    PrefixWeighs();
    hide CheckpointWith, EscapedWeight, WeightOf, EstimateText;
    ListWeight([m]);
    assert SpacedWeight([m]) == WeightOf(m) + 1;
    EstimateMeasuresWeight(Arr([m]), 96);
  }

  function CutText(c: Checkpoint): string {
    HeadTailCut(Estimate, Spaced(Brief(c)), CUT_BUDGET)
  }

  function CutMessage(c: Checkpoint): Message {
    CheckpointWith(CHECKPOINT_PREFIX, CutText(c))
  }

  /** None of the three texts of a checkpoint ever fits 96 tokens; only a cut of the
      brief one may. */
  lemma OnlyACutFits(c: Checkpoint)
    ensures CheckpointMessage(Estimate, c, 96) == if EscapedWeight(CutText(c)) <= CHECKPOINT_ROOM then [CutMessage(c)] else []
  {
    hide Spaced, AsDict, Brief, HeadTailCut, EscapedWeight, CheckpointWith, EstimateText;
    DictionaryIsLong(c, 16);
    DictionaryIsLong(c, 6);
    BriefIsLong(c);
    MessageRoom(Spaced(AsDict(c, 16)));
    MessageRoom(Spaced(AsDict(c, 6)));
    MessageRoom(Spaced(Brief(c)));
    MessageRoom(CutText(c));
    PrefixWeighs();
    CutOfTheLast(CHECKPOINT_PREFIX, Spaced(AsDict(c, 16)), Spaced(AsDict(c, 6)), Spaced(Brief(c)));
  }

  lemma CutOfTheLast(prefix: string, full: string, recent: string, brief: string)
    requires EstimateText(prefix) == 17
    requires Estimate(Arr([CheckpointWith(prefix, full)])) > 96 && Estimate(Arr([CheckpointWith(prefix, recent)])) > 96
    requires Estimate(Arr([CheckpointWith(prefix, brief)])) > 96
    ensures
      var cut := CheckpointWith(prefix, HeadTailCut(Estimate, brief, 79));
      FirstThatFits(Estimate, prefix, [full, recent, brief], 96) == if Estimate(Arr([cut])) <= 96 then [cut] else []
  {
    assert Estimate(Str(prefix)) == 17;
    hide Estimate, HeadTailCut, CheckpointWith;
    assert [full, recent, brief][1..] == [recent, brief] && [recent, brief][1..] == [brief];
    assert FirstThatFits(Estimate, prefix, [full, recent, brief], 96) == FirstThatFits(Estimate, prefix, [recent, brief], 96)
        == FirstThatFits(Estimate, prefix, [brief], 96);
  }

  // ---------------------------------------------------------------- a conversation without room

  ghost predicate Unmarked(messages: seq<Message>) {
    forall m :: m in messages ==> !Marked(m)
  }

  lemma {:induction false} ProtectionCosts(groups: seq<seq<Message>>)
    ensures ProtectedCost(Estimate, groups, true) == 0 <==> Unmarked(Flatten(groups))
    ensures Unmarked(Flatten(groups)) ==> forall i :: 0 <= i < |groups| ==> !Protected(groups[i], true)
  {
    hide Marked, Estimate;
    if groups != [] {
      var n := |groups| - 1;
      ProtectionCosts(groups[..n]);
      ListsCost(groups[n]);
      GroupIsMarked(groups[n]);
      hide Protected;
      JoinUnmarked(Flatten(groups[..n]), groups[n]);
      hide Unmarked;
      assert forall i :: 0 <= i < n ==> groups[i] == groups[..n][i];
    }
  }

  lemma ListsCost(items: seq<Value>)
    ensures Estimate(Arr(items)) >= 1
  {
  }

  lemma GroupIsMarked(group: seq<Message>)
    ensures Protected(group, true) <==> !Unmarked(group)
  {
    hide Marked;
  }

  lemma JoinUnmarked(a: seq<Message>, b: seq<Message>)
    ensures Unmarked(a + b) <==> Unmarked(a) && Unmarked(b)
  {
    hide Marked;
  }

  lemma {:induction false} AllDropped(groups: seq<seq<Message>>, slots: seq<Slot>)
    requires |slots| == |groups| && forall i :: 0 <= i < |slots| ==> slots[i] == Dropped
    ensures Retained(groups, slots) == [] && Omitted(groups, slots) == Flatten(groups)
  {
    if groups != [] {
      var n := |groups| - 1;
      AllDropped(groups[..n], slots[..n]);
    }
  }

  lemma {:induction false} NothingSelected(groups: seq<seq<Message>>)
    requires forall i :: 0 <= i < |groups| ==> !Protected(groups[i], true)
    ensures forall i :: 0 <= i < |groups| ==> Select(Estimate, groups, 0, 0, true)[i] == Dropped
  {
    if groups != [] {
      var n := |groups| - 1;
      NoRoomForGroup(groups[n]);
      hide Estimate, Protected, CompactGroup;
      assert Select(Estimate, groups, 0, 0, true) == OnlyProtected(groups[..n], true) + [Dropped];
      hide Select;
      assert forall i :: 0 <= i < n ==> groups[..n][i] == groups[i];
    }
  }

  lemma NoRoomForGroup(group: seq<Message>)
    ensures Estimate(Arr(group)) > 0 && CompactGroup(Estimate, group, 0) == []
  {
    EstimateListBound(group, 1);
    hide Estimate, EmptyContents, CutContents, NoteContents;
  }

  /** With no room at all everything valid is left out, unless something is protected. */
  lemma NoRoomKeepsNothing(conversation: seq<Message>)
    requires OnlyValid(conversation) != []
    ensures
      var valid := OnlyValid(conversation);
      Compact(Estimate, conversation, 0, true) == if Unmarked(valid) then Compacted([], valid, true) else ProtectedOverBudget
  {
    var valid := OnlyValid(conversation);
    var groups := GroupsOf(valid);
    GroupsPartition(valid);
    EstimateListBound(valid, 1);
    ProtectionCosts(groups);
    hide Estimate, OnlyValid, GroupsOf, Select, Retained, Omitted, Protected, Unmarked;
    if Unmarked(valid) {
      NothingSelected(groups);
      AllDropped(groups, SlotsOf(Estimate, valid, 0, true));
    }
  }

  /** With less than 96 tokens for the conversation, a checkpoint leaves no room for it. */
  lemma CheckpointTakesTheRoom(conversation: seq<Message>, budget: nat, origin: Origin)
    requires budget < 96 && NeedsCheckpoint(Estimate, conversation, budget)
    ensures
      var valid := OnlyValid(conversation);
      && valid != []
      && WorkingContext(Estimate, conversation, budget, origin) ==
           if Unmarked(valid) then Working([], CheckpointMessage(Estimate, CheckpointOf(origin, valid, []), 96))
           else WorkingOverBudget
  {
    assert CheckpointReserve(budget) == 96;
    assert OnlyValid(conversation) != [];
    hide Compact, Estimate, CheckpointMessage, OnlyValid, Unmarked, CheckpointOf;
    NoRoomKeepsNothing(conversation);
  }

  // ---------------------------------------------------------------- exactly when the check fails

  lemma NothingFitsNoRoom(messages: seq<Message>, shorten: bool)
    requires Objects(messages)
    ensures FitOptional(Estimate, messages, 0, shorten) == []
  {
    if messages != [] {
      assert messages[0] in messages;
      EstimateMeasuresWeight(messages[0], 1);
      hide Estimate, WeightOf;
    }
  }

  lemma PublicNeverLarger(messages: seq<Message>)
    requires Objects(messages)
    ensures Estimate(Arr(PublicAll(messages))) <= Estimate(Arr(messages))
  {
    hide Estimate, SpacedWeight, PublicAll;
    PublicAllWeight(messages);
    PublicAllLength(messages);
    EstimateListBound(messages, 1);
    EstimateListBound(PublicAll(messages), Estimate(Arr(messages)));
    NothingWeighsNothing();
  }

  lemma OnlyControlAndCheckpointMatter(
      l1: seq<Message>, l2: seq<Message>, checkpoint: seq<Message>, l3: seq<Message>, optional: seq<Message>, available: nat)
    requires available >= 1 && CostOrZero(Estimate, l1) <= available
    requires Objects(l1) && Tagged(l2) && Objects(checkpoint) && Tagged(l3) && Objects(l2) && Objects(optional)
    requires BareWeight(l2) <= 4 * (available - CostOrZero(Estimate, l1))
    requires
      var room := NonNegative(available - Estimate(Arr(l1 + l2 + checkpoint + [])));
      l3 == FitOptional(Estimate, optional, room, false) && BareWeight(l3) <= 4 * room
    ensures Estimate(Arr(PublicAll(l1 + l2 + checkpoint + l3 + []))) > available
       <==> Estimate(Arr(PublicAll(l1 + l2 + checkpoint))) > available
  {
    hide Estimate, PublicAll, CostOrZero, BareWeight, FitOptional;
    var base := l1 + l2 + checkpoint;
    assert base + [] == base;
    if Estimate(Arr(base)) <= available {
      PartsFitTogether(l1, l2, checkpoint, l3, [], available);
      PublicNeverLarger(base);
    } else {
      NothingFitsNoRoom(optional, false);
      assert base + l3 + [] == base;
    }
  }

  /** The valid messages of the conversation, as compaction sees them. */
  function ValidConversation(messages: seq<Message>): seq<Message> {
    OnlyValid(ProtectCurrentTurn(Conversation(messages)))
  }

  /** The last check fails if and only if a checkpoint is needed while fewer than 96
      tokens are left for the conversation and nothing valid in it is protected, the cut
      of the brief text about the whole conversation fits the 96 tokens all the same, and
      it is too much next to the control messages and the fitted L2 messages. */
  lemma FinalCheckFailsExactly(messages: seq<Message>, available: nat, origin: Origin)
    requires available >= 1
    ensures
      var conversation := ProtectCurrentTurn(Conversation(messages));
      var budget := ConversationBudget(Estimate, messages, available);
      var l1, l2 := OfTier(messages, "L1"), FittedL2(Estimate, messages, available);
      var omitted := ValidConversation(messages);
      var c := CheckpointOf(origin, omitted, []);
      Prepare(Estimate, messages, available, origin) == PreparedOverBudget <==>
        && CostOrZero(Estimate, l1) <= available && budget < 96
        && NeedsCheckpoint(Estimate, conversation, budget) && Unmarked(omitted)
        && EscapedWeight(CutText(c)) <= CHECKPOINT_ROOM
        && Estimate(Arr(PublicAll(l1 + l2 + [CutMessage(c)]))) > available
  {
    hide OfTier, Conversation, ProtectCurrentTurn, FitOptional, WorkingContext, NeedsCheckpoint, PublicAll, Estimate, InTier,
      HasInternal, CostOrZero, BareWeight, CutText, CutMessage, EscapedWeight, Unmarked, OnlyValid, CheckpointOf;
    var conversation := ProtectCurrentTurn(Conversation(messages));
    var budget := ConversationBudget(Estimate, messages, available);
    var l1 := OfTier(messages, "L1");
    if budget >= 96 || !NeedsCheckpoint(Estimate, conversation, budget) {
      FinalCheckNeverFails(messages, available, origin);
    } else if CostOrZero(Estimate, l1) <= available {
      var c := CheckpointOf(origin, ValidConversation(messages), []);
      CheckpointTakesTheRoom(conversation, budget, origin);
      OnlyACutFits(c);
      CheckpointFits(Estimate, c, 96);
      if Unmarked(ValidConversation(messages)) {
        CheckIsOfBase(messages, available, origin, CheckpointMessage(Estimate, c, 96));
        hide CheckpointMessage;
        WithoutCheckpoint(messages, available);
      }
    }
  }

  /** When no conversation is kept, the check is decided by control messages, L2 and checkpoint. */
  lemma CheckIsOfBase(messages: seq<Message>, available: nat, origin: Origin, checkpoint: seq<Message>)
    requires available >= 1 && CostOrZero(Estimate, OfTier(messages, "L1")) <= available
    requires WorkingOf(Estimate, messages, available, origin) == Working([], checkpoint) && Objects(checkpoint)
    ensures
      var l1, l2 := OfTier(messages, "L1"), FittedL2(Estimate, messages, available);
      Prepare(Estimate, messages, available, origin) == PreparedOverBudget <==>
        Estimate(Arr(PublicAll(l1 + l2 + checkpoint))) > available
  {
    hide OfTier, FitOptional, WorkingOf, PublicAll, Estimate, InTier, HasInternal, CostOrZero, BareWeight;
    var l1, l2 := OfTier(messages, "L1"), FittedL2(Estimate, messages, available);
    var room := NonNegative(available - Estimate(Arr(l1 + l2 + checkpoint + [])));
    var l3 := FittedL3(Estimate, messages, available, l1 + l2 + checkpoint + []);
    FitOptionalWeight(OfTier(messages, "L2"), NonNegative(available - CostOrZero(Estimate, l1)), true, "L2");
    FitOptionalWeight(OfTier(messages, "L3"), room, false, "L3");
    TierAreObjects(messages, "L1");
    TierAreObjects(messages, "L3");
    TaggedAreObjects(l2);
    OnlyControlAndCheckpointMatter(l1, l2, checkpoint, l3, OfTier(messages, "L3"), available);
  }

  /** Control messages and L2 fit without a checkpoint. */
  lemma WithoutCheckpoint(messages: seq<Message>, available: nat)
    requires available >= 1 && CostOrZero(Estimate, OfTier(messages, "L1")) <= available
    ensures Estimate(Arr(PublicAll(OfTier(messages, "L1") + FittedL2(Estimate, messages, available) + []))) <= available
  {
    hide OfTier, FitOptional, PublicAll, Estimate, InTier, HasInternal, CostOrZero, BareWeight;
    var l1, l2 := OfTier(messages, "L1"), FittedL2(Estimate, messages, available);
    FitOptionalWeight(OfTier(messages, "L2"), NonNegative(available - CostOrZero(Estimate, l1)), true, "L2");
    TierAreObjects(messages, "L1");
    TaggedNothing();
    PartsFitTogether(l1, l2, [], [], [], available);
    assert l1 + l2 + [] + [] + [] == l1 + l2 + [];
  }

  lemma TaggedNothing()
    ensures Tagged([]) && Objects([]) && BareWeight([]) == 0
  {
  }

  // ---------------------------------------------------------------- without long runs of blanks

  lemma ProtectKeepsId(m: Message)
    ensures IdOf(Protect(m)) == IdOf(m)
  {
    LookupPut(Fields(m), "_context_protected", Bool(true), "id");
    hide TextOf;
  }

  lemma {:induction false} ValidIds(messages: seq<Message>, k: nat)
    requires IdsWithin(messages, k)
    ensures IdsWithin(OnlyValid(messages), k)
  {
    hide Valid, IdOf;
    if messages != [] {
      ValidIds(messages[1..], k);
    }
  }

  lemma ConversationIds(messages: seq<Message>, k: nat)
    requires IdsWithin(messages, k)
    ensures IdsWithin(ValidConversation(messages), k)
  {
    hide IdOf, Conversation, Protect, CurrentTurnStart, OnlyValid, BlanksWithin;
    var conversation := Conversation(messages);
    ConversationIsPart(messages);
    var turn := ProtectAll(conversation[CurrentTurnStart(conversation)..]);
    forall m | m in turn
      ensures BlanksWithin(IdOf(m), k)
    {
      var i :| 0 <= i < |turn| && turn[i] == m;
      ProtectKeepsId(conversation[CurrentTurnStart(conversation) + i]);
    }
    ValidIds(ProtectCurrentTurn(conversation), k);
  }

  /** With no run of more than sixteen blanks in the subject or an id of a message, the
      last check never fails, whatever the budget. */
  lemma FinalCheckHoldsWithoutBlanks(messages: seq<Message>, available: nat, origin: Origin)
    requires available >= 1
    requires BlanksWithin(origin.subjectId, LONGEST_RUN) && IdsWithin(messages, LONGEST_RUN)
    ensures Prepare(Estimate, messages, available, origin) != PreparedOverBudget
  {
    var omitted := ValidConversation(messages);
    var c := CheckpointOf(origin, omitted, []);
    hide Prepare, ValidConversation, Spaced, Brief, BlanksWithin, IdsWithin, EscapedWeight, HeadTailCut, CheckpointOf,
      Estimate, PublicAll, NeedsCheckpoint, Unmarked, OfTier, FittedL2;
    ConversationIds(messages, LONGEST_RUN);
    BriefBlanks(origin, omitted, LONGEST_RUN);
    BriefIsLong(c);
    CutIsTooLong(Spaced(Brief(c)));
    FinalCheckFailsExactly(messages, available, origin);
  }

  // ---------------------------------------------------------------- an input for which it fails

  function Blanks(n: nat): string {
    seq(n, _ => ' ')
  }

  lemma BlanksStrip(head: string, tail: string, n: nat)
    requires head != "" && !IsSpace(head[|head| - 1]) && tail != "" && !IsSpace(tail[0])
    ensures StripRight(head + Blanks(n)) == head && StripLeft(Blanks(n) + tail) == tail
    decreases n
  {
    if n == 0 {
      assert head + Blanks(n) == head && Blanks(n) + tail == tail;
    } else {
      BlanksStrip(head, tail, n - 1);
      assert (head + Blanks(n))[..|head| + n - 1] == head + Blanks(n - 1);
      assert (Blanks(n) + tail)[1..] == Blanks(n - 1) + tail;
    }
  }

  /** A text with a short head and a short tail, each next to a long run of blanks, is cut
      down to just these: the blanks are stripped, and all between them goes. */
  lemma CutBetweenBlanks(v: string, head: string, x: string, y: string, tail: string, n: nat)
    requires v == head + Blanks(n) + x && v == y + Blanks(n) + tail
    requires head != "" && !IsSpace(head[|head| - 1]) && tail != "" && !IsSpace(tail[0]) && x != "" && !IsSpace(x[0])
    requires |head| <= |tail| <= |head| + n && |y| >= 2 * n && 300 <= n
    requires Weight(head) + Weight(tail) <= 220
    ensures HeadTailCut(Estimate, v, CUT_BUDGET) == head + MARKER + tail
  {
    hide StripRight, StripLeft, Weight, IsSpace;
    var size := |head| + n;
    CandidateBetweenBlanks(v, head, x, y, tail, n);
    WeightConcat(head, MARKER);
    WeightConcat(head + MARKER, tail);
    MarkerWeighs();
    WithinBudget(head + MARKER + tail, CUT_BUDGET);
    assert Fits(Estimate, v, MARKER, size, CUT_BUDGET);
    NoLongerCut(v, head + Blanks(n), x);
    hide Candidate, Estimate, HeadTailCut, Fits;
    CutsAreMonotone(v, MARKER);
    LongestBySteps(v, size);
    HeadTailIsLongest(v, CUT_BUDGET, size);
  }

  lemma WithinBudget(text: string, budget: nat)
    requires budget >= 1 && Weight(text) <= 4 * budget
    ensures Estimate(Str(text)) <= budget
  {
    EstimateTextMeasuresWeight(text);
  }

  lemma CandidateBetweenBlanks(v: string, head: string, x: string, y: string, tail: string, n: nat)
    requires v == head + Blanks(n) + x && v == y + Blanks(n) + tail
    requires head != "" && !IsSpace(head[|head| - 1]) && tail != "" && !IsSpace(tail[0])
    requires |head| <= |tail| <= |head| + n && |y| >= 2 * n
    ensures |head| + n <= |v| && v[..|head| + n] == head + Blanks(n)
    ensures Candidate(v, MARKER, |head| + n) == head + MARKER + tail
  {
    hide StripRight, StripLeft, IsSpace;
    var size := |head| + n;
    BlanksStrip(head, tail, n);
    assert v[..size] == head + Blanks(n);
    BlanksStrip(head, tail, size - |tail|);
    assert v[|v| - size..] == Blanks(size - |tail|) + tail;
  }

  lemma NoLongerCut(v: string, front: string, x: string)
    requires v == front + x && x != "" && !IsSpace(x[0]) && |front| >= 300
    ensures !Fits(Estimate, v, MARKER, |front| + 1, CUT_BUDGET)
  {
    var size := |front| + 1;
    var head := v[..size];
    assert head[|front|] == x[0];
    assert StripRight(head) == head;
    EscapedLengths(head, StripLeft(v[|v| - size..]));
    CandidateWeight(v, MARKER, size);
    MarkerWeighs();
    hide StripRight, StripLeft, Weight, Candidate;
    EstimateTextMeasuresWeight(Candidate(v, MARKER, size));
  }

  lemma EscapedLengths(a: string, b: string)
    ensures Weight(a) >= |a| && Weight(b) >= 0
  {
  }

  lemma LongestBySteps(v: string, size: nat)
    requires 1 <= size < |v| / 2 && MonotoneCuts(Estimate, v, MARKER)
    requires Fits(Estimate, v, MARKER, size, CUT_BUDGET) && !Fits(Estimate, v, MARKER, size + 1, CUT_BUDGET)
    ensures LongestFit(Estimate, v, MARKER, CUT_BUDGET, size)
  {
    hide Candidate, Estimate;
  }

  lemma {:induction false} SplitFields(a: seq<Field>, f: Field, b: seq<Field>)
    requires a != [] && b != []
    ensures SpacedFields(a + [f] + b) == SpacedFields(a) + ", " + SpacedField(f) + ", " + SpacedFields(b)
  {
    hide SpacedField;
    var all := a + [f] + b;
    if |a| == 1 {
      assert all[1..] == [f] + b && ([f] + b)[1..] == b;
      assert SpacedFields(all) == SpacedField(a[0]) + ", " + (SpacedField(f) + ", " + SpacedFields(b));
    } else {
      SplitFields(a[1..], f, b);
      assert all[1..] == a[1..] + [f] + b;
    }
  }

  lemma {:induction false} EscapeLength(s: string)
    ensures |Escape(s)| >= |s|
  {
    if s != "" {
      EscapeLength(s[1..]);
      EscapeCharBlanks(s[0]);
      hide EscapeChar, IsSpace;
    }
  }

  lemma QuotedLength(s: string)
    ensures |Quote(s)| >= |s| + 2
  {
    EscapeLength(s);
  }

  /** The checkpoint of one assistant's message whose id, like the subject's, is all blanks. */
  ghost predicate Blanked(c: Checkpoint, n: nat) {
    && c.subjectId == Blanks(n) && c.firstId == Blanks(n) && c.lastId == Blanks(n)
    && c.goal == "" && c.facts == [] && c.firstKeptId == ""
  }

  lemma BlanksPlain(n: nat)
    ensures Quote(Blanks(n)) == "\"" + Blanks(n) + "\""
  {
    PlainEscape(Blanks(n));
    hide Escape, EscapedWeight;
  }

  lemma AroundBlanks(a: string, key: string, blanks: string, b: string)
    ensures "{" + (a + ", " + (key + ": " + ("\"" + blanks + "\"")) + ", " + b) + "}"
         == ("{" + a + ", " + key + ": \"") + blanks + ("\", " + b + "}")
  {
  }

  lemma AroundLastBlanks(a: string, key: string, quoted: string, blanks: string, b: string)
    ensures "{" + (a + ", " + (key + ": " + (("[" + ((quoted + ", ") + ("\"" + blanks + "\""))) + "]")) + ", " + b) + "}"
         == ("{" + a + ", " + key + ": [" + quoted + ", \"") + blanks + ("\"], " + b + "}")
  {
  }

  function BlankHead(c: Checkpoint): string {
    "{" + SpacedFields([Entry("checkpoint_id", CheckpointId(c))]) + ", " + Quote("subject_id") + ": \""
  }

  function BlankTail(c: Checkpoint): string {
    "\"], " + SpacedFields([Entry("first_kept_event_id", ""), Entry("source_fingerprint", c.fingerprint)]) + "}"
  }

  lemma OneEntryText(f: Field)
    ensures SpacedFields([f]) == SpacedField(f)
    ensures EscapedWeight(SpacedFields([f])) == EntryWeight(f)
  {
    FieldTextWeight(f);
  }

  lemma TwoEntriesText(f: Field, g: Field)
    ensures SpacedFields([f, g]) == SpacedField(f) + ", " + SpacedField(g)
    ensures EscapedWeight(SpacedFields([f, g])) == EntryWeight(f) + 2 + EntryWeight(g)
  {
    hide SpacedField, EscapedWeight, EntryWeight;
    assert [f, g][1..] == [g];
    FieldTextWeight(f);
    FieldTextWeight(g);
    EscapedConcat(SpacedField(f) + ", ", SpacedField(g));
    EscapedConcat(SpacedField(f), ", ");
    Punctuation();
  }

  lemma OpeningWeighs(text: string, quoted: string)
    ensures EscapedWeight("{" + text + ", " + quoted + ": \"") == 7 + EscapedWeight(text) + EscapedWeight(quoted)
  {
    hide EscapedWeight;
    ColonQuote();
    Punctuation();
    EscapedConcat("{" + text + ", " + quoted, ": \"");
    EscapedConcat("{" + text + ", ", quoted);
    EscapedConcat("{" + text, ", ");
    EscapedConcat("{", text);
  }

  lemma ClosingWeighs(text: string)
    ensures EscapedWeight("\"], " + text + "}") == 6 + EscapedWeight(text)
  {
    hide EscapedWeight;
    ColonQuote();
    Punctuation();
    EscapedConcat("\"], " + text, "}");
    EscapedConcat("\"], ", text);
  }

  lemma HeadWeighs(c: Checkpoint)
    ensures EscapedWeight(BlankHead(c)) == 72 && BlankHead(c)[|BlankHead(c)| - 1] == '\"'
  {
    PlainId(c);
    hide EscapedWeight, EntryWeight, CheckpointId, SpacedFields, Quote, Plain, HexDigits;
    var entry := Entry("checkpoint_id", CheckpointId(c));
    OneEntryText(entry);
    SubjectKey();
    OpeningWeighs(SpacedFields([entry]), Quote("subject_id"));
  }

  lemma PlainId(c: Checkpoint)
    ensures EntryWeight(Entry("checkpoint_id", CheckpointId(c))) == 51
  {
    assert Plain(CheckpointId(c)) && |CheckpointId(c)| == 28;
    assert Plain("checkpoint_id");
    hide EntryWeight, CheckpointId, Plain;
    PlainEntry("checkpoint_id", CheckpointId(c));
  }

  lemma SubjectKey()
    ensures EscapedWeight(Quote("subject_id")) == 14
  {
    PlainSubject();
    hide EscapedWeight, Quote, Plain;
    Quoted("subject_id");
  }

  lemma PlainSubject()
    ensures Plain("subject_id")
  {
  }

  lemma ColonQuote()
    ensures EscapedWeight(": \"") == 4 && EscapedWeight("\"], ") == 5
  {
    QuoteMark();
    Punctuation();
    assert ": \"" == ": " + "\"" && "\"], " == "\"" + ("]" + ", ");
    EscapedConcat(": ", "\"");
    EscapedConcat("\"", "]" + ", ");
    EscapedConcat("]", ", ");
    hide EscapedWeight;
  }

  lemma TailWeighs(c: Checkpoint)
    ensures EscapedWeight(BlankTail(c)) == 129 && |BlankTail(c)| >= 73 && BlankTail(c)[0] == '\"'
  {
    TailEntries(c);
    hide EscapedWeight, EntryWeight, SpacedFields, Quote, Plain, HexDigits;
    var a, b := Entry("first_kept_event_id", ""), Entry("source_fingerprint", c.fingerprint);
    TwoEntriesText(a, b);
    QuotedLength(c.fingerprint);
    QuotedLength("first_kept_event_id");
    ClosingWeighs(SpacedFields([a, b]));
  }

  lemma TailEntries(c: Checkpoint)
    ensures EntryWeight(Entry("first_kept_event_id", "")) == 29
    ensures EntryWeight(Entry("source_fingerprint", c.fingerprint)) == 92
  {
    PlainSources(c);
    hide EntryWeight, Plain, HexDigits;
    PlainEntry("first_kept_event_id", "");
    PlainEntry("source_fingerprint", c.fingerprint);
  }

  lemma PlainSources(c: Checkpoint)
    ensures Plain(c.fingerprint) && Plain("source_fingerprint") && Plain("first_kept_event_id") && Plain("")
  {
  }

  /** The text of seven entries, taken apart around the second and around the fifth. */
  lemma SevenEntriesText(a: Field, b: Field, c: Field, d: Field, e: Field, f: Field, g: Field)
    ensures
      var text := Spaced(Obj([a, b, c, d, e, f, g]));
      && text == "{" + (SpacedFields([a]) + ", " + SpacedField(b) + ", " + SpacedFields([c, d, e, f, g])) + "}"
      && text == "{" + (SpacedFields([a, b, c, d]) + ", " + SpacedField(e) + ", " + SpacedFields([f, g])) + "}"
    ensures SpacedFields([a, b, c, d]) == SpacedFields([a]) + ", " + SpacedField(b) + ", " + SpacedFields([c, d])
  {
    var fields := [a, b, c, d, e, f, g];
    assert Spaced(Obj(fields)) == "{" + SpacedFields(fields) + "}";
    hide SpacedFields, SpacedField, Spaced;
    assert fields == [a] + [b] + [c, d, e, f, g];
    assert fields == [a, b, c, d] + [e] + [f, g];
    assert [a, b, c, d] == [a] + [b] + [c, d];
    SplitFields([a], b, [c, d, e, f, g]);
    SplitFields([a, b, c, d], e, [f, g]);
    SplitFields([a], b, [c, d]);
  }

  /** Where the blanks are in the brief text of such a checkpoint. */
  lemma BlankedText(c: Checkpoint, n: nat) returns (x: string, y: string)
    requires Blanked(c, n)
    ensures Spaced(Brief(c)) == BlankHead(c) + Blanks(n) + x && x != "" && x[0] == '\"'
    ensures Spaced(Brief(c)) == y + Blanks(n) + BlankTail(c) && |y| >= 2 * n
  {
    hide SpacedFields, SpacedItems, Spaced, Quote, CheckpointId, FactValues, LastOf, HexDigits, IsSpace;
    assert |Blanks(n)| == n;
    hide Blanks;
    var id, subject, goal := Entry("checkpoint_id", CheckpointId(c)), Entry("subject_id", c.subjectId), Entry("goal", c.goal);
    var facts, range := Field("critical_facts", Arr(FactValues(LastOf(c.facts, 3)))), CoveredRange(c);
    var kept, source := Entry("first_kept_event_id", c.firstKeptId), Entry("source_fingerprint", c.fingerprint);
    assert Brief(c) == Obj([id, subject, goal, facts, range, kept, source]);
    RangeText(c);
    BlanksPlain(n);
    SevenEntriesText(id, subject, goal, facts, range, kept, source);
    var quoted := "\"" + Blanks(n) + "\"";
    assert SpacedField(subject) == Quote("subject_id") + ": " + quoted by {
      StringText(c.subjectId);
    }
    var rest, front := SpacedFields([goal, facts, range, kept, source]), SpacedFields([id, subject, goal, facts]);
    AroundBlanks(SpacedFields([id]), Quote("subject_id"), Blanks(n), rest);
    AroundLastBlanks(front, Quote("covered_event_range"), quoted, Blanks(n), SpacedFields([kept, source]));
    x := "\", " + rest + "}";
    y := "{" + front + ", " + Quote("covered_event_range") + ": [" + quoted + ", \"";
  }

  lemma StringText(s: string)
    ensures Spaced(Str(s)) == Quote(s)
  {
  }

  /** Such a checkpoint is cut down to what fits. */
  lemma BlankedCutFits(c: Checkpoint, n: nat)
    requires Blanked(c, n) && n >= 300
    ensures EscapedWeight(CutText(c)) <= CHECKPOINT_ROOM
  {
    var x, y := BlankedText(c, n);
    HeadWeighs(c);
    TailWeighs(c);
    EscapedAtLeast(BlankHead(c));
    EscapedAtLeast(BlankTail(c));
    hide EscapedWeight, BlankHead, BlankTail, Spaced, Brief, HeadTailCut, Weight;
    CutBetweenBlanks(Spaced(Brief(c)), BlankHead(c), x, y, BlankTail(c), n);
    MarkerWeighs();
    EscapedConcat(BlankHead(c) + MARKER, BlankTail(c));
    EscapedConcat(BlankHead(c), MARKER);
  }

  // ---------------------------------------------------------------- the request that fails

  lemma EnvelopeCosts(m: Message)
    requires m.Obj? && m.fields != []
    ensures Estimate(Arr([m])) >= 2
  {
    FieldWeight(m.fields[0]);
    ObjectWeight(m.fields);
    EstimateListBound([m], 1);
    hide Estimate, Weight, DumpField;
    assert SpacedWeight([m]) == WeightOf(m) + 1;
  }

  lemma LoneGroup(m: Message)
    ensures GroupsOf([m]) == [[m]]
  {
    assert [m][..0] == [];
    assert GroupingOf([]) == Grouping([], {});
    hide Role;
    assert Place(GroupingOf([]), m).groups == [] + [[m]];
  }

  lemma LoneGroupDropped(est: Estimator, m: Message, budget: nat)
    requires !Protected([m], true) && est(Arr([m])) > budget && CompactGroup(est, [m], budget) == []
    ensures ProtectedCost(est, [[m]], true) == 0
    ensures Select(est, [[m]], 0, budget, true) == [Dropped]
    ensures Omitted([[m]], [Dropped]) == [m]
  {
    hide Protected, CompactGroup;
    assert [[m]][..0] == [] && [Dropped][..0] == [];
    assert ProtectedCost(est, [], true) == 0;
    assert OnlyProtected([], true) == [];
    assert Omitted([], []) == [] && [] + [m] == [m];
  }

  /** A lone unmarked message does not fit a budget of one, not even emptied. */
  lemma LoneMessageIsDropped(m: Message)
    requires Valid(m) && m.Obj? && m.fields != [] && !Marked(m)
    requires EmptyContent(m).Obj? && EmptyContent(m).fields != []
    ensures NeedsCheckpoint(Estimate, [m], 1)
  {
    OnlyValidKeepsAll([m]);
    EnvelopeCosts(m);
    EnvelopeCosts(EmptyContent(m));
    LoneGroup(m);
    hide Estimate, Valid, EmptyContent, Marked, Select, ProtectedCost, Retained, Omitted, GroupsOf;
    assert EmptyContents([m]) == [EmptyContent(m)];
    LoneGroupDropped(Estimate, m, 1);
  }

  function BlankMessage(n: nat): Message {
    Obj([Field("role", Str("assistant")), Field("content", Str("hello")), Field("id", Str(Blanks(n)))])
  }

  lemma BlankMessageFacts(n: nat)
    requires n > 0
    ensures
      var m := BlankMessage(n);
      && Role(m) == "assistant" && Valid(m) && !Marked(m) && IdOf(m) == Blanks(n)
      && EmptyContent(m).Obj? && EmptyContent(m).fields != []
  {
    var fields := BlankMessage(n).fields;
    assert fields[1..] == [Field("content", Str("hello")), Field("id", Str(Blanks(n)))];
    assert fields[1..][1..] == [Field("id", Str(Blanks(n)))];
    assert fields[1..][1..][1..] == [];
    assert Lookup(fields, "content") == Lookup(fields[1..], "content") == Str("hello");
    assert Lookup(fields, "id") == Lookup(fields[1..], "id") == Lookup(fields[1..][1..], "id") == Str(Blanks(n));
    assert Lookup(fields, "_context_protected") == Lookup(fields[1..], "_context_protected")
        == Lookup(fields[1..][1..], "_context_protected") == Lookup([], "_context_protected") == Null;
  }

  lemma LoneTier(m: Message, tier: string)
    requires !InTier(m, tier)
    ensures OfTier([m], tier) == []
  {
    hide InTier;
    assert [m][1..] == [];
  }

  lemma LoneTiers(m: Message)
    requires Role(m) == "assistant" && Valid(m)
    ensures OfTier([m], "L1") == [] && OfTier([m], "L2") == [] && OfTier([m], "L3") == []
    ensures ProtectCurrentTurn(Conversation([m])) == [m] && ValidConversation([m]) == [m]
    ensures FittedL2(Estimate, [m], 1) == [] && ConversationBudget(Estimate, [m], 1) == 1
  {
    hide Role, Valid, Estimate;
    var messages := [m];
    assert messages[1..] == [];
    assert !InTier(m, "L1") && !InTier(m, "L2") && !InTier(m, "L3");
    LoneTier(m, "L1");
    LoneTier(m, "L2");
    LoneTier(m, "L3");
    assert Conversation(messages) == [m] + Conversation([]) == [m];
    assert CurrentTurnStart([m]) == 1;
    assert ProtectCurrentTurn([m]) == [m] + ProtectAll([]) == [m];
    OnlyValidKeepsAll([m]);
  }

  lemma PublicCheckpoint(text: string)
    ensures Estimate(Arr(PublicAll([] + [] + [CheckpointWith(CHECKPOINT_PREFIX, text)]))) > 1
  {
    var m := CheckpointWith(CHECKPOINT_PREFIX, text);
    assert !Internal("role") by {
      assert "role"[0] != "_context_"[0];
    }
    assert Public(m).fields != [];
    hide Public, Estimate, CheckpointWith;
    assert PublicAll([] + [] + [m]) == [Public(m)];
    EnvelopeCosts(Public(m));
  }

  lemma BlankCheckpoint(origin: Origin, n: nat)
    requires n > 0 && origin.subjectId == Blanks(n)
    ensures Blanked(CheckpointOf(origin, [BlankMessage(n)], []), n)
  {
    var m := BlankMessage(n);
    BlankMessageFacts(n);
    hide BlankMessage, IdOf, Role, Excerpt;
    assert LastOf([m], FACT_MESSAGES) == [m] && [m][1..] == [] && [m][..0] == [];
    assert Facts([m]) == Facts([]) && Goal([m]) == Goal([]);
  }

  /** A request for which the last check fails: one assistant's message, a budget of one
      token, and three hundred blanks or more in the message's id and in the subject's. */
  lemma FinalCheckCanFail(origin: Origin, n: nat)
    requires n >= 300 && origin.subjectId == Blanks(n)
    ensures Prepare(Estimate, [BlankMessage(n)], 1, origin) == PreparedOverBudget
  {
    var m := BlankMessage(n);
    var c := CheckpointOf(origin, [m], []);
    BlankMessageFacts(n);
    BlankCheckpoint(origin, n);
    hide *;
    BlankedCutFits(c, n);
    LoneMessageIsDropped(m);
    LoneTiers(m);
    BlankRequest(m, c, origin);
  }

  lemma BlankRequest(m: Message, c: Checkpoint, origin: Origin)
    requires !Marked(m) && NeedsCheckpoint(Estimate, [m], 1) && c == CheckpointOf(origin, [m], [])
    requires OfTier([m], "L1") == [] && FittedL2(Estimate, [m], 1) == [] && ConversationBudget(Estimate, [m], 1) == 1
    requires ProtectCurrentTurn(Conversation([m])) == [m] && ValidConversation([m]) == [m]
    requires EscapedWeight(CutText(c)) <= CHECKPOINT_ROOM
    ensures Prepare(Estimate, [m], 1, origin) == PreparedOverBudget
  {
    hide Estimate, Marked, NeedsCheckpoint, CheckpointOf, OfTier, FittedL2, ConversationBudget, ProtectCurrentTurn, Conversation,
      ValidConversation, EscapedWeight, CutText, Prepare, PublicAll, CheckpointWith;
    FinalCheckFailsExactly([m], 1, origin);
    PublicCheckpoint(CutText(c));
  }
}
