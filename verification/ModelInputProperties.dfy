/** What the assembled model input promises: it fits, it keeps the control
    messages and the current turn word for word, and its last size check can only
    fail when a checkpoint has to be made in a conversation budget under 96. */
module ModelInputProperties {
  import opened Json
  import opened TokenEstimation
  import opened TextCutting
  import opened Messages
  import opened ContextCompaction
  import opened Checkpoints
  import opened CompactionProperties
  import opened ModelInputContext

  // ---------------------------------------------------------------- weights of stripped messages

  ghost predicate Objects(messages: seq<Message>) {
    forall m :: m in messages ==> m.Obj?
  }

  ghost predicate HasInternal(m: Message) {
    exists i :: 0 <= i < |Fields(m)| && Internal(Fields(m)[i].key)
  }

  ghost predicate Tagged(messages: seq<Message>) {
    forall m :: m in messages ==> m.Obj? && HasInternal(m)
  }

  lemma {:induction false} PublicFieldsWeight(fields: seq<Field>)
    ensures FieldsWeight(PublicFields(fields)) <= FieldsWeight(fields)
    ensures (exists i :: 0 <= i < |fields| && Internal(fields[i].key)) ==>
      FieldsWeight(PublicFields(fields)) + 4 <= FieldsWeight(fields)
  {
    hide Internal;
    if fields != [] {
      FieldWeight(fields[0]);
      hide Weight, WeightOf, DumpField;
      PublicFieldsWeight(fields[1..]);
      var rest := PublicFields(fields[1..]);
      if !Internal(fields[0].key) {
        assert ([fields[0]] + rest)[1..] == rest;
        if exists i :: 0 <= i < |fields| && Internal(fields[i].key) {
          var i :| 0 <= i < |fields| && Internal(fields[i].key);
          assert fields[1..][i - 1] == fields[i];
        }
      } else {
        assert [] + rest == rest;
      }
    }
  }

  /** A message never grows when its internal entries go, and shrinks by two or
      more when it had one: enough to pay for the comma in front of it. */
  lemma PublicWeight(m: Message)
    requires m.Obj?
    ensures WeightOf(Public(m)) <= WeightOf(m)
    ensures HasInternal(m) ==> WeightOf(Public(m)) + 2 <= WeightOf(m)
    ensures WeightOf(m) >= 2
  {
    PublicFieldsWeight(m.fields);
    ObjectWeight(m.fields);
    ObjectWeight(PublicFields(m.fields));
    if m.fields != [] {
      FieldWeight(m.fields[0]);
    }
    hide Weight, DumpField, Internal;
  }

  lemma {:induction false} PublicAllWeight(messages: seq<Message>)
    requires Objects(messages)
    ensures SpacedWeight(PublicAll(messages)) <= SpacedWeight(messages)
    ensures Tagged(messages) ==> SpacedWeight(PublicAll(messages)) + |messages| <= BareWeight(messages)
    ensures BareWeight(messages) >= 2 * |messages|
  {
    hide WeightOf, Public, HasInternal;
    if messages != [] {
      PublicWeight(messages[0]);
      PublicAllWeight(messages[1..]);
      assert PublicAll(messages)[1..] == PublicAll(messages[1..]);
    }
  }

  lemma PublicAllConcat(a: seq<Message>, b: seq<Message>)
    ensures PublicAll(a + b) == PublicAll(a) + PublicAll(b)
  {
  }

  // ---------------------------------------------------------------- the optional system messages

  lemma {:induction false} BareBelowSpaced(items: seq<Value>)
    ensures BareWeight(items) <= SpacedWeight(items)
  {
    if items != [] {
      BareBelowSpaced(items[1..]);
    }
  }

  lemma ShortenedKeepsTag(est: Estimator, m: Message, budget: int)
    requires InTier(m, "L2")
    requires CompactGroup(est, [m], budget) != []
    ensures Tagged(CompactGroup(est, [m], budget))
  {
    hide CompactGroup, Get, HasInternal, InTier;
    CompactGroupKeepsEnvelopes(est, [m], budget);
    var result := CompactGroup(est, [m], budget);
    EnvelopeKeepsTag(m, result[0]);
    TierTagIsInternal(m, "L2");
    TagIsInternal(result[0]);
  }

  lemma EnvelopeKeepsTag(a: Message, b: Message)
    requires Shortened(a, b)
    ensures Get(a, "_context_tier") == Get(b, "_context_tier")
  {
  }

  lemma TagIsInternal(m: Message)
    requires Get(m, "_context_tier") != Null
    ensures m.Obj? && HasInternal(m)
  {
    LookupFound(Fields(m), "_context_tier");
    var i :| 0 <= i < |Fields(m)| && Fields(m)[i].key == "_context_tier";
    assert "_context_" + "tier" == "_context_tier";
    assert Internal(Fields(m)[i].key);
  }

  lemma TierTagIsInternal(m: Message, tier: string)
    requires InTier(m, tier) && tier != ""
    ensures Get(m, "_context_tier") != Null && m.Obj? && HasInternal(m)
  {
    TagIsInternal(m);
  }

  /** The optional messages kept, weighed without list punctuation, fit the room
      they were given, and every one of them still carries its internal tier tag. */
  lemma {:induction false} FitOptionalWeight(messages: seq<Message>, remaining: nat, shorten: bool, tier: string)
    requires tier != "" && (shorten ==> tier == "L2")
    requires forall m :: m in messages ==> InTier(m, tier)
    ensures BareWeight(FitOptional(Estimate, messages, remaining, shorten)) <= 4 * remaining
    ensures Tagged(FitOptional(Estimate, messages, remaining, shorten))
  {
    hide CompactGroup, InTier, HasInternal, EstimateText, WeightOf;
    if messages != [] {
      var m := messages[0];
      TierTagIsInternal(m, tier);
      var cost := Estimate(m);
      if cost <= remaining {
        EstimateMeasuresWeight(m, 1);
        FitOptionalWeight(messages[1..], remaining - cost, shorten, tier);
        var rest := FitOptional(Estimate, messages[1..], remaining - cost, shorten);
        assert ([m] + rest)[1..] == rest;
      } else if shorten && remaining >= SMALLEST_SHORTENED {
        var compacted := CompactGroup(Estimate, [m], remaining);
        if compacted != [] {
          CompactGroupFits(Estimate, [m], remaining);
          EstimateListBound(compacted, 1);
          BareBelowSpaced(compacted);
          ShortenedKeepsTag(Estimate, m, remaining);
        }
      }
    }
  }

  // ---------------------------------------------------------------- the assembled list

  /** The five parts of a request and the room each was given. */
  ghost predicate WithinRooms(
      l1: seq<Message>, l2: seq<Message>, checkpoint: seq<Message>, l3: seq<Message>, conversation: seq<Message>,
      available: nat)
  {
    var l1Tokens := CostOrZero(Estimate, l1);
    var used := Estimate(Arr(l1 + l2 + checkpoint + conversation));
    && l1Tokens <= available
    && BareWeight(l2) <= 4 * (available - l1Tokens)
    && BareWeight(l3) <= 4 * NonNegative(available - used)
    && (used <= available || (checkpoint == [] && conversation == []))
  }

  lemma SpacedWeightOfParts(a: seq<Value>, b: seq<Value>, c: seq<Value>, d: seq<Value>, e: seq<Value>)
    ensures SpacedWeight(a + b + c + d + e)
         == SpacedWeight(a) + SpacedWeight(b) + SpacedWeight(c) + SpacedWeight(d) + SpacedWeight(e)
  {
    SpacedWeightConcat(a, b);
    SpacedWeightConcat(a + b, c);
    SpacedWeightConcat(a + b + c, d);
    SpacedWeightConcat(a + b + c + d, e);
  }

  lemma PublicAllOfParts(a: seq<Message>, b: seq<Message>, c: seq<Message>, d: seq<Message>, e: seq<Message>)
    ensures PublicAll(a + b + c + d + e)
         == PublicAll(a) + PublicAll(b) + PublicAll(c) + PublicAll(d) + PublicAll(e)
  {
    hide PublicAll;
    PublicAllConcat(a, b);
    PublicAllConcat(a + b, c);
    PublicAllConcat(a + b + c, d);
    PublicAllConcat(a + b + c + d, e);
  }

  /** Parts that fit their rooms fit together once the internal entries are gone. */
  lemma PartsFitTogether(
      l1: seq<Message>, l2: seq<Message>, checkpoint: seq<Message>, l3: seq<Message>, conversation: seq<Message>,
      available: nat)
    requires available >= 1
    requires Objects(l1) && Tagged(l2) && Objects(checkpoint) && Tagged(l3) && Objects(conversation)
    requires WithinRooms(l1, l2, checkpoint, l3, conversation, available)
    ensures Estimate(Arr(PublicAll(l1 + l2 + checkpoint + l3 + conversation))) <= available
  {
    hide Estimate, PublicAll, HasInternal, SpacedWeight, BareWeight;
    var final := PublicAll(l1 + l2 + checkpoint + l3 + conversation);
    var others := l1 + l2 + checkpoint + conversation;
    var used := Estimate(Arr(others));
    PublicAllOfParts(l1, l2, checkpoint, l3, conversation);
    SpacedWeightOfParts(PublicAll(l1), PublicAll(l2), PublicAll(checkpoint), PublicAll(l3), PublicAll(conversation));
    SpacedWeightOfParts(l1, l2, checkpoint, conversation, []);
    assert others + [] == others;
    PublicAllWeight(l1);
    PublicAllWeight(l2);
    PublicAllWeight(checkpoint);
    PublicAllWeight(l3);
    PublicAllWeight(conversation);
    PublicAllLength(l1 + l2 + checkpoint + l3 + conversation);
    EstimateListBound(l1, 1);
    EstimateListBound(others, 1);
    EstimateListBound(final, available);
    NothingWeighsNothing();
  }

  lemma NothingWeighsNothing()
    ensures SpacedWeight([]) == 0 && PublicAll([]) == []
  {
  }

  lemma PublicAllLength(messages: seq<Message>)
    ensures |PublicAll(messages)| == |messages|
  {
  }

  // ---------------------------------------------------------------- rooms

  lemma RetainedAreObjects(messages: seq<Message>, budget: int)
    requires Compact(Estimate, messages, budget, true).Compacted?
    ensures Objects(Compact(Estimate, messages, budget, true).retained)
  {
    hide OnlyValid, GroupsOf, Select, Retained, Omitted, ProtectedCost, CompactGroup, Estimate, Role;
    EstimateIsSubadditive();
    var kept := Compact(Estimate, messages, budget, true).retained;
    CompactSettles(Estimate, messages, budget, true);
    assert kept == OnlyValid(kept);
  }

  lemma {:induction false} FirstThatFitsProperties(est: Estimator, prefix: string, texts: seq<string>, budget: nat)
    requires texts != []
    ensures CostOrZero(est, FirstThatFits(est, prefix, texts, budget)) <= budget
    ensures Objects(FirstThatFits(est, prefix, texts, budget))
  {
    hide HeadTailCut;
    if |texts| > 1 {
      FirstThatFitsProperties(est, prefix, texts[1..], budget);
    }
  }

  /** The checkpoint message, when there is one, fits its reserve as a list. */
  lemma CheckpointFits(est: Estimator, c: Checkpoint, budget: nat)
    ensures CostOrZero(est, CheckpointMessage(est, c, budget)) <= budget
    ensures Objects(CheckpointMessage(est, c, budget))
  {
    hide Renderings, FirstThatFits, Objects;
    if budget > 0 {
      FirstThatFitsProperties(est, CHECKPOINT_PREFIX, Renderings(c), budget);
    } else {
      NothingIsObjects();
    }
  }

  lemma NothingIsObjects()
    ensures Objects([])
  {
  }

  /** The conversation and its checkpoint together stay within the conversation
      budget, if no checkpoint is needed or the budget is at least 96. */
  lemma WorkingContextFits(conversation: seq<Message>, budget: nat, origin: Origin)
    requires budget >= 96 || !NeedsCheckpoint(Estimate, conversation, budget)
    requires WorkingContext(Estimate, conversation, budget, origin).Working?
    ensures
      var working := WorkingContext(Estimate, conversation, budget, origin);
      && CostOrZero(Estimate, working.conversation) + CostOrZero(Estimate, working.checkpoint) <= budget
      && Objects(working.conversation) && Objects(working.checkpoint)
  {
    hide Compact, Estimate, CheckpointMessage, CheckpointOf;
    var first := Compact(Estimate, conversation, budget, true);
    if first.omitted == [] {
      DefaultCompactFits(conversation, budget, true);
      RetainedAreObjects(conversation, budget);
    } else {
      var reserve := CheckpointReserve(budget);
      var second := Compact(Estimate, conversation, NonNegative(budget - reserve), true);
      DefaultCompactFits(conversation, NonNegative(budget - reserve), true);
      RetainedAreObjects(conversation, NonNegative(budget - reserve));
      if second.omitted != [] {
        CheckpointFits(Estimate, CheckpointOf(origin, second.omitted, second.retained), reserve);
      }
    }
  }

  lemma JoinFour(a: seq<Message>, b: seq<Message>, c: seq<Message>, d: seq<Message>)
    ensures CostOrZero(Estimate, a + b + c + d) <=
      CostOrZero(Estimate, a) + CostOrZero(Estimate, b) + CostOrZero(Estimate, c) + CostOrZero(Estimate, d)
  {
    hide CostOrZero;
    EstimateIsSubadditive();
    assert CostOrZero(Estimate, a + b) <= CostOrZero(Estimate, a) + CostOrZero(Estimate, b);
    assert CostOrZero(Estimate, (a + b) + c) <= CostOrZero(Estimate, a + b) + CostOrZero(Estimate, c);
    assert CostOrZero(Estimate, (a + b + c) + d) <= CostOrZero(Estimate, a + b + c) + CostOrZero(Estimate, d);
  }

  lemma UsedFits(
      l1: seq<Message>, l2: seq<Message>, checkpoint: seq<Message>, conversation: seq<Message>, available: nat)
    requires available >= 1
    requires CostOrZero(Estimate, conversation) + CostOrZero(Estimate, checkpoint)
          <= NonNegative(available - (CostOrZero(Estimate, l1) + CostOrZero(Estimate, l2)))
    ensures Estimate(Arr(l1 + l2 + checkpoint + conversation)) <= available || (checkpoint == [] && conversation == [])
  {
    hide Estimate;
    JoinFour(l1, l2, checkpoint, conversation);
    EstimateListBound(l1 + l2 + checkpoint + conversation, 1);
    EstimateListBound(checkpoint, 1);
    EstimateListBound(conversation, 1);
  }

  /** The final size check cannot fail unless a checkpoint is needed while the
      conversation budget is under 96 tokens. */
  lemma FinalCheckNeverFails(messages: seq<Message>, available: nat, origin: Origin)
    requires available >= 1
    requires
      || ConversationBudget(Estimate, messages, available) >= 96
      || !NeedsCheckpoint(Estimate, ProtectCurrentTurn(Conversation(messages)), ConversationBudget(Estimate, messages, available))
    ensures Prepare(Estimate, messages, available, origin) != PreparedOverBudget
  {
    hide OfTier, Conversation, ProtectCurrentTurn, FitOptional, WorkingContext, NeedsCheckpoint, PublicAll, Estimate, InTier,
      HasInternal, CostOrZero, BareWeight;
    var l1 := OfTier(messages, "L1");
    if CostOrZero(Estimate, l1) <= available && WorkingOf(Estimate, messages, available, origin).Working? {
      var l2 := FittedL2(Estimate, messages, available);
      var budget := ConversationBudget(Estimate, messages, available);
      var working := WorkingOf(Estimate, messages, available, origin);
      var l3 := FittedL3(Estimate, messages, available, l1 + l2 + working.checkpoint + working.conversation);
      WorkingContextFits(ProtectCurrentTurn(Conversation(messages)), budget, origin);
      FitOptionalWeight(OfTier(messages, "L2"), NonNegative(available - CostOrZero(Estimate, l1)), true, "L2");
      FitOptionalWeight(OfTier(messages, "L3"),
        NonNegative(available - Estimate(Arr(l1 + l2 + working.checkpoint + working.conversation))), false, "L3");
      TierAreObjects(messages, "L1");
      UsedFits(l1, l2, working.checkpoint, working.conversation, available);
      PartsFitTogether(l1, l2, working.checkpoint, l3, working.conversation, available);
    }
  }

  lemma TaggedAreObjects(messages: seq<Message>)
    requires Tagged(messages)
    ensures Objects(messages)
  {
    hide HasInternal;
  }

  lemma TierAreObjects(messages: seq<Message>, tier: string)
    requires tier != ""
    ensures Objects(OfTier(messages, tier))
  {
    hide OfTier, TextOf;
    forall m | m in OfTier(messages, tier)
      ensures m.Obj?
    {
      assert InTier(m, tier);
      TierIsObject(m, tier);
    }
  }

  lemma TierIsObject(m: Message, tier: string)
    requires InTier(m, tier) && tier != ""
    ensures m.Obj?
  {
    TierTagIsInternal(m, tier);
  }

  // ---------------------------------------------------------------- what is kept

  lemma {:induction false} PublicIgnoresProtection(fields: seq<Field>)
    ensures PublicFields(Put(fields, "_context_protected", Bool(true))) == PublicFields(fields)
  {
    var key, value := "_context_protected", Bool(true);
    assert Internal(key) by {
      assert "_context_" + "protected" == key;
    }
    if fields == [] {
      assert [Field(key, value)][1..] == [];
    } else if fields[0].key == key {
      assert Put(fields, key, value)[1..] == fields[1..];
    } else {
      PublicIgnoresProtection(fields[1..]);
      assert Put(fields, key, value)[1..] == Put(fields[1..], key, value);
    }
  }

  lemma ProtectKeepsValidity(m: Message)
    requires m.Obj?
    ensures Valid(Protect(m)) <==> Valid(m)
    ensures Marked(Protect(m))
    ensures Public(Protect(m)) == Public(m)
  {
    hide TextOf, Empty, Internal;
    LookupPut(m.fields, "_context_protected", Bool(true), "role");
    LookupPut(m.fields, "_context_protected", Bool(true), "content");
    LookupPut(m.fields, "_context_protected", Bool(true), "tool_calls");
    LookupPut(m.fields, "_context_protected", Bool(true), "_context_protected");
    PublicIgnoresProtection(m.fields);
  }

  lemma {:induction false} ProtectedTail(messages: seq<Message>)
    requires Objects(messages)
    ensures forall m :: m in ProtectAll(messages) ==> Marked(m)
    ensures PublicAll(OnlyValid(ProtectAll(messages))) == PublicAll(OnlyValid(messages))
  {
    hide Protect, Marked, Valid, Public;
    if messages != [] {
      ProtectedTail(messages[1..]);
      ProtectKeepsValidity(messages[0]);
      var all := ProtectAll(messages);
      assert all[0] == Protect(messages[0]) && all[1..] == ProtectAll(messages[1..]);
      var rest, restProtected := OnlyValid(messages[1..]), OnlyValid(all[1..]);
      if Valid(messages[0]) {
        PublicAllConcat([messages[0]], rest);
        PublicAllConcat([all[0]], restProtected);
      } else {
        assert [] + rest == rest && [] + restProtected == restProtected;
      }
    }
  }

  /** The valid messages of the current turn: the latest user message and all after it. */
  function CurrentTurn(messages: seq<Message>): seq<Message> {
    var conversation := Conversation(messages);
    OnlyValid(conversation[CurrentTurnStart(conversation)..])
  }

  lemma PublicAllEndsWith(all: seq<Message>, tail: seq<Message>)
    requires EndsWith(all, tail)
    ensures EndsWith(PublicAll(all), PublicAll(tail))
  {
    var n := |all| - |tail|;
    forall i | 0 <= i < |tail|
      ensures PublicAll(all)[n..][i] == PublicAll(tail)[i]
    {
      assert all[n..][i] == tail[i];
    }
  }

  lemma WorkingKeepsTail(front: seq<Message>, tail: seq<Message>, budget: nat, origin: Origin)
    requires forall m :: m in tail ==> Marked(m)
    requires WorkingContext(Estimate, front + tail, budget, origin).Working?
    ensures EndsWith(WorkingContext(Estimate, front + tail, budget, origin).conversation, OnlyValid(tail))
  {
    hide Compact, Estimate, CheckpointMessage, Marked;
    var first := Compact(Estimate, front + tail, budget, true);
    if first.omitted == [] {
      MarkedTailSurvives(Estimate, front, tail, budget);
    } else {
      MarkedTailSurvives(Estimate, front, tail, NonNegative(budget - CheckpointReserve(budget)));
    }
  }

  lemma WorkingEndsWithTurn(messages: seq<Message>, budget: nat, origin: Origin)
    requires Objects(messages)
    requires WorkingContext(Estimate, ProtectCurrentTurn(Conversation(messages)), budget, origin).Working?
    ensures
      var working := WorkingContext(Estimate, ProtectCurrentTurn(Conversation(messages)), budget, origin);
      EndsWith(PublicAll(working.conversation), PublicAll(CurrentTurn(messages)))
  {
    hide Conversation, WorkingContext, Estimate, CurrentTurnStart, Marked, Public, OnlyValid;
    var conversation := Conversation(messages);
    var start := CurrentTurnStart(conversation);
    var turn := ProtectAll(conversation[start..]);
    ConversationIsPart(messages);
    ProtectedTail(conversation[start..]);
    WorkingKeepsTail(conversation[..start], turn, budget, origin);
    PublicAllEndsWith(WorkingContext(Estimate, conversation[..start] + turn, budget, origin).conversation, OnlyValid(turn));
  }

  lemma FramedBy(head: seq<Message>, middle: seq<Message>, last: seq<Message>, tail: seq<Message>)
    requires EndsWith(last, tail)
    ensures head <= head + middle + last
    ensures EndsWith(head + middle + last, tail)
    ensures |head| + |tail| <= |head + middle + last|
  {
    EndsWithAppend(head + middle, last, tail);
  }

  /** Whatever is dropped, the request starts with every control message and ends
      with every valid message of the current turn, all word for word apart from
      internal entries. */
  lemma ControlAndCurrentTurnSurvive(messages: seq<Message>, available: nat, origin: Origin)
    requires Objects(messages)
    requires Prepare(Estimate, messages, available, origin).Ready?
    ensures
      var final := Prepare(Estimate, messages, available, origin).messages;
      && PublicAll(OfTier(messages, "L1")) <= final
      && EndsWith(final, PublicAll(CurrentTurn(messages)))
      && |PublicAll(OfTier(messages, "L1"))| + |PublicAll(CurrentTurn(messages))| <= |final|
  {
    hide OfTier, Conversation, ProtectCurrentTurn, FitOptional, WorkingContext, Estimate, PublicAll, CurrentTurn, EndsWith;
    var l1 := OfTier(messages, "L1");
    var l2 := FittedL2(Estimate, messages, available);
    var working := WorkingOf(Estimate, messages, available, origin);
    var l3 := FittedL3(Estimate, messages, available, l1 + l2 + working.checkpoint + working.conversation);
    WorkingEndsWithTurn(messages, ConversationBudget(Estimate, messages, available), origin);
    PublicAllOfParts(l1, l2, working.checkpoint, l3, working.conversation);
    var middle := PublicAll(l2) + PublicAll(working.checkpoint) + PublicAll(l3);
    FramedBy(PublicAll(l1), middle, PublicAll(working.conversation), PublicAll(CurrentTurn(messages)));
    assert PublicAll(l1) + PublicAll(l2) + PublicAll(working.checkpoint) + PublicAll(l3) == PublicAll(l1) + middle;
  }

  lemma {:induction false} ConversationIsPart(messages: seq<Message>)
    ensures forall m :: m in Conversation(messages) ==> m in messages
  {
    hide InConversation;
    if messages != [] {
      ConversationIsPart(messages[1..]);
    }
  }
}
