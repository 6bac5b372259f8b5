/** How a model request is put together: which part each message goes to, what room the
    conversation is given, which text a checkpoint is told in, and when it is refused. */
module RequestAssembly {
  import opened Json
  import opened PyText
  import opened TokenEstimation
  import opened TextCutting
  import opened Messages
  import opened ContextCompaction
  import opened Checkpoints
  import opened ModelInputContext

  // ---------------------------------------------------------------- parts of a request

  ghost predicate IsSystemOf(m: Message, tier: string) {
    Role(m) == "system" && TextOf(Get(m, "_context_tier")) == tier
  }

  /** Every message goes to one part: a system message to the one its tag names, and all
      others, system messages without such a tag among them, to the conversation. */
  lemma {:induction false} EveryMessageHasItsPart(messages: seq<Message>)
    ensures multiset(messages) == multiset(OfTier(messages, "L1")) + multiset(OfTier(messages, "L2"))
                                + multiset(OfTier(messages, "L3")) + multiset(Conversation(messages))
    ensures forall m :: m in Conversation(messages) ==> !IsSystemOf(m, "L1") && !IsSystemOf(m, "L2") && !IsSystemOf(m, "L3")
    ensures forall m, tier :: m in OfTier(messages, tier) ==> IsSystemOf(m, tier)
  {
    hide Role, TextOf, Get;
    if messages != [] {
      var m, rest := messages[0], messages[1..];
      EveryMessageHasItsPart(rest);
      assert messages == [m] + rest;
      OneInOnePart(m);
      hide InTier, InConversation;
    }
  }

  lemma OneInOnePart(m: Message)
    ensures InConversation(m) <==> !InTier(m, "L1") && !InTier(m, "L2") && !InTier(m, "L3")
    ensures forall a, b :: InTier(m, a) && InTier(m, b) ==> a == b
    ensures forall tier :: InTier(m, tier) <==> IsSystemOf(m, tier)
  {
    hide Role, TextOf, Get;
  }

  lemma {:induction false} TierKeepsOrder(messages: seq<Message>, m: Message, tier: string)
    ensures OfTier(messages + [m], tier) == OfTier(messages, tier) + if InTier(m, tier) then [m] else []
  {
    hide InTier;
    if messages == [] {
      assert [] + [m] == [m] && [m][1..] == [];
    } else {
      var all := messages + [m];
      assert all[1..] == messages[1..] + [m] && all[0] == messages[0];
      TierKeepsOrder(messages[1..], m, tier);
      var own := if InTier(messages[0], tier) then [messages[0]] else [];
      assert OfTier(all, tier) == own + OfTier(all[1..], tier) && OfTier(messages, tier) == own + OfTier(messages[1..], tier);
      hide OfTier;
    }
  }

  lemma {:induction false} ConversationKeepsOrder(messages: seq<Message>, m: Message)
    ensures Conversation(messages + [m]) == Conversation(messages) + if InConversation(m) then [m] else []
  {
    hide InConversation;
    if messages == [] {
      assert [] + [m] == [m] && [m][1..] == [];
    } else {
      var all := messages + [m];
      assert all[1..] == messages[1..] + [m] && all[0] == messages[0];
      ConversationKeepsOrder(messages[1..], m);
      var own := if InConversation(messages[0]) then [messages[0]] else [];
      assert Conversation(all) == own + Conversation(all[1..]) && Conversation(messages) == own + Conversation(messages[1..]);
      hide Conversation;
    }
  }

  /** Each part keeps the order of its messages. */
  lemma PartsKeepOrder(messages: seq<Message>, m: Message, tier: string)
    ensures OfTier(messages + [m], tier) == OfTier(messages, tier) + if IsSystemOf(m, tier) then [m] else []
    ensures Conversation(messages + [m])
         == Conversation(messages)
            + if IsSystemOf(m, "L1") || IsSystemOf(m, "L2") || IsSystemOf(m, "L3") then [] else [m]
  {
    OneInOnePart(m);
    TierKeepsOrder(messages, m, tier);
    ConversationKeepsOrder(messages, m);
    hide InTier, InConversation, IsSystemOf, OfTier, Conversation;
  }

  /** A message is sent with all its entries but the internal ones. */
  lemma PublicEntries(m: Message, key: string)
    ensures Get(Public(m), key) == if "_context_" <= key then Null else Get(m, key)
  {
    LookupPublic(Fields(m), key);
  }

  lemma {:induction false} LookupPublic(fields: seq<Field>, key: string)
    ensures Lookup(PublicFields(fields), key) == if "_context_" <= key then Null else Lookup(fields, key)
  {
    if fields != [] {
      LookupPublic(fields[1..], key);
      var rest := PublicFields(fields[1..]);
      assert ([fields[0]] + rest)[1..] == rest;
      assert [] + rest == rest;
    }
  }

  /** The latest user message and all after it are protected, and nothing before it. */
  lemma TurnIsProtectedExactly(conversation: seq<Message>, i: nat, key: string)
    requires i < |conversation|
    ensures
      var marked := ProtectCurrentTurn(conversation);
      var current := (exists j :: 0 <= j <= i && Role(conversation[j]) == "user")
                     && forall j :: i < j < |conversation| ==> Role(conversation[j]) != "user";
      && |marked| == |conversation|
      && (!current ==> marked[i] == conversation[i])
      && (current ==> Get(marked[i], key) == if key == "_context_protected" then Bool(true) else Get(conversation[i], key))
  {
    hide Role, Get;
    ProtectedEntries(conversation[i], key);
    hide Protect;
  }

  lemma ProtectedEntries(m: Message, key: string)
    ensures Get(Protect(m), key) == if key == "_context_protected" then Bool(true) else Get(m, key)
  {
    LookupPut(Fields(m), "_context_protected", Bool(true), key);
  }

  // ---------------------------------------------------------------- the checkpoint's text

  ghost predicate TextFits(est: Estimator, text: string, budget: nat) {
    est(Arr([CheckpointWith(CHECKPOINT_PREFIX, text)])) <= budget
  }

  lemma {:induction false} FirstToFit(est: Estimator, texts: seq<string>, budget: nat, k: nat)
    requires k < |texts| && TextFits(est, texts[k], budget)
    requires forall j :: 0 <= j < k ==> !TextFits(est, texts[j], budget)
    ensures FirstThatFits(est, CHECKPOINT_PREFIX, texts, budget) == [CheckpointWith(CHECKPOINT_PREFIX, texts[k])]
  {
    hide HeadTailCut, CheckpointWith;
    if k > 0 {
      FirstToFit(est, texts[1..], budget, k - 1);
    }
  }

  lemma {:induction false} NoneToFit(est: Estimator, texts: seq<string>, budget: nat)
    requires texts != [] && forall j :: 0 <= j < |texts| ==> !TextFits(est, texts[j], budget)
    ensures
      var left := budget - est(Str(CHECKPOINT_PREFIX));
      var cut := HeadTailCut(est, texts[|texts| - 1], if left > 1 then left else 1);
      FirstThatFits(est, CHECKPOINT_PREFIX, texts, budget)
        == if TextFits(est, cut, budget) then [CheckpointWith(CHECKPOINT_PREFIX, cut)] else []
  {
    hide HeadTailCut, CheckpointWith;
    if |texts| > 1 {
      NoneToFit(est, texts[1..], budget);
    }
  }

  /** A checkpoint is told in the most detailed of its three texts whose message fits: its
      whole dictionary with sixteen facts, with six, or in brief with three; otherwise in a
      cut of the last, if that fits. */
  lemma CheckpointTextIsFirstToFit(est: Estimator, c: Checkpoint, budget: nat)
    ensures
      var texts := [Spaced(AsDict(c, 16)), Spaced(AsDict(c, 6)), Spaced(Brief(c))];
      var left := budget - est(Str(CHECKPOINT_PREFIX));
      var cut := HeadTailCut(est, texts[2], if left > 1 then left else 1);
      var told := CheckpointMessage(est, c, budget);
      if budget == 0 then told == []
      else if TextFits(est, texts[0], budget) then told == [CheckpointWith(CHECKPOINT_PREFIX, texts[0])]
      else if TextFits(est, texts[1], budget) then told == [CheckpointWith(CHECKPOINT_PREFIX, texts[1])]
      else if TextFits(est, texts[2], budget) then told == [CheckpointWith(CHECKPOINT_PREFIX, texts[2])]
      else told == if TextFits(est, cut, budget) then [CheckpointWith(CHECKPOINT_PREFIX, cut)] else []
  {
    hide HeadTailCut, CheckpointWith, FirstThatFits, AsDict, Brief, Spaced;
    var texts := Renderings(c);
    if budget > 0 {
      if TextFits(est, texts[0], budget) {
        FirstToFit(est, texts, budget, 0);
      } else if TextFits(est, texts[1], budget) {
        FirstToFit(est, texts, budget, 1);
      } else if TextFits(est, texts[2], budget) {
        FirstToFit(est, texts, budget, 2);
      } else {
        hide TextFits;
        NoneToFit(est, texts, budget);
      }
    }
  }

  // ---------------------------------------------------------------- what a checkpoint is about

  /** The goal is the excerpt of the latest user message left out. */
  lemma {:induction false} GoalIsTheLatestUsers(omitted: seq<Message>)
    ensures
      if forall i :: 0 <= i < |omitted| ==> Role(omitted[i]) != "user" then Goal(omitted) == ""
      else exists i :: 0 <= i < |omitted| && Role(omitted[i]) == "user" && Goal(omitted) == Excerpt(omitted[i])
                       && forall j :: i < j < |omitted| ==> Role(omitted[j]) != "user"
    decreases |omitted|
  {
    hide Role, Excerpt;
    if omitted != [] {
      var n := |omitted| - 1;
      if Role(omitted[n]) != "user" {
        GoalIsTheLatestUsers(omitted[..n]);
        if i :| 0 <= i < n && Role(omitted[i]) == "user" {
          assert Role(omitted[..n][i]) == "user";
          var k :| 0 <= k < n && Role(omitted[..n][k]) == "user" && Goal(omitted[..n]) == Excerpt(omitted[..n][k])
                   && forall j :: k < j < n ==> Role(omitted[..n][j]) != "user";
          assert forall j :: k < j < |omitted| ==> j == n || Role(omitted[j]) == Role(omitted[..n][j]);
        }
      }
    }
  }

  /** Among the messages looked at, each user or tool message with a text is a fact, in order. */
  lemma {:induction false} FactsInOrder(messages: seq<Message>, m: Message)
    ensures Facts(messages + [m])
         == Facts(messages)
            + if Role(m) in {"user", "tool"} && Excerpt(m) != ""
              then [Fact(Excerpt(m), if IdOf(m) == "" then "conversation-history" else IdOf(m), Role(m))] else []
  {
    hide Role, Excerpt, IdOf;
    if messages == [] {
      assert [] + [m] == [m] && [m][1..] == [];
    } else {
      FactsInOrder(messages[1..], m);
      assert (messages + [m])[1..] == messages[1..] + [m];
    }
  }

  /** An excerpt is the text itself with its blanks normalised, or as much of it as 240
      characters with an ellipsis hold. */
  lemma ExcerptIsShort(m: Message, text: string)
    requires Get(m, "content") == Str(text)
    ensures
      var whole := Normalized(text);
      if |whole| <= 240 then Excerpt(m) == whole
      else
        exists n :: 0 <= n <= 237 && Excerpt(m) == whole[..n] + "..." && forall i :: n <= i < 237 ==> IsSpace(whole[i])
  {
    hide Normalized;
    var whole := Normalized(text);
    if |whole| > 240 {
      ExcerptOfLong(m, text);
      var front := whole[..237];
      StrippedAreBlanks(front);
      var cut := StripRight(front);
      assert cut <= front;
      hide StripRight, IsSpace, Excerpt;
      assert whole[..|cut|] == cut;
      forall i | |cut| <= i < 237
        ensures IsSpace(whole[i])
      {
        assert whole[i] == front[i];
      }
    }
  }

  lemma ExcerptOfLong(m: Message, text: string)
    requires Get(m, "content") == Str(text) && |Normalized(text)| > 240
    ensures Excerpt(m) == StripRight(Normalized(text)[..237]) + "..."
  {
    hide Normalized, StripRight, Get;
  }

  ghost predicate NoBlanks(s: string) {
    forall i :: 0 <= i < |s| ==> !IsSpace(s[i])
  }

  lemma {:induction false} WordFirst(word: string, rest: string)
    requires NoBlanks(word)
    ensures Words(word + rest) == word + Words(rest)
  {
    hide IsSpace;
    if word == "" {
      assert word + rest == rest;
    } else {
      var more := word[1..];
      assert forall i :: 0 <= i < |more| ==> more[i] == word[i + 1];
      assert (word + rest)[1..] == more + rest && (word + rest)[0] == word[0];
      WordFirst(more, rest);
      assert word == [word[0]] + more;
    }
  }

  lemma {:induction false} BlanksComeOff(blanks: string, rest: string)
    requires Blank(blanks)
    ensures StripLeft(blanks + rest) == StripLeft(rest)
  {
    hide IsSpace;
    if blanks == "" {
      assert blanks + rest == rest;
    } else {
      assert (blanks + rest)[1..] == blanks[1..] + rest;
      BlanksComeOff(blanks[1..], rest);
    }
  }

  /** Blanks at the front go, and those between a word and what follows, however many, become
      one blank, or none if no word follows. */
  lemma BlanksAreNormalised(word: string, blanks: string, rest: string)
    requires NoBlanks(word) && Blank(blanks) && blanks != ""
    ensures Normalized(blanks + rest) == Normalized(rest)
    ensures word != "" ==>
      Normalized(word + blanks + rest) == word + if Normalized(rest) == "" then "" else " " + Normalized(rest)
    ensures Normalized(word) == word
  {
    BlanksComeOff(blanks, rest);
    WordFirst(word, "");
    WordFirst(word, blanks + rest);
    assert word + "" == word && word + blanks + rest == word + (blanks + rest);
    assert (blanks + rest)[0] == blanks[0];
    hide IsSpace;
    assert word != "" ==> (word + (blanks + rest))[0] == word[0];
  }

  lemma {:induction false} StrippedAreBlanks(s: string)
    ensures forall i :: |StripRight(s)| <= i < |s| ==> IsSpace(s[i])
  {
    if s != "" && IsSpace(s[|s| - 1]) {
      var n := |s| - 1;
      StrippedAreBlanks(s[..n]);
      forall i | |StripRight(s)| <= i < |s|
        ensures IsSpace(s[i])
      {
        assert i < n ==> s[i] == s[..n][i];
      }
    }
  }

  /** A checkpoint says what was left out, from where to where, and where the rest begins. */
  lemma CheckpointCovers(origin: Origin, omitted: seq<Message>, retained: seq<Message>)
    requires omitted != []
    ensures
      var c, n := CheckpointOf(origin, omitted, retained), |omitted|;
      && c.firstId == IdOf(omitted[0]) && c.lastId == IdOf(omitted[n - 1])
      && c.firstKeptId == (if retained == [] then "" else IdOf(retained[0]))
      && c.goal == Goal(omitted) && c.facts == Facts(if n <= 8 then omitted else omitted[n - 8..])
      && c.fingerprint == origin.digest(omitted) && c.threadId == origin.threadId && c.subjectId == origin.subjectId
  {
    hide Goal, Facts, IdOf;
  }

  // ---------------------------------------------------------------- the conversation's room

  /** The room made for a checkpoint: a quarter, but 96 tokens at least and 2048 at most. */
  function RoomForCheckpoint(budget: nat): nat {
    if budget < 384 then 96 else if budget < 8192 then budget / 4 else 2048
  }

  ghost predicate SomeDropped(slots: seq<Slot>) {
    exists g :: 0 <= g < |slots| && slots[g].Dropped?
  }

  lemma {:induction false} OmittedExactly(groups: seq<seq<Message>>, slots: seq<Slot>)
    requires |groups| == |slots| && NoneEmpty(groups)
    ensures Omitted(groups, slots) != [] <==> SomeDropped(slots)
  {
    if groups != [] {
      var n := |groups| - 1;
      OmittedExactly(groups[..n], slots[..n]);
      if SomeDropped(slots) && !slots[n].Dropped? {
        var g :| 0 <= g < |slots| && slots[g].Dropped?;
        assert slots[..n][g].Dropped?;
      }
    }
  }

  /** What becomes of a conversation that does not fit. If compacting it drops no group, it
      is compacted to the budget and there is no checkpoint; otherwise it is compacted to
      what the room for a checkpoint leaves, and the checkpoint is about what is dropped
      then. It is refused when its protected groups alone are too much for either. */
  lemma ConversationIsCompactedTo(est: Estimator, conversation: seq<Message>, budget: nat, origin: Origin)
    requires CostOrZero(est, OnlyValid(conversation)) > budget
    ensures
      var valid := OnlyValid(conversation);
      var groups := GroupsOf(valid);
      var slots := SlotsOf(est, valid, budget, true);
      var room := RoomForCheckpoint(budget);
      var less := if budget >= room then budget - room else 0;
      var fewer := SlotsOf(est, valid, less, true);
      var working := WorkingContext(est, conversation, budget, origin);
      if ProtectedCost(est, groups, true) > budget then working == WorkingOverBudget
      else if !SomeDropped(slots) then working == Working(Retained(groups, slots), [])
      else if ProtectedCost(est, groups, true) > less then working == WorkingOverBudget
      else
        && working.Working? && working.conversation == Retained(groups, fewer)
        && working.checkpoint
             == if !SomeDropped(fewer) then []
                else CheckpointMessage(est, CheckpointOf(origin, Omitted(groups, fewer), Retained(groups, fewer)), room)
  {
    GroupsPartition(OnlyValid(conversation));
    hide SlotsOf, Retained, Omitted, ProtectedCost, CheckpointMessage, CheckpointOf, SomeDropped, OnlyValid, GroupsOf;
    var valid := OnlyValid(conversation);
    var groups, room := GroupsOf(valid), RoomForCheckpoint(budget);
    assert CheckpointReserve(budget) == room;
    OmittedExactly(groups, SlotsOf(est, valid, budget, true));
    OmittedExactly(groups, SlotsOf(est, valid, NonNegative(budget - room), true));
  }

  // ---------------------------------------------------------------- refusals

  /** When a request is refused before its last size check: when its control messages are
      too much, or, and only if they are not, the conversation is. */
  lemma RequestRefusedExactly(est: Estimator, messages: seq<Message>, available: nat, origin: Origin)
    ensures
      var l1, l2 := OfTier(messages, "L1"), FittedL2(est, messages, available);
      var control := if l1 == [] then 0 else est(Arr(l1));
      var optional := if l2 == [] then 0 else est(Arr(l2));
      var budget: nat := if control + optional <= available then available - (control + optional) else 0;
      var prepared := Prepare(est, messages, available, origin);
      && (prepared == L1OverBudget <==> control > available)
      && (prepared == ProtectedContextOverBudget <==>
            control <= available
            && WorkingContext(est, ProtectCurrentTurn(Conversation(messages)), budget, origin) == WorkingOverBudget)
  {
    hide OfTier, FittedL2, FittedL3, WorkingContext, ProtectCurrentTurn, Conversation, PublicAll;
  }
}
