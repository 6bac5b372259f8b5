/** Which optional messages a request keeps, told from the estimates of the messages alone. */
module OptionalMessages {
  import opened Json
  import opened TokenEstimation
  import opened EscapedText
  import opened TextCutting
  import opened Messages
  import opened ContextCompaction
  import opened CompactionProperties
  import opened Checkpoints
  import opened ModelInputContext
  import opened ModelInputProperties

  // ---------------------------------------------------------------- running sums

  lemma {:induction false} TotalSnoc(est: Estimator, items: seq<Value>, v: Value)
    ensures Total(est, items + [v]) == Total(est, items) + est(v)
  {
    if items == [] {
      assert [] + [v] == [v] && [v][1..] == [];
    } else {
      TotalSnoc(est, items[1..], v);
      assert (items + [v])[1..] == items[1..] + [v];
    }
  }

  lemma TotalOfNext(est: Estimator, items: seq<Value>, n: nat)
    requires n < |items|
    ensures Total(est, items[..n + 1]) == Total(est, items[..n]) + est(items[n])
  {
    assert items[..n + 1] == items[..n] + [items[n]];
    TotalSnoc(est, items[..n], items[n]);
  }

  lemma {:induction false} TotalGrows(est: Estimator, items: seq<Value>, m: nat, n: nat)
    requires m <= n <= |items|
    ensures Total(est, items[..m]) <= Total(est, items[..n])
    decreases n - m
  {
    if m < n {
      TotalGrows(est, items, m, n - 1);
      TotalOfNext(est, items, n - 1);
    }
  }

  /** The first `n` messages, and no more, fit when their estimates are added up. */
  ghost predicate FittingCount(est: Estimator, messages: seq<Message>, budget: nat, n: nat) {
    && n <= |messages| && Total(est, messages[..n]) <= budget
    && (n < |messages| ==> Total(est, messages[..n + 1]) > budget)
  }

  lemma {:induction false} SomeCountFits(est: Estimator, messages: seq<Message>, budget: nat, from: nat) returns (n: nat)
    requires from <= |messages| && Total(est, messages[..from]) <= budget
    ensures FittingCount(est, messages, budget, n) && from <= n
    decreases |messages| - from
  {
    if from < |messages| && Total(est, messages[..from + 1]) <= budget {
      n := SomeCountFits(est, messages, budget, from + 1);
    } else {
      n := from;
    }
  }

  // ---------------------------------------------------------------- what is kept

  /** What may stand for the first message that does not fit: its shortened form, if
      shortening is on and 32 tokens are left. */
  function Stopgap(est: Estimator, messages: seq<Message>, n: nat, left: int, shorten: bool): seq<Message> {
    if n < |messages| && shorten && left >= 32 then CompactGroup(est, [messages[n]], left) else []
  }

  /** The messages that fit one after the other are kept whole, in order; of the rest
      nothing is kept but, with shortening, a shortened form of the very next. */
  lemma {:induction false} OptionalKeptExactly(
      est: Estimator, messages: seq<Message>, budget: nat, shorten: bool, n: nat)
    requires FittingCount(est, messages, budget, n)
    ensures FitOptional(est, messages, budget, shorten)
         == messages[..n] + Stopgap(est, messages, n, budget - Total(est, messages[..n]), shorten)
    decreases n
  {
    hide CompactGroup;
    if messages != [] {
      var first, rest := messages[0], messages[1..];
      if n == 0 {
        assert messages[..1] == [first] && [first][1..] == [];
        assert messages[..0] == [];
      } else {
        assert messages[..n] == [first] + rest[..n - 1] && messages[..n][1..] == rest[..n - 1];
        if n < |messages| {
          assert messages[..n + 1][1..] == rest[..n];
        }
        OptionalKeptExactly(est, rest, budget - est(first), shorten, n - 1);
        JoinMessages([first], rest[..n - 1], Stopgap(est, rest, n - 1, budget - Total(est, messages[..n]), shorten));
      }
    }
  }

  lemma JoinMessages(a: seq<Message>, b: seq<Message>, c: seq<Message>)
    ensures a + (b + c) == (a + b) + c
  {
  }

  /** A message over the room left never stands for itself. */
  lemma StopgapIsShorter(m: Message, left: int)
    requires Estimate(m) > left
    ensures [m] != CompactGroup(Estimate, [m], left)
  {
    if CompactGroup(Estimate, [m], left) == [m] {
      CompactGroupFits(Estimate, [m], left);
      EstimateIsBelowList(m);
    }
    hide CompactGroup, Estimate;
  }

  lemma EstimateIsBelowList(m: Message)
    ensures Estimate(m) <= Estimate(Arr([m]))
  {
    var n := Estimate(Arr([m]));
    EstimateListBound([m], 1);
    assert SpacedWeight([m]) == WeightOf(m) + 1;
    if m.Str? {
      QuoteWeight(m.s);
      EscapedAtLeast(m.s);
      EstimateTextMeasuresWeight(m.s);
    } else {
      EstimateMeasuresWeight(m, n);
    }
    hide Weight, WeightOf, SpacedWeight, Escape, EstimateText;
  }

  /** A message is kept word for word, in its place, if and only if the estimates of the
      messages up to and including it add up to at most the budget. */
  lemma OptionalKeptVerbatim(messages: seq<Message>, budget: nat, shorten: bool, i: nat)
    requires i < |messages|
    ensures
      var kept := FitOptional(Estimate, messages, budget, shorten);
      i < |kept| && kept[i] == messages[i] <==> Total(Estimate, messages[..i + 1]) <= budget
  {
    hide Estimate, CompactGroup;
    var n := SomeCountFits(Estimate, messages, budget, 0);
    OptionalKeptExactly(Estimate, messages, budget, shorten, n);
    var left := budget - Total(Estimate, messages[..n]);
    if i < n {
      TotalGrows(Estimate, messages, i + 1, n);
    } else {
      TotalGrows(Estimate, messages, n + 1, i + 1);
      TotalOfNext(Estimate, messages, n);
      StopgapIsShorter(messages[n], left);
      StopgapIsSingle(Estimate, messages[n], left);
    }
    hide FitOptional;
  }

  lemma StopgapIsSingle(est: Estimator, m: Message, left: int)
    ensures |CompactGroup(est, [m], left)| <= 1
  {
    if CompactGroup(est, [m], left) != [] {
      CompactGroupKeepsEnvelopes(est, [m], left);
    }
    hide CompactGroup;
  }

  // ---------------------------------------------------------------- in the request

  /** What a request that is ready consists of, in this order: the control messages; the L2
      messages that fit what these leave, and a shortened form of the next if it fits; the
      checkpoint; the L3 messages that fit what all others leave, none shortened; and the
      conversation, compacted to what control messages and L2 leave. */
  lemma RequestIs(
      est: Estimator, messages: seq<Message>, available: nat, origin: Origin,
      l1: seq<Message>, l2: seq<Message>, n2: nat, working: Working, l3: seq<Message>, n3: nat)
    requires Prepare(est, messages, available, origin).Ready?
    requires l1 == OfTier(messages, "L1") && FittedTo(est, OfTier(messages, "L2"), NonNegative(available - CostOrZero(est, l1)), true, n2, l2)
    requires working == WorkingContext(est, ProtectCurrentTurn(Conversation(messages)),
                                       NonNegative(available - (CostOrZero(est, l1) + CostOrZero(est, l2))), origin)
    requires working.Working? ==>
      var room := NonNegative(available - est(Arr(l1 + l2 + working.checkpoint + working.conversation)));
      FittedTo(est, OfTier(messages, "L3"), room, false, n3, l3)
    ensures working.Working?
    ensures Prepare(est, messages, available, origin).messages
         == PublicAll(l1 + l2 + working.checkpoint + l3 + working.conversation)
  {
    hide OfTier, WorkingContext, FitOptional, PublicAll, ProtectCurrentTurn, Conversation, FittedTo, CostOrZero;
    FittedIs(est, OfTier(messages, "L2"), NonNegative(available - CostOrZero(est, l1)), true, n2, l2);
    assert l2 == FittedL2(est, messages, available);
    assert working == WorkingOf(est, messages, available, origin);
    hide FittedL2, WorkingOf;
    if working.Working? {
      var room := NonNegative(available - est(Arr(l1 + l2 + working.checkpoint + working.conversation)));
      FittedIs(est, OfTier(messages, "L3"), room, false, n3, l3);
    }
  }

  /** The first `n` messages, all that fit, and what may stand for the next. */
  ghost predicate FittedTo(est: Estimator, messages: seq<Message>, room: nat, shorten: bool, n: nat, fitted: seq<Message>) {
    && FittingCount(est, messages, room, n)
    && fitted == messages[..n] + Stopgap(est, messages, n, room - Total(est, messages[..n]), shorten)
  }

  lemma FittedIs(est: Estimator, messages: seq<Message>, room: nat, shorten: bool, n: nat, fitted: seq<Message>)
    requires FittedTo(est, messages, room, shorten, n, fitted)
    ensures FitOptional(est, messages, room, shorten) == fitted
  {
    hide FitOptional, Stopgap;
    OptionalKeptExactly(est, messages, room, shorten, n);
  }

  /** When everything fits, everything is there: control messages, L2, L3 and the valid
      conversation, each in its order, with nothing shortened and no checkpoint. */
  lemma NothingIsLeftOutThatFits(messages: seq<Message>, available: nat, origin: Origin)
    requires available >= 1
    requires
      var l1, l2, l3 := OfTier(messages, "L1"), OfTier(messages, "L2"), OfTier(messages, "L3");
      var conversation := OnlyValid(ProtectCurrentTurn(Conversation(messages)));
      && CostOrZero(Estimate, l1) + Total(Estimate, l2) <= available
      && CostOrZero(Estimate, l1) + CostOrZero(Estimate, l2) + CostOrZero(Estimate, conversation) <= available
      && (l3 == [] || Estimate(Arr(l1 + l2 + conversation)) + Total(Estimate, l3) <= available)
    ensures
      Prepare(Estimate, messages, available, origin) == Ready(
        PublicAll(OfTier(messages, "L1")) + PublicAll(OfTier(messages, "L2")) + PublicAll(OfTier(messages, "L3"))
        + PublicAll(OnlyValid(ProtectCurrentTurn(Conversation(messages)))))
  {
    hide OfTier, FitOptional, Estimate, PublicAll, OnlyValid, ProtectCurrentTurn, Conversation, CostOrZero;
    var l1, l2, l3 := OfTier(messages, "L1"), OfTier(messages, "L2"), OfTier(messages, "L3");
    var conversation := OnlyValid(ProtectCurrentTurn(Conversation(messages)));
    assert l2[..|l2|] == l2 && l3[..|l3|] == l3;
    AllFitting(l2, NonNegative(available - CostOrZero(Estimate, l1)), true);
    assert FittedL2(Estimate, messages, available) == l2;
    assert WorkingOf(Estimate, messages, available, origin) == Working(conversation, []) by {
      FittingConversation(ProtectCurrentTurn(Conversation(messages)), ConversationBudget(Estimate, messages, available), origin);
    }
    hide WorkingOf;
    assert l1 + l2 + [] + conversation == l1 + l2 + conversation;
    AllFitting(l3, NonNegative(available - Estimate(Arr(l1 + l2 + conversation))), false);
    FinalCheckPasses(messages, available, origin, conversation);
    PublicAllOfParts(l1, l2, [], l3, conversation);
    NothingWeighsNothing();
    hide FittedL2;
    WithoutMiddle(PublicAll(l1), PublicAll(l2), PublicAll(l3), PublicAll(conversation));
  }

  lemma WithoutMiddle(a: seq<Message>, b: seq<Message>, c: seq<Message>, d: seq<Message>)
    ensures a + b + [] + c + d == a + b + c + d
  {
  }

  lemma AllFitting(messages: seq<Message>, budget: nat, shorten: bool)
    requires messages == [] || Total(Estimate, messages) <= budget
    ensures FitOptional(Estimate, messages, budget, shorten) == messages
  {
    if messages != [] {
      hide Estimate, CompactGroup;
      assert messages[..|messages|] == messages;
      OptionalKeptExactly(Estimate, messages, budget, shorten, |messages|);
    }
  }

  lemma FittingConversation(conversation: seq<Message>, budget: nat, origin: Origin)
    requires CostOrZero(Estimate, OnlyValid(conversation)) <= budget
    ensures WorkingContext(Estimate, conversation, budget, origin) == Working(OnlyValid(conversation), [])
    ensures !NeedsCheckpoint(Estimate, conversation, budget)
  {
    hide Estimate, OnlyValid;
  }

  lemma FinalCheckPasses(messages: seq<Message>, available: nat, origin: Origin, conversation: seq<Message>)
    requires available >= 1
    requires conversation == OnlyValid(ProtectCurrentTurn(Conversation(messages)))
    requires CostOrZero(Estimate, conversation) <= ConversationBudget(Estimate, messages, available)
    ensures Prepare(Estimate, messages, available, origin) != PreparedOverBudget
  {
    hide Estimate, OnlyValid, ProtectCurrentTurn, Conversation, CostOrZero, Prepare, ConversationBudget;
    FittingConversation(ProtectCurrentTurn(Conversation(messages)), ConversationBudget(Estimate, messages, available), origin);
    FinalCheckNeverFails(messages, available, origin);
  }
}
