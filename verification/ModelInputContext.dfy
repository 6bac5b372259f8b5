/** The final, model-specific assembly of a request: control messages (L1),
    optional system messages (L2, L3), a checkpoint of what was compacted away,
    and the conversation, together within one input budget. */
module ModelInputContext {
  import opened Json
  import opened TokenEstimation
  import opened TextCutting
  import opened Messages
  import opened ContextCompaction
  import opened Checkpoints

  // ---------------------------------------------------------------- tiers

  predicate InTier(m: Message, tier: string) {
    Role(m) == "system" && TextOf(Get(m, "_context_tier")) == tier
  }

  predicate InConversation(m: Message) {
    !InTier(m, "L1") && !InTier(m, "L2") && !InTier(m, "L3")
  }

  function OfTier(messages: seq<Message>, tier: string): (chosen: seq<Message>)
    ensures forall m :: m in chosen ==> InTier(m, tier)
  {
    if messages == [] then []
    else (if InTier(messages[0], tier) then [messages[0]] else []) + OfTier(messages[1..], tier)
  }

  function Conversation(messages: seq<Message>): seq<Message> {
    if messages == [] then []
    else (if InConversation(messages[0]) then [messages[0]] else []) + Conversation(messages[1..])
  }

  /** Where the current turn starts: the latest user message, or the end when there is none. */
  function CurrentTurnStart(conversation: seq<Message>): (start: nat)
    ensures start <= |conversation|
    ensures start < |conversation| ==> Role(conversation[start]) == "user"
    ensures forall i :: start < i < |conversation| ==> Role(conversation[i]) != "user"
    ensures start == |conversation| ==> forall i :: 0 <= i < |conversation| ==> Role(conversation[i]) != "user"
  {
    LatestUser(conversation, |conversation|)
  }

  function LatestUser(conversation: seq<Message>, below: nat): (start: nat)
    requires below <= |conversation|
    ensures start < below || start == |conversation|
    ensures start < |conversation| ==> Role(conversation[start]) == "user"
    ensures forall i :: 0 <= i < below && (start < i || start == |conversation|) ==> Role(conversation[i]) != "user"
  {
    if below == 0 then |conversation|
    else if Role(conversation[below - 1]) == "user" then below - 1
    else LatestUser(conversation, below - 1)
  }

  function Protect(m: Message): Message {
    Set(m, "_context_protected", Bool(true))
  }

  function ProtectAll(messages: seq<Message>): seq<Message> {
    seq(|messages|, i requires 0 <= i < |messages| => Protect(messages[i]))
  }

  function ProtectCurrentTurn(conversation: seq<Message>): seq<Message> {
    var start := CurrentTurnStart(conversation);
    conversation[..start] + ProtectAll(conversation[start..])
  }

  // ---------------------------------------------------------------- internal metadata

  predicate Internal(key: string) {
    "_context_" <= key
  }

  function PublicFields(fields: seq<Field>): seq<Field> {
    if fields == [] then []
    else (if Internal(fields[0].key) then [] else [fields[0]]) + PublicFields(fields[1..])
  }

  function Public(m: Message): Message {
    Obj(PublicFields(Fields(m)))
  }

  function PublicAll(messages: seq<Message>): seq<Message> {
    seq(|messages|, i requires 0 <= i < |messages| => Public(messages[i]))
  }

  // ---------------------------------------------------------------- optional system messages

  const SMALLEST_SHORTENED := 32

  function FitOptional(est: Estimator, messages: seq<Message>, remaining: nat, shorten: bool): seq<Message> {
    if messages == [] then []
    else
      var cost := est(messages[0]);
      if cost <= remaining then [messages[0]] + FitOptional(est, messages[1..], remaining - cost, shorten)
      else if shorten && remaining >= SMALLEST_SHORTENED then CompactGroup(est, [messages[0]], remaining)
      else []
  }

  method FitOptionalSystemMessages(est: Estimator, messages: seq<Message>, budget: nat, shorten: bool)
    returns (retained: seq<Message>)
    ensures retained == FitOptional(est, messages, budget, shorten)
  {
    hide CompactGroup;
    retained := [];
    var remaining: int := budget;
    assert messages[0..] == messages;
    for i := 0 to |messages|
      invariant remaining >= 0
      invariant retained + FitOptional(est, messages[i..], remaining, shorten) == FitOptional(est, messages, budget, shorten)
    {
      var message := messages[i];
      assert messages[i..][1..] == messages[i + 1..];
      var cost := est(message);
      if cost > remaining {
        if shorten && remaining >= SMALLEST_SHORTENED {
          var compacted := CompactOversizedGroup(est, [message], remaining);
          CompactGroupWithin(est, [message], remaining);
          if compacted != [] && est(Arr(compacted)) <= remaining {
            retained := retained + compacted;
          }
        }
        return;
      }
      FitStep(retained, message, FitOptional(est, messages[i + 1..], remaining - cost, shorten));
      retained := retained + [message];
      remaining := remaining - cost;
    }
    assert messages[|messages|..] == [];
  }

  lemma FitStep(retained: seq<Message>, message: Message, rest: seq<Message>)
    ensures retained + ([message] + rest) == (retained + [message]) + rest
  {
  }

  lemma CompactGroupWithin(est: Estimator, group: seq<Message>, budget: int)
    ensures CompactGroup(est, group, budget) != [] ==> est(Arr(CompactGroup(est, group, budget))) <= budget
  {
    hide EmptyContents, CutContents, NoteContents;
  }

  // ---------------------------------------------------------------- checkpoint

  const CHECKPOINT_PREFIX :=
    "L2 working checkpoint " + "(derived; raw events " + "remain authoritative):\n"

  function CheckpointWith(prefix: string, text: string): Message {
    Obj([Field("role", Str("system")), Field("content", Str(prefix + text)), Field("_context_tier", Str("L2"))])
  }

  /** The first text whose message fits; one shortened from the last text when none does. */
  function FirstThatFits(est: Estimator, prefix: string, texts: seq<string>, budget: nat): seq<Message>
    requires texts != []
  {
    var message := CheckpointWith(prefix, texts[0]);
    if est(Arr([message])) <= budget then [message]
    else if |texts| > 1 then FirstThatFits(est, prefix, texts[1..], budget)
    else
      var left := budget - est(Str(prefix));
      var cut := CheckpointWith(prefix, HeadTailCut(est, texts[0], if left > 1 then left else 1));
      if est(Arr([cut])) <= budget then [cut] else []
  }

  function CheckpointMessage(est: Estimator, c: Checkpoint, budget: nat): seq<Message> {
    if budget == 0 then [] else FirstThatFits(est, CHECKPOINT_PREFIX, Renderings(c), budget)
  }

  method CheckpointPromptMessage(est: Estimator, c: Checkpoint, budget: nat) returns (messages: seq<Message>)
    ensures messages == CheckpointMessage(est, c, budget)
  {
    if budget == 0 {
      return [];
    }
    messages := TryCandidates(est, CHECKPOINT_PREFIX, Renderings(c), budget);
  }

  method TryCandidates(est: Estimator, prefix: string, candidates: seq<string>, budget: nat) returns (messages: seq<Message>)
    requires candidates != []
    ensures messages == FirstThatFits(est, prefix, candidates, budget)
  {
    hide HeadTailCut, CheckpointWith;
    var last := |candidates| - 1;
    for i := 0 to last
      invariant FirstThatFits(est, prefix, candidates, budget) == FirstThatFits(est, prefix, candidates[i..], budget)
    {
      var message := CheckpointWith(prefix, candidates[i]);
      assert candidates[i..][1..] == candidates[i + 1..];
      if est(Arr([message])) <= budget {
        return [message];
      }
    }
    var message := CheckpointWith(prefix, candidates[last]);
    assert candidates[last..] == [candidates[last]];
    if est(Arr([message])) <= budget {
      return [message];
    }
    var left := budget - est(Str(prefix));
    var cut := HeadTail(est, candidates[last], if left > 1 then left else 1);
    message := CheckpointWith(prefix, cut);
    messages := if est(Arr([message])) <= budget then [message] else [];
  }

  // ---------------------------------------------------------------- working context

  function CheckpointReserve(budget: nat): nat {
    var quarter := budget / 4;
    var reserve := if quarter > 96 then quarter else 96;
    if reserve < 2048 then reserve else 2048
  }

  datatype Working = Working(conversation: seq<Message>, checkpoint: seq<Message>) | WorkingOverBudget

  /** Whether compaction at the full budget leaves messages out, so that room for a
      checkpoint has to be made. */
  predicate NeedsCheckpoint(est: Estimator, conversation: seq<Message>, budget: nat) {
    var first := Compact(est, conversation, budget, true);
    first.Compacted? && first.omitted != []
  }

  function WorkingContext(
      est: Estimator, conversation: seq<Message>, budget: nat, origin: Origin): Working
  {
    var first := Compact(est, conversation, budget, true);
    if first.ProtectedOverBudget? then WorkingOverBudget
    else if first.omitted == [] then Working(first.retained, [])
    else
      var reserve := CheckpointReserve(budget);
      var second := Compact(est, conversation, NonNegative(budget - reserve), true);
      if second.ProtectedOverBudget? then WorkingOverBudget
      else
        Working(second.retained,
                if second.omitted == [] then []
                else CheckpointMessage(est, CheckpointOf(origin, second.omitted, second.retained), reserve))
  }

  method CompactWorkingContext(est: Estimator, conversation: seq<Message>, budget: nat, origin: Origin)
    returns (working: Working)
    ensures working == WorkingContext(est, conversation, budget, origin)
  {
    hide Compact, CheckpointMessage, CheckpointOf;
    var compaction := CompactMessages(est, conversation, budget, true);
    if compaction.ProtectedOverBudget? {
      return WorkingOverBudget;
    }
    var checkpoint: seq<Message> := [];
    if compaction.omitted != [] {
      var reserve := CheckpointReserve(budget);
      compaction := CompactMessages(est, conversation, NonNegative(budget - reserve), true);
      if compaction.ProtectedOverBudget? {
        return WorkingOverBudget;
      }
      if compaction.omitted != [] {
        checkpoint := CheckpointPromptMessage(est, CheckpointOf(origin, compaction.omitted, compaction.retained), reserve);
      }
    }
    working := Working(compaction.retained, checkpoint);
  }

  // ---------------------------------------------------------------- prepare

  datatype Prepared =
    | Ready(messages: seq<Message>)
    | L1OverBudget
    | ProtectedContextOverBudget
    | PreparedOverBudget

  function FittedL2(est: Estimator, messages: seq<Message>, available: nat): seq<Message> {
    FitOptional(est, OfTier(messages, "L2"), NonNegative(available - CostOrZero(est, OfTier(messages, "L1"))), true)
  }

  function ConversationBudget(est: Estimator, messages: seq<Message>, available: nat): nat {
    NonNegative(available - (CostOrZero(est, OfTier(messages, "L1")) + CostOrZero(est, FittedL2(est, messages, available))))
  }

  function WorkingOf(est: Estimator, messages: seq<Message>, available: nat, origin: Origin): Working {
    WorkingContext(est, ProtectCurrentTurn(Conversation(messages)), ConversationBudget(est, messages, available), origin)
  }

  function FittedL3(est: Estimator, messages: seq<Message>, available: nat, others: seq<Message>): seq<Message> {
    FitOptional(est, OfTier(messages, "L3"), NonNegative(available - est(Arr(others))), false)
  }

  /** `available` is the planner's input budget, which is never below one. */
  function Prepare(est: Estimator, messages: seq<Message>, available: nat, origin: Origin): Prepared {
    var l1 := OfTier(messages, "L1");
    if CostOrZero(est, l1) > available then L1OverBudget
    else
      var l2 := FittedL2(est, messages, available);
      var working := WorkingOf(est, messages, available, origin);
      if working.WorkingOverBudget? then ProtectedContextOverBudget
      else
        var l3 := FittedL3(est, messages, available, l1 + l2 + working.checkpoint + working.conversation);
        var final := PublicAll(l1 + l2 + working.checkpoint + l3 + working.conversation);
        if est(Arr(final)) > available then PreparedOverBudget else Ready(final)
  }

  method PrepareModelInputContext(est: Estimator, messages: seq<Message>, available: nat, origin: Origin)
    returns (prepared: Prepared)
    ensures prepared == Prepare(est, messages, available, origin)
  {
    hide OfTier, Conversation, ProtectCurrentTurn, FitOptional, WorkingContext, Public;
    var l1 := OfTier(messages, "L1");
    var conversation := ProtectCurrentTurn(Conversation(messages));
    var l1Tokens := CostOrZero(est, l1);
    if l1Tokens > available {
      return L1OverBudget;
    }
    var l2 := FitOptionalSystemMessages(est, OfTier(messages, "L2"), NonNegative(available - l1Tokens), true);
    var baseTokens := l1Tokens + CostOrZero(est, l2);
    var budget: int := NonNegative(available - baseTokens);
    var working := CompactWorkingContext(est, conversation, budget, origin);
    if working.WorkingOverBudget? {
      return ProtectedContextOverBudget;
    }
    var used := est(Arr(l1 + l2 + working.checkpoint + working.conversation));
    var l3 := FitOptionalSystemMessages(est, OfTier(messages, "L3"), NonNegative(available - used), false);
    var final := PublicAll(l1 + l2 + working.checkpoint + l3 + working.conversation);
    if est(Arr(final)) > available {
      return PreparedOverBudget;
    }
    prepared := Ready(final);
  }
}
