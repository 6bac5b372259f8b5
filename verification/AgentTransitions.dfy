/** Where each node of the agent graph leaves a run, told field by field from the state it
    starts on and what hooks, guardrails, the model, tools and the user answer. */
module AgentTransitions {
  import opened Options
  import opened RunState
  import opened AgentGraph
  import opened AgentGraphProperties
  import opened PyText
  import opened AnswerParts

  // ---------------------------------------------------------------- the event log

  /** The log with one event more of each kind, numbered on. */
  function Logged(events: seq<Event>, kinds: seq<EventKind>): seq<Event> {
    events + seq(|kinds|, i requires 0 <= i < |kinds| => Event(kinds[i], |events| + i + 1))
  }

  lemma LoggedOn(events: seq<Event>, a: seq<EventKind>, b: seq<EventKind>)
    ensures Logged(Logged(events, a), b) == Logged(events, a + b)
  {
  }

  lemma LoggedOnce(events: seq<Event>, a: seq<EventKind>, kind: EventKind)
    ensures Logged(events, a) + [Event(kind, |Logged(events, a)| + 1)] == Logged(events, a + [kind])
  {
  }

  function Notes(notes: seq<string>): seq<EventKind> {
    seq(|notes|, i requires 0 <= i < |notes| => Note(notes[i]))
  }

  lemma {:induction false} EmitAllLogs(s: State, kinds: seq<EventKind>)
    ensures EmitAll(s, kinds) == s.(events := Logged(s.events, kinds))
    decreases |kinds|
  {
    if kinds == [] {
      assert Logged(s.events, []) == s.events;
    } else {
      var front := kinds[..|kinds| - 1];
      EmitAllLogs(s, front);
      LoggedOnce(s.events, front, kinds[|kinds| - 1]);
      assert kinds == front + [kinds[|kinds| - 1]];
      hide Logged;
    }
  }

  /** More events on a state whose log has grown by `kinds` since `events`. */
  lemma NotesLog(s: State, events: seq<Event>, kinds: seq<EventKind>, notes: seq<string>)
    requires s.events == Logged(events, kinds)
    ensures NoteAll(s, notes) == s.(events := Logged(events, kinds + Notes(notes)))
  {
    assert Notes(notes) == seq(|notes|, i requires 0 <= i < |notes| => Note(notes[i]));
    EmitAllLogs(s, Notes(notes));
    LoggedOn(events, kinds, Notes(notes));
    hide Logged, EmitAll;
  }

  lemma EmitLogs(s: State, events: seq<Event>, kinds: seq<EventKind>, kind: EventKind)
    requires s.events == Logged(events, kinds)
    ensures Emit(s, kind) == s.(events := Logged(events, kinds + [kind]))
  {
    LoggedOnce(events, kinds, kind);
    hide Logged;
  }

  // ---------------------------------------------------------------- ends and waits

  /** The run has failed: the reason is its answer and its last event. */
  function FailedWith(s: State, events: seq<Event>, kinds: seq<EventKind>, reason: Failure): State {
    s.(status := Failed, finalAnswer := Some(FailureNotice(reason)), pendingCalls := [],
       events := Logged(events, kinds + [AgentFailed(reason)]))
  }

  function CompletedWith(s: State, events: seq<Event>, kinds: seq<EventKind>, text: string): State {
    s.(status := Completed, finalAnswer := Some(Delivered(text)), pendingCalls := [],
       events := Logged(events, kinds + [AnswerCompleted]))
  }

  function WaitingWith(s: State, events: seq<Event>, kinds: seq<EventKind>, kind: ActionKind): State {
    s.(status := WaitingUser, pendingAction := Some(Action(kind, "", false, None)),
       events := Logged(events, kinds + [AgentWaitingUser]))
  }

  /** The policy's repair, or its failure once the repairs allowed are used up. */
  function RepairedWith(s: State, events: seq<Event>, kinds: seq<EventKind>, skill: Skill, verdict: Completion): State {
    if s.repairCount < skill.repairLimit then
      s.(phase := Repairing, missingTools := verdict.missingTools, repairCount := s.repairCount + 1, status := Reasoning,
         pendingCalls := [], messages := s.messages + [SystemSays("repair")], events := Logged(events, kinds + [PolicyRepair]))
    else
      FailedWith(s.(phase := Violated, missingTools := verdict.missingTools), events, kinds, ContractViolation)
  }

  lemma FailsWith(s: State, events: seq<Event>, kinds: seq<EventKind>, reason: Failure)
    requires s.events == Logged(events, kinds)
    ensures FinishFailed(s, reason) == FailedWith(s, events, kinds, reason)
  {
    EmitLogs(s.(finalAnswer := Some(FailureNotice(reason)), status := Failed, pendingCalls := []), events, kinds, AgentFailed(reason));
    hide Logged;
  }

  lemma WaitsWith(s: State, events: seq<Event>, kinds: seq<EventKind>, kind: ActionKind)
    requires s.events == Logged(events, kinds)
    ensures WaitForConfirmation(s, kind) == WaitingWith(s, events, kinds, kind)
  {
    EmitLogs(s.(pendingAction := Some(Action(kind, "", false, None)), status := WaitingUser), events, kinds, AgentWaitingUser);
    hide Logged;
  }

  lemma RepairsWith(s: State, events: seq<Event>, kinds: seq<EventKind>, skill: Skill, verdict: Completion)
    requires s.events == Logged(events, kinds)
    ensures RepairOrFail(s, skill, verdict) == RepairedWith(s, events, kinds, skill, verdict)
  {
    hide Logged;
    if s.repairCount < skill.repairLimit {
      var repaired := s.(phase := Repairing, missingTools := verdict.missingTools, repairCount := s.repairCount + 1,
                         status := Reasoning, pendingCalls := [], messages := s.messages + [SystemSays("repair")]);
      EmitLogs(repaired, events, kinds, PolicyRepair);
    } else {
      FailsWith(s.(phase := Violated, missingTools := verdict.missingTools), events, kinds, ContractViolation);
    }
  }

  /** The log before it does not matter. */
  lemma EndsAlike(s: State, t: State, events: seq<Event>, kinds: seq<EventKind>, reason: Failure, kind: ActionKind)
    requires s == t.(events := s.events)
    ensures FailedWith(s, events, kinds, reason) == FailedWith(t, events, kinds, reason)
    ensures WaitingWith(s, events, kinds, kind) == WaitingWith(t, events, kinds, kind)
  {
  }

  /** A guardrail that does not allow ends the node: the run fails, or waits for approval. */
  lemma GuardedWith(s: State, events: seq<Event>, kinds: seq<EventKind>, guard: Guard)
    requires s.events == Logged(events, kinds)
    ensures Guarded(s, guard)
         == if guard == GuardAllows then Continue(s)
            else Done(if guard == GuardBlocks then FailedWith(s, events, kinds, BlockedByGuardrail)
                      else WaitingWith(s, events, kinds, ConfirmGuarded))
  {
    FailsWith(s, events, kinds, BlockedByGuardrail);
    WaitsWith(s, events, kinds, ConfirmGuarded);
    hide FailedWith, WaitingWith, FinishFailed, WaitForConfirmation;
  }

  // ---------------------------------------------------------------- up to the provider

  /** The model is told to finish when the workflow's requirements are met, and once only. */
  predicate FinalizesNow(s: State, k: ModelInput) {
    k.skill.active && k.skill.durable && k.verdict.allowed && !s.finalizationTold
  }

  function Told(s: State, k: ModelInput): seq<Msg> {
    s.messages + if FinalizesNow(s, k) then [SystemSays("finalize")] else []
  }

  /** What the provider is asked: the log with the hook's messages, or what the guardrail
      puts in its place, and the guardrail's own messages. */
  function Asked(s: State, k: ModelInput): seq<Msg> {
    (if k.replaced.Some? then k.replaced.value else Told(s, k) + k.beforeMessages) + k.inputMessages
  }

  function Underway(s: State, k: ModelInput): State {
    s.(status := Reasoning, finalizationTold := s.finalizationTold || FinalizesNow(s, k), messages := Told(s, k))
  }

  function ViewKinds(s: State, k: ModelInput): seq<EventKind> {
    [AgentReasoning] + (if FinalizesNow(s, k) then [WorkflowFinalizing] else []) + Notes(k.viewNotes)
  }

  function HookKinds(s: State, k: ModelInput): seq<EventKind> {
    ViewKinds(s, k) + Notes(k.beforeNotes)
  }

  function AskedKinds(s: State, k: ModelInput): seq<EventKind> {
    HookKinds(s, k) + Notes(k.inputNotes)
  }

  function TurnKinds(s: State, k: ModelInput): seq<EventKind> {
    AskedKinds(s, k) + Notes(k.turnNotes)
  }

  /** The provider is asked exactly within the step limit, with hook and guardrail allowing it. */
  predicate Asks(s: State, maxSteps: nat, k: ModelInput) {
    s.stepCount < maxSteps && k.before == HookAllows && k.inputGuard == GuardAllows
  }

  lemma PreparedWith(s: State, maxSteps: nat, k: ModelInput)
    requires s.stepCount < maxSteps
    ensures PrepareStep(s, maxSteps, k) == Continue(Underway(s, k).(events := Logged(s.events, ViewKinds(s, k))))
  {
    assert Logged(s.events, []) == s.events;
    EmitLogs(s.(status := Reasoning), s.events, [], AgentReasoning);
    hide Logged;
    var reasoning := Emit(s.(status := Reasoning), AgentReasoning);
    assert [] + [AgentReasoning] == [AgentReasoning];
    assert reasoning.events == Logged(s.events, [AgentReasoning]);
    var told := TellFinalization(reasoning, k);
    if FinalizesNow(s, k) {
      EmitLogs(Say(reasoning, SystemSays("finalize")), s.events, [AgentReasoning], WorkflowFinalizing);
      NotesLog(told, s.events, [AgentReasoning] + [WorkflowFinalizing], k.viewNotes);
    } else {
      assert [AgentReasoning] + [] == [AgentReasoning] && s.messages + [] == s.messages;
      NotesLog(told, s.events, [AgentReasoning], k.viewNotes);
    }
    hide NoteAll, Emit;
  }

  lemma HookedWith(s: State, maxSteps: nat, k: ModelInput)
    requires s.stepCount < maxSteps
    ensures
      var prepared := Underway(s, k).(events := Logged(s.events, ViewKinds(s, k)));
      var noted := Underway(s, k).(events := Logged(s.events, HookKinds(s, k)));
      BeforeModel(prepared, k)
        == match k.before
           case HookDenies => Done(FailedWith(noted, s.events, HookKinds(s, k), DeniedByHook))
           case HookWaits => Done(WaitingWith(noted, s.events, HookKinds(s, k), ConfirmModel))
           case HookAllows => Continue(noted.(messages := Told(s, k) + k.beforeMessages))
  {
    var prepared := Underway(s, k).(events := Logged(s.events, ViewKinds(s, k)));
    var noted := Underway(s, k).(events := Logged(s.events, HookKinds(s, k)));
    hide Logged, Told, ViewKinds, FailedWith, WaitingWith, FinishFailed, WaitForConfirmation, NoteAll;
    NotesLog(prepared, s.events, ViewKinds(s, k), k.beforeNotes);
    FailsWith(noted, s.events, HookKinds(s, k), DeniedByHook);
    WaitsWith(noted, s.events, HookKinds(s, k), ConfirmModel);
  }

  lemma InputGuardedWith(s: State, k: ModelInput)
    ensures
      var hooked := Underway(s, k).(events := Logged(s.events, HookKinds(s, k)), messages := Told(s, k) + k.beforeMessages);
      var noted := hooked.(events := Logged(s.events, AskedKinds(s, k)));
      GuardInput(hooked, k)
        == if k.inputGuard == GuardAllows then Continue(noted.(messages := Asked(s, k)))
           else Done(if k.inputGuard == GuardBlocks then FailedWith(noted, s.events, AskedKinds(s, k), BlockedByGuardrail)
                     else WaitingWith(noted, s.events, AskedKinds(s, k), ConfirmGuarded))
  {
    var hooked := Underway(s, k).(events := Logged(s.events, HookKinds(s, k)), messages := Told(s, k) + k.beforeMessages);
    var noted := hooked.(events := Logged(s.events, AskedKinds(s, k)));
    hide Logged, Told, HookKinds, FailedWith, WaitingWith, NoteAll, Guarded, Underway;
    NotesLog(hooked, s.events, HookKinds(s, k), k.inputNotes);
    GuardedWith(noted, s.events, AskedKinds(s, k), k.inputGuard);
  }

  /** A visit of the model node that ends before the provider is asked: at the step limit
      with a repair if one is under way and left, and else as a failure; and by the word of
      the hook or the guardrail on the input. */
  lemma VisitWithoutTheProvider(s: State, maxSteps: nat, k: ModelInput)
    requires !Asks(s, maxSteps, k)
    ensures
      var under := Underway(s, k);
      var hooked := under.(messages := Told(s, k) + k.beforeMessages);
      ModelStep(s, maxSteps, k)
        == if s.stepCount >= maxSteps then
             if k.skill.active && k.skill.durable && !k.verdict.allowed && s.phase == Repairing
             then RepairedWith(s, s.events, [], k.skill, k.verdict)
             else FailedWith(s, s.events, [], StepLimit)
           else if k.before == HookDenies then FailedWith(under, s.events, HookKinds(s, k), DeniedByHook)
           else if k.before == HookWaits then WaitingWith(under, s.events, HookKinds(s, k), ConfirmModel)
           else if k.inputGuard == GuardBlocks then FailedWith(hooked, s.events, AskedKinds(s, k), BlockedByGuardrail)
           else WaitingWith(hooked, s.events, AskedKinds(s, k), ConfirmGuarded)
  {
    if s.stepCount >= maxSteps {
      assert Logged(s.events, []) == s.events;
      FailsWith(s, s.events, [], StepLimit);
      RepairsWith(s, s.events, [], k.skill, k.verdict);
      hide RepairedWith, FailedWith, FinishFailed, RepairOrFail;
    } else {
      PreparedWith(s, maxSteps, k);
      HookedWith(s, maxSteps, k);
      InputGuardedWith(s, k);
      hide Logged, Told, HookKinds, AskedKinds, PrepareStep, BeforeModel, GuardInput, Asked;
    }
  }

  lemma ReachedWith(s: State, maxSteps: nat, k: ModelInput)
    ensures BeforeProvider(s, maxSteps, k).Continue? <==> Asks(s, maxSteps, k)
    ensures Asks(s, maxSteps, k) ==>
      BeforeProvider(s, maxSteps, k).state
        == Underway(s, k).(messages := Asked(s, k), events := Logged(s.events, AskedKinds(s, k)))
  {
    if s.stepCount < maxSteps {
      PreparedWith(s, maxSteps, k);
      HookedWith(s, maxSteps, k);
      InputGuardedWith(s, k);
      hide Logged, Told, HookKinds, AskedKinds, PrepareStep, BeforeModel, GuardInput, Asked, FailedWith, WaitingWith;
    }
  }

  // ---------------------------------------------------------------- what becomes of the provider's turn

  /** The turn counts as a step. */
  function Answered(s: State, k: ModelInput): State {
    Underway(s, k).(messages := Asked(s, k), stepCount := s.stepCount + 1)
  }

  /** A turn that the guardrail on model output does not let through leaves no message and
      does not count. */
  lemma WithheldTurn(s: State, maxSteps: nat, k: ModelInput)
    requires Asks(s, maxSteps, k) && k.outputGuard != GuardAllows
    ensures
      var asked := Underway(s, k).(messages := Asked(s, k));
      ModelStep(s, maxSteps, k)
        == if k.outputGuard == GuardBlocks then FailedWith(asked, s.events, TurnKinds(s, k), BlockedByGuardrail)
           else WaitingWith(asked, s.events, TurnKinds(s, k), ConfirmGuarded)
  {
    ReachedWith(s, maxSteps, k);
    var asked := Underway(s, k).(messages := Asked(s, k), events := Logged(s.events, AskedKinds(s, k)));
    hide BeforeProvider, Logged, Underway, Asked, AskedKinds, Guarded, NoteAll, FailedWith, WaitingWith, TakeTurn;
    NotesLog(asked, s.events, AskedKinds(s, k), k.turnNotes);
    var noted := asked.(events := Logged(s.events, TurnKinds(s, k)));
    GuardedWith(noted, s.events, TurnKinds(s, k), k.outputGuard);
    EndsAlike(noted, Underway(s, k).(messages := Asked(s, k)), s.events, TurnKinds(s, k), BlockedByGuardrail, ConfirmGuarded);
  }

  lemma TakenWith(s: State, maxSteps: nat, k: ModelInput)
    requires Asks(s, maxSteps, k) && k.outputGuard == GuardAllows
    ensures
      ModelStep(s, maxSteps, k)
        == TakeTurn(Underway(s, k).(messages := Asked(s, k), events := Logged(s.events, TurnKinds(s, k))), maxSteps, k)
  {
    ReachedWith(s, maxSteps, k);
    var asked := Underway(s, k).(messages := Asked(s, k), events := Logged(s.events, AskedKinds(s, k)));
    hide BeforeProvider, Logged, Underway, Asked, AskedKinds, Guarded, NoteAll, FailedWith, WaitingWith, TakeTurn;
    NotesLog(asked, s.events, AskedKinds(s, k), k.turnNotes);
    GuardedWith(asked.(events := Logged(s.events, TurnKinds(s, k))), s.events, TurnKinds(s, k), k.outputGuard);
  }

  /** The first calls of a run without a skill go by the entry point: it may restate them. */
  predicate Enters(k: ModelInput) {
    k.turn.calls != [] && !k.skill.active
  }

  /** The calls handed to the tools: the turn's own, or as the entry point restates them. */
  function HandedOver(k: ModelInput): seq<Call> {
    if Enters(k) && k.entry.Activates? && k.entry.calls != [] then k.entry.calls else k.turn.calls
  }

  /** The entry point's skill is not valid, not within scope, or changed the calls. */
  predicate ActivationRefused(k: ModelInput) {
    Enters(k) && (|| k.entry.InvalidSnapshot? || k.entry.OutOfScope?
                  || (k.entry.Activates? && (set c | c in HandedOver(k)) != (set c | c in k.turn.calls)))
  }

  function SettledKinds(s: State, k: ModelInput): seq<EventKind> {
    TurnKinds(s, k) + [UsageRecorded] + (if Enters(k) && k.entry.Activates? then [SkillActivated] else []) + [ModelCompleted]
  }

  /** The message log ends with the turn, exactly as it is handed on. */
  function Recorded(s: State, k: ModelInput): State {
    Answered(s, k).(messages := Asked(s, k) + [Assistant(k.turn.content, HandedOver(k))],
                    events := Logged(s.events, SettledKinds(s, k)))
  }

  lemma RecordedWith(s: State, maxSteps: nat, k: ModelInput)
    requires Asks(s, maxSteps, k) && k.outputGuard == GuardAllows
    ensures
      ModelStep(s, maxSteps, k)
        == if ActivationRefused(k) then FailedWith(Answered(s, k), s.events, TurnKinds(s, k) + [UsageRecorded], BadActivation)
           else SettleTurn(Recorded(s, k), maxSteps, k, HandedOver(k))
  {
    TakenWith(s, maxSteps, k);
    var kinds := TurnKinds(s, k);
    var asked := Underway(s, k).(messages := Asked(s, k), events := Logged(s.events, kinds));
    hide ModelStep, Logged, Underway, Asked, TurnKinds, SettleTurn, FailedWith, ActivateEntry, AppendAssistant;
    EmitLogs(asked, s.events, kinds, UsageRecorded);
    var recorded := Answered(s, k).(events := Logged(s.events, kinds + [UsageRecorded]));
    assert RecordTurn(asked) == recorded;
    hide RecordTurn, Emit;
    ActivatedWith(recorded, s.events, kinds + [UsageRecorded], k);
    EndsAlike(recorded, Answered(s, k), s.events, kinds + [UsageRecorded], BadActivation, ConfirmGuarded);
    if !ActivationRefused(k) {
      var activation := if Enters(k) && k.entry.Activates? then [SkillActivated] else [];
      AppendedWith(ActivateEntry(recorded, k).state, s.events, kinds + [UsageRecorded] + activation, k);
    }
  }

  lemma ActivatedWith(s: State, events: seq<Event>, kinds: seq<EventKind>, k: ModelInput)
    requires s.events == Logged(events, kinds)
    ensures ActivateEntry(s, k)
         == if ActivationRefused(k) then Done(FailedWith(s, events, kinds, BadActivation))
            else
              var activation := if Enters(k) && k.entry.Activates? then [SkillActivated] else [];
              Continue(s.(events := Logged(events, kinds + activation)))
  {
    FailsWith(s, events, kinds, BadActivation);
    EmitLogs(s, events, kinds, SkillActivated);
    assert kinds + [] == kinds;
    hide FailedWith, FinishFailed, Emit, Logged;
  }

  lemma AppendedWith(s: State, events: seq<Event>, kinds: seq<EventKind>, k: ModelInput)
    requires s.events == Logged(events, kinds)
    ensures AppendAssistant(s, k)
         == s.(messages := s.messages + [Assistant(k.turn.content, HandedOver(k))], events := Logged(events, kinds + [ModelCompleted]))
  {
    EmitLogs(Say(s, Assistant(k.turn.content, HandedOver(k))), events, kinds, ModelCompleted);
    hide Emit, Logged;
  }

  /** A turn with calls that is let through hands all of them to the tools, in its order or
      as the entry point restates them, and the log ends with the assistant's message and
      exactly these calls; unless the activation is refused, and the run has failed. */
  lemma CallsAreHandedOver(s: State, maxSteps: nat, k: ModelInput)
    requires Asks(s, maxSteps, k) && k.outputGuard == GuardAllows && k.turn.calls != []
    ensures
      var t := ModelStep(s, maxSteps, k);
      if ActivationRefused(k) then t == FailedWith(Answered(s, k), s.events, TurnKinds(s, k) + [UsageRecorded], BadActivation)
      else
        && t == Recorded(s, k).(emptyCount := 0, emptyRetryPending := false, pendingCalls := HandedOver(k), status := ExecutingTools)
        && (set c | c in t.pendingCalls) == (set c | c in k.turn.calls)
        && t.messages[|t.messages| - 1] == Assistant(k.turn.content, t.pendingCalls)
        && (k.skill.active || !k.entry.Activates? ==> t.pendingCalls == k.turn.calls)
  {
    RecordedWith(s, maxSteps, k);
    hide ModelStep, FailedWith, Answered, TurnKinds, Logged, SettledKinds, FinalizeAnswer, Asked;
  }

  /** A prose turn cut off by the output limit adds its text to the parts; the model is told
      to go on, at most twice and within the step limit, and otherwise the run has failed. */
  lemma CutOffTurn(s: State, maxSteps: nat, k: ModelInput)
    requires Asks(s, maxSteps, k) && k.outputGuard == GuardAllows && k.turn.calls == [] && k.turn.truncated
    ensures
      var recorded, kinds := Recorded(s, k), SettledKinds(s, k);
      var counted := recorded.(partialParts := s.partialParts + (if k.turn.content == "" then [] else [k.turn.content]),
                               continuationCount := s.continuationCount + 1);
      ModelStep(s, maxSteps, k)
        == if s.stepCount + 1 < maxSteps && s.continuationCount < 2 then
             counted.(continuationPending := true, pendingCalls := [],
                      messages := recorded.messages + [UserSays("continue")],
                      events := Logged(s.events, kinds + [TruncationRetrying]))
           else FailedWith(counted.(continuationPending := false), s.events, kinds + [TruncationExhausted], TruncatedResponse)
  {
    RecordedWith(s, maxSteps, k);
    hide ModelStep, Logged, SettledKinds, Recorded, ContinueOrFailTruncated, FailedWith;
    TruncatedWith(Recorded(s, k), s.events, SettledKinds(s, k), k.turn.content, s.stepCount + 1 < maxSteps);
    RecordedKeeps(s, k);
  }

  lemma RecordedKeeps(s: State, k: ModelInput)
    ensures
      var recorded := Recorded(s, k);
      && recorded.status == Reasoning && recorded.stepCount == s.stepCount + 1
      && recorded.partialParts == s.partialParts && recorded.continuationCount == s.continuationCount
      && recorded.events == Logged(s.events, SettledKinds(s, k))
  {
  }

  lemma TruncatedWith(s: State, events: seq<Event>, kinds: seq<EventKind>, content: string, canContinue: bool)
    requires s.events == Logged(events, kinds)
    ensures
      var counted := s.(partialParts := s.partialParts + (if content == "" then [] else [content]),
                        continuationCount := s.continuationCount + 1);
      ContinueOrFailTruncated(s, content, canContinue)
        == if canContinue && s.continuationCount < 2 then
             counted.(continuationPending := true, status := Reasoning, pendingCalls := [],
                      messages := s.messages + [UserSays("continue")],
                      events := Logged(events, kinds + [TruncationRetrying]))
           else FailedWith(counted.(continuationPending := false), events, kinds + [TruncationExhausted], TruncatedResponse)
  {
    hide Logged;
    var counted := s.(partialParts := s.partialParts + (if content == "" then [] else [content]),
                      continuationCount := s.continuationCount + 1);
    if canContinue && s.continuationCount < 2 {
      var told := counted.(continuationPending := true, status := Reasoning, pendingCalls := [],
                           messages := s.messages + [UserSays("continue")]);
      EmitLogs(told, events, kinds, TruncationRetrying);
      hide Emit;
    } else {
      var over := counted.(continuationPending := false);
      EmitLogs(over, events, kinds, TruncationExhausted);
      hide Emit, FinishFailed;
      FailsWith(Emit(over, TruncationExhausted), events, kinds + [TruncationExhausted], TruncatedResponse);
    }
  }

  /** An empty turn leaves no message: the model is told to answer, once and within the step
      limit, and otherwise the run has failed. */
  lemma EmptyTurn(s: State, maxSteps: nat, k: ModelInput)
    requires Asks(s, maxSteps, k) && k.outputGuard == GuardAllows && k.turn.calls == [] && !k.turn.truncated
    requires Blank(k.turn.content)
    ensures
      var counted, kinds := Answered(s, k).(emptyCount := s.emptyCount + 1), SettledKinds(s, k);
      ModelStep(s, maxSteps, k)
        == if s.stepCount + 1 < maxSteps && s.emptyCount < 1 then
             counted.(emptyRetryPending := true, pendingCalls := [], messages := Asked(s, k) + [SystemSays("answer")],
                      events := Logged(s.events, kinds + [EmptyRetrying]))
           else FailedWith(counted.(emptyRetryPending := false), s.events, kinds + [EmptyExhausted], EmptyResponse)
  {
    RecordedWith(s, maxSteps, k);
    hide ModelStep, Logged, TurnKinds, SettledKinds, Asked, Blank, RetryOrFailEmpty, FailedWith;
    var left := Answered(s, k).(events := Logged(s.events, SettledKinds(s, k)));
    assert Recorded(s, k).messages[..|Recorded(s, k).messages| - 1] == Asked(s, k);
    EmptiedWith(left, s.events, SettledKinds(s, k), s.stepCount + 1 < maxSteps);
    EndsAlike(left.(emptyCount := s.emptyCount + 1, emptyRetryPending := false),
              Answered(s, k).(emptyCount := s.emptyCount + 1, emptyRetryPending := false),
              s.events, SettledKinds(s, k) + [EmptyExhausted], EmptyResponse, ConfirmGuarded);
  }

  lemma EmptiedWith(s: State, events: seq<Event>, kinds: seq<EventKind>, canRetry: bool)
    requires s.events == Logged(events, kinds)
    ensures
      var counted := s.(emptyCount := s.emptyCount + 1);
      RetryOrFailEmpty(s, canRetry)
        == if canRetry && s.emptyCount < 1 then
             counted.(emptyRetryPending := true, status := Reasoning, pendingCalls := [],
                      messages := s.messages + [SystemSays("answer")],
                      events := Logged(events, kinds + [EmptyRetrying]))
           else FailedWith(counted.(emptyRetryPending := false), events, kinds + [EmptyExhausted], EmptyResponse)
  {
    hide Logged;
    var counted := s.(emptyCount := s.emptyCount + 1);
    if canRetry && s.emptyCount < 1 {
      var told := counted.(emptyRetryPending := true, status := Reasoning, pendingCalls := [],
                           messages := s.messages + [SystemSays("answer")]);
      EmitLogs(told, events, kinds, EmptyRetrying);
      hide Emit;
    } else {
      var over := counted.(emptyRetryPending := false);
      EmitLogs(over, events, kinds, EmptyExhausted);
      hide Emit, FinishFailed;
      FailsWith(Emit(over, EmptyExhausted), events, kinds + [EmptyExhausted], EmptyResponse);
    }
  }

  // ---------------------------------------------------------------- answers

  /** The state an answer is judged on. */
  function Judged(s: State, k: ModelInput): State {
    Recorded(s, k).(emptyCount := 0, emptyRetryPending := false)
  }

  /** A turn with an answer in it. */
  predicate AnswersIn(s: State, maxSteps: nat, k: ModelInput) {
    && Asks(s, maxSteps, k) && k.outputGuard == GuardAllows && k.turn.calls == [] && !k.turn.truncated
    && !Blank(k.turn.content)
  }

  lemma JudgedWith(s: State, maxSteps: nat, k: ModelInput)
    requires AnswersIn(s, maxSteps, k)
    ensures ModelStep(s, maxSteps, k) == FinalizeAnswer(Judged(s, k), k)
  {
    RecordedWith(s, maxSteps, k);
    hide ModelStep, Logged, Recorded, FinalizeAnswer, Blank;
  }

  /** An answer the policy does not accept: the run waits for the user's input if the skill
      allows it, tools are missing, and neither a repair nor an earlier question has been
      tried; otherwise it is repaired, or has failed. */
  lemma AnswerTurnedDown(s: State, maxSteps: nat, k: ModelInput)
    requires AnswersIn(s, maxSteps, k) && !k.finalVerdict.allowed
    ensures
      var judged, kinds, skill, verdict := Judged(s, k), SettledKinds(s, k), k.finalSkill, k.finalVerdict;
      ModelStep(s, maxSteps, k)
        == if && skill.active && skill.durable && !skill.toolContract && skill.modelMayClarify && skill.waitsForInput
              && s.clarificationResumes == 0 && s.phase != Repairing && (verdict.missingTools || verdict.missingGroups)
           then
             judged.(pendingAction := Some(Action(Clarification, "", false, None)), pendingCalls := [], status := WaitingUser,
                     phase := AwaitingInput, missingTools := verdict.missingTools,
                     events := Logged(s.events, kinds + [SkillWaitingInput]))
           else RepairedWith(judged, s.events, kinds, skill, verdict)
  {
    JudgedWith(s, maxSteps, k);
    hide ModelStep, Logged, Blank, SettledKinds, Asked, Told, RepairedWith, RepairOrFail, DeliverAnswer, AcceptAnswer;
    var judged, kinds := Judged(s, k), SettledKinds(s, k);
    RepairsWith(judged, s.events, kinds, k.finalSkill, k.finalVerdict);
    var waiting := judged.(pendingAction := Some(Action(Clarification, "", false, None)), pendingCalls := [], status := WaitingUser,
                           phase := AwaitingInput, missingTools := k.finalVerdict.missingTools);
    EmitLogs(waiting, s.events, kinds, SkillWaitingInput);
    hide Emit;
  }

  /** The parts gathered from turns that were cut off, joined with the last turn's text. */
  function Joined(s: State, k: ModelInput): string {
    if s.partialParts == [] then k.turn.content else Merge(s.partialParts + [k.turn.content])
  }

  /** An answer the policy accepts: the workflow is fulfilled and nothing is left to
      continue. The answer hook may end the run, the guardrail may end it or have it wait;
      otherwise it is complete, with the joined text as hook and guardrail rewrite it. */
  lemma AnswerAccepted(s: State, maxSteps: nat, k: ModelInput)
    requires AnswersIn(s, maxSteps, k) && k.finalVerdict.allowed
    ensures
      var fulfils := k.finalSkill.active && k.finalSkill.durable;
      var kinds := SettledKinds(s, k) + Notes(k.answerNotes);
      var accepted := Judged(s, k).(
        phase := if fulfils then Fulfilled else s.phase,
        missingTools := if fulfils then k.finalVerdict.missingTools else s.missingTools,
        partialParts := [], continuationPending := false, continuationCount := 0);
      var text := if k.finalPatch != "" then k.finalPatch else if k.answerPatch != "" then k.answerPatch else Joined(s, k);
      ModelStep(s, maxSteps, k)
        == if k.answerDenied then FailedWith(accepted, s.events, kinds, DeniedByHook)
           else if k.finalGuard == GuardBlocks then FailedWith(accepted, s.events, kinds + Notes(k.finalNotes), BlockedByGuardrail)
           else if k.finalGuard == GuardAsks then WaitingWith(accepted, s.events, kinds + Notes(k.finalNotes), ConfirmGuarded)
           else CompletedWith(accepted, s.events, kinds + Notes(k.finalNotes), text)
  {
    JudgedWith(s, maxSteps, k);
    hide ModelStep, Logged, SettledKinds, Asked, Told, Merge, DeliverAnswer, RepairOrFail, WaitForInput, CanWaitForInput;
    assert k.turn.content != "";
    hide Blank;
    assert FinalText(Judged(s, k), k.turn.content) == Joined(s, k);
    DeliveredWith(AcceptAnswer(Judged(s, k), k), s.events, SettledKinds(s, k), k, Joined(s, k));
  }

  lemma DeliveredWith(s: State, events: seq<Event>, kinds: seq<EventKind>, k: ModelInput, text: string)
    requires s.events == Logged(events, kinds)
    ensures
      var noted := kinds + Notes(k.answerNotes);
      var rewritten := if k.finalPatch != "" then k.finalPatch else if k.answerPatch != "" then k.answerPatch else text;
      DeliverAnswer(s, k, text)
        == if k.answerDenied then FailedWith(s, events, noted, DeniedByHook)
           else if k.finalGuard == GuardBlocks then FailedWith(s, events, noted + Notes(k.finalNotes), BlockedByGuardrail)
           else if k.finalGuard == GuardAsks then WaitingWith(s, events, noted + Notes(k.finalNotes), ConfirmGuarded)
           else CompletedWith(s, events, noted + Notes(k.finalNotes), rewritten)
  {
    var noted := kinds + Notes(k.answerNotes);
    NotesLog(s, events, kinds, k.answerNotes);
    hide Logged, Notes, NoteAll, Guarded;
    var once := s.(events := Logged(events, noted));
    FailsWith(once, events, noted, DeniedByHook);
    if !k.answerDenied {
      NotesLog(once, events, noted, k.finalNotes);
      var twice := s.(events := Logged(events, noted + Notes(k.finalNotes)));
      GuardedWith(twice, events, noted + Notes(k.finalNotes), k.finalGuard);
      var done := twice.(finalAnswer := Some(Delivered(OrElse(k.finalPatch, OrElse(k.answerPatch, text)))), status := Completed, pendingCalls := []);
      EmitLogs(done, events, noted + Notes(k.finalNotes), AnswerCompleted);
    }
    hide Emit, FinishFailed;
  }

  // ---------------------------------------------------------------- results of tools

  /** The results of a batch: when two calls or more may suspend the run, each call is refused. */
  function ResultsOf(s: State, t: ToolInput): seq<ToolOutcome> {
    if t.suspending >= 2 then seq(|s.pendingCalls|, i requires 0 <= i < |s.pendingCalls| => Ends(s.pendingCalls[i].id, false))
    else t.outcomes
  }

  /** Each call that has ended is answered, in the order of the results; the others are not. */
  function AnswersTo(outcomes: seq<ToolOutcome>): seq<Msg> {
    if outcomes == [] then []
    else (if outcomes[0].Ends? then [ToolAnswer(outcomes[0].callId)] else []) + AnswersTo(outcomes[1..])
  }

  function ResultKind(o: ToolOutcome): EventKind {
    match o
    case Skipped(callId) => ToolSkipped(callId)
    case AsksUser(callId, _) => ToolRequiresUser(callId)
    case GoesAsync(callId, _) => ToolWaitingAsync(callId)
    case Ends(callId, ok) => if ok then ToolCompleted(callId) else ToolFailed(callId)
  }

  function ResultKinds(outcomes: seq<ToolOutcome>): seq<EventKind> {
    seq(|outcomes|, i requires 0 <= i < |outcomes| => ResultKind(outcomes[i]))
  }

  /** The last result that asks the user decides what the run waits for. */
  ghost predicate AsksLast(outcomes: seq<ToolOutcome>, before: Option<Action>, pending: Option<Action>) {
    if forall i :: 0 <= i < |outcomes| ==> !outcomes[i].AsksUser? then pending == before
    else exists i :: 0 <= i < |outcomes| && outcomes[i].AsksUser? && pending == Some(outcomes[i].action)
                     && forall j :: i < j < |outcomes| ==> !outcomes[j].AsksUser?
  }

  ghost predicate GoesLast(outcomes: seq<ToolOutcome>, before: Option<Async>, pending: Option<Async>) {
    if forall i :: 0 <= i < |outcomes| ==> !outcomes[i].GoesAsync? then pending == before
    else exists i :: 0 <= i < |outcomes| && outcomes[i].GoesAsync? && pending == Some(Async(outcomes[i].callId, outcomes[i].tool))
                     && forall j :: i < j < |outcomes| ==> !outcomes[j].GoesAsync?
  }

  lemma {:induction false} AnswersSnoc(outcomes: seq<ToolOutcome>, o: ToolOutcome)
    ensures AnswersTo(outcomes + [o]) == AnswersTo(outcomes) + if o.Ends? then [ToolAnswer(o.callId)] else []
  {
    if outcomes == [] {
      assert [] + [o] == [o] && [o][1..] == [];
    } else {
      AnswersSnoc(outcomes[1..], o);
      assert (outcomes + [o])[1..] == outcomes[1..] + [o];
    }
  }

  lemma LastAskedSnoc(outcomes: seq<ToolOutcome>, o: ToolOutcome, before: Option<Action>, pending: Option<Action>)
    requires AsksLast(outcomes, before, pending)
    ensures AsksLast(outcomes + [o], before, if o.AsksUser? then Some(o.action) else pending)
  {
    var all := outcomes + [o];
    assert all[|outcomes|] == o && forall i :: 0 <= i < |outcomes| ==> all[i] == outcomes[i];
  }

  lemma LastGoneSnoc(outcomes: seq<ToolOutcome>, o: ToolOutcome, before: Option<Async>, pending: Option<Async>)
    requires GoesLast(outcomes, before, pending)
    ensures GoesLast(outcomes + [o], before, if o.GoesAsync? then Some(Async(o.callId, o.tool)) else pending)
  {
    var all := outcomes + [o];
    assert all[|outcomes|] == o && forall i :: 0 <= i < |outcomes| ==> all[i] == outcomes[i];
  }

  /** What the results of a batch add to a state. */
  ghost predicate Applied(s: State, outcomes: seq<ToolOutcome>, t: State) {
    && t == s.(messages := s.messages + AnswersTo(outcomes), events := Logged(s.events, ResultKinds(outcomes)),
               pendingAction := t.pendingAction, pendingAsync := t.pendingAsync)
    && AsksLast(outcomes, s.pendingAction, t.pendingAction) && GoesLast(outcomes, s.pendingAsync, t.pendingAsync)
  }

  lemma {:induction false} ResultsApplied(s: State, outcomes: seq<ToolOutcome>)
    ensures Applied(s, outcomes, ApplyOutcomes(s, outcomes))
    decreases |outcomes|
  {
    if outcomes == [] {
      assert Logged(s.events, []) == s.events && s.messages + [] == s.messages;
    } else {
      var front, o := outcomes[..|outcomes| - 1], outcomes[|outcomes| - 1];
      assert outcomes == front + [o];
      ResultsApplied(s, front);
      hide Applied, ApplyOutcome;
      OneMoreApplied(s, front, ApplyOutcomes(s, front), o);
    }
  }

  lemma OneMoreApplied(s: State, front: seq<ToolOutcome>, t: State, o: ToolOutcome)
    requires Applied(s, front, t)
    ensures Applied(s, front + [o], ApplyOutcome(t, o))
  {
    AnswersSnoc(front, o);
    LastAskedSnoc(front, o, s.pendingAction, t.pendingAction);
    LastGoneSnoc(front, o, s.pendingAsync, t.pendingAsync);
    OneResult(t, s.events, ResultKinds(front), o);
    assert ResultKinds(front + [o]) == ResultKinds(front) + [ResultKind(o)];
    hide AsksLast, GoesLast, Logged, AnswersTo, ResultKinds, ResultKind, ApplyOutcome;
    assert s.messages + AnswersTo(front + [o]) == s.messages + AnswersTo(front) + if o.Ends? then [ToolAnswer(o.callId)] else [];
  }

  lemma OneResult(s: State, events: seq<Event>, kinds: seq<EventKind>, o: ToolOutcome)
    requires s.events == Logged(events, kinds)
    ensures ApplyOutcome(s, o)
         == s.(messages := s.messages + (if o.Ends? then [ToolAnswer(o.callId)] else []),
               pendingAction := if o.AsksUser? then Some(o.action) else s.pendingAction,
               pendingAsync := if o.GoesAsync? then Some(Async(o.callId, o.tool)) else s.pendingAsync,
               events := Logged(events, kinds + [ResultKind(o)]))
  {
    LoggedOnce(events, kinds, ResultKind(o));
    assert s.messages + [] == s.messages;
    hide Logged;
  }

  function Started(calls: seq<Call>): seq<EventKind> {
    seq(|calls|, i requires 0 <= i < |calls| => ToolStarted(calls[i].id))
  }

  /** A batch of tools: the calls and the grants for them are spent; each call that has ended
      is answered, in order, and the others are not; and the run waits for what the last
      result that suspends it says, for the user first. */
  lemma BatchIsApplied(s: State, t: ToolInput)
    ensures
      var after, outcomes := ToolStep(s, t), ResultsOf(s, t);
      && after == s.(
           pendingCalls := [], pendingAction := after.pendingAction, pendingAsync := after.pendingAsync,
           messages := s.messages + AnswersTo(outcomes),
           grants := s.grants - (set c | c in s.pendingCalls :: c.id),
           status := if AsksFor(outcomes) then WaitingUser else if GoesBackground(outcomes) then WaitingAsync else Reasoning,
           events := Logged(s.events, (if t.suspending >= 2 then [] else Started(s.pendingCalls)) + ResultKinds(outcomes)))
      && AsksLast(outcomes, None, after.pendingAction) && GoesLast(outcomes, None, after.pendingAsync)
  {
    var outcomes, starts := ResultsOf(s, t), if t.suspending >= 2 then [] else Started(s.pendingCalls);
    assert outcomes == OutcomesOf(s, t);
    StartsLogged(s, t);
    hide Logged, StartTools, OutcomesOf, ResultsOf, AnswersTo, ResultKinds, ApplyOutcomes;
    var cleared := StartTools(s, t).(pendingCalls := [], pendingAction := None, pendingAsync := None);
    ResultsApplied(cleared, outcomes);
    LoggedOn(s.events, starts, ResultKinds(outcomes));
    SuspendsFor(outcomes, ApplyOutcomes(cleared, outcomes));
    hide AsksFor, GoesBackground, AsksLast, GoesLast;
  }

  lemma StartsLogged(s: State, t: ToolInput)
    ensures StartTools(s, t) == s.(events := Logged(s.events, if t.suspending >= 2 then [] else Started(s.pendingCalls)))
  {
    assert Logged(s.events, []) == s.events;
    assert StartEvents(s.pendingCalls) == Started(s.pendingCalls);
    EmitAllLogs(s, Started(s.pendingCalls));
    hide EmitAll, Logged;
  }

  lemma SuspendsFor(outcomes: seq<ToolOutcome>, s: State)
    requires AsksLast(outcomes, None, s.pendingAction) && GoesLast(outcomes, None, s.pendingAsync)
    ensures s.pendingAction.Some? <==> AsksFor(outcomes)
    ensures s.pendingAsync.Some? <==> GoesBackground(outcomes)
  {
  }

  // ---------------------------------------------------------------- resuming

  /** What the model is told when the run goes on: the user's answer to a question, after a
      reminder if tools are missing; or the result of the call that the run waited for. */
  function ResumedMessages(s: State, r: Resume): seq<Msg> {
    if s.pendingAction.Some? && s.pendingAction.value.kind.Clarification? then
      s.messages + (if s.missingTools then [SystemSays("resume")] else []) + [UserSays(r.text)]
    else
      s.messages + [ToolAnswer(if s.pendingAction.Some? then s.pendingAction.value.callId
                               else if s.pendingAsync.Some? then s.pendingAsync.value.callId else "")]
  }

  /** Resuming tells the model what has happened, counts the questions answered, uses up the
      repairs when background work failed, and waits for nothing any more. */
  lemma RunIsResumed(s: State, r: Resume)
    ensures ApplyResume(s, r)
         == s.(messages := ResumedMessages(s, r), pendingAction := None, pendingAsync := None, status := Reasoning,
               clarificationResumes := s.clarificationResumes
                 + (if s.pendingAction.Some? && s.pendingAction.value.kind.Clarification? then 1 else 0),
               repairCount := if r.failed && s.pendingAsync.Some? then r.repairLimit else s.repairCount,
               events := Logged(s.events, [RunResumed]))
  {
    assert Logged(s.events, []) == s.events && [] + [RunResumed] == [RunResumed];
    var told := TellResume(s, r);
    TellsResume(s, r);
    hide TellResume, ResumedMessages, Logged;
    var limited := if r.failed && s.pendingAsync.Some? then told.(repairCount := r.repairLimit) else told;
    EmitLogs(limited.(pendingAction := None, pendingAsync := None, status := Reasoning), s.events, [], RunResumed);
    hide Emit;
  }

  lemma TellsResume(s: State, r: Resume)
    ensures TellResume(s, r)
         == s.(messages := ResumedMessages(s, r),
               clarificationResumes := s.clarificationResumes
                 + (if s.pendingAction.Some? && s.pendingAction.value.kind.Clarification? then 1 else 0))
  {
    assert s.messages + [] == s.messages;
  }

  /** The id under which a confirmation is granted: the action's call, or the deferred one. */
  function ConfirmedId(action: Action): string {
    if action.callId != "" then action.callId else if action.deferred.Some? then action.deferred.value.id else ""
  }

  /** A confirmation is asked for by its kind or by the tool's flag. Confirming it grants the
      id and hands exactly the deferred call to the tools; otherwise its call is answered, and
      no call is left. Whatever else the run waits for is resumed. */
  lemma UserIsAnswered(s: State, r: Resume)
    ensures
      AwaitUserStep(s, r)
        == if s.pendingAction.None? || (!s.pendingAction.value.kind.PolicyConfirmation? && !s.pendingAction.value.confirmsPolicy)
           then ApplyResume(s, r)
           else
             var action := s.pendingAction.value;
             if r.confirmed && action.deferred.Some? then
               s.(pendingAction := None, pendingAsync := None, pendingCalls := [action.deferred.value], status := ExecutingTools,
                  grants := s.grants + {ConfirmedId(action)}, events := Logged(s.events, [PolicyConfirmed]))
             else
               s.(pendingAction := None, pendingAsync := None, pendingCalls := [], status := Reasoning,
                  messages := s.messages + [ToolAnswer(ConfirmedId(action))], events := Logged(s.events, [PolicyCanceled]))
  {
    hide ApplyResume;
  }

  // ---------------------------------------------------------------- which visits complete a run, or call tools

  /** A visit completes the run exactly when the provider is asked and answers in prose that
      is not cut off, and everyone asked allows it. */
  lemma CompletedExactly(s: State, maxSteps: nat, k: ModelInput)
    requires s.status != Completed
    ensures ModelStep(s, maxSteps, k).status == Completed
       <==> && AnswersIn(s, maxSteps, k) && k.finalVerdict.allowed && !k.answerDenied && k.finalGuard == GuardAllows
  {
    VisitLeads(s, maxSteps, k);
    hide ModelStep, Blank, Judged, SettledKinds, TurnKinds, AskedKinds, HookKinds, Answered, Recorded;
  }

  /** A visit hands calls to the tools exactly when the provider is asked, its turn is let
      through and has calls, and the entry point does not refuse them. */
  lemma ToolsAreCalledExactly(s: State, maxSteps: nat, k: ModelInput)
    requires s.status != ExecutingTools
    ensures ModelStep(s, maxSteps, k).status == ExecutingTools
       <==> Asks(s, maxSteps, k) && k.outputGuard == GuardAllows && k.turn.calls != [] && !ActivationRefused(k)
  {
    VisitLeads(s, maxSteps, k);
    hide ModelStep, Blank, Judged, SettledKinds, TurnKinds, AskedKinds, HookKinds, Answered, Recorded;
  }

  /** The status each visit leads to. */
  lemma VisitLeads(s: State, maxSteps: nat, k: ModelInput)
    ensures
      var status := ModelStep(s, maxSteps, k).status;
      if !Asks(s, maxSteps, k) || k.outputGuard != GuardAllows then status == Failed || status == WaitingUser || status == Reasoning
      else if k.turn.calls != [] then status == if ActivationRefused(k) then Failed else ExecutingTools
      else if k.turn.truncated || Blank(k.turn.content) then status == Failed || status == Reasoning
      else if !k.finalVerdict.allowed then status == Failed || status == WaitingUser || status == Reasoning
      else if k.answerDenied || k.finalGuard == GuardBlocks then status == Failed
      else status == if k.finalGuard == GuardAsks then WaitingUser else Completed
  {
    hide ModelStep, Blank, SettledKinds, TurnKinds, AskedKinds, HookKinds, Logged, Asked, Told, HandedOver, ActivationRefused, Joined;
    if !Asks(s, maxSteps, k) || k.outputGuard != GuardAllows {
      ShortVisitLeads(s, maxSteps, k);
    } else if k.turn.calls != [] {
      CallsAreHandedOver(s, maxSteps, k);
    } else {
      ProseLeads(s, maxSteps, k);
    }
  }

  lemma ShortVisitLeads(s: State, maxSteps: nat, k: ModelInput)
    requires !Asks(s, maxSteps, k) || k.outputGuard != GuardAllows
    ensures ModelStep(s, maxSteps, k).status in {Failed, WaitingUser, Reasoning}
  {
    hide ModelStep, SettledKinds, TurnKinds, AskedKinds, HookKinds, Logged, Asked, Told;
    if Asks(s, maxSteps, k) {
      WithheldTurn(s, maxSteps, k);
    } else {
      VisitWithoutTheProvider(s, maxSteps, k);
      hide Underway;
    }
  }

  lemma ProseLeads(s: State, maxSteps: nat, k: ModelInput)
    requires Asks(s, maxSteps, k) && k.outputGuard == GuardAllows && k.turn.calls == []
    ensures
      var status := ModelStep(s, maxSteps, k).status;
      if k.turn.truncated || Blank(k.turn.content) then status == Failed || status == Reasoning
      else if !k.finalVerdict.allowed then status == Failed || status == WaitingUser || status == Reasoning
      else if k.answerDenied || k.finalGuard == GuardBlocks then status == Failed
      else status == if k.finalGuard == GuardAsks then WaitingUser else Completed
  {
    hide ModelStep, Blank, SettledKinds, TurnKinds, AskedKinds, HookKinds, Logged, Asked, Told, HandedOver, Joined;
    if k.turn.truncated {
      CutOffTurn(s, maxSteps, k);
    } else if Blank(k.turn.content) {
      EmptyTurn(s, maxSteps, k);
    } else if !k.finalVerdict.allowed {
      AnswerTurnedDown(s, maxSteps, k);
      hide Judged;
    } else {
      AnswerAccepted(s, maxSteps, k);
      hide Judged;
    }
  }
}
