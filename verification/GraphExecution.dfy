/** One agent run, whose state the nodes of the graph update in place. Every method
    says what it does to a run that is open, and is tied to the transition of the same
    name on the state's value, of which the laws of whole runs are proved. */
module GraphExecution {
  import opened Options
  import opened RunState
  import opened AgentGraph
  import opened AgentGraphProperties
  import opened AnswerParts
  import opened PyText

  // ---------------------------------------------------------------- what the transitions come to

  /** A run between two nodes: not ended, within its retry limits, nothing pending. */
  ghost predicate Steady(s: State) {
    Open(s) && Counted(s) && Idle(s)
  }

  /** The run has failed for the reason given, and nothing else is pending. */
  ghost predicate FailedFor(t: State, reason: Failure) {
    Closed(t) && Idle(t) && t.status == Failed && t.finalAnswer == Some(FailureNotice(reason))
  }

  /** From one state to the next the model is asked again, for the reason the flag
      shows, or the run has failed. */
  ghost predicate AskedAgainOrFailed(s: State, t: State, again: bool, flag: bool, reason: Failure) {
    s.events <= t.events && if again then Again(t) && flag else FailedFor(t, reason)
  }

  lemma FailsFor(s: State, reason: Failure)
    requires Open(s) && Idle(s)
    ensures FailedFor(FinishFailed(s, reason), reason) && s.events <= FinishFailed(s, reason).events
  {
    FailedIsClosed(s, reason);
    hide Closed, Open;
  }

  lemma EmitKeepsSteady(s: State, kind: EventKind)
    requires Open(s) && Idle(s) && !Terminal(kind)
    ensures Open(Emit(s, kind)) && Idle(Emit(s, kind)) && s.events <= Emit(s, kind).events
  {
  }

  /** The model is asked again. */
  lemma AsksAgain(s: State, prompt: Msg, kind: EventKind)
    requires Open(s) && Counted(s) && Idle(s) && !Terminal(kind)
    requires s.status == Reasoning && (s.emptyRetryPending || s.continuationPending)
    ensures Again(Emit(Say(s, prompt), kind)) && s.events <= Emit(Say(s, prompt), kind).events
  {
  }

  lemma TruncatedOutcome(s: State, content: string, canContinue: bool)
    requires Steady(s)
    ensures
      var t := ContinueOrFailTruncated(s, content, canContinue);
      AskedAgainOrFailed(s, t, canContinue && s.continuationCount < MAX_CONTINUATIONS, t.continuationPending, TruncatedResponse)
  {
    hide FinishFailed, FailedFor, Emit, Again, Numbered, NoneTerminal;
    var counted := s.(
      partialParts := s.partialParts + (if content == "" then [] else [content]),
      continuationCount := s.continuationCount + 1);
    if canContinue && s.continuationCount < MAX_CONTINUATIONS {
      AsksAgain(counted.(continuationPending := true, status := Reasoning, pendingCalls := []), UserSays("continue"),
                TruncationRetrying);
      EmitKeepsFlags(Say(counted.(continuationPending := true, status := Reasoning, pendingCalls := []), UserSays("continue")),
                     TruncationRetrying);
    } else {
      EmitKeepsSteady(counted.(continuationPending := false), TruncationExhausted);
      FailsFor(Emit(counted.(continuationPending := false), TruncationExhausted), TruncatedResponse);
    }
  }

  lemma EmitKeepsFlags(s: State, kind: EventKind)
    ensures Emit(s, kind).continuationPending == s.continuationPending && Emit(s, kind).emptyRetryPending == s.emptyRetryPending
  {
  }

  lemma EmptyOutcome(s: State, canRetry: bool)
    requires Steady(s)
    ensures
      var t := RetryOrFailEmpty(s, canRetry);
      AskedAgainOrFailed(s, t, canRetry && s.emptyCount < MAX_EMPTY_RETRIES, t.emptyRetryPending, EmptyResponse)
  {
    hide FinishFailed, FailedFor, Emit, Again, Numbered, NoneTerminal;
    var counted := s.(emptyCount := s.emptyCount + 1);
    if canRetry && s.emptyCount < MAX_EMPTY_RETRIES {
      AsksAgain(counted.(emptyRetryPending := true, status := Reasoning, pendingCalls := []), SystemSays("answer"), EmptyRetrying);
      EmitKeepsFlags(Say(counted.(emptyRetryPending := true, status := Reasoning, pendingCalls := []), SystemSays("answer")),
                     EmptyRetrying);
    } else {
      EmitKeepsSteady(counted.(emptyRetryPending := false), EmptyExhausted);
      FailsFor(Emit(counted.(emptyRetryPending := false), EmptyExhausted), EmptyResponse);
    }
  }

  lemma RepairOutcome(s: State, skill: Skill, verdict: Completion)
    requires Steady(s)
    ensures
      var t := RepairOrFail(s, skill, verdict);
      AskedAgainOrFailed(s, t, s.repairCount < skill.repairLimit, t.repairCount == s.repairCount + 1, ContractViolation)
  {
    if s.repairCount < skill.repairLimit {
      RepairGranted(s, skill, verdict);
      hide Again, FailedFor;
    } else {
      FailsFor(s.(phase := Violated, missingTools := verdict.missingTools), ContractViolation);
      hide FinishFailed, FailedFor;
    }
  }

  lemma FinalizeOutcome(s: State, maxSteps: nat, k: ModelInput)
    requires Steady(s)
    ensures
      var t := FinalizeAnswer(s, k);
      && s.events <= t.events && Lands(t, maxSteps, Attempts(s, maxSteps) + 1)
      && (!Blank(k.turn.content) && s.status == Reasoning && t.status == Completed ==>
            k.finalVerdict.allowed && !k.answerDenied && k.finalGuard == GuardAllows)
  {
    AnswerLands(s, k, maxSteps);
    if !Blank(k.turn.content) {
      FinalizeEffect(s, k);
    }
    hide FinalizeAnswer, Lands, Blank, Attempts;
  }

  lemma SettleOutcome(s: State, maxSteps: nat, k: ModelInput, calls: seq<Call>)
    requires Steady(s) && s.messages != []
    ensures
      var t := SettleTurn(s, maxSteps, k, calls);
      s.events <= t.events && Lands(t, maxSteps, Attempts(s, maxSteps) + 1)
  {
    SettleTurnLands(s, maxSteps, k, calls);
  }

  lemma ResumeOutcome(s: State, r: Resume)
    ensures
      var t := ApplyResume(s, r);
      && t.pendingAction.None? && t.pendingAsync.None?
      && (Open(s) && Counted(s) && s.pendingCalls == [] ==> Ready(t) && s.events <= t.events && t.stepCount == s.stepCount)
  {
    hide Open, Counted, Ready;
    if Open(s) && Counted(s) && s.pendingCalls == [] {
      ResumeIsReady(s, r);
    }
    TellKeeps(s, r);
    hide TellResume;
  }

  lemma ConfirmationOutcome(s: State, action: Action, r: Resume)
    ensures
      var t := ApplyConfirmation(s, action, r);
      && t.pendingAction.None? && t.pendingAsync.None?
      && (Open(s) && Counted(s) && s.pendingCalls == [] && s.messages != [] ==>
            && Inv(Config(RouteFromStart(t), t)) && s.events <= t.events
            && (RouteFromStart(t) == ToolsNode <==> r.confirmed && action.deferred.Some?))
  {
    hide Open, Counted, Inv;
    if Open(s) && Counted(s) && s.pendingCalls == [] && s.messages != [] {
      ConfirmationIsInv(s, action, r);
    }
  }

  lemma InputOutcome(s: State, verdict: Completion)
    requires Steady(s)
    ensures Waits(WaitForInput(s, verdict)) && s.events <= WaitForInput(s, verdict).events
  {
    InputWaits(s, verdict);
  }

  lemma WaitOutcome(s: State, kind: ActionKind)
    requires Steady(s) && !kind.PolicyConfirmation?
    ensures Waits(WaitForConfirmation(s, kind)) && s.events <= WaitForConfirmation(s, kind).events
  {
    ConfirmationWaits(s, kind);
  }

  lemma GuardOutcome(s: State, guard: Guard, maxSteps: nat)
    requires Steady(s)
    ensures
      var f := Guarded(s, guard);
      if f.Done? then Settled(s, f.state, maxSteps) else f.state == s
  {
    GuardedSettles(s, guard, maxSteps);
  }

  lemma InputGuardOutcome(s: State, k: ModelInput, maxSteps: nat)
    requires Steady(s)
    ensures
      var f := GuardInput(s, k);
      if f.Done? then Settled(s, f.state, maxSteps) else GoesOn(s, f.state)
  {
    NoteAllNotes(s, k.inputNotes);
    var noted := NoteAll(s, k.inputNotes);
    hide NoteAll;
    GuardedSettles(noted, k.inputGuard, maxSteps);
    hide Guarded;
    if Guarded(noted, k.inputGuard).Done? {
      SettledEarlier(s, noted, Guarded(noted, k.inputGuard).state, maxSteps);
    }
  }

  lemma DeliverOutcome(s: State, k: ModelInput, text: string, maxSteps: nat)
    requires Steady(s)
    ensures
      var t := DeliverAnswer(s, k, text);
      s.events <= t.events && Lands(t, maxSteps, 0)
  {
    DeliverLands(s, k, text, maxSteps, 0);
  }

  lemma TakeOutcome(s: State, maxSteps: nat, k: ModelInput)
    requires Steady(s) && s.stepCount < maxSteps
    ensures Settled(s, TakeTurn(s, maxSteps, k), maxSteps)
  {
    TakeTurnSettles(s, maxSteps, k);
  }

  lemma NothingNoted(s: State)
    ensures Noted(s, s)
  {
  }

  lemma AdvanceOutcome(maxSteps: nat, c: Config, input: Input)
    requires Inv(c)
    ensures
      var next := Advance(maxSteps, c, input);
      && Inv(next) && c.state.events <= next.state.events
      && (c.node == ModelNode && Working(next) ==> Attempts(next.state, maxSteps) < Attempts(c.state, maxSteps))
      && (c.node == ToolsNode && Working(next) ==> Attempts(next.state, maxSteps) == Attempts(c.state, maxSteps))
      && (c.node != Crashed ==> (next.node == Crashed <==> c.node == AwaitUserNode && c.state.pendingAsync.Some?))
  {
    AdvanceKeepsInv(maxSteps, c, input);
    if c.node != Crashed {
      RefusalNeedsTwoSuspensions(maxSteps, c, input);
    }
    if Working(c) && Working(Advance(maxSteps, c, input)) {
      AdvanceLowersRank(maxSteps, c, input);
    }
    hide Inv, Advance, Attempts;
  }

  class NodeExecution {
    /** The state dictionary, whose entries the nodes assign one by one. */
    var current: State

    constructor (s: State)
      ensures current == s
    {
      current := s;
    }

    // -------------------------------------------------------------- shared transitions

    method EmitEvent(kind: EventKind)
      modifies this
      ensures current == Emit(old(current), kind)
    {
      current := current.(events := current.events + [Event(kind, |current.events| + 1)]);
    }

    method EmitEvents(kinds: seq<EventKind>)
      modifies this
      ensures current == EmitAll(old(current), kinds)
      ensures (forall i :: 0 <= i < |kinds| ==> !Terminal(kinds[i])) ==> Noted(old(current), current)
    {
      hide Noted;
      if forall i :: 0 <= i < |kinds| ==> !Terminal(kinds[i]) {
        EmitAllNotes(current, kinds);
      }
      for i := 0 to |kinds|
        invariant current == EmitAll(old(current), kinds[..i])
      {
        assert kinds[..i + 1][..i] == kinds[..i];
        EmitEvent(kinds[i]);
      }
      assert kinds[..|kinds|] == kinds;
    }

    method EmitNotes(notes: seq<string>)
      modifies this
      ensures current == NoteAll(old(current), notes)
      ensures Noted(old(current), current)
    {
      hide Noted;
      NoteAllNotes(current, notes);
      EmitEvents(seq(|notes|, i requires 0 <= i < |notes| => Note(notes[i])));
    }

    method Fail(reason: Failure)
      modifies this
      ensures current == FinishFailed(old(current), reason)
      ensures Open(old(current)) ==> Closed(current) && current.status == Failed && old(current.events) <= current.events
    {
      hide Open, Closed;
      if Open(current) {
        FailedIsClosed(current, reason);
      }
      current := current.(finalAnswer := Some(FailureNotice(reason)));
      current := current.(status := Failed);
      current := current.(pendingCalls := []);
      EmitEvent(AgentFailed(reason));
    }

    method Complete(markdown: string)
      modifies this
      ensures current == FinishCompleted(old(current), markdown)
      ensures Open(old(current)) ==> Closed(current) && current.status == Completed && old(current.events) <= current.events
    {
      hide Open, Closed;
      if Open(current) {
        CompletedIsClosed(current, markdown);
      }
      current := current.(finalAnswer := Some(Delivered(markdown)));
      current := current.(status := Completed);
      current := current.(pendingCalls := []);
      EmitEvent(AnswerCompleted);
    }

    /** Prompts the model and goes back to it. */
    method AskAgain(prompt: Msg, kind: EventKind)
      modifies this
      ensures current == Emit(Say(old(current).(status := Reasoning, pendingCalls := []), prompt), kind)
    {
      hide Emit, Numbered;
      current := current.(messages := current.messages + [prompt]);
      current := current.(status := Reasoning);
      current := current.(pendingCalls := []);
      EmitEvent(kind);
    }

    method AddPart(content: string)
      modifies this
      ensures current == old(current).(partialParts := old(current).partialParts + (if content == "" then [] else [content]))
    {
      if content != "" {
        current := current.(partialParts := current.partialParts + [content]);
      }
      assert current.partialParts == old(current).partialParts + (if content == "" then [] else [content]);
    }

    method HandleTruncated(content: string, canContinue: bool)
      modifies this
      ensures current == ContinueOrFailTruncated(old(current), content, canContinue)
      ensures Steady(old(current)) ==>
        AskedAgainOrFailed(old(current), current, canContinue && old(current.continuationCount) < MAX_CONTINUATIONS,
                           current.continuationPending, TruncatedResponse)
    {
      hide Steady, AskedAgainOrFailed, Numbered, Open, Closed;
      if Steady(current) {
        TruncatedOutcome(current, content, canContinue);
      }
      hide FinishFailed, Emit;
      AddPart(content);
      current := current.(continuationCount := current.continuationCount + 1);
      if canContinue && current.continuationCount <= MAX_CONTINUATIONS {
        current := current.(continuationPending := true);
        AskAgain(UserSays("continue"), TruncationRetrying);
        return;
      }
      current := current.(continuationPending := false);
      EmitEvent(TruncationExhausted);
      Fail(TruncatedResponse);
    }

    method HandleEmpty(canRetry: bool)
      modifies this
      ensures current == RetryOrFailEmpty(old(current), canRetry)
      ensures Steady(old(current)) ==>
        AskedAgainOrFailed(old(current), current, canRetry && old(current.emptyCount) < MAX_EMPTY_RETRIES,
                           current.emptyRetryPending, EmptyResponse)
    {
      hide Steady, AskedAgainOrFailed, Numbered, Open, Closed;
      if Steady(current) {
        EmptyOutcome(current, canRetry);
      }
      hide FinishFailed, Emit;
      current := current.(emptyCount := current.emptyCount + 1);
      if canRetry && current.emptyCount <= MAX_EMPTY_RETRIES {
        current := current.(emptyRetryPending := true);
        AskAgain(SystemSays("answer"), EmptyRetrying);
        return;
      }
      current := current.(emptyRetryPending := false);
      EmitEvent(EmptyExhausted);
      Fail(EmptyResponse);
    }

    method Repair(skill: Skill, verdict: Completion)
      modifies this
      ensures current == RepairOrFail(old(current), skill, verdict)
      ensures Steady(old(current)) ==>
        AskedAgainOrFailed(old(current), current, old(current.repairCount) < skill.repairLimit,
                           current.repairCount == old(current.repairCount) + 1, ContractViolation)
    {
      hide Steady, AskedAgainOrFailed, Numbered, Open, Closed;
      if Steady(current) {
        RepairOutcome(current, skill, verdict);
      }
      hide FinishFailed, Emit;
      if current.repairCount < skill.repairLimit {
        current := current.(repairCount := current.repairCount + 1);
        current := current.(phase := Repairing, missingTools := verdict.missingTools);
        AskAgain(SystemSays("repair"), PolicyRepair);
        return;
      }
      current := current.(phase := Violated, missingTools := verdict.missingTools);
      Fail(ContractViolation);
    }

    method AwaitInput(verdict: Completion)
      modifies this
      ensures current == WaitForInput(old(current), verdict)
      ensures Steady(old(current)) ==> Waits(current) && old(current.events) <= current.events
    {
      hide Steady, Waits;
      if Steady(current) {
        InputOutcome(current, verdict);
      }
      current := current.(pendingAction := Some(Action(Clarification, "", false, None)));
      current := current.(pendingCalls := []);
      current := current.(status := WaitingUser);
      current := current.(phase := AwaitingInput, missingTools := verdict.missingTools);
      EmitEvent(SkillWaitingInput);
    }

    method AwaitConfirmation(kind: ActionKind)
      modifies this
      ensures current == WaitForConfirmation(old(current), kind)
      ensures Steady(old(current)) && !kind.PolicyConfirmation? ==> Waits(current) && old(current.events) <= current.events
    {
      hide Steady, Waits;
      if Steady(current) && !kind.PolicyConfirmation? {
        WaitOutcome(current, kind);
      }
      current := current.(pendingAction := Some(Action(kind, "", false, None)));
      current := current.(status := WaitingUser);
      EmitEvent(AgentWaitingUser);
    }

    // -------------------------------------------------------------- model node

    /** Each stage says whether it ended the node. */
    method Prepare(maxSteps: nat, k: ModelInput) returns (done: bool)
      modifies this
      ensures PrepareStep(old(current), maxSteps, k) == if done then Done(current) else Continue(current)
      ensures Ready(old(current)) ==>
        if done then Settled(old(current), current, maxSteps)
        else GoesOn(old(current), current) && current.messages != [] && old(current.stepCount) < maxSteps
    {
      hide Ready, Settled, GoesOn;
      if Ready(current) {
        PrepareSettles(current, maxSteps, k);
      }
      hide FinishFailed, RepairOrFail, NoteAll;
      if current.stepCount >= maxSteps {
        if k.skill.active && k.skill.durable && !k.verdict.allowed && current.phase == Repairing {
          Repair(k.skill, k.verdict);
        } else {
          Fail(StepLimit);
        }
        return true;
      }
      current := current.(status := Reasoning);
      EmitEvent(AgentReasoning);
      if Finalizing(k) && !current.finalizationTold {
        current := current.(messages := current.messages + [SystemSays("finalize")]);
        EmitEvent(WorkflowFinalizing);
        current := current.(finalizationTold := true);
      }
      EmitNotes(k.viewNotes);
      done := false;
    }

    method AskHook(k: ModelInput, ghost maxSteps: nat) returns (done: bool)
      modifies this
      ensures BeforeModel(old(current), k) == if done then Done(current) else Continue(current)
      ensures Ready(old(current)) ==>
        if done then Settled(old(current), current, maxSteps) else GoesOn(old(current), current)
    {
      hide Ready, Settled, GoesOn;
      if Ready(current) {
        BeforeModelSettles(current, maxSteps, k);
      }
      hide FinishFailed, WaitForConfirmation, NoteAll;
      EmitNotes(k.beforeNotes);
      match k.before {
        case HookDenies =>
          Fail(DeniedByHook);
          done := true;
        case HookWaits =>
          AwaitConfirmation(ConfirmModel);
          done := true;
        case HookAllows =>
          current := current.(messages := current.messages + k.beforeMessages);
          done := false;
      }
    }

    method ApplyGuard(guard: Guard, ghost maxSteps: nat) returns (done: bool)
      modifies this
      ensures Guarded(old(current), guard) == if done then Done(current) else Continue(current)
      ensures Steady(old(current)) ==>
        if done then Settled(old(current), current, maxSteps) else current == old(current)
    {
      hide Steady, Settled;
      if Steady(current) {
        GuardOutcome(current, guard, maxSteps);
      }
      hide FinishFailed, WaitForConfirmation;
      match guard {
        case GuardBlocks =>
          Fail(BlockedByGuardrail);
          done := true;
        case GuardAsks =>
          AwaitConfirmation(ConfirmGuarded);
          done := true;
        case GuardAllows =>
          done := false;
      }
    }

    method ApplyInputGuard(k: ModelInput, ghost maxSteps: nat) returns (done: bool)
      modifies this
      ensures GuardInput(old(current), k) == if done then Done(current) else Continue(current)
      ensures Steady(old(current)) ==>
        if done then Settled(old(current), current, maxSteps) else GoesOn(old(current), current)
    {
      hide Steady, Settled, GoesOn;
      if Steady(current) {
        InputGuardOutcome(current, k, maxSteps);
      }
      hide Guarded, NoteAll;
      EmitNotes(k.inputNotes);
      assert current == NoteAll(old(current), k.inputNotes);
      done := ApplyGuard(k.inputGuard, maxSteps);
      if !done {
        if k.replaced.Some? {
          current := current.(messages := k.replaced.value);
        }
        current := current.(messages := current.messages + k.inputMessages);
      }
    }

    method ActivateSkill(k: ModelInput) returns (done: bool)
      modifies this
      ensures ActivateEntry(old(current), k) == if done then Done(current) else Continue(current)
      ensures Open(old(current)) && Idle(old(current)) ==>
        && old(current.events) <= current.events
        && if done then Closed(current) && Idle(current) else Open(current)
    {
      hide Open, Closed, Idle;
      if Open(current) && Idle(current) {
        ActivationOpen(current, k);
      }
      hide FinishFailed, EntryCalls;
      if k.turn.calls == [] || k.skill.active || k.entry.KeepsCalls? {
        return false;
      }
      if !k.entry.Activates? || (set c | c in EntryCalls(k)) != (set c | c in k.turn.calls) {
        Fail(BadActivation);
        return true;
      }
      EmitEvent(SkillActivated);
      done := false;
    }

    method Deliver(k: ModelInput, text: string, ghost maxSteps: nat)
      modifies this
      ensures current == DeliverAnswer(old(current), k, text)
      ensures Steady(old(current)) ==> old(current.events) <= current.events && Lands(current, maxSteps, 0)
    {
      hide Steady, Lands;
      if Steady(current) {
        DeliverOutcome(current, k, text, maxSteps);
      }
      hide FinishFailed, FinishCompleted, Guarded, NoteAll, OrElse;
      EmitNotes(k.answerNotes);
      if k.answerDenied {
        Fail(DeniedByHook);
        return;
      }
      EmitNotes(k.finalNotes);
      var done := ApplyGuard(k.finalGuard, maxSteps);
      if !done {
        Complete(OrElse(k.finalPatch, OrElse(k.answerPatch, text)));
      }
    }

    method Finalize(k: ModelInput, ghost maxSteps: nat)
      modifies this
      ensures current == FinalizeAnswer(old(current), k)
      ensures Steady(old(current)) ==>
        old(current.events) <= current.events && Lands(current, maxSteps, Attempts(old(current), maxSteps) + 1)
      ensures Steady(old(current)) && old(current.status) == Reasoning && !Blank(k.turn.content) && current.status == Completed ==>
        k.finalVerdict.allowed && !k.answerDenied && k.finalGuard == GuardAllows
    {
      hide Steady, Lands, Attempts;
      if Steady(current) {
        FinalizeOutcome(current, maxSteps, k);
      }
      hide FinishFailed, RepairOrFail, WaitForInput, DeliverAnswer, Blank, CanWaitForInput;
      if Blank(k.turn.content) {
        Fail(NoUsableContent);
        return;
      }
      if !k.finalVerdict.allowed {
        if CanWaitForInput(current, k.finalSkill, k.finalVerdict) {
          AwaitInput(k.finalVerdict);
        } else {
          Repair(k.finalSkill, k.finalVerdict);
        }
        return;
      }
      if k.finalSkill.active && k.finalSkill.durable {
        current := current.(phase := Fulfilled, missingTools := k.finalVerdict.missingTools);
      }
      var text := k.turn.content;
      if current.partialParts != [] {
        text := MergeAnswerParts(current.partialParts + (if text == "" then [] else [text]));
      }
      current := current.(partialParts := [], continuationPending := false, continuationCount := 0);
      Deliver(k, text, maxSteps);
    }

    method Settle(maxSteps: nat, k: ModelInput, calls: seq<Call>)
      requires current.messages != []
      modifies this
      ensures current == SettleTurn(old(current), maxSteps, k, calls)
      ensures Steady(old(current)) ==>
        old(current.events) <= current.events && Lands(current, maxSteps, Attempts(old(current), maxSteps) + 1)
      ensures old(current.status) == Reasoning && current.status == Completed ==>
        calls == [] && !k.turn.truncated && !Blank(k.turn.content) && k.finalVerdict.allowed
    {
      hide Steady, Lands, Attempts;
      if Steady(current) {
        SettleOutcome(current, maxSteps, k, calls);
      }
      SettleTurnEffect(current, maxSteps, k, calls);
      hide ContinueOrFailTruncated, RetryOrFailEmpty, FinalizeAnswer, Blank;
      if calls == [] && k.turn.truncated {
        HandleTruncated(k.turn.content, current.stepCount < maxSteps);
        return;
      }
      if calls == [] && Blank(k.turn.content) {
        current := current.(messages := current.messages[..|current.messages| - 1]);
        HandleEmpty(current.stepCount < maxSteps);
        return;
      }
      current := current.(emptyCount := 0, emptyRetryPending := false);
      if calls != [] {
        current := current.(pendingCalls := calls, status := ExecutingTools);
        return;
      }
      Finalize(k, maxSteps);
    }

    method Take(maxSteps: nat, k: ModelInput)
      modifies this
      ensures current == TakeTurn(old(current), maxSteps, k)
      ensures Steady(old(current)) && old(current.stepCount) < maxSteps ==> Settled(old(current), current, maxSteps)
      ensures current.stepCount == old(current.stepCount) + 1
    {
      hide Steady, Settled, Blank;
      if Steady(current) && current.stepCount < maxSteps {
        TakeOutcome(current, maxSteps, k);
      }
      TakeTurnEffect(current, maxSteps, k);
      hide ActivateEntry, SettleTurn, EntryCalls;
      EmitEvent(UsageRecorded);
      current := current.(stepCount := current.stepCount + 1);
      assert current == RecordTurn(old(current));
      var done := ActivateSkill(k);
      if done {
        return;
      }
      current := current.(messages := current.messages + [Assistant(k.turn.content, EntryCalls(k))]);
      EmitEvent(ModelCompleted);
      Settle(maxSteps, k, EntryCalls(k));
    }

    method RunModelNode(maxSteps: nat, k: ModelInput)
      modifies this
      ensures current == ModelStep(old(current), maxSteps, k)
      ensures Ready(old(current)) ==> Settled(old(current), current, maxSteps)
      ensures current.status == Completed ==>
        && k.finalVerdict.allowed && !k.answerDenied
        && k.before == HookAllows && k.inputGuard == GuardAllows && k.outputGuard == GuardAllows && k.finalGuard == GuardAllows
    {
      hide Ready, Settled;
      if Ready(current) {
        ModelStepSettles(current, maxSteps, k);
      }
      if ModelStep(current, maxSteps, k).status == Completed {
        CompletedMeansAllowed(current, maxSteps, k);
      }
      hide PrepareStep, BeforeModel, GuardInput, Guarded, TakeTurn, NoteAll;
      var done := Prepare(maxSteps, k);
      if done {
        return;
      }
      done := AskHook(k, maxSteps);
      if done {
        return;
      }
      done := ApplyInputGuard(k, maxSteps);
      if done {
        return;
      }
      EmitNotes(k.turnNotes);
      done := ApplyGuard(k.outputGuard, maxSteps);
      if !done {
        Take(maxSteps, k);
      }
    }

    // -------------------------------------------------------------- tools node

    method ApplyToolResult(o: ToolOutcome)
      modifies this
      ensures current == ApplyOutcome(old(current), o)
      ensures SameTurn(old(current), current)
    {
      hide SameTurn;
      OutcomeKeeps(current, o);
      match o {
        case Skipped(callId) =>
          EmitEvent(ToolSkipped(callId));
        case AsksUser(callId, action) =>
          current := current.(pendingAction := Some(action));
          EmitEvent(ToolRequiresUser(callId));
        case GoesAsync(callId, tool) =>
          current := current.(pendingAsync := Some(Async(callId, tool)));
          EmitEvent(ToolWaitingAsync(callId));
        case Ends(callId, ok) =>
          current := current.(messages := current.messages + [ToolAnswer(callId)]);
          EmitEvent(if ok then ToolCompleted(callId) else ToolFailed(callId));
      }
    }

    method RunToolsNode(t: ToolInput)
      modifies this
      ensures current == ToolStep(old(current), t)
    {
      hide ApplyOutcome, Emit, OutcomesOf, StartTools;
      ghost var s := current;
      var calls := current.pendingCalls;
      var outcomes := OutcomesOf(current, t);
      StartCalls(t);
      current := current.(pendingCalls := [], pendingAction := None, pendingAsync := None);
      ghost var cleared := current;
      for i := 0 to |outcomes|
        invariant current == ApplyOutcomes(cleared, outcomes[..i])
      {
        assert outcomes[..i + 1][..i] == outcomes[..i];
        ApplyToolResult(outcomes[i]);
      }
      assert outcomes[..|outcomes|] == outcomes;
      hide ApplyOutcomes;
      current := current.(grants := current.grants - Ids(calls));
      if current.pendingAction.Some? {
        current := current.(status := WaitingUser);
      } else if current.pendingAsync.Some? {
        current := current.(status := WaitingAsync);
      } else if current.pendingCalls != [] {
        current := current.(status := ExecutingTools);
      } else {
        current := current.(status := Reasoning);
      }
    }

    method StartCalls(t: ToolInput)
      modifies this
      ensures current == StartTools(old(current), t)
      ensures Noted(old(current), current)
    {
      hide Noted;
      EmitAllNotes(current, StartEvents(current.pendingCalls));
      NothingNoted(current);
      hide EmitAll;
      if t.suspending <= 1 {
        EmitEvents(StartEvents(current.pendingCalls));
      }
    }

    // -------------------------------------------------------------- await nodes

    /** Tells the model of the user's answer or the finished task. */
    method Tell(r: Resume)
      modifies this
      ensures current == TellResume(old(current), r)
      ensures current.messages != [] && current.events == old(current.events)
    {
      TellKeeps(current, r);
      if AnswersClarification(current) {
        current := current.(clarificationResumes := current.clarificationResumes + 1);
        if current.missingTools {
          current := current.(messages := current.messages + [SystemSays("resume")]);
        }
        current := current.(messages := current.messages + [UserSays(r.text)]);
      } else {
        current := current.(messages := current.messages + [ToolAnswer(PendingCallId(current))]);
      }
    }

    method ResumeRun(r: Resume)
      modifies this
      ensures current == ApplyResume(old(current), r)
      ensures current.pendingAction.None? && current.pendingAsync.None?
      ensures Open(old(current)) && Counted(old(current)) && old(current.pendingCalls) == [] ==>
        Ready(current) && old(current.events) <= current.events && current.stepCount == old(current.stepCount)
    {
      hide Open, Counted, Ready, TellResume, Emit;
      ghost var before := current;
      var wasAsync := current.pendingAsync.Some?;
      Tell(r);
      if r.failed && wasAsync {
        current := current.(repairCount := r.repairLimit);
      }
      current := current.(pendingAction := None, pendingAsync := None, status := Reasoning);
      EmitEvent(RunResumed);
      ResumeOutcome(before, r);
    }

    method ResumeConfirmation(action: Action, r: Resume)
      modifies this
      ensures current == ApplyConfirmation(old(current), action, r)
      ensures current.pendingAction.None? && current.pendingAsync.None?
      ensures Open(old(current)) && Counted(old(current)) && old(current.pendingCalls) == [] && old(current.messages) != [] ==>
        && Inv(Config(RouteFromStart(current), current)) && old(current.events) <= current.events
        && (RouteFromStart(current) == ToolsNode <==> r.confirmed && action.deferred.Some?)
    {
      hide Emit, Open, Counted, Inv, RouteFromStart;
      ConfirmationOutcome(current, action, r);
      current := current.(pendingAction := None, pendingAsync := None);
      if r.confirmed && action.deferred.Some? {
        current := current.(pendingCalls := [action.deferred.value], status := ExecutingTools);
        current := current.(grants := current.grants + {GrantId(action)});
        EmitEvent(PolicyConfirmed);
        return;
      }
      current := current.(messages := current.messages + [ToolAnswer(GrantId(action))]);
      current := current.(pendingCalls := [], status := Reasoning);
      EmitEvent(PolicyCanceled);
    }

    method RunAwaitUserNode(r: Resume)
      modifies this
      ensures current == AwaitUserStep(old(current), r)
      ensures current.pendingAction.None? && current.pendingAsync.None?
    {
      hide ApplyConfirmation, ApplyResume;
      if current.pendingAction.Some? && current.pendingAction.value.IsPolicyConfirmation() {
        ResumeConfirmation(current.pendingAction.value, r);
      } else {
        ResumeRun(r);
      }
    }

    // -------------------------------------------------------------- the graph

    /** Runs the node the run is at, and says where it goes next. */
    method RunNode(maxSteps: nat, node: Node, input: Input) returns (next: Node)
      modifies this
      ensures Config(next, current) == Advance(maxSteps, Config(node, old(current)), input)
      ensures Inv(Config(node, old(current))) ==>
        && Inv(Config(next, current)) && old(current.events) <= current.events
        && (node == ModelNode && Working(Config(next, current)) ==>
              Attempts(current, maxSteps) < Attempts(old(current), maxSteps))
        && (node == ToolsNode && Working(Config(next, current)) ==>
              Attempts(current, maxSteps) == Attempts(old(current), maxSteps))
        && (node != Crashed ==> (next == Crashed <==> node == AwaitUserNode && old(current.pendingAsync).Some?))
    {
      hide Inv, Attempts;
      if Inv(Config(node, current)) {
        AdvanceOutcome(maxSteps, Config(node, current), input);
      }
      hide ModelStep, ToolStep, AwaitUserStep, ApplyResume, RouteAfterModel, RouteAfterTools;
      if node == End || node == Crashed {
        return node;
      }
      if (current.pendingAction.Some? && current.pendingAsync.Some?) || (node == ModelNode && current.messages == []) {
        return Crashed;
      }
      match node {
        case ModelNode =>
          RunModelNode(maxSteps, input.model);
          next := RouteAfterModel(current);
        case ToolsNode =>
          RunToolsNode(input.tools);
          next := RouteAfterTools(current);
        case AwaitUserNode =>
          RunAwaitUserNode(input.resume);
          next := RouteFromStart(current);
        case AwaitAsyncNode =>
          ResumeRun(input.resume);
          next := RouteFromStart(current);
      }
    }
  }
}
