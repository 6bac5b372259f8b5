/** What holds in every run of the agent graph, whatever hooks, guardrails, the
    model, tools and the user answer. */
module AgentGraphProperties {
  import opened Options
  import opened RunState
  import opened AgentGraph
  import opened PyText

  // ---------------------------------------------------------------- the event log

  predicate Terminal(kind: EventKind) {
    kind.AgentFailed? || kind.AnswerCompleted?
  }

  ghost predicate Numbered(events: seq<Event>) {
    forall i :: 0 <= i < |events| ==> events[i].sequence == i + 1
  }

  ghost predicate NoneTerminal(events: seq<Event>) {
    forall i :: 0 <= i < |events| ==> !Terminal(events[i].kind)
  }

  /** The run has not ended: no answer, no terminal event, events numbered from one. */
  ghost predicate Open(s: State) {
    Numbered(s.events) && NoneTerminal(s.events) && s.finalAnswer.None?
  }

  /** The run has ended: one terminal event, the last, which matches status and answer. */
  ghost predicate Closed(s: State) {
    && Numbered(s.events) && s.events != [] && NoneTerminal(s.events[..|s.events| - 1])
    && s.pendingCalls == [] && s.finalAnswer.Some?
    && match s.events[|s.events| - 1].kind
       case AnswerCompleted => s.status == Completed && s.finalAnswer.value.Delivered?
       case AgentFailed(reason) => s.status == Failed && s.finalAnswer.value == FailureNotice(reason)
       case _ => false
  }

  /** The same state with events added that do not end the run. */
  ghost predicate Noted(s: State, t: State) {
    && t == s.(events := t.events) && s.events <= t.events
    && (Open(s) ==> Open(t))
  }

  lemma {:induction false} EmitAllNotes(s: State, kinds: seq<EventKind>)
    requires forall i :: 0 <= i < |kinds| ==> !Terminal(kinds[i])
    ensures Noted(s, EmitAll(s, kinds))
  {
    if kinds != [] {
      EmitAllNotes(s, kinds[..|kinds| - 1]);
    }
  }

  lemma NoteAllNotes(s: State, notes: seq<string>)
    ensures Noted(s, NoteAll(s, notes))
  {
    EmitAllNotes(s, seq(|notes|, i requires 0 <= i < |notes| => Note(notes[i])));
  }

  // ---------------------------------------------------------------- one model visit

  ghost predicate Counted(s: State) {
    s.continuationCount <= MAX_CONTINUATIONS && s.emptyCount <= MAX_EMPTY_RETRIES
  }

  ghost predicate Idle(s: State) {
    s.pendingCalls == [] && s.pendingAction.None? && s.pendingAsync.None?
  }

  /** What the model node starts from. */
  ghost predicate Ready(s: State) {
    Open(s) && Counted(s) && Idle(s) && s.messages != []
  }

  function Rest(limit: nat, used: nat): nat {
    if used < limit then limit - used else 0
  }

  /** How many more times the model may be asked without the run being suspended. */
  function Attempts(s: State, maxSteps: nat): nat {
    Rest(maxSteps, s.stepCount) + Rest(MAX_REPAIRS, s.repairCount)
  }

  ghost predicate Waits(s: State) {
    && Open(s) && Counted(s) && s.pendingCalls == [] && s.pendingAsync.None?
    && s.pendingAction.Some? && s.status == WaitingUser
    && (s.pendingAction.value.IsPolicyConfirmation() ==> s.messages != [])
  }

  ghost predicate Calls(s: State) {
    && Open(s) && Counted(s) && s.pendingCalls != [] && s.pendingAction.None? && s.pendingAsync.None?
    && s.status == ExecutingTools && s.messages != []
  }

  ghost predicate Again(s: State) {
    && Ready(s) && s.status == Reasoning
    && (s.phase == Repairing || s.emptyRetryPending || s.continuationPending)
  }

  /** The four ways a model visit can leave the run, with fewer than `below` attempts left. */
  ghost predicate Lands(t: State, maxSteps: nat, below: nat) {
    || (Closed(t) && Idle(t))
    || Waits(t)
    || ((Calls(t) || Again(t)) && Attempts(t, maxSteps) < below)
  }

  ghost predicate Settled(s: State, t: State, maxSteps: nat) {
    s.events <= t.events && Lands(t, maxSteps, Attempts(s, maxSteps))
  }

  lemma FailedIsClosed(s: State, reason: Failure)
    requires Open(s)
    ensures Closed(FinishFailed(s, reason)) && s.events <= FinishFailed(s, reason).events
  {
  }

  lemma CompletedIsClosed(s: State, markdown: string)
    requires Open(s)
    ensures Closed(FinishCompleted(s, markdown)) && s.events <= FinishCompleted(s, markdown).events
  {
  }

  /** A stage goes on with the turn's counters untouched. */
  ghost predicate GoesOn(s: State, t: State) {
    Open(t) && Counted(t) && Idle(t) && t.stepCount == s.stepCount && t.repairCount == s.repairCount && s.events <= t.events
  }

  lemma RepairGranted(s: State, skill: Skill, verdict: Completion)
    requires Open(s) && Counted(s) && Idle(s) && s.repairCount < skill.repairLimit
    ensures
      var t := RepairOrFail(s, skill, verdict);
      Again(t) && t.stepCount == s.stepCount && t.repairCount == s.repairCount + 1 && s.events <= t.events
  {
  }

  lemma RepairRefused(s: State, skill: Skill, verdict: Completion)
    requires Open(s) && Idle(s) && s.repairCount >= skill.repairLimit
    ensures
      var t := RepairOrFail(s, skill, verdict);
      Closed(t) && Idle(t) && s.events <= t.events
  {
    FailedIsClosed(s.(phase := Violated, missingTools := verdict.missingTools), ContractViolation);
    hide Closed;
  }

  lemma RepairSettles(s: State, skill: Skill, verdict: Completion, maxSteps: nat)
    requires Open(s) && Counted(s) && Idle(s)
    ensures
      var t := RepairOrFail(s, skill, verdict);
      && s.events <= t.events
      && ((Closed(t) && Idle(t)) || (Again(t) && t.stepCount == s.stepCount && Attempts(t, maxSteps) < Attempts(s, maxSteps)))
  {
    if s.repairCount < skill.repairLimit {
      RepairGranted(s, skill, verdict);
      hide RepairOrFail, Again, Open, Closed;
    } else {
      RepairRefused(s, skill, verdict);
      hide RepairOrFail, Again, Open, Closed;
    }
  }

  lemma PrepareSettles(s: State, maxSteps: nat, k: ModelInput)
    requires Ready(s)
    ensures
      var f := PrepareStep(s, maxSteps, k);
      && (f.Done? ==> Settled(s, f.state, maxSteps))
      && (f.Continue? ==> GoesOn(s, f.state) && f.state.messages != [] && s.stepCount < maxSteps)
  {
    if s.stepCount >= maxSteps {
      FailedIsClosed(s, StepLimit);
      RepairSettles(s, k.skill, k.verdict, maxSteps);
      hide Closed, FinishFailed, RepairOrFail;
    } else {
      NoteAllNotes(TellFinalization(Emit(s.(status := Reasoning), AgentReasoning), k), k.viewNotes);
      hide NoteAll, Closed;
    }
  }

  lemma GuardedSettles(s: State, guard: Guard, maxSteps: nat)
    requires Open(s) && Counted(s) && Idle(s)
    ensures
      var f := Guarded(s, guard);
      && (f.Done? ==> Settled(s, f.state, maxSteps))
      && (f.Continue? ==> f.state == s)
  {
    FailedIsClosed(s, BlockedByGuardrail);
    hide Closed, FinishFailed;
  }

  lemma SettledEarlier(s: State, m: State, t: State, maxSteps: nat)
    requires s.events <= m.events && Attempts(m, maxSteps) <= Attempts(s, maxSteps) && Settled(m, t, maxSteps)
    ensures Settled(s, t, maxSteps)
  {
    hide Closed, Waits, Calls, Again, Attempts;
  }

  lemma ConfirmationWaits(s: State, kind: ActionKind)
    requires Open(s) && Counted(s) && Idle(s) && !kind.PolicyConfirmation?
    ensures Waits(WaitForConfirmation(s, kind)) && s.events <= WaitForConfirmation(s, kind).events
  {
  }

  lemma BeforeModelSettles(s: State, maxSteps: nat, k: ModelInput)
    requires Ready(s)
    ensures
      var f := BeforeModel(s, k);
      && (f.Done? ==> Settled(s, f.state, maxSteps))
      && (f.Continue? ==> GoesOn(s, f.state))
  {
    NoteAllNotes(s, k.beforeNotes);
    var noted := NoteAll(s, k.beforeNotes);
    FailedIsClosed(noted, DeniedByHook);
    ConfirmationWaits(noted, ConfirmModel);
    hide NoteAll, Closed, FinishFailed, WaitForConfirmation, Waits;
    if k.before == HookDenies {
      SettledEarlier(s, noted, FinishFailed(noted, DeniedByHook), maxSteps);
    } else if k.before == HookWaits {
      SettledEarlier(s, noted, WaitForConfirmation(noted, ConfirmModel), maxSteps);
    }
  }

  lemma BeforeProviderSettles(s: State, maxSteps: nat, k: ModelInput)
    requires Ready(s)
    ensures
      var f := BeforeProvider(s, maxSteps, k);
      && (f.Done? ==> Settled(s, f.state, maxSteps))
      && (f.Continue? ==> GoesOn(s, f.state) && s.stepCount < maxSteps)
  {
    PrepareSettles(s, maxSteps, k);
    var prepared := PrepareStep(s, maxSteps, k);
    hide PrepareStep, BeforeModel, Settled;
    if prepared.Continue? {
      BeforeModelSettles(prepared.state, maxSteps, k);
      var allowed := BeforeModel(prepared.state, k);
      if allowed.Continue? {
        NoteAllNotes(allowed.state, k.inputNotes);
        hide NoteAll;
        var noted := NoteAll(allowed.state, k.inputNotes);
        GuardedSettles(noted, k.inputGuard, maxSteps);
        hide Guarded;
        if Guarded(noted, k.inputGuard).Done? {
          SettledEarlier(s, noted, Guarded(noted, k.inputGuard).state, maxSteps);
        }
      } else {
        SettledEarlier(s, prepared.state, allowed.state, maxSteps);
      }
    }
  }

  lemma TruncatedLands(s: State, content: string, maxSteps: nat)
    requires Open(s) && Counted(s) && Idle(s)
    ensures
      var t := ContinueOrFailTruncated(s, content, s.stepCount < maxSteps);
      s.events <= t.events && Lands(t, maxSteps, Attempts(s, maxSteps) + 1)
  {
  }

  lemma EmptyLands(s: State, maxSteps: nat)
    requires Open(s) && Counted(s) && Idle(s)
    ensures
      var t := RetryOrFailEmpty(s, s.stepCount < maxSteps);
      s.events <= t.events && Lands(t, maxSteps, Attempts(s, maxSteps) + 1)
  {
  }

  lemma DeliverLands(s: State, k: ModelInput, text: string, maxSteps: nat, below: nat)
    requires Open(s) && Counted(s) && Idle(s)
    ensures
      var t := DeliverAnswer(s, k, text);
      s.events <= t.events && Lands(t, maxSteps, below)
  {
    NoteAllNotes(s, k.answerNotes);
    var noted := NoteAll(s, k.answerNotes);
    NoteAllNotes(noted, k.finalNotes);
    var seen := NoteAll(noted, k.finalNotes);
    FailedIsClosed(noted, DeniedByHook);
    FailedIsClosed(seen, BlockedByGuardrail);
    ConfirmationWaits(seen, ConfirmGuarded);
    CompletedIsClosed(seen, OrElse(k.finalPatch, OrElse(k.answerPatch, text)));
    assert s.events <= noted.events && s.events <= seen.events;
    hide NoteAll, OrElse, WaitForConfirmation, Closed, Waits, Open;
  }

  lemma InputWaits(s: State, verdict: Completion)
    requires Open(s) && Counted(s) && Idle(s)
    ensures Waits(WaitForInput(s, verdict)) && s.events <= WaitForInput(s, verdict).events
  {
  }

  lemma AnswerLands(s: State, k: ModelInput, maxSteps: nat)
    requires Open(s) && Counted(s) && Idle(s)
    ensures
      var t := FinalizeAnswer(s, k);
      s.events <= t.events && Lands(t, maxSteps, Attempts(s, maxSteps) + 1)
  {
    hide Blank, CanWaitForInput, FinalText;
    if Blank(k.turn.content) {
      FailedIsClosed(s, NoUsableContent);
      hide FinishFailed, Closed;
    } else if k.finalVerdict.allowed {
      assert AcceptAnswer(s, k).events == s.events && Counted(AcceptAnswer(s, k));
      hide AcceptAnswer, DeliverAnswer, Lands;
      DeliverLands(AcceptAnswer(s, k), k, FinalText(s, k.turn.content), maxSteps, Attempts(s, maxSteps) + 1);
    } else if CanWaitForInput(s, k.finalSkill, k.finalVerdict) {
      InputWaits(s, k.finalVerdict);
      hide WaitForInput, Waits;
    } else {
      RepairSettles(s, k.finalSkill, k.finalVerdict, maxSteps);
      hide RepairOrFail, Closed, Again;
    }
  }

  lemma CallsLand(s: State, calls: seq<Call>)
    requires Open(s) && Counted(s) && Idle(s) && s.messages != [] && calls != []
    ensures Calls(s.(emptyCount := 0, emptyRetryPending := false, pendingCalls := calls, status := ExecutingTools))
  {
  }

  lemma SettleTurnLands(s: State, maxSteps: nat, k: ModelInput, calls: seq<Call>)
    requires Open(s) && Counted(s) && Idle(s) && s.messages != []
    ensures
      var t := SettleTurn(s, maxSteps, k, calls);
      s.events <= t.events && Lands(t, maxSteps, Attempts(s, maxSteps) + 1)
  {
    hide Blank, FinalizeAnswer, ContinueOrFailTruncated, RetryOrFailEmpty;
    if calls == [] && k.turn.truncated {
      TruncatedLands(s, k.turn.content, maxSteps);
      hide Lands;
    } else if calls == [] && Blank(k.turn.content) {
      EmptyLands(s.(messages := s.messages[..|s.messages| - 1]), maxSteps);
      hide Lands;
    } else if calls == [] {
      AnswerLands(s.(emptyCount := 0, emptyRetryPending := false), k, maxSteps);
      hide Lands;
    } else {
      CallsLand(s, calls);
      hide Calls, Closed, Waits, Again;
    }
  }

  lemma ActivationOpen(s: State, k: ModelInput)
    requires Open(s) && Idle(s)
    ensures
      var f := ActivateEntry(s, k);
      && s.events <= f.state.events
      && (f.Done? ==> Closed(f.state) && Idle(f.state))
      && (f.Continue? ==> Open(f.state) && f.state == s.(events := f.state.events))
  {
    FailedIsClosed(s, BadActivation);
    hide FinishFailed, Closed, EntryCalls;
  }

  lemma AppendOpen(s: State, k: ModelInput)
    requires Open(s)
    ensures
      var t := AppendAssistant(s, k);
      Open(t) && s.events <= t.events && t.messages != [] && t == s.(events := t.events, messages := t.messages)
  {
    hide EntryCalls;
  }

  lemma TakeTurnSettles(s: State, maxSteps: nat, k: ModelInput)
    requires Open(s) && Counted(s) && Idle(s) && s.stepCount < maxSteps
    ensures Settled(s, TakeTurn(s, maxSteps, k), maxSteps)
  {
    var recorded := RecordTurn(s);
    assert Open(recorded) && s.events <= recorded.events && Attempts(recorded, maxSteps) + 1 == Attempts(s, maxSteps);
    hide RecordTurn;
    ActivationOpen(recorded, k);
    var activated := ActivateEntry(recorded, k);
    hide ActivateEntry, Open, Closed;
    if activated.Continue? {
      AppendOpen(activated.state, k);
      var answered := AppendAssistant(activated.state, k);
      hide AppendAssistant;
      SettleTurnLands(answered, maxSteps, k, EntryCalls(k));
      hide SettleTurn, Lands;
    }
  }

  lemma AfterProviderSettles(s: State, maxSteps: nat, k: ModelInput)
    requires Open(s) && Counted(s) && Idle(s) && s.stepCount < maxSteps
    ensures Settled(s, AfterProvider(s, maxSteps, k), maxSteps)
  {
    NoteAllNotes(s, k.turnNotes);
    var noted := NoteAll(s, k.turnNotes);
    hide NoteAll;
    GuardedSettles(noted, k.outputGuard, maxSteps);
    if Guarded(noted, k.outputGuard).Continue? {
      TakeTurnSettles(noted, maxSteps, k);
    }
    hide Guarded, TakeTurn, Settled;
    SettledEarlier(s, noted, AfterProvider(s, maxSteps, k), maxSteps);
  }

  /** One visit of the model node: the run has ended, waits for the user, runs tools, or
      asks the model again; the last two use up an attempt. */
  lemma ModelStepSettles(s: State, maxSteps: nat, k: ModelInput)
    requires Ready(s)
    ensures Settled(s, ModelStep(s, maxSteps, k), maxSteps)
  {
    BeforeProviderSettles(s, maxSteps, k);
    var reached := BeforeProvider(s, maxSteps, k);
    hide BeforeProvider, AfterProvider, Settled;
    if reached.Continue? {
      AfterProviderSettles(reached.state, maxSteps, k);
      SettledEarlier(s, reached.state, AfterProvider(reached.state, maxSteps, k), maxSteps);
    }
  }

  // ---------------------------------------------------------------- the other nodes

  ghost predicate AsksFor(outcomes: seq<ToolOutcome>) {
    exists i :: 0 <= i < |outcomes| && outcomes[i].AsksUser?
  }

  ghost predicate GoesBackground(outcomes: seq<ToolOutcome>) {
    exists i :: 0 <= i < |outcomes| && outcomes[i].GoesAsync?
  }

  /** What the results of a batch leave alone. */
  ghost predicate SameTurn(s: State, t: State) {
    && s.events <= t.events && (Open(s) ==> Open(t)) && |s.messages| <= |t.messages|
    && t.pendingCalls == s.pendingCalls && t.stepCount == s.stepCount && t.repairCount == s.repairCount
    && t.continuationCount == s.continuationCount && t.emptyCount == s.emptyCount && t.grants == s.grants
  }

  lemma OutcomeKeeps(s: State, o: ToolOutcome)
    ensures SameTurn(s, ApplyOutcome(s, o))
    ensures ApplyOutcome(s, o).pendingAction.Some? <==> o.AsksUser? || s.pendingAction.Some?
    ensures ApplyOutcome(s, o).pendingAsync.Some? <==> o.GoesAsync? || s.pendingAsync.Some?
  {
  }

  lemma {:induction false} OutcomesKeep(s: State, outcomes: seq<ToolOutcome>)
    ensures SameTurn(s, ApplyOutcomes(s, outcomes))
    ensures ApplyOutcomes(s, outcomes).pendingAction.Some? <==> AsksFor(outcomes) || s.pendingAction.Some?
    ensures ApplyOutcomes(s, outcomes).pendingAsync.Some? <==> GoesBackground(outcomes) || s.pendingAsync.Some?
  {
    if outcomes != [] {
      var last := |outcomes| - 1;
      OutcomesKeep(s, outcomes[..last]);
      OutcomeKeeps(ApplyOutcomes(s, outcomes[..last]), outcomes[last]);
      AnySplits(outcomes);
      hide ApplyOutcome, Open, SameTurn, AsksFor, GoesBackground;
      SameTurnTwice(s, ApplyOutcomes(s, outcomes[..last]), ApplyOutcomes(s, outcomes));
    }
  }

  lemma SameTurnTwice(a: State, b: State, c: State)
    requires SameTurn(a, b) && SameTurn(b, c)
    ensures SameTurn(a, c)
  {
    hide Open;
  }

  lemma AnySplits(outcomes: seq<ToolOutcome>)
    requires outcomes != []
    ensures
      var front, last := outcomes[..|outcomes| - 1], outcomes[|outcomes| - 1];
      && (AsksFor(outcomes) <==> AsksFor(front) || last.AsksUser?)
      && (GoesBackground(outcomes) <==> GoesBackground(front) || last.GoesAsync?)
  {
    var front := outcomes[..|outcomes| - 1];
    assert forall i :: 0 <= i < |front| ==> front[i] == outcomes[i];
  }

  /** Running a batch: the calls and the grants for them are spent, and the run waits
      for the user or for background work exactly when some result says so. */
  lemma ToolStepEffect(s: State, t: ToolInput)
    requires Open(s)
    ensures
      var after, outcomes := ToolStep(s, t), OutcomesOf(s, t);
      && Open(after) && s.events <= after.events && |s.messages| <= |after.messages|
      && after.pendingCalls == [] && after.grants == s.grants - Ids(s.pendingCalls)
      && (after.pendingAction.Some? <==> AsksFor(outcomes))
      && (after.pendingAsync.Some? <==> GoesBackground(outcomes))
      && after.status == StatusOf(after)
      && after.stepCount == s.stepCount && after.repairCount == s.repairCount
      && after.continuationCount == s.continuationCount && after.emptyCount == s.emptyCount
  {
    EmitAllNotes(s, StartEvents(s.pendingCalls));
    assert Noted(s, StartTools(s, t));
    hide StartTools, EmitAll;
    var cleared := StartTools(s, t).(pendingCalls := [], pendingAction := None, pendingAsync := None);
    assert Open(cleared);
    OutcomesKeep(cleared, OutcomesOf(s, t));
    hide ApplyOutcomes, OutcomesOf, AsksFor, GoesBackground;
    var applied := ApplyOutcomes(cleared, OutcomesOf(s, t));
    assert Open(applied.(grants := applied.grants - Ids(s.pendingCalls)));
    assert s.events <= applied.events;
  }

  lemma TellKeeps(s: State, r: Resume)
    ensures
      var t := TellResume(s, r);
      && t.messages != []
      && t == s.(messages := t.messages, clarificationResumes := t.clarificationResumes)
  {
  }

  lemma ResumeIsReady(s: State, r: Resume)
    requires Open(s) && Counted(s) && s.pendingCalls == []
    ensures Ready(ApplyResume(s, r)) && s.events <= ApplyResume(s, r).events
    ensures ApplyResume(s, r).stepCount == s.stepCount
  {
    TellKeeps(s, r);
    hide TellResume;
  }

  // ---------------------------------------------------------------- every run

  /** What holds of the run wherever it is. */
  ghost predicate Inv(c: Config) {
    var s := c.state;
    match c.node
    case ModelNode => Ready(s)
    case ToolsNode =>
      Open(s) && Counted(s) && s.pendingCalls != [] && s.pendingAction.None? && s.pendingAsync.None? && s.messages != []
    case AwaitUserNode =>
      && Open(s) && Counted(s) && s.pendingCalls == [] && s.pendingAction.Some? && s.status == WaitingUser
      && (s.pendingAction.value.IsPolicyConfirmation() ==> s.messages != [])
    case AwaitAsyncNode =>
      && Open(s) && Counted(s) && s.pendingCalls == [] && s.pendingAction.None? && s.pendingAsync.Some?
      && s.status == WaitingAsync
    case End => Closed(s) && Idle(s)
    case Crashed => Open(s) && s.pendingAction.Some? && s.pendingAsync.Some?
  }

  /** The state of a run that has not begun, whatever its status and counters of steps and repairs. */
  ghost predicate Fresh(s: State) {
    s.events == [] && s.finalAnswer.None? && s.pendingAction.None? && s.pendingAsync.None? && s.messages != [] && Counted(s)
  }

  lemma LandingIsInv(t: State, maxSteps: nat, below: nat)
    requires Lands(t, maxSteps, below)
    ensures Inv(Config(RouteAfterModel(t), t))
    ensures RouteAfterModel(t).ModelNode? || RouteAfterModel(t).ToolsNode? ==> Attempts(t, maxSteps) < below
  {
  }

  lemma AdvanceKeepsInv(maxSteps: nat, c: Config, input: Input)
    requires Inv(c)
    ensures Inv(Advance(maxSteps, c, input))
    ensures c.state.events <= Advance(maxSteps, c, input).state.events
  {
    hide Open, Counted, Closed, Numbered, NoneTerminal;
    match c.node
    case ModelNode =>
      ModelStepSettles(c.state, maxSteps, input.model);
      LandingIsInv(ModelStep(c.state, maxSteps, input.model), maxSteps, Attempts(c.state, maxSteps));
      hide ModelStep, Lands, RouteAfterModel, Attempts;
    case ToolsNode =>
      ToolStepEffect(c.state, input.tools);
      SameCounts(c.state, ToolStep(c.state, input.tools));
      hide ToolStep, AsksFor, GoesBackground;
    case AwaitUserNode =>
      ResumeIsReady(c.state, input.resume);
      hide ApplyResume;
      if c.state.pendingAction.value.IsPolicyConfirmation() {
        ConfirmationIsInv(c.state, c.state.pendingAction.value, input.resume);
      }
      hide ApplyConfirmation;
    case AwaitAsyncNode =>
      ResumeIsReady(c.state, input.resume);
      hide ApplyResume;
    case End =>
    case Crashed =>
  }

  lemma SameCounts(s: State, t: State)
    requires Counted(s) && t.continuationCount == s.continuationCount && t.emptyCount == s.emptyCount
    ensures Counted(t)
  {
  }

  lemma ConfirmationIsInv(s: State, action: Action, r: Resume)
    requires Open(s) && Counted(s) && s.pendingCalls == [] && s.messages != []
    ensures
      var t := ApplyConfirmation(s, action, r);
      Inv(Config(RouteFromStart(t), t)) && s.events <= t.events && t.stepCount == s.stepCount
  {
  }

  lemma {:induction false} RunKeepsInv(maxSteps: nat, c: Config, inputs: seq<Input>)
    requires Inv(c)
    ensures Inv(Run(maxSteps, c, inputs))
    ensures c.state.events <= Run(maxSteps, c, inputs).state.events
  {
    hide Inv, Advance;
    if inputs != [] {
      var before := Run(maxSteps, c, inputs[..|inputs| - 1]);
      RunKeepsInv(maxSteps, c, inputs[..|inputs| - 1]);
      AdvanceKeepsInv(maxSteps, before, inputs[|inputs| - 1]);
    }
  }

  lemma FreshIsInv(s: State)
    requires Fresh(s)
    ensures Inv(Start(s))
  {
  }

  /** Wherever a run that started fresh has got to: events are numbered one to n; the
      run is at its end exactly when it has a final answer, and then it is completed or
      failed with no call pending and its one terminal event last; a waiting run has the
      action or the task it waits for. */
  lemma EveryRunIsSafe(maxSteps: nat, s: State, inputs: seq<Input>)
    requires Fresh(s)
    ensures
      var c := Run(maxSteps, Start(s), inputs);
      && Numbered(c.state.events)
      && (c.node == End <==> c.state.finalAnswer.Some?)
      && (c.node == End ==> Closed(c.state) && c.state.status in {Completed, Failed} && c.state.pendingCalls == [])
      && (c.node != End ==> NoneTerminal(c.state.events))
      && (c.node == AwaitUserNode ==> c.state.pendingAction.Some? && c.state.status == WaitingUser)
      && (c.node == AwaitAsyncNode ==> c.state.pendingAsync.Some? && c.state.status == WaitingAsync)
      && (c.node == ToolsNode ==> c.state.pendingCalls != [])
      && (c.node == ModelNode ==> Idle(c.state) && c.state.messages != [])
  {
    FreshIsInv(s);
    RunKeepsInv(maxSteps, Start(s), inputs);
    hide Run;
  }

  /** A node refuses its state only where a run waits for the user, and only when one
      batch of tools has suspended it both for the user and for background work. */
  lemma RefusalNeedsTwoSuspensions(maxSteps: nat, c: Config, input: Input)
    requires Inv(c) && c.node != Crashed
    ensures Advance(maxSteps, c, input).node == Crashed <==> c.node == AwaitUserNode && c.state.pendingAsync.Some?
    ensures c.node == ToolsNode ==>
      var next := Advance(maxSteps, c, input);
      var outcomes := OutcomesOf(c.state, input.tools);
      && next.node == (if AsksFor(outcomes) then AwaitUserNode
                       else if GoesBackground(outcomes) then AwaitAsyncNode else ModelNode)
      && (next.node == AwaitUserNode && next.state.pendingAsync.Some? <==> AsksFor(outcomes) && GoesBackground(outcomes))
  {
    if c.node == ToolsNode {
      ToolStepEffect(c.state, input.tools);
    }
    hide ToolStep, ModelStep, AsksFor, GoesBackground, ApplyResume, AwaitUserStep, Closed;
  }

  /** Resuming clears what the run waited for. */
  lemma ResumeClears(maxSteps: nat, c: Config, input: Input)
    requires Inv(c) && (c.node == AwaitUserNode || c.node == AwaitAsyncNode) && !Refuses(c)
    ensures
      var next := Advance(maxSteps, c, input);
      && next.state.pendingAction.None? && next.state.pendingAsync.None?
      && next.node == (if next.state.pendingCalls != [] then ToolsNode else ModelNode)
      && (next.node == ToolsNode ==>
            c.state.pendingAction.Some? && c.state.pendingAction.value.deferred.Some?
            && next.state.pendingCalls == [c.state.pendingAction.value.deferred.value])
  {
    ResumeIsReady(c.state, input.resume);
    hide Open, Counted, ApplyResume;
    if c.node == AwaitUserNode {
      ConfirmationClears(c.state, c.state.pendingAction.value, input.resume);
      hide ApplyConfirmation;
    }
  }

  lemma ConfirmationClears(s: State, action: Action, r: Resume)
    ensures
      var t := ApplyConfirmation(s, action, r);
      && t.pendingAction.None? && t.pendingAsync.None?
      && (t.pendingCalls != [] ==> action.deferred.Some? && t.pendingCalls == [action.deferred.value])
  {
  }

  // ---------------------------------------------------------------- termination

  predicate Working(c: Config) {
    c.node == ModelNode || c.node == ToolsNode
  }

  /** Every node of a stretch without suspension lowers this. */
  function Rank(maxSteps: nat, c: Config): nat {
    2 * Attempts(c.state, maxSteps) + (if c.node == ModelNode then 1 else if c.node == ToolsNode then 2 else 0)
  }

  lemma AdvanceLowersRank(maxSteps: nat, c: Config, input: Input)
    requires Inv(c) && Working(c) && Working(Advance(maxSteps, c, input))
    ensures Rank(maxSteps, Advance(maxSteps, c, input)) < Rank(maxSteps, c)
    ensures c.node == ModelNode ==> Attempts(Advance(maxSteps, c, input).state, maxSteps) < Attempts(c.state, maxSteps)
    ensures c.node == ToolsNode ==> Attempts(Advance(maxSteps, c, input).state, maxSteps) == Attempts(c.state, maxSteps)
  {
    if c.node == ModelNode {
      ModelStepSettles(c.state, maxSteps, input.model);
      LandingIsInv(ModelStep(c.state, maxSteps, input.model), maxSteps, Attempts(c.state, maxSteps));
      hide ModelStep, Lands, RouteAfterModel, Attempts, Open, Closed;
    } else {
      ToolStepEffect(c.state, input.tools);
      hide ToolStep, AsksFor, GoesBackground, Open, Closed;
    }
  }

  function Visits(maxSteps: nat, c: Config, inputs: seq<Input>): nat
    decreases |inputs|
  {
    if inputs == [] then 0
    else
      var front := inputs[..|inputs| - 1];
      Visits(maxSteps, c, front) + (if Run(maxSteps, c, front).node == ModelNode then 1 else 0)
  }

  /** Nodes run one after the other without the run being suspended or ended. */
  ghost predicate Unsuspended(maxSteps: nat, c: Config, inputs: seq<Input>) {
    forall k :: 0 <= k < |inputs| ==> Working(Run(maxSteps, c, inputs[..k]))
  }

  lemma {:induction false} WorkUsesUpAttempts(maxSteps: nat, c: Config, inputs: seq<Input>)
    requires Inv(c) && Unsuspended(maxSteps, c, inputs) && Working(Run(maxSteps, c, inputs))
    ensures Rank(maxSteps, Run(maxSteps, c, inputs)) + |inputs| <= Rank(maxSteps, c)
    ensures Visits(maxSteps, c, inputs) + Attempts(Run(maxSteps, c, inputs).state, maxSteps) <= Attempts(c.state, maxSteps)
  {
    hide Inv, Advance, Attempts;
    if inputs != [] {
      var front := inputs[..|inputs| - 1];
      forall k | 0 <= k < |front|
        ensures Working(Run(maxSteps, c, front[..k]))
      {
        assert front[..k] == inputs[..k];
      }
      WorkUsesUpAttempts(maxSteps, c, front);
      RunKeepsInv(maxSteps, c, front);
      AdvanceLowersRank(maxSteps, Run(maxSteps, c, front), inputs[|inputs| - 1]);
      hide Rank;
    }
  }

  /** A run without suspension is bounded by the steps and repairs it has left: that many
      model visits and one more, and at most one batch of tools between two of them. */
  lemma SegmentIsBounded(maxSteps: nat, c: Config, inputs: seq<Input>)
    requires Inv(c) && Unsuspended(maxSteps, c, inputs)
    ensures Visits(maxSteps, c, inputs) <= Attempts(c.state, maxSteps) + 1
    ensures |inputs| <= 2 * Attempts(c.state, maxSteps) + 2
  {
    if inputs != [] {
      var front := inputs[..|inputs| - 1];
      forall k | 0 <= k < |front|
        ensures Working(Run(maxSteps, c, front[..k]))
      {
        assert front[..k] == inputs[..k];
      }
      WorkUsesUpAttempts(maxSteps, c, front);
      hide Run, Inv, Unsuspended, Attempts;
    }
  }

  // ---------------------------------------------------------------- provider calls

  predicate CallsProvider(maxSteps: nat, c: Config, input: Input) {
    c.node == ModelNode && !Refuses(c) && BeforeProvider(c.state, maxSteps, input.model).Continue?
  }

  /** The provider answered, but the guardrail on model output kept the turn back. */
  predicate WithholdsTurn(maxSteps: nat, c: Config, input: Input) {
    CallsProvider(maxSteps, c, input) && input.model.outputGuard != GuardAllows
  }

  function ProviderCalls(maxSteps: nat, c: Config, inputs: seq<Input>): nat
    decreases |inputs|
  {
    if inputs == [] then 0
    else
      var front, last := inputs[..|inputs| - 1], inputs[|inputs| - 1];
      ProviderCalls(maxSteps, c, front) + (if CallsProvider(maxSteps, Run(maxSteps, c, front), last) then 1 else 0)
  }

  function WithheldTurns(maxSteps: nat, c: Config, inputs: seq<Input>): nat
    decreases |inputs|
  {
    if inputs == [] then 0
    else
      var front, last := inputs[..|inputs| - 1], inputs[|inputs| - 1];
      WithheldTurns(maxSteps, c, front) + (if WithholdsTurn(maxSteps, Run(maxSteps, c, front), last) then 1 else 0)
  }

  /** What a stage before the provider call does to counters and status. */
  ghost predicate StageEffect(s: State, f: Flow, limit: nat) {
    && f.state.stepCount == s.stepCount
    && (s.repairCount >= limit || f.Continue? ==> f.state.repairCount == s.repairCount)
    && (f.Done? ==> f.state.status != Completed)
    && (s.finalAnswer.None? && f.Continue? ==> f.state.finalAnswer.None?)
    && (f.Continue? ==>
          && f.state.partialParts == s.partialParts
          && f.state.continuationCount == s.continuationCount && f.state.emptyCount == s.emptyCount)
    && (s.finalAnswer.None? ==> f.state.finalAnswer != Some(FailureNotice(NoUsableContent)))
  }

  lemma PrepareEffect(s: State, maxSteps: nat, k: ModelInput)
    ensures StageEffect(s, PrepareStep(s, maxSteps, k), k.skill.repairLimit)
    ensures PrepareStep(s, maxSteps, k).Continue? ==>
      s.stepCount < maxSteps && PrepareStep(s, maxSteps, k).state.status == Reasoning
  {
    NoteAllNotes(TellFinalization(Emit(s.(status := Reasoning), AgentReasoning), k), k.viewNotes);
    hide NoteAll;
  }

  lemma BeforeModelEffect(s: State, k: ModelInput)
    ensures StageEffect(s, BeforeModel(s, k), 0)
    ensures BeforeModel(s, k).Continue? ==> k.before == HookAllows && BeforeModel(s, k).state.status == s.status
  {
    NoteAllNotes(s, k.beforeNotes);
    hide NoteAll;
  }

  lemma GuardInputEffect(s: State, k: ModelInput)
    ensures StageEffect(s, GuardInput(s, k), 0)
    ensures GuardInput(s, k).Continue? ==> k.inputGuard == GuardAllows && GuardInput(s, k).state.status == s.status
  {
    NoteAllNotes(s, k.inputNotes);
    hide NoteAll;
  }

  lemma BeforeProviderEffect(s: State, maxSteps: nat, k: ModelInput)
    ensures StageEffect(s, BeforeProvider(s, maxSteps, k), k.skill.repairLimit)
    ensures BeforeProvider(s, maxSteps, k).Continue? ==>
      && s.stepCount < maxSteps && BeforeProvider(s, maxSteps, k).state.status == Reasoning
      && k.before == HookAllows && k.inputGuard == GuardAllows
  {
    PrepareEffect(s, maxSteps, k);
    var prepared := PrepareStep(s, maxSteps, k);
    BeforeModelEffect(prepared.state, k);
    GuardInputEffect(BeforeModel(prepared.state, k).state, k);
    hide PrepareStep, BeforeModel, GuardInput;
  }

  /** What settling a turn does to counters and status, and when it completes the run. */
  ghost predicate SettleEffect(s: State, t: State, k: ModelInput) {
    && t.stepCount == s.stepCount
    && (s.repairCount >= k.finalSkill.repairLimit ==> t.repairCount == s.repairCount)
    && (s.finalAnswer.None? ==> t.finalAnswer != Some(FailureNotice(NoUsableContent)))
    && (s.status == Reasoning && t.status == Completed ==>
          k.finalVerdict.allowed && !k.answerDenied && k.finalGuard == GuardAllows)
  }

  lemma DeliverEffect(s: State, k: ModelInput, text: string)
    requires k.finalVerdict.allowed
    ensures SettleEffect(s, DeliverAnswer(s, k, text), k)
  {
    NoteAllNotes(s, k.answerNotes);
    NoteAllNotes(NoteAll(s, k.answerNotes), k.finalNotes);
    hide NoteAll, OrElse;
  }

  lemma FinalizeEffect(s: State, k: ModelInput)
    requires !Blank(k.turn.content)
    ensures SettleEffect(s, FinalizeAnswer(s, k), k)
  {
    hide Blank, CanWaitForInput, FinalText;
    if k.finalVerdict.allowed {
      DeliverEffect(AcceptAnswer(s, k), k, FinalText(s, k.turn.content));
      hide DeliverAnswer;
    } else if CanWaitForInput(s, k.finalSkill, k.finalVerdict) {
      hide RepairOrFail, DeliverAnswer;
    } else {
      hide WaitForInput, DeliverAnswer;
    }
  }

  lemma TruncatedEffect(s: State, k: ModelInput, canContinue: bool)
    ensures SettleEffect(s, ContinueOrFailTruncated(s, k.turn.content, canContinue), k)
    ensures ContinueOrFailTruncated(s, k.turn.content, canContinue).status != Completed
  {
  }

  lemma EmptyEffect(s: State, k: ModelInput, canRetry: bool)
    ensures SettleEffect(s, RetryOrFailEmpty(s, canRetry), k)
    ensures RetryOrFailEmpty(s, canRetry).status != Completed
  {
  }

  lemma SettleTurnEffect(s: State, maxSteps: nat, k: ModelInput, calls: seq<Call>)
    requires s.messages != []
    ensures SettleEffect(s, SettleTurn(s, maxSteps, k, calls), k)
    ensures s.status == Reasoning && SettleTurn(s, maxSteps, k, calls).status == Completed ==>
      calls == [] && !k.turn.truncated && !Blank(k.turn.content)
  {
    hide Blank, FinalizeAnswer, ContinueOrFailTruncated, RetryOrFailEmpty;
    if calls == [] && k.turn.truncated {
      TruncatedEffect(s, k, s.stepCount < maxSteps);
    } else if calls == [] && Blank(k.turn.content) {
      EmptyEffect(s.(messages := s.messages[..|s.messages| - 1]), k, s.stepCount < maxSteps);
    } else if calls == [] {
      FinalizeEffect(s.(emptyCount := 0, emptyRetryPending := false), k);
    }
  }

  lemma TakeTurnEffect(s: State, maxSteps: nat, k: ModelInput)
    ensures
      var t := TakeTurn(s, maxSteps, k);
      && t.stepCount == s.stepCount + 1
      && (s.repairCount >= k.finalSkill.repairLimit ==> t.repairCount == s.repairCount)
      && (s.finalAnswer.None? ==> t.finalAnswer != Some(FailureNotice(NoUsableContent)))
      && (s.status == Reasoning && t.status == Completed ==>
            && k.finalVerdict.allowed && !k.answerDenied && k.finalGuard == GuardAllows
            && EntryCalls(k) == [] && !k.turn.truncated && !Blank(k.turn.content))
  {
    hide EntryCalls, Blank;
    var activated := ActivateEntry(RecordTurn(s), k);
    if activated.Continue? {
      SettleTurnEffect(AppendAssistant(activated.state, k), maxSteps, k, EntryCalls(k));
    }
    hide SettleTurn;
  }

  lemma AfterProviderEffect(s: State, maxSteps: nat, k: ModelInput)
    ensures
      var t := AfterProvider(s, maxSteps, k);
      && t.stepCount == s.stepCount + (if k.outputGuard == GuardAllows then 1 else 0)
      && (s.repairCount >= k.finalSkill.repairLimit ==> t.repairCount == s.repairCount)
      && (s.finalAnswer.None? ==> t.finalAnswer != Some(FailureNotice(NoUsableContent)))
      && (s.status == Reasoning && t.status == Completed ==>
            && k.finalVerdict.allowed && !k.answerDenied && k.outputGuard == GuardAllows && k.finalGuard == GuardAllows
            && EntryCalls(k) == [] && !k.turn.truncated && !Blank(k.turn.content))
  {
    NoteAllNotes(s, k.turnNotes);
    hide NoteAll, EntryCalls, Blank;
    TakeTurnEffect(NoteAll(s, k.turnNotes), maxSteps, k);
    hide TakeTurn;
  }

  lemma ResumeKeepsSteps(s: State, r: Resume)
    ensures ApplyResume(s, r).stepCount == s.stepCount
  {
    TellKeeps(s, r);
    hide TellResume;
  }

  lemma ConfirmationKeepsSteps(s: State, action: Action, r: Resume)
    ensures ApplyConfirmation(s, action, r).stepCount == s.stepCount
  {
  }

  lemma WaitingKeepsSteps(s: State, r: Resume)
    ensures AwaitUserStep(s, r).stepCount == s.stepCount && ApplyResume(s, r).stepCount == s.stepCount
  {
    ResumeKeepsSteps(s, r);
    if s.pendingAction.Some? {
      ConfirmationKeepsSteps(s, s.pendingAction.value, r);
    }
    hide ApplyResume, ApplyConfirmation;
  }

  lemma ModelStepCounts(s: State, maxSteps: nat, k: ModelInput)
    ensures
      var asked := BeforeProvider(s, maxSteps, k).Continue?;
      && (asked ==> s.stepCount < maxSteps)
      && ModelStep(s, maxSteps, k).stepCount == s.stepCount + (if asked && k.outputGuard == GuardAllows then 1 else 0)
  {
    BeforeProviderEffect(s, maxSteps, k);
    AfterProviderEffect(BeforeProvider(s, maxSteps, k).state, maxSteps, k);
    hide BeforeProvider, AfterProvider, Blank;
  }

  lemma AdvanceCountsTurns(maxSteps: nat, c: Config, input: Input)
    requires Inv(c)
    ensures Advance(maxSteps, c, input).state.stepCount
         == c.state.stepCount + (if CallsProvider(maxSteps, c, input) then 1 else 0)
                              - (if WithholdsTurn(maxSteps, c, input) then 1 else 0)
    ensures CallsProvider(maxSteps, c, input) ==> c.state.stepCount < maxSteps
  {
    hide Open, Closed, BeforeProvider;
    match c.node
    case ModelNode =>
      ModelStepCounts(c.state, maxSteps, input.model);
      hide ModelStep;
    case ToolsNode =>
      ToolStepEffect(c.state, input.tools);
      hide ToolStep, AsksFor, GoesBackground;
    case _ =>
      WaitingKeepsSteps(c.state, input.resume);
      hide AwaitUserStep, ApplyResume;
  }

  /** Over the whole run, suspended or not, every provider call counts as a step unless
      its turn was withheld; so calls that were not withheld never exceed the step limit. */
  lemma {:induction false} TurnsAreCounted(maxSteps: nat, c: Config, inputs: seq<Input>)
    requires Inv(c)
    ensures Run(maxSteps, c, inputs).state.stepCount
         == c.state.stepCount + ProviderCalls(maxSteps, c, inputs) - WithheldTurns(maxSteps, c, inputs)
    ensures ProviderCalls(maxSteps, c, inputs) <= Rest(maxSteps, c.state.stepCount) + WithheldTurns(maxSteps, c, inputs)
  {
    hide Inv, Advance, CallsProvider, WithholdsTurn;
    if inputs != [] {
      var front := inputs[..|inputs| - 1];
      TurnsAreCounted(maxSteps, c, front);
      RunKeepsInv(maxSteps, c, front);
      AdvanceCountsTurns(maxSteps, Run(maxSteps, c, front), inputs[|inputs| - 1]);
    }
  }

  /** A blocked turn ends the run. */
  lemma BlockedTurnEnds(maxSteps: nat, c: Config, input: Input)
    requires Inv(c) && CallsProvider(maxSteps, c, input) && input.model.outputGuard == GuardBlocks
    ensures Advance(maxSteps, c, input).node == End
  {
    BeforeProviderSettles(c.state, maxSteps, input.model);
    var reached := BeforeProvider(c.state, maxSteps, input.model).state;
    NoteAllNotes(reached, input.model.turnNotes);
    var noted := NoteAll(reached, input.model.turnNotes);
    hide BeforeProvider, NoteAll;
    FailedIsClosed(noted, BlockedByGuardrail);
    assert ModelStep(c.state, maxSteps, input.model) == FinishFailed(noted, BlockedByGuardrail);
    hide ModelStep, Closed, Open;
  }

  lemma {:induction false} BlocksAreFinal(maxSteps: nat, c: Config, inputs: seq<Input>)
    requires Inv(c) && forall i :: 0 <= i < |inputs| ==> inputs[i].model.outputGuard != GuardAsks
    ensures ProviderCalls(maxSteps, c, inputs) <= Rest(maxSteps, c.state.stepCount)
    ensures WithheldTurns(maxSteps, c, inputs) == 0 || Run(maxSteps, c, inputs).node == End
  {
    hide Inv, Advance, CallsProvider, WithholdsTurn;
    if inputs != [] {
      var front, last := inputs[..|inputs| - 1], inputs[|inputs| - 1];
      assert forall i :: 0 <= i < |front| ==> front[i] == inputs[i];
      BlocksAreFinal(maxSteps, c, front);
      RunKeepsInv(maxSteps, c, front);
      TurnsAreCounted(maxSteps, c, front);
      BlockedOrCounted(maxSteps, Run(maxSteps, c, front), last);
      AdvanceCountsTurns(maxSteps, Run(maxSteps, c, front), last);
    }
  }

  lemma BlockedOrCounted(maxSteps: nat, c: Config, input: Input)
    requires Inv(c) && input.model.outputGuard != GuardAsks
    ensures WithholdsTurn(maxSteps, c, input) ==> Advance(maxSteps, c, input).node == End
    ensures CallsProvider(maxSteps, c, input) ==> c.node != End
    ensures c.node == End ==> Advance(maxSteps, c, input).node == End
  {
    if WithholdsTurn(maxSteps, c, input) {
      BlockedTurnEnds(maxSteps, c, input);
    }
    hide Inv, BeforeProvider, ModelStep;
  }

  /** Only approvals lift the step limit: where the guardrail on model output never asks
      for one, the provider is called no more often than there are steps left. */
  lemma StepsBoundCallsWithoutApprovals(maxSteps: nat, c: Config, inputs: seq<Input>)
    requires Inv(c) && forall i :: 0 <= i < |inputs| ==> inputs[i].model.outputGuard != GuardAsks
    ensures ProviderCalls(maxSteps, c, inputs) <= Rest(maxSteps, c.state.stepCount)
  {
    hide Inv;
    BlocksAreFinal(maxSteps, c, inputs);
  }

  const PLAIN_SKILL := Skill(false, false, 0, false, false, false)

  /** Everything is allowed, and the guardrail asks for approval of the model's turn. */
  const ASK_FOR_APPROVAL := Input(
    ModelInput(
      PLAIN_SKILL, Completion(true, false, false), [], HookAllows, [], [], GuardAllows, [], None, [],
      GuardAsks, [], Turn("", [], false), KeepsCalls, PLAIN_SKILL, Completion(true, false, false),
      false, [], "", GuardAllows, [], ""),
    ToolInput(0, []), Resume(false, true, "", 0))

  lemma ApprovalRound(maxSteps: nat, s: State) returns (waiting: State, resumed: State)
    requires Ready(s) && s.stepCount < maxSteps
    ensures CallsProvider(maxSteps, Config(ModelNode, s), ASK_FOR_APPROVAL)
    ensures Advance(maxSteps, Config(ModelNode, s), ASK_FOR_APPROVAL) == Config(AwaitUserNode, waiting)
    ensures Advance(maxSteps, Config(AwaitUserNode, waiting), ASK_FOR_APPROVAL) == Config(ModelNode, resumed)
    ensures Ready(resumed) && resumed.stepCount == s.stepCount
  {
    var k := ASK_FOR_APPROVAL.model;
    var reached := BeforeProvider(s, maxSteps, k);
    assert reached.Continue?;
    BeforeProviderSettles(s, maxSteps, k);
    BeforeProviderEffect(s, maxSteps, k);
    hide BeforeProvider;
    NoteAllNotes(reached.state, []);
    var noted := NoteAll(reached.state, k.turnNotes);
    hide NoteAll;
    ConfirmationWaits(noted, ConfirmGuarded);
    waiting := WaitForConfirmation(noted, ConfirmGuarded);
    assert ModelStep(s, maxSteps, k) == waiting;
    ResumeIsReady(waiting, ASK_FOR_APPROVAL.resume);
    resumed := ApplyResume(waiting, ASK_FOR_APPROVAL.resume);
    hide ModelStep, ApplyResume, Ready, Waits;
  }

  /** The step limit alone does not bound provider calls: with approval of model output
      required, a run limited to one step that records no invocations can call the
      provider any number of times. (Where invocations are recorded, the second call of a
      step comes under the id of the first with another request, and is a conflict.) */
  lemma {:induction false} ApprovalsLiftTheLimit(s: State, n: nat) returns (inputs: seq<Input>)
    requires Ready(s) && s.stepCount == 0
    ensures ProviderCalls(1, Config(ModelNode, s), inputs) == n
    ensures Run(1, Config(ModelNode, s), inputs).node == ModelNode
    ensures Ready(Run(1, Config(ModelNode, s), inputs).state) && Run(1, Config(ModelNode, s), inputs).state.stepCount == 0
  {
    hide Advance, Ready, CallsProvider;
    var c := Config(ModelNode, s);
    if n == 0 {
      inputs := [];
    } else {
      var front := ApprovalsLiftTheLimit(s, n - 1);
      var waiting, resumed := ApprovalRound(1, Run(1, c, front).state);
      var middle := front + [ASK_FOR_APPROVAL];
      assert middle[..|front|] == front;
      assert Run(1, c, middle) == Config(AwaitUserNode, waiting);
      inputs := middle + [ASK_FOR_APPROVAL];
      assert inputs[..|middle|] == middle;
      assert !CallsProvider(1, Config(AwaitUserNode, waiting), ASK_FOR_APPROVAL) by {
        NoCallWhileWaiting(1, waiting, ASK_FOR_APPROVAL);
      }
    }
  }

  lemma NoCallWhileWaiting(maxSteps: nat, s: State, input: Input)
    ensures !CallsProvider(maxSteps, Config(AwaitUserNode, s), input)
  {
  }

  // ---------------------------------------------------------------- how a run may end

  /** A run completes only on an answer the workflow policy, the answer hook and all
      guardrails let through. */
  lemma CompletedMeansAllowed(s: State, maxSteps: nat, k: ModelInput)
    requires ModelStep(s, maxSteps, k).status == Completed
    ensures k.finalVerdict.allowed && !k.answerDenied
    ensures k.before == HookAllows && k.inputGuard == GuardAllows && k.outputGuard == GuardAllows && k.finalGuard == GuardAllows
    ensures k.turn.calls == [] && !k.turn.truncated && !Blank(k.turn.content)
  {
    BeforeProviderEffect(s, maxSteps, k);
    var reached := BeforeProvider(s, maxSteps, k);
    AfterProviderEffect(reached.state, maxSteps, k);
    hide BeforeProvider, AfterProvider, Blank;
  }

  /** Blank answers are retried, never finalized: the failure for an answer without
      usable content cannot occur. */
  lemma BlankAnswersAreNotFinalized(s: State, maxSteps: nat, k: ModelInput)
    requires s.finalAnswer.None?
    ensures ModelStep(s, maxSteps, k).finalAnswer != Some(FailureNotice(NoUsableContent))
  {
    BeforeProviderEffect(s, maxSteps, k);
    var reached := BeforeProvider(s, maxSteps, k);
    AfterProviderEffect(reached.state, maxSteps, k);
    hide BeforeProvider, AfterProvider;
  }

  /** Inputs under which no skill allows more repairs than `limit`, and no failed task fewer. */
  ghost predicate RepairsWithin(inputs: seq<Input>, limit: nat) {
    forall i :: 0 <= i < |inputs| ==>
      && inputs[i].model.skill.repairLimit <= limit && inputs[i].model.finalSkill.repairLimit <= limit
      && (inputs[i].resume.failed ==> inputs[i].resume.repairLimit >= limit)
  }

  lemma ModelStepGrantsNoRepair(s: State, maxSteps: nat, k: ModelInput)
    requires k.skill.repairLimit <= s.repairCount && k.finalSkill.repairLimit <= s.repairCount
    ensures ModelStep(s, maxSteps, k).repairCount == s.repairCount
  {
    BeforeProviderEffect(s, maxSteps, k);
    AfterProviderEffect(BeforeProvider(s, maxSteps, k).state, maxSteps, k);
    hide BeforeProvider, AfterProvider, Blank;
  }

  lemma ResumeKeepsRepairs(s: State, r: Resume, limit: nat)
    requires s.repairCount >= limit && (r.failed ==> r.repairLimit >= limit)
    ensures ApplyResume(s, r).repairCount >= limit
    ensures s.pendingAction.Some? ==> ApplyConfirmation(s, s.pendingAction.value, r).repairCount == s.repairCount
  {
    TellKeeps(s, r);
    hide TellResume;
  }

  lemma AdvanceGrantsNoRepair(maxSteps: nat, c: Config, input: Input, limit: nat)
    requires Inv(c) && c.state.repairCount >= limit && RepairsWithin([input], limit)
    ensures Advance(maxSteps, c, input).state.repairCount >= limit
    ensures c.node == ModelNode ==> Advance(maxSteps, c, input).state.repairCount == c.state.repairCount
  {
    assert [input][0] == input;
    hide Open, Closed, Counted;
    match c.node
    case ModelNode =>
      ModelStepGrantsNoRepair(c.state, maxSteps, input.model);
      hide ModelStep;
    case ToolsNode =>
      ToolStepEffect(c.state, input.tools);
      hide ToolStep, AsksFor, GoesBackground;
    case _ =>
      ResumeKeepsRepairs(c.state, input.resume, limit);
      hide ApplyResume, ApplyConfirmation;
  }

  lemma {:induction false} RunGrantsNoRepair(maxSteps: nat, c: Config, inputs: seq<Input>, limit: nat)
    requires Inv(c) && c.state.repairCount >= limit && RepairsWithin(inputs, limit)
    ensures Run(maxSteps, c, inputs).state.repairCount >= limit
  {
    hide Inv, Advance;
    if inputs != [] {
      var front, last := inputs[..|inputs| - 1], inputs[|inputs| - 1];
      RunGrantsNoRepair(maxSteps, c, front, limit);
      RunKeepsInv(maxSteps, c, front);
      AdvanceGrantsNoRepair(maxSteps, Run(maxSteps, c, front), last, limit);
    }
  }

  lemma FailedTaskSpendsRepairs(maxSteps: nat, c: Config, input: Input)
    requires Inv(c) && c.node == AwaitAsyncNode && input.resume.failed
    ensures
      var next := Advance(maxSteps, c, input);
      next.node == ModelNode && next.state.repairCount == input.resume.repairLimit
  {
    TellKeeps(c.state, input.resume);
    hide TellResume, Open, Counted;
  }

  lemma {:induction false} RunAfter(maxSteps: nat, c: Config, inputs: seq<Input>)
    requires inputs != []
    ensures Run(maxSteps, c, inputs) == Run(maxSteps, Advance(maxSteps, c, inputs[0]), inputs[1..])
    decreases |inputs|
  {
    hide Advance;
    if |inputs| > 1 {
      var front := inputs[..|inputs| - 1];
      RunAfter(maxSteps, c, front);
      assert inputs[1..][..|inputs| - 2] == front[1..];
    } else {
      assert inputs[..0] == [] && inputs[1..] == [];
    }
  }

  /** After background work has failed, no model visit of the rest of the run is granted a
      repair by a skill with the same limit: the count never changes at one. */
  lemma FailedTaskForbidsRepair(maxSteps: nat, c: Config, inputs: seq<Input>, k: nat)
    requires Inv(c) && c.node == AwaitAsyncNode && 1 <= k < |inputs|
    requires inputs[0].resume.failed && RepairsWithin(inputs, inputs[0].resume.repairLimit)
    ensures
      var before := Run(maxSteps, c, inputs[..k]);
      && before.state.repairCount >= inputs[0].resume.repairLimit
      && (before.node == ModelNode ==> Run(maxSteps, c, inputs[..k + 1]).state.repairCount == before.state.repairCount)
  {
    var limit := inputs[0].resume.repairLimit;
    var resumed := Advance(maxSteps, c, inputs[0]);
    FailedTaskSpendsRepairs(maxSteps, c, inputs[0]);
    AdvanceKeepsInv(maxSteps, c, inputs[0]);
    RunAfter(maxSteps, c, inputs[..k]);
    assert inputs[..k][1..] == inputs[1..k] && inputs[..k + 1][..k] == inputs[..k];
    hide Inv, Advance;
    RunGrantsNoRepair(maxSteps, resumed, inputs[1..k], limit);
    RunKeepsInv(maxSteps, resumed, inputs[1..k]);
    AdvanceGrantsNoRepair(maxSteps, Run(maxSteps, c, inputs[..k]), inputs[k], limit);
  }

  /** A confirmation is spent by the call it released, unless the tool filed the action
      under another id than the call's. */
  lemma ConfirmationIsSpent(s: State, action: Action, r: Resume, t: ToolInput)
    requires Open(s) && action.deferred.Some? && r.confirmed && GrantId(action) !in s.grants
    ensures
      var after := ToolStep(ApplyConfirmation(s, action, r), t);
      && (GrantId(action) in after.grants <==> action.callId != "" && action.callId != action.deferred.value.id)
      && (after.grants <= s.grants <==> GrantId(action) == action.deferred.value.id)
  {
    var confirmed := ApplyConfirmation(s, action, r);
    ToolStepEffect(confirmed, t);
    hide ToolStep, Open, AsksFor, GoesBackground;
    assert confirmed.pendingCalls == [action.deferred.value];
    assert Ids(confirmed.pendingCalls) == {action.deferred.value.id};
  }

  // ---------------------------------------------------------------- what becomes of a turn

  /** The turn is let through, and asks for no tools. */
  ghost predicate Prose(s: State, maxSteps: nat, k: ModelInput) {
    BeforeProvider(s, maxSteps, k).Continue? && k.outputGuard == GuardAllows && k.turn.calls == []
  }

  /** A prose turn is settled on a state that differs from the one the provider was
      asked on by its events, the step and the assistant's message. */
  lemma ProseIsSettled(s: State, maxSteps: nat, k: ModelInput) returns (asked: State, answered: State)
    requires Prose(s, maxSteps, k)
    ensures asked == BeforeProvider(s, maxSteps, k).state
    ensures answered == asked.(events := answered.events, stepCount := s.stepCount + 1,
                               messages := asked.messages + [Assistant(k.turn.content, [])])
    ensures ModelStep(s, maxSteps, k) == SettleTurn(answered, maxSteps, k, [])
  {
    BeforeProviderEffect(s, maxSteps, k);
    asked := BeforeProvider(s, maxSteps, k).state;
    NoteAllNotes(asked, k.turnNotes);
    hide BeforeProvider, NoteAll, SettleTurn;
    answered := AppendAssistant(RecordTurn(NoteAll(asked, k.turnNotes)), k);
  }

  /** A prose turn cut off by the output limit adds its text to the parts; the model is
      asked to go on at most twice, within the step limit, and otherwise the run fails. */
  lemma CutOffTurnIsContinued(s: State, maxSteps: nat, k: ModelInput)
    requires Prose(s, maxSteps, k) && k.turn.truncated
    ensures
      var t := ModelStep(s, maxSteps, k);
      && t.partialParts == s.partialParts + (if k.turn.content == "" then [] else [k.turn.content])
      && t.continuationCount == s.continuationCount + 1
      && if s.continuationCount < MAX_CONTINUATIONS && s.stepCount + 1 < maxSteps
         then RouteAfterModel(t) == ModelNode
         else t.finalAnswer == Some(FailureNotice(TruncatedResponse))
  {
    hide ModelStep, BeforeProvider, FinalizeAnswer, RetryOrFailEmpty, Blank;
    BeforeProviderEffect(s, maxSteps, k);
    var asked, answered := ProseIsSettled(s, maxSteps, k);
  }

  /** An empty turn leaves no message behind: the log goes on from where the provider was
      asked, with a prompt to answer if the model is asked again. */
  lemma EmptyTurnLeavesNoMessage(s: State, maxSteps: nat, k: ModelInput)
    requires Prose(s, maxSteps, k) && !k.turn.truncated && Blank(k.turn.content)
    ensures
      var t, asked := ModelStep(s, maxSteps, k), BeforeProvider(s, maxSteps, k).state;
      if s.emptyCount < MAX_EMPTY_RETRIES && s.stepCount + 1 < maxSteps
      then t.messages == asked.messages + [SystemSays("answer")] && t.emptyRetryPending && t.status == Reasoning
      else t.messages == asked.messages && t.finalAnswer == Some(FailureNotice(EmptyResponse))
  {
    BeforeProviderEffect(s, maxSteps, k);
    var asked, answered := ProseIsSettled(s, maxSteps, k);
    assert answered.messages[..|answered.messages| - 1] == asked.messages;
    hide ModelStep, BeforeProvider, FinalizeAnswer, ContinueOrFailTruncated, Blank;
  }

  /** What a completed run delivers: the parts gathered from turns that were cut off,
      joined with the last turn's text, unless the hook or the guardrail rewrites it. */
  lemma DeliveredAnswerIsWhole(s: State, maxSteps: nat, k: ModelInput)
    requires ModelStep(s, maxSteps, k).status == Completed
    ensures
      var t := ModelStep(s, maxSteps, k);
      && t.finalAnswer == Some(Delivered(OrElse(k.finalPatch, OrElse(k.answerPatch, FinalText(s, k.turn.content)))))
      && t.partialParts == [] && !t.continuationPending
  {
    CompletedMeansAllowed(s, maxSteps, k);
    BeforeProviderEffect(s, maxSteps, k);
    ReachedProvider(s, maxSteps, k);
    var asked, answered := ProseIsSettled(s, maxSteps, k);
    hide ModelStep, BeforeProvider, Blank, OrElse;
    var accepted := AcceptAnswer(answered.(emptyCount := 0, emptyRetryPending := false), k);
    assert FinalText(answered.(emptyCount := 0, emptyRetryPending := false), k.turn.content) == FinalText(s, k.turn.content);
    hide FinalText;
    DeliveredText(accepted, k, FinalText(s, k.turn.content));
    assert accepted.partialParts == [] && !accepted.continuationPending;
    hide DeliverAnswer, AcceptAnswer;
  }

  lemma ReachedProvider(s: State, maxSteps: nat, k: ModelInput)
    requires ModelStep(s, maxSteps, k).status == Completed
    ensures BeforeProvider(s, maxSteps, k).Continue?
  {
    BeforeProviderEffect(s, maxSteps, k);
    hide BeforeProvider, AfterProvider;
  }

  lemma DeliveredText(s: State, k: ModelInput, text: string)
    requires !k.answerDenied && k.finalGuard == GuardAllows
    ensures
      var t := DeliverAnswer(s, k, text);
      && t.finalAnswer == Some(Delivered(OrElse(k.finalPatch, OrElse(k.answerPatch, text))))
      && t.partialParts == s.partialParts && t.continuationPending == s.continuationPending
  {
    NoteAllNotes(s, k.answerNotes);
    NoteAllNotes(NoteAll(s, k.answerNotes), k.finalNotes);
    hide NoteAll, OrElse;
  }
}
