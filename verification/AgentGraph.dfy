/** The agent graph: what its model, tools and await nodes do to a run's state, and
    how the run is routed between them. Everything the nodes ask of hooks,
    guardrails, the model, tools and the user is an arbitrary input. */
module AgentGraph {
  import opened Options
  import opened RunState
  import opened PyText
  import opened AnswerParts

  datatype Hook = HookAllows | HookDenies | HookWaits

  datatype Guard = GuardAllows | GuardBlocks | GuardAsks

  /** A model turn as the guardrail on model output leaves it; `calls` are the calls
      that survive de-duplication and disclosure. */
  datatype Turn = Turn(content: string, calls: seq<Call>, truncated: bool)

  datatype Entry = KeepsCalls | InvalidSnapshot | OutOfScope | Activates(calls: seq<Call>)

  datatype ModelInput = ModelInput(
    skill: Skill, verdict: Completion, viewNotes: seq<string>,
    before: Hook, beforeNotes: seq<string>, beforeMessages: seq<Msg>,
    inputGuard: Guard, inputNotes: seq<string>, replaced: Option<seq<Msg>>, inputMessages: seq<Msg>,
    outputGuard: Guard, turnNotes: seq<string>, turn: Turn,
    entry: Entry,
    finalSkill: Skill, finalVerdict: Completion,
    answerDenied: bool, answerNotes: seq<string>, answerPatch: string,
    finalGuard: Guard, finalNotes: seq<string>, finalPatch: string)

  datatype ToolOutcome =
    | Skipped(callId: string)
    | AsksUser(callId: string, action: Action)
    | GoesAsync(callId: string, tool: string)
    | Ends(callId: string, ok: bool)

  /** `suspending` counts the pending calls whose tools may suspend the run. */
  datatype ToolInput = ToolInput(suspending: nat, outcomes: seq<ToolOutcome>)

  datatype Resume = Resume(failed: bool, confirmed: bool, text: string, repairLimit: RepairLimit)

  datatype Input = Input(model: ModelInput, tools: ToolInput, resume: Resume)

  /** A stage of a node either ends the node or lets it go on. */
  datatype Flow = Done(state: State) | Continue(state: State)

  function OrElse(patch: string, text: string): string {
    if patch == "" then text else patch
  }

  // ---------------------------------------------------------------- model node

  predicate Finalizing(k: ModelInput) {
    k.skill.active && k.skill.durable && k.verdict.allowed
  }

  function TellFinalization(s: State, k: ModelInput): State {
    if Finalizing(k) && !s.finalizationTold then
      Emit(Say(s, SystemSays("finalize")).(finalizationTold := true), WorkflowFinalizing)
    else s
  }

  function PrepareStep(s: State, maxSteps: nat, k: ModelInput): Flow {
    if s.stepCount >= maxSteps then
      Done(if k.skill.active && k.skill.durable && !k.verdict.allowed && s.phase == Repairing
           then RepairOrFail(s, k.skill, k.verdict) else FinishFailed(s, StepLimit))
    else
      Continue(NoteAll(TellFinalization(Emit(s.(status := Reasoning), AgentReasoning), k), k.viewNotes))
  }

  function BeforeModel(s: State, k: ModelInput): Flow {
    var noted := NoteAll(s, k.beforeNotes);
    match k.before
    case HookDenies => Done(FinishFailed(noted, DeniedByHook))
    case HookWaits => Done(WaitForConfirmation(noted, ConfirmModel))
    case HookAllows => Continue(noted.(messages := noted.messages + k.beforeMessages))
  }

  function Guarded(s: State, guard: Guard): Flow {
    match guard
    case GuardBlocks => Done(FinishFailed(s, BlockedByGuardrail))
    case GuardAsks => Done(WaitForConfirmation(s, ConfirmGuarded))
    case GuardAllows => Continue(s)
  }

  function GuardInput(s: State, k: ModelInput): Flow {
    var flow := Guarded(NoteAll(s, k.inputNotes), k.inputGuard);
    if flow.Done? then flow
    else
      var base := if k.replaced.Some? then k.replaced.value else flow.state.messages;
      Continue(flow.state.(messages := base + k.inputMessages))
  }

  /** Everything up to the call of the provider. */
  function BeforeProvider(s: State, maxSteps: nat, k: ModelInput): Flow {
    var prepared := PrepareStep(s, maxSteps, k);
    if prepared.Done? then prepared
    else
      var allowed := BeforeModel(prepared.state, k);
      if allowed.Done? then allowed else GuardInput(allowed.state, k)
  }

  function RecordTurn(s: State): State {
    Emit(s, UsageRecorded).(stepCount := s.stepCount + 1)
  }

  /** The calls to run: those the model chose, unless an entry tool's skill restates them. */
  function EntryCalls(k: ModelInput): seq<Call> {
    if k.turn.calls != [] && !k.skill.active && k.entry.Activates? && k.entry.calls != [] then k.entry.calls
    else k.turn.calls
  }

  function ActivateEntry(s: State, k: ModelInput): Flow {
    if k.turn.calls == [] || k.skill.active then Continue(s)
    else
      match k.entry
      case KeepsCalls => Continue(s)
      case InvalidSnapshot => Done(FinishFailed(s, BadActivation))
      case OutOfScope => Done(FinishFailed(s, BadActivation))
      case Activates(calls) =>
        if (set c | c in EntryCalls(k)) != (set c | c in k.turn.calls) then Done(FinishFailed(s, BadActivation))
        else Continue(Emit(s, SkillActivated))
  }

  function AppendAssistant(s: State, k: ModelInput): State {
    Emit(Say(s, Assistant(k.turn.content, EntryCalls(k))), ModelCompleted)
  }

  function FinalText(s: State, content: string): string {
    if s.partialParts == [] then content
    else Merge(s.partialParts + (if content == "" then [] else [content]))
  }

  /** An accepted answer: the policy is fulfilled and no part is left to continue. */
  function AcceptAnswer(s: State, k: ModelInput): State {
    var fulfilled := if k.finalSkill.active && k.finalSkill.durable
      then s.(phase := Fulfilled, missingTools := k.finalVerdict.missingTools) else s;
    fulfilled.(partialParts := [], continuationPending := false, continuationCount := 0)
  }

  function DeliverAnswer(s: State, k: ModelInput, text: string): State {
    var noted := NoteAll(s, k.answerNotes);
    if k.answerDenied then FinishFailed(noted, DeniedByHook)
    else
      var flow := Guarded(NoteAll(noted, k.finalNotes), k.finalGuard);
      if flow.Done? then flow.state else FinishCompleted(flow.state, OrElse(k.finalPatch, OrElse(k.answerPatch, text)))
  }

  function FinalizeAnswer(s: State, k: ModelInput): State {
    if Blank(k.turn.content) then FinishFailed(s, NoUsableContent)
    else if !k.finalVerdict.allowed then
      if CanWaitForInput(s, k.finalSkill, k.finalVerdict) then WaitForInput(s, k.finalVerdict)
      else RepairOrFail(s, k.finalSkill, k.finalVerdict)
    else DeliverAnswer(AcceptAnswer(s, k), k, FinalText(s, k.turn.content))
  }

  function SettleTurn(s: State, maxSteps: nat, k: ModelInput, calls: seq<Call>): State
    requires s.messages != []
  {
    if calls == [] && k.turn.truncated then ContinueOrFailTruncated(s, k.turn.content, s.stepCount < maxSteps)
    else if calls == [] && Blank(k.turn.content) then
      RetryOrFailEmpty(s.(messages := s.messages[..|s.messages| - 1]), s.stepCount < maxSteps)
    else
      var answered := s.(emptyCount := 0, emptyRetryPending := false);
      if calls != [] then answered.(pendingCalls := calls, status := ExecutingTools)
      else FinalizeAnswer(answered, k)
  }

  /** A turn that was let through is recorded, and acted on. */
  function TakeTurn(s: State, maxSteps: nat, k: ModelInput): State {
    var activated := ActivateEntry(RecordTurn(s), k);
    if activated.Done? then activated.state
    else SettleTurn(AppendAssistant(activated.state, k), maxSteps, k, EntryCalls(k))
  }

  /** Everything after the provider has answered. */
  function AfterProvider(s: State, maxSteps: nat, k: ModelInput): State {
    var guarded := Guarded(NoteAll(s, k.turnNotes), k.outputGuard);
    if guarded.Done? then guarded.state else TakeTurn(guarded.state, maxSteps, k)
  }

  function ModelStep(s: State, maxSteps: nat, k: ModelInput): State {
    var reached := BeforeProvider(s, maxSteps, k);
    if reached.Done? then reached.state else AfterProvider(reached.state, maxSteps, k)
  }

  // ---------------------------------------------------------------- tools node

  function ApplyOutcome(s: State, o: ToolOutcome): State {
    match o
    case Skipped(callId) => Emit(s, ToolSkipped(callId))
    case AsksUser(callId, action) => Emit(s.(pendingAction := Some(action)), ToolRequiresUser(callId))
    case GoesAsync(callId, tool) => Emit(s.(pendingAsync := Some(Async(callId, tool))), ToolWaitingAsync(callId))
    case Ends(callId, ok) => Emit(Say(s, ToolAnswer(callId)), if ok then ToolCompleted(callId) else ToolFailed(callId))
  }

  function ApplyOutcomes(s: State, outcomes: seq<ToolOutcome>): State
    decreases |outcomes|
  {
    if outcomes == [] then s
    else ApplyOutcome(ApplyOutcomes(s, outcomes[..|outcomes| - 1]), outcomes[|outcomes| - 1])
  }

  /** More than one call that may suspend: none of them is run. */
  function OutcomesOf(s: State, t: ToolInput): seq<ToolOutcome> {
    if t.suspending > 1 then
      seq(|s.pendingCalls|, i requires 0 <= i < |s.pendingCalls| => Ends(s.pendingCalls[i].id, false))
    else t.outcomes
  }

  function StartEvents(calls: seq<Call>): seq<EventKind> {
    seq(|calls|, i requires 0 <= i < |calls| => ToolStarted(calls[i].id))
  }

  function StartTools(s: State, t: ToolInput): State {
    if t.suspending > 1 then s else EmitAll(s, StartEvents(s.pendingCalls))
  }

  function Ids(calls: seq<Call>): set<string> {
    set c | c in calls :: c.id
  }

  function StatusOf(s: State): Status {
    if s.pendingAction.Some? then WaitingUser
    else if s.pendingAsync.Some? then WaitingAsync
    else if s.pendingCalls != [] then ExecutingTools
    else Reasoning
  }

  function ToolStep(s: State, t: ToolInput): State {
    var cleared := StartTools(s, t).(pendingCalls := [], pendingAction := None, pendingAsync := None);
    var applied := ApplyOutcomes(cleared, OutcomesOf(s, t));
    var spent := applied.(grants := applied.grants - Ids(s.pendingCalls));
    spent.(status := StatusOf(spent))
  }

  // ---------------------------------------------------------------- await nodes

  function PendingCallId(s: State): string {
    if s.pendingAction.Some? then s.pendingAction.value.callId
    else if s.pendingAsync.Some? then s.pendingAsync.value.callId
    else ""
  }

  predicate AnswersClarification(s: State) {
    s.pendingAction.Some? && s.pendingAction.value.kind.Clarification?
  }

  /** What the model is told of the user's answer or the finished task. */
  function TellResume(s: State, r: Resume): State {
    if AnswersClarification(s) then
      var counted := s.(clarificationResumes := s.clarificationResumes + 1);
      Say(if s.missingTools then Say(counted, SystemSays("resume")) else counted, UserSays(r.text))
    else Say(s, ToolAnswer(PendingCallId(s)))
  }

  function ApplyResume(s: State, r: Resume): State {
    var told := TellResume(s, r);
    var limited := if r.failed && s.pendingAsync.Some? then told.(repairCount := r.repairLimit) else told;
    Emit(limited.(pendingAction := None, pendingAsync := None, status := Reasoning), RunResumed)
  }

  function GrantId(action: Action): string {
    if action.callId != "" then action.callId else if action.deferred.Some? then action.deferred.value.id else ""
  }

  function ApplyConfirmation(s: State, action: Action, r: Resume): State {
    var cleared := s.(pendingAction := None, pendingAsync := None);
    if r.confirmed && action.deferred.Some? then
      Emit(
        cleared.(pendingCalls := [action.deferred.value], status := ExecutingTools,
                 grants := cleared.grants + {GrantId(action)}),
        PolicyConfirmed)
    else
      Emit(Say(cleared, ToolAnswer(GrantId(action))).(pendingCalls := [], status := Reasoning), PolicyCanceled)
  }

  function AwaitUserStep(s: State, r: Resume): State {
    if s.pendingAction.Some? && s.pendingAction.value.IsPolicyConfirmation()
    then ApplyConfirmation(s, s.pendingAction.value, r)
    else ApplyResume(s, r)
  }

  // ---------------------------------------------------------------- routes

  datatype Node = ModelNode | ToolsNode | AwaitUserNode | AwaitAsyncNode | End | Crashed

  function RouteFromStart(s: State): Node {
    if s.pendingCalls != [] then ToolsNode else ModelNode
  }

  function RouteAfterTools(s: State): Node {
    if s.pendingCalls != [] then ToolsNode
    else if s.status == WaitingUser then AwaitUserNode
    else if s.status == WaitingAsync then AwaitAsyncNode
    else ModelNode
  }

  function RouteAfterModel(s: State): Node {
    if s.pendingCalls != [] then ToolsNode
    else if s.status == WaitingUser then AwaitUserNode
    else if s.status == Reasoning && s.phase == Repairing then ModelNode
    else if s.status == Reasoning && s.emptyRetryPending then ModelNode
    else if s.status == Reasoning && s.continuationPending then ModelNode
    else End
  }

  /** Where the run is: the node about to run, and the state it will run on. */
  datatype Config = Config(node: Node, state: State)

  function Start(s: State): Config {
    Config(RouteFromStart(s), s)
  }

  /** A node refuses a state that waits both for the user and for background work,
      and the model node one without messages. */
  predicate Refuses(c: Config) {
    || (c.state.pendingAction.Some? && c.state.pendingAsync.Some?)
    || (c.node == ModelNode && c.state.messages == [])
  }

  function Advance(maxSteps: nat, c: Config, input: Input): Config {
    if c.node == End || c.node == Crashed then c
    else if Refuses(c) then c.(node := Crashed)
    else
      match c.node
      case ModelNode =>
        var s := ModelStep(c.state, maxSteps, input.model);
        Config(RouteAfterModel(s), s)
      case ToolsNode =>
        var s := ToolStep(c.state, input.tools);
        Config(RouteAfterTools(s), s)
      case AwaitUserNode =>
        var s := AwaitUserStep(c.state, input.resume);
        Config(RouteFromStart(s), s)
      case AwaitAsyncNode =>
        var s := ApplyResume(c.state, input.resume);
        Config(RouteFromStart(s), s)
  }

  /** The run after some inputs, the first input first. */
  function Run(maxSteps: nat, c: Config, inputs: seq<Input>): Config
    decreases |inputs|
  {
    if inputs == [] then c
    else Advance(maxSteps, Run(maxSteps, c, inputs[..|inputs| - 1]), inputs[|inputs| - 1])
  }
}
