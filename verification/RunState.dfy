/** The state one agent run carries from node to node, and the transitions that
    several nodes share: emitting an event, failing, retrying, repairing, waiting. */
module RunState {
  import opened Options

  datatype Status =
    | Queued | Preparing | Reasoning | ExecutingTools | WaitingUser | WaitingAsync
    | StreamingAnswer | Completed | Failed | Canceled

  /** How far a workflow skill's completion policy has got. */
  datatype Phase = Repairing | AwaitingInput | Fulfilled | Violated | OtherPhase(name: string)

  datatype Call = Call(id: string, name: string)

  datatype ActionKind = Clarification | PolicyConfirmation | ConfirmModel | ConfirmGuarded | OtherAction(name: string)

  /** What the run waits for a user to do. `confirmsPolicy` is the flag a tool may
      set in the payload; `deferred` is the call that confirmation releases. */
  datatype Action = Action(kind: ActionKind, callId: string, confirmsPolicy: bool, deferred: Option<Call>)
  {
    predicate IsPolicyConfirmation() {
      kind.PolicyConfirmation? || confirmsPolicy
    }
  }

  datatype Async = Async(callId: string, tool: string)

  datatype Failure =
    | StepLimit | DeniedByHook | BlockedByGuardrail | EmptyResponse | TruncatedResponse
    | ContractViolation | BadActivation | NoUsableContent

  datatype Answer = Delivered(markdown: string) | FailureNotice(reason: Failure)

  datatype EventKind =
    | AgentFailed(reason: Failure) | AnswerCompleted | AgentReasoning | AgentWaitingUser | ModelCompleted
    | UsageRecorded | TruncationRetrying | TruncationExhausted | EmptyRetrying | EmptyExhausted
    | PolicyRepair | SkillWaitingInput | WorkflowFinalizing | SkillActivated
    | ToolStarted(callId: string) | ToolSkipped(callId: string) | ToolCompleted(callId: string)
    | ToolFailed(callId: string) | ToolRequiresUser(callId: string) | ToolWaitingAsync(callId: string)
    | RunResumed | PolicyConfirmed | PolicyCanceled
    | Note(text: string)

  datatype Event = Event(kind: EventKind, sequence: nat)

  datatype Msg =
    | Assistant(content: string, calls: seq<Call>)
    | ToolAnswer(callId: string)
    | UserSays(text: string)
    | SystemSays(text: string)

  datatype State = State(
    status: Status, phase: Phase, missingTools: bool, repairCount: nat, stepCount: nat,
    pendingCalls: seq<Call>, pendingAction: Option<Action>, pendingAsync: Option<Async>,
    messages: seq<Msg>, partialParts: seq<string>,
    continuationCount: nat, continuationPending: bool, emptyCount: nat, emptyRetryPending: bool,
    clarificationResumes: nat, finalizationTold: bool, grants: set<string>,
    events: seq<Event>, finalAnswer: Option<Answer>)

  const MAX_REPAIRS := 1

  /** The repair attempts a policy asks for are clamped to at most one. */
  type RepairLimit = n: nat | n <= MAX_REPAIRS

  /** What a skill's policy allows. */
  datatype Skill = Skill(
    active: bool, durable: bool, repairLimit: RepairLimit, toolContract: bool, modelMayClarify: bool, waitsForInput: bool)

  /** A verdict on whether the workflow's requirements are met. */
  datatype Completion = Completion(allowed: bool, missingTools: bool, missingGroups: bool)

  const MAX_EMPTY_RETRIES := 1
  const MAX_CONTINUATIONS := 2

  // ---------------------------------------------------------------- events

  function Emit(s: State, kind: EventKind): State {
    s.(events := s.events + [Event(kind, |s.events| + 1)])
  }

  function EmitAll(s: State, kinds: seq<EventKind>): State
    decreases |kinds|
  {
    if kinds == [] then s else Emit(EmitAll(s, kinds[..|kinds| - 1]), kinds[|kinds| - 1])
  }

  /** Events raised by parts this model treats as arbitrary. */
  function NoteAll(s: State, notes: seq<string>): State {
    EmitAll(s, seq(|notes|, i requires 0 <= i < |notes| => Note(notes[i])))
  }

  function Say(s: State, m: Msg): State {
    s.(messages := s.messages + [m])
  }

  // ---------------------------------------------------------------- ends of a run

  function FinishFailed(s: State, reason: Failure): State {
    Emit(s.(finalAnswer := Some(FailureNotice(reason)), status := Failed, pendingCalls := []), AgentFailed(reason))
  }

  function FinishCompleted(s: State, markdown: string): State {
    Emit(s.(finalAnswer := Some(Delivered(markdown)), status := Completed, pendingCalls := []), AnswerCompleted)
  }

  // ---------------------------------------------------------------- another attempt

  function ContinueOrFailTruncated(s: State, content: string, canContinue: bool): State {
    var counted := s.(
      partialParts := s.partialParts + (if content == "" then [] else [content]),
      continuationCount := s.continuationCount + 1);
    if canContinue && counted.continuationCount <= MAX_CONTINUATIONS then
      Emit(
        Say(counted.(continuationPending := true, status := Reasoning, pendingCalls := []), UserSays("continue")),
        TruncationRetrying)
    else
      FinishFailed(Emit(counted.(continuationPending := false), TruncationExhausted), TruncatedResponse)
  }

  function RetryOrFailEmpty(s: State, canRetry: bool): State {
    var counted := s.(emptyCount := s.emptyCount + 1);
    if canRetry && counted.emptyCount <= MAX_EMPTY_RETRIES then
      Emit(
        Say(counted.(emptyRetryPending := true, status := Reasoning, pendingCalls := []), SystemSays("answer")),
        EmptyRetrying)
    else
      FinishFailed(Emit(counted.(emptyRetryPending := false), EmptyExhausted), EmptyResponse)
  }

  function RepairOrFail(s: State, skill: Skill, verdict: Completion): State {
    if s.repairCount < skill.repairLimit then
      Emit(
        Say(s.(phase := Repairing, missingTools := verdict.missingTools, repairCount := s.repairCount + 1,
               status := Reasoning, pendingCalls := []), SystemSays("repair")),
        PolicyRepair)
    else
      FinishFailed(s.(phase := Violated, missingTools := verdict.missingTools), ContractViolation)
  }

  // ---------------------------------------------------------------- waiting for the user

  predicate CanWaitForInput(s: State, skill: Skill, verdict: Completion) {
    && skill.active && skill.durable
    && !skill.toolContract
    && s.clarificationResumes == 0
    && (verdict.missingTools || verdict.missingGroups) && s.phase != Repairing
    && skill.modelMayClarify
    && skill.waitsForInput
  }

  function WaitForInput(s: State, verdict: Completion): State {
    Emit(
      s.(pendingAction := Some(Action(Clarification, "", false, None)), pendingCalls := [], status := WaitingUser,
         phase := AwaitingInput, missingTools := verdict.missingTools),
      SkillWaitingInput)
  }

  function WaitForConfirmation(s: State, kind: ActionKind): State {
    Emit(s.(pendingAction := Some(Action(kind, "", false, None)), status := WaitingUser), AgentWaitingUser)
  }
}
